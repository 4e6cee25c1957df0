/** The transmit queue of the UDP link: senders, posted wake-ups and completion handlers
    (udp.cc, msgbuffer.h). */
module MavConnUdp {
  import opened Wrappers

  newtype byte = n: int | 0 <= n < 256

  const MAX_TXQ_SIZE := 1000
  /** The largest packet is 280 bytes. */
  const MAX_SIZE := 280 + 16

  /** A message and the position up to which it has been sent. */
  datatype MsgBuffer = MsgBuffer(data: seq<byte>, pos: nat) {
    predicate Valid() { pos < |data| < MAX_SIZE }

    function Pending(): seq<byte> { if pos <= |data| then data[pos..] else [] }
  }

  datatype Link = Link(queue: seq<MsgBuffer>, inProgress: bool)

  function Enqueued(l: Link, bytes: seq<byte>): Link {
    if |l.queue| >= MAX_TXQ_SIZE then l else l.(queue := l.queue + [MsgBuffer(bytes, 0)])
  }

  /** do_sendto past its test: send the rest of the first message, if there is one. */
  function Started(l: Link): (r: (Link, Option<seq<byte>>))
  {
    if l.queue == [] then (l, None) else (l.(inProgress := true), Some(l.queue[0].Pending()))
  }

  /** The first message with n more bytes sent, or gone when that was all of it. */
  function Acknowledged(queue: seq<MsgBuffer>, n: nat): seq<MsgBuffer>
    requires queue != []
  {
    var front := queue[0].(pos := queue[0].pos + n);
    if |front.data| - front.pos == 0 then queue[1..] else [front] + queue[1..]
  }

  /** The completion handler: account for the bytes sent, then send on or go idle. */
  function Completed(l: Link, n: nat): (r: (Link, Option<seq<byte>>))
  {
    if l.queue == [] then (l.(inProgress := false), None) else
      var rest := Acknowledged(l.queue, n);
      if rest != [] then Started(l.(queue := rest)) else (Link([], false), None)
  }

  class MAVConnUDP {
    var queue: seq<MsgBuffer>
    var inProgress: bool

    ghost function View(): Link
      reads this
    {
      Link(queue, inProgress)
    }

    constructor ()
      ensures View() == Link([], false)
    {
      queue, inProgress := [], false;
    }

    /** The locked part of send_bytes and send_message; overflow reports the thrown length_error. */
    method Enqueue(bytes: seq<byte>) returns (overflow: bool)
      requires 0 < |bytes| < MAX_SIZE
      modifies this`queue
      ensures overflow <==> |old(queue)| >= MAX_TXQ_SIZE
      ensures View() == Enqueued(old(View()), bytes)
    {
      if |queue| >= MAX_TXQ_SIZE { return true; }
      queue := queue + [MsgBuffer(bytes, 0)];
      return false;
    }

    /** The locked part of do_sendto; send is what is handed to async_send_to. */
    method DoSendTo() returns (send: Option<seq<byte>>)
      modifies this`inProgress
      ensures (View(), send) == Started(old(View()))
    {
      if |queue| == 0 { return None; }
      inProgress := true;
      send := Some(queue[0].Pending());
    }

    method OnSent(bytesTransferred: nat) returns (send: Option<seq<byte>>)
      modifies this
      ensures (View(), send) == Completed(old(View()), bytesTransferred)
    {
      if |queue| == 0 {
        inProgress := false;
        return None;
      }
      var front := queue[0].(pos := queue[0].pos + bytesTransferred);
      queue := [front] + queue[1..];
      if |front.data| - front.pos == 0 {
        queue := queue[1..];
      }
      if |queue| != 0 {
        send := DoSendTo();
      } else {
        inProgress := false;
        send := None;
      }
    }
  }

  // ---- the protocol: any interleaving of senders, wake-ups and completions ----

  /** The link and everything in motion around it: the sends handed to the socket, the posted
      wake-ups, the senders between enqueuing and posting, and whether the i/o thread has passed the
      test of do_sendto but not yet taken the lock. The last two record the history. */
  datatype World = World(
    link: Link, inFlight: seq<seq<byte>>, posted: nat, betweenEnqueueAndPost: nat, checked: bool,
    acknowledged: seq<byte>, accepted: seq<byte>)

  const START := World(Link([], false), [], 0, 0, false, [], [])

  datatype Action =
    | Send(bytes: seq<byte>)          // a sender takes the lock and enqueues, or overflows
    | Post                            // a sender posts its wake-up
    | Wake                            // the i/o thread takes a wake-up and tests the flag
    | Transmit                        // having passed the test, it takes the lock
    | Complete(which: nat, sent: nat) // a send completes, or the network was unreachable

  predicate Enabled(w: World, a: Action) {
    match a
    case Send(bytes) => 0 < |bytes| < MAX_SIZE
    case Post => w.betweenEnqueueAndPost > 0
    case Wake => !w.checked && w.posted > 0
    case Transmit => w.checked
    case Complete(which, sent) => !w.checked && which < |w.inFlight| && sent <= |w.inFlight[which]|
  }

  function Flight(send: Option<seq<byte>>): seq<seq<byte>> {
    if send.Some? then [send.value] else []
  }

  function Apply(w: World, a: Action): World
    requires Enabled(w, a)
  {
    match a
    case Send(bytes) =>
      if |w.link.queue| >= MAX_TXQ_SIZE then w
      else w.(link := Enqueued(w.link, bytes), betweenEnqueueAndPost := w.betweenEnqueueAndPost + 1,
              accepted := w.accepted + bytes)
    case Post => w.(betweenEnqueueAndPost := w.betweenEnqueueAndPost - 1, posted := w.posted + 1)
    case Wake => w.(posted := w.posted - 1, checked := !w.link.inProgress)
    case Transmit =>
      var (link, send) := Started(w.link);
      w.(link := link, checked := false, inFlight := w.inFlight + Flight(send))
    case Complete(which, sent) =>
      var bytes := w.inFlight[which];
      var (link, send) := Completed(w.link, sent);
      w.(link := link, inFlight := w.inFlight[..which] + w.inFlight[which + 1..] + Flight(send),
         acknowledged := w.acknowledged + bytes[..sent])
  }

  /** The bytes of the queued messages that are still to be sent. */
  function Unsent(queue: seq<MsgBuffer>): seq<byte> {
    if queue == [] then [] else queue[0].Pending() + Unsent(queue[1..])
  }

  predicate AllValid(queue: seq<MsgBuffer>) {
    forall i :: 0 <= i < |queue| ==> queue[i].Valid()
  }

  /** At most one send is outstanding, exactly while the flag is set, and it is the rest of the first
      message. */
  predicate Sane(w: World) {
    AllValid(w.link.queue) &&
    w.inFlight == (if w.link.inProgress && w.link.queue != [] then [w.link.queue[0].Pending()] else []) &&
    (w.link.inProgress ==> w.link.queue != [] && !w.checked)
  }

  /** The safety of the protocol: one send at a time, a bounded queue, no byte lost, repeated or out
      of order, and always a wake-up under way when there is something to send and nothing in flight. */
  predicate Safe(w: World) {
    Sane(w) && |w.inFlight| <= 1 && |w.link.queue| <= MAX_TXQ_SIZE &&
    w.acknowledged + Unsent(w.link.queue) == w.accepted &&
    (w.link.queue != [] && w.inFlight == [] ==> w.posted + w.betweenEnqueueAndPost > 0 || w.checked)
  }

  lemma {:induction false} UnsentAppend(queue: seq<MsgBuffer>, b: MsgBuffer)
    ensures Unsent(queue + [b]) == Unsent(queue) + b.Pending()
  {
    if queue == [] {
      assert [b][1..] == [];
    } else {
      assert (queue + [b])[1..] == queue[1..] + [b];
      UnsentAppend(queue[1..], b);
    }
  }

  lemma AcknowledgedBytes(queue: seq<MsgBuffer>, n: nat)
    requires queue != [] && AllValid(queue) && n <= |queue[0].Pending()|
    ensures var rest := Acknowledged(queue, n);
            AllValid(rest) && |rest| <= |queue| && (n == |queue[0].Pending()| ==> |rest| < |queue|) &&
            queue[0].Pending()[..n] + Unsent(rest) == Unsent(queue)
  {
    var front := queue[0].(pos := queue[0].pos + n);
    var pending, tail := queue[0].Pending(), queue[1..];
    assert AllValid(tail);
    if front.pos < |front.data| {
      var rest := [front] + tail;
      assert rest[1..] == tail;
      assert front.Pending() == pending[n..] && pending == pending[..n] + pending[n..];
      Assoc(pending[..n], pending[n..], Unsent(tail));
    } else {
      assert pending[..n] == pending;
    }
  }

  lemma Assoc<T>(a: seq<T>, b: seq<T>, c: seq<T>)
    ensures a + (b + c) == (a + b) + c
  {}

  /** Every enabled step keeps the protocol safe. */
  lemma StepSafe(w: World, a: Action)
    requires Safe(w) && Enabled(w, a)
    ensures Safe(Apply(w, a))
  {
    match a
    case Send(bytes) => SendSafe(w, bytes);
    case Complete(which, sent) => CompleteSafe(w, sent);
    case _ =>
  }

  lemma SendSafe(w: World, bytes: seq<byte>)
    requires Safe(w) && 0 < |bytes| < MAX_SIZE
    ensures Safe(Apply(w, Send(bytes)))
  {
    if |w.link.queue| < MAX_TXQ_SIZE {
      var message := MsgBuffer(bytes, 0);
      UnsentAppend(w.link.queue, message);
      assert message.Pending() == bytes && message.Valid();
      Assoc(w.acknowledged, Unsent(w.link.queue), bytes);
    }
  }

  lemma CompleteSafe(w: World, sent: nat)
    requires Safe(w) && Enabled(w, Complete(0, sent))
    ensures Safe(Apply(w, Complete(0, sent)))
  {
    AcknowledgedBytes(w.link.queue, sent);
    var rest := Acknowledged(w.link.queue, sent);
    var bytes := w.inFlight[0][..sent];
    assert w.acknowledged + (bytes + Unsent(rest)) == w.acknowledged + bytes + Unsent(rest);
    assert w.inFlight[..0] + w.inFlight[1..] == [];
  }

  /** A message is accepted exactly if the queue is not full, and then waits behind all others; once it is
      first, it is what the next transmission sends. */
  lemma SendAccepts(w: World, bytes: seq<byte>)
    requires Safe(w) && 0 < |bytes| < MAX_SIZE
    ensures var w' := Apply(w, Send(bytes));
            if |w.link.queue| < 1000
            then Unsent(w'.link.queue) == Unsent(w.link.queue) + bytes && w'.accepted == w.accepted + bytes &&
                 w'.betweenEnqueueAndPost == w.betweenEnqueueAndPost + 1
            else w' == w
  {
    UnsentAppend(w.link.queue, MsgBuffer(bytes, 0));
    assert MsgBuffer(bytes, 0).Pending() == bytes;
  }

  lemma TransmitSendsFirst(w: World)
    requires Safe(w) && w.checked && w.link.queue != []
    ensures Apply(w, Transmit).inFlight == [w.link.queue[0].Pending()] && Apply(w, Transmit).link.inProgress
  {}

  /** w is reached from the start by the given steps, each enabled when taken. */
  ghost predicate Reaches(actions: seq<Action>, w: World)
  {
    if actions == [] then w == START else
      var last := |actions| - 1;
      exists before: World ::
        Reaches(actions[..last], before) && Enabled(before, actions[last]) &&
        w == Apply(before, actions[last])
  }

  /** The protocol is safe over all interleavings. */
  lemma {:induction false} AlwaysSafe(actions: seq<Action>, w: World)
    requires Reaches(actions, w)
    ensures Safe(w)
  {
    if actions != [] {
      var last := |actions| - 1;
      var before: World :|
        Reaches(actions[..last], before) && Enabled(before, actions[last]) &&
        w == Apply(before, actions[last]);
      AlwaysSafe(actions[..last], before);
      StepSafe(before, actions[last]);
    }
  }

  /** A queued message is never stranded: without any further sends, finitely many steps of the
      senders' posts, the i/o thread and the socket get every accepted byte out. */
  lemma {:induction false} Drains(actions: seq<Action>, w: World) returns (more: seq<Action>, end: World)
    requires Reaches(actions, w)
    ensures Reaches(actions + more, end) && (forall a :: a in more ==> !a.Send?)
    ensures end.link.queue == [] && end.acknowledged == end.accepted == w.accepted
    decreases |w.link.queue|, Stage(w)
  {
    AlwaysSafe(actions, w);
    if w.link.queue == [] {
      more, end := [], w;
      assert actions + [] == actions;
    } else {
      var a, next := TakeStep(actions, w);
      more, end := Drains(actions + [a], next);
      Assoc(actions, [a], more);
      more := [a] + more;
    }
  }

  lemma TakeStep(actions: seq<Action>, w: World) returns (a: Action, next: World)
    requires Reaches(actions, w) && Safe(w) && w.link.queue != []
    ensures Reaches(actions + [a], next) && !a.Send? && next.accepted == w.accepted
    ensures |next.link.queue| < |w.link.queue| || (|next.link.queue| == |w.link.queue| && Stage(next) < Stage(w))
  {
    a := NextStep(w);
    NextStepCloser(w);
    next := Apply(w, a);
    assert (actions + [a])[..|actions|] == actions;
  }

  /** How far the next transmission of a non-empty queue is from being completed. */
  function Stage(w: World): nat {
    if w.inFlight != [] then 0 else if w.checked then 1 else if w.posted > 0 then 2 else 3
  }

  function NextStep(w: World): Action {
    if w.inFlight != [] then Complete(0, |w.inFlight[0]|)
    else if w.checked then Transmit else if w.posted > 0 then Wake else Post
  }

  lemma NextStepCloser(w: World)
    requires Safe(w) && w.link.queue != []
    ensures var a := NextStep(w);
            Enabled(w, a) && !a.Send? && Apply(w, a).accepted == w.accepted
    ensures var next := Apply(w, NextStep(w));
            |next.link.queue| < |w.link.queue| || (|next.link.queue| == |w.link.queue| && Stage(next) < Stage(w))
  {
    if w.inFlight != [] {
      AcknowledgedBytes(w.link.queue, |w.inFlight[0]|);
    }
  }

  // ---- no schedule can put it off for ever ----

  /** What is left to do: posting, waking, testing and sending. */
  function WorkLeft(w: World): nat {
    3 * w.betweenEnqueueAndPost + 2 * w.posted + (if w.checked then 1 else 0) + |w.link.queue|
  }

  /** A step of the protocol itself: no new message, and a send that completes has sent all its bytes. */
  predicate Progress(w: World, a: Action) {
    Enabled(w, a) && !a.Send? && (a.Complete? ==> a.sent == |w.inFlight[a.which]|)
  }

  lemma ProgressWorks(w: World, a: Action)
    requires Safe(w) && Progress(w, a)
    ensures WorkLeft(Apply(w, a)) < WorkLeft(w) && Apply(w, a).accepted == w.accepted
  {
    if a.Complete? { AcknowledgedBytes(w.link.queue, a.sent); }
  }

  /** end is reached from w by such steps. */
  ghost predicate Schedule(w: World, steps: seq<Action>, end: World)
    decreases |steps|
  {
    if steps == [] then end == w else Progress(w, steps[0]) && Schedule(Apply(w, steps[0]), steps[1..], end)
  }

  /** Every schedule of such steps is short, and one that cannot be continued has got every accepted byte
      out: whichever thread runs first, nothing is stranded. */
  lemma {:induction false} EveryScheduleDrains(w: World, steps: seq<Action>, end: World)
    requires Safe(w) && Schedule(w, steps, end)
    ensures Safe(end) && |steps| <= WorkLeft(w) - WorkLeft(end) && end.accepted == w.accepted
    ensures (forall a :: !Progress(end, a)) ==> end.link.queue == [] && end.acknowledged == w.accepted
    decreases |steps|
  {
    if steps == [] {
      if w.link.queue != [] {
        NextStepCloser(w);
        assert Progress(w, NextStep(w));
      }
    } else {
      StepSafe(w, steps[0]);
      ProgressWorks(w, steps[0]);
      EveryScheduleDrains(Apply(w, steps[0]), steps[1..], end);
    }
  }
}
