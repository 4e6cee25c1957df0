/** The vision server's auctions: one worker thread, a task queue, and bids that arrive at any moment
    (server_worker.py, server.py). */
module Auctions {

  /** Auction ids are drawn at random and never drawn twice. */
  type Id = nat

  datatype Bid = Bid(clientId: string, workload: real)

  datatype Auction = Auction(eventName: string, bids: seq<Bid>)

  datatype Task =
    | TimeoutTask(auctionId: Id, timeBegan: real)
    | AuctionTask(eventName: string)
    | OtherTask

  const DEFAULT_AUCTION_TIMEOUT := 0.3

  /** Position i holds the first of the bids with the least workload. */
  predicate FirstLeast(bids: seq<Bid>, i: nat) {
    i < |bids| &&
    (forall j :: 0 <= j < |bids| ==> bids[i].workload <= bids[j].workload) &&
    (forall j :: 0 <= j < i ==> bids[i].workload < bids[j].workload)
  }

  lemma {:induction false} FirstLeastExtends(bids: seq<Bid>, i: nat, bid: Bid)
    requires FirstLeast(bids, i)
    ensures FirstLeast(bids + [bid], if bid.workload < bids[i].workload then |bids| else i)
  {
    var more := bids + [bid];
    assert forall j :: 0 <= j < |bids| ==> more[j] == bids[j];
  }

  /** An announcement of the winner. */
  datatype Award = Award(auctionId: Id, eventName: string, winner: Bid)

  class ServerWorker {
    var activeAuctions: map<Id, Auction>
    var takenAuctions: map<Id, Auction>
    var inQ: seq<Task>

    constructor ()
      ensures activeAuctions == map[] && takenAuctions == map[] && inQ == []
    {
      activeAuctions, takenAuctions, inQ := map[], map[], [];
    }

    /** _auction, with the id it draws and the time it reads. */
    method HandleAuction(task: Task, auctionId: Id, now: real)
      requires task.AuctionTask?
      modifies this
      ensures activeAuctions == old(activeAuctions)[auctionId := Auction(task.eventName, [])]
      ensures inQ == old(inQ) + [TimeoutTask(auctionId, now)] && takenAuctions == old(takenAuctions)
    {
      activeAuctions := activeAuctions[auctionId := Auction(task.eventName, [])];
      inQ := inQ + [TimeoutTask(auctionId, now)];
    }

    /** _timeout when no bid arrives while it runs; later is the time read for a restarted timer. */
    method HandleTimeout(task: Task, now: real, later: real) returns (award: seq<Award>)
      requires task.TimeoutTask? && task.auctionId in activeAuctions
      modifies this
      ensures now - task.timeBegan < DEFAULT_AUCTION_TIMEOUT ==>
                award == [] && inQ == old(inQ) + [task] &&
                activeAuctions == old(activeAuctions) && takenAuctions == old(takenAuctions)
      ensures var auction := old(activeAuctions)[task.auctionId];
              now - task.timeBegan >= DEFAULT_AUCTION_TIMEOUT && auction.bids == [] ==>
                award == [] && inQ == old(inQ) + [TimeoutTask(task.auctionId, later)] &&
                activeAuctions == old(activeAuctions) && takenAuctions == old(takenAuctions)
      ensures var auction := old(activeAuctions)[task.auctionId];
              now - task.timeBegan >= DEFAULT_AUCTION_TIMEOUT && auction.bids != [] ==>
                inQ == old(inQ) && activeAuctions == old(activeAuctions) - {task.auctionId} &&
                takenAuctions == old(takenAuctions)[task.auctionId := auction] &&
                exists i: nat :: FirstLeast(auction.bids, i) &&
                            award == [Award(task.auctionId, auction.eventName, auction.bids[i])]
    {
      award := [];
      if now - task.timeBegan >= DEFAULT_AUCTION_TIMEOUT {
        var auction := activeAuctions[task.auctionId];
        if |auction.bids| == 0 {
          inQ := inQ + [task.(timeBegan := later)];
        } else {
          var lowestBid := auction.bids[0];
          ghost var at := 0;
          for k := 0 to |auction.bids|
            invariant inQ == old(inQ) && activeAuctions == old(activeAuctions) && takenAuctions == old(takenAuctions)
            invariant FirstLeast(auction.bids[..if k == 0 then 1 else k], at) && lowestBid == auction.bids[at]
          {
            var bid := auction.bids[k];
            if k > 0 {
              FirstLeastExtends(auction.bids[..k], at, bid);
              assert auction.bids[..k + 1] == auction.bids[..k] + [bid];
            }
            if bid.workload < lowestBid.workload {
              lowestBid, at := bid, k;
            }
          }
          assert auction.bids[..|auction.bids|] == auction.bids;
          award := [Award(task.auctionId, auction.eventName, lowestBid)];
          takenAuctions := takenAuctions[task.auctionId := auction];
          activeAuctions := activeAuctions - {task.auctionId};
        }
      } else {
        inQ := inQ + [task];
      }
    }
  }

  // ---- the protocol: the worker's steps interleaved with bids and with the clock ----

  /** Where the worker stands between two of its steps. */
  datatype Worker =
    | Idle
    | Got(task: Task)                                                   // off the queue
    | Announced(id: Id, eventName: string)                              // announced, not yet listed
    | Listed(id: Id)                                                    // listed, its timer not yet queued
    | Requeueing(id: Id, timer: real)                                   // too early: to be queued again
    | Resetting(id: Id)                                                 // no bids: timer to be restarted
    | Scanning(id: Id, timer: real, next: nat, lowest: nat)             // next bid to look at, best so far
    | Awarding(id: Id, timer: real, winner: nat, seen: nat)             // winner among the seen bids
    | Popping(id: Id)                                                   // announced: to be moved to taken

  /** What was known when a winner was announced: the bids then on the list, how many of them had been
      looked at, the winner's position, when the timer was last started, and the time. */
  datatype Record = Record(id: Id, winner: nat, seen: nat, bids: seq<Bid>, timer: real, time: real)

  datatype World = World(
    clock: real, active: map<Id, Auction>, taken: map<Id, Auction>, queue: seq<Task>, worker: Worker,
    used: set<Id>, bidding: seq<(Id, Bid)>, timers: map<Id, real>, records: seq<Record>)

  const START := World(0.0, map[], map[], [], Idle, {}, [], map[], [])

  datatype Action =
    | Wait(dt: real)                // time passes
    | Put(task: Task)               // some thread queues an auction or another task
    | LookUp(id: Id, bid: Bid)      // a bid arrives and finds its auction
    | Append(which: nat)            // and is appended to that auction's list
    | Take(which: nat)              // the worker takes a task
    | Work(drawn: Id)               // the worker's next step; with the id it draws, if it does

  /** No bid finds an auction that is not active: receive_bid raises KeyError. */
  predicate Enabled(w: World, a: Action) {
    match a
    case Wait(dt) => dt >= 0.0
    case Put(task) => !task.TimeoutTask?
    case LookUp(id, bid) => id in w.active
    case Append(which) => which < |w.bidding|
    case Take(which) => w.worker.Idle? && which < |w.queue|
    case Work(id) => !w.worker.Idle? && id !in w.used
  }

  function WithBid(auctions: map<Id, Auction>, id: Id, bid: Bid): map<Id, Auction> {
    if id in auctions then auctions[id := auctions[id].(bids := auctions[id].bids + [bid])] else auctions
  }

  /** The worker's next step. A step that looks for an auction that is not active would raise
      KeyError; it is shown that none ever does, and leaves the world as it is here. */
  function WorkerStep(w: World, drawn: Id): World {
    match w.worker
    case Idle => w
    case Got(AuctionTask(eventName)) => w.(worker := Announced(drawn, eventName), used := w.used + {drawn})
    case Got(OtherTask) => w.(worker := Idle)
    case Got(TimeoutTask(id, timer)) =>
      if w.clock - timer < DEFAULT_AUCTION_TIMEOUT then w.(worker := Requeueing(id, timer))
      else if id !in w.active then w
      else if w.active[id].bids == [] then w.(worker := Resetting(id))
      else w.(worker := Scanning(id, timer, 0, 0))
    case Announced(id, eventName) => w.(active := w.active[id := Auction(eventName, [])], worker := Listed(id))
    case Listed(id) =>
      w.(queue := w.queue + [TimeoutTask(id, w.clock)], timers := w.timers[id := w.clock], worker := Idle)
    case Requeueing(id, timer) => w.(queue := w.queue + [TimeoutTask(id, timer)], worker := Idle)
    case Resetting(id) =>
      w.(queue := w.queue + [TimeoutTask(id, w.clock)], timers := w.timers[id := w.clock], worker := Idle)
    case Scanning(id, timer, next, lowest) =>
      if id !in w.active || lowest >= |w.active[id].bids| then w else
        var bids := w.active[id].bids;
        if next >= |bids| then w.(worker := Awarding(id, timer, lowest, next))
        else if bids[next].workload < bids[lowest].workload then w.(worker := Scanning(id, timer, next + 1, next))
        else w.(worker := Scanning(id, timer, next + 1, lowest))
    case Awarding(id, timer, winner, seen) =>
      if id !in w.active then w else
        w.(records := w.records + [Record(id, winner, seen, w.active[id].bids, timer, w.clock)], worker := Popping(id))
    case Popping(id) =>
      if id !in w.active then w else
        w.(taken := w.taken[id := w.active[id]], active := w.active - {id}, worker := Idle)
  }

  function Apply(w: World, a: Action): World
    requires Enabled(w, a)
  {
    match a
    case Wait(dt) => w.(clock := w.clock + dt)
    case Put(task) => w.(queue := w.queue + [task])
    case LookUp(id, bid) => w.(bidding := w.bidding + [(id, bid)])
    case Append(which) =>
      var (id, bid) := w.bidding[which];
      w.(active := WithBid(w.active, id, bid), taken := WithBid(w.taken, id, bid),
         bidding := w.bidding[..which] + w.bidding[which + 1..])
    case Take(which) => w.(worker := Got(w.queue[which]), queue := w.queue[..which] + w.queue[which + 1..])
    case Work(drawn) => WorkerStep(w, drawn)
  }

  /** How many timeout tasks an auction has in the queue. */
  function Timed(queue: seq<Task>, id: Id): nat {
    if queue == [] then 0 else
      var last := queue[|queue| - 1];
      Timed(queue[..|queue| - 1], id) + if last.TimeoutTask? && last.auctionId == id then 1 else 0
  }

  /** The worker is processing the auction's timeout, or starting its first timer. */
  function Held(worker: Worker, id: Id): nat {
    var held := match worker
      case Got(TimeoutTask(x, _)) => x == id
      case Listed(x) => x == id
      case Requeueing(x, _) => x == id
      case Resetting(x) => x == id
      case Scanning(x, _, _, _) => x == id
      case Awarding(x, _, _, _) => x == id
      case Popping(x) => x == id
      case _ => false;
    if held then 1 else 0
  }

  /** A task's or the worker's copy of an auction's timer agrees with when it was last started. */
  ghost predicate TimersAgree(w: World) {
    (forall i :: 0 <= i < |w.queue| && w.queue[i].TimeoutTask? ==>
       w.queue[i].auctionId in w.timers && w.timers[w.queue[i].auctionId] == w.queue[i].timeBegan) &&
    (match w.worker
     case Got(TimeoutTask(id, timer)) => id in w.timers && w.timers[id] == timer
     case Requeueing(id, timer) => id in w.timers && w.timers[id] == timer
     case Scanning(id, timer, _, _) =>
       id in w.timers && w.timers[id] == timer && w.clock - timer >= DEFAULT_AUCTION_TIMEOUT
     case Awarding(id, timer, _, _) =>
       id in w.timers && w.timers[id] == timer && w.clock - timer >= DEFAULT_AUCTION_TIMEOUT
     case _ => true)
  }

  /** The worker's view of the bids: a prefix has been looked at, and lowest is its first least bid. */
  ghost predicate ScanCorrect(w: World) {
    match w.worker
    case Scanning(id, _, next, lowest) =>
      id in w.active && next <= |w.active[id].bids| && w.active[id].bids != [] &&
      (if next == 0 then lowest == 0 else FirstLeast(w.active[id].bids[..next], lowest))
    case Awarding(id, _, winner, seen) =>
      id in w.active && seen <= |w.active[id].bids| && FirstLeast(w.active[id].bids[..seen], winner)
    case _ => true
  }

  ghost predicate SoundRecord(r: Record, timers: map<Id, real>) {
    r.seen <= |r.bids| && FirstLeast(r.bids[..r.seen], r.winner) &&
    r.id in timers && timers[r.id] == r.timer && r.time - r.timer >= DEFAULT_AUCTION_TIMEOUT
  }

  /** Each winner was the first bid of least workload among those looked at, announced no earlier than
      0.3 s after the auction's timer was last started. */
  ghost predicate RecordsSound(w: World) {
    forall k :: 0 <= k < |w.records| ==> SoundRecord(w.records[k], w.timers)
  }

  predicate Awarded(records: seq<Record>, id: Id) {
    exists k :: 0 <= k < |records| && records[k].id == id
  }

  /** No auction is awarded twice, and the awarded ones are those taken, or about to be moved there. */
  ghost predicate AwardedOnce(w: World) {
    (forall j, k :: 0 <= j < k < |w.records| ==> w.records[j].id != w.records[k].id) &&
    (forall id :: Awarded(w.records, id) <==> id in w.taken || w.worker == Popping(id))
  }

  /** Every auction once listed is in exactly one of active and taken. */
  ghost predicate Partitioned(w: World) {
    (forall id :: !(id in w.active && id in w.taken)) &&
    (forall id :: id in w.used <==>
       id in w.active || id in w.taken || (w.worker.Announced? && w.worker.id == id)) &&
    (w.worker.Announced? ==> w.worker.id !in w.active && w.worker.id !in w.taken)
  }

  /** An active auction has exactly one timeout task, queued or being processed; any other has none. */
  predicate TimerCounted(w: World, id: Id) {
    Timed(w.queue, id) + Held(w.worker, id) == if id in w.active then 1 else 0
  }

  ghost predicate OneTimer(w: World) {
    forall id :: TimerCounted(w, id)
  }

  ghost predicate Safe(w: World) {
    Partitioned(w) && OneTimer(w) && TimersAgree(w) && ScanCorrect(w) && RecordsSound(w) && AwardedOnce(w)
  }

  lemma HeldIsActive(w: World, id: Id)
    requires OneTimer(w) && Held(w.worker, id) == 1
    ensures id in w.active && Timed(w.queue, id) == 0
  {
    assert TimerCounted(w, id);
  }

  /** No step of the worker meets a KeyError, and every step gets it further. */
  lemma WorkerNeverFails(w: World, drawn: Id)
    requires Safe(w) && Enabled(w, Work(drawn))
    ensures WorkerStep(w, drawn) != w
  {
    match w.worker
    case Got(TimeoutTask(id, _)) => HeldIsActive(w, id);
    case Scanning(id, _, next, lowest) =>
      HeldIsActive(w, id);
      if next > 0 { assert lowest < |w.active[id].bids[..next]|; }
    case Awarding(id, _, _, _) => HeldIsActive(w, id);
    case Popping(id) => HeldIsActive(w, id);
    case _ =>
  }

  lemma TimedAppend(queue: seq<Task>, task: Task, id: Id)
    ensures Timed(queue + [task], id) == Timed(queue, id) + Held(Got(task), id)
  {
    assert (queue + [task])[..|queue|] == queue;
  }

  lemma {:induction false} TimedRemove(queue: seq<Task>, i: nat, id: Id)
    requires i < |queue|
    ensures Timed(queue, id) == Timed(queue[..i] + queue[i + 1..], id) + Held(Got(queue[i]), id)
  {
    var last := |queue| - 1;
    if i == last {
      assert queue[..i] + queue[i + 1..] == queue[..last];
    } else {
      var front := queue[..last];
      TimedRemove(front, i, id);
      TimedAppend(front[..i] + front[i + 1..], queue[last], id);
      assert queue[..i] + queue[i + 1..] == (front[..i] + front[i + 1..]) + [queue[last]];
    }
  }

  /** An auction with no timeout counted has no timeout task in the queue. */
  lemma {:induction false} TimedMembers(queue: seq<Task>, id: Id)
    requires Timed(queue, id) == 0
    ensures forall i :: 0 <= i < |queue| && queue[i].TimeoutTask? ==> queue[i].auctionId != id
  {
    if queue != [] { TimedMembers(queue[..|queue| - 1], id); }
  }

  /** Every step, of the worker, of a bidder or of the clock, keeps the protocol safe. */
  lemma StepSafe(w: World, a: Action)
    requires Safe(w) && Enabled(w, a)
    ensures Safe(Apply(w, a))
  {
    KeepsPartition(w, a);
    KeepsOneTimer(w, a);
    KeepsTimers(w, a);
    KeepsScan(w, a);
    KeepsRecords(w, a);
    KeepsAwards(w, a);
  }

  lemma KeepsPartition(w: World, a: Action)
    requires Partitioned(w) && Enabled(w, a)
    ensures Partitioned(Apply(w, a))
  {
    match a
    case Append(which) =>
    case Work(_) =>
      match w.worker {
        case Got(_) =>
        case Announced(_, _) =>
        case Popping(id) =>
        case Awarding(_, _, _, _) =>
        case Scanning(_, _, _, _) =>
        case _ =>
      }
    case _ =>
  }

  lemma KeepsOneTimer(w: World, a: Action)
    requires OneTimer(w) && (w.worker.Announced? ==> w.worker.id !in w.active) && Enabled(w, a)
    ensures OneTimer(Apply(w, a))
  {
    var w' := Apply(w, a);
    forall id
      ensures TimerCounted(w', id)
    {
      assert TimerCounted(w, id);
      match a
      case Put(task) => TimedAppend(w.queue, task, id);
      case Take(which) => TimedRemove(w.queue, which, id);
      case Work(drawn) => WorkKeepsTimer(w, drawn, id);
      case _ =>
    }
  }

  lemma WorkKeepsTimer(w: World, drawn: Id, id: Id)
    requires TimerCounted(w, id) && (w.worker.Announced? ==> w.worker.id !in w.active)
    ensures TimerCounted(WorkerStep(w, drawn), id)
  {
    match w.worker
    case Listed(_) => QueueingKeepsTimer(w, drawn, id);
    case Resetting(_) => QueueingKeepsTimer(w, drawn, id);
    case Requeueing(_, _) => QueueingKeepsTimer(w, drawn, id);
    case Got(task) => assert WorkerStep(w, drawn).queue == w.queue;
    case _ => AuctionStepKeepsTimer(w, drawn, id);
  }

  lemma QueueingKeepsTimer(w: World, drawn: Id, id: Id)
    requires w.worker.Listed? || w.worker.Resetting? || w.worker.Requeueing?
    requires TimerCounted(w, id)
    ensures TimerCounted(WorkerStep(w, drawn), id)
  {
    var task := TimeoutTask(w.worker.id, if w.worker.Requeueing? then w.worker.timer else w.clock);
    assert WorkerStep(w, drawn).queue == w.queue + [task];
    TimedAppend(w.queue, task, id);
  }

  lemma AuctionStepKeepsTimer(w: World, drawn: Id, id: Id)
    requires w.worker.Idle? || w.worker.Announced? || w.worker.Scanning? || w.worker.Awarding? || w.worker.Popping?
    requires TimerCounted(w, id) && (w.worker.Announced? ==> w.worker.id !in w.active)
    ensures TimerCounted(WorkerStep(w, drawn), id)
  {
    assert WorkerStep(w, drawn).queue == w.queue;
  }

  lemma KeepsTimers(w: World, a: Action)
    requires TimersAgree(w) && OneTimer(w) && Enabled(w, a)
    ensures TimersAgree(Apply(w, a))
  {
    match w.worker
    case Listed(id) =>
      HeldIsActive(w, id);
      TimedMembers(w.queue, id);
    case Resetting(id) =>
      HeldIsActive(w, id);
      TimedMembers(w.queue, id);
    case _ =>
  }

  lemma KeepsScan(w: World, a: Action)
    requires ScanCorrect(w) && Enabled(w, a)
    ensures ScanCorrect(Apply(w, a))
  {
    match a
    case Append(which) =>
      match w.worker {
        case Scanning(id, _, next, _) =>
          assert Apply(w, a).active[id].bids[..next] == w.active[id].bids[..next];
        case Awarding(id, _, _, seen) =>
          assert Apply(w, a).active[id].bids[..seen] == w.active[id].bids[..seen];
        case _ =>
      }
    case Work(drawn) =>
      if w.worker.Scanning? { ScanKept(w, drawn); }
    case _ =>
  }

  lemma ScanKept(w: World, drawn: Id)
    requires ScanCorrect(w) && w.worker.Scanning?
    ensures ScanCorrect(WorkerStep(w, drawn))
  {
    var Scanning(id, timer, next, lowest) := w.worker;
    var bids := w.active[id].bids;
    if next >= |bids| {
      assert bids[..next] == bids;
    } else if next > 0 {
      FirstLeastExtends(bids[..next], lowest, bids[next]);
      assert bids[..next + 1] == bids[..next] + [bids[next]];
    }
  }

  lemma KeepsRecords(w: World, a: Action)
    requires Partitioned(w) && OneTimer(w) && TimersAgree(w) && ScanCorrect(w) && RecordsSound(w) && AwardedOnce(w)
    requires Enabled(w, a)
    ensures RecordsSound(Apply(w, a))
  {
    var w' := Apply(w, a);
    forall k | 0 <= k < |w'.records|
      ensures SoundRecord(w'.records[k], w'.timers)
    {
      if k < |w.records| {
        assert SoundRecord(w.records[k], w.timers);
        assert Awarded(w.records, w.records[k].id);
        if w.worker.Listed? || w.worker.Resetting? { HeldIsActive(w, w.worker.id); }
      }
    }
  }

  lemma KeepsAwards(w: World, a: Action)
    requires AwardedOnce(w) && Partitioned(w) && OneTimer(w) && Enabled(w, a)
    ensures AwardedOnce(Apply(w, a))
  {
    var w' := Apply(w, a);
    if a.Work? && w.worker.Awarding? {
      AwardKeepsAwards(w);
    } else if a.Work? && w.worker.Popping? {
      HeldIsActive(w, w.worker.id);
    } else {
      OthersAwardNothing(w, a);
      assert forall id :: w'.worker == Popping(id) <==> w.worker == Popping(id);
    }
  }

  lemma OthersAwardNothing(w: World, a: Action)
    requires Enabled(w, a) && !(a.Work? && (w.worker.Awarding? || w.worker.Popping?))
    ensures var w' := Apply(w, a);
            w'.records == w.records && w'.taken.Keys == w.taken.Keys &&
            (w.worker.Popping? || w'.worker.Popping? ==> w'.worker == w.worker)
  {}

  lemma AwardKeepsAwards(w: World)
    requires AwardedOnce(w) && Partitioned(w) && OneTimer(w) && w.worker.Awarding?
    ensures forall drawn :: AwardedOnce(WorkerStep(w, drawn))
  {
    var id := w.worker.id;
    HeldIsActive(w, id);
    assert !Awarded(w.records, id);
    var record := Record(id, w.worker.winner, w.worker.seen, w.active[id].bids, w.worker.timer, w.clock);
    AwardedAppend(w.records, record);
    assert forall drawn :: WorkerStep(w, drawn) == w.(records := w.records + [record], worker := Popping(id));
  }

  lemma AwardedAppend(records: seq<Record>, record: Record)
    ensures forall id :: Awarded(records + [record], id) <==> Awarded(records, id) || id == record.id
  {
    var more := records + [record];
    forall id
      ensures Awarded(more, id) <==> Awarded(records, id) || id == record.id
    {
      assert more[|records|].id == record.id;
      if Awarded(records, id) {
        var k :| 0 <= k < |records| && records[k].id == id;
        assert more[k].id == id;
      }
    }
  }

  /** w is reached from the start by the given steps, each enabled when taken. */
  ghost predicate Reaches(actions: seq<Action>, w: World) {
    if actions == [] then w == START else
      var last := |actions| - 1;
      exists before: World ::
        Reaches(actions[..last], before) && Enabled(before, actions[last]) && w == Apply(before, actions[last])
  }

  /** The protocol is safe over all interleavings of bids, worker steps and passing time. */
  lemma {:induction false} AlwaysSafe(actions: seq<Action>, w: World)
    requires Reaches(actions, w)
    ensures Safe(w)
  {
    if actions != [] {
      var last := |actions| - 1;
      var before: World :|
        Reaches(actions[..last], before) && Enabled(before, actions[last]) && w == Apply(before, actions[last]);
      AlwaysSafe(actions[..last], before);
      StepSafe(before, actions[last]);
    }
  }

  // ---- bids that come too late ----

  /** No bid that came after the worker's look at the list is cheaper than the winner. */
  predicate NoCheaperLateBid(r: Record) {
    r.winner < |r.bids| &&
    forall j :: r.seen <= j < |r.bids| ==> r.bids[r.winner].workload <= r.bids[j].workload
  }

  /** The winner is the first least bid of the whole list exactly if no cheaper bid came too late to be
      looked at. */
  lemma WinnerLeastIffNoneLate(r: Record, timers: map<Id, real>)
    requires SoundRecord(r, timers)
    ensures FirstLeast(r.bids, r.winner) <==> NoCheaperLateBid(r)
  {
    var looked := r.bids[..r.seen];
    assert forall j :: 0 <= j < r.seen ==> looked[j] == r.bids[j];
  }

  /** So it is for every award of every reachable world. */
  lemma AwardsLeastIffNoneLate(actions: seq<Action>, w: World, k: nat)
    requires Reaches(actions, w) && k < |w.records|
    ensures FirstLeast(w.records[k].bids, w.records[k].winner) <==> NoCheaperLateBid(w.records[k])
  {
    AlwaysSafe(actions, w);
    assert SoundRecord(w.records[k], w.timers);
    WinnerLeastIffNoneLate(w.records[k], w.timers);
  }

  lemma Then(actions: seq<Action>, w: World, a: Action) returns (more: seq<Action>, next: World)
    requires Reaches(actions, w) && Enabled(w, a)
    ensures Reaches(more, next) && next == Apply(w, a)
  {
    more, next := actions + [a], Apply(w, a);
    assert more[..|actions|] == actions;
  }

  /** A bid that arrives and is appended with no other bid on its way. */
  lemma BidLands(w: World, id: Id, bid: Bid)
    requires w.bidding == [] && id in w.active && id !in w.taken
    ensures Enabled(w, LookUp(id, bid)) && Enabled(Apply(w, LookUp(id, bid)), Append(0))
    ensures Apply(Apply(w, LookUp(id, bid)), Append(0)) == w.(active := WithBid(w.active, id, bid))
  {}

  lemma ThenBid(actions: seq<Action>, w: World, id: Id, bid: Bid) returns (more: seq<Action>, next: World)
    requires Reaches(actions, w) && w.bidding == [] && id in w.active && id !in w.taken
    ensures Reaches(more, next) && next == w.(active := WithBid(w.active, id, bid))
  {
    BidLands(w, id, bid);
    more, next := Then(actions, w, LookUp(id, bid));
    more, next := Then(more, next, Append(0));
  }

  /** One auction, listed and with its timer running. */
  lemma Opened(eventName: string) returns (actions: seq<Action>, w: World)
    ensures Reaches(actions, w)
    ensures w == World(0.0, map[0 := Auction(eventName, [])], map[], [TimeoutTask(0, 0.0)], Idle, {0}, [],
                       map[0 := 0.0], [])
  {
    actions, w := Then([], START, Put(AuctionTask(eventName)));
    actions, w := Then(actions, w, Take(0));
    actions, w := Then(actions, w, Work(0));
    actions, w := Then(actions, w, Work(1));
    actions, w := Then(actions, w, Work(1));
  }

  /** With one bid on the list, its timeout taken off the queue and due. */
  lemma Due(eventName: string, bid: Bid) returns (actions: seq<Action>, w: World)
    ensures Reaches(actions, w)
    ensures w == World(DEFAULT_AUCTION_TIMEOUT, map[0 := Auction(eventName, [bid])], map[], [],
                       Got(TimeoutTask(0, 0.0)), {0}, [], map[0 := 0.0], [])
  {
    actions, w := Opened(eventName);
    actions, w := ThenBid(actions, w, 0, bid);
    assert [] + [bid] == [bid];
    assert w.active == map[0 := Auction(eventName, [bid])];
    actions, w := Then(actions, w, Wait(DEFAULT_AUCTION_TIMEOUT));
    actions, w := Then(actions, w, Take(0));
  }

  /** The one bid looked at, the winner settled, the award not yet made. */
  lemma Settled(eventName: string, bid: Bid) returns (actions: seq<Action>, w: World)
    ensures Reaches(actions, w)
    ensures w == World(DEFAULT_AUCTION_TIMEOUT, map[0 := Auction(eventName, [bid])], map[], [],
                       Awarding(0, 0.0, 0, 1), {0}, [], map[0 := 0.0], [])
  {
    actions, w := Due(eventName, bid);
    actions, w := Then(actions, w, Work(1));
    actions, w := Then(actions, w, Work(1));
    actions, w := Then(actions, w, Work(1));
  }

  /** A cheaper bid that arrives once the scan is over does not get the award. */
  lemma LateBidLoses(eventName: string, bid: Bid, late: Bid) returns (actions: seq<Action>, w: World)
    requires late.workload < bid.workload
    ensures Reaches(actions, w) && |w.records| == 1
    ensures w.records[0].bids == [bid, late] && w.records[0].winner == 0 && !FirstLeast(w.records[0].bids, 0)
  {
    actions, w := Settled(eventName, bid);
    actions, w := ThenBid(actions, w, 0, late);
    assert w.active[0].bids == [bid, late];
    actions, w := Then(actions, w, Work(1));
    assert w.records[0].bids[1].workload < w.records[0].bids[0].workload;
  }

  // ---- the handlers are the worker's steps run without interruption ----

  /** The world after the worker's step, when it does not draw an id. */
  function Stepped(w: World): World { WorkerStep(w, 0) }

  /** Scanning on from bid next, with no bid arriving, ends with the first least bid of the list. */
  lemma {:induction false} ScanToEnd(w: World) returns (steps: nat, end: World)
    requires Safe(w) && w.worker.Scanning?
    ensures end == Repeated(w, steps) && Safe(end)
    ensures end.worker.Awarding? && end.(worker := w.worker) == w
    ensures end.worker.id == w.worker.id && end.worker.timer == w.worker.timer
    ensures end.worker.seen == |w.active[w.worker.id].bids|
    decreases |w.active[w.worker.id].bids| - w.worker.next
  {
    var next := ScanOnce(w);
    if next.worker.Awarding? {
      steps, end := 1, next;
      assert Repeated(w, 1) == Repeated(next, 0);
    } else {
      steps, end := ScanToEnd(next);
      steps := steps + 1;
    }
  }

  lemma ScanOnce(w: World) returns (next: World)
    requires Safe(w) && w.worker.Scanning?
    ensures next == Stepped(w) && Safe(next) && next.(worker := w.worker) == w
    ensures var at := w.worker.next;
            if at < |w.active[w.worker.id].bids|
            then next.worker.Scanning? && next.worker.id == w.worker.id && next.worker.timer == w.worker.timer &&
                 next.worker.next == at + 1
            else next.worker.Awarding? && next.worker.id == w.worker.id && next.worker.timer == w.worker.timer &&
                 next.worker.seen == at
  {
    next := Stepped(w);
    var drawn := Undrawn(w.used);
    StepSafe(w, Work(drawn));
    if w.worker.next > 0 { assert w.worker.lowest < |w.active[w.worker.id].bids[..w.worker.next]|; }
  }

  /** Some id has not been drawn yet. */
  lemma Undrawn(used: set<Id>) returns (id: Id)
    ensures id !in used
  {
    id := 0;
    var seen := {};
    while id in used
      invariant seen <= used && (forall x :: x in seen ==> x < id)
      decreases used - seen
    {
      seen := seen + {id};
      id := id + 1;
    }
  }

  function Repeated(w: World, steps: nat): World
    decreases steps
  {
    if steps == 0 then w else Repeated(Stepped(w), steps - 1)
  }

  lemma {:induction false} RepeatedAdd(w: World, a: nat, b: nat)
    ensures Repeated(w, a + b) == Repeated(Repeated(w, a), b)
    decreases a
  {
    if a > 0 { RepeatedAdd(Stepped(w), a - 1, b); }
  }

  /** A timeout on an auction with bids, run without interruption, does what the handler does: one
      award to the first bid of least workload, and the auction moves from active to taken. */
  lemma UninterruptedTimeout(w: World, id: Id, timer: real) returns (steps: nat)
    requires Safe(w) && w.worker == Got(TimeoutTask(id, timer))
    requires w.clock - timer >= DEFAULT_AUCTION_TIMEOUT && id in w.active && w.active[id].bids != []
    ensures var end := Repeated(w, steps);
            end.worker == Idle && end.queue == w.queue && end.active == w.active - {id} &&
            end.taken == w.taken[id := w.active[id]] &&
            var bids := w.active[id].bids;
            exists i: nat :: FirstLeast(bids, i) &&
                        end.records == w.records + [Record(id, i, |bids|, bids, timer, w.clock)]
  {
    var first := Stepped(w);
    var drawn := Undrawn(w.used);
    StepSafe(w, Work(drawn));
    var scan, scanned := ScanToEnd(first);
    steps := 1 + (scan + 2);
    RepeatedAdd(first, scan, 2);
    var bids := w.active[id].bids;
    assert bids[..|bids|] == bids;
    var popping := Stepped(scanned);
    var end := Stepped(popping);
    assert Repeated(scanned, 2) == Repeated(popping, 1) == Repeated(end, 0);
    assert FirstLeast(bids, scanned.worker.winner);
  }

  /** A timeout taken too early, run without interruption, is queued again as it was. */
  lemma UninterruptedEarlyTimeout(w: World, id: Id, timer: real)
    requires w.worker == Got(TimeoutTask(id, timer)) && w.clock - timer < DEFAULT_AUCTION_TIMEOUT
    ensures Repeated(w, 2) == w.(queue := w.queue + [TimeoutTask(id, timer)], worker := Idle)
  {
    assert Repeated(Stepped(w), 1) == Repeated(Stepped(Stepped(w)), 0);
  }

  /** One that is due, on an auction without bids, has its timer started again. */
  lemma UninterruptedBidlessTimeout(w: World, id: Id, timer: real)
    requires w.worker == Got(TimeoutTask(id, timer)) && w.clock - timer >= DEFAULT_AUCTION_TIMEOUT
    requires id in w.active && w.active[id].bids == []
    ensures Repeated(w, 2) == w.(queue := w.queue + [TimeoutTask(id, w.clock)], timers := w.timers[id := w.clock],
                                 worker := Idle)
  {
    assert Repeated(Stepped(w), 1) == Repeated(Stepped(Stepped(w)), 0);
  }

  /** An auction task lists its auction without bids and starts its timer. */
  lemma UninterruptedAuction(w: World, eventName: string)
    requires w.worker == Got(AuctionTask(eventName))
    ensures Repeated(w, 3) == w.(used := w.used + {0}, active := w.active[0 := Auction(eventName, [])],
                                 queue := w.queue + [TimeoutTask(0, w.clock)], timers := w.timers[0 := w.clock],
                                 worker := Idle)
  {
    var one := Stepped(w);
    var two := Stepped(one);
    assert Repeated(one, 2) == Repeated(two, 1) == Repeated(Stepped(two), 0);
  }

  /** Somewhere in the run, the worker found a timeout of the auction due and no bids on its list, and has not
      taken a step since. */
  ghost predicate FoundDueWithoutBids(actions: seq<Action>, w: World, id: Id) {
    actions != [] &&
    var last := |actions| - 1;
    exists before: World ::
      Reaches(actions[..last], before) && Enabled(before, actions[last]) && w == Apply(before, actions[last]) &&
      if actions[last].Work? then DueWithoutBids(before, id) else FoundDueWithoutBids(actions[..last], before, id)
  }

  predicate DueWithoutBids(w: World, id: Id) {
    w.worker.Got? && w.worker.task.TimeoutTask? && w.worker.task.auctionId == id &&
    w.clock - w.worker.task.timeBegan >= DEFAULT_AUCTION_TIMEOUT && id in w.active && w.active[id].bids == []
  }

  lemma BecomesResetting(w: World, a: Action, id: Id)
    requires Enabled(w, a) && Apply(w, a).worker == Resetting(id)
    ensures if a.Work? then DueWithoutBids(w, id) else w.worker == Resetting(id)
  {}

  lemma {:induction false} ResettingIsDue(actions: seq<Action>, w: World, id: Id)
    requires Reaches(actions, w) && w.worker == Resetting(id)
    ensures FoundDueWithoutBids(actions, w, id)
  {
    var last := |actions| - 1;
    var before: World :|
      Reaches(actions[..last], before) && Enabled(before, actions[last]) && w == Apply(before, actions[last]);
    BecomesResetting(before, actions[last], id);
    if !actions[last].Work? {
      ResettingIsDue(actions[..last], before, id);
    }
  }

  /** Over every reachable world: a step changes the timer of an auction already listed only if its timeout was
      due and found no bids. */
  lemma TimerRestartsOnlyWhenDue(actions: seq<Action>, w: World, a: Action, id: Id)
    requires Reaches(actions, w) && Enabled(w, a) && id in w.timers
    requires id in w.active && w.worker != Listed(id)
    ensures id in Apply(w, a).timers
    ensures Apply(w, a).timers[id] != w.timers[id] ==> a.Work? && FoundDueWithoutBids(actions, w, id)
  {
    if a.Work? && w.worker == Resetting(id) { ResettingIsDue(actions, w, id); }
  }
}
