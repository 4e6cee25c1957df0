/** Messages framed as lines over a serial port (serial_device.h). */
module SerialDevices {
  import opened Wrappers
  import opened Base64Tools

  const CARRIAGE_RETURN: Byte := 13
  const NEW_LINE: Byte := 10
  const CRC_LENGTH := 8

  /** "UAS@UCLA_" */
  const PREAMBLE: seq<Byte> := [85, 65, 83, 64, 85, 67, 76, 65, 95]

  predicate IsHex(c: Byte) { '0' as int <= c <= '9' as int || 'a' as int <= c <= 'f' as int }

  /** The checksum, printed as eight hex digits. Its value is not looked at on receipt. */
  type Crc = seq<Byte> -> seq<Byte>

  ghost predicate EightDigits(crc: Crc) {
    forall data :: |crc(data)| == CRC_LENGTH && forall c :: c in crc(data) ==> IsHex(c)
  }

  /** How messages are turned into byte strings and back. */
  datatype Format<!T> = Format(serialize: T -> seq<Byte>, parse: seq<Byte> -> Option<T>)

  ghost predicate Parses<T(!new)>(format: Format<T>) {
    forall t: T :: format.parse(format.serialize(t)) == Some(t)
  }

  function WithoutReturns(data: seq<Byte>): seq<Byte> {
    if data == [] then []
    else (if data[0] == CARRIAGE_RETURN then [] else [data[0]]) + WithoutReturns(data[1..])
  }

  function Framed(crc: Crc, data: seq<Byte>): seq<Byte> {
    var clean := WithoutReturns(data);
    PREAMBLE + crc(clean) + clean + [CARRIAGE_RETURN]
  }

  /** The first position from i on at which pattern occurs in s. */
  function FindFrom(s: seq<Byte>, pattern: seq<Byte>, i: nat): Option<nat>
    decreases |s| - i
  {
    if i + |pattern| > |s| then None
    else if s[i..i + |pattern|] == pattern then Some(i)
    else FindFrom(s, pattern, i + 1)
  }

  /** The bytes a line carries. The data are always taken from the fixed position behind a preamble at
      the start of the line, wherever the preamble was found. */
  function Carried(line: seq<Byte>): Option<seq<Byte>> {
    var start := FindFrom(line, PREAMBLE, 0);
    if start.None? || |line| < start.value + |PREAMBLE| + CRC_LENGTH then None
    else Some(Decoded(line[|PREAMBLE| + CRC_LENGTH..]))
  }

  function Received<T>(format: Format<T>, line: seq<Byte>): Option<T> {
    var data := Carried(line);
    if data.None? then None else format.parse(data.value)
  }

  /** The receiving end: the line being collected, the messages delivered so far, and the latest one
      not yet fetched. */
  datatype Reader<T> = Reader(buffer: seq<Byte>, delivered: seq<T>, latest: Option<T>)

  function Feed<T>(format: Format<T>, r: Reader<T>, c: Byte): Reader<T> {
    if c != NEW_LINE then r.(buffer := r.buffer + [c]) else
      var message := Received(format, r.buffer);
      if message.None? then r.(buffer := [])
      else Reader([], r.delivered + [message.value], message)
  }

  function FeedAll<T>(format: Format<T>, r: Reader<T>, bytes: seq<Byte>): Reader<T>
    decreases |bytes|
  {
    if bytes == [] then r else FeedAll(format, Feed(format, r, bytes[0]), bytes[1..])
  }

  class SerialDevice<T(!new)> {
    const format: Format<T>
    const crc: Crc
    var buffer: seq<Byte>
    var protoQueue: seq<T>
    ghost var delivered: seq<T>

    ghost predicate Valid()
      reads this
    {
      |protoQueue| <= 1
    }

    ghost function View(): Reader<T>
      requires Valid()
      reads this
    {
      Reader(buffer, delivered, if protoQueue == [] then None else Some(protoQueue[0]))
    }

    constructor (format: Format<T>, crc: Crc)
      ensures Valid() && View() == Reader([], [], None) && this.format == format && this.crc == crc
    {
      this.format, this.crc := format, crc;
      buffer, protoQueue, delivered := [], [], [];
    }

    /** One read: whatever bytes have come in. */
    method ReadPort(v: seq<Byte>)
      requires Valid()
      modifies this
      ensures Valid() && View() == FeedAll(format, old(View()), v)
    {
      ghost var before := View();
      assert v[0..] == v;
      for k := 0 to |v|
        invariant Valid()
        invariant FeedAll(format, View(), v[k..]) == FeedAll(format, before, v)
      {
        assert v[k..][1..] == v[k + 1..];
        if v[k] == NEW_LINE {
          RetrieveDecodedMessage(buffer);
          buffer := [];
        } else {
          buffer := buffer + [v[k]];
        }
      }
      assert v[|v|..] == [];
    }

    method RetrieveDecodedMessage(line: seq<Byte>)
      requires Valid()
      modifies this`protoQueue, this`delivered
      ensures Valid()
      ensures var message := Received(format, line);
              View() == if message.None? then old(View())
                        else old(View()).(delivered := old(delivered) + [message.value], latest := message)
    {
      var messageStart := FindPattern(line, PREAMBLE);
      if messageStart.None? { return; }
      if |line| < messageStart.value + |PREAMBLE| + CRC_LENGTH { return; }
      var data := line[|PREAMBLE| + CRC_LENGTH..];
      data := Decode(data);
      var proto := format.parse(data);
      if proto.Some? {
        while |protoQueue| != 0
          invariant delivered == old(delivered)
          decreases |protoQueue|
        {
          protoQueue := protoQueue[1..];
        }
        protoQueue := protoQueue + [proto.value];
        delivered := delivered + [proto.value];
      }
    }

    /** Fetches the latest message, once. */
    method GetLatestProto() returns (proto: Option<T>)
      requires Valid()
      modifies this`protoQueue
      ensures Valid() && proto == old(View()).latest && View() == old(View()).(latest := None)
    {
      if |protoQueue| == 0 { return None; }
      proto := Some(protoQueue[0]);
      while |protoQueue| != 0
        decreases |protoQueue|
      {
        protoQueue := protoQueue[1..];
      }
    }

    /** What writing a message puts on the wire. */
    method WritePort(message: T) returns (wire: seq<Byte>)
      ensures wire == Framed(crc, Encoded(format.serialize(message)))
    {
      var text := Encode(format.serialize(message));
      var clean := RemoveReturns(text);
      wire := PREAMBLE;
      wire := wire + crc(clean);
      wire := wire + clean;
      wire := wire + [CARRIAGE_RETURN];
    }
  }

  /** std::remove and erase of the carriage returns. */
  method RemoveReturns(data: seq<Byte>) returns (clean: seq<Byte>)
    ensures clean == WithoutReturns(data)
  {
    clean := [];
    assert data[0..] == data;
    for i := 0 to |data|
      invariant clean + WithoutReturns(data[i..]) == WithoutReturns(data)
    {
      assert data[i..][1..] == data[i + 1..];
      if data[i] != CARRIAGE_RETURN { clean := clean + [data[i]]; }
    }
    assert data[|data|..] == [];
  }

  predicate OccursAt(s: seq<Byte>, pattern: seq<Byte>, i: int) {
    0 <= i && i + |pattern| <= |s| && s[i..i + |pattern|] == pattern
  }

  /** std::string::find: the first occurrence. */
  method FindPattern(s: seq<Byte>, pattern: seq<Byte>) returns (at: Option<nat>)
    ensures at == FindFrom(s, pattern, 0)
    ensures at.Some? ==> OccursAt(s, pattern, at.value)
    ensures forall i :: OccursAt(s, pattern, i) ==> at.Some? && at.value <= i
  {
    var i := 0;
    while i + |pattern| <= |s|
      invariant 0 <= i && FindFrom(s, pattern, i) == FindFrom(s, pattern, 0)
      invariant forall j :: 0 <= j < i ==> !OccursAt(s, pattern, j)
    {
      if s[i..i + |pattern|] == pattern { return Some(i); }
      i := i + 1;
    }
    return None;
  }

  // ---- framing ----

  /** A written message as it arrives: the terminal turns the closing carriage return into a newline. */
  function Line<T>(format: Format<T>, crc: Crc, message: T): seq<Byte> {
    var wire := Framed(crc, Encoded(format.serialize(message)));
    wire[..|wire| - 1] + [NEW_LINE]
  }

  function Lines<T>(format: Format<T>, crc: Crc, messages: seq<T>): seq<Byte> {
    if messages == [] then [] else Line(format, crc, messages[0]) + Lines(format, crc, messages[1..])
  }

  function Joined(chunks: seq<seq<Byte>>): seq<Byte> {
    if chunks == [] then [] else chunks[0] + Joined(chunks[1..])
  }

  /** The reader after one read for each chunk. */
  function FeedChunks<T>(format: Format<T>, r: Reader<T>, chunks: seq<seq<Byte>>): Reader<T>
    decreases |chunks|
  {
    if chunks == [] then r else FeedChunks(format, FeedAll(format, r, chunks[0]), chunks[1..])
  }

  lemma {:induction false} FeedAppend<T>(format: Format<T>, r: Reader<T>, a: seq<Byte>, b: seq<Byte>)
    ensures FeedAll(format, r, a + b) == FeedAll(format, FeedAll(format, r, a), b)
    decreases |a|
  {
    if a == [] {
      assert a + b == b;
    } else {
      assert (a + b)[1..] == a[1..] + b;
      FeedAppend(format, Feed(format, r, a[0]), a[1..], b);
    }
  }

  /** How the stream is split into reads makes no difference. */
  lemma {:induction false} ChunkingIrrelevant<T>(format: Format<T>, r: Reader<T>, chunks: seq<seq<Byte>>)
    ensures FeedChunks(format, r, chunks) == FeedAll(format, r, Joined(chunks))
    decreases |chunks|
  {
    if chunks != [] {
      ChunkingIrrelevant(format, FeedAll(format, r, chunks[0]), chunks[1..]);
      FeedAppend(format, r, chunks[0], Joined(chunks[1..]));
    }
  }

  lemma {:induction false} FeedWithoutNewLine<T>(format: Format<T>, r: Reader<T>, bytes: seq<Byte>)
    requires NEW_LINE !in bytes
    ensures FeedAll(format, r, bytes) == r.(buffer := r.buffer + bytes)
    decreases |bytes|
  {
    if bytes == [] {
      assert r.buffer + [] == r.buffer;
    } else {
      FeedWithoutNewLine(format, Feed(format, r, bytes[0]), bytes[1..]);
      assert r.buffer + [bytes[0]] + bytes[1..] == r.buffer + bytes;
    }
  }

  lemma {:induction false} NoReturns(data: seq<Byte>)
    requires CARRIAGE_RETURN !in data
    ensures WithoutReturns(data) == data
  {
    if data != [] {
      NoReturns(data[1..]);
      assert data == [data[0]] + data[1..];
    }
  }

  /** Base64 text passes through framing unharmed, and the line it makes carries it back. */
  lemma LineCarries(crc: Crc, payload: seq<Byte>)
    requires EightDigits(crc)
    ensures var wire := Framed(crc, Encoded(payload));
            NEW_LINE !in wire && Carried(wire[..|wire| - 1]) == Some(payload)
  {
    var text := Encoded(payload);
    EncodeAlphabet(payload);
    NoReturns(text);
    var digits := crc(text);
    assert forall c :: c in digits ==> IsHex(c);
    var wire := Framed(crc, text);
    var line := PREAMBLE + digits + text;
    assert wire == line + [CARRIAGE_RETURN] && wire[..|wire| - 1] == line;
    assert line[0..0 + |PREAMBLE|] == PREAMBLE;
    assert line[|PREAMBLE| + CRC_LENGTH..] == text;
    DecodeEncode(payload);
  }

  lemma FeedLine<T(!new)>(format: Format<T>, crc: Crc, r: Reader<T>, message: T)
    requires EightDigits(crc) && Parses(format) && r.buffer == []
    ensures FeedAll(format, r, Line(format, crc, message)) == Reader([], r.delivered + [message], Some(message))
  {
    var payload := format.serialize(message);
    LineCarries(crc, payload);
    var wire := Framed(crc, Encoded(payload));
    var line := wire[..|wire| - 1];
    FeedAppend(format, r, line, [NEW_LINE]);
    FeedWithoutNewLine(format, r, line);
    assert [] + line == line;
    FeedOne(format, r.(buffer := line), NEW_LINE);
  }

  lemma FeedOne<T>(format: Format<T>, r: Reader<T>, c: Byte)
    ensures FeedAll(format, r, [c]) == Feed(format, r, c)
  {
    assert [c][1..] == [];
  }

  lemma Regroup<T>(a: seq<T>, b: seq<T>)
    requires b != []
    ensures a + [b[0]] + b[1..] == a + b
  {}

  lemma {:induction false} FeedLines<T(!new)>(format: Format<T>, crc: Crc, r: Reader<T>, messages: seq<T>)
    requires EightDigits(crc) && Parses(format) && r.buffer == []
    ensures var after := FeedAll(format, r, Lines(format, crc, messages));
            after.buffer == [] && after.delivered == r.delivered + messages &&
            after.latest == if messages == [] then r.latest else Some(messages[|messages| - 1])
    decreases |messages|
  {
    if messages == [] {
      assert r.delivered + [] == r.delivered;
    } else {
      FeedAppend(format, r, Line(format, crc, messages[0]), Lines(format, crc, messages[1..]));
      FeedLine(format, crc, r, messages[0]);
      var next := Reader([], r.delivered + [messages[0]], Some(messages[0]));
      FeedLines(format, crc, next, messages[1..]);
      Regroup(r.delivered, messages);
    }
  }

  /** Framing does not depend on chunking: whatever garbage came before, as long as it ended a line, and
      however the stream is split into reads, exactly the sent messages are delivered, in order. */
  lemma FramingRoundTrip<T(!new)>(format: Format<T>, crc: Crc, r: Reader<T>, garbage: seq<Byte>, messages: seq<T>,
                                  chunks: seq<seq<Byte>>)
    requires EightDigits(crc) && Parses(format)
    requires garbage != [] && garbage[|garbage| - 1] == NEW_LINE
    requires Joined(chunks) == garbage + Lines(format, crc, messages)
    ensures var after := FeedChunks(format, r, chunks);
            after.buffer == [] && after.delivered == FeedAll(format, r, garbage).delivered + messages
  {
    ChunkingIrrelevant(format, r, chunks);
    FeedAppend(format, r, garbage, Lines(format, crc, messages));
    var front := garbage[..|garbage| - 1];
    assert garbage == front + [NEW_LINE];
    FeedAppend(format, r, front, [NEW_LINE]);
    FeedOne(format, FeedAll(format, r, front), NEW_LINE);
    FeedLines(format, crc, FeedAll(format, r, garbage), messages);
  }

  // ---- lines that carry nothing ----

  lemma {:induction false} FindFromIsFirst(s: seq<Byte>, pattern: seq<Byte>, i: nat)
    ensures var at := FindFrom(s, pattern, i);
            at.Some? ==> at.value >= i && OccursAt(s, pattern, at.value)
    decreases |s| - i
  {
    if i + |pattern| <= |s| && s[i..i + |pattern|] != pattern { FindFromIsFirst(s, pattern, i + 1); }
  }

  /** A line carries something exactly if it has a preamble with room for a checksum behind it. */
  lemma CarriesIff(line: seq<Byte>)
    ensures Carried(line).Some? <==>
              exists k :: OccursAt(line, PREAMBLE, k) && k + |PREAMBLE| + CRC_LENGTH <= |line|
  {
    FindFromIsFirst(line, PREAMBLE, 0);
    if k :| OccursAt(line, PREAMBLE, k) && k + |PREAMBLE| + CRC_LENGTH <= |line| {
      FindFromAtMost(line, PREAMBLE, 0, k);
    }
  }

  ghost predicate HasPreamble(s: seq<Byte>) { exists k :: OccursAt(s, PREAMBLE, k) }

  lemma PreambleInside(a: seq<Byte>, b: seq<Byte>, c: seq<Byte>)
    ensures HasPreamble(b) ==> HasPreamble(a + b + c)
  {
    if k :| OccursAt(b, PREAMBLE, k) {
      assert (a + b + c)[|a| + k..|a| + k + |PREAMBLE|] == b[k..k + |PREAMBLE|];
      assert OccursAt(a + b + c, PREAMBLE, |a| + k);
    }
  }

  /** Bytes without a preamble deliver nothing, whatever else they are. */
  lemma {:induction false} NothingDelivered<T>(format: Format<T>, r: Reader<T>, bytes: seq<Byte>)
    requires !HasPreamble(r.buffer + bytes)
    ensures FeedAll(format, r, bytes).delivered == r.delivered && FeedAll(format, r, bytes).latest == r.latest
    decreases |bytes|
  {
    if bytes != [] {
      var rest := bytes[1..];
      if bytes[0] != NEW_LINE {
        assert r.buffer + bytes == (r.buffer + [bytes[0]]) + rest;
      } else {
        PreambleInside([], r.buffer, bytes);
        assert [] + r.buffer + bytes == r.buffer + bytes;
        CarriesIff(r.buffer);
        PreambleInside(r.buffer + [bytes[0]], rest, []);
        assert r.buffer + [bytes[0]] + rest + [] == r.buffer + bytes;
        assert [] + rest == rest;
      }
      NothingDelivered(format, Feed(format, r, bytes[0]), rest);
    }
  }

  /** So after garbage without a preamble, ending its line, exactly the sent messages are delivered and nothing
      else, in order and however the stream is split into reads. */
  lemma ExactlySentDelivered<T(!new)>(format: Format<T>, crc: Crc, garbage: seq<Byte>, messages: seq<T>,
                                      chunks: seq<seq<Byte>>)
    requires EightDigits(crc) && Parses(format) && !HasPreamble(garbage)
    requires garbage != [] && garbage[|garbage| - 1] == NEW_LINE
    requires Joined(chunks) == garbage + Lines(format, crc, messages)
    ensures FeedChunks(format, Reader([], [], None), chunks).delivered == messages
  {
    var r: Reader<T> := Reader([], [], None);
    FramingRoundTrip(format, crc, r, garbage, messages, chunks);
    assert [] + garbage == garbage;
    NothingDelivered(format, r, garbage);
    assert [] + messages == messages;
  }

  // ---- garbage in front of a message on its line ----

  predicate GoodDigits(digits: seq<Byte>) { |digits| == CRC_LENGTH && forall c :: c in digits ==> IsHex(c) }

  /** A message written after some garbage is received all the same. */
  predicate Survives(garbage: seq<Byte>, digits: seq<Byte>, payload: seq<Byte>) {
    Carried(garbage + PREAMBLE + digits + Encoded(payload)) == Some(payload)
  }

  lemma {:induction false} FindFromAtMost(s: seq<Byte>, pattern: seq<Byte>, i: nat, k: nat)
    requires i <= k && OccursAt(s, pattern, k)
    ensures var at := FindFrom(s, pattern, i); at.Some? && at.value <= k
    decreases k - i
  {
    if s[i..i + |pattern|] != pattern { FindFromAtMost(s, pattern, i + 1, k); }
  }

  /** The preamble is found, but the data are cut from the fixed position. */
  lemma CarriedAfter(garbage: seq<Byte>, digits: seq<Byte>, text: seq<Byte>)
    requires |digits| == CRC_LENGTH
    ensures var line := garbage + PREAMBLE + digits + text;
            Carried(line) == Some(Decoded(line[|PREAMBLE| + CRC_LENGTH..]))
  {
    var line := garbage + PREAMBLE + digits + text;
    assert line[|garbage|..|garbage| + |PREAMBLE|] == PREAMBLE;
    FindFromAtMost(line, PREAMBLE, 0, |garbage|);
  }

  /** Up to eight bytes of garbage put digits of the checksum in front of the data: a payload of one byte
      comes out longer. */
  lemma ShortGarbage(garbage: seq<Byte>, digits: seq<Byte>)
    requires 1 <= |garbage| <= CRC_LENGTH && GoodDigits(digits)
    ensures !Survives(garbage, digits, [0])
  {
    var text := Encoded([0]);
    var tail := digits[CRC_LENGTH - |garbage|..];
    CarriedAfter(garbage, digits, text);
    assert (garbage + PREAMBLE + digits + text)[|PREAMBLE| + CRC_LENGTH..] == tail + text;
    var kept := tail + text[..2];
    forall c | c in tail
      ensures IsBase64(c)
    {
      assert c in digits;
    }
    assert tail + text == kept + text[2..] && text[2] == PAD;
    TextOfAlphabet(kept, text[2..]);
    assert kept + [] == kept;
    DecodedLength(kept);
  }

  /** More garbage leaves part of the preamble in front, at whose last character decoding stops: what comes
      out does not depend on the payload. */
  lemma LongGarbage(garbage: seq<Byte>, digits: seq<Byte>, payload: seq<Byte>)
    requires |garbage| > CRC_LENGTH && |digits| == CRC_LENGTH
    ensures Carried(garbage + PREAMBLE + digits + Encoded(payload)) ==
            Some(DecodedText(Text((garbage + PREAMBLE)[|PREAMBLE| + CRC_LENGTH..|garbage| + |PREAMBLE| - 1])))
  {
    var head := (garbage + PREAMBLE)[|PREAMBLE| + CRC_LENGTH..|garbage| + |PREAMBLE| - 1];
    var rest := digits + Encoded(payload);
    CarriedAfter(garbage, digits, Encoded(payload));
    var line := garbage + PREAMBLE + digits + Encoded(payload);
    assert line[|PREAMBLE| + CRC_LENGTH..] == head + [PREAMBLE[8]] + rest;
    TextStops(head, PREAMBLE[8], rest);
  }

  /** Every bit of garbage on a message's line loses some payload, whatever the checksum. */
  lemma GarbageLosesPayload(garbage: seq<Byte>, digits: seq<Byte>) returns (payload: seq<Byte>)
    requires garbage != [] && GoodDigits(digits)
    ensures !Survives(garbage, digits, payload)
  {
    payload := [0];
    if |garbage| <= CRC_LENGTH {
      ShortGarbage(garbage, digits);
    } else {
      LongGarbage(garbage, digits, [0]);
      LongGarbage(garbage, digits, [1]);
      if Survives(garbage, digits, [0]) { payload := [1]; }
    }
  }

  /** Messages survive garbage on their line exactly if there is none. */
  lemma SurvivesIffClean(garbage: seq<Byte>)
    ensures (forall digits, payload :: GoodDigits(digits) ==> Survives(garbage, digits, payload)) <==> garbage == []
  {
    if garbage == [] {
      forall digits, payload | GoodDigits(digits)
        ensures Survives(garbage, digits, payload)
      {
        CarriedAfter(garbage, digits, Encoded(payload));
        var line := garbage + PREAMBLE + digits + Encoded(payload);
        assert line[|PREAMBLE| + CRC_LENGTH..] == Encoded(payload);
        DecodeEncode(payload);
      }
    } else {
      var zeros := seq(CRC_LENGTH, _ => '0' as int);
      var payload := GarbageLosesPayload(garbage, zeros);
      assert GoodDigits(zeros) && !Survives(garbage, zeros, payload);
    }
  }

  /** With one stray byte the data start with the checksum's last digit. */
  lemma StrayByteShiftsData(stray: Byte, digits: seq<Byte>, text: seq<Byte>)
    requires |digits| == CRC_LENGTH
    ensures Carried([stray] + PREAMBLE + digits + text) == Some(Decoded([digits[7]] + text))
  {
    CarriedAfter([stray], digits, text);
    assert ([stray] + PREAMBLE + digits + text)[|PREAMBLE| + CRC_LENGTH..] == [digits[7]] + text;
  }
}
