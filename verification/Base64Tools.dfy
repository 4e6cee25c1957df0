/** The base64 codec (base64_tools.cc; section 4 of RFC 4648). Shifts and masks of unsigned chars are
    written as division, remainder and multiplication by powers of two. */
module Base64Tools {

  type Byte = n: int | 0 <= n < 256

  const PAD: Byte := 61  // '='

  /** What the C++ lookup of a missing character yields: npos, cut down to an unsigned char. */
  const NOT_FOUND: Byte := 255

  predicate IsBase64(c: Byte) {
    'A' as int <= c <= 'Z' as int || 'a' as int <= c <= 'z' as int || '0' as int <= c <= '9' as int ||
    c == '+' as int || c == '/' as int
  }

  /** The alphabet: A-Z, a-z, 0-9, + and /. */
  function CharOf(v: int): (c: Byte)
    requires 0 <= v < 64
    ensures IsBase64(c)
  {
    if v < 26 then v + 'A' as int
    else if v < 52 then v - 26 + 'a' as int
    else if v < 62 then v - 52 + '0' as int
    else if v == 62 then '+' as int else '/' as int
  }

  /** The position of a character in the alphabet. */
  function Find(c: Byte): (v: Byte)
    ensures IsBase64(c) ==> v < 64 && CharOf(v) == c
    ensures !IsBase64(c) ==> v == NOT_FOUND
  {
    if 'A' as int <= c <= 'Z' as int then c - 'A' as int
    else if 'a' as int <= c <= 'z' as int then c - 'a' as int + 26
    else if '0' as int <= c <= '9' as int then c - '0' as int + 52
    else if c == '+' as int then 62
    else if c == '/' as int then 63
    else NOT_FOUND
  }

  lemma FindCharOf(v: int)
    requires 0 <= v < 64
    ensures Find(CharOf(v)) == v
  {}

  // ---- the reference: 24-bit groups ----

  /** Three bytes as one 24-bit number, and its four sextets. */
  function Group(a: Byte, b: Byte, c: Byte): (n: int)
    ensures 0 <= n < 0x100_0000
  {
    var a: int, b: int, c: int := a, b, c;
    (a * 256 + b) * 256 + c
  }

  function Quad(n: int): (q: seq<Byte>)
    requires 0 <= n < 0x100_0000
    ensures |q| == 4
  {
    [CharOf(n / 64 / 64 / 64), CharOf(n / 64 / 64 % 64), CharOf(n / 64 % 64), CharOf(n % 64)]
  }

  /** Four sextets as one 24-bit number, and its three bytes. */
  function Sextets(a: int, b: int, c: int, d: int): (n: int)
    requires 0 <= a < 64 && 0 <= b < 64 && 0 <= c < 64 && 0 <= d < 64
    ensures 0 <= n < 0x100_0000
  {
    ((a * 64 + b) * 64 + c) * 64 + d
  }

  function Triple(n: int): (t: seq<Byte>)
    requires 0 <= n < 0x100_0000
    ensures |t| == 3
  {
    [n / 256 / 256, n / 256 % 256, n % 256]
  }

  function Encoded(s: seq<Byte>): seq<Byte> {
    if |s| == 0 then []
    else if |s| == 1 then Quad(Group(s[0], 0, 0))[..2] + [PAD, PAD]
    else if |s| == 2 then Quad(Group(s[0], s[1], 0))[..3] + [PAD]
    else Quad(Group(s[0], s[1], s[2])) + Encoded(s[3..])
  }

  /** The characters before the first one that is not of the alphabet. */
  function Text(t: seq<Byte>): (r: seq<Byte>)
    ensures forall c :: c in r ==> IsBase64(c)
  {
    if t == [] || !IsBase64(t[0]) then [] else [t[0]] + Text(t[1..])
  }

  /** Characters in fours make bytes in threes; a rest of i characters makes i - 1 bytes. */
  function DecodedText(t: seq<Byte>): seq<Byte>
    requires forall c :: c in t ==> IsBase64(c)
  {
    if |t| < 2 then []
    else if |t| == 2 then Triple(Sextets(Find(t[0]), Find(t[1]), 0, 0))[..1]
    else if |t| == 3 then Triple(Sextets(Find(t[0]), Find(t[1]), Find(t[2]), 0))[..2]
    else Triple(Sextets(Find(t[0]), Find(t[1]), Find(t[2]), Find(t[3]))) + DecodedText(t[4..])
  }

  function Decoded(t: seq<Byte>): seq<Byte> { DecodedText(Text(t)) }

  /** Padded text with no spare bits set. */
  predicate Canonical(t: seq<Byte>)
  {
    t == [] ||
    (|t| >= 4 && IsBase64(t[0]) && IsBase64(t[1]) &&
     if IsBase64(t[2]) && IsBase64(t[3]) then Canonical(t[4..])
     else |t| == 4 && t[3] == PAD &&
          if IsBase64(t[2]) then Find(t[2]) % 4 == 0 else t[2] == PAD && Find(t[1]) % 16 == 0)
  }

  lemma Split64(q: int, r: int)
    requires 0 <= r < 64
    ensures (q * 64 + r) / 64 == q && (q * 64 + r) % 64 == r
  {}

  lemma Split256(q: int, r: int)
    requires 0 <= r < 256
    ensures (q * 256 + r) / 256 == q && (q * 256 + r) % 256 == r
  {}

  lemma QuadOfTriple(a: int, b: int, c: int, d: int)
    requires 0 <= a < 64 && 0 <= b < 64 && 0 <= c < 64 && 0 <= d < 64
    ensures var n := Sextets(a, b, c, d);
            n / 64 / 64 / 64 == a && n / 64 / 64 % 64 == b && n / 64 % 64 == c && n % 64 == d
    ensures var t := Triple(Sextets(a, b, c, d)); Group(t[0], t[1], t[2]) == Sextets(a, b, c, d)
  {
    Split64((a * 64 + b) * 64 + c, d);
    Split64(a * 64 + b, c);
    Split64(a, b);
  }

  lemma TripleOfQuad(a: Byte, b: Byte, c: Byte)
    ensures Triple(Group(a, b, c)) == [a, b, c]
    ensures var n := Group(a, b, c);
            Sextets(n / 64 / 64 / 64, n / 64 / 64 % 64, n / 64 % 64, n % 64) == n
  {
    Split256(a * 256 + b, c);
    Split256(a, b);
  }

  lemma DecodeQuad(a: Byte, b: Byte, c: Byte)
    ensures var q := Quad(Group(a, b, c));
            Triple(Sextets(Find(q[0]), Find(q[1]), Find(q[2]), Find(q[3]))) == [a, b, c]
  {
    var n := Group(a, b, c);
    FindCharOf(n / 64 / 64 / 64);
    FindCharOf(n / 64 / 64 % 64);
    FindCharOf(n / 64 % 64);
    FindCharOf(n % 64);
    TripleOfQuad(a, b, c);
  }

  /** A byte string of one or two bytes leaves the last sextets of its group zero. */
  lemma ShortGroups(a: Byte, b: Byte)
    ensures Group(a, 0, 0) / 64 % 64 == 0 && Group(a, 0, 0) % 64 == 0 && Group(a, b, 0) % 64 == 0
    ensures Group(a, 0, 0) / 64 / 64 % 64 % 16 == 0 && Group(a, b, 0) / 64 % 64 % 4 == 0
  {
    GroupBits(a, 0, 0);
    GroupBits(a, b, 0);
  }

  lemma {:induction false} TextOfAlphabet(q: seq<Byte>, rest: seq<Byte>)
    requires forall c :: c in q ==> IsBase64(c)
    ensures Text(q + rest) == q + Text(rest)
  {
    if q == [] {
      assert q + rest == rest;
    } else {
      assert q[0] in q;
      assert (q + rest)[1..] == q[1..] + rest;
      TextOfAlphabet(q[1..], rest);
    }
  }

  lemma DecodeEncodeOne(a: Byte)
    ensures Decoded(Encoded([a])) == [a]
  {
    var q := Quad(Group(a, 0, 0));
    DecodeQuad(a, 0, 0);
    ShortGroups(a, 0);
    FindCharOf(0);
    TextOfAlphabet(q[..2], [PAD, PAD]);
  }

  lemma DecodeEncodeTwo(a: Byte, b: Byte)
    ensures Decoded(Encoded([a, b])) == [a, b]
  {
    var q := Quad(Group(a, b, 0));
    DecodeQuad(a, b, 0);
    ShortGroups(a, b);
    FindCharOf(0);
    TextOfAlphabet(q[..3], [PAD]);
  }

  lemma DecodeEncodeThree(a: Byte, b: Byte, c: Byte, rest: seq<Byte>)
    ensures Decoded(Quad(Group(a, b, c)) + rest) == [a, b, c] + Decoded(rest)
  {
    var q := Quad(Group(a, b, c));
    DecodeQuad(a, b, c);
    TextOfAlphabet(q, rest);
    assert (q + Text(rest))[4..] == Text(rest);
  }

  lemma {:induction false} DecodeEncode(s: seq<Byte>)
    ensures Decoded(Encoded(s)) == s
  {
    if |s| == 1 {
      assert s == [s[0]];
      DecodeEncodeOne(s[0]);
    } else if |s| == 2 {
      assert s == [s[0], s[1]];
      DecodeEncodeTwo(s[0], s[1]);
    } else if |s| > 2 {
      DecodeEncode(s[3..]);
      DecodeEncodeThree(s[0], s[1], s[2], Encoded(s[3..]));
      assert s == [s[0], s[1], s[2]] + s[3..];
    }
  }

  lemma EncodeQuad(a: Byte, b: Byte, c: Byte, d: Byte)
    requires IsBase64(a) && IsBase64(b) && IsBase64(c) && IsBase64(d)
    ensures var t := Triple(Sextets(Find(a), Find(b), Find(c), Find(d)));
            Quad(Group(t[0], t[1], t[2])) == [a, b, c, d]
  {
    QuadOfTriple(Find(a), Find(b), Find(c), Find(d));
  }

  /** With the spare bits zero, the bytes that are cut off are zero as well. */
  lemma SpareBytes(a: int, b: int, c: int)
    requires 0 <= a < 64 && 0 <= b < 64 && 0 <= c < 64
    ensures c % 4 == 0 ==> Triple(Sextets(a, b, c, 0))[2] == 0
    ensures b % 16 == 0 ==> Triple(Sextets(a, b, 0, 0))[1] == 0 && Triple(Sextets(a, b, 0, 0))[2] == 0
  {
    SextetBits(a, b, c, 0);
    SextetBits(a, b, 0, 0);
  }

  lemma Four(t: seq<Byte>)
    requires |t| >= 4
    ensures t == [t[0], t[1], t[2], t[3]] + t[4..]
    ensures |t| == 4 ==> t == [t[0], t[1], t[2]] + [t[3]] && t == [t[0], t[1]] + [t[2], t[3]]
  {}

  lemma EncodeDecodeFull(a: Byte, b: Byte, c: Byte, d: Byte, rest: seq<Byte>)
    requires IsBase64(a) && IsBase64(b) && IsBase64(c) && IsBase64(d) && Encoded(Decoded(rest)) == rest
    ensures Encoded(Decoded([a, b, c, d] + rest)) == [a, b, c, d] + rest
  {
    TextOfAlphabet([a, b, c, d], rest);
    EncodeQuad(a, b, c, d);
    var bytes := Triple(Sextets(Find(a), Find(b), Find(c), Find(d)));
    DecodedFour([a, b, c, d], Text(rest));
    EncodedThree(bytes, Decoded(rest));
  }

  lemma DecodedFour(four: seq<Byte>, rest: seq<Byte>)
    requires |four| == 4 && (forall c :: c in four ==> IsBase64(c)) && (forall c :: c in rest ==> IsBase64(c))
    ensures DecodedText(four + rest) ==
            Triple(Sextets(Find(four[0]), Find(four[1]), Find(four[2]), Find(four[3]))) + DecodedText(rest)
  {
    assert (four + rest)[4..] == rest;
  }

  lemma EncodedThree(three: seq<Byte>, rest: seq<Byte>)
    requires |three| == 3
    ensures Encoded(three + rest) == Quad(Group(three[0], three[1], three[2])) + Encoded(rest)
  {
    assert (three + rest)[3..] == rest;
  }

  lemma EncodeDecodeTwo(a: Byte, b: Byte, c: Byte)
    requires IsBase64(a) && IsBase64(b) && IsBase64(c) && Find(c) % 4 == 0
    ensures Encoded(Decoded([a, b, c] + [PAD])) == [a, b, c] + [PAD]
  {
    TextOfAlphabet([a, b, c], [PAD]);
    assert Text([PAD]) == [] && [a, b, c] + [] == [a, b, c];
    FindCharOf(0);
    EncodeQuad(a, b, c, CharOf(0));
    SpareBytes(Find(a), Find(b), Find(c));
  }

  lemma EncodeDecodeOne(a: Byte, b: Byte)
    requires IsBase64(a) && IsBase64(b) && Find(b) % 16 == 0
    ensures Encoded(Decoded([a, b] + [PAD, PAD])) == [a, b] + [PAD, PAD]
  {
    TextOfAlphabet([a, b], [PAD, PAD]);
    assert Text([PAD, PAD]) == [] && [a, b] + [] == [a, b];
    FindCharOf(0);
    EncodeQuad(a, b, CharOf(0), CharOf(0));
    SpareBytes(Find(a), Find(b), 0);
  }

  lemma {:induction false} EncodeDecode(t: seq<Byte>)
    requires Canonical(t)
    ensures Encoded(Decoded(t)) == t
  {
    if t != [] {
      Four(t);
      if IsBase64(t[2]) && IsBase64(t[3]) {
        EncodeDecode(t[4..]);
        EncodeDecodeFull(t[0], t[1], t[2], t[3], t[4..]);
      } else if IsBase64(t[2]) {
        EncodeDecodeTwo(t[0], t[1], t[2]);
      } else {
        EncodeDecodeOne(t[0], t[1]);
      }
    }
  }

  /** n characters make three bytes for every four, and a rest of i characters makes i - 1. */
  lemma {:induction false} DecodedLength(t: seq<Byte>)
    requires forall c :: c in t ==> IsBase64(c)
    ensures |DecodedText(t)| == 3 * |t| / 4
  {
    if |t| >= 4 { DecodedLength(t[4..]); }
  }

  /** Decoding stops at the first foreign character. */
  lemma {:induction false} TextStops(a: seq<Byte>, c: Byte, b: seq<Byte>)
    requires !IsBase64(c)
    ensures Text(a + [c] + b) == Text(a)
  {
    var t := a + [c] + b;
    if a == [] {
      assert t[0] == c;
    } else {
      assert t[0] == a[0] && t[1..] == a[1..] + [c] + b;
      TextStops(a[1..], c, b);
    }
  }

  /** The length of the text for n bytes: four characters for every three bytes begun. */
  function TextLength(n: nat): nat { 4 * ((n + 2) / 3) }

  lemma TextLengthStep(n: nat)
    requires n >= 3
    ensures TextLength(n) == TextLength(n - 3) + 4
  {}

  lemma {:induction false} EncodeLength(s: seq<Byte>)
    ensures |Encoded(s)| == TextLength(|s|)
  {
    if |s| > 2 {
      EncodeLength(s[3..]);
      TextLengthStep(|s|);
    }
  }

  /** So encoded text never contains a line feed or a carriage return. */
  lemma {:induction false} EncodeAlphabet(s: seq<Byte>)
    ensures forall c :: c in Encoded(s) ==> IsBase64(c) || c == PAD
  {
    if |s| > 2 { EncodeAlphabet(s[3..]); }
  }

  lemma {:induction false} EncodeCanonical(s: seq<Byte>)
    ensures Canonical(Encoded(s))
  {
    if |s| == 1 {
      ShortGroups(s[0], 0);
      FindCharOf(Group(s[0], 0, 0) / 64 / 64 % 64);
    } else if |s| == 2 {
      ShortGroups(s[0], s[1]);
      FindCharOf(Group(s[0], s[1], 0) / 64 % 64);
    } else if |s| > 2 {
      EncodeCanonical(s[3..]);
      assert (Quad(Group(s[0], s[1], s[2])) + Encoded(s[3..]))[4..] == Encoded(s[3..]);
    }
  }

  /** The codec is one-to-one between byte strings and canonical text: decoding undoes encoding
      always, and encoding undoes decoding exactly on canonical text. */
  lemma RoundTrips(s: seq<Byte>, t: seq<Byte>)
    ensures Decoded(Encoded(s)) == s
    ensures Encoded(Decoded(t)) == t <==> Canonical(t)
  {
    DecodeEncode(s);
    if Canonical(t) { EncodeDecode(t); }
    EncodeCanonical(Decoded(t));
  }

  // ---- against the standard: RFC 4648, section 4 ----

  /** The standard's table: its ends and runs. */
  lemma AlphabetInOrder(v: int)
    requires 0 <= v < 64
    ensures CharOf(0) == 'A' as int && CharOf(25) == 'Z' as int && CharOf(26) == 'a' as int && CharOf(51) == 'z' as int
    ensures CharOf(52) == '0' as int && CharOf(61) == '9' as int
    ensures CharOf(62) == '+' as int && CharOf(63) == '/' as int
    ensures v < 61 && v != 25 && v != 51 ==> CharOf(v + 1) == CharOf(v) + 1
  {}

  /** The sextets of three bytes, from the first bit to the last. */
  lemma QuadBits(a: Byte, b: Byte, c: Byte)
    ensures 0 <= a / 4 < 64 && 0 <= a % 4 * 16 + b / 16 < 64 && 0 <= b % 16 * 4 + c / 64 < 64 && 0 <= c % 64 < 64
    ensures Quad(Group(a, b, c)) ==
            [CharOf(a / 4), CharOf(a % 4 * 16 + b / 16), CharOf(b % 16 * 4 + c / 64), CharOf(c % 64)]
  {
    GroupBits(a, b, c);
    ByteBits(a, b, c);
  }

  /** One, two and three bytes, bit by bit, with the padding of short groups. */
  lemma EncodedBits(a: Byte, b: Byte, c: Byte)
    ensures a % 4 * 16 < 64 && a / 4 < 64 && b % 16 * 4 < 64
    ensures Encoded([a]) == [CharOf(a / 4), CharOf(a % 4 * 16), PAD, PAD]
    ensures a % 4 * 16 + b / 16 < 64
    ensures Encoded([a, b]) == [CharOf(a / 4), CharOf(a % 4 * 16 + b / 16), CharOf(b % 16 * 4), PAD]
    ensures Encoded([a, b, c]) == Quad(Group(a, b, c))
  {
    QuadBits(a, 0, 0);
    QuadBits(a, b, 0);
    assert [a, b, c][3..] == [];
  }

  // ---- the code ----

  method Encode(input: seq<Byte>) returns (outStr: seq<Byte>)
    ensures outStr == Encoded(input)
  {
    EncodeLength(input);
    var out := new Byte[4 * ((|input| + 2) / 3)];
    var next, pos := EncodeGroups(out, input);
    if |input| - next != 0 {
      EncodeRest(out, pos, input[next..]);
    } else {
      assert out[..pos] + [] == out[..];
    }
    outStr := out[..];
  }

  /** The loop of Encode: all full groups of three bytes. */
  method EncodeGroups(out: array<Byte>, input: seq<Byte>) returns (next: nat, pos: nat)
    requires out.Length == TextLength(|input|)
    modifies out
    ensures next <= |input| < next + 3 && out.Length - pos == TextLength(|input| - next) >= 0
    ensures out[..pos] + Encoded(input[next..]) == Encoded(input)
  {
    next, pos := 0, 0;
    Start(input, out[..0]);
    while |input| - next >= 3
      invariant next <= |input| && out.Length - pos == TextLength(|input| - next)
      invariant pos <= out.Length && out[..pos] + Encoded(input[next..]) == Encoded(input)
    {
      TextLengthStep(|input| - next);
      EncodedStep(out[..pos], input, next);
      EncodeThree(out, pos, input[next], input[next + 1], input[next + 2]);
      pos := pos + 4;
      next := next + 3;
    }
  }

  lemma Start(input: seq<Byte>, done: seq<Byte>)
    requires done == []
    ensures done + Encoded(input[0..]) == Encoded(input)
  {
    assert input[0..] == input;
  }

  lemma EncodedStep(done: seq<Byte>, input: seq<Byte>, next: nat)
    requires next + 3 <= |input|
    ensures done + Encoded(input[next..]) ==
            done + Quad(Group(input[next], input[next + 1], input[next + 2])) + Encoded(input[next + 3..])
  {
    var rest := input[next..];
    assert rest[3..] == input[next + 3..];
    assert Encoded(rest) == Quad(Group(rest[0], rest[1], rest[2])) + Encoded(rest[3..]);
  }

  /** The body of the loop: four characters for three bytes. */
  method EncodeThree(out: array<Byte>, pos: nat, a: Byte, b: Byte, c: Byte)
    requires pos + 4 <= out.Length
    modifies out
    ensures out[..pos + 4] == old(out[..pos]) + Quad(Group(a, b, c))
  {
    GroupBits(a, b, c);
    ByteBits(a, b, c);
    out[pos] := CharOf(a / 4);
    out[pos + 1] := CharOf(a % 4 * 16 + b / 16);
    out[pos + 2] := CharOf(b % 16 * 4 + c / 64);
    out[pos + 3] := CharOf(c % 64);
  }

  /** The last one or two bytes, padded. */
  method EncodeRest(out: array<Byte>, pos: nat, rest: seq<Byte>)
    requires pos + 4 == out.Length && 1 <= |rest| <= 2
    modifies out
    ensures out[..] == old(out[..pos]) + Encoded(rest)
  {
    var a := rest[0];
    var at := pos;
    out[at] := CharOf(a / 4);
    at := at + 1;
    if |rest| == 1 {
      GroupBits(a, 0, 0);
      out[at] := CharOf(a % 4 * 16);
      at := at + 1;
      out[at] := PAD;
      at := at + 1;
    } else {
      var b := rest[1];
      GroupBits(a, b, 0);
      ByteBits(a, b, 0);
      out[at] := CharOf(a % 4 * 16 + b / 16);
      at := at + 1;
      out[at] := CharOf(b % 16 * 4);
      at := at + 1;
    }
    out[at] := PAD;
  }

  /** The bits of three bytes, regrouped. */
  lemma GroupBits(a: Byte, b: Byte, c: Byte)
    ensures var n := Group(a, b, c);
            n / 64 / 64 / 64 == a / 4 && n / 64 / 64 % 64 == a % 4 * 16 + b / 16 &&
            n / 64 % 64 == b % 16 * 4 + c / 64 && n % 64 == c % 64
  {
    var w, x, y, z := a / 4, a % 4 * 16 + b / 16, b % 16 * 4 + c / 64, c % 64;
    assert Group(a, b, c) == Sextets(w, x, y, z);
    QuadOfTriple(w, x, y, z);
  }

  lemma ByteBits(a: Byte, b: Byte, c: Byte)
    ensures 0 <= a / 4 < 64 && 0 <= a % 4 * 16 + b / 16 < 64 && 0 <= b % 16 * 4 + c / 64 < 64 && 0 <= c % 64 < 64
  {}

  /** The three bytes the code computes from four lookups, in unsigned char arithmetic. */
  function Bytes(a: int, b: int, c: int, d: int): (t: seq<Byte>)
    requires 0 <= a < 256 && 0 <= b < 256 && 0 <= c < 256 && 0 <= d < 256
    ensures |t| == 3
  {
    [(a * 4 + b / 16 % 4) % 256, (b % 16 * 16 + c / 4 % 16) % 256, (c % 4 * 64 + d) % 256]
  }

  /** Lookups of missing characters do not reach the bytes that are kept. */
  lemma BytesOfSextets(a: int, b: int, c: int, d: int)
    requires 0 <= a < 64 && 0 <= b < 64 && 0 <= c < 256 && 0 <= d < 256
    ensures c < 64 && d < 64 ==> Bytes(a, b, c, d) == Triple(Sextets(a, b, c, d))
    ensures c < 64 ==> Bytes(a, b, c, d)[..2] == Triple(Sextets(a, b, c, 0))[..2]
    ensures Bytes(a, b, c, d)[..1] == Triple(Sextets(a, b, 0, 0))[..1]
  {
    SextetBits(a, b, 0, 0);
    ByteSums(a, b, 0, 0);
    if c < 64 {
      SextetBits(a, b, c, 0);
      ByteSums(a, b, c, 0);
      if d < 64 {
        SextetBits(a, b, c, d);
        ByteSums(a, b, c, d);
      }
    }
  }

  /** The sums of shifted sextets fit in a byte. */
  lemma ByteSums(a: int, b: int, c: int, d: int)
    requires 0 <= a < 64 && 0 <= b < 64 && 0 <= c < 64 && 0 <= d < 64
    ensures (a * 4 + b / 16 % 4) % 256 == a * 4 + b / 16
    ensures (b % 16 * 16 + c / 4 % 16) % 256 == b % 16 * 16 + c / 4
    ensures (c % 4 * 64 + d) % 256 == c % 4 * 64 + d
  {}

  lemma SextetBits(a: int, b: int, c: int, d: int)
    requires 0 <= a < 64 && 0 <= b < 64 && 0 <= c < 64 && 0 <= d < 64
    ensures var n := Sextets(a, b, c, d);
            n / 256 / 256 == a * 4 + b / 16 && n / 256 % 256 == b % 16 * 16 + c / 4 && n % 256 == c % 4 * 64 + d
  {
    var x, y, z := a * 4 + b / 16, b % 16 * 16 + c / 4, c % 4 * 64 + d;
    assert Sextets(a, b, c, d) == (x * 256 + y) * 256 + z;
    Split256(x * 256 + y, z);
    Split256(x, y);
  }

  method Decode(encoded: seq<Byte>) returns (ret: seq<Byte>)
    ensures ret == Decoded(encoded)
  {
    var inLen, next, i := |encoded|, 0, 0;
    var four: seq<Byte> := [0, 0, 0, 0];
    ret := [];
    assert encoded[0..] == encoded && four[..0] + Text(encoded) == Text(encoded);
    while inLen != 0 && encoded[next] != PAD && IsBase64(encoded[next])
      invariant 0 <= next <= |encoded| && inLen == |encoded| - next && 0 <= i < 4 && |four| == 4
      invariant forall k :: 0 <= k < i ==> IsBase64(four[k])
      invariant ret + DecodedText(four[..i] + Text(encoded[next..])) == Decoded(encoded)
      decreases inLen
    {
      ghost var held := four[..i];
      TextNext(encoded, next, held);
      four := four[i := encoded[next]];
      i := i + 1;
      assert four[..i] == held + [encoded[next]];
      inLen := inLen - 1;
      next := next + 1;
      if i == 4 {
        assert four[..4] == four;
        DecodedStep(ret, four, Text(encoded[next..]));
        var group := DecodeGroup(four, 4);
        ret := ret + group;
        i := 0;
      }
    }
    assert Text(encoded[next..]) == [] && four[..i] + [] == four[..i];
    if i != 0 {
      var group := DecodeGroup(four, i);
      ret := ret + group;
    }
  }

  lemma TextNext(encoded: seq<Byte>, next: nat, held: seq<Byte>)
    requires next < |encoded| && IsBase64(encoded[next])
    ensures held + Text(encoded[next..]) == held + [encoded[next]] + Text(encoded[next + 1..])
  {
    assert encoded[next..][1..] == encoded[next + 1..];
  }

  lemma DecodedStep(ret: seq<Byte>, four: seq<Byte>, rest: seq<Byte>)
    requires |four| == 4 && (forall c :: c in four ==> IsBase64(c)) && (forall c :: c in rest ==> IsBase64(c))
    ensures ret + DecodedText(four[..4] + rest) == ret + DecodedText(four) + DecodedText(four[..0] + rest)
  {
    var text := four[..4] + rest;
    assert text[4..] == rest && four[..0] + rest == rest && four[4..] == [];
    assert DecodedText(text) == DecodedText(four) + DecodedText(rest);
  }

  /** A group of i characters: missing ones are filled with zero bytes, every character is looked up,
      and i - 1 bytes are kept. */
  method DecodeGroup(chars: seq<Byte>, i: nat) returns (bytes: seq<Byte>)
    requires |chars| == 4 && 1 <= i <= 4 && forall k :: 0 <= k < i ==> IsBase64(chars[k])
    ensures bytes == DecodedText(chars[..i])
  {
    var four := chars;
    for j := i to 4
      invariant |four| == 4 && four[..i] == chars[..i] && forall k :: i <= k < j ==> four[k] == 0
    {
      four := four[j := 0];
    }
    assert forall k :: 0 <= k < i ==> four[k] == four[..i][k] == chars[..i][k] == chars[k];
    four := [Find(four[0]), Find(four[1]), Find(four[2]), Find(four[3])];
    if i >= 2 { BytesOfSextets(four[0], four[1], four[2], four[3]); }
    bytes := Bytes(four[0], four[1], four[2], four[3])[..i - 1];
  }
}
