// Base64 (section 4 of RFC 4648) and its URL-safe alphabet (section 5), decoded
// as Python does: characters outside the alphabet are skipped, padding ends the
// input once the quantum can be closed, a dangling quantum is an error.
module Base64 {
  import opened Prelude

  type Byte = x: int | 0 <= x < 256
  type Sextet = x: int | 0 <= x < 64

  datatype Alphabet = Standard | UrlSafe

  // -- the alphabet ---------------------------------------------------------------------------

  function CharOf(a: Alphabet, v: Sextet): char {
    if v < 26 then ('A' as int + v) as char
    else if v < 52 then ('a' as int + v - 26) as char
    else if v < 62 then ('0' as int + v - 52) as char
    else if v == 62 then (if a.UrlSafe? then '-' else '+')
    else if a.UrlSafe? then '_' else '/'
  }

  /** The URL-safe decoder maps its two characters onto the standard ones, and so accepts both. */
  function ValueOf(a: Alphabet, c: char): Option<Sextet> {
    if 'A' <= c <= 'Z' then Some(c as int - 'A' as int)
    else if 'a' <= c <= 'z' then Some(c as int - 'a' as int + 26)
    else if '0' <= c <= '9' then Some(c as int - '0' as int + 52)
    else if c == '+' || (c == '-' && a.UrlSafe?) then Some(62)
    else if c == '/' || (c == '_' && a.UrlSafe?) then Some(63)
    else None
  }

  lemma ValueOfChar(a: Alphabet, v: Sextet)
    ensures ValueOf(a, CharOf(a, v)) == Some(v) && CharOf(a, v) != '=' && CharOf(a, v) != '.' && CharOf(a, v) != '$'
  {
  }

  // -- encoding ---------------------------------------------------------------------------------

  /** The characters of one group of three bytes. */
  function Quad(a: Alphabet, x: Byte, y: Byte, z: Byte): (s: string)
    ensures |s| == 4
  {
    [CharOf(a, x / 4), CharOf(a, x % 4 * 16 + y / 16), CharOf(a, y % 16 * 4 + z / 64), CharOf(a, z % 64)]
  }

  /** Unpadded: two characters for one trailing byte, three for two. */
  function EncodeBare(a: Alphabet, data: seq<Byte>): string {
    if data == [] then ""
    else if |data| == 1 then Quad(a, data[0], 0, 0)[..2]
    else if |data| == 2 then Quad(a, data[0], data[1], 0)[..3]
    else Quad(a, data[0], data[1], data[2]) + EncodeBare(a, data[3..])
  }

  function Padding(n: nat): string {
    if n % 3 == 1 then "==" else if n % 3 == 2 then "=" else ""
  }

  function Encode(a: Alphabet, data: seq<Byte>): string { EncodeBare(a, data) + Padding(|data|) }

  // -- decoding ---------------------------------------------------------------------------------

  /** Position in the quantum, the bits carried over, and the padding characters just seen. */
  datatype State = State(pos: nat, left: nat, pads: nat)

  predicate Sane(s: State) {
    s.pos < 4 && s.left < (if s.pos == 1 then 64 else if s.pos == 2 then 16 else if s.pos == 3 then 4 else 1)
  }

  const BEGIN := State(0, 0, 0)

  /** The byte completed by `v`, if any, and the state after it. */
  function Feed(s: State, v: Sextet): (r: (seq<Byte>, State))
    requires Sane(s)
    ensures Sane(r.1)
  {
    if s.pos == 0 then ([], State(1, v, 0))
    else if s.pos == 1 then ([s.left * 4 + v / 16], State(2, v % 16, 0))
    else if s.pos == 2 then ([s.left * 16 + v / 4], State(3, v % 4, 0))
    else ([s.left * 64 + v], State(0, 0, 0))
  }

  function Prepend(bytes: seq<Byte>, r: Option<seq<Byte>>): Option<seq<Byte>> {
    if r.None? then None else Some(bytes + r.value)
  }

  function DecodeFrom(a: Alphabet, s: State, text: string): Option<seq<Byte>>
    requires Sane(s)
    decreases |text|
  {
    if text == "" then (if s.pos == 0 then Some([]) else None)
    else if text[0] == '=' then
      if s.pos >= 2 && s.pos + s.pads + 1 >= 4 then Some([])
      else DecodeFrom(a, if s.pos >= 2 then s.(pads := s.pads + 1) else s, text[1..])
    else
      match ValueOf(a, text[0])
      case None => DecodeFrom(a, s, text[1..])
      case Some(v) =>
        var (bytes, next) := Feed(s, v);
        Prepend(bytes, DecodeFrom(a, next, text[1..]))
  }

  /** None is Python's `binascii.Error`. */
  function Decode(a: Alphabet, text: string): Option<seq<Byte>> { DecodeFrom(a, BEGIN, text) }

  // -- round trip -------------------------------------------------------------------------------

  lemma DecodeChar(a: Alphabet, s: State, v: Sextet, rest: string)
    requires Sane(s)
    ensures DecodeFrom(a, s, [CharOf(a, v)] + rest) == Prepend(Feed(s, v).0, DecodeFrom(a, Feed(s, v).1, rest))
  {
    ValueOfChar(a, v);
    assert ([CharOf(a, v)] + rest)[1..] == rest;
  }

  lemma FeedBits(x: Byte, hi: nat)
    ensures hi < 16 ==> Feed(State(1, x / 4, 0), x % 4 * 16 + hi) == ([x], State(2, hi, 0))
    ensures hi < 4 ==> Feed(State(2, x / 16, 0), x % 16 * 4 + hi) == ([x], State(3, hi, 0))
    ensures Feed(State(3, x / 64, 0), x % 64) == ([x], BEGIN)
  {
    assert x == x / 4 * 4 + x % 4 && x == x / 16 * 16 + x % 16 && x == x / 64 * 64 + x % 64;
  }

  lemma DecodePair(a: Alphabet, x: Byte, hi: nat, rest: string)
    requires hi < 16
    ensures DecodeFrom(a, BEGIN, [CharOf(a, x / 4)] + ([CharOf(a, x % 4 * 16 + hi)] + rest)) ==
      Prepend([x], DecodeFrom(a, State(2, hi, 0), rest))
  {
    FeedBits(x, hi);
    DecodeChar(a, BEGIN, x / 4, [CharOf(a, x % 4 * 16 + hi)] + rest);
    DecodeChar(a, State(1, x / 4, 0), x % 4 * 16 + hi, rest);
    var r := DecodeFrom(a, State(2, hi, 0), rest);
    if r.Some? {
      assert [] + ([x] + r.value) == [x] + r.value;
    }
  }

  lemma DecodeThird(a: Alphabet, y: Byte, hi: nat, rest: string)
    requires hi < 4
    ensures DecodeFrom(a, State(2, y / 16, 0), [CharOf(a, y % 16 * 4 + hi)] + rest) ==
      Prepend([y], DecodeFrom(a, State(3, hi, 0), rest))
  {
    FeedBits(y, hi);
    DecodeChar(a, State(2, y / 16, 0), y % 16 * 4 + hi, rest);
  }

  lemma QuadThen(a: char, b: char, c: char, d: char, rest: string)
    ensures [a, b, c, d] + rest == [a] + ([b] + ([c] + ([d] + rest)))
  {
  }

  lemma PrependThree(x: Byte, y: Byte, z: Byte, r: Option<seq<Byte>>)
    ensures Prepend([x], Prepend([y], Prepend([z], r))) == Prepend([x, y, z], r)
  {
    if r.Some? {
      assert [x] + ([y] + ([z] + r.value)) == [x, y, z] + r.value;
    }
  }

  lemma DecodeLast(a: Alphabet, z: Byte, rest: string)
    ensures DecodeFrom(a, State(3, z / 64, 0), [CharOf(a, z % 64)] + rest) == Prepend([z], DecodeFrom(a, BEGIN, rest))
  {
    FeedBits(z, 0);
    DecodeChar(a, State(3, z / 64, 0), z % 64, rest);
  }

  lemma DecodeQuad(a: Alphabet, x: Byte, y: Byte, z: Byte, rest: string)
    ensures DecodeFrom(a, BEGIN, Quad(a, x, y, z) + rest) == Prepend([x, y, z], DecodeFrom(a, BEGIN, rest))
  {
    var q := Quad(a, x, y, z);
    QuadThen(q[0], q[1], q[2], q[3], rest);
    DecodePair(a, x, y / 16, [q[2]] + ([q[3]] + rest));
    DecodeThird(a, y, z / 64, [q[3]] + rest);
    DecodeLast(a, z, rest);
    PrependThree(x, y, z, DecodeFrom(a, BEGIN, rest));
  }

  lemma DecodeOne(a: Alphabet, x: Byte)
    ensures Decode(a, Encode(a, [x])) == Some([x])
  {
    var q := Quad(a, x, 0, 0);
    assert Encode(a, [x]) == [q[0]] + ([q[1]] + "==");
    DecodePair(a, x, 0, "==");
    assert "=="[1..] == "=";
    assert DecodeFrom(a, State(2, 0, 1), "=") == Some([]);
    assert DecodeFrom(a, State(2, 0, 0), "==") == Some([]);
    assert [x] + [] == [x];
  }

  lemma DecodeTwo(a: Alphabet, x: Byte, y: Byte)
    ensures Decode(a, Encode(a, [x, y])) == Some([x, y])
  {
    var q := Quad(a, x, y, 0);
    assert Encode(a, [x, y]) == [q[0]] + ([q[1]] + ([q[2]] + "="));
    DecodePair(a, x, y / 16, [q[2]] + "=");
    DecodeThird(a, y, 0, "=");
    assert DecodeFrom(a, State(3, 0, 0), "=") == Some([]);
    assert [x] + ([y] + []) == [x, y];
  }

  lemma PaddingStep(n: nat)
    ensures (n + 3) % 3 == n % 3 && Padding(n + 3) == Padding(n)
  {
  }

  lemma EncodeStep(a: Alphabet, data: seq<Byte>)
    requires |data| > 2
    ensures Encode(a, data) == Quad(a, data[0], data[1], data[2]) + Encode(a, data[3..])
  {
    var quad, rest := Quad(a, data[0], data[1], data[2]), EncodeBare(a, data[3..]);
    PaddingStep(|data[3..]|);
    assert EncodeBare(a, data) == quad + rest;
    ConcatAssociates(quad, rest, Padding(|data|));
  }

  lemma ThreeThen(data: seq<Byte>)
    requires |data| > 2
    ensures Prepend([data[0], data[1], data[2]], Some(data[3..])) == Some(data)
  {
    assert data == [data[0], data[1], data[2]] + data[3..];
  }

  /** Decoding undoes encoding, for either alphabet. */
  lemma {:induction false} DecodeEncode(a: Alphabet, data: seq<Byte>)
    ensures Decode(a, Encode(a, data)) == Some(data)
  {
    if data == [] {
    } else if |data| == 1 {
      DecodeOne(a, data[0]);
      assert data == [data[0]];
    } else if |data| == 2 {
      DecodeTwo(a, data[0], data[1]);
      assert data == [data[0], data[1]];
    } else {
      DecodeEncode(a, data[3..]);
      EncodeStep(a, data);
      DecodeQuad(a, data[0], data[1], data[2], Encode(a, data[3..]));
      ThreeThen(data);
    }
  }

  /** Free of the characters other formats put around base64. */
  predicate Plain(s: string) { '=' !in s && '.' !in s && '$' !in s }

  lemma QuadIsPlain(a: Alphabet, x: Byte, y: Byte, z: Byte)
    ensures Plain(Quad(a, x, y, z))
  {
    ValueOfChar(a, x / 4);
    ValueOfChar(a, x % 4 * 16 + y / 16);
    ValueOfChar(a, y % 16 * 4 + z / 64);
    ValueOfChar(a, z % 64);
  }

  lemma PlainAppend(s: string, t: string)
    requires Plain(s) && Plain(t)
    ensures Plain(s + t)
  {
  }

  lemma BareTail(a: Alphabet, data: seq<Byte>)
    requires |data| <= 2
    ensures |EncodeBare(a, data)| == (if data == [] then 0 else |data| + 1) && Plain(EncodeBare(a, data))
  {
    if data != [] {
      QuadIsPlain(a, data[0], if |data| == 2 then data[1] else 0, 0);
    }
  }

  /** The length of the unpadded form leaves this over four. */
  function Leftover(n: nat): nat { if n % 3 == 0 then 0 else n % 3 + 1 }

  lemma BareAppend(quad: string, rest: string, n: nat)
    requires |quad| == 4 && |rest| % 4 == Leftover(n)
    ensures |quad + rest| % 4 == Leftover(n + 3)
  {
    PaddingStep(n);
  }

  /** The unpadded form has a length the decoder can re-pad, and holds no padding. */
  lemma {:induction false} BareForm(a: Alphabet, data: seq<Byte>)
    ensures |EncodeBare(a, data)| % 4 == Leftover(|data|)
    ensures Plain(EncodeBare(a, data))
    ensures EncodeBare(a, data) == "" <==> data == []
  {
    if |data| > 2 {
      var quad, rest := Quad(a, data[0], data[1], data[2]), EncodeBare(a, data[3..]);
      BareForm(a, data[3..]);
      QuadIsPlain(a, data[0], data[1], data[2]);
      PlainAppend(quad, rest);
      BareAppend(quad, rest, |data[3..]|);
      assert EncodeBare(a, data) == quad + rest;
    } else {
      BareTail(a, data);
    }
  }

  // -- unpadded base64url (section 2 of RFC 7515) ---------------------------------------------------

  function StripPadding(s: string): string {
    if s != "" && s[|s| - 1] == '=' then StripPadding(s[..|s| - 1]) else s
  }

  /** `urlsafe_b64encode(raw).rstrip(b"=")` */
  function UrlEncode(data: seq<Byte>): string { StripPadding(Encode(UrlSafe, data)) }

  /** `"=" * (-len(segment) % 4)` */
  function MissingPadding(n: nat): string {
    if n % 4 == 1 then "===" else if n % 4 == 2 then "==" else if n % 4 == 3 then "=" else ""
  }

  function UrlDecode(segment: string): Option<seq<Byte>> {
    Decode(UrlSafe, segment + MissingPadding(|segment|))
  }

  lemma StrippedIsBare(data: seq<Byte>)
    ensures UrlEncode(data) == EncodeBare(UrlSafe, data)
  {
    BareForm(UrlSafe, data);
    var bare := EncodeBare(UrlSafe, data);
    assert StripPadding(bare) == bare by {
      assert bare == "" || bare[|bare| - 1] in bare;
    }
    assert (bare + "=")[..|bare|] == bare;
    assert (bare + "==")[..|bare| + 1] == bare + "=";
    assert StripPadding(bare + "=") == bare && StripPadding(bare + "==") == StripPadding(bare + "=");
    assert bare + "" == bare;
  }

  /** Re-padding by length undoes the stripping. */
  lemma UrlRoundTrip(data: seq<Byte>)
    ensures UrlDecode(UrlEncode(data)) == Some(data)
    ensures '.' !in UrlEncode(data)
    ensures UrlEncode(data) == "" <==> data == []
  {
    StrippedIsBare(data);
    BareForm(UrlSafe, data);
    DecodeEncode(UrlSafe, data);
    assert MissingPadding(|UrlEncode(data)|) == Padding(|data|);
  }

  /** The test vectors of section 10 of RFC 4648. */
  lemma KnownEncodings()
    ensures Encode(Standard, []) == ""
    ensures Encode(Standard, [102]) == "Zg=="
    ensures Encode(Standard, [102, 111]) == "Zm8="
    ensures Encode(Standard, [102, 111, 111]) == "Zm9v"
    ensures Encode(Standard, [102, 111, 111, 98, 97, 114]) == "Zm9vYmFy"
    ensures Encode(Standard, [251, 255]) == "+/8=" && Encode(UrlSafe, [251, 255]) == "-_8="
  {
    assert [102, 111, 111, 98, 97, 114][3..] == [98, 97, 114];
  }
}
