// The standard-library token vault (app/saas/crypto.py): a counter-mode
// keystream, encrypt-then-MAC, and the versioned base64 envelope.
module Vault {
  import opened Prelude
  import opened Base64

  const NONCE_LEN := 16
  const TAG_LEN := 32
  const BLOCK_LEN := 32
  const VERSION := "v1"
  const FERNET_PREFIX := "f1$"
  const COUNTER_LIMIT := 0x1_0000_0000_0000_0000

  type Digest = d: seq<Byte> | |d| == BLOCK_LEN witness seq(BLOCK_LEN, _ => 0)
  type Nonce = n: seq<Byte> | |n| == NONCE_LEN witness seq(NONCE_LEN, _ => 0)

  /** SHA-256 and HMAC-SHA256 as functions of bytes; UTF-8 as a pair of converters. */
  datatype Primitives = Primitives(
    sha256: seq<Byte> -> Digest,
    hmac: (seq<Byte>, seq<Byte>) -> Digest,
    utf8: string -> seq<Byte>,
    fromUtf8: seq<Byte> -> Option<string>)

  /** Text survives its encoding. */
  ghost predicate Lawful(p: Primitives) { forall s :: p.fromUtf8(p.utf8(s)) == Some(s) }

  // -- keystream --------------------------------------------------------------------------------

  /** `n.to_bytes(width, "big")` */
  function BigEndian(n: nat, width: nat): (b: seq<Byte>)
    ensures |b| == width
  {
    if width == 0 then [] else BigEndian(n / 256, width - 1) + [n % 256]
  }

  function Block(p: Primitives, key: seq<Byte>, nonce: Nonce, counter: nat): Digest {
    p.sha256(key + nonce + BigEndian(counter, 8))
  }

  function Blocks(p: Primitives, key: seq<Byte>, nonce: Nonce, n: nat): (s: seq<Byte>)
    ensures |s| == BLOCK_LEN * n
  {
    if n == 0 then [] else Blocks(p, key, nonce, n - 1) + Block(p, key, nonce, n - 1)
  }

  /** How many blocks cover `length` bytes. */
  function BlockCount(length: nat): nat { (length + BLOCK_LEN - 1) / BLOCK_LEN }

  function Stream(p: Primitives, key: seq<Byte>, nonce: Nonce, length: nat): (s: seq<Byte>)
    ensures |s| == length
  {
    Blocks(p, key, nonce, BlockCount(length))[..length]
  }

  /** The counter is eight bytes wide: beyond that the conversion raises. */
  method Keystream(p: Primitives, key: seq<Byte>, nonce: Nonce, length: nat) returns (stream: seq<Byte>)
    requires BlockCount(length) <= COUNTER_LIMIT
    ensures stream == Stream(p, key, nonce, length)
  {
    var out: seq<Byte> := [];
    var counter := 0;
    while |out| < length
      invariant out == Blocks(p, key, nonce, counter) && counter <= BlockCount(length)
      decreases length - |out|
    {
      out := out + Block(p, key, nonce, counter);
      counter := counter + 1;
    }
    return out[..length];
  }

  lemma {:induction false} MoreBlocksExtend(p: Primitives, key: seq<Byte>, nonce: Nonce, m: nat, n: nat)
    requires m <= n
    ensures Blocks(p, key, nonce, m) <= Blocks(p, key, nonce, n)
    decreases n
  {
    if m < n {
      MoreBlocksExtend(p, key, nonce, m, n - 1);
    }
  }

  /** A shorter keystream is a prefix of a longer one under the same key and nonce. */
  lemma ShorterStreamIsPrefix(p: Primitives, key: seq<Byte>, nonce: Nonce, short: nat, long: nat)
    requires short <= long
    ensures Stream(p, key, nonce, short) <= Stream(p, key, nonce, long)
  {
    assert BlockCount(short) <= BlockCount(long);
    MoreBlocksExtend(p, key, nonce, BlockCount(short), BlockCount(long));
  }

  // -- exclusive or -----------------------------------------------------------------------------

  /** Bitwise exclusive or of the low `width` bits. */
  function XorBits(a: nat, b: nat, width: nat): nat {
    if width == 0 then 0 else (a + b) % 2 + 2 * XorBits(a / 2, b / 2, width - 1)
  }

  function Pow2(n: nat): nat { if n == 0 then 1 else 2 * Pow2(n - 1) }

  lemma {:induction false} XorBitsBounded(a: nat, b: nat, width: nat)
    ensures XorBits(a, b, width) < Pow2(width)
  {
    if width > 0 {
      XorBitsBounded(a / 2, b / 2, width - 1);
    }
  }

  lemma OneBit(a: nat, b: nat, rest: nat)
    ensures var x := (a + b) % 2 + 2 * rest; x / 2 == rest && (x + b) % 2 == a % 2
  {
    var x := (a + b) % 2 + 2 * rest;
    assert x / 2 == rest;
    assert a == 2 * (a / 2) + a % 2 && b == 2 * (b / 2) + b % 2;
    assert (a + b) % 2 == (a % 2 + b % 2) % 2;
    assert (x + b) % 2 == ((a + b) % 2 + b % 2) % 2;
  }

  lemma {:induction false} XorBitsUndo(a: nat, b: nat, width: nat)
    requires a < Pow2(width)
    ensures XorBits(XorBits(a, b, width), b, width) == a
  {
    if width > 0 {
      XorBitsUndo(a / 2, b / 2, width - 1);
      OneBit(a, b, XorBits(a / 2, b / 2, width - 1));
    }
  }

  function XorByte(a: Byte, b: Byte): Byte {
    XorBitsBounded(a, b, 8);
    assert Pow2(8) == 256;
    XorBits(a, b, 8)
  }

  /** `zip(data, stream, strict=True)` requires equal lengths. */
  function Xor(data: seq<Byte>, stream: seq<Byte>): (r: seq<Byte>)
    requires |data| == |stream|
    ensures |r| == |data|
  {
    seq(|data|, i requires 0 <= i < |data| => XorByte(data[i], stream[i]))
  }

  lemma XorUndoesItself(data: seq<Byte>, stream: seq<Byte>)
    requires |data| == |stream|
    ensures Xor(Xor(data, stream), stream) == data
  {
    forall i | 0 <= i < |data| ensures Xor(Xor(data, stream), stream)[i] == data[i] {
      assert Pow2(8) == 256;
      XorBitsUndo(data[i], stream[i], 8);
    }
  }

  // -- the envelope -----------------------------------------------------------------------------

  function Tag(p: Primitives, key: seq<Byte>, nonce: Nonce, ciphertext: seq<Byte>): Digest {
    p.hmac(key, p.utf8(VERSION) + nonce + ciphertext)
  }

  function EncryptSpec(p: Primitives, key: seq<Byte>, nonce: Nonce, plaintext: string): string {
    var data := p.utf8(plaintext);
    var ciphertext := Xor(data, Stream(p, key, nonce, |data|));
    VERSION + "$" + Encode(Standard, nonce + Tag(p, key, nonce, ciphertext) + ciphertext)
  }

  method Encrypt(p: Primitives, key: seq<Byte>, nonce: Nonce, plaintext: string) returns (token: string)
    requires BlockCount(|p.utf8(plaintext)|) <= COUNTER_LIMIT
    ensures token == EncryptSpec(p, key, nonce, plaintext)
  {
    var data := p.utf8(plaintext);
    var stream := Keystream(p, key, nonce, |data|);
    var ciphertext := Xor(data, stream);
    return VERSION + "$" + Encode(Standard, nonce + Tag(p, key, nonce, ciphertext) + ciphertext);
  }

  datatype DecryptionError = Empty | FernetUnavailable | UnsupportedVersion | MalformedText | Truncated
    | Unauthentic | NotText

  /** Everything before and after the first '$'; None when there is none. */
  function Partition(s: string): Option<(string, string)> {
    if s == "" then None
    else if s[0] == '$' then Some(("", s[1..]))
    else
      match Partition(s[1..])
      case None => None
      case Some(r) => Some(([s[0]] + r.0, r.1))
  }

  predicate StartsWith(s: string, prefix: string) { |prefix| <= |s| && s[..|prefix|] == prefix }

  /** The envelope's three parts, or why it is refused. */
  function OpenEnvelope(token: string): Result<(Nonce, Digest, seq<Byte>), DecryptionError> {
    if token == "" then Err(Empty)
    else if StartsWith(token, FERNET_PREFIX) then Err(FernetUnavailable)
    else
      match Partition(token)
      case None => Err(UnsupportedVersion)
      case Some(r) =>
        if r.0 != VERSION || r.1 == "" then Err(UnsupportedVersion)
        else
          match Base64.Decode(Standard, r.1)
          case None => Err(MalformedText)
          case Some(raw) =>
            if |raw| < NONCE_LEN + TAG_LEN then Err(Truncated)
            else Ok((raw[..NONCE_LEN], raw[NONCE_LEN..NONCE_LEN + TAG_LEN], raw[NONCE_LEN + TAG_LEN..]))
  }

  function DecryptSpec(p: Primitives, key: seq<Byte>, token: string): Result<string, DecryptionError> {
    match OpenEnvelope(token)
    case Err(e) => Err(e)
    case Ok((nonce, tag, ciphertext)) =>
      if Tag(p, key, nonce, ciphertext) != tag then Err(Unauthentic)
      else
        match p.fromUtf8(Xor(ciphertext, Stream(p, key, nonce, |ciphertext|)))
        case None => Err(NotText)
        case Some(text) => Ok(text)
  }

  method Decrypt(p: Primitives, key: seq<Byte>, token: string) returns (r: Result<string, DecryptionError>)
    requires BlockCount(|token|) <= COUNTER_LIMIT
    ensures r == DecryptSpec(p, key, token)
  {
    var envelope := OpenEnvelope(token);
    if envelope.Err? {
      return Err(envelope.error);
    }
    var (nonce, tag, ciphertext) := envelope.value;
    if Tag(p, key, nonce, ciphertext) != tag {
      return Err(Unauthentic);
    }
    CiphertextIsShorter(token);
    var stream := Keystream(p, key, nonce, |ciphertext|);
    var text := p.fromUtf8(Xor(ciphertext, stream));
    return if text.None? then Err(NotText) else Ok(text.value);
  }

  lemma {:induction false} DecodedIsShorter(a: Alphabet, s: Base64.State, text: string)
    requires Sane(s)
    ensures DecodeFrom(a, s, text).Some? ==> |DecodeFrom(a, s, text).value| <= |text|
    decreases |text|
  {
    if text != "" {
      if text[0] == '=' {
        DecodedIsShorter(a, if s.pos >= 2 then s.(pads := s.pads + 1) else s, text[1..]);
      } else if ValueOf(a, text[0]).None? {
        DecodedIsShorter(a, s, text[1..]);
      } else {
        DecodedIsShorter(a, Feed(s, ValueOf(a, text[0]).value).1, text[1..]);
      }
    }
  }

  lemma {:induction false} PartitionIsShorter(s: string)
    ensures Partition(s).Some? ==> |Partition(s).value.1| <= |s|
  {
    if s != "" {
      PartitionIsShorter(s[1..]);
    }
  }

  lemma CiphertextIsShorter(token: string)
    requires OpenEnvelope(token).Ok?
    ensures |OpenEnvelope(token).value.2| <= |token|
  {
    PartitionIsShorter(token);
    DecodedIsShorter(Standard, BEGIN, Partition(token).value.1);
  }

  // -- round trip -------------------------------------------------------------------------------

  lemma EnvelopeOpens(nonce: Nonce, tag: Digest, ciphertext: seq<Byte>)
    ensures OpenEnvelope(VERSION + "$" + Encode(Standard, nonce + tag + ciphertext)) == Ok((nonce, tag, ciphertext))
  {
    var raw := nonce + tag + ciphertext;
    var b64 := Encode(Standard, raw);
    var token := VERSION + "$" + b64;
    DecodeEncode(Standard, raw);
    assert token[0] == 'v' && token[1] == '1' && token[2] == '$' && token[3..] == b64;
    assert Partition(token[2..]) == Some(("", b64));
    assert token[1..][1..] == token[2..] && token[2..][1..] == b64;
    assert ['1'] + "" == "1" && ['v'] + "1" == "v1";
    assert Partition(token[1..]) == Some(("1", b64));
    assert Partition(token) == Some(("v1", b64));
    assert Base64.Decode(Standard, "") == Some([]);
    assert b64 != "";
    assert raw[..NONCE_LEN] == nonce && raw[NONCE_LEN..NONCE_LEN + TAG_LEN] == tag
      && raw[NONCE_LEN + TAG_LEN..] == ciphertext;
  }

  /** For every key, nonce and text: decrypting what was encrypted gives the text back. */
  lemma VaultRoundTrip(p: Primitives, key: seq<Byte>, nonce: Nonce, plaintext: string)
    requires Lawful(p)
    ensures DecryptSpec(p, key, EncryptSpec(p, key, nonce, plaintext)) == Ok(plaintext)
  {
    var data := p.utf8(plaintext);
    var stream := Stream(p, key, nonce, |data|);
    var ciphertext := Xor(data, stream);
    EnvelopeOpens(nonce, Tag(p, key, nonce, ciphertext), ciphertext);
    XorUndoesItself(data, stream);
    assert p.fromUtf8(p.utf8(plaintext)) == Some(plaintext);
  }

  /** Whatever decrypts carried this key's tag over its nonce and ciphertext, and says what the keystream uncovers. */
  lemma AcceptedTextIsAuthentic(p: Primitives, key: seq<Byte>, token: string)
    requires DecryptSpec(p, key, token).Ok?
    ensures exists nonce: Nonce, ciphertext: seq<Byte> ::
      && OpenEnvelope(token) == Ok((nonce, p.hmac(key, p.utf8("v1") + nonce + ciphertext), ciphertext))
      && p.fromUtf8(Xor(ciphertext, Stream(p, key, nonce, |ciphertext|))) == Some(DecryptSpec(p, key, token).value)
  {
    var (nonce, tag, ciphertext) := OpenEnvelope(token).value;
    assert OpenEnvelope(token) == Ok((nonce, p.hmac(key, p.utf8("v1") + nonce + ciphertext), ciphertext));
  }

  // -- what the keystream is made of ------------------------------------------------------------

  lemma {:induction false} BlocksAt(p: Primitives, key: seq<Byte>, nonce: Nonce, n: nat, i: nat)
    requires i < BLOCK_LEN * n
    ensures Blocks(p, key, nonce, n)[i] == p.sha256(key + nonce + BigEndian(i / BLOCK_LEN, 8))[i % BLOCK_LEN]
  {
    if i < BLOCK_LEN * (n - 1) {
      BlocksAt(p, key, nonce, n - 1, i);
    } else {
      assert i / BLOCK_LEN == n - 1 && i % BLOCK_LEN == i - BLOCK_LEN * (n - 1);
    }
  }

  /** Every byte of the keystream comes from the hash of the key, the nonce and the number of its block. */
  lemma KeystreamBytes(p: Primitives, key: seq<Byte>, nonce: Nonce, length: nat, i: nat)
    requires i < length
    ensures Stream(p, key, nonce, length)[i] == p.sha256(key + nonce + BigEndian(i / 32, 8))[i % 32]
  {
    BlocksAt(p, key, nonce, BlockCount(length), i);
  }

  lemma {:induction false} BigEndianTellsApart(a: nat, b: nat, width: nat)
    requires a < Pow2(8 * width) && b < Pow2(8 * width) && BigEndian(a, width) == BigEndian(b, width)
    ensures a == b
  {
    if width > 0 {
      var x, y := BigEndian(a, width), BigEndian(b, width);
      assert x[width - 1] == a % 256 && y[width - 1] == b % 256;
      assert x[..width - 1] == BigEndian(a / 256, width - 1) && y[..width - 1] == BigEndian(b / 256, width - 1);
      ByteSmaller(a, width);
      ByteSmaller(b, width);
      BigEndianTellsApart(a / 256, b / 256, width - 1);
    }
  }

  lemma ByteSmaller(a: nat, width: nat)
    requires width > 0 && a < Pow2(8 * width)
    ensures a / 256 < Pow2(8 * (width - 1))
  {
    EightDoublings(8 * (width - 1));
    assert 8 * width == 8 * (width - 1) + 8;
  }

  lemma EightDoublings(n: nat)
    ensures Pow2(n + 8) == 256 * Pow2(n)
  {
    assert Pow2(n + 8) == 2 * Pow2(n + 7) == 4 * Pow2(n + 6) == 8 * Pow2(n + 5) == 16 * Pow2(n + 4);
    assert Pow2(n + 4) == 2 * Pow2(n + 3) == 4 * Pow2(n + 2) == 8 * Pow2(n + 1) == 16 * Pow2(n);
  }

  /** No two blocks of one stream, nor blocks under two nonces, hash the same bytes. */
  lemma BlockInputsDiffer(key: seq<Byte>, n1: Nonce, n2: Nonce, a: nat, b: nat)
    requires a < Pow2(64) && b < Pow2(64) && (n1 != n2 || a != b)
    ensures key + n1 + BigEndian(a, 8) != key + n2 + BigEndian(b, 8)
  {
    var x, y := key + n1 + BigEndian(a, 8), key + n2 + BigEndian(b, 8);
    assert x[|key|..|key| + NONCE_LEN] == n1 && y[|key|..|key| + NONCE_LEN] == n2;
    assert x[|key| + NONCE_LEN..] == BigEndian(a, 8) && y[|key| + NONCE_LEN..] == BigEndian(b, 8);
    if a != b && BigEndian(a, 8) == BigEndian(b, 8) {
      BigEndianTellsApart(a, b, 8);
    }
  }
}
