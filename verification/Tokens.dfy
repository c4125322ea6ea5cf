// Signed session tokens in compact form (app/saas/tokens.py; section 7.1 of
// RFC 7515). The hash, JSON and UTF-8 are parameters.
module Tokens {
  import opened Prelude
  import opened Text
  import opened Base64

  /** Numbers are integers or decimals, `digits / 10 ^ places`. */
  datatype Json = JNull | JBool(b: bool) | JInt(n: int) | JDecimal(digits: int, places: nat) | JStr(s: string)
    | JList(items: seq<Json>) | JObj(fields: map<string, Json>)

  /** The primitives tokens are built from. `loads` is None on malformed JSON. */
  datatype Primitives = Primitives(
    dumps: map<string, Json> -> seq<Byte>,
    loads: seq<Byte> -> Option<Json>,
    hmac: (string, string) -> seq<Byte>)

  /** Serialization can be read back. */
  ghost predicate Lawful(p: Primitives) {
    forall fields :: p.loads(p.dumps(fields)) == Some(JObj(fields))
  }

  datatype TokenError = MissingSecret | Malformed | BadSignature | NotJson | WrongAlgorithm | Expired

  const HEADER := map["alg" := JStr("HS256"), "typ" := JStr("JWT")]

  /** Python's `int`: towards zero. */
  function Trunc(t: real): int { if t >= 0.0 then t.Floor else -(-t).Floor }

  function Sign(p: Primitives, input: string, secret: string): string { UrlEncode(p.hmac(secret, input)) }

  function Payload(claims: map<string, Json>, ttl: int, now: real): map<string, Json> {
    claims["iat" := JInt(Trunc(now))]["exp" := JInt(Trunc(now) + ttl)]
  }

  function Encode(
      p: Primitives, claims: map<string, Json>, secret: string, ttl: int, now: real): Result<string, TokenError> {
    if secret == "" then Err(MissingSecret)
    else
      var input := UrlEncode(p.dumps(HEADER)) + "." + UrlEncode(p.dumps(Payload(claims, ttl, now)));
      Ok(input + "." + Sign(p, input, secret))
  }

  function Scaled(x: real, places: nat): real { if places == 0 then x else Scaled(x, places - 1) / 10.0 }

  /** Numbers compare with the clock; a boolean is a number to Python, anything else is not. */
  function ExpiryOf(payload: map<string, Json>): Option<real> {
    if "exp" !in payload then None
    else
      match payload["exp"]
      case JInt(n) => Some(n as real)
      case JDecimal(digits, places) => Some(Scaled(digits as real, places))
      case JBool(b) => Some(if b then 1.0 else 0.0)
      case _ => None
  }

  function Parse(p: Primitives, segment: string): Option<Json> {
    match UrlDecode(segment)
    case None => None
    case Some(bytes) => p.loads(bytes)
  }

  /** JSON that is not an object is refused like bad JSON. */
  function Decode(p: Primitives, token: string, secret: string, now: real): Result<map<string, Json>, TokenError> {
    if token == "" || secret == "" then Err(MissingSecret)
    else
      var parts := SplitOn(token, '.');
      if |parts| != 3 then Err(Malformed)
      else if Sign(p, parts[0] + "." + parts[1], secret) != parts[2] then Err(BadSignature)
      else
        var header, payload := Parse(p, parts[0]), Parse(p, parts[1]);
        if header.None? || payload.None? || !header.value.JObj? || !payload.value.JObj? then Err(NotJson)
        else if "alg" !in header.value.fields || header.value.fields["alg"] != JStr("HS256") then Err(WrongAlgorithm)
        else
          var exp := ExpiryOf(payload.value.fields);
          if exp.None? || now >= exp.value then Err(Expired) else Ok(payload.value.fields)
  }

  // -- the compact form ---------------------------------------------------------------------------

  /** Three dot-free segments joined by dots come apart as themselves. */
  lemma CompactFormIsUnambiguous(a: string, b: string, c: string)
    requires '.' !in a && '.' !in b && '.' !in c
    ensures SplitOn(a + "." + b + "." + c, '.') == [a, b, c]
  {
    assert a + "." + b + "." + c == a + ("." + (b + ("." + c)));
    SplitAtFirst(a, b + ("." + c), '.');
    SplitAtFirst(b, c, '.');
    SplitWhole(c, '.');
  }

  /**
   * The round trip, whatever the claims: a token decodes under its own secret to
   * its claims with `iat` and `exp` set, before its expiry and not from then on.
   */
  lemma TokenRoundTrip(p: Primitives, claims: map<string, Json>, secret: string, ttl: int, issued: real, now: real)
    requires Lawful(p) && secret != ""
    ensures Encode(p, claims, secret, ttl, issued).Ok?
    ensures
      var expiry := Trunc(issued) + ttl;
      Decode(p, Encode(p, claims, secret, ttl, issued).value, secret, now) ==
        if now < expiry as real then Ok(claims["iat" := JInt(Trunc(issued))]["exp" := JInt(expiry)]) else Err(Expired)
  {
    var payload := Payload(claims, ttl, issued);
    var h, b := UrlEncode(p.dumps(HEADER)), UrlEncode(p.dumps(payload));
    var token := h + "." + b + "." + Sign(p, h + "." + b, secret);
    assert Encode(p, claims, secret, ttl, issued) == Ok(token);
    SegmentReads(p, HEADER);
    SegmentReads(p, payload);
    TokenSplits(p, h, b, secret);
    ReadSegments(p, token, secret, now, payload);
    PayloadExpiry(claims, ttl, issued);
  }

  lemma PayloadExpiry(claims: map<string, Json>, ttl: int, issued: real)
    ensures ExpiryOf(Payload(claims, ttl, issued)) == Some((Trunc(issued) + ttl) as real)
  {
  }

  /** A well-signed token with the right header is judged by the expiry of its payload. */
  lemma ReadSegments(p: Primitives, token: string, secret: string, now: real, payload: map<string, Json>)
    requires token != "" && secret != "" && |SplitOn(token, '.')| == 3
    requires var parts := SplitOn(token, '.');
      && parts[2] == Sign(p, parts[0] + "." + parts[1], secret)
      && Parse(p, parts[0]) == Some(JObj(HEADER)) && Parse(p, parts[1]) == Some(JObj(payload))
    ensures Decode(p, token, secret, now) ==
      var exp := ExpiryOf(payload); if exp.None? || now >= exp.value then Err(Expired) else Ok(payload)
  {
  }

  /** A segment reads back as the object it was made from, and holds no dot. */
  lemma SegmentReads(p: Primitives, fields: map<string, Json>)
    requires Lawful(p)
    ensures Parse(p, UrlEncode(p.dumps(fields))) == Some(JObj(fields)) && '.' !in UrlEncode(p.dumps(fields))
  {
    UrlRoundTrip(p.dumps(fields));
  }

  lemma TokenSplits(p: Primitives, h: string, b: string, secret: string)
    requires '.' !in h && '.' !in b
    ensures SplitOn(h + "." + b + "." + Sign(p, h + "." + b, secret), '.') == [h, b, Sign(p, h + "." + b, secret)]
  {
    UrlRoundTrip(p.hmac(secret, h + "." + b));
    CompactFormIsUnambiguous(h, b, Sign(p, h + "." + b, secret));
  }

  lemma {:induction false} JoinSplit(s: string)
    ensures |SplitOn(s, '.')| == 3 ==> s == SplitOn(s, '.')[0] + "." + SplitOn(s, '.')[1] + "." + SplitOn(s, '.')[2]
    ensures |SplitOn(s, '.')| == 2 ==> s == SplitOn(s, '.')[0] + "." + SplitOn(s, '.')[1]
    ensures |SplitOn(s, '.')| == 1 ==> s == SplitOn(s, '.')[0]
  {
    if s != "" {
      JoinSplit(s[1..]);
      assert s == [s[0]] + s[1..];
    }
  }

  /** An accepted token is exactly a signed pair of segments, signed under this secret, and unexpired. */
  lemma AcceptedTokenIsSigned(p: Primitives, token: string, secret: string, now: real)
    requires Decode(p, token, secret, now).Ok?
    ensures exists h, b ::
      && token == h + "." + b + "." + Sign(p, h + "." + b, secret)
      && Parse(p, b) == Some(JObj(Decode(p, token, secret, now).value))
      && ExpiryOf(Decode(p, token, secret, now).value).Some?
        && now < ExpiryOf(Decode(p, token, secret, now).value).value
  {
    var parts := SplitOn(token, '.');
    JoinSplit(token);
    assert token == parts[0] + "." + parts[1] + "." + Sign(p, parts[0] + "." + parts[1], secret);
    assert Parse(p, parts[1]) == Some(JObj(Decode(p, token, secret, now).value));
  }
}
