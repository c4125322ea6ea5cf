// The fixed-window rate limiter (app/core/security.py): a table with one window
// and one count per key, against the whole history of calls.
module RateLimiter {
  import opened Prelude
  import opened Text

  datatype Call = Call(key: string, at: real, limit: int)

  type Table = map<string, (int, nat)>

  /** Index of the window an instant falls in. */
  function Window(at: real, seconds: int): int
    requires seconds > 0
  {
    (at / seconds as real).Floor
  }

  /** One call: the table afterwards and the answer. A non-positive limit counts nothing. */
  function Step(hits: Table, seconds: int, c: Call): (Table, bool)
    requires seconds > 0
  {
    if c.limit <= 0 then (hits, true)
    else
      var window := Window(c.at, seconds);
      var count := if c.key in hits && hits[c.key].0 == window then hits[c.key].1 + 1 else 1;
      (hits[c.key := (window, count)], count <= c.limit)
  }

  class FixedWindowRateLimiter {
    const windowSeconds: int
    var hits: Table

    constructor (windowSeconds: int)
      ensures this.windowSeconds == (if windowSeconds < 1 then 1 else windowSeconds) && hits == map[]
    {
      this.windowSeconds := if windowSeconds < 1 then 1 else windowSeconds;
      hits := map[];
    }

    method Allow(key: string, limit: int, now: real) returns (ok: bool)
      requires windowSeconds > 0
      modifies this`hits
      ensures (hits, ok) == Step(old(hits), windowSeconds, Call(key, now, limit))
    {
      if limit <= 0 {
        return true;
      }
      var window := Window(now, windowSeconds);
      var start, count := window, 0;
      if key in hits {
        start, count := hits[key].0, hits[key].1;
      }
      if start != window {
        start, count := window, 0;
      }
      count := count + 1;
      hits := hits[key := (start, count)];
      return count <= limit;
    }

    method Reset()
      modifies this`hits
      ensures hits == map[]
    {
      hits := map[];
    }
  }

  function IpKey(ip: string): string { "login:ip:" + ip }

  function EmailKey(email: string): string { "login:email:" + Lower(Strip(email)) }

  /** Both counters are consumed, whatever the first one says. */
  method LoginAttemptAllowed(
      limiter: FixedWindowRateLimiter, ip: string, email: string, limit: int, now: real) returns (ok: bool)
    requires limiter.windowSeconds > 0
    modifies limiter`hits
    ensures limit <= 0 ==> ok && limiter.hits == old(limiter.hits)
    ensures limit > 0 ==>
      var (mid, ipOk) := Step(old(limiter.hits), limiter.windowSeconds, Call(IpKey(ip), now, limit));
      var (end, emailOk) := Step(mid, limiter.windowSeconds, Call(EmailKey(email), now, limit));
      limiter.hits == end && ok == (ipOk && emailOk)
  {
    if limit <= 0 {
      return true;
    }
    var ipOk := limiter.Allow(IpKey(ip), limit, now);
    var emailOk := limiter.Allow(EmailKey(email), limit, now);
    return ipOk && emailOk;
  }

  // -- whole histories --------------------------------------------------------------------------

  function TableAfter(calls: seq<Call>, seconds: int): Table
    requires seconds > 0
  {
    if calls == [] then map[] else Step(TableAfter(calls[..|calls| - 1], seconds), seconds, calls[|calls| - 1]).0
  }

  /** The answer to the i-th call of a history. */
  predicate Allowed(calls: seq<Call>, i: nat, seconds: int)
    requires seconds > 0 && i < |calls|
  {
    Step(TableAfter(calls[..i], seconds), seconds, calls[i]).1
  }

  /** How many counted calls of this key fell in this window. */
  function CallsIn(calls: seq<Call>, key: string, window: int, seconds: int): nat
    requires seconds > 0
  {
    if calls == [] then 0
    else
      var c := calls[|calls| - 1];
      CallsIn(calls[..|calls| - 1], key, window, seconds)
      + if c.limit > 0 && c.key == key && Window(c.at, seconds) == window then 1 else 0
  }

  predicate ClockRuns(calls: seq<Call>) {
    forall i, j :: 0 <= i < j < |calls| ==> calls[i].at <= calls[j].at
  }

  lemma DivisionGrows(a: real, b: real, w: real)
    requires w > 0.0 && a <= b
    ensures a / w <= b / w
  {
    assert (b - a) / w >= 0.0;
    assert (b - a) / w == b / w - a / w;
  }

  lemma WindowsGrow(a: real, b: real, seconds: int)
    requires seconds > 0 && a <= b
    ensures Window(a, seconds) <= Window(b, seconds)
    ensures b < a + seconds as real ==> Window(b, seconds) <= Window(a, seconds) + 1
  {
    var w := seconds as real;
    DivisionGrows(a, b, w);
    if b < a + w {
      DivisionGrows(b, a + w, w);
      assert w / w == 1.0;
      assert (a + w) / w == a / w + w / w;
    }
  }

  /** No later window has been called in yet, and the table holds the current window's count. */
  lemma {:induction false} TableHoldsCounts(calls: seq<Call>, key: string, seconds: int)
    requires seconds > 0 && ClockRuns(calls)
    ensures
      var hits := TableAfter(calls, seconds);
      if key in hits then
        && hits[key].1 == CallsIn(calls, key, hits[key].0, seconds)
        && (forall v :: v > hits[key].0 ==> CallsIn(calls, key, v, seconds) == 0)
        && (calls != [] ==> hits[key].0 <= Window(calls[|calls| - 1].at, seconds))
      else forall v :: CallsIn(calls, key, v, seconds) == 0
  {
    if calls != [] {
      var n := |calls| - 1;
      TableHoldsCounts(calls[..n], key, seconds);
      if n > 0 {
        WindowsGrow(calls[n - 1].at, calls[n].at, seconds);
      }
    }
  }

  /**
   * The table refines the call history: with a clock that never runs backwards,
   * a call is allowed exactly when its limit is off or fewer than its limit of
   * earlier calls of the same key fell in the same window.
   */
  lemma AllowedIffUnderLimit(calls: seq<Call>, i: nat, seconds: int)
    requires seconds > 0 && ClockRuns(calls) && i < |calls|
    ensures Allowed(calls, i, seconds) <==>
      calls[i].limit <= 0 || CallsIn(calls[..i], calls[i].key, Window(calls[i].at, seconds), seconds) < calls[i].limit
  {
    TableHoldsCounts(calls[..i], calls[i].key, seconds);
    if i > 0 {
      WindowsGrow(calls[i - 1].at, calls[i].at, seconds);
    }
  }

  // -- how much gets through ----------------------------------------------------------------------

  function AllowedIn(calls: seq<Call>, key: string, window: int, seconds: int): nat
    requires seconds > 0
  {
    if calls == [] then 0
    else
      var n := |calls| - 1;
      AllowedIn(calls[..n], key, window, seconds)
      + if calls[n].key == key && Window(calls[n].at, seconds) == window && Allowed(calls, n, seconds) then 1 else 0
  }

  /** Allowed calls of a key in the half-open span [from, from + seconds). */
  function AllowedInSpan(calls: seq<Call>, key: string, from: real, seconds: int): nat
    requires seconds > 0
  {
    if calls == [] then 0
    else
      var n := |calls| - 1;
      AllowedInSpan(calls[..n], key, from, seconds)
      + if calls[n].key == key && from <= calls[n].at < from + seconds as real && Allowed(calls, n, seconds)
        then 1 else 0
  }

  /** A window lets through all calls up to the limit and none after. */
  lemma {:induction false} WindowAllowsLimit(calls: seq<Call>, key: string, window: int, limit: int, seconds: int)
    requires seconds > 0 && limit > 0 && ClockRuns(calls) && forall c :: c in calls ==> c.limit == limit
    ensures AllowedIn(calls, key, window, seconds) == Min(limit, CallsIn(calls, key, window, seconds))
  {
    if calls != [] {
      var n := |calls| - 1;
      WindowAllowsLimit(calls[..n], key, window, limit, seconds);
      assert calls[n] in calls;
      AllowedIffUnderLimit(calls, n, seconds);
    }
  }

  lemma {:induction false} SpanIsTwoWindows(calls: seq<Call>, key: string, from: real, seconds: int)
    requires seconds > 0
    ensures AllowedInSpan(calls, key, from, seconds) <=
      AllowedIn(calls, key, Window(from, seconds), seconds) + AllowedIn(calls, key, Window(from, seconds) + 1, seconds)
  {
    if calls != [] {
      var n := |calls| - 1;
      SpanIsTwoWindows(calls[..n], key, from, seconds);
      if from <= calls[n].at < from + seconds as real {
        WindowsGrow(from, calls[n].at, seconds);
      }
    }
  }

  /** Any span no longer than one window lets through at most twice the limit. */
  lemma SpanAllowsTwiceLimit(calls: seq<Call>, key: string, from: real, limit: int, seconds: int)
    requires seconds > 0 && limit > 0 && ClockRuns(calls) && forall c :: c in calls ==> c.limit == limit
    ensures AllowedInSpan(calls, key, from, seconds) <= 2 * limit
  {
    SpanIsTwoWindows(calls, key, from, seconds);
    WindowAllowsLimit(calls, key, Window(from, seconds), limit, seconds);
    WindowAllowsLimit(calls, key, Window(from, seconds) + 1, limit, seconds);
  }

  // -- keys do not interfere ------------------------------------------------------------------------

  function Only(calls: seq<Call>, key: string): seq<Call> {
    if calls == [] then []
    else Only(calls[..|calls| - 1], key) + if calls[|calls| - 1].key == key then [calls[|calls| - 1]] else []
  }

  function EntryFor(hits: Table, key: string): Option<(int, nat)> {
    if key in hits then Some(hits[key]) else None
  }

  lemma {:induction false} EntryDependsOnOwnCalls(calls: seq<Call>, key: string, seconds: int)
    requires seconds > 0
    ensures EntryFor(TableAfter(calls, seconds), key) == EntryFor(TableAfter(Only(calls, key), seconds), key)
  {
    if calls != [] {
      var n := |calls| - 1;
      EntryDependsOnOwnCalls(calls[..n], key, seconds);
      if calls[n].key == key {
        assert Only(calls, key)[..|Only(calls[..n], key)|] == Only(calls[..n], key);
      } else {
        assert Only(calls, key) == Only(calls[..n], key);
      }
    }
  }

  /** The answer to a call is the one it would get if no other key had ever been used. */
  lemma OtherKeysDoNotMatter(calls: seq<Call>, c: Call, seconds: int)
    requires seconds > 0
    ensures Step(TableAfter(calls, seconds), seconds, c).1 ==
      Step(TableAfter(Only(calls, c.key), seconds), seconds, c).1
  {
    EntryDependsOnOwnCalls(calls, c.key, seconds);
  }

  // -- logins ------------------------------------------------------------------------------------

  /**
   * The two counters of a login are never the same one, and each is shared exactly by
   * the logins it should be: one address, or one mailbox in any letter case.
   */
  lemma LoginCountersAreSeparate(ip: string, ip2: string, email: string, email2: string)
    ensures IpKey(ip) != EmailKey(email)
    ensures IpKey(ip) == IpKey(ip2) <==> ip == ip2
    ensures EmailKey(email) == EmailKey(email2) <==> Lower(Strip(email)) == Lower(Strip(email2))
  {
    assert IpKey(ip)[6] == 'i' && EmailKey(email)[6] == 'e';
    assert IpKey(ip)[9..] == ip && IpKey(ip2)[9..] == ip2;
    assert EmailKey(email)[12..] == Lower(Strip(email)) && EmailKey(email2)[12..] == Lower(Strip(email2));
  }
}
