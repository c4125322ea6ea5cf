// The background worker (app/saas/sync_worker.py): which mailboxes a pass
// attempts, how failures back off, and what holds over whole runs of passes.
module Worker {
  import opened Prelude

  /** A row of the mailbox table; `connected` is false once it needs a human. */
  datatype Mailbox = Mailbox(id: string, lastSynced: Option<real>, connected: bool, sandbox: bool)

  /** How one attempted sync ends. A sync stamps the mailbox as its last act but one. */
  datatype Outcome =
    | Synced(stamp: real, messages: nat, proposed: nat)
    | Broken
    | Refused
    | Crashed(stamped: Option<real>)

  datatype Summary = Summary(
    checked: nat, synced: nat, messages: nat, proposed: nat, errors: nat,
    retried: nat, recovered: nat, crashed: bool)

  type Entry = (real, Summary)

  datatype Cadence = Cadence(interval: real, jitterFraction: real, crc: string -> nat)

  /** Seconds are not negative, nor is the jitter. */
  predicate Sensible(c: Cadence) { c.interval >= 0.0 && c.jitterFraction >= 0.0 }

  const RECENT_LIMIT := 10

  // -- due-ness ---------------------------------------------------------------------------------

  function Jitter(c: Cadence, id: string): real {
    (c.crc(id) % 1000) as real / 1000.0 * c.jitterFraction
  }

  predicate IsDue(c: Cadence, retryAfter: map<string, real>, m: Mailbox, now: real) {
    if m.id in retryAfter && now < retryAfter[m.id] then false
    else m.lastSynced.None? || now - m.lastSynced.value >= c.interval * (1.0 + Jitter(c, m.id))
  }

  predicate Listed(m: Mailbox) { m.connected && !m.sandbox }

  // -- one pass ---------------------------------------------------------------------------------

  /** What the outcome of an attempt does to the mailbox row. */
  function Marked(m: Mailbox, o: Outcome): Mailbox {
    match o
    case Synced(stamp, _, _) => m.(lastSynced := Some(stamp))
    case Broken => m.(connected := false)
    case Refused => m
    case Crashed(stamped) => if stamped.Some? then m.(lastSynced := stamped) else m
  }

  function BackOff(retryAfter: map<string, real>, id: string, o: Outcome, until: real): map<string, real> {
    match o
    case Synced(_, _, _) => retryAfter - {id}
    case Broken => retryAfter
    case Refused | Crashed(_) => retryAfter[id := until]
  }

  function Counted(s: Summary, o: Outcome): Summary {
    match o
    case Synced(_, messages, proposed) =>
      s.(synced := s.synced + 1, messages := s.messages + messages, proposed := s.proposed + proposed)
    case _ => s.(errors := s.errors + 1)
  }

  const ZERO := Summary(0, 0, 0, 0, 0, 0, 0, false)

  datatype Sweep = Sweep(retryAfter: map<string, real>, table: seq<Mailbox>, summary: Summary, attempted: seq<string>)

  /** The sweep after the first `n` mailboxes, as they were listed when it began. */
  function SweepTo(
      c: Cadence, retryAfter: map<string, real>, listed: seq<Mailbox>, now: real, outcomes: string -> Outcome,
      n: nat): Sweep
    requires n <= |listed|
  {
    if n == 0 then Sweep(retryAfter, listed, ZERO, [])
    else
      var s := SweepTo(c, retryAfter, listed, now, outcomes, n - 1);
      SweepOne(s, c, listed[n - 1], now, outcomes, n - 1)
  }

  function SweepOne(s: Sweep, c: Cadence, m: Mailbox, now: real, outcomes: string -> Outcome, i: nat): Sweep {
    if !Listed(m) then s
    else
      var checked := s.summary.(checked := s.summary.checked + 1);
      if !IsDue(c, s.retryAfter, m, now) then s.(summary := checked)
      else
        var o := outcomes(m.id);
        Sweep(BackOff(s.retryAfter, m.id, o, now + c.interval),
              if i < |s.table| then s.table[i := Marked(m, o)] else s.table,
              Counted(checked, o), s.attempted + [m.id])
  }

  lemma SweepStep(
      c: Cadence, retryAfter: map<string, real>, listed: seq<Mailbox>, now: real, outcomes: string -> Outcome, n: nat)
    requires n < |listed|
    ensures SweepTo(c, retryAfter, listed, now, outcomes, n + 1) ==
      SweepOne(SweepTo(c, retryAfter, listed, now, outcomes, n), c, listed[n], now, outcomes, n)
  {
  }

  function LastTen(entries: seq<Entry>): seq<Entry> {
    if |entries| <= RECENT_LIMIT then entries else entries[|entries| - RECENT_LIMIT..]
  }

  class BackgroundSyncWorker {
    const cadence: Cadence
    var mailboxes: seq<Mailbox>
    var retryAfter: map<string, real>
    var lastPassAt: Option<real>
    var lastPass: Option<Summary>
    var passes: nat
    var recent: seq<Entry>
    ghost var history: seq<Entry>

    /** `recent` is the tail of everything that happened; the counters agree with it. */
    ghost predicate Valid()
      reads this
    {
      && passes == |history| && recent == LastTen(history)
      && (history == [] ==> lastPassAt.None? && lastPass.None?)
      && (history != [] ==>
            lastPassAt == Some(history[|history| - 1].0) && lastPass == Some(history[|history| - 1].1))
    }

    constructor (cadence: Cadence, mailboxes: seq<Mailbox>)
      ensures Valid() && this.cadence == cadence && this.mailboxes == mailboxes && retryAfter == map[] && history == []
    {
      this.cadence, this.mailboxes := cadence, mailboxes;
      retryAfter, lastPassAt, lastPass, passes, recent, history := map[], None, None, 0, [], [];
    }

    method RecordPass(summary: Summary, now: real)
      requires Valid()
      modifies this`passes, this`lastPassAt, this`lastPass, this`recent, this`history
      ensures Valid() && history == old(history) + [(now, summary)]
    {
      passes := passes + 1;
      lastPassAt, lastPass := Some(now), Some(summary);
      recent := recent + [(now, summary)];
      if |recent| > RECENT_LIMIT {
        recent := recent[|recent| - RECENT_LIMIT..];
      }
      history := history + [(now, summary)];
    }

    /** `retries` is what re-sending failed actions reported. */
    method SyncDueConnections(now: real, outcomes: string -> Outcome, retries: (nat, nat)) returns (summary: Summary)
      requires Valid()
      modifies this
      ensures Valid()
      ensures
        var s := SweepTo(cadence, old(retryAfter), old(mailboxes), now, outcomes, |old(mailboxes)|);
        && retryAfter == s.retryAfter && mailboxes == s.table
        && summary == s.summary.(retried := retries.0, recovered := retries.1)
        && history == old(history) + [(now, summary)]
    {
      var listed := mailboxes;
      summary := ZERO;
      ghost var attempted := [];
      for i := 0 to |listed|
        invariant |mailboxes| == |listed|
        invariant Sweep(retryAfter, mailboxes, summary, attempted) ==
          SweepTo(cadence, old(retryAfter), listed, now, outcomes, i)
        invariant Valid() && history == old(history)
      {
        var conn := listed[i];
        SweepStep(cadence, old(retryAfter), listed, now, outcomes, i);
        if !Listed(conn) {
          continue;
        }
        summary := summary.(checked := summary.checked + 1);
        if !IsDue(cadence, retryAfter, conn, now) {
          continue;
        }
        attempted := attempted + [conn.id];
        var o := outcomes(conn.id);
        mailboxes := mailboxes[i := Marked(conn, o)];
        match o {
          case Synced(_, messages, proposed) =>
            summary := summary.(synced := summary.synced + 1, messages := summary.messages + messages,
                                proposed := summary.proposed + proposed);
            retryAfter := retryAfter - {conn.id};
          case Broken =>
            summary := summary.(errors := summary.errors + 1);
          case _ =>
            summary := summary.(errors := summary.errors + 1);
            retryAfter := retryAfter[conn.id := now + cadence.interval];
        }
      }
      summary := summary.(retried := retries.0, recovered := retries.1);
      RecordPass(summary, now);
    }

    /** A pass that threw is still a heartbeat. */
    method RecordCrash(now: real)
      requires Valid()
      modifies this`passes, this`lastPassAt, this`lastPass, this`recent, this`history
      ensures Valid() && history == old(history) + [(now, ZERO.(errors := 1, crashed := true))]
    {
      RecordPass(ZERO.(errors := 1, crashed := true), now);
    }
  }

  // -- isolation --------------------------------------------------------------------------------

  predicate DistinctMailboxes(ms: seq<Mailbox>) {
    forall i, j :: 0 <= i < j < |ms| ==> ms[i].id != ms[j].id
  }

  /** The mailboxes due when the pass begins. */
  function DueIds(c: Cadence, retryAfter: map<string, real>, ms: seq<Mailbox>, now: real): seq<string> {
    if ms == [] then []
    else
      var n := |ms| - 1;
      DueIds(c, retryAfter, ms[..n], now)
      + if Listed(ms[n]) && IsDue(c, retryAfter, ms[n], now) then [ms[n].id] else []
  }

  function BackOffFor(retryAfter: map<string, real>, id: string): Option<real> {
    if id in retryAfter then Some(retryAfter[id]) else None
  }

  /** One mailbox's turn leaves the rows and back-offs of the others. */
  lemma TurnLeavesOthers(s: Sweep, c: Cadence, m: Mailbox, now: real, outcomes: string -> Outcome, i: nat)
    requires i < |s.table|
    ensures var t := SweepOne(s, c, m, now, outcomes, i);
      && |t.table| == |s.table|
      && (forall k :: 0 <= k < |s.table| && k != i ==> t.table[k] == s.table[k])
      && (forall id :: id != m.id ==> BackOffFor(t.retryAfter, id) == BackOffFor(s.retryAfter, id))
      && t.attempted == s.attempted + (if Listed(m) && IsDue(c, s.retryAfter, m, now) then [m.id] else [])
  {
  }

  lemma DueByOwnBackOff(c: Cadence, a: map<string, real>, b: map<string, real>, m: Mailbox, now: real)
    requires BackOffFor(a, m.id) == BackOffFor(b, m.id)
    ensures IsDue(c, a, m, now) == IsDue(c, b, m, now)
  {
  }

  lemma {:induction false} SweepAttemptsDue(
      c: Cadence, retryAfter: map<string, real>, listed: seq<Mailbox>, now: real, outcomes: string -> Outcome, n: nat)
    requires n <= |listed| && DistinctMailboxes(listed)
    ensures var s := SweepTo(c, retryAfter, listed, now, outcomes, n);
      && s.attempted == DueIds(c, retryAfter, listed[..n], now)
      && |s.table| == |listed|
      && (forall k :: n <= k < |listed| ==>
            s.table[k] == listed[k] && BackOffFor(s.retryAfter, listed[k].id) == BackOffFor(retryAfter, listed[k].id))
  {
    if n > 0 {
      SweepAttemptsDue(c, retryAfter, listed, now, outcomes, n - 1);
      assert listed[..n][..n - 1] == listed[..n - 1];
      var before := SweepTo(c, retryAfter, listed, now, outcomes, n - 1);
      DueByOwnBackOff(c, before.retryAfter, retryAfter, listed[n - 1], now);
      TurnLeavesOthers(before, c, listed[n - 1], now, outcomes, n - 1);
      assert DueIds(c, retryAfter, listed[..n], now) == DueIds(c, retryAfter, listed[..n - 1], now)
        + if Listed(listed[n - 1]) && IsDue(c, retryAfter, listed[n - 1], now) then [listed[n - 1].id] else [];
      assert forall k :: n <= k < |listed| ==> listed[k].id != listed[n - 1].id;
    }
  }

  /** Mailboxes do not share fate: what a pass attempts is settled before any of it runs. */
  lemma AttemptsIgnoreOutcomes(
      c: Cadence, retryAfter: map<string, real>, listed: seq<Mailbox>, now: real, o1: string -> Outcome,
      o2: string -> Outcome)
    requires DistinctMailboxes(listed)
    ensures SweepTo(c, retryAfter, listed, now, o1, |listed|).attempted ==
      SweepTo(c, retryAfter, listed, now, o2, |listed|).attempted
    ensures SweepTo(c, retryAfter, listed, now, o1, |listed|).attempted == DueIds(c, retryAfter, listed, now)
  {
    SweepAttemptsDue(c, retryAfter, listed, now, o1, |listed|);
    SweepAttemptsDue(c, retryAfter, listed, now, o2, |listed|);
    assert listed[..|listed|] == listed;
  }

  // -- spacing over whole runs ------------------------------------------------------------------

  /**
   * The worker and the mailbox table over time. `last` remembers when a pass
   * last attempted each mailbox, and forgets it only when a broken mailbox is
   * reconnected or a mailbox is disconnected.
   */
  datatype Fleet = Fleet(retryAfter: map<string, real>, table: seq<Mailbox>, last: map<string, real>)

  datatype Event =
    | Pass(at: real, outcomes: string -> Outcome)
    | ManualSync(at: real, id: string)
    | MarkBroken(at: real, id: string)
    | Reconnect(at: real, id: string)
    | Connect(at: real, id: string)
    | Disconnect(at: real, id: string)

  function LastTo(c: Cadence, f: Fleet, now: real, outcomes: string -> Outcome, n: nat): map<string, real>
    requires n <= |f.table|
  {
    if n == 0 then f.last
    else
      var before := LastTo(c, f, now, outcomes, n - 1);
      var m := f.table[n - 1];
      if Listed(m) && IsDue(c, SweepTo(c, f.retryAfter, f.table, now, outcomes, n - 1).retryAfter, m, now)
      then before[m.id := now] else before
  }

  function WithRow(
      table: seq<Mailbox>, id: string, lastSynced: Option<real>, connected: Option<bool>): (t: seq<Mailbox>)
    ensures |t| == |table|
    ensures forall i :: 0 <= i < |t| ==>
      t[i] == if table[i].id != id then table[i]
              else table[i].(lastSynced := if lastSynced.Some? then lastSynced else table[i].lastSynced,
                             connected := connected.GetOr(table[i].connected))
  {
    seq(|table|, i requires 0 <= i < |table| =>
      if table[i].id != id then table[i]
      else table[i].(lastSynced := if lastSynced.Some? then lastSynced else table[i].lastSynced,
                     connected := connected.GetOr(table[i].connected)))
  }

  function Without(table: seq<Mailbox>, id: string): seq<Mailbox> {
    if table == [] then []
    else Without(table[..|table| - 1], id) + if table[|table| - 1].id == id then [] else [table[|table| - 1]]
  }

  predicate NewId(f: Fleet, id: string) { id !in f.last && forall i :: 0 <= i < |f.table| ==> f.table[i].id != id }

  predicate IsBroken(table: seq<Mailbox>, id: string) {
    exists i :: 0 <= i < |table| && table[i].id == id && !table[i].connected
  }

  /** A person reconnects this mailbox after it broke, or takes it away. */
  predicate Reopens(f: Fleet, e: Event, id: string) {
    match e
    case Reconnect(_, x) => x == id && IsBroken(f.table, id)
    case Disconnect(_, x) => x == id
    case _ => false
  }

  function After(c: Cadence, f: Fleet, e: Event): Fleet {
    match e
    case Pass(now, outcomes) =>
      var s := SweepTo(c, f.retryAfter, f.table, now, outcomes, |f.table|);
      Fleet(s.retryAfter, s.table, LastTo(c, f, now, outcomes, |f.table|))
    case ManualSync(at, id) => f.(table := WithRow(f.table, id, Some(at), None))
    case MarkBroken(_, id) => f.(table := WithRow(f.table, id, None, Some(false)))
    case Reconnect(_, id) =>
      f.(table := WithRow(f.table, id, None, Some(true)),
         last := if IsBroken(f.table, id) then f.last - {id} else f.last)
    case Connect(_, id) => if NewId(f, id) then f.(table := f.table + [Mailbox(id, None, true, false)]) else f
    case Disconnect(_, id) => f.(table := Without(f.table, id), last := f.last - {id})
  }

  /** A sync cannot finish before it starts. */
  ghost predicate Causal(e: Event) {
    e.Pass? ==> forall id :: e.outcomes(id).Synced? ==> e.outcomes(id).stamp >= e.at
  }

  /** A mailbox is off the list, or something on record keeps it from being due too soon after its last attempt. */
  predicate Guarded(c: Cadence, retryAfter: map<string, real>, m: Mailbox, last: map<string, real>) {
    m.id in last && m.connected ==>
      || (m.id in retryAfter && retryAfter[m.id] >= last[m.id] + c.interval)
      || (m.lastSynced.Some? && m.lastSynced.value >= last[m.id])
  }

  predicate AllGuarded(c: Cadence, f: Fleet) {
    DistinctMailboxes(f.table) && forall i :: 0 <= i < |f.table| ==> Guarded(c, f.retryAfter, f.table[i], f.last)
  }

  predicate NoneLaterThan(last: map<string, real>, clock: real) {
    forall id :: id in last ==> last[id] <= clock
  }

  lemma JitterOnlyDelays(c: Cadence, id: string)
    requires Sensible(c)
    ensures c.interval * (1.0 + Jitter(c, id)) >= c.interval
  {
    var j := Jitter(c, id);
    assert j >= 0.0 by {
      assert (c.crc(id) % 1000) as real / 1000.0 >= 0.0;
    }
    assert c.interval * j >= 0.0;
    assert c.interval * (1.0 + j) == c.interval + c.interval * j;
  }

  lemma DueMeansIntervalPassed(
      c: Cadence, retryAfter: map<string, real>, m: Mailbox, last: map<string, real>, now: real)
    requires Sensible(c) && Guarded(c, retryAfter, m, last) && m.id in last && m.connected
      && IsDue(c, retryAfter, m, now)
    ensures now >= last[m.id] + c.interval
  {
    JitterOnlyDelays(c, m.id);
  }

  lemma {:induction false} SweepKeepsGuard(c: Cadence, f: Fleet, now: real, outcomes: string -> Outcome, n: nat)
    requires AllGuarded(c, f) && n <= |f.table| && Causal(Pass(now, outcomes))
    ensures var s, last := SweepTo(c, f.retryAfter, f.table, now, outcomes, n), LastTo(c, f, now, outcomes, n);
      && |s.table| == |f.table|
      && (forall k :: 0 <= k < |f.table| ==>
        s.table[k].id == f.table[k].id && Guarded(c, s.retryAfter, s.table[k], last))
      && (forall k :: n <= k < |f.table| ==> s.table[k] == f.table[k])
  {
    if n > 0 {
      SweepKeepsGuard(c, f, now, outcomes, n - 1);
      var m := f.table[n - 1];
      var before, lastBefore := SweepTo(c, f.retryAfter, f.table, now, outcomes, n - 1),
        LastTo(c, f, now, outcomes, n - 1);
      var s, last := SweepTo(c, f.retryAfter, f.table, now, outcomes, n), LastTo(c, f, now, outcomes, n);
      if Listed(m) && IsDue(c, before.retryAfter, m, now) {
        var o := outcomes(m.id);
        forall k | 0 <= k < |f.table|
          ensures s.table[k].id == f.table[k].id && Guarded(c, s.retryAfter, s.table[k], last)
        {
          assert Guarded(c, before.retryAfter, before.table[k], lastBefore);
          if k != n - 1 {
            assert s.table[k] == before.table[k] && s.table[k].id != m.id;
          }
        }
      }
    }
  }

  lemma {:induction false} LastToInTime(
      c: Cadence, f: Fleet, now: real, outcomes: string -> Outcome, n: nat, clock: real)
    requires n <= |f.table| && NoneLaterThan(f.last, clock) && clock <= now
    ensures NoneLaterThan(LastTo(c, f, now, outcomes, n), now)
  {
    if n > 0 {
      LastToInTime(c, f, now, outcomes, n - 1, clock);
    }
  }

  lemma {:induction false} WithoutKeeps(table: seq<Mailbox>, id: string)
    requires DistinctMailboxes(table)
    ensures DistinctMailboxes(Without(table, id)) && forall i :: 0 <= i < |Without(table, id)| ==>
      Without(table, id)[i] in table
  {
    if table != [] {
      WithoutKeeps(table[..|table| - 1], id);
    }
  }

  lemma EventKeepsGuard(c: Cadence, f: Fleet, e: Event, clock: real)
    requires AllGuarded(c, f) && NoneLaterThan(f.last, clock) && clock <= e.at && Causal(e)
    ensures AllGuarded(c, After(c, f, e)) && NoneLaterThan(After(c, f, e).last, e.at)
  {
    match e
    case Pass(now, outcomes) =>
      SweepKeepsGuard(c, f, now, outcomes, |f.table|);
      LastToInTime(c, f, now, outcomes, |f.table|, clock);
      var t := After(c, f, e).table;
      forall i, j | 0 <= i < j < |t| ensures t[i].id != t[j].id {
        assert t[i].id == f.table[i].id && t[j].id == f.table[j].id;
      }
    case Disconnect(_, id) =>
      WithoutKeeps(f.table, id);
      var t := After(c, f, e).table;
      forall i | 0 <= i < |t| ensures Guarded(c, f.retryAfter, t[i], f.last - {id}) {
        var k :| 0 <= k < |f.table| && f.table[k] == t[i];
        assert Guarded(c, f.retryAfter, f.table[k], f.last);
      }
    case Reconnect(_, id) =>
      var f' := After(c, f, e);
      forall i | 0 <= i < |f.table| ensures Guarded(c, f.retryAfter, f'.table[i], f'.last) {
        assert Guarded(c, f.retryAfter, f.table[i], f.last);
      }
    case _ =>
  }

  // -- runs ---------------------------------------------------------------------------------------

  ghost predicate Runnable(events: seq<Event>) {
    && (forall i :: 0 <= i < |events| ==> Causal(events[i]))
    && (forall i, j :: 0 <= i < j < |events| ==> events[i].at <= events[j].at)
  }

  function FleetAfter(c: Cadence, f: Fleet, events: seq<Event>): Fleet {
    if events == [] then f else After(c, FleetAfter(c, f, events[..|events| - 1]), events[|events| - 1])
  }

  lemma {:induction false} RunsStayGuarded(c: Cadence, table: seq<Mailbox>, events: seq<Event>)
    requires DistinctMailboxes(table) && Runnable(events)
    ensures var f := FleetAfter(c, Fleet(map[], table, map[]), events);
      AllGuarded(c, f) && (events != [] ==> NoneLaterThan(f.last, events[|events| - 1].at))
        && (events == [] ==> f.last == map[])
  {
    if events != [] {
      var n := |events| - 1;
      RunsStayGuarded(c, table, events[..n]);
      EventKeepsGuard(c, FleetAfter(c, Fleet(map[], table, map[]), events[..n]), events[n],
                      if n > 0 then events[n - 1].at else events[n].at);
    }
  }

  /** Worker and table just before the k-th event of a run that starts with a fresh worker. */
  function FleetAt(c: Cadence, table: seq<Mailbox>, events: seq<Event>, k: nat): Fleet
    requires k <= |events|
  {
    FleetAfter(c, Fleet(map[], table, map[]), events[..k])
  }

  /** What the k-th event attempts, when it is a pass. */
  function Attempts(c: Cadence, table: seq<Mailbox>, events: seq<Event>, k: nat): seq<string>
    requires k < |events|
  {
    var f, e := FleetAt(c, table, events, k), events[k];
    if e.Pass? then SweepTo(c, f.retryAfter, f.table, e.at, e.outcomes, |f.table|).attempted else []
  }

  lemma FleetAtNext(c: Cadence, table: seq<Mailbox>, events: seq<Event>, k: nat)
    requires k < |events|
    ensures FleetAt(c, table, events, k + 1) == After(c, FleetAt(c, table, events, k), events[k])
  {
    assert events[..k + 1][..k] == events[..k];
  }

  lemma FleetIsGuarded(c: Cadence, table: seq<Mailbox>, events: seq<Event>, k: nat)
    requires DistinctMailboxes(table) && Runnable(events) && k < |events|
    ensures var f := FleetAt(c, table, events, k); AllGuarded(c, f) && NoneLaterThan(f.last, events[k].at)
  {
    RunsStayGuarded(c, table, events[..k]);
  }

  lemma {:induction false} AttemptIsRemembered(
      c: Cadence, f: Fleet, now: real, outcomes: string -> Outcome, n: nat, id: string)
    requires n <= |f.table|
    ensures
      var last := LastTo(c, f, now, outcomes, n);
      if id in SweepTo(c, f.retryAfter, f.table, now, outcomes, n).attempted then id in last && last[id] == now
      else (id in last <==> id in f.last) && (id in last ==> last[id] == f.last[id])
  {
    if n > 0 {
      AttemptIsRemembered(c, f, now, outcomes, n - 1, id);
    }
  }

  /** Short of a reconnection, what is remembered only moves forward. */
  lemma MemoryStays(c: Cadence, f: Fleet, e: Event, id: string)
    requires NoneLaterThan(f.last, e.at) && id in f.last && !Reopens(f, e, id)
    ensures var last := After(c, f, e).last; id in last && last[id] >= f.last[id]
  {
    if e.Pass? {
      AttemptIsRemembered(c, f, e.at, e.outcomes, |f.table|, id);
    }
  }

  lemma PassRemembers(c: Cadence, table: seq<Mailbox>, events: seq<Event>, i: nat, id: string)
    requires i < |events| && id in Attempts(c, table, events, i)
    ensures var last := FleetAt(c, table, events, i + 1).last; id in last && last[id] == events[i].at
  {
    var f := FleetAt(c, table, events, i);
    FleetAtNext(c, table, events, i);
    AttemptIsRemembered(c, f, events[i].at, events[i].outcomes, |f.table|, id);
  }

  lemma MemoryStaysInRun(c: Cadence, table: seq<Mailbox>, events: seq<Event>, k: nat, id: string, since: real)
    requires DistinctMailboxes(table) && Runnable(events) && k < |events|
    requires var f := FleetAt(c, table, events, k); id in f.last && f.last[id] >= since && !Reopens(f, events[k], id)
    ensures var last := FleetAt(c, table, events, k + 1).last; id in last && last[id] >= since
  {
    FleetAtNext(c, table, events, k);
    FleetIsGuarded(c, table, events, k);
    MemoryStays(c, FleetAt(c, table, events, k), events[k], id);
  }

  lemma {:induction false} AttemptStaysRemembered(
    c: Cadence, table: seq<Mailbox>, events: seq<Event>, i: nat, j: nat, id: string)
    requires DistinctMailboxes(table) && Runnable(events) && i < j < |events| && id in Attempts(c, table, events, i)
    requires forall k :: i < k < j ==> !Reopens(FleetAt(c, table, events, k), events[k], id)
    ensures var last := FleetAt(c, table, events, j).last; id in last && last[id] >= events[i].at
  {
    if j == i + 1 {
      PassRemembers(c, table, events, i, id);
    } else {
      AttemptStaysRemembered(c, table, events, i, j - 1, id);
      MemoryStaysInRun(c, table, events, j - 1, id, events[i].at);
    }
  }

  lemma AttemptedWasDue(c: Cadence, table: seq<Mailbox>, events: seq<Event>, k: nat, id: string) returns (n: nat)
    requires DistinctMailboxes(table) && Runnable(events) && k < |events| && id in Attempts(c, table, events, k)
    ensures
      var f := FleetAt(c, table, events, k);
      && n < |f.table| && f.table[n].id == id && f.table[n].connected
      && IsDue(c, f.retryAfter, f.table[n], events[k].at)
  {
    var f := FleetAt(c, table, events, k);
    FleetIsGuarded(c, table, events, k);
    AttemptsIgnoreOutcomes(c, f.retryAfter, f.table, events[k].at, events[k].outcomes, events[k].outcomes);
    n := DueIdIsDueRow(c, f.retryAfter, f.table, events[k].at, id);
  }

  /**
   * Over any run with a clock that never runs backwards, starting from a fresh
   * worker, two attempts on one mailbox are at least an interval apart, unless
   * between them it was reconnected after breaking, or disconnected.
   */
  lemma AttemptsAreSpaced(c: Cadence, table: seq<Mailbox>, events: seq<Event>, i: nat, j: nat, id: string)
    requires Sensible(c) && DistinctMailboxes(table) && Runnable(events) && i < j < |events|
    requires id in Attempts(c, table, events, i) && id in Attempts(c, table, events, j)
    requires forall k :: i < k < j ==> !Reopens(FleetAt(c, table, events, k), events[k], id)
    ensures events[j].at >= events[i].at + c.interval
  {
    AttemptStaysRemembered(c, table, events, i, j, id);
    FleetIsGuarded(c, table, events, j);
    var f := FleetAt(c, table, events, j);
    var n := AttemptedWasDue(c, table, events, j, id);
    DueMeansIntervalPassed(c, f.retryAfter, f.table[n], f.last, events[j].at);
  }

  // -- broken mailboxes -----------------------------------------------------------------------------

  predicate AllUnconnected(table: seq<Mailbox>, id: string) {
    forall i :: 0 <= i < |table| && table[i].id == id ==> !table[i].connected
  }

  predicate Rejoins(e: Event, id: string) { (e.Reconnect? || e.Connect?) && e.id == id }

  lemma {:induction false} SweepLeavesBroken(
      c: Cadence, f: Fleet, now: real, outcomes: string -> Outcome, n: nat, id: string)
    requires n <= |f.table| && AllUnconnected(f.table, id)
    ensures var s := SweepTo(c, f.retryAfter, f.table, now, outcomes, n);
      |s.table| == |f.table| && AllUnconnected(s.table, id) && id !in s.attempted
  {
    if n > 0 {
      SweepLeavesBroken(c, f, now, outcomes, n - 1, id);
    }
  }

  lemma BrokenStaysBroken(c: Cadence, f: Fleet, e: Event, id: string)
    requires DistinctMailboxes(f.table) && AllUnconnected(f.table, id) && !Rejoins(e, id)
    ensures AllUnconnected(After(c, f, e).table, id)
  {
    match e
    case Pass(now, outcomes) => SweepLeavesBroken(c, f, now, outcomes, |f.table|, id);
    case Disconnect(_, x) => WithoutKeeps(f.table, x);
    case _ =>
  }

  /** A mailbox found broken is left alone until a person reconnects it. */
  lemma {:induction false} BrokenIsLeftAlone(
      c: Cadence, table: seq<Mailbox>, events: seq<Event>, i: nat, j: nat, id: string)
    requires DistinctMailboxes(table) && Runnable(events) && i <= j < |events|
    requires AllUnconnected(FleetAt(c, table, events, i).table, id)
    requires forall k :: i <= k < j ==> !Rejoins(events[k], id)
    ensures AllUnconnected(FleetAt(c, table, events, j).table, id) && id !in Attempts(c, table, events, j)
  {
    if i < j {
      BrokenIsLeftAlone(c, table, events, i, j - 1, id);
      FleetAtNext(c, table, events, j - 1);
      FleetIsGuarded(c, table, events, j - 1);
      BrokenStaysBroken(c, FleetAt(c, table, events, j - 1), events[j - 1], id);
    }
    var f := FleetAt(c, table, events, j);
    if events[j].Pass? {
      SweepLeavesBroken(c, f, events[j].at, events[j].outcomes, |f.table|, id);
    }
  }

  /** What a pass finds broken is off the list after it. */
  lemma FoundBrokenIsUnconnected(c: Cadence, table: seq<Mailbox>, events: seq<Event>, i: nat, id: string)
    requires DistinctMailboxes(table) && Runnable(events) && i < |events|
    requires id in Attempts(c, table, events, i) && events[i].outcomes(id).Broken?
    ensures AllUnconnected(FleetAt(c, table, events, i + 1).table, id)
  {
    var f := FleetAt(c, table, events, i);
    FleetIsGuarded(c, table, events, i);
    FleetAtNext(c, table, events, i);
    AttemptMarks(c, f, events[i].at, events[i].outcomes, |f.table|, id);
  }

  lemma {:induction false} AttemptMarks(
      c: Cadence, f: Fleet, now: real, outcomes: string -> Outcome, n: nat, id: string)
    requires n <= |f.table| && DistinctMailboxes(f.table) && outcomes(id).Broken?
    ensures var s := SweepTo(c, f.retryAfter, f.table, now, outcomes, n);
      && |s.table| == |f.table| && (forall k :: 0 <= k < |f.table| ==> s.table[k].id == f.table[k].id)
      && (id in s.attempted ==> AllUnconnected(s.table, id))
  {
    if n > 0 {
      AttemptMarks(c, f, now, outcomes, n - 1, id);
      TurnMarks(SweepTo(c, f.retryAfter, f.table, now, outcomes, n - 1), c, f.table[n - 1], now, outcomes, n - 1, id);
    }
  }

  /** A turn that finds a mailbox broken takes its row off the list, and no turn puts one back. */
  lemma TurnMarks(s: Sweep, c: Cadence, m: Mailbox, now: real, outcomes: string -> Outcome, i: nat, id: string)
    requires i < |s.table| && s.table[i].id == m.id && DistinctMailboxes(s.table) && outcomes(id).Broken?
    requires id in s.attempted ==> AllUnconnected(s.table, id)
    ensures var t := SweepOne(s, c, m, now, outcomes, i);
      && |t.table| == |s.table| && (forall k :: 0 <= k < |s.table| ==> t.table[k].id == s.table[k].id)
      && (id in t.attempted ==> AllUnconnected(t.table, id))
  {
  }

  lemma {:induction false} DueIdIsDueRow(
      c: Cadence, retryAfter: map<string, real>, ms: seq<Mailbox>, now: real, id: string) returns (k: nat)
    requires id in DueIds(c, retryAfter, ms, now)
    ensures k < |ms| && ms[k].id == id && Listed(ms[k]) && IsDue(c, retryAfter, ms[k], now)
  {
    var n := |ms| - 1;
    if Listed(ms[n]) && IsDue(c, retryAfter, ms[n], now) && ms[n].id == id {
      k := n;
    } else {
      k := DueIdIsDueRow(c, retryAfter, ms[..n], now, id);
    }
  }

  // -- nobody is forgotten ------------------------------------------------------------------------------

  /** Jitter stays below its share of an interval. */
  lemma JitterIsBounded(c: Cadence, id: string)
    requires Sensible(c)
    ensures Jitter(c, id) <= c.jitterFraction
  {
    var share := (c.crc(id) % 1000) as real / 1000.0;
    assert 0.0 <= share <= 1.0;
    assert (1.0 - share) * c.jitterFraction >= 0.0;
    assert share * c.jitterFraction == c.jitterFraction - (1.0 - share) * c.jitterFraction;
  }

  /** Never synced, or not for an interval and its largest jitter; and no longer backing off. */
  predicate Overdue(c: Cadence, retryAfter: map<string, real>, m: Mailbox, now: real) {
    && (m.id in retryAfter ==> retryAfter[m.id] <= now)
    && (m.lastSynced.Some? ==> now - m.lastSynced.value >= c.interval * (1.0 + c.jitterFraction))
  }

  lemma OverdueIsDue(c: Cadence, retryAfter: map<string, real>, m: Mailbox, now: real)
    requires Sensible(c) && Overdue(c, retryAfter, m, now)
    ensures IsDue(c, retryAfter, m, now)
  {
    JitterIsBounded(c, m.id);
    var slack := c.jitterFraction - Jitter(c, m.id);
    assert c.interval * slack >= 0.0;
    assert c.interval * (1.0 + c.jitterFraction) == c.interval * (1.0 + Jitter(c, m.id)) + c.interval * slack;
  }

  lemma {:induction false} DueRowIsListed(c: Cadence, retryAfter: map<string, real>, ms: seq<Mailbox>, now: real,
    k: nat)
    requires k < |ms| && Listed(ms[k]) && IsDue(c, retryAfter, ms[k], now)
    ensures ms[k].id in DueIds(c, retryAfter, ms, now)
  {
    if k < |ms| - 1 {
      DueRowIsListed(c, retryAfter, ms[..|ms| - 1], now, k);
    }
  }

  /**
   * A pass attempts every connected mailbox, demo sandboxes aside, that is not
   * backing off and was never synced or not for an interval and its jitter.
   */
  lemma OverdueIsAttempted(
      c: Cadence, retryAfter: map<string, real>, listed: seq<Mailbox>, now: real, outcomes: string -> Outcome, k: nat)
    requires Sensible(c) && DistinctMailboxes(listed) && k < |listed|
    requires listed[k].connected && !listed[k].sandbox && Overdue(c, retryAfter, listed[k], now)
    ensures listed[k].id in SweepTo(c, retryAfter, listed, now, outcomes, |listed|).attempted
  {
    OverdueIsDue(c, retryAfter, listed[k], now);
    DueRowIsListed(c, retryAfter, listed, now, k);
    AttemptsIgnoreOutcomes(c, retryAfter, listed, now, outcomes, outcomes);
  }

  /** Whatever is on record about this mailbox was over by `t`. */
  predicate OverBy(c: Cadence, f: Fleet, id: string, t: real) {
    && (id in f.retryAfter ==> f.retryAfter[id] <= t + c.interval)
    && (forall i :: 0 <= i < |f.table| && f.table[i].id == id && f.table[i].lastSynced.Some? ==>
          f.table[i].lastSynced.value <= t)
  }

  /** An attempt at `at` and the stamp it leaves, if any, are over by `t`. */
  predicate AttemptOverBy(o: Outcome, at: real, t: real) {
    && at <= t
    && match o
       case Synced(stamp, _, _) => stamp <= t
       case Crashed(stamped) => stamped.Some? ==> stamped.value <= t
       case _ => true
  }

  lemma {:induction false} SweepIsOverBy(
      c: Cadence, f: Fleet, now: real, outcomes: string -> Outcome, n: nat, id: string, t: real)
    requires n <= |f.table| && OverBy(c, f, id, t)
    requires id in SweepTo(c, f.retryAfter, f.table, now, outcomes, n).attempted ==> AttemptOverBy(outcomes(id), now, t)
    ensures var s := SweepTo(c, f.retryAfter, f.table, now, outcomes, n);
      |s.table| == |f.table| && OverBy(c, Fleet(s.retryAfter, s.table, f.last), id, t)
  {
    if n > 0 {
      SweepIsOverBy(c, f, now, outcomes, n - 1, id, t);
    }
  }

  /** What an event does to this mailbox is over by `t`. */
  predicate EventOverBy(c: Cadence, f: Fleet, e: Event, id: string, t: real) {
    match e
    case Pass(now, outcomes) =>
      id in SweepTo(c, f.retryAfter, f.table, now, outcomes, |f.table|).attempted ==>
        AttemptOverBy(outcomes(id), now, t)
    case ManualSync(at, x) => x == id ==> at <= t
    case _ => true
  }

  lemma EventKeepsOverBy(c: Cadence, f: Fleet, e: Event, id: string, t: real)
    requires DistinctMailboxes(f.table) && OverBy(c, f, id, t) && EventOverBy(c, f, e, id, t)
    ensures OverBy(c, After(c, f, e), id, t)
  {
    match e
    case Pass(now, outcomes) => SweepIsOverBy(c, f, now, outcomes, |f.table|, id, t);
    case Disconnect(_, x) => WithoutKeeps(f.table, x);
    case _ =>
  }

  lemma {:induction false} RunIsOverBy(
      c: Cadence, table: seq<Mailbox>, events: seq<Event>, j: nat, id: string, t: real)
    requires DistinctMailboxes(table) && Runnable(events) && j < |events|
    requires forall i :: 0 <= i < |table| && table[i].id == id && table[i].lastSynced.Some? ==>
      table[i].lastSynced.value <= t
    requires forall k :: 0 <= k < j ==> EventOverBy(c, FleetAt(c, table, events, k), events[k], id, t)
    ensures OverBy(c, FleetAt(c, table, events, j), id, t)
  {
    if j > 0 {
      RunIsOverBy(c, table, events, j - 1, id, t);
      FleetIsGuarded(c, table, events, j - 1);
      FleetAtNext(c, table, events, j - 1);
      EventKeepsOverBy(c, FleetAt(c, table, events, j - 1), events[j - 1], id, t);
    }
  }

  /**
   * Over any run: once everything that happened to a mailbox is over by `t`, a pass
   * an interval and its largest jitter later attempts it, if it is connected and no
   * demo sandbox. Failures, crashes and refusals only put it off by an interval.
   */
  lemma LateMailboxIsAttempted(
      c: Cadence, table: seq<Mailbox>, events: seq<Event>, j: nat, n: nat, t: real)
    requires Sensible(c) && DistinctMailboxes(table) && Runnable(events) && j < |events| && events[j].Pass?
    requires n < |FleetAt(c, table, events, j).table|
    requires var m := FleetAt(c, table, events, j).table[n];
      && m.connected && !m.sandbox
      && (forall i :: 0 <= i < |table| && table[i].id == m.id && table[i].lastSynced.Some? ==>
            table[i].lastSynced.value <= t)
      && (forall k :: 0 <= k < j ==> EventOverBy(c, FleetAt(c, table, events, k), events[k], m.id, t))
    requires events[j].at >= t + c.interval * (1.0 + c.jitterFraction)
    ensures FleetAt(c, table, events, j).table[n].id in Attempts(c, table, events, j)
  {
    var f := FleetAt(c, table, events, j);
    var m := f.table[n];
    FleetIsGuarded(c, table, events, j);
    RunIsOverBy(c, table, events, j, m.id, t);
    assert c.interval * c.jitterFraction >= 0.0;
    assert c.interval * (1.0 + c.jitterFraction) == c.interval + c.interval * c.jitterFraction;
    OverdueIsAttempted(c, f.retryAfter, f.table, events[j].at, events[j].outcomes, n);
  }

  // -- the summary of a pass ----------------------------------------------------------------------------

  /** How many of these attempts synced. */
  function SyncedAmong(ids: seq<string>, outcomes: string -> Outcome): nat {
    if ids == [] then 0
    else SyncedAmong(ids[..|ids| - 1], outcomes) + if outcomes(ids[|ids| - 1]).Synced? then 1 else 0
  }

  function ListedCount(ms: seq<Mailbox>): nat {
    if ms == [] then 0
    else ListedCount(ms[..|ms| - 1]) + if ms[|ms| - 1].connected && !ms[|ms| - 1].sandbox then 1 else 0
  }

  /** A turn counts nothing, a check, or a check and an attempt. */
  lemma TurnCounts(s: Sweep, c: Cadence, m: Mailbox, now: real, outcomes: string -> Outcome, i: nat)
    ensures
      var (next, checked) := (SweepOne(s, c, m, now, outcomes, i), s.summary.(checked := s.summary.checked + 1));
      if !Listed(m) then next == s
      else
        || (next.summary == checked && next.attempted == s.attempted)
        || (next.summary == Counted(checked, outcomes(m.id)) && next.attempted == s.attempted + [m.id])
  {
  }

  /** One more row is checked when listed, and counted when attempted. */
  lemma OneMoreAddsUp(s: Sweep, c: Cadence, m: Mailbox, now: real, outcomes: string -> Outcome, i: nat)
    requires s.summary.synced == SyncedAmong(s.attempted, outcomes)
    requires s.summary.synced + s.summary.errors == |s.attempted|
    ensures var next := SweepOne(s, c, m, now, outcomes, i);
      && next.summary.checked == s.summary.checked + (if m.connected && !m.sandbox then 1 else 0)
      && next.summary.synced == SyncedAmong(next.attempted, outcomes)
      && next.summary.synced + next.summary.errors == |next.attempted|
  {
    TurnCounts(s, c, m, now, outcomes, i);
    CountedAddsUp(s.summary.(checked := s.summary.checked + 1), s.attempted, m.id, outcomes);
  }

  lemma CountedAddsUp(s: Summary, attempted: seq<string>, id: string, outcomes: string -> Outcome)
    requires s.synced == SyncedAmong(attempted, outcomes) && s.synced + s.errors == |attempted|
    ensures var (counted, more) := (Counted(s, outcomes(id)), attempted + [id]);
      && counted.checked == s.checked && counted.synced == SyncedAmong(more, outcomes)
      && counted.synced + counted.errors == |more|
  {
    assert (attempted + [id])[..|attempted|] == attempted;
  }

  /** A pass checks every listed mailbox, and each attempt is counted as synced or as an error. */
  lemma {:induction false} SummaryAddsUp(
      c: Cadence, retryAfter: map<string, real>, listed: seq<Mailbox>, now: real, outcomes: string -> Outcome, n: nat)
    requires n <= |listed|
    ensures var s := SweepTo(c, retryAfter, listed, now, outcomes, n);
      && s.summary.checked == ListedCount(listed[..n])
      && s.summary.synced == SyncedAmong(s.attempted, outcomes)
      && s.summary.synced + s.summary.errors == |s.attempted|
  {
    if n > 0 {
      SummaryAddsUp(c, retryAfter, listed, now, outcomes, n - 1);
      assert listed[..n][..n - 1] == listed[..n - 1];
      SweepStep(c, retryAfter, listed, now, outcomes, n - 1);
      OneMoreAddsUp(SweepTo(c, retryAfter, listed, now, outcomes, n - 1), c, listed[n - 1], now, outcomes, n - 1);
    }
  }
}
