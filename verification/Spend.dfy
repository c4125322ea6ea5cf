// The budget over a whole sync, and over any run of syncs in one month.
module Spend {
  import opened Pipeline
  import opened IsoTime
  import opened Ledger
  import opened Budget
  import opened Drafting
  import opened Tables
  import opened Sync
  import opened Runs

  lemma ProposeKeepsBound(start: Desk, g: Progress, setting: Setting, p: Proposal, c: real)
    requires Bounded(start, g.desk, c) && CostsWithin(setting.writer.model, c) && c > 0.0
    ensures Bounded(start, Propose(g, setting, p).desk, c)
  {
    WritingKeepsBound(start, g.desk, setting.writer.model, setting.inp.guards, setting.inp.authored, p,
                      LastMessage(setting.inp.fetched, p.emailId), ExamplesFor(setting, p.kind), c);
  }

  lemma {:induction false} ProposeAllKeepsBound(start: Desk, g: Progress, setting: Setting, ps: seq<Proposal>, c: real)
    requires Bounded(start, g.desk, c) && CostsWithin(setting.writer.model, c) && c > 0.0
    ensures Bounded(start, ProposeAll(g, setting, ps).desk, c)
  {
    if ps != [] {
      ProposeAllKeepsBound(start, g, setting, ps[..|ps| - 1], c);
      ProposeKeepsBound(start, ProposeAll(g, setting, ps[..|ps| - 1]), setting, ps[|ps| - 1], c);
    }
  }

  function DeskAfter(store: Store, account: string, inp: SyncInput, writer: Writer, shelf: Shelf): Desk
    requires ValidInstant(writer.clock)
  {
    var (start, setting, _) := Prepare(store, account, inp, writer, shelf);
    ProposeAll(start, setting, ProposalsOf(inp, account)).desk
  }

  /**
   * One sync against an enforced budget overshoots by less than one call; it
   * calls no model at all when it starts at or over the limit; and its running
   * total is what it started from plus everything billed, never less than what
   * reached the ledger.
   */
  lemma SyncStaysInBudget(store: Store, account: string, inp: SyncInput, writer: Writer, shelf: Shelf, c: real)
    requires ValidInstant(writer.clock) && CostsWithin(writer.model, c) && c > 0.0
    ensures
      var before, after := OpenDesk(writer, shelf), DeskAfter(store, account, inp, writer, shelf);
      && MeteredFrom(before.meter, after.meter)
      && (writer.limit > 0.0 && before.meter.spent < writer.limit ==> after.meter.spent < writer.limit + c)
      && (writer.limit > 0.0 && before.meter.spent >= writer.limit ==>
        after.calls == before.calls && after.meter == before.meter)
      && (!writer.live ==> after.calls == before.calls)
      && CloseDesk(after) == SyncOnce(store, account, inp, writer, shelf).shelf
  {
    var (start, setting, _) := Prepare(store, account, inp, writer, shelf);
    ProposeAllKeepsBound(start.desk, start, setting, ProposalsOf(inp, account), c);
  }

  // -- the ledger over a month ------------------------------------------------------------------

  /** Every ledger write lands, stamped inside the month of `clock`. */
  ghost predicate Reliable(writer: Writer)
    requires ValidInstant(writer.clock)
  {
    && writer.ledgerReadable
    && (forall n :: writer.model.ledgerAccepts(n))
    && (forall n :: !LexLess(writer.model.stamp(n), IsoInstant(MonthStart(writer.clock))))
  }

  /** The running total is what the ledger query would answer. */
  ghost predicate Accurate(desk: Desk, clock: Instant)
    requires ValidInstant(clock)
  {
    desk.meter.spent == MonthToDate(desk.meter.ledger, desk.meter.orgId, clock)
  }

  lemma BillKeepsAccurate(desk: Desk, model: Model, cost: real, clock: Instant)
    requires ValidInstant(clock) && Accurate(desk, clock)
    requires forall n :: model.ledgerAccepts(n)
    requires forall n :: !LexLess(model.stamp(n), IsoInstant(MonthStart(clock)))
    ensures Accurate(Bill(desk, model, cost), clock)
  {
    var n := |desk.meter.recorded|;
    assert model.ledgerAccepts(n);
    var row := UsageRow(desk.meter.orgId, model.stamp(n), cost);
    assert (desk.meter.ledger + [row])[..|desk.meter.ledger|] == desk.meter.ledger;
  }

  lemma HoldKeepsAccurate(g: Progress, setting: Setting, p: Proposal, messageId: nat)
    requires ValidInstant(setting.writer.clock) && Reliable(setting.writer) && Accurate(g.desk, setting.writer.clock)
    ensures Accurate(Hold(g, setting, p, messageId).desk, setting.writer.clock)
  {
    var model, clock := setting.writer.model, setting.writer.clock;
    var message, examples := LastMessage(setting.inp.fetched, p.emailId), ExamplesFor(setting, p.kind);
    var (drafted, desk1) := ResolveDraft(g.desk, model, setting.inp.authored, p, message, examples);
    var answer := model.drafts(g.desk.calls);
    if answer.Some? {
      BillKeepsAccurate(g.desk.(calls := g.desk.calls + 1), model, answer.value.cost, clock);
    }
    assert Accurate(desk1, clock);
    if Truthy(drafted.body) && message.Some? {
      var verdict := VerifyHeld(desk1, model, setting.inp.guards, drafted.body.value, message.value, p.kind).0;
      BillKeepsAccurate(if MayCall(desk1) then desk1.(calls := desk1.calls + 1) else desk1, model, verdict.cost, clock);
    }
  }

  lemma {:induction false} ProposeAllKeepsAccurate(g: Progress, setting: Setting, ps: seq<Proposal>)
    requires ValidInstant(setting.writer.clock) && Reliable(setting.writer) && Accurate(g.desk, setting.writer.clock)
    ensures Accurate(ProposeAll(g, setting, ps).desk, setting.writer.clock)
  {
    if ps != [] {
      var n := |ps| - 1;
      ProposeAllKeepsAccurate(g, setting, ps[..n]);
      var mid := ProposeAll(g, setting, ps[..n]);
      if ps[n].emailId in setting.ids {
        HoldKeepsAccurate(mid, setting, ps[n], setting.ids[ps[n].emailId]);
      }
    }
  }

  /** A step of that month: if it syncs, it bills this org, within `limit`, through a reliable ledger. */
  ghost predicate OfMonth(s: Step, orgId: string, limit: real, c: real, clock: Instant)
    requires ValidInstant(clock)
  {
    s.SyncStep? ==>
      var w := s.writer;
      && ValidInstant(w.clock) && SameMonth(w.clock, clock)
      && w.orgId == orgId && w.limit == limit && CostsWithin(w.model, c) && Reliable(w)
  }

  ghost predicate MonthOf(steps: seq<Step>, orgId: string, limit: real, c: real, clock: Instant)
    requires ValidInstant(clock)
  {
    forall i :: 0 <= i < |steps| ==> OfMonth(steps[i], orgId, limit, c, clock)
  }

  lemma SameMonthSameTotal(rows: seq<UsageRow>, orgId: string, a: Instant, b: Instant)
    requires ValidInstant(a) && ValidInstant(b) && SameMonth(a, b)
    ensures MonthToDate(rows, orgId, a) == MonthToDate(rows, orgId, b)
  {
    assert MonthStart(a) == MonthStart(b);
    if rows != [] {
      SameMonthSameTotal(rows[..|rows| - 1], orgId, a, b);
    }
  }

  lemma SyncKeepsMonthBound(store: Store, account: string, inp: SyncInput, writer: Writer, shelf: Shelf, c: real)
    requires ValidInstant(writer.clock) && Reliable(writer) && CostsWithin(writer.model, c) && c > 0.0
    requires writer.limit > 0.0 && MonthToDate(shelf.ledger, writer.orgId, writer.clock) < writer.limit + c
    ensures
      var ledger := SyncOnce(store, account, inp, writer, shelf).shelf.ledger;
      MonthToDate(ledger, writer.orgId, writer.clock) < writer.limit + c
  {
    var before, after := OpenDesk(writer, shelf), DeskAfter(store, account, inp, writer, shelf);
    SyncStaysInBudget(store, account, inp, writer, shelf, c);
    var (start, setting, _) := Prepare(store, account, inp, writer, shelf);
    if writer.live {
      ProposeAllKeepsAccurate(start, setting, ProposalsOf(inp, account));
    } else {
      ProposeAllKeepsBound(start.desk, start, setting, ProposalsOf(inp, account), c);
    }
  }

  lemma StepKeepsMonthBound(w: World, s: Step, orgId: string, limit: real, c: real, clock: Instant)
    requires Possible(s) && ValidInstant(clock) && OfMonth(s, orgId, limit, c, clock)
    requires limit > 0.0 && c > 0.0 && MonthToDate(w.shelf.ledger, orgId, clock) < limit + c
    ensures MonthToDate(Apply(w, s).shelf.ledger, orgId, clock) < limit + c
  {
    if s.SyncStep? && SyncSpec(w.store, s.inp, s.writer, w.shelf).Ok? {
      var done := SyncSpec(w.store, s.inp, s.writer, w.shelf).value;
      SameMonthSameTotal(w.shelf.ledger, orgId, clock, s.writer.clock);
      SyncKeepsMonthBound(w.store, w.store.connections[s.inp.connection], s.inp, s.writer, w.shelf, c);
      SameMonthSameTotal(done.shelf.ledger, orgId, clock, s.writer.clock);
    }
  }

  /** Over any run in one month, the org's ledgered spend ends below the limit plus one call. */
  lemma {:induction false} MonthStaysInBudget(
      w: World, steps: seq<Step>, orgId: string, limit: real, c: real, clock: Instant)
    requires AllPossible(steps) && ValidInstant(clock) && MonthOf(steps, orgId, limit, c, clock)
    requires limit > 0.0 && c > 0.0 && MonthToDate(w.shelf.ledger, orgId, clock) < limit + c
    ensures MonthToDate(RunAll(w, steps).shelf.ledger, orgId, clock) < limit + c
  {
    if steps != [] {
      var n := |steps| - 1;
      MonthStaysInBudget(w, steps[..n], orgId, limit, c, clock);
      StepKeepsMonthBound(RunAll(w, steps[..n]), steps[n], orgId, limit, c, clock);
    }
  }
}
