// The monthly ceiling on model spend (app/saas/llm_budget.py).
module Budget {
  import opened Prelude
  import opened IsoTime
  import opened Ledger

  /** `recorded` is every cost billed through this meter, in order. */
  datatype Meter = Meter(orgId: string, limit: real, spent: real, recorded: seq<real>, ledger: seq<UsageRow>)

  predicate Enforced(m: Meter) { m.limit > 0.0 }

  predicate Allows(m: Meter) { !Enforced(m) || m.spent < m.limit }

  /** Advance the total unconditionally; the ledger row follows only if the write is accepted. */
  function Billed(m: Meter, cost: real, accepted: bool, stamp: string): Meter {
    m.(spent := m.spent + cost,
       recorded := m.recorded + [cost],
       ledger := if accepted then m.ledger + [UsageRow(m.orgId, stamp, cost)] else m.ledger)
  }

  /** An unlimited budget reads nothing; an unreadable ledger counts as nothing spent. */
  function Opened(orgId: string, limit: real, ledger: seq<UsageRow>, readable: bool, now: Instant): Meter
    requires ValidInstant(now)
  {
    Meter(orgId, limit, if limit <= 0.0 || !readable then 0.0 else MonthToDate(ledger, orgId, now), [], ledger)
  }

  class LlmBudget {
    const orgId: string
    const limitUsd: real
    var spentUsd: real
    var ledger: seq<UsageRow>
    var recorded: seq<real>

    function State(): Meter
      reads this
    {
      Meter(orgId, limitUsd, spentUsd, recorded, ledger)
    }

    constructor (orgId: string, limitUsd: real, ledger: seq<UsageRow>, readable: bool, now: Instant)
      requires ValidInstant(now)
      ensures State() == Opened(orgId, limitUsd, ledger, readable, now)
    {
      this.orgId, this.limitUsd := orgId, limitUsd;
      this.ledger, this.recorded := ledger, [];
      spentUsd := if limitUsd <= 0.0 || !readable then 0.0 else MonthToDate(ledger, orgId, now);
    }

    method AllowsCall() returns (ok: bool)
      ensures ok == Allows(State())
    {
      if limitUsd <= 0.0 {
        return true;
      }
      return spentUsd < limitUsd;
    }

    method Record(cost: real, accepted: bool, stamp: string)
      modifies this
      ensures State() == Billed(old(State()), cost, accepted, stamp)
    {
      spentUsd := spentUsd + cost;
      recorded := recorded + [cost];
      if accepted {
        ledger := ledger + [UsageRow(orgId, stamp, cost)];
      }
    }
  }

  // -- what metering guarantees -------------------------------------------------------------

  /**
   * Relates a meter to the one it started as: the total is the start plus
   * everything billed, and the ledger has grown by rows of this org that sum to
   * no more than that.
   */
  ghost predicate MeteredFrom(start: Meter, m: Meter) {
    && m.orgId == start.orgId && m.limit == start.limit
    && start.recorded <= m.recorded
    && m.spent == start.spent + Sum(m.recorded) - Sum(start.recorded)
    && start.ledger <= m.ledger
    && LedgerTotal(m.ledger) - LedgerTotal(start.ledger) <= m.spent - start.spent
  }

  function LedgerTotal(rows: seq<UsageRow>): real {
    if rows == [] then 0.0 else LedgerTotal(rows[..|rows| - 1]) + rows[|rows| - 1].cost
  }

  lemma BillingIsMetered(start: Meter, m: Meter, cost: real, accepted: bool, stamp: string)
    requires MeteredFrom(start, m) && cost >= 0.0
    ensures MeteredFrom(start, Billed(m, cost, accepted, stamp))
  {
    SumAppend(m.recorded, cost);
    var row := UsageRow(m.orgId, stamp, cost);
    assert (m.ledger + [row])[..|m.ledger|] == m.ledger;
  }
}
