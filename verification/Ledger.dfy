// The model-spend ledger: rows stamped with ISO text, summed by comparing that
// text with the start of the month (app/saas/repository.py).
module Ledger {
  import opened Calendar
  import opened IsoTime

  datatype UsageRow = UsageRow(orgId: string, createdAt: string, cost: real)

  /** `month_start_iso`, before rendering. */
  function MonthStart(now: Instant): Instant {
    Instant(Date(now.date.year, now.date.month, 1), 0, 0, 0, 0)
  }

  predicate Counted(row: UsageRow, orgId: string, now: Instant)
    requires ValidInstant(now)
  {
    row.orgId == orgId && !LexLess(row.createdAt, IsoInstant(MonthStart(now)))
  }

  function MonthToDate(rows: seq<UsageRow>, orgId: string, now: Instant): real
    requires ValidInstant(now)
  {
    if rows == [] then 0.0
    else
      var last := rows[|rows| - 1];
      MonthToDate(rows[..|rows| - 1], orgId, now) + if Counted(last, orgId, now) then last.cost else 0.0
  }

  // -- what the ledger text means -----------------------------------------------------------

  /** One billed call, as it happened. */
  datatype Call = Call(orgId: string, at: Instant, cost: real)

  predicate Happened(calls: seq<Call>, now: Instant) {
    forall c :: c in calls ==> ValidInstant(c.at) && Micros(c.at) <= Micros(now)
  }

  function Recorded(c: Call): UsageRow
    requires ValidInstant(c.at)
  {
    UsageRow(c.orgId, IsoInstant(c.at), c.cost)
  }

  function RecordedAll(calls: seq<Call>): (rows: seq<UsageRow>)
    requires forall c :: c in calls ==> ValidInstant(c.at)
    ensures |rows| == |calls|
  {
    if calls == [] then []
    else RecordedAll(calls[..|calls| - 1]) + [Recorded(calls[|calls| - 1])]
  }

  predicate SameMonth(a: Instant, b: Instant) {
    a.date.year == b.date.year && a.date.month == b.date.month
  }

  /** The org's spend in the calendar month of `now`. */
  function SpentThisMonth(calls: seq<Call>, orgId: string, now: Instant): real {
    if calls == [] then 0.0
    else
      var last := calls[|calls| - 1];
      SpentThisMonth(calls[..|calls| - 1], orgId, now)
      + if last.orgId == orgId && SameMonth(last.at, now) then last.cost else 0.0
  }

  lemma CountedIsThisMonth(c: Call, orgId: string, now: Instant)
    requires ValidInstant(c.at) && ValidInstant(now) && Micros(c.at) <= Micros(now)
    ensures Counted(Recorded(c), orgId, now) <==> c.orgId == orgId && SameMonth(c.at, now)
  {
    StringOrderIsTimeOrder(c.at, MonthStart(now));
    OrdinalIsCalendarOrder(c.at.date, MonthStart(now).date);
    OrdinalIsCalendarOrder(now.date, c.at.date);
  }

  /** The string query sums exactly the calls since the month began. */
  lemma {:induction false} MonthToDateIsExact(calls: seq<Call>, orgId: string, now: Instant)
    requires ValidInstant(now) && Happened(calls, now)
    ensures MonthToDate(RecordedAll(calls), orgId, now) == SpentThisMonth(calls, orgId, now)
  {
    if calls != [] {
      var init, last := calls[..|calls| - 1], calls[|calls| - 1];
      MonthToDateIsExact(init, orgId, now);
      CountedIsThisMonth(last, orgId, now);
      assert RecordedAll(calls)[..|calls| - 1] == RecordedAll(init);
    }
  }
}
