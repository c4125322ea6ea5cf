// Tracked commitments: identity, recording, and the summary shown to the user
// (app/saas/repository.py, CommitmentRepository).
module FollowUps {
  import opened Prelude
  import opened Text
  import opened Calendar
  import opened IsoTime
  import opened Commitments

  datatype FollowUpStatus = Open | Done | Dismissed

  datatype FollowUp = FollowUp(
    messageId: Option<nat>, threadId: Option<string>, direction: Direction, text: string,
    dueAt: Option<string>, duePhrase: Option<string>, counterparty: string, subject: string,
    status: FollowUpStatus)

  /** Identity of a promise: wrapping and letter case do not matter. */
  datatype Fingerprint = Fingerprint(messageId: Option<nat>, direction: Direction, words: seq<string>)

  function FingerprintOf(messageId: Option<nat>, direction: Direction, text: string): Fingerprint {
    Fingerprint(messageId, direction, Words(Lower(text)))
  }

  function KeyOf(f: FollowUp): Fingerprint { FingerprintOf(f.messageId, f.direction, f.text) }

  predicate Known(rows: seq<FollowUp>, key: Fingerprint) {
    exists i :: 0 <= i < |rows| && KeyOf(rows[i]) == key
  }

  /** Record a promise unless it is already there; an existing one is left alone. */
  function Upsert(rows: seq<FollowUp>, f: FollowUp): seq<FollowUp> {
    if Known(rows, KeyOf(f)) then rows else rows + [f]
  }

  /** No two rows are the same promise. */
  ghost predicate EachOnce(rows: seq<FollowUp>) {
    forall i, j :: 0 <= i < j < |rows| ==> KeyOf(rows[i]) != KeyOf(rows[j])
  }

  lemma UpsertKeepsEachOnce(rows: seq<FollowUp>, f: FollowUp)
    requires EachOnce(rows)
    ensures EachOnce(Upsert(rows, f)) && Known(Upsert(rows, f), KeyOf(f)) && rows <= Upsert(rows, f)
  {
    var after := Upsert(rows, f);
    if !Known(rows, KeyOf(f)) {
      assert KeyOf(after[|rows|]) == KeyOf(f);
      forall i, j | 0 <= i < j < |after| ensures KeyOf(after[i]) != KeyOf(after[j]) {
        assert KeyOf(rows[i]) == KeyOf(after[i]);
      }
    }
  }

  // -- summary ---------------------------------------------------------------------------

  /** The SQL test: open, dated, and textually before today. */
  predicate CountsAsOverdue(f: FollowUp, today: string) {
    f.status.Open? && f.dueAt.Some? && LexLess(f.dueAt.value, today)
  }

  datatype Summary = Summary(open: nat, ours: nat, theirs: nat, overdue: nat)

  function Summarize(rows: seq<FollowUp>, today: string): Summary {
    if rows == [] then Summary(0, 0, 0, 0)
    else
      var s := Summarize(rows[1..], today);
      var f := rows[0];
      Summary(s.open + (if f.status.Open? then 1 else 0),
              s.ours + (if f.status.Open? && f.direction.Ours? then 1 else 0),
              s.theirs + (if f.status.Open? && f.direction.Theirs? then 1 else 0),
              s.overdue + (if CountsAsOverdue(f, today) then 1 else 0))
  }

  /** A due date as extraction stores it. */
  predicate StoredDate(dueAt: Option<string>) {
    dueAt.Some? ==> ParseIsoDate(dueAt.value).Some? && IsoDate(ParseIsoDate(dueAt.value).value) == dueAt.value
  }

  predicate AllStored(rows: seq<FollowUp>) { forall i :: 0 <= i < |rows| ==> StoredDate(rows[i].dueAt) }

  function CountOverdue(rows: seq<FollowUp>, today: Date): nat {
    if rows == [] then 0
    else (if rows[0].status.Open? && IsOverdue(rows[0].dueAt, today) then 1 else 0) + CountOverdue(rows[1..], today)
  }

  predicate DatesStored(cs: seq<Commitment>) { forall i :: 0 <= i < |cs| ==> StoredDate(cs[i].dueAt) }

  lemma CommittedDateIsStored(r: Reader, s: string, direction: Direction, includeRequests: bool, due: Due)
    ensures StoredDate(Commit(r, s, direction, includeRequests, due).dueAt)
  {
    if due.date.Some? && Valid(due.date.value) {
      IsoDateRoundTrip(due.date.value);
    }
  }

  lemma StoredCons(first: Commitment, rest: seq<Commitment>)
    requires StoredDate(first.dueAt) && DatesStored(rest)
    ensures DatesStored([first] + rest)
  {
  }

  lemma {:induction false} CommittedDatesAreStored(
    r: Reader, ss: seq<string>, direction: Direction, includeRequests: bool, today: Date)
    ensures var found := CommitAll(r, ss, direction, includeRequests, today); found.Ok? ==> DatesStored(found.value)
  {
    if ss != [] && ParseDue(r.phrases(ss[0]), today).Ok? {
      var due := ParseDue(r.phrases(ss[0]), today).value;
      var rest := CommitAll(r, ss[1..], direction, includeRequests, today);
      CommittedDatesAreStored(r, ss[1..], direction, includeRequests, today);
      CommittedDateIsStored(r, ss[0], direction, includeRequests, due);
      if rest.Ok? {
        StoredCons(Commit(r, ss[0], direction, includeRequests, due), rest.value);
      }
    }
  }

  /** Every due date found in a text is an ISO date, or absent. */
  lemma ExtractedDatesAreStored(r: Reader, text: string, direction: Direction, includeRequests: bool, today: Date)
    ensures var found := ExtractSpec(r, text, direction, includeRequests, today);
      found.Ok? ==> DatesStored(found.value)
  {
    CommittedDatesAreStored(r, Pick(r, r.sentences(text), includeRequests, {}), direction, includeRequests, today);
  }

  /**
   * The text comparison in the query counts what `is_overdue` says, and the
   * open rows are split by direction with none lost.
   */
  lemma {:induction false} OverdueCountAgrees(rows: seq<FollowUp>, today: Date)
    requires Valid(today) && AllStored(rows)
    ensures var s := Summarize(rows, IsoDate(today));
      && s.overdue == CountOverdue(rows, today)
      && s.open == s.ours + s.theirs && s.overdue <= s.open
  {
    if rows != [] {
      OverdueCountAgrees(rows[1..], today);
      if rows[0].dueAt.Some? {
        var d := ParseIsoDate(rows[0].dueAt.value).value;
        IsoDateOrder(d, today);
        OrdinalIsCalendarOrder(d, today);
      }
    }
  }

  /** The summary counts the open promises, ours and theirs apart. */
  lemma {:induction false} SummaryCounts(rows: seq<FollowUp>, today: string)
    ensures var s := Summarize(rows, today);
      && s.open == |Filter((f: FollowUp) => f.status.Open?, rows)|
      && s.ours == |Filter((f: FollowUp) => f.status.Open? && f.direction.Ours?, rows)|
      && s.theirs == |Filter((f: FollowUp) => f.status.Open? && f.direction.Theirs?, rows)|
  {
    if rows != [] {
      SummaryCounts(rows[1..], today);
    }
  }
}
