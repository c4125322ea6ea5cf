// What the approval queue teaches (app/saas/learning.py): pairs people keep
// rejecting are vetoed, accepted drafts become examples.
module Learning {
  import opened Prelude
  import opened Text
  import opened Mail
  import opened Sorting
  import opened Tables

  const DECISION_WINDOW := 200
  const MIN_DECISIONS := 3

  /** One human ruling, joined with the message it was about. */
  datatype Decision = Decision(
    kind: ActionType, role: SenderRole, outcome: Outcome, content: Option<string>, subject: string)

  type Pair = (ActionType, SenderRole)

  datatype PairStats = PairStats(approved: nat, edited: nat, rejected: nat) {
    function Total(): nat { approved + edited + rejected }
  }

  // -- the corpus -----------------------------------------------------------------------

  predicate Decided(row: ActionRow, messages: seq<MessageRow>) {
    row.outcome.Some? && !row.outcome.value.Auto? && row.messageId < |messages|
  }

  predicate IsDecided(i: nat, rows: seq<ActionRow>, messages: seq<MessageRow>) {
    i < |rows| && Decided(rows[i], messages)
  }

  function DecidedIds(rows: seq<ActionRow>, messages: seq<MessageRow>): (ids: seq<nat>)
    ensures forall i: nat :: i in ids <==> IsDecided(i, rows, messages)
    ensures NoDuplicates(ids)
  {
    if rows == [] then []
    else
      var last := |rows| - 1;
      var earlier := DecidedIds(rows[..last], messages);
      assert forall k :: 0 <= k < |earlier| ==> earlier[k] in earlier && IsDecided(earlier[k], rows[..last], messages);
      if Decided(rows[last], messages) then earlier + [last] else earlier
  }

  /** `ORDER BY decided_at DESC`. */
  predicate DecidedLater(rows: seq<ActionRow>, i: nat, j: nat) {
    var a, b := DecidedAt(rows, i), DecidedAt(rows, j);
    a.Some? && (b.None? || a.value > b.value)
  }

  function LaterIn(rows: seq<ActionRow>): (nat, nat) -> bool { (i: nat, j: nat) => DecidedLater(rows, i, j) }

  function NewestDecided(rows: seq<ActionRow>, messages: seq<MessageRow>): (ids: seq<nat>)
    ensures forall i: nat :: i in ids ==> IsDecided(i, rows, messages)
    ensures |ids| <= DECISION_WINDOW && NoDuplicates(ids)
  {
    var all := DecidedIds(rows, messages);
    SortedIdsStayDistinct(LaterIn(rows), all);
    Take(StableSort(LaterIn(rows), all), DECISION_WINDOW)
  }

  /**
   * The window holds the newest rulings, newest first, and leaves a ruling out only
   * when two hundred others were made no earlier.
   */
  lemma NewestDecidedIsNewest(rows: seq<ActionRow>, messages: seq<MessageRow>)
    ensures
      var ids := NewestDecided(rows, messages);
      && (forall j, k :: 0 <= j < k < |ids| ==> NoOlder(DecidedAt(rows, ids[j]), DecidedAt(rows, ids[k])))
      && (forall i: nat :: IsDecided(i, rows, messages) && i !in ids ==>
            |ids| == 200 && forall k :: 0 <= k < |ids| ==> NoOlder(DecidedAt(rows, ids[k]), rows[i].decidedAt))
  {
    var all, before := DecidedIds(rows, messages), LaterIn(rows);
    var sorted, ids := StableSort(before, all), NewestDecided(rows, messages);
    SortIsOrdered(before, all);
    SortedIdsStayDistinct(before, all);
    assert ids == sorted[..|ids|];
    assert forall j, k :: 0 <= j < k < |sorted| ==> !before(sorted[k], sorted[j]);
    forall i: nat | IsDecided(i, rows, messages) && i !in ids
      ensures |ids| == 200 && forall k :: 0 <= k < |ids| ==> NoOlder(DecidedAt(rows, ids[k]), rows[i].decidedAt)
    {
      assert i in all && i in sorted;
      var n :| 0 <= n < |sorted| && sorted[n] == i;
      assert forall k :: 0 <= k < |ids| ==> ids[k] == sorted[k] && ids[k] in ids;
      assert n >= |ids|;
    }
  }

  function Join(ids: seq<nat>, rows: seq<ActionRow>, messages: seq<MessageRow>): (ds: seq<Decision>)
    requires forall i: nat :: i in ids ==> IsDecided(i, rows, messages)
    ensures |ds| == |ids|
  {
    if ids == [] then []
    else
      assert IsDecided(ids[0], rows, messages);
      var row := rows[ids[0]];
      var message := messages[row.messageId];
      [Decision(row.kind, message.senderRole, row.outcome.value, row.content, message.subject)]
      + Join(ids[1..], rows, messages)
  }

  /** `list_decided`: the newest human rulings, with the sender's role as now inferred. */
  function ListDecided(rows: seq<ActionRow>, messages: seq<MessageRow>): seq<Decision> {
    Join(NewestDecided(rows, messages), rows, messages)
  }

  // -- vetoes ---------------------------------------------------------------------------

  function Tally(s: PairStats, outcome: Outcome): PairStats {
    match outcome
    case Approved => s.(approved := s.approved + 1)
    case Edited => s.(edited := s.edited + 1)
    case Declined => s.(rejected := s.rejected + 1)
    case Auto => s
  }

  function AddDecision(stats: map<Pair, PairStats>, d: Decision): map<Pair, PairStats> {
    var pair := (d.kind, d.role);
    stats[pair := Tally(if pair in stats then stats[pair] else PairStats(0, 0, 0), d.outcome)]
  }

  function StatsOf(ds: seq<Decision>): map<Pair, PairStats> {
    if ds == [] then map[] else AddDecision(StatsOf(ds[..|ds| - 1]), ds[|ds| - 1])
  }

  /** At least three rulings, at least 0.8 of them rejections. */
  predicate Vetoed(s: PairStats) {
    s.Total() >= MIN_DECISIONS && 10 * s.rejected >= 8 * s.Total()
  }

  function Suppressed(ds: seq<Decision>): map<Pair, PairStats> {
    var stats := StatsOf(ds);
    map pair | pair in stats && Vetoed(stats[pair]) :: stats[pair]
  }

  method SuppressedPairs(ds: seq<Decision>) returns (vetoes: map<Pair, PairStats>)
    ensures vetoes == Suppressed(ds)
  {
    var stats: map<Pair, PairStats> := map[];
    for i := 0 to |ds|
      invariant stats == StatsOf(ds[..i])
    {
      assert ds[..i + 1][..i] == ds[..i];
      stats := AddDecision(stats, ds[i]);
    }
    assert ds[..|ds|] == ds;
    vetoes := map pair | pair in stats && Vetoed(stats[pair]) :: stats[pair];
  }

  /** How often people ruled `outcome` on this kind of proposal to this kind of sender. */
  function Count(ds: seq<Decision>, pair: Pair, outcome: Outcome): nat {
    if ds == [] then 0
    else
      var d := ds[|ds| - 1];
      Count(ds[..|ds| - 1], pair, outcome) + if (d.kind, d.role) == pair && d.outcome == outcome then 1 else 0
  }

  lemma {:induction false} StatsAreCounts(ds: seq<Decision>, pair: Pair)
    ensures
      var c := PairStats(Count(ds, pair, Approved), Count(ds, pair, Edited), Count(ds, pair, Declined));
      if pair in StatsOf(ds) then StatsOf(ds)[pair] == c else c == PairStats(0, 0, 0)
  {
    if ds != [] {
      StatsAreCounts(ds[..|ds| - 1], pair);
    }
  }

  /** A pair is vetoed exactly when the window holds enough rulings and enough rejections of it. */
  lemma VetoIsClearEvidence(ds: seq<Decision>, pair: Pair)
    ensures
      var rejected := Count(ds, pair, Declined);
      var total := Count(ds, pair, Approved) + Count(ds, pair, Edited) + rejected;
      && (pair in Suppressed(ds) <==> total >= 3 && 10 * rejected >= 8 * total)
      && (pair in Suppressed(ds) ==> Suppressed(ds)[pair].rejected == rejected && Suppressed(ds)[pair].Total() == total)
  {
    StatsAreCounts(ds, pair);
  }

  // -- examples -------------------------------------------------------------------------

  datatype Example = Example(subject: string, body: string)

  function BodyOf(d: Decision): string { Strip(d.content.GetOr("")) }

  predicate Usable(d: Decision, kind: ActionType) {
    d.kind == kind && (d.outcome.Approved? || d.outcome.Edited?) && BodyOf(d) != ""
  }

  function Candidates(ds: seq<Decision>, kind: ActionType): seq<Decision> {
    if ds == [] then []
    else (if Usable(ds[0], kind) then [ds[0]] else []) + Candidates(ds[1..], kind)
  }

  predicate EditedFirst(a: Decision, b: Decision) { a.outcome.Edited? && !b.outcome.Edited? }

  function Examples(ds: seq<Decision>): seq<Example> {
    if ds == [] then [] else [Example(ds[0].subject, BodyOf(ds[0]))] + Examples(ds[1..])
  }

  /** Up to three accepted drafts, edited ones first, newest first within each group. */
  function FewShotExamples(ds: seq<Decision>, kind: ActionType): seq<Example> {
    Examples(Take(StableSort(EditedFirst, Candidates(ds, kind)), 3))
  }

  function EditedOnes(ds: seq<Decision>): seq<Decision> { Filter((d: Decision) => d.outcome.Edited?, ds) }

  function PlainOnes(ds: seq<Decision>): seq<Decision> { Filter((d: Decision) => !d.outcome.Edited?, ds) }

  lemma {:induction false} GroupsPartition(ds: seq<Decision>)
    requires Ordered(EditedFirst, ds)
    ensures ds == EditedOnes(ds) + PlainOnes(ds)
  {
    if ds != [] {
      var first, rest := ds[0], ds[1..];
      assert forall i :: 0 <= i < |rest| ==> rest[i] == ds[i + 1];
      GroupsPartition(rest);
      if !first.outcome.Edited? {
        if EditedOnes(rest) != [] {
          var d := EditedOnes(rest)[0];
          FilterMember((d: Decision) => d.outcome.Edited?, rest, d);
        }
      }
    }
  }

  /** The examples are a prefix of: every edited draft, then every approved one, both newest first. */
  lemma ExamplesPreferEdits(ds: seq<Decision>, kind: ActionType)
    ensures
      var c := Candidates(ds, kind);
      FewShotExamples(ds, kind) == Examples(Take(EditedOnes(c) + PlainOnes(c), 3))
  {
    var c := Candidates(ds, kind);
    var sorted := StableSort(EditedFirst, c);
    SortIsOrdered(EditedFirst, c);
    SortIsStable(EditedFirst, c, (d: Decision) => d.outcome.Edited?);
    SortIsStable(EditedFirst, c, (d: Decision) => !d.outcome.Edited?);
    GroupsPartition(sorted);
  }

  /** The candidates are the drafts people let out, with words, and no others. */
  lemma {:induction false} CandidatesWereLetOut(ds: seq<Decision>, kind: ActionType, d: Decision)
    ensures d in Candidates(ds, kind) <==>
      d in ds && d.kind == kind && (d.outcome == Approved || d.outcome == Edited) && Strip(d.content.GetOr("")) != ""
  {
    if ds != [] {
      CandidatesWereLetOut(ds[1..], kind, d);
    }
  }
}
