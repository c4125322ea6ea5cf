// From a person's rulings to a veto: what the rows of any run teach, end to end.
module Vetoes {
  import opened Prelude
  import opened Text
  import opened Mail
  import opened Pipeline
  import opened Sorting
  import opened IsoTime
  import opened Learning
  import opened Tables
  import opened Sync
  import opened Uniqueness
  import opened Rulings
  import opened Filings
  import opened Runs

  // -- counting rulings row by row ------------------------------------------------------------------

  /** A held action of this kind on mail from this kind of sender. */
  predicate OfPair(row: ActionRow, messages: seq<MessageRow>, pair: Pair) {
    row.requiresApproval && row.messageId < |messages| && (row.kind, messages[row.messageId].senderRole) == pair
  }

  /** How many held actions of the pair ended in this status. */
  function Ended(rows: seq<ActionRow>, messages: seq<MessageRow>, pair: Pair, status: Status): nat {
    |Filter((row: ActionRow) => OfPair(row, messages, pair) && row.status == status, rows)|
  }

  /** A person ruled on this action. */
  predicate RuledOn(rows: seq<ActionRow>, messages: seq<MessageRow>, i: nat) {
    && i < |rows| && rows[i].requiresApproval && rows[i].messageId < |messages|
    && (rows[i].status.Rejected? || rows[i].status.Executed?)
  }

  /** The other rulings made no earlier than the one on row `i`. */
  function NoEarlier(rows: seq<ActionRow>, messages: seq<MessageRow>, i: nat): set<nat> {
    set j: nat | j < |rows| && j != i && RuledOn(rows, messages, j) && NoOlder(rows[j].decidedAt, DecidedAt(rows, i))
  }

  /** Each ruling on the pair is among the newest two hundred. */
  predicate InWindow(rows: seq<ActionRow>, messages: seq<MessageRow>, pair: Pair) {
    forall i :: 0 <= i < |rows| && RuledOn(rows, messages, i) && OfPair(rows[i], messages, pair) ==>
      |NoEarlier(rows, messages, i)| < DECISION_WINDOW
  }

  /** While people have ruled no more than two hundred times, every ruling is in the window. */
  lemma FewRulingsAreInWindow(rows: seq<ActionRow>, messages: seq<MessageRow>, pair: Pair)
    ensures
      var ruled := set j: nat | j < |rows| && RuledOn(rows, messages, j);
      |ruled| <= DECISION_WINDOW ==> InWindow(rows, messages, pair)
  {
    var ruled := set j: nat | j < |rows| && RuledOn(rows, messages, j);
    forall i | 0 <= i < |rows| && RuledOn(rows, messages, i) && OfPair(rows[i], messages, pair)
      ensures |NoEarlier(rows, messages, i)| < |ruled|
    {
      SubsetIsNoLarger(NoEarlier(rows, messages, i), ruled - {i});
    }
  }

  // -- the window counts them --------------------------------------------------------------------------

  /** The listed rows of the pair with this outcome. */
  function CountIds(
      ids: seq<nat>, rows: seq<ActionRow>, messages: seq<MessageRow>, pair: Pair, outcome: Outcome): nat {
    if ids == [] then 0
    else One(Was(ids[0], rows, messages, pair, outcome)) + CountIds(ids[1..], rows, messages, pair, outcome)
  }

  predicate Was(i: nat, rows: seq<ActionRow>, messages: seq<MessageRow>, pair: Pair, outcome: Outcome) {
    && IsDecided(i, rows, messages) && rows[i].outcome == Some(outcome)
    && (rows[i].kind, messages[rows[i].messageId].senderRole) == pair
  }

  lemma {:induction false} CountCons(d: Decision, ds: seq<Decision>, pair: Pair, outcome: Outcome)
    ensures Count([d] + ds, pair, outcome) ==
      One((d.kind, d.role) == pair && d.outcome == outcome) + Count(ds, pair, outcome)
  {
    if ds != [] {
      assert ([d] + ds)[..|ds|] == [d] + ds[..|ds| - 1];
      CountCons(d, ds[..|ds| - 1], pair, outcome);
    }
  }

  lemma {:induction false} JoinCounts(
      ids: seq<nat>, rows: seq<ActionRow>, messages: seq<MessageRow>, pair: Pair, outcome: Outcome)
    requires forall i: nat :: i in ids ==> IsDecided(i, rows, messages)
    ensures Count(Join(ids, rows, messages), pair, outcome) == CountIds(ids, rows, messages, pair, outcome)
  {
    if ids != [] {
      var joined := Join(ids, rows, messages);
      JoinCounts(ids[1..], rows, messages, pair, outcome);
      CountCons(joined[0], joined[1..], pair, outcome);
      assert joined == [joined[0]] + joined[1..];
    }
  }

  lemma {:induction false} CountIdsConcat(
      a: seq<nat>, b: seq<nat>, rows: seq<ActionRow>, messages: seq<MessageRow>, pair: Pair, outcome: Outcome)
    ensures CountIds(a + b, rows, messages, pair, outcome) ==
      CountIds(a, rows, messages, pair, outcome) + CountIds(b, rows, messages, pair, outcome)
  {
    if a == [] {
      assert a + b == b;
    } else {
      assert (a + b)[1..] == a[1..] + b;
      CountIdsConcat(a[1..], b, rows, messages, pair, outcome);
    }
  }

  lemma {:induction false} InsertCounts(
      before: (nat, nat) -> bool, x: nat, s: seq<nat>, rows: seq<ActionRow>, messages: seq<MessageRow>, pair: Pair,
      outcome: Outcome)
    ensures CountIds(Insert(before, x, s), rows, messages, pair, outcome) ==
      One(Was(x, rows, messages, pair, outcome)) + CountIds(s, rows, messages, pair, outcome)
  {
    if s == [] || !before(s[0], x) {
    } else {
      InsertCounts(before, x, s[1..], rows, messages, pair, outcome);
    }
  }

  lemma {:induction false} SortCounts(
      before: (nat, nat) -> bool, s: seq<nat>, rows: seq<ActionRow>, messages: seq<MessageRow>, pair: Pair,
      outcome: Outcome)
    ensures CountIds(StableSort(before, s), rows, messages, pair, outcome) ==
      CountIds(s, rows, messages, pair, outcome)
  {
    if s != [] {
      SortCounts(before, s[1..], rows, messages, pair, outcome);
      InsertCounts(before, s[0], StableSort(before, s[1..]), rows, messages, pair, outcome);
    }
  }

  lemma {:induction false} NoneCounted(
      ids: seq<nat>, rows: seq<ActionRow>, messages: seq<MessageRow>, pair: Pair, outcome: Outcome)
    requires forall k :: 0 <= k < |ids| ==> !Was(ids[k], rows, messages, pair, outcome)
    ensures CountIds(ids, rows, messages, pair, outcome) == 0
  {
    if ids != [] {
      NoneCounted(ids[1..], rows, messages, pair, outcome);
    }
  }

  /** The rows of the pair with this outcome. */
  function RulingCount(rows: seq<ActionRow>, messages: seq<MessageRow>, pair: Pair, outcome: Outcome): nat {
    |Filter((row: ActionRow) => Rules(row, messages, pair, outcome), rows)|
  }

  predicate Rules(row: ActionRow, messages: seq<MessageRow>, pair: Pair, outcome: Outcome) {
    && Decided(row, messages) && row.outcome == Some(outcome)
    && (row.kind, messages[row.messageId].senderRole) == pair
  }

  lemma {:induction false} DecidedIdsCount(
      rows: seq<ActionRow>, n: nat, messages: seq<MessageRow>, pair: Pair, outcome: Outcome)
    requires n <= |rows|
    ensures CountIds(DecidedIds(rows[..n], messages), rows, messages, pair, outcome) ==
      RulingCount(rows[..n], messages, pair, outcome)
  {
    if n > 0 {
      var row, before := rows[n - 1], rows[..n - 1];
      DecidedIdsCount(rows, n - 1, messages, pair, outcome);
      assert rows[..n] == before + [row];
      RulingCountGrows(before, row, messages, pair, outcome);
      DecidedIdsGrow(before, row, messages);
      OneMoreCounts(DecidedIds(before, messages), rows, n - 1, messages, pair, outcome);
    }
  }

  lemma RulingCountGrows(
      rows: seq<ActionRow>, row: ActionRow, messages: seq<MessageRow>, pair: Pair, outcome: Outcome)
    ensures RulingCount(rows + [row], messages, pair, outcome) ==
      RulingCount(rows, messages, pair, outcome) + One(Rules(row, messages, pair, outcome))
  {
    FilterGrows((row: ActionRow) => Rules(row, messages, pair, outcome), rows, row);
  }

  lemma DecidedIdsGrow(rows: seq<ActionRow>, row: ActionRow, messages: seq<MessageRow>)
    ensures DecidedIds(rows + [row], messages) ==
      DecidedIds(rows, messages) + if Decided(row, messages) then [|rows|] else []
  {
    assert (rows + [row])[..|rows|] == rows;
  }

  lemma OneMoreCounts(
      ids: seq<nat>, rows: seq<ActionRow>, i: nat, messages: seq<MessageRow>, pair: Pair, outcome: Outcome)
    requires i < |rows|
    ensures
      CountIds(ids + if Decided(rows[i], messages) then [i] else [], rows, messages, pair, outcome) ==
        CountIds(ids, rows, messages, pair, outcome) + One(Rules(rows[i], messages, pair, outcome))
  {
    CountIdsConcat(ids, if Decided(rows[i], messages) then [i] else [], rows, messages, pair, outcome);
  }

  function IdSet(ids: seq<nat>): set<nat> { set i | i in ids }

  lemma {:induction false} DistinctIdsAreCounted(ids: seq<nat>)
    requires NoDuplicates(ids)
    ensures |IdSet(ids)| == |ids|
  {
    if ids != [] {
      var n := |ids| - 1;
      DistinctIdsAreCounted(ids[..n]);
      assert ids == ids[..n] + [ids[n]] && ids[n] !in ids[..n];
      assert IdSet(ids) == IdSet(ids[..n]) + {ids[n]};
    }
  }

  /** A ruling with fewer than two hundred others no earlier is in the window. */
  lemma RecentIsInWindow(rows: seq<ActionRow>, messages: seq<MessageRow>, i: nat)
    requires RowsSound(rows) && RuledOn(rows, messages, i) && |NoEarlier(rows, messages, i)| < DECISION_WINDOW
    ensures i in NewestDecided(rows, messages)
  {
    var ids := NewestDecided(rows, messages);
    NewestDecidedIsNewest(rows, messages);
    assert RowSound(rows[i]) && IsDecided(i, rows, messages);
    if i !in ids {
      forall k: nat | k in ids ensures k in NoEarlier(rows, messages, i) {
        assert IsDecided(k, rows, messages) && RowSound(rows[k]);
        var n :| 0 <= n < |ids| && ids[n] == k;
      }
      DistinctIdsAreCounted(ids);
      SubsetIsNoLarger(IdSet(ids), NoEarlier(rows, messages, i));
    }
  }

  lemma {:induction false} SubsetIsNoLarger(a: set<nat>, b: set<nat>)
    requires a <= b
    ensures |a| <= |b|
  {
    if a != {} {
      var x :| x in a;
      SubsetIsNoLarger(a - {x}, b - {x});
    }
  }

  /** No ruling on the pair is left out of the window. */
  lemma LeftOutIsNotOfPair(
      rows: seq<ActionRow>, messages: seq<MessageRow>, pair: Pair, outcome: Outcome, i: nat)
    requires RowsSound(rows) && InWindow(rows, messages, pair) && i !in NewestDecided(rows, messages)
    ensures !Was(i, rows, messages, pair, outcome)
  {
    if Was(i, rows, messages, pair, outcome) {
      assert RowSound(rows[i]);
      RecentIsInWindow(rows, messages, i);
    }
  }

  /** What the window leaves out of the sorted rulings. */
  lemma WindowIsPrefix(rows: seq<ActionRow>, messages: seq<MessageRow>) returns (rest: seq<nat>)
    ensures StableSort(LaterIn(rows), DecidedIds(rows, messages)) == NewestDecided(rows, messages) + rest
    ensures forall k :: 0 <= k < |rest| ==> rest[k] !in NewestDecided(rows, messages)
  {
    var all, ids := DecidedIds(rows, messages), NewestDecided(rows, messages);
    var sorted := StableSort(LaterIn(rows), all);
    SortedIdsStayDistinct(LaterIn(rows), all);
    rest := sorted[|ids|..];
    assert sorted == ids + rest;
    forall k | 0 <= k < |rest| ensures rest[k] !in ids {
      assert forall n :: 0 <= n < |ids| ==> ids[n] == sorted[n] && sorted[n] != sorted[|ids| + k];
      assert rest[k] == sorted[|ids| + k];
    }
  }

  /** The window's counts are the tables' counts. */
  lemma WindowCounts(rows: seq<ActionRow>, messages: seq<MessageRow>, pair: Pair, outcome: Outcome)
    requires RowsSound(rows) && InWindow(rows, messages, pair)
    ensures Count(ListDecided(rows, messages), pair, outcome) == RulingCount(rows, messages, pair, outcome)
  {
    var all, ids := DecidedIds(rows, messages), NewestDecided(rows, messages);
    var rest := WindowIsPrefix(rows, messages);
    forall k | 0 <= k < |rest| ensures !Was(rest[k], rows, messages, pair, outcome) {
      LeftOutIsNotOfPair(rows, messages, pair, outcome, rest[k]);
    }
    JoinCounts(ids, rows, messages, pair, outcome);
    NoneCounted(rest, rows, messages, pair, outcome);
    CountIdsConcat(ids, rest, rows, messages, pair, outcome);
    SortCounts(LaterIn(rows), all, rows, messages, pair, outcome);
    DecidedIdsCount(rows, |rows|, messages, pair, outcome);
    assert rows[..|rows|] == rows;
  }

  /** Outcomes and statuses count the same rows. */
  lemma {:induction false} OutcomesAreStatuses(rows: seq<ActionRow>, messages: seq<MessageRow>, pair: Pair)
    requires RowsSound(rows)
    ensures RulingCount(rows, messages, pair, Declined) == Ended(rows, messages, pair, Rejected)
    ensures RulingCount(rows, messages, pair, Approved) + RulingCount(rows, messages, pair, Edited) ==
      Ended(rows, messages, pair, Executed)
  {
    if rows != [] {
      var row, rest := rows[0], rows[1..];
      assert RowSound(row);
      assert forall i :: 0 <= i < |rest| ==> rest[i] == rows[i + 1];
      OutcomesAreStatuses(rest, messages, pair);
      assert Rules(row, messages, pair, Declined) <==> OfPair(row, messages, pair) && row.status == Rejected;
      assert Rules(row, messages, pair, Approved) || Rules(row, messages, pair, Edited) <==>
             OfPair(row, messages, pair) && row.status == Executed;
      assert !(Rules(row, messages, pair, Approved) && Rules(row, messages, pair, Edited));
    }
  }

  // -- from rulings to vetoes ---------------------------------------------------------------------------

  /** At least three rulings on the pair, at least four fifths of them rejections. */
  predicate MostlyRejected(rows: seq<ActionRow>, messages: seq<MessageRow>, pair: Pair) {
    var rejected := Ended(rows, messages, pair, Rejected);
    var ruled := rejected + Ended(rows, messages, pair, Executed);
    ruled >= 3 && 10 * rejected >= 8 * ruled
  }

  lemma VetoFollowsRulings(rows: seq<ActionRow>, messages: seq<MessageRow>, pair: Pair)
    requires RowsSound(rows)
    ensures InWindow(rows, messages, pair) ==>
      (pair in Suppressed(ListDecided(rows, messages)) <==> MostlyRejected(rows, messages, pair))
  {
    if InWindow(rows, messages, pair) {
      VetoIsClearEvidence(ListDecided(rows, messages), pair);
      WindowCounts(rows, messages, pair, Declined);
      WindowCounts(rows, messages, pair, Approved);
      WindowCounts(rows, messages, pair, Edited);
      OutcomesAreStatuses(rows, messages, pair);
    }
  }

  /**
   * In every reachable state, a pair whose rulings are all recent enough is vetoed
   * exactly when people ruled on it three times or more and rejected at least four
   * fifths: counted from what happened to the held actions themselves.
   */
  lemma EveryRunVetoesRejected(steps: seq<Step>, pair: Pair)
    requires AllPossible(steps)
    ensures
      var store := RunAll(EMPTY, steps).store;
      InWindow(store.actions, store.messages, pair) ==>
        (pair in Suppressed(ListDecided(store.actions, store.messages)) <==>
           MostlyRejected(store.actions, store.messages, pair))
  {
    RunsKeepRows(EMPTY, steps);
    var store := RunAll(EMPTY, steps).store;
    VetoFollowsRulings(store.actions, store.messages, pair);
  }

  // -- from vetoes to the queue --------------------------------------------------------------------------

  lemma FiledUnderVeto(
      row: ActionRow, p: Proposal, setting: Setting, messages: seq<MessageRow>, inp: SyncInput, account: string,
      pair: Pair)
    requires FiledFor(row, p, setting) && RowIsFor(messages, row.messageId, p.emailId, inp, account)
    requires setting.emails == Emails(inp, account) && pair in setting.vetoes
    ensures !OfPair(row, messages, pair)
  {
  }

  lemma SettingHasVetoes(store: Store, account: string, inp: SyncInput, writer: Writer, shelf: Shelf)
    requires ValidInstant(writer.clock)
    ensures
      var setting := Prepare(store, account, inp, writer, shelf).1;
      && setting.emails == Emails(inp, account)
      && setting.vetoes == Suppressed(ListDecided(store.actions, store.messages))
  {
  }

  lemma VetoedIsNotHeld(
      store: Store, account: string, inp: SyncInput, writer: Writer, shelf: Shelf, pair: Pair, k: nat)
    requires ValidInstant(writer.clock) && pair in Suppressed(ListDecided(store.actions, store.messages))
    ensures
      var after := SyncOnce(store, account, inp, writer, shelf).store;
      |store.actions| <= k < |after.actions| ==> !OfPair(after.actions[k], after.messages, pair)
  {
    var after := SyncOnce(store, account, inp, writer, shelf).store;
    if |store.actions| <= k < |after.actions| {
      var p := NewRowIsFiled(store, account, inp, writer, shelf, k);
      SettingHasVetoes(store, account, inp, writer, shelf);
      FiledUnderVeto(after.actions[k], p, Prepare(store, account, inp, writer, shelf).1, after.messages, inp, account,
        pair);
    }
  }

  /**
   * People are not asked again for what they keep rejecting: after any run, a sync
   * holds nothing of a kind, on mail from a kind of sender, that they mostly rejected.
   */
  lemma MostlyRejectedIsNotHeld(steps: seq<Step>, account: string, inp: SyncInput, writer: Writer, pair: Pair, k: nat)
    requires AllPossible(steps) && ValidInstant(writer.clock)
    ensures
      var w := RunAll(EMPTY, steps);
      var after := SyncOnce(w.store, account, inp, writer, w.shelf).store;
      (InWindow(w.store.actions, w.store.messages, pair) && MostlyRejected(w.store.actions, w.store.messages, pair)
       && |w.store.actions| <= k < |after.actions|) ==> !OfPair(after.actions[k], after.messages, pair)
  {
    EveryRunVetoesRejected(steps, pair);
    var w := RunAll(EMPTY, steps);
    if InWindow(w.store.actions, w.store.messages, pair)
       && MostlyRejected(w.store.actions, w.store.messages, pair) {
      VetoedIsNotHeld(w.store, account, inp, writer, w.shelf, pair, k);
    }
  }

  /**
   * A sync vetoes by the rulings made before it began and, when the model is live,
   * drafts a reply or an escalation with the examples those rulings give.
   */
  lemma SyncLearnsFromRulings(
      store: Store, account: string, inp: SyncInput, writer: Writer, shelf: Shelf, kind: ActionType)
    requires ValidInstant(writer.clock) && (kind.Reply? || kind.Escalate?)
    ensures
      var (start, setting, _) := Prepare(store, account, inp, writer, shelf);
      && setting.vetoes == Suppressed(ListDecided(store.actions, store.messages))
      && ExamplesFor(setting, kind) ==
         if writer.live then FewShotExamples(ListDecided(store.actions, start.store.messages), kind) else []
  {
    PreparedSetting(store, account, inp, writer, shelf);
    SettingHasVetoes(store, account, inp, writer, shelf);
    SettingHasExamples(store, account, inp, writer, shelf);
    ExamplesByKind(store.actions, Prepare(store, account, inp, writer, shelf).0.store.messages, kind);
  }

  lemma SettingHasExamples(store: Store, account: string, inp: SyncInput, writer: Writer, shelf: Shelf)
    requires ValidInstant(writer.clock)
    ensures
      var (start, setting, _) := Prepare(store, account, inp, writer, shelf);
      setting.examples == ExamplesFrom(start.store.actions, start.store.messages) && setting.writer == writer
  {
  }

  lemma ExamplesByKind(rows: seq<ActionRow>, messages: seq<MessageRow>, kind: ActionType)
    requires kind.Reply? || kind.Escalate?
    ensures kind in ExamplesFrom(rows, messages)
    ensures ExamplesFrom(rows, messages)[kind] == FewShotExamples(ListDecided(rows, messages), kind)
  {
  }

  // -- examples -----------------------------------------------------------------------------------------

  /** The row a ruling in the window was made on. */
  lemma {:induction false} JoinedFromRow(
      ids: seq<nat>, rows: seq<ActionRow>, messages: seq<MessageRow>, d: Decision) returns (i: nat)
    requires (forall i: nat :: i in ids ==> IsDecided(i, rows, messages)) && d in Join(ids, rows, messages)
    ensures IsDecided(i, rows, messages) && d.kind == rows[i].kind && d.outcome == rows[i].outcome.value
    ensures d.content == rows[i].content && d.subject == messages[rows[i].messageId].subject
  {
    if d == Join(ids, rows, messages)[0] {
      assert ids[0] in ids;
      i := ids[0];
    } else {
      i := JoinedFromRow(ids[1..], rows, messages, d);
    }
  }

  lemma {:induction false} ExampleIsDecision(ds: seq<Decision>, e: Example) returns (d: Decision)
    requires e in Examples(ds)
    ensures d in ds && e == Example(d.subject, BodyOf(d))
  {
    if e == Example(ds[0].subject, BodyOf(ds[0])) {
      d := ds[0];
    } else {
      d := ExampleIsDecision(ds[1..], e);
    }
  }

  /** The held action an example was taken from: sent, of this kind, with these words. */
  predicate WasSent(row: ActionRow, messages: seq<MessageRow>, kind: ActionType, e: Example) {
    && row.requiresApproval && row.status.Executed? && row.kind == kind
    && row.messageId < |messages| && messages[row.messageId].subject == e.subject
    && Strip(row.content.GetOr("")) == e.body && e.body != ""
  }

  /** Only words people let out become examples: after any run, each one is the text of an action that was sent. */
  lemma EveryRunLearnsFromSent(steps: seq<Step>, kind: ActionType, e: Example)
    requires AllPossible(steps)
    ensures
      var store := RunAll(EMPTY, steps).store;
      e in FewShotExamples(ListDecided(store.actions, store.messages), kind) ==>
        exists row :: row in store.actions && WasSent(row, store.messages, kind, e)
  {
    RunsKeepRows(EMPTY, steps);
    var store := RunAll(EMPTY, steps).store;
    var ds := ListDecided(store.actions, store.messages);
    if e in FewShotExamples(ds, kind) {
      var sorted := StableSort(EditedFirst, Candidates(ds, kind));
      var d := ExampleIsDecision(Take(sorted, 3), e);
      assert d in sorted;
      SortMembers(EditedFirst, Candidates(ds, kind), d);
      CandidatesWereLetOut(ds, kind, d);
      var i := JoinedFromRow(NewestDecided(store.actions, store.messages), store.actions, store.messages, d);
      assert RowSound(store.actions[i]) && WasSent(store.actions[i], store.messages, kind, e);
    }
  }
}
