// Invented figures stay in sight: over any run, the row of a held draft goes on
// showing a finding for each figure that the message it answers never states.
module Inventions {
  import opened Mail
  import opened Rubric
  import opened Drafting
  import opened Tables
  import opened Sync
  import opened Review
  import opened IsoTime
  import opened Pipeline
  import opened Uniqueness
  import opened Rulings
  import opened Filings
  import opened Resync
  import opened Runs

  /** Each figure of the draft that the message never states is shown as a claim. */
  ghost predicate ShowsInventions(row: ActionRow, m: FetchedMessage) {
    Truthy(DraftOf(row)) ==>
      forall n :: n in Numbers(DraftOf(row).value) && n !in Numbers(SourceText(SourceOf(m))) ==>
        exists f :: f in row.prose.claims && AboutFigure(f, n)
  }

  /** Row `i` holds a draft that was checked against a message with its provider id. */
  ghost predicate CheckedAgainst(store: Store, i: nat, m: FetchedMessage) {
    && i < |store.actions| && store.actions[i].messageId < |store.messages|
    && store.messages[store.actions[i].messageId].providerId == m.providerId
    && ShowsInventions(store.actions[i], m)
  }

  /** What decides whether inventions show stays as it was. */
  predicate SameDraft(a: ActionRow, b: ActionRow) {
    a.messageId == b.messageId && a.requiresApproval == b.requiresApproval && DraftOf(a) == DraftOf(b)
      && a.prose == b.prose
  }

  /** Every row of `before` is still there, with its draft, about the same message. */
  predicate KeepsDrafts(before: Store, after: Store) {
    && |before.actions| <= |after.actions|
    && (forall i :: 0 <= i < |before.actions| ==> SameDraft(before.actions[i], after.actions[i]))
    && |before.messages| <= |after.messages|
    && (forall j :: 0 <= j < |before.messages| ==> after.messages[j].providerId == before.messages[j].providerId)
  }

  lemma KeepsDraftsTransitive(a: Store, b: Store, c: Store)
    requires KeepsDrafts(a, b) && KeepsDrafts(b, c)
    ensures KeepsDrafts(a, c)
  {
  }

  lemma RetryOneKeepsDrafts(store: Store, id: nat, r: Retry)
    requires id < |store.actions|
    ensures KeepsDrafts(store, RetryOne(store, id, r).0)
  {
  }

  lemma {:induction false} RetryAllKeepsDrafts(store: Store, ids: seq<nat>, r: Retry)
    requires InTable(ids, |store.actions|)
    ensures KeepsDrafts(store, RetryAll(store, ids, r).0)
  {
    if ids != [] {
      var init := ids[..|ids| - 1];
      RetryAllKeepsDrafts(store, init, r);
      RetryOneKeepsDrafts(RetryAll(store, init, r).0, ids[|ids| - 1], r);
      KeepsDraftsTransitive(store, RetryAll(store, init, r).0, RetryAll(store, ids, r).0);
    }
  }

  lemma ApproveKeepsDrafts(store: Store, a: Approval)
    requires RowsSound(store.actions)
    ensures ApproveSpec(store, a).Ok? ==> KeepsDrafts(store, ApproveSpec(store, a).value)
  {
    if ApproveSpec(store, a).Ok? {
      assert RowSound(store.actions[a.actionId]);
    }
  }

  lemma RejectKeepsDrafts(store: Store, userId: string, id: nat, now: int)
    requires RowsSound(store.actions)
    ensures RejectSpec(store, userId, id, now).Ok? ==> KeepsDrafts(store, RejectSpec(store, userId, id, now).value)
  {
    if RejectSpec(store, userId, id, now).Ok? {
      assert RowSound(store.actions[id]);
    }
  }

  lemma SyncKeepsDrafts(store: Store, account: string, inp: SyncInput, writer: Writer, shelf: Shelf)
    requires ValidInstant(writer.clock)
    ensures KeepsDrafts(store, SyncOnce(store, account, inp, writer, shelf).store)
  {
    SyncFilesWhatIsProposed(store, account, inp, writer, shelf);
    SyncKeepsMail(store, account, inp, writer, shelf);
    PersistNamesRows(store.messages, inp.connection, inp.fetched, Emails(inp, account));
  }

  lemma StepKeepsDrafts(w: World, s: Step)
    requires RowsSound(w.store.actions) && Possible(s)
    ensures KeepsDrafts(w.store, Apply(w, s).store)
  {
    match s
    case SyncStep(inp, writer) =>
      if inp.connection in w.store.connections {
        SyncKeepsDrafts(w.store, w.store.connections[inp.connection], inp, writer, w.shelf);
      }
    case ApproveStep(a) => ApproveKeepsDrafts(w.store, a);
    case RejectStep(userId, id, at) => RejectKeepsDrafts(w.store, userId, id, at);
    case RetryStep(r) =>
      ListedAreInTable(w.store.actions, r.maxRetries);
      RetryAllKeepsDrafts(w.store, ListFailedSends(w.store.actions, r.maxRetries), r);
    case _ =>
  }

  lemma DraftStaysChecked(before: Store, after: Store, i: nat, m: FetchedMessage)
    requires KeepsDrafts(before, after) && CheckedAgainst(before, i, m)
    ensures CheckedAgainst(after, i, m)
  {
    assert SameDraft(before.actions[i], after.actions[i]);
  }

  /** A row a sync has just held was checked against one of the messages it fetched. */
  lemma NewHeldIsChecked(store: Store, account: string, inp: SyncInput, writer: Writer, shelf: Shelf, i: nat)
      returns (m: FetchedMessage)
    requires ValidInstant(writer.clock)
    requires |store.actions| <= i < |SyncOnce(store, account, inp, writer, shelf).store.actions|
    requires SyncOnce(store, account, inp, writer, shelf).store.actions[i].requiresApproval
    ensures m in inp.fetched && CheckedAgainst(SyncOnce(store, account, inp, writer, shelf).store, i, m)
  {
    var p := NewRowIsFiled(store, account, inp, writer, shelf, i);
    m := HeldRowMessage(SyncOnce(store, account, inp, writer, shelf).store.actions[i], p, inp.fetched,
                        Prepare(store, account, inp, writer, shelf).1);
  }

  lemma HeldRowMessage(row: ActionRow, p: Proposal, fetched: seq<FetchedMessage>, setting: Setting)
      returns (m: FetchedMessage)
    requires FiledFor(row, p, setting) && row.requiresApproval && fetched == setting.inp.fetched
    ensures m in fetched && m.providerId == p.emailId && ShowsInventions(row, m)
  {
    assert HeldFor(row, p, fetched);
    m :| m in fetched && m.providerId == p.emailId && FreshlyChecked(row.content, row.prose, m);
  }

  /** One of the syncs of the run fetched this message. */
  predicate WasFetched(steps: seq<Step>, m: FetchedMessage) {
    exists k :: 0 <= k < |steps| && steps[k].SyncStep? && m in steps[k].inp.fetched
  }

  lemma StepChecksHeld(w: World, s: Step, i: nat) returns (m: FetchedMessage)
    requires RowsSound(w.store.actions) && Possible(s)
    requires |w.store.actions| <= i < |Apply(w, s).store.actions| && Apply(w, s).store.actions[i].requiresApproval
    ensures s.SyncStep? && m in s.inp.fetched && CheckedAgainst(Apply(w, s).store, i, m)
  {
    StepAddsOnlyBySync(w, s);
    m := NewHeldIsChecked(w.store, w.store.connections[s.inp.connection], s.inp, s.writer, w.shelf, i);
  }

  lemma StepAddsOnlyBySync(w: World, s: Step)
    requires Possible(s) && |Apply(w, s).store.actions| > |w.store.actions|
    ensures s.SyncStep? && s.inp.planActive && s.inp.connection in w.store.connections
  {
    if s.RetryStep? {
      ListedAreInTable(w.store.actions, s.retry.maxRetries);
    }
  }

  /**
   * No figure is slipped past a person. In every reachable state, each held action is
   * about a message some sync fetched, and its row shows a finding for each figure of
   * its draft which that message never states; decisions, edits and retries hide none.
   */
  lemma {:induction false} EveryRunShowsInventions(steps: seq<Step>, i: nat)
    requires AllPossible(steps)
    ensures
      var store := RunAll(EMPTY, steps).store;
      i < |store.actions| && store.actions[i].requiresApproval ==>
        exists m :: WasFetched(steps, m) && CheckedAgainst(store, i, m)
  {
    if steps != [] {
      var init, s := steps[..|steps| - 1], steps[|steps| - 1];
      var before, after := RunAll(EMPTY, init), RunAll(EMPTY, steps);
      RunsKeepRows(EMPTY, init);
      StepKeepsDrafts(before, s);
      if i < |before.store.actions| {
        EveryRunShowsInventions(init, i);
        if before.store.actions[i].requiresApproval {
          var m :| WasFetched(init, m) && CheckedAgainst(before.store, i, m);
          DraftStaysChecked(before.store, after.store, i, m);
          assert WasFetched(steps, m);
        }
      } else if i < |after.store.actions| && after.store.actions[i].requiresApproval {
        var m := StepChecksHeld(before, s, i);
        assert WasFetched(steps, m);
      }
    }
  }
}
