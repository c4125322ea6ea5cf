// Counting every live action, retried ones included: exactly which retry passes
// can leave two on one message, told from the tables before the pass.
module Clashes {
  import opened Prelude
  import opened Mail
  import opened Tables
  import opened Review
  import opened Uniqueness
  import opened Runs

  /** A retry would reach the provider: the mailbox answers and the action stands for a write. */
  predicate Sendable(store: Store, row: ActionRow, r: Retry) {
    RetryRoute(store, row, r).Some? && WriteFor(store, row, store.messages[row.messageId].providerId).Some?
  }

  predicate SameTarget(a: ActionRow, b: ActionRow) { a.messageId == b.messageId && a.kind == b.kind }

  predicate BothSent(store: Store, a: ActionRow, b: ActionRow, r: Retry) {
    Sendable(store, a, r) && Sendable(store, b, r) && SameTarget(a, b)
  }

  /** No action a pass would send has been replaced, and no two of them are for the same message and type. */
  predicate NoClash(store: Store, ids: seq<nat>, r: Retry)
    requires InTable(ids, |store.actions|)
  {
    && (forall k :: 0 <= k < |ids| && Sendable(store, store.actions[ids[k]], r) ==>
          !Active(store.actions, store.actions[ids[k]].messageId, store.actions[ids[k]].kind))
    && (forall j, k :: 0 <= j < k < |ids| ==> !BothSent(store, store.actions[ids[j]], store.actions[ids[k]], r))
  }

  predicate ClashFree(store: Store, r: Retry) {
    ListedAreInTable(store.actions, r.maxRetries);
    NoClash(store, ListFailedSends(store.actions, r.maxRetries), r)
  }

  // -- what a pass adds -------------------------------------------------------------------------------

  /** How many of these actions would be sent for this message and type. */
  function SendCount(store: Store, ids: seq<nat>, r: Retry, m: nat, t: ActionType): nat
    requires InTable(ids, |store.actions|)
  {
    if ids == [] then 0
    else
      var row := store.actions[ids[|ids| - 1]];
      SendCount(store, ids[..|ids| - 1], r, m, t) + if Sendable(store, row, r) && Matches(row, m, t) then 1 else 0
  }

  ghost predicate AlwaysWorks(p: Provider) { forall ws, w :: p(ws, w).ok }

  ghost predicate AllWork(r: Retry) {
    forall c :: r.providers(c).Some? ==> AlwaysWorks(r.providers(c).value)
  }

  lemma RetryOneCounts(store: Store, id: nat, r: Retry, m: nat, t: ActionType)
    requires id < |store.actions| && store.actions[id].status.Failed?
    ensures
      var row, after := store.actions[id], RetryOne(store, id, r).0;
      var sent := if Sendable(store, row, r) && Matches(row, m, t) then 1 else 0;
      && LiveCount(AllTries, after.actions, m, t) <= LiveCount(AllTries, store.actions, m, t) + sent
      && (AllWork(r) ==> LiveCount(AllTries, after.actions, m, t) == LiveCount(AllTries, store.actions, m, t) + sent)
  {
    var row, route := store.actions[id], RetryRoute(store, store.actions[id], r);
    if route.Some? {
      var result := Execute(store, route.value, row, id, store.messages[row.messageId].providerId).0;
      LiveCountUpdate(AllTries, store.actions, id, RetriedRow(row, result, r.now), m, t);
    }
  }

  lemma RetryNextCounts(start: Store, done: (Store, RetryReport), id: nat, r: Retry, m: nat, t: ActionType)
    requires id < |start.actions| == |done.0.actions| && SameRouting(done.0, start)
    requires done.0.actions[id] == start.actions[id] && start.actions[id].status.Failed?
    ensures
      var after, before := LiveCount(AllTries, RetryNext(done, id, r).0.actions, m, t),
        LiveCount(AllTries, done.0.actions, m, t);
      var sent := if Sendable(start, start.actions[id], r) && Matches(start.actions[id], m, t) then 1 else 0;
      after <= before + sent && (AllWork(r) ==> after == before + sent)
  {
    RetryOneCounts(done.0, id, r, m, t);
    assert Sendable(done.0, start.actions[id], r) == Sendable(start, start.actions[id], r);
  }

  lemma {:induction false} RetryAllCounts(store: Store, ids: seq<nat>, r: Retry, m: nat, t: ActionType)
    requires InTable(ids, |store.actions|) && NoDuplicates(ids)
    requires forall k :: 0 <= k < |ids| ==> store.actions[ids[k]].status.Failed?
    ensures
      var after, before := LiveCount(AllTries, RetryAll(store, ids, r).0.actions, m, t),
        LiveCount(AllTries, store.actions, m, t);
      && after <= before + SendCount(store, ids, r, m, t)
      && (AllWork(r) ==> after == before + SendCount(store, ids, r, m, t))
  {
    if ids != [] {
      var init, last := ids[..|ids| - 1], ids[|ids| - 1];
      RetryAllCounts(store, init, r, m, t);
      assert last !in init;
      RetryAllKeepsRouting(store, init, r, last);
      RetryNextCounts(store, RetryAll(store, init, r), last, r, m, t);
    }
  }

  // -- clashes are counts of two ---------------------------------------------------------------------------

  lemma {:induction false} SendCountFinds(store: Store, ids: seq<nat>, r: Retry, m: nat, t: ActionType) returns (k: nat)
    requires InTable(ids, |store.actions|) && SendCount(store, ids, r, m, t) > 0
    ensures k < |ids| && Sendable(store, store.actions[ids[k]], r) && Matches(store.actions[ids[k]], m, t)
  {
    var n := |ids| - 1;
    if Sendable(store, store.actions[ids[n]], r) && Matches(store.actions[ids[n]], m, t) {
      k := n;
    } else {
      k := SendCountFinds(store, ids[..n], r, m, t);
    }
  }

  lemma {:induction false} SendCountSeesOne(store: Store, ids: seq<nat>, r: Retry, m: nat, t: ActionType, k: nat)
    requires InTable(ids, |store.actions|)
    requires k < |ids| && Sendable(store, store.actions[ids[k]], r) && Matches(store.actions[ids[k]], m, t)
    ensures SendCount(store, ids, r, m, t) >= 1
  {
    if k < |ids| - 1 {
      SendCountSeesOne(store, ids[..|ids| - 1], r, m, t, k);
    }
  }

  lemma {:induction false} SendCountSeesTwo(
      store: Store, ids: seq<nat>, r: Retry, m: nat, t: ActionType, j: nat, k: nat)
    requires InTable(ids, |store.actions|) && j < k < |ids|
    requires Sendable(store, store.actions[ids[j]], r) && Matches(store.actions[ids[j]], m, t)
    requires Sendable(store, store.actions[ids[k]], r) && Matches(store.actions[ids[k]], m, t)
    ensures SendCount(store, ids, r, m, t) >= 2
  {
    if k < |ids| - 1 {
      SendCountSeesTwo(store, ids[..|ids| - 1], r, m, t, j, k);
    } else {
      SendCountSeesOne(store, ids[..|ids| - 1], r, m, t, j);
    }
  }

  lemma {:induction false} NoClashSendsOnce(store: Store, ids: seq<nat>, r: Retry, m: nat, t: ActionType)
    requires InTable(ids, |store.actions|) && NoClash(store, ids, r)
    ensures SendCount(store, ids, r, m, t) <= 1
  {
    if ids != [] {
      var n := |ids| - 1;
      var init := ids[..n];
      assert forall k :: 0 <= k < n ==> init[k] == ids[k];
      NoClashSendsOnce(store, init, r, m, t);
      if SendCount(store, init, r, m, t) > 0 {
        var k := SendCountFinds(store, init, r, m, t);
        assert !BothSent(store, store.actions[ids[k]], store.actions[ids[n]], r);
      }
    }
  }

  lemma NoClashKeepsOne(store: Store, ids: seq<nat>, r: Retry, m: nat, t: ActionType)
    requires InTable(ids, |store.actions|) && NoClash(store, ids, r) && UniqueLive(AllTries, store.actions)
    ensures LiveCount(AllTries, store.actions, m, t) + SendCount(store, ids, r, m, t) <= 1
  {
    NoClashSendsOnce(store, ids, r, m, t);
    if SendCount(store, ids, r, m, t) > 0 {
      var k := SendCountFinds(store, ids, r, m, t);
      assert !Active(store.actions, store.actions[ids[k]].messageId, store.actions[ids[k]].kind);
      InactiveHasNoLive(AllTries, store.actions, m, t);
    }
    assert LiveCount(AllTries, store.actions, m, t) <= 1;
  }

  lemma ClashMakesTwo(store: Store, ids: seq<nat>, r: Retry) returns (m: nat, t: ActionType)
    requires InTable(ids, |store.actions|) && !NoClash(store, ids, r)
    ensures LiveCount(AllTries, store.actions, m, t) + SendCount(store, ids, r, m, t) >= 2
  {
    if k :| 0 <= k < |ids| && Sendable(store, store.actions[ids[k]], r)
            && Active(store.actions, store.actions[ids[k]].messageId, store.actions[ids[k]].kind) {
      m, t := store.actions[ids[k]].messageId, store.actions[ids[k]].kind;
      ActiveHasLive(store.actions, m, t);
      SendCountSeesOne(store, ids, r, m, t, k);
    } else {
      var j, k :| 0 <= j < k < |ids| && BothSent(store, store.actions[ids[j]], store.actions[ids[k]], r);
      m, t := store.actions[ids[k]].messageId, store.actions[ids[k]].kind;
      SendCountSeesTwo(store, ids, r, m, t, j, k);
    }
  }

  // -- whole passes ---------------------------------------------------------------------------------------

  /** The same mailboxes answer; what they answer may differ. */
  ghost predicate SameReach(r: Retry, s: Retry) {
    s.maxRetries == r.maxRetries && forall c :: s.providers(c).Some? <==> r.providers(c).Some?
  }

  const WORKS: Provider := (ws, w) => WriteResult(true, None, "")

  /** The pass in which every write works. */
  function Working(r: Retry): Retry {
    r.(providers := c => if r.providers(c).Some? then Some(WORKS) else None)
  }

  lemma SameReachSameClash(store: Store, ids: seq<nat>, r: Retry, s: Retry)
    requires InTable(ids, |store.actions|) && SameReach(r, s)
    ensures NoClash(store, ids, r) <==> NoClash(store, ids, s)
    ensures forall row :: Sendable(store, row, r) <==> Sendable(store, row, s)
  {
  }

  lemma PassCounts(store: Store, r: Retry, m: nat, t: ActionType)
    ensures
      var ids := ListFailedSends(store.actions, r.maxRetries);
      && InTable(ids, |store.actions|)
      && var after, before := LiveCount(AllTries, RetrySpec(store, r).0.actions, m, t),
        LiveCount(AllTries, store.actions, m, t);
      && after <= before + SendCount(store, ids, r, m, t)
      && (AllWork(r) ==> after == before + SendCount(store, ids, r, m, t))
  {
    var ids := ListFailedSends(store.actions, r.maxRetries);
    ListedAreInTable(store.actions, r.maxRetries);
    forall k | 0 <= k < |ids| ensures store.actions[ids[k]].status.Failed? {
      assert ids[k] in ids;
    }
    RetryAllCounts(store, ids, r, m, t);
  }

  lemma ClashFreePassKeepsUnique(store: Store, r: Retry)
    requires UniqueLive(AllTries, store.actions) && ClashFree(store, r)
    ensures UniqueLive(AllTries, RetrySpec(store, r).0.actions)
  {
    forall m, t ensures LiveCount(AllTries, RetrySpec(store, r).0.actions, m, t) <= 1 {
      PassCounts(store, r, m, t);
      NoClashKeepsOne(store, ListFailedSends(store.actions, r.maxRetries), r, m, t);
    }
  }

  lemma ClashingPassBreaks(store: Store, r: Retry)
    ensures SameReach(r, Working(r))
    ensures !ClashFree(store, r) ==> !UniqueLive(AllTries, RetrySpec(store, Working(r)).0.actions)
  {
    var ids, s := ListFailedSends(store.actions, r.maxRetries), Working(r);
    ListedAreInTable(store.actions, r.maxRetries);
    SameReachSameClash(store, ids, r, s);
    if !NoClash(store, ids, s) {
      var m, t := ClashMakesTwo(store, ids, s);
      assert AllWork(s);
      PassCounts(store, s, m, t);
      assert LiveCount(AllTries, RetrySpec(store, s).0.actions, m, t) > 1;
    }
  }

  /**
   * A retry pass keeps at most one live action per message and type, whatever
   * the mailboxes answer, if and only if it is clash free.
   */
  lemma RetryPassKeepsUniqueIff(store: Store, r: Retry)
    requires UniqueLive(AllTries, store.actions)
    ensures
      (forall s :: SameReach(r, s) ==> UniqueLive(AllTries, RetrySpec(store, s).0.actions)) <==> ClashFree(store, r)
  {
    if ClashFree(store, r) {
      forall s | SameReach(r, s) ensures UniqueLive(AllTries, RetrySpec(store, s).0.actions) {
        ListedAreInTable(store.actions, r.maxRetries);
        SameReachSameClash(store, ListFailedSends(store.actions, r.maxRetries), r, s);
        ClashFreePassKeepsUnique(store, s);
      }
    } else {
      ClashingPassBreaks(store, r);
    }
  }

  // -- whole runs --------------------------------------------------------------------------------------------

  lemma StepKeepsUnique(w: World, s: Step)
    requires UniqueLive(AllTries, w.store.actions) && Possible(s)
    requires s.RetryStep? ==> ClashFree(w.store, s.retry)
    ensures UniqueLive(AllTries, Apply(w, s).store.actions)
  {
    match s
    case SyncStep(inp, writer) =>
      if inp.connection in w.store.connections {
        SyncKeepsUnique(AllTries, w.store, w.store.connections[inp.connection], inp, writer, w.shelf);
      }
    case ApproveStep(a) => ApproveKeepsUnique(AllTries, w.store, a);
    case RejectStep(userId, id, at) => RejectKeepsUnique(AllTries, w.store, userId, id, at);
    case RetryStep(r) => ClashFreePassKeepsUnique(w.store, r);
    case _ =>
  }

  /** Every retry pass of the run is clash free when it starts. */
  predicate RetriesClashFree(w: World, steps: seq<Step>)
    requires AllPossible(steps)
  {
    forall k :: 0 <= k < |steps| && steps[k].RetryStep? ==> ClashFree(RunAll(w, steps[..k]).store, steps[k].retry)
  }

  /** Over such a run no message ever has two live actions of one type, retried or not. */
  lemma {:induction false} ClashFreeRunsStayUnique(w: World, steps: seq<Step>)
    requires UniqueLive(AllTries, w.store.actions) && AllPossible(steps) && RetriesClashFree(w, steps)
    ensures UniqueLive(AllTries, RunAll(w, steps).store.actions)
  {
    if steps != [] {
      var n := |steps| - 1;
      var init := steps[..n];
      forall k | 0 <= k < n && init[k].RetryStep? ensures ClashFree(RunAll(w, init[..k]).store, init[k].retry) {
        assert init[k] == steps[k] && init[..k] == steps[..k];
      }
      ClashFreeRunsStayUnique(w, init);
      StepKeepsUnique(RunAll(w, init), steps[n]);
    }
  }
}
