// The approval queue as a state machine: any interleaving of syncs, decisions,
// retries and settings changes, and what holds in every state it can reach.
module Runs {
  import opened Prelude
  import opened Calendar
  import opened IsoTime
  import opened FollowUps
  import opened Drafting
  import opened Tables
  import opened Sync
  import opened Review
  import opened Uniqueness
  import opened Dispatches
  import opened Promises
  import opened Rulings
  import opened Filings

  datatype World = World(store: Store, shelf: Shelf)

  datatype Step =
    | SyncStep(inp: SyncInput, writer: Writer)
    | ApproveStep(approval: Approval)
    | RejectStep(userId: string, id: nat, at: int)
    | RetryStep(retry: Retry)
    | ConnectStep(connection: string, account: string)
    | ContactStep(role: string, email: string)
    | ResolveStep(followUp: nat, status: FollowUpStatus)

  predicate Possible(s: Step) {
    match s
    case SyncStep(_, writer) => ValidInstant(writer.clock)
    case RetryStep(retry) => retry.maxRetries == MAX_SEND_RETRIES
    case _ => true
  }

  function Settled(was: Store, r: Result<Store, ProcessingError>): Store {
    if r.Ok? then r.value else was
  }

  /** A step that raises leaves the tables as they were. */
  function Apply(w: World, s: Step): World
    requires Possible(s)
  {
    match s
    case SyncStep(inp, writer) =>
      (match SyncSpec(w.store, inp, writer, w.shelf)
       case Err(_) => w
       case Ok(done) => World(done.store, done.shelf))
    case ApproveStep(a) => w.(store := Settled(w.store, ApproveSpec(w.store, a)))
    case RejectStep(userId, id, at) => w.(store := Settled(w.store, RejectSpec(w.store, userId, id, at)))
    case RetryStep(r) => w.(store := RetrySpec(w.store, r).0)
    case ConnectStep(connection, account) =>
      w.(store := w.store.(connections := w.store.connections[connection := account]))
    case ContactStep(role, email) => w.(store := w.store.(contacts := w.store.contacts[role := email]))
    case ResolveStep(i, status) =>
      if i < |w.store.followUps| then
        w.(store := w.store.(followUps := w.store.followUps[i := w.store.followUps[i].(status := status)]))
      else w
  }

  predicate AllPossible(steps: seq<Step>) { forall i :: 0 <= i < |steps| ==> Possible(steps[i]) }

  function RunAll(w: World, steps: seq<Step>): World
    requires AllPossible(steps)
  {
    if steps == [] then w
    else
      Apply(RunAll(w, steps[..|steps| - 1]), steps[|steps| - 1])
  }

  const EMPTY := World(Store([], [], [], map[], map[], [], []), Shelf(map[], [], 0))

  // -- invariants ------------------------------------------------------------------------------

  ghost predicate Sound(w: World) {
    UniqueLive(FirstTries, w.store.actions) && Balanced(w.store) && Orderly(w.store.followUps)
  }

  lemma StepKeepsOrderly(w: World, s: Step)
    requires Orderly(w.store.followUps) && Possible(s)
    ensures Orderly(Apply(w, s).store.followUps)
  {
    match s
    case SyncStep(inp, writer) =>
      if inp.connection in w.store.connections {
        SyncKeepsOrderly(w.store, w.store.connections[inp.connection], inp, writer, w.shelf);
      }
    case ApproveStep(a) => ApproveKeepsOrderly(w.store, a);
    case RetryStep(r) =>
      ListedAreInTable(w.store.actions, r.maxRetries);
      RetryAllKeepsFollowUps(w.store, ListFailedSends(w.store.actions, r.maxRetries), r);
    case ResolveStep(i, status) =>
      if i < |w.store.followUps| {
        ResolveKeepsOrderly(w.store.followUps, i, status);
      }
    case _ =>
  }

  lemma StepKeepsSound(w: World, s: Step)
    requires Sound(w) && Possible(s)
    ensures Sound(Apply(w, s))
  {
    StepKeepsOrderly(w, s);
    match s
    case SyncStep(inp, writer) =>
      if SyncSpec(w.store, inp, writer, w.shelf).Ok? {
        var account := w.store.connections[inp.connection];
        SyncKeepsUnique(FirstTries, w.store, account, inp, writer, w.shelf);
        SyncKeepsBalance(w.store, account, inp, writer, w.shelf);
      }
    case ApproveStep(a) =>
      ApproveKeepsUnique(FirstTries, w.store, a);
      if ApproveSpec(w.store, a).Ok? {
        ApproveKeepsBalance(w.store, a);
      }
    case RejectStep(userId, id, at) =>
      RejectKeepsUnique(FirstTries, w.store, userId, id, at);
      if RejectSpec(w.store, userId, id, at).Ok? {
        RejectKeepsBalance(w.store, userId, id, at);
      }
    case RetryStep(r) =>
      var ids := ListFailedSends(w.store.actions, r.maxRetries);
      ListedAreInTable(w.store.actions, r.maxRetries);
      forall k | 0 <= k < |ids| ensures Retryable(w.store.actions[ids[k]], MAX_SEND_RETRIES) {
        assert ids[k] in ids;
      }
      RetryKeepsFirstTriesUnique(w.store, ids, r);
      RetryAllKeepsBalance(w.store, ids, r);
    case ConnectStep(_, _) =>
    case ContactStep(_, _) =>
    case ResolveStep(_, _) =>
  }

  lemma EmptyIsSound()
    ensures Sound(EMPTY)
  {
  }

  lemma {:induction false} RunsStaySound(w: World, steps: seq<Step>)
    requires Sound(w) && AllPossible(steps)
    ensures Sound(RunAll(w, steps))
  {
    if steps != [] {
      RunsStaySound(w, steps[..|steps| - 1]);
      StepKeepsSound(RunAll(w, steps[..|steps| - 1]), steps[|steps| - 1]);
    }
  }

  /** In every reachable state, each message has at most one live first-try action of each type. */
  lemma EveryRunKeepsActionsUnique(steps: seq<Step>, i: nat, j: nat)
    requires AllPossible(steps)
    ensures
      var rows := RunAll(EMPTY, steps).store.actions;
      i < j < |rows| && InScope(rows[i], FirstTries) && InScope(rows[j], FirstTries) ==>
        !(rows[i].messageId == rows[j].messageId && rows[i].kind == rows[j].kind)
  {
    EmptyIsSound();
    RunsStaySound(EMPTY, steps);
    var rows := RunAll(EMPTY, steps).store.actions;
    if i < j < |rows| && InScope(rows[i], FirstTries) && InScope(rows[j], FirstTries)
       && rows[i].messageId == rows[j].messageId && rows[i].kind == rows[j].kind {
      TwoLiveCountTwice(FirstTries, rows, i, j);
    }
  }

  /**
   * In every reachable state each promise is listed once, and the overdue count
   * the query takes from text is the number of open promises that are overdue.
   */
  lemma EveryRunCountsOverdue(steps: seq<Step>, today: Date)
    requires AllPossible(steps) && Valid(today)
    ensures
      var rows := RunAll(EMPTY, steps).store.followUps;
      && EachOnce(rows)
      && Summarize(rows, IsoDate(today)).overdue == CountOverdue(rows, today)
  {
    EmptyIsSound();
    RunsStaySound(EMPTY, steps);
    OverdueCountAgrees(RunAll(EMPTY, steps).store.followUps, today);
  }

  /** The number of dispatches a row owes its decision and its retries. */
  function Owed(row: ActionRow): nat {
    (if row.status.Executed? || row.status.Failed? then 1 else 0) + row.retryCount
  }

  /** The tries of action `i` account for its row. */
  ghost predicate AccountsFor(store: Store, i: nat) {
    i < |store.actions| && store.actions[i].requiresApproval ==>
      var row, tries := store.actions[i], TriesOf(store.dispatches, i);
      && |tries| == Owed(row) <= 1 + MAX_SEND_RETRIES
      && (|tries| > 0 ==> row.decidedBy.Some?)
      && (forall k :: 0 <= k < |tries| ==> (tries[k].ok <==> row.status.Executed? && k == |tries| - 1))
      && (row.status.Proposed? || row.status.Rejected? ==> tries == [])
  }

  lemma AccountedMeans(row: ActionRow, tries: seq<Dispatch>, providerId: string)
    requires Accounted(row, tries, providerId) && row.requiresApproval
    ensures |tries| == Owed(row) <= 1 + MAX_SEND_RETRIES
    ensures |tries| > 0 ==> row.decidedBy.Some?
    ensures forall k :: 0 <= k < |tries| ==> (tries[k].ok <==> row.status.Executed? && k == |tries| - 1)
    ensures row.status.Proposed? || row.status.Rejected? ==> tries == []
  {
    assert forall k :: 0 <= k < |tries| - 1 ==> tries[k] == tries[..|tries| - 1][k];
  }

  lemma BalancedAccounts(store: Store, i: nat)
    requires Balanced(store)
    ensures AccountsFor(store, i)
  {
    if i < |store.actions| && store.actions[i].requiresApproval {
      AccountedMeans(store.actions[i], TriesOf(store.dispatches, i),
        store.messages[store.actions[i].messageId].providerId);
    }
  }

  /**
   * Every reachable state accounts for every held action: one dispatch for the
   * approval plus one per retry, never more than four; success at most once, and
   * then last; nothing at all while undecided or once rejected.
   */
  lemma EveryRunAccountsForDispatches(steps: seq<Step>, i: nat)
    requires AllPossible(steps)
    ensures AccountsFor(RunAll(EMPTY, steps).store, i)
  {
    EmptyIsSound();
    RunsStaySound(EMPTY, steps);
    BalancedAccounts(RunAll(EMPTY, steps).store, i);
  }

  /** An executed reply went to the message it answers, with exactly the text its row shows. */
  ghost predicate ShowsWhatWasSent(store: Store, i: nat) {
    i < |store.actions| && store.actions[i].kind.Reply? && store.actions[i].status.Executed? ==>
      var row, tries := store.actions[i], TriesOf(store.dispatches, i);
      && |tries| > 0 && row.messageId < |store.messages|
      && tries[|tries| - 1].write == Some(SendReply(store.messages[row.messageId].providerId, BodyOnRecord(row)))
  }

  lemma ExecutedReplyMeans(row: ActionRow, tries: seq<Dispatch>, providerId: string)
    requires Accounted(row, tries, providerId) && row.kind.Reply? && row.status.Executed?
    ensures |tries| > 0 && tries[|tries| - 1].write == Some(SendReply(providerId, BodyOnRecord(row)))
  {
  }

  lemma BalancedShows(store: Store, i: nat)
    requires Balanced(store)
    ensures ShowsWhatWasSent(store, i)
  {
    if i < |store.actions| && store.actions[i].kind.Reply? && store.actions[i].status.Executed? {
      ExecutedReplyMeans(store.actions[i], TriesOf(store.dispatches, i),
        store.messages[store.actions[i].messageId].providerId);
    }
  }

  /** In every reachable state, an executed reply was sent, to the message it answers, as its row shows it. */
  lemma EveryRunShowsWhatWasSent(steps: seq<Step>, i: nat)
    requires AllPossible(steps)
    ensures ShowsWhatWasSent(RunAll(EMPTY, steps).store, i)
  {
    EmptyIsSound();
    RunsStaySound(EMPTY, steps);
    BalancedShows(RunAll(EMPTY, steps).store, i);
  }

  lemma {:induction false} DispatchedWriteHasDispatch(log: seq<Dispatch>, w: Write)
    requires w in DispatchedWrites(log)
    ensures exists d :: d in log && d.write == Some(w)
  {
    var last := log[|log| - 1];
    if last.write == Some(w) {
      assert last in log;
    } else {
      DispatchedWriteHasDispatch(log[..|log| - 1], w);
    }
  }

  lemma {:induction false} ExternalWriteListed(ws: seq<Write>, w: Write)
    requires w in ws && External(w)
    ensures w in ExternalWrites(ws)
  {
    if w != ws[|ws| - 1] {
      ExternalWriteListed(ws[..|ws| - 1], w);
    }
  }

  lemma {:induction false} TriesListDispatch(log: seq<Dispatch>, d: Dispatch)
    requires d in log
    ensures d in TriesOf(log, d.action)
  {
    if d != log[|log| - 1] {
      TriesListDispatch(log[..|log| - 1], d);
    }
  }

  /**
   * Nothing leaves without a human: over any run, every reply and every
   * escalation draft that reached the provider belongs to a held action that a
   * person approved.
   */
  lemma NothingLeavesUnapproved(steps: seq<Step>, w: Write)
    requires AllPossible(steps)
    requires w in RunAll(EMPTY, steps).store.writes && External(w)
    ensures
      var store := RunAll(EMPTY, steps).store;
      exists d :: && d in store.dispatches && d.write == Some(w) && d.action < |store.actions|
                  && store.actions[d.action].requiresApproval && store.actions[d.action].decidedBy.Some?
                  && (store.actions[d.action].status.Executed? || store.actions[d.action].status.Failed?)
  {
    EmptyIsSound();
    RunsStaySound(EMPTY, steps);
    var store := RunAll(EMPTY, steps).store;
    ExternalWriteListed(store.writes, w);
    DispatchedWriteHasDispatch(store.dispatches, w);
    var d :| d in store.dispatches && d.write == Some(w);
    TriesListDispatch(store.dispatches, d);
    assert Accounted(store.actions[d.action], TriesOf(store.dispatches, d.action),
                     store.messages[store.actions[d.action].messageId].providerId);
  }

  // -- what the rows say -------------------------------------------------------------------------

  lemma StepKeepsRows(w: World, s: Step)
    requires RowsSound(w.store.actions) && Possible(s)
    ensures RowsSound(Apply(w, s).store.actions)
  {
    match s
    case SyncStep(inp, writer) =>
      if inp.connection in w.store.connections {
        SyncKeepsRows(w.store, w.store.connections[inp.connection], inp, writer, w.shelf);
      }
    case ApproveStep(a) => ApproveKeepsRows(w.store, a);
    case RejectStep(userId, id, at) => RejectKeepsRows(w.store, userId, id, at);
    case RetryStep(r) => RetryPassKeepsRows(w.store, r);
    case _ =>
  }

  lemma {:induction false} RunsKeepRows(w: World, steps: seq<Step>)
    requires RowsSound(w.store.actions) && AllPossible(steps)
    ensures RowsSound(RunAll(w, steps).store.actions)
  {
    if steps != [] {
      RunsKeepRows(w, steps[..|steps| - 1]);
      StepKeepsRows(RunAll(w, steps[..|steps| - 1]), steps[|steps| - 1]);
    }
  }

  /**
   * In every reachable state a row says what became of it. It records a rejection
   * exactly when it was rejected, and an approval or an edit exactly when a person's
   * approval went out; it is "flagged" exactly when it shows claims to look at, and
   * "verified" exactly when its draft was checked and there are none.
   */
  lemma EveryRunRulesRows(steps: seq<Step>, i: nat)
    requires AllPossible(steps)
    ensures
      var rows := RunAll(EMPTY, steps).store.actions;
      i < |rows| ==>
        var row := rows[i];
        && RowSound(row)
        && (row.status.Rejected? <==> row.outcome == Some(Declined))
        && (row.status.Executed? && row.requiresApproval <==>
              row.outcome == Some(Approved) || row.outcome == Some(Edited))
        && (row.status.Proposed? || row.status.Failed? <==> row.outcome.None?)
        && (row.prose.verification == Some("flagged") <==> row.prose.claims != [])
        && (row.prose.verification == Some("verified") <==>
              row.requiresApproval && Truthy(DraftOf(row)) && row.prose.claims == [])
  {
    RunsKeepRows(EMPTY, steps);
  }
}
