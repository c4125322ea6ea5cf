// What retries can bring back: a run in which a retry revives an action whose
// replacement is already waiting.
module Revival {
  import opened Prelude
  import opened Mail
  import opened Enrich
  import opened Sorting
  import opened Policy
  import opened Pipeline
  import opened IsoTime
  import opened Learning
  import opened Tables
  import opened Sync
  import opened Review
  import opened Uniqueness
  import opened Runs
  import opened Clashes

  /** One urgent message that needs an answer and no escalation. */
  ghost predicate OneUrgentMessage(inp: SyncInput, account: string, m: FetchedMessage) {
    var e := EnrichMessage(m, account, inp.terms);
    inp.fetched == [m] && m.providerId != "" && ClassifyHeuristic(e, inp.terms).Urgent? && !Grave(e.riskTag)
  }

  lemma SortedSingle<T>(before: (T, T) -> bool, x: T)
    ensures StableSort(before, [x]) == [x]
  {
    assert [x][1..] == [] && StableSort(before, [x]) == Insert(before, x, []);
    assert [x] + [] == [x];
  }

  lemma OneUrgentMessageProposals(inp: SyncInput, account: string, m: FetchedMessage)
    requires OneUrgentMessage(inp, account, m)
    ensures var ps := ProposalsOf(inp, account);
      && |ps| == 2 && ps[0].emailId == ps[1].emailId == m.providerId
      && ps[0].kind.Classify? && !ps[0].requiresApproval && ps[1].kind.Reply? && ps[1].requiresApproval
  {
    var e := EnrichMessage(m, account, inp.terms);
    var obs := ToObservation(inp.fetched, account, inp.terms);
    assert obs.emails == [e];
    InboxProposalsSplit(obs, inp.terms);
    var later: seq<Email> := [e][1..];
    assert later == [];
    SortedSingle(HandledBefore, e);
    assert Unseen([e], {}) == [e] && Ranked([e]) == [e];
    var verdicts := Verdicts([e], map[], inp.terms);
    assert verdicts == map[e.id := Urgent];
    assert [e] + [] == [e];
    ClassifyProposalsCons(e, [], inp.terms);
    DecisionProposalsCons(e, [], verdicts);
  }

  lemma NothingDecided(rows: seq<ActionRow>, messages: seq<MessageRow>)
    requires forall i :: 0 <= i < |rows| ==> !Decided(rows[i], messages)
    ensures ListDecided(rows, messages) == [] && Suppressed(ListDecided(rows, messages)) == map[]
  {
    var ids := NewestDecided(rows, messages);
    assert ids == [] || IsDecided(ids[0], rows, messages);
  }

  /** Rows a sync files by itself for a classification. */
  predicate FiledClassification(row: ActionRow) {
    row.kind.Classify? && !row.requiresApproval && (row.outcome == None || row.outcome == Some(Auto))
      && !row.status.Proposed?
  }

  lemma ClassificationIsFiled(store: Store, inp: SyncInput, name: string, item: Item)
    requires item.proposal.kind.Classify?
    ensures var after := ApplyGroups(store, inp, [Group(name, [item])]);
      && after.messages == store.messages && after.connections == store.connections
      && exists row :: after.actions == store.actions + [row] && FiledClassification(row)
  {
    var g := Group(name, [item]);
    assert [g][..0] == [] && [g][0] == g;
    assert ApplyGroups(store, inp, [g]) == ApplyGroup(store, inp, g);
    var results := LabelGroup(store.writes, inp, g).0;
    assert [item][..0] == [] && results[..0] == [];
    assert CreateAuto(store.actions, [item], results, name, inp.now)
        == CreateAuto(store.actions, [], [], name, inp.now) + [AutoActionFor(item, name, results[0], inp.now)];
    assert FiledClassification(AutoActionFor(item, name, results[0], inp.now));
  }

  function RowOf(inp: SyncInput, account: string, m: FetchedMessage): MessageRow {
    MessageRowFor(inp.connection, m, EnrichMessage(m, account, inp.terms))
  }

  lemma OneMessageIsPrepared(
      store: Store, account: string, inp: SyncInput, writer: Writer, shelf: Shelf, m: FetchedMessage)
    requires ValidInstant(writer.clock) && inp.fetched == [m]
    ensures
      var (start, setting, _) := Prepare(store, account, inp, writer, shelf);
      var (messages, id) := UpsertMessage(store.messages, RowOf(inp, account, m));
      && start.store == store.(messages := messages, followUps := start.store.followUps) && start.groups == []
      && setting.inp == inp && setting.ids == map[m.providerId := id]
      && setting.vetoes == Suppressed(ListDecided(store.actions, store.messages))
  {
    assert [m][..0] == [] && Emails(inp, account)[..0] == [];
    var es := Emails(inp, account);
    assert Persist(store.messages, inp.connection, [], []) == (store.messages, map[]);
    assert Persist(store.messages, inp.connection, [m], es).1 ==
      map[m.providerId := UpsertMessage(store.messages, RowOf(inp, account, m)).1];
  }

  /** A reply just held, waiting for its first decision. */
  predicate HeldReply(row: ActionRow, id: nat) {
    && Matches(row, id, Reply) && row.status.Proposed? && row.outcome.None?
    && row.requiresApproval && row.decidedBy.None? && row.retryCount == 0
  }

  /** The loop has held one reply, and may leave one label to be applied. */
  predicate HoldsReply(before: Progress, after: Progress, p: Proposal, id: nat) {
    && |after.store.actions| == |before.store.actions| + 1
    && HeldReply(after.store.actions[|before.store.actions|], id)
    && after.store == before.store.(actions := before.store.actions + [after.store.actions[|before.store.actions|]])
    && |after.groups| <= 1
    && (after.groups != [] ==> after.groups[0].items == [Item(p, id)])
  }

  lemma ReplyIsProposed(start: Progress, setting: Setting, ps: seq<Proposal>, id: nat)
    requires |ps| == 2 && ps[0].emailId == ps[1].emailId && ps[0].emailId in setting.ids
    requires setting.ids[ps[0].emailId] == id
    requires ps[0].kind.Classify? && !ps[0].requiresApproval && ps[1].kind.Reply? && ps[1].requiresApproval
    requires start.groups == [] && setting.vetoes == map[] && !Active(start.store.actions, id, Reply)
    ensures HoldsReply(start, ProposeAll(start, setting, ps), ps[0], id)
  {
    assert ps[..1] == [ps[0]] && [ps[0]][..0] == [];
    assert ProposeAll(start, setting, [ps[0]]) == Propose(start, setting, ps[0]);
    var one := Propose(start, setting, ps[0]);
    assert ProposeAll(start, setting, ps) == Propose(one, setting, ps[1]);
    assert one.store == start.store;
    assert one.groups == [] || one.groups == [Group(LabelTextFor(ps[0]), [Item(ps[0], id)])];
    assert Propose(one, setting, ps[1]) == Hold(one, setting, ps[1], id);
  }

  /** One new held reply on row `id` at the first free place, then nothing but labels. */
  predicate AddsHeldReply(before: Store, after: Store, messages: seq<MessageRow>, id: nat) {
    var n := |before.actions|;
    && after.messages == messages && after.connections == before.connections
    && n < |after.actions| && after.actions[..n] == before.actions && HeldReply(after.actions[n], id)
    && forall i :: n < i < |after.actions| ==> FiledClassification(after.actions[i])
  }

  lemma LabelsFollowReply(before: Progress, g: Progress, inp: SyncInput, p: Proposal, id: nat)
    requires HoldsReply(before, g, p, id) && p.kind.Classify?
    ensures AddsHeldReply(before.store, ApplyGroups(g.store, inp, g.groups), before.store.messages, id)
  {
    if g.groups != [] {
      assert g.groups == [Group(g.groups[0].name, [Item(p, id)])];
      ClassificationIsFiled(g.store, inp, g.groups[0].name, Item(p, id));
    }
  }

  /** When no reply to it is live, a sync holds a new one at the first free row, and files nothing else but a label. */
  lemma ReplyIsHeld(store: Store, account: string, inp: SyncInput, writer: Writer, shelf: Shelf, m: FetchedMessage)
    requires ValidInstant(writer.clock) && OneUrgentMessage(inp, account, m)
    requires Suppressed(ListDecided(store.actions, store.messages)) == map[]
    requires !Active(store.actions, UpsertMessage(store.messages, RowOf(inp, account, m)).1, Reply)
    ensures
      var (messages, id) := UpsertMessage(store.messages, RowOf(inp, account, m));
      AddsHeldReply(store, SyncOnce(store, account, inp, writer, shelf).store, messages, id)
  {
    var (start, setting, _) := Prepare(store, account, inp, writer, shelf);
    var id := UpsertMessage(store.messages, RowOf(inp, account, m)).1;
    var ps := ProposalsOf(inp, account);
    OneMessageIsPrepared(store, account, inp, writer, shelf, m);
    OneUrgentMessageProposals(inp, account, m);
    ReplyIsProposed(start, setting, ps, id);
    LabelsFollowReply(start, ProposeAll(start, setting, ps), inp, ps[0], id);
  }

  ghost predicate AlwaysFails(p: Provider) { forall ws, w :: !p(ws, w).ok }

  lemma {:induction false} OnlyFirstIsRetryable(rows: seq<ActionRow>)
    requires rows != [] && Retryable(rows[0], MAX_SEND_RETRIES)
    requires forall i :: 1 <= i < |rows| ==> !Retryable(rows[i], MAX_SEND_RETRIES)
    ensures RetryableIds(rows, MAX_SEND_RETRIES) == [0]
  {
    if |rows| > 1 {
      OnlyFirstIsRetryable(rows[..|rows| - 1]);
    } else {
      assert rows[..0] == [];
    }
  }

  /** The first row has failed after a human's approval; nothing else changed. */
  predicate FirstRefused(before: Store, after: Store) {
    && after.messages == before.messages && after.connections == before.connections
    && |after.actions| == |before.actions| > 0 && after.actions[1..] == before.actions[1..]
    && var row := after.actions[0];
       row == before.actions[0].(status := Failed, decidedBy := row.decidedBy, decidedAt := row.decidedAt,
         lastError := row.lastError)
       && row.decidedBy.Some?
  }

  lemma FailedApproval(store: Store, a: Approval)
    requires a.planActive && a.actionId == 0 && AlwaysFails(a.provider)
    requires store.actions != [] && |store.messages| == 1 && HeldReply(store.actions[0], 0)
    ensures ApproveSpec(store, a).Ok? && FirstRefused(store, ApproveSpec(store, a).value)
  {
  }

  lemma FirstRefusedRows(before: Store, after: Store, messages: seq<MessageRow>, was: Store)
    requires was.actions == [] && AddsHeldReply(was, before, messages, 0) && FirstRefused(before, after)
    ensures forall i :: 1 <= i < |after.actions| ==> FiledClassification(after.actions[i])
    ensures !Active(after.actions, 0, Reply)
    ensures forall i :: 0 <= i < |after.actions| ==> !Decided(after.actions[i], messages)
  {
    forall i | 1 <= i < |after.actions| ensures FiledClassification(after.actions[i]) {
      assert after.actions[i] == after.actions[1..][i - 1] == before.actions[1..][i - 1] == before.actions[i];
    }
  }

  /** What a retry finds: the first row refused, a replacement waiting at `n`, nothing else to retry. */
  predicate Replaced(store: Store, n: nat) {
    && 0 < n < |store.actions| && HeldReply(store.actions[n], 0)
    && Retryable(store.actions[0], MAX_SEND_RETRIES) && Matches(store.actions[0], 0, Reply)
    && forall i :: 1 <= i < |store.actions| ==> !Retryable(store.actions[i], MAX_SEND_RETRIES)
  }

  lemma ReplacedRows(was: Store, before: Store, middle: Store, after: Store, messages: seq<MessageRow>)
    requires was.actions == [] && AddsHeldReply(was, before, messages, 0) && FirstRefused(before, middle)
    requires AddsHeldReply(middle, after, messages, 0)
    ensures Replaced(after, |middle.actions|)
  {
    FirstRefusedRows(before, middle, messages, was);
    var n := |middle.actions|;
    assert forall i :: 0 <= i < n ==> after.actions[i] == after.actions[..n][i] == middle.actions[i];
  }

  lemma RecoveredRetry(store: Store, r: Retry, n: nat)
    requires Replaced(store, n) && |store.messages| == 1 && store.messages[0].connection in store.connections
    requires r.maxRetries == MAX_SEND_RETRIES
    requires var p := r.providers(store.messages[0].connection); p.Some? && AlwaysWorks(p.value)
    ensures LiveCount(AllTries, RetrySpec(store, r).0.actions, 0, Reply) >= 2
  {
    OnlyFirstIsRetryable(store.actions);
    SortedSingle(EarlierIn(store.actions), 0);
    assert ListFailedSends(store.actions, MAX_SEND_RETRIES) == [0];
    assert [0][..0] == [] && RetryAll(store, [], r) == (store, RetryReport(0, 0, 0));
    var after := RetrySpec(store, r).0;
    assert RetryAll(store, [0], r).0 == RetryOne(store, 0, r).0;
    assert after.actions[0].status.Executed? && after.actions[n] == store.actions[n];
    TwoLiveCountTwice(AllTries, after.actions, 0, n);
  }

  /** On empty tables the reply is held in the first row, for the first message. */
  lemma FirstReplyIsHeld(
      store: Store, inp: SyncInput, account: string, m: FetchedMessage, writer: Writer, shelf: Shelf)
    requires ValidInstant(writer.clock) && OneUrgentMessage(inp, account, m)
    requires store.actions == [] && store.messages == []
    ensures AddsHeldReply(store, SyncOnce(store, account, inp, writer, shelf).store, [RowOf(inp, account, m)], 0)
  {
    SeenMessageKeepsItsRow(RowOf(inp, account, m));
    NothingDecided(store.actions, store.messages);
    ReplyIsHeld(store, account, inp, writer, shelf, m);
  }

  /** The tables after a sync, an approval the provider refuses, and another sync. */
  lemma RefusedThenReplaced(
      store: Store, inp: SyncInput, account: string, m: FetchedMessage, writer: Writer, first: Shelf, second: Shelf,
      a: Approval)
    requires a.planActive && ValidInstant(writer.clock) && OneUrgentMessage(inp, account, m)
    requires a.actionId == 0 && AlwaysFails(a.provider)
    requires store.actions == [] && store.messages == []
    ensures
      var held := SyncOnce(store, account, inp, writer, first).store;
      var refused := ApproveSpec(held, a);
      && refused.Ok? && refused.value.connections == store.connections
      && var after := SyncOnce(refused.value, account, inp, writer, second).store;
      && after.messages == [RowOf(inp, account, m)] && after.connections == store.connections
      && Replaced(after, |refused.value.actions|)
  {
    var messages := [RowOf(inp, account, m)];
    SeenMessageKeepsItsRow(RowOf(inp, account, m));
    FirstReplyIsHeld(store, inp, account, m, writer, first);
    var held := SyncOnce(store, account, inp, writer, first).store;
    FailedApproval(held, a);
    var refused := ApproveSpec(held, a).value;
    FirstRefusedRows(held, refused, messages, store);
    NothingDecided(refused.actions, refused.messages);
    ReplyIsHeld(refused, account, inp, writer, second, m);
    ReplacedRows(store, held, refused, SyncOnce(refused, account, inp, writer, second).store, messages);
  }

  lemma SeenMessageKeepsItsRow(row: MessageRow)
    ensures UpsertMessage([], row) == ([row], 0) && UpsertMessage([row], row) == ([row], 0)
  {
    var none: seq<MessageRow> := [];
    assert none + [row] == [row] && [row][..0] == none && [row][0 := row] == [row];
    assert FindMessage([], row.connection, row.providerId) == None;
  }

  lemma RunOneMore(w: World, steps: seq<Step>, s: Step)
    requires AllPossible(steps) && Possible(s)
    ensures RunAll(w, steps + [s]) == Apply(RunAll(w, steps), s)
  {
    assert (steps + [s])[..|steps|] == steps;
  }

  function Connected(connection: string, account: string): Store {
    EMPTY.store.(connections := map[connection := account])
  }

  lemma ConnectRun(connection: string, account: string)
    ensures RunAll(EMPTY, [ConnectStep(connection, account)]) == World(Connected(connection, account), EMPTY.shelf)
  {
    var none: seq<Step> := [];
    RunOneMore(EMPTY, none, ConnectStep(connection, account));
    assert none + [ConnectStep(connection, account)] == [ConnectStep(connection, account)];
    assert EMPTY.store.connections[connection := account] == map[connection := account];
  }

  lemma SyncRun(w: World, steps: seq<Step>, store: Store, shelf: Shelf, account: string, inp: SyncInput, writer: Writer)
    requires AllPossible(steps) && RunAll(w, steps) == World(store, shelf)
    requires inp.planActive && ValidInstant(writer.clock)
    requires inp.connection in store.connections && store.connections[inp.connection] == account
    ensures AllPossible(steps + [SyncStep(inp, writer)])
    ensures
      var done := SyncOnce(store, account, inp, writer, shelf);
      RunAll(w, steps + [SyncStep(inp, writer)]) == World(done.store, done.shelf)
  {
    RunOneMore(w, steps, SyncStep(inp, writer));
  }

  lemma ApproveRun(w: World, steps: seq<Step>, store: Store, shelf: Shelf, a: Approval)
    requires AllPossible(steps) && RunAll(w, steps) == World(store, shelf)
    ensures AllPossible(steps + [ApproveStep(a)])
    ensures RunAll(w, steps + [ApproveStep(a)]) == World(Settled(store, ApproveSpec(store, a)), shelf)
  {
    RunOneMore(w, steps, ApproveStep(a));
  }

  lemma RetryRun(w: World, steps: seq<Step>, store: Store, shelf: Shelf, r: Retry)
    requires AllPossible(steps) && RunAll(w, steps) == World(store, shelf) && r.maxRetries == MAX_SEND_RETRIES
    ensures AllPossible(steps + [RetryStep(r)])
    ensures RunAll(w, steps + [RetryStep(r)]).store == RetrySpec(store, r).0
  {
    RunOneMore(w, steps, RetryStep(r));
  }

  /** Connect, sync, approve. */
  function DecidedSteps(inp: SyncInput, account: string, writer: Writer, a: Approval): seq<Step> {
    [ConnectStep(inp.connection, account)] + [SyncStep(inp, writer)] + [ApproveStep(a)]
  }

  /** Connect, sync, approve, sync, retry. */
  function RevivingSteps(inp: SyncInput, account: string, writer: Writer, a: Approval, r: Retry): seq<Step> {
    DecidedSteps(inp, account, writer, a) + [SyncStep(inp, writer)] + [RetryStep(r)]
  }

  /** The first sync of a run that connects a mailbox. */
  function FirstSync(inp: SyncInput, account: string, writer: Writer): Synced
    requires ValidInstant(writer.clock)
  {
    SyncOnce(Connected(inp.connection, account), account, inp, writer, EMPTY.shelf)
  }

  /** The tables once the approval has been dealt with. */
  function AfterDecision(inp: SyncInput, account: string, writer: Writer, a: Approval): Store
    requires ValidInstant(writer.clock)
  {
    var held := FirstSync(inp, account, writer).store;
    Settled(held, ApproveSpec(held, a))
  }

  lemma DecidedRun(inp: SyncInput, account: string, writer: Writer, a: Approval)
    requires inp.planActive && ValidInstant(writer.clock)
    ensures AllPossible(DecidedSteps(inp, account, writer, a))
    ensures RunAll(EMPTY, DecidedSteps(inp, account, writer, a)) ==
      World(AfterDecision(inp, account, writer, a), FirstSync(inp, account, writer).shelf)
  {
    var start := Connected(inp.connection, account);
    var done := FirstSync(inp, account, writer);
    var steps := [ConnectStep(inp.connection, account)];
    ConnectRun(inp.connection, account);
    SyncRun(EMPTY, steps, start, EMPTY.shelf, account, inp, writer);
    ApproveRun(EMPTY, steps + [SyncStep(inp, writer)], done.store, done.shelf, a);
  }

  /**
   * Approve fails, a sync proposes the reply again, a retry recovers the first:
   * the message then has two live replies. This happens to every urgent message,
   * whatever the model, the approver's words and the outcome of the label writes.
   */
  lemma RetryRevivesDuplicate(inp: SyncInput, account: string, m: FetchedMessage, writer: Writer, a: Approval, r: Retry)
    requires inp.planActive && a.planActive && ValidInstant(writer.clock) && OneUrgentMessage(inp, account, m)
    requires a.actionId == 0 && AlwaysFails(a.provider)
    requires r.maxRetries == MAX_SEND_RETRIES
    requires r.providers(inp.connection).Some? && AlwaysWorks(r.providers(inp.connection).value)
    ensures AllPossible(RevivingSteps(inp, account, writer, a, r))
    ensures LiveCount(AllTries, RunAll(EMPTY, RevivingSteps(inp, account, writer, a, r)).store.actions, 0, Reply) >= 2
  {
    var start := Connected(inp.connection, account);
    var held := SyncOnce(start, account, inp, writer, EMPTY.shelf);
    RefusedThenReplaced(start, inp, account, m, writer, EMPTY.shelf, held.shelf, a);
    var refused := ApproveSpec(held.store, a).value;
    var replaced := SyncOnce(refused, account, inp, writer, held.shelf);
    RecoveredRetry(replaced.store, r, |refused.actions|);
    RevivingRun(inp, account, writer, a, r);
  }

  lemma RevivingRun(inp: SyncInput, account: string, writer: Writer, a: Approval, r: Retry)
    requires inp.planActive && ValidInstant(writer.clock) && r.maxRetries == MAX_SEND_RETRIES
    ensures
      var decided, shelf := AfterDecision(inp, account, writer, a), FirstSync(inp, account, writer).shelf;
      && AllPossible(RevivingSteps(inp, account, writer, a, r))
      && (decided.connections == Connected(inp.connection, account).connections ==>
            RunAll(EMPTY, RevivingSteps(inp, account, writer, a, r)).store ==
              RetrySpec(SyncOnce(decided, account, inp, writer, shelf).store, r).0)
  {
    DecidedRun(inp, account, writer, a);
    SyncThenRetry(DecidedSteps(inp, account, writer, a), AfterDecision(inp, account, writer, a),
                  FirstSync(inp, account, writer).shelf, account, inp, writer, r);
  }

  lemma SyncThenRetry(
      steps: seq<Step>, store: Store, shelf: Shelf, account: string, inp: SyncInput, writer: Writer, r: Retry)
    requires AllPossible(steps) && RunAll(EMPTY, steps) == World(store, shelf)
    requires inp.planActive && ValidInstant(writer.clock) && r.maxRetries == MAX_SEND_RETRIES
    ensures AllPossible(steps + [SyncStep(inp, writer)] + [RetryStep(r)])
    ensures store.connections == Connected(inp.connection, account).connections ==>
      RunAll(EMPTY, steps + [SyncStep(inp, writer)] + [RetryStep(r)]).store ==
        RetrySpec(SyncOnce(store, account, inp, writer, shelf).store, r).0
  {
    if store.connections == Connected(inp.connection, account).connections {
      var replaced := SyncOnce(store, account, inp, writer, shelf);
      SyncRun(EMPTY, steps, store, shelf, account, inp, writer);
      RetryRun(EMPTY, steps + [SyncStep(inp, writer)], replaced.store, replaced.shelf, r);
    }
  }
}
