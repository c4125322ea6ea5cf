// The service as the program runs it: tables updated in place, loops over
// messages, proposals and label groups. Each method is tied to the functions of
// Sync and Review, about which everything else is proved.
module SyncService {
  import opened Prelude
  import opened Mail
  import opened Enrich
  import opened Pipeline
  import opened Calendar
  import opened IsoTime
  import opened Commitments
  import opened FollowUps
  import opened Ledger
  import opened Rubric
  import opened Verifier
  import opened Budget
  import opened Learning
  import opened Drafting
  import opened Tables
  import opened Sync
  import opened Review

  /** No row but `id` changed. */
  predicate OnlyRow(before: seq<ActionRow>, after: seq<ActionRow>, id: nat) {
    |after| == |before| && forall k :: 0 <= k < |after| && k != id ==> after[k] == before[k]
  }

  /** The listed rows from the i-th on are as they were listed. */
  predicate Untouched(listed: seq<ActionRow>, now: seq<ActionRow>, ids: seq<nat>, i: nat) {
    |now| == |listed| && forall k :: i <= k < |ids| ==> ids[k] < |now| && now[ids[k]] == listed[ids[k]]
  }

  lemma UntouchedNext(
      listed: seq<ActionRow>, before: seq<ActionRow>, after: seq<ActionRow>, ids: seq<nat>, i: nat)
    requires i < |ids| && NoDuplicates(ids) && Untouched(listed, before, ids, i) && OnlyRow(before, after, ids[i])
    ensures Untouched(listed, after, ids, i + 1)
  {
  }

  class InboxSyncService {
    var messages: seq<MessageRow>
    var actions: seq<ActionRow>
    var followUps: seq<FollowUp>
    var connections: map<string, string>
    var contacts: map<string, string>
    var writes: seq<Write>
    ghost var dispatches: seq<Dispatch>
    var drafts: map<DraftKey, CachedDraft>
    var ledger: seq<UsageRow>
    var modelCalls: nat

    ghost function State(): Store
      reads this
    {
      Store(messages, actions, followUps, connections, contacts, writes, dispatches)
    }

    ghost function OnShelf(): Shelf
      reads this
    {
      Shelf(drafts, ledger, modelCalls)
    }

    constructor ()
      ensures State() == Store([], [], [], map[], map[], [], [])
      ensures OnShelf() == Shelf(map[], [], 0)
    {
      messages, actions, followUps, connections, contacts := [], [], [], map[], map[];
      writes, dispatches, drafts, ledger, modelCalls := [], [], map[], [], 0;
    }

    // -- repository calls ---------------------------------------------------------------

    method UpsertMessageRow(m: MessageRow) returns (id: nat)
      modifies this`messages
      ensures (messages, id) == UpsertMessage(old(messages), m)
    {
      match FindMessage(messages, m.connection, m.providerId)
      case Some(i) =>
        messages := messages[i := m];
        return i;
      case None =>
        messages := messages + [m];
        return |messages| - 1;
    }

    method ActiveTypesForMessage(messageId: nat) returns (types: set<ActionType>)
      ensures forall t :: t in types <==> Active(actions, messageId, t)
    {
      types := {};
      for i := 0 to |actions|
        invariant forall t :: t in types <==>
          exists j :: 0 <= j < i && Live(actions[j]) && Matches(actions[j], messageId, t)
      {
        if Live(actions[i]) && actions[i].messageId == messageId {
          types := types + {actions[i].kind};
        }
      }
    }

    method UpsertFollowUp(f: FollowUp) returns (created: bool)
      modifies this`followUps
      ensures followUps == Upsert(old(followUps), f) && created == (|followUps| > |old(followUps)|)
    {
      created := !Known(followUps, KeyOf(f));
      if created {
        followUps := followUps + [f];
      }
    }

    method WriteTo(provider: Provider, w: Write) returns (result: WriteResult)
      modifies this`writes
      ensures result == provider(old(writes), w) && writes == old(writes) + [w]
    {
      result := provider(writes, w);
      writes := writes + [w];
    }

    // -- messages and follow-ups -----------------------------------------------------------

    method PersistMessages(
        connection: string, ms: seq<FetchedMessage>, es: seq<Email>) returns (rowByProviderId: map<string, nat>)
      requires |ms| == |es|
      modifies this`messages
      ensures (messages, rowByProviderId) == Persist(old(messages), connection, ms, es)
    {
      rowByProviderId := map[];
      for i := 0 to |ms|
        invariant (messages, rowByProviderId) == Persist(old(messages), connection, ms[..i], es[..i])
      {
        assert ms[..i + 1][..i] == ms[..i] && es[..i + 1][..i] == es[..i];
        var id := UpsertMessageRow(MessageRowFor(connection, ms[i], es[i]));
        rowByProviderId := rowByProviderId[ms[i].providerId := id];
      }
      assert ms[..|ms|] == ms && es[..|es|] == es;
    }

    method RecordFound(
        found: seq<Commitment>, messageId: nat, threadId: Option<string>, counterparty: string, subject: string)
      returns (recorded: nat)
      modifies this`followUps
      ensures (followUps, recorded) == RecordAll(old(followUps), found, messageId, threadId, counterparty, subject)
    {
      recorded := 0;
      for i := 0 to |found|
        invariant (followUps, recorded) ==
          RecordAll(old(followUps), found[..i], messageId, threadId, counterparty, subject)
      {
        ghost var before, count := followUps, recorded;
        var created := UpsertFollowUp(FollowUpFor(found[i], messageId, threadId, counterparty, subject));
        if created {
          recorded := recorded + 1;
        }
        RecordAllNext(old(followUps), found, i, messageId, threadId, counterparty, subject, before, count, followUps,
          created);
      }
      assert found[..|found|] == found;
    }

    method RecordFromMessage(
        m: FetchedMessage, rowByProviderId: map<string, nat>, skipIds: set<string>, reader: Reader, today: Date)
      returns (recorded: nat)
      modifies this`followUps
      ensures (followUps, recorded) ==
        RecordMessage(old(followUps), messages, rowByProviderId, m, skipIds, reader, today)
    {
      recorded := 0;
      if m.providerId in skipIds || m.providerId !in rowByProviderId || rowByProviderId[m.providerId] >= |messages| {
        return;
      }
      var id := rowByProviderId[m.providerId];
      var found := Extract(reader, m.body, Theirs, true, today);
      if found.Ok? {
        recorded := RecordFound(found.value, id, messages[id].threadId, m.sender, m.subject);
      }
    }

    method RecordCommitments(
        fetched: seq<FetchedMessage>, rowByProviderId: map<string, nat>, skipIds: set<string>, reader: Reader,
        today: Date)
      returns (recorded: nat)
      modifies this`followUps
      ensures (followUps, recorded) ==
        RecordIncoming(old(followUps), messages, rowByProviderId, fetched, skipIds, reader, today)
    {
      recorded := 0;
      ghost var start, table := followUps, messages;
      for i := 0 to |fetched|
        invariant messages == table
        invariant (followUps, recorded) ==
          RecordIncoming(start, table, rowByProviderId, fetched[..i], skipIds, reader, today)
      {
        RecordIncomingStep(start, table, rowByProviderId, fetched, i, skipIds, reader, today);
        ghost var before, count := followUps, recorded;
        var more := RecordFromMessage(fetched[i], rowByProviderId, skipIds, reader, today);
        recorded := recorded + more;
        RecordNextIs(before, count, table, rowByProviderId, fetched[i], skipIds, reader, today, followUps, more);
      }
      assert fetched[..|fetched|] == fetched;
    }

    // -- drafting --------------------------------------------------------------------------

    /** The desk this service and its budget amount to; no budget means no model. */
    ghost function DeskOf(budget: LlmBudget?, writer: Writer): Desk
      reads this, budget
    {
      Desk(budget != null,
           if budget != null then budget.State() else Meter(writer.orgId, writer.limit, 0.0, [], ledger),
           drafts, modelCalls)
    }

    method MayCallModel(budget: LlmBudget?, ghost writer: Writer) returns (ok: bool)
      ensures ok == MayCall(DeskOf(budget, writer))
    {
      if budget == null {
        return false;
      }
      ok := budget.AllowsCall();
    }

    method BillCall(budget: LlmBudget, writer: Writer, cost: real)
      modifies budget
      ensures budget.State() == Bill(old(DeskOf(budget, writer)), writer.model, cost).meter
    {
      var n := |budget.recorded|;
      budget.Record(cost, writer.model.ledgerAccepts(n), writer.model.stamp(n));
    }

    method Draft(budget: LlmBudget?, writer: Writer, authored: string -> Option<string>, p: Proposal,
                 message: Option<FetchedMessage>, examples: seq<Example>) returns (drafted: Drafted)
      modifies this`drafts, this`modelCalls, budget
      ensures (drafted, DeskOf(budget, writer)) ==
        ResolveDraft(old(DeskOf(budget, writer)), writer.model, authored, p, message, examples)
    {
      drafted := Fallback(authored, p);
      if message.None? || !(p.kind.Reply? || p.kind.Escalate?) {
        return;
      }
      var key := KeyFor(message.value, p.kind, examples);
      if key in drafts && drafts[key].body != "" {
        return Drafted(Some(drafts[key].body), "llm", Some(drafts[key].confidence), drafts[key].rationale);
      }
      var mayCall := MayCallModel(budget, writer);
      if mayCall {
        var answer := writer.model.drafts(modelCalls);
        modelCalls := modelCalls + 1;
        if answer.Some? {
          var r := answer.value;
          BillCall(budget, writer, r.cost);
          drafts := drafts[key := CachedDraft(r.body, r.rationale, r.confidence)];
          return Drafted(Some(r.body), "llm", Some(r.confidence), r.rationale);
        }
      }
    }

    method AskCheck(budget: LlmBudget?, writer: Writer) returns (check: Option<ModelCheck>)
      modifies this`modelCalls
      ensures (check, DeskOf(budget, writer)) == AskForCheck(old(DeskOf(budget, writer)), writer.model)
    {
      check := None;
      var mayCall := MayCallModel(budget, writer);
      if mayCall {
        check := writer.model.checks(modelCalls);
        modelCalls := modelCalls + 1;
      }
    }

    method BillVerdict(budget: LlmBudget?, writer: Writer, cost: real)
      modifies budget
      ensures DeskOf(budget, writer) == BillCheck(old(DeskOf(budget, writer)), writer.model, cost)
    {
      if budget != null && cost != 0.0 {
        BillCall(budget, writer, cost);
      }
    }

    method Verify(budget: LlmBudget?, writer: Writer, guards: Guards, body: string, m: FetchedMessage, kind: ActionType)
      returns (verdict: Verdict)
      modifies this`modelCalls, budget
      ensures (verdict, DeskOf(budget, writer)) ==
        VerifyHeld(old(DeskOf(budget, writer)), writer.model, guards, body, m, kind)
    {
      var check := AskCheck(budget, writer);
      verdict := VerifyDraft(body, SourceOf(m), kind, guards, check);
      BillVerdict(budget, writer, verdict.cost);
    }

    method HoldForApproval(budget: LlmBudget?, setting: Setting, p: Proposal, messageId: nat)
      modifies this`drafts, this`modelCalls, this`actions, budget
      ensures
        var (content, prose, desk) := WriteHeld(
          old(DeskOf(budget, setting.writer)), setting.writer.model, setting.inp.guards, setting.inp.authored, p,
          LastMessage(setting.inp.fetched, p.emailId), ExamplesFor(setting, p.kind));
        && DeskOf(budget, setting.writer) == desk
        && actions == old(actions) + [HeldAction(messageId, p, content, prose)]
    {
      var message := LastMessage(setting.inp.fetched, p.emailId);
      var drafted := Draft(budget, setting.writer, setting.inp.authored, p, message, ExamplesFor(setting, p.kind));
      var prose := Prose(Some(drafted.source), drafted.confidence, drafted.rationale, None, [], []);
      if Truthy(drafted.body) && message.Some? {
        var verdict := Verify(budget, setting.writer, setting.inp.guards, drafted.body.value, message.value, p.kind);
        prose := prose.(verification := Some(if verdict.flagged then "flagged" else "verified"),
                        notes := verdict.notes, claims := verdict.findings);
      }
      actions := actions + [HeldAction(messageId, p, drafted.body, prose)];
    }

    // -- the proposal loop --------------------------------------------------------------------

    method FileDeferred(setting: Setting, p: Proposal, messageId: nat)
      requires IsVetoed(setting, p)
      modifies this`writes, this`actions
      ensures State() == Downgrade(old(State()), setting, p, messageId)
    {
      var pair := (p.kind, SignalRole(setting.emails, p.emailId));
      var result := WriteTo(setting.inp.provider, AddLabel([p.emailId], "deferred"));
      var row := AutoAction(messageId, Defer, None, None, "deferred", result, setting.inp.now);
      actions := actions + [row.(prose := NO_PROSE.(rationale := [VetoReason(pair, setting.vetoes[pair])]))];
    }

    /** One turn of the loop: skip, wait for a label, hold for a human, or file as deferred. */
    method ProposeOne(budget: LlmBudget?, setting: Setting, p: Proposal, before: seq<Group>, ghost g: Progress)
      returns (groups: seq<Group>, proposed: nat, skipped: nat, downgraded: nat)
      requires g.store == State() && g.desk == DeskOf(budget, setting.writer) && g.groups == before
      modifies this`writes, this`actions, this`drafts, this`modelCalls, budget
      ensures Propose(g, setting, p) ==
        Progress(State(), DeskOf(budget, setting.writer), groups,
                 g.proposed + proposed, g.skipped + skipped, g.downgraded + downgraded)
    {
      groups, proposed, skipped, downgraded := before, 0, 0, 0;
      if p.emailId !in setting.ids {
        return;
      }
      var messageId := setting.ids[p.emailId];
      var activeTypes := ActiveTypesForMessage(messageId);
      assert p.kind in activeTypes <==> Active(actions, messageId, p.kind);
      if p.kind in activeTypes {
        skipped := 1;
      } else if !p.requiresApproval {
        groups := AddToGroup(groups, LabelTextFor(p), Item(p, messageId));
      } else if !IsVetoed(setting, p) {
        HoldForApproval(budget, setting, p, messageId);
        proposed := 1;
      } else if Defer in activeTypes {
        skipped := 1;
      } else {
        FileDeferred(setting, p, messageId);
        downgraded := 1;
      }
    }

    /** Works through the proposals, leaving the labels still to be applied. */
    method WorkThrough(budget: LlmBudget?, setting: Setting, proposals: seq<Proposal>)
      returns (groups: seq<Group>, proposed: nat, skipped: nat, downgraded: nat)
      modifies this`writes, this`actions, this`drafts, this`modelCalls, budget
      ensures Progress(State(), DeskOf(budget, setting.writer), groups, proposed, skipped, downgraded) ==
        ProposeAll(Progress(old(State()), old(DeskOf(budget, setting.writer)), [], 0, 0, 0), setting, proposals)
    {
      groups, proposed, skipped, downgraded := [], 0, 0, 0;
      ghost var start := Progress(State(), DeskOf(budget, setting.writer), [], 0, 0, 0);
      for i := 0 to |proposals|
        invariant Progress(State(), DeskOf(budget, setting.writer), groups, proposed, skipped, downgraded) ==
          ProposeAll(start, setting, proposals[..i])
      {
        ghost var g := ProposeAll(start, setting, proposals[..i]);
        ProposeAllStep(start, setting, proposals, i);
        var held, skips, filed;
        groups, held, skips, filed := ProposeOne(budget, setting, proposals[i], groups, g);
        proposed, skipped, downgraded := proposed + held, skipped + skips, downgraded + filed;
      }
      assert proposals[..|proposals|] == proposals;
    }

    // -- applying labels --------------------------------------------------------------------------

    method LabelItems(inp: SyncInput, g: Group) returns (results: seq<WriteResult>)
      modifies this`writes
      ensures (results, writes) == LabelGroup(old(writes), inp, g)
    {
      if inp.batches && |g.items| > 1 {
        var result := WriteTo(inp.provider, AddLabel(ItemIds(g.items), g.name));
        return seq(|g.items|, _ => result);
      }
      results := [];
      for i := 0 to |g.items|
        invariant (results, writes) == LabelEach(old(writes), inp.provider, g.items[..i], g.name)
      {
        assert g.items[..i + 1][..i] == g.items[..i];
        var result := WriteTo(inp.provider, AddLabel([g.items[i].proposal.emailId], g.name));
        results := results + [result];
      }
      assert g.items[..|g.items|] == g.items;
    }

    method ApplyLabel(inp: SyncInput, g: Group)
      modifies this`writes, this`actions
      ensures State() == ApplyGroup(old(State()), inp, g)
    {
      var results := LabelItems(inp, g);
      ghost var labelled := writes;
      for k := 0 to |g.items|
        invariant writes == labelled
        invariant actions == CreateAuto(old(actions), g.items[..k], results[..k], g.name, inp.now)
      {
        assert g.items[..k + 1][..k] == g.items[..k] && results[..k + 1][..k] == results[..k];
        actions := actions + [AutoActionFor(g.items[k], g.name, results[k], inp.now)];
      }
      assert g.items[..|g.items|] == g.items && results[..|g.items|] == results;
    }

    method ApplyLabels(inp: SyncInput, groups: seq<Group>) returns (autoCount: nat)
      modifies this`writes, this`actions
      ensures State() == ApplyGroups(old(State()), inp, groups) && autoCount == ItemCount(groups)
    {
      autoCount := 0;
      for i := 0 to |groups|
        invariant State() == ApplyGroups(old(State()), inp, groups[..i]) && autoCount == ItemCount(groups[..i])
      {
        assert groups[..i + 1][..i] == groups[..i];
        ApplyLabel(inp, groups[i]);
        autoCount := autoCount + |groups[i].items|;
      }
      assert groups[..|groups|] == groups;
    }

    // -- sync ---------------------------------------------------------------------------------------

    /** The policy's proposals for one inbox. */
    method Decide(obs: Observation, terms: Terms) returns (proposals: seq<Proposal>)
      requires Quiet(obs)
      ensures proposals == InboxProposals(obs, terms)
    {
      var plan := RunPolicy(obs, terms);
      RunPolicyIsPlan(obs, terms);
      proposals := ToProposals(plan);
    }

    method OpenBudget(writer: Writer) returns (budget: LlmBudget?)
      requires ValidInstant(writer.clock)
      ensures budget != null ==> fresh(budget)
      ensures DeskOf(budget, writer) == OpenDesk(writer, OnShelf())
    {
      budget := null;
      if writer.live {
        budget := new LlmBudget(writer.orgId, writer.limit, ledger, writer.ledgerReadable, writer.clock);
      }
    }

    method StoreInbox(inp: SyncInput, es: seq<Email>, spam: set<string>)
      returns (rowByProviderId: map<string, nat>, commitments: nat)
      requires |es| == |inp.fetched|
      modifies this`messages, this`followUps
      ensures (State(), rowByProviderId, commitments) == ReadInbox(old(State()), inp, es, spam)
    {
      rowByProviderId := PersistMessages(inp.connection, inp.fetched, es);
      commitments := RecordCommitments(inp.fetched, rowByProviderId, spam, inp.reader, inp.today);
    }

    /** Enrich, decide, persist: everything before the proposal loop. */
    method PrepareSync(account: string, inp: SyncInput, writer: Writer)
      returns (budget: LlmBudget?, setting: Setting, proposals: seq<Proposal>, commitments: nat)
      requires ValidInstant(writer.clock)
      modifies this`messages, this`followUps
      ensures proposals == ProposalsOf(inp, account)
      ensures budget != null ==> fresh(budget)
      ensures setting.writer == writer
      ensures (Progress(State(), DeskOf(budget, writer), [], 0, 0, 0), setting, commitments) ==
        Prepare(old(State()), account, inp, writer, old(OnShelf()))
    {
      var obs := ToObservation(inp.fetched, account, inp.terms);
      proposals := Decide(obs, inp.terms);
      budget := OpenBudget(writer);
      var decided := ListDecided(actions, messages);
      var vetoes := SuppressedPairs(decided);
      var rowByProviderId;
      rowByProviderId, commitments := StoreInbox(inp, obs.emails, SpamIds(proposals));
      var examples := ExamplesFrom(actions, messages);
      setting := Setting(inp, writer, obs.emails, rowByProviderId, vetoes, examples);
    }

    method SyncConnected(account: string, inp: SyncInput, writer: Writer) returns (report: Report)
      requires ValidInstant(writer.clock)
      modifies this
      ensures Synced(State(), OnShelf(), report) == SyncOnce(old(State()), account, inp, writer, old(OnShelf()))
    {
      ghost var store, shelf := State(), OnShelf();
      var budget, setting, proposals, commitments := PrepareSync(account, inp, writer);
      ghost var start := Progress(State(), DeskOf(budget, writer), [], 0, 0, 0);
      var groups, proposed, skipped, downgraded := WorkThrough(budget, setting, proposals);
      ghost var worked := Progress(State(), DeskOf(budget, writer), groups, proposed, skipped, downgraded);
      if budget != null {
        ledger := budget.ledger;
      }
      assert OnShelf() == CloseDesk(worked.desk) && State() == worked.store;
      var autoCount := ApplyLabels(inp, groups);
      assert OnShelf() == CloseDesk(worked.desk);
      report := Report(|inp.fetched|, proposed, autoCount, skipped, downgraded, commitments);
      SyncOnceIs(store, account, inp, writer, shelf, start, setting, commitments, worked);
    }

    method Sync(inp: SyncInput, writer: Writer) returns (r: Result<Report, ProcessingError>)
      requires ValidInstant(writer.clock)
      modifies this
      ensures match SyncSpec(old(State()), inp, writer, old(OnShelf()))
        case Err(e) => r == Err(e) && State() == old(State()) && OnShelf() == old(OnShelf())
        case Ok(done) => r == Ok(done.report) && State() == done.store && OnShelf() == done.shelf
    {
      if !inp.planActive {
        return Err(PlanLapsed);
      }
      if inp.connection !in connections {
        return Err(NotFound);
      }
      var report := SyncConnected(connections[inp.connection], inp, writer);
      return Ok(report);
    }

    // -- decisions ----------------------------------------------------------------------------------

    method Dispatch(provider: Provider, row: ActionRow, id: nat, providerId: string) returns (result: WriteResult)
      modifies this`writes, this`dispatches
      ensures (result, State()) == Execute(old(State()), provider, row, id, providerId)
    {
      ghost var before := State();
      var w: Option<Write> := None;
      match row.kind {
        case Reply =>
          w := Some(SendReply(providerId, if Truthy(row.content) then row.content.value else GENERIC_REPLY));
        case Escalate =>
          var role := RoleOf(row);
          if role != "" && role in contacts && contacts[role] != "" {
            w := Some(EscalationDraft(providerId,
                        Text.Strip("Escalating to " + Text.Underscored(role) + ".\n\n" + row.content.GetOr("")),
                          contacts[role]));
          }
        case _ =>
          w := Some(AddLabel([providerId], if Truthy(row.labelText) then row.labelText.value else TypeName(row.kind)));
      }
      assert w == WriteFor(before, row, providerId);
      if w.None? {
        result := NoMailbox(row);
      } else {
        result := WriteTo(provider, w.value);
      }
      dispatches := dispatches + [Tables.Dispatch(id, w, result.ok)];
    }

    method Approve(a: Approval) returns (r: Result<ActionRow, ProcessingError>)
      modifies this
      ensures OnShelf() == old(OnShelf())
      ensures match ApproveSpec(old(State()), a)
        case Err(e) => r == Err(e) && State() == old(State())
        case Ok(after) => State() == after && r == Ok(after.actions[a.actionId])
    {
      if !a.planActive {
        return Err(PlanLapsed);
      }
      if a.actionId >= |actions| {
        return Err(NotFound);
      }
      var row := actions[a.actionId];
      if !row.status.Proposed? {
        return Err(AlreadyDecided(row.status));
      }
      if row.messageId >= |messages| {
        return Err(NotFound);
      }
      var message := messages[row.messageId];
      var sent := Amended(row, a.edited);
      var result := Dispatch(a.provider, sent, a.actionId, message.providerId);
      actions := actions[a.actionId := ApprovedRow(row, a, result)];
      if result.ok && sent.kind.Reply? && Truthy(sent.content) {
        var found := Extract(a.reader, sent.content.value, Ours, false, a.today);
        if found.Ok? {
          var _ := RecordFound(found.value, sent.messageId, message.threadId, message.sender, message.subject);
        }
      }
      return Ok(actions[a.actionId]);
    }

    method Reject(userId: string, id: nat, now: int) returns (r: Result<ActionRow, ProcessingError>)
      modifies this`actions
      ensures match RejectSpec(old(State()), userId, id, now)
        case Err(e) => r == Err(e) && State() == old(State())
        case Ok(after) => State() == after && r == Ok(after.actions[id])
    {
      if id >= |actions| {
        return Err(NotFound);
      }
      if !actions[id].status.Proposed? {
        return Err(AlreadyDecided(actions[id].status));
      }
      actions := actions[id := RejectedRow(actions[id], userId, now)];
      return Ok(actions[id]);
    }

    /** Re-dispatch one action, from the row as it was listed. */
    method RetryAction(action: ActionRow, id: nat, retry: Retry) returns (report: RetryReport)
      requires id < |actions| && actions[id] == action
      modifies this`actions, this`writes, this`dispatches
      ensures (State(), report) == RetryOne(old(State()), id, retry)
      ensures OnlyRow(old(actions), actions, id)
    {
      var route := None;
      if action.messageId < |messages| && messages[action.messageId].connection in connections {
        route := retry.providers(messages[action.messageId].connection);
      }
      if route.None? {
        return RetryReport(0, 0, 0);
      }
      var result := Dispatch(route.value, action, id, messages[action.messageId].providerId);
      actions := actions[id := RetriedRow(action, result, retry.now)];
      return if result.ok then RetryReport(1, 1, 0) else RetryReport(1, 0, 1);
    }

    method RetryFailedSends(retry: Retry) returns (report: RetryReport)
      modifies this`actions, this`writes, this`dispatches
      ensures (State(), report) == RetrySpec(old(State()), retry)
    {
      var ids := ListFailedSends(actions, retry.maxRetries);
      var listed := actions;
      ghost var start := State();
      report := RetryReport(0, 0, 0);
      ListedAreInTable(listed, retry.maxRetries);
      for i := 0 to |ids|
        invariant Untouched(listed, actions, ids, i)
        invariant (State(), report) == RetryAll(start, ids[..i], retry)
      {
        RetryAllStep(start, ids, i, retry);
        ghost var before := actions;
        var one := RetryAction(listed[ids[i]], ids[i], retry);
        report := AddReports(report, one);
        UntouchedNext(listed, before, actions, ids, i);
      }
      assert ids[..|ids|] == ids;
    }
  }
}
