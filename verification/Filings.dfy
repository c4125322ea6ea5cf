// What a sync adds, proposal by proposal: which rows it files, how they are held or
// labelled, and what it writes to the mailbox. Told without the functions that do it.
module Filings {
  import opened Prelude
  import opened Mail
  import opened Enrich
  import opened Pipeline
  import opened IsoTime
  import opened Rubric
  import opened Learning
  import opened Drafting
  import opened Tables
  import opened Sync
  import opened Uniqueness
  import opened Resync
  import opened Rulings

  // -- one row, one write -------------------------------------------------------------------------

  /** The mailbox label a proposal filed without asking gets. */
  predicate NamedFor(name: string, p: Proposal) {
    && (p.kind.Defer? ==> name == "deferred")
    && (p.kind.Classify? ==>
          match p.labelled
          case Some(Spam) => name == "spam"
          case Some(Normal) => name == "normal"
          case Some(Urgent) => name == "urgent"
          case None => false)
  }

  /** Held for a person, undecided, its draft checked against the message it answers. */
  ghost predicate HeldFor(row: ActionRow, p: Proposal, fetched: seq<FetchedMessage>) {
    && p.requiresApproval && row.requiresApproval && row.status.Proposed?
    && row.kind == p.kind && row.escalateTo == p.escalateTo
    && exists m :: m in fetched && m.providerId == p.emailId && FreshlyChecked(row.content, row.prose, m)
  }

  /** Filed without asking, under the label its proposal calls for. */
  predicate LabelledFor(row: ActionRow, p: Proposal) {
    && !p.requiresApproval && !row.requiresApproval && row.kind == p.kind
    && row.labelText.Some? && NamedFor(row.labelText.value, p)
  }

  /** Filed as deferred in place of a proposal the rulings veto. */
  predicate DeferredFor(row: ActionRow, p: Proposal) {
    p.requiresApproval && !row.requiresApproval && row.kind.Defer? && row.labelText == Some("deferred")
  }

  /** It says why: how many of how many such proposals were rejected. */
  predicate SaysWhy(row: ActionRow, pair: Pair, s: PairStats) {
    row.prose.rationale ==
      ["Downgraded from " + TypeName(pair.0) + ": you rejected " + Decimal(s.rejected) + " of the last "
       + Decimal(s.Total()) + " " + TypeName(pair.0) + " proposals for " + RoleName(pair.1) + " senders"]
  }

  ghost predicate FiledFor(row: ActionRow, p: Proposal, setting: Setting) {
    && p.emailId in setting.ids && setting.ids[p.emailId] == row.messageId && RowSound(row)
    && if IsVetoed(setting, p) && p.requiresApproval then
         var pair := (p.kind, SignalRole(setting.emails, p.emailId));
         DeferredFor(row, p) && SaysWhy(row, pair, setting.vetoes[pair])
       else
         HeldFor(row, p, setting.inp.fetched) || LabelledFor(row, p)
  }

  /** The row is filed for one of these proposals. */
  ghost predicate StandsForOne(row: ActionRow, ps: seq<Proposal>, setting: Setting) {
    exists p :: p in ps && FiledFor(row, p, setting)
  }

  /** Every row from the n-th on is filed for one of these proposals. */
  ghost predicate FiledFrom(rows: seq<ActionRow>, n: nat, ps: seq<Proposal>, setting: Setting) {
    forall i :: n <= i < |rows| ==> StandsForOne(rows[i], ps, setting)
  }

  /** A label write on this message is one its proposal calls for. */
  predicate LabelCalledFor(id: string, name: string, p: Proposal, setting: Setting) {
    && p.emailId == id
    && if p.requiresApproval then IsVetoed(setting, p) && name == "deferred" else NamedFor(name, p)
  }

  /** A write puts one label on messages whose proposals call for it. */
  ghost predicate WriteCalledFor(w: Write, ps: seq<Proposal>, setting: Setting) {
    w.AddLabel? && forall id :: id in w.ids ==> exists p :: p in ps && LabelCalledFor(id, w.name, p, setting)
  }

  ghost predicate WrittenFrom(ws: seq<Write>, n: nat, ps: seq<Proposal>, setting: Setting) {
    forall i :: n <= i < |ws| ==> WriteCalledFor(ws[i], ps, setting)
  }

  /** An item waits under the label its proposal calls for. */
  predicate ItemFits(item: Item, name: string, ps: seq<Proposal>, setting: Setting) {
    && item.proposal in ps && !item.proposal.requiresApproval && NamedFor(name, item.proposal)
    && item.proposal.emailId in setting.ids && setting.ids[item.proposal.emailId] == item.messageId
  }

  predicate ItemsAllFit(items: seq<Item>, name: string, ps: seq<Proposal>, setting: Setting) {
    forall k :: 0 <= k < |items| ==> ItemFits(items[k], name, ps, setting)
  }

  predicate GroupsAllFit(groups: seq<Group>, ps: seq<Proposal>, setting: Setting) {
    forall k :: 0 <= k < |groups| ==> ItemsAllFit(groups[k].items, groups[k].name, ps, setting)
  }

  // -- the proposal loop ---------------------------------------------------------------------------

  /** What the setting of a sync promises: every id has its fetched message. */
  ghost predicate SettingFits(setting: Setting) {
    forall id :: id in setting.ids ==> LastMessage(setting.inp.fetched, id).Some?
  }

  lemma {:induction false} LastMessageIsOne(ms: seq<FetchedMessage>, id: string)
    ensures LastMessage(ms, id).Some? <==> exists m :: m in ms && m.providerId == id
    ensures LastMessage(ms, id).Some? ==>
      LastMessage(ms, id).value in ms && LastMessage(ms, id).value.providerId == id
  {
    if ms != [] {
      var n := |ms| - 1;
      LastMessageIsOne(ms[..n], id);
      assert ms[n] in ms && forall m :: m in ms[..n] ==> m in ms;
      if m :| m in ms && m.providerId == id && m != ms[n] {
        assert m in ms[..n];
      }
    }
  }

  lemma LabelTextIsNamed(p: Proposal)
    requires p.labelled.Some? <==> p.kind.Classify?
    ensures NamedFor(LabelTextFor(p), p)
  {
  }

  lemma HoldIsFiled(g: Progress, setting: Setting, p: Proposal)
    requires SettingFits(setting) && p.requiresApproval && p.emailId in setting.ids && !IsVetoed(setting, p)
    ensures
      var after := Hold(g, setting, p, setting.ids[p.emailId]);
      && after.store == g.store.(actions := after.store.actions) && after.groups == g.groups
      && |after.store.actions| == |g.store.actions| + 1 && g.store.actions <= after.store.actions
      && FiledFor(after.store.actions[|g.store.actions|], p, setting)
  {
    var id := setting.ids[p.emailId];
    LastMessageIsOne(setting.inp.fetched, p.emailId);
    var m := LastMessage(setting.inp.fetched, p.emailId).value;
    var examples := ExamplesFor(setting, p.kind);
    var (content, prose, _) :=
      WriteHeld(g.desk, setting.writer.model, setting.inp.guards, setting.inp.authored, p, Some(m), examples);
    WrittenIsChecked(g.desk, setting.writer.model, setting.inp.guards, setting.inp.authored, p, m, examples);
    HeldIsSound(id, p, content, prose, m);
    var row := Hold(g, setting, p, id).store.actions[|g.store.actions|];
    assert row == HeldAction(id, p, content, prose);
    assert HeldFor(row, p, setting.inp.fetched);
  }

  lemma DowngradeIsFiled(store: Store, setting: Setting, p: Proposal)
    requires p.requiresApproval && p.emailId in setting.ids && IsVetoed(setting, p)
    ensures
      var after := Downgrade(store, setting, p, setting.ids[p.emailId]);
      && |after.actions| == |store.actions| + 1 && store.actions <= after.actions
      && FiledFor(after.actions[|store.actions|], p, setting)
      && after.writes == store.writes + [AddLabel([p.emailId], "deferred")]
  {
    var id, pair := setting.ids[p.emailId], (p.kind, SignalRole(setting.emails, p.emailId));
    var result := Answer(store, setting.inp.provider, AddLabel([p.emailId], "deferred"));
    AutoIsSound(id, Defer, None, None, "deferred", result, setting.inp.now, [VetoReason(pair, setting.vetoes[pair])]);
  }

  lemma {:induction false} AddFits(groups: seq<Group>, name: string, item: Item, ps: seq<Proposal>, setting: Setting)
    requires GroupsAllFit(groups, ps, setting) && ItemFits(item, name, ps, setting)
    ensures GroupsAllFit(AddToGroup(groups, name, item), ps, setting)
  {
    var after := AddToGroup(groups, name, item);
    if groups == [] {
      assert after[0].items == [item];
    } else if groups[0].name == name {
      var items := after[0].items;
      assert forall k :: 0 <= k < |items| ==> ItemFits(items[k], name, ps, setting);
      assert forall k :: 1 <= k < |after| ==> after[k] == groups[k];
    } else {
      AddFits(groups[1..], name, item, ps, setting);
      assert forall k :: 1 <= k < |after| ==> after[k] == AddToGroup(groups[1..], name, item)[k - 1];
    }
  }

  /** What the loop has filed, written and left waiting is what the proposals call for. */
  ghost predicate LoopFits(g: Progress, n: nat, w: nat, ps: seq<Proposal>, setting: Setting) {
    && n <= |g.store.actions| && FiledFrom(g.store.actions, n, ps, setting)
    && w <= |g.store.writes| && WrittenFrom(g.store.writes, w, ps, setting)
    && GroupsAllFit(g.groups, ps, setting)
  }

  lemma FiledOneMore(
      rows: seq<ActionRow>, after: seq<ActionRow>, n: nat, ps: seq<Proposal>, p: Proposal, setting: Setting)
    requires n <= |rows| && FiledFrom(rows, n, ps, setting) && p in ps
    requires |after| == |rows| + 1 && rows <= after && FiledFor(after[|rows|], p, setting)
    ensures FiledFrom(after, n, ps, setting)
  {
    forall i | n <= i < |after| ensures StandsForOne(after[i], ps, setting) {
      if i < |rows| {
        assert after[i] == rows[i];
      }
    }
  }

  lemma ProposeFits(g: Progress, n: nat, w: nat, ps: seq<Proposal>, p: Proposal, setting: Setting)
    requires SettingFits(setting) && LoopFits(g, n, w, ps, setting) && p in ps
    requires p.labelled.Some? <==> p.kind.Classify?
    ensures LoopFits(Propose(g, setting, p), n, w, ps, setting)
  {
    if p.emailId in setting.ids && !Active(g.store.actions, setting.ids[p.emailId], p.kind) {
      var id := setting.ids[p.emailId];
      if !p.requiresApproval {
        LabelTextIsNamed(p);
        AddFits(g.groups, LabelTextFor(p), Item(p, id), ps, setting);
      } else if !IsVetoed(setting, p) {
        HoldIsFiled(g, setting, p);
        FiledOneMore(g.store.actions, Hold(g, setting, p, id).store.actions, n, ps, p, setting);
      } else if !Active(g.store.actions, id, Defer) {
        DowngradeIsFiled(g.store, setting, p);
        FiledOneMore(g.store.actions, Downgrade(g.store, setting, p, id).actions, n, ps, p, setting);
        assert LabelCalledFor(p.emailId, "deferred", p, setting);
      }
    }
  }

  lemma {:induction false} ProposeAllFits(
      g: Progress, n: nat, w: nat, ps: seq<Proposal>, k: nat, setting: Setting)
    requires SettingFits(setting) && LoopFits(g, n, w, ps, setting) && k <= |ps| && LabelledAsClassified(ps)
    ensures LoopFits(ProposeAll(g, setting, ps[..k]), n, w, ps, setting)
  {
    if k > 0 {
      ProposeAllFits(g, n, w, ps, k - 1, setting);
      ProposeAllStep(g, setting, ps, k - 1);
      ProposeFits(ProposeAll(g, setting, ps[..k - 1]), n, w, ps, ps[k - 1], setting);
    }
  }

  // -- applying the labels ---------------------------------------------------------------------------

  lemma {:induction false} CreateAutoFits(
      rows: seq<ActionRow>, items: seq<Item>, results: seq<WriteResult>, name: string, now: int, n: nat,
      ps: seq<Proposal>, setting: Setting)
    requires |items| == |results| && n <= |rows| && FiledFrom(rows, n, ps, setting)
    requires ItemsAllFit(items, name, ps, setting)
    ensures var after := CreateAuto(rows, items, results, name, now);
      rows <= after && FiledFrom(after, n, ps, setting)
  {
    if items != [] {
      var k := |items| - 1;
      var before, p := CreateAuto(rows, items[..k], results[..k], name, now), items[k].proposal;
      assert forall i :: 0 <= i < k ==> items[..k][i] == items[i];
      CreateAutoFits(rows, items[..k], results[..k], name, now, n, ps, setting);
      var row := AutoActionFor(items[k], name, results[k], now);
      AutoIsSound(items[k].messageId, p.kind, p.content, p.escalateTo, name, results[k], now, []);
      assert LabelledFor(row, p) && FiledFor(row, p, setting);
      FiledOneMore(before, before + [row], n, ps, p, setting);
    }
  }

  lemma {:induction false} ItemIdsAreItems(items: seq<Item>, id: string) returns (k: nat)
    requires id in ItemIds(items)
    ensures k < |items| && items[k].proposal.emailId == id
  {
    if items[0].proposal.emailId == id {
      k := 0;
    } else {
      k := ItemIdsAreItems(items[1..], id);
      k := k + 1;
    }
  }

  lemma {:induction false} LabelEachFits(
      ws: seq<Write>, provider: Provider, items: seq<Item>, name: string, w: nat, ps: seq<Proposal>, setting: Setting)
    requires w <= |ws| && WrittenFrom(ws, w, ps, setting) && ItemsAllFit(items, name, ps, setting)
    ensures var after := LabelEach(ws, provider, items, name).1; ws <= after && WrittenFrom(after, w, ps, setting)
  {
    if items != [] {
      var k := |items| - 1;
      assert forall i :: 0 <= i < k ==> items[..k][i] == items[i];
      LabelEachFits(ws, provider, items[..k], name, w, ps, setting);
      assert LabelCalledFor(items[k].proposal.emailId, name, items[k].proposal, setting);
    }
  }

  lemma LabelGroupFits(ws: seq<Write>, inp: SyncInput, g: Group, w: nat, ps: seq<Proposal>, setting: Setting)
    requires w <= |ws| && WrittenFrom(ws, w, ps, setting) && ItemsAllFit(g.items, g.name, ps, setting)
    ensures var after := LabelGroup(ws, inp, g).1; ws <= after && WrittenFrom(after, w, ps, setting)
  {
    if inp.batches && |g.items| > 1 {
      forall id | id in ItemIds(g.items) ensures exists p :: p in ps && LabelCalledFor(id, g.name, p, setting) {
        var k := ItemIdsAreItems(g.items, id);
        assert ItemFits(g.items[k], g.name, ps, setting);
        assert LabelCalledFor(id, g.name, g.items[k].proposal, setting);
      }
    } else {
      LabelEachFits(ws, inp.provider, g.items, g.name, w, ps, setting);
    }
  }

  lemma {:induction false} ApplyGroupsFits(
      store: Store, inp: SyncInput, groups: seq<Group>, n: nat, w: nat, ps: seq<Proposal>, setting: Setting)
    requires n <= |store.actions| && FiledFrom(store.actions, n, ps, setting)
    requires w <= |store.writes| && WrittenFrom(store.writes, w, ps, setting) && GroupsAllFit(groups, ps, setting)
    ensures var after := ApplyGroups(store, inp, groups);
      && store.actions <= after.actions && FiledFrom(after.actions, n, ps, setting)
      && store.writes <= after.writes && WrittenFrom(after.writes, w, ps, setting)
  {
    if groups != [] {
      var k := |groups| - 1;
      assert forall i :: 0 <= i < k ==> groups[..k][i] == groups[i];
      ApplyGroupsFits(store, inp, groups[..k], n, w, ps, setting);
      var before := ApplyGroups(store, inp, groups[..k]);
      var results := LabelGroup(before.writes, inp, groups[k]).0;
      LabelGroupFits(before.writes, inp, groups[k], w, ps, setting);
      CreateAutoFits(before.actions, groups[k].items, results, groups[k].name, inp.now, n, ps, setting);
    }
  }

  // -- a whole sync ------------------------------------------------------------------------------------

  lemma PreparedSettingFits(store: Store, account: string, inp: SyncInput, writer: Writer, shelf: Shelf)
    requires ValidInstant(writer.clock)
    ensures SettingFits(Prepare(store, account, inp, writer, shelf).1)
  {
    var setting := Prepare(store, account, inp, writer, shelf).1;
    PersistIdsComeFromMessages(store.messages, inp.connection, inp.fetched, Emails(inp, account));
    forall id | id in setting.ids ensures LastMessage(inp.fetched, id).Some? {
      LastMessageIsOne(inp.fetched, id);
    }
  }

  lemma SyncWorksWhatFits(store: Store, account: string, inp: SyncInput, writer: Writer, shelf: Shelf)
    requires ValidInstant(writer.clock)
    ensures
      var (start, setting, _) := Prepare(store, account, inp, writer, shelf);
      LoopFits(ProposeAll(start, setting, ProposalsOf(inp, account)), |store.actions|, |store.writes|,
               ProposalsOf(inp, account), setting)
  {
    var ps := ProposalsOf(inp, account);
    var (start, setting, _) := Prepare(store, account, inp, writer, shelf);
    PreparedSetting(store, account, inp, writer, shelf);
    PreparedSettingFits(store, account, inp, writer, shelf);
    InboxProposalsAreLabelled(ToObservation(inp.fetched, account, inp.terms), inp.terms);
    ProposeAllFits(start, |store.actions|, |store.writes|, ps, |ps|, setting);
    assert ps[..|ps|] == ps;
  }

  /**
   * Everything a sync files and writes is called for: each new row stands for one of
   * the inbox's proposals, held with its draft checked, labelled as its verdict says,
   * or deferred under a veto; and each write puts such a label on such messages.
   */
  lemma SyncFilesWhatIsProposed(store: Store, account: string, inp: SyncInput, writer: Writer, shelf: Shelf)
    requires ValidInstant(writer.clock)
    ensures
      var after := SyncOnce(store, account, inp, writer, shelf).store;
      var (ps, setting) := (ProposalsOf(inp, account), Prepare(store, account, inp, writer, shelf).1);
      && store.actions <= after.actions && FiledFrom(after.actions, |store.actions|, ps, setting)
      && store.writes <= after.writes && WrittenFrom(after.writes, |store.writes|, ps, setting)
  {
    var ps := ProposalsOf(inp, account);
    var (start, setting, _) := Prepare(store, account, inp, writer, shelf);
    PreparedSetting(store, account, inp, writer, shelf);
    SyncWorksWhatFits(store, account, inp, writer, shelf);
    var worked := ProposeAll(start, setting, ps);
    ProposeAllGrows(start, setting, ps);
    ProposeAllWrites(start, setting, ps);
    ApplyGroupsFits(worked.store, inp, worked.groups, |store.actions|, |store.writes|, ps, setting);
  }

  lemma {:induction false} ProposeAllWrites(g: Progress, setting: Setting, ps: seq<Proposal>)
    ensures g.store.writes <= ProposeAll(g, setting, ps).store.writes
  {
    if ps != [] {
      ProposeAllWrites(g, setting, ps[..|ps| - 1]);
    }
  }

  lemma SyncKeepsRows(store: Store, account: string, inp: SyncInput, writer: Writer, shelf: Shelf)
    requires ValidInstant(writer.clock) && RowsSound(store.actions)
    ensures RowsSound(SyncOnce(store, account, inp, writer, shelf).store.actions)
  {
    SyncFilesWhatIsProposed(store, account, inp, writer, shelf);
    FiledRowsAreSound(store.actions, SyncOnce(store, account, inp, writer, shelf).store.actions,
      ProposalsOf(inp, account), Prepare(store, account, inp, writer, shelf).1);
  }

  lemma FiledRowsAreSound(rows: seq<ActionRow>, after: seq<ActionRow>, ps: seq<Proposal>, setting: Setting)
    requires RowsSound(rows) && rows <= after && FiledFrom(after, |rows|, ps, setting)
    ensures RowsSound(after)
  {
    forall i | 0 <= i < |after| ensures RowSound(after[i]) {
      if i >= |rows| {
        assert StandsForOne(after[i], ps, setting);
        var p :| p in ps && FiledFor(after[i], p, setting);
      } else {
        assert after[i] == rows[i];
      }
    }
  }

  /** No proposal for mail that is not urgent needs approval. */
  lemma OnlyUrgentMailAsks(inp: SyncInput, account: string, i: nat, p: Proposal)
    requires i < |inp.fetched| && DistinctInbox(EnrichAll(inp.fetched, account, inp.terms))
    requires !ClassifyHeuristic(EnrichMessage(inp.fetched[i], account, inp.terms), inp.terms).Urgent?
    requires p in ProposalsOf(inp, account) && p.emailId == inp.fetched[i].providerId
    ensures !p.requiresApproval
  {
    RoutingOfFetchedMessage(inp.fetched, account, inp.terms, i);
    ProposalsForMember(ProposalsOf(inp, account), p);
  }

  /** The row a fetched message has, as a sync finds or makes it. */
  function RowOfFetched(store: Store, account: string, inp: SyncInput, writer: Writer, shelf: Shelf, id: string)
    : Option<nat>
    requires ValidInstant(writer.clock)
  {
    var ids := Prepare(store, account, inp, writer, shelf).1.ids;
    if id in ids then Some(ids[id]) else None
  }

  lemma EveryFetchedHasRow(store: Store, account: string, inp: SyncInput, writer: Writer, shelf: Shelf,
    m: FetchedMessage)
    requires ValidInstant(writer.clock) && m in inp.fetched
    ensures RowOfFetched(store, account, inp, writer, shelf, m.providerId).Some?
  {
    PersistNamesRows(store.messages, inp.connection, inp.fetched, Emails(inp, account));
  }

  lemma NewRowHasProposal(
      store: Store, account: string, inp: SyncInput, writer: Writer, shelf: Shelf, id: string, k: nat)
      returns (p: Proposal)
    requires ValidInstant(writer.clock)
    requires |store.actions| <= k < |SyncOnce(store, account, inp, writer, shelf).store.actions|
    requires
      Some(SyncOnce(store, account, inp, writer, shelf).store.actions[k].messageId) ==
        RowOfFetched(store, account, inp, writer, shelf, id)
    ensures p in ProposalsOf(inp, account) && p.emailId == id
    ensures FiledFor(SyncOnce(store, account, inp, writer, shelf).store.actions[k], p,
                     Prepare(store, account, inp, writer, shelf).1)
  {
    var ps, setting := ProposalsOf(inp, account), Prepare(store, account, inp, writer, shelf).1;
    var after := SyncOnce(store, account, inp, writer, shelf).store.actions;
    PreparedSetting(store, account, inp, writer, shelf);
    SyncFilesWhatIsProposed(store, account, inp, writer, shelf);
    p := FiledProposal(after, |store.actions|, k, ps, setting);
  }

  /**
   * Nobody is asked about mail that is not urgent: of the rows a sync adds for a
   * message whose verdict is spam or normal, none is held.
   */
  lemma OnlyUrgentMailIsHeld(
      store: Store, account: string, inp: SyncInput, writer: Writer, shelf: Shelf, i: nat, k: nat)
    requires ValidInstant(writer.clock) && i < |inp.fetched|
    requires DistinctInbox(EnrichAll(inp.fetched, account, inp.terms))
    requires !ClassifyHeuristic(EnrichMessage(inp.fetched[i], account, inp.terms), inp.terms).Urgent?
    ensures
      var after := SyncOnce(store, account, inp, writer, shelf).store.actions;
      var row := RowOfFetched(store, account, inp, writer, shelf, inp.fetched[i].providerId);
      && row.Some?
      && (|store.actions| <= k < |after| && after[k].messageId == row.value ==> !after[k].requiresApproval)
  {
    var id := inp.fetched[i].providerId;
    EveryFetchedHasRow(store, account, inp, writer, shelf, inp.fetched[i]);
    var after := SyncOnce(store, account, inp, writer, shelf).store.actions;
    if |store.actions| <= k < |after|
       && Some(after[k].messageId) == RowOfFetched(store, account, inp, writer, shelf, id) {
      var p := NewRowHasProposal(store, account, inp, writer, shelf, id, k);
      OnlyUrgentMailAsks(inp, account, i, p);
    }
  }

  // -- which message a new row is about ------------------------------------------------------------

  /** The row says what the message says of itself. */
  predicate Describes(row: MessageRow, m: FetchedMessage) {
    && row.providerId == m.providerId && row.sender == m.sender && row.subject == m.subject
    && row.threadId == if m.threadId != "" then Some(m.threadId) else None
  }

  lemma {:induction false} LastRowIsSigned(
      connection: string, ms: seq<FetchedMessage>, es: seq<Email>, id: string)
    requires |ms| == |es| && forall i :: 0 <= i < |ms| ==> es[i].id == ms[i].providerId
    ensures
      var (row, m) := (LastRowFor(connection, ms, es, id), LastMessage(ms, id));
      row.Some? ==>
        && row.value.connection == connection && row.value.senderRole == SignalRole(es, id)
        && m.Some? && Describes(row.value, m.value)
  {
    if ms != [] {
      LastRowIsSigned(connection, ms[..|ms| - 1], es[..|ms| - 1], id);
    }
  }

  /** A row of the message table that a sync has just refreshed with this id. */
  predicate RowIsFor(messages: seq<MessageRow>, row: nat, id: string, inp: SyncInput, account: string) {
    && row < |messages| && messages[row].providerId == id && messages[row].connection == inp.connection
    && messages[row].senderRole == SignalRole(Emails(inp, account), id)
    && LastMessage(inp.fetched, id).Some? && Describes(messages[row], LastMessage(inp.fetched, id).value)
  }

  lemma PersistedRowIsFor(rows: seq<MessageRow>, inp: SyncInput, account: string, id: string)
    ensures
      var (messages, ids) := Persist(rows, inp.connection, inp.fetched, Emails(inp, account));
      id in ids ==> RowIsFor(messages, ids[id], id, inp, account)
  {
    var es := Emails(inp, account);
    PersistHoldsLast(rows, inp.connection, inp.fetched, es);
    LastRowIsSigned(inp.connection, inp.fetched, es, id);
    LastMessageIsOne(inp.fetched, id);
  }

  /** The row a fetched id names afterwards says what the last message with that id says. */
  lemma NamedRowIsFor(store: Store, account: string, inp: SyncInput, writer: Writer, shelf: Shelf, id: string)
    requires ValidInstant(writer.clock) && RowOfFetched(store, account, inp, writer, shelf, id).Some?
    ensures RowIsFor(SyncOnce(store, account, inp, writer, shelf).store.messages,
                     RowOfFetched(store, account, inp, writer, shelf, id).value, id, inp, account)
  {
    PersistedRowIsFor(store.messages, inp, account, id);
    SyncKeepsMail(store, account, inp, writer, shelf);
  }

  lemma FiledProposal(rows: seq<ActionRow>, n: nat, k: nat, ps: seq<Proposal>, setting: Setting) returns (p: Proposal)
    requires n <= k < |rows| && FiledFrom(rows, n, ps, setting)
    ensures p in ps && FiledFor(rows[k], p, setting)
  {
    assert StandsForOne(rows[k], ps, setting);
    p :| p in ps && FiledFor(rows[k], p, setting);
  }

  /** The proposal a new row stands for, and the message it is about. */
  lemma NewRowIsFiled(store: Store, account: string, inp: SyncInput, writer: Writer, shelf: Shelf, k: nat)
      returns (p: Proposal)
    requires ValidInstant(writer.clock)
    requires |store.actions| <= k < |SyncOnce(store, account, inp, writer, shelf).store.actions|
    ensures
      var after := SyncOnce(store, account, inp, writer, shelf).store;
      && p in ProposalsOf(inp, account)
      && FiledFor(after.actions[k], p, Prepare(store, account, inp, writer, shelf).1)
      && RowIsFor(after.messages, after.actions[k].messageId, p.emailId, inp, account)
  {
    var setting := Prepare(store, account, inp, writer, shelf).1;
    SyncFilesWhatIsProposed(store, account, inp, writer, shelf);
    p := FiledProposal(SyncOnce(store, account, inp, writer, shelf).store.actions, |store.actions|, k,
                       ProposalsOf(inp, account), setting);
    NamedRowIsFor(store, account, inp, writer, shelf, p.emailId);
  }
}
