// Each label row stands for a label the mailbox was really asked for, and says how it answered.
module Labelling {
  import opened Prelude
  import opened Mail
  import opened Pipeline
  import opened IsoTime
  import opened Tables
  import opened Sync
  import opened Uniqueness
  import opened Filings

  /** The i-th write put this label on the message with this id, and was answered like this. */
  predicate Answered(ws: seq<Write>, i: nat, id: string, name: string, provider: Provider, result: WriteResult) {
    i < |ws| && ws[i].AddLabel? && id in ws[i].ids && ws[i].name == name && provider(ws[..i], ws[i]) == result
  }

  /** One of the writes from the n-th on answers for this item. */
  ghost predicate AnsweredFrom(
      ws: seq<Write>, n: nat, id: string, name: string, provider: Provider, result: WriteResult) {
    exists i :: n <= i && Answered(ws, i, id, name, provider, result)
  }

  lemma AnswersStay(
      ws: seq<Write>, more: seq<Write>, n: nat, id: string, name: string, provider: Provider, result: WriteResult)
    requires ws <= more && AnsweredFrom(ws, n, id, name, provider, result)
    ensures AnsweredFrom(more, n, id, name, provider, result)
  {
    var i :| n <= i && Answered(ws, i, id, name, provider, result);
    assert more[..i] == ws[..i];
    assert Answered(more, i, id, name, provider, result);
  }

  /** The row of a label write: executed exactly when the mailbox accepted it, with its reference. */
  ghost predicate Told(row: ActionRow, ws: seq<Write>, n: nat, setting: Setting) {
    exists id, result ::
      && id in setting.ids && setting.ids[id] == row.messageId && row.labelText.Some?
      && AnsweredFrom(ws, n, id, row.labelText.value, setting.inp.provider, result)
      && (row.status.Executed? <==> result.ok) && row.executionRef == result.ref
  }

  ghost predicate AllTold(rows: seq<ActionRow>, n: nat, ws: seq<Write>, w: nat, setting: Setting) {
    forall k :: n <= k < |rows| && !rows[k].requiresApproval ==> Told(rows[k], ws, w, setting)
  }

  lemma AllToldStays(rows: seq<ActionRow>, n: nat, ws: seq<Write>, more: seq<Write>, w: nat, setting: Setting)
    requires AllTold(rows, n, ws, w, setting) && ws <= more
    ensures AllTold(rows, n, more, w, setting)
  {
    forall k | n <= k < |rows| && !rows[k].requiresApproval ensures Told(rows[k], more, w, setting) {
      ToldStays(rows[k], ws, more, w, setting);
    }
  }

  lemma ToldStays(row: ActionRow, ws: seq<Write>, more: seq<Write>, w: nat, setting: Setting)
    requires Told(row, ws, w, setting) && ws <= more
    ensures Told(row, more, w, setting)
  {
    var id, result :| && id in setting.ids && setting.ids[id] == row.messageId && row.labelText.Some?
      && AnsweredFrom(ws, w, id, row.labelText.value, setting.inp.provider, result)
      && (row.status.Executed? <==> result.ok) && row.executionRef == result.ref;
    AnswersStay(ws, more, w, id, row.labelText.value, setting.inp.provider, result);
  }

  lemma ToldOneMore(rows: seq<ActionRow>, row: ActionRow, n: nat, ws: seq<Write>, w: nat, setting: Setting)
    requires AllTold(rows, n, ws, w, setting) && (!row.requiresApproval ==> Told(row, ws, w, setting))
    ensures AllTold(rows + [row], n, ws, w, setting)
  {
  }

  // -- the proposal loop -----------------------------------------------------------------------------

  lemma AutoIsTold(
      messageId: nat, kind: ActionType, content: Option<string>, escalateTo: Option<string>, name: string,
      result: WriteResult, now: int, prose: Prose, ws: seq<Write>, w: nat, id: string, setting: Setting)
    requires id in setting.ids && setting.ids[id] == messageId
    requires AnsweredFrom(ws, w, id, name, setting.inp.provider, result)
    ensures Told(AutoAction(messageId, kind, content, escalateTo, name, result, now).(prose := prose), ws, w, setting)
    ensures Told(AutoAction(messageId, kind, content, escalateTo, name, result, now), ws, w, setting)
  {
  }

  lemma DowngradeIsTold(store: Store, setting: Setting, p: Proposal, n: nat, w: nat)
    requires p.emailId in setting.ids && w <= |store.writes| && AllTold(store.actions, n, store.writes, w, setting)
    ensures var after := Downgrade(store, setting, p, setting.ids[p.emailId]);
      store.writes <= after.writes && AllTold(after.actions, n, after.writes, w, setting)
  {
    var id := setting.ids[p.emailId];
    var after := Downgrade(store, setting, p, id);
    var row := after.actions[|store.actions|];
    var result := Answer(store, setting.inp.provider, AddLabel([p.emailId], "deferred"));
    assert after.writes[..|store.writes|] == store.writes;
    assert Answered(after.writes, |store.writes|, p.emailId, "deferred", setting.inp.provider, result);
    AutoIsTold(id, Defer, None, None, "deferred", result, setting.inp.now, row.prose, after.writes, w, p.emailId,
      setting);
    AllToldStays(store.actions, n, store.writes, after.writes, w, setting);
    ToldOneMore(store.actions, row, n, after.writes, w, setting);
  }

  lemma ProposeIsTold(g: Progress, setting: Setting, p: Proposal, n: nat, w: nat)
    requires w <= |g.store.writes| && AllTold(g.store.actions, n, g.store.writes, w, setting)
    ensures var after := Propose(g, setting, p).store;
      g.store.writes <= after.writes && AllTold(after.actions, n, after.writes, w, setting)
  {
    if p.emailId in setting.ids {
      var id := setting.ids[p.emailId];
      DowngradeIsTold(g.store, setting, p, n, w);
      var held := Hold(g, setting, p, id).store.actions;
      ToldOneMore(g.store.actions, held[|g.store.actions|], n, g.store.writes, w, setting);
    }
  }

  lemma {:induction false} ProposeAllIsTold(g: Progress, setting: Setting, ps: seq<Proposal>, n: nat, w: nat)
    requires w <= |g.store.writes| && AllTold(g.store.actions, n, g.store.writes, w, setting)
    ensures var after := ProposeAll(g, setting, ps).store;
      g.store.writes <= after.writes && AllTold(after.actions, n, after.writes, w, setting)
  {
    if ps != [] {
      ProposeAllIsTold(g, setting, ps[..|ps| - 1], n, w);
      ProposeIsTold(ProposeAll(g, setting, ps[..|ps| - 1]), setting, ps[|ps| - 1], n, w);
    }
  }

  // -- the groups ---------------------------------------------------------------------------------------

  /** Each item's answer is the mailbox's answer to a write that labels it. */
  ghost predicate EachAnswered(
      items: seq<Item>, results: seq<WriteResult>, name: string, ws: seq<Write>, n: nat, provider: Provider)
    requires |items| == |results|
  {
    forall k :: 0 <= k < |items| ==> AnsweredFrom(ws, n, items[k].proposal.emailId, name, provider, results[k])
  }

  lemma {:induction false} LabelEachAnswers(ws: seq<Write>, provider: Provider, items: seq<Item>, name: string)
    ensures var (results, after) := LabelEach(ws, provider, items, name);
      ws <= after && EachAnswered(items, results, name, after, |ws|, provider)
  {
    if items != [] {
      var k, init := |items| - 1, items[..|items| - 1];
      LabelEachAnswers(ws, provider, init, name);
      var (early, before) := LabelEach(ws, provider, init, name);
      var (results, after) := LabelEach(ws, provider, items, name);
      assert after[..|before|] == before;
      assert Answered(after, |before|, items[k].proposal.emailId, name, provider, results[k]);
      forall j | 0 <= j < k
        ensures AnsweredFrom(after, |ws|, items[j].proposal.emailId, name, provider, results[j])
      {
        assert init[j] == items[j] && results[j] == early[j];
        AnswersStay(before, after, |ws|, items[j].proposal.emailId, name, provider, results[j]);
      }
    }
  }

  lemma {:induction false} ItemIdsHold(items: seq<Item>, k: nat)
    requires k < |items|
    ensures items[k].proposal.emailId in ItemIds(items)
  {
    if k > 0 {
      ItemIdsHold(items[1..], k - 1);
    }
  }

  lemma LabelGroupAnswers(ws: seq<Write>, inp: SyncInput, g: Group)
    ensures var (results, after) := LabelGroup(ws, inp, g);
      ws <= after && EachAnswered(g.items, results, g.name, after, |ws|, inp.provider)
  {
    if inp.batches && |g.items| > 1 {
      var (results, after) := LabelGroup(ws, inp, g);
      assert after[..|ws|] == ws;
      forall k | 0 <= k < |g.items|
        ensures AnsweredFrom(after, |ws|, g.items[k].proposal.emailId, g.name, inp.provider, results[k])
      {
        ItemIdsHold(g.items, k);
        assert Answered(after, |ws|, g.items[k].proposal.emailId, g.name, inp.provider, results[k]);
      }
    } else {
      LabelEachAnswers(ws, inp.provider, g.items, g.name);
    }
  }

  lemma {:induction false} CreateAutoIsTold(
      rows: seq<ActionRow>, items: seq<Item>, results: seq<WriteResult>, name: string, n: nat, ws: seq<Write>, w: nat,
      setting: Setting, ps: seq<Proposal>)
    requires |items| == |results| && AllTold(rows, n, ws, w, setting) && ItemsAllFit(items, name, ps, setting)
    requires EachAnswered(items, results, name, ws, w, setting.inp.provider)
    ensures AllTold(CreateAuto(rows, items, results, name, setting.inp.now), n, ws, w, setting)
  {
    if items != [] {
      var k, now := |items| - 1, setting.inp.now;
      var init, p := items[..k], items[k].proposal;
      assert forall j :: 0 <= j < k ==> init[j] == items[j] && results[..k][j] == results[j];
      CreateAutoIsTold(rows, init, results[..k], name, n, ws, w, setting, ps);
      AutoIsTold(items[k].messageId, p.kind, p.content, p.escalateTo, name, results[k], now, NO_PROSE, ws, w, p.emailId,
        setting);
      ToldOneMore(CreateAuto(rows, init, results[..k], name, now), AutoActionFor(items[k], name, results[k], now), n,
        ws,
        w, setting);
    }
  }

  lemma ApplyGroupIsTold(store: Store, setting: Setting, g: Group, n: nat, w: nat, ps: seq<Proposal>)
    requires w <= |store.writes| && AllTold(store.actions, n, store.writes, w, setting)
    requires ItemsAllFit(g.items, g.name, ps, setting)
    ensures var after := ApplyGroup(store, setting.inp, g);
      store.writes <= after.writes && AllTold(after.actions, n, after.writes, w, setting)
  {
    var (results, writes) := LabelGroup(store.writes, setting.inp, g);
    LabelGroupAnswers(store.writes, setting.inp, g);
    AllToldStays(store.actions, n, store.writes, writes, w, setting);
    assert EachAnswered(g.items, results, g.name, writes, w, setting.inp.provider);
    CreateAutoIsTold(store.actions, g.items, results, g.name, n, writes, w, setting, ps);
  }

  lemma {:induction false} ApplyGroupsIsTold(
      store: Store, setting: Setting, groups: seq<Group>, n: nat, w: nat, ps: seq<Proposal>)
    requires w <= |store.writes| && AllTold(store.actions, n, store.writes, w, setting)
    requires GroupsAllFit(groups, ps, setting)
    ensures var after := ApplyGroups(store, setting.inp, groups);
      store.writes <= after.writes && AllTold(after.actions, n, after.writes, w, setting)
  {
    if groups != [] {
      var k := |groups| - 1;
      assert forall i :: 0 <= i < k ==> groups[..k][i] == groups[i];
      ApplyGroupsIsTold(store, setting, groups[..k], n, w, ps);
      ApplyGroupIsTold(ApplyGroups(store, setting.inp, groups[..k]), setting, groups[k], n, w, ps);
    }
  }

  lemma SyncTellsAll(store: Store, account: string, inp: SyncInput, writer: Writer, shelf: Shelf)
    requires ValidInstant(writer.clock)
    ensures
      var after := SyncOnce(store, account, inp, writer, shelf).store;
      AllTold(after.actions, |store.actions|, after.writes, |store.writes|,
              Prepare(store, account, inp, writer, shelf).1)
  {
    var (start, setting, found) := Prepare(store, account, inp, writer, shelf);
    var ps := ProposalsOf(inp, account);
    var worked := ProposeAll(start, setting, ps);
    PreparedSetting(store, account, inp, writer, shelf);
    SyncWorksWhatFits(store, account, inp, writer, shelf);
    assert setting.inp == inp;
    ProposeAllIsTold(start, setting, ps, |store.actions|, |store.writes|);
    ApplyGroupsIsTold(worked.store, setting, worked.groups, |store.actions|, |store.writes|, ps);
    SyncOnceIs(store, account, inp, writer, shelf, start, setting, found, worked);
  }

  /** Some write from the n-th on put the row's label on this message, and the row records its answer. */
  ghost predicate Backed(row: ActionRow, id: string, ws: seq<Write>, n: nat, provider: Provider) {
    && row.labelText.Some?
    && exists i, result :: && n <= i && Answered(ws, i, id, row.labelText.value, provider, result)
                           && (row.status.Executed? <==> result.ok) && row.executionRef == result.ref
  }

  lemma ToldIsBacked(row: ActionRow, ws: seq<Write>, n: nat, setting: Setting) returns (id: string)
    requires Told(row, ws, n, setting)
    ensures id in setting.ids && setting.ids[id] == row.messageId && Backed(row, id, ws, n, setting.inp.provider)
  {
    var result;
    id, result :| && id in setting.ids && setting.ids[id] == row.messageId && row.labelText.Some?
      && AnsweredFrom(ws, n, id, row.labelText.value, setting.inp.provider, result)
      && (row.status.Executed? <==> result.ok) && row.executionRef == result.ref;
    var i :| n <= i && Answered(ws, i, id, row.labelText.value, setting.inp.provider, result);
  }

  /**
   * Every row a sync files without asking is backed by a write of that sync: the
   * mailbox was asked to put its label on its message, and the row says executed
   * exactly when the mailbox said yes.
   */
  lemma LabelRowsTellTheTruth(store: Store, account: string, inp: SyncInput, writer: Writer, shelf: Shelf, k: nat)
    requires ValidInstant(writer.clock)
    ensures
      var after := SyncOnce(store, account, inp, writer, shelf).store;
      |store.actions| <= k < |after.actions| && !after.actions[k].requiresApproval ==>
        && after.actions[k].messageId < |after.messages|
        && Backed(after.actions[k], after.messages[after.actions[k].messageId].providerId, after.writes,
                  |store.writes|, inp.provider)
  {
    var after := SyncOnce(store, account, inp, writer, shelf).store;
    if |store.actions| <= k < |after.actions| && !after.actions[k].requiresApproval {
      SyncTellsAll(store, account, inp, writer, shelf);
      PreparedSetting(store, account, inp, writer, shelf);
      var id := ToldIsBacked(after.actions[k], after.writes, |store.writes|,
        Prepare(store, account, inp, writer, shelf).1);
      NamedRowIsFor(store, account, inp, writer, shelf, id);
    }
  }
}
