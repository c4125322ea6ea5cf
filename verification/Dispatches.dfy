// Accounting for every dispatch: what was tried for each held action, that the
// sync itself never sends, and that what is on record as sent is what was sent.
module Dispatches {
  import opened Prelude
  import opened Pipeline
  import opened IsoTime
  import opened Drafting
  import opened Tables
  import opened Sync
  import opened Review
  import opened Uniqueness

  /** The dispatches of one action, in order. */
  function TriesOf(log: seq<Dispatch>, id: nat): seq<Dispatch> {
    if log == [] then []
    else TriesOf(log[..|log| - 1], id) + if log[|log| - 1].action == id then [log[|log| - 1]] else []
  }

  lemma TriesAppend(log: seq<Dispatch>, d: Dispatch, id: nat)
    ensures TriesOf(log + [d], id) == TriesOf(log, id) + if d.action == id then [d] else []
  {
    assert (log + [d])[..|log|] == log;
  }

  predicate AllFailed(tries: seq<Dispatch>) { forall i :: 0 <= i < |tries| ==> !tries[i].ok }

  /** The reply text on record for an action. */
  function BodyOnRecord(row: ActionRow): string {
    if Truthy(row.content) then row.content.value else GENERIC_REPLY
  }

  /**
   * How a row's status, decision and retry count account for its dispatches:
   * none before approval or after rejection; while failed, one plus the retries,
   * all failures; once executed, the last and only the last succeeded, and a
   * reply went to its message with exactly the text on record.
   */
  predicate Accounted(row: ActionRow, tries: seq<Dispatch>, providerId: string) {
    && (row.requiresApproval <==> NeedsApproval(row.kind))
    && row.retryCount <= MAX_SEND_RETRIES
    && if !row.requiresApproval then
         tries == [] && row.retryCount == 0 && row.decidedBy.None? && (row.status.Executed? || row.status.Failed?)
       else
         match row.status
         case Proposed => tries == [] && row.retryCount == 0 && row.decidedBy.None?
         case Rejected => tries == [] && row.retryCount == 0 && row.decidedBy.Some?
         case Failed => row.decidedBy.Some? && |tries| == 1 + row.retryCount && AllFailed(tries)
         case Executed =>
           && row.decidedBy.Some? && |tries| == 1 + row.retryCount
           && AllFailed(tries[..row.retryCount]) && tries[row.retryCount].ok
           && tries[row.retryCount].write.Some?
           && (row.kind.Reply? ==> tries[row.retryCount].write.value == SendReply(providerId, BodyOnRecord(row)))
  }

  predicate External(w: Write) { !w.AddLabel? }

  function ExternalWrites(ws: seq<Write>): seq<Write> {
    if ws == [] then []
    else ExternalWrites(ws[..|ws| - 1]) + if External(ws[|ws| - 1]) then [ws[|ws| - 1]] else []
  }

  /** The external writes of the dispatches on record. */
  function DispatchedWrites(log: seq<Dispatch>): seq<Write> {
    if log == [] then []
    else
      var w := log[|log| - 1].write;
      DispatchedWrites(log[..|log| - 1]) + if w.Some? && External(w.value) then [w.value] else []
  }

  /** The books balance. */
  ghost predicate Balanced(store: Store) {
    && (forall d :: d in store.dispatches ==> d.action < |store.actions|)
    && (forall i :: 0 <= i < |store.actions| ==>
          && store.actions[i].messageId < |store.messages|
          && Accounted(store.actions[i], TriesOf(store.dispatches, i),
            store.messages[store.actions[i].messageId].providerId))
    && ExternalWrites(store.writes) == DispatchedWrites(store.dispatches)
  }

  lemma {:induction false} NoTriesFor(log: seq<Dispatch>, id: nat)
    requires forall d :: d in log ==> d.action != id
    ensures TriesOf(log, id) == []
  {
    if log != [] {
      assert log[|log| - 1] in log;
      NoTriesFor(log[..|log| - 1], id);
    }
  }

  // -- a sync adds rows and labels, nothing else ----------------------------------------------------

  /** `after` extends `before` by rows nobody has dispatched and by label writes only. */
  ghost predicate OnlyFiled(before: Store, after: Store) {
    && after.dispatches == before.dispatches && after.messages == before.messages
    && before.actions <= after.actions
    && (forall i :: |before.actions| <= i < |after.actions| ==>
          && after.actions[i].messageId < |after.messages|
          && Accounted(after.actions[i], [], after.messages[after.actions[i].messageId].providerId))
    && before.writes <= after.writes
    && (forall i :: |before.writes| <= i < |after.writes| ==> !External(after.writes[i]))
  }

  lemma OnlyFiledTransitive(a: Store, b: Store, c: Store)
    requires OnlyFiled(a, b) && OnlyFiled(b, c)
    ensures OnlyFiled(a, c)
  {
    forall i | |a.actions| <= i < |c.actions|
      ensures c.actions[i].messageId < |c.messages|
      ensures Accounted(c.actions[i], [], c.messages[c.actions[i].messageId].providerId)
    {
      if i < |b.actions| {
        assert c.actions[i] == b.actions[i];
      }
    }
    forall i | |a.writes| <= i < |c.writes| ensures !External(c.writes[i]) {
      if i < |b.writes| {
        assert c.writes[i] == b.writes[i];
      }
    }
  }

  predicate RowsExist(setting: Setting, store: Store) {
    forall id :: id in setting.ids ==> setting.ids[id] < |store.messages|
  }

  /** Every waiting item is a low-risk proposal on a stored message. */
  predicate ItemsFit(items: seq<Item>, store: Store) {
    forall item :: item in items ==> item.messageId < |store.messages| && !NeedsApproval(item.proposal.kind)
  }

  predicate GroupsFit(groups: seq<Group>, store: Store) {
    forall g :: g in groups ==> ItemsFit(g.items, store)
  }

  lemma {:induction false} AddKeepsFit(groups: seq<Group>, name: string, item: Item, store: Store)
    requires GroupsFit(groups, store) && ItemsFit([item], store)
    ensures GroupsFit(AddToGroup(groups, name, item), store)
  {
    assert item in [item];
    if groups != [] {
      assert groups[0] in groups && forall g :: g in groups[1..] ==> g in groups;
      if groups[0].name != name {
        AddKeepsFit(groups[1..], name, item, store);
      }
    }
  }

  lemma ProposeOnlyFiles(g: Progress, setting: Setting, p: Proposal)
    requires RowsExist(setting, g.store) && GroupsFit(g.groups, g.store)
    requires p.requiresApproval <==> NeedsApproval(p.kind)
    ensures var g' := Propose(g, setting, p); OnlyFiled(g.store, g'.store) && GroupsFit(g'.groups, g'.store)
  {
    var g' := Propose(g, setting, p);
    if p.emailId in setting.ids && !Active(g.store.actions, setting.ids[p.emailId], p.kind) && !p.requiresApproval {
      AddKeepsFit(g.groups, LabelTextFor(p), Item(p, setting.ids[p.emailId]), g.store);
    }
    assert GroupsFit(g'.groups, g'.store);
  }

  lemma {:induction false} ProposeAllOnlyFiles(g: Progress, setting: Setting, ps: seq<Proposal>)
    requires RowsExist(setting, g.store) && GroupsFit(g.groups, g.store) && HeldIffRisky(ps)
    ensures var g' := ProposeAll(g, setting, ps); OnlyFiled(g.store, g'.store) && GroupsFit(g'.groups, g'.store)
  {
    if ps != [] {
      var n := |ps| - 1;
      ProposeAllOnlyFiles(g, setting, ps[..n]);
      var mid := ProposeAll(g, setting, ps[..n]);
      assert ps[n] in ps;
      ProposeOnlyFiles(mid, setting, ps[n]);
      OnlyFiledTransitive(g.store, mid.store, Propose(mid, setting, ps[n]).store);
    }
  }

  lemma {:induction false} LabelEachIsLabels(writes: seq<Write>, provider: Provider, items: seq<Item>, name: string)
    ensures var after := LabelEach(writes, provider, items, name).1;
      writes <= after && forall i :: |writes| <= i < |after| ==> !External(after[i])
  {
    if items != [] {
      LabelEachIsLabels(writes, provider, items[..|items| - 1], name);
    }
  }

  lemma {:induction false} CreateAutoFiles(
      store: Store, items: seq<Item>, results: seq<WriteResult>, name: string, now: int)
    requires |items| == |results| && ItemsFit(items, store)
    ensures OnlyFiled(store, store.(actions := CreateAuto(store.actions, items, results, name, now)))
  {
    if items != [] {
      var n := |items| - 1;
      assert items[n] in items;
      CreateAutoFiles(store, items[..n], results[..n], name, now);
    }
  }

  lemma ApplyGroupOnlyFiles(store: Store, inp: SyncInput, g: Group)
    requires ItemsFit(g.items, store)
    ensures OnlyFiled(store, ApplyGroup(store, inp, g))
  {
    LabelEachIsLabels(store.writes, inp.provider, g.items, g.name);
    var (results, writes) := LabelGroup(store.writes, inp, g);
    CreateAutoFiles(store, g.items, results, g.name, inp.now);
  }

  lemma {:induction false} ApplyGroupsOnlyFiles(store: Store, inp: SyncInput, groups: seq<Group>)
    requires GroupsFit(groups, store)
    ensures OnlyFiled(store, ApplyGroups(store, inp, groups))
  {
    if groups != [] {
      var n := |groups| - 1;
      assert groups[n] in groups;
      ApplyGroupsOnlyFiles(store, inp, groups[..n]);
      var mid := ApplyGroups(store, inp, groups[..n]);
      ApplyGroupOnlyFiles(mid, inp, groups[n]);
      OnlyFiledTransitive(store, mid, ApplyGroup(mid, inp, groups[n]));
    }
  }

  /** A sync dispatches nothing: past the message table it only files rows and applies labels. */
  lemma SyncOnlyFiles(store: Store, account: string, inp: SyncInput, writer: Writer, shelf: Shelf)
    requires ValidInstant(writer.clock)
    ensures
      var start := Prepare(store, account, inp, writer, shelf).0.store;
      OnlyFiled(start, SyncOnce(store, account, inp, writer, shelf).store)
  {
    var ps := ProposalsOf(inp, account);
    var (start, setting, _) := Prepare(store, account, inp, writer, shelf);
    PreparedSetting(store, account, inp, writer, shelf);
    InboxProposalsAreFit(inp, account);
    ProposeAllOnlyFiles(start, setting, ps);
    var worked := ProposeAll(start, setting, ps);
    ApplyGroupsOnlyFiles(worked.store, inp, worked.groups);
    OnlyFiledTransitive(start.store, worked.store, ApplyGroups(worked.store, inp, worked.groups));
  }

  lemma {:induction false} LabelsAddNoExternal(ws: seq<Write>, after: seq<Write>)
    requires ws <= after && forall i :: |ws| <= i < |after| ==> !External(after[i])
    ensures ExternalWrites(after) == ExternalWrites(ws)
    decreases |after|
  {
    if |after| > |ws| {
      LabelsAddNoExternal(ws, after[..|after| - 1]);
    } else {
      assert after == ws;
    }
  }

  lemma FilingKeepsBalance(before: Store, after: Store)
    requires Balanced(before) && OnlyFiled(before, after)
    ensures Balanced(after)
  {
    LabelsAddNoExternal(before.writes, after.writes);
    forall i | 0 <= i < |after.actions|
      ensures after.actions[i].messageId < |after.messages|
      ensures Accounted(after.actions[i], TriesOf(after.dispatches, i),
        after.messages[after.actions[i].messageId].providerId)
    {
      if i < |before.actions| {
        assert after.actions[i] == before.actions[i];
      } else {
        NoTriesFor(after.dispatches, i);
      }
    }
  }

  lemma SyncKeepsBalance(store: Store, account: string, inp: SyncInput, writer: Writer, shelf: Shelf)
    requires ValidInstant(writer.clock) && Balanced(store)
    ensures Balanced(SyncOnce(store, account, inp, writer, shelf).store)
  {
    PreparedSetting(store, account, inp, writer, shelf);
    PersistNamesRows(store.messages, inp.connection, inp.fetched, Emails(inp, account));
    var start := Prepare(store, account, inp, writer, shelf).0.store;
    assert Balanced(start);
    SyncOnlyFiles(store, account, inp, writer, shelf);
    FilingKeepsBalance(start, SyncOnce(store, account, inp, writer, shelf).store);
  }

  // -- decisions and retries -----------------------------------------------------------------------

  /** One dispatch of action `id`, whose row becomes `row`; everything else stays accounted for. */
  lemma DispatchKeepsBalance(store: Store, after: Store, id: nat, row: ActionRow, d: Dispatch)
    requires Balanced(store) && id < |store.actions| && d.action == id
    requires after.messages == store.messages && after.actions == store.actions[id := row]
    requires after.dispatches == store.dispatches + [d]
    requires after.writes == store.writes + if d.write.Some? then [d.write.value] else []
    requires row.messageId == store.actions[id].messageId
    requires Accounted(row, TriesOf(store.dispatches, id) + [d], store.messages[row.messageId].providerId)
    ensures Balanced(after)
  {
    assert after.dispatches[..|store.dispatches|] == store.dispatches;
    if d.write.Some? {
      assert after.writes[..|store.writes|] == store.writes;
    } else {
      assert after.writes == store.writes;
    }
    forall i | 0 <= i < |after.actions|
      ensures after.actions[i].messageId < |after.messages|
      ensures Accounted(after.actions[i], TriesOf(after.dispatches, i),
        after.messages[after.actions[i].messageId].providerId)
    {
      TriesAppend(store.dispatches, d, i);
      if i != id {
        assert after.actions[i] == store.actions[i];
        assert TriesOf(store.dispatches, i) + [] == TriesOf(store.dispatches, i);
      }
    }
  }

  /** What one `_execute` leaves on record. */
  lemma ExecuteIsOneDispatch(
      store: Store, provider: Provider, row: ActionRow, id: nat, providerId: string) returns (d: Dispatch)
    ensures var (result, after) := Execute(store, provider, row, id, providerId);
      && after == store.(writes := store.writes + if d.write.Some? then [d.write.value] else [],
                         dispatches := store.dispatches + [d])
      && d.action == id && d.ok == result.ok
      && (d.ok ==> d.write.Some? && (row.kind.Reply? ==> d.write.value == SendReply(providerId, BodyOnRecord(row))))
  {
    var w := WriteFor(store, row, providerId);
    d := Dispatch(id, w, w.Some? && provider(store.writes, w.value).ok);
    if w.None? {
      assert store.writes + [] == store.writes;
    }
  }

  lemma ApproveKeepsBalance(store: Store, a: Approval)
    requires Balanced(store) && ApproveSpec(store, a).Ok?
    ensures Balanced(ApproveSpec(store, a).value)
  {
    var row := store.actions[a.actionId];
    var pid := store.messages[row.messageId].providerId;
    var sent := Amended(row, a.edited);
    var result := Execute(store, a.provider, sent, a.actionId, pid).0;
    var d := ExecuteIsOneDispatch(store, a.provider, sent, a.actionId, pid);
    var row' := ApprovedRow(row, a, result);
    var tries := TriesOf(store.dispatches, a.actionId);
    assert Accounted(row, tries, pid);
    assert tries + [d] == [d];
    assert result.ok ==> BodyOnRecord(row') == BodyOnRecord(sent);
    DispatchKeepsBalance(store, ApproveSpec(store, a).value, a.actionId, row', d);
  }

  lemma RejectKeepsBalance(store: Store, userId: string, id: nat, now: int)
    requires Balanced(store) && RejectSpec(store, userId, id, now).Ok?
    ensures Balanced(RejectSpec(store, userId, id, now).value)
  {
    var after := RejectSpec(store, userId, id, now).value;
    assert Accounted(store.actions[id], TriesOf(store.dispatches, id),
      store.messages[store.actions[id].messageId].providerId);
  }

  lemma RetryOneKeepsBalance(store: Store, id: nat, r: Retry)
    requires Balanced(store) && id < |store.actions| && Retryable(store.actions[id], MAX_SEND_RETRIES)
    ensures Balanced(RetryOne(store, id, r).0)
  {
    var row := store.actions[id];
    var route := RetryRoute(store, row, r);
    if route.Some? {
      var pid := store.messages[row.messageId].providerId;
      var result := Execute(store, route.value, row, id, pid).0;
      var d := ExecuteIsOneDispatch(store, route.value, row, id, pid);
      var tries := TriesOf(store.dispatches, id);
      assert Accounted(row, tries, pid);
      assert (tries + [d])[..|tries|] == tries;
      DispatchKeepsBalance(store, RetryOne(store, id, r).0, id, RetriedRow(row, result, r.now), d);
    }
  }

  lemma {:induction false} RetryAllKeepsBalance(store: Store, ids: seq<nat>, r: Retry)
    requires Balanced(store) && NoDuplicates(ids)
    requires InTable(ids, |store.actions|) && forall k :: 0 <= k < |ids| ==>
      Retryable(store.actions[ids[k]], MAX_SEND_RETRIES)
    ensures Balanced(RetryAll(store, ids, r).0)
  {
    if ids != [] {
      var init, last := ids[..|ids| - 1], ids[|ids| - 1];
      RetryAllKeepsBalance(store, init, r);
      assert last !in init;
      RetryAllKeepsRouting(store, init, r, last);
      RetryOneKeepsBalance(RetryAll(store, init, r).0, last, r);
    }
  }
}
