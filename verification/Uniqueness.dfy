// Every (message, action type) has at most one live action: what each step of the
// queue keeps, and why a sync needs the policy to propose each message once.
module Uniqueness {
  import opened Mail
  import opened Enrich
  import opened Policy
  import opened Pipeline
  import opened Tables
  import opened Sync
  import opened Review
  import opened IsoTime

  /** Which live actions are counted: those never retried, or all of them. */
  datatype Scope = FirstTries | AllTries

  predicate InScope(row: ActionRow, scope: Scope) { Live(row) && (scope.AllTries? || row.retryCount == 0) }

  function LiveCount(scope: Scope, rows: seq<ActionRow>, messageId: nat, kind: ActionType): nat {
    if rows == [] then 0
    else
      var last := rows[|rows| - 1];
      LiveCount(scope, rows[..|rows| - 1], messageId, kind)
      + if InScope(last, scope) && Matches(last, messageId, kind) then 1 else 0
  }

  /** At most one live action in scope per message and type. */
  ghost predicate UniqueLive(scope: Scope, rows: seq<ActionRow>) {
    forall m, t :: LiveCount(scope, rows, m, t) <= 1
  }

  lemma LiveCountAppend(scope: Scope, rows: seq<ActionRow>, row: ActionRow, m: nat, t: ActionType)
    ensures LiveCount(scope, rows + [row], m, t) ==
      LiveCount(scope, rows, m, t) + if InScope(row, scope) && Matches(row, m, t) then 1 else 0
  {
    assert (rows + [row])[..|rows|] == rows;
  }

  lemma {:induction false} LiveCountUpdate(
      scope: Scope, rows: seq<ActionRow>, i: nat, row: ActionRow, m: nat, t: ActionType)
    requires i < |rows|
    ensures LiveCount(scope, rows[i := row], m, t) ==
      LiveCount(scope, rows, m, t)
      - (if InScope(rows[i], scope) && Matches(rows[i], m, t) then 1 else 0)
      + (if InScope(row, scope) && Matches(row, m, t) then 1 else 0)
  {
    var n := |rows| - 1;
    if i == n {
      assert rows[i := row][..n] == rows[..n];
    } else {
      assert rows[i := row][..n] == rows[..n][i := row];
      LiveCountUpdate(scope, rows[..n], i, row, m, t);
    }
  }

  lemma {:induction false} InactiveHasNoLive(scope: Scope, rows: seq<ActionRow>, m: nat, t: ActionType)
    requires !Active(rows, m, t)
    ensures LiveCount(scope, rows, m, t) == 0
  {
    if rows != [] {
      var n := |rows| - 1;
      assert !(Live(rows[n]) && Matches(rows[n], m, t));
      assert !Active(rows[..n], m, t) by {
        assert forall i :: 0 <= i < n ==> rows[..n][i] == rows[i];
      }
      InactiveHasNoLive(scope, rows[..n], m, t);
    }
  }

  // -- labels waiting to be applied ---------------------------------------------------------------

  predicate ItemIs(item: Item, m: nat, t: ActionType) { item.messageId == m && item.proposal.kind == t }

  function ItemMatches(items: seq<Item>, m: nat, t: ActionType): nat {
    if items == [] then 0
    else ItemMatches(items[..|items| - 1], m, t) + if ItemIs(items[|items| - 1], m, t) then 1 else 0
  }

  function Pending(groups: seq<Group>, m: nat, t: ActionType): nat {
    if groups == [] then 0
    else Pending(groups[..|groups| - 1], m, t) + ItemMatches(groups[|groups| - 1].items, m, t)
  }

  lemma {:induction false} PendingCons(g: Group, groups: seq<Group>, m: nat, t: ActionType)
    ensures Pending([g] + groups, m, t) == ItemMatches(g.items, m, t) + Pending(groups, m, t)
  {
    if groups != [] {
      var n := |groups| - 1;
      assert ([g] + groups)[..n + 1] == [g] + groups[..n];
      PendingCons(g, groups[..n], m, t);
    } else {
      assert [g] + groups == [g] && [g][..0] == [];
    }
  }

  lemma {:induction false} PendingAdd(groups: seq<Group>, name: string, item: Item, m: nat, t: ActionType)
    ensures Pending(AddToGroup(groups, name, item), m, t) == Pending(groups, m, t) + if ItemIs(item, m, t) then 1 else 0
  {
    if groups == [] {
      assert [item][..0] == [];
      PendingCons(Group(name, [item]), [], m, t);
      assert [Group(name, [item])] + [] == [Group(name, [item])];
    } else {
      assert groups == [groups[0]] + groups[1..];
      PendingCons(groups[0], groups[1..], m, t);
      if groups[0].name == name {
        var items := groups[0].items;
        assert (items + [item])[..|items|] == items;
        PendingCons(groups[0].(items := items + [item]), groups[1..], m, t);
      } else {
        PendingAdd(groups[1..], name, item, m, t);
        PendingCons(groups[0], AddToGroup(groups[1..], name, item), m, t);
      }
    }
  }

  // -- the proposal loop ------------------------------------------------------------------------------

  /** Different provider ids stand for different rows. */
  predicate Injective(ids: map<string, nat>) {
    forall a, b :: a in ids && b in ids && ids[a] == ids[b] ==> a == b
  }

  predicate HeldIffRisky(ps: seq<Proposal>) {
    forall p :: p in ps ==> (p.requiresApproval <==> NeedsApproval(p.kind))
  }

  /** Some proposal before the k-th put this item on the waiting list. */
  predicate PutBefore(ps: seq<Proposal>, k: nat, ids: map<string, nat>, m: nat, t: ActionType)
    requires k <= |ps|
  {
    exists i :: 0 <= i < k && ps[i].emailId in ids && ids[ps[i].emailId] == m && ps[i].kind == t
      && !ps[i].requiresApproval
  }

  ghost predicate AtMostOne(scope: Scope, g: Progress, m: nat, t: ActionType) {
    LiveCount(scope, g.store.actions, m, t) + Pending(g.groups, m, t) <= 1
  }

  ghost predicate LoopInvariant(scope: Scope, g: Progress, setting: Setting, ps: seq<Proposal>, k: nat)
    requires k <= |ps|
  {
    && (forall m, t :: AtMostOne(scope, g, m, t))
    && (forall m, t :: Pending(g.groups, m, t) > 0 ==> PutBefore(ps, k, setting.ids, m, t))
  }

  lemma HoldKeepsOne(scope: Scope, g: Progress, setting: Setting, p: Proposal, id: nat, m: nat, t: ActionType)
    requires AtMostOne(scope, g, m, t) && !Active(g.store.actions, id, p.kind)
    requires Pending(g.groups, id, p.kind) == 0
    ensures AtMostOne(scope, Hold(g, setting, p, id), m, t)
  {
    var after := Hold(g, setting, p, id).store.actions;
    InactiveHasNoLive(scope, g.store.actions, id, p.kind);
    LiveCountAppend(scope, g.store.actions, after[|g.store.actions|], m, t);
  }

  lemma DowngradeKeepsOne(scope: Scope, g: Progress, setting: Setting, p: Proposal, id: nat, m: nat, t: ActionType)
    requires AtMostOne(scope, g, m, t) && !Active(g.store.actions, id, Defer)
    requires Pending(g.groups, id, Defer) == 0
    ensures AtMostOne(scope, g.(store := Downgrade(g.store, setting, p, id), downgraded := g.downgraded + 1), m, t)
  {
    var after := Downgrade(g.store, setting, p, id).actions;
    InactiveHasNoLive(scope, g.store.actions, id, Defer);
    LiveCountAppend(scope, g.store.actions, after[|g.store.actions|], m, t);
  }

  lemma WaitingKeepsOne(scope: Scope, g: Progress, name: string, item: Item, m: nat, t: ActionType)
    requires AtMostOne(scope, g, m, t) && !Active(g.store.actions, item.messageId, item.proposal.kind)
    requires Pending(g.groups, item.messageId, item.proposal.kind) == 0
    ensures AtMostOne(scope, g.(groups := AddToGroup(g.groups, name, item)), m, t)
  {
    InactiveHasNoLive(scope, g.store.actions, item.messageId, item.proposal.kind);
    PendingAdd(g.groups, name, item, m, t);
  }

  /** Nothing is waiting yet for the message and type a proposal would touch. */
  lemma NothingWaits(scope: Scope, g: Progress, setting: Setting, ps: seq<Proposal>, k: nat)
    requires k < |ps| && EachMessageOnce(ps) && HeldIffRisky(ps) && Injective(setting.ids)
    requires LoopInvariant(scope, g, setting, ps, k) && ps[k].emailId in setting.ids
    ensures Pending(g.groups, setting.ids[ps[k].emailId], ps[k].kind) == 0
    ensures ps[k].requiresApproval ==> Pending(g.groups, setting.ids[ps[k].emailId], Defer) == 0
  {
    var p, id := ps[k], setting.ids[ps[k].emailId];
    assert p in ps;
    forall i | 0 <= i < k && ps[i].emailId in setting.ids && setting.ids[ps[i].emailId] == id
      ensures ps[i].kind.Classify? != p.kind.Classify?
    {
      assert ps[i].emailId == p.emailId;
    }
    assert !PutBefore(ps, k, setting.ids, id, p.kind);
    assert p.requiresApproval ==> !PutBefore(ps, k, setting.ids, id, Defer);
  }

  /** What is waiting after a proposal was waiting before, or is that proposal. */
  lemma WaitingWasPut(scope: Scope, g: Progress, setting: Setting, ps: seq<Proposal>, k: nat, m: nat, t: ActionType)
    requires k < |ps| && LoopInvariant(scope, g, setting, ps, k)
    requires Pending(Propose(g, setting, ps[k]).groups, m, t) > 0
    ensures PutBefore(ps, k + 1, setting.ids, m, t)
  {
    var p := ps[k];
    if Pending(g.groups, m, t) > 0 {
      assert PutBefore(ps, k, setting.ids, m, t);
    } else {
      PendingAdd(g.groups, LabelTextFor(p), Item(p, setting.ids[p.emailId]), m, t);
    }
  }

  lemma ProposeKeepsInvariant(scope: Scope, g: Progress, setting: Setting, ps: seq<Proposal>, k: nat)
    requires k < |ps| && EachMessageOnce(ps) && HeldIffRisky(ps) && Injective(setting.ids)
    requires LoopInvariant(scope, g, setting, ps, k)
    ensures LoopInvariant(scope, Propose(g, setting, ps[k]), setting, ps, k + 1)
  {
    var p, g' := ps[k], Propose(g, setting, ps[k]);
    forall m, t ensures AtMostOne(scope, g', m, t) {
      assert AtMostOne(scope, g, m, t);
      if p.emailId in setting.ids && !Active(g.store.actions, setting.ids[p.emailId], p.kind) {
        var id := setting.ids[p.emailId];
        NothingWaits(scope, g, setting, ps, k);
        if !p.requiresApproval {
          WaitingKeepsOne(scope, g, LabelTextFor(p), Item(p, id), m, t);
        } else if !IsVetoed(setting, p) {
          HoldKeepsOne(scope, g, setting, p, id, m, t);
        } else if !Active(g.store.actions, id, Defer) {
          DowngradeKeepsOne(scope, g, setting, p, id, m, t);
        }
      }
    }
    forall m, t | Pending(g'.groups, m, t) > 0 ensures PutBefore(ps, k + 1, setting.ids, m, t) {
      WaitingWasPut(scope, g, setting, ps, k, m, t);
    }
  }

  lemma {:induction false} ProposeAllKeepsInvariant(
      scope: Scope, g: Progress, setting: Setting, ps: seq<Proposal>, k: nat)
    requires k <= |ps| && EachMessageOnce(ps) && HeldIffRisky(ps) && Injective(setting.ids)
    requires UniqueLive(scope, g.store.actions) && g.groups == []
    ensures LoopInvariant(scope, ProposeAll(g, setting, ps[..k]), setting, ps, k)
  {
    if k == 0 {
      forall m, t ensures AtMostOne(scope, g, m, t) {
        assert LiveCount(scope, g.store.actions, m, t) <= 1;
      }
    } else {
      ProposeAllKeepsInvariant(scope, g, setting, ps, k - 1);
      assert ps[..k][..k - 1] == ps[..k - 1];
      ProposeKeepsInvariant(scope, ProposeAll(g, setting, ps[..k - 1]), setting, ps, k - 1);
    }
  }

  // -- applying the labels ------------------------------------------------------------------------------

  lemma {:induction false} CreateAutoCounts(
      scope: Scope, rows: seq<ActionRow>, items: seq<Item>, results: seq<WriteResult>, name: string, now: int, m: nat,
      t: ActionType)
    requires |items| == |results|
    ensures LiveCount(scope, CreateAuto(rows, items, results, name, now), m, t) <=
      LiveCount(scope, rows, m, t) + ItemMatches(items, m, t)
  {
    if items != [] {
      var n := |items| - 1;
      CreateAutoCounts(scope, rows, items[..n], results[..n], name, now, m, t);
      LiveCountAppend(scope, CreateAuto(rows, items[..n], results[..n], name, now),
                      AutoActionFor(items[n], name, results[n], now), m, t);
    }
  }

  lemma {:induction false} ApplyGroupsCounts(
      scope: Scope, store: Store, inp: SyncInput, groups: seq<Group>, m: nat, t: ActionType)
    ensures LiveCount(scope, ApplyGroups(store, inp, groups).actions, m, t) <=
      LiveCount(scope, store.actions, m, t) + Pending(groups, m, t)
  {
    if groups != [] {
      var n := |groups| - 1;
      ApplyGroupsCounts(scope, store, inp, groups[..n], m, t);
      var before := ApplyGroups(store, inp, groups[..n]);
      var (results, _) := LabelGroup(before.writes, inp, groups[n]);
      CreateAutoCounts(scope, before.actions, groups[n].items, results, groups[n].name, inp.now, m, t);
    }
  }

  lemma PairIsLabelled(writes: seq<Write>, inp: SyncInput, g: Group)
    requires |g.items| == 2 && forall ws, w :: inp.provider(ws, w).ok
    ensures forall i :: 0 <= i < 2 ==> LabelGroup(writes, inp, g).0[i].ok
  {
    if !inp.batches {
      assert LabelEach(writes, inp.provider, g.items[..1], g.name).0[0].ok;
    }
  }

  lemma ProposedTwice(g: Progress, setting: Setting, p: Proposal)
    requires p.emailId in setting.ids && !p.requiresApproval && g.groups == []
    requires !Active(g.store.actions, setting.ids[p.emailId], p.kind)
    ensures var item := Item(p, setting.ids[p.emailId]);
      ProposeAll(g, setting, [p, p]) == g.(groups := [Group(LabelTextFor(p), [item, item])])
  {
    var name, item := LabelTextFor(p), Item(p, setting.ids[p.emailId]);
    assert [p, p][..1] == [p] && [p][..0] == [];
    var one := g.(groups := [Group(name, [item])]);
    assert ProposeAll(g, setting, [p]) == Propose(g, setting, p) == one;
    assert AddToGroup(one.groups, name, item) == [Group(name, [item, item])] by {
      assert one.groups[1..] == [] && [item] + [item] == [item, item];
    }
  }

  lemma PairIsFiled(
      store: Store, inp: SyncInput, name: string, item: Item) returns (first: ActionRow, second: ActionRow)
    requires forall ws, w :: inp.provider(ws, w).ok
    ensures
      && ApplyGroups(store, inp, [Group(name, [item, item])]).actions == store.actions + [first] + [second]
      && first.status.Executed? && second.status.Executed? && first.retryCount == second.retryCount == 0
      && Matches(first, item.messageId, item.proposal.kind) && Matches(second, item.messageId, item.proposal.kind)
  {
    var g := Group(name, [item, item]);
    assert [g][..0] == [];
    PairIsLabelled(store.writes, inp, g);
    var results := LabelGroup(store.writes, inp, g).0;
    first, second := AutoActionFor(item, name, results[0], inp.now), AutoActionFor(item, name, results[1], inp.now);
    assert g.items[..1] == [item] && [item][..0] == [] && results[..1][..0] == [];
    assert CreateAuto(store.actions, [item], results[..1], name, inp.now) == store.actions + [first];
    assert CreateAuto(store.actions, g.items, results, name, inp.now) == store.actions + [first] + [second];
  }

  /**
   * The duplicate check alone does not give the invariant: labels are filed after
   * it, so a proposal made twice in one inbox is filed twice.
   */
  lemma RepeatedProposalIsFiledTwice(g: Progress, setting: Setting, p: Proposal)
    requires p.emailId in setting.ids && !p.requiresApproval && g.groups == []
    requires !Active(g.store.actions, setting.ids[p.emailId], p.kind)
    requires forall ws, w :: setting.inp.provider(ws, w).ok
    ensures
      var worked := ProposeAll(g, setting, [p, p]);
      var after := ApplyGroups(worked.store, setting.inp, worked.groups).actions;
      LiveCount(FirstTries, after, setting.ids[p.emailId], p.kind) == 2
  {
    var id := setting.ids[p.emailId];
    ProposedTwice(g, setting, p);
    var first, second := PairIsFiled(g.store, setting.inp, LabelTextFor(p), Item(p, id));
    PairCountsTwo(g.store.actions, first, second, id, p.kind);
  }

  lemma PairCountsTwo(rows: seq<ActionRow>, first: ActionRow, second: ActionRow, m: nat, t: ActionType)
    requires !Active(rows, m, t) && Matches(first, m, t) && Matches(second, m, t)
    requires first.status.Executed? && second.status.Executed? && first.retryCount == second.retryCount == 0
    ensures LiveCount(FirstTries, rows + [first] + [second], m, t) == 2
  {
    InactiveHasNoLive(FirstTries, rows, m, t);
    LiveCountAppend(FirstTries, rows, first, m, t);
    LiveCountAppend(FirstTries, rows + [first], second, m, t);
  }

  // -- whole steps --------------------------------------------------------------------------------------

  predicate NamesRows(ids: map<string, nat>, rows: seq<MessageRow>, connection: string) {
    forall id :: id in ids ==>
      ids[id] < |rows| && rows[ids[id]].providerId == id && rows[ids[id]].connection == connection
  }

  lemma UpsertNamesRow(rows: seq<MessageRow>, ids: map<string, nat>, connection: string, m: MessageRow)
    requires NamesRows(ids, rows, connection) && m.connection == connection
    ensures var (after, id) := UpsertMessage(rows, m); NamesRows(ids[m.providerId := id], after, connection)
  {
  }

  lemma {:induction false} PersistNamesRows(
      rows: seq<MessageRow>, connection: string, ms: seq<FetchedMessage>, es: seq<Email>)
    requires |ms| == |es|
    ensures var (after, ids) := Persist(rows, connection, ms, es);
      && |rows| <= |after|
      && (forall i :: 0 <= i < |rows| ==>
        after[i].providerId == rows[i].providerId && after[i].connection == rows[i].connection)
      && NamesRows(ids, after, connection)
      && (forall m :: m in ms ==> m.providerId in ids)
  {
    if ms != [] {
      var n := |ms| - 1;
      PersistNamesRows(rows, connection, ms[..n], es[..n]);
      var (before, ids) := Persist(rows, connection, ms[..n], es[..n]);
      var (after, id) := UpsertMessage(before, MessageRowFor(connection, ms[n], es[n]));
      UpsertNamesRow(before, ids, connection, MessageRowFor(connection, ms[n], es[n]));
      assert Persist(rows, connection, ms, es) == (after, ids[ms[n].providerId := id]);
      forall m | m in ms ensures m.providerId in ids[ms[n].providerId := id] {
        assert m in ms[..n] || m == ms[n];
      }
    }
  }

  lemma PreparedSetting(store: Store, account: string, inp: SyncInput, writer: Writer, shelf: Shelf)
    requires ValidInstant(writer.clock)
    ensures var (start, setting, _) := Prepare(store, account, inp, writer, shelf);
      && Injective(setting.ids)
      && start.store.actions == store.actions && start.groups == []
      && start.store.writes == store.writes && start.store.dispatches == store.dispatches
      && |store.messages| <= |start.store.messages|
      && (forall id :: id in setting.ids ==> setting.ids[id] < |start.store.messages|)
  {
    PersistNamesRows(store.messages, inp.connection, inp.fetched, Emails(inp, account));
  }

  lemma InboxProposalsAreFit(inp: SyncInput, account: string)
    ensures EachMessageOnce(ProposalsOf(inp, account)) && HeldIffRisky(ProposalsOf(inp, account))
  {
    var obs := ToObservation(inp.fetched, account, inp.terms);
    ProposesEachMessageOnce(obs, inp.terms);
    HeldIffExternal(Plan(obs, inp.terms));
  }

  /** A sync keeps the invariant in either scope. */
  lemma SyncKeepsUnique(scope: Scope, store: Store, account: string, inp: SyncInput, writer: Writer, shelf: Shelf)
    requires ValidInstant(writer.clock) && UniqueLive(scope, store.actions)
    ensures UniqueLive(scope, SyncOnce(store, account, inp, writer, shelf).store.actions)
  {
    var ps := ProposalsOf(inp, account);
    var (start, setting, _) := Prepare(store, account, inp, writer, shelf);
    PreparedSetting(store, account, inp, writer, shelf);
    InboxProposalsAreFit(inp, account);
    ProposeAllKeepsInvariant(scope, start, setting, ps, |ps|);
    assert ps[..|ps|] == ps;
    var worked := ProposeAll(start, setting, ps);
    forall m, t ensures LiveCount(scope, ApplyGroups(worked.store, inp, worked.groups).actions, m, t) <= 1 {
      assert AtMostOne(scope, worked, m, t);
      ApplyGroupsCounts(scope, worked.store, inp, worked.groups, m, t);
    }
  }

  /** Replacing a row by one that is in scope only if the old one was keeps the invariant. */
  lemma UpdateKeepsUnique(scope: Scope, rows: seq<ActionRow>, i: nat, row: ActionRow)
    requires UniqueLive(scope, rows) && i < |rows|
    requires row.messageId == rows[i].messageId && row.kind == rows[i].kind
    requires InScope(row, scope) ==> InScope(rows[i], scope)
    ensures UniqueLive(scope, rows[i := row])
  {
    var after := rows[i := row];
    forall m, t ensures LiveCount(scope, after, m, t) <= 1 {
      LiveCountUpdate(scope, rows, i, row, m, t);
      assert LiveCount(scope, rows, m, t) <= 1;
    }
  }

  lemma ApproveKeepsUnique(scope: Scope, store: Store, a: Approval)
    requires UniqueLive(scope, store.actions)
    ensures ApproveSpec(store, a).Ok? ==> UniqueLive(scope, ApproveSpec(store, a).value.actions)
  {
    if ApproveSpec(store, a).Ok? {
      var row := store.actions[a.actionId];
      var result := Execute(store, a.provider, Amended(row, a.edited), a.actionId,
        store.messages[row.messageId].providerId).0;
      UpdateKeepsUnique(scope, store.actions, a.actionId, ApprovedRow(row, a, result));
    }
  }

  lemma RejectKeepsUnique(scope: Scope, store: Store, userId: string, id: nat, now: int)
    requires UniqueLive(scope, store.actions)
    ensures RejectSpec(store, userId, id, now).Ok? ==>
      UniqueLive(scope, RejectSpec(store, userId, id, now).value.actions)
  {
    if RejectSpec(store, userId, id, now).Ok? {
      UpdateKeepsUnique(scope, store.actions, id, RejectedRow(store.actions[id], userId, now));
    }
  }

  lemma {:induction false} RetryKeepsFirstTriesUnique(store: Store, ids: seq<nat>, r: Retry)
    requires UniqueLive(FirstTries, store.actions) && InTable(ids, |store.actions|)
    ensures UniqueLive(FirstTries, RetryAll(store, ids, r).0.actions)
  {
    if ids != [] {
      var n := |ids| - 1;
      RetryKeepsFirstTriesUnique(store, ids[..n], r);
      var before := RetryAll(store, ids[..n], r).0;
      var row := before.actions[ids[n]];
      var route := RetryRoute(before, row, r);
      if route.Some? {
        var result := Execute(before, route.value, row, ids[n], before.messages[row.messageId].providerId).0;
        UpdateKeepsUnique(FirstTries, before.actions, ids[n], RetriedRow(row, result, r.now));
      }
    }
  }

  lemma {:induction false} ActiveHasLive(rows: seq<ActionRow>, m: nat, t: ActionType)
    requires Active(rows, m, t)
    ensures LiveCount(AllTries, rows, m, t) >= 1
  {
    var n := |rows| - 1;
    if !(Live(rows[n]) && Matches(rows[n], m, t)) {
      var i :| 0 <= i < |rows| && Live(rows[i]) && Matches(rows[i], m, t);
      assert rows[..n][i] == rows[i];
      ActiveHasLive(rows[..n], m, t);
    }
  }

  lemma {:induction false} LiveCountsItself(scope: Scope, rows: seq<ActionRow>, i: nat)
    requires i < |rows| && InScope(rows[i], scope)
    ensures LiveCount(scope, rows, rows[i].messageId, rows[i].kind) >= 1
  {
    if i < |rows| - 1 {
      LiveCountsItself(scope, rows[..|rows| - 1], i);
    }
  }

  lemma {:induction false} TwoLiveCountTwice(scope: Scope, rows: seq<ActionRow>, i: nat, j: nat)
    requires i < j < |rows| && InScope(rows[i], scope) && InScope(rows[j], scope)
    requires rows[i].messageId == rows[j].messageId && rows[i].kind == rows[j].kind
    ensures LiveCount(scope, rows, rows[i].messageId, rows[i].kind) >= 2
  {
    var n := |rows| - 1;
    if j < n {
      TwoLiveCountTwice(scope, rows[..n], i, j);
    } else {
      LiveCountsItself(scope, rows[..n], i);
    }
  }
}
