// What the reports of a sync and of a retry pass count, against the tables.
module Reports {
  import opened Prelude
  import opened Mail
  import opened Pipeline
  import opened IsoTime
  import Calendar
  import Commitments
  import opened FollowUps
  import opened Tables
  import opened Sync
  import opened Review
  import opened Uniqueness
  import opened Resync

  /** How many of these rows wait, or waited, for a person. */
  function HeldCount(rows: seq<ActionRow>): nat { |Filter((row: ActionRow) => row.requiresApproval, rows)| }

  function ExecutedCount(rows: seq<ActionRow>): nat { |Filter((row: ActionRow) => row.status.Executed?, rows)| }

  // -- a sync ---------------------------------------------------------------------------------------

  lemma HeldOneMore(rows: seq<ActionRow>, row: ActionRow)
    ensures HeldCount(rows + [row]) == HeldCount(rows) + One(row.requiresApproval)
  {
    FilterGrows((row: ActionRow) => row.requiresApproval, rows, row);
  }

  /** Each turn is counted once: what it files, what it leaves waiting, or that it was skipped. */
  predicate Tallied(start: Progress, g: Progress, turns: nat) {
    && HeldCount(g.store.actions) == HeldCount(start.store.actions) + g.proposed
    && |g.store.actions| == |start.store.actions| + g.proposed + g.downgraded
    && g.proposed + g.downgraded + g.skipped + ItemCount(g.groups) == turns
  }

  lemma {:induction false} AddedItemCounts(groups: seq<Group>, name: string, item: Item)
    ensures ItemCount(AddToGroup(groups, name, item)) == ItemCount(groups) + 1
  {
    if groups == [] {
      assert ItemCount([Group(name, [item])]) == ItemCount([]) + 1;
    } else {
      var after := AddToGroup(groups, name, item);
      ItemCountCons(groups[0], groups[1..]);
      assert groups == [groups[0]] + groups[1..];
      if groups[0].name == name {
        ItemCountCons(after[0], groups[1..]);
      } else {
        AddedItemCounts(groups[1..], name, item);
        ItemCountCons(groups[0], AddToGroup(groups[1..], name, item));
      }
    }
  }

  lemma {:induction false} ItemCountCons(g: Group, rest: seq<Group>)
    ensures ItemCount([g] + rest) == |g.items| + ItemCount(rest)
  {
    if rest == [] {
      assert [g] + rest == [g] && [g][..0] == [];
    } else {
      var n := |rest| - 1;
      assert ([g] + rest)[..|rest|] == [g] + rest[..n];
      ItemCountCons(g, rest[..n]);
    }
  }

  lemma ProposeTallies(start: Progress, g: Progress, setting: Setting, p: Proposal, turns: nat)
    requires Tallied(start, g, turns) && p.emailId in setting.ids
    ensures Tallied(start, Propose(g, setting, p), turns + 1)
  {
    var id := setting.ids[p.emailId];
    if !Active(g.store.actions, id, p.kind) {
      if !p.requiresApproval {
        AddedItemCounts(g.groups, LabelTextFor(p), Item(p, id));
      } else {
        var after := Propose(g, setting, p).store.actions;
        if |after| > |g.store.actions| {
          HeldOneMore(g.store.actions, after[|g.store.actions|]);
        }
      }
    }
  }

  lemma {:induction false} ProposeAllTallies(start: Progress, setting: Setting, ps: seq<Proposal>)
    requires start.proposed == start.downgraded == start.skipped == 0 && start.groups == []
    requires forall p :: p in ps ==> p.emailId in setting.ids
    ensures Tallied(start, ProposeAll(start, setting, ps), |ps|)
  {
    if ps != [] {
      var n := |ps| - 1;
      assert forall p :: p in ps[..n] ==> p in ps;
      ProposeAllTallies(start, setting, ps[..n]);
      ProposeTallies(start, ProposeAll(start, setting, ps[..n]), setting, ps[n], n);
    }
  }

  lemma {:induction false} CreateAutoCounts(
      rows: seq<ActionRow>, items: seq<Item>, results: seq<WriteResult>, name: string, now: int)
    requires |items| == |results|
    ensures var after := CreateAuto(rows, items, results, name, now);
      |after| == |rows| + |items| && HeldCount(after) == HeldCount(rows)
  {
    if items != [] {
      var n := |items| - 1;
      CreateAutoCounts(rows, items[..n], results[..n], name, now);
      HeldOneMore(CreateAuto(rows, items[..n], results[..n], name, now),
        AutoActionFor(items[n], name, results[n], now));
    }
  }

  lemma {:induction false} ApplyGroupsCounts(store: Store, inp: SyncInput, groups: seq<Group>)
    ensures var after := ApplyGroups(store, inp, groups).actions;
      |after| == |store.actions| + ItemCount(groups) && HeldCount(after) == HeldCount(store.actions)
  {
    if groups != [] {
      var n := |groups| - 1;
      ApplyGroupsCounts(store, inp, groups[..n]);
      var before := ApplyGroups(store, inp, groups[..n]);
      CreateAutoCounts(before.actions, groups[n].items, LabelGroup(before.writes, inp, groups[n]).0, groups[n].name,
        inp.now);
    }
  }

  lemma {:induction false} RecordAllCounts(
      rows: seq<FollowUp>, cs: seq<Commitments.Commitment>, messageId: nat, threadId: Option<string>,
      counterparty: string, subject: string)
    ensures var (after, count) := RecordAll(rows, cs, messageId, threadId, counterparty, subject);
      |after| == |rows| + count
  {
    if cs != [] {
      RecordAllCounts(rows, cs[..|cs| - 1], messageId, threadId, counterparty, subject);
    }
  }

  lemma RecordMessageCounts(
      rows: seq<FollowUp>, messages: seq<MessageRow>, ids: map<string, nat>, m: FetchedMessage, spam: set<string>,
      reader: Commitments.Reader, today: Calendar.Date)
    ensures var (after, count) := RecordMessage(rows, messages, ids, m, spam, reader, today);
      |after| == |rows| + count
  {
    var found := Commitments.ExtractSpec(reader, m.body, Commitments.Theirs, true, today);
    if m.providerId in ids && ids[m.providerId] < |messages| && found.Ok? {
      var id := ids[m.providerId];
      RecordAllCounts(rows, found.value, id, messages[id].threadId, m.sender, m.subject);
    }
  }

  lemma {:induction false} RecordIncomingCounts(
      rows: seq<FollowUp>, messages: seq<MessageRow>, ids: map<string, nat>, ms: seq<FetchedMessage>,
      spam: set<string>, reader: Commitments.Reader, today: Calendar.Date)
    ensures var (after, count) := RecordIncoming(rows, messages, ids, ms, spam, reader, today);
      |after| == |rows| + count
  {
    if ms != [] {
      var n := |ms| - 1;
      RecordIncomingCounts(rows, messages, ids, ms[..n], spam, reader, today);
      var before := RecordIncoming(rows, messages, ids, ms[..n], spam, reader, today).0;
      RecordMessageCounts(before, messages, ids, ms[n], spam, reader, today);
    }
  }

  lemma ProposalsHaveRows(store: Store, account: string, inp: SyncInput, writer: Writer, shelf: Shelf)
    requires ValidInstant(writer.clock)
    ensures
      var setting := Prepare(store, account, inp, writer, shelf).1;
      forall p :: p in ProposalsOf(inp, account) ==> p.emailId in setting.ids
  {
    PersistNamesRows(store.messages, inp.connection, inp.fetched, Emails(inp, account));
    forall p | p in ProposalsOf(inp, account)
      ensures p.emailId in Prepare(store, account, inp, writer, shelf).1.ids
    {
      ProposalsAreForFetched(inp, account, p);
    }
  }

  lemma PreparedCounts(store: Store, account: string, inp: SyncInput, writer: Writer, shelf: Shelf)
    requires ValidInstant(writer.clock)
    ensures
      var (start, _, found) := Prepare(store, account, inp, writer, shelf);
      && |start.store.followUps| == |store.followUps| + found
      && start.proposed == start.downgraded == start.skipped == 0 && start.groups == []
      && start.store.actions == store.actions
  {
    var received := Received(store, inp, Emails(inp, account));
    RecordIncomingCounts(store.followUps, received.0.messages, received.1, inp.fetched,
      SpamIds(ProposalsOf(inp, account)), inp.reader, inp.today);
  }

  /** The report of a sync, told by the tables before and after it. */
  predicate SyncReportFits(before: Store, done: Synced, messages: nat, proposals: nat) {
    var r, after := done.report, done.store;
    && r.messages == messages
    && r.proposed + r.autoExecuted + r.skipped + r.downgraded == proposals
    && |after.actions| == |before.actions| + r.proposed + r.autoExecuted + r.downgraded
    && HeldCount(after.actions) == HeldCount(before.actions) + r.proposed
    && |after.followUps| == |before.followUps| + r.commitments
  }

  /**
   * The report adds up: every proposal is held, applied, downgraded or skipped, once;
   * the held ones are the rows that now wait for a person, the applied and downgraded
   * ones the other new rows, and the follow-ups found are the new ones listed.
   */
  lemma SyncReportAddsUp(store: Store, account: string, inp: SyncInput, writer: Writer, shelf: Shelf)
    requires ValidInstant(writer.clock)
    ensures SyncReportFits(store, SyncOnce(store, account, inp, writer, shelf), |inp.fetched|,
                           |ProposalsOf(inp, account)|)
  {
    var (start, setting, found) := Prepare(store, account, inp, writer, shelf);
    var worked := ProposeAll(start, setting, ProposalsOf(inp, account));
    ProposalsHaveRows(store, account, inp, writer, shelf);
    PreparedCounts(store, account, inp, writer, shelf);
    ProposeAllTallies(start, setting, ProposalsOf(inp, account));
    ProposeAllKeepsMail(start, setting, ProposalsOf(inp, account));
    ApplyGroupsCounts(worked.store, inp, worked.groups);
    ApplyGroupsKeepsMail(worked.store, inp, worked.groups);
    SyncOnceIs(store, account, inp, writer, shelf, start, setting, found, worked);
  }

  // -- a retry pass -----------------------------------------------------------------------------------

  /** One dispatch for each attempt, one more executed row for each recovery. */
  predicate RetryReportFits(before: Store, after: Store, r: RetryReport) {
    && r.attempted == r.recovered + r.stillFailing
    && |after.dispatches| == |before.dispatches| + r.attempted
    && ExecutedCount(after.actions) == ExecutedCount(before.actions) + r.recovered
  }

  lemma ExecutedUpdated(rows: seq<ActionRow>, id: nat, row: ActionRow)
    requires id < |rows| && !rows[id].status.Executed?
    ensures ExecutedCount(rows[id := row]) == ExecutedCount(rows) + One(row.status.Executed?)
  {
    FilterUpdated((row: ActionRow) => row.status.Executed?, rows, id, row);
  }

  lemma RetryOneReports(store: Store, id: nat, r: Retry)
    requires id < |store.actions| && store.actions[id].status.Failed?
    ensures RetryReportFits(store, RetryOne(store, id, r).0, RetryOne(store, id, r).1)
  {
    if RetryRoute(store, store.actions[id], r).Some? {
      var after := RetryOne(store, id, r).0;
      ExecutedUpdated(store.actions, id, after.actions[id]);
    }
  }

  lemma {:induction false} RetryAllReports(store: Store, ids: seq<nat>, r: Retry)
    requires InTable(ids, |store.actions|) && NoDuplicates(ids)
    requires forall k :: 0 <= k < |ids| ==> store.actions[ids[k]].status.Failed?
    ensures RetryReportFits(store, RetryAll(store, ids, r).0, RetryAll(store, ids, r).1)
  {
    if ids != [] {
      var init, last := ids[..|ids| - 1], ids[|ids| - 1];
      RetryAllReports(store, init, r);
      assert last !in init;
      RetryAllKeepsRouting(store, init, r, last);
      RetryOneReports(RetryAll(store, init, r).0, last, r);
    }
  }

  /** What a retry pass reports is what it did: attempts are dispatches, recoveries rows that now stand executed. */
  lemma RetryReportAddsUp(store: Store, r: Retry)
    ensures RetryReportFits(store, RetrySpec(store, r).0, RetrySpec(store, r).1)
  {
    var ids := ListFailedSends(store.actions, r.maxRetries);
    ListedAreInTable(store.actions, r.maxRetries);
    forall k | 0 <= k < |ids| ensures store.actions[ids[k]].status.Failed? {
      assert ids[k] in ids;
    }
    RetryAllReports(store, ids, r);
  }
}
