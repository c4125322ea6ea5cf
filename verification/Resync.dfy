// Syncing the same mailbox again changes nothing.
module Resync {
  import opened Prelude
  import opened Mail
  import opened Enrich
  import opened Policy
  import opened Pipeline
  import opened Calendar
  import opened IsoTime
  import opened Commitments
  import opened FollowUps
  import opened Learning
  import opened Tables
  import opened Sync
  import opened Uniqueness

  // -- messages -------------------------------------------------------------------------------------

  function LastRowFor(connection: string, ms: seq<FetchedMessage>, es: seq<Email>, id: string): Option<MessageRow>
    requires |ms| == |es|
  {
    if ms == [] then None
    else
      var n := |ms| - 1;
      if ms[n].providerId == id then Some(MessageRowFor(connection, ms[n], es[n]))
      else LastRowFor(connection, ms[..n], es[..n], id)
  }

  /** After persisting, each id names the first row with its key, holding its last message. */
  lemma {:induction false} PersistHoldsLast(
      rows: seq<MessageRow>, connection: string, ms: seq<FetchedMessage>, es: seq<Email>)
    requires |ms| == |es|
    ensures var (after, ids) := Persist(rows, connection, ms, es);
      forall id :: id in ids ==>
        && ids[id] < |after| && FirstFor(after, ids[id])
        && Some(after[ids[id]]) == LastRowFor(connection, ms, es, id)
  {
    if ms != [] {
      var n := |ms| - 1;
      PersistHoldsLast(rows, connection, ms[..n], es[..n]);
      PersistNamesRows(rows, connection, ms[..n], es[..n]);
      PersistNamesRows(rows, connection, ms, es);
      var (before, ids) := Persist(rows, connection, ms[..n], es[..n]);
      var row := MessageRowFor(connection, ms[n], es[n]);
      FindIsFirst(before, connection, ms[n].providerId);
      var (after, at) := UpsertMessage(before, row);
      assert FirstFor(after, at);
      forall id | id in ids && id != ms[n].providerId
        ensures FirstFor(after, ids[id]) && after[ids[id]] == before[ids[id]]
      {
        assert before[ids[id]].providerId == id;
      }
    }
  }

  predicate SameKeys(a: seq<MessageRow>, b: seq<MessageRow>) {
    |a| == |b| && forall i :: 0 <= i < |a| ==> a[i].connection == b[i].connection && a[i].providerId == b[i].providerId
  }

  /** `ids` names the first row of each of its keys. */
  predicate Indexed(rows: seq<MessageRow>, connection: string, ids: map<string, nat>) {
    forall id :: id in ids ==>
      FirstFor(rows, ids[id]) && rows[ids[id]].connection == connection && rows[ids[id]].providerId == id
  }

  lemma UpsertHits(
      rows: seq<MessageRow>, table: seq<MessageRow>, connection: string, ids: map<string, nat>, m: MessageRow)
    requires SameKeys(rows, table) && Indexed(rows, connection, ids)
    requires m.connection == connection && m.providerId in ids
    ensures ids[m.providerId] < |table|
    ensures UpsertMessage(table, m) == (table[ids[m.providerId] := m], ids[m.providerId])
  {
    var i := ids[m.providerId];
    FindIsFirst(table, connection, m.providerId);
    assert table[i].connection == connection && table[i].providerId == m.providerId;
    var j := FindMessage(table, connection, m.providerId).value;
    assert rows[j].connection == connection && rows[j].providerId == m.providerId;
    assert i == j;
  }

  /** Row `i` once the messages `ms` have been persisted over a table that has all their keys. */
  function RowAfter(
      rows: seq<MessageRow>, connection: string, ms: seq<FetchedMessage>, es: seq<Email>, ids: map<string, nat>,
      i: nat): MessageRow
    requires i < |rows| && |ms| == |es|
  {
    var id := rows[i].providerId;
    if id in ids && ids[id] == i then LastRowFor(connection, ms, es, id).GetOr(rows[i]) else rows[i]
  }

  lemma OverwriteKeepsKeys(rows: seq<MessageRow>, table: seq<MessageRow>, i: nat, m: MessageRow)
    requires SameKeys(rows, table) && i < |rows| && rows[i].connection == m.connection
      && rows[i].providerId == m.providerId
    ensures SameKeys(rows, table[i := m])
  {
  }

  /** Persisting over a table that has every key moves nothing. */
  lemma {:induction false} PersistOverKeepsKeys(
      rows: seq<MessageRow>, connection: string, ms: seq<FetchedMessage>, es: seq<Email>, ids: map<string, nat>)
    requires |ms| == |es| && Indexed(rows, connection, ids) && forall m :: m in ms ==> m.providerId in ids
    ensures
      var (again, ids') := Persist(rows, connection, ms, es);
      SameKeys(rows, again) && forall id :: id in ids' ==> id in ids && ids'[id] == ids[id]
  {
    if ms != [] {
      var n := |ms| - 1;
      assert ms[n] in ms && forall m :: m in ms[..n] ==> m in ms;
      PersistOverKeepsKeys(rows, connection, ms[..n], es[..n], ids);
      var before := Persist(rows, connection, ms[..n], es[..n]).0;
      var row := MessageRowFor(connection, ms[n], es[n]);
      UpsertHits(rows, before, connection, ids, row);
      OverwriteKeepsKeys(rows, before, ids[row.providerId], row);
    }
  }

  lemma RowAfterOneMore(
      rows: seq<MessageRow>, connection: string, ms: seq<FetchedMessage>, es: seq<Email>, ids: map<string, nat>,
      i: nat)
    requires ms != [] && |ms| == |es| && Indexed(rows, connection, ids) && i < |rows|
    requires ms[|ms| - 1].providerId in ids
    ensures var n := |ms| - 1;
      RowAfter(rows, connection, ms, es, ids, i) ==
        if ids[ms[n].providerId] == i then MessageRowFor(connection, ms[n], es[n])
        else RowAfter(rows, connection, ms[..n], es[..n], ids, i)
  {
    assert rows[ids[ms[|ms| - 1].providerId]].providerId == ms[|ms| - 1].providerId;
  }

  /** And rewrites each row with its last message. */
  lemma {:induction false} PersistOver(
      rows: seq<MessageRow>, connection: string, ms: seq<FetchedMessage>, es: seq<Email>, ids: map<string, nat>,
      i: nat)
    requires |ms| == |es| && Indexed(rows, connection, ids) && forall m :: m in ms ==> m.providerId in ids
    requires i < |rows| && i < |Persist(rows, connection, ms, es).0|
    ensures Persist(rows, connection, ms, es).0[i] == RowAfter(rows, connection, ms, es, ids, i)
  {
    if ms != [] {
      var n := |ms| - 1;
      assert ms[n] in ms && forall m :: m in ms[..n] ==> m in ms;
      var before, row := Persist(rows, connection, ms[..n], es[..n]).0, MessageRowFor(connection, ms[n], es[n]);
      PersistOverKeepsKeys(rows, connection, ms[..n], es[..n], ids);
      PersistOver(rows, connection, ms[..n], es[..n], ids, i);
      UpsertHits(rows, before, connection, ids, row);
      RowAfterOneMore(rows, connection, ms, es, ids, i);
      assert Persist(rows, connection, ms, es).0 == before[ids[ms[n].providerId] := row];
    }
  }

  lemma PersistIndexes(rows: seq<MessageRow>, connection: string, ms: seq<FetchedMessage>, es: seq<Email>)
    requires |ms| == |es|
    ensures var (after, ids) := Persist(rows, connection, ms, es);
      && Indexed(after, connection, ids) && (forall m :: m in ms ==> m.providerId in ids)
      && (forall i :: 0 <= i < |after| ==> RowAfter(after, connection, ms, es, ids, i) == after[i])
  {
    PersistHoldsLast(rows, connection, ms, es);
    PersistNamesRows(rows, connection, ms, es);
    var (after, ids) := Persist(rows, connection, ms, es);
    forall i | 0 <= i < |after| ensures RowAfter(after, connection, ms, es, ids, i) == after[i] {
      var id := after[i].providerId;
      if id in ids && ids[id] == i {
        assert Some(after[ids[id]]) == LastRowFor(connection, ms, es, id);
      }
    }
  }

  lemma PersistFindsSameRows(
      rows: seq<MessageRow>, connection: string, ms: seq<FetchedMessage>, es: seq<Email>)
    requires |ms| == |es|
    ensures var (after, ids) := Persist(rows, connection, ms, es);
      Persist(after, connection, ms, es).1 == ids && |Persist(after, connection, ms, es).0| == |after|
  {
    var (after, ids) := Persist(rows, connection, ms, es);
    PersistIndexes(rows, connection, ms, es);
    PersistOverKeepsKeys(after, connection, ms, es, ids);
    SameIds(rows, after, connection, ms, es);
    assert Persist(after, connection, ms, es).1.Keys == ids.Keys;
  }

  /** Upserting the same messages again leaves the table, and finds the same rows. */
  lemma PersistIsIdempotent(rows: seq<MessageRow>, connection: string, ms: seq<FetchedMessage>, es: seq<Email>)
    requires |ms| == |es|
    ensures var (after, ids) := Persist(rows, connection, ms, es);
      Persist(after, connection, ms, es) == (after, ids)
  {
    var (after, ids) := Persist(rows, connection, ms, es);
    var again := Persist(after, connection, ms, es).0;
    PersistFindsSameRows(rows, connection, ms, es);
    PersistIndexes(rows, connection, ms, es);
    forall i | 0 <= i < |after| ensures again[i] == after[i] {
      PersistOver(after, connection, ms, es, ids, i);
    }
    assert again == after;
  }

  lemma SameIds(
      rows: seq<MessageRow>, other: seq<MessageRow>, connection: string, ms: seq<FetchedMessage>, es: seq<Email>)
    requires |ms| == |es|
    ensures Persist(rows, connection, ms, es).1.Keys == Persist(other, connection, ms, es).1.Keys
  {
    PersistIdsComeFromMessages(rows, connection, ms, es);
    PersistIdsComeFromMessages(other, connection, ms, es);
    PersistNamesRows(rows, connection, ms, es);
    PersistNamesRows(other, connection, ms, es);
  }

  lemma {:induction false} PersistIdsComeFromMessages(
      rows: seq<MessageRow>, connection: string, ms: seq<FetchedMessage>, es: seq<Email>)
    requires |ms| == |es|
    ensures forall id :: id in Persist(rows, connection, ms, es).1 ==> exists m :: m in ms && m.providerId == id
  {
    if ms != [] {
      var n := |ms| - 1;
      PersistIdsComeFromMessages(rows, connection, ms[..n], es[..n]);
      assert ms[n] in ms && forall m :: m in ms[..n] ==> m in ms;
    }
  }

  // -- follow-ups -------------------------------------------------------------------------------------

  predicate AllKnown(rows: seq<FollowUp>, cs: seq<Commitment>, messageId: nat) {
    forall i :: 0 <= i < |cs| ==> Known(rows, FingerprintOf(Some(messageId), cs[i].direction, cs[i].text))
  }

  lemma KnownGrows(rows: seq<FollowUp>, more: seq<FollowUp>, key: Fingerprint)
    requires rows <= more && Known(rows, key)
    ensures Known(more, key)
  {
    var i :| 0 <= i < |rows| && KeyOf(rows[i]) == key;
    assert KeyOf(more[i]) == key;
  }

  lemma AllKnownSnoc(rows: seq<FollowUp>, cs: seq<Commitment>, messageId: nat)
    requires cs != []
    ensures AllKnown(rows, cs, messageId) <==>
      && AllKnown(rows, cs[..|cs| - 1], messageId)
      && Known(rows, FingerprintOf(Some(messageId), cs[|cs| - 1].direction, cs[|cs| - 1].text))
  {
    var n := |cs| - 1;
    assert forall i :: 0 <= i < n ==> cs[..n][i] == cs[i];
  }

  lemma AllKnownGrows(rows: seq<FollowUp>, more: seq<FollowUp>, cs: seq<Commitment>, messageId: nat)
    requires rows <= more && AllKnown(rows, cs, messageId)
    ensures AllKnown(more, cs, messageId)
  {
    forall i | 0 <= i < |cs| ensures Known(more, FingerprintOf(Some(messageId), cs[i].direction, cs[i].text)) {
      KnownGrows(rows, more, FingerprintOf(Some(messageId), cs[i].direction, cs[i].text));
    }
  }

  lemma UpsertRecords(rows: seq<FollowUp>, f: FollowUp)
    ensures var after := Upsert(rows, f);
      && rows <= after && Known(after, KeyOf(f)) && (EachOnce(rows) ==> EachOnce(after))
      && (Known(rows, KeyOf(f)) ==> after == rows)
  {
    var after := Upsert(rows, f);
    if !Known(rows, KeyOf(f)) {
      assert KeyOf(after[|rows|]) == KeyOf(f);
    }
    if EachOnce(rows) {
      UpsertKeepsEachOnce(rows, f);
    }
  }

  lemma {:induction false} RecordAllRecords(
      rows: seq<FollowUp>, cs: seq<Commitment>, messageId: nat, threadId: Option<string>, counterparty: string,
      subject: string)
    ensures var (after, count) := RecordAll(rows, cs, messageId, threadId, counterparty, subject);
      && rows <= after && AllKnown(after, cs, messageId) && (EachOnce(rows) ==> EachOnce(after))
      && (AllKnown(rows, cs, messageId) ==> after == rows && count == 0)
  {
    if cs != [] {
      var n := |cs| - 1;
      var (before, count) := RecordAll(rows, cs[..n], messageId, threadId, counterparty, subject);
      var f := FollowUpFor(cs[n], messageId, threadId, counterparty, subject);
      RecordAllRecords(rows, cs[..n], messageId, threadId, counterparty, subject);
      UpsertRecords(before, f);
      AllKnownGrows(before, Upsert(before, f), cs[..n], messageId);
      AllKnownSnoc(Upsert(before, f), cs, messageId);
      AllKnownSnoc(rows, cs, messageId);
    }
  }

  lemma {:induction false} SamePromisesSameKeys(
      rows: seq<FollowUp>, a: seq<Commitment>, b: seq<Commitment>, messageId: nat)
    requires Promises(a) == Promises(b) && AllKnown(rows, a, messageId)
    ensures AllKnown(rows, b, messageId)
  {
    PromisesAt(a);
    PromisesAt(b);
    forall i | 0 <= i < |b| ensures Known(rows, FingerprintOf(Some(messageId), b[i].direction, b[i].text)) {
      assert Promises(a)[i] == Promises(b)[i];
      assert Known(rows, FingerprintOf(Some(messageId), a[i].direction, a[i].text));
    }
  }

  lemma {:induction false} PromisesAt(cs: seq<Commitment>)
    ensures |Promises(cs)| == |cs| && forall i :: 0 <= i < |cs| ==> Promises(cs)[i] == (cs[i].text, cs[i].direction)
  {
    if cs != [] {
      PromisesAt(cs[1..]);
    }
  }

  /** Everything this message promises is on the list. */
  predicate MessageRecorded(rows: seq<FollowUp>, messages: seq<MessageRow>, ids: map<string, nat>,
                            m: FetchedMessage, spam: set<string>, reader: Reader, today: Date) {
    m.providerId !in spam && m.providerId in ids && ids[m.providerId] < |messages| ==>
      match ExtractSpec(reader, m.body, Theirs, true, today)
      case Err(_) => true
      case Ok(found) => AllKnown(rows, found, ids[m.providerId])
  }

  lemma RecordMessageRecords(
      rows: seq<FollowUp>, messages: seq<MessageRow>, ids: map<string, nat>, m: FetchedMessage, spam: set<string>,
      reader: Reader, today: Date)
    ensures var (after, count) := RecordMessage(rows, messages, ids, m, spam, reader, today);
      && rows <= after && MessageRecorded(after, messages, ids, m, spam, reader, today)
      && (MessageRecorded(rows, messages, ids, m, spam, reader, today) ==> after == rows && count == 0)
  {
    var found := ExtractSpec(reader, m.body, Theirs, true, today);
    if m.providerId in ids && ids[m.providerId] < |messages| && found.Ok? {
      var id := ids[m.providerId];
      RecordAllRecords(rows, found.value, id, messages[id].threadId, m.sender, m.subject);
    }
  }

  /** Everything these messages promise is on the list. */
  predicate AllRecorded(
      rows: seq<FollowUp>, messages: seq<MessageRow>, ids: map<string, nat>, ms: seq<FetchedMessage>,
      spam: set<string>, reader: Reader, today: Date)
  {
    forall k :: 0 <= k < |ms| ==> MessageRecorded(rows, messages, ids, ms[k], spam, reader, today)
  }

  lemma AllRecordedGrows(
      rows: seq<FollowUp>, more: seq<FollowUp>, messages: seq<MessageRow>, ids: map<string, nat>,
      ms: seq<FetchedMessage>, spam: set<string>, reader: Reader, today: Date)
    requires rows <= more && AllRecorded(rows, messages, ids, ms, spam, reader, today)
    ensures AllRecorded(more, messages, ids, ms, spam, reader, today)
  {
    forall k | 0 <= k < |ms| ensures MessageRecorded(more, messages, ids, ms[k], spam, reader, today) {
      RecordedGrows(rows, more, messages, ids, ms[k], spam, reader, today);
    }
  }

  lemma AllRecordedSnoc(
      rows: seq<FollowUp>, messages: seq<MessageRow>, ids: map<string, nat>, ms: seq<FetchedMessage>,
      spam: set<string>, reader: Reader, today: Date)
    requires ms != []
    ensures AllRecorded(rows, messages, ids, ms, spam, reader, today) <==>
      && AllRecorded(rows, messages, ids, ms[..|ms| - 1], spam, reader, today)
      && MessageRecorded(rows, messages, ids, ms[|ms| - 1], spam, reader, today)
  {
    var n := |ms| - 1;
    assert forall k :: 0 <= k < n ==> ms[..n][k] == ms[k];
  }

  lemma {:induction false} RecordIncomingRecords(
      rows: seq<FollowUp>, messages: seq<MessageRow>, ids: map<string, nat>, ms: seq<FetchedMessage>,
      spam: set<string>, reader: Reader, today: Date)
    ensures var (after, count) := RecordIncoming(rows, messages, ids, ms, spam, reader, today);
      && rows <= after && AllRecorded(after, messages, ids, ms, spam, reader, today)
      && (AllRecorded(rows, messages, ids, ms, spam, reader, today) ==> after == rows && count == 0)
  {
    if ms != [] {
      var n := |ms| - 1;
      var before := RecordIncoming(rows, messages, ids, ms[..n], spam, reader, today).0;
      var after := RecordMessage(before, messages, ids, ms[n], spam, reader, today).0;
      RecordIncomingRecords(rows, messages, ids, ms[..n], spam, reader, today);
      RecordMessageRecords(before, messages, ids, ms[n], spam, reader, today);
      AllRecordedGrows(before, after, messages, ids, ms[..n], spam, reader, today);
      AllRecordedSnoc(after, messages, ids, ms, spam, reader, today);
      AllRecordedSnoc(rows, messages, ids, ms, spam, reader, today);
    }
  }

  lemma RecordedGrows(rows: seq<FollowUp>, more: seq<FollowUp>, messages: seq<MessageRow>, ids: map<string, nat>,
                      m: FetchedMessage, spam: set<string>, reader: Reader, today: Date)
    requires rows <= more && MessageRecorded(rows, messages, ids, m, spam, reader, today)
    ensures MessageRecorded(more, messages, ids, m, spam, reader, today)
  {
    var found := ExtractSpec(reader, m.body, Theirs, true, today);
    if m.providerId !in spam && m.providerId in ids && ids[m.providerId] < |messages| && found.Ok? {
      forall i | 0 <= i < |found.value|
        ensures Known(more, FingerprintOf(Some(ids[m.providerId]), found.value[i].direction, found.value[i].text))
      {
        KnownGrows(rows, more, FingerprintOf(Some(ids[m.providerId]), found.value[i].direction, found.value[i].text));
      }
    }
  }

  /** What one day's reading recorded, another day's reading of the same text has nothing to add to. */
  lemma RecordedOnAnotherDay(rows: seq<FollowUp>, messages: seq<MessageRow>, ids: map<string, nat>,
                             m: FetchedMessage, spam: set<string>, reader: Reader, d1: Date, d2: Date)
    requires MessageRecorded(rows, messages, ids, m, spam, reader, d1)
    requires ExtractSpec(reader, m.body, Theirs, true, d1).Ok?
    ensures MessageRecorded(rows, messages, ids, m, spam, reader, d2)
  {
    ExtractionIgnoresClock(reader, m.body, Theirs, true, d1, d2);
    var a := ExtractSpec(reader, m.body, Theirs, true, d1);
    var b := ExtractSpec(reader, m.body, Theirs, true, d2);
    if b.Ok? && m.providerId !in spam && m.providerId in ids && ids[m.providerId] < |messages| {
      SamePromisesSameKeys(rows, a.value, b.value, ids[m.providerId]);
    }
  }

  // -- every proposal is settled by the first sync -------------------------------------------------------

  predicate InGroups(groups: seq<Group>, item: Item) {
    exists i :: 0 <= i < |groups| && item in groups[i].items
  }

  /** A second sync would skip this proposal. */
  predicate Settled(rows: seq<ActionRow>, setting: Setting, p: Proposal) {
    p.emailId in setting.ids ==>
      || Active(rows, setting.ids[p.emailId], p.kind)
      || (p.requiresApproval && IsVetoed(setting, p) && Active(rows, setting.ids[p.emailId], Defer))
  }

  predicate SettledOrWaiting(g: Progress, setting: Setting, p: Proposal) {
    || Settled(g.store.actions, setting, p)
    || (p.emailId in setting.ids && InGroups(g.groups, Item(p, setting.ids[p.emailId])))
  }

  lemma ActiveGrows(rows: seq<ActionRow>, more: seq<ActionRow>, m: nat, t: ActionType)
    requires rows <= more && Active(rows, m, t)
    ensures Active(more, m, t)
  {
    var i :| 0 <= i < |rows| && Live(rows[i]) && Matches(rows[i], m, t);
    assert Live(more[i]) && Matches(more[i], m, t);
  }

  lemma SettledGrows(rows: seq<ActionRow>, more: seq<ActionRow>, setting: Setting, p: Proposal)
    requires rows <= more && Settled(rows, setting, p)
    ensures Settled(more, setting, p)
  {
    if p.emailId in setting.ids {
      var m := setting.ids[p.emailId];
      if Active(rows, m, p.kind) {
        ActiveGrows(rows, more, m, p.kind);
      } else {
        ActiveGrows(rows, more, m, Defer);
      }
    }
  }

  lemma {:induction false} AddedIsInGroups(groups: seq<Group>, name: string, item: Item, x: Item)
    ensures InGroups(AddToGroup(groups, name, item), x) <==> InGroups(groups, x) || x == item
  {
    var after := AddToGroup(groups, name, item);
    if groups == [] {
      assert after[0].items == [item];
    } else if groups[0].name == name {
      assert after[0].items == groups[0].items + [item];
      assert forall i :: 1 <= i < |groups| ==> after[i] == groups[i];
      if i :| 0 <= i < |groups| && x in groups[i].items {
        assert x in after[i].items;
      }
    } else {
      AddedIsInGroups(groups[1..], name, item, x);
      var rest := AddToGroup(groups[1..], name, item);
      assert after == [groups[0]] + rest;
      if i :| 0 <= i < |rest| && x in rest[i].items {
        assert after[i + 1] == rest[i];
      }
      if i :| 0 <= i < |groups| && x in groups[i].items {
        if i > 0 {
          assert groups[1..][i - 1] == groups[i];
        } else {
          assert after[0] == groups[0];
        }
      }
      if i :| 0 <= i < |after| && x in after[i].items {
        if i > 0 {
          assert rest[i - 1] == after[i];
        } else {
          assert after[0] == groups[0];
        }
      }
      assert forall i :: 0 <= i < |groups| - 1 ==> groups[1..][i] == groups[i + 1];
    }
  }

  /** No row from position `n` on failed. */
  predicate NoneFailedFrom(rows: seq<ActionRow>, n: nat) {
    forall i :: n <= i < |rows| ==> !rows[i].status.Failed?
  }

  lemma ProposeSettles(g: Progress, setting: Setting, p: Proposal, n: nat)
    requires n <= |g.store.actions| && NoneFailedFrom(Propose(g, setting, p).store.actions, n)
    ensures SettledOrWaiting(Propose(g, setting, p), setting, p)
    ensures g.store.actions <= Propose(g, setting, p).store.actions
  {
    var g' := Propose(g, setting, p);
    if p.emailId in setting.ids {
      var m := setting.ids[p.emailId];
      if |g'.store.actions| > |g.store.actions| {
        var last := g'.store.actions[|g.store.actions|];
        assert Live(last) && (Matches(last, m, p.kind) || Matches(last, m, Defer));
      } else if !Active(g.store.actions, m, p.kind) && !p.requiresApproval {
        AddedIsInGroups(g.groups, LabelTextFor(p), Item(p, m), Item(p, m));
      }
    }
  }

  lemma WaitingStays(g: Progress, setting: Setting, p: Proposal, q: Proposal)
    requires SettledOrWaiting(g, setting, q)
    ensures SettledOrWaiting(Propose(g, setting, p), setting, q)
  {
    var g' := Propose(g, setting, p);
    assert g.store.actions <= g'.store.actions;
    if Settled(g.store.actions, setting, q) {
      SettledGrows(g.store.actions, g'.store.actions, setting, q);
    } else if p.emailId in setting.ids {
      AddedIsInGroups(g.groups, LabelTextFor(p), Item(p, setting.ids[p.emailId]), Item(q, setting.ids[q.emailId]));
    }
  }

  lemma {:induction false} ProposeAllSettles(g: Progress, setting: Setting, ps: seq<Proposal>, n: nat)
    requires n <= |g.store.actions| && NoneFailedFrom(ProposeAll(g, setting, ps).store.actions, n)
    ensures g.store.actions <= ProposeAll(g, setting, ps).store.actions
    ensures forall p :: p in ps ==> SettledOrWaiting(ProposeAll(g, setting, ps), setting, p)
  {
    if ps != [] {
      var k := |ps| - 1;
      var mid := ProposeAll(g, setting, ps[..k]);
      assert mid.store.actions <= Propose(mid, setting, ps[k]).store.actions;
      ProposeAllSettles(g, setting, ps[..k], n);
      ProposeSettles(mid, setting, ps[k], n);
      forall p | p in ps ensures SettledOrWaiting(ProposeAll(g, setting, ps), setting, p) {
        if p in ps[..k] {
          WaitingStays(mid, setting, ps[k], p);
        } else {
          assert p == ps[k];
        }
      }
    }
  }

  lemma {:induction false} CreateAutoActivates(
      rows: seq<ActionRow>, items: seq<Item>, results: seq<WriteResult>, name: string, now: int, n: nat, item: Item)
    requires |items| == |results| && n <= |rows|
    requires NoneFailedFrom(CreateAuto(rows, items, results, name, now), n)
    ensures rows <= CreateAuto(rows, items, results, name, now)
    ensures item in items ==> Active(CreateAuto(rows, items, results, name, now), item.messageId, item.proposal.kind)
  {
    if items != [] {
      var k := |items| - 1;
      var before := CreateAuto(rows, items[..k], results[..k], name, now);
      var after := CreateAuto(rows, items, results, name, now);
      assert before <= after;
      CreateAutoActivates(rows, items[..k], results[..k], name, now, n, item);
      if item in items[..k] {
        ActiveGrows(before, after, item.messageId, item.proposal.kind);
      } else if item in items {
        assert item == items[k];
        assert Live(after[|before|]) && Matches(after[|before|], item.messageId, item.proposal.kind);
      }
    }
  }

  lemma {:induction false} ApplyGroupsActivates(store: Store, inp: SyncInput, groups: seq<Group>, n: nat, item: Item)
    requires n <= |store.actions| && NoneFailedFrom(ApplyGroups(store, inp, groups).actions, n)
    ensures store.actions <= ApplyGroups(store, inp, groups).actions
    ensures InGroups(groups, item) ==>
      Active(ApplyGroups(store, inp, groups).actions, item.messageId, item.proposal.kind)
  {
    if groups != [] {
      var k := |groups| - 1;
      var before := ApplyGroups(store, inp, groups[..k]);
      var after := ApplyGroups(store, inp, groups);
      var results := LabelGroup(before.writes, inp, groups[k]).0;
      CreateAutoGrows(before.actions, groups[k].items, results, groups[k].name, inp.now);
      ApplyGroupsActivates(store, inp, groups[..k], n, item);
      CreateAutoActivates(before.actions, groups[k].items, results, groups[k].name, inp.now, n, item);
      if InGroups(groups[..k], item) {
        ActiveGrows(before.actions, after.actions, item.messageId, item.proposal.kind);
      } else if InGroups(groups, item) {
        assert forall i :: 0 <= i < k ==> groups[..k][i] == groups[i];
        assert item in groups[k].items;
      }
    }
  }

  lemma {:induction false} CreateAutoGrows(
      rows: seq<ActionRow>, items: seq<Item>, results: seq<WriteResult>, name: string, now: int)
    requires |items| == |results|
    ensures rows <= CreateAuto(rows, items, results, name, now)
  {
    if items != [] {
      CreateAutoGrows(rows, items[..|items| - 1], results[..|items| - 1], name, now);
    }
  }

  // -- the second sync -----------------------------------------------------------------------------------

  lemma {:induction false} SettledIsSkipped(g: Progress, setting: Setting, ps: seq<Proposal>)
    requires g.groups == []
    requires forall p :: p in ps ==> p.emailId in setting.ids && Settled(g.store.actions, setting, p)
    ensures ProposeAll(g, setting, ps) == g.(skipped := g.skipped + |ps|)
  {
    if ps != [] {
      assert ps[|ps| - 1] in ps && forall p :: p in ps[..|ps| - 1] ==> p in ps;
      SettledIsSkipped(g, setting, ps[..|ps| - 1]);
    }
  }

  predicate HasEmail(emails: seq<Email>, id: string) { exists i :: 0 <= i < |emails| && emails[i].id == id }

  lemma HasEmailAmong(emails: seq<Email>, all: seq<Email>, id: string)
    requires HasEmail(emails, id) && forall e :: e in emails ==> e in all
    ensures HasEmail(all, id)
  {
    var i :| 0 <= i < |emails| && emails[i].id == id;
    assert emails[i] in all;
    var k :| 0 <= k < |all| && all[k] == emails[i];
  }

  lemma HasEmailCons(e: Email, rest: seq<Email>, id: string)
    ensures HasEmail([e] + rest, id) <==> e.id == id || HasEmail(rest, id)
  {
    var all := [e] + rest;
    assert all[0] == e && forall i :: 0 <= i < |rest| ==> all[i + 1] == rest[i];
  }

  lemma {:induction false} ClassifyProposalsAreForInbox(emails: seq<Email>, terms: Terms, p: Proposal)
    requires p in ClassifyProposals(emails, terms)
    ensures HasEmail(emails, p.emailId)
  {
    if emails != [] {
      var e, rest := emails[0], emails[1..];
      assert emails == [e] + rest;
      ClassifyProposalsCons(e, rest, terms);
      HasEmailCons(e, rest, p.emailId);
      if p in ClassifyProposals(rest, terms) {
        ClassifyProposalsAreForInbox(rest, terms, p);
      }
    }
  }

  lemma {:induction false} DecisionProposalsAreForInbox(emails: seq<Email>, labels: map<string, Label>, p: Proposal)
    requires p in DecisionProposals(emails, labels)
    ensures HasEmail(emails, p.emailId)
  {
    if emails != [] {
      var e, rest := emails[0], emails[1..];
      assert emails == [e] + rest;
      DecisionProposalsCons(e, rest, labels);
      HasEmailCons(e, rest, p.emailId);
      if p in DecisionProposals(rest, labels) {
        DecisionProposalsAreForInbox(rest, labels, p);
      }
    }
  }

  lemma ProposalsAreForInbox(obs: Observation, terms: Terms, p: Proposal)
    requires p in InboxProposals(obs, terms)
    ensures HasEmail(obs.emails, p.emailId)
  {
    var verdicts := Verdicts(obs.emails, map[], terms);
    InboxProposalsSplit(obs, terms);
    Sorting.SortKeepsMembers(HandledBefore, obs.emails);
    if p in ClassifyProposals(Unseen(obs.emails, {}), terms) {
      UnseenVisitsOnce(obs.emails, {});
      ClassifyProposalsAreForInbox(Unseen(obs.emails, {}), terms, p);
      HasEmailAmong(Unseen(obs.emails, {}), obs.emails, p.emailId);
    } else {
      UnseenVisitsOnce(Ranked(obs.emails), {});
      DecisionProposalsAreForInbox(Unseen(Ranked(obs.emails), {}), verdicts, p);
      HasEmailAmong(Unseen(Ranked(obs.emails), {}), obs.emails, p.emailId);
    }
  }

  /** Every proposal is about a fetched message. */
  lemma ProposalsAreForFetched(inp: SyncInput, account: string, p: Proposal)
    requires p in ProposalsOf(inp, account)
    ensures exists m :: m in inp.fetched && m.providerId == p.emailId
  {
    var obs := ToObservation(inp.fetched, account, inp.terms);
    ProposalsAreForInbox(obs, inp.terms, p);
    var i :| 0 <= i < |obs.emails| && obs.emails[i].id == p.emailId;
    assert inp.fetched[i] in inp.fetched && inp.fetched[i].providerId == p.emailId;
  }

  /** The same mailbox read again: same messages, vocabulary and patterns. */
  ghost predicate SameMail(a: SyncInput, b: SyncInput) {
    a.connection == b.connection && a.fetched == b.fetched && a.terms == b.terms && a.reader == b.reader
  }

  /** The rulings on record veto the same proposals. */
  predicate SameVetoes(a: Store, b: Store) {
    Suppressed(ListDecided(b.actions, b.messages)) == Suppressed(ListDecided(a.actions, a.messages))
  }

  /**
   * Re-sync is a no-op. After a sync none of whose rows failed, a second sync of
   * the same mail with the same vetoes, whatever the provider, model, budget and
   * date, writes nothing, files nothing, records nothing, calls no model, and
   * counts every proposal as skipped.
   */
  lemma ResyncIsNoOp(store: Store, account: string, inp: SyncInput, writer: Writer, shelf: Shelf,
                     inp2: SyncInput, writer2: Writer, shelf2: Shelf)
    requires ValidInstant(writer.clock) && ValidInstant(writer2.clock) && SameMail(inp, inp2)
    requires forall m :: m in inp.fetched ==> ExtractSpec(inp.reader, m.body, Theirs, true, inp.today).Ok?
    ensures
      var after := SyncOnce(store, account, inp, writer, shelf).store;
      var again := SyncOnce(after, account, inp2, writer2, shelf2);
      NoneFailedFrom(after.actions, |store.actions|) && SameVetoes(store, after) ==>
        && again.store == after
        && again.report == Report(|inp.fetched|, 0, 0, |ProposalsOf(inp, account)|, 0, 0)
        && again.shelf == CloseDesk(OpenDesk(writer2, shelf2))
  {
    var ps := ProposalsOf(inp, account);
    var (start, setting, _) := Prepare(store, account, inp, writer, shelf);
    var worked := ProposeAll(start, setting, ps);
    var after := ApplyGroups(worked.store, inp, worked.groups);
    assert after == SyncOnce(store, account, inp, writer, shelf).store;
    if NoneFailedFrom(after.actions, |store.actions|) && SameVetoes(store, after) {
      FirstSyncSettles(store, account, inp, writer, shelf);
      FirstSyncRecords(store, account, inp, writer, shelf, inp2.today);
      SyncKeepsMail(store, account, inp, writer, shelf);
      PersistIsIdempotent(store.messages, inp.connection, inp.fetched, Emails(inp, account));
      var (start2, setting2, found2) := Prepare(after, account, inp2, writer2, shelf2);
      assert setting2.ids == setting.ids && setting2.vetoes == setting.vetoes && setting2.emails == setting.emails;
      assert start2.store == after && found2 == 0;
      forall p | p in ps ensures p.emailId in setting2.ids && Settled(after.actions, setting2, p) {
        ProposalsAreForFetched(inp, account, p);
        PersistNamesRows(store.messages, inp.connection, inp.fetched, Emails(inp, account));
        assert Settled(after.actions, setting, p);
      }
      SettledIsSkipped(start2, setting2, ps);
    }
  }

  lemma FirstSyncSettles(store: Store, account: string, inp: SyncInput, writer: Writer, shelf: Shelf)
    requires ValidInstant(writer.clock)
    ensures
      var setting := Prepare(store, account, inp, writer, shelf).1;
      var after := SyncOnce(store, account, inp, writer, shelf).store.actions;
      NoneFailedFrom(after, |store.actions|) ==>
        forall p :: p in ProposalsOf(inp, account) ==> Settled(after, setting, p)
  {
    var ps := ProposalsOf(inp, account);
    var (start, setting, _) := Prepare(store, account, inp, writer, shelf);
    var worked := ProposeAll(start, setting, ps);
    var after := ApplyGroups(worked.store, inp, worked.groups);
    var n := |store.actions|;
    ProposeAllGrows(start, setting, ps);
    forall p | p in ps && NoneFailedFrom(after.actions, n) ensures Settled(after.actions, setting, p) {
      var m := if p.emailId in setting.ids then setting.ids[p.emailId] else 0;
      ApplyGroupsActivates(worked.store, inp, worked.groups, n, Item(p, m));
      ProposeAllSettles(start, setting, ps, n);
      if Settled(worked.store.actions, setting, p) {
        SettledGrows(worked.store.actions, after.actions, setting, p);
      }
    }
  }

  lemma {:induction false} ProposeAllGrows(g: Progress, setting: Setting, ps: seq<Proposal>)
    ensures g.store.actions <= ProposeAll(g, setting, ps).store.actions
  {
    if ps != [] {
      ProposeAllGrows(g, setting, ps[..|ps| - 1]);
    }
  }

  lemma {:induction false} ProposeAllKeepsMail(g: Progress, setting: Setting, ps: seq<Proposal>)
    ensures var s := ProposeAll(g, setting, ps).store;
      s.messages == g.store.messages && s.followUps == g.store.followUps
  {
    if ps != [] {
      ProposeAllKeepsMail(g, setting, ps[..|ps| - 1]);
    }
  }

  lemma {:induction false} ApplyGroupsKeepsMail(store: Store, inp: SyncInput, groups: seq<Group>)
    ensures var s := ApplyGroups(store, inp, groups); s.messages == store.messages && s.followUps == store.followUps
  {
    if groups != [] {
      ApplyGroupsKeepsMail(store, inp, groups[..|groups| - 1]);
    }
  }

  lemma SyncKeepsMail(store: Store, account: string, inp: SyncInput, writer: Writer, shelf: Shelf)
    requires ValidInstant(writer.clock)
    ensures
      var (start, after) := (Prepare(store, account, inp, writer, shelf).0.store,
        SyncOnce(store, account, inp, writer, shelf).store);
      after.messages == start.messages && after.followUps == start.followUps
  {
    var (start, setting, _) := Prepare(store, account, inp, writer, shelf);
    var worked := ProposeAll(start, setting, ProposalsOf(inp, account));
    ProposeAllKeepsMail(start, setting, ProposalsOf(inp, account));
    ApplyGroupsKeepsMail(worked.store, inp, worked.groups);
  }

  /** Reading the same messages on day `d` adds nothing to what this sync recorded. */
  lemma FirstSyncRecords(store: Store, account: string, inp: SyncInput, writer: Writer, shelf: Shelf, d: Date)
    requires ValidInstant(writer.clock)
    requires forall m :: m in inp.fetched ==> ExtractSpec(inp.reader, m.body, Theirs, true, inp.today).Ok?
    ensures
      var (start, setting, _) := Prepare(store, account, inp, writer, shelf);
      RecordIncoming(start.store.followUps, start.store.messages, setting.ids, inp.fetched,
                     SpamIds(ProposalsOf(inp, account)), inp.reader, d) == (start.store.followUps, 0)
  {
    var (start, setting, _) := Prepare(store, account, inp, writer, shelf);
    var spam := SpamIds(ProposalsOf(inp, account));
    var rows, messages := start.store.followUps, start.store.messages;
    RecordIncomingRecords(store.followUps, messages, setting.ids, inp.fetched, spam, inp.reader, inp.today);
    forall m | m in inp.fetched ensures MessageRecorded(rows, messages, setting.ids, m, spam, inp.reader, d) {
      RecordedOnAnotherDay(rows, messages, setting.ids, m, spam, inp.reader, inp.today, d);
    }
    RecordIncomingRecords(rows, messages, setting.ids, inp.fetched, spam, inp.reader, d);
  }
}
