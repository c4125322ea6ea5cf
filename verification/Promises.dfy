// The follow-up table over the queue's steps: every promise listed once, every
// due date one the overdue query can compare.
module Promises {
  import opened Prelude
  import opened Mail
  import opened Calendar
  import IsoTime
  import opened Commitments
  import opened FollowUps
  import opened Tables
  import opened Sync
  import opened Review
  import opened Resync

  ghost predicate Orderly(rows: seq<FollowUp>) { EachOnce(rows) && AllStored(rows) }

  lemma UpsertKeepsOrderly(rows: seq<FollowUp>, f: FollowUp)
    requires Orderly(rows) && StoredDate(f.dueAt)
    ensures Orderly(Upsert(rows, f))
  {
    UpsertKeepsEachOnce(rows, f);
  }

  lemma {:induction false} RecordAllKeepsOrderly(
    rows: seq<FollowUp>, cs: seq<Commitment>, messageId: nat, threadId: Option<string>, counterparty: string,
      subject: string)
    requires Orderly(rows) && DatesStored(cs)
    ensures Orderly(RecordAll(rows, cs, messageId, threadId, counterparty, subject).0)
  {
    if cs != [] {
      var n := |cs| - 1;
      RecordAllKeepsOrderly(rows, cs[..n], messageId, threadId, counterparty, subject);
      var before := RecordAll(rows, cs[..n], messageId, threadId, counterparty, subject).0;
      UpsertKeepsOrderly(before, FollowUpFor(cs[n], messageId, threadId, counterparty, subject));
    }
  }

  lemma RecordMessageKeepsOrderly(rows: seq<FollowUp>, messages: seq<MessageRow>, ids: map<string, nat>,
                                  m: FetchedMessage, spam: set<string>, reader: Reader, today: Date)
    requires Orderly(rows)
    ensures Orderly(RecordMessage(rows, messages, ids, m, spam, reader, today).0)
  {
    var found := ExtractSpec(reader, m.body, Theirs, true, today);
    ExtractedDatesAreStored(reader, m.body, Theirs, true, today);
    if m.providerId in ids && ids[m.providerId] < |messages| && found.Ok? {
      var id := ids[m.providerId];
      RecordAllKeepsOrderly(rows, found.value, id, messages[id].threadId, m.sender, m.subject);
    }
  }

  lemma {:induction false} RecordIncomingKeepsOrderly(
    rows: seq<FollowUp>, messages: seq<MessageRow>, ids: map<string, nat>,
    ms: seq<FetchedMessage>, spam: set<string>, reader: Reader, today: Date)
    requires Orderly(rows)
    ensures Orderly(RecordIncoming(rows, messages, ids, ms, spam, reader, today).0)
  {
    if ms != [] {
      var n := |ms| - 1;
      RecordIncomingKeepsOrderly(rows, messages, ids, ms[..n], spam, reader, today);
      var before := RecordIncoming(rows, messages, ids, ms[..n], spam, reader, today).0;
      RecordMessageKeepsOrderly(before, messages, ids, ms[n], spam, reader, today);
    }
  }

  lemma SyncKeepsOrderly(store: Store, account: string, inp: SyncInput, writer: Writer, shelf: Shelf)
    requires IsoTime.ValidInstant(writer.clock) && Orderly(store.followUps)
    ensures Orderly(SyncOnce(store, account, inp, writer, shelf).store.followUps)
  {
    var (start, setting, _) := Prepare(store, account, inp, writer, shelf);
    SyncKeepsMail(store, account, inp, writer, shelf);
    RecordIncomingKeepsOrderly(store.followUps, start.store.messages, setting.ids, inp.fetched,
                               SpamIds(ProposalsOf(inp, account)), inp.reader, inp.today);
  }

  lemma RecordOwnKeepsOrderly(rows: seq<FollowUp>, sent: ActionRow, message: MessageRow, reader: Reader, today: Date)
    requires Orderly(rows)
    ensures Orderly(RecordOwn(rows, sent, message, reader, today))
  {
    if sent.content.Some? {
      var found := ExtractSpec(reader, sent.content.value, Ours, false, today);
      ExtractedDatesAreStored(reader, sent.content.value, Ours, false, today);
      if found.Ok? {
        RecordAllKeepsOrderly(rows, found.value, sent.messageId, message.threadId, message.sender, message.subject);
      }
    }
  }

  lemma ApproveKeepsOrderly(store: Store, a: Approval)
    requires Orderly(store.followUps)
    ensures ApproveSpec(store, a).Ok? ==> Orderly(ApproveSpec(store, a).value.followUps)
  {
    if ApproveSpec(store, a).Ok? {
      var row := store.actions[a.actionId];
      RecordOwnKeepsOrderly(store.followUps, Amended(row, a.edited), store.messages[row.messageId], a.reader, a.today);
    }
  }

  lemma {:induction false} RetryAllKeepsFollowUps(store: Store, ids: seq<nat>, r: Retry)
    requires InTable(ids, |store.actions|)
    ensures RetryAll(store, ids, r).0.followUps == store.followUps
  {
    if ids != [] {
      RetryAllKeepsFollowUps(store, ids[..|ids| - 1], r);
    }
  }

  lemma ResolveKeepsOrderly(rows: seq<FollowUp>, i: nat, status: FollowUpStatus)
    requires Orderly(rows) && i < |rows|
    ensures Orderly(rows[i := rows[i].(status := status)])
  {
    var after := rows[i := rows[i].(status := status)];
    assert forall k :: 0 <= k < |rows| ==> KeyOf(after[k]) == KeyOf(rows[k]) && after[k].dueAt == rows[k].dueAt;
  }
}
