// What reading mail and sending replies put in the follow-up list: which promises,
// whose, due when, and that none is passed over.
module Owing {
  import opened Prelude
  import opened Text
  import opened Mail
  import opened Enrich
  import opened Pipeline
  import opened Calendar
  import opened IsoTime
  import opened Commitments
  import opened FollowUps
  import opened Dates
  import opened Tables
  import opened Sync
  import opened Review
  import opened Resync

  /** The text a promise was read from, and what it is filed under. */
  datatype Origin = Origin(
    text: string, author: Direction, requests: bool, messageId: nat, counterparty: string, subject: string)

  /** An open row that says what an owed sentence of its text says: its words, whose it is, and when. */
  ghost predicate Owes(f: FollowUp, o: Origin, r: Reader, today: Date) {
    && f.messageId == Some(o.messageId) && f.counterparty == o.counterparty && f.subject == o.subject
    && f.status.Open? && f.text in r.sentences(o.text) && Owed(r, f.text, o.requests)
    && Says(r, f.text, o.author, today, Commitment(f.text, f.direction, f.dueAt, f.duePhrase))
  }

  ghost predicate AllFrom(cs: seq<Commitment>, o: Origin, r: Reader, today: Date) {
    forall i :: 0 <= i < |cs| ==>
      && cs[i].text in r.sentences(o.text) && Owed(r, cs[i].text, o.requests)
      && Says(r, cs[i].text, o.author, today, cs[i])
  }

  ghost predicate OwedFrom(rows: seq<FollowUp>, n: nat, o: Origin, r: Reader, today: Date) {
    forall i :: n <= i < |rows| ==> Owes(rows[i], o, r, today)
  }

  function Filed(rows: seq<FollowUp>, cs: seq<Commitment>, o: Origin, threadId: Option<string>): seq<FollowUp> {
    RecordAll(rows, cs, o.messageId, threadId, o.counterparty, o.subject).0
  }

  lemma {:induction false} FiledAreOwed(
      rows: seq<FollowUp>, cs: seq<Commitment>, o: Origin, threadId: Option<string>, r: Reader, today: Date)
    requires AllFrom(cs, o, r, today)
    ensures rows <= Filed(rows, cs, o, threadId) && OwedFrom(Filed(rows, cs, o, threadId), |rows|, o, r, today)
  {
    if cs != [] {
      var n := |cs| - 1;
      assert forall i :: 0 <= i < n ==> cs[..n][i] == cs[i];
      FiledAreOwed(rows, cs[..n], o, threadId, r, today);
      OneMoreOwed(Filed(rows, cs[..n], o, threadId), |rows|, cs[n], o, threadId, r, today);
    }
  }

  lemma OneMoreOwed(
      rows: seq<FollowUp>, n: nat, c: Commitment, o: Origin, threadId: Option<string>, r: Reader, today: Date)
    requires OwedFrom(rows, n, o, r, today) && c.text in r.sentences(o.text) && Owed(r, c.text, o.requests)
    requires Says(r, c.text, o.author, today, c)
    ensures
      var after := Upsert(rows, FollowUpFor(c, o.messageId, threadId, o.counterparty, o.subject));
      rows <= after && OwedFrom(after, n, o, r, today)
  {
    assert Commitment(c.text, c.direction, c.dueAt, c.duePhrase) == c;
    assert Owes(FollowUpFor(c, o.messageId, threadId, o.counterparty, o.subject), o, r, today);
  }

  lemma {:induction false} FiledAreKnown(
      rows: seq<FollowUp>, cs: seq<Commitment>, o: Origin, threadId: Option<string>, i: nat)
    requires i < |cs|
    ensures Known(Filed(rows, cs, o, threadId), FingerprintOf(Some(o.messageId), cs[i].direction, cs[i].text))
  {
    var n := |cs| - 1;
    var before := Filed(rows, cs[..n], o, threadId);
    var last := FollowUpFor(cs[n], o.messageId, threadId, o.counterparty, o.subject);
    if i < n {
      FiledAreKnown(rows, cs[..n], o, threadId, i);
      KnownStays(before, Upsert(before, last), FingerprintOf(Some(o.messageId), cs[i].direction, cs[i].text));
    } else if !Known(before, KeyOf(last)) {
      assert KeyOf(Upsert(before, last)[|before|]) == KeyOf(last);
    }
  }

  lemma KnownStays(rows: seq<FollowUp>, more: seq<FollowUp>, key: Fingerprint)
    requires rows <= more && Known(rows, key)
    ensures Known(more, key)
  {
    var i :| 0 <= i < |rows| && KeyOf(rows[i]) == key;
    assert more[i] == rows[i];
  }

  /** A row about this message with the sentence's words, whatever its wrapping or letter case. */
  predicate Noted(rows: seq<FollowUp>, messageId: nat, s: string) {
    exists i :: 0 <= i < |rows| && rows[i].messageId == Some(messageId) && Words(Lower(rows[i].text)) == Words(Lower(s))
  }

  lemma NotedStays(rows: seq<FollowUp>, more: seq<FollowUp>, messageId: nat, s: string)
    requires rows <= more && Noted(rows, messageId, s)
    ensures Noted(more, messageId, s)
  {
    var i :| 0 <= i < |rows| && rows[i].messageId == Some(messageId) && Words(Lower(rows[i].text)) == Words(Lower(s));
    assert more[i] == rows[i];
  }

  /** Recording what was found in a text files only what is owed in it, and all of it. */
  lemma FiledIsWhatIsOwed(rows: seq<FollowUp>, o: Origin, threadId: Option<string>, r: Reader, today: Date)
    requires Valid(today) && ReaderCaptures(r) && ExtractSpec(r, o.text, o.author, o.requests, today).Ok?
    ensures
      var after := Filed(rows, ExtractSpec(r, o.text, o.author, o.requests, today).value, o, threadId);
      && rows <= after && OwedFrom(after, |rows|, o, r, today)
      && forall s :: s in r.sentences(o.text) && Owed(r, s, o.requests) ==> Noted(after, o.messageId, s)
  {
    var found := ExtractSpec(r, o.text, o.author, o.requests, today).value;
    var after := Filed(rows, found, o, threadId);
    ExtractionMeans(r, o.text, o.author, o.requests, today);
    FiledAreOwed(rows, found, o, threadId, r, today);
    forall s | s in r.sentences(o.text) && Owed(r, s, o.requests) ensures Noted(after, o.messageId, s) {
      var i := ExtractionMissesNothing(r, o.text, o.author, o.requests, today, s);
      FiledAreKnown(rows, found, o, threadId, i);
    }
  }

  // -- sending --------------------------------------------------------------------------------------

  /** The words on the row after the approval. */
  function SentText(after: Store, id: nat): string
    requires id < |after.actions|
  {
    after.actions[id].content.GetOr("")
  }

  ghost predicate OwnPromisesFiled(store: Store, after: Store, a: Approval, row: ActionRow, message: MessageRow) {
    a.actionId < |after.actions| &&
    var o := Origin(SentText(after, a.actionId), Ours, false, row.messageId, message.sender, message.subject);
    && store.followUps <= after.followUps && OwedFrom(after.followUps, |store.followUps|, o, a.reader, a.today)
    && (ExtractSpec(a.reader, o.text, Ours, false, a.today).Ok? ==>
          forall s :: s in a.reader.sentences(o.text) && Owed(a.reader, s, false) ==>
            Noted(after.followUps, row.messageId, s))
  }

  /**
   * Once a reply is out, what it promised is on the list as ours, each promise with the
   * day it named; nothing else is added, and nothing at all when the send failed.
   */
  lemma SentPromisesAreOurs(store: Store, a: Approval)
    requires Valid(a.today) && ReaderCaptures(a.reader) && ApproveSpec(store, a).Ok?
    ensures
      var (was, after) := (store.actions[a.actionId], ApproveSpec(store, a).value);
      if was.kind.Reply? && after.actions[a.actionId].status.Executed? && SentText(after, a.actionId) != "" then
        OwnPromisesFiled(store, after, a, was, store.messages[was.messageId])
      else after.followUps == store.followUps
  {
    var row, after := store.actions[a.actionId], ApproveSpec(store, a).value;
    var message := store.messages[row.messageId];
    var sent := Amended(row, a.edited);
    var o := Origin(sent.content.GetOr(""), Ours, false, row.messageId, message.sender, message.subject);
    if after.actions[a.actionId].status.Executed? {
      assert after.actions[a.actionId].content == sent.content;
      if ExtractSpec(a.reader, o.text, Ours, false, a.today).Ok? {
        FiledIsWhatIsOwed(store.followUps, o, message.threadId, a.reader, a.today);
      }
    }
  }

  // -- reading --------------------------------------------------------------------------------------

  function OriginOf(m: FetchedMessage, ids: map<string, nat>): Origin
    requires m.providerId in ids
  {
    Origin(m.body, Theirs, true, ids[m.providerId], m.sender, m.subject)
  }

  /** The row says what an owed sentence of this message says, and the message is not spam. */
  ghost predicate ReadOff(
      f: FollowUp, m: FetchedMessage, spam: set<string>, ids: map<string, nat>, r: Reader, today: Date)
  {
    m.providerId !in spam && m.providerId in ids && Owes(f, OriginOf(m, ids), r, today)
  }

  /** Every row from the n-th on was read off one of these messages. */
  ghost predicate ReadFrom(
      rows: seq<FollowUp>, n: nat, ms: seq<FetchedMessage>, spam: set<string>, ids: map<string, nat>, r: Reader,
      today: Date)
  {
    forall i :: n <= i < |rows| ==> ReadOffOne(rows[i], ms, spam, ids, r, today)
  }

  ghost predicate ReadOffOne(
      f: FollowUp, ms: seq<FetchedMessage>, spam: set<string>, ids: map<string, nat>, r: Reader, today: Date)
  {
    exists m :: m in ms && ReadOff(f, m, spam, ids, r, today)
  }

  /** Not spam, known to the tables, and its promises can be dated. */
  predicate Readable(
      m: FetchedMessage, messages: seq<MessageRow>, spam: set<string>, ids: map<string, nat>, r: Reader, today: Date)
  {
    && m.providerId !in spam && m.providerId in ids && ids[m.providerId] < |messages|
    && ExtractSpec(r, m.body, Theirs, true, today).Ok?
  }

  /** Every owed sentence of this message is noted. */
  ghost predicate AllNoted(rows: seq<FollowUp>, m: FetchedMessage, ids: map<string, nat>, r: Reader) {
    m.providerId in ids && forall s :: s in r.sentences(m.body) && Owed(r, s, true) ==>
      Noted(rows, ids[m.providerId], s)
  }

  lemma AllNotedStays(
      rows: seq<FollowUp>, more: seq<FollowUp>, m: FetchedMessage, ids: map<string, nat>, r: Reader)
    requires rows <= more && AllNoted(rows, m, ids, r)
    ensures AllNoted(more, m, ids, r)
  {
    forall s | s in r.sentences(m.body) && Owed(r, s, true) ensures Noted(more, ids[m.providerId], s) {
      NotedStays(rows, more, ids[m.providerId], s);
    }
  }

  lemma MessageIsRead(
      rows: seq<FollowUp>, messages: seq<MessageRow>, ids: map<string, nat>, m: FetchedMessage, spam: set<string>,
      r: Reader, today: Date)
    requires Valid(today) && ReaderCaptures(r)
    ensures var after := RecordMessage(rows, messages, ids, m, spam, r, today).0;
      && rows <= after && (forall i :: |rows| <= i < |after| ==> ReadOff(after[i], m, spam, ids, r, today))
      && (Readable(m, messages, spam, ids, r, today) ==> AllNoted(after, m, ids, r))
  {
    if Readable(m, messages, spam, ids, r, today) {
      var o := OriginOf(m, ids);
      FiledIsWhatIsOwed(rows, o, messages[o.messageId].threadId, r, today);
    }
  }

  lemma ReadFromWidens(
      rows: seq<FollowUp>, more: seq<FollowUp>, n: nat, ms: seq<FetchedMessage>, m: FetchedMessage, spam: set<string>,
      ids: map<string, nat>, r: Reader, today: Date)
    requires n <= |rows| && rows <= more && ReadFrom(rows, n, ms, spam, ids, r, today)
    requires forall i :: |rows| <= i < |more| ==> ReadOff(more[i], m, spam, ids, r, today)
    ensures ReadFrom(more, n, ms + [m], spam, ids, r, today)
  {
    forall i | n <= i < |more| ensures ReadOffOne(more[i], ms + [m], spam, ids, r, today) {
      if i < |rows| {
        assert more[i] == rows[i];
        var x :| x in ms && ReadOff(rows[i], x, spam, ids, r, today);
        assert x in ms + [m] && ReadOff(more[i], x, spam, ids, r, today);
      } else {
        assert m in ms + [m];
      }
    }
  }

  lemma {:induction false} RowsAreReadOff(
      rows: seq<FollowUp>, messages: seq<MessageRow>, ids: map<string, nat>, ms: seq<FetchedMessage>,
      spam: set<string>, r: Reader, today: Date)
    requires Valid(today) && ReaderCaptures(r)
    ensures var after := RecordIncoming(rows, messages, ids, ms, spam, r, today).0;
      rows <= after && ReadFrom(after, |rows|, ms, spam, ids, r, today)
  {
    if ms != [] {
      var n := |ms| - 1;
      var before := RecordIncoming(rows, messages, ids, ms[..n], spam, r, today).0;
      var after := RecordIncoming(rows, messages, ids, ms, spam, r, today).0;
      RowsAreReadOff(rows, messages, ids, ms[..n], spam, r, today);
      MessageIsRead(before, messages, ids, ms[n], spam, r, today);
      ReadFromWidens(before, after, |rows|, ms[..n], ms[n], spam, ids, r, today);
      assert ms == ms[..n] + [ms[n]];
    }
  }

  lemma {:induction false} MailIsNoted(
      rows: seq<FollowUp>, messages: seq<MessageRow>, ids: map<string, nat>, ms: seq<FetchedMessage>,
      spam: set<string>, r: Reader, today: Date, k: nat)
    requires Valid(today) && ReaderCaptures(r) && k < |ms| && Readable(ms[k], messages, spam, ids, r, today)
    ensures AllNoted(RecordIncoming(rows, messages, ids, ms, spam, r, today).0, ms[k], ids, r)
  {
    var n := |ms| - 1;
    var before := RecordIncoming(rows, messages, ids, ms[..n], spam, r, today).0;
    MessageIsRead(before, messages, ids, ms[n], spam, r, today);
    if k < n {
      MailIsNoted(rows, messages, ids, ms[..n], spam, r, today, k);
      AllNotedStays(before, RecordIncoming(rows, messages, ids, ms, spam, r, today).0, ms[k], ids, r);
    }
  }

  lemma InboxIsRead(
      rows: seq<FollowUp>, messages: seq<MessageRow>, ids: map<string, nat>, ms: seq<FetchedMessage>,
      spam: set<string>, r: Reader, today: Date)
    requires Valid(today) && ReaderCaptures(r)
    ensures var after := RecordIncoming(rows, messages, ids, ms, spam, r, today).0;
      && rows <= after && ReadFrom(after, |rows|, ms, spam, ids, r, today)
      && forall m :: m in ms && Readable(m, messages, spam, ids, r, today) ==> AllNoted(after, m, ids, r)
  {
    RowsAreReadOff(rows, messages, ids, ms, spam, r, today);
    forall m | m in ms && Readable(m, messages, spam, ids, r, today)
      ensures AllNoted(RecordIncoming(rows, messages, ids, ms, spam, r, today).0, m, ids, r)
    {
      var k :| 0 <= k < |ms| && ms[k] == m;
      MailIsNoted(rows, messages, ids, ms, spam, r, today, k);
    }
  }

  /**
   * A sync lists what the mail it fetched promises or asks for: each new row says what
   * an owed sentence of a message that is not spam says, with whose it is and the day
   * it names, and every owed sentence of such a message is on the list.
   */
  lemma SyncReadsPromises(store: Store, account: string, inp: SyncInput, writer: Writer, shelf: Shelf)
    requires ValidInstant(writer.clock) && Valid(inp.today) && ReaderCaptures(inp.reader)
    ensures
      var after := SyncOnce(store, account, inp, writer, shelf).store;
      var (ids, spam) := (Prepare(store, account, inp, writer, shelf).1.ids, SpamIds(ProposalsOf(inp, account)));
      && store.followUps <= after.followUps
      && ReadFrom(after.followUps, |store.followUps|, inp.fetched, spam, ids, inp.reader, inp.today)
      && forall m :: m in inp.fetched && Readable(m, after.messages, spam, ids, inp.reader, inp.today) ==>
           AllNoted(after.followUps, m, ids, inp.reader)
  {
    var received := Received(store, inp, Emails(inp, account));
    SyncKeepsMail(store, account, inp, writer, shelf);
    InboxIsRead(store.followUps, received.0.messages, received.1, inp.fetched, SpamIds(ProposalsOf(inp, account)),
      inp.reader, inp.today);
  }

  // -- which messages are spam ------------------------------------------------------------------------

  predicate IsFirst(ms: seq<FetchedMessage>, i: nat, id: string) {
    i < |ms| && ms[i].providerId == id && forall j :: 0 <= j < i ==> ms[j].providerId != id
  }

  lemma {:induction false} FirstEmailIsFirst(ms: seq<FetchedMessage>, es: seq<Email>, i: nat, id: string)
    requires |ms| == |es| && (forall j :: 0 <= j < |ms| ==> es[j].id == ms[j].providerId) && IsFirst(ms, i, id)
    ensures FirstWithId(es, id) == Some(es[i])
  {
    if i > 0 {
      FirstEmailIsFirst(ms[1..], es[1..], i - 1, id);
    }
  }

  lemma {:induction false} ProposalsForAre(ps: seq<Proposal>, id: string, p: Proposal)
    ensures p in ProposalsFor(ps, id) <==> p in ps && p.emailId == id
  {
    if ps != [] {
      ProposalsForAre(ps[1..], id, p);
    }
  }

  /** An id counts as spam exactly when the first message fetched under it holds a spam term. */
  lemma SpamIsFirstVerdict(inp: SyncInput, account: string, i: nat, id: string)
    requires id != "" && IsFirst(inp.fetched, i, id)
    ensures id in SpamIds(ProposalsOf(inp, account)) <==>
      AnyTerm(inp.terms.spam, Lower(inp.fetched[i].subject + " " + inp.fetched[i].body))
  {
    var obs := ToObservation(inp.fetched, account, inp.terms);
    FirstEmailIsFirst(inp.fetched, obs.emails, i, id);
    RoutingOfEachMessage(obs, inp.terms, id);
    VerdictOfFetchedMessage(inp.fetched[i], account, inp.terms);
    SpamIsClassifiedSpam(ProposalsOf(inp, account), id);
  }

  lemma SpamIsClassifiedSpam(ps: seq<Proposal>, id: string)
    requires var mine := ProposalsFor(ps, id);
      mine != [] && mine[0].kind.Classify? && |mine| <= 2 && (|mine| == 2 ==> !mine[1].kind.Classify?)
    ensures id in SpamIds(ps) <==> ProposalsFor(ps, id)[0].labelled == Some(Spam)
  {
    var mine := ProposalsFor(ps, id);
    ProposalsForAre(ps, id, mine[0]);
    if id in SpamIds(ps) {
      var p :| p in ps && p.kind.Classify? && p.labelled == Some(Spam) && p.emailId == id;
      ProposalsForAre(ps, id, p);
    }
  }
}
