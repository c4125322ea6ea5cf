// One sync of one mailbox, as a function of the tables, the provider's answers
// and the model's answers (app/saas/sync_service.py: _sync, _record_commitments).
module Sync {
  import opened Prelude
  import opened Mail
  import opened Enrich
  import opened Pipeline
  import opened Calendar
  import opened IsoTime
  import opened Commitments
  import opened FollowUps
  import opened Ledger
  import opened Rubric
  import opened Budget
  import opened Learning
  import opened Drafting
  import opened Tables

  datatype ProcessingError = PlanLapsed | NotFound | AlreadyDecided(status: Status)

  /** What a sync is called with and what it meets on the way. */
  datatype SyncInput = SyncInput(
    connection: string, fetched: seq<FetchedMessage>, planActive: bool,
    provider: Provider, batches: bool, authored: string -> Option<string>,
    terms: Terms, reader: Reader, guards: Guards, now: int, today: Date)

  /** Everything about the model and its allowance. */
  datatype Writer = Writer(
    live: bool, model: Model, orgId: string, limit: real, ledgerReadable: bool, clock: Instant)

  /** What drafting leaves behind between syncs. */
  datatype Shelf = Shelf(cache: map<DraftKey, CachedDraft>, ledger: seq<UsageRow>, calls: nat)

  datatype Report = Report(
    messages: nat, proposed: nat, autoExecuted: nat, skipped: nat, downgraded: nat, commitments: nat)

  // -- persisting messages and follow-ups ----------------------------------------------------

  function MessageRowFor(connection: string, m: FetchedMessage, e: Email): MessageRow {
    MessageRow(connection, m.providerId, if m.threadId == "" then None else Some(m.threadId),
               m.sender, m.subject, e.senderRole)
  }

  /** The message table after upserting each fetched message, and each provider id's row. */
  function Persist(rows: seq<MessageRow>, connection: string, ms: seq<FetchedMessage>, es: seq<Email>)
    : (seq<MessageRow>, map<string, nat>)
    requires |ms| == |es|
  {
    if ms == [] then (rows, map[])
    else
      var n := |ms| - 1;
      var (before, ids) := Persist(rows, connection, ms[..n], es[..n]);
      var (after, id) := UpsertMessage(before, MessageRowFor(connection, ms[n], es[n]));
      (after, ids[ms[n].providerId := id])
  }

  function FollowUpFor(
      c: Commitment, messageId: nat, threadId: Option<string>, counterparty: string, subject: string): FollowUp {
    FollowUp(Some(messageId), threadId, c.direction, c.text, c.dueAt, c.duePhrase, counterparty, subject, Open)
  }

  /** Record a batch of commitments; how many were new. */
  function RecordAll(rows: seq<FollowUp>, cs: seq<Commitment>, messageId: nat, threadId: Option<string>,
                     counterparty: string, subject: string): (seq<FollowUp>, nat)
  {
    if cs == [] then (rows, 0)
    else
      var n := |cs| - 1;
      var (before, count) := RecordAll(rows, cs[..n], messageId, threadId, counterparty, subject);
      var after := Upsert(before, FollowUpFor(cs[n], messageId, threadId, counterparty, subject));
      (after, count + if |after| > |before| then 1 else 0)
  }

  lemma RecordAllStep(rows: seq<FollowUp>, cs: seq<Commitment>, i: nat, messageId: nat, threadId: Option<string>,
                      counterparty: string, subject: string)
    requires i < |cs|
    ensures
      var (before, count) := RecordAll(rows, cs[..i], messageId, threadId, counterparty, subject);
      var after := Upsert(before, FollowUpFor(cs[i], messageId, threadId, counterparty, subject));
      RecordAll(rows, cs[..i + 1], messageId, threadId, counterparty, subject) ==
        (after, count + if |after| > |before| then 1 else 0)
  {
    assert cs[..i + 1][..i] == cs[..i];
  }

  lemma RecordAllNext(
      rows: seq<FollowUp>, cs: seq<Commitment>, i: nat, messageId: nat, threadId: Option<string>, counterparty: string,
      subject: string, before: seq<FollowUp>, count: nat, after: seq<FollowUp>, created: bool)
    requires i < |cs|
    requires RecordAll(rows, cs[..i], messageId, threadId, counterparty, subject) == (before, count)
    requires after == Upsert(before, FollowUpFor(cs[i], messageId, threadId, counterparty, subject))
    requires created == (|after| > |before|)
    ensures RecordAll(rows, cs[..i + 1], messageId, threadId, counterparty, subject) ==
      (after, if created then count + 1 else count)
  {
    RecordAllStep(rows, cs, i, messageId, threadId, counterparty, subject);
  }

  /** An extraction that raises costs that message its follow-ups, not the sync. */
  function RecordMessage(rows: seq<FollowUp>, messages: seq<MessageRow>, ids: map<string, nat>,
                         m: FetchedMessage, spam: set<string>, reader: Reader, today: Date): (seq<FollowUp>, nat)
  {
    if m.providerId in spam || m.providerId !in ids || ids[m.providerId] >= |messages| then (rows, 0)
    else
      match ExtractSpec(reader, m.body, Theirs, true, today)
      case Err(_) => (rows, 0)
      case Ok(found) =>
        RecordAll(rows, found, ids[m.providerId], messages[ids[m.providerId]].threadId, m.sender, m.subject)
  }

  /** One more message after those already read. */
  function RecordNext(
      done: (seq<FollowUp>, nat), messages: seq<MessageRow>, ids: map<string, nat>, m: FetchedMessage,
      spam: set<string>, reader: Reader, today: Date): (seq<FollowUp>, nat)
  {
    var (after, more) := RecordMessage(done.0, messages, ids, m, spam, reader, today);
    (after, done.1 + more)
  }

  function RecordIncoming(
      rows: seq<FollowUp>, messages: seq<MessageRow>, ids: map<string, nat>, ms: seq<FetchedMessage>,
      spam: set<string>, reader: Reader, today: Date): (seq<FollowUp>, nat)
  {
    if ms == [] then (rows, 0)
    else
      var n := |ms| - 1;
      RecordNext(RecordIncoming(rows, messages, ids, ms[..n], spam, reader, today),
                 messages, ids, ms[n], spam, reader, today)
  }

  lemma RecordNextIs(
      rows: seq<FollowUp>, count: nat, messages: seq<MessageRow>, ids: map<string, nat>, m: FetchedMessage,
      spam: set<string>, reader: Reader, today: Date, after: seq<FollowUp>, more: nat)
    requires RecordMessage(rows, messages, ids, m, spam, reader, today) == (after, more)
    ensures RecordNext((rows, count), messages, ids, m, spam, reader, today) == (after, count + more)
  {
  }

  lemma RecordIncomingStep(
      rows: seq<FollowUp>, messages: seq<MessageRow>, ids: map<string, nat>, ms: seq<FetchedMessage>, i: nat,
      spam: set<string>, reader: Reader, today: Date)
    requires i < |ms|
    ensures RecordIncoming(rows, messages, ids, ms[..i + 1], spam, reader, today) ==
      RecordNext(RecordIncoming(rows, messages, ids, ms[..i], spam, reader, today),
                 messages, ids, ms[i], spam, reader, today)
  {
    assert ms[..i + 1][..i] == ms[..i];
  }

  function SpamIds(proposals: seq<Proposal>): set<string> {
    set p | p in proposals && p.kind.Classify? && p.labelled == Some(Spam) :: p.emailId
  }

  // -- proposing ------------------------------------------------------------------------------

  datatype Item = Item(proposal: Proposal, messageId: nat)

  /** Low-risk actions waiting to be applied as one label. */
  datatype Group = Group(name: string, items: seq<Item>)

  /** What stays fixed while the proposals are worked through. */
  datatype Setting = Setting(
    inp: SyncInput, writer: Writer, emails: seq<Email>, ids: map<string, nat>,
    vetoes: map<Pair, PairStats>, examples: map<ActionType, seq<Example>>)

  /** What changes. */
  datatype Progress = Progress(
    store: Store, desk: Desk, groups: seq<Group>, proposed: nat, skipped: nat, downgraded: nat)

  function LabelTextFor(p: Proposal): string {
    match p.labelled
    case Some(verdict) => LabelName(verdict)
    case None => if p.kind.Defer? then "deferred" else TypeName(p.kind)
  }

  function AddToGroup(groups: seq<Group>, name: string, item: Item): seq<Group> {
    if groups == [] then [Group(name, [item])]
    else if groups[0].name == name then [groups[0].(items := groups[0].items + [item])] + groups[1..]
    else [groups[0]] + AddToGroup(groups[1..], name, item)
  }

  function LastMessage(ms: seq<FetchedMessage>, id: string): Option<FetchedMessage> {
    if ms == [] then None
    else if ms[|ms| - 1].providerId == id then Some(ms[|ms| - 1])
    else LastMessage(ms[..|ms| - 1], id)
  }

  function SignalRole(es: seq<Email>, id: string): SenderRole {
    if es == [] then Unknown
    else if es[|es| - 1].id == id then es[|es| - 1].senderRole
    else SignalRole(es[..|es| - 1], id)
  }

  function RoleName(role: SenderRole): string {
    match role
    case Client => "client"
    case Internal => "internal"
    case Vendor => "vendor"
    case Unknown => "unknown"
  }

  function VetoReason(pair: Pair, s: PairStats): string {
    "Downgraded from " + TypeName(pair.0) + ": you rejected " + Decimal(s.rejected) + " of the last "
    + Decimal(s.Total()) + " " + TypeName(pair.0) + " proposals for " + RoleName(pair.1) + " senders"
  }

  function Answer(store: Store, provider: Provider, w: Write): WriteResult { provider(store.writes, w) }

  /** A vetoed proposal is filed as deferred at once, saying why. */
  function Downgrade(store: Store, setting: Setting, p: Proposal, messageId: nat): Store {
    var pair := (p.kind, SignalRole(setting.emails, p.emailId));
    var w := AddLabel([p.emailId], "deferred");
    var result := Answer(store, setting.inp.provider, w);
    var row := AutoAction(messageId, Defer, None, None, "deferred", result, setting.inp.now);
    var reason := if pair in setting.vetoes then [VetoReason(pair, setting.vetoes[pair])] else [];
    store.(writes := store.writes + [w],
           actions := store.actions + [row.(prose := NO_PROSE.(rationale := reason))])
  }

  /** A proposal held for a human, with the text written for it. */
  function HeldAction(messageId: nat, p: Proposal, content: Option<string>, prose: Prose): ActionRow {
    NewAction(messageId, p.kind, content, p.escalateTo,
              if p.labelled.Some? then Some(LabelName(p.labelled.value)) else None, Proposed, true)
    .(prose := prose)
  }

  predicate IsVetoed(setting: Setting, p: Proposal) {
    (p.kind, SignalRole(setting.emails, p.emailId)) in setting.vetoes
  }

  function ExamplesFor(setting: Setting, kind: ActionType): seq<Example> {
    if setting.writer.live && kind in setting.examples then setting.examples[kind] else []
  }

  function Hold(g: Progress, setting: Setting, p: Proposal, messageId: nat): Progress {
    var (content, prose, desk) := WriteHeld(
      g.desk, setting.writer.model, setting.inp.guards, setting.inp.authored, p,
      LastMessage(setting.inp.fetched, p.emailId), ExamplesFor(setting, p.kind));
    g.(desk := desk, proposed := g.proposed + 1,
       store := g.store.(actions := g.store.actions + [HeldAction(messageId, p, content, prose)]))
  }

  function Skip(g: Progress): Progress { g.(skipped := g.skipped + 1) }

  /** One turn of the proposal loop. */
  function Propose(g: Progress, setting: Setting, p: Proposal): Progress {
    if p.emailId !in setting.ids then g
    else
      var messageId := setting.ids[p.emailId];
      if Active(g.store.actions, messageId, p.kind) then Skip(g)
      else if !p.requiresApproval then
        g.(groups := AddToGroup(g.groups, LabelTextFor(p), Item(p, messageId)))
      else if !IsVetoed(setting, p) then Hold(g, setting, p, messageId)
      else if Active(g.store.actions, messageId, Defer) then Skip(g)
      else g.(store := Downgrade(g.store, setting, p, messageId), downgraded := g.downgraded + 1)
  }

  function ProposeAll(g: Progress, setting: Setting, ps: seq<Proposal>): Progress {
    if ps == [] then g else Propose(ProposeAll(g, setting, ps[..|ps| - 1]), setting, ps[|ps| - 1])
  }

  lemma ProposeAllStep(g: Progress, setting: Setting, ps: seq<Proposal>, i: nat)
    requires i < |ps|
    ensures ProposeAll(g, setting, ps[..i + 1]) == Propose(ProposeAll(g, setting, ps[..i]), setting, ps[i])
  {
    assert ps[..i + 1][..i] == ps[..i];
  }

  // -- applying labels --------------------------------------------------------------------------

  function ItemIds(items: seq<Item>): seq<string> {
    if items == [] then [] else [items[0].proposal.emailId] + ItemIds(items[1..])
  }

  /** One label write per item: the answers, and the write history afterwards. */
  function LabelEach(writes: seq<Write>, provider: Provider, items: seq<Item>, name: string)
    : (r: (seq<WriteResult>, seq<Write>))
    ensures |r.0| == |items|
  {
    if items == [] then ([], writes)
    else
      var n := |items| - 1;
      var (results, before) := LabelEach(writes, provider, items[..n], name);
      var w := AddLabel([items[n].proposal.emailId], name);
      (results + [provider(before, w)], before + [w])
  }

  /** One call for the whole group when the provider can batch and there is more than one item. */
  function LabelGroup(writes: seq<Write>, inp: SyncInput, g: Group): (r: (seq<WriteResult>, seq<Write>))
    ensures |r.0| == |g.items|
  {
    if inp.batches && |g.items| > 1 then
      var w := AddLabel(ItemIds(g.items), g.name);
      var result := inp.provider(writes, w);
      (seq(|g.items|, _ => result), writes + [w])
    else LabelEach(writes, inp.provider, g.items, g.name)
  }

  function AutoActionFor(item: Item, name: string, result: WriteResult, now: int): ActionRow {
    AutoAction(item.messageId, item.proposal.kind, item.proposal.content, item.proposal.escalateTo, name, result, now)
  }

  function CreateAuto(
      rows: seq<ActionRow>, items: seq<Item>, results: seq<WriteResult>, name: string, now: int): seq<ActionRow>
    requires |items| == |results|
  {
    if items == [] then rows
    else
      var n := |items| - 1;
      CreateAuto(rows, items[..n], results[..n], name, now) + [AutoActionFor(items[n], name, results[n], now)]
  }

  function ApplyGroup(store: Store, inp: SyncInput, g: Group): Store {
    var (results, writes) := LabelGroup(store.writes, inp, g);
    store.(writes := writes, actions := CreateAuto(store.actions, g.items, results, g.name, inp.now))
  }

  function ApplyGroups(store: Store, inp: SyncInput, groups: seq<Group>): Store {
    if groups == [] then store
    else ApplyGroup(ApplyGroups(store, inp, groups[..|groups| - 1]), inp, groups[|groups| - 1])
  }

  function ItemCount(groups: seq<Group>): nat {
    if groups == [] then 0 else ItemCount(groups[..|groups| - 1]) + |groups[|groups| - 1].items|
  }

  // -- the whole sync ------------------------------------------------------------------------------

  function OpenDesk(writer: Writer, shelf: Shelf): Desk
    requires ValidInstant(writer.clock)
  {
    Desk(writer.live,
         if writer.live then Opened(writer.orgId, writer.limit, shelf.ledger, writer.ledgerReadable, writer.clock)
         else Meter(writer.orgId, writer.limit, 0.0, [], shelf.ledger),
         shelf.cache, shelf.calls)
  }

  function CloseDesk(desk: Desk): Shelf { Shelf(desk.cache, desk.meter.ledger, desk.calls) }

  function ExamplesFrom(actions: seq<ActionRow>, messages: seq<MessageRow>): map<ActionType, seq<Example>> {
    var ds := ListDecided(actions, messages);
    map[Reply := FewShotExamples(ds, Reply), Escalate := FewShotExamples(ds, Escalate)]
  }

  function ExamplesNow(store: Store): map<ActionType, seq<Example>> {
    ExamplesFrom(store.actions, store.messages)
  }

  /** The tables with the fetched messages in them. */
  function Received(store: Store, inp: SyncInput, es: seq<Email>): (Store, map<string, nat>)
    requires |es| == |inp.fetched|
  {
    var (messages, ids) := Persist(store.messages, inp.connection, inp.fetched, es);
    (store.(messages := messages), ids)
  }

  function Emails(inp: SyncInput, account: string): (es: seq<Email>)
    ensures |es| == |inp.fetched|
  {
    EnrichAll(inp.fetched, account, inp.terms)
  }

  function ProposalsOf(inp: SyncInput, account: string): seq<Proposal> {
    InboxProposals(ToObservation(inp.fetched, account, inp.terms), inp.terms)
  }

  /** The tables with the messages and their promises in them, each id's row, and how many promises were new. */
  function ReadInbox(store: Store, inp: SyncInput, es: seq<Email>, spam: set<string>): (Store, map<string, nat>, nat)
    requires |es| == |inp.fetched|
  {
    var (received, ids) := Received(store, inp, es);
    var (followUps, found) :=
      RecordIncoming(store.followUps, received.messages, ids, inp.fetched, spam, inp.reader, inp.today);
    (received.(followUps := followUps), ids, found)
  }

  /** Tables and desk at the start of the proposal loop, its setting, and the follow-ups found. */
  function Prepare(
      store: Store, account: string, inp: SyncInput, writer: Writer, shelf: Shelf): (Progress, Setting, nat)
    requires ValidInstant(writer.clock)
  {
    var es := Emails(inp, account);
    var (read, ids, found) := ReadInbox(store, inp, es, SpamIds(ProposalsOf(inp, account)));
    var vetoes := Suppressed(ListDecided(store.actions, store.messages));
    (Progress(read, OpenDesk(writer, shelf), [], 0, 0, 0),
     Setting(inp, writer, es, ids, vetoes, ExamplesNow(read)), found)
  }

  datatype Synced = Synced(store: Store, shelf: Shelf, report: Report)

  function SyncOnce(store: Store, account: string, inp: SyncInput, writer: Writer, shelf: Shelf): Synced
    requires ValidInstant(writer.clock)
  {
    var (start, setting, found) := Prepare(store, account, inp, writer, shelf);
    var worked := ProposeAll(start, setting, ProposalsOf(inp, account));
    Synced(ApplyGroups(worked.store, inp, worked.groups), CloseDesk(worked.desk),
           Report(|inp.fetched|, worked.proposed, ItemCount(worked.groups), worked.skipped, worked.downgraded, found))
  }

  lemma SyncOnceIs(
      store: Store, account: string, inp: SyncInput, writer: Writer, shelf: Shelf, start: Progress, setting: Setting,
      found: nat, worked: Progress)
    requires ValidInstant(writer.clock)
    requires Prepare(store, account, inp, writer, shelf) == (start, setting, found)
    requires worked == ProposeAll(start, setting, ProposalsOf(inp, account))
    ensures SyncOnce(store, account, inp, writer, shelf) ==
      Synced(ApplyGroups(worked.store, inp, worked.groups), CloseDesk(worked.desk),
             Report(|inp.fetched|, worked.proposed, ItemCount(worked.groups), worked.skipped, worked.downgraded, found))
  {
  }

  function SyncSpec(store: Store, inp: SyncInput, writer: Writer, shelf: Shelf): Result<Synced, ProcessingError>
    requires ValidInstant(writer.clock)
  {
    if !inp.planActive then Err(PlanLapsed)
    else if inp.connection !in store.connections then Err(NotFound)
    else Ok(SyncOnce(store, store.connections[inp.connection], inp, writer, shelf))
  }
}
