// What a sync leaves on the shelf: drafts paid for once are there for the next sync.
module Shelves {
  import opened Prelude
  import opened Mail
  import opened Pipeline
  import Rubric
  import opened IsoTime
  import opened Learning
  import opened Drafting
  import opened Tables
  import opened Sync
  import opened Uniqueness
  import opened Resync
  import opened Filings

  type Cache = map<DraftKey, CachedDraft>

  /** No draft with words in it is lost or rewritten. */
  predicate CacheKept(before: Cache, after: Cache) {
    forall key :: key in before && before[key].body != "" ==> key in after && after[key] == before[key]
  }

  lemma CacheKeptTransitive(a: Cache, b: Cache, c: Cache)
    requires CacheKept(a, b) && CacheKept(b, c)
    ensures CacheKept(a, c)
  {
  }

  /** The text was written by the model for one of these messages, and is on the shelf under it. */
  ghost predicate Shelved(cache: Cache, fetched: seq<FetchedMessage>, kind: ActionType, body: string) {
    exists key, m :: && key in cache && cache[key].body == body && key.kind == kind
                     && m in fetched && key.providerId == m.providerId && key.subject == m.subject && key.body == m.body
  }

  lemma ShelvedStays(before: Cache, after: Cache, fetched: seq<FetchedMessage>, kind: ActionType, body: string)
    requires CacheKept(before, after) && Shelved(before, fetched, kind, body) && body != ""
    ensures Shelved(after, fetched, kind, body)
  {
  }

  lemma DraftingKeepsCache(
      desk: Desk, model: Model, authored: string -> Option<string>, p: Proposal, message: Option<FetchedMessage>,
      examples: seq<Example>)
    ensures
      var (drafted, after) := ResolveDraft(desk, model, authored, p, message, examples);
      && CacheKept(desk.cache, after.cache)
      && (drafted.source == "llm" ==>
            && message.Some? && drafted.body.Some?
            && KeyFor(message.value, p.kind, examples) in after.cache
            && after.cache[KeyFor(message.value, p.kind, examples)].body == drafted.body.value)
  {
  }

  lemma CheckingKeepsCache(desk: Desk, model: Model, guards: Rubric.Guards, body: string, m: FetchedMessage,
    kind: ActionType)
    ensures VerifyHeld(desk, model, guards, body, m, kind).1.cache == desk.cache
  {
    VerifyingCosts(desk, model, guards, body, m, kind);
  }

  lemma WritingIsDrafting(
      desk: Desk, model: Model, guards: Rubric.Guards, authored: string -> Option<string>, p: Proposal,
      message: Option<FetchedMessage>, examples: seq<Example>)
    ensures
      var (drafted, drafting) := ResolveDraft(desk, model, authored, p, message, examples);
      var (content, prose, after) := WriteHeld(desk, model, guards, authored, p, message, examples);
      content == drafted.body && prose.source == Some(drafted.source) && after.cache == drafting.cache
  {
    var (drafted, drafting) := ResolveDraft(desk, model, authored, p, message, examples);
    if Truthy(drafted.body) && message.Some? {
      CheckingKeepsCache(drafting, model, guards, drafted.body.value, message.value, p.kind);
    }
  }

  /** If a model wrote this held row's text, the shelf has it. */
  ghost predicate RowShelved(row: ActionRow, cache: Cache, fetched: seq<FetchedMessage>) {
    row.requiresApproval && row.prose.source == Some("llm") && Truthy(row.content) ==>
      Shelved(cache, fetched, row.kind, row.content.value)
  }

  ghost predicate HeldAreShelved(rows: seq<ActionRow>, n: nat, cache: Cache, fetched: seq<FetchedMessage>) {
    forall k :: n <= k < |rows| ==> RowShelved(rows[k], cache, fetched)
  }

  lemma OneMoreShelved(rows: seq<ActionRow>, row: ActionRow, n: nat, cache: Cache, fetched: seq<FetchedMessage>)
    requires HeldAreShelved(rows, n, cache, fetched) && RowShelved(row, cache, fetched)
    ensures HeldAreShelved(rows + [row], n, cache, fetched)
  {
  }

  lemma HeldStayShelved(rows: seq<ActionRow>, n: nat, before: Cache, after: Cache, fetched: seq<FetchedMessage>)
    requires HeldAreShelved(rows, n, before, fetched) && CacheKept(before, after)
    ensures HeldAreShelved(rows, n, after, fetched)
  {
    forall k | n <= k < |rows| ensures RowShelved(rows[k], after, fetched) {
      if Truthy(rows[k].content) && Shelved(before, fetched, rows[k].kind, rows[k].content.value) {
        ShelvedStays(before, after, fetched, rows[k].kind, rows[k].content.value);
      }
    }
  }

  lemma WrittenIsShelved(
      desk: Desk, model: Model, guards: Rubric.Guards, authored: string -> Option<string>, p: Proposal,
      message: Option<FetchedMessage>, examples: seq<Example>, messageId: nat, fetched: seq<FetchedMessage>)
    requires message.Some? ==> message.value in fetched
    ensures
      var (content, prose, after) := WriteHeld(desk, model, guards, authored, p, message, examples);
      CacheKept(desk.cache, after.cache) && RowShelved(HeldAction(messageId, p, content, prose), after.cache, fetched)
  {
    DraftingKeepsCache(desk, model, authored, p, message, examples);
    WritingIsDrafting(desk, model, guards, authored, p, message, examples);
    var (drafted, after) := ResolveDraft(desk, model, authored, p, message, examples);
    if drafted.source == "llm" {
      var key := KeyFor(message.value, p.kind, examples);
      assert key in after.cache && after.cache[key].body == drafted.body.value;
      assert Shelved(after.cache, fetched, p.kind, drafted.body.value);
    }
  }

  lemma HoldShelves(g: Progress, setting: Setting, p: Proposal, messageId: nat, n: nat)
    requires HeldAreShelved(g.store.actions, n, g.desk.cache, setting.inp.fetched)
    ensures
      var after := Hold(g, setting, p, messageId);
      && CacheKept(g.desk.cache, after.desk.cache)
      && HeldAreShelved(after.store.actions, n, after.desk.cache, setting.inp.fetched)
  {
    var message, fetched := LastMessage(setting.inp.fetched, p.emailId), setting.inp.fetched;
    var inp, examples := setting.inp, ExamplesFor(setting, p.kind);
    LastMessageIsOne(fetched, p.emailId);
    WrittenIsShelved(g.desk, setting.writer.model, inp.guards, inp.authored, p, message, examples, messageId, fetched);
    var (content, prose, desk) :=
      WriteHeld(g.desk, setting.writer.model, inp.guards, inp.authored, p, message, examples);
    HeldStayShelved(g.store.actions, n, g.desk.cache, desk.cache, fetched);
    OneMoreShelved(g.store.actions, HeldAction(messageId, p, content, prose), n, desk.cache, fetched);
  }

  lemma DowngradeShelves(store: Store, setting: Setting, p: Proposal, messageId: nat, n: nat, cache: Cache)
    requires HeldAreShelved(store.actions, n, cache, setting.inp.fetched)
    ensures HeldAreShelved(Downgrade(store, setting, p, messageId).actions, n, cache, setting.inp.fetched)
  {
    var after := Downgrade(store, setting, p, messageId).actions;
    OneMoreShelved(store.actions, after[|store.actions|], n, cache, setting.inp.fetched);
  }

  lemma ProposeShelves(g: Progress, setting: Setting, p: Proposal, n: nat)
    requires HeldAreShelved(g.store.actions, n, g.desk.cache, setting.inp.fetched)
    ensures
      var after := Propose(g, setting, p);
      && CacheKept(g.desk.cache, after.desk.cache)
      && HeldAreShelved(after.store.actions, n, after.desk.cache, setting.inp.fetched)
  {
    if p.emailId in setting.ids {
      HoldShelves(g, setting, p, setting.ids[p.emailId], n);
      DowngradeShelves(g.store, setting, p, setting.ids[p.emailId], n, g.desk.cache);
    }
  }

  lemma {:induction false} ProposeAllShelves(g: Progress, setting: Setting, ps: seq<Proposal>, n: nat)
    requires HeldAreShelved(g.store.actions, n, g.desk.cache, setting.inp.fetched)
    ensures
      var after := ProposeAll(g, setting, ps);
      && CacheKept(g.desk.cache, after.desk.cache)
      && HeldAreShelved(after.store.actions, n, after.desk.cache, setting.inp.fetched)
  {
    if ps != [] {
      var before := ProposeAll(g, setting, ps[..|ps| - 1]);
      ProposeAllShelves(g, setting, ps[..|ps| - 1], n);
      ProposeShelves(before, setting, ps[|ps| - 1], n);
      CacheKeptTransitive(g.desk.cache, before.desk.cache, ProposeAll(g, setting, ps).desk.cache);
    }
  }

  lemma {:induction false} CreateAutoShelves(
      rows: seq<ActionRow>, items: seq<Item>, results: seq<WriteResult>, name: string, now: int, n: nat, cache: Cache,
      fetched: seq<FetchedMessage>)
    requires |items| == |results| && HeldAreShelved(rows, n, cache, fetched)
    ensures HeldAreShelved(CreateAuto(rows, items, results, name, now), n, cache, fetched)
  {
    if items != [] {
      var k := |items| - 1;
      CreateAutoShelves(rows, items[..k], results[..k], name, now, n, cache, fetched);
      OneMoreShelved(CreateAuto(rows, items[..k], results[..k], name, now),
        AutoActionFor(items[k], name, results[k], now),
        n, cache, fetched);
    }
  }

  lemma {:induction false} ApplyGroupsShelves(
      store: Store, inp: SyncInput, groups: seq<Group>, n: nat, cache: Cache, fetched: seq<FetchedMessage>)
    requires HeldAreShelved(store.actions, n, cache, fetched)
    ensures HeldAreShelved(ApplyGroups(store, inp, groups).actions, n, cache, fetched)
  {
    if groups != [] {
      var init, last := groups[..|groups| - 1], groups[|groups| - 1];
      ApplyGroupsShelves(store, inp, init, n, cache, fetched);
      var before := ApplyGroups(store, inp, init);
      CreateAutoShelves(before.actions, last.items, LabelGroup(before.writes, inp, last).0, last.name, inp.now, n,
        cache,
        fetched);
    }
  }

  /**
   * What was paid for is kept: a sync loses no draft of the shelf, and puts on it the
   * text of every row it holds that a model wrote, under the message it answers.
   */
  lemma PaidDraftsAreKept(store: Store, account: string, inp: SyncInput, writer: Writer, shelf: Shelf)
    requires ValidInstant(writer.clock)
    ensures
      var done := SyncOnce(store, account, inp, writer, shelf);
      && CacheKept(shelf.cache, done.shelf.cache)
      && HeldAreShelved(done.store.actions, |store.actions|, done.shelf.cache, inp.fetched)
  {
    var (start, setting, found) := Prepare(store, account, inp, writer, shelf);
    var worked := ProposeAll(start, setting, ProposalsOf(inp, account));
    PreparedSetting(store, account, inp, writer, shelf);
    ProposeAllShelves(start, setting, ProposalsOf(inp, account), |store.actions|);
    ApplyGroupsShelves(worked.store, inp, worked.groups, |store.actions|, worked.desk.cache, inp.fetched);
    SyncOnceIs(store, account, inp, writer, shelf, start, setting, found, worked);
  }
}
