// Where the words on a held action come from, and what they cost
// (app/saas/sync_service.py: resolve_draft; the metered half of the sync loop).
module Drafting {
  import opened Prelude
  import opened Mail
  import opened Pipeline
  import opened Rubric
  import opened Verifier
  import opened Budget
  import opened Learning
  import opened Tables

  datatype DraftResult = DraftResult(body: string, rationale: seq<string>, confidence: real, cost: real)

  datatype CachedDraft = CachedDraft(body: string, rationale: seq<string>, confidence: real)

  /** This exact message, for this exact action, with these examples. */
  datatype DraftKey = DraftKey(providerId: string, subject: string, body: string, kind: ActionType,
    examples: seq<Example>)

  /** Everything outside our control: the model's answer to its n-th call, and whether the n-th ledger write lands. */
  datatype Model = Model(
    drafts: nat -> Option<DraftResult>, checks: nat -> Option<ModelCheck>,
    ledgerAccepts: nat -> bool, stamp: nat -> string)

  /** `live` is whether the model may be called; only then is there a meter to consult. */
  datatype Desk = Desk(live: bool, meter: Meter, cache: map<DraftKey, CachedDraft>, calls: nat)

  datatype Drafted = Drafted(body: Option<string>, source: string, confidence: Option<real>, rationale: seq<string>)

  predicate Truthy(s: Option<string>) { s.Some? && s.value != "" }

  /** Provider-authored wording for a reply when there is some, else the policy's own sentence. */
  function DraftText(authored: string -> Option<string>, p: Proposal): Option<string> {
    if p.kind.Reply? && Truthy(authored(p.emailId)) then authored(p.emailId) else p.content
  }

  function Fallback(authored: string -> Option<string>, p: Proposal): Drafted {
    var text := DraftText(authored, p);
    Drafted(text, if Truthy(text) then "authored" else "generic", None, [])
  }

  function Bill(desk: Desk, model: Model, cost: real): Desk {
    var n := |desk.meter.recorded|;
    desk.(meter := Billed(desk.meter, cost, model.ledgerAccepts(n), model.stamp(n)))
  }

  predicate MayCall(desk: Desk) { desk.live && Allows(desk.meter) }

  function KeyFor(m: FetchedMessage, kind: ActionType, examples: seq<Example>): DraftKey {
    DraftKey(m.providerId, m.subject, m.body, kind, examples)
  }

  /** Cache, then model, then authored, then the policy's generic sentence. */
  function ResolveDraft(
    desk: Desk, model: Model, authored: string -> Option<string>, p: Proposal,
    message: Option<FetchedMessage>, examples: seq<Example>): (Drafted, Desk)
  {
    if message.None? || !(p.kind.Reply? || p.kind.Escalate?) then (Fallback(authored, p), desk)
    else
      var key := KeyFor(message.value, p.kind, examples);
      if key in desk.cache && desk.cache[key].body != "" then
        var c := desk.cache[key];
        (Drafted(Some(c.body), "llm", Some(c.confidence), c.rationale), desk)
      else if !MayCall(desk) then (Fallback(authored, p), desk)
      else
        var answer := model.drafts(desk.calls);
        var asked := desk.(calls := desk.calls + 1);
        if answer.None? then (Fallback(authored, p), asked)
        else
          var r := answer.value;
          (Drafted(Some(r.body), "llm", Some(r.confidence), r.rationale),
           Bill(asked, model, r.cost).(cache := asked.cache[key := CachedDraft(r.body, r.rationale, r.confidence)]))
  }

  function SourceOf(m: FetchedMessage): Source { Source(m.subject, m.body, m.senderName, m.sender) }

  /** The model's check of a draft, when it may be asked. */
  function AskForCheck(desk: Desk, model: Model): (Option<ModelCheck>, Desk) {
    if MayCall(desk) then (model.checks(desk.calls), desk.(calls := desk.calls + 1)) else (None, desk)
  }

  function BillCheck(desk: Desk, model: Model, cost: real): Desk {
    if desk.live && cost != 0.0 then Bill(desk, model, cost) else desk
  }

  /** The check of one draft, its own model call metered on the same allowance. */
  function VerifyHeld(desk: Desk, model: Model, guards: Guards, body: string, m: FetchedMessage, kind: ActionType)
    : (Verdict, Desk)
  {
    var (check, asked) := AskForCheck(desk, model);
    var verdict := VerifyDraft(body, SourceOf(m), kind, guards, check);
    (verdict, BillCheck(asked, model, verdict.cost))
  }

  /** The text of a held action, how it was made and checked, and the desk afterwards. */
  function WriteHeld(
    desk: Desk, model: Model, guards: Guards, authored: string -> Option<string>, p: Proposal,
    message: Option<FetchedMessage>, examples: seq<Example>): (Option<string>, Prose, Desk)
  {
    var (drafted, desk1) := ResolveDraft(desk, model, authored, p, message, examples);
    if Truthy(drafted.body) && message.Some? then
      var (v, desk2) := VerifyHeld(desk1, model, guards, drafted.body.value, message.value, p.kind);
      (drafted.body,
       Prose(Some(drafted.source), drafted.confidence, drafted.rationale,
             Some(if v.flagged then "flagged" else "verified"), v.notes, v.findings),
       desk2)
    else
      (drafted.body, Prose(Some(drafted.source), drafted.confidence, drafted.rationale, None, [], []), desk1)
  }

  // -- the spend of one held action ------------------------------------------------------------

  /** What a call may cost. */
  ghost predicate CostsWithin(model: Model, c: real) {
    && (forall n :: model.drafts(n).Some? ==> 0.0 <= model.drafts(n).value.cost <= c)
    && (forall n :: model.checks(n).Some? ==> 0.0 <= model.checks(n).value.cost <= c)
  }

  /** The meter is consistent with its start, and overshoots its limit by less than one call. */
  ghost predicate Bounded(start: Desk, desk: Desk, c: real) {
    && desk.live == start.live
    && MeteredFrom(start.meter, desk.meter)
    && desk.calls >= start.calls
    && (Enforced(start.meter) && start.meter.spent < start.meter.limit ==> desk.meter.spent < start.meter.limit + c)
    && (!MayCall(start) ==> desk.calls == start.calls && desk.meter == start.meter)
  }

  lemma BillKeepsBound(start: Desk, desk: Desk, model: Model, cost: real, c: real)
    requires Bounded(start, desk, c) && MayCall(desk) && 0.0 <= cost <= c && c > 0.0
    requires MayCall(start)
    ensures Bounded(start, Bill(desk.(calls := desk.calls + 1), model, cost), c)
    ensures Bounded(start, desk.(calls := desk.calls + 1), c)
  {
    var n := |desk.meter.recorded|;
    BillingIsMetered(start.meter, desk.meter, cost, model.ledgerAccepts(n), model.stamp(n));
  }

  lemma ClosedDeskStaysClosed(start: Desk, desk: Desk, c: real)
    requires Bounded(start, desk, c) && MayCall(desk)
    ensures MayCall(start)
  {
  }

  lemma DraftingKeepsBound(
    start: Desk, desk: Desk, model: Model, authored: string -> Option<string>, p: Proposal,
    message: Option<FetchedMessage>, examples: seq<Example>, c: real)
    requires Bounded(start, desk, c) && CostsWithin(model, c) && c > 0.0
    ensures Bounded(start, ResolveDraft(desk, model, authored, p, message, examples).1, c)
  {
    if MayCall(desk) {
      ClosedDeskStaysClosed(start, desk, c);
      var answer := model.drafts(desk.calls);
      BillKeepsBound(start, desk, model, if answer.Some? then answer.value.cost else 0.0, c);
    }
  }

  /** A verification costs what its model call cost. */
  lemma VerifyingCosts(desk: Desk, model: Model, guards: Guards, body: string, m: FetchedMessage, kind: ActionType)
    ensures
      var (check, asked) := AskForCheck(desk, model);
      VerifyHeld(desk, model, guards, body, m, kind).1 ==
        BillCheck(asked, model, if check.Some? then check.value.cost else 0.0)
  {
  }

  lemma VerifyingKeepsBound(
    start: Desk, desk: Desk, model: Model, guards: Guards, body: string, m: FetchedMessage, kind: ActionType, c: real)
    requires Bounded(start, desk, c) && CostsWithin(model, c) && c > 0.0
    ensures Bounded(start, VerifyHeld(desk, model, guards, body, m, kind).1, c)
  {
    VerifyingCosts(desk, model, guards, body, m, kind);
    if MayCall(desk) {
      ClosedDeskStaysClosed(start, desk, c);
      var check := model.checks(desk.calls);
      BillKeepsBound(start, desk, model, if check.Some? then check.value.cost else 0.0, c);
    }
  }

  /** Both paid calls of a held action, drafting and checking, stay inside the bound. */
  lemma WritingKeepsBound(
    start: Desk, desk: Desk, model: Model, guards: Guards, authored: string -> Option<string>, p: Proposal,
    message: Option<FetchedMessage>, examples: seq<Example>, c: real)
    requires Bounded(start, desk, c) && CostsWithin(model, c) && c > 0.0
    ensures Bounded(start, WriteHeld(desk, model, guards, authored, p, message, examples).2, c)
  {
    DraftingKeepsBound(start, desk, model, authored, p, message, examples, c);
    var (drafted, desk1) := ResolveDraft(desk, model, authored, p, message, examples);
    if Truthy(drafted.body) && message.Some? {
      VerifyingKeepsBound(start, desk1, model, guards, drafted.body.value, message.value, p.kind, c);
    }
  }

  // -- where the words come from ---------------------------------------------------------------

  /** A kind of action a model may write for. */
  predicate Written(p: Proposal) { p.kind.Reply? || p.kind.Escalate? }

  /** A kept draft of this very message, for this kind of action and these examples. */
  predicate Cached(desk: Desk, m: FetchedMessage, kind: ActionType, examples: seq<Example>, body: string) {
    && body != ""
    && exists key :: && key in desk.cache && desk.cache[key].body == body
                     && key == DraftKey(m.providerId, m.subject, m.body, kind, examples)
  }

  /**
   * A kept draft is used again as it is, and costs nothing. Without one, a model that
   * may be called and answers writes it, and it is kept. Without either, a reply takes
   * the provider's wording, and anything else the policy's own sentence.
   */
  lemma DraftWords(
      desk: Desk, model: Model, authored: string -> Option<string>, p: Proposal, m: FetchedMessage,
      examples: seq<Example>, body: string)
    requires Written(p)
    ensures
      var (drafted, after) := ResolveDraft(desk, model, authored, p, Some(m), examples);
      && (Cached(desk, m, p.kind, examples, body) ==> drafted.body == Some(body) && after == desk)
      && ((forall kept :: !Cached(desk, m, p.kind, examples, kept)) && after.calls > desk.calls ==>
            && MayCall(desk) && after.calls == desk.calls + 1
            && (model.drafts(desk.calls).Some? ==> drafted.body == Some(model.drafts(desk.calls).value.body)))
      && (drafted.source != "llm" ==>
            if p.kind.Reply? && authored(p.emailId).Some? && authored(p.emailId).value != ""
            then drafted.body == authored(p.emailId) else drafted.body == p.content)
      && (drafted.source == "llm" && drafted.body != Some("") ==>
            Cached(after, m, p.kind, examples, drafted.body.GetOr("")))
  {
    var key := DraftKey(m.providerId, m.subject, m.body, p.kind, examples);
    if key in desk.cache && desk.cache[key].body != "" {
      assert Cached(desk, m, p.kind, examples, desk.cache[key].body);
    }
    var (drafted, after) := ResolveDraft(desk, model, authored, p, Some(m), examples);
    if key in after.cache && drafted.source == "llm" {
      assert after.cache[key].body == drafted.body.value;
    }
  }

  /** While nothing is kept and the model may be called, it is asked, once. */
  lemma AskedWhenNothingIsKept(
      desk: Desk, model: Model, authored: string -> Option<string>, p: Proposal, m: FetchedMessage,
      examples: seq<Example>)
    requires Written(p) && MayCall(desk) && forall kept :: !Cached(desk, m, p.kind, examples, kept)
    ensures ResolveDraft(desk, model, authored, p, Some(m), examples).1.calls == desk.calls + 1
  {
    var key := DraftKey(m.providerId, m.subject, m.body, p.kind, examples);
    if key in desk.cache && desk.cache[key].body != "" {
      assert Cached(desk, m, p.kind, examples, desk.cache[key].body);
    }
  }

  /** The same draft twice is paid for once: the second time gives the first one's words without a call. */
  lemma SameDraftIsPaidOnce(
      desk: Desk, model: Model, authored: string -> Option<string>, p: Proposal, m: FetchedMessage,
      examples: seq<Example>)
    requires Written(p)
    ensures
      var (first, after) := ResolveDraft(desk, model, authored, p, Some(m), examples);
      var (second, later) := ResolveDraft(after, model, authored, p, Some(m), examples);
      first.source == "llm" && first.body != Some("") ==> second == first && later == after
  {
  }
}
