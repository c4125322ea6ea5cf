// What a row says about itself: its outcome against its status, and the check of
// its draft against the claims shown with it. Every step keeps it.
module Rulings {
  import opened Prelude
  import opened Text
  import opened Mail
  import opened Pipeline
  import opened Rubric
  import opened Verifier
  import opened Learning
  import opened Drafting
  import opened Tables
  import opened Sync
  import opened Review

  /** The draft that was checked: what stood on the row before an edit replaced it. */
  function DraftOf(row: ActionRow): Option<string> {
    if row.outcome == Some(Edited) then row.originalContent else row.content
  }

  /**
   * The outcome a row records: none while undecided or failed, a rejection exactly
   * when rejected, an approval or an edit once executed, and an edit only when the
   * words changed; a row filed without asking records that it was.
   */
  predicate Ruled(row: ActionRow) {
    && (row.status.Executed? <==> row.executedAt.Some?)
    && (row.originalContent.Some? ==> row.outcome == Some(Edited))
    && match row.status
       case Proposed => row.requiresApproval && row.outcome.None? && row.lastError.None? && row.decidedAt.None?
       case Rejected => row.requiresApproval && row.outcome == Some(Declined) && row.decidedAt.Some?
       case Failed => row.outcome.None? && (row.requiresApproval ==> Truthy(row.lastError) && row.decidedAt.Some?)
       case Executed =>
         if row.requiresApproval then
           && row.lastError.None? && row.decidedAt.Some?
           && (row.outcome == Some(Approved) || row.outcome == Some(Edited))
           && (row.outcome == Some(Edited) ==>
                 Truthy(row.content) && row.content.value != Strip(row.originalContent.GetOr("")))
         else row.outcome == Some(Auto)
  }

  /** "flagged" means there are claims to look at, "verified" that a draft was checked and there are none. */
  predicate Checked(row: ActionRow) {
    && (row.prose.verification == Some("flagged") <==> row.prose.claims != [])
    && (row.prose.verification == Some("verified") <==>
          row.requiresApproval && Truthy(DraftOf(row)) && row.prose.claims == [])
    && (row.prose.verification.None? <==> !(row.requiresApproval && Truthy(DraftOf(row))))
  }

  predicate RowSound(row: ActionRow) { Ruled(row) && Checked(row) }

  predicate RowsSound(rows: seq<ActionRow>) { forall i :: 0 <= i < |rows| ==> RowSound(rows[i]) }

  // -- decisions and retries ------------------------------------------------------------------------

  lemma ApprovalKeepsSound(row: ActionRow, a: Approval, result: WriteResult)
    requires RowSound(row) && row.status.Proposed?
    ensures RowSound(ApprovedRow(row, a, result))
  {
    StripIsBare(a.edited.GetOr(""));
  }

  lemma RejectionKeepsSound(row: ActionRow, userId: string, now: int)
    requires RowSound(row) && row.status.Proposed?
    ensures RowSound(RejectedRow(row, userId, now))
  {
  }

  lemma RetryKeepsSound(row: ActionRow, result: WriteResult, now: int)
    requires RowSound(row) && row.status.Failed? && row.requiresApproval
    ensures RowSound(RetriedRow(row, result, now))
  {
  }

  lemma ApproveKeepsRows(store: Store, a: Approval)
    requires RowsSound(store.actions)
    ensures ApproveSpec(store, a).Ok? ==> RowsSound(ApproveSpec(store, a).value.actions)
  {
    if ApproveSpec(store, a).Ok? {
      var row := store.actions[a.actionId];
      var pid := store.messages[row.messageId].providerId;
      ApprovalKeepsSound(row, a, Execute(store, a.provider, Amended(row, a.edited), a.actionId, pid).0);
    }
  }

  lemma RejectKeepsRows(store: Store, userId: string, id: nat, now: int)
    requires RowsSound(store.actions)
    ensures RejectSpec(store, userId, id, now).Ok? ==> RowsSound(RejectSpec(store, userId, id, now).value.actions)
  {
    if RejectSpec(store, userId, id, now).Ok? {
      RejectionKeepsSound(store.actions[id], userId, now);
    }
  }

  lemma RetryOneKeepsRows(store: Store, id: nat, r: Retry)
    requires RowsSound(store.actions) && id < |store.actions|
    requires store.actions[id].status.Failed? && store.actions[id].requiresApproval
    ensures RowsSound(RetryOne(store, id, r).0.actions)
  {
    var row, route := store.actions[id], RetryRoute(store, store.actions[id], r);
    if route.Some? {
      var pid := store.messages[row.messageId].providerId;
      RetryKeepsSound(row, Execute(store, route.value, row, id, pid).0, r.now);
    }
  }

  lemma {:induction false} RetryAllKeepsRows(store: Store, ids: seq<nat>, r: Retry)
    requires RowsSound(store.actions) && InTable(ids, |store.actions|) && NoDuplicates(ids)
    requires forall k :: 0 <= k < |ids| ==>
      store.actions[ids[k]].status.Failed? && store.actions[ids[k]].requiresApproval
    ensures RowsSound(RetryAll(store, ids, r).0.actions)
  {
    if ids != [] {
      var init, last := ids[..|ids| - 1], ids[|ids| - 1];
      RetryAllKeepsRows(store, init, r);
      assert last !in init;
      RetryAllKeepsRouting(store, init, r, last);
      RetryOneKeepsRows(RetryAll(store, init, r).0, last, r);
    }
  }

  lemma RetryPassKeepsRows(store: Store, r: Retry)
    requires RowsSound(store.actions)
    ensures RowsSound(RetrySpec(store, r).0.actions)
  {
    var ids := ListFailedSends(store.actions, r.maxRetries);
    ListedAreInTable(store.actions, r.maxRetries);
    forall k | 0 <= k < |ids| ensures store.actions[ids[k]].status.Failed? && store.actions[ids[k]].requiresApproval {
      assert ids[k] in ids;
    }
    RetryAllKeepsRows(store, ids, r);
  }

  // -- the check of a fresh draft --------------------------------------------------------------------

  lemma {:induction false} FindingIsKept(draft: string, cs: seq<Check>, sourceText: string, k: nat, f: Finding)
    requires k < |cs| && f in FindingsOf(draft, cs[k], sourceText)
    ensures f in AllFindings(draft, cs, sourceText)
  {
    if k < |cs| - 1 {
      FindingIsKept(draft, cs[..|cs| - 1], sourceText, k, f);
    }
  }

  lemma {:induction false} FigureHasFinding(draft: string, numbers: seq<string>, sourceText: string, n: string)
    requires n in numbers
    ensures InventedFinding(draft, n, sourceText) in InventedFindings(draft, numbers, sourceText)
  {
    if n != numbers[0] {
      FigureHasFinding(draft, numbers[1..], sourceText, n);
    }
  }

  /** A finding that names this figure and shows the sentence it stands in. */
  predicate AboutFigure(f: Finding, n: string) {
    f.kind == "invented_number" && f.detail == "The source never states " + n + "." && Contains(f.claim, n)
  }

  lemma CheckFindingIsShown(
      draft: string, s: Source, kind: ActionType, g: Guards, check: Option<ModelCheck>, k: nat, f: Finding)
    requires k < |Evaluate(draft, s, kind, g)|
    requires f in FindingsOf(draft, Evaluate(draft, s, kind, g)[k], s.subject + "\n" + s.body)
    ensures f in VerifyDraft(draft, s, kind, g, check).findings
  {
    FindingIsKept(draft, Evaluate(draft, s, kind, g), s.subject + "\n" + s.body, k, f);
  }

  /** The verdict on a draft holds a finding for each figure its source never states. */
  lemma InventedFigureIsFound(draft: string, s: Source, kind: ActionType, g: Guards, check: Option<ModelCheck>,
    n: string)
    requires n in Numbers(draft) && n !in Numbers(SourceText(s))
    ensures exists f :: f in VerifyDraft(draft, s, kind, g, check).findings && AboutFigure(f, n)
  {
    var sourceText := s.subject + "\n" + s.body;
    var f := InventedFinding(draft, n, sourceText);
    ExceptMembers(Numbers(draft), Numbers(SourceText(s)), n);
    FiguresGetOneFindingEach(draft, s, sourceText);
    FigureHasFinding(draft, Invented(draft, SourceText(s)), sourceText, n);
    NumbersAreCheckedSecond(draft, s, kind, g);
    CheckFindingIsShown(draft, s, kind, g, check, 1, f);
    InventedClaimIsDraftSentence(draft, SourceText(s), n);
    assert AboutFigure(f, n);
  }

  lemma NumbersAreCheckedSecond(draft: string, s: Source, kind: ActionType, g: Guards)
    ensures |Evaluate(draft, s, kind, g)| > 1 && Evaluate(draft, s, kind, g)[1] == NumbersCheck(draft, SourceText(s))
  {
  }

  /** How a freshly written draft was checked against its message. */
  ghost predicate FreshlyChecked(content: Option<string>, prose: Prose, m: FetchedMessage) {
    && prose.verification ==
       (if !Truthy(content) then None else if prose.claims != [] then Some("flagged") else Some("verified"))
    && (!Truthy(content) ==> prose.claims == [])
    && (Truthy(content) ==>
          forall n :: n in Numbers(content.value) && n !in Numbers(SourceText(SourceOf(m))) ==>
            exists f :: f in prose.claims && AboutFigure(f, n))
  }

  lemma WrittenIsChecked(
      desk: Desk, model: Model, guards: Guards, authored: string -> Option<string>, p: Proposal, m: FetchedMessage,
      examples: seq<Example>)
    ensures
      var (content, prose, _) := WriteHeld(desk, model, guards, authored, p, Some(m), examples);
      FreshlyChecked(content, prose, m)
  {
    var (drafted, desk1) := ResolveDraft(desk, model, authored, p, Some(m), examples);
    if Truthy(drafted.body) {
      var check := AskForCheck(desk1, model).0;
      var body := drafted.body.value;
      FlaggedIffFindings(body, SourceOf(m), p.kind, guards, check);
      forall n | n in Numbers(body) && n !in Numbers(SourceText(SourceOf(m)))
        ensures exists f :: f in VerifyDraft(body, SourceOf(m), p.kind, guards, check).findings && AboutFigure(f, n)
      {
        InventedFigureIsFound(body, SourceOf(m), p.kind, guards, check, n);
      }
    }
  }

  lemma HeldIsSound(messageId: nat, p: Proposal, content: Option<string>, prose: Prose, m: FetchedMessage)
    requires FreshlyChecked(content, prose, m)
    ensures RowSound(HeldAction(messageId, p, content, prose))
  {
  }

  lemma AutoIsSound(
      messageId: nat, kind: ActionType, content: Option<string>, escalateTo: Option<string>, labelText: string,
      result: WriteResult, now: int, rationale: seq<string>)
    ensures RowSound(AutoAction(messageId, kind, content, escalateTo, labelText, result, now))
    ensures
      var row := AutoAction(messageId, kind, content, escalateTo, labelText, result, now);
      RowSound(row.(prose := NO_PROSE.(rationale := rationale)))
  {
  }
}
