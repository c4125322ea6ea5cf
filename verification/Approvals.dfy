// What a person's decision does, told from what was decided: which write is made,
// what the row then records, and when the decision is refused.
module Approvals {
  import opened Prelude
  import opened Text
  import opened Drafting
  import opened Tables
  import opened Sync
  import opened Review

  /** The words a reply goes out with: the approver's if they changed any, else the draft's, else the stock sentence. */
  predicate ReplyWords(row: ActionRow, edited: Option<string>, body: string) {
    var typed, draft := Strip(edited.GetOr("")), row.content.GetOr("");
    if typed != "" && typed != Strip(draft) then body == typed
    else if draft != "" then body == draft
    else body == "Acknowledged. We will follow up shortly."
  }

  /** A handover says whom it is for, then the approver's words if they changed any, else the draft's. */
  predicate HandoverWords(row: ActionRow, edited: Option<string>, body: string) {
    var typed, draft := Strip(edited.GetOr("")), row.content.GetOr("");
    body == Strip("Escalating to " + Underscored(Strip(row.escalateTo.GetOr(""))) + ".\n\n"
                  + if typed != "" && typed != Strip(draft) then typed else draft)
  }

  /** The mailbox an escalation goes to: the one configured for its role. */
  predicate GoesTo(store: Store, row: ActionRow, to: string) {
    var role := Strip(row.escalateTo.GetOr(""));
    role != "" && role in store.contacts && store.contacts[role] == to && to != ""
  }

  /** The write this decision asks for. */
  ghost predicate AskedFor(store: Store, row: ActionRow, edited: Option<string>, w: Write)
    requires row.messageId < |store.messages|
  {
    var id := store.messages[row.messageId].providerId;
    match row.kind
    case Reply => w.SendReply? && w.id == id && ReplyWords(row, edited, w.body)
    case Escalate =>
      w.EscalationDraft? && w.id == id && GoesTo(store, row, w.to) && HandoverWords(row, edited, w.body)
    case _ => w.AddLabel? && w.ids == [id]
  }

  /** Decided by this person, now; its message and kind as they were. */
  predicate DecidedBy(was: ActionRow, now: ActionRow, userId: string, at: int) {
    && now.decidedBy == Some(userId) && now.decidedAt == Some(at)
    && now.messageId == was.messageId && now.kind == was.kind && now.escalateTo == was.escalateTo
    && now.requiresApproval == was.requiresApproval && now.retryCount == was.retryCount
  }

  /** What the row says once the provider has answered. */
  predicate Records(was: ActionRow, now: ActionRow, edited: Option<string>, answer: WriteResult, at: int) {
    if answer.ok then
      && now.status.Executed? && now.executedAt == Some(at) && now.executionRef == answer.ref
      && (was.kind.Reply? && Truthy(now.content) ==> ReplyWords(was, edited, now.content.value))
    else
      && now.status.Failed? && now.content == was.content
      && (answer.detail != "" ==> now.lastError == Some(answer.detail))
  }

  /** Nothing but row `id` changed. */
  predicate OnlyRow(before: seq<ActionRow>, after: seq<ActionRow>, id: nat) {
    |after| == |before| && forall i :: 0 <= i < |before| && i != id ==> after[i] == before[i]
  }

  /** Why a decision is refused. */
  predicate Refused(store: Store, id: nat, e: ProcessingError) {
    if id >= |store.actions| then e == NotFound
    else if !store.actions[id].status.Proposed? then e == AlreadyDecided(store.actions[id].status)
    else e == NotFound && store.actions[id].messageId >= |store.messages|
  }

  /** An approval that went through to the mailbox, or had no mailbox to go to. */
  ghost predicate CarriedOut(store: Store, a: Approval, after: Store) {
    && a.actionId < |store.actions| && store.actions[a.actionId].status.Proposed?
    && OnlyRow(store.actions, after.actions, a.actionId)
    && store.actions[a.actionId].messageId < |store.messages|
    && var was, now := store.actions[a.actionId], after.actions[a.actionId];
    && DecidedBy(was, now, a.userId, a.now)
    && if was.kind.Escalate? && !(exists to :: GoesTo(store, was, to)) then
         after.writes == store.writes && now.status.Failed? && now.content == was.content
       else
         && |after.writes| == |store.writes| + 1 && store.writes <= after.writes
         && var w := after.writes[|store.writes|];
            AskedFor(store, was, a.edited, w) && Records(was, now, a.edited, a.provider(store.writes, w), a.now)
  }

  /**
   * An approval makes the one write that was asked for, and records who decided and
   * how the mailbox answered; or it is refused, changing nothing, because the plan has
   * lapsed, the action or its message is gone, or somebody decided before.
   */
  lemma ApprovalDoesWhatWasAsked(store: Store, a: Approval)
    ensures match ApproveSpec(store, a)
      case Ok(after) => a.planActive && CarriedOut(store, a, after)
      case Err(e) => if a.planActive then Refused(store, a.actionId, e) else e == PlanLapsed
  {
    if ApproveSpec(store, a).Ok? {
      ApprovalIsCarriedOut(store, a);
    }
  }

  lemma RecipientIsConfigured(store: Store, row: ActionRow)
    ensures match Recipient(store, row)
      case Some(to) => GoesTo(store, row, to)
      case None => !exists to :: GoesTo(store, row, to)
  {
  }

  lemma WriteIsAskedFor(store: Store, row: ActionRow, edited: Option<string>)
    requires row.messageId < |store.messages|
    ensures match WriteFor(store, Amended(row, edited), store.messages[row.messageId].providerId)
      case Some(w) => AskedFor(store, row, edited, w)
      case None => row.kind.Escalate? && !exists to :: GoesTo(store, row, to)
    ensures row.kind.Escalate? && (exists to :: GoesTo(store, row, to)) ==>
      WriteFor(store, Amended(row, edited), store.messages[row.messageId].providerId).Some?
  {
    RecipientIsConfigured(store, Amended(row, edited));
    assert forall to :: GoesTo(store, row, to) <==> GoesTo(store, Amended(row, edited), to);
  }

  lemma ApprovedRowRecords(row: ActionRow, a: Approval, answer: WriteResult)
    ensures DecidedBy(row, ApprovedRow(row, a, answer), a.userId, a.now)
    ensures Records(row, ApprovedRow(row, a, answer), a.edited, answer, a.now)
  {
  }

  lemma ApprovalIsCarriedOut(store: Store, a: Approval)
    requires ApproveSpec(store, a).Ok?
    ensures CarriedOut(store, a, ApproveSpec(store, a).value)
  {
    var row := store.actions[a.actionId];
    var providerId := store.messages[row.messageId].providerId;
    WriteIsAskedFor(store, row, a.edited);
    var result := Execute(store, a.provider, Amended(row, a.edited), a.actionId, providerId).0;
    ApprovedRowRecords(row, a, result);
  }

  /** A rejection records who declined and when, and writes nothing; a lapsed plan does not stop it. */
  lemma RejectionOnlyDeclines(store: Store, userId: string, id: nat, at: int)
    ensures match RejectSpec(store, userId, id, at)
      case Ok(after) =>
        && id < |store.actions| && store.actions[id].status.Proposed?
        && OnlyRow(store.actions, after.actions, id) && after == store.(actions := after.actions)
        && DecidedBy(store.actions[id], after.actions[id], userId, at)
        && after.actions[id].status.Rejected? && after.actions[id].outcome == Some(Declined)
        && after.actions[id].content == store.actions[id].content
      case Err(e) => Refused(store, id, e) && (id < |store.actions| ==> !store.actions[id].status.Proposed?)
  {
  }
}
