// What a human's decision does to a held action, and how a failed dispatch is
// retried (app/saas/sync_service.py: _approve, reject, retry_failed_sends, _execute).
module Review {
  import opened Prelude
  import opened Text
  import opened Mail
  import opened Calendar
  import opened Commitments
  import opened FollowUps
  import opened Drafting
  import opened Tables
  import opened Sync

  // -- dispatching ----------------------------------------------------------------------------

  const GENERIC_REPLY := "Acknowledged. We will follow up shortly."
  const REJECTED_WRITE := "the provider rejected the write"

  function RoleOf(row: ActionRow): string { Strip(row.escalateTo.GetOr("")) }

  function Recipient(store: Store, row: ActionRow): Option<string> {
    var role := RoleOf(row);
    if role != "" && role in store.contacts && store.contacts[role] != "" then Some(store.contacts[role]) else None
  }

  /** The write an approved action stands for; none when its escalation role has no mailbox. */
  function WriteFor(store: Store, row: ActionRow, providerId: string): Option<Write> {
    match row.kind
    case Reply =>
      Some(SendReply(providerId, if Truthy(row.content) then row.content.value else GENERIC_REPLY))
    case Escalate =>
      (match Recipient(store, row)
       case None => None
       case Some(to) =>
         Some(EscalationDraft(providerId,
                Strip("Escalating to " + Underscored(RoleOf(row)) + ".\n\n" + row.content.GetOr("")), to)))
    case _ =>
      Some(AddLabel([providerId], if Truthy(row.labelText) then row.labelText.value else TypeName(row.kind)))
  }

  function NoMailbox(row: ActionRow): WriteResult {
    WriteResult(false, None, "no mailbox is configured for escalations to "
      + (if RoleOf(row) == "" then "that role" else Underscored(RoleOf(row)))
      + ". Add one in Settings, then retry this action")
  }

  /** `_execute`: the answer, and the tables with the dispatch on record. */
  function Execute(
      store: Store, provider: Provider, row: ActionRow, id: nat, providerId: string): (WriteResult, Store) {
    match WriteFor(store, row, providerId)
    case None => (NoMailbox(row), store.(dispatches := store.dispatches + [Dispatch(id, None, false)]))
    case Some(w) =>
      var result := provider(store.writes, w);
      (result,
       store.(writes := store.writes + [w], dispatches := store.dispatches + [Dispatch(id, Some(w), result.ok)]))
  }

  function ErrorText(r: WriteResult): Option<string> {
    Some(if r.detail != "" then r.detail else REJECTED_WRITE)
  }

  // -- approve ----------------------------------------------------------------------------------

  datatype Approval = Approval(
    planActive: bool, userId: string, actionId: nat, provider: Provider, edited: Option<string>,
    reader: Reader, now: int, today: Date)

  /** The text to send: the approver's amendment when it says something new. */
  function Amended(row: ActionRow, edited: Option<string>): ActionRow {
    if IsAmendment(row, edited) then row.(content := Some(Strip(edited.GetOr("")))) else row
  }

  predicate IsAmendment(row: ActionRow, edited: Option<string>) {
    var text := Strip(edited.GetOr(""));
    text != "" && text != Strip(row.content.GetOr(""))
  }

  function ApprovedRow(row: ActionRow, a: Approval, result: WriteResult): ActionRow {
    if result.ok then
      var edited := IsAmendment(row, a.edited);
      row.(status := Executed, outcome := Some(if edited then Edited else Approved),
           decidedBy := Some(a.userId), decidedAt := Some(a.now), executedAt := Some(a.now),
           executionRef := result.ref,
           content := Amended(row, a.edited).content,
           originalContent := if edited then row.content else row.originalContent)
    else
      row.(status := Failed, decidedBy := Some(a.userId), decidedAt := Some(a.now), lastError := ErrorText(result))
  }

  /** Promises in a reply that was just sent are now owed. */
  function RecordOwn(
      rows: seq<FollowUp>, sent: ActionRow, message: MessageRow, reader: Reader, today: Date): seq<FollowUp> {
    if !sent.kind.Reply? || !Truthy(sent.content) then rows
    else
      match ExtractSpec(reader, sent.content.value, Ours, false, today)
      case Err(_) => rows
      case Ok(found) => RecordAll(rows, found, sent.messageId, message.threadId, message.sender, message.subject).0
  }

  /** The action and message a decision needs, or why there is none. */
  function Decidable(store: Store, id: nat): Result<ActionRow, ProcessingError> {
    if id >= |store.actions| then Err(NotFound)
    else if !store.actions[id].status.Proposed? then Err(AlreadyDecided(store.actions[id].status))
    else Ok(store.actions[id])
  }

  function ApproveSpec(store: Store, a: Approval): Result<Store, ProcessingError> {
    if !a.planActive then Err(PlanLapsed)
    else
      match Decidable(store, a.actionId)
      case Err(e) => Err(e)
      case Ok(row) =>
        if row.messageId >= |store.messages| then Err(NotFound)
        else
          var message := store.messages[row.messageId];
          var sent := Amended(row, a.edited);
          var (result, after) := Execute(store, a.provider, sent, a.actionId, message.providerId);
          Ok(after.(actions := store.actions[a.actionId := ApprovedRow(row, a, result)],
                    followUps := if result.ok then RecordOwn(store.followUps, sent, message, a.reader, a.today)
                                 else store.followUps))
  }

  // -- reject -----------------------------------------------------------------------------------

  function RejectedRow(row: ActionRow, userId: string, now: int): ActionRow {
    row.(status := Rejected, outcome := Some(Declined), decidedBy := Some(userId), decidedAt := Some(now))
  }

  function RejectSpec(store: Store, userId: string, id: nat, now: int): Result<Store, ProcessingError> {
    match Decidable(store, id)
    case Err(e) => Err(e)
    case Ok(row) => Ok(store.(actions := store.actions[id := RejectedRow(row, userId, now)]))
  }

  // -- retry ------------------------------------------------------------------------------------

  /** `providers` is None for a mailbox that needs a human to reconnect it. */
  datatype Retry = Retry(providers: string -> Option<Provider>, maxRetries: int, now: int)

  datatype RetryReport = RetryReport(attempted: nat, recovered: nat, stillFailing: nat)

  function RetriedRow(row: ActionRow, result: WriteResult, now: int): ActionRow {
    if result.ok then
      row.(status := Executed, outcome := Some(row.outcome.GetOr(Approved)), executedAt := Some(now),
           executionRef := result.ref, retryCount := row.retryCount + 1, lastError := None)
    else
      row.(status := Failed, retryCount := row.retryCount + 1, lastError := ErrorText(result))
  }

  /** The mailbox a failed action would be retried through, if it can be. */
  function RetryRoute(store: Store, row: ActionRow, r: Retry): Option<Provider> {
    if row.messageId >= |store.messages| then None
    else
      var connection := store.messages[row.messageId].connection;
      if connection !in store.connections then None else r.providers(connection)
  }

  function RetryOne(store: Store, id: nat, r: Retry): (Store, RetryReport)
    requires id < |store.actions|
  {
    var row := store.actions[id];
    match RetryRoute(store, row, r)
    case None => (store, RetryReport(0, 0, 0))
    case Some(provider) =>
      var (result, after) := Execute(store, provider, row, id, store.messages[row.messageId].providerId);
      (after.(actions := store.actions[id := RetriedRow(row, result, r.now)]),
       if result.ok then RetryReport(1, 1, 0) else RetryReport(1, 0, 1))
  }

  /** Retrying changes the listed rows and the logs, nothing a later retry is routed by. */
  predicate SameRouting(a: Store, b: Store) {
    a.messages == b.messages && a.connections == b.connections && a.contacts == b.contacts
  }

  lemma RetryOneKeepsRouting(store: Store, id: nat, r: Retry)
    requires id < |store.actions|
    ensures var after := RetryOne(store, id, r).0;
      && SameRouting(after, store)
      && forall i :: 0 <= i < |store.actions| && i != id ==> after.actions[i] == store.actions[i]
  {
  }

  predicate InTable(ids: seq<nat>, size: nat) { forall k :: 0 <= k < |ids| ==> ids[k] < size }

  function AddReports(a: RetryReport, b: RetryReport): RetryReport {
    RetryReport(a.attempted + b.attempted, a.recovered + b.recovered, a.stillFailing + b.stillFailing)
  }

  /** One more retry after those already done. */
  function RetryNext(done: (Store, RetryReport), id: nat, r: Retry): (out: (Store, RetryReport))
    requires id < |done.0.actions|
    ensures |out.0.actions| == |done.0.actions|
  {
    var (after, report) := RetryOne(done.0, id, r);
    (after, AddReports(done.1, report))
  }

  function RetryAll(store: Store, ids: seq<nat>, r: Retry): (out: (Store, RetryReport))
    requires InTable(ids, |store.actions|)
    ensures |out.0.actions| == |store.actions|
  {
    if ids == [] then (store, RetryReport(0, 0, 0))
    else RetryNext(RetryAll(store, ids[..|ids| - 1], r), ids[|ids| - 1], r)
  }

  lemma {:induction false} RetryAllKeepsRouting(store: Store, ids: seq<nat>, r: Retry, i: nat)
    requires InTable(ids, |store.actions|) && i < |store.actions| && i !in ids
    ensures var after := RetryAll(store, ids, r).0;
      SameRouting(after, store) && after.actions[i] == store.actions[i]
  {
    if ids != [] {
      var init, last := ids[..|ids| - 1], ids[|ids| - 1];
      assert last in ids && (forall x :: x in init ==> x in ids);
      RetryAllKeepsRouting(store, init, r, i);
      RetryOneKeepsRouting(RetryAll(store, init, r).0, last, r);
    }
  }

  lemma RetryAllStep(store: Store, ids: seq<nat>, i: nat, r: Retry)
    requires i < |ids| && InTable(ids, |store.actions|)
    ensures RetryAll(store, ids[..i + 1], r) == RetryNext(RetryAll(store, ids[..i], r), ids[i], r)
  {
    assert ids[..i + 1][..i] == ids[..i];
  }

  lemma ListedAreInTable(rows: seq<ActionRow>, maxRetries: int)
    ensures InTable(ListFailedSends(rows, maxRetries), |rows|)
  {
    var ids := ListFailedSends(rows, maxRetries);
    forall k | 0 <= k < |ids| ensures ids[k] < |rows| {
      assert ids[k] in ids;
    }
  }

  function RetrySpec(store: Store, r: Retry): (Store, RetryReport) {
    ListedAreInTable(store.actions, r.maxRetries);
    RetryAll(store, ListFailedSends(store.actions, r.maxRetries), r)
  }
}
