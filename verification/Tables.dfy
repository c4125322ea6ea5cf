// The rows behind the approval queue and the repository operations on them
// (app/saas/models_db.py, app/saas/repository.py). A row's id is its position;
// the tables of one organization are modelled, each call one atomic step.
module Tables {
  import opened Prelude
  import opened Mail
  import opened Sorting
  import opened FollowUps
  import opened Verifier

  datatype Status = Proposed | Rejected | Executed | Failed
  datatype Outcome = Approved | Edited | Declined | Auto

  /** The words on an action and how they were checked; never the decision itself. */
  datatype Prose = Prose(
    source: Option<string>, confidence: Option<real>, rationale: seq<string>,
    verification: Option<string>, notes: seq<string>, claims: seq<Finding>)

  const NO_PROSE := Prose(None, None, [], None, [], [])

  datatype MessageRow = MessageRow(
    connection: string, providerId: string, threadId: Option<string>,
    sender: string, subject: string, senderRole: SenderRole)

  datatype ActionRow = ActionRow(
    messageId: nat, kind: ActionType, content: Option<string>, escalateTo: Option<string>,
    labelText: Option<string>, status: Status, requiresApproval: bool,
    decidedBy: Option<string>, decidedAt: Option<int>, executedAt: Option<int>,
    executionRef: Option<string>, outcome: Option<Outcome>, originalContent: Option<string>,
    prose: Prose, retryCount: nat, lastError: Option<string>)

  /** A write against the real mailbox, and what came back. */
  datatype Write =
    | AddLabel(ids: seq<string>, name: string)
    | SendReply(id: string, body: string)
    | EscalationDraft(id: string, body: string, to: string)

  datatype WriteResult = WriteResult(ok: bool, ref: Option<string>, detail: string)

  /** One `_execute` call: whose action, what reached the provider, and whether it worked. */
  datatype Dispatch = Dispatch(action: nat, write: Option<Write>, ok: bool)

  datatype Store = Store(
    messages: seq<MessageRow>, actions: seq<ActionRow>, followUps: seq<FollowUp>,
    connections: map<string, string>, contacts: map<string, string>,
    writes: seq<Write>, dispatches: seq<Dispatch>)

  /** A mailbox provider, free to answer each write as its whole history suggests. */
  type Provider = (seq<Write>, Write) -> WriteResult

  // -- messages ---------------------------------------------------------------------------

  function FindMessage(rows: seq<MessageRow>, connection: string, providerId: string): (r: Option<nat>)
    ensures r.Some? ==>
      r.value < |rows| && rows[r.value].connection == connection && rows[r.value].providerId == providerId
  {
    if rows == [] then None
    else
      var last := |rows| - 1;
      var earlier := FindMessage(rows[..last], connection, providerId);
      if earlier.Some? then earlier
      else if rows[last].connection == connection && rows[last].providerId == providerId then Some(last)
      else None
  }

  /** Refresh the row of a message already seen, or add one; and say which row it is. */
  function UpsertMessage(rows: seq<MessageRow>, m: MessageRow): (r: (seq<MessageRow>, nat))
    ensures r.1 < |r.0| && r.0[r.1] == m && |rows| <= |r.0|
    ensures forall i :: 0 <= i < |rows| ==>
      r.0[i].connection == rows[i].connection && r.0[i].providerId == rows[i].providerId
  {
    match FindMessage(rows, m.connection, m.providerId)
    case Some(i) => (rows[i := m], i)
    case None => (rows + [m], |rows|)
  }

  /** No earlier row has this key. */
  predicate FirstFor(rows: seq<MessageRow>, i: nat) {
    && i < |rows|
    && forall j :: 0 <= j < i ==>
      !(rows[j].connection == rows[i].connection && rows[j].providerId == rows[i].providerId)
  }

  lemma {:induction false} FindIsFirst(rows: seq<MessageRow>, connection: string, providerId: string)
    ensures match FindMessage(rows, connection, providerId)
      case Some(i) => FirstFor(rows, i)
      case None => forall i :: 0 <= i < |rows| ==>
        !(rows[i].connection == connection && rows[i].providerId == providerId)
  {
    if rows != [] {
      FindIsFirst(rows[..|rows| - 1], connection, providerId);
    }
  }

  predicate HasMessage(rows: seq<MessageRow>, connection: string, providerId: string) {
    exists i :: 0 <= i < |rows| && rows[i].connection == connection && rows[i].providerId == providerId
  }

  /** A known message refreshes its own row, an unknown one is added; no other row changes. */
  lemma UpsertChangesOneRow(rows: seq<MessageRow>, m: MessageRow)
    ensures
      var (after, id) := UpsertMessage(rows, m);
      var known := HasMessage(rows, m.connection, m.providerId);
      && |after| == |rows| + (if known then 0 else 1) && id < |after| && after[id] == m
      && (known ==> rows[id].connection == m.connection && rows[id].providerId == m.providerId)
      && (forall i :: 0 <= i < |rows| && i != id ==> after[i] == rows[i])
  {
    FindIsFirst(rows, m.connection, m.providerId);
  }

  // -- actions ----------------------------------------------------------------------------

  /** Neither rejected nor failed: blocks another proposal of its type. */
  predicate Live(row: ActionRow) { !row.status.Rejected? && !row.status.Failed? }

  predicate Matches(row: ActionRow, messageId: nat, kind: ActionType) {
    row.messageId == messageId && row.kind == kind
  }

  /** `kind in active_types_for_message(message)`. */
  predicate Active(rows: seq<ActionRow>, messageId: nat, kind: ActionType) {
    exists i :: 0 <= i < |rows| && Live(rows[i]) && Matches(rows[i], messageId, kind)
  }

  function NewAction(messageId: nat, kind: ActionType, content: Option<string>, escalateTo: Option<string>,
                     labelText: Option<string>, status: Status, requiresApproval: bool): ActionRow {
    ActionRow(messageId, kind, content, escalateTo, labelText, status, requiresApproval,
              None, None, None, None, None, None, NO_PROSE, 0, None)
  }

  /** A row for a write made without asking anyone. */
  function AutoAction(messageId: nat, kind: ActionType, content: Option<string>, escalateTo: Option<string>,
                      labelText: string, result: WriteResult, now: int): ActionRow {
    NewAction(messageId, kind, content, escalateTo, Some(labelText),
              if result.ok then Executed else Failed, false)
    .(outcome := if result.ok then Some(Auto) else None,
      executionRef := result.ref,
      executedAt := if result.ok then Some(now) else None)
  }

  // -- failed sends -----------------------------------------------------------------------

  const MAX_SEND_RETRIES := 3
  const FAILED_SENDS_LIMIT := 50

  predicate Retryable(row: ActionRow, maxRetries: int) {
    row.status.Failed? && row.requiresApproval && row.decidedBy.Some? && row.retryCount < maxRetries
  }

  function RetryableIds(rows: seq<ActionRow>, maxRetries: int): (ids: seq<nat>)
    ensures forall i :: i in ids <==> 0 <= i < |rows| && Retryable(rows[i], maxRetries)
    ensures NoDuplicates(ids)
  {
    if rows == [] then []
    else
      var last := |rows| - 1;
      var earlier := RetryableIds(rows[..last], maxRetries);
      assert forall i :: i in earlier <==> 0 <= i < last && Retryable(rows[i], maxRetries);
      if Retryable(rows[last], maxRetries) then earlier + [last] else earlier
  }

  /** `ORDER BY decided_at ASC`; rows without a date sort first. */
  predicate DecidedEarlier(rows: seq<ActionRow>, i: nat, j: nat) {
    var a, b := DecidedAt(rows, i), DecidedAt(rows, j);
    b.Some? && (a.None? || a.value < b.value)
  }

  function DecidedAt(rows: seq<ActionRow>, i: nat): Option<int> { if i < |rows| then rows[i].decidedAt else None }

  function EarlierIn(rows: seq<ActionRow>): (nat, nat) -> bool { (i: nat, j: nat) => DecidedEarlier(rows, i, j) }

  function ListFailedSends(rows: seq<ActionRow>, maxRetries: int): (ids: seq<nat>)
    ensures |ids| <= FAILED_SENDS_LIMIT && NoDuplicates(ids)
    ensures forall i :: i in ids ==> i < |rows| && Retryable(rows[i], maxRetries)
  {
    var all := RetryableIds(rows, maxRetries);
    var sorted := StableSort(EarlierIn(rows), all);
    SortedIdsStayDistinct(EarlierIn(rows), all);
    var ids := Take(sorted, FAILED_SENDS_LIMIT);
    assert forall k :: 0 <= k < |ids| ==> ids[k] == sorted[k] && sorted[k] in sorted && sorted[k] in all;
    ids
  }

  /** Decided at no earlier time; a row without a time is the oldest. */
  predicate NoOlder(a: Option<int>, b: Option<int>) { b.Some? ==> a.Some? && a.value >= b.value }

  /**
   * The list is the oldest decisions first, and leaves a retryable action out
   * only when fifty others come no later.
   */
  lemma ListFailedSendsIsOldest(rows: seq<ActionRow>, maxRetries: int)
    ensures
      var ids := ListFailedSends(rows, maxRetries);
      && (forall j, k :: 0 <= j < k < |ids| ==> NoOlder(DecidedAt(rows, ids[k]), DecidedAt(rows, ids[j])))
      && (forall i: nat :: i < |rows| && Retryable(rows[i], maxRetries) && i !in ids ==>
            |ids| == 50 && forall k :: 0 <= k < |ids| ==> NoOlder(rows[i].decidedAt, DecidedAt(rows, ids[k])))
  {
    var all, before := RetryableIds(rows, maxRetries), EarlierIn(rows);
    var sorted, ids := StableSort(before, all), ListFailedSends(rows, maxRetries);
    SortIsOrdered(before, all);
    SortedIdsStayDistinct(before, all);
    assert ids == sorted[..|ids|];
    assert forall j, k :: 0 <= j < k < |sorted| ==> !before(sorted[k], sorted[j]);
    forall i: nat | i < |rows| && Retryable(rows[i], maxRetries) && i !in ids
      ensures |ids| == 50 && forall k :: 0 <= k < |ids| ==> NoOlder(rows[i].decidedAt, DecidedAt(rows, ids[k]))
    {
      assert i in all && i in sorted;
      var n :| 0 <= n < |sorted| && sorted[n] == i;
      assert forall k :: 0 <= k < |ids| ==> ids[k] == sorted[k] && ids[k] in ids;
      assert n >= |ids|;
    }
  }

  lemma SortedIdsStayDistinct(before: (nat, nat) -> bool, ids: seq<nat>)
    requires NoDuplicates(ids)
    ensures NoDuplicates(StableSort(before, ids))
    ensures forall i :: i in StableSort(before, ids) <==> i in ids
  {
    SortIsPermutation(before, ids);
    var sorted := StableSort(before, ids);
    SortKeepsMembers(before, ids);
    DistinctMultiset(ids);
    MultisetDistinct(sorted);
  }

  lemma {:induction false} DistinctMultiset(ids: seq<nat>)
    requires NoDuplicates(ids)
    ensures forall x :: multiset(ids)[x] <= 1
  {
    if ids != [] {
      DistinctMultiset(ids[1..]);
      assert ids == [ids[0]] + ids[1..];
      assert ids[0] !in ids[1..];
    }
  }

  lemma {:induction false} MultisetDistinct(ids: seq<nat>)
    requires forall x :: multiset(ids)[x] <= 1
    ensures NoDuplicates(ids)
  {
    forall i, j | 0 <= i < j < |ids| ensures ids[i] != ids[j] {
      assert ids == ids[..j] + [ids[j]] + ids[j + 1..];
      assert ids[i] in ids[..j];
      assert multiset(ids)[ids[j]] == multiset(ids[..j])[ids[j]] + 1 + multiset(ids[j + 1..])[ids[j]];
    }
  }
}
