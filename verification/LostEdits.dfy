// What a retry sends: an edit made while approving is stored only when the send
// succeeds, so a refused approval leaves the unedited text to be retried.
module LostEdits {
  import opened Prelude
  import opened Text
  import opened Drafting
  import opened Tables
  import opened Review
  import opened Clashes
  import opened Uniqueness
  import opened Dispatches
  import opened Runs

  /** Alike in everything a write is made from. */
  predicate SameContent(a: ActionRow, b: ActionRow) {
    && a.messageId == b.messageId && a.kind == b.kind && a.content == b.content
    && a.escalateTo == b.escalateTo && a.labelText == b.labelText
  }

  lemma WriteOfSameContent(store: Store, a: ActionRow, b: ActionRow, providerId: string)
    requires SameContent(a, b)
    ensures WriteFor(store, a, providerId) == WriteFor(store, b, providerId)
  {
  }

  /** The words of an escalation draft. */
  function HandOff(row: ActionRow, content: string): string {
    Strip("Escalating to " + Underscored(RoleOf(row)) + ".\n\n" + content)
  }

  lemma HandOffWords(row: ActionRow, content: string)
    ensures
      var head, words := "Escalating to " + Underscored(RoleOf(row)) + ".", StripRight(content);
      HandOff(row, content) == if words == "" then head else head + "\n\n" + words
  {
    var head := "Escalating to " + Underscored(RoleOf(row)) + ".";
    var text := head + "\n\n";
    assert text + content == "Escalating to " + Underscored(RoleOf(row)) + ".\n\n" + content;
    assert (text + content)[0] == 'E';
    StripRightAppend(text, content);
    StripRightAppend(head, "\n\n");
    assert head[|head| - 1] == '.';
    assert StripRight("\n\n") == StripRight("\n\n"[..1]) == StripRight("\n\n"[..1][..0]) == "";
  }

  /** A hand-off says the reviewed words exactly when they are the words on record, blanks aside. */
  lemma HandOffTellsWords(row: ActionRow, text: string, content: string)
    requires text != "" && Strip(text) == text && HandOff(row, text) == HandOff(row, content)
    ensures Strip(content) == text
  {
    var head := "Escalating to " + Underscored(RoleOf(row)) + ".";
    StripIsBare(text);
    HandOffWords(row, text);
    HandOffWords(row, content);
    var words := StripRight(content);
    assert words != "" by {
      assert |HandOff(row, text)| > |head|;
    }
    assert (head + "\n\n" + text)[|head| + 2..] == text;
    assert (head + "\n\n" + words)[|head| + 2..] == words;
    StripRightIsPrefix(content);
    assert content[0] == text[0];
  }

  /** A refused approval can still be retried with the text that was approved. */
  predicate TextKept(row: ActionRow, edited: Option<string>) {
    || !IsAmendment(row, edited)
    || match row.kind
       case Reply => !Truthy(row.content) && Strip(edited.GetOr("")) == GENERIC_REPLY
       case Escalate => false
       case _ => true
  }

  lemma WriteTellsText(store: Store, row: ActionRow, edited: Option<string>, providerId: string)
    requires WriteFor(store, row, providerId).Some?
    ensures
      WriteFor(store, row, providerId) == WriteFor(store, Amended(row, edited), providerId) <==> TextKept(row, edited)
  {
    var text := Strip(edited.GetOr(""));
    StripTwice(edited.GetOr(""));
    if IsAmendment(row, edited) {
      assert Amended(row, edited).content == Some(text);
      if row.kind.Escalate? && HandOff(row, text) == HandOff(row, row.content.GetOr("")) {
        HandOffTellsWords(row, text, row.content.GetOr(""));
      }
    }
  }

  lemma StripTwice(s: string)
    ensures Strip(Strip(s)) == Strip(s)
  {
    StripIsBare(s);
  }

  /**
   * An approval the provider refused, or one whose role had no mailbox, is retried
   * from the text on record. In any later state that still holds that row and can
   * send it, the retry makes one write, and it is the write that was approved if
   * and only if the approver had changed nothing (or, for a reply, had typed the
   * generic sentence over an empty draft).
   */
  lemma RetrySendsApprovedTextIff(store: Store, a: Approval, later: Store, r: Retry)
    requires ApproveSpec(store, a).Ok? && ApproveSpec(store, a).value.actions[a.actionId].status.Failed?
    requires a.actionId < |later.actions|
    requires SameContent(later.actions[a.actionId], ApproveSpec(store, a).value.actions[a.actionId])
    requires Sendable(later, later.actions[a.actionId], r)
    ensures
      var row, sent := store.actions[a.actionId], RetryOne(later, a.actionId, r).0.writes;
      var approved := WriteFor(later, Amended(row, a.edited), later.messages[row.messageId].providerId);
      && |sent| == |later.writes| + 1 && sent[..|later.writes|] == later.writes
      && (Some(sent[|later.writes|]) == approved <==> TextKept(row, a.edited))
  {
    var row, now := store.actions[a.actionId], later.actions[a.actionId];
    var providerId := later.messages[row.messageId].providerId;
    WriteOfSameContent(later, now, row, providerId);
    WriteTellsText(later, row, a.edited, providerId);
  }

  // -- the text on record stays ---------------------------------------------------------------------

  /** Row `i` is decided, or filed without asking, and still says what `row` says. */
  predicate Says(rows: seq<ActionRow>, i: nat, row: ActionRow) {
    i < |rows| && !rows[i].status.Proposed? && SameContent(rows[i], row)
  }

  lemma RetryOneKeepsContent(store: Store, id: nat, r: Retry, i: nat, row: ActionRow)
    requires id < |store.actions| && Says(store.actions, i, row)
    ensures Says(RetryOne(store, id, r).0.actions, i, row)
  {
  }

  lemma {:induction false} RetryAllKeepsContent(store: Store, ids: seq<nat>, r: Retry, i: nat, row: ActionRow)
    requires InTable(ids, |store.actions|) && Says(store.actions, i, row)
    ensures Says(RetryAll(store, ids, r).0.actions, i, row)
  {
    if ids != [] {
      RetryAllKeepsContent(store, ids[..|ids| - 1], r, i, row);
      RetryOneKeepsContent(RetryAll(store, ids[..|ids| - 1], r).0, ids[|ids| - 1], r, i, row);
    }
  }

  lemma StepKeepsContent(w: World, s: Step, i: nat, row: ActionRow)
    requires Possible(s) && Says(w.store.actions, i, row)
    ensures Says(Apply(w, s).store.actions, i, row)
  {
    match s
    case SyncStep(inp, writer) =>
      if inp.connection in w.store.connections {
        var account := w.store.connections[inp.connection];
        SyncOnlyFiles(w.store, account, inp, writer, w.shelf);
        PreparedSetting(w.store, account, inp, writer, w.shelf);
      }
    case RetryStep(r) =>
      ListedAreInTable(w.store.actions, r.maxRetries);
      RetryAllKeepsContent(w.store, ListFailedSends(w.store.actions, r.maxRetries), r, i, row);
    case _ =>
  }

  /** No later step brings the edit back: a decided row keeps its words for good. */
  lemma {:induction false} DecidedRowsKeepContent(w: World, steps: seq<Step>, i: nat, row: ActionRow)
    requires AllPossible(steps) && Says(w.store.actions, i, row)
    ensures Says(RunAll(w, steps).store.actions, i, row)
  {
    if steps != [] {
      var init := steps[..|steps| - 1];
      DecidedRowsKeepContent(w, init, i, row);
      StepKeepsContent(RunAll(w, init), steps[|steps| - 1], i, row);
    }
  }
}
