// Two runs from empty tables, input by input: one ends with two live replies on a
// message, the other sends a text nobody approved.
module Witnesses {
  import opened Prelude
  import opened Text
  import opened Mail
  import opened Enrich
  import opened Calendar
  import opened IsoTime
  import opened Commitments
  import opened Rubric
  import opened Drafting
  import opened Tables
  import opened Sync
  import opened Review
  import opened Uniqueness
  import opened Runs
  import opened Clashes
  import opened Revival
  import opened LostEdits

  // -- the inputs -----------------------------------------------------------------------------------

  const MESSAGE := FetchedMessage("1", "", "", "", "", "")
  const TERMS := Terms([], [""])
  const TODAY := Date(2026, 1, 5)
  const CLOCK := Instant(TODAY, 9, 0, 0, 0)
  const NO_PHRASES := Phrases(None, None, None, None, None, None)
  const READER := Reader(_ => [], _ => false, _ => false, _ => false, _ => false, _ => false, _ => NO_PHRASES)
  const MODEL := Model(_ => None, _ => None, _ => true, _ => "")
  const WRITER := Writer(false, MODEL, "", 0.0, true, CLOCK)
  const REFUSES: Provider := (ws, w) => WriteResult(false, None, "")
  const RETRY := Retry(_ => Some(WORKS), MAX_SEND_RETRIES, 0)
  const INPUT := SyncInput(
    "c", [MESSAGE], true, WORKS, false, _ => None, TERMS, READER, Guards(_ => false, _ => false), 0, TODAY)

  lemma InputsAreFit()
    ensures INPUT.planActive && ValidInstant(WRITER.clock) && RETRY.maxRetries == MAX_SEND_RETRIES
    ensures RETRY.providers(INPUT.connection).Some? && AlwaysWorks(RETRY.providers(INPUT.connection).value)
  {
  }

  function Approving(edited: Option<string>): Approval { Approval(true, "u", 0, REFUSES, edited, READER, 0, TODAY) }

  // -- the message is urgent and carries no risk ------------------------------------------------------

  predicate AllLong(terms: seq<string>) { forall i :: 0 <= i < |terms| ==> |terms[i]| > 2 }

  lemma {:induction false} ShortTextScoresNothing(terms: seq<string>, text: string)
    requires |text| <= 1 && AllLong(terms)
    ensures Score(terms, text) == 0
  {
    if terms != [] {
      assert !TermMatches(terms[0], text);
      ShortTextScoresNothing(terms[1..], text);
    }
  }

  lemma TermsAreLong(tag: RiskTag)
    ensures AllLong(TermsFor(tag))
  {
  }

  lemma ShortTextHasNoRisk(text: string)
    requires |text| <= 1
    ensures RiskTagOf(text) == NoRisk
  {
    forall j | 0 <= j < |Scores(text)| ensures Scores(text)[j] == 0 {
      TermsAreLong(RISK_TAGS[j]);
      ShortTextScoresNothing(TermsFor(RISK_TAGS[j]), text);
    }
    RiskTagIsMostEvidence(text);
  }

  lemma MessageIsUrgent()
    ensures OneUrgentMessage(INPUT, "", MESSAGE)
  {
    var text := Lower(MESSAGE.subject + " " + MESSAGE.body);
    ShortTextHasNoRisk(text);
    assert StartsWithAt(text, 0, TERMS.urgent[0]);
    assert AnyTerm(TERMS.urgent, text);
  }

  // -- two live replies ---------------------------------------------------------------------------------

  /** Approve (refused), sync, retry: the message has two live replies. */
  lemma TwoLiveReplies()
    ensures
      var steps := RevivingSteps(INPUT, "", WRITER, Approving(None), RETRY);
      AllPossible(steps) && LiveCount(AllTries, RunAll(EMPTY, steps).store.actions, 0, Reply) >= 2
  {
    InputsAreFit();
    MessageIsUrgent();
    RetryRevivesDuplicate(INPUT, "", MESSAGE, WRITER, Approving(None), RETRY);
  }

  // -- a text nobody approved -------------------------------------------------------------------------------

  /** The tables once the message has been synced. */
  function Held(): Store { FirstSync(INPUT, "", WRITER).store }

  lemma HeldReplyIsFirst()
    ensures
      var held := Held();
      && held.actions != [] && HeldReply(held.actions[0], 0)
      && held.messages == [RowOf(INPUT, "", MESSAGE)] && INPUT.connection in held.connections
      && forall i :: 1 <= i < |held.actions| ==> FiledClassification(held.actions[i])
  {
    var start := Connected(INPUT.connection, "");
    MessageIsUrgent();
    InputsAreFit();
    FirstReplyIsHeld(start, INPUT, "", MESSAGE, WRITER, EMPTY.shelf);
    assert AddsHeldReply(start, Held(), [RowOf(INPUT, "", MESSAGE)], 0);
  }

  /** An edit of one letter that changes what is on record. */
  function Edit(row: ActionRow): string { if Strip(row.content.GetOr("")) == "A" then "B" else "A" }

  lemma EditAmends(row: ActionRow)
    ensures Strip(Edit(row)) == Edit(row) && IsAmendment(row, Some(Edit(row))) && Edit(row) != GENERIC_REPLY
    ensures row.kind.Reply? ==> !TextKept(row, Some(Edit(row)))
  {
    assert Strip("A") == "A" && Strip("B") == "B";
  }

  lemma RefusedEdit()
    ensures
      var held := Held();
      held.actions != []
      && var a := Approving(Some(Edit(held.actions[0])));
      && ApproveSpec(held, a).Ok? && FirstRefused(held, ApproveSpec(held, a).value)
  {
    HeldReplyIsFirst();
    FailedApproval(Held(), Approving(Some(Edit(Held().actions[0]))));
  }

  function EditSteps(text: string): seq<Step> {
    DecidedSteps(INPUT, "", WRITER, Approving(Some(text))) + [RetryStep(RETRY)]
  }

  lemma EditRun(text: string)
    ensures AllPossible(EditSteps(text))
    ensures RunAll(EMPTY, EditSteps(text)).store ==
      RetrySpec(Settled(Held(), ApproveSpec(Held(), Approving(Some(text)))), RETRY).0
  {
    InputsAreFit();
    DecidedRetryRun(INPUT, "", WRITER, Approving(Some(text)), RETRY);
  }

  lemma DecidedRetryRun(inp: SyncInput, account: string, writer: Writer, a: Approval, r: Retry)
    requires inp.planActive && ValidInstant(writer.clock) && r.maxRetries == MAX_SEND_RETRIES
    ensures
      var steps := DecidedSteps(inp, account, writer, a) + [RetryStep(r)];
      AllPossible(steps) && RunAll(EMPTY, steps).store == RetrySpec(AfterDecision(inp, account, writer, a), r).0
  {
    DecidedRun(inp, account, writer, a);
    RetryRun(EMPTY, DecidedSteps(inp, account, writer, a), AfterDecision(inp, account, writer, a),
             FirstSync(inp, account, writer).shelf, r);
  }

  /** The retry pass over a table whose first row alone was refused. */
  lemma FirstIsResent(held: Store, refused: Store)
    requires held.actions != [] && HeldReply(held.actions[0], 0) && FirstRefused(held, refused)
    requires |held.messages| == 1 && held.messages[0].connection in held.connections
    requires forall i :: 1 <= i < |held.actions| ==> FiledClassification(held.actions[i])
    ensures RetrySpec(refused, RETRY).0 == RetryOne(refused, 0, RETRY).0
    ensures Sendable(refused, refused.actions[0], RETRY)
  {
    assert forall i :: 1 <= i < |held.actions| ==> refused.actions[i] == refused.actions[1..][i - 1] == held.actions[i];
    OnlyFirstIsRetryable(refused.actions);
    SortedSingle(EarlierIn(refused.actions), 0);
    assert [0][..0] == [] && RetryAll(refused, [], RETRY) == (refused, RetryReport(0, 0, 0));
    assert RetryAll(refused, [0], RETRY).0 == RetryOne(refused, 0, RETRY).0;
  }

  /** The first action is marked as sent, and the last thing sent is another text. */
  predicate SentSomethingElse(store: Store, text: string) {
    && store.actions != [] && store.actions[0].status.Executed? && store.writes != []
    && var last := store.writes[|store.writes| - 1];
       last.SendReply? && last.body != Strip(text)
  }

  /**
   * A run that edits, is refused and retries: it ends with the reply marked as
   * sent, and the last thing sent is not the text that was approved.
   */
  lemma UnapprovedTextIsSent()
    ensures exists text :: AllPossible(EditSteps(text)) && SentSomethingElse(RunAll(EMPTY, EditSteps(text)).store, text)
  {
    HeldReplyIsFirst();
    RefusedEdit();
    var held := Held();
    var text := Edit(held.actions[0]);
    var refused := ApproveSpec(held, Approving(Some(text))).value;
    ResentText(held, refused, text);
    EditRun(text);
    assert SentSomethingElse(RunAll(EMPTY, EditSteps(text)).store, text);
  }

  lemma ResentText(held: Store, refused: Store, text: string)
    requires held.actions != [] && HeldReply(held.actions[0], 0) && text == Edit(held.actions[0])
    requires held.messages == [RowOf(INPUT, "", MESSAGE)] && INPUT.connection in held.connections
    requires forall i :: 1 <= i < |held.actions| ==> FiledClassification(held.actions[i])
    requires ApproveSpec(held, Approving(Some(text))) == Ok(refused) && FirstRefused(held, refused)
    ensures SentSomethingElse(RetrySpec(refused, RETRY).0, text)
  {
    var row := held.actions[0];
    EditAmends(row);
    FirstIsResent(held, refused);
    RetrySendsApprovedTextIff(held, Approving(Some(text)), refused, RETRY);
    assert WriteFor(refused, Amended(row, Some(text)), "1") == Some(SendReply("1", text));
  }
}
