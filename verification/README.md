# The inbox copilot: approval queue, worker and encodings

A Dafny model of the product's deterministic core, with proofs of what it is
for. The text of this file explains the parts, then lists every member that
models or states something, then what is left out.

## What is modelled

**The approval queue.** `Enrich` and `Policy` turn fetched mail into actions,
`Pipeline` drives the policy and makes proposals of them. `Tables` holds the rows
behind the queue (`Store`); `Sync` and `Review` say what one sync, approval,
rejection and retry pass do to them; `SyncService` is the service itself, a class
whose methods update the tables in place and are tied, step by step, to those two
modules. `Runs` is the state machine: any interleaving of syncs, decisions, retries,
reconnections, contact changes and follow-up updates, from empty tables. A step that raises leaves the
tables as they were. The results are in `Uniqueness`, `Dispatches`, `Runs`,
`Clashes`, `Promises`, `Independence`, `Resync`, `Spend`, `Revival`, `LostEdits` and `Witnesses`;
and, told without the functions that do the work, in `Filings` and `Labelling` (what a sync
files and asks of the mailbox), `Approvals` (what a decision does), `Rulings` (what a row says
about itself), `Inventions`, `Vetoes` (what past decisions teach), `Owing` (which promises are
listed), `Shelves` (which drafts are kept) and `Reports` (what the counts count).

**Follow-ups and dates.** `Calendar` (proleptic Gregorian dates by ordinal),
`IsoTime` (timestamps as the code prints them), `Commitments` (date phrases,
extraction), `Dates` (what each phrase means, by day numbers), `FollowUps` (the table of promises) and `Ledger` (model spend by month).

**Drafting and checking.** `Rubric` and `Verifier` (the deterministic checks and
the findings shown to an approver), `Verdicts` (exactly which drafts are flagged), `Budget` and `Drafting` (which paid calls are
made and how they are metered), `Learning` (vetoes and examples from past decisions).

**Encodings and limits.** `Base64`, `Tokens`, `Vault`, `RateLimiter`, `Worker`,
`Ranking`, and the metrics registry with the parser that reads it back (`Metrics`,
`MetricsTotals`, `MetricsScrape`, `MetricsSeries`).

`Prelude`, `Text`, `Mail` and `Sorting` are shared vocabulary. Loops over a list are
specified by functions on its prefixes; imperative members carry an `ensures`
that equates their result and the new state with such a function, and the
lemmas are about the functions.

## Reading the main results

- *At most one live action.* A sync checks for duplicates before it files its
  labels, so it is safe only because the policy proposes each (message, type)
  once: `Pipeline.ProposesEachMessageOnce` is what `Uniqueness.SyncKeepsUnique`
  rests on, and `Uniqueness.RepeatedProposalIsFiledTwice` shows it cannot be spared.
  `Runs.EveryRunKeepsActionsUnique` is the statement over all runs, for actions
  never retried. Over actions of any retry count it is false:
  `Revival.RetryRevivesDuplicate` is a whole run that breaks it, and
  `Clashes.RetryPassKeepsUniqueIff` says exactly which retry passes can, from the
  tables before the pass; `Clashes.ClashFreeRunsStayUnique` is the statement over runs.
- *Dispatch accounting.* `Runs.EveryRunAccountsForDispatches` and
  `Runs.NothingLeavesUnapproved`; `dispatches` is a ghost log of `_execute` calls.
- *What a row says is true.* `Runs.EveryRunRulesRows` ties outcome to status and
  "flagged" to the claims shown; `Inventions.EveryRunShowsInventions` says that no
  decision, edit or retry hides a figure the message never states;
  `Labelling.LabelRowsTellTheTruth` that a label row is backed by a write of its sync.
- *Rejections teach.* `Vetoes.EveryRunVetoesRejected` counts the held actions
  themselves, `Vetoes.MostlyRejectedIsNotHeld` draws the consequence for the next sync.
- *The model only writes.* `Independence.ModelOnlyWrites` compares two syncs that
  differ in everything about the model.
- *Re-sync.* `Resync.ResyncIsNoOp`; "the same vetoes" and "no row failed" are its
  only conditions on the state, beside readable due dates in the first sync. The
  second sync may meet another provider, model, budget and day.
- *Leap days and mixed metrics* are cases where the code does less than it seems to:
  `Commitments.LeapDayResolves` and `MetricsSeries.ParsedIsTotalIff` give the exact
  conditions, `Commitments.LeapDayMissedNextYear` and
  `MetricsScrape.MixedCounterMissesTotal` the inputs.
- *Edited text.* An edit is not stored when the first send fails, or when an
  escalation's role has no mailbox yet; `LostEdits.RetrySendsApprovedTextIff` says
  when a retry still sends what was approved, and `Witnesses.UnapprovedTextIsSent`
  is a run in which it does not.

## Model

| member | source | states |
|---|---|---|
| Enrich.InferRiskTag | app/copilot/enrich.py:115-130 | the scoring loop returns the tag of the leading score |
| Enrich.RiskTagIsMostEvidence | app/copilot/enrich.py:115-130 | the chosen tag has the most distinct matching terms, an earlier tag wins a tie, and a text is untagged exactly when no term matches |
| Enrich.TermMatchesWords | app/copilot/enrich.py:81-94 | a term matches exactly where it stands as a whole word in any letter case, a starred stem exactly where a word begins with it |
| Enrich.SenderRoleMeans | app/copilot/enrich.py:97-112 | who a sender is, by what follows the last `@`: a colleague shares the domain whatever the address looks like, then automated addresses, then private ones, else unknown |
| Enrich.UrgencyMeans | app/copilot/enrich.py:133-163 | which messages are high priority, and the deadline and value each gets |
| Policy.RankedIsStableByUrgency | app/copilot/policy.py:48-52 | the ranking is a permutation of the inbox: high priority first, then the sooner deadline, then the higher business value, inbox order among equals |
| Policy.OpeningRanksByValue | app/copilot/policy.py:19-34 | the first action lists the whole inbox: high priority first, then the higher business value, then the sooner deadline |
| Policy.BaselinePolicy.NextAction | app/copilot/policy.py:19-81 | each call moves the policy's three fields and returns an action as the transition function says |
| Policy.NextFollowsPlan | app/copilot/policy.py:19-81 | in any state a call takes exactly the next action off a batch plan, and returns none (or a keep-alive) exactly when the plan is used up |
| Pipeline.RunPolicy | app/copilot/pipeline.py:34-49 | the capped loop over a fresh policy returns what the transition function yields |
| Pipeline.RunPolicyIsPlan | app/copilot/pipeline.py:34-49 | with no interruptions left the loop is one prioritize, one classify per distinct id in inbox order, one decision per distinct non-spam id in ranked order, and stops short of its cap; otherwise keep-alives fill the cap exactly |
| Pipeline.ToProposals | app/copilot/pipeline.py:52-73 | one proposal per action that names a message, in order |
| Pipeline.ProposesEachMessageOnce | app/copilot/policy.py:36-75 | for every inbox, repeated ids included, each message gets at most one classify and at most one other proposal |
| Pipeline.RoutingOfEachMessage | app/copilot/policy.py:36-75 | exactly which proposals an id gets, for every inbox: its first email's classification, then one decision unless that verdict is spam |
| Pipeline.ProposalCount | app/copilot/pipeline.py:52-73 | the number of proposals is the number of distinct ids plus the number of those that are not spam |
| Pipeline.ProposalCountOfDistinctInbox | app/copilot/pipeline.py:52-73 | for n distinct ids: 2n minus the number of spam messages |
| Pipeline.HeldIffExternal | app/copilot/pipeline.py:52-73 | a proposal needs approval exactly when it is a reply or an escalation |
| Pipeline.MostPressingComesFirst | app/copilot/policy.py:36-75 | every classification is proposed before any decision, and of two decisions the one on the no less pressing mail comes first, for every inbox |
| Pipeline.VerdictOfFetchedMessage | app/core/utils.py:148-161 | the verdict from the raw subject and body: spam when a spam term occurs, else urgent for legal or security mail or an urgent term, else normal |
| Pipeline.RoutingOfFetchedMessage | app/copilot/policy.py:36-75 | for every verdict on a raw message, exactly its proposals, contents spelled out: spam is only classified; urgent legal or security mail is escalated once, held, to the legal team exactly when legal; other urgent mail gets one held reply with the fixed sentence; the rest one defer without content, not held |
| Calendar.OrdinalIsCalendarOrder | app/copilot/commitments.py:167-229 | day numbers order dates as year, month, day do, and tell dates apart |
| Calendar.AddDaysOrdinal | app/copilot/commitments.py:157-164 | adding days adds to the day number, overflowing exactly past the last date |
| IsoTime.IsoDateRoundTrip | app/copilot/commitments.py:286-298 | every date reads back from its ISO form |
| IsoTime.IsoDateOrder | app/saas/repository.py:1285-1311 | text order of ISO dates is calendar order |
| IsoTime.StringOrderIsTimeOrder | app/saas/repository.py:35-36 | text order of printed UTC instants is time order, with microseconds shown or omitted |
| Commitments.NextWeekdayIsUnique | app/copilot/commitments.py:157-164 | the result is the one date one to seven days ahead on that weekday |
| Commitments.LastOfMonthIsLastDay | app/copilot/commitments.py:214-216 | the end-of-month arithmetic gives the last day of the current month, leap February included, for every date it does not overflow on |
| Commitments.LeapDayResolves | app/copilot/commitments.py:191-198 | "29 February" resolves if and only if this year is leap and the day has not passed |
| Commitments.LeapDayMissedNextYear | app/copilot/commitments.py:191-198 | a common year in which next year's leap day is missed |
| Commitments.AnnualDateIsNextOccurrence | app/copilot/commitments.py:191-198 | every other day and month resolves to its first occurrence on or after today |
| Commitments.PhraseNeverResolvesToThePast | app/copilot/commitments.py:167-229 | no phrase but a written-out ISO date resolves before today, so none is overdue when extracted |
| Dates.DueIsMeant | app/copilot/commitments.py:167-229 | the pattern that wins and the day it means, by day numbers: today, tomorrow, a week on, the coming Friday or weekday, the last of the month, so many days or weeks on, the next such date, or none |
| Dates.OverflowIsPastTheEnd | app/copilot/commitments.py:167-229 | resolving raises only for a phrase that reaches past 31 December 9999, or for a relative one in the last month |
| Commitments.Extract | app/copilot/commitments.py:242-283 | the loop with its set of seen sentences returns the specified list |
| Commitments.ExtractionIgnoresClock | app/copilot/commitments.py:242-283 | reading the same text on another day finds the same promises in the same order |
| Commitments.PicksEachSentenceOnce | app/copilot/commitments.py:242-283 | everything recorded is a promise or request of the text, once up to letter case |
| Commitments.PicksEverySentence | app/copilot/commitments.py:242-283 | and none of them is left out, up to letter case |
| Dates.ExtractionMeans | app/copilot/commitments.py:242-283 | each commitment found is an owed sentence of the text, at most 240 characters and not denied, with whose it is and the day its phrase means; none twice |
| Dates.ExtractionMissesNothing | app/copilot/commitments.py:242-283 | and every owed sentence is found, up to letter case |
| Ledger.CountedIsThisMonth | app/saas/repository.py:1356-1366 | the string test on a ledger row holds exactly for this org's calls of the current calendar month |
| Ledger.MonthToDateIsExact | app/saas/repository.py:1401-1410 | the ledger query sums exactly the org's calls since the month began |
| FollowUps.UpsertKeepsEachOnce | app/saas/repository.py:1161-1219 | recording keeps every promise listed once, adds the new one and changes no other row |
| FollowUps.ExtractedDatesAreStored | app/copilot/commitments.py:242-283 | every due date found in any text is an ISO date or absent |
| FollowUps.OverdueCountAgrees | app/saas/repository.py:1285-1311 | over rows dated as extraction dates them, the textual overdue count equals the number of open rows `is_overdue` calls overdue, and the two directions add up to the open rows |
| FollowUps.SummaryCounts | app/saas/repository.py:1285-1311 | the summary is the number of open promises, of those that are ours and of those that are theirs |
| Promises.SyncKeepsOrderly | app/saas/sync_service.py:530-580 | a sync keeps every promise listed once and every due date an ISO date |
| Promises.ApproveKeepsOrderly | app/saas/sync_service.py:683-709 | so does recording the promises of a reply just sent |
| Owing.SyncReadsPromises | app/saas/sync_service.py:530-580 | each new follow-up says what an owed sentence of a fetched message that is not spam says, filed under that message and its sender, and every owed sentence of such a message is on the list |
| Owing.SpamIsFirstVerdict | app/saas/sync_service.py:345-360 | the ids passed over as spam are exactly those whose first fetched message holds a spam term |
| Owing.SentPromisesAreOurs | app/saas/sync_service.py:683-709 | a reply that went out adds exactly what it promised, as ours; a failed send or an escalation adds nothing |
| Runs.EveryRunCountsOverdue | app/saas/repository.py:1285-1311 | in every reachable state each promise is listed once and the textual overdue count is the number of overdue open promises |
| Rubric.NumbersAreInText | app/llm/draft_eval.py:55-57 | every figure found is a contiguous piece of the text that starts with a digit |
| Rubric.NumbersCheckFindsInvention | app/llm/draft_eval.py:92-100 | the numbers check passes exactly when every figure of the draft is one of the source |
| Verifier.DeterministicFindings | app/llm/verifier.py:156-199 | the loop over checks returns the specified findings |
| Verifier.InventedNumbersRoundTrip | app/llm/verifier.py:156-199 | the figures read back from the printed detail are those the rubric found, in order, repeats included |
| Verifier.InventedClaimIsDraftSentence | app/llm/verifier.py:127-132 | each invented figure is shown in a real sentence of the draft that contains it |
| Verifier.FiguresGetOneFindingEach | app/llm/verifier.py:156-199 | the findings about figures are the invented figures, one each |
| Verifier.FlaggedIffFindings | app/llm/verifier.py:296-352 | a verdict is flagged if and only if its findings are not empty |
| Verdicts.DraftFlaggedIff | app/llm/draft_eval.py:60-130 | a draft is flagged if and only if it is under 40 or over 2400 characters, states a figure or greets a name its source never mentions, says what it must not, or makes one of the first six claims the model lists |
| Verdicts.ListedClaimIsReported | app/llm/verifier.py:255-283 | each such claim is reported in the draft sentence that holds it, with the reason given, and a source quote only if it is one |
| Verdicts.FirstFigureLineIsShown | app/llm/verifier.py:143-153 | beside an invented figure stands the first source line that has any digit, if there is one |
| Rulings.InventedFigureIsFound | app/llm/verifier.py:156-199 | every figure of a draft that its source never states has a finding that names it and shows it in place |
| Rulings.WrittenIsChecked | app/saas/sync_service.py:412-463 | a held draft is "flagged" if and only if claims are shown with it and "verified" otherwise, nothing when there is no text, and each invented figure is among the claims |
| Verifier.ShownSourceIsInSource | app/llm/verifier.py:255-283 | a source quote shown beside a model finding occurs in the source |
| Learning.SuppressedPairs | app/saas/learning.py:70-90 | the tallying loop returns the specified vetoes |
| Learning.StatsAreCounts | app/saas/learning.py:70-81 | each bucket holds the number of rulings of each outcome for its pair |
| Learning.VetoIsClearEvidence | app/saas/learning.py:83-90 | a pair is vetoed if and only if it has at least three rulings and at least four fifths are rejections |
| Learning.NewestDecidedIsNewest | app/saas/repository.py:1094-1118 | the window is newest first and leaves a ruling out only when two hundred others were made no earlier |
| Learning.CandidatesWereLetOut | app/saas/learning.py:92-115 | an example may be any approved or edited draft of its kind with words in it, and nothing else |
| Vetoes.EveryRunVetoesRejected | app/saas/learning.py:70-90 | in every reachable state, while the rulings on a pair fit the window, it is vetoed if and only if three or more held actions of it were ruled on and at least four fifths of them rejected |
| Vetoes.FewRulingsAreInWindow | app/saas/repository.py:1094-1118 | while people have ruled at most two hundred times every ruling fits the window |
| Vetoes.MostlyRejectedIsNotHeld | app/saas/sync_service.py:363-411 | and then the next sync holds no action of that kind on mail from that kind of sender |
| Vetoes.EveryRunLearnsFromSent | app/saas/learning.py:92-115 | in every reachable state each example is the text of a held action that was sent, under its message's subject |
| Vetoes.SyncLearnsFromRulings | app/saas/sync_service.py:299-318 | a sync vetoes by the rulings made before it and, when the model is live, drafts with the examples they give |
| Learning.ExamplesPreferEdits | app/saas/learning.py:92-115 | the examples are the first three of all edited drafts followed by all approved ones, each newest first |
| Budget.LlmBudget.constructor | app/saas/llm_budget.py:48-78 | an unlimited budget reads nothing; otherwise the month's spend, or nothing when the ledger cannot be read |
| Budget.LlmBudget.AllowsCall | app/saas/llm_budget.py:90-97 | allowed when unlimited or below the limit |
| Budget.LlmBudget.Record | app/saas/llm_budget.py:112-140 | the running total moves whether or not the ledger accepts the row |
| Budget.BillingIsMetered | app/saas/llm_budget.py:112-140 | billing keeps: total is start plus everything billed, and the ledger grew by no more than that |
| Drafting.WritingKeepsBound | app/saas/sync_service.py:94-187 | drafting and verifying one action overshoot the limit by less than one call, and call nothing when over it |
| Drafting.DraftWords | app/saas/sync_service.py:94-187 | a kept draft of the same message is used as it is, for nothing; else a model that may be called and answers writes it and it is kept; else the provider's wording for a reply, the policy's own sentence for the rest |
| Drafting.AskedWhenNothingIsKept | app/saas/sync_service.py:94-187 | without a kept draft, a model that may be called is asked, once |
| Drafting.SameDraftIsPaidOnce | app/saas/sync_service.py:94-187 | writing the same draft again gives the same words without a call |
| Shelves.PaidDraftsAreKept | app/saas/sync_service.py:94-187 | a sync loses no kept draft, and keeps the text of every row it holds that the model wrote, under the message it answers |
| Tables.UpsertChangesOneRow | app/saas/repository.py:640-704 | a known message refreshes its own row and adds none, an unknown one is added, and no other row changes |
| Tables.ListFailedSends | app/saas/repository.py:1046-1067 | at most fifty ids, each once, each failed, approved by a human and under the retry limit |
| Tables.ListFailedSendsIsOldest | app/saas/repository.py:1046-1067 | the oldest decisions come first, and a retryable action is left out only when fifty others were decided no later |
| SyncService.InboxSyncService.UpsertMessageRow | app/saas/repository.py:640-704 | the message table and row id after an upsert |
| SyncService.InboxSyncService.ActiveTypesForMessage | app/saas/repository.py:1120-1138 | a type is in the set exactly when the message has a live action of it |
| SyncService.InboxSyncService.UpsertFollowUp | app/saas/repository.py:1176-1219 | the follow-up table after an upsert, and whether it grew |
| SyncService.InboxSyncService.RecordCommitments | app/saas/sync_service.py:530-580 | the follow-ups recorded from every message that is not spam |
| SyncService.InboxSyncService.Draft | app/saas/sync_service.py:94-187 | cache, then model, then authored text, then the generic sentence, with the call metered |
| SyncService.InboxSyncService.Verify | app/llm/verifier.py:296-352 | the verdict, its model call made only when allowed and billed on the same meter |
| SyncService.InboxSyncService.HoldForApproval | app/saas/sync_service.py:412-463 | one new proposed row with the text written for it, and the meter after both calls; what that row says is `Rulings.WrittenIsChecked` |
| SyncService.InboxSyncService.FileDeferred | app/saas/sync_service.py:384-411 | a vetoed proposal is labelled and filed as deferred with its reason |
| SyncService.InboxSyncService.WorkThrough | app/saas/sync_service.py:363-470 | the proposal loop: the tables, meter, waiting label groups and counters |
| SyncService.InboxSyncService.ApplyLabels | app/saas/sync_service.py:472-493 | every waiting group applied, in one call where the provider can, and a row filed for each item |
| SyncService.InboxSyncService.Sync | app/saas/sync_service.py:252-528 | the whole new state and report of a sync, or the error and nothing changed |
| Filings.SyncFilesWhatIsProposed | app/saas/sync_service.py:363-493 | each row a sync adds stands for one of the inbox's proposals: held with its draft checked, labelled by its verdict's name, or deferred under a veto with the reason; and each label write is one those proposals call for |
| Filings.OnlyUrgentMailIsHeld | app/copilot/policy.py:53-75 | from any tables, of the rows a sync adds for a message whose verdict is spam or normal none is held |
| Filings.NamedRowIsFor | app/saas/sync_service.py:315-341 | the row a fetched id names afterwards holds what the last fetched message with that id says, and its sender's inferred role |
| Labelling.LabelRowsTellTheTruth | app/saas/sync_service.py:384-493 | each row filed without asking is backed by a write of that sync that puts its label on its message, and is executed exactly when the mailbox accepted it |
| Reports.SyncReportAddsUp | app/saas/sync_service.py:363-528 | every proposal is held, applied, downgraded or skipped once; the counts are those of the new rows, held and not, and of the new follow-ups |
| SyncService.InboxSyncService.Dispatch | app/saas/sync_service.py:811-853 | the write an action stands for is made once and put on record; none when its role has no mailbox |
| SyncService.InboxSyncService.Approve | app/saas/sync_service.py:601-681 | the whole new state after an approval, amended text included, or the error and nothing changed |
| SyncService.InboxSyncService.Reject | app/saas/sync_service.py:711-734 | the whole new state after a rejection, or the error and nothing changed; what it records is `Approvals.RejectionOnlyDeclines` |
| Approvals.ApprovalDoesWhatWasAsked | app/saas/sync_service.py:601-681 | an approval makes the one write asked for, worded and addressed as spelled out, records who decided and how the mailbox answered, and changes no other row; or why it is refused |
| Approvals.RejectionOnlyDeclines | app/saas/sync_service.py:711-734 | a rejection records who declined and the outcome "rejected", writes nothing and changes no other row; or why it is refused |
| SyncService.InboxSyncService.RetryFailedSends | app/saas/sync_service.py:737-809 | the whole new state and report of a retry pass over the rows listed when it began |
| Reports.RetryReportAddsUp | app/saas/sync_service.py:737-809 | attempts are recoveries plus failures and equal the new dispatches; recoveries are the rows that now stand executed |
| Uniqueness.InboxProposalsAreFit | app/copilot/pipeline.py:52-73 | what a sync relies on: each message proposed once, held exactly when risky |
| Uniqueness.ProposeKeepsInvariant | app/saas/sync_service.py:363-470 | one turn of the loop keeps live actions plus waiting labels of each message and type at most one |
| Uniqueness.RepeatedProposalIsFiledTwice | app/saas/sync_service.py:363-493 | a proposal repeated in one inbox would be filed twice despite the duplicate check |
| Uniqueness.SyncKeepsUnique | app/saas/sync_service.py:363-493 | a sync keeps at most one live action per message and type, counting first tries or all |
| Uniqueness.ApproveKeepsUnique | app/saas/sync_service.py:601-681 | so does an approval |
| Uniqueness.RejectKeepsUnique | app/saas/sync_service.py:711-734 | so does a rejection |
| Uniqueness.RetryKeepsFirstTriesUnique | app/saas/sync_service.py:737-809 | so does a retry pass, counting actions never retried |
| Clashes.RetryPassKeepsUniqueIff | app/saas/sync_service.py:737-809 | counting all actions, a retry pass keeps it whatever the mailboxes answer, if and only if no listed action it would send has a live replacement and no two of them are for one message and type |
| Clashes.ClashFreeRunsStayUnique | app/saas/sync_service.py:252-809 | over every run whose retry passes start clash free, no message ever has two live actions of one type, retried or not |
| Revival.RetryRevivesDuplicate | app/saas/sync_service.py:601-809 | approve fails, sync, retry succeeds: every urgent message that needs only a reply ends with two live replies |
| Witnesses.TwoLiveReplies | app/saas/sync_service.py:601-809 | the same, for one message given field by field, from empty tables |
| LostEdits.RetrySendsApprovedTextIff | app/saas/sync_service.py:626-809 | after a failed approval of a reply or an escalation, a retry in any later state that can send it makes one write, and it is the approved one if and only if the approver changed nothing, or typed the generic sentence over an empty reply |
| LostEdits.DecidedRowsKeepContent | app/saas/sync_service.py:626-809 | no later step of any run changes the words of a decided row, so the edit is not recovered |
| Witnesses.UnapprovedTextIsSent | app/saas/sync_service.py:626-809 | a run from empty tables, input by input, that edits, is refused and retries: the reply is marked sent and what was sent is not the approved text |
| Dispatches.ExecuteIsOneDispatch | app/saas/sync_service.py:811-853 | one execution adds one entry to the log and at most one write |
| Dispatches.SyncOnlyFiles | app/saas/sync_service.py:252-528 | a sync dispatches nothing, only adds rows, and only writes labels |
| Dispatches.SyncKeepsBalance | app/saas/sync_service.py:252-528 | every row stays accounted for by its dispatches across a sync |
| Dispatches.ApproveKeepsBalance | app/saas/sync_service.py:601-681 | across an approval |
| Dispatches.RejectKeepsBalance | app/saas/sync_service.py:711-734 | across a rejection |
| Dispatches.RetryAllKeepsBalance | app/saas/sync_service.py:737-809 | across a retry pass |
| Runs.RunsStaySound | app/saas/sync_service.py:252-809 | uniqueness, dispatch accounting and an orderly follow-up table hold after every sequence of steps |
| Runs.EveryRunRulesRows | app/saas/sync_service.py:363-809 | in every reachable state: rejected if and only if the outcome is a rejection; executed after a person's approval if and only if the outcome is approved or edited; no outcome while undecided or failed; "flagged" if and only if claims are shown, "verified" if and only if a draft was checked and there are none |
| Inventions.EveryRunShowsInventions | app/saas/sync_service.py:412-809 | in every reachable state each held action is about a message some sync of the run fetched, and its row shows a finding for each figure of its draft that the message never states |
| Runs.EveryRunKeepsActionsUnique | app/saas/sync_service.py:363-493 | in every reachable state two live, never retried actions differ in message or type |
| Runs.EveryRunAccountsForDispatches | app/saas/sync_service.py:601-828 | in every reachable state a held action has one dispatch for its approval plus one per retry, at most four, success at most once and last, none while undecided or rejected |
| Runs.EveryRunShowsWhatWasSent | app/saas/sync_service.py:601-828 | in every reachable state an executed reply was sent to its message with exactly the text on its row |
| Runs.NothingLeavesUnapproved | app/saas/sync_service.py:811-853 | over any run every reply and escalation that reached the provider belongs to a held action a person approved |
| Independence.ModelOnlyWrites | app/saas/sync_service.py:363-493 | two syncs that differ only in the model, its answers, cache and budget make the same writes, report and rows, apart from words |
| Resync.PersistIsIdempotent | app/saas/repository.py:640-704 | upserting the same messages again changes nothing and finds the same rows |
| Resync.FirstSyncSettles | app/saas/sync_service.py:363-493 | after a sync without failures every proposal would be skipped |
| Resync.ResyncIsNoOp | app/saas/sync_service.py:363-493 | a second sync of the same mail writes, files and records nothing, calls no model and counts every proposal as skipped |
| Spend.SyncStaysInBudget | app/saas/llm_budget.py:48-140 | one sync ends below the limit plus one call, makes no call when it starts at or over it, and its total dominates the ledger |
| Spend.MonthStaysInBudget | app/saas/llm_budget.py:48-140 | any run within a month keeps the org's ledgered spend below the limit plus one call |
| Worker.BackgroundSyncWorker.SyncDueConnections | app/saas/sync_worker.py:99-161 | the whole effect of a pass: back-offs, mailbox rows, summary, and one more entry of history |
| Worker.BackgroundSyncWorker.RecordPass | app/saas/sync_worker.py:168-173 | `recent` stays the last ten entries of the history, `passes` its length |
| Worker.BackgroundSyncWorker.RecordCrash | app/saas/sync_worker.py:243-252 | a crashed pass is recorded like any other |
| Worker.SweepAttemptsDue | app/saas/sync_worker.py:99-161 | a sweep attempts exactly the mailboxes that were due when it began |
| Worker.AttemptsIgnoreOutcomes | app/saas/sync_worker.py:99-161 | which mailboxes a pass attempts does not depend on how the others fare |
| Worker.AttemptsAreSpaced | app/saas/sync_worker.py:87-161 | over any run with a clock that does not run back, any two passes that attempt a mailbox are an interval apart, unless between them it was reconnected after breaking, or disconnected |
| Worker.OverdueIsAttempted | app/saas/sync_worker.py:87-161 | a pass attempts every connected mailbox, sandboxes apart, whose back-off is over and which was never synced or is overdue by the interval and its largest jitter |
| Worker.LateMailboxIsAttempted | app/saas/sync_worker.py:87-161 | over any run, a mailbox still connected that long after its last attempt is attempted by the next pass |
| Worker.SummaryAddsUp | app/saas/sync_worker.py:99-161 | the summary of a pass adds up to the mailboxes it attempted |
| Worker.FoundBrokenIsUnconnected | app/saas/sync_worker.py:135-139 | a mailbox whose attempt finds it broken is off the list after the pass |
| Worker.BrokenIsLeftAlone | app/saas/repository.py:472-493 | and no pass attempts it until a person reconnects it |
| RateLimiter.FixedWindowRateLimiter.Allow | app/core/security.py:151-168 | the table and the answer after one call |
| RateLimiter.LoginAttemptAllowed | app/core/security.py:209-221 | both counters move, whatever the first says, and both must allow |
| RateLimiter.LoginCountersAreSeparate | app/core/security.py:209-221 | the address and mailbox counters never coincide, and logins share one exactly for the same address, or the same mailbox up to case and outer space |
| RateLimiter.AllowedIffUnderLimit | app/core/security.py:136-168 | a call is allowed if and only if limiting is off or fewer than its limit of earlier calls of its key fell in its window |
| RateLimiter.WindowAllowsLimit | app/core/security.py:136-168 | a window lets through exactly the smaller of the limit and the calls made |
| RateLimiter.SpanAllowsTwiceLimit | app/core/security.py:136-168 | any half-open span no longer than a window lets through at most twice the limit |
| RateLimiter.OtherKeysDoNotMatter | app/core/security.py:136-168 | an answer is the one given had no other key been used |
| Base64.DecodeEncode | app/saas/crypto.py:89-132 | decoding undoes encoding, for both alphabets |
| Base64.UrlRoundTrip | app/saas/tokens.py:30-36 | re-padding by length undoes the stripping of padding, and the form holds no dot |
| Base64.KnownEncodings | app/saas/tokens.py:30-36 | the test vectors of RFC 4648, and the two characters in which the alphabets differ |
| Tokens.CompactFormIsUnambiguous | app/saas/tokens.py:70-102 | three dot-free segments come apart as themselves |
| Tokens.TokenRoundTrip | app/saas/tokens.py:44-102 | a token decodes to its claims with `iat` and `exp` exactly while unexpired |
| Tokens.AcceptedTokenIsSigned | app/saas/tokens.py:70-102 | whatever is accepted is a pair of segments with its signature under this secret, unexpired |
| Vault.Keystream | app/saas/crypto.py:64-72 | the counter loop yields exactly the asked length of the block stream |
| Vault.ShorterStreamIsPrefix | app/saas/crypto.py:64-72 | a shorter keystream is a prefix of a longer one |
| Vault.KeystreamBytes | app/saas/crypto.py:64-72 | each keystream byte is a byte of the hash of key, nonce and its block number |
| Vault.BlockInputsDiffer | app/saas/crypto.py:64-72 | no two blocks hash the same input |
| Vault.XorUndoesItself | app/saas/crypto.py:75-76 | masking twice with one stream gives the data back |
| Vault.Encrypt | app/saas/crypto.py:89-101 | the envelope as specified |
| Vault.Decrypt | app/saas/crypto.py:103-132 | the text, or which check refused the token |
| Vault.EnvelopeOpens | app/saas/crypto.py:103-132 | the envelope splits back into its nonce, tag and ciphertext |
| Vault.VaultRoundTrip | app/saas/crypto.py:89-132 | decrypting what was encrypted gives the text back, for every key, nonce and text |
| Vault.AcceptedTextIsAuthentic | app/saas/crypto.py:103-132 | whatever is accepted carries the authentication tag of its version, nonce and ciphertext under this key |
| Ranking.CompletedIsPermutation | app/core/utils.py:125-145 | completing and filtering a prediction orders exactly the reference ids |
| Ranking.SimilarityIsInversionShare | app/core/utils.py:125-145 | the similarity is one minus the share of pairs out of order |
| Ranking.SimilarityExtremes | app/core/utils.py:125-145 | it is 1 exactly for the reference order and 0 exactly for its reverse |
| Metrics.PrometheusMetrics.Counter | telemetry/metrics.py:31-42 | the counters stay those of the call history with one call more |
| Metrics.PrometheusMetrics.Gauge | telemetry/metrics.py:44-49 | the gauges stay those of the call history with one call more |
| Metrics.PrometheusMetrics.Observe | telemetry/metrics.py:51-58 | the histograms stay those of the call history with one call more |
| MetricsSeries.GaugeHoldsLastValue | telemetry/metrics.py:44-49 | for every sequence of calls a gauge holds the value last given under its name and labels, whatever was given to others |
| MetricsSeries.HistogramHoldsAll | telemetry/metrics.py:51-58 | for every sequence of calls a histogram holds exactly the values observed under its name and labels, in order |
| MetricsSeries.HistogramPrintsCountAndSum | telemetry/metrics.py:60-78 | the printed `_count` and `_sum` are the number and the sum of those values |
| Metrics.PrometheusMetrics.GetMetrics | telemetry/metrics.py:60-84 | the text is the exposition of the registry's samples |
| Metrics.ParseMetricsText | app/main.py:1202-1252 | the line loop returns the specified dict |
| MetricsTotals.RegistryConservesTotals | telemetry/metrics.py:31-42 | for every sequence of calls the series of a name sum to everything added under it |
| MetricsScrape.LineParses | app/main.py:1202-1252 | a printed line reads back as its name and value, keyed apart exactly when labelled, whatever the label values hold |
| MetricsScrape.ExpositionSplits | telemetry/metrics.py:60-78 | the printed text splits back into its lines |
| MetricsScrape.ParsedIsTotalLessForgotten | app/main.py:1202-1252 | for every sequence of calls, a bare name reads as everything added under it less what stood above its unlabelled line |
| MetricsScrape.LabelledCounterReadsTotal | app/main.py:1202-1252 | so a counter whose calls all carry labels reads as the sum of its amounts |
| MetricsSeries.ParsedIsTotalIff | app/main.py:1202-1252 | with positive amounts a name reads as the sum of all its calls if and only if none was unlabelled, or the first one was |
| MetricsScrape.MixedCounterMissesTotal | app/main.py:1247-1251 | two calls, one labelled, whose total reads short |
| MetricsScrape.ParseMetricsToDict | app/main.py:1255-1256 | what the alert rules see of a live registry: every labelled counter at its total |

## Left out

- Regular expressions: which patterns match a sentence or a draft, and what they capture, are parameters (`Commitments.Reader`, `Rubric.Guards`); the patterns of `Enrich`, `Rubric.Numbers` and the quoted-figure reader are modelled exactly.
- Text is ASCII: case folding, white space and word characters beyond it are not modelled.
- SHA-256, HMAC, PBKDF2, JSON and UTF-8 are parameters; the round trips assume that reading undoes writing. The Fernet path of the vault is not modelled, and its `f1$` tokens are refused.
- Hash keys (the follow-up fingerprint, the draft cache key) are modelled by what they hash, so collisions are not.
- Floating point is modelled by reals. In the metrics, numbers that print exactly are assumed closed under addition; JSON numbers are integers or decimals, so NaN is not modelled.
- A step reads one clock; the few clock readings inside a sync or an approval are taken to agree.
- Row ids are positions in their table and one organization is modelled. Disconnecting a mailbox, which leaves follow-ups that point at deleted messages, deleting an organization and the audit log are not part of this model. The licence check is a flag.
- SQL ordering with ties or nulls is resolved by a stable sort in row order.
- Syncs, decisions and retries are whole steps; two of them at once on one mailbox are not modelled. A provider may answer each write as its whole history suggests; one that throws, leaving a step half done, is not modelled.
- The draft context, prompts and the model's own parsing; a model call is an arbitrary answer with a cost. An unusable draft's cost never reaches the meter, in the code as in the model, so the ledger is not all real spend.
- `date.fromisoformat` reads only YYYY-MM-DD here.
- The worker's asyncio lifecycle, its heartbeat endpoint and the sandbox purge at the start of a pass; mailbox ids are never reused.
- HTTP routes, OAuth, SMTP, OpenTelemetry, the simulator, billing, roles and migrations: no property here depends on them.
- Tokens.Decode: a payload or header that is JSON but not an object is refused like bad JSON, where the code raises another exception.
- Metrics.ParseLine: a line that opens with a brace is skipped, where the code raises IndexError; the registry prints none.
- Ranking.SimilarityIsInversionShare: stated for reference orders without repeats, as the orders the product builds are.
- Worker.BackgroundSyncWorker.SyncDueConnections: the outcome of each attempted sync and the report of the retry pass are inputs; the syncs and the retry pass themselves are `SyncService` methods, and the exceptions a pass swallows are not modelled further.
- Vault.Decrypt: requires the block counter to fit its eight bytes, beyond which the code raises OverflowError.
- Vault.Encrypt: requires the same of the plaintext.
- Dates.DueIsMeant: assumes what the patterns guarantee, that a matched weekday or month is a real one; so do the other lemmas of `Dates` and those of `Owing`.
- Vetoes.EveryRunVetoesRejected: speaks of pairs whose rulings are each among the newest two hundred; of the others only `Learning.NewestDecidedIsNewest` says which rulings count.
- Inventions.EveryRunShowsInventions: the tables modelled keep a message's subject and sender, not its body, so the message is named by the sync that fetched it.
- Resync.ResyncIsNoOp: assumes the first extraction of each message did not overflow the calendar; a message whose extraction raised may yield follow-ups on another day.
- Spend.MonthStaysInBudget: assumes ledger reads and writes succeed; when they fail only the bound within one sync holds.
- MetricsScrape.LabelledCounterReadsTotal: assumes counter names are single words without `{`, `=` or a leading `#`, labels without newlines, and a first label key without `}` or `,`.
