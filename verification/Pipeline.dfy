// Driving the policy to exhaustion and turning its actions into per-message
// proposals (app/copilot/pipeline.py).
module Pipeline {
  import opened Prelude
  import opened Text
  import opened Mail
  import opened Enrich
  import opened Sorting
  import opened Policy

  datatype Proposal = Proposal(
    emailId: string, kind: ActionType, content: Option<string>, escalateTo: Option<string>,
    labelled: Option<Label>, requiresApproval: bool)

  function Cap(obs: Observation): nat { |obs.emails| * 4 + 8 }

  /** The policy eventually returns nothing. */
  predicate Quiet(obs: Observation) { obs.remainingInterruptions <= 0 || obs.emails == [] }

  /** At most `fuel` calls of the policy, stopping early when it returns nothing. */
  function Run(s: PolicyState, obs: Observation, terms: Terms, fuel: nat): seq<Action>
    decreases fuel
  {
    if fuel == 0 then []
    else
      var (s', action) := Next(s, obs, terms);
      match action
      case None => []
      case Some(a) => [a] + Run(s', obs, terms, fuel - 1)
  }

  method RunPolicy(obs: Observation, terms: Terms) returns (actions: seq<Action>)
    ensures actions == Run(START, obs, terms, Cap(obs))
  {
    var policy := new BaselinePolicy(terms);
    actions := [];
    for i := 0 to Cap(obs)
      invariant policy.terms == terms
      invariant actions + Run(policy.State(), obs, terms, Cap(obs) - i) == Run(START, obs, terms, Cap(obs))
    {
      var action := policy.NextAction(obs);
      if action.None? {
        return;
      }
      actions := actions + [action.value];
    }
  }

  /** The ranking handed out again and again while interruptions remain. */
  function KeepAlives(obs: Observation, n: nat): (actions: seq<Action>)
    ensures |actions| == n
  {
    seq(n, _ => PrioritizeAction(Ranked(obs.emails)))
  }

  lemma OneMoreKeepAlive(obs: Observation, n: nat)
    ensures KeepAlives(obs, n + 1) == [PrioritizeAction(Ranked(obs.emails))] + KeepAlives(obs, n)
  {
  }

  /** What `fuel` calls amount to: the plan, and keep-alives after it unless the policy is quiet. */
  function Outcome(s: PolicyState, obs: Observation, terms: Terms, fuel: nat): seq<Action>
    requires |Remaining(s, obs, terms)| <= fuel
  {
    Remaining(s, obs, terms) + if Quiet(obs) then [] else KeepAlives(obs, fuel - |Remaining(s, obs, terms)|)
  }

  lemma OutcomeTakesOne(s: PolicyState, obs: Observation, terms: Terms, fuel: nat)
    requires Remaining(s, obs, terms) != [] && |Remaining(s, obs, terms)| <= fuel
    ensures var (s', action) := Next(s, obs, terms);
      && action.Some? && |Remaining(s', obs, terms)| <= fuel - 1
      && Outcome(s, obs, terms, fuel) == [action.value] + Outcome(s', obs, terms, fuel - 1)
  {
    var (s', action) := Next(s, obs, terms);
    NextFollowsPlan(s, obs, terms);
    var rest := if Quiet(obs) then [] else KeepAlives(obs, fuel - |Remaining(s, obs, terms)|);
    ConcatAssociates([action.value], Remaining(s', obs, terms), rest);
  }

  lemma OutcomeKeepsAlive(s: PolicyState, obs: Observation, terms: Terms, fuel: nat)
    requires Remaining(s, obs, terms) == [] && fuel > 0
    ensures var (s', action) := Next(s, obs, terms);
      && Remaining(s', obs, terms) == []
      && (action.None? ==> Outcome(s, obs, terms, fuel) == [])
      && (action.Some? ==> Outcome(s, obs, terms, fuel) == [action.value] + Outcome(s', obs, terms, fuel - 1))
  {
    NextFollowsPlan(s, obs, terms);
    OneMoreKeepAlive(obs, fuel - 1);
    assert [] + KeepAlives(obs, fuel) == KeepAlives(obs, fuel);
    assert [] + KeepAlives(obs, fuel - 1) == KeepAlives(obs, fuel - 1);
  }

  lemma {:induction false} RunFollowsPlan(s: PolicyState, obs: Observation, terms: Terms, fuel: nat)
    requires |Remaining(s, obs, terms)| <= fuel
    ensures Run(s, obs, terms, fuel) == Outcome(s, obs, terms, fuel)
    decreases fuel
  {
    if Remaining(s, obs, terms) != [] {
      OutcomeTakesOne(s, obs, terms, fuel);
    } else if fuel > 0 {
      OutcomeKeepsAlive(s, obs, terms, fuel);
    }
    if fuel > 0 && Next(s, obs, terms).1.Some? {
      RunFollowsPlan(Next(s, obs, terms).0, obs, terms, fuel - 1);
    }
  }

  /**
   * The capped loop performs exactly the plan and stops because the policy ran
   * dry, short of the cap, unless interruptions remain in a non-empty inbox: then
   * keep-alives fill the cap.
   */
  lemma RunPolicyIsPlan(obs: Observation, terms: Terms)
    ensures |Plan(obs, terms)| < Cap(obs)
    ensures Quiet(obs) ==> Run(START, obs, terms, Cap(obs)) == Plan(obs, terms)
    ensures !Quiet(obs) ==>
      && |Run(START, obs, terms, Cap(obs))| == Cap(obs)
      && Run(START, obs, terms, Cap(obs)) == Plan(obs, terms) + KeepAlives(obs, Cap(obs) - |Plan(obs, terms)|)
  {
    StartIsWholePlan(obs, terms);
    PlanFitsCap(obs, terms);
    RunFollowsPlan(START, obs, terms, Cap(obs));
  }

  // -- proposals ------------------------------------------------------------------

  predicate NeedsApproval(kind: ActionType) { kind.Reply? || kind.Escalate? }

  predicate PerMessage(a: Action) {
    !a.kind.Prioritize? && a.emailId.Some? && a.emailId.value != ""
  }

  function ToProposal(a: Action): Proposal
    requires PerMessage(a)
  {
    Proposal(a.emailId.value, a.kind, a.content, a.escalateTo, a.labelled, NeedsApproval(a.kind))
  }

  function Proposals(actions: seq<Action>): seq<Proposal> {
    if actions == [] then []
    else (if PerMessage(actions[0]) then [ToProposal(actions[0])] else []) + Proposals(actions[1..])
  }

  method ToProposals(actions: seq<Action>) returns (proposals: seq<Proposal>)
    ensures proposals == Proposals(actions)
  {
    proposals := [];
    for i := 0 to |actions|
      invariant proposals + Proposals(actions[i..]) == Proposals(actions)
    {
      assert actions[i..][1..] == actions[i + 1..];
      if PerMessage(actions[i]) {
        proposals := proposals + [ToProposal(actions[i])];
      }
    }
  }

  /** Everything the copilot proposes for one inbox. */
  function InboxProposals(obs: Observation, terms: Terms): seq<Proposal> {
    Proposals(Plan(obs, terms))
  }

  function ClassifyProposals(emails: seq<Email>, terms: Terms): seq<Proposal> {
    Proposals(Classifications(emails, terms))
  }

  function DecisionProposals(emails: seq<Email>, labels: map<string, Label>): seq<Proposal> {
    Proposals(Decisions(emails, labels))
  }

  lemma {:induction false} ProposalsAppend(a: seq<Action>, b: seq<Action>)
    ensures Proposals(a + b) == Proposals(a) + Proposals(b)
  {
    if a == [] {
      assert a + b == b;
    } else {
      var head := if PerMessage(a[0]) then [ToProposal(a[0])] else [];
      calc {
        Proposals(a + b);
        { assert (a + b)[0] == a[0] && (a + b)[1..] == a[1..] + b; }
        head + Proposals(a[1..] + b);
        { ProposalsAppend(a[1..], b); }
        head + (Proposals(a[1..]) + Proposals(b));
        { ConcatAssociates(head, Proposals(a[1..]), Proposals(b)); }
        Proposals(a) + Proposals(b);
      }
    }
  }

  lemma InboxProposalsSplit(obs: Observation, terms: Terms)
    ensures InboxProposals(obs, terms) ==
      ClassifyProposals(Unseen(obs.emails, {}), terms)
      + DecisionProposals(Unseen(Ranked(obs.emails), {}), Verdicts(obs.emails, map[], terms))
  {
    var c := Classifications(Unseen(obs.emails, {}), terms);
    var d := Decisions(Unseen(Ranked(obs.emails), {}), Verdicts(obs.emails, map[], terms));
    ProposalsAppend(c, d);
    var p := PrioritizeAction(StableSort(OpensBefore, obs.emails));
    assert ([p] + (c + d))[1..] == c + d;
  }

  // -- the plan visits every id once ------------------------------------------------

  predicate DistinctIds(emails: seq<Email>) {
    forall i, j :: 0 <= i < j < |emails| ==> emails[i].id != emails[j].id
  }

  lemma {:induction false} UnseenVisitsOnce(emails: seq<Email>, seen: set<string>)
    ensures DistinctIds(Unseen(emails, seen))
    ensures |Unseen(emails, seen)| <= |emails|
    ensures forall e :: e in Unseen(emails, seen) ==> e in emails && e.id !in seen
  {
    if emails != [] {
      UnseenVisitsOnce(emails[1..], seen);
      UnseenVisitsOnce(emails[1..], seen + {emails[0].id});
    }
  }

  lemma {:induction false} PlanSizes(emails: seq<Email>, labels: map<string, Label>, terms: Terms)
    ensures |Classifications(emails, terms)| == |emails|
    ensures |Decisions(emails, labels)| <= |emails|
  {
    if emails != [] {
      PlanSizes(emails[1..], labels, terms);
    }
  }

  lemma PlanFitsCap(obs: Observation, terms: Terms)
    ensures |Plan(obs, terms)| <= 2 * |obs.emails| + 1
  {
    var verdicts := Verdicts(obs.emails, map[], terms);
    UnseenVisitsOnce(obs.emails, {});
    UnseenVisitsOnce(Ranked(obs.emails), {});
    PlanSizes(Unseen(obs.emails, {}), verdicts, terms);
    PlanSizes(Unseen(Ranked(obs.emails), {}), verdicts, terms);
    SortIsPermutation(HandledBefore, obs.emails);
  }

  /** No two proposals share a message unless one of them is its classification. */
  predicate EachMessageOnce(ps: seq<Proposal>) {
    forall i, j :: 0 <= i < j < |ps| && ps[i].emailId == ps[j].emailId ==>
      ps[i].kind.Classify? != ps[j].kind.Classify?
  }

  predicate DistinctTargets(ps: seq<Proposal>) {
    forall i, j :: 0 <= i < j < |ps| ==> ps[i].emailId != ps[j].emailId
  }

  lemma ClassifyProposalsCons(e: Email, rest: seq<Email>, terms: Terms)
    ensures ClassifyProposals([e] + rest, terms) ==
      (if e.id == "" then [] else [ToProposal(ClassifyAction(e, terms))]) + ClassifyProposals(rest, terms)
  {
    assert ([e] + rest)[1..] == rest;
    var c := ClassifyAction(e, terms);
    assert ([c] + Classifications(rest, terms))[1..] == Classifications(rest, terms);
  }

  lemma DecisionProposalsCons(e: Email, rest: seq<Email>, labels: map<string, Label>)
    ensures DecisionProposals([e] + rest, labels) ==
      (if e.id == "" || LabelOf(labels, e.id).Spam? then []
       else [ToProposal(Decision(e, LabelOf(labels, e.id)))]) + DecisionProposals(rest, labels)
  {
    assert ([e] + rest)[1..] == rest;
    var d := Decision(e, LabelOf(labels, e.id));
    assert ([d] + Decisions(rest, labels))[1..] == Decisions(rest, labels);
    assert [] + Decisions(rest, labels) == Decisions(rest, labels);
  }

  lemma {:induction false} ClassifyTargets(emails: seq<Email>, terms: Terms)
    requires DistinctIds(emails)
    ensures var ps := ClassifyProposals(emails, terms);
      && DistinctTargets(ps)
      && forall p :: p in ps ==> p.kind.Classify? && exists e :: e in emails && e.id == p.emailId
  {
    if emails != [] {
      ClassifyTargets(emails[1..], terms);
      ClassifyProposalsCons(emails[0], emails[1..], terms);
      assert emails == [emails[0]] + emails[1..];
      assert forall e :: e in emails[1..] ==> e in emails && e.id != emails[0].id;
      assert emails[0] in emails;
    }
  }

  lemma TargetsCons(head: seq<Proposal>, later: seq<Proposal>, e: Email, rest: seq<Email>)
    requires DistinctIds([e] + rest) && DistinctTargets(later) && |head| <= 1
    requires forall p :: p in head ==> p.emailId == e.id
    requires forall p :: p in later ==> exists x :: x in rest && x.id == p.emailId
    ensures DistinctTargets(head + later)
    ensures forall p :: p in head + later ==> exists x :: x in [e] + rest && x.id == p.emailId
  {
    var all := [e] + rest;
    assert all[0] == e && e in all;
    forall x | x in rest ensures x in all && x.id != e.id {
      var k :| 0 <= k < |rest| && rest[k] == x;
      assert all[k + 1] == x;
    }
    forall k | 0 <= k < |later| ensures later[k].emailId != e.id && exists x :: x in all && x.id == later[k].emailId {
      assert later[k] in later;
      var x :| x in rest && x.id == later[k].emailId;
      assert x in all;
    }
  }

  lemma {:induction false} DecisionTargets(emails: seq<Email>, labels: map<string, Label>)
    requires DistinctIds(emails)
    ensures var ps := DecisionProposals(emails, labels);
      && DistinctTargets(ps)
      && forall p :: p in ps ==> !p.kind.Classify? && exists e :: e in emails && e.id == p.emailId
  {
    if emails != [] {
      var e, rest := emails[0], emails[1..];
      var verdict := LabelOf(labels, e.id);
      var head := if e.id == "" || verdict.Spam? then [] else [ToProposal(Decision(e, verdict))];
      DecisionTargets(rest, labels);
      DecisionProposalsCons(e, rest, labels);
      assert emails == [e] + rest;
      TargetsCons(head, DecisionProposals(rest, labels), e, rest);
      assert DecisionProposals(emails, labels) == head + DecisionProposals(rest, labels);
    }
  }

  /**
   * The policy proposes each (message, action type) at most once, and at most
   * one of reply, escalate and defer for any message.
   */
  lemma ProposesEachMessageOnce(obs: Observation, terms: Terms)
    ensures EachMessageOnce(InboxProposals(obs, terms))
  {
    InboxProposalsSplit(obs, terms);
    var verdicts := Verdicts(obs.emails, map[], terms);
    UnseenVisitsOnce(obs.emails, {});
    UnseenVisitsOnce(Ranked(obs.emails), {});
    ClassifyTargets(Unseen(obs.emails, {}), terms);
    DecisionTargets(Unseen(Ranked(obs.emails), {}), verdicts);
    var c := ClassifyProposals(Unseen(obs.emails, {}), terms);
    var d := DecisionProposals(Unseen(Ranked(obs.emails), {}), verdicts);
    assert forall i :: 0 <= i < |c| ==> c[i] in c;
    assert forall i :: 0 <= i < |d| ==> d[i] in d;
    forall i, j | 0 <= i < j < |c + d| && (c + d)[i].emailId == (c + d)[j].emailId
      ensures (c + d)[i].kind.Classify? != (c + d)[j].kind.Classify?
    {
      assert j < |c| || i >= |c| || (i < |c| <= j);
    }
  }

  // -- what each message gets --------------------------------------------------------

  function FirstWithId(emails: seq<Email>, id: string): (r: Option<Email>)
    ensures r.Some? ==> r.value.id == id
  {
    if emails == [] then None
    else if emails[0].id == id then Some(emails[0])
    else FirstWithId(emails[1..], id)
  }

  function ProposalsFor(ps: seq<Proposal>, id: string): seq<Proposal> {
    if ps == [] then []
    else (if ps[0].emailId == id then [ps[0]] else []) + ProposalsFor(ps[1..], id)
  }

  lemma {:induction false} ProposalsForAppend(a: seq<Proposal>, b: seq<Proposal>, id: string)
    ensures ProposalsFor(a + b, id) == ProposalsFor(a, id) + ProposalsFor(b, id)
  {
    if a == [] {
      assert a + b == b;
    } else {
      var head := if a[0].emailId == id then [a[0]] else [];
      calc {
        ProposalsFor(a + b, id);
        { assert (a + b)[0] == a[0] && (a + b)[1..] == a[1..] + b; }
        head + ProposalsFor(a[1..] + b, id);
        { ProposalsForAppend(a[1..], b, id); }
        head + (ProposalsFor(a[1..], id) + ProposalsFor(b, id));
        { ConcatAssociates(head, ProposalsFor(a[1..], id), ProposalsFor(b, id)); }
        ProposalsFor(a, id) + ProposalsFor(b, id);
      }
    }
  }

  lemma {:induction false} ClassifyPhaseFor(emails: seq<Email>, seen: set<string>, terms: Terms, id: string)
    requires id != ""
    ensures ProposalsFor(ClassifyProposals(Unseen(emails, seen), terms), id) ==
      if id in seen || FirstWithId(emails, id).None? then []
      else [ToProposal(ClassifyAction(FirstWithId(emails, id).value, terms))]
  {
    if emails != [] {
      var e, rest := emails[0], emails[1..];
      if e.id in seen {
        ClassifyPhaseFor(rest, seen, terms, id);
      } else {
        ClassifyPhaseFor(rest, seen + {e.id}, terms, id);
        var later := Unseen(rest, seen + {e.id});
        ClassifyProposalsCons(e, later, terms);
        ProposalsForAppend(if e.id == "" then [] else [ToProposal(ClassifyAction(e, terms))],
                           ClassifyProposals(later, terms), id);
      }
    }
  }

  lemma {:induction false} DecisionPhaseFor(
      emails: seq<Email>, seen: set<string>, labels: map<string, Label>, id: string)
    requires id != ""
    ensures ProposalsFor(DecisionProposals(Unseen(emails, seen), labels), id) ==
      if id in seen || FirstWithId(emails, id).None? || LabelOf(labels, id).Spam? then []
      else [ToProposal(Decision(FirstWithId(emails, id).value, LabelOf(labels, id)))]
  {
    if emails != [] {
      var e, rest := emails[0], emails[1..];
      if e.id in seen {
        DecisionPhaseFor(rest, seen, labels, id);
      } else {
        DecisionPhaseFor(rest, seen + {e.id}, labels, id);
        var later := Unseen(rest, seen + {e.id});
        DecisionProposalsCons(e, later, labels);
        var verdict := LabelOf(labels, e.id);
        var head := if e.id == "" || verdict.Spam? then [] else [ToProposal(Decision(e, verdict))];
        ProposalsForAppend(head, DecisionProposals(later, labels), id);
        assert ProposalsFor(head, id) == if e.id == id then head else [];
      }
    }
  }

  lemma {:induction false} VerdictIsFirstEmails(
      emails: seq<Email>, labels: map<string, Label>, terms: Terms, id: string)
    ensures
      var verdicts := Verdicts(emails, labels, terms);
      if id in labels then id in verdicts && verdicts[id] == labels[id]
      else match FirstWithId(emails, id)
        case None => id !in verdicts
        case Some(e) => id in verdicts && verdicts[id] == ClassifyHeuristic(e, terms)
  {
    if emails != [] {
      var e := emails[0];
      var labels' := if e.id in labels then labels else labels[e.id := ClassifyHeuristic(e, terms)];
      VerdictIsFirstEmails(emails[1..], labels', terms, id);
    }
  }

  lemma {:induction false} FirstWithIdMember(emails: seq<Email>, id: string)
    ensures FirstWithId(emails, id).Some? <==> exists e :: e in emails && e.id == id
    ensures FirstWithId(emails, id).Some? ==>
      FirstWithId(emails, id).value in emails && FirstWithId(emails, id).value.id == id
  {
    if emails != [] {
      FirstWithIdMember(emails[1..], id);
      assert emails[0] in emails;
    }
  }

  /**
   * Exactly what one message id gets, for any inbox, repeated ids included: its
   * classification by its first email, then, unless that verdict is spam, one
   * decision on its first email in ranked order.
   */
  lemma RoutingOfEachMessage(obs: Observation, terms: Terms, id: string)
    requires id != ""
    ensures match FirstWithId(obs.emails, id)
      case None => ProposalsFor(InboxProposals(obs, terms), id) == []
      case Some(first) =>
        var verdict := ClassifyHeuristic(first, terms);
        var ranked := FirstWithId(Ranked(obs.emails), id);
        && ranked.Some?
        && ProposalsFor(InboxProposals(obs, terms), id) ==
           [ToProposal(ClassifyAction(first, terms))]
           + if verdict.Spam? then [] else [ToProposal(Decision(ranked.value, verdict))]
  {
    InboxProposalsSplit(obs, terms);
    var verdicts := Verdicts(obs.emails, map[], terms);
    ProposalsForAppend(ClassifyProposals(Unseen(obs.emails, {}), terms),
                       DecisionProposals(Unseen(Ranked(obs.emails), {}), verdicts), id);
    ClassifyPhaseFor(obs.emails, {}, terms, id);
    DecisionPhaseFor(Ranked(obs.emails), {}, verdicts, id);
    VerdictIsFirstEmails(obs.emails, map[], terms, id);
    FirstWithIdMember(obs.emails, id);
    FirstWithIdMember(Ranked(obs.emails), id);
    if e :| e in Ranked(obs.emails) && e.id == id {
      SortMembers(HandledBefore, obs.emails, e);
    }
    if FirstWithId(obs.emails, id).Some? {
      SortMembers(HandledBefore, obs.emails, FirstWithId(obs.emails, id).value);
    }
  }

  // -- conservation ------------------------------------------------------------------

  function LiveIds(emails: seq<Email>): set<string> {
    set e | e in emails && e.id != "" :: e.id
  }

  function NotSpamAmong(ids: set<string>, labels: map<string, Label>): set<string> {
    set id | id in ids && !LabelOf(labels, id).Spam?
  }

  lemma LiveIdsCons(e: Email, rest: seq<Email>)
    ensures LiveIds([e] + rest) == (if e.id == "" then {} else {e.id}) + LiveIds(rest)
  {
    forall id ensures id in LiveIds([e] + rest) <==> id in (if e.id == "" then {} else {e.id}) + LiveIds(rest) {
      if id == e.id && id != "" {
        assert e in [e] + rest;
      }
      if x :| x in rest && x.id == id {
        assert x in [e] + rest;
      }
    }
  }

  lemma OneMoreLiveId(e: Email, rest: seq<Email>)
    requires DistinctIds([e] + rest)
    ensures |LiveIds([e] + rest)| == (if e.id == "" then 0 else 1) + |LiveIds(rest)|
  {
    LiveIdsCons(e, rest);
    forall x | x in rest ensures x.id != e.id {
      var k :| 0 <= k < |rest| && rest[k] == x;
      assert ([e] + rest)[k + 1] == x && ([e] + rest)[0] == e;
    }
    assert {} + LiveIds(rest) == LiveIds(rest);
  }

  lemma {:induction false} CountClassifications(emails: seq<Email>, terms: Terms)
    requires DistinctIds(emails)
    ensures |ClassifyProposals(emails, terms)| == |LiveIds(emails)|
  {
    if emails != [] {
      var e, rest := emails[0], emails[1..];
      CountClassifications(rest, terms);
      ClassifyProposalsCons(e, rest, terms);
      assert emails == [e] + rest;
      OneMoreLiveId(e, rest);
    }
  }

  lemma NotSpamWithOneMore(id: string, ids: set<string>, labels: map<string, Label>)
    requires id !in ids
    ensures |NotSpamAmong({id} + ids, labels)| ==
      (if LabelOf(labels, id).Spam? then 0 else 1) + |NotSpamAmong(ids, labels)|
  {
    if LabelOf(labels, id).Spam? {
      assert NotSpamAmong({id} + ids, labels) == NotSpamAmong(ids, labels);
    } else {
      assert NotSpamAmong({id} + ids, labels) == {id} + NotSpamAmong(ids, labels);
    }
  }

  lemma {:induction false} CountDecisions(emails: seq<Email>, labels: map<string, Label>)
    requires DistinctIds(emails)
    ensures |DecisionProposals(emails, labels)| == |NotSpamAmong(LiveIds(emails), labels)|
  {
    if emails == [] {
      assert NotSpamAmong(LiveIds(emails), labels) == {};
    } else {
      var e, rest := emails[0], emails[1..];
      CountDecisions(rest, labels);
      DecisionProposalsCons(e, rest, labels);
      LiveIdsCons(e, rest);
      assert emails == [e] + rest;
      if e.id == "" {
        assert {} + LiveIds(rest) == LiveIds(rest);
      } else {
        NotSpamWithOneMore(e.id, LiveIds(rest), labels);
      }
    }
  }

  lemma {:induction false} UnseenIds(emails: seq<Email>, seen: set<string>)
    ensures LiveIds(Unseen(emails, seen)) == LiveIds(emails) - seen
  {
    if emails != [] {
      var e, rest := emails[0], emails[1..];
      UnseenIds(rest, seen);
      UnseenIds(rest, seen + {e.id});
      LiveIdsCons(e, rest);
      LiveIdsCons(e, Unseen(rest, seen + {e.id}));
      assert emails == [e] + rest;
    }
  }

  /**
   * Conservation, for any inbox: one classification per distinct id plus one
   * decision per distinct id that is not spam; nothing else.
   */
  lemma ProposalCount(obs: Observation, terms: Terms)
    ensures |InboxProposals(obs, terms)| ==
      |LiveIds(obs.emails)| + |NotSpamAmong(LiveIds(obs.emails), Verdicts(obs.emails, map[], terms))|
  {
    InboxProposalsSplit(obs, terms);
    var verdicts := Verdicts(obs.emails, map[], terms);
    UnseenVisitsOnce(obs.emails, {});
    UnseenVisitsOnce(Ranked(obs.emails), {});
    CountClassifications(Unseen(obs.emails, {}), terms);
    CountDecisions(Unseen(Ranked(obs.emails), {}), verdicts);
    UnseenIds(obs.emails, {});
    UnseenIds(Ranked(obs.emails), {});
    SortKeepsMembers(HandledBefore, obs.emails);
    assert LiveIds(Ranked(obs.emails)) == LiveIds(obs.emails);
  }

  predicate DistinctInbox(emails: seq<Email>) {
    DistinctIds(emails) && forall e :: e in emails ==> e.id != ""
  }

  lemma {:induction false} DistinctIdCount(emails: seq<Email>)
    requires DistinctInbox(emails)
    ensures |LiveIds(emails)| == |emails|
  {
    if emails != [] {
      DistinctIdCount(emails[1..]);
      LiveIdsCons(emails[0], emails[1..]);
      assert emails == [emails[0]] + emails[1..];
    }
  }

  lemma {:induction false} FirstOfDistinct(emails: seq<Email>, e: Email)
    requires DistinctIds(emails) && e in emails
    ensures FirstWithId(emails, e.id) == Some(e)
  {
    if emails[0] != e {
      FirstOfDistinct(emails[1..], e);
    }
  }

  /** For n distinct ids: 2n minus the number of spam messages. */
  lemma ProposalCountOfDistinctInbox(obs: Observation, terms: Terms)
    requires DistinctInbox(obs.emails)
    ensures |InboxProposals(obs, terms)| ==
      2 * |obs.emails| - |set e | e in obs.emails && ClassifyHeuristic(e, terms).Spam? :: e.id|
  {
    ProposalCount(obs, terms);
    DistinctIdCount(obs.emails);
    var verdicts := Verdicts(obs.emails, map[], terms);
    var spam := set e | e in obs.emails && ClassifyHeuristic(e, terms).Spam? :: e.id;
    forall e | e in obs.emails ensures LabelOf(verdicts, e.id) == ClassifyHeuristic(e, terms) {
      FirstOfDistinct(obs.emails, e);
      VerdictIsFirstEmails(obs.emails, map[], terms, e.id);
    }
    forall id | id in LiveIds(obs.emails) ensures id in spam <==> LabelOf(verdicts, id).Spam? {
      var e :| e in obs.emails && e.id == id;
      if id in spam {
        var e' :| e' in obs.emails && ClassifyHeuristic(e', terms).Spam? && e'.id == id;
        FirstOfDistinct(obs.emails, e);
        FirstOfDistinct(obs.emails, e');
      }
    }
    assert LiveIds(obs.emails) == spam + NotSpamAmong(LiveIds(obs.emails), verdicts);
  }

  lemma {:induction false} HeldIffExternal(actions: seq<Action>)
    ensures forall p :: p in Proposals(actions) ==> (p.requiresApproval <==> p.kind.Reply? || p.kind.Escalate?)
  {
    if actions != [] {
      HeldIffExternal(actions[1..]);
    }
  }

  /** The verdict on a fetched message, told by its words: spam first, then risk or urgency, else normal. */
  lemma VerdictOfFetchedMessage(m: FetchedMessage, accountEmail: string, terms: Terms)
    ensures
      var text := Lower(m.subject + " " + m.body);
      var verdict := ClassifyHeuristic(EnrichMessage(m, accountEmail, terms), terms);
      && (verdict.Spam? <==> AnyTerm(terms.spam, text))
      && (verdict.Urgent? <==>
            !AnyTerm(terms.spam, text)
            && (RiskTagOf(text) == Legal || RiskTagOf(text) == Security || AnyTerm(terms.urgent, text)))
  {
  }

  /** What one fetched message gets, by its verdict and its risk. */
  predicate Routed(mine: seq<Proposal>, id: string, verdict: Label, tag: RiskTag) {
    && 1 <= |mine| <= 2 && mine[0].emailId == id && mine[0].kind.Classify? && mine[0].labelled == Some(verdict)
    && !mine[0].requiresApproval
    && (verdict.Spam? <==> |mine| == 1)
    && (|mine| == 2 ==>
          && mine[1].emailId == id && mine[1].labelled.None?
          && if verdict.Urgent? && (tag.Legal? || tag.Security?) then
               && mine[1].kind.Escalate? && mine[1].requiresApproval
               && mine[1].escalateTo == Some(if tag.Legal? then "legal_team" else "chief_of_staff")
             else if verdict.Urgent? then
               && mine[1].kind.Reply? && mine[1].requiresApproval && mine[1].escalateTo.None?
               && mine[1].content == Some("Acknowledged. We are treating this as urgent and will share a concrete "
                                          + "timeline with mitigation details shortly.")
             else
               mine[1].kind.Defer? && !mine[1].requiresApproval && mine[1].content.None? && mine[1].escalateTo.None?)
  }

  /**
   * End to end from the raw message, for every verdict: spam is only classified;
   * urgent legal or security mail is escalated once, held; other urgent mail gets
   * one held reply; the rest is deferred without asking.
   */
  lemma RoutingOfFetchedMessage(ms: seq<FetchedMessage>, accountEmail: string, terms: Terms, i: nat)
    requires i < |ms| && DistinctInbox(EnrichAll(ms, accountEmail, terms))
    ensures
      var obs := ToObservation(ms, accountEmail, terms);
      var mine := ProposalsFor(InboxProposals(obs, terms), ms[i].providerId);
      var verdict := ClassifyHeuristic(obs.emails[i], terms);
      && Routed(mine, ms[i].providerId, verdict, obs.emails[i].riskTag)
      && (Grave(obs.emails[i].riskTag) ==> !verdict.Normal?)
  {
    var obs := ToObservation(ms, accountEmail, terms);
    var e := obs.emails[i];
    assert e.id == ms[i].providerId && e in obs.emails;
    RoutingOfEachMessage(obs, terms, e.id);
    FirstOfDistinct(obs.emails, e);
    var ranked := FirstWithId(Ranked(obs.emails), e.id).value;
    FirstWithIdMember(Ranked(obs.emails), e.id);
    SortMembers(HandledBefore, obs.emails, ranked);
    FirstOfDistinct(obs.emails, ranked);
  }

  lemma {:induction false} ProposalsForMember(ps: seq<Proposal>, p: Proposal)
    requires p in ps
    ensures p in ProposalsFor(ps, p.emailId)
  {
    if p != ps[0] {
      ProposalsForMember(ps[1..], p);
    }
  }

  /** Only a classification carries a verdict. */
  predicate LabelledAsClassified(ps: seq<Proposal>) {
    forall p :: p in ps ==> (p.labelled.Some? <==> p.kind.Classify?)
  }

  lemma {:induction false} ClassifyProposalsAreLabelled(emails: seq<Email>, terms: Terms)
    ensures LabelledAsClassified(ClassifyProposals(emails, terms))
  {
    if emails != [] {
      ClassifyProposalsAreLabelled(emails[1..], terms);
      ClassifyProposalsCons(emails[0], emails[1..], terms);
      assert emails == [emails[0]] + emails[1..];
    }
  }

  lemma {:induction false} DecisionProposalsAreNot(emails: seq<Email>, labels: map<string, Label>)
    ensures LabelledAsClassified(DecisionProposals(emails, labels))
  {
    if emails != [] {
      DecisionProposalsAreNot(emails[1..], labels);
      DecisionProposalsCons(emails[0], emails[1..], labels);
      assert emails == [emails[0]] + emails[1..];
    }
  }

  lemma InboxProposalsAreLabelled(obs: Observation, terms: Terms)
    ensures LabelledAsClassified(InboxProposals(obs, terms))
  {
    var verdicts := Verdicts(obs.emails, map[], terms);
    InboxProposalsSplit(obs, terms);
    ClassifyProposalsAreLabelled(Unseen(obs.emails, {}), terms);
    DecisionProposalsAreNot(Unseen(Ranked(obs.emails), {}), verdicts);
  }

  // -- the order of the proposals --------------------------------------------------------------------

  predicate InRankOrder(emails: seq<Email>) {
    forall i, j :: 0 <= i < j < |emails| ==> AsPressing(emails[i], emails[j])
  }

  lemma {:induction false} UnseenKeepsOrder(emails: seq<Email>, seen: set<string>)
    requires InRankOrder(emails)
    ensures InRankOrder(Unseen(emails, seen))
  {
    if emails != [] {
      var e, rest := emails[0], emails[1..];
      assert forall i :: 0 <= i < |rest| ==> rest[i] == emails[i + 1];
      if e.id in seen {
        UnseenKeepsOrder(rest, seen);
      } else {
        var later := Unseen(rest, seen + {e.id});
        UnseenKeepsOrder(rest, seen + {e.id});
        UnseenVisitsOnce(rest, seen + {e.id});
        forall k | 0 <= k < |later| ensures AsPressing(e, later[k]) {
          assert later[k] in later && later[k] in rest;
        }
      }
    }
  }

  /** Some two emails these proposals are about, the first no less pressing. */
  ghost predicate ComesFirst(p: Proposal, q: Proposal, emails: seq<Email>) {
    exists x, y :: x in emails && y in emails && x.id == p.emailId && y.id == q.emailId && AsPressing(x, y)
  }

  lemma {:induction false} DecisionIsAbout(emails: seq<Email>, labels: map<string, Label>, p: Proposal)
    returns (e: Email)
    requires p in DecisionProposals(emails, labels)
    ensures e in emails && e.id == p.emailId && !p.kind.Classify?
  {
    DecisionProposalsCons(emails[0], emails[1..], labels);
    assert emails == [emails[0]] + emails[1..];
    if p in DecisionProposals(emails[1..], labels) {
      e := DecisionIsAbout(emails[1..], labels, p);
    } else {
      e := emails[0];
    }
  }

  ghost predicate ComeInOrder(ps: seq<Proposal>, emails: seq<Email>) {
    forall i, j :: 0 <= i < j < |ps| ==> ComesFirst(ps[i], ps[j], emails)
  }

  lemma OrderCons(p: Proposal, later: seq<Proposal>, e: Email, rest: seq<Email>)
    requires ComeInOrder(later, rest) && p.emailId == e.id
    requires forall q :: q in later ==> exists y :: y in rest && y.id == q.emailId
    requires forall y :: y in rest ==> AsPressing(e, y)
    ensures ComeInOrder([p] + later, [e] + rest)
  {
    var ps, emails := [p] + later, [e] + rest;
    OrderWidens(later, e, rest);
    forall j | 0 <= j < |later| ensures ComesFirst(p, later[j], emails) {
      assert later[j] in later;
      var y :| y in rest && y.id == later[j].emailId;
      assert e in emails && y in emails;
    }
    forall i, j | 0 <= i < j < |ps| ensures ComesFirst(ps[i], ps[j], emails) {
      assert ps[j] == later[j - 1];
      if i > 0 {
        assert ps[i] == later[i - 1];
      }
    }
  }

  lemma OrderWidens(ps: seq<Proposal>, e: Email, rest: seq<Email>)
    requires ComeInOrder(ps, rest)
    ensures ComeInOrder(ps, [e] + rest)
  {
    forall i, j | 0 <= i < j < |ps| ensures ComesFirst(ps[i], ps[j], [e] + rest) {
      assert ComesFirst(ps[i], ps[j], rest);
    }
  }

  lemma {:induction false} DecisionsComeInOrder(emails: seq<Email>, labels: map<string, Label>)
    requires InRankOrder(emails)
    ensures ComeInOrder(DecisionProposals(emails, labels), emails)
  {
    if emails != [] {
      var e, rest := emails[0], emails[1..];
      assert forall i :: 0 <= i < |rest| ==> rest[i] == emails[i + 1];
      DecisionsComeInOrder(rest, labels);
      DecisionProposalsCons(e, rest, labels);
      assert emails == [e] + rest;
      OrderWidens(DecisionProposals(rest, labels), e, rest);
      if e.id != "" && !LabelOf(labels, e.id).Spam? {
        forall q | q in DecisionProposals(rest, labels) ensures exists y :: y in rest && y.id == q.emailId {
          var y := DecisionIsAbout(rest, labels, q);
        }
        OrderCons(ToProposal(Decision(e, LabelOf(labels, e.id))), DecisionProposals(rest, labels), e, rest);
      }
    }
  }

  lemma {:induction false} ClassifyOnly(emails: seq<Email>, terms: Terms)
    ensures forall p :: p in ClassifyProposals(emails, terms) ==> p.kind.Classify?
  {
    if emails != [] {
      ClassifyOnly(emails[1..], terms);
      ClassifyProposalsCons(emails[0], emails[1..], terms);
      assert emails == [emails[0]] + emails[1..];
    }
  }

  /**
   * Every verdict is proposed before anything is decided, and what is decided comes
   * most pressing first: so that is the order in which drafts are paid for.
   */
  lemma MostPressingComesFirst(obs: Observation, terms: Terms, i: nat, j: nat)
    requires i < j < |InboxProposals(obs, terms)|
    ensures
      var (p, q) := (InboxProposals(obs, terms)[i], InboxProposals(obs, terms)[j]);
      && (q.kind.Classify? ==> p.kind.Classify?)
      && (!p.kind.Classify? ==> ComesFirst(p, q, obs.emails))
  {
    var ranked, verdicts := Unseen(Ranked(obs.emails), {}), Verdicts(obs.emails, map[], terms);
    var c, d := ClassifyProposals(Unseen(obs.emails, {}), terms), DecisionProposals(ranked, verdicts);
    InboxProposalsSplit(obs, terms);
    ClassifyOnly(Unseen(obs.emails, {}), terms);
    SortIsOrdered(HandledBefore, obs.emails);
    UnseenKeepsOrder(Ranked(obs.emails), {});
    DecisionsComeInOrder(ranked, verdicts);
    var n := |c|;
    var ps := InboxProposals(obs, terms);
    assert ps[j] == if j < n then c[j] else d[j - n];
    if i < n {
      assert ps[i] == c[i] && c[i] in c;
    } else {
      assert ComesFirst(d[i - n], d[j - n], ranked);
      var x, y :| x in ranked && y in ranked && x.id == d[i - n].emailId && y.id == d[j - n].emailId
                  && AsPressing(x, y);
      UnseenVisitsOnce(Ranked(obs.emails), {});
      SortMembers(HandledBefore, obs.emails, x);
      SortMembers(HandledBefore, obs.emails, y);
      var e := DecisionIsAbout(ranked, verdicts, d[i - n]);
      if ps[j].kind.Classify? {
        var e' := DecisionIsAbout(ranked, verdicts, d[j - n]);
      }
    }
  }
}
