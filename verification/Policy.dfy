// The deterministic triage policy (app/copilot/policy.py): a state machine that
// hands out one action per call, and the one-shot plan it amounts to.
module Policy {
  import opened Prelude
  import opened Mail
  import opened Enrich
  import opened Sorting

  const URGENT_REPLY :=
    "Acknowledged. We are treating this as urgent and will share a concrete " +
    "timeline with mitigation details shortly."

  // -- ranking ------------------------------------------------------------------

  /** Descending by (high priority, business value, sooner deadline). */
  predicate OpensBefore(x: Email, y: Email) {
    if x.priorityHint.High? != y.priorityHint.High? then x.priorityHint.High?
    else if x.businessValue != y.businessValue then x.businessValue > y.businessValue
    else x.deadlineMinutes < y.deadlineMinutes
  }

  /** Descending by (high priority, sooner deadline, business value). */
  predicate HandledBefore(x: Email, y: Email) {
    if x.priorityHint.High? != y.priorityHint.High? then x.priorityHint.High?
    else if x.deadlineMinutes != y.deadlineMinutes then x.deadlineMinutes < y.deadlineMinutes
    else x.businessValue > y.businessValue
  }

  function Ranked(emails: seq<Email>): seq<Email> { StableSort(HandledBefore, emails) }

  /** Neither is handled before the other. */
  predicate SameRank(x: Email, y: Email) {
    x.priorityHint.High? == y.priorityHint.High? && x.deadlineMinutes == y.deadlineMinutes
      && x.businessValue == y.businessValue
  }

  /** No less pressing: high priority first, then the sooner deadline, then the higher business value. */
  predicate AsPressing(x: Email, y: Email) {
    && (y.priorityHint.High? ==> x.priorityHint.High?)
    && (x.priorityHint.High? == y.priorityHint.High? ==>
          && x.deadlineMinutes <= y.deadlineMinutes
          && (x.deadlineMinutes == y.deadlineMinutes ==> x.businessValue >= y.businessValue))
  }

  /** The ranking loses and repeats nothing, puts the more pressing first, and keeps inbox order among equals. */
  lemma RankedIsStableByUrgency(emails: seq<Email>, e: Email)
    ensures multiset(Ranked(emails)) == multiset(emails)
    ensures forall i, j :: 0 <= i < j < |Ranked(emails)| ==> AsPressing(Ranked(emails)[i], Ranked(emails)[j])
    ensures Filter(x => SameRank(x, e), Ranked(emails)) == Filter(x => SameRank(x, e), emails)
  {
    SortIsPermutation(HandledBefore, emails);
    SortIsOrdered(HandledBefore, emails);
    SortIsStable(HandledBefore, emails, x => SameRank(x, e));
  }

  /** The opening ranking asks for value before deadline. */
  predicate AsValuable(x: Email, y: Email) {
    && (y.priorityHint.High? ==> x.priorityHint.High?)
    && (x.priorityHint.High? == y.priorityHint.High? ==>
          && x.businessValue >= y.businessValue
          && (x.businessValue == y.businessValue ==> x.deadlineMinutes <= y.deadlineMinutes))
  }

  /** The first action orders the whole inbox by priority, then value, then deadline. */
  lemma OpeningRanksByValue(obs: Observation, terms: Terms)
    ensures
      var opening := Next(START, obs, terms).1;
      exists order :: && multiset(order) == multiset(obs.emails)
                      && (forall i, j :: 0 <= i < j < |order| ==> AsValuable(order[i], order[j]))
                      && opening == Some(Action(Prioritize, None, None, None, Ids(order), None))
  {
    var order := StableSort(OpensBefore, obs.emails);
    SortIsPermutation(OpensBefore, obs.emails);
    SortIsOrdered(OpensBefore, obs.emails);
    assert forall i, j :: 0 <= i < j < |order| ==> AsValuable(order[i], order[j]);
    assert Next(START, obs, terms).1 == Some(Action(Prioritize, None, None, None, Ids(order), None));
  }

  function Ids(emails: seq<Email>): seq<string> { Map((e: Email) => e.id, emails) }

  // -- single actions -------------------------------------------------------------

  function PrioritizeAction(order: seq<Email>): Action {
    Action(Prioritize, None, None, None, Ids(order), None)
  }

  function ClassifyAction(e: Email, terms: Terms): Action {
    Action(Classify, Some(e.id), Some(ClassifyHeuristic(e, terms)), None, [], None)
  }

  function LabelOf(labels: map<string, Label>, id: string): Label {
    if id in labels then labels[id] else Normal
  }

  /** What is done with an email whose verdict is not spam. */
  function Decision(e: Email, verdict: Label): Action {
    if verdict.Urgent? && Grave(e.riskTag) then
      Action(Escalate, Some(e.id), None, None, [], Some(EscalationRoleFor(e.riskTag)))
    else if verdict.Urgent? then
      Action(Reply, Some(e.id), None, Some(URGENT_REPLY), [], None)
    else
      Action(Defer, Some(e.id), None, None, [], None)
  }

  // -- the stateful policy ----------------------------------------------------------

  datatype PolicyState = PolicyState(
    didPrioritize: bool, labels: map<string, Label>, handled: set<string>)

  const START := PolicyState(false, map[], {})

  /** First email whose id has no verdict yet. */
  function FirstUnlabelled(emails: seq<Email>, labels: map<string, Label>): Option<Email> {
    if emails == [] then None
    else if emails[0].id !in labels then Some(emails[0])
    else FirstUnlabelled(emails[1..], labels)
  }

  /** One scan of the ranked inbox: the ids it marks handled and the action it stops on. */
  function HandleNext(ranked: seq<Email>, labels: map<string, Label>, handled: set<string>)
    : (set<string>, Option<Action>)
  {
    if ranked == [] then (handled, None)
    else
      var e := ranked[0];
      if e.id in handled then HandleNext(ranked[1..], labels, handled)
      else if LabelOf(labels, e.id).Spam? then HandleNext(ranked[1..], labels, handled + {e.id})
      else (handled + {e.id}, Some(Decision(e, LabelOf(labels, e.id))))
  }

  function Next(s: PolicyState, obs: Observation, terms: Terms): (PolicyState, Option<Action>) {
    if !s.didPrioritize then
      (s.(didPrioritize := true), Some(PrioritizeAction(StableSort(OpensBefore, obs.emails))))
    else
      match FirstUnlabelled(obs.emails, s.labels)
      case Some(e) =>
        (s.(labels := s.labels[e.id := ClassifyHeuristic(e, terms)]), Some(ClassifyAction(e, terms)))
      case None =>
        var (handled, action) := HandleNext(Ranked(obs.emails), s.labels, s.handled);
        (s.(handled := handled),
         if action.Some? then action
         else if obs.remainingInterruptions > 0 && obs.emails != [] then
           Some(PrioritizeAction(Ranked(obs.emails)))
         else None)
  }

  class BaselinePolicy {
    const terms: Terms
    var didPrioritize: bool
    var predictedLabels: map<string, Label>
    var handledIds: set<string>

    function State(): PolicyState
      reads this
    {
      PolicyState(didPrioritize, predictedLabels, handledIds)
    }

    constructor (terms: Terms)
      ensures State() == START && this.terms == terms
    {
      this.terms := terms;
      didPrioritize, predictedLabels, handledIds := false, map[], {};
    }

    method NextAction(obs: Observation) returns (action: Option<Action>)
      modifies this
      ensures (State(), action) == Next(old(State()), obs, terms)
    {
      if !didPrioritize {
        didPrioritize := true;
        return Some(PrioritizeAction(StableSort(OpensBefore, obs.emails)));
      }
      for i := 0 to |obs.emails|
        invariant FirstUnlabelled(obs.emails[i..], predictedLabels) ==
                  FirstUnlabelled(obs.emails, predictedLabels)
        invariant State() == old(State())
      {
        var email := obs.emails[i];
        assert obs.emails[i..][1..] == obs.emails[i + 1..];
        if email.id !in predictedLabels {
          predictedLabels := predictedLabels[email.id := ClassifyHeuristic(email, terms)];
          return Some(ClassifyAction(email, terms));
        }
      }
      var ranked := Ranked(obs.emails);
      for i := 0 to |ranked|
        invariant HandleNext(ranked[i..], predictedLabels, handledIds) ==
                  HandleNext(ranked, predictedLabels, old(handledIds))
        invariant didPrioritize && predictedLabels == old(predictedLabels)
      {
        var email := ranked[i];
        assert ranked[i..][1..] == ranked[i + 1..];
        if email.id !in handledIds {
          handledIds := handledIds + {email.id};
          var verdict := LabelOf(predictedLabels, email.id);
          if !verdict.Spam? {
            return Some(Decision(email, verdict));
          }
        }
      }
      if obs.remainingInterruptions > 0 && obs.emails != [] {
        return Some(PrioritizeAction(ranked));
      }
      return None;
    }
  }

  // -- the plan the calls amount to -----------------------------------------------

  /** First occurrence of every id not in `seen`, in order. */
  function Unseen(emails: seq<Email>, seen: set<string>): seq<Email> {
    if emails == [] then []
    else if emails[0].id in seen then Unseen(emails[1..], seen)
    else [emails[0]] + Unseen(emails[1..], seen + {emails[0].id})
  }

  /** The classifier's verdict on each id: that of its first email in inbox order. */
  function Verdicts(emails: seq<Email>, labels: map<string, Label>, terms: Terms): map<string, Label> {
    if emails == [] then labels
    else if emails[0].id in labels then Verdicts(emails[1..], labels, terms)
    else Verdicts(emails[1..], labels[emails[0].id := ClassifyHeuristic(emails[0], terms)], terms)
  }

  function Classifications(emails: seq<Email>, terms: Terms): seq<Action> {
    if emails == [] then []
    else [ClassifyAction(emails[0], terms)] + Classifications(emails[1..], terms)
  }

  /** One decision per email whose verdict is not spam. */
  function Decisions(emails: seq<Email>, labels: map<string, Label>): seq<Action> {
    if emails == [] then []
    else
      var verdict := LabelOf(labels, emails[0].id);
      (if verdict.Spam? then [] else [Decision(emails[0], verdict)]) + Decisions(emails[1..], labels)
  }

  /**
   * One prioritize; one classify per distinct id in inbox order; one
   * escalate, reply or defer per distinct non-spam id in ranked order.
   */
  function Plan(obs: Observation, terms: Terms): seq<Action> {
    [PrioritizeAction(StableSort(OpensBefore, obs.emails))]
    + (Classifications(Unseen(obs.emails, {}), terms)
       + Decisions(Unseen(Ranked(obs.emails), {}), Verdicts(obs.emails, map[], terms)))
  }

  /** What is left of the plan in state `s`. */
  function Remaining(s: PolicyState, obs: Observation, terms: Terms): seq<Action> {
    (if s.didPrioritize then [] else [PrioritizeAction(StableSort(OpensBefore, obs.emails))])
    + RemainingWork(s, obs, terms)
  }

  function RemainingWork(s: PolicyState, obs: Observation, terms: Terms): seq<Action> {
    Classifications(Unseen(obs.emails, s.labels.Keys), terms)
    + Decisions(Unseen(Ranked(obs.emails), s.handled), Verdicts(obs.emails, s.labels, terms))
  }

  // -- each call takes one action off the plan ---------------------------------------

  lemma {:induction false} UnlabelledStep(emails: seq<Email>, labels: map<string, Label>, terms: Terms)
    ensures match FirstUnlabelled(emails, labels)
      case None => Unseen(emails, labels.Keys) == [] && Verdicts(emails, labels, terms) == labels
      case Some(e) =>
        var labels' := labels[e.id := ClassifyHeuristic(e, terms)];
        && Unseen(emails, labels.Keys) == [e] + Unseen(emails, labels'.Keys)
        && Verdicts(emails, labels, terms) == Verdicts(emails, labels', terms)
  {
    if emails != [] {
      UnlabelledStep(emails[1..], labels, terms);
      if emails[0].id !in labels {
        assert labels[emails[0].id := ClassifyHeuristic(emails[0], terms)].Keys == labels.Keys + {emails[0].id};
      }
    }
  }

  lemma {:induction false} HandleStep(ranked: seq<Email>, labels: map<string, Label>, handled: set<string>)
    ensures var (handled', action) := HandleNext(ranked, labels, handled);
      && handled <= handled'
      && match action
         case None => Decisions(Unseen(ranked, handled), labels) == Decisions(Unseen(ranked, handled'), labels) == []
         case Some(a) => Decisions(Unseen(ranked, handled), labels) == [a] + Decisions(Unseen(ranked, handled'), labels)
  {
    if ranked != [] {
      var e, rest := ranked[0], ranked[1..];
      if e.id in handled {
        HandleStep(rest, labels, handled);
      } else if LabelOf(labels, e.id).Spam? {
        HandleStep(rest, labels, handled + {e.id});
        assert ([e] + Unseen(rest, handled + {e.id}))[1..] == Unseen(rest, handled + {e.id});
      } else {
        var later := Unseen(rest, handled + {e.id});
        assert ([e] + later)[1..] == later;
      }
    }
  }

  lemma UnlabelledTakesOne(s: PolicyState, obs: Observation, terms: Terms, e: Email)
    requires FirstUnlabelled(obs.emails, s.labels) == Some(e)
    ensures var s' := s.(labels := s.labels[e.id := ClassifyHeuristic(e, terms)]);
      RemainingWork(s, obs, terms) == [ClassifyAction(e, terms)] + RemainingWork(s', obs, terms)
  {
    UnlabelledStep(obs.emails, s.labels, terms);
    var s' := s.(labels := s.labels[e.id := ClassifyHeuristic(e, terms)]);
    var later := Unseen(obs.emails, s'.labels.Keys);
    assert ([e] + later)[1..] == later;
  }

  /** Every call yields the next action of the plan, and runs dry exactly at its end. */
  lemma NextFollowsPlan(s: PolicyState, obs: Observation, terms: Terms)
    ensures var (s', action) := Next(s, obs, terms);
      if Remaining(s, obs, terms) != []
      then action.Some? && Remaining(s, obs, terms) == [action.value] + Remaining(s', obs, terms)
      else && Remaining(s', obs, terms) == []
           && action == if obs.remainingInterruptions > 0 && obs.emails != []
                        then Some(PrioritizeAction(Ranked(obs.emails))) else None
  {
    if s.didPrioritize {
      match FirstUnlabelled(obs.emails, s.labels)
      case Some(e) => UnlabelledTakesOne(s, obs, terms, e);
      case None =>
        UnlabelledStep(obs.emails, s.labels, terms);
        HandleStep(Ranked(obs.emails), s.labels, s.handled);
        var scan := HandleNext(Ranked(obs.emails), s.labels, s.handled);
        var s' := Next(s, obs, terms).0;
        assert s' == s.(handled := scan.0);
        assert scan.1.None? <==> Decisions(Unseen(Ranked(obs.emails), s.handled), s.labels) == [];
        assert forall h :: [] + ([] + Decisions(Unseen(Ranked(obs.emails), h), s.labels))
                           == Decisions(Unseen(Ranked(obs.emails), h), s.labels);
        assert Remaining(s, obs, terms) == Decisions(Unseen(Ranked(obs.emails), s.handled), s.labels);
        assert Remaining(s', obs, terms) == Decisions(Unseen(Ranked(obs.emails), s'.handled), s.labels);
    }
  }

  lemma StartIsWholePlan(obs: Observation, terms: Terms)
    ensures Remaining(START, obs, terms) == Plan(obs, terms)
  {
    assert START.labels.Keys == {};
  }
}
