// Signals inferred from the message itself (app/copilot/enrich.py) and the
// keyword classifier that reads the same vocabulary (app/core/utils.py).
module Enrich {
  import opened Prelude
  import opened Text
  import opened Mail

  /** `classifier_terms` of data/settings.yaml, already lower-cased. */
  datatype Terms = Terms(spam: seq<string>, urgent: seq<string>)

  predicate AnyTerm(terms: seq<string>, text: string) {
    exists i :: 0 <= i < |terms| && Contains(text, terms[i])
  }

  function ClassifyHeuristic(e: Email, terms: Terms): Label {
    var text := Lower(e.subject + " " + e.body);
    if AnyTerm(terms.spam, text) then Spam
    else if e.priorityHint.High? || Grave(e.riskTag) then Urgent
    else if AnyTerm(terms.urgent, text) then Urgent
    else Normal
  }

  // -- risk -------------------------------------------------------------------

  /** Most severe first: on a tie the earlier tag wins. */
  const RISK_TAGS: seq<RiskTag> := [Legal, Security, Ops, Finance]

  function TermsFor(tag: RiskTag): seq<string> {
    match tag
    case Legal =>
      ["contract", "contracts", "contractual", "legal*", "lawsuit*", "liability", "nda", "indemnif*", "compliance",
        "gdpr"]
    case Security => ["breach*", "security", "phishing", "malware", "credential*", "vulnerab*", "ransomware"]
    case Ops => ["outage*", "downtime", "incident*", "deploy*", "sla"]
    case Finance => ["invoice*", "payment*", "wire transfer", "refund*", "billing", "forecast*", "budget*"]
    case NoRisk => []
  }

  /** `\b`: exactly one side of position `i` is a word character. */
  predicate Boundary(text: string, i: nat)
    requires i <= |text|
  {
    (i > 0 && IsWordChar(text[i - 1])) != (i < |text| && IsWordChar(text[i]))
  }

  /** A trailing `*` matches the word family of the stem, anything else a whole word. */
  predicate TermMatchesAt(term: string, text: string, i: nat)
    requires i <= |text|
  {
    && Boundary(text, i)
    && if term != "" && term[|term| - 1] == '*'
       then StartsWithAt(text, i, term[..|term| - 1])
       else StartsWithAt(text, i, term) && Boundary(text, i + |term|)
  }

  predicate TermMatches(term: string, text: string) {
    exists i: nat :: i <= |text| && TermMatchesAt(term, Lower(text), i)
  }

  /** How many distinct terms of a tag the text matches. */
  function Score(terms: seq<string>, text: string): nat {
    if terms == [] then 0
    else (if TermMatches(terms[0], text) then 1 else 0) + Score(terms[1..], text)
  }

  function Scores(text: string): (scores: seq<nat>)
    ensures |scores| == |RISK_TAGS|
  {
    seq(|RISK_TAGS|, i requires 0 <= i < |RISK_TAGS| => Score(TermsFor(RISK_TAGS[i]), text))
  }

  /** The leader among these scores, if any is positive, and its score. */
  function Leader(scores: seq<nat>): (r: (Option<nat>, nat))
    ensures r.0.Some? ==> r.0.value < |scores|
  {
    if scores == [] then (None, 0)
    else
      var n := |scores| - 1;
      var best := Leader(scores[..n]);
      if scores[n] > best.1 then (Some(n), scores[n]) else best
  }

  function TagAt(leader: Option<nat>): RiskTag {
    if leader.Some? && leader.value < |RISK_TAGS| then RISK_TAGS[leader.value] else NoRisk
  }

  function RiskTagOf(text: string): RiskTag { TagAt(Leader(Scores(text)).0) }

  /** The scoring loop. */
  method InferRiskTag(text: string) returns (best: RiskTag)
    ensures best == RiskTagOf(text)
  {
    best := NoRisk;
    var bestScore := 0;
    ghost var scores := Scores(text);
    for i := 0 to |RISK_TAGS|
      invariant best == TagAt(Leader(scores[..i]).0) && bestScore == Leader(scores[..i]).1
    {
      assert scores[..i + 1][..i] == scores[..i];
      var score := Score(TermsFor(RISK_TAGS[i]), text);
      assert score == scores[i];
      if score > bestScore {
        best, bestScore := RISK_TAGS[i], score;
      }
    }
    assert scores[..|RISK_TAGS|] == scores;
  }

  lemma {:induction false} LeaderIsFirstMaximum(scores: seq<nat>)
    ensures match Leader(scores)
      case (None, best) => best == 0 && forall j :: 0 <= j < |scores| ==> scores[j] == 0
      case (Some(k), best) =>
        && k < |scores| && best == scores[k] > 0
        && (forall j :: 0 <= j < |scores| ==> scores[j] <= scores[k])
        && (forall j :: 0 <= j < k ==> scores[j] < scores[k])
  {
    if scores != [] {
      var n := |scores| - 1;
      LeaderIsFirstMaximum(scores[..n]);
      assert forall j :: 0 <= j < n ==> scores[..n][j] == scores[j];
    }
  }

  /**
   * The tag with the most distinct matches wins and ties go to the more severe
   * tag; a message is untagged exactly when no term of any tag matches.
   */
  lemma RiskTagIsMostEvidence(text: string)
    ensures
      var scores := Scores(text);
      && (RiskTagOf(text) == NoRisk <==> forall j :: 0 <= j < |scores| ==> scores[j] == 0)
      && (RiskTagOf(text) != NoRisk ==>
            exists k :: && 0 <= k < |RISK_TAGS| && RISK_TAGS[k] == RiskTagOf(text) && scores[k] > 0
                        && (forall j :: 0 <= j < |scores| ==> scores[j] <= scores[k])
                        && (forall j :: 0 <= j < k ==> scores[j] < scores[k]))
  {
    LeaderIsFirstMaximum(Scores(text));
    assert forall j :: 0 <= j < |RISK_TAGS| ==> RISK_TAGS[j] != NoRisk;
  }

  // -- sender, priority, enrichment -------------------------------------------

  predicate IsFreemail(domain: string) {
    domain in {"gmail.com", "outlook.com", "hotmail.com", "yahoo.com", "icloud.com", "aol.com"}
  }

  predicate LooksAutomated(sender: string) {
    AnyTerm(["noreply", "no-reply", "notifications", "billing", "support", "donotreply"], Lower(sender))
  }

  /** What follows the last '@', or "" when there is none. */
  function Domain(address: string): string {
    if address == "" then ""
    else if '@' in address[1..] then Domain(address[1..])
    else if address[0] == '@' then Lower(address[1..])
    else ""
  }

  function SenderRoleOf(sender: string, accountEmail: string): SenderRole {
    var domain := Domain(Lower(sender));
    var own := Domain(Lower(accountEmail));
    if domain != "" && own != "" && domain == own then Internal
    else if LooksAutomated(sender) then Vendor
    else if IsFreemail(domain) then Client
    else Unknown
  }

  function PriorityOf(text: string, tag: RiskTag, role: SenderRole, terms: Terms): Priority {
    if Grave(tag) || AnyTerm(terms.urgent, text) then High
    else if role.Vendor? then Low
    else Medium
  }

  function DeadlineFor(p: Priority): int {
    match p
    case High => 60
    case Medium => 240
    case Low => 480
  }

  function BusinessValueFor(role: SenderRole): real {
    match role
    case Client => 0.9
    case Internal => 0.7
    case Vendor => 0.4
    case Unknown => 0.5
  }

  function EnrichMessage(m: FetchedMessage, accountEmail: string, terms: Terms): Email {
    var text := Lower(m.subject + " " + m.body);
    var role := SenderRoleOf(m.sender, accountEmail);
    var tag := RiskTagOf(text);
    var priority := PriorityOf(text, tag, role, terms);
    var base := BusinessValueFor(role);
    var value := if !priority.High? then base else if base + 0.1 < 1.0 then base + 0.1 else 1.0;
    Email(m.providerId, m.sender, role, m.subject, m.body, priority, DeadlineFor(priority), value, tag)
  }

  function EnrichAll(ms: seq<FetchedMessage>, accountEmail: string, terms: Terms): (es: seq<Email>)
    ensures |es| == |ms|
    ensures forall i :: 0 <= i < |ms| ==> es[i] == EnrichMessage(ms[i], accountEmail, terms)
  {
    if ms == [] then []
    else [EnrichMessage(ms[0], accountEmail, terms)] + EnrichAll(ms[1..], accountEmail, terms)
  }

  /** A real inbox never has interruptions left to wait for. */
  function ToObservation(ms: seq<FetchedMessage>, accountEmail: string, terms: Terms): Observation {
    Observation(EnrichAll(ms, accountEmail, terms), 0)
  }

  // -- what the sender's address says -----------------------------------------------------------

  lemma {:induction false} DomainAfterLastAt(name: string, domain: string)
    requires '@' !in domain
    ensures Domain(name + "@" + domain) == Lower(domain)
  {
    var address := name + "@" + domain;
    if name == "" {
      assert address[0] == '@' && address[1..] == domain;
    } else {
      assert address[1..] == name[1..] + "@" + domain && address[1..][|name| - 1] == '@';
      DomainAfterLastAt(name[1..], domain);
    }
  }

  lemma LowerAddress(name: string, domain: string)
    requires '@' !in domain
    ensures Lower(name + "@" + domain) == Lower(name) + "@" + Lower(domain)
    ensures '@' !in Lower(domain) && Lower(Lower(domain)) == Lower(domain)
  {
    forall c | c in Lower(domain) ensures c != '@' {
      var i :| 0 <= i < |domain| && Lower(domain)[i] == c;
      assert domain[i] in domain;
    }
  }

  /**
   * Who a sender is, by what follows the last '@', in any letter case: a colleague
   * shares the account's domain, whatever the address looks like otherwise; then come
   * automated addresses, then private ones; the rest are unknown.
   */
  lemma SenderRoleMeans(name: string, domain: string, account: string, ownDomain: string)
    requires '@' !in domain && '@' !in ownDomain
    ensures
      var (sender, d) := (name + "@" + domain, Lower(domain));
      var colleague := domain != "" && d == Lower(ownDomain);
      var private := d in {"gmail.com", "outlook.com", "hotmail.com", "yahoo.com", "icloud.com", "aol.com"};
      match SenderRoleOf(sender, account + "@" + ownDomain)
      case Internal => colleague
      case Vendor => !colleague && LooksAutomated(sender)
      case Client => !colleague && !LooksAutomated(sender) && private
      case Unknown => !colleague && !LooksAutomated(sender) && !private
  {
    LowerAddress(name, domain);
    LowerAddress(account, ownDomain);
    DomainAfterLastAt(Lower(name), Lower(domain));
    DomainAfterLastAt(Lower(account), Lower(ownDomain));
  }

  // -- what a term matches ------------------------------------------------------------------------

  predicate WordStartsAt(text: string, i: nat) { i <= |text| && (i > 0 ==> !IsWordChar(text[i - 1])) }

  predicate WordEndsAt(text: string, i: nat) { i <= |text| && (i < |text| ==> !IsWordChar(text[i])) }

  /** Begins and ends like a word. */
  predicate Wordlike(term: string) { term != "" && IsWordChar(term[0]) && IsWordChar(term[|term| - 1]) }

  /**
   * A term stands for itself as a whole word, in any letter case, and with a final
   * star for every word that begins with its stem; a piece inside a word is no match.
   */
  lemma TermMatchesWords(term: string, text: string)
    requires Wordlike(term)
    ensures TermMatches(term, text) <==>
      exists i: nat :: StartsWithAt(Lower(text), i, term) && WordStartsAt(Lower(text), i)
                       && WordEndsAt(Lower(text), i + |term|)
    ensures TermMatches(term + "*", text) <==>
      exists i: nat :: StartsWithAt(Lower(text), i, term) && WordStartsAt(Lower(text), i)
  {
    var lower := Lower(text);
    assert (term + "*")[..|term|] == term;
    forall i: nat | i <= |lower|
      ensures TermMatchesAt(term, lower, i) <==>
        StartsWithAt(lower, i, term) && WordStartsAt(lower, i) && WordEndsAt(lower, i + |term|)
      ensures TermMatchesAt(term + "*", lower, i) <==> StartsWithAt(lower, i, term) && WordStartsAt(lower, i)
    {
      if StartsWithAt(lower, i, term) {
        var n := |term|;
        assert lower[i] == lower[i..i + n][0] == term[0];
        assert lower[i + n - 1] == lower[i..i + n][n - 1] == term[n - 1];
      }
    }
  }

  // -- how pressing a message is --------------------------------------------------------------------

  /**
   * Legal or security matters and urgent words make a message high priority, due
   * within the hour and worth a tenth more, up to one; of the rest, automated mail
   * waits twice as long as other mail.
   */
  lemma UrgencyMeans(m: FetchedMessage, account: string, terms: Terms)
    ensures
      var (e, text) := (EnrichMessage(m, account, terms), Lower(m.subject + " " + m.body));
      var base := if e.senderRole.Client? then 0.9 else if e.senderRole.Internal? then 0.7
                  else if e.senderRole.Vendor? then 0.4 else 0.5;
      var pressing := e.riskTag == Legal || e.riskTag == Security || AnyTerm(terms.urgent, text);
      && e.id == m.providerId && e.riskTag == RiskTagOf(text)
      && (e.priorityHint.High? <==> pressing)
      && e.deadlineMinutes == (if pressing then 60 else if e.senderRole.Vendor? then 480 else 240)
      && e.businessValue == (if !pressing then base else if base == 0.9 then 1.0 else base + 0.1)
  {
  }
}
