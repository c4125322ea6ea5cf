// When a draft is flagged: exactly which drafts, told by what they say, and what
// the reader is shown for each claim the model could not support.
module Verdicts {
  import opened Prelude
  import opened Text
  import opened Mail
  import opened Rubric
  import opened Verifier

  /** The draft opens with this one capitalised word, up to its first comma or its end. */
  ghost predicate Greets(draft: string, name: string) {
    && name != "" && IsUpper(name[0]) && (forall i :: 0 <= i < |name| ==> IsLetter(name[i]))
    && exists k: nat :: OpensUpTo(draft, k) && Strip(draft[..k]) == name
  }

  predicate OpensUpTo(draft: string, k: nat) {
    k <= |draft| && ',' !in draft[..k] && (k < |draft| ==> draft[k] == ',')
  }

  lemma {:induction false} BeforeCommaOpens(draft: string)
    ensures var k := |BeforeComma(draft)|; OpensUpTo(draft, k) && BeforeComma(draft) == draft[..k]
  {
    if draft != "" && draft[0] != ',' {
      BeforeCommaOpens(draft[1..]);
    }
  }

  lemma OneOpening(draft: string, j: nat, k: nat)
    requires OpensUpTo(draft, j) && OpensUpTo(draft, k)
    ensures j == k
  {
    assert forall i :: 0 <= i < j ==> draft[i] == draft[..j][i] && draft[i] in draft[..j];
    assert forall i :: 0 <= i < k ==> draft[i] == draft[..k][i] && draft[i] in draft[..k];
  }

  lemma GreetsIsLeadingName(draft: string, name: string)
    ensures Greets(draft, name) <==> LeadingName(draft) == Some(name)
  {
    BeforeCommaOpens(draft);
    if Greets(draft, name) {
      var k: nat :| OpensUpTo(draft, k) && Strip(draft[..k]) == name;
      OneOpening(draft, k, |BeforeComma(draft)|);
    }
  }

  /** A claim the model listed, among those that are read. */
  predicate Listed(check: Option<ModelCheck>, k: nat) {
    check.Some? && k < 6 && k < |check.value.items| && Strip(check.value.items[k].claim) != ""
  }

  /** What is wrong with a draft: its length, a figure, a name, its content, or a claim. */
  ghost predicate Faulty(draft: string, s: Source, g: Guards, check: Option<ModelCheck>) {
    || !(40 <= |Strip(draft)| <= 2400)
    || (exists n :: n in Numbers(draft) && n !in Numbers(SourceText(s)))
    || (exists name :: Greets(draft, name) && !Contains(Lower(SourceText(s)), Lower(name)))
    || g.risky(draft) || g.selfReference(draft)
    || (exists k :: Listed(check, k))
  }

  lemma {:induction false} NotedIffFailed(cs: seq<Check>)
    ensures NotesOf(cs) != [] <==> exists k :: 0 <= k < |cs| && Failed(cs[k])
  {
    if cs != [] {
      NotedIffFailed(cs[..|cs| - 1]);
      assert Failed(cs[|cs| - 1]) || NotesOf(cs) == NotesOf(cs[..|cs| - 1]);
    }
  }

  lemma {:induction false} ModelFindingsHave(draft: string, items: seq<ModelItem>, sourceText: string, k: nat)
    requires k < |items| && Strip(items[k].claim) != ""
    ensures ModelFinding(draft, items[k], sourceText) in ModelFindings(draft, items, sourceText)
  {
    var head := if Strip(items[0].claim) == "" then [] else [ModelFinding(draft, items[0], sourceText)];
    var rest := ModelFindings(draft, items[1..], sourceText);
    assert ModelFindings(draft, items, sourceText) == head + rest;
    if k == 0 {
      assert head[0] in head;
    } else {
      ModelFindingsHave(draft, items[1..], sourceText, k - 1);
      assert items[1..][k - 1] == items[k];
    }
  }

  lemma {:induction false} NoModelFindings(draft: string, items: seq<ModelItem>, sourceText: string)
    requires forall k :: 0 <= k < |items| ==> Strip(items[k].claim) == ""
    ensures ModelFindings(draft, items, sourceText) == []
  {
    if items != [] {
      NoModelFindings(draft, items[1..], sourceText);
    }
  }

  function FromModel(draft: string, check: Option<ModelCheck>, sourceText: string): seq<Finding> {
    if check.None? then [] else ModelFindings(draft, Take(check.value.items, MODEL_ITEM_LIMIT), sourceText)
  }

  lemma FromModelIffListed(draft: string, check: Option<ModelCheck>, sourceText: string)
    ensures FromModel(draft, check, sourceText) != [] <==> exists k :: Listed(check, k)
  {
    if check.Some? {
      var read := Take(check.value.items, MODEL_ITEM_LIMIT);
      if k :| Listed(check, k) {
        ModelFindingsHave(draft, read, sourceText, k);
      } else {
        forall k | 0 <= k < |read| ensures Strip(read[k].claim) == "" {
          assert !Listed(check, k);
        }
        NoModelFindings(draft, read, sourceText);
      }
    }
  }

  lemma FlaggedIffNoted(draft: string, s: Source, kind: ActionType, g: Guards, check: Option<ModelCheck>)
    ensures VerifyDraft(draft, s, kind, g, check).flagged <==>
      NotesOf(Evaluate(draft, s, kind, g)) != [] || FromModel(draft, check, s.subject + "\n" + s.body) != []
  {
  }

  lemma FailedChecks(draft: string, s: Source, kind: ActionType, g: Guards)
    ensures (exists k :: 0 <= k < |Evaluate(draft, s, kind, g)| && Failed(Evaluate(draft, s, kind, g)[k])) <==>
      || !(40 <= |Strip(draft)| <= 2400)
      || !NumbersCheck(draft, SourceText(s)).passed || !GreetingCheck(draft, SourceText(s)).passed
      || g.risky(draft) || g.selfReference(draft)
  {
    var cs := Evaluate(draft, s, kind, g);
    assert cs[0] == LengthCheck(draft) && cs[1] == NumbersCheck(draft, SourceText(s));
    assert cs[2] == GreetingCheck(draft, SourceText(s));
    assert cs[3].passed == !g.risky(draft) && cs[4].passed == !g.selfReference(draft);
    assert forall k :: 0 <= k < |cs| && Failed(cs[k]) ==> k < 5;
    assert Failed(cs[0]) || Failed(cs[1]) || Failed(cs[2]) || Failed(cs[3]) || Failed(cs[4]) ==>
        exists k :: 0 <= k < |cs| && Failed(cs[k]);
  }

  lemma StrangerFails(draft: string, source: string)
    ensures GreetingCheck(draft, source).passed <==>
      !exists name :: Greets(draft, name) && !Contains(Lower(source), Lower(name))
  {
    if LeadingName(draft).Some? {
      GreetsIsLeadingName(draft, LeadingName(draft).value);
    }
    forall name | Greets(draft, name) ensures LeadingName(draft) == Some(name) {
      GreetsIsLeadingName(draft, name);
    }
  }

  /**
   * A draft is flagged exactly when it is too short or too long, states a figure or
   * greets a name its source never mentions, says what it must not, or makes a claim
   * the model lists among the first six.
   */
  lemma DraftFlaggedIff(draft: string, s: Source, kind: ActionType, g: Guards, check: Option<ModelCheck>)
    ensures VerifyDraft(draft, s, kind, g, check).flagged <==> Faulty(draft, s, g, check)
  {
    FlaggedIffNoted(draft, s, kind, g, check);
    NotedIffFailed(Evaluate(draft, s, kind, g));
    FailedChecks(draft, s, kind, g);
    NumbersCheckFindsInvention(draft, SourceText(s));
    StrangerFails(draft, SourceText(s));
    FromModelIffListed(draft, check, s.subject + "\n" + s.body);
  }

  /** Shows the claim in its sentence, says why, and quotes the message only in its own words. */
  predicate Reports(f: Finding, item: ModelItem, s: Source) {
    && f.kind == "unsupported_claim" && Contains(f.claim, Strip(item.claim))
    && (Strip(item.why) != "" ==> f.detail == Strip(item.why))
    && (f.source.Some? && f.source.value != "" ==> Contains(s.subject + "\n" + s.body, f.source.value))
  }

  lemma SentenceShowsClaim(draft: string, claim: string)
    ensures Contains(SentenceContaining(draft, claim), claim)
  {
    if FirstContaining(Sentences(draft), claim).Some? {
      FirstContainingFinds(Sentences(draft), claim);
    } else {
      assert StartsWithAt(claim, 0, claim);
    }
  }

  /** Each claim the model lists among the first six is reported. */
  lemma ListedClaimIsReported(draft: string, s: Source, kind: ActionType, g: Guards, check: Option<ModelCheck>, k: nat)
    requires Listed(check, k)
    ensures exists f :: f in VerifyDraft(draft, s, kind, g, check).findings && Reports(f, check.value.items[k], s)
  {
    var sourceText := s.subject + "\n" + s.body;
    var item := check.value.items[k];
    var f := ModelFinding(draft, item, sourceText);
    ModelFindingsHave(draft, Take(check.value.items, MODEL_ITEM_LIMIT), sourceText, k);
    SentenceShowsClaim(draft, Strip(item.claim));
    ShownSourceIsInSource(item.source, sourceText);
    assert f in VerifyDraft(draft, s, kind, g, check).findings && Reports(f, item, s);
  }

  /** Beside an invented figure stands the first line of the message that has any figure. */
  lemma FirstFigureLineIsShown(draft: string, figure: string, sourceText: string)
    ensures match InventedFinding(draft, figure, sourceText).source
      case None => forall i :: 0 <= i < |Lines(sourceText)| ==> !HasDigit(Lines(sourceText)[i])
      case Some(line) => exists i ::
        && 0 <= i < |Lines(sourceText)| && Lines(sourceText)[i] == line && HasDigit(line)
        && forall j :: 0 <= j < i ==> !HasDigit(Lines(sourceText)[j])
  {
    FirstNumericIsFirst(Lines(sourceText));
  }

  lemma {:induction false} FirstNumericIsFirst(xs: seq<string>)
    ensures match FirstNumeric(xs)
      case None => forall i :: 0 <= i < |xs| ==> !HasDigit(xs[i])
      case Some(line) => exists i :: && 0 <= i < |xs| && xs[i] == line && HasDigit(line)
                                     && forall j :: 0 <= j < i ==> !HasDigit(xs[j])
  {
    if xs != [] && !HasDigit(xs[0]) {
      FirstNumericIsFirst(xs[1..]);
      if FirstNumeric(xs).Some? {
        var i :| && 0 <= i < |xs[1..]| && xs[1..][i] == FirstNumeric(xs).value
                 && forall j :: 0 <= j < i ==> !HasDigit(xs[1..][j]);
        assert xs[i + 1] == xs[1..][i];
        assert forall j :: 1 <= j < i + 1 ==> xs[j] == xs[1..][j - 1];
      }
    }
  }
}
