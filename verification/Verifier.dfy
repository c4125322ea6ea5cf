// Draft-then-verify (app/llm/verifier.py): failed checks become findings with
// the sentence each is about, and a verdict.
module Verifier {
  import opened Prelude
  import opened Text
  import opened Mail
  import opened Rubric

  datatype Finding = Finding(kind: string, detail: string, claim: string, source: Option<string>)

  // -- splitting prose ----------------------------------------------------------------------

  predicate EndsSentence(c: char) { c == '.' || c == '!' || c == '?' }

  function DropSpaces(s: string): (r: string)
    ensures |r| <= |s|
  {
    if s != "" && IsSpace(s[0]) then DropSpaces(s[1..]) else s
  }

  function DropNewlines(s: string): (r: string)
    ensures |r| <= |s|
  {
    if s != "" && s[0] == '\n' then DropNewlines(s[1..]) else s
  }

  /** Split at white space after a sentence mark, or at newlines; `cur` is the piece being read. */
  function Pieces(cur: string, rest: string): seq<string>
    decreases |rest|
  {
    if rest == "" then [cur]
    else if cur != "" && EndsSentence(cur[|cur| - 1]) && IsSpace(rest[0]) then [cur] + Pieces("", DropSpaces(rest))
    else if rest[0] == '\n' then [cur] + Pieces("", DropNewlines(rest))
    else Pieces(cur + [rest[0]], rest[1..])
  }

  /** Where `splitlines` breaks. */
  predicate EndsLine(c: char) { 10 <= c as int <= 13 || 28 <= c as int <= 30 }

  function LinePieces(cur: string, rest: string): seq<string>
    decreases |rest|
  {
    if rest == "" then [cur]
    else if EndsLine(rest[0]) then [cur] + LinePieces("", rest[1..])
    else LinePieces(cur + [rest[0]], rest[1..])
  }

  /** Stripped, blanks dropped. */
  function Tidy(pieces: seq<string>): seq<string> {
    if pieces == [] then []
    else (if Strip(pieces[0]) == "" then [] else [Strip(pieces[0])]) + Tidy(pieces[1..])
  }

  function Sentences(text: string): seq<string> { Tidy(Pieces("", text)) }

  function Lines(text: string): seq<string> { Tidy(LinePieces("", text)) }

  function FirstContaining(xs: seq<string>, needle: string): Option<string> {
    if xs == [] then None
    else if needle != "" && Contains(xs[0], needle) then Some(xs[0])
    else FirstContaining(xs[1..], needle)
  }

  /** The draft sentence a fragment appears in, or the fragment itself. */
  function SentenceContaining(draft: string, needle: string): string {
    FirstContaining(Sentences(draft), needle).GetOr(needle)
  }

  function SourceLineMentioning(source: string, needle: string): Option<string> {
    FirstContaining(Lines(source), needle)
  }

  predicate HasDigit(s: string) { exists i :: 0 <= i < |s| && IsDigit(s[i]) }

  function FirstNumeric(xs: seq<string>): Option<string> {
    if xs == [] then None else if HasDigit(xs[0]) then Some(xs[0]) else FirstNumeric(xs[1..])
  }

  function NearestNumericLine(source: string): Option<string> { FirstNumeric(Lines(source)) }

  // -- reading the printed list back ------------------------------------------------------------

  function UnquotedLength(s: string): (n: nat)
    ensures n <= |s| && (n < |s| ==> s[n] == '\'') && forall i :: 0 <= i < n ==> s[i] != '\''
  {
    if s == "" || s[0] == '\'' then 0 else 1 + UnquotedLength(s[1..])
  }

  /** Every non-empty text between two single quotes, scanning left to right. */
  function FindQuoted(s: string): seq<string>
    decreases |s|
  {
    if s == "" then []
    else if s[0] != '\'' then FindQuoted(s[1..])
    else
      var n := UnquotedLength(s[1..]);
      if n > 0 && n + 1 < |s| then [s[1..n + 1]] + FindQuoted(s[n + 2..]) else FindQuoted(s[1..])
  }

  // -- findings -------------------------------------------------------------------------------

  predicate Failed(c: Check) { !c.passed && !c.soft }

  function InventedFinding(draft: string, number: string, sourceText: string): Finding {
    Finding("invented_number", "The source never states " + number + ".",
            SentenceContaining(draft, number), NearestNumericLine(sourceText))
  }

  function InventedFindings(draft: string, numbers: seq<string>, sourceText: string): seq<Finding> {
    if numbers == [] then []
    else [InventedFinding(draft, numbers[0], sourceText)] + InventedFindings(draft, numbers[1..], sourceText)
  }

  function FindingsOf(draft: string, c: Check, sourceText: string): seq<Finding> {
    if !Failed(c) then []
    else if c.name == "no_invented_numbers" then InventedFindings(draft, FindQuoted(c.detail), sourceText)
    else if c.name == "greeting_is_grounded" then
      [Finding("ungrounded_greeting",
               if c.detail != "" then c.detail else "The greeting names someone the source never mentions.",
               if Sentences(draft) == [] then "" else Sentences(draft)[0], None)]
    else [Finding(c.name, if c.detail != "" then c.detail else Underscored(c.name), "", None)]
  }

  function AllFindings(draft: string, cs: seq<Check>, sourceText: string): seq<Finding> {
    if cs == [] then []
    else AllFindings(draft, cs[..|cs| - 1], sourceText) + FindingsOf(draft, cs[|cs| - 1], sourceText)
  }

  method DeterministicFindings(draft: string, cs: seq<Check>, sourceText: string) returns (findings: seq<Finding>)
    ensures findings == AllFindings(draft, cs, sourceText)
  {
    findings := [];
    for i := 0 to |cs|
      invariant findings == AllFindings(draft, cs[..i], sourceText)
    {
      assert cs[..i + 1][..i] == cs[..i];
      if cs[i].passed || cs[i].soft {
        assert findings + [] == findings;
        continue;
      }
      if cs[i].name == "no_invented_numbers" {
        var numbers := FindQuoted(cs[i].detail);
        ghost var before := findings;
        for k := 0 to |numbers|
          invariant findings + InventedFindings(draft, numbers[k..], sourceText) ==
                    before + InventedFindings(draft, numbers, sourceText)
        {
          assert numbers[k..][1..] == numbers[k + 1..];
          findings := findings + [InventedFinding(draft, numbers[k], sourceText)];
        }
      } else {
        findings := findings + FindingsOf(draft, cs[i], sourceText);
      }
    }
    assert cs[..|cs|] == cs;
  }

  function Note(c: Check): string {
    if c.detail != "" then Underscored(c.name) + ": " + c.detail else Underscored(c.name)
  }

  function NotesOf(cs: seq<Check>): seq<string> {
    if cs == [] then []
    else NotesOf(cs[..|cs| - 1]) + if Failed(cs[|cs| - 1]) then [Note(cs[|cs| - 1])] else []
  }

  // -- the model layer --------------------------------------------------------------------------

  /** One claim the model listed as unsupported, as parsed from its answer. */
  datatype ModelItem = ModelItem(claim: string, source: Option<string>, why: string)

  datatype ModelCheck = ModelCheck(items: seq<ModelItem>, cost: real)

  const MODEL_ITEM_LIMIT := 6

  /** Keep the quoted source only when the source really contains it. */
  function CheckedSource(source: Option<string>, sourceText: string): Option<string> {
    if source.None? || source.value == "" then None
    else
      var quote := Strip(source.value);
      if quote != "" && !Contains(sourceText, quote)
      then SourceLineMentioning(sourceText, quote[..Min(40, |quote|)])
      else Some(quote)
  }

  function ModelFinding(draft: string, item: ModelItem, sourceText: string): Finding {
    var claim := Strip(item.claim);
    var sentence := SentenceContaining(draft, claim);
    Finding("unsupported_claim",
            if Strip(item.why) != "" then Strip(item.why) else "The source does not support this.",
            if sentence != "" then sentence else claim, CheckedSource(item.source, sourceText))
  }

  function ModelFindings(draft: string, items: seq<ModelItem>, sourceText: string): seq<Finding> {
    if items == [] then []
    else (if Strip(items[0].claim) == "" then [] else [ModelFinding(draft, items[0], sourceText)])
         + ModelFindings(draft, items[1..], sourceText)
  }

  function UnsupportedNotes(fs: seq<Finding>): (r: seq<string>)
    ensures |r| == |fs|
  {
    if fs == [] then [] else ["unsupported claim: " + fs[0].claim] + UnsupportedNotes(fs[1..])
  }

  // -- the verdict ------------------------------------------------------------------------------

  datatype Verdict = Verdict(flagged: bool, notes: seq<string>, findings: seq<Finding>, cost: real)

  /** `check` is what the model call came back with, when one was made. */
  function VerifyDraft(draft: string, s: Source, kind: ActionType, g: Guards, check: Option<ModelCheck>): Verdict {
    var checks := Evaluate(draft, s, kind, g);
    var sourceText := s.subject + "\n" + s.body;
    var fromModel := if check.None? then []
      else ModelFindings(draft, Take(check.value.items, MODEL_ITEM_LIMIT), sourceText);
    var notes := NotesOf(checks) + UnsupportedNotes(fromModel);
    Verdict(notes != [], notes, AllFindings(draft, checks, sourceText) + fromModel,
            if check.None? then 0.0 else check.value.cost)
  }

  // -- round trip of the printed list -------------------------------------------------------------

  predicate Quotable(x: string) { x != "" && '\'' !in x }

  lemma {:induction false} FindQuotedSkips(prefix: string, s: string)
    requires '\'' !in prefix
    ensures FindQuoted(prefix + s) == FindQuoted(s)
  {
    if prefix == "" {
      assert prefix + s == s;
    } else {
      assert (prefix + s)[1..] == prefix[1..] + s;
      assert (prefix + s)[0] == prefix[0];
      FindQuotedSkips(prefix[1..], s);
    }
  }

  lemma {:induction false} UnquotedLengthOf(x: string, s: string)
    requires '\'' !in x
    ensures UnquotedLength(x + ("'" + s)) == |x|
  {
    if x != "" {
      assert (x + ("'" + s))[1..] == x[1..] + ("'" + s);
      UnquotedLengthOf(x[1..], s);
    } else {
      assert x + ("'" + s) == "'" + s;
    }
  }

  lemma FindQuotedTakes(x: string, s: string)
    requires Quotable(x)
    ensures FindQuoted("'" + (x + ("'" + s))) == [x] + FindQuoted(s)
  {
    var whole := "'" + (x + ("'" + s));
    UnquotedLengthOf(x, s);
    assert whole[1..] == x + ("'" + s);
    assert whole[1..|x| + 1] == x;
    assert whole[|x| + 2..] == s;
  }

  lemma QuotedThen(x: string, more: string, tail: string)
    ensures "'" + x + "'" + more + tail == "'" + (x + ("'" + (more + tail)))
  {
  }

  lemma FirstItem(xs: seq<string>, tail: string)
    requires xs != []
    ensures ReprItems(xs) + tail ==
      "'" + (xs[0] + ("'" + (if |xs| == 1 then tail else ", " + (ReprItems(xs[1..]) + tail))))
  {
    var more := if |xs| == 1 then "" else ", " + ReprItems(xs[1..]);
    assert ReprItems(xs) == "'" + xs[0] + "'" + more;
    QuotedThen(xs[0], more, tail);
    if |xs| == 1 {
      assert "" + tail == tail;
    } else {
      ConcatAssociates(", ", ReprItems(xs[1..]), tail);
    }
  }

  lemma {:induction false} FindQuotedReadsItems(xs: seq<string>, tail: string)
    requires forall x :: x in xs ==> Quotable(x)
    requires '\'' !in tail
    ensures FindQuoted(ReprItems(xs) + tail) == xs
  {
    if xs == [] {
      assert ReprItems(xs) + tail == tail + "";
      FindQuotedSkips(tail, "");
    } else {
      var more := if |xs| == 1 then tail else ", " + (ReprItems(xs[1..]) + tail);
      FirstItem(xs, tail);
      FindQuotedTakes(xs[0], more);
      if |xs| == 1 {
        FindQuotedSkips(tail, "");
        assert tail + "" == tail && FindQuoted("") == [];
        assert xs == [xs[0]] && [xs[0]] + [] == [xs[0]];
      } else {
        FindQuotedSkips(", ", ReprItems(xs[1..]) + tail);
        assert forall x :: x in xs[1..] ==> x in xs;
        FindQuotedReadsItems(xs[1..], tail);
        assert xs == [xs[0]] + xs[1..];
      }
    }
  }

  /** The verifier reads back exactly the figures the rubric printed, in order, repeats included. */
  lemma InventedNumbersRoundTrip(draft: string, source: string)
    ensures FindQuoted(NumbersCheck(draft, source).detail) == Invented(draft, source)
  {
    var xs := Invented(draft, source);
    NumbersCheckFindsInvention(draft, source);
    forall x | x in xs ensures Quotable(x) {
      assert Figure(x);
    }
    if xs != [] {
      assert INVENTED_PREFIX + ReprList(xs) == (INVENTED_PREFIX + "[") + (ReprItems(xs) + "]");
      FindQuotedSkips(INVENTED_PREFIX + "[", ReprItems(xs) + "]");
      FindQuotedReadsItems(xs, "]");
    }
  }

  // -- claims are real sentences -------------------------------------------------------------------

  /** Can be cut by no split: not empty, no white space. */
  predicate Solid(w: string) { w != "" && forall i :: 0 <= i < |w| ==> !IsSpace(w[i]) }

  lemma OccurrenceIsSolid(s: string, w: string, p: nat)
    requires Solid(w) && StartsWithAt(s, p, w)
    ensures forall i :: p <= i < p + |w| ==> !IsSpace(s[i])
  {
    forall i | p <= i < p + |w| ensures !IsSpace(s[i]) {
      assert s[i] == s[p..p + |w|][i - p];
    }
  }

  lemma {:induction false} SolidSurvivesStripLeft(s: string, w: string, p: nat)
    requires Solid(w) && StartsWithAt(s, p, w)
    ensures Contains(StripLeft(s), w)
  {
    OccurrenceIsSolid(s, w, p);
    if IsSpace(s[0]) {
      assert s[1..][p - 1..p - 1 + |w|] == s[p..p + |w|];
      SolidSurvivesStripLeft(s[1..], w, p - 1);
    } else {
      assert StartsWithAt(StripLeft(s), p, w);
    }
  }

  lemma {:induction false} SolidSurvivesStripRight(s: string, w: string, p: nat)
    requires Solid(w) && StartsWithAt(s, p, w)
    ensures Contains(StripRight(s), w)
  {
    OccurrenceIsSolid(s, w, p);
    if IsSpace(s[|s| - 1]) {
      assert s[..|s| - 1][p..p + |w|] == s[p..p + |w|];
      SolidSurvivesStripRight(s[..|s| - 1], w, p);
    } else {
      assert StartsWithAt(StripRight(s), p, w);
    }
  }

  lemma SolidSurvivesStrip(s: string, w: string)
    requires Solid(w) && Contains(s, w)
    ensures Contains(Strip(s), w) && Strip(s) != ""
  {
    var p: nat :| p <= |s| && StartsWithAt(s, p, w);
    SolidSurvivesStripLeft(s, w, p);
    var q: nat :| q <= |StripLeft(s)| && StartsWithAt(StripLeft(s), q, w);
    SolidSurvivesStripRight(StripLeft(s), w, q);
  }

  lemma {:induction false} SolidSkipsSpaces(s: string, w: string, p: nat)
    requires Solid(w) && StartsWithAt(s, p, w)
    ensures Contains(DropSpaces(s), w) && Contains(DropNewlines(s), w)
  {
    OccurrenceIsSolid(s, w, p);
    assert Contains(s, w);
    if IsSpace(s[0]) {
      assert s[1..][p - 1..p - 1 + |w|] == s[p..p + |w|];
      assert StartsWithAt(s[1..], p - 1, w);
      SolidSkipsSpaces(s[1..], w, p - 1);
    }
  }

  /** An occurrence without white space lies on one side of a white-space character. */
  lemma SolidOnOneSide(cur: string, rest: string, w: string, p: nat)
    requires Solid(w) && StartsWithAt(cur + rest, p, w) && rest != "" && IsSpace(rest[0])
    ensures StartsWithAt(cur, p, w) || (p > |cur| && StartsWithAt(rest, p - |cur|, w))
  {
    var s := cur + rest;
    if p + |w| <= |cur| {
      assert cur[p..p + |w|] == s[p..p + |w|];
    } else {
      OccurrenceIsSolid(s, w, p);
      assert s[|cur|] == rest[0];
      assert p > |cur|;
      assert rest[p - |cur|..p - |cur| + |w|] == s[p..p + |w|];
    }
  }

  lemma SolidSurvivesCut(cur: string, rest: string, next: string, w: string, p: nat) returns (q: nat)
    requires Solid(w) && StartsWithAt(cur + rest, p, w) && rest != "" && IsSpace(rest[0])
    requires next == DropSpaces(rest) || next == DropNewlines(rest)
    ensures StartsWithAt(cur, p, w) || (q <= |next| && StartsWithAt("" + next, q, w))
  {
    q := 0;
    SolidOnOneSide(cur, rest, w, p);
    if !StartsWithAt(cur, p, w) {
      SolidSkipsSpaces(rest, w, p - |cur|);
      q :| q <= |next| && StartsWithAt(next, q, w);
      assert "" + next == next;
    }
  }

  lemma {:induction false} SolidLandsInOnePiece(cur: string, rest: string, w: string, p: nat)
    requires Solid(w) && StartsWithAt(cur + rest, p, w)
    ensures exists k :: 0 <= k < |Pieces(cur, rest)| && Contains(Pieces(cur, rest)[k], w)
    decreases |rest|
  {
    var pieces := Pieces(cur, rest);
    if rest == "" {
      assert cur + rest == cur;
      assert Contains(pieces[0], w);
    } else if (cur != "" && EndsSentence(cur[|cur| - 1]) && IsSpace(rest[0])) || rest[0] == '\n' {
      var next := if cur != "" && EndsSentence(cur[|cur| - 1]) && IsSpace(rest[0]) then DropSpaces(rest)
        else DropNewlines(rest);
      var q := SolidSurvivesCut(cur, rest, next, w, p);
      assert pieces == [cur] + Pieces("", next);
      if StartsWithAt(cur, p, w) {
        assert Contains(pieces[0], w);
      } else {
        SolidLandsInOnePiece("", next, w, q);
        var k :| 0 <= k < |Pieces("", next)| && Contains(Pieces("", next)[k], w);
        assert pieces[k + 1] == Pieces("", next)[k];
      }
    } else {
      assert cur + rest == cur + [rest[0]] + rest[1..];
      SolidLandsInOnePiece(cur + [rest[0]], rest[1..], w, p);
    }
  }

  lemma {:induction false} TidyKeepsSolid(pieces: seq<string>, w: string, k: nat)
    requires Solid(w) && k < |pieces| && Contains(pieces[k], w)
    ensures exists s :: s in Tidy(pieces) && Contains(s, w)
  {
    if k == 0 {
      SolidSurvivesStrip(pieces[0], w);
      assert Strip(pieces[0]) in Tidy(pieces);
    } else {
      TidyKeepsSolid(pieces[1..], w, k - 1);
    }
  }

  lemma {:induction false} FirstContainingFinds(xs: seq<string>, needle: string)
    ensures FirstContaining(xs, needle).Some? <==> needle != "" && exists s :: s in xs && Contains(s, needle)
    ensures FirstContaining(xs, needle).Some? ==>
      FirstContaining(xs, needle).value in xs && Contains(FirstContaining(xs, needle).value, needle)
  {
    if xs != [] {
      FirstContainingFinds(xs[1..], needle);
      assert xs[0] in xs;
    }
  }

  /** Each invented figure is shown in a real sentence of the draft that contains it. */
  lemma InventedClaimIsDraftSentence(draft: string, source: string, n: string)
    requires n in Invented(draft, source)
    ensures SentenceContaining(draft, n) in Sentences(draft)
    ensures Contains(SentenceContaining(draft, n), n)
  {
    NumbersCheckFindsInvention(draft, source);
    assert Solid(n) by {
      assert Figure(n);
    }
    var p: nat :| p <= |draft| && StartsWithAt(draft, p, n);
    assert "" + draft == draft;
    SolidLandsInOnePiece("", draft, n, p);
    var k :| 0 <= k < |Pieces("", draft)| && Contains(Pieces("", draft)[k], n);
    TidyKeepsSolid(Pieces("", draft), n, k);
    FirstContainingFinds(Sentences(draft), n);
  }

  // -- flagged exactly when there is something to show -----------------------------------------------

  lemma {:induction false} NotesMatchFindings(draft: string, cs: seq<Check>, sourceText: string)
    requires forall c :: c in cs && Failed(c) ==> FindingsOf(draft, c, sourceText) != []
    ensures NotesOf(cs) == [] <==> AllFindings(draft, cs, sourceText) == []
  {
    if cs != [] {
      NotesMatchFindings(draft, cs[..|cs| - 1], sourceText);
      assert cs[|cs| - 1] in cs;
    }
  }

  /** The findings about figures are the invented figures themselves, one each. */
  lemma FiguresGetOneFindingEach(draft: string, s: Source, sourceText: string)
    ensures FindingsOf(draft, NumbersCheck(draft, SourceText(s)), sourceText) ==
      InventedFindings(draft, Invented(draft, SourceText(s)), sourceText)
  {
    InventedNumbersRoundTrip(draft, SourceText(s));
  }

  /** A verdict is flagged if and only if there is a finding to show. */
  lemma FlaggedIffFindings(draft: string, s: Source, kind: ActionType, g: Guards, check: Option<ModelCheck>)
    ensures var v := VerifyDraft(draft, s, kind, g, check); v.flagged <==> v.findings != []
  {
    var cs := Evaluate(draft, s, kind, g);
    var sourceText := s.subject + "\n" + s.body;
    FiguresGetOneFindingEach(draft, s, sourceText);
    forall c | c in cs && Failed(c) ensures FindingsOf(draft, c, sourceText) != [] {
      if c == NumbersCheck(draft, SourceText(s)) {
        assert Invented(draft, SourceText(s)) != [];
      }
    }
    NotesMatchFindings(draft, cs, sourceText);
  }

  // -- quoted sources are real -------------------------------------------------------------------------

  lemma StripIsContained(s: string)
    ensures Contains(s, Strip(s))
  {
    StripLeftIsSuffix(s);
    StripRightIsPrefix(StripLeft(s));
    assert StartsWithAt(s, |s| - |StripLeft(s)|, Strip(s));
  }

  lemma ContainsTransitive(a: string, b: string, c: string)
    requires Contains(a, b) && Contains(b, c)
    ensures Contains(a, c)
  {
    var i: nat :| i <= |a| && StartsWithAt(a, i, b);
    var j: nat :| j <= |b| && StartsWithAt(b, j, c);
    forall k | 0 <= k < |c| ensures a[i + j..i + j + |c|][k] == c[k] {
      assert c[k] == b[j..j + |c|][k] == b[j + k] == a[i..i + |b|][j + k];
    }
    assert StartsWithAt(a, i + j, c);
  }

  lemma {:induction false} LinePiecesAreContained(before: string, cur: string, rest: string, piece: string)
    requires piece in LinePieces(cur, rest)
    ensures Contains(before + cur + rest, piece)
    decreases |rest|
  {
    var whole := before + cur + rest;
    if rest == "" || (EndsLine(rest[0]) && piece == cur) {
      assert whole[|before|..|before| + |cur|] == cur;
      assert StartsWithAt(whole, |before|, cur);
    } else if EndsLine(rest[0]) {
      LinePiecesAreContained(before + cur + [rest[0]], "", rest[1..], piece);
      assert before + cur + [rest[0]] + "" + rest[1..] == whole;
    } else {
      LinePiecesAreContained(before, cur + [rest[0]], rest[1..], piece);
      assert before + (cur + [rest[0]]) + rest[1..] == whole;
    }
  }

  lemma {:induction false} TidyMembers(pieces: seq<string>, line: string)
    requires line in Tidy(pieces)
    ensures exists p :: p in pieces && line == Strip(p)
  {
    if line != Strip(pieces[0]) {
      TidyMembers(pieces[1..], line);
    }
  }

  /** A source quote shown beside a model finding really is in the source. */
  lemma ShownSourceIsInSource(source: Option<string>, sourceText: string)
    ensures var shown := CheckedSource(source, sourceText); shown.Some? && shown.value != "" ==>
      Contains(sourceText, shown.value)
  {
    var shown := CheckedSource(source, sourceText);
    if shown.Some? && shown.value != "" && !Contains(sourceText, Strip(source.value)) {
      var quote := Strip(source.value);
      FirstContainingFinds(Lines(sourceText), quote[..Min(40, |quote|)]);
      TidyMembers(LinePieces("", sourceText), shown.value);
      var piece :| piece in LinePieces("", sourceText) && shown.value == Strip(piece);
      LinePiecesAreContained("", "", sourceText, piece);
      assert "" + "" + sourceText == sourceText;
      StripIsContained(piece);
      ContainsTransitive(sourceText, piece, shown.value);
    }
  }
}
