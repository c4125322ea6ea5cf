// The deterministic draft rubric (app/llm/draft_eval.py).
module Rubric {
  import opened Prelude
  import opened Text
  import opened Mail

  const MIN_CHARS := 40
  const MAX_CHARS := 2400

  /** The two pattern tests whose vocabulary is not modelled. */
  datatype Guards = Guards(risky: string -> bool, selfReference: string -> bool)

  datatype Check = Check(name: string, passed: bool, detail: string, soft: bool)

  // -- numbers ----------------------------------------------------------------------------

  predicate IsMark(c: char) { c == '.' || c == ',' || c == ':' }

  predicate NumberChar(c: char) { IsDigit(c) || IsMark(c) }

  /** Length of the longest run of number characters `s` starts with. */
  function RunLength(s: string): (n: nat)
    ensures n <= |s| && forall i :: 0 <= i < n ==> NumberChar(s[i])
    ensures s != "" && NumberChar(s[0]) ==> n > 0
  {
    if s != "" && NumberChar(s[0]) then 1 + RunLength(s[1..]) else 0
  }

  function TrimMarks(s: string): string {
    if s != "" && IsMark(s[|s| - 1]) then TrimMarks(s[..|s| - 1]) else s
  }

  /** Digit groups with trailing punctuation trimmed; a group always starts with a digit. */
  function Numbers(text: string): seq<string>
    decreases |text|
  {
    if text == "" then []
    else if IsDigit(text[0]) then
      var n := RunLength(text);
      var token := TrimMarks(text[..n]);
      (if token == "" then [] else [token]) + Numbers(text[n..])
    else Numbers(text[1..])
  }

  function Except(xs: seq<string>, known: seq<string>): seq<string> {
    if xs == [] then [] else (if xs[0] in known then [] else [xs[0]]) + Except(xs[1..], known)
  }

  /** The figures of a draft that its source never states, in order, repeats included. */
  function Invented(draft: string, source: string): seq<string> {
    Except(Numbers(draft), Numbers(source))
  }

  /** How Python prints a list of strings that need no escaping. */
  function ReprList(xs: seq<string>): string { "[" + ReprItems(xs) + "]" }

  function ReprItems(xs: seq<string>): string {
    if xs == [] then ""
    else "'" + xs[0] + "'" + (if |xs| == 1 then "" else ", " + ReprItems(xs[1..]))
  }

  // -- greeting ---------------------------------------------------------------------------

  function BeforeComma(s: string): string {
    if s == "" || s[0] == ',' then "" else [s[0]] + BeforeComma(s[1..])
  }

  function BeforeSpace(s: string): string {
    if s == "" || s[0] == ' ' then "" else [s[0]] + BeforeSpace(s[1..])
  }

  /** The addressee, when the draft opens with a one-word greeting. */
  function LeadingName(draft: string): Option<string> {
    var first := Strip(BeforeComma(draft));
    if first != "" && IsUpper(first[0]) && forall i :: 0 <= i < |first| ==> IsLetter(first[i])
    then Some(first) else None
  }

  // -- the checks -------------------------------------------------------------------------

  function Decimal(n: nat): string {
    (if n < 10 then "" else Decimal(n / 10)) + [('0' as int + n % 10) as char]
  }

  datatype Source = Source(subject: string, body: string, senderName: string, sender: string)

  function SourceText(s: Source): string {
    s.subject + "\n" + s.body + "\n" + s.senderName + "\n" + s.sender
  }

  function LengthCheck(draft: string): Check {
    var n := |Strip(draft)|;
    Check("length_within_bounds", MIN_CHARS <= n <= MAX_CHARS, Decimal(n) + " chars", false)
  }

  const INVENTED_PREFIX := "not in source: "

  function NumbersCheck(draft: string, source: string): Check {
    var invented := Invented(draft, source);
    Check("no_invented_numbers", invented == [],
          if invented == [] then "" else INVENTED_PREFIX + ReprList(invented), false)
  }

  function GreetingCheck(draft: string, source: string): Check {
    match LeadingName(draft)
    case None => Check("greeting_is_grounded", true, "", false)
    case Some(name) =>
      Check("greeting_is_grounded", Contains(Lower(source), Lower(name)),
            "addresses '" + name + "', who the source never mentions", false)
  }

  function HandoverCheck(draft: string, s: Source): Check {
    var first := Lower(Strip(BeforeSpace(s.senderName)));
    var name := LeadingName(draft);
    var misaddressed := name.Some? && first != "" && Lower(name.value) == first;
    Check("handover_not_addressed_to_sender", !misaddressed,
          if misaddressed then "opens with the sender's name '" + name.value + "'" else "", true)
  }

  function Evaluate(draft: string, s: Source, kind: ActionType, g: Guards): seq<Check> {
    [ LengthCheck(draft),
      NumbersCheck(draft, SourceText(s)),
      GreetingCheck(draft, SourceText(s)),
      Check("no_risky_content", !g.risky(draft), "", false),
      Check("no_assistant_self_reference", !g.selfReference(draft), "", false) ]
    + if kind.Escalate? then [HandoverCheck(draft, s)] else []
  }

  // -- facts about figures ------------------------------------------------------------------

  /** A printable figure: starts with a digit, holds only digits and marks. */
  predicate Figure(n: string) {
    n != "" && IsDigit(n[0]) && forall i :: 0 <= i < |n| ==> NumberChar(n[i])
  }

  lemma {:induction false} TrimKeepsFigure(s: string)
    requires Figure(s)
    ensures Figure(TrimMarks(s)) && |TrimMarks(s)| <= |s| && TrimMarks(s) == s[..|TrimMarks(s)|]
  {
    if IsMark(s[|s| - 1]) {
      TrimKeepsFigure(s[..|s| - 1]);
    }
  }

  /** Every figure is a contiguous piece of the text it was found in. */
  lemma {:induction false} NumbersAreInText(text: string, n: string)
    requires n in Numbers(text)
    ensures Figure(n) && Contains(text, n)
    decreases |text|
  {
    if IsDigit(text[0]) {
      var run := RunLength(text);
      TrimKeepsFigure(text[..run]);
      if n == TrimMarks(text[..run]) {
        assert StartsWithAt(text, 0, n);
      } else {
        NumbersAreInText(text[run..], n);
        var i: nat :| i <= |text[run..]| && StartsWithAt(text[run..], i, n);
        assert StartsWithAt(text, run + i, n);
      }
    } else {
      NumbersAreInText(text[1..], n);
      var i: nat :| i <= |text[1..]| && StartsWithAt(text[1..], i, n);
      assert StartsWithAt(text, 1 + i, n);
    }
  }

  lemma {:induction false} ExceptMembers(xs: seq<string>, known: seq<string>, x: string)
    ensures x in Except(xs, known) <==> x in xs && x !in known
  {
    if xs != [] {
      ExceptMembers(xs[1..], known, x);
    }
  }

  predicate AllIn(xs: seq<string>, known: seq<string>) { forall x :: x in xs ==> x in known }

  lemma {:induction false} ExceptIsEmpty(xs: seq<string>, known: seq<string>)
    ensures Except(xs, known) == [] <==> AllIn(xs, known)
  {
    if xs != [] {
      ExceptIsEmpty(xs[1..], known);
      assert xs[0] in xs && forall x :: x in xs <==> x == xs[0] || x in xs[1..];
    }
  }

  /** The numbers check fails exactly when some figure of the draft is not a figure of the source. */
  lemma NumbersCheckFindsInvention(draft: string, source: string)
    ensures NumbersCheck(draft, source).passed <==> AllIn(Numbers(draft), Numbers(source))
    ensures forall n :: n in Invented(draft, source) ==> Figure(n) && Contains(draft, n)
  {
    ExceptIsEmpty(Numbers(draft), Numbers(source));
    forall n | n in Invented(draft, source) ensures Figure(n) && Contains(draft, n) {
      ExceptMembers(Numbers(draft), Numbers(source), n);
      NumbersAreInText(draft, n);
    }
  }
}
