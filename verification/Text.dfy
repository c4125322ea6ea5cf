// The string operations the source leans on, over ASCII.
module Text {
  predicate IsDigit(c: char) { '0' <= c <= '9' }

  /** Blank, tab to carriage return, and the four ASCII separators. */
  predicate IsSpace(c: char) { c == ' ' || 9 <= c as int <= 13 || 28 <= c as int <= 31 }

  predicate IsUpper(c: char) { 'A' <= c <= 'Z' }

  predicate IsLetter(c: char) { 'A' <= c <= 'Z' || 'a' <= c <= 'z' }

  /** `\w` */
  predicate IsWordChar(c: char) { IsLetter(c) || IsDigit(c) || c == '_' }

  function LowerChar(c: char): char {
    if IsUpper(c) then (c as int + 32) as char else c
  }

  function Lower(s: string): string {
    seq(|s|, i requires 0 <= i < |s| => LowerChar(s[i]))
  }

  predicate StartsWithAt(s: string, i: nat, needle: string) {
    i + |needle| <= |s| && s[i..i + |needle|] == needle
  }

  /** Python's `needle in s`. */
  predicate Contains(s: string, needle: string) {
    exists i: nat :: i <= |s| && StartsWithAt(s, i, needle)
  }

  function StripLeft(s: string): string {
    if s != "" && IsSpace(s[0]) then StripLeft(s[1..]) else s
  }

  function StripRight(s: string): string {
    if s != "" && IsSpace(s[|s| - 1]) then StripRight(s[..|s| - 1]) else s
  }

  /** Python's `s.strip()`. */
  function Strip(s: string): string { StripRight(StripLeft(s)) }

  lemma {:induction false} StripRightIsPrefix(s: string)
    ensures var r := StripRight(s); |r| <= |s| && r == s[..|r|] && (r != "" ==> !IsSpace(r[|r| - 1]))
  {
    if s != "" && IsSpace(s[|s| - 1]) {
      StripRightIsPrefix(s[..|s| - 1]);
    }
  }

  lemma {:induction false} StripLeftIsSuffix(s: string)
    ensures var r := StripLeft(s); |r| <= |s| && r == s[|s| - |r|..] && (r != "" ==> !IsSpace(r[0]))
  {
    if s != "" && IsSpace(s[0]) {
      StripLeftIsSuffix(s[1..]);
    }
  }

  /** What is stripped is bare at both ends, and stays so. */
  lemma StripIsBare(s: string)
    ensures var r := Strip(s);
      r != "" ==> !IsSpace(r[0]) && !IsSpace(r[|r| - 1]) && StripLeft(r) == r && StripRight(r) == r
  {
    StripLeftIsSuffix(s);
    StripRightIsPrefix(StripLeft(s));
  }

  /** Stripping the right end of a concatenation reaches the first part only past a blank second one. */
  lemma {:induction false} StripRightAppend(a: string, b: string)
    ensures StripRight(a + b) == if StripRight(b) == "" then StripRight(a) else a + StripRight(b)
  {
    var s := a + b;
    if b == "" {
      assert s == a;
    } else if IsSpace(b[|b| - 1]) {
      assert s[|s| - 1] == b[|b| - 1] && s[..|s| - 1] == a + b[..|b| - 1];
      StripRightAppend(a, b[..|b| - 1]);
    } else {
      assert s[|s| - 1] == b[|b| - 1];
    }
  }

  /** Python's `s.split()`: the maximal runs of non-space characters. */
  function Words(s: string): seq<string> { WordsFrom(s, "") }

  function WordsFrom(s: string, word: string): seq<string> {
    if s == "" then (if word == "" then [] else [word])
    else if IsSpace(s[0]) then (if word == "" then [] else [word]) + WordsFrom(s[1..], "")
    else WordsFrom(s[1..], word + [s[0]])
  }

  /** Python's `s.replace("_", " ")`. */
  function Underscored(s: string): string {
    if s == "" then "" else [if s[0] == '_' then ' ' else s[0]] + Underscored(s[1..])
  }

  /** `s.split(sep)` for one character. */
  function SplitOn(s: string, sep: char): (parts: seq<string>)
    ensures |parts| > 0
  {
    if s == "" then [""]
    else
      var rest := SplitOn(s[1..], sep);
      if s[0] == sep then [""] + rest else [[s[0]] + rest[0]] + rest[1..]
  }

  /** What is free of separators stays with the first part. */
  lemma {:induction false} SplitAfter(a: string, b: string, sep: char)
    requires sep !in a
    ensures SplitOn(a + b, sep) == [a + SplitOn(b, sep)[0]] + SplitOn(b, sep)[1..]
  {
    if a == "" {
      var parts := SplitOn(b, sep);
      assert a + b == b && a + parts[0] == parts[0] && [parts[0]] + parts[1..] == parts;
    } else {
      assert (a + b)[0] == a[0] && (a + b)[1..] == a[1..] + b;
      SplitAfter(a[1..], b, sep);
      assert [a[0]] + (a[1..] + SplitOn(b, sep)[0]) == a + SplitOn(b, sep)[0];
    }
  }

  lemma SplitWhole(a: string, sep: char)
    requires sep !in a
    ensures SplitOn(a, sep) == [a]
  {
    SplitAfter(a, "", sep);
    assert a + "" == a;
  }

  lemma SplitAtFirst(a: string, rest: string, sep: char)
    requires sep !in a
    ensures SplitOn(a + ([sep] + rest), sep) == [a] + SplitOn(rest, sep)
  {
    SplitAfter(a, [sep] + rest, sep);
    assert ([sep] + rest)[1..] == rest && a + "" == a;
  }
}
