// Printing the registry and parsing the text back, for every sequence of calls.
module MetricsScrape {
  import opened Prelude
  import opened Text
  import opened Sorting
  import opened Metrics
  import opened MetricsTotals

  /** A single word that opens no label set. */
  predicate Solid(w: string) { w != "" && forall i :: 0 <= i < |w| ==> !IsSpace(w[i]) && w[i] != '{' }

  /** A name that no line of labels could be mistaken for. */
  predicate Bare(name: string) { Solid(name) && name[0] != '#' && '=' !in name }

  /** Numerals are single words; those of numbers that print read back, and sums of such numbers print. */
  ghost predicate Lawful(c: Codec) {
    && (forall v :: Solid(c.show(v)) && (c.prints(v) ==> c.read(c.show(v)) == Some(v)))
    && Additive(c.prints)
    && (forall n :: Solid(c.showCount(n)))
  }

  predicate CallPrints(c: Codec, call: Call) { Printable(call.name, call.labels) && c.prints(call.amount) }

  predicate OneLine(labels: Labels) {
    forall i :: 0 <= i < |labels| ==> '\n' !in labels[i].0 && '\n' !in labels[i].1
  }

  /** Values may hold braces, commas, quotes and spaces; only the first key may not end the label set. */
  predicate Printable(name: string, labels: Labels) {
    Bare(name) && OneLine(labels) && (labels != [] ==> '}' !in labels[0].0 && ',' !in labels[0].0)
  }

  // -- string lemmas -------------------------------------------------------------------------------

  lemma {:induction false} WordsAround(a: string, b: string, w: string)
    ensures WordsFrom(a + " " + b, w) == WordsFrom(a, w) + WordsFrom(b, "")
  {
    var s := a + " " + b;
    if a == "" {
      assert s[0] == ' ' && s[1..] == b;
    } else {
      assert s[0] == a[0] && s[1..] == a[1..] + " " + b;
      if IsSpace(a[0]) {
        WordsAround(a[1..], b, "");
      } else {
        WordsAround(a[1..], b, w + [a[0]]);
      }
    }
  }

  lemma {:induction false} SolidIsOneWord(v: string, w: string)
    requires forall i :: 0 <= i < |v| ==> !IsSpace(v[i])
    ensures WordsFrom(v, w) == if w + v == "" then [] else [w + v]
  {
    if v != "" {
      SolidIsOneWord(v[1..], w + [v[0]]);
      assert w + [v[0]] + v[1..] == w + v;
    } else {
      assert w + v == w;
    }
  }

  lemma {:induction false} CutAfter(a: string, b: string, c: char)
    requires c !in a
    ensures Cut(a + b, c) == (a + Cut(b, c).0, Cut(b, c).1)
  {
    if a == "" {
      assert a + b == b && a + Cut(b, c).0 == Cut(b, c).0;
    } else {
      assert (a + b)[0] == a[0] && (a + b)[1..] == a[1..] + b;
      CutAfter(a[1..], b, c);
      assert [a[0]] + (a[1..] + Cut(b, c).0) == a + Cut(b, c).0;
    }
  }

  lemma {:induction false} CutFinds(s: string, c: char)
    ensures Cut(s, c).1.Some? <==> c in s
  {
    if s != "" && s[0] != c {
      CutFinds(s[1..], c);
    }
  }

  lemma StripKeeps(s: string)
    requires s != "" && !IsSpace(s[0]) && !IsSpace(s[|s| - 1])
    ensures Strip(s) == s && Strip(s + "\n") == s
  {
    assert (s + "\n")[0] == s[0] && (s + "\n")[..|s|] == s;
  }

  // -- one line ---------------------------------------------------------------------------------------

  lemma {:induction false} SomeLabel(parts: seq<string>)
    requires parts != [] && '=' in parts[0]
    ensures ParseLabels(parts) != []
  {
    var n := |parts| - 1;
    if n == 0 {
      CutFinds(parts[0], '=');
    } else {
      SomeLabel(parts[..n]);
    }
  }

  /** Label text as printed: a brace, a key that ends nothing, and an equals sign. */
  predicate OpensLabels(t: string) {
    exists n :: 1 <= n < |t| && t[0] == '{' && t[n] == '=' && '}' !in t[1..n] && ',' !in t[1..n]
  }

  /** The text between the braces yields a label, whatever its values hold. */
  lemma LabelsFound(t: string)
    requires OpensLabels(t)
    ensures LabelsIn(t[1..]) != []
  {
    var n :| 1 <= n < |t| && t[0] == '{' && t[n] == '=' && '}' !in t[1..n] && ',' !in t[1..n];
    var opening, rest := t[1..n] + "=", t[n + 1..];
    assert t[1..] == opening + rest;
    CutAfter(opening, rest, '}');
    var inside := Cut(rest, '}').0;
    SplitAfter(opening, inside, ',');
    assert opening[n - 1] == '=' && opening[n - 1] in opening + SplitOn(inside, ',')[0];
    SomeLabel(SplitOn(opening + inside, ','));
  }

  lemma CompositeHasEquals(name: string, labels: Labels)
    requires labels != []
    ensures '=' in KeyFor(name, labels)
  {
    SortIsPermutation(KeyBefore, labels);
    var sorted := StableSort(KeyBefore, labels);
    var pairs := JoinPairs(sorted);
    assert pairs[|sorted[0].0|] == '=';
    assert '=' in pairs;
  }

  ghost predicate WellFormed(s: Sample) {
    Bare(s.name) && Solid(s.value) && '\n' !in s.labels && (s.labels == "" || OpensLabels(s.labels))
  }

  lemma LineIsTrim(s: Sample)
    requires WellFormed(s)
    ensures var line := LineOf(s);
      && line != "" && line[0] == s.name[0] && line[|line| - 1] == s.value[|s.value| - 1]
      && Strip(line) == line && '\n' !in line
  {
    var line := LineOf(s);
    assert line[0] == s.name[0] && line[|line| - 1] == s.value[|s.value| - 1];
    StripKeeps(line);
    assert forall i :: 0 <= i < |s.name| ==> !IsSpace(s.name[i]);
    assert forall i :: 0 <= i < |s.value| ==> !IsSpace(s.value[i]);
  }

  lemma LineWords(s: Sample)
    requires WellFormed(s)
    ensures var ws := Words(LineOf(s)); ws != [] && ws[|ws| - 1] == s.value
  {
    WordsAround(s.name + s.labels, s.value, "");
    SolidIsOneWord(s.value, "");
  }

  lemma PlainHead(s: Sample)
    requires WellFormed(s) && s.labels == ""
    ensures HeadOf(LineOf(s)) == Some((s.name, s.name))
  {
    var line := s.name + " " + s.value;
    assert LineOf(s) == line;
    assert '{' !in s.name && '{' !in s.value;
    CutAfter(line, "", '{');
    assert line + "" == line && Cut("", '{') == ("", None);
    assert Cut(line, '{') == (line, None);
    SolidIsOneWord(s.name, "");
    WordsAround(s.name, s.value, "");
    assert Words(line)[0] == s.name;
    assert KeyFor(s.name, []) == s.name;
  }

  lemma LabelledHead(s: Sample)
    requires WellFormed(s) && s.labels != ""
    ensures var h := HeadOf(LineOf(s)); h.Some? && h.value.0 == s.name && '=' in h.value.1
  {
    var t := s.labels + " " + s.value;
    assert LineOf(s) == s.name + t;
    CutAfter(s.name, t, '{');
    assert s.name + "" == s.name;
    SolidIsOneWord(s.name, "");
    assert OpensLabels(t) by {
      var n :| 1 <= n < |s.labels| && s.labels[0] == '{' && s.labels[n] == '=' && '}' !in s.labels[1..n]
        && ',' !in s.labels[1..n];
      assert t[1..n] == s.labels[1..n] && t[n] == '=';
    }
    LabelsFound(t);
    CompositeHasEquals(s.name, LabelsIn(t[1..]));
  }

  /** `p` is what a line made from `s` must parse to: its own name and value, keyed apart exactly when it has labels. */
  predicate ReadsAs(c: Codec, p: Option<Parsed>, s: Sample) {
    && (p.Some? <==> c.read(s.value).Some?)
    && (p.Some? ==> p.value.name == s.name && Some(p.value.value) == c.read(s.value))
    && (p.Some? && s.labels == "" ==> p.value.key == s.name)
    && (p.Some? && s.labels != "" ==> '=' in p.value.key)
  }

  lemma LineParses(c: Codec, s: Sample)
    requires WellFormed(s)
    ensures ReadsAs(c, ParseLine(c, LineOf(s)), s)
  {
    LineIsTrim(s);
    LineWords(s);
    if s.labels == "" {
      PlainHead(s);
    } else {
      LabelledHead(s);
    }
  }

  // -- the whole text ---------------------------------------------------------------------------------

  lemma {:induction false} JoinSplits(lines: seq<string>)
    requires lines != [] && forall i :: 0 <= i < |lines| ==> '\n' !in lines[i]
    ensures SplitOn(Join(lines), '\n') == lines
  {
    if |lines| == 1 {
      SplitWhole(lines[0], '\n');
    } else {
      assert Join(lines) == lines[0] + (['\n'] + Join(lines[1..]));
      SplitAtFirst(lines[0], Join(lines[1..]), '\n');
      JoinSplits(lines[1..]);
    }
  }

  lemma {:induction false} JoinEnds(lines: seq<string>)
    requires lines != [] && forall i :: 0 <= i < |lines| ==> lines[i] != ""
    ensures var j, last := Join(lines), lines[|lines| - 1];
      j != "" && j[0] == lines[0][0] && j[|j| - 1] == last[|last| - 1]
  {
    if |lines| > 1 {
      var rest := Join(lines[1..]);
      JoinEnds(lines[1..]);
      assert Join(lines) == lines[0] + "\n" + rest;
      assert Join(lines)[|Join(lines)| - 1] == rest[|rest| - 1];
    }
  }

  lemma {:induction false} LineAt(samples: seq<Sample>, i: nat)
    requires i < |samples|
    ensures LinesOf(samples)[i] == LineOf(samples[i])
  {
    if i < |samples| - 1 {
      LineAt(samples[..|samples| - 1], i);
    }
  }

  ghost predicate AllWellFormed(samples: seq<Sample>) { forall i :: 0 <= i < |samples| ==> WellFormed(samples[i]) }

  /** The printed text splits back into exactly the lines it was joined from. */
  lemma ExpositionSplits(samples: seq<Sample>)
    requires AllWellFormed(samples)
    ensures SplitOn(Strip(Exposition(samples)), '\n') == if samples == [] then [""] else LinesOf(samples)
  {
    if samples == [] {
      assert Exposition([]) == "\n" && "\n"[1..] == "";
      assert StripLeft("\n") == StripLeft("\n"[1..]) == "";
    } else {
      var lines := LinesOf(samples);
      forall i | 0 <= i < |lines|
        ensures lines[i] != "" && '\n' !in lines[i] && !IsSpace(lines[i][0]) && !IsSpace(lines[i][|lines[i]| - 1])
      {
        LineAt(samples, i);
        LineIsTrim(samples[i]);
      }
      JoinEnds(lines);
      StripKeeps(Join(lines));
      JoinSplits(lines);
    }
  }

  // -- what is kept under one name ------------------------------------------------------------------------

  /** An unlabelled line overwrites, a labelled one adds. */
  function KeepLine(c: Codec, before: Option<real>, s: Sample, name: string): Option<real> {
    var value := c.read(s.value);
    if s.name != name || value.None? then before
    else if s.labels == "" then value
    else Some(before.GetOr(0.0) + value.value)
  }

  function Kept(c: Codec, samples: seq<Sample>, name: string): Option<real> {
    if samples == [] then None
    else KeepLine(c, Kept(c, samples[..|samples| - 1], name), samples[|samples| - 1], name)
  }

  function Lookup(m: map<string, real>, name: string): Option<real> { if name in m then Some(m[name]) else None }

  lemma StoredUnder(m: map<string, real>, p: Parsed, name: string)
    requires p.key == p.name || p.key != name
    ensures Lookup(Store(m, p), name) ==
      if p.name != name && p.key != name then Lookup(m, name)
      else if p.key == p.name then Some(p.value)
      else Some(Lookup(m, name).GetOr(0.0) + p.value)
  {
  }

  lemma ParseLinesSnoc(c: Codec, lines: seq<string>, line: string)
    ensures
      var before, p := ParseLines(c, lines), ParseLine(c, line);
      ParseLines(c, lines + [line]) == if p.None? then before else Store(before, p.value)
  {
    assert (lines + [line])[..|lines|] == lines;
  }

  lemma StoredLine(c: Codec, before: map<string, real>, p: Option<Parsed>, s: Sample, name: string)
    requires ReadsAs(c, p, s) && '=' !in s.name && '=' !in name
    ensures Lookup(if p.None? then before else Store(before, p.value), name) ==
      KeepLine(c, Lookup(before, name), s, name)
  {
    if p.Some? {
      StoredUnder(before, p.value, name);
    }
  }

  lemma ParsedLineKeeps(c: Codec, lines: seq<string>, s: Sample, name: string)
    requires WellFormed(s) && Bare(name)
    ensures Lookup(ParseLines(c, lines + [LineOf(s)]), name) == KeepLine(c, Lookup(ParseLines(c, lines), name), s, name)
  {
    ParseLinesSnoc(c, lines, LineOf(s));
    LineParses(c, s);
    StoredLine(c, ParseLines(c, lines), ParseLine(c, LineOf(s)), s, name);
  }

  lemma {:induction false} ParsedLinesKeep(c: Codec, samples: seq<Sample>, name: string)
    requires AllWellFormed(samples) && Bare(name)
    ensures Lookup(ParseLines(c, LinesOf(samples)), name) == Kept(c, samples, name)
  {
    if samples != [] {
      var n := |samples| - 1;
      var init, last := samples[..n], samples[n];
      ParsedLinesKeep(c, init, name);
      calc {
        Lookup(ParseLines(c, LinesOf(samples)), name);
        Lookup(ParseLines(c, LinesOf(init) + [LineOf(last)]), name);
        { ParsedLineKeeps(c, LinesOf(init), last, name); }
        KeepLine(c, Lookup(ParseLines(c, LinesOf(init)), name), last, name);
        KeepLine(c, Kept(c, init, name), last, name);
        Kept(c, samples, name);
      }
    }
  }

  lemma BlankParsesToNothing(c: Codec)
    ensures ParseLines(c, [""]) == map[]
  {
    assert [""][..0] == [];
  }

  // -- the registry's samples --------------------------------------------------------------------------------

  function SampleOf(c: Codec, e: Entry): Sample { Sample(e.name, FormatLabels(e.labels), c.show(e.value)) }

  function SamplesOf(c: Codec, es: seq<Entry>): (samples: seq<Sample>)
    ensures |samples| == |es|
    ensures forall i :: 0 <= i < |es| ==> samples[i] == SampleOf(c, es[i])
  {
    if es == [] then [] else SamplesOf(c, es[..|es| - 1]) + [SampleOf(c, es[|es| - 1])]
  }

  lemma {:induction false} SeriesSamplesOf(c: Codec, name: string, series: seq<Series>)
    ensures SeriesSamples(c, name, series) == SamplesOf(c, SeriesEntries(name, series))
  {
    if series != [] {
      SeriesSamplesOf(c, name, series[..|series| - 1]);
      assert SeriesEntries(name, series)[..|series| - 1] == SeriesEntries(name, series[..|series| - 1]);
    }
  }

  lemma SamplesOfAppend(c: Codec, a: seq<Entry>, b: seq<Entry>)
    ensures SamplesOf(c, a + b) == SamplesOf(c, a) + SamplesOf(c, b)
  {
  }

  lemma {:induction false} FamilySamplesOf(c: Codec, fs: seq<Family>)
    ensures FamilySamples(c, fs) == SamplesOf(c, Entries(fs))
  {
    if fs != [] {
      var init, f := fs[..|fs| - 1], fs[|fs| - 1];
      calc {
        FamilySamples(c, fs);
        FamilySamples(c, init) + SeriesSamples(c, f.name, f.series);
        { FamilySamplesOf(c, init); SeriesSamplesOf(c, f.name, f.series); }
        SamplesOf(c, Entries(init)) + SamplesOf(c, SeriesEntries(f.name, f.series));
        { SamplesOfAppend(c, Entries(init), SeriesEntries(f.name, f.series)); }
        SamplesOf(c, Entries(fs));
      }
    }
  }

  lemma ListedSnoc(es: seq<Entry>, e: Entry, name: string)
    ensures Listed(es + [e], name) <==> Listed(es, name) || e.name == name
  {
    ListedAppend(es, [e], name);
    assert [e][0].name == name ==> Listed([e], name);
  }

  lemma KeptOfSnoc(c: Codec, samples: seq<Sample>, s: Sample, name: string)
    ensures Kept(c, samples + [s], name) == KeepLine(c, Kept(c, samples, name), s, name)
  {
    assert (samples + [s])[..|samples|] == samples;
  }

  lemma SamplesOfSnoc(c: Codec, es: seq<Entry>, e: Entry)
    ensures SamplesOf(c, es + [e]) == SamplesOf(c, es) + [SampleOf(c, e)]
  {
    assert (es + [e])[..|es|] == es;
  }

  lemma KeptSnoc(c: Codec, es: seq<Entry>, e: Entry, name: string)
    ensures Kept(c, SamplesOf(c, es + [e]), name) == KeepLine(c, Kept(c, SamplesOf(c, es), name), SampleOf(c, e), name)
  {
    SamplesOfSnoc(c, es, e);
    KeptOfSnoc(c, SamplesOf(c, es), SampleOf(c, e), name);
  }

  lemma KeepEntry(c: Codec, before: Option<real>, e: Entry, name: string)
    requires c.read(c.show(e.value)) == Some(e.value)
    ensures KeepLine(c, before, SampleOf(c, e), name) ==
      if e.name != name then before else if e.labels == [] then Some(e.value) else Some(before.GetOr(0.0) + e.value)
  {
  }

  /** Of what was added under a name, the text keeps all but what it forgets. */
  lemma {:induction false} KeptIsTotalLessForgotten(c: Codec, es: seq<Entry>, name: string)
    requires Lawful(c) && EntriesPrint(c.prints, es)
    ensures var kept := Kept(c, SamplesOf(c, es), name);
      && (kept.Some? <==> Listed(es, name))
      && kept.GetOr(0.0) == Total(es, name) - Forgotten(es, name)
  {
    if es != [] {
      var init, last := es[..|es| - 1], es[|es| - 1];
      KeptIsTotalLessForgotten(c, init, name);
      assert es == init + [last];
      KeptSnoc(c, init, last, name);
      KeepEntry(c, Kept(c, SamplesOf(c, init), name), last, name);
      ListedSnoc(init, last, name);
    }
  }

  lemma {:induction false} OthersDoNotMatter(c: Codec, samples: seq<Sample>, others: seq<Sample>, name: string)
    requires forall i :: 0 <= i < |others| ==> others[i].name != name
    ensures Kept(c, samples + others, name) == Kept(c, samples, name)
  {
    if others == [] {
      assert samples + others == samples;
    } else {
      var n := |others| - 1;
      assert (samples + others)[..|samples| + n] == samples + others[..n];
      OthersDoNotMatter(c, samples, others[..n], name);
    }
  }

  lemma {:induction false} LabelItemsOneLine(labels: Labels)
    requires OneLine(labels)
    ensures '\n' !in LabelItems(labels)
  {
    if labels != [] {
      LabelItemsOneLine(labels[1..]);
    }
  }

  lemma OpensWithKey(k: string, rest: string)
    requires '}' !in k && ',' !in k
    ensures OpensLabels("{" + (k + ("=" + rest)))
  {
    var t, n := "{" + (k + ("=" + rest)), |k| + 1;
    assert t[1..n] == k && t[n] == '=';
  }

  lemma KeyThenRest(k: string, v: string, more: string)
    ensures "{" + (k + "=\"" + v + "\"" + more) + "}" == "{" + (k + ("=" + ("\"" + v + "\"" + more + "}")))
  {
  }

  lemma FormattedLabelsOpen(labels: Labels)
    requires labels != [] && '}' !in labels[0].0 && ',' !in labels[0].0
    ensures OpensLabels(FormatLabels(labels))
  {
    var (k, v) := labels[0];
    var more := if |labels| == 1 then "" else "," + LabelItems(labels[1..]);
    assert FormatLabels(labels) == "{" + (k + "=\"" + v + "\"" + more) + "}";
    KeyThenRest(k, v, more);
    OpensWithKey(k, "\"" + v + "\"" + more + "}");
  }

  lemma SamplesAreWellFormed(c: Codec, es: seq<Entry>)
    requires Lawful(c) && AllEntries(Printable, es)
    ensures AllWellFormed(SamplesOf(c, es))
  {
    forall i | 0 <= i < |es| ensures WellFormed(SamplesOf(c, es)[i]) {
      assert Printable(es[i].name, es[i].labels);
      LabelTextFits(es[i].labels);
    }
  }

  /**
   * Print, then parse: for every sequence of counter calls, whatever else the
   * registry holds under other names, the value read under a counter's bare name
   * is everything ever added under it less what stood above its unlabelled line,
   * and the name is missing only when it was never called.
   */
  lemma ParsedIsTotalLessForgotten(c: Codec, calls: seq<Call>, others: seq<Sample>, name: string)
    requires Lawful(c) && Bare(name)
    requires forall i :: 0 <= i < |calls| ==> CallPrints(c, calls[i])
    requires AllWellFormed(others) && forall i :: 0 <= i < |others| ==> others[i].name != name
    ensures
      var text := Exposition(FamilySamples(c, Registry(calls)) + others);
      var found := Lookup(ParseLines(c, SplitOn(Strip(text), '\n')), name);
      && (found.Some? <==> Called(calls, name))
      && found.GetOr(0.0) == CallTotal(calls, name) - Forgotten(Entries(Registry(calls)), name)
  {
    var es := Entries(Registry(calls));
    var samples := FamilySamples(c, Registry(calls)) + others;
    FamilySamplesOf(c, Registry(calls));
    RegistryKeepsAll(Printable, calls);
    EntriesKeepAll(Printable, Registry(calls));
    RegistryPrints(c.prints, calls);
    FamilyEntriesPrint(c.prints, Registry(calls));
    SamplesAreWellFormed(c, es);
    ExpositionSplits(samples);
    BlankParsesToNothing(c);
    ParsedLinesKeep(c, samples, name);
    OthersDoNotMatter(c, SamplesOf(c, es), others, name);
    KeptIsTotalLessForgotten(c, es, name);
    RegistryConservesTotals(calls, name);
    RegistryListsCalled(calls, name);
  }

  lemma {:induction false} LabelledForgetNothing(es: seq<Entry>, name: string)
    requires forall i :: 0 <= i < |es| && es[i].name == name ==> es[i].labels != []
    ensures Forgotten(es, name) == 0.0
  {
    if es != [] {
      LabelledForgetNothing(es[..|es| - 1], name);
    }
  }

  /** A counter whose calls all carry labels reads back as the sum of all its amounts. */
  lemma LabelledCounterReadsTotal(c: Codec, calls: seq<Call>, others: seq<Sample>, name: string)
    requires Lawful(c) && Bare(name)
    requires forall i :: 0 <= i < |calls| ==> CallPrints(c, calls[i])
    requires forall i :: 0 <= i < |calls| && calls[i].name == name ==> calls[i].labels != []
    requires AllWellFormed(others) && forall i :: 0 <= i < |others| ==> others[i].name != name
    ensures
      var text := Exposition(FamilySamples(c, Registry(calls)) + others);
      var found := Lookup(ParseLines(c, SplitOn(Strip(text), '\n')), name);
      found == if Called(calls, name) then Some(CallTotal(calls, name)) else None
  {
    ParsedIsTotalLessForgotten(c, calls, others, name);
    var labelled := (n: string, ls: Labels) => n == name ==> ls != [];
    RegistryKeepsAll(labelled, calls);
    EntriesKeepAll(labelled, Registry(calls));
    var es := Entries(Registry(calls));
    forall i | 0 <= i < |es| && es[i].name == name ensures es[i].labels != [] {
      assert labelled(es[i].name, es[i].labels);
    }
    LabelledForgetNothing(es, name);
  }

  const PATH: Labels := [("path", "/")]
  const MIXED := [Call("errors", PATH, 1.0), Call("errors", [], 2.0)]

  lemma MixedRegistry()
    ensures Registry(MIXED) == [Family("errors", [Series(PATH, 1.0), Series([], 2.0)])]
  {
    assert MIXED[..1] == [MIXED[0]] && [MIXED[0]][..0] == [];
    assert Registry([MIXED[0]]) == [Family("errors", [Series(PATH, 1.0)])];
    assert PATH[..0] == [] && "path" in KeyOf(PATH) && KeyOf([]) == map[];
    assert AddToSeries([Series(PATH, 1.0)], [], 2.0) == [Series(PATH, 1.0), Series([], 2.0)];
  }

  const MIXED_ENTRIES := [Entry("errors", PATH, 1.0), Entry("errors", [], 2.0)]

  lemma MixedEntries()
    ensures Entries(Registry(MIXED)) == MIXED_ENTRIES
  {
    MixedRegistry();
    var f := Family("errors", [Series(PATH, 1.0), Series([], 2.0)]);
    EntriesCons(f, []);
    assert [f] + [] == [f];
    assert SeriesEntries(f.name, f.series) == MIXED_ENTRIES;
    assert MIXED_ENTRIES + Entries([]) == MIXED_ENTRIES;
  }

  lemma MixedForgets()
    ensures Forgotten(MIXED_ENTRIES, "errors") == 1.0
  {
    var a := MIXED_ENTRIES[0];
    assert MIXED_ENTRIES[..1] == [a] && [a][..0] == [];
    assert Total([a], "errors") == 1.0;
  }

  lemma MixedTotal()
    ensures CallTotal(MIXED, "errors") == 3.0 && Called(MIXED, "errors")
  {
    assert MIXED[..1] == [MIXED[0]] && [MIXED[0]][..0] == [];
    assert CallTotal([MIXED[0]], "errors") == 1.0;
    assert MIXED[0].name == "errors";
  }

  /** A name used both with and without labels loses what its labelled calls added before. */
  lemma MixedCounterMissesTotal(c: Codec)
    requires Lawful(c) && c.prints(1.0)
    ensures
      var text := Exposition(FamilySamples(c, Registry(MIXED)));
      CallTotal(MIXED, "errors") == 3.0 && Lookup(ParseLines(c, SplitOn(Strip(text), '\n')), "errors") == Some(2.0)
  {
    MixedEntries();
    MixedForgets();
    MixedTotal();
    MixedCallsPrint(c);
    ParsedIsTotalLessForgotten(c, MIXED, [], "errors");
    assert FamilySamples(c, Registry(MIXED)) + [] == FamilySamples(c, Registry(MIXED));
  }

  lemma MixedCallsPrint(c: Codec)
    requires Lawful(c) && c.prints(1.0)
    ensures Bare("errors") && forall i :: 0 <= i < |MIXED| ==> CallPrints(c, MIXED[i])
  {
    assert c.prints(1.0 + 1.0);
  }

  // -- gauges and histograms beside the counters ------------------------------------------------------

  ghost predicate AllPrintable(name: string, os: seq<Observations>) {
    forall k :: 0 <= k < |os| ==> Printable(name, os[k].labels)
  }

  ghost predicate HistogramsPrintable(hs: seq<Histogram>) {
    forall i :: 0 <= i < |hs| ==> AllPrintable(hs[i].name, hs[i].series)
  }

  lemma SuffixKeepsBare(name: string, suffix: string)
    requires Bare(name) && Solid(suffix) && '=' !in suffix
    ensures Bare(name + suffix)
  {
    var n := name + suffix;
    forall i | 0 <= i < |n| ensures !IsSpace(n[i]) && n[i] != '{' && n[i] != '=' {
      if i < |name| {
        assert n[i] == name[i] && name[i] in name;
      } else {
        assert n[i] == suffix[i - |name|] && suffix[i - |name|] in suffix;
      }
    }
  }

  lemma BucketOpensLabels(labels: Labels)
    requires OneLine(labels)
    ensures var t := "{le=\"+Inf\"}" + FormatLabels(labels); OpensLabels(t) && '\n' !in t
  {
    LabelItemsOneLine(labels);
    var t := "{le=\"+Inf\"}" + FormatLabels(labels);
    assert t[1..3] == "le" && t[3] == '=';
  }

  lemma LabelTextFits(labels: Labels)
    requires OneLine(labels) && (labels != [] ==> '}' !in labels[0].0 && ',' !in labels[0].0)
    ensures var t := FormatLabels(labels); '\n' !in t && (t == "" || OpensLabels(t))
  {
    LabelItemsOneLine(labels);
    if labels != [] {
      FormattedLabelsOpen(labels);
    }
  }

  lemma ObservationSamplesAreWellFormed(c: Codec, name: string, o: Observations)
    requires Lawful(c) && Printable(name, o.labels)
    ensures AllWellFormed(ObservationSamples(c, name, o))
  {
    LabelTextFits(o.labels);
    BucketOpensLabels(o.labels);
    SuffixKeepsBare(name, "_count");
    SuffixKeepsBare(name, "_sum");
    SuffixKeepsBare(name, "_bucket");
    if o.values != [] {
      var labels, n := FormatLabels(o.labels), c.showCount(|o.values|);
      var count, sum := Sample(name + "_count", labels, n), Sample(name + "_sum", labels, c.show(Sum(o.values)));
      var bucket := Sample(name + "_bucket", "{le=\"+Inf\"}" + labels, n);
      assert WellFormed(count) && WellFormed(sum) && WellFormed(bucket);
      assert ObservationSamples(c, name, o) == [count, sum, bucket];
    }
  }

  lemma {:induction false} ObservationsAreWellFormed(c: Codec, name: string, os: seq<Observations>)
    requires Lawful(c) && AllPrintable(name, os)
    ensures AllWellFormed(ObservationsSamples(c, name, os))
  {
    if os != [] {
      ObservationsAreWellFormed(c, name, os[..|os| - 1]);
      ObservationSamplesAreWellFormed(c, name, os[|os| - 1]);
    }
  }

  lemma {:induction false} HistogramsAreWellFormed(c: Codec, hs: seq<Histogram>)
    requires Lawful(c) && HistogramsPrintable(hs)
    ensures AllWellFormed(HistogramSamples(c, hs))
  {
    if hs != [] {
      HistogramsAreWellFormed(c, hs[..|hs| - 1]);
      ObservationsAreWellFormed(c, hs[|hs| - 1].name, hs[|hs| - 1].series);
    }
  }

  lemma OthersAreWellFormed(c: Codec, gauges: seq<Family>, hs: seq<Histogram>)
    requires Lawful(c) && AllFamilies(Printable, gauges) && HistogramsPrintable(hs)
    ensures AllWellFormed(OtherSamples(c, gauges, hs))
  {
    FamilySamplesOf(c, gauges);
    EntriesKeepAll(Printable, gauges);
    SamplesAreWellFormed(c, Entries(gauges));
    HistogramsAreWellFormed(c, hs);
  }

  /** `name` belongs to a counter alone, all of whose calls carried labels. */
  ghost predicate LabelledCounter(c: Codec, calls: seq<Call>, gauges: seq<Family>, hs: seq<Histogram>, name: string) {
    && Bare(name)
    && (forall i :: 0 <= i < |calls| && calls[i].name == name ==> calls[i].labels != [])
    && var others := OtherSamples(c, gauges, hs);
       forall i :: 0 <= i < |others| ==> others[i].name != name
  }

  ghost predicate RegistryPrintable(c: Codec, calls: seq<Call>, gauges: seq<Family>, hs: seq<Histogram>) {
    && (forall i :: 0 <= i < |calls| ==> CallPrints(c, calls[i]))
    && AllFamilies(Printable, gauges) && HistogramsPrintable(hs)
  }

  lemma DictHoldsTotals(c: Codec, calls: seq<Call>, gauges: seq<Family>, hs: seq<Histogram>, name: string)
    requires Lawful(c) && RegistryPrintable(c, calls, gauges, hs) && LabelledCounter(c, calls, gauges, hs, name)
    ensures
      var text := Exposition(FamilySamples(c, Registry(calls)) + OtherSamples(c, gauges, hs));
      Lookup(ParseLines(c, SplitOn(Strip(text), '\n')), name) ==
        if Called(calls, name) then Some(CallTotal(calls, name)) else None
  {
    var others := OtherSamples(c, gauges, hs);
    OthersAreWellFormed(c, gauges, hs);
    LabelledCounterReadsTotal(c, calls, others, name);
  }

  /** What the alert rules see: every labelled counter at the sum of all its calls. */
  method ParseMetricsToDict(m: PrometheusMetrics) returns (result: map<string, real>)
    requires m.Valid() && Lawful(m.codec) && RegistryPrintable(m.codec, m.calls, m.gauges, m.histograms)
    ensures forall name :: LabelledCounter(m.codec, m.calls, m.gauges, m.histograms, name) ==>
      Lookup(result, name) == if Called(m.calls, name) then Some(CallTotal(m.calls, name)) else None
  {
    var text := m.GetMetrics();
    result := ParseMetricsText(m.codec, text);
    forall name | LabelledCounter(m.codec, m.calls, m.gauges, m.histograms, name)
      ensures Lookup(result, name) == if Called(m.calls, name) then Some(CallTotal(m.calls, name)) else None
    {
      DictHoldsTotals(m.codec, m.calls, m.gauges, m.histograms, name);
    }
  }
}
