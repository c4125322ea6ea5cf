// The metrics registry and its text form (telemetry/metrics.py), and the parser
// the alert rules read it with (app/main.py, parse_metrics_text).
module Metrics {
  import opened Prelude
  import opened Text
  import opened IsoTime
  import opened Sorting

  /** A dict of labels in insertion order. */
  type Labels = seq<(string, string)>

  /** How numbers are printed and read back; `prints` holds of those with a finite numeral. */
  datatype Codec = Codec(prints: real -> bool, show: real -> string, showCount: nat -> string,
    read: string -> Option<real>)

  // -- the registry -----------------------------------------------------------------------------

  datatype Series = Series(labels: Labels, value: real)
  datatype Family = Family(name: string, series: seq<Series>)
  datatype Observations = Observations(labels: Labels, values: seq<real>)
  datatype Histogram = Histogram(name: string, series: seq<Observations>)

  /** Label sets are told apart as dicts, not by the order they were given in. */
  function KeyOf(labels: Labels): map<string, string> {
    if labels == [] then map[] else KeyOf(labels[..|labels| - 1])[labels[|labels| - 1].0 := labels[|labels| - 1].1]
  }

  function AddToSeries(series: seq<Series>, labels: Labels, amount: real): seq<Series> {
    if series == [] then [Series(labels, amount)]
    else if KeyOf(series[0].labels) == KeyOf(labels) then [series[0].(value := series[0].value + amount)] + series[1..]
    else [series[0]] + AddToSeries(series[1..], labels, amount)
  }

  function AddToFamilies(fs: seq<Family>, name: string, labels: Labels, amount: real): seq<Family> {
    if fs == [] then [Family(name, AddToSeries([], labels, amount))]
    else if fs[0].name == name then [fs[0].(series := AddToSeries(fs[0].series, labels, amount))] + fs[1..]
    else [fs[0]] + AddToFamilies(fs[1..], name, labels, amount)
  }

  function SetInSeries(series: seq<Series>, labels: Labels, value: real): seq<Series> {
    if series == [] then [Series(labels, value)]
    else if KeyOf(series[0].labels) == KeyOf(labels) then [Series(labels, value)] + series[1..]
    else [series[0]] + SetInSeries(series[1..], labels, value)
  }

  function SetInFamilies(fs: seq<Family>, name: string, labels: Labels, value: real): seq<Family> {
    if fs == [] then [Family(name, [Series(labels, value)])]
    else if fs[0].name == name then [fs[0].(series := SetInSeries(fs[0].series, labels, value))] + fs[1..]
    else [fs[0]] + SetInFamilies(fs[1..], name, labels, value)
  }

  function ObserveInSeries(series: seq<Observations>, labels: Labels, value: real): seq<Observations> {
    if series == [] then [Observations(labels, [value])]
    else if KeyOf(series[0].labels) == KeyOf(labels)
      then [series[0].(values := series[0].values + [value])] + series[1..]
    else [series[0]] + ObserveInSeries(series[1..], labels, value)
  }

  function ObserveIn(hs: seq<Histogram>, name: string, labels: Labels, value: real): seq<Histogram> {
    if hs == [] then [Histogram(name, [Observations(labels, [value])])]
    else if hs[0].name == name then [hs[0].(series := ObserveInSeries(hs[0].series, labels, value))] + hs[1..]
    else [hs[0]] + ObserveIn(hs[1..], name, labels, value)
  }

  /** One call of `counter`, `gauge` or `histogram`; for the latter two `amount` is the value given. */
  datatype Call = Call(name: string, labels: Labels, amount: real)

  /** The counters after these calls. */
  function Registry(calls: seq<Call>): seq<Family> {
    if calls == [] then []
    else
      var last := calls[|calls| - 1];
      AddToFamilies(Registry(calls[..|calls| - 1]), last.name, last.labels, last.amount)
  }

  /** The gauges after these calls, each setting a value. */
  function Settings(calls: seq<Call>): seq<Family> {
    if calls == [] then []
    else
      var last := calls[|calls| - 1];
      SetInFamilies(Settings(calls[..|calls| - 1]), last.name, last.labels, last.amount)
  }

  /** The histograms after these calls, each observing a value. */
  function Observed(calls: seq<Call>): seq<Histogram> {
    if calls == [] then []
    else
      var last := calls[|calls| - 1];
      ObserveIn(Observed(calls[..|calls| - 1]), last.name, last.labels, last.amount)
  }

  // -- printing ---------------------------------------------------------------------------------

  /** One line of output before it is spelled out. */
  datatype Sample = Sample(name: string, labels: string, value: string)

  function LineOf(s: Sample): string { s.name + s.labels + " " + s.value }

  function LabelItems(labels: Labels): string {
    if labels == [] then ""
    else labels[0].0 + "=\"" + labels[0].1 + "\"" + (if |labels| == 1 then "" else "," + LabelItems(labels[1..]))
  }

  function FormatLabels(labels: Labels): string {
    if labels == [] then "" else "{" + LabelItems(labels) + "}"
  }

  function SeriesSamples(c: Codec, name: string, series: seq<Series>): seq<Sample> {
    if series == [] then []
    else SeriesSamples(c, name, series[..|series| - 1])
         + [Sample(name, FormatLabels(series[|series| - 1].labels), c.show(series[|series| - 1].value))]
  }

  function FamilySamples(c: Codec, fs: seq<Family>): seq<Sample> {
    if fs == [] then []
    else FamilySamples(c, fs[..|fs| - 1]) + SeriesSamples(c, fs[|fs| - 1].name, fs[|fs| - 1].series)
  }

  function ObservationSamples(c: Codec, name: string, o: Observations): seq<Sample> {
    if o.values == [] then []
    else
      var labels, n := FormatLabels(o.labels), c.showCount(|o.values|);
      [Sample(name + "_count", labels, n), Sample(name + "_sum", labels, c.show(Sum(o.values))),
       Sample(name + "_bucket", "{le=\"+Inf\"}" + labels, n)]
  }

  function ObservationsSamples(c: Codec, name: string, os: seq<Observations>): seq<Sample> {
    if os == [] then []
    else ObservationsSamples(c, name, os[..|os| - 1]) + ObservationSamples(c, name, os[|os| - 1])
  }

  function HistogramSamples(c: Codec, hs: seq<Histogram>): seq<Sample> {
    if hs == [] then []
    else HistogramSamples(c, hs[..|hs| - 1]) + ObservationsSamples(c, hs[|hs| - 1].name, hs[|hs| - 1].series)
  }

  /** The lines that are not counters. */
  function OtherSamples(c: Codec, gauges: seq<Family>, hs: seq<Histogram>): seq<Sample> {
    FamilySamples(c, gauges) + HistogramSamples(c, hs)
  }

  function LinesOf(samples: seq<Sample>): (lines: seq<string>)
    ensures |lines| == |samples|
  {
    if samples == [] then [] else LinesOf(samples[..|samples| - 1]) + [LineOf(samples[|samples| - 1])]
  }

  function Join(lines: seq<string>): string {
    if lines == [] then "" else if |lines| == 1 then lines[0] else lines[0] + "\n" + Join(lines[1..])
  }

  function Exposition(samples: seq<Sample>): string { Join(LinesOf(samples)) + "\n" }

  class PrometheusMetrics {
    const codec: Codec
    var counters: seq<Family>
    var gauges: seq<Family>
    var histograms: seq<Histogram>
    ghost var calls: seq<Call>
    ghost var settings: seq<Call>
    ghost var observations: seq<Call>

    ghost predicate Valid()
      reads this
    {
      counters == Registry(calls) && gauges == Settings(settings) && histograms == Observed(observations)
    }

    constructor (codec: Codec)
      ensures Valid()
      ensures this.codec == codec && calls == [] && settings == [] && observations == []
    {
      this.codec := codec;
      counters, gauges, histograms, calls, settings, observations := [], [], [], [], [], [];
    }

    method Counter(name: string, labels: Labels, amount: real)
      requires Valid()
      modifies this`counters, this`calls
      ensures Valid()
      ensures calls == old(calls) + [Call(name, labels, amount)]
      ensures counters == AddToFamilies(old(counters), name, labels, amount)
    {
      counters := AddToFamilies(counters, name, labels, amount);
      calls := calls + [Call(name, labels, amount)];
      assert calls[..|calls| - 1] == old(calls);
    }

    method Gauge(name: string, labels: Labels, value: real)
      requires Valid()
      modifies this`gauges, this`settings
      ensures Valid()
      ensures settings == old(settings) + [Call(name, labels, value)]
    {
      gauges := SetInFamilies(gauges, name, labels, value);
      settings := settings + [Call(name, labels, value)];
      assert settings[..|settings| - 1] == old(settings);
    }

    method Observe(name: string, labels: Labels, value: real)
      requires Valid()
      modifies this`histograms, this`observations
      ensures Valid()
      ensures observations == old(observations) + [Call(name, labels, value)]
    {
      histograms := ObserveIn(histograms, name, labels, value);
      observations := observations + [Call(name, labels, value)];
      assert observations[..|observations| - 1] == old(observations);
    }

    function Samples(): seq<Sample>
      reads this
    {
      FamilySamples(codec, counters) + OtherSamples(codec, gauges, histograms)
    }

    method GetMetrics() returns (text: string)
      ensures text == Exposition(Samples())
    {
      var samples := FamilyList(codec, counters);
      var others := FamilyList(codec, gauges);
      var more := HistogramList(codec, histograms);
      others := others + more;
      text := Exposition(samples + others);
    }
  }

  method FamilyList(c: Codec, fs: seq<Family>) returns (samples: seq<Sample>)
    ensures samples == FamilySamples(c, fs)
  {
    samples := [];
    for i := 0 to |fs|
      invariant samples == FamilySamples(c, fs[..i])
    {
      assert fs[..i + 1][..i] == fs[..i];
      ghost var before := samples;
      for k := 0 to |fs[i].series|
        invariant samples == before + SeriesSamples(c, fs[i].name, fs[i].series[..k])
      {
        assert fs[i].series[..k + 1][..k] == fs[i].series[..k];
        samples := samples + [Sample(fs[i].name, FormatLabels(fs[i].series[k].labels), c.show(fs[i].series[k].value))];
      }
      assert fs[i].series[..|fs[i].series|] == fs[i].series;
    }
    assert fs[..|fs|] == fs;
  }

  method ObservationsList(c: Codec, name: string, os: seq<Observations>) returns (samples: seq<Sample>)
    ensures samples == ObservationsSamples(c, name, os)
  {
    samples := [];
    for i := 0 to |os|
      invariant samples == ObservationsSamples(c, name, os[..i])
    {
      assert os[..i + 1][..i] == os[..i];
      samples := samples + ObservationSamples(c, name, os[i]);
    }
    assert os[..|os|] == os;
  }

  method HistogramList(c: Codec, hs: seq<Histogram>) returns (samples: seq<Sample>)
    ensures samples == HistogramSamples(c, hs)
  {
    samples := [];
    for i := 0 to |hs|
      invariant samples == HistogramSamples(c, hs[..i])
    {
      assert hs[..i + 1][..i] == hs[..i];
      var more := ObservationsList(c, hs[i].name, hs[i].series);
      samples := samples + more;
    }
    assert hs[..|hs|] == hs;
  }

  // -- parsing ----------------------------------------------------------------------------------

  /** What precedes the first `c`, and what follows it if there is one. */
  function Cut(s: string, c: char): (string, Option<string>) {
    if s == "" then ("", None)
    else if s[0] == c then ("", Some(s[1..]))
    else
      var (head, tail) := Cut(s[1..], c);
      ([s[0]] + head, tail)
  }

  function StripQuotesLeft(s: string): string { if s != "" && s[0] == '"' then StripQuotesLeft(s[1..]) else s }
  function StripQuotesRight(s: string): string {
    if s != "" && s[|s| - 1] == '"' then StripQuotesRight(s[..|s| - 1]) else s
  }

  /** Dict assignment: replace in place or append. */
  function Assign(labels: Labels, k: string, v: string): Labels {
    if labels == [] then [(k, v)]
    else if labels[0].0 == k then [(k, v)] + labels[1..]
    else [labels[0]] + Assign(labels[1..], k, v)
  }

  function ParseLabels(parts: seq<string>): Labels {
    if parts == [] then []
    else
      var before, cut := ParseLabels(parts[..|parts| - 1]), Cut(parts[|parts| - 1], '=');
      if cut.1.None? then before else Assign(before, cut.0, StripQuotesRight(StripQuotesLeft(cut.1.value)))
  }

  predicate KeyBefore(a: (string, string), b: (string, string)) { LexLess(a.0, b.0) }

  function JoinPairs(labels: Labels): string {
    if labels == [] then ""
    else labels[0].0 + "=" + labels[0].1 + (if |labels| == 1 then "" else "_" + JoinPairs(labels[1..]))
  }

  datatype Parsed = Parsed(name: string, key: string, value: real)

  /** The labels in what follows the first brace of a line. */
  function LabelsIn(tail: string): Labels { ParseLabels(SplitOn(Cut(tail, '}').0, ',')) }

  function KeyFor(name: string, labels: Labels): string {
    if labels == [] then name else name + "_" + JoinPairs(StableSort(KeyBefore, labels))
  }

  /** The name and full key a line stands for; None for one that opens with a brace. */
  function HeadOf(line: string): Option<(string, string)> {
    var head := Cut(line, '{');
    var words := Words(head.0);
    if words == [] then None
    else Some((words[0], KeyFor(words[0], if head.1.None? then [] else LabelsIn(head.1.value))))
  }

  /** None for a blank, a comment, or a line whose last word is not a number. */
  function ParseLine(c: Codec, raw: string): Option<Parsed> {
    var line := Strip(raw);
    var words := Words(line);
    if line == "" || line[0] == '#' || words == [] then None
    else
      var value, head := c.read(words[|words| - 1]), HeadOf(line);
      if value.None? || head.None? then None else Some(Parsed(head.value.0, head.value.1, value.value))
  }

  function Store(result: map<string, real>, p: Parsed): map<string, real> {
    var stored := result[p.key := p.value];
    if p.key == p.name then stored
    else stored[p.name := (if p.name in stored then stored[p.name] else 0.0) + p.value]
  }

  function ParseLines(c: Codec, lines: seq<string>): map<string, real> {
    if lines == [] then map[]
    else
      var before := ParseLines(c, lines[..|lines| - 1]);
      match ParseLine(c, lines[|lines| - 1])
      case None => before
      case Some(p) => Store(before, p)
  }

  method ParseMetricsText(c: Codec, output: string) returns (result: map<string, real>)
    ensures result == ParseLines(c, SplitOn(Strip(output), '\n'))
  {
    var lines := SplitOn(Strip(output), '\n');
    result := map[];
    for i := 0 to |lines|
      invariant result == ParseLines(c, lines[..i])
    {
      assert lines[..i + 1][..i] == lines[..i];
      var p := ParseLine(c, lines[i]);
      if p.Some? {
        result := Store(result, p.value);
      }
    }
    assert lines[..|lines|] == lines;
  }
}
