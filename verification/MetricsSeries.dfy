// What the registry holds under one name, against the calls that used it: gauges,
// histograms, and the order in which a counter's series stand.
module MetricsSeries {
  import opened Prelude
  import Text
  import opened Metrics
  import opened MetricsTotals
  import opened MetricsScrape

  type Key = map<string, string>

  // -- gauges -------------------------------------------------------------------------------------

  function SeriesAt(series: seq<Series>, key: Key): Option<real> {
    if series == [] then None
    else if KeyOf(series[0].labels) == key then Some(series[0].value)
    else SeriesAt(series[1..], key)
  }

  /** What the registry holds under this name and these labels. */
  function FamilyAt(fs: seq<Family>, name: string, key: Key): Option<real> {
    if fs == [] then None
    else if fs[0].name == name then SeriesAt(fs[0].series, key)
    else FamilyAt(fs[1..], name, key)
  }

  /** The value last given under this name and these labels. */
  function LastGiven(calls: seq<Call>, name: string, key: Key): Option<real> {
    if calls == [] then None
    else
      var last := calls[|calls| - 1];
      if last.name == name && KeyOf(last.labels) == key then Some(last.amount)
      else LastGiven(calls[..|calls| - 1], name, key)
  }

  lemma {:induction false} SetInSeriesReads(series: seq<Series>, labels: Labels, value: real, key: Key)
    ensures SeriesAt(SetInSeries(series, labels, value), key) ==
      if key == KeyOf(labels) then Some(value) else SeriesAt(series, key)
  {
    if series != [] && KeyOf(series[0].labels) != KeyOf(labels) {
      SetInSeriesReads(series[1..], labels, value, key);
    }
  }

  lemma {:induction false} SetInFamiliesReads(
    fs: seq<Family>, name: string, labels: Labels, value: real, n: string, key: Key)
    ensures FamilyAt(SetInFamilies(fs, name, labels, value), n, key) ==
      if n == name && key == KeyOf(labels) then Some(value) else FamilyAt(fs, n, key)
  {
    if fs == [] {
      SetInSeriesReads([], labels, value, key);
      assert FamilyAt(SetInFamilies(fs, name, labels, value)[1..], n, key) == None;
    } else if fs[0].name == name {
      SetInSeriesReads(fs[0].series, labels, value, key);
    } else {
      SetInFamiliesReads(fs[1..], name, labels, value, n, key);
    }
  }

  /** For every sequence of calls, a gauge holds the value last given to it, and no other gauge's. */
  lemma {:induction false} GaugeHoldsLastValue(calls: seq<Call>, name: string, key: Key)
    ensures FamilyAt(Settings(calls), name, key) == LastGiven(calls, name, key)
  {
    if calls != [] {
      var last := calls[|calls| - 1];
      GaugeHoldsLastValue(calls[..|calls| - 1], name, key);
      SetInFamiliesReads(Settings(calls[..|calls| - 1]), last.name, last.labels, last.amount, name, key);
    }
  }

  // -- histograms -----------------------------------------------------------------------------------

  function ObservationsAt(os: seq<Observations>, key: Key): seq<real> {
    if os == [] then []
    else if KeyOf(os[0].labels) == key then os[0].values
    else ObservationsAt(os[1..], key)
  }

  function HistogramAt(hs: seq<Histogram>, name: string, key: Key): seq<real> {
    if hs == [] then []
    else if hs[0].name == name then ObservationsAt(hs[0].series, key)
    else HistogramAt(hs[1..], name, key)
  }

  /** Every value given under this name and these labels, in order. */
  function AllGiven(calls: seq<Call>, name: string, key: Key): seq<real> {
    if calls == [] then []
    else
      var last := calls[|calls| - 1];
      AllGiven(calls[..|calls| - 1], name, key)
      + if last.name == name && KeyOf(last.labels) == key then [last.amount] else []
  }

  lemma {:induction false} ObserveInSeriesReads(os: seq<Observations>, labels: Labels, value: real, key: Key)
    ensures ObservationsAt(ObserveInSeries(os, labels, value), key) ==
      ObservationsAt(os, key) + if key == KeyOf(labels) then [value] else []
  {
    if os != [] && KeyOf(os[0].labels) != KeyOf(labels) {
      ObserveInSeriesReads(os[1..], labels, value, key);
    }
  }

  lemma {:induction false} ObserveInReads(
      hs: seq<Histogram>, name: string, labels: Labels, value: real, n: string, key: Key)
    ensures HistogramAt(ObserveIn(hs, name, labels, value), n, key) ==
      HistogramAt(hs, n, key) + if n == name && key == KeyOf(labels) then [value] else []
  {
    if hs == [] {
      ObserveInSeriesReads([], labels, value, key);
      assert HistogramAt(ObserveIn(hs, name, labels, value)[1..], n, key) == [];
    } else if hs[0].name == name {
      ObserveInSeriesReads(hs[0].series, labels, value, key);
    } else {
      ObserveInReads(hs[1..], name, labels, value, n, key);
    }
  }

  /** For every sequence of calls, a histogram holds exactly what was observed, in order. */
  lemma {:induction false} HistogramHoldsAll(calls: seq<Call>, name: string, key: Key)
    ensures HistogramAt(Observed(calls), name, key) == AllGiven(calls, name, key)
  {
    if calls != [] {
      var init, last := calls[..|calls| - 1], calls[|calls| - 1];
      HistogramHoldsAll(init, name, key);
      ObserveInReads(Observed(init), last.name, last.labels, last.amount, name, key);
    }
  }

  lemma {:induction false} ObservationsPrinted(
      c: Codec, name: string, os: seq<Observations>, key: Key) returns (o: Observations)
    requires ObservationsAt(os, key) != []
    ensures KeyOf(o.labels) == key && o.values == ObservationsAt(os, key)
    ensures forall s :: s in ObservationSamples(c, name, o) ==> s in ObservationsSamples(c, name, os)
  {
    if KeyOf(os[0].labels) == key {
      o := os[0];
      ObservationsListed(c, name, os, 0);
    } else {
      o := ObservationsPrinted(c, name, os[1..], key);
      ObservationsTail(c, name, os);
    }
  }

  lemma {:induction false} ObservationsListed(c: Codec, name: string, os: seq<Observations>, k: nat)
    requires k < |os|
    ensures forall s :: s in ObservationSamples(c, name, os[k]) ==> s in ObservationsSamples(c, name, os)
  {
    if k < |os| - 1 {
      ObservationsListed(c, name, os[..|os| - 1], k);
    }
  }

  lemma {:induction false} ObservationsTail(c: Codec, name: string, os: seq<Observations>)
    requires os != []
    ensures forall s :: s in ObservationsSamples(c, name, os[1..]) ==> s in ObservationsSamples(c, name, os)
  {
    if |os| > 1 {
      var init := os[..|os| - 1];
      ObservationsTail(c, name, init);
      assert os[1..][..|os| - 2] == init[1..];
    }
  }

  lemma {:induction false} HistogramListed(c: Codec, hs: seq<Histogram>, k: nat)
    requires k < |hs|
    ensures forall s :: s in ObservationsSamples(c, hs[k].name, hs[k].series) ==> s in HistogramSamples(c, hs)
  {
    if k < |hs| - 1 {
      HistogramListed(c, hs[..|hs| - 1], k);
    }
  }

  lemma {:induction false} HistogramFound(hs: seq<Histogram>, name: string, key: Key) returns (k: nat)
    requires HistogramAt(hs, name, key) != []
    ensures k < |hs| && hs[k].name == name && ObservationsAt(hs[k].series, key) == HistogramAt(hs, name, key)
  {
    if hs[0].name == name {
      k := 0;
    } else {
      k := HistogramFound(hs[1..], name, key);
      k := k + 1;
    }
  }

  /** The lines printed for a histogram give the number of its observations and their sum. */
  lemma HistogramPrintsCountAndSum(c: Codec, calls: seq<Call>, name: string, key: Key) returns (labels: Labels)
    requires AllGiven(calls, name, key) != []
    ensures
      var given, lines := AllGiven(calls, name, key), HistogramSamples(c, Observed(calls));
      && KeyOf(labels) == key
      && Sample(name + "_count", FormatLabels(labels), c.showCount(|given|)) in lines
      && Sample(name + "_sum", FormatLabels(labels), c.show(Sum(given))) in lines
  {
    var hs := Observed(calls);
    HistogramHoldsAll(calls, name, key);
    var k := HistogramFound(hs, name, key);
    HistogramListed(c, hs, k);
    var o := ObservationsPrinted(c, name, hs[k].series, key);
    labels := o.labels;
    var lines := ObservationSamples(c, name, o);
    assert lines[0] in lines && lines[1] in lines;
  }

  // -- the order of a counter's series -----------------------------------------------------------------

  /** The series of the family of this name. */
  function SeriesOf(fs: seq<Family>, name: string): seq<Series> {
    if fs == [] then [] else if fs[0].name == name then fs[0].series else SeriesOf(fs[1..], name)
  }

  lemma {:induction false} SeriesOfAdded(fs: seq<Family>, name: string, labels: Labels, amount: real, n: string)
    ensures SeriesOf(AddToFamilies(fs, name, labels, amount), n) ==
      if n == name then AddToSeries(SeriesOf(fs, name), labels, amount) else SeriesOf(fs, n)
  {
    if fs == [] {
      assert SeriesOf(AddToFamilies(fs, name, labels, amount)[1..], n) == [];
    } else if fs[0].name != name {
      SeriesOfAdded(fs[1..], name, labels, amount, n);
    }
  }

  function NamesOf(fs: seq<Family>): (names: seq<string>)
    ensures |names| == |fs| && forall i :: 0 <= i < |fs| ==> names[i] == fs[i].name
  {
    if fs == [] then [] else [fs[0].name] + NamesOf(fs[1..])
  }

  ghost predicate DistinctFamilies(fs: seq<Family>) { NoDuplicates(NamesOf(fs)) }

  lemma {:induction false} AddedNames(fs: seq<Family>, name: string, labels: Labels, amount: real)
    ensures NamesOf(AddToFamilies(fs, name, labels, amount)) ==
      NamesOf(fs) + if name in NamesOf(fs) then [] else [name]
  {
    if fs != [] && fs[0].name != name {
      var rest := AddToFamilies(fs[1..], name, labels, amount);
      AddedNames(fs[1..], name, labels, amount);
      assert ([fs[0]] + rest)[1..] == rest;
    }
  }

  lemma AddKeepsNames(fs: seq<Family>, name: string, labels: Labels, amount: real)
    requires DistinctFamilies(fs)
    ensures DistinctFamilies(AddToFamilies(fs, name, labels, amount))
  {
    AddedNames(fs, name, labels, amount);
  }

  lemma {:induction false} RegistryNamesOnce(calls: seq<Call>)
    ensures DistinctFamilies(Registry(calls))
  {
    if calls != [] {
      var last := calls[|calls| - 1];
      RegistryNamesOnce(calls[..|calls| - 1]);
      AddKeepsNames(Registry(calls[..|calls| - 1]), last.name, last.labels, last.amount);
    }
  }

  // -- what is forgotten, family by family -----------------------------------------------------------------

  lemma {:induction false} OthersForgetNothing(es: seq<Entry>, others: seq<Entry>, name: string)
    requires !Listed(others, name)
    ensures Forgotten(es + others, name) == Forgotten(es, name) && Total(es + others, name) == Total(es, name)
  {
    if others == [] {
      assert es + others == es;
    } else {
      var n := |others| - 1;
      assert (es + others)[..|es| + n] == es + others[..n];
      assert others[n].name != name && !Listed(others[..n], name) by {
        assert forall i :: 0 <= i < n ==> others[..n][i] == others[i];
      }
      OthersForgetNothing(es, others[..n], name);
    }
  }

  lemma {:induction false} ForgottenAfterOthers(others: seq<Entry>, es: seq<Entry>, name: string)
    requires !Listed(others, name)
    ensures Forgotten(others + es, name) == Forgotten(es, name)
  {
    if es == [] {
      assert others + es == [] + others;
      OthersForgetNothing([], others, name);
    } else {
      var n := |es| - 1;
      assert (others + es)[..|others| + n] == others + es[..n];
      ForgottenAfterOthers(others, es[..n], name);
      TotalAppend(others, es[..n], name);
      assert [] + others == others;
      OthersForgetNothing([], others, name);
    }
  }

  lemma {:induction false} NoFamilyNoEntry(fs: seq<Family>, name: string)
    requires forall i :: 0 <= i < |fs| ==> fs[i].name != name
    ensures !Listed(Entries(fs), name) && SeriesOf(fs, name) == []
  {
    if fs != [] {
      assert fs == [fs[0]] + fs[1..];
      NoFamilyNoEntry(fs[1..], name);
      EntriesCons(fs[0], fs[1..]);
      ListedAppend(SeriesEntries(fs[0].name, fs[0].series), Entries(fs[1..]), name);
    }
  }

  /** What is forgotten of a name is told by its own series. */
  lemma {:induction false} ForgottenOfFamily(fs: seq<Family>, name: string)
    requires DistinctFamilies(fs)
    ensures Forgotten(Entries(fs), name) == Forgotten(SeriesEntries(name, SeriesOf(fs, name)), name)
  {
    if fs != [] {
      assert fs == [fs[0]] + fs[1..];
      EntriesCons(fs[0], fs[1..]);
      var head := SeriesEntries(fs[0].name, fs[0].series);
      if fs[0].name == name {
        assert forall i :: 1 <= i < |fs| ==> NamesOf(fs)[i] != NamesOf(fs)[0];
        assert forall i :: 0 <= i < |fs[1..]| ==> fs[1..][i] == fs[i + 1];
        NoFamilyNoEntry(fs[1..], name);
        OthersForgetNothing(head, Entries(fs[1..]), name);
      } else {
        ForgottenOfFamily(fs[1..], name);
        ForgottenAfterOthers(head, Entries(fs[1..]), name);
      }
    }
  }

  // -- one family ----------------------------------------------------------------------------------------------

  predicate DistinctKeys(series: seq<Series>) {
    forall i, j :: 0 <= i < j < |series| ==> KeyOf(series[i].labels) != KeyOf(series[j].labels)
  }

  predicate Labelled(series: seq<Series>, labels: Labels) {
    exists k :: 0 <= k < |series| && series[k].labels == labels
  }

  predicate AllPositive(series: seq<Series>) { forall i :: 0 <= i < |series| ==> series[i].value > 0.0 }

  predicate HasBare(series: seq<Series>) { exists i :: 0 <= i < |series| && series[i].labels == [] }

  lemma EmptyKeyIsBare(labels: Labels)
    ensures KeyOf(labels) == map[] <==> labels == []
  {
    if labels != [] {
      assert labels[|labels| - 1].0 in KeyOf(labels);
    }
  }

  lemma {:induction false} PositiveTotal(name: string, series: seq<Series>)
    requires AllPositive(series)
    ensures Total(SeriesEntries(name, series), name) >= 0.0
    ensures Total(SeriesEntries(name, series), name) == 0.0 <==> series == []
  {
    SeriesTotal(name, series, name);
    PositiveSum(series);
  }

  lemma {:induction false} PositiveSum(series: seq<Series>)
    requires AllPositive(series)
    ensures SeriesSum(series) >= 0.0 && (SeriesSum(series) == 0.0 <==> series == [])
  {
    if series != [] {
      PositiveSum(series[1..]);
    }
  }

  /** Nothing is forgotten exactly when no series is bare, or the first one is. */
  lemma {:induction false} NothingForgottenIff(name: string, series: seq<Series>)
    requires DistinctKeys(series) && AllPositive(series)
    ensures Forgotten(SeriesEntries(name, series), name) == 0.0 <==> !HasBare(series) || series[0].labels == []
  {
    if series != [] {
      var n := |series| - 1;
      var init, es := series[..n], SeriesEntries(name, series);
      assert es[..n] == SeriesEntries(name, init) && es[n] == Entry(name, series[n].labels, series[n].value);
      assert forall i :: 0 <= i < n ==> init[i] == series[i];
      if series[n].labels == [] {
        PositiveTotal(name, init);
        assert HasBare(series);
        if n > 0 {
          EmptyKeyIsBare(series[0].labels);
          EmptyKeyIsBare(series[n].labels);
        }
      } else {
        NothingForgottenIff(name, init);
        assert HasBare(series) <==> HasBare(init);
      }
    }
  }

  lemma {:induction false} AddToSeriesShape(series: seq<Series>, labels: Labels, amount: real)
    requires DistinctKeys(series) && AllPositive(series) && amount > 0.0
    ensures var after := AddToSeries(series, labels, amount);
      && DistinctKeys(after) && AllPositive(after) && after != []
      && (series != [] ==> KeyOf(after[0].labels) == KeyOf(series[0].labels))
      && (series == [] ==> after[0].labels == labels)
      && (forall i :: 0 <= i < |after| ==>
            KeyOf(after[i].labels) == KeyOf(labels) || Labelled(series, after[i].labels))
      && (HasBare(after) <==> HasBare(series) || labels == [])
  {
    EmptyKeyIsBare(labels);
    var after := AddToSeries(series, labels, amount);
    if series == [] {
      assert after[0].labels == labels;
    } else if KeyOf(series[0].labels) == KeyOf(labels) {
      EmptyKeyIsBare(series[0].labels);
      assert forall i :: 0 <= i < |series| ==> after[i].labels == series[i].labels;
    } else {
      var rest := AddToSeries(series[1..], labels, amount);
      AddToSeriesShape(series[1..], labels, amount);
      AddedTailShape(series, rest, labels);
    }
  }

  lemma AddedTailShape(series: seq<Series>, rest: seq<Series>, labels: Labels)
    requires series != [] && DistinctKeys(series) && DistinctKeys(rest) && KeyOf(series[0].labels) != KeyOf(labels)
    requires forall i :: 0 <= i < |rest| ==>
      KeyOf(rest[i].labels) == KeyOf(labels) || Labelled(series[1..], rest[i].labels)
    requires HasBare(rest) <==> HasBare(series[1..]) || labels == []
    ensures var after := [series[0]] + rest;
      && DistinctKeys(after)
      && (forall i :: 0 <= i < |after| ==>
            KeyOf(after[i].labels) == KeyOf(labels) || Labelled(series, after[i].labels))
      && (HasBare(after) <==> HasBare(series) || labels == [])
  {
    var after := [series[0]] + rest;
    forall i | 1 <= i < |after|
      ensures KeyOf(after[i].labels) != KeyOf(series[0].labels)
      ensures KeyOf(after[i].labels) == KeyOf(labels) || Labelled(series, after[i].labels)
    {
      assert after[i] == rest[i - 1];
      if KeyOf(rest[i - 1].labels) != KeyOf(labels) {
        var k :| 0 <= k < |series[1..]| && series[1..][k].labels == rest[i - 1].labels;
        assert series[k + 1].labels == after[i].labels;
      }
    }
    BareCons(series[0], rest);
    BareCons(series[0], series[1..]);
    assert series == [series[0]] + series[1..];
  }

  lemma BareCons(s: Series, rest: seq<Series>)
    ensures HasBare([s] + rest) <==> s.labels == [] || HasBare(rest)
  {
    var all := [s] + rest;
    if HasBare(rest) {
      var i :| 0 <= i < |rest| && rest[i].labels == [];
      assert all[i + 1].labels == [];
    }
    if s.labels == [] {
      assert all[0].labels == [];
    }
  }

  // -- the calls -------------------------------------------------------------------------------------------------

  predicate BareCall(calls: seq<Call>, name: string) {
    exists i :: 0 <= i < |calls| && calls[i].name == name && calls[i].labels == []
  }

  /** The labels of the first call under this name. */
  function FirstLabels(calls: seq<Call>, name: string): Option<Labels> {
    if calls == [] then None
    else
      var before := FirstLabels(calls[..|calls| - 1], name);
      if before.Some? then before
      else if calls[|calls| - 1].name == name then Some(calls[|calls| - 1].labels)
      else None
  }

  predicate PositiveCalls(calls: seq<Call>, name: string) {
    forall i :: 0 <= i < |calls| && calls[i].name == name ==> calls[i].amount > 0.0
  }

  lemma BareCallSnoc(calls: seq<Call>, name: string)
    requires calls != []
    ensures var last := calls[|calls| - 1];
      BareCall(calls, name) <==> BareCall(calls[..|calls| - 1], name) || (last.name == name && last.labels == [])
  {
    var init := calls[..|calls| - 1];
    assert forall i :: 0 <= i < |init| ==> init[i] == calls[i];
    if BareCall(init, name) {
      var i :| 0 <= i < |init| && init[i].name == name && init[i].labels == [];
      assert calls[i].name == name && calls[i].labels == [];
    }
  }

  lemma {:induction false} SeriesFollowCalls(calls: seq<Call>, name: string)
    requires PositiveCalls(calls, name)
    ensures var series := SeriesOf(Registry(calls), name);
      && DistinctKeys(series) && AllPositive(series)
      && (HasBare(series) <==> BareCall(calls, name))
      && (series == [] <==> FirstLabels(calls, name).None?)
      && (series != [] ==> KeyOf(series[0].labels) == KeyOf(FirstLabels(calls, name).value))
  {
    if calls != [] {
      var init, last := calls[..|calls| - 1], calls[|calls| - 1];
      assert forall i :: 0 <= i < |init| ==> init[i] == calls[i];
      SeriesFollowCalls(init, name);
      BareCallSnoc(calls, name);
      SeriesOfAdded(Registry(init), last.name, last.labels, last.amount, name);
      if last.name == name {
        AddToSeriesShape(SeriesOf(Registry(init), name), last.labels, last.amount);
      }
    }
  }

  /**
   * With positive amounts, a name reads as the sum of all its calls if and only if
   * none of them was unlabelled, or the first one was.
   */
  lemma ParsedIsTotalIff(c: Codec, calls: seq<Call>, others: seq<Sample>, name: string)
    requires Lawful(c) && Bare(name) && PositiveCalls(calls, name)
    requires forall i :: 0 <= i < |calls| ==> CallPrints(c, calls[i])
    requires AllWellFormed(others) && forall i :: 0 <= i < |others| ==> others[i].name != name
    ensures
      var text := Exposition(FamilySamples(c, Registry(calls)) + others);
      var found := Lookup(ParseLines(c, Text.SplitOn(Text.Strip(text), '\n')), name);
      found.GetOr(0.0) == CallTotal(calls, name)
      <==> !BareCall(calls, name) || FirstLabels(calls, name) == Some([])
  {
    var series := SeriesOf(Registry(calls), name);
    ParsedIsTotalLessForgotten(c, calls, others, name);
    RegistryNamesOnce(calls);
    ForgottenOfFamily(Registry(calls), name);
    SeriesFollowCalls(calls, name);
    NothingForgottenIff(name, series);
    if series != [] {
      EmptyKeyIsBare(series[0].labels);
      EmptyKeyIsBare(FirstLabels(calls, name).value);
    }
  }
}
