// What an alert rule reads back under a counter's bare name: the text the registry
// prints, parsed, against the calls that filled the registry.
module MetricsTotals {
  import opened Metrics

  // -- the calls and the entries they leave --------------------------------------------------------

  /** One printed counter or gauge line, before it is printed. */
  datatype Entry = Entry(name: string, labels: Labels, value: real)

  function SeriesEntries(name: string, series: seq<Series>): (es: seq<Entry>)
    ensures |es| == |series|
    ensures forall i :: 0 <= i < |es| ==> es[i] == Entry(name, series[i].labels, series[i].value)
  {
    if series == [] then []
    else
      var last := series[|series| - 1];
      SeriesEntries(name, series[..|series| - 1]) + [Entry(name, last.labels, last.value)]
  }

  function Entries(fs: seq<Family>): seq<Entry> {
    if fs == [] then []
    else Entries(fs[..|fs| - 1]) + SeriesEntries(fs[|fs| - 1].name, fs[|fs| - 1].series)
  }

  /** Everything ever added under `name`. */
  function CallTotal(calls: seq<Call>, name: string): real {
    if calls == [] then 0.0
    else
      var last := calls[|calls| - 1];
      CallTotal(calls[..|calls| - 1], name) + if last.name == name then last.amount else 0.0
  }

  predicate Called(calls: seq<Call>, name: string) { exists i :: 0 <= i < |calls| && calls[i].name == name }

  function Total(es: seq<Entry>, name: string): real {
    if es == [] then 0.0
    else
      var last := es[|es| - 1];
      Total(es[..|es| - 1], name) + if last.name == name then last.value else 0.0
  }

  predicate Listed(es: seq<Entry>, name: string) { exists i :: 0 <= i < |es| && es[i].name == name }

  /** What stands under `name` above its last unlabelled line: the parser forgets it there. */
  function Forgotten(es: seq<Entry>, name: string): real {
    if es == [] then 0.0
    else
      var last, before := es[|es| - 1], es[..|es| - 1];
      if last.name == name && last.labels == [] then Total(before, name) else Forgotten(before, name)
  }

  lemma {:induction false} TotalAppend(a: seq<Entry>, b: seq<Entry>, name: string)
    ensures Total(a + b, name) == Total(a, name) + Total(b, name)
  {
    if b == [] {
      assert a + b == a;
    } else {
      assert (a + b)[..|a + b| - 1] == a + b[..|b| - 1];
      TotalAppend(a, b[..|b| - 1], name);
    }
  }

  lemma ListedAppend(a: seq<Entry>, b: seq<Entry>, name: string)
    ensures Listed(a + b, name) <==> Listed(a, name) || Listed(b, name)
  {
    var es := a + b;
    if Listed(a, name) {
      var i :| 0 <= i < |a| && a[i].name == name;
      assert es[i] == a[i];
    }
    if Listed(b, name) {
      var i :| 0 <= i < |b| && b[i].name == name;
      assert es[|a| + i] == b[i];
    }
  }

  lemma {:induction false} EntriesAppend(a: seq<Family>, b: seq<Family>)
    ensures Entries(a + b) == Entries(a) + Entries(b)
  {
    if b == [] {
      assert a + b == a;
    } else {
      var init, last := b[..|b| - 1], b[|b| - 1];
      var es := SeriesEntries(last.name, last.series);
      calc {
        Entries(a + b);
        { assert a + b == (a + init) + [last]; EntriesSnoc(a + init, last); }
        Entries(a + init) + es;
        { EntriesAppend(a, init); }
        (Entries(a) + Entries(init)) + es;
        Entries(a) + (Entries(init) + es);
        { EntriesSnoc(init, last); assert init + [last] == b; }
        Entries(a) + Entries(b);
      }
    }
  }

  lemma EntriesSnoc(fs: seq<Family>, f: Family)
    ensures Entries(fs + [f]) == Entries(fs) + SeriesEntries(f.name, f.series)
  {
    assert (fs + [f])[..|fs|] == fs;
  }

  lemma EntriesCons(f: Family, fs: seq<Family>)
    ensures Entries([f] + fs) == SeriesEntries(f.name, f.series) + Entries(fs)
  {
    EntriesAppend([f], fs);
    EntriesSnoc([], f);
    assert [] + [f] == [f];
  }

  lemma TotalCons(e: Entry, es: seq<Entry>, n: string)
    ensures Total([e] + es, n) == (if e.name == n then e.value else 0.0) + Total(es, n)
  {
    TotalAppend([e], es, n);
    assert [e][..0] == [];
  }

  function SeriesSum(series: seq<Series>): real {
    if series == [] then 0.0 else series[0].value + SeriesSum(series[1..])
  }

  lemma {:induction false} SeriesTotal(name: string, series: seq<Series>, n: string)
    ensures Total(SeriesEntries(name, series), n) == if n == name then SeriesSum(series) else 0.0
  {
    if series != [] {
      var head := Entry(name, series[0].labels, series[0].value);
      assert SeriesEntries(name, series) == [head] + SeriesEntries(name, series[1..]);
      TotalCons(head, SeriesEntries(name, series[1..]), n);
      SeriesTotal(name, series[1..], n);
    }
  }

  lemma {:induction false} AddToSeriesSum(series: seq<Series>, labels: Labels, amount: real)
    ensures SeriesSum(AddToSeries(series, labels, amount)) == SeriesSum(series) + amount
  {
    if series != [] && KeyOf(series[0].labels) != KeyOf(labels) {
      AddToSeriesSum(series[1..], labels, amount);
    }
  }

  lemma AddToSeriesTotal(name: string, series: seq<Series>, labels: Labels, amount: real, n: string)
    ensures Total(SeriesEntries(name, AddToSeries(series, labels, amount)), n)
         == Total(SeriesEntries(name, series), n) + if n == name then amount else 0.0
  {
    SeriesTotal(name, AddToSeries(series, labels, amount), n);
    SeriesTotal(name, series, n);
    AddToSeriesSum(series, labels, amount);
  }

  /** One call adds its amount under its own name, and nothing under any other. */
  lemma {:induction false} AddToFamiliesTotal(fs: seq<Family>, name: string, labels: Labels, amount: real, n: string)
    ensures Total(Entries(AddToFamilies(fs, name, labels, amount)), n) ==
      Total(Entries(fs), n) + if n == name then amount else 0.0
  {
    if fs == [] {
      var f := Family(name, AddToSeries([], labels, amount));
      AddToSeriesTotal(name, [], labels, amount, n);
      EntriesCons(f, []);
      assert [f] + [] == [f];
    } else {
      var es := Entries(fs[1..]);
      assert fs == [fs[0]] + fs[1..];
      EntriesCons(fs[0], fs[1..]);
      TotalAppend(SeriesEntries(fs[0].name, fs[0].series), es, n);
      if fs[0].name == name {
        var f' := fs[0].(series := AddToSeries(fs[0].series, labels, amount));
        EntriesCons(f', fs[1..]);
        TotalAppend(SeriesEntries(f'.name, f'.series), es, n);
        AddToSeriesTotal(name, fs[0].series, labels, amount, n);
      } else {
        var rest' := AddToFamilies(fs[1..], name, labels, amount);
        EntriesCons(fs[0], rest');
        TotalAppend(SeriesEntries(fs[0].name, fs[0].series), Entries(rest'), n);
        AddToFamiliesTotal(fs[1..], name, labels, amount, n);
      }
    }
  }

  lemma {:induction false} AddToSeriesListed(name: string, series: seq<Series>, labels: Labels, amount: real, n: string)
    ensures Listed(SeriesEntries(name, AddToSeries(series, labels, amount)), n) <==> n == name
  {
    assert AddToSeries(series, labels, amount) != [];
    var es := SeriesEntries(name, AddToSeries(series, labels, amount));
    assert es[0].name == name;
  }

  lemma {:induction false} AddToFamiliesListed(fs: seq<Family>, name: string, labels: Labels, amount: real, n: string)
    ensures Listed(Entries(AddToFamilies(fs, name, labels, amount)), n) <==> Listed(Entries(fs), n) || n == name
  {
    if fs == [] {
      var f := Family(name, AddToSeries([], labels, amount));
      AddToSeriesListed(name, [], labels, amount, n);
      EntriesCons(f, []);
      ListedAppend(SeriesEntries(f.name, f.series), Entries([]), n);
      assert [f] + [] == [f];
    } else {
      var es := Entries(fs[1..]);
      assert fs == [fs[0]] + fs[1..];
      EntriesCons(fs[0], fs[1..]);
      ListedAppend(SeriesEntries(fs[0].name, fs[0].series), es, n);
      if fs[0].name == name {
        var f' := fs[0].(series := AddToSeries(fs[0].series, labels, amount));
        EntriesCons(f', fs[1..]);
        ListedAppend(SeriesEntries(f'.name, f'.series), es, n);
        AddToSeriesListed(name, fs[0].series, labels, amount, n);
      } else {
        var rest' := AddToFamilies(fs[1..], name, labels, amount);
        EntriesCons(fs[0], rest');
        ListedAppend(SeriesEntries(fs[0].name, fs[0].series), Entries(rest'), n);
        AddToFamiliesListed(fs[1..], name, labels, amount, n);
      }
    }
  }

  /** The registry holds, under every name, exactly the sum of what was added under it. */
  lemma {:induction false} RegistryConservesTotals(calls: seq<Call>, name: string)
    ensures Total(Entries(Registry(calls)), name) == CallTotal(calls, name)
  {
    if calls != [] {
      var last := calls[|calls| - 1];
      RegistryConservesTotals(calls[..|calls| - 1], name);
      AddToFamiliesTotal(Registry(calls[..|calls| - 1]), last.name, last.labels, last.amount, name);
    }
  }

  lemma CalledSnoc(calls: seq<Call>, name: string)
    requires calls != []
    ensures Called(calls, name) <==> Called(calls[..|calls| - 1], name) || calls[|calls| - 1].name == name
  {
    var before := calls[..|calls| - 1];
    assert forall i :: 0 <= i < |before| ==> before[i] == calls[i];
    if Called(before, name) {
      var i :| 0 <= i < |before| && before[i].name == name;
      assert calls[i].name == name;
    }
  }

  lemma {:induction false} RegistryListsCalled(calls: seq<Call>, name: string)
    ensures Listed(Entries(Registry(calls)), name) <==> Called(calls, name)
  {
    if calls != [] {
      var n := |calls| - 1;
      var before, last := calls[..n], calls[n];
      RegistryListsCalled(before, name);
      AddToFamiliesListed(Registry(before), last.name, last.labels, last.amount, name);
      CalledSnoc(calls, name);
    }
  }

  // -- what holds of every call holds of every entry -------------------------------------------------

  ghost predicate AllSeries(p: (string, Labels) -> bool, name: string, series: seq<Series>) {
    forall k :: 0 <= k < |series| ==> p(name, series[k].labels)
  }

  ghost predicate AllFamilies(p: (string, Labels) -> bool, fs: seq<Family>) {
    forall i :: 0 <= i < |fs| ==> AllSeries(p, fs[i].name, fs[i].series)
  }

  ghost predicate AllEntries(p: (string, Labels) -> bool, es: seq<Entry>) {
    forall i :: 0 <= i < |es| ==> p(es[i].name, es[i].labels)
  }

  lemma {:induction false} AddToSeriesKeepsAll(
      p: (string, Labels) -> bool, name: string, series: seq<Series>, labels: Labels, amount: real)
    requires AllSeries(p, name, series) && p(name, labels)
    ensures AllSeries(p, name, AddToSeries(series, labels, amount))
  {
    if series != [] && KeyOf(series[0].labels) != KeyOf(labels) {
      AddToSeriesKeepsAll(p, name, series[1..], labels, amount);
    }
  }

  lemma {:induction false} AddToFamiliesKeepsAll(
      p: (string, Labels) -> bool, fs: seq<Family>, name: string, labels: Labels, amount: real)
    requires AllFamilies(p, fs) && p(name, labels)
    ensures AllFamilies(p, AddToFamilies(fs, name, labels, amount))
  {
    if fs == [] {
      AddToSeriesKeepsAll(p, name, [], labels, amount);
    } else if fs[0].name == name {
      AddToSeriesKeepsAll(p, name, fs[0].series, labels, amount);
    } else {
      AddToFamiliesKeepsAll(p, fs[1..], name, labels, amount);
    }
  }

  lemma {:induction false} RegistryKeepsAll(p: (string, Labels) -> bool, calls: seq<Call>)
    requires forall i :: 0 <= i < |calls| ==> p(calls[i].name, calls[i].labels)
    ensures AllFamilies(p, Registry(calls))
  {
    if calls != [] {
      var last := calls[|calls| - 1];
      RegistryKeepsAll(p, calls[..|calls| - 1]);
      AddToFamiliesKeepsAll(p, Registry(calls[..|calls| - 1]), last.name, last.labels, last.amount);
    }
  }

  lemma {:induction false} EntriesKeepAll(p: (string, Labels) -> bool, fs: seq<Family>)
    requires AllFamilies(p, fs)
    ensures AllEntries(p, Entries(fs))
  {
    if fs != [] {
      EntriesKeepAll(p, fs[..|fs| - 1]);
    }
  }

  // -- every stored value stays one that prints ---------------------------------------------------------

  ghost predicate Additive(prints: real -> bool) {
    forall a, b :: prints(a) && prints(b) ==> prints(a + b)
  }

  ghost predicate SeriesPrint(prints: real -> bool, series: seq<Series>) {
    forall k :: 0 <= k < |series| ==> prints(series[k].value)
  }

  ghost predicate FamiliesPrint(prints: real -> bool, fs: seq<Family>) {
    forall i :: 0 <= i < |fs| ==> SeriesPrint(prints, fs[i].series)
  }

  ghost predicate EntriesPrint(prints: real -> bool, es: seq<Entry>) {
    forall i :: 0 <= i < |es| ==> prints(es[i].value)
  }

  lemma {:induction false} AddToSeriesPrints(prints: real -> bool, series: seq<Series>, labels: Labels, amount: real)
    requires Additive(prints) && SeriesPrint(prints, series) && prints(amount)
    ensures SeriesPrint(prints, AddToSeries(series, labels, amount))
  {
    if series != [] && KeyOf(series[0].labels) != KeyOf(labels) {
      AddToSeriesPrints(prints, series[1..], labels, amount);
    }
  }

  lemma {:induction false} AddToFamiliesPrints(
      prints: real -> bool, fs: seq<Family>, name: string, labels: Labels, amount: real)
    requires Additive(prints) && FamiliesPrint(prints, fs) && prints(amount)
    ensures FamiliesPrint(prints, AddToFamilies(fs, name, labels, amount))
  {
    if fs == [] {
      AddToSeriesPrints(prints, [], labels, amount);
    } else if fs[0].name == name {
      AddToSeriesPrints(prints, fs[0].series, labels, amount);
    } else {
      AddToFamiliesPrints(prints, fs[1..], name, labels, amount);
    }
  }

  lemma {:induction false} RegistryPrints(prints: real -> bool, calls: seq<Call>)
    requires Additive(prints) && forall i :: 0 <= i < |calls| ==> prints(calls[i].amount)
    ensures FamiliesPrint(prints, Registry(calls))
  {
    if calls != [] {
      var last := calls[|calls| - 1];
      RegistryPrints(prints, calls[..|calls| - 1]);
      AddToFamiliesPrints(prints, Registry(calls[..|calls| - 1]), last.name, last.labels, last.amount);
    }
  }

  lemma {:induction false} FamilyEntriesPrint(prints: real -> bool, fs: seq<Family>)
    requires FamiliesPrint(prints, fs)
    ensures EntriesPrint(prints, Entries(fs))
  {
    if fs != [] {
      FamilyEntriesPrint(prints, fs[..|fs| - 1]);
    }
  }
}
