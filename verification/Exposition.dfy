// internal/promtext/promtext.go: parsed families, and the sums over their selected series.
module Exposition {
  import opened Text

  const UINT64 := 0x1_0000_0000_0000_0000

  type uint64 = n: nat | n < UINT64

  // The code only compares bounds, so +Inf is a bound like any other, above all the rest.
  datatype Bucket = Bucket(bound: real, cumulative: uint64)

  // A counter, a gauge or an untyped series has a number; a summary has neither.
  datatype Reading = Number(value: real) | Histo(count: uint64, sum: real, buckets: seq<Bucket>) | Other

  datatype Metric = Metric(labels: map<string, string>, reading: Reading)

  datatype Family = Family(isHistogram: bool, metrics: seq<Metric>)

  type Families = map<string, Family>

  // Every way promtext builds a Match; a nil one selects everything.
  datatype Match =
    | Everything
    | LabelIs(name: string, value: string)
    | LabelIn(name: string, values: seq<string>)
    | AllOf(first: Match, second: Match)

  function LabelOf(labels: map<string, string>, name: string): string {
    if name in labels then labels[name] else ""
  }

  predicate Selects(m: Match, labels: map<string, string>) {
    match m
    case Everything => true
    case LabelIs(name, value) => LabelOf(labels, name) == value
    case LabelIn(name, values) => LabelOf(labels, name) in values
    case AllOf(first, second) => Selects(first, labels) && Selects(second, labels)
  }

  // What each way of selecting selects, a label that is absent counting as an empty one.
  lemma SelectsMeans(labels: map<string, string>, name: string, value: string, values: seq<string>, a: Match, b: Match)
    ensures Selects(Everything, labels)
    ensures Selects(LabelIs(name, value), labels) <==> if name in labels then labels[name] == value else value == ""
    ensures Selects(LabelIn(name, values), labels) <==>
      exists i :: 0 <= i < |values| && (if name in labels then values[i] == labels[name] else values[i] == "")
    ensures Selects(AllOf(a, b), labels) <==> Selects(a, labels) && Selects(b, labels)
  {
    if Selects(LabelIn(name, values), labels) {
      var i :| 0 <= i < |values| && values[i] == LabelOf(labels, name);
    }
  }

  function MetricsOf(fams: Families, name: string): seq<Metric> {
    if name in fams then fams[name].metrics else []
  }

  // The first n series, without those m does not select.
  function PickedTo(xs: seq<Metric>, m: Match, n: nat): seq<Metric>
    requires n <= |xs|
  {
    if n == 0 then []
    else if Selects(m, xs[n - 1].labels) then PickedTo(xs, m, n - 1) + [xs[n - 1]]
    else PickedTo(xs, m, n - 1)
  }

  function Picked(xs: seq<Metric>, m: Match): seq<Metric> {
    PickedTo(xs, m, |xs|)
  }

  lemma {:induction false} PickedPrefix(xs: seq<Metric>, ys: seq<Metric>, m: Match, n: nat)
    requires n <= |xs|
    ensures PickedTo(xs + ys, m, n) == PickedTo(xs, m, n)
  {
    if n == 0 {
    } else {
      PickedPrefix(xs, ys, m, n - 1);
    }
  }

  function Total(xs: seq<Metric>, f: Metric -> real): real {
    if xs == [] then 0.0 else Total(xs[..|xs| - 1], f) + f(xs[|xs| - 1])
  }

  lemma PickedSnoc(xs: seq<Metric>, x: Metric, m: Match)
    ensures Picked(xs + [x], m) == if Selects(m, x.labels) then Picked(xs, m) + [x] else Picked(xs, m)
  {
    PickedPrefix(xs, [x], m, |xs|);
  }

  lemma TotalSnoc(xs: seq<Metric>, x: Metric, f: Metric -> real)
    ensures Total(xs + [x], f) == Total(xs, f) + f(x)
  {
    assert (xs + [x])[..|xs|] == xs;
  }

  function Value(x: Metric): real {
    if x.reading.Number? then x.reading.value else 0.0
  }

  predicate HasNumber(xs: seq<Metric>) {
    xs != [] && (HasNumber(xs[..|xs| - 1]) || xs[|xs| - 1].reading.Number?)
  }

  lemma {:induction false} PickedAre(xs: seq<Metric>, m: Match)
    ensures forall x :: x in Picked(xs, m) <==> x in xs && Selects(m, x.labels)
  {
    if xs == [] {
    } else {
      PickedAre(xs[..|xs| - 1], m);
      PickedSnoc(xs[..|xs| - 1], xs[|xs| - 1], m);
      assert xs == xs[..|xs| - 1] + [xs[|xs| - 1]];
    }
  }

  lemma {:induction false} HasNumberMeans(xs: seq<Metric>)
    ensures HasNumber(xs) <==> exists x :: x in xs && x.reading.Number?
  {
    if xs == [] {
    } else {
      HasNumberMeans(xs[..|xs| - 1]);
      assert xs == xs[..|xs| - 1] + [xs[|xs| - 1]];
    }
  }

  lemma HasNumberSnoc(xs: seq<Metric>, x: Metric)
    ensures HasNumber(xs + [x]) <==> HasNumber(xs) || x.reading.Number?
  {
    assert (xs + [x])[..|xs|] == xs;
  }

  method Sum(fams: Families, name: string, m: Match) returns (total: real, found: bool)
    ensures var xs := Picked(MetricsOf(fams, name), m);
      total == Total(xs, Value) && found == HasNumber(xs)
  {
    total, found := 0.0, false;
    if name !in fams {
      return;
    }
    var xs := fams[name].metrics;
    for n := 0 to |xs|
      invariant total == Total(PickedTo(xs, m, n), Value) && found == HasNumber(PickedTo(xs, m, n))
    {
      var x := xs[n];
      TotalSnoc(PickedTo(xs, m, n), x, Value);
      HasNumberSnoc(PickedTo(xs, m, n), x);
      if !Selects(m, x.labels) || !x.reading.Number? {
        continue;
      }
      total := total + x.reading.value;
      found := true;
    }
  }

  // ---- totals do not depend on the order --------------------------------------------------

  lemma {:induction false} TotalConcat(xs: seq<Metric>, ys: seq<Metric>, f: Metric -> real)
    ensures Total(xs + ys, f) == Total(xs, f) + Total(ys, f)
  {
    if ys == [] {
      assert xs + ys == xs;
    } else {
      assert (xs + ys)[..|xs + ys| - 1] == xs + ys[..|ys| - 1];
      TotalConcat(xs, ys[..|ys| - 1], f);
    }
  }

  lemma SplitAt(xs: seq<Metric>, k: nat)
    requires k < |xs|
    ensures multiset(xs) == multiset(xs[..k] + xs[k + 1..]) + multiset{xs[k]}
  {
    assert xs == xs[..k] + [xs[k]] + xs[k + 1..];
  }

  lemma TotalMiddle(xs: seq<Metric>, x: Metric, ys: seq<Metric>, f: Metric -> real)
    ensures Total((xs + [x]) + ys, f) == Total(xs + ys, f) + f(x)
  {
    TotalConcat(xs + [x], ys, f);
    TotalSnoc(xs, x, f);
    TotalConcat(xs, ys, f);
  }

  lemma TotalWithout(xs: seq<Metric>, k: nat, f: Metric -> real)
    requires k < |xs|
    ensures Total(xs, f) == Total(xs[..k] + xs[k + 1..], f) + f(xs[k])
  {
    TotalMiddle(xs[..k], xs[k], xs[k + 1..], f);
    assert xs == (xs[..k] + [xs[k]]) + xs[k + 1..];
  }

  lemma {:induction false} TotalPermutes(xs: seq<Metric>, ys: seq<Metric>, f: Metric -> real)
    requires multiset(xs) == multiset(ys)
    ensures Total(xs, f) == Total(ys, f)
  {
    assert |multiset(xs)| == |xs| && |multiset(ys)| == |ys|;
    if xs == [] {
    } else {
      var x := xs[|xs| - 1];
      assert x in multiset(ys);
      var k :| 0 <= k < |ys| && ys[k] == x;
      SplitAt(xs, |xs| - 1);
      SplitAt(ys, k);
      assert xs[..|xs| - 1] + xs[|xs|..] == xs[..|xs| - 1];
      assert multiset(xs[..|xs| - 1]) == multiset(xs) - multiset{x};
      assert multiset(ys[..k] + ys[k + 1..]) == multiset(ys) - multiset{x};
      TotalPermutes(xs[..|xs| - 1], ys[..k] + ys[k + 1..], f);
      TotalWithout(ys, k, f);
    }
  }

  // ---- choosing the served model ---------------------------------------------------------

  datatype Selection = Selected(m: Match) | Mismatch(reported: set<string>) | NeedsModel(reported: set<string>)

  ghost function Reported(xs: seq<Metric>, labelName: string): set<string> {
    set x | x in xs && labelName in x.labels :: x.labels[labelName]
  }

  method LabelValues(fams: Families, name: string, labelName: string) returns (out: seq<string>)
    ensures StrictlySortedBy(Self, out) && Elements(out) == Reported(MetricsOf(fams, name), labelName)
  {
    var xs := MetricsOf(fams, name);
    var values: set<string> := {};
    for n := 0 to |xs|
      invariant values == Reported(xs[..n], labelName)
    {
      assert xs[..n + 1] == xs[..n] + [xs[n]];
      if labelName in xs[n].labels {
        values := values + {xs[n].labels[labelName]};
      }
    }
    assert xs[..|xs|] == xs;
    out := [];
    var rest := values;
    while rest != {}
      invariant rest <= values && Elements(out) == values - rest && DistinctBy(Self, out)
    {
      var v :| v in rest;
      assert v !in Elements(out);
      ElementsSnoc(out, v);
      out, rest := out + [v], rest - {v};
    }
    SortDistinct(Self, out);
    out := SortBy(Self, out);
  }

  lemma OnlyElement(values: seq<string>, v: string, w: string)
    requires |values| <= 1 && v in Elements(values) && w in Elements(values)
    ensures v == w
  {
  }

  // Whatever is selected, series of two models are never added together; a refusal is never wrong.
  method SelectModel(fams: Families, metric: string, labelName: string, served: string) returns (s: Selection)
    ensures s.Selected? ==> forall x, y ::
      x in Picked(MetricsOf(fams, metric), s.m) && y in Picked(MetricsOf(fams, metric), s.m)
      && labelName in x.labels && labelName in y.labels ==>
        x.labels[labelName] == y.labels[labelName] && (served != "" ==> x.labels[labelName] == served)
    ensures var reported := Reported(MetricsOf(fams, metric), labelName);
      && (s.NeedsModel? <==> served == "" && |reported| > 1)
      && (s.Mismatch? <==> served != "" && reported != {} && served !in reported)
      && (!s.Selected? ==> s.reported == reported)
    ensures s.Selected? ==> forall x ::
      x in MetricsOf(fams, metric) && (served == "" || LabelOf(x.labels, labelName) == served) ==>
        Selects(s.m, x.labels)
  {
    var reported := LabelValues(fams, metric, labelName);
    var xs := MetricsOf(fams, metric);
    ListedCount(reported);
    PickedAre(xs, LabelIs(labelName, served));
    PickedAre(xs, Everything);
    forall x | x in xs && labelName in x.labels ensures x.labels[labelName] in Elements(reported) {
      assert x.labels[labelName] in Reported(xs, labelName);
    }
    if served == "" {
      if |reported| > 1 {
        return NeedsModel(set v | v in reported);
      }
      s := Selected(Everything);
      forall x, y | x in xs && y in xs && labelName in x.labels && labelName in y.labels
        ensures x.labels[labelName] == y.labels[labelName]
      {
        OnlyElement(reported, x.labels[labelName], y.labels[labelName]);
      }
      return;
    }
    if |reported| == 0 {
      s := Selected(Everything);
      return;
    }
    assert reported[0] in Elements(reported);
    if served !in reported {
      return Mismatch(set v | v in reported);
    }
    s := Selected(LabelIs(labelName, served));
  }

  lemma {:induction false} ListedCount(values: seq<string>)
    requires StrictlySortedBy(Self, values)
    ensures |Elements(values)| == |values|
  {
    if values == [] {
    } else {
      ListedCount(values[1..]);
      TailElements(Self, values);
      assert values[0] in Elements(values);
      assert Elements(values) == {values[0]} + Elements(values[1..]);
    }
  }
}
