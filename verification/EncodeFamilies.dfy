// internal/remotewrite/encode.go: gathered families as Remote Write series.
module EncodeFamilies {
  import opened Text
  import opened SeriesKey
  import opened Stale

  // A bucket bound is +Inf, or the text strconv.FormatFloat gives it. Values and counts are already
  // the 64 bits of the float they are sent as.
  datatype Bound = PlusInf | Finite(text: string)

  datatype Bucket = Bucket(bound: Bound, count: nat)

  datatype Histogram = Histogram(buckets: seq<Bucket>, count: nat, sum: nat)

  datatype Kind = Counter | Gauge | Histo | Other

  datatype Metric = Metric(labels: Labels, counter: nat, gauge: nat, histogram: Histogram)

  datatype Family = Family(name: string, kind: Kind, metrics: seq<Metric>)

  // ---- the specification ----------------------------------------------------

  // One series to be: its labels as a set of names with values, and its value.
  datatype Point = Point(labels: map<string, string>, bits: nat)

  function Base(labels: Labels, host: string): map<string, string> {
    if labels == [] then map["job" := "llm-metrics-exporter", "instance" := host]
    else
      var l, before := labels[|labels| - 1], Base(labels[..|labels| - 1], host);
      if l.value != "" then before[l.name := l.value] else before
  }

  function Plain(base: map<string, string>, name: string, bits: nat): Point {
    Point(base["__name__" := name], bits)
  }

  function WithLe(base: map<string, string>, name: string, bits: nat, le: string): Point {
    Point(base["__name__" := name]["le" := le], bits)
  }

  function PointOf(base: map<string, string>, name: string, bits: nat, le: Option<string>): Point {
    if le.Some? then WithLe(base, name, bits, le.value) else Plain(base, name, bits)
  }

  function BucketPoints(base: map<string, string>, name: string, buckets: seq<Bucket>): seq<Point> {
    if buckets == [] then []
    else
      BucketPoints(base, name, buckets[..|buckets| - 1])
      + (match buckets[|buckets| - 1].bound
         case PlusInf => []
         case Finite(text) => [WithLe(base, name + "_bucket", buckets[|buckets| - 1].count, text)])
  }

  function HistogramPoints(base: map<string, string>, name: string, h: Histogram): seq<Point> {
    BucketPoints(base, name, h.buckets)
    + [WithLe(base, name + "_bucket", h.count, "+Inf"), Plain(base, name + "_count", h.count),
       Plain(base, name + "_sum", h.sum)]
  }

  function MetricPoints(f: Family, m: Metric, host: string): seq<Point> {
    var base := Base(m.labels, host);
    match f.kind
    case Counter => [Plain(base, f.name, m.counter)]
    case Gauge => [Plain(base, f.name, m.gauge)]
    case Histo => HistogramPoints(base, f.name, m.histogram)
    case Other => []
  }

  function FamilyPoints(f: Family, metrics: seq<Metric>, host: string): seq<Point> {
    if metrics == [] then []
    else FamilyPoints(f, metrics[..|metrics| - 1], host) + MetricPoints(f, metrics[|metrics| - 1], host)
  }

  function Points(families: seq<Family>, host: string): seq<Point> {
    if families == [] then []
    else
      var f := families[|families| - 1];
      Points(families[..|families| - 1], host) + FamilyPoints(f, f.metrics, host)
  }

  function NameOf(l: Label): string { l.name }

  function KeyOf(s: Series): string { Key(s.labels) }

  // The labels of a map in ascending order of name.
  ghost predicate Spells(labels: Labels, m: map<string, string>) {
    && StrictlySortedBy(NameOf, labels)
    && Elements(labels) == set name | name in m :: Label(name, m[name])
  }

  // The series a list of points stands for, one for one.
  ghost predicate Renders(series: Request, points: seq<Point>, timestamp: int) {
    && |series| == |points|
    && forall i :: 0 <= i < |points| ==>
         Spells(series[i].labels, points[i].labels) && series[i].samples == [Sample(points[i].bits, timestamp)]
  }

  // A map has one spelling, so a list of points has one rendering.
  lemma SpellingUnique(a: Labels, b: Labels, m: map<string, string>)
    requires Spells(a, m) && Spells(b, m)
    ensures a == b
  {
    StrictlySortedUnique(NameOf, a, b);
  }

  lemma RenderingUnique(a: Request, b: Request, points: seq<Point>, timestamp: int)
    requires Renders(a, points, timestamp) && Renders(b, points, timestamp)
    ensures a == b
  {
    forall i | 0 <= i < |points| ensures a[i] == b[i] {
      SpellingUnique(a[i].labels, b[i].labels, points[i].labels);
    }
  }

  // ---- encodeFamilies --------------------------------------------------------

  // Labels no metric may bring along: add appends its own of these names.
  predicate Proper(f: Family) {
    forall m :: m in f.metrics ==> forall l :: l in m.labels && l.value != "" ==>
      l.name != "__name__" && (f.kind == Histo ==> l.name != "le")
  }

  lemma {:induction false} BaseNames(labels: Labels, host: string, name: string)
    requires name != "job" && name != "instance" && forall l :: l in labels && l.value != "" ==> l.name != name
    ensures name !in Base(labels, host)
  {
    if labels == [] {
    } else {
      assert labels[|labels| - 1] in labels;
      BaseNames(labels[..|labels| - 1], host, name);
    }
  }

  lemma SortedListingSpells(labels: Labels, m: map<string, string>)
    requires DistinctBy(NameOf, labels) && forall l :: l in labels <==> l.name in m && m[l.name] == l.value
    ensures Spells(SortBy(NameOf, labels), m)
  {
    SortDistinct(NameOf, labels);
    forall l ensures l in labels <==> l in (set n | n in m :: Label(n, m[n])) {
      assert l == Label(l.name, l.value);
    }
  }

  // The labels of base, the name and the extra label, whether or not base has those too.
  ghost predicate Carries(labels: Labels, base: map<string, string>, name: string, extra: Option<string>) {
    forall l :: l in labels <==>
      || (l.name in base && base[l.name] == l.value)
      || l == Label("__name__", name) || (extra.Some? && l == Label("le", extra.value))
  }

  method CopyLabels(base: map<string, string>) returns (labels: Labels)
    ensures DistinctBy(NameOf, labels)
    ensures forall l :: l in labels <==> l.name in base && base[l.name] == l.value
  {
    labels := [];
    var rest := base.Keys;
    while rest != {}
      invariant rest <= base.Keys
      invariant forall l :: l in labels <==> l.name in base.Keys - rest && base[l.name] == l.value
      invariant DistinctBy(NameOf, labels)
    {
      var k :| k in rest;
      assert forall l :: l in labels ==> NameOf(l) != k;
      labels := labels + [Label(k, base[k])];
      rest := rest - {k};
    }
  }

  lemma AppendDistinct(labels: Labels, l: Label)
    requires DistinctBy(NameOf, labels) && forall k :: k in labels ==> k.name != l.name
    ensures DistinctBy(NameOf, labels + [l])
  {
  }

  lemma ProperSpells(copied: Labels, base: map<string, string>, name: string, bits: nat, extra: Option<string>)
    requires DistinctBy(NameOf, copied) && "__name__" !in base && (extra.Some? ==> "le" !in base)
    requires forall l :: l in copied <==> l.name in base && base[l.name] == l.value
    ensures var labels := copied + [Label("__name__", name)] + (if extra.Some? then [Label("le", extra.value)] else []);
      Spells(SortBy(NameOf, labels), PointOf(base, name, bits, extra).labels)
  {
    var named := copied + [Label("__name__", name)];
    AppendDistinct(copied, Label("__name__", name));
    if extra.Some? {
      assert "le" != "__name__";
      AppendDistinct(named, Label("le", extra.value));
      SortedListingSpells(named + [Label("le", extra.value)], WithLe(base, name, bits, extra.value).labels);
    } else {
      assert named + [] == named;
      SortedListingSpells(named, Plain(base, name, bits).labels);
    }
  }

  lemma SortedCarries(labels: Labels, base: map<string, string>, name: string, extra: Option<string>)
    requires Carries(labels, base, name, extra)
    ensures Carries(SortBy(NameOf, labels), base, name, extra) && SortedBy(NameOf, SortBy(NameOf, labels))
  {
    SortBySorts(NameOf, labels);
    SameElements(SortBy(NameOf, labels), labels);
    forall l ensures l in SortBy(NameOf, labels) <==> l in labels {
      assert l in Elements(labels) <==> l in Elements(SortBy(NameOf, labels));
    }
  }

  // add: copies the base labels in whatever order the map yields them, appends its own, sorts.
  method Add(base: map<string, string>, name: string, bits: nat, extra: Option<string>, timestamp: int)
    returns (series: Series)
    ensures series.samples == [Sample(bits, timestamp)]
    ensures SortedBy(NameOf, series.labels) && Carries(series.labels, base, name, extra)
    ensures "__name__" !in base && (extra.Some? ==> "le" !in base) ==>
      Spells(series.labels, PointOf(base, name, bits, extra).labels)
  {
    var copied := CopyLabels(base);
    var labels := copied + [Label("__name__", name)] + (if extra.Some? then [Label("le", extra.value)] else []);
    if "__name__" !in base && (extra.Some? ==> "le" !in base) {
      ProperSpells(copied, base, name, bits, extra);
    }
    SortedCarries(labels, base, name, extra);
    series := Series(SortBy(NameOf, labels), [Sample(bits, timestamp)]);
  }

  method BuildBase(labels: Labels, host: string) returns (base: map<string, string>)
    ensures base == Base(labels, host)
  {
    base := map["job" := "llm-metrics-exporter", "instance" := host];
    for i := 0 to |labels|
      invariant base == Base(labels[..i], host)
    {
      assert labels[..i + 1][..i] == labels[..i];
      if labels[i].value != "" {
        base := base[labels[i].name := labels[i].value];
      }
    }
    assert labels[..|labels|] == labels;
  }

  lemma RendersConcat(a: Request, p: seq<Point>, b: Request, q: seq<Point>, timestamp: int)
    requires Renders(a, p, timestamp) && Renders(b, q, timestamp)
    ensures Renders(a + b, p + q, timestamp)
  {
  }

  method EncodeBuckets(base: map<string, string>, name: string, buckets: seq<Bucket>, timestamp: int)
    returns (series: Request)
    ensures "__name__" !in base && "le" !in base ==> Renders(series, BucketPoints(base, name, buckets), timestamp)
  {
    series := [];
    for i := 0 to |buckets|
      invariant "__name__" !in base && "le" !in base ==>
        Renders(series, BucketPoints(base, name, buckets[..i]), timestamp)
    {
      assert buckets[..i + 1][..i] == buckets[..i];
      if buckets[i].bound.Finite? {
        var s := Add(base, name + "_bucket", buckets[i].count, Some(buckets[i].bound.text), timestamp);
        if "__name__" !in base && "le" !in base {
          RendersConcat(series, BucketPoints(base, name, buckets[..i]),
                        [s], [WithLe(base, name + "_bucket", buckets[i].count, buckets[i].bound.text)], timestamp);
        }
        series := series + [s];
      }
    }
    assert buckets[..|buckets|] == buckets;
  }

  method EncodeHistogram(base: map<string, string>, name: string, h: Histogram, timestamp: int)
    returns (series: Request)
    ensures "__name__" !in base && "le" !in base ==> Renders(series, HistogramPoints(base, name, h), timestamp)
  {
    var buckets := EncodeBuckets(base, name, h.buckets, timestamp);
    var inf := Add(base, name + "_bucket", h.count, Some("+Inf"), timestamp);
    var count := Add(base, name + "_count", h.count, None, timestamp);
    var sum := Add(base, name + "_sum", h.sum, None, timestamp);
    series := buckets + [inf, count, sum];
    if "__name__" !in base && "le" !in base {
      RendersConcat(buckets, BucketPoints(base, name, h.buckets), [inf, count, sum],
                    [WithLe(base, name + "_bucket", h.count, "+Inf"), Plain(base, name + "_count", h.count),
                     Plain(base, name + "_sum", h.sum)], timestamp);
    }
  }

  // ---- what is sent, of one metric -------------------------------------------------------------

  // The non-empty label of its name that comes last.
  predicate Kept(labels: Labels, l: Label) {
    exists i :: 0 <= i < |labels| && labels[i] == l && l.value != ""
      && forall j :: i < j < |labels| && labels[j].name == l.name ==> labels[j].value == ""
  }

  predicate Overridden(labels: Labels, name: string) {
    exists i :: 0 <= i < |labels| && labels[i].name == name && labels[i].value != ""
  }

  // The labels of a metric's series: the metric's own, the two of the exporter where the metric does
  // not bring them, the name of the series and, of a bucket, its bound.
  predicate Owed(l: Label, m: Metric, host: string, name: string, le: Option<string>) {
    || l == Label("__name__", name)
    || (le.Some? && l == Label("le", le.value))
    || Kept(m.labels, l)
    || (l == Label("job", "llm-metrics-exporter") && !Overridden(m.labels, "job"))
    || (l == Label("instance", host) && !Overridden(m.labels, "instance"))
  }

  ghost predicate Says(labels: Labels, m: Metric, host: string, name: string, le: Option<string>) {
    && StrictlySortedBy(NameOf, labels)
    && forall l :: l in labels <==> Owed(l, m, host, name, le)
  }

  // The series a metric is owed, each by its name, its bound and its value.
  predicate Due(f: Family, m: Metric, name: string, le: Option<string>, bits: nat) {
    match f.kind
    case Counter => name == f.name && le == None && bits == m.counter
    case Gauge => name == f.name && le == None && bits == m.gauge
    case Histo =>
      || (name == f.name + "_bucket" && le.Some? && Bucket(Finite(le.value), bits) in m.histogram.buckets)
      || (name == f.name + "_bucket" && le == Some("+Inf") && bits == m.histogram.count)
      || (name == f.name + "_count" && le == None && bits == m.histogram.count)
      || (name == f.name + "_sum" && le == None && bits == m.histogram.sum)
    case Other => false
  }

  // A series of a metric that is due is among the series, and s is one.
  ghost predicate Sent(series: Request, m: Metric, host: string, name: string, le: Option<string>, sample: Sample) {
    exists s :: s in series && Says(s.labels, m, host, name, le) && s.samples == [sample]
  }

  lemma {:induction false} BaseHolds(labels: Labels, host: string, l: Label)
    ensures l.name in Base(labels, host) && Base(labels, host)[l.name] == l.value <==>
      || Kept(labels, l)
      || (!Overridden(labels, l.name) && (l == Label("job", "llm-metrics-exporter") || l == Label("instance", host)))
  {
    if labels == [] {
    } else {
      var n := |labels| - 1;
      var init := labels[..n];
      BaseHolds(init, host, l);
      assert labels == init + [labels[n]];
      KeptSnoc(init, labels[n], l);
    }
  }

  lemma KeptSnoc(init: Labels, last: Label, l: Label)
    ensures Overridden(init + [last], l.name) <==>
      Overridden(init, l.name) || (last.name == l.name && last.value != "")
    ensures Kept(init + [last], l) <==>
      if last.name == l.name && last.value != "" then last == l else Kept(init, l)
  {
    OverriddenSnoc(init, last, l.name);
    var labels, n := init + [last], |init|;
    assert labels[n] == last;
    if last.name == l.name && last.value != "" {
    } else {
      if Kept(init, l) {
        var i :| 0 <= i < n && init[i] == l && l.value != ""
          && forall j :: i < j < n && init[j].name == l.name ==> init[j].value == "";
        assert labels[i] == l;
      }
      if Kept(labels, l) {
        var i :| 0 <= i < |labels| && labels[i] == l && l.value != ""
          && forall j :: i < j < |labels| && labels[j].name == l.name ==> labels[j].value == "";
        assert init[i] == l;
        forall j | i < j < n && init[j].name == l.name ensures init[j].value == "" {
          assert labels[j] == init[j];
        }
      }
    }
  }

  lemma OverriddenSnoc(init: Labels, last: Label, name: string)
    ensures Overridden(init + [last], name) <==> Overridden(init, name) || (last.name == name && last.value != "")
  {
    assert (init + [last])[|init|] == last;
    if Overridden(init, name) {
      var i :| 0 <= i < |init| && init[i].name == name && init[i].value != "";
      assert (init + [last])[i] == init[i];
    }
  }

  lemma SpelledSays(labels: Labels, m: Metric, host: string, name: string, bits: nat, le: Option<string>)
    requires Spells(labels, PointOf(Base(m.labels, host), name, bits, le).labels)
    requires "__name__" !in Base(m.labels, host) && (le.Some? ==> "le" !in Base(m.labels, host))
    ensures Says(labels, m, host, name, le)
  {
    var point := PointOf(Base(m.labels, host), name, bits, le).labels;
    forall l ensures l in labels <==> Owed(l, m, host, name, le) {
      BaseHolds(m.labels, host, l);
      assert l in Elements(labels) <==> l.name in point && point[l.name] == l.value by {
        assert l == Label(l.name, l.value);
      }
    }
  }

  lemma {:induction false} BucketPointsDue(base: map<string, string>, name: string, buckets: seq<Bucket>, p: Point)
    ensures p in BucketPoints(base, name, buckets) <==>
      exists b :: b in buckets && b.bound.Finite? && p == WithLe(base, name + "_bucket", b.count, b.bound.text)
  {
    if buckets == [] {
    } else {
      BucketPointsDue(base, name, buckets[..|buckets| - 1], p);
      assert buckets == buckets[..|buckets| - 1] + [buckets[|buckets| - 1]];
    }
  }

  ghost predicate Stands(p: Point, f: Family, m: Metric, host: string) {
    exists name, le, bits :: Due(f, m, name, le, bits) && p == PointOf(Base(m.labels, host), name, bits, le)
  }

  lemma MetricPointsDue(f: Family, m: Metric, host: string, p: Point)
    ensures p in MetricPoints(f, m, host) <==> Stands(p, f, m, host)
  {
    var base := Base(m.labels, host);
    match f.kind
    case Counter =>
      assert Due(f, m, f.name, None, m.counter);
      assert PointOf(base, f.name, m.counter, None) == Plain(base, f.name, m.counter);
    case Gauge =>
      assert Due(f, m, f.name, None, m.gauge) && PointOf(base, f.name, m.gauge, None) == Plain(base, f.name, m.gauge);
    case Histo =>
      HistogramPointsDue(f, m, host, p);
    case Other =>
  }

  lemma HistogramPointsDue(f: Family, m: Metric, host: string, p: Point)
    requires f.kind == Histo
    ensures p in HistogramPoints(Base(m.labels, host), f.name, m.histogram) <==> Stands(p, f, m, host)
  {
    var base, h := Base(m.labels, host), m.histogram;
    BucketPointsDue(base, f.name, h.buckets, p);
    if p in BucketPoints(base, f.name, h.buckets) {
      var b :| b in h.buckets && b.bound.Finite? && p == WithLe(base, f.name + "_bucket", b.count, b.bound.text);
      assert b == Bucket(Finite(b.bound.text), b.count);
      StandsAs(p, f, m, host, f.name + "_bucket", Some(b.bound.text), b.count);
    }
    TotalsStand(f, m, host);
    if Stands(p, f, m, host) {
      var name, le, bits :| Due(f, m, name, le, bits) && p == PointOf(base, name, bits, le);
      if le.Some? && Bucket(Finite(le.value), bits) in h.buckets {
        assert p == WithLe(base, name, bits, le.value);
      }
    }
  }

  lemma StandsAs(p: Point, f: Family, m: Metric, host: string, name: string, le: Option<string>, bits: nat)
    requires Due(f, m, name, le, bits) && p == PointOf(Base(m.labels, host), name, bits, le)
    ensures Stands(p, f, m, host)
  {
  }

  lemma TotalsStand(f: Family, m: Metric, host: string)
    requires f.kind == Histo
    ensures var base, h := Base(m.labels, host), m.histogram;
      && Stands(WithLe(base, f.name + "_bucket", h.count, "+Inf"), f, m, host)
      && Stands(Plain(base, f.name + "_count", h.count), f, m, host)
      && Stands(Plain(base, f.name + "_sum", h.sum), f, m, host)
  {
    var base, h := Base(m.labels, host), m.histogram;
    StandsAs(WithLe(base, f.name + "_bucket", h.count, "+Inf"), f, m, host, f.name + "_bucket", Some("+Inf"), h.count);
    StandsAs(Plain(base, f.name + "_count", h.count), f, m, host, f.name + "_count", None, h.count);
    StandsAs(Plain(base, f.name + "_sum", h.sum), f, m, host, f.name + "_sum", None, h.sum);
  }

  ghost predicate AccountedBy(s: Series, f: Family, m: Metric, host: string, timestamp: int) {
    exists name, le, bits ::
      Due(f, m, name, le, bits) && Says(s.labels, m, host, name, le) && s.samples == [Sample(bits, timestamp)]
  }

  // Every value of the metric is sent under its labels, and nothing else is sent.
  ghost predicate MetricReadsBack(series: Request, f: Family, m: Metric, host: string, timestamp: int) {
    && (forall name, le, bits :: Due(f, m, name, le, bits) ==>
          Sent(series, m, host, name, le, Sample(bits, timestamp)))
    && (forall s :: s in series ==> AccountedBy(s, f, m, host, timestamp))
  }

  lemma MetricDueSays(f: Family, m: Metric, host: string, labels: Labels, name: string, bits: nat, le: Option<string>)
    requires Proper(f) && m in f.metrics && Due(f, m, name, le, bits)
    requires Spells(labels, PointOf(Base(m.labels, host), name, bits, le).labels)
    ensures Says(labels, m, host, name, le)
  {
    BaseNames(m.labels, host, "__name__");
    if le.Some? {
      BaseNames(m.labels, host, "le");
    }
    SpelledSays(labels, m, host, name, bits, le);
  }

  lemma RenderedMetricReadsBack(series: Request, f: Family, m: Metric, host: string, timestamp: int)
    requires Proper(f) && m in f.metrics && Renders(series, MetricPoints(f, m, host), timestamp)
    ensures MetricReadsBack(series, f, m, host, timestamp)
  {
    var points := MetricPoints(f, m, host);
    forall name, le, bits | Due(f, m, name, le, bits)
      ensures Sent(series, m, host, name, le, Sample(bits, timestamp))
    {
      var p := PointOf(Base(m.labels, host), name, bits, le);
      assert Stands(p, f, m, host);
      MetricPointsDue(f, m, host, p);
      var i :| 0 <= i < |points| && points[i] == p;
      MetricDueSays(f, m, host, series[i].labels, name, bits, le);
    }
    forall s | s in series ensures AccountedBy(s, f, m, host, timestamp) {
      var i :| 0 <= i < |series| && series[i] == s;
      MetricPointsDue(f, m, host, points[i]);
      var name, le, bits :| Due(f, m, name, le, bits) && points[i] == PointOf(Base(m.labels, host), name, bits, le);
      MetricDueSays(f, m, host, s.labels, name, bits, le);
    }
  }

  method EncodeMetric(f: Family, m: Metric, host: string, timestamp: int) returns (series: Request)
    requires f.kind != Other
    ensures Proper(f) && m in f.metrics ==>
      Renders(series, MetricPoints(f, m, host), timestamp) && MetricReadsBack(series, f, m, host, timestamp)
  {
    var base := BuildBase(m.labels, host);
    if Proper(f) && m in f.metrics {
      BaseNames(m.labels, host, "__name__");
      if f.kind == Histo {
        BaseNames(m.labels, host, "le");
      }
    }
    match f.kind {
      case Counter =>
        var s := Add(base, f.name, m.counter, None, timestamp);
        series := [s];
      case Gauge =>
        var s := Add(base, f.name, m.gauge, None, timestamp);
        series := [s];
      case Histo =>
        series := EncodeHistogram(base, f.name, m.histogram, timestamp);
    }
    if Proper(f) && m in f.metrics {
      RenderedMetricReadsBack(series, f, m, host, timestamp);
    }
  }

  // Of another kind, the first metric is an error.
  method EncodeFamily(f: Family, host: string, timestamp: int) returns (series: Option<Request>)
    ensures series.None? <==> f.kind == Other && f.metrics != []
    ensures series.Some? && Proper(f) ==> Renders(series.value, FamilyPoints(f, f.metrics, host), timestamp)
  {
    var done: Request := [];
    for i := 0 to |f.metrics|
      invariant i > 0 ==> f.kind != Other
      invariant Proper(f) ==> Renders(done, FamilyPoints(f, f.metrics[..i], host), timestamp)
    {
      if f.kind == Other {
        return None;
      }
      assert f.metrics[..i + 1][..i] == f.metrics[..i];
      var more := EncodeMetric(f, f.metrics[i], host, timestamp);
      if Proper(f) {
        RendersConcat(done, FamilyPoints(f, f.metrics[..i], host),
                      more, MetricPoints(f, f.metrics[i], host), timestamp);
      }
      done := done + more;
    }
    assert f.metrics[..|f.metrics|] == f.metrics;
    series := Some(done);
  }

  // A family of another kind that has a metric is an error.
  predicate Supported(families: seq<Family>) {
    forall f :: f in families && f.metrics != [] ==> f.kind != Other
  }

  lemma PointsSnoc(families: seq<Family>, f: Family, host: string)
    ensures Points(families + [f], host) == Points(families, host) + FamilyPoints(f, f.metrics, host)
  {
    assert (families + [f])[..|families|] == families;
  }

  ghost predicate AllProper(families: seq<Family>) {
    forall f :: f in families ==> Proper(f)
  }

  ghost predicate Encodes(sorted: Request, families: seq<Family>, host: string, timestamp: int) {
    exists unsorted :: Renders(unsorted, Points(families, host), timestamp) && sorted == SortBy(KeyOf, unsorted)
  }

  // ---- what is sent, of all families ----------------------------------------------

  ghost predicate DueIn(families: seq<Family>, f: Family, m: Metric, name: string, le: Option<string>, bits: nat) {
    f in families && m in f.metrics && Due(f, m, name, le, bits)
  }

  ghost predicate Accounted(s: Series, families: seq<Family>, host: string, timestamp: int) {
    exists f, m, name, le, bits ::
      && DueIn(families, f, m, name, le, bits) && Says(s.labels, m, host, name, le)
      && s.samples == [Sample(bits, timestamp)]
  }

  // Every value of every metric is sent under its labels, as many series as are due, and nothing
  // else is sent.
  ghost predicate ReadsBack(series: Request, families: seq<Family>, host: string, timestamp: int) {
    && |series| == AllDue(families)
    && (forall f, m, name, le, bits :: DueIn(families, f, m, name, le, bits) ==>
          Sent(series, m, host, name, le, Sample(bits, timestamp)))
    && (forall s :: s in series ==> Accounted(s, families, host, timestamp))
  }

  lemma {:induction false} FamilyPointsDue(f: Family, metrics: seq<Metric>, host: string, p: Point)
    ensures p in FamilyPoints(f, metrics, host) <==> exists m :: m in metrics && Stands(p, f, m, host)
  {
    if metrics == [] {
    } else {
      var init, last := metrics[..|metrics| - 1], metrics[|metrics| - 1];
      FamilyPointsDue(f, init, host, p);
      MetricPointsDue(f, last, host, p);
      assert metrics == init + [last];
    }
  }

  ghost predicate StandsIn(p: Point, f: Family, host: string) {
    exists m :: m in f.metrics && Stands(p, f, m, host)
  }

  lemma {:induction false} PointsDue(families: seq<Family>, host: string, p: Point)
    ensures p in Points(families, host) <==> exists f :: f in families && StandsIn(p, f, host)
  {
    if families == [] {
    } else {
      var init, last := families[..|families| - 1], families[|families| - 1];
      PointsDue(init, host, p);
      FamilyPointsDue(last, last.metrics, host, p);
      assert p in FamilyPoints(last, last.metrics, host) <==> StandsIn(p, last, host);
      assert families == init + [last];
      assert p in Points(families, host) <==> p in Points(init, host) || StandsIn(p, last, host);
    }
  }

  lemma RenderedReadsBack(series: Request, families: seq<Family>, host: string, timestamp: int)
    requires AllProper(families) && Renders(series, Points(families, host), timestamp)
    ensures ReadsBack(series, families, host, timestamp)
  {
    var points := Points(families, host);
    PointsCount(families, host);
    forall f, m, name, le, bits | DueIn(families, f, m, name, le, bits)
      ensures Sent(series, m, host, name, le, Sample(bits, timestamp))
    {
      var p := PointOf(Base(m.labels, host), name, bits, le);
      assert Stands(p, f, m, host) && StandsIn(p, f, host);
      PointsDue(families, host, p);
      var i :| 0 <= i < |points| && points[i] == p;
      MetricDueSays(f, m, host, series[i].labels, name, bits, le);
    }
    forall s | s in series ensures Accounted(s, families, host, timestamp) {
      var i :| 0 <= i < |series| && series[i] == s;
      PointsDue(families, host, points[i]);
      var f :| f in families && StandsIn(points[i], f, host);
      var m :| m in f.metrics && Stands(points[i], f, m, host);
      var name, le, bits :| Due(f, m, name, le, bits) && points[i] == PointOf(Base(m.labels, host), name, bits, le);
      assert DueIn(families, f, m, name, le, bits);
      MetricDueSays(f, m, host, s.labels, name, bits, le);
    }
  }

  lemma SortedReadsBack(series: Request, families: seq<Family>, host: string, timestamp: int)
    requires ReadsBack(series, families, host, timestamp)
    ensures ReadsBack(SortBy(KeyOf, series), families, host, timestamp)
  {
    var sorted := SortBy(KeyOf, series);
    SortBySorts(KeyOf, series);
    SameElements(sorted, series);
    assert |multiset(sorted)| == |multiset(series)|;
    forall s ensures s in sorted <==> s in series {
      assert s in Elements(sorted) <==> s in Elements(series);
    }
    forall f, m, name, le, bits | DueIn(families, f, m, name, le, bits)
      ensures Sent(sorted, m, host, name, le, Sample(bits, timestamp))
    {
      var s :| s in series && Says(s.labels, m, host, name, le) && s.samples == [Sample(bits, timestamp)];
      assert s in sorted;
    }
  }

  // How many series are due: one of a counter or a gauge, three and the finite buckets of a histogram.
  function FiniteBuckets(buckets: seq<Bucket>): nat {
    if buckets == [] then 0
    else FiniteBuckets(buckets[..|buckets| - 1]) + (if buckets[|buckets| - 1].bound.Finite? then 1 else 0)
  }

  function SeriesDue(kind: Kind, metrics: seq<Metric>): nat {
    if metrics == [] then 0
    else
      SeriesDue(kind, metrics[..|metrics| - 1])
      + (match kind
         case Histo => FiniteBuckets(metrics[|metrics| - 1].histogram.buckets) + 3
         case Other => 0
         case _ => 1)
  }

  function AllDue(families: seq<Family>): nat {
    if families == [] then 0
    else
      var f := families[|families| - 1];
      AllDue(families[..|families| - 1]) + SeriesDue(f.kind, f.metrics)
  }

  lemma {:induction false} BucketPointsCount(base: map<string, string>, name: string, buckets: seq<Bucket>)
    ensures |BucketPoints(base, name, buckets)| == FiniteBuckets(buckets)
  {
    if buckets != [] {
      BucketPointsCount(base, name, buckets[..|buckets| - 1]);
    }
  }

  lemma {:induction false} FamilyPointsCount(f: Family, metrics: seq<Metric>, host: string)
    ensures |FamilyPoints(f, metrics, host)| == SeriesDue(f.kind, metrics)
  {
    if metrics != [] {
      var m := metrics[|metrics| - 1];
      FamilyPointsCount(f, metrics[..|metrics| - 1], host);
      BucketPointsCount(Base(m.labels, host), f.name, m.histogram.buckets);
    }
  }

  lemma {:induction false} PointsCount(families: seq<Family>, host: string)
    ensures |Points(families, host)| == AllDue(families)
  {
    if families != [] {
      var f := families[|families| - 1];
      PointsCount(families[..|families| - 1], host);
      FamilyPointsCount(f, f.metrics, host);
    }
  }

  lemma SaidAlike(a: Labels, b: Labels, m: Metric, host: string, name: string, le: Option<string>)
    requires Says(a, m, host, name, le) && Says(b, m, host, name, le)
    ensures a == b
  {
    forall l ensures l in Elements(a) <==> l in Elements(b) {
      assert l in a <==> l in b;
    }
    StrictlySortedUnique(NameOf, a, b);
  }

  lemma KeyedApart(series: Request, s: Series, t: Series)
    requires DistinctBy(KeyOf, series) && s in series && t in series && s.labels == t.labels
    ensures s == t
  {
    var i :| 0 <= i < |series| && series[i] == s;
    var j :| 0 <= j < |series| && series[j] == t;
    assert KeyOf(series[i]) == KeyOf(series[j]);
  }

  // With no two series under one key, looking up the labels of a value that is due finds one series,
  // and that value.
  lemma EachValueOnce(series: Request, families: seq<Family>, host: string, timestamp: int,
                      f: Family, m: Metric, name: string, le: Option<string>, bits: nat, s: Series)
    requires ReadsBack(series, families, host, timestamp) && DistinctBy(KeyOf, series)
    requires DueIn(families, f, m, name, le, bits)
    requires s in series && Says(s.labels, m, host, name, le)
    ensures s.samples == [Sample(bits, timestamp)]
    ensures forall t :: t in series && Says(t.labels, m, host, name, le) ==> t == s
  {
    assert Sent(series, m, host, name, le, Sample(bits, timestamp));
    var found :| found in series && Says(found.labels, m, host, name, le) && found.samples == [Sample(bits, timestamp)];
    forall t | t in series && Says(t.labels, m, host, name, le) ensures t == found {
      SaidAlike(t.labels, found.labels, m, host, name, le);
      KeyedApart(series, t, found);
    }
  }

  // The result is determined by the families alone: it is the one rendering of their points, sorted
  // by key, for every order in which the label maps are walked.
  method EncodeFamilies(families: seq<Family>, host: string, timestamp: int) returns (result: Option<Request>)
    ensures result.Some? <==> Supported(families)
    ensures result.Some? ==> SortedBy(KeyOf, result.value)
    ensures result.Some? && AllProper(families) ==>
      Encodes(result.value, families, host, timestamp) && ReadsBack(result.value, families, host, timestamp)
  {
    var series: Request := [];
    for i := 0 to |families|
      invariant Supported(families[..i])
      invariant AllProper(families) ==> Renders(series, Points(families[..i], host), timestamp)
    {
      var f := families[i];
      assert families[..i + 1] == families[..i] + [f];
      PointsSnoc(families[..i], f, host);
      var more := EncodeFamily(f, host, timestamp);
      if more.None? {
        assert f in families;
        return None;
      }
      if AllProper(families) {
        RendersConcat(series, Points(families[..i], host), more.value, FamilyPoints(f, f.metrics, host), timestamp);
      }
      series := series + more.value;
    }
    assert families[..|families|] == families;
    SortBySorts(KeyOf, series);
    if AllProper(families) {
      RenderedReadsBack(series, families, host, timestamp);
      SortedReadsBack(series, families, host, timestamp);
    }
    result := Some(SortBy(KeyOf, series));
  }

  // Two encodings of the same families are equal, series by series and label by label.
  lemma EncodingCanonical(families: seq<Family>, host: string, timestamp: int, a: Request, b: Request)
    requires Encodes(a, families, host, timestamp) && Encodes(b, families, host, timestamp)
    ensures a == b
  {
    var points := Points(families, host);
    var s :| Renders(s, points, timestamp) && a == SortBy(KeyOf, s);
    var t :| Renders(t, points, timestamp) && b == SortBy(KeyOf, t);
    RenderingUnique(s, t, points, timestamp);
  }

  // Whatever order the series were produced in, distinct label sets leave one sorted result.
  lemma SeriesOrderIrrelevant(a: Request, b: Request)
    requires DistinctBy(KeyOf, a) && DistinctBy(KeyOf, b) && Elements(a) == Elements(b)
    ensures SortBy(KeyOf, a) == SortBy(KeyOf, b)
    ensures StrictlySortedBy(KeyOf, SortBy(KeyOf, a))
  {
    SortDistinct(KeyOf, b);
    SortIsCanonical(KeyOf, a, SortBy(KeyOf, b));
  }

  // ---- histograms --------------------------------------------------------------

  predicate IsInfBucket(p: Point, name: string) {
    && "__name__" in p.labels && p.labels["__name__"] == name + "_bucket"
    && "le" in p.labels && p.labels["le"] == "+Inf"
  }

  function InfBuckets(points: seq<Point>, name: string): seq<Point> {
    if points == [] then []
    else
      InfBuckets(points[..|points| - 1], name)
      + (if IsInfBucket(points[|points| - 1], name) then [points[|points| - 1]] else [])
  }

  lemma InfBucketsSnoc(points: seq<Point>, p: Point, name: string)
    ensures InfBuckets(points + [p], name) == InfBuckets(points, name) + (if IsInfBucket(p, name) then [p] else [])
  {
    assert (points + [p])[..|points|] == points;
  }

  lemma {:induction false} NoInfAmongFinite(base: map<string, string>, name: string, buckets: seq<Bucket>)
    requires forall b :: b in buckets && b.bound.Finite? ==> b.bound.text != "+Inf"
    ensures InfBuckets(BucketPoints(base, name, buckets), name) == []
  {
    if buckets == [] {
    } else {
      var init, last := buckets[..|buckets| - 1], buckets[|buckets| - 1];
      assert last in buckets;
      NoInfAmongFinite(base, name, init);
      if last.bound.Finite? {
        InfBucketsSnoc(BucketPoints(base, name, init),
                       WithLe(base, name + "_bucket", last.count, last.bound.text), name);
      } else {
        assert BucketPoints(base, name, buckets) == BucketPoints(base, name, init);
      }
    }
  }

  // Remote Write needs the +Inf bucket: a histogram yields exactly one, equal to its _count,
  // whether or not it listed one.
  lemma OneInfBucket(f: Family, m: Metric, host: string)
    requires f.kind == Histo && Proper(f) && m in f.metrics
    requires forall b :: b in m.histogram.buckets && b.bound.Finite? ==> b.bound.text != "+Inf"
    ensures var points, base := MetricPoints(f, m, host), Base(m.labels, host);
      && Plain(base, f.name + "_count", m.histogram.count) in points
      && InfBuckets(points, f.name) == [WithLe(base, f.name + "_bucket", m.histogram.count, "+Inf")]
  {
    var points, base := MetricPoints(f, m, host), Base(m.labels, host);
    var finite := BucketPoints(base, f.name, m.histogram.buckets);
    var inf := WithLe(base, f.name + "_bucket", m.histogram.count, "+Inf");
    var count := Plain(base, f.name + "_count", m.histogram.count);
    var sum := Plain(base, f.name + "_sum", m.histogram.sum);
    NoInfAmongFinite(base, f.name, m.histogram.buckets);
    BaseNames(m.labels, host, "le");
    InfBucketsSnoc(finite, inf, f.name);
    InfBucketsSnoc(finite + [inf], count, f.name);
    InfBucketsSnoc(finite + [inf] + [count], sum, f.name);
    assert points == finite + [inf] + [count] + [sum];
    assert points[|finite| + 1] == count;
  }
}
