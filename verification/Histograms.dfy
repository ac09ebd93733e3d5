// internal/promtext/promtext.go and internal/metrics/metrics.go: adding histograms, and checking one.
module Histograms {
  import opened Text
  import opened Exposition

  datatype Hist = Hist(count: uint64, sum: real, buckets: map<real, uint64>)

  datatype Outcome = NotFound | Differs | Found(hist: Hist)

  // uint64 addition wraps.
  function Plus(a: uint64, b: uint64): uint64 {
    if a + b < UINT64 then a + b else a + b - UINT64
  }

  // What is left of a number in 64 bits.
  function Wrap(n: nat): uint64 {
    if n < UINT64 then n else Wrap(n - UINT64)
  }

  lemma {:induction false} WrapAdd(x: nat, y: uint64)
    ensures Plus(Wrap(x), y) == Wrap(x + y)
  {
    if x < UINT64 {
      assert x + y >= UINT64 ==> Wrap(x + y) == Wrap(x + y - UINT64);
    } else {
      WrapAdd(x - UINT64, y);
    }
  }

  // ---- what the selected series hold together ------------------------------------------------

  function Bounds(bs: seq<Bucket>): seq<real> {
    seq(|bs|, j requires 0 <= j < |bs| => bs[j].bound)
  }

  // The histograms that m selects among the first n series.
  function HistosTo(xs: seq<Metric>, m: Match, n: nat): seq<Metric>
    requires n <= |xs|
  {
    if n == 0 then []
    else if Selects(m, xs[n - 1].labels) && xs[n - 1].reading.Histo? then HistosTo(xs, m, n - 1) + [xs[n - 1]]
    else HistosTo(xs, m, n - 1)
  }

  function Histos(xs: seq<Metric>, m: Match): seq<Metric> {
    HistosTo(xs, m, |xs|)
  }

  function Held(bs: seq<Bucket>, bound: real): nat {
    if bs == [] then 0
    else Held(bs[..|bs| - 1], bound) + if bs[|bs| - 1].bound == bound then bs[|bs| - 1].cumulative else 0
  }

  // Nothing, for a series that is not a histogram.
  function BucketsOf(x: Metric): seq<Bucket> {
    if x.reading.Histo? then x.reading.buckets else []
  }

  function CountOf(x: Metric): uint64 {
    if x.reading.Histo? then x.reading.count else 0
  }

  function SumOf(x: Metric): real {
    if x.reading.Histo? then x.reading.sum else 0.0
  }

  function CountTotal(hs: seq<Metric>): nat {
    if hs == [] then 0 else CountTotal(hs[..|hs| - 1]) + CountOf(hs[|hs| - 1])
  }

  function HeldTotal(hs: seq<Metric>, bound: real): nat {
    if hs == [] then 0 else HeldTotal(hs[..|hs| - 1], bound) + Held(BucketsOf(hs[|hs| - 1]), bound)
  }

  function BoundsIn(bs: seq<Bucket>): set<real> {
    if bs == [] then {} else BoundsIn(bs[..|bs| - 1]) + {bs[|bs| - 1].bound}
  }

  function BoundSet(hs: seq<Metric>): set<real> {
    if hs == [] then {} else BoundSet(hs[..|hs| - 1]) + BoundsIn(BucketsOf(hs[|hs| - 1]))
  }

  ghost predicate SameBounds(hs: seq<Metric>) {
    forall i :: 0 <= i < |hs| ==> Bounds(BucketsOf(hs[i])) == Bounds(BucketsOf(hs[0]))
  }

  function Tally(hs: seq<Metric>): map<real, uint64> {
    map b | b in BoundSet(hs) :: Wrap(HeldTotal(hs, b))
  }

  ghost function Merge(hs: seq<Metric>): Outcome {
    if hs == [] then NotFound
    else if !SameBounds(hs) then Differs
    else Found(Hist(Wrap(CountTotal(hs)), Total(hs, SumOf), Tally(hs)))
  }

  lemma Snoc(hs: seq<Metric>, x: Metric, bound: real)
    ensures CountTotal(hs + [x]) == CountTotal(hs) + CountOf(x)
    ensures HeldTotal(hs + [x], bound) == HeldTotal(hs, bound) + Held(BucketsOf(x), bound)
    ensures BoundSet(hs + [x]) == BoundSet(hs) + BoundsIn(BucketsOf(x))
  {
    assert (hs + [x])[..|hs|] == hs;
  }

  lemma {:induction false} HistosPrefix(xs: seq<Metric>, ys: seq<Metric>, m: Match, n: nat)
    requires n <= |xs|
    ensures HistosTo(xs + ys, m, n) == HistosTo(xs, m, n)
  {
    if n == 0 {
    } else {
      HistosPrefix(xs, ys, m, n - 1);
    }
  }

  lemma HistosSnoc(xs: seq<Metric>, x: Metric, m: Match)
    ensures Histos(xs + [x], m)
         == if Selects(m, x.labels) && x.reading.Histo? then Histos(xs, m) + [x] else Histos(xs, m)
  {
    HistosPrefix(xs, [x], m, |xs|);
  }

  // ---- the code ------------------------------------------------------------------------------

  method Agree(a: seq<real>, b: seq<real>) returns (same: bool)
    ensures same <==> a == b
  {
    if |a| != |b| {
      return false;
    }
    for i := 0 to |a|
      invariant a[..i] == b[..i]
    {
      if a[i] != b[i] {
        return false;
      }
    }
    assert a == a[..|a|] == b[..|b|] == b;
    return true;
  }

  // The buckets once bs of the next series has been added to those of hs.
  ghost predicate Midway(buckets: map<real, uint64>, hs: seq<Metric>, bs: seq<Bucket>) {
    && buckets.Keys == BoundSet(hs) + BoundsIn(bs)
    && forall b :: b in buckets ==> buckets[b] == Wrap(HeldTotal(hs, b) + Held(bs, b))
  }

  function Bumped(buckets: map<real, uint64>, c: Bucket): map<real, uint64> {
    buckets[c.bound := Plus(if c.bound in buckets then buckets[c.bound] else 0, c.cumulative)]
  }

  lemma HeldSnoc(bs: seq<Bucket>, c: Bucket, b: real)
    ensures Held(bs + [c], b) == Held(bs, b) + if c.bound == b then c.cumulative else 0
    ensures BoundsIn(bs + [c]) == BoundsIn(bs) + {c.bound}
  {
    assert (bs + [c])[..|bs|] == bs;
  }

  lemma BumpedAt(buckets: map<real, uint64>, hs: seq<Metric>, bs: seq<Bucket>, c: Bucket)
    requires Midway(buckets, hs, bs)
    ensures Bumped(buckets, c)[c.bound] == Wrap(HeldTotal(hs, c.bound) + Held(bs, c.bound) + c.cumulative)
  {
    BucketNone(bs, c.bound);
    HeldNone(hs, c.bound);
    WrapAdd(HeldTotal(hs, c.bound) + Held(bs, c.bound), c.cumulative);
  }

  lemma BumpedElsewhere(buckets: map<real, uint64>, hs: seq<Metric>, bs: seq<Bucket>, c: Bucket, b: real)
    requires Midway(buckets, hs, bs) && b in buckets && b != c.bound
    ensures Bumped(buckets, c)[b] == Wrap(HeldTotal(hs, b) + Held(bs + [c], b))
  {
    HeldSnoc(bs, c, b);
  }

  lemma MidwayStep(buckets: map<real, uint64>, hs: seq<Metric>, bs: seq<Bucket>, c: Bucket)
    requires Midway(buckets, hs, bs)
    ensures Midway(Bumped(buckets, c), hs, bs + [c])
  {
    BumpedAt(buckets, hs, bs, c);
    HeldSnoc(bs, c, c.bound);
    forall b | b in Bumped(buckets, c) ensures Bumped(buckets, c)[b] == Wrap(HeldTotal(hs, b) + Held(bs + [c], b)) {
      if b != c.bound {
        BumpedElsewhere(buckets, hs, bs, c, b);
      }
    }
  }

  lemma MidwayDone(buckets: map<real, uint64>, hs: seq<Metric>, x: Metric)
    requires Midway(buckets, hs, BucketsOf(x))
    ensures buckets == Tally(hs + [x])
  {
    forall b ensures HeldTotal(hs + [x], b) == HeldTotal(hs, b) + Held(BucketsOf(x), b) {
      Snoc(hs, x, b);
    }
    Snoc(hs, x, 0.0);
  }

  method AddBuckets(buckets: map<real, uint64>, ghost hs: seq<Metric>, x: Metric) returns (after: map<real, uint64>)
    requires buckets == Tally(hs) && x.reading.Histo?
    ensures after == Tally(hs + [x])
  {
    var bs := x.reading.buckets;
    after := buckets;
    for j := 0 to |bs|
      invariant Midway(after, hs, bs[..j])
    {
      assert bs[..j + 1] == bs[..j] + [bs[j]];
      MidwayStep(after, hs, bs[..j], bs[j]);
      var c := bs[j];
      after := after[c.bound := Plus(if c.bound in after then after[c.bound] else 0, c.cumulative)];
    }
    assert bs[..|bs|] == bs;
    MidwayDone(after, hs, x);
  }

  lemma {:induction false} BucketNone(bs: seq<Bucket>, b: real)
    ensures b !in BoundsIn(bs) ==> Held(bs, b) == 0
  {
    if bs == [] {
    } else {
      BucketNone(bs[..|bs| - 1], b);
    }
  }

  lemma {:induction false} HeldNone(hs: seq<Metric>, b: real)
    ensures b !in BoundSet(hs) ==> HeldTotal(hs, b) == 0
  {
    if hs == [] {
    } else {
      HeldNone(hs[..|hs| - 1], b);
      BucketNone(BucketsOf(hs[|hs| - 1]), b);
    }
  }

  // What the loop over the series holds once hs has been added.
  ghost predicate Added(found: bool, bounds: seq<real>, h: Hist, hs: seq<Metric>) {
    && (found <==> hs != []) && SameBounds(hs) && (found ==> bounds == Bounds(BucketsOf(hs[0])))
    && h == Hist(Wrap(CountTotal(hs)), Total(hs, SumOf), Tally(hs))
  }

  lemma AddedStep(found: bool, bounds: seq<real>, h: Hist, hs: seq<Metric>, x: Metric, buckets: map<real, uint64>)
    requires Added(found, bounds, h, hs) && buckets == Tally(hs + [x])
    requires found ==> bounds == Bounds(BucketsOf(x))
    ensures Added(true, Bounds(BucketsOf(x)), Hist(Plus(h.count, CountOf(x)), h.sum + SumOf(x), buckets), hs + [x])
  {
    Snoc(hs, x, 0.0);
    TotalSnoc(hs, x, SumOf);
    WrapAdd(CountTotal(hs), CountOf(x));
    SameBoundsSnoc(hs, x);
  }

  lemma SameBoundsSnoc(hs: seq<Metric>, x: Metric)
    requires SameBounds(hs) && (hs != [] ==> Bounds(BucketsOf(hs[0])) == Bounds(BucketsOf(x)))
    ensures SameBounds(hs + [x]) && Bounds(BucketsOf((hs + [x])[0])) == Bounds(BucketsOf(x))
  {
  }

  // One selected histogram more: added, or refused because its bounds differ from the first's.
  method AddOne(found: bool, bounds: seq<real>, h: Hist, ghost hs: seq<Metric>, x: Metric)
    returns (same: bool, these: seq<real>, after: Hist)
    requires Added(found, bounds, h, hs) && x.reading.Histo?
    ensures same ==> Added(true, these, after, hs + [x])
    ensures !same ==> Disagrees(hs, x)
  {
    these, after, same := Bounds(x.reading.buckets), h, true;
    if found {
      same := Agree(bounds, these);
    }
    if same {
      var buckets := AddBuckets(h.buckets, hs, x);
      AddedStep(found, bounds, h, hs, x, buckets);
      after := Hist(Plus(h.count, x.reading.count), h.sum + x.reading.sum, buckets);
    }
  }

  method Histogram(fams: Families, name: string, m: Match) returns (r: Outcome)
    ensures r == if name in fams && fams[name].isHistogram then Merge(Histos(fams[name].metrics, m)) else NotFound
  {
    if name !in fams || !fams[name].isHistogram {
      return NotFound;
    }
    var xs := fams[name].metrics;
    var bounds: seq<real> := [];
    var found, h := false, Hist(0, 0.0, map[]);
    for n := 0 to |xs|
      invariant Added(found, bounds, h, HistosTo(xs, m, n))
    {
      var x := xs[n];
      if !Selects(m, x.labels) || !x.reading.Histo? {
        continue;
      }
      var same;
      same, bounds, h := AddOne(found, bounds, h, HistosTo(xs, m, n), x);
      if !same {
        Refused(xs, m, n, |xs|);
        return Differs;
      }
      found := true;
    }
    r := if found then Found(h) else NotFound;
  }

  ghost predicate Disagrees(hs: seq<Metric>, x: Metric) {
    hs != [] && Bounds(BucketsOf(hs[0])) != Bounds(BucketsOf(x))
  }

  // Once refused, always refused: later series do not mend it.
  lemma {:induction false} Refused(xs: seq<Metric>, m: Match, n: nat, k: nat)
    requires n < k <= |xs| && Selects(m, xs[n].labels) && xs[n].reading.Histo? && Disagrees(HistosTo(xs, m, n), xs[n])
    ensures HistosTo(xs, m, k) != [] && HistosTo(xs, m, k)[0] == HistosTo(xs, m, n)[0]
    ensures xs[n] in HistosTo(xs, m, k) && Merge(HistosTo(xs, m, k)) == Differs
    decreases k
  {
    var all := HistosTo(xs, m, k);
    if n < k - 1 {
      Refused(xs, m, n, k - 1);
    }
    assert xs[n] in all;
    var i :| 0 <= i < |all| && all[i] == xs[n];
  }

  // ---- the sum does not depend on the order of the series ------------------------------------------

  function CountReal(x: Metric): real {
    CountOf(x) as real
  }

  function HeldReal(bound: real): Metric -> real {
    (x: Metric) => Held(BucketsOf(x), bound) as real
  }

  lemma {:induction false} TotalsAreReal(hs: seq<Metric>, bound: real)
    ensures CountTotal(hs) as real == Total(hs, CountReal)
    ensures HeldTotal(hs, bound) as real == Total(hs, HeldReal(bound))
  {
    if hs == [] {
    } else {
      TotalsAreReal(hs[..|hs| - 1], bound);
    }
  }

  lemma {:induction false} BoundSetMeans(hs: seq<Metric>, b: real)
    ensures b in BoundSet(hs) <==> exists h :: h in hs && b in BoundsIn(BucketsOf(h))
  {
    if hs == [] {
    } else {
      BoundSetMeans(hs[..|hs| - 1], b);
      assert hs == hs[..|hs| - 1] + [hs[|hs| - 1]];
    }
  }

  lemma SameBoundsMeans(hs: seq<Metric>)
    ensures SameBounds(hs) <==> forall g, h :: g in hs && h in hs ==> Bounds(BucketsOf(g)) == Bounds(BucketsOf(h))
  {
    if forall g, h :: g in hs && h in hs ==> Bounds(BucketsOf(g)) == Bounds(BucketsOf(h)) {
      forall i | 0 <= i < |hs| ensures Bounds(BucketsOf(hs[i])) == Bounds(BucketsOf(hs[0])) {
        assert hs[i] in hs && hs[0] in hs;
      }
    }
  }

  // Whatever the order of the series, the sum is the same, and so is the refusal.
  lemma MergeIgnoresOrder(a: seq<Metric>, b: seq<Metric>)
    requires multiset(a) == multiset(b)
    ensures Merge(a) == Merge(b)
  {
    assert |multiset(a)| == |a| && |multiset(b)| == |b|;
    forall x ensures x in a <==> x in b {
      assert x in a <==> x in multiset(a);
      assert x in b <==> x in multiset(b);
    }
    SameBoundsMeans(a);
    SameBoundsMeans(b);
    TotalPermutes(a, b, SumOf);
    TotalPermutes(a, b, CountReal);
    TotalsAreReal(a, 0.0);
    TotalsAreReal(b, 0.0);
    forall bound ensures HeldTotal(a, bound) == HeldTotal(b, bound)
      ensures bound in BoundSet(a) <==> bound in BoundSet(b) {
      TotalPermutes(a, b, HeldReal(bound));
      TotalsAreReal(a, bound);
      TotalsAreReal(b, bound);
      BoundSetMeans(a, bound);
      BoundSetMeans(b, bound);
    }
    assert Tally(a) == Tally(b);
  }

  // ---- and it is a histogram -------------------------------------------------------------------------

  // A histogram an engine may expose.
  ghost predicate WellFormed(x: Metric) {
    && x.reading.Histo?
    && var bs := x.reading.buckets;
      && (forall i, j :: 0 <= i < j < |bs| ==> bs[i].bound < bs[j].bound && bs[i].cumulative <= bs[j].cumulative)
      && (forall i :: 0 <= i < |bs| ==> bs[i].cumulative <= x.reading.count)
  }

  // What validateHist is for: counts do not fall as the bound grows, nor pass the total.
  ghost predicate Cumulative(h: Hist) {
    && (forall a, b :: a in h.buckets && b in h.buckets && a <= b ==> h.buckets[a] <= h.buckets[b])
    && (forall b :: b in h.buckets ==> h.buckets[b] <= h.count)
  }

  lemma {:induction false} BoundAt(bs: seq<Bucket>, b: real) returns (k: nat)
    requires b in BoundsIn(bs)
    ensures k < |bs| && bs[k].bound == b
  {
    if bs[|bs| - 1].bound == b {
      k := |bs| - 1;
    } else {
      k := BoundAt(bs[..|bs| - 1], b);
    }
  }

  lemma {:induction false} Above(bs: seq<Bucket>, b: real)
    requires forall j :: 0 <= j < |bs| ==> bs[j].bound < b
    ensures b !in BoundsIn(bs)
  {
    if bs == [] {
    } else {
      Above(bs[..|bs| - 1], b);
    }
  }

  lemma {:induction false} HeldAt(bs: seq<Bucket>, k: nat)
    requires k < |bs| && forall i, j :: 0 <= i < j < |bs| ==> bs[i].bound < bs[j].bound
    ensures Held(bs, bs[k].bound) == bs[k].cumulative
  {
    var init := bs[..|bs| - 1];
    if k == |bs| - 1 {
      Above(init, bs[k].bound);
      BucketNone(init, bs[k].bound);
    } else {
      HeldAt(init, k);
    }
  }

  lemma OneIsCumulative(x: Metric, a: real, b: real)
    requires WellFormed(x) && a <= b && a in BoundsIn(BucketsOf(x)) && b in BoundsIn(BucketsOf(x))
    ensures Held(BucketsOf(x), a) <= Held(BucketsOf(x), b) <= CountOf(x)
  {
    var j := BoundAt(BucketsOf(x), a);
    var k := BoundAt(BucketsOf(x), b);
    HeldAt(BucketsOf(x), j);
    HeldAt(BucketsOf(x), k);
  }

  lemma {:induction false} BoundsFixSet(a: seq<Bucket>, b: seq<Bucket>)
    requires Bounds(a) == Bounds(b)
    ensures BoundsIn(a) == BoundsIn(b)
  {
    assert |Bounds(a)| == |a| && |Bounds(b)| == |b|;
    if a == [] {
    } else {
      assert Bounds(a[..|a| - 1]) == Bounds(a)[..|a| - 1] == Bounds(b[..|b| - 1]);
      assert Bounds(a)[|a| - 1] == Bounds(b)[|b| - 1];
      BoundsFixSet(a[..|a| - 1], b[..|b| - 1]);
    }
  }

  lemma {:induction false} AllAreCumulative(hs: seq<Metric>, a: real, b: real)
    requires forall h :: h in hs ==> WellFormed(h) && a in BoundsIn(BucketsOf(h)) && b in BoundsIn(BucketsOf(h))
    requires a <= b
    ensures HeldTotal(hs, a) <= HeldTotal(hs, b) <= CountTotal(hs)
  {
    if hs == [] {
    } else {
      assert hs == hs[..|hs| - 1] + [hs[|hs| - 1]];
      AllAreCumulative(hs[..|hs| - 1], a, b);
      OneIsCumulative(hs[|hs| - 1], a, b);
    }
  }

  lemma BoundsAreEverywhere(hs: seq<Metric>, b: real)
    requires SameBounds(hs) && b in BoundSet(hs)
    ensures forall h :: h in hs ==> b in BoundsIn(BucketsOf(h))
  {
    BoundSetMeans(hs, b);
    SameBoundsMeans(hs);
    var g :| g in hs && b in BoundsIn(BucketsOf(g));
    forall h | h in hs ensures b in BoundsIn(BucketsOf(h)) {
      BoundsFixSet(BucketsOf(g), BucketsOf(h));
    }
  }

  lemma TotalsAreCumulative(hs: seq<Metric>, a: real, b: real)
    requires SameBounds(hs) && (forall h :: h in hs ==> WellFormed(h))
    requires a in BoundSet(hs) && b in BoundSet(hs) && a <= b
    ensures HeldTotal(hs, a) <= HeldTotal(hs, b) <= CountTotal(hs)
  {
    BoundsAreEverywhere(hs, a);
    BoundsAreEverywhere(hs, b);
    AllAreCumulative(hs, a, b);
  }

  lemma TallyAt(hs: seq<Metric>, b: real)
    requires b in BoundSet(hs) && HeldTotal(hs, b) < UINT64
    ensures b in Tally(hs) && Tally(hs)[b] == HeldTotal(hs, b)
  {
  }

  lemma {:induction false} BoundIn(bs: seq<Bucket>, k: nat)
    requires k < |bs|
    ensures bs[k].bound in BoundsIn(bs)
  {
    if k < |bs| - 1 {
      BoundIn(bs[..|bs| - 1], k);
    }
  }

  // One histogram merges to itself ...
  lemma MergeOfOne(x: Metric, k: nat)
    requires WellFormed(x) && k < |x.reading.buckets|
    ensures var r, c := Merge([x]), x.reading.buckets[k];
      && r.Found? && r.hist.count == x.reading.count && r.hist.sum == x.reading.sum
      && c.bound in r.hist.buckets && r.hist.buckets[c.bound] == c.cumulative
  {
    var bs := x.reading.buckets;
    assert [] + [x] == [x];
    Snoc([], x, bs[k].bound);
    TotalSnoc([], x, SumOf);
    HeldAt(bs, k);
    BoundIn(bs, k);
  }

  lemma {:induction false} GrownBucket(hs: seq<Metric>, x: Metric, k: nat)
    requires hs != [] && WellFormed(x) && k < |x.reading.buckets|
    requires Bounds(BucketsOf(hs[0])) == Bounds(x.reading.buckets)
    ensures var b, c := x.reading.buckets[k].bound, x.reading.buckets[k].cumulative;
      && b in BoundSet(hs) && b in BoundSet(hs + [x])
      && Wrap(HeldTotal(hs + [x], b)) == Plus(Wrap(HeldTotal(hs, b)), c)
  {
    var bs := x.reading.buckets;
    Snoc(hs, x, bs[k].bound);
    HeldAt(bs, k);
    BoundIn(bs, k);
    BoundOfFirst(hs, bs, k);
    WrapAdd(HeldTotal(hs, bs[k].bound), bs[k].cumulative);
  }

  lemma GrownTotals(hs: seq<Metric>, x: Metric)
    requires x.reading.Histo?
    ensures Wrap(CountTotal(hs + [x])) == Plus(Wrap(CountTotal(hs)), x.reading.count)
    ensures Total(hs + [x], SumOf) == Total(hs, SumOf) + x.reading.sum
  {
    Snoc(hs, x, 0.0);
    TotalSnoc(hs, x, SumOf);
    WrapAdd(CountTotal(hs), x.reading.count);
  }

  lemma GrownIsFound(hs: seq<Metric>, x: Metric)
    requires hs != [] && SameBounds(hs)
    ensures SameBounds(hs + [x]) <==> Bounds(BucketsOf(hs[0])) == Bounds(BucketsOf(x))
  {
    if SameBounds(hs + [x]) {
      SnocDiffers(hs, x);
    }
    if Bounds(BucketsOf(hs[0])) == Bounds(BucketsOf(x)) {
      SameBoundsSnoc(hs, x);
    }
  }

  // ... and each further one of the same bounds adds its count, its sum and its buckets, in 64 bits.
  lemma MergeGrows(hs: seq<Metric>, x: Metric, k: nat)
    requires Merge(hs).Found? && WellFormed(x) && k < |x.reading.buckets|
    ensures Merge(hs + [x]).Found? <==> Bounds(BucketsOf(hs[0])) == Bounds(x.reading.buckets)
    ensures Merge(hs + [x]).Found? ==>
      var before, after, c := Merge(hs).hist, Merge(hs + [x]).hist, x.reading.buckets[k];
      && after.sum == before.sum + x.reading.sum
      && IsSum(after.count, before.count, x.reading.count)
      && c.bound in before.buckets && c.bound in after.buckets
      && IsSum(after.buckets[c.bound], before.buckets[c.bound], c.cumulative)
  {
    GrownIsFound(hs, x);
    if Bounds(BucketsOf(hs[0])) == Bounds(x.reading.buckets) {
      GrownTotals(hs, x);
      GrownBucket(hs, x, k);
    }
  }

  // The 64 bits of a sum.
  predicate IsSum(total: nat, a: nat, b: nat) {
    total == a + b || total + 0x1_0000_0000_0000_0000 == a + b
  }

  lemma SnocDiffers(hs: seq<Metric>, x: Metric)
    requires hs != [] && SameBounds(hs + [x])
    ensures Bounds(BucketsOf(hs[0])) == Bounds(BucketsOf(x))
  {
    assert (hs + [x])[0] == hs[0] && (hs + [x])[|hs|] == x;
  }

  lemma BoundOfFirst(hs: seq<Metric>, bs: seq<Bucket>, k: nat)
    requires hs != [] && Bounds(BucketsOf(hs[0])) == Bounds(bs) && k < |bs|
    ensures bs[k].bound in BoundSet(hs)
  {
    var first := BucketsOf(hs[0]);
    assert Bounds(first)[k] == Bounds(bs)[k];
    BoundIn(first, k);
    assert hs[0] in hs;
    BoundSetMeans(hs, bs[k].bound);
  }

  // Well-formed histograms over the same bounds always add up to one that validateHist accepts, and
  // the count is conserved, as long as it fits in 64 bits.
  lemma MergedIsValid(hs: seq<Metric>)
    requires hs != [] && SameBounds(hs) && (forall h :: h in hs ==> WellFormed(h)) && CountTotal(hs) < UINT64
    ensures Merge(hs).Found? && Cumulative(Merge(hs).hist)
    ensures Merge(hs).hist.count == CountTotal(hs)
    ensures forall b :: b in Merge(hs).hist.buckets ==> Merge(hs).hist.buckets[b] == HeldTotal(hs, b)
  {
    var tally := Tally(hs);
    forall a, b | a in tally && b in tally && a <= b
      ensures tally[a] == HeldTotal(hs, a) && tally[a] <= tally[b] <= CountTotal(hs)
    {
      TotalsAreCumulative(hs, a, b);
      TallyAt(hs, a);
      TallyAt(hs, b);
    }
  }

  lemma {:induction false} WrapFits(n: nat)
    ensures Wrap(n) == n <==> n < UINT64
  {
  }

  // Whatever the series, the sum shows the true count, and a bucket its true count, exactly if that
  // fits in 64 bits.
  lemma CountsAreConservedIff(hs: seq<Metric>, bound: real)
    requires Merge(hs).Found?
    ensures Merge(hs).hist.count == CountTotal(hs) <==> CountTotal(hs) < UINT64
    ensures bound in Merge(hs).hist.buckets <==> bound in BoundSet(hs)
    ensures bound in Merge(hs).hist.buckets ==>
      (Merge(hs).hist.buckets[bound] == HeldTotal(hs, bound) <==> HeldTotal(hs, bound) < UINT64)
  {
    WrapFits(CountTotal(hs));
    WrapFits(HeldTotal(hs, bound));
  }

  // Past 64 bits neither survives: two valid histograms whose count wraps to zero.
  lemma OverflowBreaksValidity()
    ensures exists x, y :: WellFormed(x) && WellFormed(y) && SameBounds([x, y])
                        && Merge([x, y]).Found? && !Cumulative(Merge([x, y]).hist)
  {
    var x := Metric(map[], Histo(UINT64 - 1, 0.0, [Bucket(1.0, 1)]));
    var y := Metric(map[], Histo(1, 0.0, [Bucket(1.0, 1)]));
    var hs := [x, y];
    assert hs[..1] == [x] && [x][..0] == [];
    assert x.reading.buckets[..0] == [];
    assert CountTotal([x]) == UINT64 - 1 && CountTotal(hs) == UINT64;
    assert Held(x.reading.buckets, 1.0) == 1 && Held(y.reading.buckets, 1.0) == 1;
    assert HeldTotal([x], 1.0) == 1 && HeldTotal(hs, 1.0) == 2;
    assert 1.0 in BoundSet([x]) && 1.0 in BoundSet(hs);
    assert Merge(hs).hist.buckets[1.0] == 2 && Merge(hs).hist.count == 0;
  }

  // ---- the check -----------------------------------------------------------------------------------

  function Insert(b: real, xs: seq<real>): seq<real> {
    if xs == [] || b <= xs[0] then [b] + xs else [xs[0]] + Insert(b, xs[1..])
  }

  ghost predicate Ascending(xs: seq<real>) {
    forall i, j :: 0 <= i < j < |xs| ==> xs[i] <= xs[j]
  }

  lemma {:induction false} InsertAscends(b: real, xs: seq<real>)
    requires Ascending(xs)
    ensures Ascending(Insert(b, xs))
    ensures forall x :: x in Insert(b, xs) <==> x == b || x in xs
  {
    if xs != [] && b > xs[0] {
      InsertAscends(b, xs[1..]);
      var tail := Insert(b, xs[1..]);
      forall k | 0 <= k < |tail| ensures xs[0] <= tail[k] {
        assert tail[k] in tail;
      }
    }
  }

  lemma NotEmpty(s: set<real>)
    requires |s| > 0
    ensures exists b :: b in s
  {
    assert (forall b :: b !in s) ==> s == {};
  }

  method SortBounds(buckets: map<real, uint64>) returns (bounds: seq<real>)
    ensures Ascending(bounds) && forall b :: b in bounds <==> b in buckets
  {
    bounds := [];
    var rest: set<real> := buckets.Keys;
    while |rest| > 0
      invariant rest <= buckets.Keys && Ascending(bounds)
      invariant forall b :: b in bounds <==> b in buckets && b !in rest
      decreases |rest|
    {
      NotEmpty(rest);
      var b :| b in rest;
      InsertAscends(b, bounds);
      bounds, rest := Insert(b, bounds), rest - {b};
    }
  }

  // Counts in the order of their bounds: none falls below the one before, nor passes the total.
  ghost predicate Rises(counts: seq<uint64>, count: uint64) {
    && (forall j :: 0 < j < |counts| ==> counts[j - 1] <= counts[j])
    && (forall j :: 0 <= j < |counts| ==> counts[j] <= count)
  }

  method CheckCounts(counts: seq<uint64>, count: uint64) returns (ok: bool)
    ensures ok <==> Rises(counts, count)
  {
    var prev: uint64 := 0;
    for k := 0 to |counts|
      invariant prev == if k == 0 then 0 else counts[k - 1]
      invariant forall j :: 0 < j < k ==> counts[j - 1] <= counts[j]
      invariant forall j :: 0 <= j < k ==> counts[j] <= count
    {
      var c := counts[k];
      if c < prev || c > count {
        return false;
      }
      prev := c;
    }
    return true;
  }

  lemma {:induction false} RisesThroughout(counts: seq<uint64>, count: uint64, i: nat, j: nat)
    requires Rises(counts, count) && i <= j < |counts|
    ensures counts[i] <= counts[j]
    decreases j - i
  {
    if i == j {
    } else {
      RisesThroughout(counts, count, i, j - 1);
    }
  }

  // The counts of a histogram, in the order of its bounds.
  ghost predicate InOrder(h: Hist, bounds: seq<real>, counts: seq<uint64>) {
    && Ascending(bounds) && |counts| == |bounds| && (forall b :: b in bounds <==> b in h.buckets)
    && (forall k :: 0 <= k < |bounds| ==> bounds[k] in h.buckets && counts[k] == h.buckets[bounds[k]])
  }

  lemma RisesIsCumulative(h: Hist, bounds: seq<real>, counts: seq<uint64>)
    requires InOrder(h, bounds, counts)
    ensures Rises(counts, h.count) <==> Cumulative(h)
  {
    if Rises(counts, h.count) {
      forall a, b | a in h.buckets && b in h.buckets && a <= b ensures h.buckets[a] <= h.buckets[b] {
        var i, j :| 0 <= i < |bounds| && 0 <= j < |bounds| && bounds[i] == a && bounds[j] == b;
        if i <= j {
          RisesThroughout(counts, h.count, i, j);
        } else {
          assert bounds[j] <= bounds[i];
        }
      }
    }
    if Cumulative(h) {
      forall j | 0 <= j < |counts| ensures counts[j] <= h.count && (j > 0 ==> counts[j - 1] <= counts[j]) {
        assert bounds[j] in h.buckets && (j > 0 ==> bounds[j - 1] <= bounds[j]);
      }
    }
  }

  method ValidateHist(h: Hist) returns (ok: bool)
    ensures ok <==> Cumulative(h)
  {
    var bounds := SortBounds(h.buckets);
    var counts: seq<uint64> := [];
    for k := 0 to |bounds|
      invariant |counts| == k
      invariant forall j :: 0 <= j < k ==> bounds[j] in h.buckets && counts[j] == h.buckets[bounds[j]]
    {
      assert bounds[k] in bounds;
      counts := counts + [h.buckets[bounds[k]]];
    }
    RisesIsCumulative(h, bounds, counts);
    ok := CheckCounts(counts, h.count);
  }
}
