// The samples of a request, told from the series themselves: which there are, and what each says.
module WorkerSamples {
  import opened Text
  import opened Exposition
  import opened Histograms
  import opened Partition

  predicate Mine(q: Request, w: string, x: Metric) {
    Selects(q.selected, x.labels) && LabelOf(x.labels, q.workerLabel) == w
  }

  predicate MineHisto(q: Request, w: string, x: Metric) {
    Mine(q, w, x) && x.reading.Histo?
  }

  // What a worker's own series hold together.
  function Numbers(q: Request, w: string, xs: seq<Metric>): real {
    if xs == [] then 0.0
    else
      var x := xs[|xs| - 1];
      Numbers(q, w, xs[..|xs| - 1]) + (if Mine(q, w, x) && x.reading.Number? then x.reading.value else 0.0)
  }

  function HistoSums(q: Request, w: string, xs: seq<Metric>): real {
    if xs == [] then 0.0
    else
      var x := xs[|xs| - 1];
      HistoSums(q, w, xs[..|xs| - 1]) + (if MineHisto(q, w, x) then x.reading.sum else 0.0)
  }

  function HistoCounts(q: Request, w: string, xs: seq<Metric>): nat {
    if xs == [] then 0
    else
      var x := xs[|xs| - 1];
      HistoCounts(q, w, xs[..|xs| - 1]) + (if MineHisto(q, w, x) then x.reading.count else 0)
  }

  function Named(w: string): string {
    if w == "" then "default" else w
  }

  ghost predicate HasNumbers(q: Request, w: string) {
    exists x :: x in Series(q) && Mine(q, w, x) && x.reading.Number?
  }

  ghost predicate HasHistos(q: Request, w: string) {
    && q.source in q.fams && q.fams[q.source].isHistogram
    && exists x :: x in Series(q) && MineHisto(q, w, x)
  }

  // Two histograms of the worker have different bounds.
  ghost predicate BoundsDiffer(q: Request, w: string) {
    exists x, y :: x in Series(q) && y in Series(q) && MineHisto(q, w, x) && MineHisto(q, w, y)
                && Bounds(x.reading.buckets) != Bounds(y.reading.buckets)
  }

  // ---- a worker's share --------------------------------------------------------------------------

  lemma ShareIsMine(q: Request, w: string, x: Metric)
    requires "" !in x.labels && (q.workerLabel == "" ==> w == "")
    ensures Selects(Share(q.selected, q.workerLabel, w), x.labels) <==> Mine(q, w, x)
  {
  }

  lemma {:induction false} NumbersHold(q: Request, w: string, xs: seq<Metric>)
    requires NamesLabels(xs) && (q.workerLabel == "" ==> w == "")
    ensures Total(Picked(xs, Share(q.selected, q.workerLabel, w)), Value) == Numbers(q, w, xs)
  {
    if xs == [] {
    } else {
      var init, x := xs[..|xs| - 1], xs[|xs| - 1];
      assert xs == init + [x];
      NumbersHold(q, w, init);
      ShareSnoc(init, x, q.selected, q.workerLabel, w, Value);
    }
  }

  lemma {:induction false} HistosHoldMine(q: Request, w: string, xs: seq<Metric>)
    requires NamesLabels(xs) && (q.workerLabel == "" ==> w == "")
    ensures var hs := Histos(xs, Share(q.selected, q.workerLabel, w));
      Total(hs, SumOf) == HistoSums(q, w, xs) && CountTotal(hs) == HistoCounts(q, w, xs)
  {
    if xs == [] {
    } else {
      var init, x, m := xs[..|xs| - 1], xs[|xs| - 1], Share(q.selected, q.workerLabel, w);
      assert xs == init + [x];
      HistosHoldMine(q, w, init);
      ShareIsMine(q, w, x);
      HistosSnoc(init, x, m);
      TotalSnoc(Histos(init, m), x, SumOf);
      CountSnoc(Histos(init, m), x);
    }
  }

  lemma HistosAreMine(q: Request, w: string, x: Metric)
    requires NamesLabels(Series(q)) && (q.workerLabel == "" ==> w == "")
    ensures x in Histos(Series(q), Share(q.selected, q.workerLabel, w)) <==> x in Series(q) && MineHisto(q, w, x)
  {
    var m := Share(q.selected, q.workerLabel, w);
    HistosAre(Series(q), m);
    HistosHold(Series(q), m);
    if x in Series(q) {
      ShareIsMine(q, w, x);
    }
  }

  lemma AgreementIsSameBounds(q: Request, w: string)
    requires NamesLabels(Series(q)) && (q.workerLabel == "" ==> w == "")
    ensures SameBounds(Histos(Series(q), Share(q.selected, q.workerLabel, w))) <==> !BoundsDiffer(q, w)
  {
    var hs := Histos(Series(q), Share(q.selected, q.workerLabel, w));
    SameBoundsMeans(hs);
    forall x ensures x in hs <==> x in Series(q) && MineHisto(q, w, x) {
      HistosAreMine(q, w, x);
    }
    if x, y :| x in hs && y in hs && Bounds(BucketsOf(x)) != Bounds(BucketsOf(y)) {
      assert MineHisto(q, w, x) && MineHisto(q, w, y);
    }
    if BoundsDiffer(q, w) {
      var x, y :| x in Series(q) && y in Series(q) && MineHisto(q, w, x) && MineHisto(q, w, y)
               && Bounds(x.reading.buckets) != Bounds(y.reading.buckets);
      assert x in hs && y in hs && Bounds(BucketsOf(x)) != Bounds(BucketsOf(y));
    }
  }

  lemma NumberPart(q: Request, w: string)
    requires NamesLabels(Series(q)) && (q.workerLabel == "" ==> w == "")
    ensures PartOf(Values, q, w)
         == if HasNumbers(q, w) then Emitted(Plain(Numbers(q, w, Series(q)))) else Silent
  {
    ShareSpeaks(q, w);
    NumbersHold(q, w, Series(q));
    forall x | x in Series(q) ensures Selects(Share(q.selected, q.workerLabel, w), x.labels) <==> Mine(q, w, x) {
      ShareIsMine(q, w, x);
    }
  }

  lemma HistoPart(kind: Kind, q: Request, w: string)
    requires kind != Values && NamesLabels(Series(q)) && (q.workerLabel == "" ==> w == "")
    ensures var p := PartOf(kind, q, w);
      && (p.Silent? <==> !HasHistos(q, w))
      && (p.Failed? <==> HasHistos(q, w) && BoundsDiffer(q, w))
      && (p.Emitted? && kind == Sums ==> p.measure == Plain(HistoSums(q, w, Series(q))))
      && (p.Emitted? && kind == Wholes ==>
            && p.measure.Whole? && p.measure.hist.sum == HistoSums(q, w, Series(q))
            && p.measure.hist.count == Wrap(HistoCounts(q, w, Series(q))))
  {
    var hs := Histos(Series(q), Share(q.selected, q.workerLabel, w));
    HistosHoldMine(q, w, Series(q));
    AgreementIsSameBounds(q, w);
    if hs != [] {
      HistosAreMine(q, w, hs[0]);
    }
    if x :| x in Series(q) && MineHisto(q, w, x) {
      HistosAreMine(q, w, x);
    }
  }

  // ---- the samples -------------------------------------------------------------------------------

  ghost predicate Speaks(parts: seq<Part>, q: Request, order: seq<string>, k: int, s: Sample)
    requires |parts| == |order|
  {
    && 0 <= k < |parts| && parts[k].Emitted?
    && s == Sample(q.name, q.labels, Named(order[k]), parts[k].measure)
  }

  lemma {:induction false} SamplesAre(parts: seq<Part>, q: Request, order: seq<string>, n: nat, s: Sample)
    requires n <= |parts| == |order|
    ensures s in SamplesOf(parts, q, order, n) <==> exists k :: k < n && Speaks(parts, q, order, k, s)
  {
    if n == 0 {
    } else {
      SamplesAre(parts, q, order, n - 1, s);
      assert s in SampleOf(parts[n - 1], q, order[n - 1]) <==> Speaks(parts, q, order, n - 1, s);
    }
  }

  // The place of a worker in the order, if it has a selected series at all.
  lemma Listed(q: Request, order: seq<string>, w: string, x: Metric) returns (k: nat)
    requires Orders(order, Series(q), q.selected, q.workerLabel) && x in Series(q) && Mine(q, w, x)
    ensures k < |order| && order[k] == w
  {
    assert w in Workers(Series(q), q.selected, q.workerLabel);
    assert w in Elements(order);
    k :| 0 <= k < |order| && order[k] == w;
  }

  lemma UnlabelledIsUnnamed(q: Request, order: seq<string>, k: nat)
    requires Orders(order, Series(q), q.selected, q.workerLabel) && NamesLabels(Series(q)) && k < |order|
    ensures q.workerLabel == "" ==> order[k] == ""
  {
    assert order[k] in Elements(order);
  }

  ghost predicate SaysNumbers(q: Request, w: string, s: Sample) {
    HasNumbers(q, w) && s == Sample(q.name, q.labels, Named(w), Plain(Numbers(q, w, Series(q))))
  }

  // A value is sampled for exactly the workers whose series have a number, under the name and labels
  // asked for, and is the sum over that worker's own series.
  lemma ValueSamples(q: Request, order: seq<string>, s: Sample)
    requires Orders(order, Series(q), q.selected, q.workerLabel) && NamesLabels(Series(q))
    ensures s in Yields(Values, q, order) <==> exists w :: SaysNumbers(q, w, s)
  {
    var parts := PartsOf(Values, q, order);
    SamplesAre(parts, q, order, |order|, s);
    forall k | 0 <= k < |order| ensures Speaks(parts, q, order, k, s) <==> SaysNumbers(q, order[k], s) {
      UnlabelledIsUnnamed(q, order, k);
      NumberPart(q, order[k]);
    }
    if w :| SaysNumbers(q, w, s) {
      var x :| x in Series(q) && Mine(q, w, x) && x.reading.Number?;
      var k := Listed(q, order, w, x);
      assert Speaks(parts, q, order, k, s);
    }
  }

  ghost predicate SaysSums(q: Request, w: string, s: Sample) {
    HasHistos(q, w) && !BoundsDiffer(q, w)
    && s == Sample(q.name, q.labels, Named(w), Plain(HistoSums(q, w, Series(q))))
  }

  // The sum of a histogram, likewise, for exactly the workers whose histograms have equal bounds.
  lemma SumSamples(q: Request, order: seq<string>, s: Sample)
    requires Orders(order, Series(q), q.selected, q.workerLabel) && NamesLabels(Series(q))
    ensures s in Yields(Sums, q, order) <==> exists w :: SaysSums(q, w, s)
  {
    var parts := PartsOf(Sums, q, order);
    SamplesAre(parts, q, order, |order|, s);
    forall k | 0 <= k < |order| ensures Speaks(parts, q, order, k, s) <==> SaysSums(q, order[k], s) {
      UnlabelledIsUnnamed(q, order, k);
      HistoPart(Sums, q, order[k]);
    }
    if w :| SaysSums(q, w, s) {
      var x :| x in Series(q) && MineHisto(q, w, x);
      var k := Listed(q, order, w, x);
      assert Speaks(parts, q, order, k, s);
    }
  }

  ghost predicate SaysWhole(q: Request, w: string, s: Sample) {
    && HasHistos(q, w) && !BoundsDiffer(q, w)
    && s.name == q.name && s.labels == q.labels && s.worker == Named(w)
    && s.measure.Whole? && s.measure.hist.sum == HistoSums(q, w, Series(q))
    && s.measure.hist.count == Wrap(HistoCounts(q, w, Series(q)))
  }

  // A whole histogram, likewise: every sample is that of one worker, and every worker whose
  // histograms have equal bounds has one.
  lemma WholeSamples(q: Request, order: seq<string>)
    requires Orders(order, Series(q), q.selected, q.workerLabel) && NamesLabels(Series(q))
    ensures forall s :: s in Yields(Wholes, q, order) ==> exists w :: SaysWhole(q, w, s)
    ensures forall w :: HasHistos(q, w) && !BoundsDiffer(q, w) ==>
      exists s :: s in Yields(Wholes, q, order) && SaysWhole(q, w, s)
  {
    var parts := PartsOf(Wholes, q, order);
    forall k, s | 0 <= k < |order| && Speaks(parts, q, order, k, s) ensures SaysWhole(q, order[k], s) {
      UnlabelledIsUnnamed(q, order, k);
      HistoPart(Wholes, q, order[k]);
    }
    forall s | s in Yields(Wholes, q, order) ensures exists w :: SaysWhole(q, w, s) {
      SamplesAre(parts, q, order, |order|, s);
    }
    forall w | HasHistos(q, w) && !BoundsDiffer(q, w)
      ensures exists s :: s in Yields(Wholes, q, order) && SaysWhole(q, w, s)
    {
      var x :| x in Series(q) && MineHisto(q, w, x);
      var k := Listed(q, order, w, x);
      UnlabelledIsUnnamed(q, order, k);
      HistoPart(Wholes, q, w);
      var s := Sample(q.name, q.labels, Named(w), parts[k].measure);
      assert Speaks(parts, q, order, k, s);
      SamplesAre(parts, q, order, |order|, s);
    }
  }

  // A request for histograms fails exactly if some worker's have different bounds.
  lemma FailsIfOneDiffers(kind: Kind, q: Request, order: seq<string>)
    requires kind != Values && Orders(order, Series(q), q.selected, q.workerLabel) && NamesLabels(Series(q))
    ensures Faults(kind, q, order) != [] <==> exists w :: HasHistos(q, w) && BoundsDiffer(q, w)
  {
    var parts := PartsOf(kind, q, order);
    FaultlessParts(parts, q, |order|);
    forall k | 0 <= k < |order| ensures parts[k].Failed? <==> HasHistos(q, order[k]) && BoundsDiffer(q, order[k]) {
      UnlabelledIsUnnamed(q, order, k);
      HistoPart(kind, q, order[k]);
    }
    if w :| HasHistos(q, w) && BoundsDiffer(q, w) {
      var x :| x in Series(q) && MineHisto(q, w, x);
      var k := Listed(q, order, w, x);
      assert parts[k].Failed?;
    }
  }
}
