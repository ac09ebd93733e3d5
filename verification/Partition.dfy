// internal/adapter/adapter.go: Builder, which turns the selected series into one sample per worker.
module Partition {
  import opened Text
  import opened Exposition
  import opened Histograms

  datatype Measure = Plain(value: real) | Whole(hist: Hist)

  datatype Sample = Sample(name: string, labels: seq<string>, worker: string, measure: Measure)

  function WorkerID(worker: string): string {
    if worker == "" then "default" else worker
  }

  function Join(labels: seq<string>): string {
    if labels == [] then ""
    else if |labels| == 1 then labels[0]
    else labels[0] + "\0" + Join(labels[1..])
  }

  function Key(s: Sample): string {
    s.name + "\0" + Join(s.labels) + "\0" + WorkerID(s.worker)
  }

  // ---- the partition ---------------------------------------------------------------------

  // The series that count for one worker.
  function Share(selected: Match, workerLabel: string, worker: string): Match {
    if workerLabel == "" then selected else AllOf(selected, LabelIs(workerLabel, worker))
  }

  function Workers(xs: seq<Metric>, selected: Match, workerLabel: string): set<string> {
    set x | x in xs && Selects(selected, x.labels) :: LabelOf(x.labels, workerLabel)
  }

  // The workers, each once, in the order the code happens to take them.
  ghost predicate Orders(order: seq<string>, xs: seq<Metric>, selected: Match, workerLabel: string) {
    DistinctBy(Self, order) && Elements(order) == Workers(xs, selected, workerLabel)
  }

  // The exposition format has no label with an empty name.
  ghost predicate NamesLabels(xs: seq<Metric>) {
    forall x :: x in xs ==> "" !in x.labels
  }

  // Every selected series belongs to exactly one worker.
  lemma OneShareEach(xs: seq<Metric>, selected: Match, workerLabel: string, x: Metric, worker: string)
    requires NamesLabels(xs) && x in xs && worker in Workers(xs, selected, workerLabel)
    ensures Selects(Share(selected, workerLabel, worker), x.labels)
       <==> Selects(selected, x.labels) && worker == LabelOf(x.labels, workerLabel)
    ensures Selects(selected, x.labels) ==> LabelOf(x.labels, workerLabel) in Workers(xs, selected, workerLabel)
  {
    if workerLabel == "" {
      assert worker == "";
    }
  }

  // What the first n workers' shares hold together.
  function ShareTotal(order: seq<string>, n: nat, xs: seq<Metric>, selected: Match, workerLabel: string,
                      f: Metric -> real): real
    requires n <= |order|
  {
    if n == 0 then 0.0
    else
      var last := Picked(xs, Share(selected, workerLabel, order[n - 1]));
      ShareTotal(order, n - 1, xs, selected, workerLabel, f) + Total(last, f)
  }

  // Without a worker label there is one worker, the unnamed one.
  predicate OneIfUnlabelled(order: seq<string>, workerLabel: string) {
    workerLabel == "" ==> forall w :: w in order ==> w == ""
  }

  lemma ShareSnoc(xs: seq<Metric>, x: Metric, selected: Match, workerLabel: string, worker: string, f: Metric -> real)
    requires "" !in x.labels && (workerLabel == "" ==> worker == "")
    ensures var m := Share(selected, workerLabel, worker);
      Total(Picked(xs + [x], m), f) == Total(Picked(xs, m), f)
        + if Selects(selected, x.labels) && LabelOf(x.labels, workerLabel) == worker then f(x) else 0.0
  {
    var m := Share(selected, workerLabel, worker);
    PickedSnoc(xs, x, m);
    TotalSnoc(Picked(xs, m), x, f);
  }

  lemma {:induction false} ShareTotalSnoc(order: seq<string>, n: nat, xs: seq<Metric>, x: Metric, selected: Match,
                                          workerLabel: string, f: Metric -> real)
    requires n <= |order| && DistinctBy(Self, order) && "" !in x.labels && OneIfUnlabelled(order, workerLabel)
    ensures ShareTotal(order, n, xs + [x], selected, workerLabel, f)
         == ShareTotal(order, n, xs, selected, workerLabel, f)
          + if Selects(selected, x.labels) && LabelOf(x.labels, workerLabel) in order[..n] then f(x) else 0.0
  {
    if n == 0 {
    } else {
      ShareTotalSnoc(order, n - 1, xs, x, selected, workerLabel, f);
      assert order[n - 1] in order;
      ShareSnoc(xs, x, selected, workerLabel, order[n - 1], f);
      assert order[..n] == order[..n - 1] + [order[n - 1]];
      assert order[n - 1] !in order[..n - 1] by {
        assert forall i :: 0 <= i < n - 1 ==> Self(order[i]) != Self(order[n - 1]);
      }
    }
  }

  lemma {:induction false} ShareTotalEmpty(order: seq<string>, n: nat, selected: Match, workerLabel: string,
                                           f: Metric -> real)
    requires n <= |order|
    ensures ShareTotal(order, n, [], selected, workerLabel, f) == 0.0
  {
    if n == 0 {
    } else {
      ShareTotalEmpty(order, n - 1, selected, workerLabel, f);
    }
  }

  lemma {:induction false} SharesCover(order: seq<string>, xs: seq<Metric>, selected: Match, workerLabel: string,
                                       f: Metric -> real)
    requires DistinctBy(Self, order) && NamesLabels(xs) && OneIfUnlabelled(order, workerLabel)
    requires forall x :: x in xs && Selects(selected, x.labels) ==> LabelOf(x.labels, workerLabel) in order
    ensures ShareTotal(order, |order|, xs, selected, workerLabel, f) == Total(Picked(xs, selected), f)
  {
    if xs == [] {
      ShareTotalEmpty(order, |order|, selected, workerLabel, f);
    } else {
      var init, x := xs[..|xs| - 1], xs[|xs| - 1];
      assert xs == init + [x];
      SharesCover(order, init, selected, workerLabel, f);
      assert order[..|order|] == order;
      ShareTotalSnoc(order, |order|, init, x, selected, workerLabel, f);
      PickedSnoc(init, x, selected);
      TotalSnoc(Picked(init, selected), x, f);
    }
  }

  // So whatever is summed over the series, the workers' sums add up to the whole.
  lemma PartitionConserves(order: seq<string>, xs: seq<Metric>, selected: Match, workerLabel: string, f: Metric -> real)
    requires Orders(order, xs, selected, workerLabel) && NamesLabels(xs)
    ensures ShareTotal(order, |order|, xs, selected, workerLabel, f) == Total(Picked(xs, selected), f)
  {
    forall x | x in xs && Selects(selected, x.labels) ensures LabelOf(x.labels, workerLabel) in order {
      assert LabelOf(x.labels, workerLabel) in Workers(xs, selected, workerLabel);
      assert LabelOf(x.labels, workerLabel) in Elements(order);
    }
    forall w | w in order ensures workerLabel == "" ==> w == "" {
      assert w in Elements(order);
    }
    SharesCover(order, xs, selected, workerLabel, f);
  }

  // ---- the samples -------------------------------------------------------------------------

  // What Value, HistogramSum and Histogram are asked for.
  datatype Request = Request(fams: Families, source: string, selected: Match, workerLabel: string,
                             name: string, labels: seq<string>)

  datatype Kind = Values | Sums | Wholes

  datatype Part = Silent | Failed | Emitted(measure: Measure)

  function Series(q: Request): seq<Metric> {
    MetricsOf(q.fams, q.source)
  }

  // What adding the selected histograms of the source gives.
  ghost function Merged(q: Request, m: Match): Outcome {
    if q.source in q.fams && q.fams[q.source].isHistogram then Merge(Histos(Series(q), m)) else NotFound
  }

  ghost function PartOf(kind: Kind, q: Request, worker: string): Part {
    var m := Share(q.selected, q.workerLabel, worker);
    match kind
    case Values =>
      if HasNumber(Picked(Series(q), m)) then Emitted(Plain(Total(Picked(Series(q), m), Value))) else Silent
    case _ =>
      match Merged(q, m)
      case NotFound => Silent
      case Differs => Failed
      case Found(h) => Emitted(if kind == Sums then Plain(h.sum) else Whole(h))
  }

  function SampleOf(p: Part, q: Request, worker: string): seq<Sample> {
    if p.Emitted? then [Sample(q.name, q.labels, WorkerID(worker), p.measure)] else []
  }

  function FailureOf(p: Part, q: Request): seq<string> {
    if p.Failed? then [q.source] else []
  }

  ghost function PartsOf(kind: Kind, q: Request, order: seq<string>): (parts: seq<Part>)
    ensures |parts| == |order|
  {
    seq(|order|, n requires 0 <= n < |order| => PartOf(kind, q, order[n]))
  }

  // What the first n workers add to the samples, and to the errors.
  ghost function SamplesOf(parts: seq<Part>, q: Request, order: seq<string>, n: nat): seq<Sample>
    requires n <= |parts| == |order|
  {
    if n == 0 then [] else SamplesOf(parts, q, order, n - 1) + SampleOf(parts[n - 1], q, order[n - 1])
  }

  ghost function FailuresOf(parts: seq<Part>, q: Request, n: nat): seq<string>
    requires n <= |parts|
  {
    if n == 0 then [] else FailuresOf(parts, q, n - 1) + FailureOf(parts[n - 1], q)
  }

  // What a whole request adds.
  ghost function Yields(kind: Kind, q: Request, order: seq<string>): seq<Sample> {
    SamplesOf(PartsOf(kind, q, order), q, order, |order|)
  }

  ghost function Faults(kind: Kind, q: Request, order: seq<string>): seq<string> {
    FailuresOf(PartsOf(kind, q, order), q, |order|)
  }

  // What the series of one worker give.
  method ReadPart(kind: Kind, q: Request, worker: string) returns (p: Part)
    ensures p == PartOf(kind, q, worker)
  {
    var m := Share(q.selected, q.workerLabel, worker);
    if kind == Values {
      var total, found := Sum(q.fams, q.source, m);
      p := if found then Emitted(Plain(total)) else Silent;
    } else {
      var r := Histograms.Histogram(q.fams, q.source, m);
      match r
      case NotFound => p := Silent;
      case Differs => p := Failed;
      case Found(h) => p := Emitted(if kind == Sums then Plain(h.sum) else Whole(h));
    }
  }

  method ReadEach(kind: Kind, q: Request, ids: seq<string>, ghost parts: seq<Part>)
    returns (samples: seq<Sample>, faults: seq<string>)
    requires parts == PartsOf(kind, q, ids)
    ensures samples == SamplesOf(parts, q, ids, |ids|) && faults == FailuresOf(parts, q, |ids|)
  {
    samples, faults := [], [];
    for n := 0 to |ids|
      invariant samples == SamplesOf(parts, q, ids, n) && faults == FailuresOf(parts, q, n)
    {
      var p := ReadNth(kind, q, ids, n, parts);
      match p
      case Failed => faults := faults + [q.source];
      case Silent =>
      case Emitted(measure) => samples := samples + [Sample(q.name, q.labels, WorkerID(ids[n]), measure)];
    }
  }

  method ReadNth(kind: Kind, q: Request, ids: seq<string>, n: nat, ghost parts: seq<Part>) returns (p: Part)
    requires n < |ids| && parts == PartsOf(kind, q, ids)
    ensures p == parts[n]
  {
    p := ReadPart(kind, q, ids[n]);
  }

  class Builder {
    const fams: Families
    const model: Match
    const workerLabel: string
    var samples: seq<Sample>
    var errs: seq<string>

    constructor (fams: Families, model: Match, workerLabel: string)
      ensures this.fams == fams && this.model == model && this.workerLabel == workerLabel
      ensures samples == [] && errs == []
    {
      this.fams, this.model, this.workerLabel, samples, errs := fams, model, workerLabel, [], [];
    }

    function Ask(name: string, labels: seq<string>, source: string, m: Match): Request {
      Request(fams, source, AllOf(model, m), workerLabel, name, labels)
    }

    // The workers of the selected series, in the order the map gives them.
    method Each(source: string, m: Match) returns (order: seq<string>)
      ensures Orders(order, MetricsOf(fams, source), AllOf(model, m), workerLabel)
    {
      var selected, xs := AllOf(model, m), MetricsOf(fams, source);
      var workers: set<string> := {};
      for n := 0 to |xs|
        invariant workers == Workers(xs[..n], selected, workerLabel)
      {
        assert xs[..n + 1] == xs[..n] + [xs[n]];
        if Selects(selected, xs[n].labels) {
          workers := workers + {LabelOf(xs[n].labels, workerLabel)};
        }
      }
      assert xs[..|xs|] == xs;
      order := [];
      var rest := workers;
      while rest != {}
        invariant rest <= workers && Elements(order) == workers - rest && DistinctBy(Self, order)
      {
        var w :| w in rest;
        assert w !in Elements(order);
        ElementsSnoc(order, w);
        order, rest := order + [w], rest - {w};
      }
    }

    // What all three reads share: the samples and errors of one worker after another.
    method Read(kind: Kind, q: Request, ids: seq<string>)
      modifies this`samples, this`errs
      ensures samples == old(samples) + Yields(kind, q, ids) && errs == old(errs) + Faults(kind, q, ids)
    {
      var more, faults := ReadEach(kind, q, ids, PartsOf(kind, q, ids));
      samples, errs := samples + more, errs + faults;
    }

    method Value(name: string, labels: seq<string>, source: string, m: Match) returns (ghost order: seq<string>)
      modifies this`samples, this`errs
      ensures old(samples) <= samples && Bear(samples[|old(samples)|..], name, labels)
      ensures var q := Ask(name, labels, source, m);
        && Orders(order, Series(q), q.selected, workerLabel)
        && samples == old(samples) + Yields(Values, q, order) && errs == old(errs)
    {
      var ids := Each(source, m);
      Read(Values, Ask(name, labels, source, m), ids);
      YieldsBear(Values, Ask(name, labels, source, m), ids);
      assert samples[|old(samples)|..] == Yields(Values, Ask(name, labels, source, m), ids);
      ValuesNeverFail(Ask(name, labels, source, m), ids);
      order := ids;
    }

    method HistogramSum(name: string, labels: seq<string>, source: string, m: Match) returns (ghost order: seq<string>)
      modifies this`samples, this`errs
      ensures old(samples) <= samples && Bear(samples[|old(samples)|..], name, labels)
      ensures var q := Ask(name, labels, source, m);
        && Orders(order, Series(q), q.selected, workerLabel)
        && samples == old(samples) + Yields(Sums, q, order)
        && errs == old(errs) + Faults(Sums, q, order)
    {
      var ids := Each(source, m);
      Read(Sums, Ask(name, labels, source, m), ids);
      YieldsBear(Sums, Ask(name, labels, source, m), ids);
      assert samples[|old(samples)|..] == Yields(Sums, Ask(name, labels, source, m), ids);
      order := ids;
    }

    method Histogram(name: string, source: string, m: Match) returns (ghost order: seq<string>)
      modifies this`samples, this`errs
      ensures old(samples) <= samples && Bear(samples[|old(samples)|..], name, [])
      ensures var q := Ask(name, [], source, m);
        && Orders(order, Series(q), q.selected, workerLabel)
        && samples == old(samples) + Yields(Wholes, q, order)
        && errs == old(errs) + Faults(Wholes, q, order)
    {
      var ids := Each(source, m);
      Read(Wholes, Ask(name, [], source, m), ids);
      YieldsBear(Wholes, Ask(name, [], source, m), ids);
      assert samples[|old(samples)|..] == Yields(Wholes, Ask(name, [], source, m), ids);
      order := ids;
    }
  }

  // Samples under one name, with one list of labels.
  predicate Bear(samples: seq<Sample>, name: string, labels: seq<string>) {
    forall s :: s in samples ==> s.name == name && s.labels == labels
  }

  lemma {:induction false} SamplesBear(parts: seq<Part>, q: Request, order: seq<string>, n: nat)
    requires n <= |parts| == |order|
    ensures Bear(SamplesOf(parts, q, order, n), q.name, q.labels)
  {
    if n == 0 {
    } else {
      SamplesBear(parts, q, order, n - 1);
    }
  }

  lemma YieldsBear(kind: Kind, q: Request, order: seq<string>)
    ensures Bear(Yields(kind, q, order), q.name, q.labels)
  {
    SamplesBear(PartsOf(kind, q, order), q, order, |order|);
  }

  lemma {:induction false} NoFailures(parts: seq<Part>, q: Request, n: nat)
    requires n <= |parts| && forall k :: 0 <= k < n ==> !parts[k].Failed?
    ensures FailuresOf(parts, q, n) == []
  {
    if n == 0 {
    } else {
      NoFailures(parts, q, n - 1);
    }
  }

  lemma ValuesNeverFail(q: Request, order: seq<string>)
    ensures Faults(Values, q, order) == []
  {
    NoFailures(PartsOf(Values, q, order), q, |order|);
  }

  // ---- the samples add up -----------------------------------------------------------------

  function Amount(s: Sample): real {
    match s.measure
    case Plain(v) => v
    case Whole(h) => h.count as real
  }

  function AmountTotal(samples: seq<Sample>): real {
    if samples == [] then 0.0 else AmountTotal(samples[..|samples| - 1]) + Amount(samples[|samples| - 1])
  }

  // The quantity of a series that a request is about.
  function Quantity(kind: Kind): Metric -> real {
    match kind
    case Values => Value
    case Sums => SumOf
    case Wholes => CountReal
  }

  lemma {:induction false} NothingIsZero(xs: seq<Metric>)
    requires !HasNumber(xs)
    ensures Total(xs, Value) == 0.0
  {
    if xs == [] {
    } else {
      NothingIsZero(xs[..|xs| - 1]);
    }
  }

  // Series that are not histograms do not matter for what histograms hold.
  ghost predicate Ignores(xs: seq<Metric>, f: Metric -> real) {
    forall k :: 0 <= k < |xs| && !xs[k].reading.Histo? ==> f(xs[k]) == 0.0
  }

  lemma BothTotals(hs: seq<Metric>, picked: seq<Metric>, x: Metric, f: Metric -> real)
    requires Total(hs, f) == Total(picked, f) && (x.reading.Histo? || f(x) == 0.0)
    ensures Total(if x.reading.Histo? then hs + [x] else hs, f) == Total(picked + [x], f)
  {
    TotalSnoc(hs, x, f);
    TotalSnoc(picked, x, f);
  }

  lemma {:induction false} HistosTotal(xs: seq<Metric>, m: Match, f: Metric -> real, n: nat)
    requires n <= |xs| && Ignores(xs, f)
    ensures Total(HistosTo(xs, m, n), f) == Total(PickedTo(xs, m, n), f)
  {
    if n == 0 {
    } else {
      HistosTotal(xs, m, f, n - 1);
      BothTotals(HistosTo(xs, m, n - 1), PickedTo(xs, m, n - 1), xs[n - 1], f);
    }
  }

  lemma CountSnoc(hs: seq<Metric>, x: Metric)
    ensures CountTotal(hs + [x]) == CountTotal(hs) + CountOf(x)
  {
    Snoc(hs, x, 0.0);
  }

  ghost predicate Narrower(xs: seq<Metric>, m: Match, selected: Match) {
    forall n :: 0 <= n < |xs| && Selects(m, xs[n].labels) ==> Selects(selected, xs[n].labels)
  }

  lemma {:induction false} CountsFit(xs: seq<Metric>, m: Match, selected: Match, n: nat)
    requires n <= |xs| && Narrower(xs, m, selected)
    ensures CountTotal(HistosTo(xs, m, n)) <= CountTotal(HistosTo(xs, selected, n))
  {
    if n == 0 {
    } else {
      CountsFit(xs, m, selected, n - 1);
      CountSnoc(HistosTo(xs, m, n - 1), xs[n - 1]);
      CountSnoc(HistosTo(xs, selected, n - 1), xs[n - 1]);
    }
  }

  // The request can be answered in full: no worker's histograms differ, and counts stay in 64 bits.
  ghost predicate Answerable(kind: Kind, q: Request, order: seq<string>) {
    kind != Values ==>
      q.source in q.fams && q.fams[q.source].isHistogram && CountTotal(Histos(Series(q), q.selected)) < UINT64
      && forall w :: w in order ==> !PartOf(kind, q, w).Failed?
  }

  ghost function PartAmount(p: Part): real {
    if p.Emitted? then (match p.measure case Plain(v) => v case Whole(h) => h.count as real) else 0.0
  }

  lemma ValueHoldsShare(q: Request, worker: string)
    ensures PartAmount(PartOf(Values, q, worker))
         == Total(Picked(Series(q), Share(q.selected, q.workerLabel, worker)), Value)
  {
    var xs := Picked(Series(q), Share(q.selected, q.workerLabel, worker));
    if !HasNumber(xs) {
      NothingIsZero(xs);
    }
  }

  lemma MergedHoldsShare(xs: seq<Metric>, m: Match)
    requires !Merge(Histos(xs, m)).Differs?
    ensures var r := Merge(Histos(xs, m));
      && Total(Picked(xs, m), SumOf) == (if r.Found? then r.hist.sum else 0.0)
      && (CountTotal(Histos(xs, m)) < UINT64 ==>
            Total(Picked(xs, m), CountReal) == if r.Found? then r.hist.count as real else 0.0)
  {
    HistosTotal(xs, m, SumOf, |xs|);
    HistosTotal(xs, m, CountReal, |xs|);
    TotalsAreReal(Histos(xs, m), 0.0);
  }

  lemma PartHoldsShare(kind: Kind, q: Request, worker: string)
    requires !PartOf(kind, q, worker).Failed?
    requires kind != Values ==> q.source in q.fams && q.fams[q.source].isHistogram
    requires kind == Wholes ==> CountTotal(Histos(Series(q), q.selected)) < UINT64
    ensures PartAmount(PartOf(kind, q, worker))
         == Total(Picked(Series(q), Share(q.selected, q.workerLabel, worker)), Quantity(kind))
  {
    if kind == Values {
      ValueHoldsShare(q, worker);
    } else {
      var m := Share(q.selected, q.workerLabel, worker);
      CountsFit(Series(q), m, q.selected, |Series(q)|);
      MergedHoldsShare(Series(q), m);
    }
  }

  ghost function PartsTotal(parts: seq<Part>, n: nat): real
    requires n <= |parts|
  {
    if n == 0 then 0.0 else PartsTotal(parts, n - 1) + PartAmount(parts[n - 1])
  }

  lemma AmountSnoc(samples: seq<Sample>, p: Part, q: Request, worker: string)
    ensures AmountTotal(samples + SampleOf(p, q, worker)) == AmountTotal(samples) + PartAmount(p)
  {
    var more := SampleOf(p, q, worker);
    if p.Emitted? {
      assert (samples + more)[..|samples|] == samples;
    } else {
      assert samples + more == samples;
    }
  }

  lemma {:induction false} AmountsAreParts(parts: seq<Part>, q: Request, order: seq<string>, n: nat)
    requires n <= |parts| == |order|
    ensures AmountTotal(SamplesOf(parts, q, order, n)) == PartsTotal(parts, n)
  {
    if n == 0 {
    } else {
      AmountsAreParts(parts, q, order, n - 1);
      AmountSnoc(SamplesOf(parts, q, order, n - 1), parts[n - 1], q, order[n - 1]);
    }
  }

  lemma {:induction false} PartsAreShares(kind: Kind, q: Request, order: seq<string>, n: nat)
    requires Answerable(kind, q, order) && n <= |order|
    ensures PartsTotal(PartsOf(kind, q, order), n)
         == ShareTotal(order, n, Series(q), q.selected, q.workerLabel, Quantity(kind))
  {
    if n == 0 {
    } else {
      PartsAreShares(kind, q, order, n - 1);
      PartHoldsShare(kind, q, order[n - 1]);
    }
  }

  // Conservation: what the workers' samples report adds up to what all selected series hold, for
  // values, for histogram sums and for histogram counts.
  lemma SamplesAddUp(kind: Kind, q: Request, order: seq<string>)
    requires Orders(order, Series(q), q.selected, q.workerLabel) && NamesLabels(Series(q)) && Answerable(kind, q, order)
    ensures AmountTotal(Yields(kind, q, order)) == Total(Picked(Series(q), q.selected), Quantity(kind))
  {
    AmountsAreParts(PartsOf(kind, q, order), q, order, |order|);
    PartsAreShares(kind, q, order, |order|);
    PartitionConserves(order, Series(q), q.selected, q.workerLabel, Quantity(kind));
  }

  lemma {:induction false} HistosAre(xs: seq<Metric>, m: Match)
    ensures forall h :: h in Histos(xs, m) ==> h in xs && h.reading.Histo? && Selects(m, h.labels)
  {
    if xs == [] {
    } else {
      HistosAre(xs[..|xs| - 1], m);
      HistosSnoc(xs[..|xs| - 1], xs[|xs| - 1], m);
      assert xs == xs[..|xs| - 1] + [xs[|xs| - 1]];
    }
  }

  // Every histogram a worker reports passes validateHist if the engine's own histograms are sound.
  lemma WholesAreValid(q: Request, worker: string)
    requires PartOf(Wholes, q, worker).Emitted?
    requires forall x :: x in Series(q) && x.reading.Histo? ==> WellFormed(x)
    requires CountTotal(Histos(Series(q), q.selected)) < UINT64
    ensures PartOf(Wholes, q, worker).measure.Whole? && Cumulative(PartOf(Wholes, q, worker).measure.hist)
  {
    var m := Share(q.selected, q.workerLabel, worker);
    CountsFit(Series(q), m, q.selected, |Series(q)|);
    HistosAre(Series(q), m);
    MergedIsValid(Histos(Series(q), m));
  }

  // ---- absence is not zero ------------------------------------------------------------------

  lemma {:induction false} SilentParts(parts: seq<Part>, q: Request, order: seq<string>, n: nat)
    requires n <= |parts| == |order|
    ensures SamplesOf(parts, q, order, n) == [] <==> forall k :: 0 <= k < n ==> !parts[k].Emitted?
  {
    if n == 0 {
    } else {
      SilentParts(parts, q, order, n - 1);
      EmptyConcat(SamplesOf(parts, q, order, n - 1), SampleOf(parts[n - 1], q, order[n - 1]));
    }
  }

  // A worker's share has a number exactly if some selected series of that worker has one.
  lemma ShareSpeaks(q: Request, worker: string)
    ensures PartOf(Values, q, worker).Emitted? <==> exists x ::
      x in Series(q) && x.reading.Number? && Selects(Share(q.selected, q.workerLabel, worker), x.labels)
  {
    var m := Share(q.selected, q.workerLabel, worker);
    PickedAre(Series(q), m);
    HasNumberMeans(Picked(Series(q), m));
  }

  // A source yields a sample exactly if some selected series of it has a number.
  lemma AbsentIsNotZero(q: Request, order: seq<string>)
    requires Orders(order, Series(q), q.selected, q.workerLabel) && NamesLabels(Series(q))
    ensures Yields(Values, q, order) == []
       <==> forall x :: x in Series(q) && Selects(q.selected, x.labels) ==> !x.reading.Number?
  {
    var parts := PartsOf(Values, q, order);
    SilentParts(parts, q, order, |order|);
    forall n | 0 <= n < |order|
      ensures parts[n].Emitted? ==> exists x :: x in Series(q) && x.reading.Number? && Selects(q.selected, x.labels)
    {
      ShareSpeaks(q, order[n]);
    }
    forall x | x in Series(q) && x.reading.Number? && Selects(q.selected, x.labels)
      ensures exists n :: 0 <= n < |order| && parts[n].Emitted?
    {
      var n := SpeakerOf(q, order, x);
    }
  }

  lemma SpeakerOf(q: Request, order: seq<string>, x: Metric) returns (n: nat)
    requires Orders(order, Series(q), q.selected, q.workerLabel) && NamesLabels(Series(q))
    requires x in Series(q) && x.reading.Number? && Selects(q.selected, x.labels)
    ensures n < |order| && PartsOf(Values, q, order)[n].Emitted?
  {
    var w := LabelOf(x.labels, q.workerLabel);
    assert w in Workers(Series(q), q.selected, q.workerLabel);
    assert w in Elements(order);
    n :| 0 <= n < |order| && order[n] == w;
    OneShareEach(Series(q), q.selected, q.workerLabel, x, w);
    ShareSpeaks(q, w);
  }

  // No worker's share of the histograms says anything, and none fails, exactly if it is empty.
  lemma ShareIsSilent(kind: Kind, q: Request, worker: string)
    requires kind != Values && q.source in q.fams && q.fams[q.source].isHistogram
    ensures PartOf(kind, q, worker).Silent? <==> NoHistogram(q, Share(q.selected, q.workerLabel, worker))
  {
    var m := Share(q.selected, q.workerLabel, worker);
    var hs := Histos(Series(q), m);
    HistosAre(Series(q), m);
    HistosHold(Series(q), m);
    assert hs != [] ==> hs[0] in hs;
  }

  lemma {:induction false} HistosHold(xs: seq<Metric>, m: Match)
    ensures forall x :: x in xs && x.reading.Histo? && Selects(m, x.labels) ==> x in Histos(xs, m)
  {
    if xs == [] {
    } else {
      var init, x := xs[..|xs| - 1], xs[|xs| - 1];
      assert xs == init + [x];
      HistosHold(init, m);
      HistosSnoc(init, x, m);
    }
  }

  lemma EmptyConcat<T>(a: seq<T>, b: seq<T>)
    ensures a + b == [] <==> a == [] && b == []
  {
    assert |a + b| == |a| + |b|;
  }

  lemma {:induction false} FaultlessParts(parts: seq<Part>, q: Request, n: nat)
    requires n <= |parts|
    ensures FailuresOf(parts, q, n) == [] <==> forall k :: 0 <= k < n ==> !parts[k].Failed?
  {
    if n == 0 {
    } else {
      FaultlessParts(parts, q, n - 1);
      EmptyConcat(FailuresOf(parts, q, n - 1), FailureOf(parts[n - 1], q));
    }
  }

  ghost predicate AllSilent(parts: seq<Part>) {
    forall k :: 0 <= k < |parts| ==> parts[k].Silent?
  }

  lemma QuietParts(parts: seq<Part>, q: Request, order: seq<string>)
    requires |parts| == |order|
    ensures SamplesOf(parts, q, order, |order|) == [] && FailuresOf(parts, q, |order|) == [] <==> AllSilent(parts)
  {
    SilentParts(parts, q, order, |order|);
    FaultlessParts(parts, q, |order|);
  }

  ghost predicate NoHistogram(q: Request, m: Match) {
    forall x :: x in Series(q) && Selects(m, x.labels) ==> !x.reading.Histo?
  }

  // A histogram source yields neither a sample nor an error exactly if it is of another type or no
  // selected series of it is a histogram: an absent one is neither zero nor a failure.
  lemma AbsentHistogramIsSilent(kind: Kind, q: Request, order: seq<string>)
    requires kind != Values && Orders(order, Series(q), q.selected, q.workerLabel) && NamesLabels(Series(q))
    ensures Yields(kind, q, order) == [] && Faults(kind, q, order) == [] <==>
      !(q.source in q.fams && q.fams[q.source].isHistogram) || NoHistogram(q, q.selected)
  {
    QuietParts(PartsOf(kind, q, order), q, order);
    if q.source in q.fams && q.fams[q.source].isHistogram {
      if NoHistogram(q, q.selected) {
        forall n | 0 <= n < |order| ensures PartOf(kind, q, order[n]).Silent? {
          ShareIsSilent(kind, q, order[n]);
          ShareIsSelected(q, order[n]);
        }
      }
      if AllSilent(PartsOf(kind, q, order)) {
        forall x | x in Series(q) && Selects(q.selected, x.labels) ensures !x.reading.Histo? {
          var n := OwnerOf(q, order, x);
          assert PartsOf(kind, q, order)[n].Silent?;
          ShareIsSilent(kind, q, order[n]);
        }
      }
    }
  }

  lemma ShareIsSelected(q: Request, worker: string)
    ensures NoHistogram(q, q.selected) ==> NoHistogram(q, Share(q.selected, q.workerLabel, worker))
  {
  }

  // The place of a selected series' worker.
  lemma OwnerOf(q: Request, order: seq<string>, x: Metric) returns (n: nat)
    requires Orders(order, Series(q), q.selected, q.workerLabel) && NamesLabels(Series(q))
    requires x in Series(q) && Selects(q.selected, x.labels)
    ensures n < |order| && Selects(Share(q.selected, q.workerLabel, order[n]), x.labels)
  {
    var w := LabelOf(x.labels, q.workerLabel);
    assert w in Workers(Series(q), q.selected, q.workerLabel);
    assert w in Elements(order);
    n :| 0 <= n < |order| && order[n] == w;
    OneShareEach(Series(q), q.selected, q.workerLabel, x, w);
  }

  // ---- keys -----------------------------------------------------------------------------------

  // The workers that yield a sample.
  ghost function Speakers(parts: seq<Part>, order: seq<string>, n: nat): seq<string>
    requires n <= |parts| == |order|
  {
    if n == 0 then []
    else Speakers(parts, order, n - 1) + if parts[n - 1].Emitted? then [order[n - 1]] else []
  }

  ghost predicate Spoken(s: Sample, q: Request, worker: string) {
    s.name == q.name && s.labels == q.labels && s.worker == WorkerID(worker)
  }

  lemma {:induction false} SpeakersSpeak(parts: seq<Part>, q: Request, order: seq<string>, n: nat)
    requires n <= |parts| == |order|
    ensures |SamplesOf(parts, q, order, n)| == |Speakers(parts, order, n)|
    ensures forall i :: 0 <= i < |SamplesOf(parts, q, order, n)| ==>
      Spoken(SamplesOf(parts, q, order, n)[i], q, Speakers(parts, order, n)[i])
  {
    if n == 0 {
    } else {
      SpeakersSpeak(parts, q, order, n - 1);
    }
  }

  lemma SnocDistinct(xs: seq<string>, x: string)
    requires DistinctBy(Self, xs) && x !in xs
    ensures DistinctBy(Self, xs + [x])
  {
  }

  lemma {:induction false} SpeakersDiffer(parts: seq<Part>, order: seq<string>, n: nat)
    requires n <= |parts| == |order| && DistinctBy(Self, order)
    ensures DistinctBy(Self, Speakers(parts, order, n))
    ensures forall w :: w in Speakers(parts, order, n) <==> exists k :: 0 <= k < n && parts[k].Emitted? && order[k] == w
  {
    if n == 0 {
    } else {
      var rest := Speakers(parts, order, n - 1);
      SpeakersDiffer(parts, order, n - 1);
      if parts[n - 1].Emitted? {
        forall k | 0 <= k < n - 1 ensures order[k] != order[n - 1] {
          assert Self(order[k]) != Self(order[n - 1]);
        }
        SnocDistinct(rest, order[n - 1]);
      } else {
        assert rest + [] == rest;
      }
    }
  }

  lemma KeyTellsWorker(s: Sample, t: Sample)
    requires s.name == t.name && s.labels == t.labels
    ensures Key(s) == Key(t) <==> WorkerID(s.worker) == WorkerID(t.worker)
  {
    var prefix := s.name + "\0" + Join(s.labels) + "\0";
    assert Key(s)[|prefix|..] == WorkerID(s.worker) && Key(t)[|prefix|..] == WorkerID(t.worker);
  }

  // A text that the separator cannot be part of.
  predicate Plainly(s: string) {
    forall k :: 0 <= k < |s| ==> s[k] != '\0'
  }

  lemma FieldEnds(a: string, x: string, s: string)
    requires Plainly(a) && s == a + "\0" + x
    ensures |a| < |s| && s[|a|] == '\0' && forall k :: 0 <= k < |a| ==> s[k] != '\0'
    ensures s[..|a|] == a && s[|a| + 1..] == x
  {
  }

  lemma FirstFields(a: string, x: string, b: string, y: string)
    requires Plainly(a) && Plainly(b) && a + "\0" + x == b + "\0" + y
    ensures a == b && x == y
  {
    FieldEnds(a, x, a + "\0" + x);
    FieldEnds(b, y, a + "\0" + x);
  }

  // Label values as Validate accepts them, none of them empty.
  predicate Valued(labels: seq<string>) {
    forall l :: l in labels ==> l != "" && Plainly(l)
  }

  function Tail(labels: seq<string>, worker: string): string {
    Join(labels) + "\0" + worker
  }

  lemma TailSeparates(labels: seq<string>, worker: string)
    ensures !Plainly(Tail(labels, worker))
  {
    assert Tail(labels, worker)[|Join(labels)|] == '\0';
  }

  lemma TailSteps(labels: seq<string>, worker: string)
    ensures Tail(labels, worker)
         == if labels == [] then "" + "\0" + worker
            else if |labels| == 1 then labels[0] + "\0" + worker
            else labels[0] + "\0" + Tail(labels[1..], worker)
  {
    if |labels| > 1 {
      assert labels[0] + "\0" + Join(labels[1..]) + "\0" + worker
          == labels[0] + "\0" + (Join(labels[1..]) + "\0" + worker);
    }
  }

  lemma ValuedRest(labels: seq<string>)
    requires Valued(labels) && labels != []
    ensures Valued(labels[1..]) && labels[0] != "" && Plainly(labels[0])
  {
    assert labels[0] in labels;
    forall l | l in labels[1..] ensures l in labels {
    }
  }

  lemma {:induction false} TailTells(a: seq<string>, v: string, b: seq<string>, w: string)
    requires Valued(a) && Valued(b) && Plainly(v) && Plainly(w) && Tail(a, v) == Tail(b, w)
    ensures a == b && v == w
    decreases |a|
  {
    TailSteps(a, v);
    TailSteps(b, w);
    if a != [] {
      ValuedRest(a);
      TailSeparates(a[1..], v);
    }
    if b != [] {
      ValuedRest(b);
      TailSeparates(b[1..], w);
    }
    var x := if |a| <= 1 then v else Tail(a[1..], v);
    var y := if |b| <= 1 then w else Tail(b[1..], w);
    FirstFields(if a == [] then "" else a[0], x, if b == [] then "" else b[0], y);
    assert x == y;
    if |a| > 1 && |b| > 1 {
      TailTells(a[1..], v, b[1..], w);
      assert a == [a[0]] + a[1..] && b == [b[0]] + b[1..];
    }
  }

  // A key names one series: samples that pass validation share it exactly if name, labels and worker
  // are the same, as far as none of them holds the separator.
  lemma KeyTellsSeries(s: Sample, t: Sample)
    requires Plainly(s.name) && Valued(s.labels) && Plainly(s.worker)
    requires Plainly(t.name) && Valued(t.labels) && Plainly(t.worker)
    ensures Key(s) == Key(t) <==> s.name == t.name && s.labels == t.labels && WorkerID(s.worker) == WorkerID(t.worker)
  {
    assert Key(s) == s.name + "\0" + Tail(s.labels, WorkerID(s.worker));
    assert Key(t) == t.name + "\0" + Tail(t.labels, WorkerID(t.worker));
    if Key(s) == Key(t) {
      FirstFields(s.name, Tail(s.labels, WorkerID(s.worker)), t.name, Tail(t.labels, WorkerID(t.worker)));
      TailTells(s.labels, WorkerID(s.worker), t.labels, WorkerID(t.worker));
    }
  }

  ghost predicate Collide(samples: seq<Sample>, i: nat, j: nat) {
    i < j < |samples| && Key(samples[i]) == Key(samples[j])
  }

  lemma PairCollides(s: Sample, t: Sample, q: Request, v: string, w: string)
    requires Spoken(s, q, v) && Spoken(t, q, w) && v != w
    ensures Key(s) == Key(t) <==> (v == "" && w == "default") || (v == "default" && w == "")
  {
    KeyTellsWorker(s, t);
  }

  // Two samples of one request share a key exactly if both an unnamed worker and one that is
  // literally named default speak.
  lemma KeysCollideOnlyOnDefault(parts: seq<Part>, q: Request, order: seq<string>)
    requires |parts| == |order| && DistinctBy(Self, order)
    ensures (exists i, j :: Collide(SamplesOf(parts, q, order, |order|), i, j))
       <==> "" in Speakers(parts, order, |order|) && "default" in Speakers(parts, order, |order|)
  {
    var samples, speakers := SamplesOf(parts, q, order, |order|), Speakers(parts, order, |order|);
    SpeakersSpeak(parts, q, order, |order|);
    SpeakersDiffer(parts, order, |order|);
    forall i: nat, j: nat | i < j < |samples|
      ensures Collide(samples, i, j) <==>
        (speakers[i] == "" && speakers[j] == "default") || (speakers[i] == "default" && speakers[j] == "")
    {
      assert Spoken(samples[i], q, speakers[i]) && Spoken(samples[j], q, speakers[j]);
      assert Self(speakers[i]) != Self(speakers[j]);
      PairCollides(samples[i], samples[j], q, speakers[i], speakers[j]);
    }
    if "" in speakers && "default" in speakers {
      var i, j :| 0 <= i < |speakers| && 0 <= j < |speakers| && speakers[i] == "" && speakers[j] == "default";
      assert Collide(samples, if i < j then i else j, if i < j then j else i);
    }
  }

  // Two series, one without a worker label and one whose worker is named default.
  function Unlucky(): Request {
    var fams: Families := map["s" := Family(false, [
      Metric(map[], Number(1.0)), Metric(map["w" := "default"], Number(2.0))])];
    Request(fams, "s", Everything, "w", "n", [])
  }

  // Such a source does occur: its two samples share a key.
  lemma DefaultCollides()
    ensures var q, order := Unlucky(), ["", "default"];
      && Orders(order, Series(q), q.selected, q.workerLabel)
      && Collide(Yields(Values, q, order), 0, 1)
  {
    var q, order := Unlucky(), ["", "default"];
    UnluckyOrder();
    UnluckySpeaks("", Series(q)[0]);
    UnluckySpeaks("default", Series(q)[1]);
    var parts := PartsOf(Values, q, order);
    assert SamplesOf(parts, q, order, 1) == SampleOf(parts[0], q, "");
    SpeakersSpeak(parts, q, order, 2);
    var samples := SamplesOf(parts, q, order, 2);
    assert |samples| == 2;
    KeyTellsWorker(samples[0], samples[1]);
  }

  lemma UnluckyOrder()
    ensures Orders(["", "default"], Series(Unlucky()), Everything, "w")
  {
    var xs := Series(Unlucky());
    assert Self("") != Self("default");
    assert LabelOf(xs[0].labels, "w") == "" && LabelOf(xs[1].labels, "w") == "default";
    assert xs[0] in xs && xs[1] in xs;
    assert Workers(xs, Everything, "w") == {"", "default"};
    assert Elements(["", "default"]) == {"", "default"};
  }

  lemma UnluckySpeaks(worker: string, x: Metric)
    requires x in Series(Unlucky()) && x.reading.Number? && LabelOf(x.labels, "w") == worker
    ensures PartOf(Values, Unlucky(), worker).Emitted?
  {
    ShareSpeaks(Unlucky(), worker);
  }
}
