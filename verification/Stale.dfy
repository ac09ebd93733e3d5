// internal/remotewrite/encode.go: stale markers and the series a request leaves active.
module Stale {
  import opened Text
  import opened SeriesKey

  // The IEEE 754 bits of the NaN that Prometheus reads as "this series ended".
  const STALE_BITS: nat := 0x7ff0_0000_0000_0002

  // A sample's value is kept as its 64 bits, which is all this code ever compares.
  datatype Sample = Sample(bits: nat, timestamp: int)

  datatype Series = Series(labels: Labels, samples: seq<Sample>)

  type Request = seq<Series>

  function LabelSets(request: Request): set<Labels> {
    set s | s in request :: s.labels
  }

  function Marker(labels: Labels, timestamp: int): Series {
    Series(labels, [Sample(STALE_BITS, timestamp)])
  }

  // One marker for each series of previous whose labels are not in kept, in order.
  function Markers(previous: Request, kept: set<Labels>, timestamp: int): Request {
    if previous == [] then []
    else
      (if previous[0].labels in kept then [] else [Marker(previous[0].labels, timestamp)])
      + Markers(previous[1..], kept, timestamp)
  }

  function WithStale(current: Request, previous: Request, timestamp: int): Request {
    current + Markers(previous, LabelSets(current), timestamp)
  }

  predicate IsActive(s: Series) {
    s.samples != [] && s.samples[0].bits != STALE_BITS
  }

  function ActiveSeries(request: Request): Request {
    if request == [] then []
    else (if IsActive(request[0]) then [request[0]] else []) + ActiveSeries(request[1..])
  }

  // withStale: seen holds key strings, the specification holds label lists.
  method WithStaleMethod(current: Request, previous: Request, timestamp: int) returns (out: Request)
    ensures out == WithStale(current, previous, timestamp)
  {
    var seen: set<string> := {};
    for i := 0 to |current|
      invariant seen == set l | l in LabelSets(current[..i]) :: Key(l)
    {
      assert LabelSets(current[..i + 1]) == LabelSets(current[..i]) + {current[i].labels};
      var key := SeriesKey.SeriesKey(current[i].labels);
      seen := seen + {key};
    }
    assert current[..|current|] == current;
    out := current;
    for i := 0 to |previous|
      invariant WithStale(current, previous, timestamp) == out + Markers(previous[i..], LabelSets(current), timestamp)
    {
      assert previous[i..][1..] == previous[i + 1..];
      KeysDecideMembership(previous[i].labels, LabelSets(current));
      var key := SeriesKey.SeriesKey(previous[i].labels);
      if key !in seen {
        out := out + [Series(previous[i].labels, [Sample(STALE_BITS, timestamp)])];
      }
    }
    assert previous[|previous|..] == [];
  }

  lemma ActiveSeriesStep(request: Request, i: nat)
    requires i < |request|
    ensures ActiveSeries(request[i..])
         == (if IsActive(request[i]) then [request[i]] else []) + ActiveSeries(request[i + 1..])
  {
    assert request[i..][1..] == request[i + 1..];
  }

  method ActiveSeriesMethod(request: Request) returns (out: Request)
    ensures out == ActiveSeries(request)
  {
    out := [];
    for i := 0 to |request|
      invariant ActiveSeries(request) == out + ActiveSeries(request[i..])
    {
      ActiveSeriesStep(request, i);
      Regroup(out, if IsActive(request[i]) then [request[i]] else [], ActiveSeries(request[i + 1..]));
      if |request[i].samples| > 0 && request[i].samples[0].bits != STALE_BITS {
        out := out + [request[i]];
      } else {
        assert out + [] == out;
      }
    }
    assert request[|request|..] == [];
  }

  // A request is empty only if there is nothing to say: no series now, and none to end.
  lemma EmptyOnlyIfNothing(current: Request, previous: Request, timestamp: int)
    ensures WithStale(current, previous, timestamp) == [] <==> current == [] && previous == []
  {
    if current == [] && previous != [] {
      assert previous[0].labels !in LabelSets([]);
    }
  }

  // Every marker is one sample with the bits Prometheus gives a stale NaN.
  lemma {:induction false} MarkersAreStale(previous: Request, kept: set<Labels>, timestamp: int)
    ensures forall s :: s in Markers(previous, kept, timestamp) ==>
      s.samples == [Sample(0x7ff0_0000_0000_0002, timestamp)] && exists p :: p in previous && p.labels == s.labels
  {
    if previous == [] {
    } else {
      MarkersAreStale(previous[1..], kept, timestamp);
      assert forall p :: p in previous[1..] ==> p in previous;
      assert previous[0] in previous;
    }
  }

  // ---- what a request says ------------------------------------------------

  ghost predicate AllActive(request: Request) {
    forall s :: s in request ==> IsActive(s)
  }

  lemma ActiveSeriesCons(s: Series, rest: Request)
    ensures ActiveSeries([s] + rest) == (if IsActive(s) then [s] else []) + ActiveSeries(rest)
  {
    assert ([s] + rest)[1..] == rest;
  }

  lemma {:induction false} ActiveSeriesConcat(a: Request, b: Request)
    ensures ActiveSeries(a + b) == ActiveSeries(a) + ActiveSeries(b)
  {
    if a == [] {
      assert a + b == b;
    } else {
      ActiveSeriesCons(a[0], a[1..] + b);
      assert a + b == [a[0]] + (a[1..] + b);
      ActiveSeriesConcat(a[1..], b);
      Regroup(if IsActive(a[0]) then [a[0]] else [], ActiveSeries(a[1..]), ActiveSeries(b));
    }
  }

  lemma {:induction false} MarkersInactive(previous: Request, kept: set<Labels>, timestamp: int)
    ensures ActiveSeries(Markers(previous, kept, timestamp)) == []
  {
    if previous == [] {
    } else {
      MarkersInactive(previous[1..], kept, timestamp);
      var head := if previous[0].labels in kept then [] else [Marker(previous[0].labels, timestamp)];
      ActiveSeriesConcat(head, Markers(previous[1..], kept, timestamp));
    }
  }

  lemma {:induction false} ActiveSeriesShorter(request: Request)
    ensures |ActiveSeries(request)| <= |request|
    ensures ActiveSeries(request) == request <==> AllActive(request)
  {
    if request == [] {
    } else {
      ActiveSeriesShorter(request[1..]);
      assert request == [request[0]] + request[1..];
      if IsActive(request[0]) {
        assert ActiveSeries(request)[1..] == ActiveSeries(request[1..]);
      }
    }
  }

  // Reading a request back gives the snapshot it was built from, without what was stale in it.
  lemma ActiveOfWithStale(current: Request, previous: Request, timestamp: int)
    ensures ActiveSeries(WithStale(current, previous, timestamp)) == ActiveSeries(current)
    ensures ActiveSeries(WithStale(current, previous, timestamp)) == current <==> AllActive(current)
  {
    ActiveSeriesConcat(current, Markers(previous, LabelSets(current), timestamp));
    MarkersInactive(previous, LabelSets(current), timestamp);
    ActiveSeriesShorter(current);
  }

  function CountLabels(request: Request, labels: Labels): nat {
    if request == [] then 0
    else (if request[0].labels == labels then 1 else 0) + CountLabels(request[1..], labels)
  }

  function CountMarkers(request: Request, labels: Labels): nat {
    if request == [] then 0
    else (if request[0].labels == labels && !IsActive(request[0]) then 1 else 0) + CountMarkers(request[1..], labels)
  }

  lemma {:induction false} CountMarkersConcat(a: Request, b: Request, labels: Labels)
    ensures CountMarkers(a + b, labels) == CountMarkers(a, labels) + CountMarkers(b, labels)
  {
    if a == [] {
      assert a + b == b;
    } else {
      assert (a + b)[1..] == a[1..] + b;
      CountMarkersConcat(a[1..], b, labels);
    }
  }

  lemma {:induction false} CountMarkersOfMarkers(previous: Request, kept: set<Labels>, timestamp: int, labels: Labels)
    ensures CountMarkers(Markers(previous, kept, timestamp), labels)
         == if labels in kept then 0 else CountLabels(previous, labels)
  {
    if previous == [] {
    } else {
      CountMarkersOfMarkers(previous[1..], kept, timestamp, labels);
      var head := if previous[0].labels in kept then [] else [Marker(previous[0].labels, timestamp)];
      CountMarkersConcat(head, Markers(previous[1..], kept, timestamp), labels);
    }
  }

  lemma {:induction false} CountMarkersOfActive(request: Request, labels: Labels)
    requires AllActive(request)
    ensures CountMarkers(request, labels) == 0
  {
    if request == [] {
    } else {
      CountMarkersOfActive(request[1..], labels);
    }
  }

  // A series that was there and is not there now gets exactly one marker for each time it was
  // there; a series that is still there, or never was, gets none.
  lemma MarkersExactly(current: Request, previous: Request, timestamp: int, labels: Labels)
    requires AllActive(current)
    ensures CountMarkers(WithStale(current, previous, timestamp), labels)
         == if labels in LabelSets(current) then 0 else CountLabels(previous, labels)
  {
    CountMarkersConcat(current, Markers(previous, LabelSets(current), timestamp), labels);
    CountMarkersOfMarkers(previous, LabelSets(current), timestamp, labels);
    CountMarkersOfActive(current, labels);
  }

  lemma {:induction false} CountLabelsPositive(request: Request, labels: Labels)
    ensures CountLabels(request, labels) > 0 <==> labels in LabelSets(request)
  {
    if request == [] {
    } else {
      CountLabelsPositive(request[1..], labels);
      assert LabelSets(request) == {request[0].labels} + LabelSets(request[1..]);
    }
  }

  // ---- what a receiver believes after applying a request -------------------

  // Remote Write 1.0, "Stale Markers": a marker ends the series, any other sample keeps it going.
  function Receive(view: set<Labels>, request: Request): set<Labels>
    decreases request
  {
    if request == [] then view
    else Receive(if IsActive(request[0]) then view + {request[0].labels} else view - {request[0].labels}, request[1..])
  }

  lemma {:induction false} ReceiveConcat(view: set<Labels>, a: Request, b: Request)
    ensures Receive(view, a + b) == Receive(Receive(view, a), b)
    decreases a
  {
    if a == [] {
      assert a + b == b;
    } else {
      assert (a + b)[1..] == a[1..] + b;
      ReceiveConcat(if IsActive(a[0]) then view + {a[0].labels} else view - {a[0].labels}, a[1..], b);
    }
  }

  lemma {:induction false} ReceiveActive(view: set<Labels>, request: Request)
    requires AllActive(request)
    ensures Receive(view, request) == view + LabelSets(request)
    decreases request
  {
    if request == [] {
    } else {
      ReceiveActive(view + {request[0].labels}, request[1..]);
      assert LabelSets(request) == {request[0].labels} + LabelSets(request[1..]);
    }
  }

  lemma {:induction false} ReceiveMarkers(view: set<Labels>, previous: Request, kept: set<Labels>, timestamp: int)
    ensures Receive(view, Markers(previous, kept, timestamp)) == view - (LabelSets(previous) - kept)
    decreases previous
  {
    if previous == [] {
    } else {
      var head := if previous[0].labels in kept then [] else [Marker(previous[0].labels, timestamp)];
      var rest := Markers(previous[1..], kept, timestamp);
      assert Markers(previous, kept, timestamp) == head + rest;
      ReceiveConcat(view, head, rest);
      ReceiveMarkers(Receive(view, head), previous[1..], kept, timestamp);
      assert LabelSets(previous) == {previous[0].labels} + LabelSets(previous[1..]);
      if head != [] {
        assert head[1..] == [];
        assert Receive(view, head) == view - {previous[0].labels};
      }
    }
  }

  // Whatever a receiver believed, it drops the series of previous that are gone and adds current.
  lemma ReceiveAny(view: set<Labels>, current: Request, previous: Request, timestamp: int)
    requires AllActive(current)
    ensures Receive(view, WithStale(current, previous, timestamp))
         == view - LabelSets(previous) + LabelSets(current)
  {
    ReceiveConcat(view, current, Markers(previous, LabelSets(current), timestamp));
    ReceiveActive(view, current);
    ReceiveMarkers(view + LabelSets(current), previous, LabelSets(current), timestamp);
  }

  // So a receiver that believed previous believes current afterwards: nothing lingers, nothing is lost.
  lemma ReceiveWithStale(current: Request, previous: Request, timestamp: int)
    requires AllActive(current)
    ensures Receive(LabelSets(previous), WithStale(current, previous, timestamp)) == LabelSets(current)
  {
    ReceiveAny(LabelSets(previous), current, previous, timestamp);
  }
}
