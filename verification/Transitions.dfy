// What holds after every Observe, and what equal changedAt stamps prove about a whole run.
module Transitions {
  import opened Arithmetic
  import opened Text
  import opened Discovery

  ghost predicate Kept(o: Options, url: string, obs: Observation) {
    && obs.backend == o.backendOf(url)
    && (obs.ok <==> obs.state == Ready)
    && (!obs.ok ==> obs.samples == [])
  }

  ghost predicate KeptEntry(o: Options, url: string, e: Option<Observation>) {
    e.Some? ==> Kept(o, url, e.value)
  }

  // A probe that came back: of an open port, and an error carries no samples.
  ghost predicate Sensible(o: Options, url: string, r: Round) {
    r.found.Some? ==> Kept(o, url, r.found.value) && o.portOf(url) !in r.blocked
  }

  ghost predicate WellKept(o: Options, s: Memory) {
    forall url :: url in s.previous ==> Kept(o, url, s.previous[url])
  }

  // ---- one endpoint, one round ---------------------------------------------------------------

  // An observation may be shown: nothing of it is pinned, and its samples are this round's own.
  ghost predicate Shows(o: Options, url: string, r: Round, obs: Observation) {
    && obs.backend !in r.backends && o.portOf(url) !in r.blocked
    && (obs.ok ==> r.found.Some? && obs.seen == r.now && obs.samples == r.found.value.samples)
  }

  lemma BecameIsSafe(o: Options, url: string, was: Option<Observation>, r: Round)
    requires KeptEntry(o, url, was) && Sensible(o, url, r)
    ensures var e := Became(o, url, was, r);
      KeptEntry(o, url, e) && (e.Some? ==> Shows(o, url, r, e.value))
  {
  }

  // The endpoint was ready before, is the same now, and was seen recently enough.
  predicate Steady(o: Options, was: Option<Observation>, now: int, e: Option<Observation>) {
    && was.Some? && was.value.ok && e.Some? && e.value.ok
    && was.value.engine == e.value.engine && was.value.model == e.value.model
    && was.value.generation == e.value.generation
    && now - was.value.seen <= o.forgetAfter
  }

  // A ready endpoint keeps its stamp exactly when it was steady, and is stamped anew otherwise.
  lemma StampTellsSteady(o: Options, url: string, was: Option<Observation>, r: Round)
    requires KeptEntry(o, url, was) && Sensible(o, url, r)
    requires var e := Became(o, url, was, r); e.Some? && e.value.ok
    ensures var e := Became(o, url, was, r);
      e.value.changedAt == if Steady(o, was, r.now, e) then was.value.changedAt else r.stamp
  {
  }

  // ---- one endpoint, a whole run ---------------------------------------------------------------

  // entries[n + 1] is what round n made of entries[n], unless it was evicted.
  ghost predicate IsLane(o: Options, url: string, entries: seq<Option<Observation>>, rounds: seq<Round>) {
    && |entries| == |rounds| + 1 && entries[0] == None
    && (forall n :: 0 <= n < |rounds| ==> Sensible(o, url, rounds[n]))
    && (forall n :: 0 <= n < |rounds| ==> Follows(o, url, entries[n], rounds[n], entries[n + 1]))
    && (forall m, n :: 0 <= m < n < |rounds| ==> rounds[m].stamp < rounds[n].stamp)
  }

  ghost predicate Follows(o: Options, url: string, was: Option<Observation>, r: Round, e: Option<Observation>) {
    e.None? || e == Became(o, url, was, r)
  }

  predicate IsReady(e: Option<Observation>) {
    e.Some? && e.value.ok
  }

  lemma {:induction false} LaneIsKept(o: Options, url: string, entries: seq<Option<Observation>>, rounds: seq<Round>,
                                      n: nat)
    requires IsLane(o, url, entries, rounds) && n < |entries|
    ensures KeptEntry(o, url, entries[n])
    ensures entries[n].Some? ==> n > 0 && entries[n].value.changedAt <= rounds[n - 1].stamp
  {
    if n == 0 {
    } else {
      LaneIsKept(o, url, entries, rounds, n - 1);
      assert Follows(o, url, entries[n - 1], rounds[n - 1], entries[n]);
      BecameIsSafe(o, url, entries[n - 1], rounds[n - 1]);
      if n > 1 {
        assert rounds[n - 2].stamp < rounds[n - 1].stamp;
      }
    }
  }

  ghost predicate SteadyAt(o: Options, entries: seq<Option<Observation>>, rounds: seq<Round>, m: nat)
    requires 0 < m < |entries| == |rounds| + 1
  {
    Steady(o, entries[m - 1], rounds[m - 1].now, entries[m])
  }

  ghost predicate SteadyThrough(o: Options, entries: seq<Option<Observation>>, rounds: seq<Round>, i: nat, j: nat)
    requires j < |entries| == |rounds| + 1
  {
    forall m: nat :: i < m <= j ==> SteadyAt(o, entries, rounds, m)
  }

  lemma {:induction false} LaneGuard(o: Options, url: string, entries: seq<Option<Observation>>, rounds: seq<Round>,
                                     i: nat, j: nat)
    requires IsLane(o, url, entries, rounds) && i <= j < |entries|
    requires IsReady(entries[i]) && IsReady(entries[j])
    ensures entries[i].value.changedAt == entries[j].value.changedAt <==> SteadyThrough(o, entries, rounds, i, j)
    decreases j - i
  {
    if i == j {
    } else {
      var was, r := entries[j - 1], rounds[j - 1];
      LaneIsKept(o, url, entries, rounds, j - 1);
      assert Follows(o, url, was, r, entries[j]);
      StampTellsSteady(o, url, was, r);
      if Steady(o, was, r.now, entries[j]) {
        LaneGuard(o, url, entries, rounds, i, j - 1);
        assert SteadyAt(o, entries, rounds, j);
      } else {
        LaneIsKept(o, url, entries, rounds, i);
        assert rounds[i - 1].stamp < rounds[j - 1].stamp;
        assert !SteadyAt(o, entries, rounds, j);
      }
    }
  }

  // ---- the whole memory ------------------------------------------------------------------------

  ghost predicate IsRun(o: Options, states: seq<Memory>, inputs: seq<Input>) {
    && |states| == |inputs| + 1 && states[0] == Memory(map[], 0)
    && (forall n :: 0 <= n < |inputs| ==> Observes(o, states[n], inputs[n], states[n + 1]))
    && (forall m, n :: 0 <= m < n < |inputs| ==> inputs[m].stamp < inputs[n].stamp)
  }

  lemma FreshIsSensible(o: Options, s: Memory, i: Input, found: map<string, Observation>, url: string)
    requires found == FreshOf(o, s, i)
    ensures Sensible(o, url, RoundOf(found, i, url))
  {
    if url in found {
      KeepsEvery(o, i.pinned, i.targets, url);
      PortIsBlocked(i.pinned, o.portOf(url));
    }
  }

  // After every Observe, whatever the probes did: an observation with an error has no samples,
  // samples are this Observe's own, nothing pinned is among them, and the memory is bounded.
  lemma ObserveIsSafe(o: Options, s: Memory, i: Input, t: Memory, found: map<string, Observation>)
    requires WellKept(o, s) && found == FreshOf(o, s, i) && Observes(o, s, i, t)
    ensures WellKept(o, t) && |t.previous| <= 4 * o.maxTargets
    ensures forall url :: url in t.previous ==> Shows(o, url, RoundOf(found, i, url), t.previous[url])
  {
    forall url | url in t.previous
      ensures Kept(o, url, t.previous[url]) && Shows(o, url, RoundOf(found, i, url), t.previous[url])
    {
      ObservesEach(o, s, i, t, found, url);
      FreshIsSensible(o, s, i, found, url);
      BecameIsSafe(o, url, Entry(s.previous, url), RoundOf(found, i, url));
    }
  }

  ghost function EntriesOf(states: seq<Memory>, url: string): seq<Option<Observation>> {
    seq(|states|, n requires 0 <= n < |states| => Entry(states[n].previous, url))
  }

  ghost function RoundsOf(o: Options, states: seq<Memory>, inputs: seq<Input>, url: string): seq<Round>
    requires |states| == |inputs| + 1
  {
    seq(|inputs|, n requires 0 <= n < |inputs| => RoundOf(FreshOf(o, states[n], inputs[n]), inputs[n], url))
  }

  lemma RunIsLane(o: Options, states: seq<Memory>, inputs: seq<Input>, url: string)
    requires IsRun(o, states, inputs)
    ensures IsLane(o, url, EntriesOf(states, url), RoundsOf(o, states, inputs, url))
  {
    var entries, rounds := EntriesOf(states, url), RoundsOf(o, states, inputs, url);
    forall n | 0 <= n < |rounds|
      ensures Sensible(o, url, rounds[n]) && Follows(o, url, entries[n], rounds[n], entries[n + 1])
    {
      StepFollows(o, states[n], inputs[n], states[n + 1], url);
    }
  }

  lemma StepFollows(o: Options, s: Memory, i: Input, t: Memory, url: string)
    requires Observes(o, s, i, t)
    ensures var r := RoundOf(FreshOf(o, s, i), i, url);
      Sensible(o, url, r) && Follows(o, url, Entry(s.previous, url), r, Entry(t.previous, url))
  {
    FreshIsSensible(o, s, i, FreshOf(o, s, i), url);
    if url in t.previous {
      ObservesEach(o, s, i, t, FreshOf(o, s, i), url);
    }
  }

  lemma ObserveIsBounded(o: Options, s: Memory, i: Input, t: Memory)
    requires Observes(o, s, i, t)
    ensures |t.previous| <= 4 * o.maxTargets
  {
  }

  // At every point of a run an error carries no samples, and the memory is bounded.
  lemma RunIsSafe(o: Options, states: seq<Memory>, inputs: seq<Input>, n: nat)
    requires IsRun(o, states, inputs) && n < |states|
    ensures WellKept(o, states[n]) && |states[n].previous| <= 4 * o.maxTargets
  {
    forall url | url in states[n].previous ensures Kept(o, url, states[n].previous[url]) {
      RunIsLane(o, states, inputs, url);
      LaneIsKept(o, url, EntriesOf(states, url), RoundsOf(o, states, inputs, url), n);
    }
    if n > 0 {
      ObserveIsBounded(o, states[n - 1], inputs[n - 1], states[n]);
    }
  }

  // The guard is exact: an endpoint ready at two Observes of a run shows equal stamps if and only
  // if it was ready, unchanged and recently seen at every Observe in between.
  lemma GuardIsExact(o: Options, states: seq<Memory>, inputs: seq<Input>, url: string, i: nat, j: nat)
    requires IsRun(o, states, inputs) && i <= j < |states|
    requires IsReady(Entry(states[i].previous, url)) && IsReady(Entry(states[j].previous, url))
    ensures states[i].previous[url].changedAt == states[j].previous[url].changedAt
       <==> SteadyThrough(o, EntriesOf(states, url), RoundsOf(o, states, inputs, url), i, j)
  {
    RunIsLane(o, states, inputs, url);
    LaneGuard(o, url, EntriesOf(states, url), RoundsOf(o, states, inputs, url), i, j);
  }

  lemma {:induction false} SteadyIsSame(o: Options, entries: seq<Option<Observation>>, rounds: seq<Round>, i: nat,
                                        m: nat)
    requires |entries| == |rounds| + 1 && i <= m < |entries|
    requires IsReady(entries[i]) && SteadyThrough(o, entries, rounds, i, m)
    ensures IsReady(entries[m]) && entries[m].value.generation == entries[i].value.generation
    ensures entries[m].value.engine == entries[i].value.engine && entries[m].value.model == entries[i].value.model
    decreases m - i
  {
    if i < m {
      assert SteadyAt(o, entries, rounds, m);
      SteadyIsSame(o, entries, rounds, i, m - 1);
    }
  }

  // So a rate window whose ends carry one stamp never crosses a restart, a switch or an outage.
  lemma GuardIsSound(o: Options, states: seq<Memory>, inputs: seq<Input>, url: string, i: nat, j: nat, m: nat)
    requires IsRun(o, states, inputs) && i <= m <= j < |states|
    requires IsReady(Entry(states[i].previous, url)) && IsReady(Entry(states[j].previous, url))
    requires states[i].previous[url].changedAt == states[j].previous[url].changedAt
    ensures url in states[m].previous
    ensures var before, after := states[i].previous[url], states[m].previous[url];
      after.ok && after.engine == before.engine && after.model == before.model && after.generation == before.generation
  {
    GuardIsExact(o, states, inputs, url, i, j);
    var entries, rounds := EntriesOf(states, url), RoundsOf(o, states, inputs, url);
    assert SteadyThrough(o, entries, rounds, i, m);
    SteadyIsSame(o, entries, rounds, i, m);
  }

  // ---- fairness over runs --------------------------------------------------------------------------

  // The names are the URLs that may be probed.
  ghost predicate Offers(o: Options, i: Input, names: set<string>) {
    forall url :: url in names <==> Admits(o, i.pinned, i.targets, url)
  }

  lemma OffersUnique(o: Options, i: Input, names: set<string>)
    requires Offers(o, i, names)
    ensures Unique(o, Blocked(i.pinned), i.targets).Keys == names
  {
    forall url ensures url in Unique(o, Blocked(i.pinned), i.targets) <==> url in names {
      KeepsEvery(o, i.pinned, i.targets, url);
    }
  }

  ghost predicate SameCandidates(o: Options, inputs: seq<Input>, from: nat, names: set<string>) {
    forall n :: from <= n < |inputs| ==> Offers(o, inputs[n], names)
  }

  function CursorsFrom(states: seq<Memory>, from: nat): (cursors: seq<nat>)
    requires from <= |states|
    ensures |cursors| == |states| - from
    ensures forall t :: 0 <= t < |cursors| ==> cursors[t] == states[from + t].cursor
    decreases |states| - from
  {
    if from == |states| then [] else [states[from].cursor] + CursorsFrom(states, from + 1)
  }

  lemma RunTurns(o: Options, states: seq<Memory>, inputs: seq<Input>, names: set<string>, from: nat)
    requires IsRun(o, states, inputs) && SameCandidates(o, inputs, from, names) && from < |states|
    ensures Turns(|names|, o.maxTargets, CursorsFrom(states, from))
  {
    var cursors := CursorsFrom(states, from);
    forall t | 0 <= t < |cursors| - 1
      ensures cursors[t + 1] == NextCursor(|names|, cursors[t], o.maxTargets)
    {
      assert Observes(o, states[from + t], inputs[from + t], states[from + t + 1]);
      CursorTurns(o, states[from + t], inputs[from + t], states[from + t + 1]);
      OffersUnique(o, inputs[from + t], names);
    }
  }

  lemma CursorTurns(o: Options, s: Memory, i: Input, t: Memory)
    requires Observes(o, s, i, t)
    ensures t.cursor == NextCursor(|Unique(o, Blocked(i.pinned), i.targets).Keys|, s.cursor, o.maxTargets)
  {
  }

  // While the candidates stay the same, any ceil(n / step) consecutive Observes of a run start a
  // probe of every one of them within the first step = min(4, n, maxTargets) of some window.
  lemma EveryCandidateProbed(o: Options, states: seq<Memory>, inputs: seq<Input>, names: set<string>, from: nat,
                             url: string) returns (t: nat, k: nat)
    requires IsRun(o, states, inputs) && SameCandidates(o, inputs, from, names) && url in names && o.maxTargets > 0
    requires var step := Min(4, Min(|names|, o.maxTargets));
      |names| > 0 && from + (|names| + step - 1) / step <= |inputs|
    ensures var step := Min(4, Min(|names|, o.maxTargets));
      && t < (|names| + step - 1) / step && k < step
      && ProbedIn(Keys(names), CursorsFrom(states, from), o.maxTargets, t, k, url)
  {
    KeysList(names);
    var keys := Keys(names);
    var i :| 0 <= i < |keys| && keys[i] == url;
    RunTurns(o, states, inputs, names, from);
    t, k := EveryCandidateInTurn(keys, o.maxTargets, CursorsFrom(states, from), i);
  }

  lemma KeysList(names: set<string>)
    ensures |Keys(names)| == |names| && forall url :: url in names <==> url in Keys(names)
  {
    ListingLists(names);
    SortDistinct(Self, Listing(names));
    forall url ensures url in names <==> url in Keys(names) {
      assert url in Keys(names) <==> url in Elements(Keys(names));
    }
    SortBySorts(Self, Listing(names));
    assert |multiset(Keys(names))| == |multiset(Listing(names))|;
    ListingCount(names);
  }

  lemma {:induction false} ListingCount(names: set<string>)
    ensures |Listing(names)| == |names|
  {
    if names == {} {
    } else {
      var name := Listing(names)[0];
      assert Listing(names)[1..] == Listing(names - {name});
      ListingCount(names - {name});
    }
  }

  // ---- eviction ----------------------------------------------------------------------------------

  lemma {:induction false} CardSubset(a: set<string>, b: set<string>)
    requires a <= b
    ensures |a| <= |b|
  {
    if a == {} {
    } else {
      var x :| x in a;
      CardSubset(a - {x}, b - {x});
    }
  }

  lemma {:induction false} ElementsCard(xs: seq<string>)
    ensures |Elements(xs)| <= |xs|
  {
    if xs == [] {
    } else {
      ElementsCard(xs[1..]);
      assert Elements(xs) == {xs[0]} + Elements(xs[1..]);
    }
  }

  lemma FreshFits(o: Options, window: seq<string>, unique: map<string, string>, answers: map<string, Probe>)
    ensures |Fresh(o, window, unique, answers)| <= |window|
  {
    CardSubset(Fresh(o, window, unique, answers).Keys, Elements(window));
    ElementsCard(window);
  }

  // Of more entries than fit, those seen at this very moment stay if they alone would fit.
  lemma NewestStay(merged: map<string, Observation>, kept: map<string, Observation>, cap: nat, newest: set<string>,
                   now: int)
    requires Evicts(merged, kept, cap) && newest <= merged.Keys && |newest| <= cap
    requires forall url :: url in merged ==> (if url in newest then merged[url].seen == now else merged[url].seen < now)
    ensures newest <= kept.Keys
  {
    forall url | url in newest ensures url in kept {
      if url !in kept {
        forall k | k in kept ensures k in newest {
          assert merged[url].seen <= merged[k].seen;
        }
        CardSubset(kept.Keys + {url}, newest);
        CardSubset(kept.Keys + {url}, merged.Keys);
      }
    }
  }

  lemma BecameSeen(o: Options, url: string, was: Option<Observation>, r: Round)
    requires KeptEntry(o, url, was) && Sensible(o, url, r) && (was.Some? ==> was.value.seen < r.now)
    ensures var e := Became(o, url, was, r);
      if r.found.Some? && o.backendOf(url) !in r.backends then e.Some? && e.value.seen == r.now
      else e.Some? ==> e.value.seen < r.now
  {
  }

  lemma MergedSeen(o: Options, previous: map<string, Observation>, found: map<string, Observation>, i: Input,
                   url: string)
    requires KeptEntry(o, url, Entry(previous, url)) && Sensible(o, url, RoundOf(found, i, url))
    requires url in previous ==> previous[url].seen < i.now
    ensures url in found && o.backendOf(url) !in Backends(i.pinned) ==>
      url in Merged(o, previous, found, i) && Merged(o, previous, found, i)[url].seen == i.now
    ensures !(url in found && o.backendOf(url) !in Backends(i.pinned)) && url in Merged(o, previous, found, i) ==>
      Merged(o, previous, found, i)[url].seen < i.now
  {
    BecameSeen(o, url, Entry(previous, url), RoundOf(found, i, url));
  }

  lemma SeenAfter(o: Options, previous: map<string, Observation>, found: map<string, Observation>, i: Input,
                  kept: map<string, Observation>)
    requires Evicts(Merged(o, previous, found, i), kept, 4 * o.maxTargets) && |found| <= o.maxTargets
    requires forall k :: k in previous ==> Kept(o, k, previous[k]) && previous[k].seen < i.now
    requires forall k :: Sensible(o, k, RoundOf(found, i, k))
    ensures forall k :: k in found && o.backendOf(k) !in Backends(i.pinned) ==> k in kept && kept[k].seen == i.now
  {
    var merged := Merged(o, previous, found, i);
    var newest := set k | k in found && o.backendOf(k) !in Backends(i.pinned);
    forall k ensures k in newest ==> k in merged && merged[k].seen == i.now
      ensures k in merged && k !in newest ==> merged[k].seen < i.now {
      MergedSeen(o, previous, found, i, k);
    }
    CardSubset(newest, found.Keys);
    NewestStay(merged, kept, 4 * o.maxTargets, newest, i.now);
  }

  // Eviction never takes an endpoint probed this round, once the clock has moved.
  lemma FreshSurvives(o: Options, s: Memory, i: Input, t: Memory, found: map<string, Observation>)
    requires WellKept(o, s) && found == FreshOf(o, s, i) && Observes(o, s, i, t)
    requires forall k :: k in s.previous ==> s.previous[k].seen < i.now
    ensures forall k :: k in found && o.backendOf(k) !in Backends(i.pinned) ==>
      k in t.previous && t.previous[k].seen == i.now
  {
    var unique := Unique(o, Blocked(i.pinned), i.targets);
    var window := Window(Keys(unique.Keys), s.cursor, o.maxTargets);
    FreshFits(o, window, unique, i.answers);
    assert |window| <= o.maxTargets;
    forall k ensures Sensible(o, k, RoundOf(found, i, k)) {
      FreshIsSensible(o, s, i, found, k);
    }
    SeenAfter(o, s.previous, found, i, t.previous);
  }

  // ---- sightings over runs -------------------------------------------------------------------------

  ghost predicate ClockMovesOn(inputs: seq<Input>) {
    forall m, n :: 0 <= m < n < |inputs| ==> inputs[m].now < inputs[n].now
  }

  lemma BecameSeenBy(o: Options, url: string, was: Option<Observation>, r: Round)
    requires was.Some? ==> was.value.seen <= r.now
    ensures var e := Became(o, url, was, r); e.Some? ==> e.value.seen <= r.now
  {
  }

  lemma {:induction false} LaneSeen(o: Options, url: string, entries: seq<Option<Observation>>, rounds: seq<Round>,
                                    n: nat)
    requires IsLane(o, url, entries, rounds) && n < |entries|
    requires forall m, k :: 0 <= m < k < |rounds| ==> rounds[m].now < rounds[k].now
    ensures entries[n].Some? ==> n > 0 && entries[n].value.seen <= rounds[n - 1].now
  {
    if n == 0 {
    } else {
      LaneSeen(o, url, entries, rounds, n - 1);
      assert Follows(o, url, entries[n - 1], rounds[n - 1], entries[n]);
      if n > 1 {
        assert rounds[n - 2].now < rounds[n - 1].now;
      }
      BecameSeenBy(o, url, entries[n - 1], rounds[n - 1]);
    }
  }

  lemma SeenBefore(o: Options, states: seq<Memory>, inputs: seq<Input>, n: nat)
    requires IsRun(o, states, inputs) && ClockMovesOn(inputs) && n < |inputs|
    ensures forall url :: url in states[n].previous ==> states[n].previous[url].seen < inputs[n].now
  {
    forall url | url in states[n].previous ensures states[n].previous[url].seen < inputs[n].now {
      RunIsLane(o, states, inputs, url);
      LaneSeen(o, url, EntriesOf(states, url), RoundsOf(o, states, inputs, url), n);
      assert inputs[n - 1].now < inputs[n].now;
    }
  }

  // At every Observe of a run whose clock moves on, whatever was probed and may be shown is
  // remembered afterwards: eviction only ever takes what this round did not see.
  lemma FreshSurvivesRun(o: Options, states: seq<Memory>, inputs: seq<Input>, n: nat, found: map<string, Observation>)
    requires IsRun(o, states, inputs) && ClockMovesOn(inputs) && n < |inputs|
    requires found == FreshOf(o, states[n], inputs[n])
    ensures forall k :: k in found && o.backendOf(k) !in Backends(inputs[n].pinned) ==>
      k in states[n + 1].previous && states[n + 1].previous[k].seen == inputs[n].now
  {
    RunIsSafe(o, states, inputs, n);
    SeenBefore(o, states, inputs, n);
    FreshSurvives(o, states[n], inputs[n], states[n + 1], found);
  }
}
