// What an Observe shows and remembers, told from what it was given.
module Observing {
  import opened Arithmetic
  import opened Text
  import opened Discovery
  import opened Transitions
  import opened DiscoveryManager

  function Offered(o: Options, i: Input): set<string> {
    set n | 0 <= n < |i.targets| && Admissible(o, i.pinned, i.targets[n]) :: i.targets[n].url.value
  }

  lemma OfferedOffers(o: Options, i: Input)
    ensures Offers(o, i, Offered(o, i)) && Unique(o, Blocked(i.pinned), i.targets).Keys == Offered(o, i)
    ensures |Unique(o, Blocked(i.pinned), i.targets)| == |Offered(o, i)|
  {
    OffersUnique(o, i, Offered(o, i));
    assert |Unique(o, Blocked(i.pinned), i.targets)| == |Unique(o, Blocked(i.pinned), i.targets).Keys|;
  }

  // It was this URL's turn, and its probe came back in time.
  ghost predicate Answered(o: Options, s: Memory, i: Input, url: string) {
    url in i.answers && url in Window(Keys(Offered(o, i)), s.cursor, o.maxTargets)
  }

  predicate Unpinned(pinned: seq<Pin>, backend: string) {
    forall p :: p in pinned ==> p.backend != backend
  }

  predicate PortUnpinned(pinned: seq<Pin>, port: string) {
    forall p :: p in pinned ==> p.port != Some(port)
  }

  lemma UnpinnedMeans(pinned: seq<Pin>, backend: string, port: string)
    ensures Unpinned(pinned, backend) <==> backend !in Backends(pinned)
    ensures PortUnpinned(pinned, port) <==> port !in Blocked(pinned)
  {
    PortIsBlocked(pinned, port);
  }

  lemma AnsweredIsFresh(o: Options, s: Memory, i: Input, url: string)
    ensures url in FreshOf(o, s, i) <==> Answered(o, s, i, url)
    ensures url in FreshOf(o, s, i) ==> Admits(o, i.pinned, i.targets, url)
  {
    OfferedOffers(o, i);
    WindowListed(Offered(o, i), s.cursor, o.maxTargets);
  }

  lemma FreshIsObserved(o: Options, s: Memory, i: Input, n: nat, url: string)
    requires Answered(o, s, i, url) && NamesLast(i.targets, n, url)
    ensures url in FreshOf(o, s, i)
    ensures FreshOf(o, s, i)[url] == Observed(o, url, i.targets[n].generation, i.answers[url])
  {
    AnsweredIsFresh(o, s, i, url);
    KeepsLast(o, i.pinned, i.targets, n, url);
  }

  // ---- a probe that came back ------------------------------------------------------------------

  // Seen before, and recently enough for its identity to be remembered.
  function Remembered(o: Options, s: Memory, i: Input, url: string): Option<Observation> {
    if url in s.previous && i.now - s.previous[url].seen <= o.forgetAfter then Some(s.previous[url]) else None
  }

  // What a probe measured, under the generation its target gave and the start of its process.
  predicate TellsMeasured(obs: Observation, p: Probe, generation: string) {
    p.Measured? ==>
      && obs.engine == p.engine && obs.model == p.model && obs.version == p.version
      && obs.samples == p.samples && obs.ok && obs.state == Ready && obs.generation == generation + p.started
  }

  // A probe that measured nothing leaves an error without samples. An endpoint that is merely
  // unavailable keeps the identity it had; any other trouble shows the engine that was met.
  predicate TellsFailure(obs: Observation, p: Probe, generation: string, was: Option<Observation>) {
    !p.Measured? ==>
      && obs.samples == [] && !obs.ok
      && obs.state == (if p.Refused? && p.state != Ready then p.state else Unavailable)
      && obs.generation == generation + (if p.Unmapped? then p.started else "")
      && (if obs.state == Unavailable && was.Some?
          then obs.engine == was.value.engine && obs.model == was.value.model && obs.version == was.value.version
          else
            && obs.engine == (if p.NoTelemetry? then "unknown" else p.engine)
            && obs.model == (if p.Unmapped? then p.model else "unknown")
            && obs.version == (if p.NoTelemetry? then "" else p.version))
  }

  lemma IdentifiedTells(o: Options, url: string, generation: string, p: Probe, was: Option<Observation>,
                        changedAt: int, seen: int)
    ensures var obs := Identified(was, Observed(o, url, generation, p)).(changedAt := changedAt, seen := seen);
      TellsMeasured(obs, p, generation) && TellsFailure(obs, p, generation, was)
  {
    assert generation + "" == generation;
  }

  lemma AgedIsRemembered(o: Options, url: string, was: Option<Observation>, r: Round)
    requires r.found.Some? && o.backendOf(url) !in r.backends && o.portOf(url) !in r.blocked
    requires was.Some? ==> was.value.backend == o.backendOf(url)
    ensures Aged(o, url, was, r) == if was.Some? && r.now - was.value.seen <= o.forgetAfter then was else None
  {
  }

  // The round of an endpoint that was probed, from what the probe met.
  lemma BecameTells(o: Options, url: string, generation: string, p: Probe, was: Option<Observation>, r: Round)
    requires r.found == Some(Observed(o, url, generation, p))
    requires o.backendOf(url) !in r.backends && o.portOf(url) !in r.blocked
    requires was.Some? ==> was.value.backend == o.backendOf(url)
    ensures var e := Became(o, url, was, r);
      var known := if was.Some? && r.now - was.value.seen <= o.forgetAfter then was else None;
      && e.Some? && e.value.seen == r.now && e.value.backend == o.backendOf(url)
      && TellsMeasured(e.value, p, generation) && TellsFailure(e.value, p, generation, known)
  {
    AgedIsRemembered(o, url, was, r);
    var aged := Aged(o, url, was, r);
    var id := Identified(aged, r.found.value);
    IdentifiedTells(o, url, generation, p, aged,
                    if Changed(aged, id) then r.stamp else aged.value.changedAt, r.now);
  }

  // What its probe met is what is remembered of an endpoint that may be shown.
  lemma ProbeIsRemembered(o: Options, s: Memory, i: Input, t: Memory, url: string, n: nat)
    requires WellKept(o, s) && Observes(o, s, i, t) && forall k :: k in s.previous ==> s.previous[k].seen < i.now
    requires Answered(o, s, i, url) && NamesLast(i.targets, n, url) && Unpinned(i.pinned, o.backendOf(url))
    ensures url in t.previous
    ensures t.previous[url].seen == i.now && t.previous[url].backend == o.backendOf(url)
    ensures TellsMeasured(t.previous[url], i.answers[url], i.targets[n].generation)
    ensures TellsFailure(t.previous[url], i.answers[url], i.targets[n].generation, Remembered(o, s, i, url))
  {
    var found := FreshOf(o, s, i);
    FreshIsObserved(o, s, i, n, url);
    FreshSurvives(o, s, i, t, found);
    UnpinnedMeans(i.pinned, o.backendOf(url), o.portOf(url));
    ObservesEach(o, s, i, t, found, url);
    FreshIsSensible(o, s, i, found, url);
    BecameTells(o, url, i.targets[n].generation, i.answers[url], Entry(s.previous, url), RoundOf(found, i, url));
  }

  // ---- no probe came back ------------------------------------------------------------------------

  // An endpoint that did not answer keeps its identity, its stamp and the time it was seen, but no
  // samples, until it expires or is pinned; then nothing of it is left. Nothing recent is lost before
  // the memory is full.
  lemma SilenceIsRemembered(o: Options, s: Memory, i: Input, t: Memory, url: string)
    requires WellKept(o, s) && Observes(o, s, i, t) && !Answered(o, s, i, url)
    ensures url in t.previous ==>
      && Retained(o, s, i, url)
      && t.previous[url] == s.previous[url].(samples := [], ok := false, state := Unavailable)
    ensures Retained(o, s, i, url) && |t.previous| < 4 * o.maxTargets ==> url in t.previous
  {
    var found := FreshOf(o, s, i);
    AnsweredIsFresh(o, s, i, url);
    SilentBecame(o, s, i, found, url);
    if url in t.previous {
      ObservesEach(o, s, i, t, found, url);
    }
    if |t.previous| < 4 * o.maxTargets {
      UncappedKeeps(Merged(o, s.previous, found, i), t.previous, 4 * o.maxTargets);
    }
  }

  predicate Retained(o: Options, s: Memory, i: Input, url: string) {
    && url in s.previous && i.now - s.previous[url].seen <= o.forgetAfter
    && Unpinned(i.pinned, o.backendOf(url)) && PortUnpinned(i.pinned, o.portOf(url))
  }

  lemma SilentBecame(o: Options, s: Memory, i: Input, found: map<string, Observation>, url: string)
    requires WellKept(o, s) && url !in found
    ensures Became(o, url, Entry(s.previous, url), RoundOf(found, i, url))
         == if Retained(o, s, i, url) then Some(s.previous[url].(samples := [], ok := false, state := Unavailable))
            else None
  {
    UnpinnedMeans(i.pinned, o.backendOf(url), o.portOf(url));
  }

  lemma UncappedKeeps(merged: map<string, Observation>, kept: map<string, Observation>, cap: nat)
    requires Evicts(merged, kept, cap) && |kept| < cap
    ensures kept.Keys == merged.Keys
  {
    assert |kept.Keys| == |merged.Keys|;
    SameCard(kept.Keys, merged.Keys);
  }

  lemma SameCard(a: set<string>, b: set<string>)
    requires a <= b && |a| == |b|
    ensures a == b
  {
    if x :| x in b && x !in a {
      CardSubset(a + {x}, b);
    }
  }

  // ---- what is shown ------------------------------------------------------------------------------

  // The observation is what a probe of an admissible candidate measured this round.
  ghost predicate MeasuredNow(o: Options, i: Input, url: string, obs: Observation) {
    && url in i.answers && i.answers[url].Measured? && Admits(o, i.pinned, i.targets, url)
    && obs.backend == o.backendOf(url) && obs.samples == i.answers[url].samples
    && obs.engine == i.answers[url].engine && obs.model == i.answers[url].model
  }

  // Nothing shown is pinned, an error shows no samples, and whatever else is shown a probe of this
  // very Observe measured.
  lemma ShownIsSafe(o: Options, s: Memory, i: Input, t: Memory, out: seq<Observation>, trouble: Option<State>)
    requires WellKept(o, s) && Observes(o, s, i, t) && Reports(out, t.previous, NoteOf(i, trouble))
    ensures forall obs :: obs in out ==>
      && Unpinned(i.pinned, obs.backend) && (!obs.ok ==> obs.samples == [])
      && (obs.ok ==> exists url :: MeasuredNow(o, i, url, obs))
  {
    forall obs | obs in out
      ensures Unpinned(i.pinned, obs.backend) && (!obs.ok ==> obs.samples == [])
      ensures obs.ok ==> exists url :: MeasuredNow(o, i, url, obs)
    {
      assert obs in Elements(out);
      UnpinnedMeans(i.pinned, obs.backend, "");
      if NoteOf(i, trouble) != Some(obs) {
        var url :| url in t.previous && t.previous[url] == obs;
        EntryIsSafe(o, s, i, t, url);
      }
    }
  }

  lemma EntryIsSafe(o: Options, s: Memory, i: Input, t: Memory, url: string)
    requires WellKept(o, s) && Observes(o, s, i, t) && url in t.previous
    ensures var obs := t.previous[url];
      && obs.backend == o.backendOf(url) && Unpinned(i.pinned, obs.backend) && PortUnpinned(i.pinned, o.portOf(url))
      && (!obs.ok ==> obs.samples == []) && (obs.ok ==> MeasuredNow(o, i, url, obs))
  {
    var found := FreshOf(o, s, i);
    ObservesEach(o, s, i, t, found, url);
    AnsweredIsFresh(o, s, i, url);
    BecameIsMeasured(o, s, i, found, url);
  }

  lemma BecameIsMeasured(o: Options, s: Memory, i: Input, found: map<string, Observation>, url: string)
    requires WellKept(o, s) && Became(o, url, Entry(s.previous, url), RoundOf(found, i, url)).Some?
    requires url in found ==>
      && Admits(o, i.pinned, i.targets, url) && url in i.answers
      && exists g :: found[url] == Observed(o, url, g, i.answers[url])
    ensures var obs := Became(o, url, Entry(s.previous, url), RoundOf(found, i, url)).value;
      && obs.backend == o.backendOf(url) && Unpinned(i.pinned, obs.backend) && PortUnpinned(i.pinned, o.portOf(url))
      && (!obs.ok ==> obs.samples == []) && (obs.ok ==> MeasuredNow(o, i, url, obs))
  {
    UnpinnedMeans(i.pinned, o.backendOf(url), o.portOf(url));
    if url in found {
      var n :| 0 <= n < |i.targets| && i.targets[n].url == Some(url) && Admissible(o, i.pinned, i.targets[n]);
      assert PortUnpinned(i.pinned, o.portOf(url));
    }
  }

  // The note: of several troubles the list that failed comes first, then the deadline, then too many
  // candidates, and last that nothing was found. Its place may be pinned.
  function NoteDue(o: Options, i: Input, kept: nat): Option<Observation> {
    var many := |Offered(o, i)| > o.maxTargets;
    if (i.listFailed || i.late || many || kept == 0) && Unpinned(i.pinned, "auto-discovery") then
      Some(Observation("auto-discovery", "unknown", "unknown", "", [], false,
                       if i.listFailed then ScopeError else if i.late then Deadline
                       else if many then CandidateLimit else Discovering,
                       i.stamp, "", 0))
    else None
  }

  lemma NoteIsDue(o: Options, i: Input, kept: nat)
    ensures NoteOf(i, Trouble(o, i, |Unique(o, Blocked(i.pinned), i.targets)|, kept)) == NoteDue(o, i, kept)
  {
    OfferedOffers(o, i);
    UnpinnedMeans(i.pinned, "auto-discovery", "");
  }

  // Everything remembered is shown, each endpoint once, and one note more exactly if one is due.
  lemma NoteIsShown(o: Options, i: Input, t: Memory, out: seq<Observation>)
    requires Reports(out, t.previous,
                     NoteOf(i, Trouble(o, i, |Unique(o, Blocked(i.pinned), i.targets)|, |t.previous|)))
    ensures var note := NoteDue(o, i, |t.previous|);
      && |out| == |t.previous| + (if note.Some? then 1 else 0)
      && forall obs :: obs in out <==> obs in t.previous.Values || note == Some(obs)
  {
    NoteIsDue(o, i, |t.previous|);
    HeldAre(out, t.previous, NoteDue(o, i, |t.previous|));
  }

  lemma HeldAre(out: seq<Observation>, previous: map<string, Observation>, note: Option<Observation>)
    requires Holds(out, previous, note)
    ensures forall obs :: obs in out <==> obs in previous.Values || note == Some(obs)
  {
    forall obs ensures obs in out <==> obs in previous.Values || note == Some(obs) {
      assert obs in out <==> obs in Elements(out);
    }
  }

  // ---- fairness, told by what is remembered -------------------------------------------------------

  lemma TurnIsAnswered(o: Options, s: Memory, i: Input, names: set<string>, url: string)
    requires Offers(o, i, names) && url in Window(Keys(names), s.cursor, o.maxTargets) && url in i.answers
    ensures Answered(o, s, i, url)
  {
    OfferedOffers(o, i);
    assert names == Offered(o, i) by {
      forall n ensures n in names <==> n in Offered(o, i) {
        assert n in names <==> Admits(o, i.pinned, i.targets, n);
      }
    }
  }

  // While the same URLs may be probed, one whose probes come back is seen at one of any
  // ceil(n / min(4, n, maxTargets)) consecutive Observes, whatever becomes of the others.
  lemma EveryCandidateSeen(o: Options, states: seq<Memory>, inputs: seq<Input>, names: set<string>, from: nat,
                           url: string)
    requires IsRun(o, states, inputs) && ClockMovesOn(inputs) && SameCandidates(o, inputs, from, names)
    requires url in names && o.maxTargets > 0
    requires var step := Min(4, Min(|names|, o.maxTargets));
      |names| > 0 && from + (|names| + step - 1) / step <= |inputs|
    requires forall n :: from <= n < |inputs| ==>
      url in inputs[n].answers && Unpinned(inputs[n].pinned, o.backendOf(url))
    ensures var step := Min(4, Min(|names|, o.maxTargets));
      exists n :: from <= n < from + (|names| + step - 1) / step && SeenAt(states, inputs, n, url)
  {
    var n := TurnComes(o, states, inputs, names, from, url);
    TurnIsSeen(o, states, inputs, names, n, url);
  }

  lemma TurnComes(o: Options, states: seq<Memory>, inputs: seq<Input>, names: set<string>, from: nat, url: string)
    returns (n: nat)
    requires IsRun(o, states, inputs) && SameCandidates(o, inputs, from, names) && url in names && o.maxTargets > 0
    requires var step := Min(4, Min(|names|, o.maxTargets));
      |names| > 0 && from + (|names| + step - 1) / step <= |inputs|
    ensures var step := Min(4, Min(|names|, o.maxTargets)); from <= n < from + (|names| + step - 1) / step
    ensures n < |states| && url in Window(Keys(names), states[n].cursor, o.maxTargets)
  {
    var t, _ := EveryCandidateProbed(o, states, inputs, names, from, url);
    n := from + t;
  }

  predicate SeenAt(states: seq<Memory>, inputs: seq<Input>, n: int, url: string) {
    && 0 <= n < |inputs| && n + 1 < |states|
    && url in states[n + 1].previous && states[n + 1].previous[url].seen == inputs[n].now
  }

  lemma TurnIsSeen(o: Options, states: seq<Memory>, inputs: seq<Input>, names: set<string>, n: nat, url: string)
    requires IsRun(o, states, inputs) && ClockMovesOn(inputs) && n < |inputs|
    requires Offers(o, inputs[n], names) && url in Window(Keys(names), states[n].cursor, o.maxTargets)
    requires url in inputs[n].answers && Unpinned(inputs[n].pinned, o.backendOf(url))
    ensures SeenAt(states, inputs, n, url)
  {
    var found := FreshOf(o, states[n], inputs[n]);
    TurnIsAnswered(o, states[n], inputs[n], names, url);
    AnsweredIsFresh(o, states[n], inputs[n], url);
    UnpinnedMeans(inputs[n].pinned, o.backendOf(url), "");
    FreshSurvivesRun(o, states, inputs, n, found);
  }
}
