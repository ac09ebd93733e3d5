// internal/discovery/discovery.go: what one Observe does to the remembered endpoints, on values.
module Discovery {
  import opened Arithmetic
  import opened Text

  datatype State =
    | Ready | Unavailable | Unknown | Ambiguous | Unsupported | IdentityMissing
    | Discovering | CandidateLimit | Deadline | ScopeError

  datatype Sample = Sample(name: string, value: real)

  // An observation of one endpoint; ok says that Err is nil.
  datatype Observation = Observation(
    backend: string, engine: string, model: string, version: string,
    samples: seq<Sample>, ok: bool, state: State, changedAt: int, generation: string, seen: int)

  // The options, with the two functions of an endpoint URL that matter here.
  datatype Options = Options(
    maxTargets: nat, forgetAfter: int, excludePort: string,
    portOf: string -> string, backendOf: string -> string)

  // What a probe met: no telemetry; an engine that is not identified or not stable; an identified
  // one whose telemetry does not map, or does.
  datatype Probe =
    | NoTelemetry
    | Refused(engine: string, version: string, state: State)
    | Unmapped(engine: string, version: string, model: string, started: string)
    | Measured(engine: string, version: string, model: string, started: string, samples: seq<Sample>)

  // probe, given what it met.
  function Observed(o: Options, url: string, generation: string, p: Probe): Observation {
    var blank := Observation(o.backendOf(url), "unknown", "unknown", "", [], false, Unavailable, 0, generation, 0);
    match p
    case NoTelemetry => blank
    case Refused(engine, version, state) =>
      blank.(engine := engine, version := version, state := if state == Ready then Unavailable else state)
    case Unmapped(engine, version, model, started) =>
      blank.(engine := engine, version := version, model := model, generation := generation + started)
    case Measured(engine, version, model, started, samples) =>
      blank.(engine := engine, version := version, model := model, generation := generation + started,
             samples := samples, ok := true, state := Ready)
  }

  datatype Pin = Pin(backend: string, port: Option<string>)

  // A candidate; url is None if it is not a plain loopback address.
  datatype Target = Target(url: Option<string>, generation: string)

  // Everything one Observe reads: two clocks, the pinned registrations, the candidates, and the
  // probes that came back in time.
  datatype Input = Input(
    now: int, stamp: int, pinned: seq<Pin>, targets: seq<Target>, answers: map<string, Probe>,
    late: bool, listFailed: bool)

  function Blocked(pinned: seq<Pin>): set<string> {
    set p | p in pinned && p.port.Some? :: p.port.value
  }

  function Backends(pinned: seq<Pin>): set<string> {
    set p | p in pinned :: p.backend
  }

  // The candidates that may be probed, each URL once, the last generation named for it.
  function Unique(o: Options, blocked: set<string>, targets: seq<Target>): map<string, string> {
    if targets == [] then map[]
    else
      var before, t := Unique(o, blocked, targets[..|targets| - 1]), targets[|targets| - 1];
      if t.url.None? || o.portOf(t.url.value) in blocked || o.portOf(t.url.value) == o.excludePort then before
      else before[t.url.value := t.generation]
  }

  // A candidate may be probed if it is a plain loopback address, and its port neither the exporter's
  // own nor that of a pinned endpoint.
  predicate Admissible(o: Options, pinned: seq<Pin>, t: Target) {
    && t.url.Some? && o.portOf(t.url.value) != o.excludePort
    && forall p :: p in pinned ==> p.port != Some(o.portOf(t.url.value))
  }

  predicate Admits(o: Options, pinned: seq<Pin>, targets: seq<Target>, url: string) {
    exists n :: 0 <= n < |targets| && targets[n].url == Some(url) && Admissible(o, pinned, targets[n])
  }

  // The last target of this URL.
  predicate NamesLast(targets: seq<Target>, n: int, url: string) {
    && 0 <= n < |targets| && targets[n].url == Some(url)
    && forall m :: n < m < |targets| ==> targets[m].url != Some(url)
  }

  // Every admissible target is kept, once for each URL, with the generation of the last of them.
  ghost predicate Admitted(o: Options, pinned: seq<Pin>, targets: seq<Target>, unique: map<string, string>) {
    && (forall url :: url in unique <==> Admits(o, pinned, targets, url))
    && (forall url, n :: url in unique && NamesLast(targets, n, url) ==> unique[url] == targets[n].generation)
  }

  lemma AdmitsSnoc(o: Options, pinned: seq<Pin>, init: seq<Target>, last: Target, url: string)
    ensures Admits(o, pinned, init + [last], url) <==>
      Admits(o, pinned, init, url) || (last.url == Some(url) && Admissible(o, pinned, last))
  {
    var targets := init + [last];
    assert targets[|init|] == last;
    if Admits(o, pinned, init, url) {
      var n :| 0 <= n < |init| && init[n].url == Some(url) && Admissible(o, pinned, init[n]);
      assert targets[n] == init[n];
    }
  }

  // Every admissible target is a candidate, once for each URL, and nothing else is.
  lemma {:induction false} KeepsEvery(o: Options, pinned: seq<Pin>, targets: seq<Target>, url: string)
    ensures url in Unique(o, Blocked(pinned), targets) <==> Admits(o, pinned, targets, url)
  {
    if targets == [] {
    } else {
      var init, last := targets[..|targets| - 1], targets[|targets| - 1];
      KeepsEvery(o, pinned, init, url);
      assert targets == init + [last];
      AdmitsSnoc(o, pinned, init, last, url);
      if last.url == Some(url) {
        PortIsBlocked(pinned, o.portOf(url));
      }
    }
  }

  lemma PortIsBlocked(pinned: seq<Pin>, port: string)
    ensures port in Blocked(pinned) <==> exists p :: p in pinned && p.port == Some(port)
  {
  }

  // Of several targets of one URL the last gives the generation.
  lemma {:induction false} KeepsLast(o: Options, pinned: seq<Pin>, targets: seq<Target>, n: nat, url: string)
    requires Admits(o, pinned, targets, url) && NamesLast(targets, n, url)
    ensures url in Unique(o, Blocked(pinned), targets)
    ensures Unique(o, Blocked(pinned), targets)[url] == targets[n].generation
  {
    KeepsEvery(o, pinned, targets, url);
    var init, last := targets[..|targets| - 1], targets[|targets| - 1];
    if n == |targets| - 1 {
      PortIsBlocked(pinned, o.portOf(url));
    } else {
      assert targets == init + [last] && last.url != Some(url);
      AdmitsSnoc(o, pinned, init, last, url);
      KeepsLast(o, pinned, init, n, url);
    }
  }

  lemma UniqueIsAdmitted(o: Options, pinned: seq<Pin>, targets: seq<Target>)
    ensures Admitted(o, pinned, targets, Unique(o, Blocked(pinned), targets))
  {
    var unique := Unique(o, Blocked(pinned), targets);
    forall url ensures url in unique <==> Admits(o, pinned, targets, url) {
      KeepsEvery(o, pinned, targets, url);
    }
    forall url, n | url in unique && NamesLast(targets, n, url) ensures unique[url] == targets[n].generation {
      KeepsEvery(o, pinned, targets, url);
      KeepsLast(o, pinned, targets, n, url);
    }
  }

  // ---- the rotating window ----------------------------------------------------------

  function Window(keys: seq<string>, cursor: nat, maxTargets: nat): seq<string> {
    if keys == [] then []
    else
      var start := cursor % |keys|;
      (keys[start..] + keys[..start])[..Min(|keys|, maxTargets)]
  }

  function NextCursor(n: nat, cursor: nat, maxTargets: nat): nat {
    if n == 0 then cursor else (cursor % n + Min(4, Min(n, maxTargets))) % n
  }

  // The cursor after a run of collections over the same n candidates.
  function CursorAfter(n: nat, cursor: nat, maxTargets: nat, collections: nat): nat
    decreases collections
  {
    if collections == 0 then cursor
    else CursorAfter(n, NextCursor(n, cursor, maxTargets), maxTargets, collections - 1)
  }

  lemma WindowAt(keys: seq<string>, cursor: nat, maxTargets: nat, k: nat)
    requires keys != [] && k < Min(|keys|, maxTargets)
    ensures |Window(keys, cursor, maxTargets)| == Min(|keys|, maxTargets)
    ensures var at := cursor % |keys| + k;
      Window(keys, cursor, maxTargets)[k] == keys[if at < |keys| then at else at - |keys|]
  {
  }

  lemma NextCursorWraps(n: nat, cursor: nat, maxTargets: nat)
    requires n > 0
    ensures var at := cursor % n + Min(4, Min(n, maxTargets));
      NextCursor(n, cursor, maxTargets) == (if at < n then at else at - n)
      && NextCursor(n, cursor, maxTargets) % n == NextCursor(n, cursor, maxTargets)
  {
    var next := NextCursor(n, cursor, maxTargets);
    ModStep(cursor % n + Min(4, Min(n, maxTargets)), n);
    ModStep(next, n);
  }

  // How far ahead of the cursor a candidate stands.
  function Ahead(n: nat, cursor: nat, i: nat): nat
    requires i < n
  {
    if i >= cursor % n then i - cursor % n else i + n - cursor % n
  }

  lemma AheadShrinks(n: nat, cursor: nat, maxTargets: nat, i: nat)
    requires i < n && Ahead(n, cursor, i) >= Min(4, Min(n, maxTargets))
    ensures Ahead(n, NextCursor(n, cursor, maxTargets), i) == Ahead(n, cursor, i) - Min(4, Min(n, maxTargets))
  {
    NextCursorWraps(n, cursor, maxTargets);
  }

  ghost predicate ProbedAt(keys: seq<string>, cursor: nat, maxTargets: nat, t: nat, k: nat, url: string) {
    var window := Window(keys, CursorAfter(|keys|, cursor, maxTargets, t), maxTargets);
    k < |window| && window[k] == url
  }

  // How many whole windows fit in a distance.
  function Windows(ahead: nat, step: nat): nat
    requires step > 0
  {
    if ahead < step then 0 else 1 + Windows(ahead - step, step)
  }

  lemma {:induction false} WindowsFit(ahead: nat, step: nat)
    requires step > 0
    ensures Windows(ahead, step) * step <= ahead
  {
    if ahead >= step {
      WindowsFit(ahead - step, step);
      assert Windows(ahead, step) * step == Windows(ahead - step, step) * step + step;
    }
  }

  lemma ReachedNow(keys: seq<string>, cursor: nat, maxTargets: nat, i: nat)
    requires i < |keys| && Ahead(|keys|, cursor, i) < Min(4, Min(|keys|, maxTargets))
    ensures ProbedAt(keys, cursor, maxTargets, 0, Ahead(|keys|, cursor, i), keys[i])
  {
    WindowAt(keys, cursor, maxTargets, Ahead(|keys|, cursor, i));
  }

  lemma ReachedLater(keys: seq<string>, cursor: nat, maxTargets: nat, t: nat, k: nat, url: string)
    requires ProbedAt(keys, NextCursor(|keys|, cursor, maxTargets), maxTargets, t, k, url)
    ensures ProbedAt(keys, cursor, maxTargets, t + 1, k, url)
  {
  }

  lemma {:induction false} Reached(keys: seq<string>, cursor: nat, maxTargets: nat, i: nat) returns (k: nat)
    requires i < |keys| && maxTargets > 0
    ensures var step := Min(4, Min(|keys|, maxTargets));
      k < step && ProbedAt(keys, cursor, maxTargets, Windows(Ahead(|keys|, cursor, i), step), k, keys[i])
    decreases Ahead(|keys|, cursor, i)
  {
    var n, next := |keys|, NextCursor(|keys|, cursor, maxTargets);
    var step := Min(4, Min(n, maxTargets));
    if Ahead(n, cursor, i) < step {
      k := Ahead(n, cursor, i);
      ReachedNow(keys, cursor, maxTargets, i);
    } else {
      AheadShrinks(n, cursor, maxTargets, i);
      k := Reached(keys, next, maxTargets, i);
      ReachedLater(keys, cursor, maxTargets, Windows(Ahead(n, next, i), step), k, keys[i]);
    }
  }

  // The cursors of consecutive collections over the same n candidates.
  ghost predicate Turns(n: nat, maxTargets: nat, cursors: seq<nat>) {
    forall t :: 0 <= t < |cursors| - 1 ==> cursors[t + 1] == NextCursor(n, cursors[t], maxTargets)
  }

  lemma {:induction false} TurnsFollow(n: nat, maxTargets: nat, cursors: seq<nat>, from: nat, t: nat)
    requires Turns(n, maxTargets, cursors) && from + t < |cursors|
    ensures cursors[from + t] == CursorAfter(n, cursors[from], maxTargets, t)
    decreases t
  {
    if t == 0 {
    } else {
      TurnsFollow(n, maxTargets, cursors, from + 1, t - 1);
    }
  }

  ghost predicate ProbedIn(keys: seq<string>, cursors: seq<nat>, maxTargets: nat, t: nat, k: nat, url: string)
    requires t < |cursors|
  {
    var window := Window(keys, cursors[t], maxTargets);
    k < |window| && window[k] == url
  }

  // Fairness: over the same candidates, every one is among the first min(4, n, maxTargets) probes
  // of one of any ceil(n / step) consecutive collections, wherever the cursor stands.
  lemma EveryCandidateInTurn(keys: seq<string>, maxTargets: nat, cursors: seq<nat>, i: nat) returns (t: nat, k: nat)
    requires i < |keys| && maxTargets > 0 && Turns(|keys|, maxTargets, cursors)
    requires var step := Min(4, Min(|keys|, maxTargets)); |cursors| >= (|keys| + step - 1) / step
    ensures var step := Min(4, Min(|keys|, maxTargets));
      t < (|keys| + step - 1) / step && k < step && ProbedIn(keys, cursors, maxTargets, t, k, keys[i])
  {
    var step := Min(4, Min(|keys|, maxTargets));
    var ahead := Ahead(|keys|, cursors[0], i);
    t := Windows(ahead, step);
    k := Reached(keys, cursors[0], maxTargets, i);
    WindowsFit(ahead, step);
    CeilingDivision(|keys|, step, t);
    TurnsFollow(|keys|, maxTargets, cursors, 0, t);
  }

  // ---- one endpoint -------------------------------------------------------------------

  // What one Observe brings to one endpoint: its probe, if it came back, and what all share.
  datatype Round = Round(found: Option<Observation>, blocked: set<string>, backends: set<string>, now: int, stamp: int)

  // An endpoint that was not seen this time: its health is remembered, its samples are not.
  function Absent(known: Observation): Observation {
    known.(samples := [], ok := false, state := Unavailable)
  }

  predicate Forgotten(o: Options, url: string, known: Observation, r: Round) {
    o.portOf(url) in r.blocked || known.backend in r.backends || r.now - known.seen > o.forgetAfter
  }

  function Aged(o: Options, url: string, was: Option<Observation>, r: Round): Option<Observation> {
    if was.None? || Forgotten(o, url, was.value, r) then None
    else if r.found.None? then Some(Absent(was.value))
    else was
  }

  // An unavailable endpoint keeps the identity it had.
  function Identified(aged: Option<Observation>, obs: Observation): Observation {
    if obs.state == Unavailable && aged.Some?
    then obs.(backend := aged.value.backend, engine := aged.value.engine, model := aged.value.model,
              version := aged.value.version)
    else obs
  }

  predicate SameIdentity(a: Observation, b: Observation) {
    a.engine == b.engine && a.model == b.model && a.generation == b.generation
  }

  predicate Changed(aged: Option<Observation>, obs: Observation) {
    aged.None? || !SameIdentity(aged.value, obs) || (!aged.value.ok && obs.ok)
  }

  function Became(o: Options, url: string, was: Option<Observation>, r: Round): Option<Observation> {
    var aged := Aged(o, url, was, r);
    if r.found.None? then aged
    else
      var id := Identified(aged, r.found.value);
      if id.backend in r.backends then aged
      else Some(id.(changedAt := if Changed(aged, id) then r.stamp else aged.value.changedAt, seen := r.now))
  }

  // ---- the whole memory -----------------------------------------------------------------

  datatype Memory = Memory(previous: map<string, Observation>, cursor: nat)

  function Entry(m: map<string, Observation>, url: string): Option<Observation> {
    if url in m then Some(m[url]) else None
  }

  // The names of a set, one by one; sorting makes the listing chosen here immaterial.
  ghost function Listing(names: set<string>): seq<string> {
    if names == {} then []
    else
      var name :| name in names;
      [name] + Listing(names - {name})
  }

  lemma {:induction false} ListingLists(names: set<string>)
    ensures Elements(Listing(names)) == names && DistinctBy(Self, Listing(names))
  {
    if names == {} {
    } else {
      var list := Listing(names);
      var name := list[0];
      ListingLists(names - {name});
      assert list[1..] == Listing(names - {name});
      forall x ensures x in list <==> x in names {
        assert x in list <==> x == name || x in list[1..];
        assert x in list[1..] <==> x in Elements(list[1..]);
      }
      forall i, j | 0 <= i < j < |list| ensures Self(list[i]) != Self(list[j]) {
        if i == 0 {
          assert list[1..][j - 1] in Elements(list[1..]);
        } else {
          assert Self(list[1..][i - 1]) != Self(list[1..][j - 1]);
        }
      }
    }
  }

  ghost function Keys(names: set<string>): seq<string> {
    SortBy(Self, Listing(names))
  }

  // The probes that came back, of those in the window.
  function Fresh(o: Options, window: seq<string>, unique: map<string, string>, answers: map<string, Probe>)
    : map<string, Observation>
  {
    map url | url in window && url in unique && url in answers :: Observed(o, url, unique[url], answers[url])
  }

  ghost function FreshOf(o: Options, s: Memory, i: Input): map<string, Observation> {
    var unique := Unique(o, Blocked(i.pinned), i.targets);
    Fresh(o, Window(Keys(unique.Keys), s.cursor, o.maxTargets), unique, i.answers)
  }

  function RoundOf(found: map<string, Observation>, i: Input, url: string): Round {
    Round(Entry(found, url), Blocked(i.pinned), Backends(i.pinned), i.now, i.stamp)
  }

  // Every endpoint known or found, each on its own.
  function Merged(o: Options, previous: map<string, Observation>, found: map<string, Observation>, i: Input)
    : map<string, Observation>
  {
    map url | url in previous.Keys + found.Keys && Became(o, url, Entry(previous, url), RoundOf(found, i, url)).Some? ::
      Became(o, url, Entry(previous, url), RoundOf(found, i, url)).value
  }

  // The oldest-seen entries beyond the cap are gone; among equally old ones the choice is open.
  ghost predicate Evicts(merged: map<string, Observation>, kept: map<string, Observation>, cap: nat) {
    && kept.Keys <= merged.Keys && (forall url :: url in kept ==> kept[url] == merged[url])
    && |kept| == Min(|merged|, cap)
    && (forall gone, url :: gone in merged && gone !in kept && url in kept ==> merged[gone].seen <= merged[url].seen)
  }

  // One Observe.
  ghost predicate Observes(o: Options, s: Memory, i: Input, t: Memory) {
    && t.cursor == NextCursor(|Unique(o, Blocked(i.pinned), i.targets)|, s.cursor, o.maxTargets)
    && Evicts(Merged(o, s.previous, FreshOf(o, s, i), i), t.previous, 4 * o.maxTargets)
  }

  // What is remembered of an endpoint is what this round made of it.
  lemma ObservesEach(o: Options, s: Memory, i: Input, t: Memory, found: map<string, Observation>, url: string)
    requires found == FreshOf(o, s, i) && Observes(o, s, i, t) && url in t.previous
    ensures Entry(t.previous, url) == Became(o, url, Entry(s.previous, url), RoundOf(found, i, url))
  {
    KeptEach(Merged(o, s.previous, found, i), t.previous, 4 * o.maxTargets, url);
  }

  lemma KeptEach(merged: map<string, Observation>, kept: map<string, Observation>, cap: nat, url: string)
    requires Evicts(merged, kept, cap) && url in kept
    ensures Entry(kept, url) == Entry(merged, url)
  {
  }
}
