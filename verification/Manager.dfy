// internal/discovery/discovery.go: Manager, step by step, against the specification in Discovery.
module DiscoveryManager {
  import opened Arithmetic
  import opened Text
  import opened Discovery
  import opened Transitions

  const AUTO_DISCOVERY := "auto-discovery"

  lemma SameEntries(a: map<string, Observation>, b: map<string, Observation>)
    requires forall url :: Entry(a, url) == Entry(b, url)
    ensures a == b
  {
    forall url ensures (url in a <==> url in b) && (url in a ==> a[url] == b[url]) {
      assert Entry(a, url) == Entry(b, url);
    }
  }

  // Some entry was seen no later than any other.
  lemma {:induction false} OldestExists(m: map<string, Observation>, urls: set<string>)
    requires urls != {} && urls <= m.Keys
    ensures exists url :: url in urls && forall k :: k in urls ==> m[url].seen <= m[k].seen
  {
    var some :| some in urls;
    if urls - {some} == {} {
      assert urls == {some};
    } else {
      OldestExists(m, urls - {some});
      var best :| best in urls - {some} && forall k :: k in urls - {some} ==> m[best].seen <= m[k].seen;
      var url := if m[some].seen <= m[best].seen then some else best;
      assert forall k :: k in urls ==> m[url].seen <= m[k].seen;
    }
  }

  // What is returned: everything remembered, in order of backend, and a note if something went wrong.
  ghost predicate Reports(out: seq<Observation>, previous: map<string, Observation>, note: Option<Observation>) {
    SortedBy((obs: Observation) => obs.backend, out) && Holds(out, previous, note)
  }

  ghost predicate Holds(out: seq<Observation>, previous: map<string, Observation>, note: Option<Observation>) {
    && Elements(out) == previous.Values + (if note.Some? then {note.value} else {})
    && |out| == |previous| + (if note.Some? then 1 else 0)
  }

  // The most serious thing that went wrong, if any; nothing at all was found is the least.
  function Trouble(o: Options, i: Input, candidates: nat, kept: nat): Option<State> {
    if i.listFailed then Some(ScopeError)
    else if i.late then Some(Deadline)
    else if candidates > o.maxTargets then Some(CandidateLimit)
    else if kept == 0 then Some(Discovering)
    else None
  }

  function Note(state: State, stamp: int): Observation {
    Observation(AUTO_DISCOVERY, "unknown", "unknown", "", [], false, state, stamp, "", 0)
  }

  // The note takes a place of its own, unless that name is pinned.
  function NoteOf(i: Input, state: Option<State>): Option<Observation> {
    if state.Some? && AUTO_DISCOVERY !in Backends(i.pinned) then Some(Note(state.value, i.stamp)) else None
  }

  lemma SortedReports(out: seq<Observation>, previous: map<string, Observation>, note: Option<Observation>)
    requires Holds(out, previous, note)
    ensures Reports(SortBy((obs: Observation) => obs.backend, out), previous, note)
  {
    var byBackend := (obs: Observation) => obs.backend;
    SortBySorts(byBackend, out);
    SameElements(SortBy(byBackend, out), out);
    assert |multiset(SortBy(byBackend, out))| == |multiset(out)|;
  }

  method Pins(pinned: seq<Pin>) returns (blocked: set<string>, backends: set<string>)
    ensures blocked == Blocked(pinned) && backends == Backends(pinned)
  {
    blocked, backends := {}, {};
    for n := 0 to |pinned|
      invariant blocked == Blocked(pinned[..n]) && backends == Backends(pinned[..n])
    {
      assert pinned[..n + 1] == pinned[..n] + [pinned[n]];
      if pinned[n].port.Some? {
        blocked := blocked + {pinned[n].port.value};
      }
      backends := backends + {pinned[n].backend};
    }
    assert pinned[..|pinned|] == pinned;
  }

  method Candidates(o: Options, blocked: set<string>, targets: seq<Target>, ghost pinned: seq<Pin>)
    returns (unique: map<string, string>)
    requires blocked == Blocked(pinned)
    ensures unique == Unique(o, blocked, targets)
    ensures Admitted(o, pinned, targets, unique)
  {
    unique := map[];
    for n := 0 to |targets|
      invariant unique == Unique(o, blocked, targets[..n])
    {
      assert targets[..n + 1][..n] == targets[..n];
      var t := targets[n];
      if t.url.None? || o.portOf(t.url.value) in blocked || o.portOf(t.url.value) == o.excludePort {
        continue;
      }
      unique := unique[t.url.value := t.generation];
    }
    assert targets[..|targets|] == targets;
    UniqueIsAdmitted(o, pinned, targets);
  }

  // The keys of a map in whatever order the map gives them, then sorted.
  method SortedKeys(unique: map<string, string>) returns (keys: seq<string>)
    ensures keys == Keys(unique.Keys) && |keys| == |unique|
  {
    keys := [];
    var rest := unique.Keys;
    while rest != {}
      invariant rest <= unique.Keys && Elements(keys) == unique.Keys - rest
      invariant DistinctBy(Self, keys) && |keys| == |unique| - |rest|
    {
      var url :| url in rest;
      assert url !in Elements(keys);
      ElementsSnoc(keys, url);
      keys, rest := keys + [url], rest - {url};
    }
    KeysAreCanonical(keys, unique.Keys);
    keys := SortBy(Self, keys);
  }

  // Any listing of the names sorts to the same keys.
  lemma KeysAreCanonical(keys: seq<string>, names: set<string>)
    requires DistinctBy(Self, keys) && Elements(keys) == names
    ensures SortBy(Self, keys) == Keys(names) && |SortBy(Self, keys)| == |keys|
  {
    ListingLists(names);
    SortDistinct(Self, Listing(names));
    SortIsCanonical(Self, keys, Keys(names));
    SortBySorts(Self, keys);
    assert |multiset(SortBy(Self, keys))| == |multiset(keys)|;
  }

  class Manager {
    const o: Options
    var previous: map<string, Observation>
    var cursor: nat

    ghost function View(): Memory reads this {
      Memory(previous, cursor)
    }

    // The loops of Age and Merge, with the entries still to come.
    ghost predicate AgedExcept(rest: set<string>, was: map<string, Observation>, found: map<string, Observation>,
                               i: Input)
      reads this`previous
    {
      forall url :: Entry(previous, url) == AgedOrNot(url, url !in rest, was, RoundOf(found, i, url))
    }

    ghost predicate MergedExcept(rest: set<string>, was: map<string, Observation>, found: map<string, Observation>,
                                 i: Input)
      reads this`previous
    {
      forall url :: Entry(previous, url) == MergedOrNot(url, url !in rest, was, RoundOf(found, i, url))
    }

    ghost function AgedOrNot(url: string, done: bool, was: map<string, Observation>, r: Round): Option<Observation> {
      if done then Aged(o, url, Entry(was, url), r) else Entry(was, url)
    }

    ghost function MergedOrNot(url: string, done: bool, was: map<string, Observation>, r: Round): Option<Observation> {
      if done then Became(o, url, Entry(was, url), r) else Aged(o, url, Entry(was, url), r)
    }

    constructor (o: Options)
      ensures this.o == o && View() == Memory(map[], 0)
    {
      this.o, previous, cursor := o, map[], 0;
    }

    method Rotate(keys: seq<string>) returns (window: seq<string>)
      modifies this`cursor
      ensures window == Window(keys, old(cursor), o.maxTargets)
      ensures cursor == NextCursor(|keys|, old(cursor), o.maxTargets)
    {
      window := keys;
      if |keys| > 0 {
        var start := cursor % |keys|;
        var rot := keys[start..] + keys[..start];
        window := rot[..Min(|rot|, o.maxTargets)];
        cursor := (start + Min(4, |window|)) % |keys|;
      }
    }

    method Collect(window: seq<string>, unique: map<string, string>, answers: map<string, Probe>)
      returns (found: map<string, Observation>)
      requires forall url :: url in window ==> url in unique
      ensures found == Fresh(o, window, unique, answers)
    {
      found := map[];
      for n := 0 to |window|
        invariant found == Fresh(o, window[..n], unique, answers)
      {
        assert window[..n + 1] == window[..n] + [window[n]];
        if window[n] in answers {
          found := found[window[n] := Observed(o, window[n], unique[window[n]], answers[window[n]])];
        }
      }
      assert window[..|window|] == window;
    }

    // Drops what is pinned or too old, and keeps only the health of what did not answer.
    method Age(found: map<string, Observation>, blocked: set<string>, backends: set<string>, i: Input)
      requires blocked == Blocked(i.pinned) && backends == Backends(i.pinned)
      modifies this`previous
      ensures AgedExcept({}, old(previous), found, i)
    {
      ghost var was := previous;
      var rest := previous.Keys;
      while rest != {}
        invariant rest <= was.Keys
        invariant AgedExcept(rest, was, found, i)
      {
        var key :| key in rest;
        assert Entry(previous, key) == Entry(was, key);
        ghost var before := previous;
        var known := previous[key];
        if o.portOf(key) in blocked || known.backend in backends || i.now - known.seen > o.forgetAfter {
          previous := previous - {key};
        } else if key !in found {
          previous := previous[key := known.(samples := [], ok := false, state := Unavailable)];
        }
        rest := rest - {key};
        forall url ensures Entry(previous, url) == AgedOrNot(url, url !in rest, was, RoundOf(found, i, url)) {
          assert url != key ==> Entry(previous, url) == Entry(before, url);
        }
      }
    }

    method MergeOne(key: string, found: map<string, Observation>, backends: set<string>, i: Input,
                    ghost was: map<string, Observation>)
      requires backends == Backends(i.pinned) && key in found
      requires Entry(previous, key) == Aged(o, key, Entry(was, key), RoundOf(found, i, key))
      modifies this`previous
      ensures Entry(previous, key) == Became(o, key, Entry(was, key), RoundOf(found, i, key))
      ensures forall url :: url != key ==> Entry(previous, url) == Entry(old(previous), url)
    {
      var existed := key in previous;
      var obs := found[key];
      if obs.state == Unavailable && existed {
        var known := previous[key];
        obs := obs.(backend := known.backend, engine := known.engine, model := known.model, version := known.version);
      }
      if obs.backend in backends {
        return;
      }
      if !existed || obs.engine != previous[key].engine || obs.model != previous[key].model
         || obs.generation != previous[key].generation || (!previous[key].ok && obs.ok) {
        obs := obs.(changedAt := i.stamp);
      } else {
        obs := obs.(changedAt := previous[key].changedAt);
      }
      previous := previous[key := obs.(seen := i.now)];
    }

    method Merge(found: map<string, Observation>, backends: set<string>, i: Input, ghost was: map<string, Observation>)
      requires backends == Backends(i.pinned)
      requires AgedExcept({}, was, found, i)
      modifies this`previous
      ensures previous == Merged(o, was, found, i)
    {
      var rest := found.Keys;
      while rest != {}
        invariant rest <= found.Keys
        invariant MergedExcept(rest, was, found, i)
      {
        var key :| key in rest;
        ghost var before := previous;
        assert Entry(previous, key) == MergedOrNot(key, false, was, RoundOf(found, i, key));
        rest := rest - {key};
        MergeOne(key, found, backends, i, was);
        forall url ensures Entry(previous, url) == MergedOrNot(url, url !in rest, was, RoundOf(found, i, url)) {
          assert url != key ==> Entry(previous, url) == Entry(before, url);
        }
      }
      forall url ensures Entry(previous, url) == Entry(Merged(o, was, found, i), url) {
        assert Entry(previous, url) == Became(o, url, Entry(was, url), RoundOf(found, i, url));
      }
      SameEntries(previous, Merged(o, was, found, i));
    }

    // Deletes the oldest-seen entries beyond the cap.
    method Evict(cap: nat)
      modifies this`previous
      ensures Evicts(old(previous), previous, cap)
    {
      ghost var was := previous;
      while |previous| > cap
        invariant previous.Keys <= was.Keys && forall url :: url in previous ==> previous[url] == was[url]
        invariant Min(|was|, cap) <= |previous|
        invariant forall gone, url :: gone in was && gone !in previous && url in previous ==>
          was[gone].seen <= was[url].seen
        decreases |previous|
      {
        assert previous.Keys != {};
        OldestExists(previous, previous.Keys);
        var url :| url in previous && forall k :: k in previous ==> previous[url].seen <= previous[k].seen;
        assert (previous - {url}).Keys == previous.Keys - {url};
        previous := previous - {url};
      }
      CardSubset(previous.Keys, was.Keys);
    }

    method Listed() returns (out: seq<Observation>)
      ensures |out| == |previous| && Elements(out) == previous.Values
    {
      out := [];
      var rest := previous.Keys;
      while rest != {}
        invariant rest <= previous.Keys && |out| == |previous| - |rest|
        invariant Elements(out) == set url | url in previous && url !in rest :: previous[url]
      {
        var url :| url in rest;
        ElementsSnoc(out, previous[url]);
        out, rest := out + [previous[url]], rest - {url};
      }
    }

    // The later a trouble is looked for, the more serious it is.
    method Judge(i: Input, candidates: nat, kept: nat) returns (state: Option<State>)
      ensures state == Trouble(o, i, candidates, kept)
    {
      state := None;
      if kept == 0 {
        state := Some(Discovering);
      }
      if candidates > o.maxTargets {
        state := Some(CandidateLimit);
      }
      if i.late {
        state := Some(Deadline);
      }
      if i.listFailed {
        state := Some(ScopeError);
      }
    }

    method Report(i: Input, backends: set<string>, candidates: nat) returns (out: seq<Observation>)
      requires backends == Backends(i.pinned)
      ensures Reports(out, previous, NoteOf(i, Trouble(o, i, candidates, |previous|)))
    {
      out := Listed();
      var state := Judge(i, candidates, |out|);
      if state.Some? && AUTO_DISCOVERY !in backends {
        ElementsSnoc(out, Note(state.value, i.stamp));
        out := out + [Note(state.value, i.stamp)];
      }
      SortedReports(out, previous, NoteOf(i, state));
      out := SortBy((obs: Observation) => obs.backend, out);
    }

    // Which candidates there are, and which of them this collection probes.
    method Select(i: Input, blocked: set<string>) returns (unique: map<string, string>, window: seq<string>)
      requires blocked == Blocked(i.pinned)
      modifies this`cursor
      ensures unique == Unique(o, blocked, i.targets)
      ensures window == Window(Keys(unique.Keys), old(cursor), o.maxTargets)
      ensures forall url :: url in window ==> url in unique
      ensures cursor == NextCursor(|unique|, old(cursor), o.maxTargets)
    {
      unique := Candidates(o, blocked, i.targets, i.pinned);
      var keys := SortedKeys(unique);
      window := Rotate(keys);
      WindowListed(unique.Keys, old(cursor), o.maxTargets);
    }

    method Observe(i: Input) returns (out: seq<Observation>)
      modifies this
      ensures Observes(o, old(View()), i, View())
      ensures Reports(out, previous, NoteOf(i, Trouble(o, i, |Unique(o, Blocked(i.pinned), i.targets)|, |previous|)))
    {
      var blocked, backends := Pins(i.pinned);
      var unique, window := Select(i, blocked);
      var found := Collect(window, unique, i.answers);
      ghost var was := previous;
      Age(found, blocked, backends, i);
      Merge(found, backends, i, was);
      Evict(4 * o.maxTargets);
      out := Report(i, backends, |unique|);
    }
  }

  lemma WindowListed(names: set<string>, cursor: nat, maxTargets: nat)
    ensures forall url :: url in Window(Keys(names), cursor, maxTargets) ==> url in names
  {
    var keys := Keys(names);
    ListingLists(names);
    SortDistinct(Self, Listing(names));
    forall url | url in Window(keys, cursor, maxTargets) ensures url in names {
      assert url in Elements(keys);
    }
  }
}
