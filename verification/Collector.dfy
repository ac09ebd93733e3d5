// internal/collector/collector.go: the life of the arms. One scrape runs at a time, but a Collect
// that outlived its timeout finishes at any later moment; Interfere stands for that, and is called
// wherever no arm is locked.
module Collector {

  datatype Registration = Registration(backend: string, engine: string, fields: string)

  datatype Room = Keep | Wait | Free

  // An arm and its adapter, the adapter seen through the calls made on it. The preconditions of
  // those calls are the safety properties: Collect one at a time and only until Close, Close once
  // and never during a Collect.
  class Arm {
    const reg: Registration
    // Whether there is an adapter: the engine has one, and its Start succeeded.
    const adapted: bool
    var busy: bool
    var closed: bool

    var inFlight: nat
    var closes: nat

    constructor (reg: Registration, adapted: bool, closed: bool)
      ensures this.reg == reg && this.adapted == adapted && this.closed == closed && !busy
      ensures inFlight == 0 && closes == 0
    {
      this.reg, this.adapted, this.closed, busy := reg, adapted, closed, false;
      inFlight, closes := 0, 0;
    }

    method BeginCollect()
      requires adapted && inFlight == 0 && closes == 0
      modifies this`inFlight
      ensures inFlight == 1
    {
      inFlight := 1;
    }

    method EndCollect()
      requires adapted && inFlight == 1
      modifies this`inFlight
      ensures inFlight == 0
    {
      inFlight := 0;
    }

    method CloseAdapter()
      requires adapted && inFlight == 0 && closes == 0
      modifies this`closes
      ensures closes == 1
    {
      closes := 1;
    }

    // The calls in flight and the closes done are what the two flags say.
    ghost predicate Ok()
      reads this
    {
      && (busy ==> adapted)
      && inFlight == (if busy then 1 else 0)
      && closes == (if adapted && closed && !busy then 1 else 0)
    }
  }

  class Collector {
    const engines: set<string>

    var arms: map<string, Arm>
    var retired: map<string, Arm>

    // Every arm ever made, so that statements can speak of arms that no map holds any more.
    var all: set<Arm>

    constructor (engines: set<string>)
      ensures Valid() && arms == map[] && all == {}
    {
      this.engines := engines;
      arms, retired, all := map[], map[], {};
    }

    // What holds between any two locked sections.
    ghost predicate Core()
      reads this, all
    {
      && (forall a :: a in all ==> a.Ok())
      && (forall k :: k in arms ==> arms[k] in all && arms[k].reg.backend == k)
      && (forall k :: k in retired ==> retired[k] in all && retired[k].reg.backend == k && retired[k].closed)
      // A closed arm whose Collect still runs is kept until it returns.
      && (forall a :: a in all && a.closed && a.busy ==>
            a.reg.backend in retired && retired[a.reg.backend] == a)
    }

    predicate IsPlaceholder(a: Arm)
      reads a
    {
      a.closed && !a.adapted
    }

    // While a retired Collect runs, its backend has no arm but a placeholder; and an arm that is
    // not closed is the backend's current one. skip is the backend being worked on, if any.
    ghost predicate Settled(skip: set<string>)
      reads this, all
    {
      && (forall k :: k in retired && retired[k] in all && k in arms && arms[k] in all && k !in skip ==>
            retired[k].busy ==> IsPlaceholder(arms[k]))
      && (forall a :: a in all && !a.closed ==> a.reg.backend in arms && arms[a.reg.backend] == a)
      && (forall k :: k in arms && arms[k] in all && k !in skip ==> arms[k].closed ==> IsPlaceholder(arms[k]))
    }

    ghost predicate Valid()
      reads this, all
    {
      Core() && Settled({})
    }

    // ---- what Valid means ---------------------------------------------------------

    // At most one Collect in flight per backend, over live and retired arms.
    lemma OneCollectPerBackend(a: Arm, b: Arm)
      requires Core() && Settled({}) && a in all && b in all
      requires a.busy && b.busy && a.reg.backend == b.reg.backend
      ensures a == b
    {
    }

    // No adapter leaks: a started one is current, or owed a Close by its running Collect, or closed
    // exactly once.
    lemma NoAdapterLeaks(a: Arm)
      requires Valid() && a in all && a.adapted
      ensures a.closes <= 1 && a.inFlight <= 1
      ensures
        || (!a.closed && arms.Keys >= {a.reg.backend} && arms[a.reg.backend] == a && a.closes == 0)
        || (a.closed && a.busy && retired.Keys >= {a.reg.backend} && retired[a.reg.backend] == a && a.closes == 0)
        || (a.closed && !a.busy && a.closes == 1)
    {
    }

    // ---- the other goroutines ------------------------------------------------------

    // The end of a Collect, under the arm's lock: a closed arm's adapter is closed now.
    method Finish(a: Arm)
      requires Core() && a in all && a.busy
      modifies a
      ensures Core() && !a.busy && a.closed == old(a.closed)
    {
      a.EndCollect();
      if a.closed {
        a.CloseAdapter();
      }
      a.busy := false;
    }

    // Any of the Collects in flight may end here.
    method Interfere()
      requires Core()
      modifies all
      ensures Core()
      ensures forall a :: a in all ==> a.closed == old(a.closed) && (a.busy ==> old(a.busy))
      ensures forall skip :: old(Settled(skip)) ==> Settled(skip)
    {
      var todo := set a | a in all && a.busy;
      while todo != {}
        invariant Core() && todo <= all
        invariant forall a :: a in todo ==> a.busy
        invariant forall a :: a in all ==> a.closed == old(a.closed) && (a.busy ==> old(a.busy))
        decreases |todo|
      {
        var a :| a in todo;
        todo := todo - {a};
        if * {
          Finish(a);
        }
      }
    }

    // ---- the scraping goroutine -----------------------------------------------------

    // closeArm: the adapter is closed now, or by the Collect that still runs.
    method CloseArm(a: Arm)
      requires Core() && a in all
      requires a.busy && !a.closed ==> a.reg.backend !in retired || !retired[a.reg.backend].busy
      modifies this`retired, a
      ensures Core() && a.closed && a.busy == old(a.busy)
      ensures old(a.closed) ==> retired == old(retired) && a.closes == old(a.closes)
      ensures !old(a.closed) && a.busy ==> retired == old(retired)[a.reg.backend := a]
      ensures !old(a.closed) && !a.busy ==> retired == old(retired) && (a.adapted ==> a.closes == 1)
    {
      if a.closed {
        return;
      }
      a.closed := true;
      if a.busy {
        retired := retired[a.reg.backend := a];
        return;
      }
      if a.adapted {
        a.CloseAdapter();
      }
    }

    // An arm that may take its backend's place: of the other arms of the backend none is open, and
    // none is busy unless this one only keeps the place.
    ghost predicate Ready(a: Arm)
      reads this, all
    {
      && a in all && !a.busy && (a.closed ==> IsPlaceholder(a))
      && (forall b :: b in all && b != a && b.reg.backend == a.reg.backend ==> b.closed && (b.busy ==> a.closed))
      && (forall b :: b in all && b != a && !b.closed ==> b.reg.backend in arms && arms[b.reg.backend] == b)
      && (forall k :: k in retired && k in arms && arms[k] in all && retired[k] in all && k != a.reg.backend ==>
            retired[k].busy ==> IsPlaceholder(arms[k]))
      && (forall k :: k in arms && arms[k] in all && k != a.reg.backend ==> arms[k].closed ==> IsPlaceholder(arms[k]))
    }

    method Place(a: Arm)
      requires Core() && Ready(a)
      modifies this`arms
      ensures Valid() && arms == old(arms)[a.reg.backend := a]
    {
      arms := arms[a.reg.backend := a];
    }

    // A new arm, started; starts is whether the adapter's Start succeeds. Nobody may still be
    // collecting for its backend.
    method StartArm(r: Registration, starts: bool) returns (a: Arm)
      requires Core() && Settled({r.backend})
      requires forall b :: b in all && b.reg.backend == r.backend ==> b.closed && !b.busy
      modifies this`all
      ensures Core() && Ready(a) && fresh(a) && all == old(all) + {a}
      ensures a.reg == r && !a.closed && (a.adapted <==> r.engine in engines && starts)
    {
      var started := false;
      if r.engine in engines {
        started := starts;
      }
      a := new Arm(r, started, false);
      all := all + {a};
    }

    // An arm that only keeps the registration's place until the retired Collect returns.
    method PutPlaceholder(r: Registration)
      requires Core() && Settled({r.backend})
      requires forall a :: a in all && a.reg.backend == r.backend ==> a.closed
      modifies this`all, this`arms
      ensures Valid() && fresh(all - old(all)) && old(all) <= all
      ensures forall a :: a in all - old(all) ==> !a.busy
      ensures r.backend in arms && arms == old(arms)[r.backend := arms[r.backend]]
      ensures arms[r.backend].reg == r && IsPlaceholder(arms[r.backend]) && fresh(arms[r.backend])
    {
      var a := new Arm(r, false, true);
      all := all + {a};
      Place(a);
    }

    // Reading busy under the arm's lock, with other goroutines running before and after.
    method IsBusy(a: Arm) returns (busy: bool)
      requires Core() && a in all
      modifies all
      ensures Core() && forall skip :: old(Settled(skip)) ==> Settled(skip)
      ensures forall b :: b in all ==> b.closed == old(b.closed) && (b.busy ==> old(b.busy))
      ensures (busy ==> old(a.busy)) && (!busy ==> !a.busy)
    {
      Interfere();
      busy := a.busy;
      Interfere();
    }

    // The backends with a Collect in flight.
    ghost function Busy(): set<string>
      reads this, all
    {
      set a | a in all && a.busy :: a.reg.backend
    }

    // sync's look at a retired arm: forgotten once its Collect has returned.
    method ReleaseRetired(b: string) returns (busy: bool)
      requires Valid() && b in retired
      modifies this`retired, all
      ensures Valid()
      ensures forall a :: a in all ==> a.closed == old(a.closed) && (a.busy ==> old(a.busy))
      ensures busy ==> retired == old(retired) && b in old(Busy()) && (b in arms ==> IsPlaceholder(arms[b]))
      ensures !busy ==> retired == old(retired) - {b}
    {
      var late := retired[b];
      assert late.reg.backend == b;
      busy := IsBusy(late);
      if !busy {
        retired := retired - {b};
      }
    }

    // The closing of an arm that is no longer wanted, while it is still in the map.
    method CloseCurrent(b: string)
      requires Valid() && b in arms
      modifies this`retired, all
      ensures Core() && Settled({b})
      ensures forall a :: a in all ==> (a.busy ==> old(a.busy)) && (old(a.closed) ==> a.closed)
      ensures forall a :: a in all && a.reg.backend != b ==> a.closed == old(a.closed)
      ensures forall a :: a in all && a.reg.backend == b ==> a.closed
      ensures forall a :: a in all && a.reg.backend == b && a.busy ==> b in retired && retired[b] == a
    {
      CloseArm(arms[b]);
    }

    // sync's replacement of an arm: whether its Collect still runs.
    method RetireCurrent(b: string) returns (busy: bool)
      requires Valid() && b in arms && b !in retired
      modifies this`retired, all
      ensures Core() && Settled({b})
      ensures forall a :: a in all ==> (a.busy ==> old(a.busy)) && (old(a.closed) ==> a.closed)
      ensures forall a :: a in all && a.reg.backend != b ==> a.closed == old(a.closed)
      ensures forall a :: a in all && a.reg.backend == b ==> a.closed
      ensures busy ==> b in old(Busy())
      ensures !busy ==> forall a :: a in all && a.reg.backend == b ==> !a.busy
    {
      var current := arms[b];
      CloseCurrent(b);
      busy := IsBusy(current);
    }

    // A started arm takes the place of whatever closed arm its backend had.
    method Install(r: Registration, starts: bool)
      requires Core() && Settled({r.backend})
      requires forall a :: a in all && a.reg.backend == r.backend ==> a.closed && !a.busy
      modifies this`all, this`arms
      ensures Valid() && fresh(all - old(all)) && old(all) <= all
      ensures forall a :: a in all - old(all) ==> !a.busy
      ensures r.backend in arms && arms == old(arms)[r.backend := arms[r.backend]]
      ensures arms[r.backend].reg == r && !arms[r.backend].closed && fresh(arms[r.backend])
      ensures arms[r.backend].adapted <==> r.engine in engines && starts
    {
      var a := StartArm(r, starts);
      Place(a);
    }

    // Makes room for a registration, unless its arm is current already: Wait while a Collect of
    // the backend still runs, Free when none does.
    method Vacate(r: Registration) returns (room: Room)
      requires Valid()
      modifies this`retired, all
      ensures Core() && Settled({r.backend})
      ensures room == Keep <==> r.backend in arms && old(arms[r.backend].reg == r && !arms[r.backend].closed)
      ensures room == Keep ==> Valid() && !arms[r.backend].closed
      ensures room != Keep ==> forall a :: a in all && a.reg.backend == r.backend ==> a.closed
      ensures room == Wait ==> r.backend in old(Busy())
      ensures room == Free ==> forall a :: a in all && a.reg.backend == r.backend ==> !a.busy
      ensures forall a :: a in all && a.reg.backend != r.backend ==> a.closed == old(a.closed)
      ensures forall a :: a in all ==> (a.busy ==> old(a.busy)) && (old(a.closed) ==> a.closed)
    {
      var b := r.backend;
      if b in retired {
        var busy := ReleaseRetired(b);
        if busy {
          return Wait;
        }
      }
      if b !in arms {
        return Free;
      }
      Interfere();
      if arms[b].reg == r && !arms[b].closed {
        return Keep;
      }
      var busy := RetireCurrent(b);
      return if busy then Wait else Free;
    }

    // The body of sync's loop, for one registration.
    method SyncOne(r: Registration, starts: bool)
      requires Valid()
      modifies this`arms, this`retired, this`all, all
      ensures Valid() && old(all) <= all && fresh(all - old(all))
      ensures forall a :: a in all - old(all) ==> !a.busy
      // The backend ends up with an arm for this very registration, the same one if it was current ...
      ensures r.backend in arms && arms == old(arms)[r.backend := arms[r.backend]] && arms[r.backend].reg == r
      ensures old(r.backend in arms && arms[r.backend].reg == r && !arms[r.backend].closed) ==>
        arms[r.backend] == old(arms)[r.backend]
      ensures !fresh(arms[r.backend]) ==> r.backend in old(arms) && arms[r.backend] == old(arms)[r.backend]
      // ... a new one with an adapter if the engine has one that starts ...
      ensures fresh(arms[r.backend]) && !arms[r.backend].closed ==>
        (arms[r.backend].adapted <==> r.engine in engines && starts)
      // ... and one without an adapter to start only while an old Collect has not returned.
      ensures arms[r.backend].closed ==> r.backend in old(Busy())
      // Other backends are left alone.
      ensures forall a :: a in old(all) && a.reg.backend != r.backend ==> a.closed == old(a.closed)
      ensures forall a :: a in old(all) ==> (a.busy ==> old(a.busy)) && (old(a.closed) ==> a.closed)
      ensures Busy() <= old(Busy())
    {
      var room := Vacate(r);
      match room
      case Keep =>
        assert arms == arms[r.backend := arms[r.backend]];
      case Wait =>
        PutPlaceholder(r);
      case Free =>
        Install(r, starts);
    }

    // sync's first loop: retired arms whose Collect has returned are forgotten.
    method ReleaseAll()
      requires Valid()
      modifies this`retired, all
      ensures Valid()
      ensures forall a :: a in all ==> a.closed == old(a.closed) && (a.busy ==> old(a.busy))
      ensures retired.Keys <= old(retired.Keys) && Busy() <= old(Busy())
    {
      var keys := retired.Keys;
      while keys != {}
        invariant Valid() && keys <= retired.Keys <= old(retired.Keys)
        invariant forall a :: a in all ==> a.closed == old(a.closed) && (a.busy ==> old(a.busy))
        decreases |keys|
      {
        var k :| k in keys;
        keys := keys - {k};
        var busy := ReleaseRetired(k);
      }
    }

    // Drops a closed arm from the map.
    method Forget(k: string)
      requires Core() && Settled({k}) && forall a :: a in all && a.reg.backend == k ==> a.closed
      modifies this`arms
      ensures Valid() && arms == old(arms) - {k}
    {
      arms := arms - {k};
    }

    method DropOne(k: string)
      requires Valid() && k in arms
      modifies this`arms, this`retired, all
      ensures Valid() && arms == old(arms) - {k}
      ensures forall a :: a in all && a.reg.backend != k ==> a.closed == old(a.closed)
      ensures forall a :: a in all ==> (a.busy ==> old(a.busy))
      ensures Busy() <= old(Busy())
    {
      Interfere();
      CloseCurrent(k);
      Forget(k);
    }

    // sync's last loop: arms whose registration is gone are closed and dropped.
    method DropGone(seen: set<string>)
      requires Valid()
      modifies this`arms, this`retired, all
      ensures Valid() && arms.Keys <= seen
      ensures forall k :: k in seen ==> (k in arms <==> k in old(arms)) && (k in arms ==> arms[k] == old(arms)[k])
      ensures forall a :: a in all && a.reg.backend in seen ==> a.closed == old(a.closed)
      ensures Busy() <= old(Busy())
    {
      var keys := arms.Keys - seen;
      while keys != {}
        invariant Valid() && keys <= arms.Keys <= seen + keys && keys !! seen
        invariant forall k :: k in seen ==> (k in arms <==> k in old(arms)) && (k in arms ==> arms[k] == old(arms)[k])
        invariant forall a :: a in all && a.reg.backend in seen ==> a.closed == old(a.closed)
        invariant Busy() <= old(Busy())
        decreases |keys|
      {
        var k :| k in keys;
        keys := keys - {k};
        DropOne(k);
      }
    }

    // collectArm, first locked section: whether a Collect starts.
    method CollectArm(a: Arm) returns (started: bool)
      requires Valid() && a in all
      modifies a
      ensures Valid()
      ensures started <==> !old(a.busy) && !old(a.closed) && a.adapted
      ensures a.busy == (old(a.busy) || started) && a.closed == old(a.closed)
    {
      if a.busy || a.closed {
        return false;
      }
      if !a.adapted {
        return false;
      }
      a.busy := true;
      a.BeginCollect();
      return true;
    }

    // Close: every arm is closed, now or when its Collect returns.
    method Close()
      requires Valid()
      modifies this`arms, this`retired, all
      ensures Valid() && arms == map[]
      ensures forall a :: a in all ==> a.closed
    {
      DropGone({});
    }

    ghost predicate Matches(target: map<string, Registration>)
      reads this`arms
    {
      forall k :: k in target ==> k in arms && arms[k].reg == target[k]
    }

    // An arm in the map that was there before is the backend's own; a new open one has an adapter
    // exactly if its engine has one that starts.
    ghost predicate Came(was: map<string, Arm>, before: set<Arm>, startable: set<Registration>)
      reads this, arms.Values
    {
      forall k :: k in arms ==>
        && (arms[k] in before ==> k in was && was[k] == arms[k])
        && (arms[k] !in before && !arms[k].closed ==>
              (arms[k].adapted <==> arms[k].reg.engine in engines && arms[k].reg in startable))
    }

    // The backends are served at once, but for those of which an old Collect was running.
    ghost predicate Open(backends: set<string>, busy: set<string>)
      reads this, arms.Values
    {
      forall k :: k in backends && k in arms && k !in busy ==> !arms[k].closed
    }

    // sync's middle loop.
    method SyncAll(valid: seq<Registration>, startable: set<Registration>)
      requires Valid()
      modifies this`arms, this`retired, this`all, all
      ensures Valid() && Matches(Target(valid)) && old(all) <= all && fresh(all - old(all))
      ensures Came(old(arms), old(all), startable) && Open(Target(valid).Keys, old(Busy()))
      ensures Busy() <= old(Busy())
    {
      for i := 0 to |valid|
        invariant Valid() && old(all) <= all && fresh(all - old(all))
        invariant Matches(Target(valid[..i]))
        invariant Came(old(arms), old(all), startable) && Open(Target(valid[..i]).Keys, old(Busy()))
        invariant Busy() <= old(Busy())
      {
        assert valid[..i + 1][..i] == valid[..i];
        SyncOne(valid[i], valid[i] in startable);
      }
      assert valid[..|valid|] == valid;
    }

    // sync: afterwards the arms are those of the registrations, one for each backend, and every
    // arm that is not closed is one of them. startable is of which an adapter's Start succeeds.
    method Sync(valid: seq<Registration>, startable: set<Registration>)
      requires Valid()
      modifies this`arms, this`retired, this`all, all
      ensures Valid() && old(all) <= all && fresh(all - old(all))
      ensures arms.Keys == Target(valid).Keys && Matches(Target(valid))
      ensures forall a :: a in all && !a.closed ==>
        a.reg.backend in Target(valid) && a.reg == Target(valid)[a.reg.backend]
      ensures Came(old(arms), old(all), startable) && Open(arms.Keys, old(Busy()))
      ensures Busy() <= old(Busy())
    {
      ReleaseAll();
      SyncAll(valid, startable);
      DropGone(Target(valid).Keys);
    }

    method CollectOne(k: string) returns (started: bool)
      requires Valid() && k in arms
      modifies all
      ensures Valid()
      ensures started <==> !old(arms[k].busy) && !arms[k].closed && arms[k].adapted
      ensures forall a :: a in all ==> a.closed == old(a.closed)
      ensures Busy() <= old(Busy()) + {k}
    {
      started := CollectArm(arms[k]);
      Interfere();
    }

    // One attempt on every arm, while earlier Collects may end at any time.
    method CollectAll(ghost idle: set<string>) returns (started: set<string>)
      requires Valid() && Busy() !! idle && forall k :: k in arms && k in idle ==> !arms[k].closed
      modifies all
      ensures Valid()
      ensures started <= arms.Keys && forall k :: k in started ==> arms[k].adapted && !arms[k].closed
      ensures forall k :: k in arms && k in idle ==> (k in started <==> arms[k].adapted)
      ensures forall a :: a in all ==> a.closed == old(a.closed)
    {
      started := {};
      var keys := arms.Keys;
      while keys != {}
        invariant Valid() && keys <= arms.Keys && Busy() !! (keys * idle)
        invariant forall a :: a in all ==> a.closed == old(a.closed)
        invariant started <= arms.Keys - keys && forall k :: k in started ==> arms[k].adapted && !arms[k].closed
        invariant forall k :: k in arms && k !in keys && k in idle ==> (k in started <==> arms[k].adapted)
        decreases |keys|
      {
        var k :| k in keys;
        keys := keys - {k};
        var starts := CollectOne(k);
        if starts {
          started := started + {k};
        }
      }
    }

    // Collect: sync, then the attempts. A backend of which no Collect was running when the scrape began
    // is collected in it exactly if its arm has an adapter.
    method Collect(valid: seq<Registration>, startable: set<Registration>) returns (started: set<string>)
      requires Valid()
      modifies this`arms, this`retired, this`all, all
      ensures Valid()
      ensures arms.Keys == Target(valid).Keys && Matches(Target(valid))
      ensures Came(old(arms), old(all), startable) && Open(arms.Keys, old(Busy()))
      ensures started <= arms.Keys && forall k :: k in started ==> arms[k].adapted && !arms[k].closed
      ensures forall k :: k in arms && k !in old(Busy()) ==> (k in started <==> arms[k].adapted)
    {
      Sync(valid, startable);
      started := CollectAll(arms.Keys - old(Busy()));
    }
  }

  predicate IsLast(valid: seq<Registration>, i: int, k: string) {
    && 0 <= i < |valid| && valid[i].backend == k
    && forall j :: i < j < |valid| ==> valid[j].backend != k
  }

  // No backend has an arm without a registration, and each registered one has one.
  lemma {:induction false} TargetNames(valid: seq<Registration>, k: string)
    ensures k in Target(valid) <==> exists i :: 0 <= i < |valid| && valid[i].backend == k
  {
    if valid == [] {
    } else {
      var init := valid[..|valid| - 1];
      TargetNames(init, k);
      assert valid[|init|].backend == k ==> k in Target(valid);
      if i :| 0 <= i < |init| && init[i].backend == k {
        assert valid[i].backend == k;
      }
    }
  }

  // Of several registrations of a backend the last counts.
  lemma {:induction false} TargetIsLast(valid: seq<Registration>, i: nat, k: string)
    requires IsLast(valid, i, k)
    ensures k in Target(valid) && Target(valid)[k] == valid[i]
  {
    var init := valid[..|valid| - 1];
    if i < |init| {
      assert valid[|init|].backend != k && IsLast(init, i, k);
      TargetIsLast(init, i, k);
    }
  }

  // The registration of each backend, the last one if there are several.
  function Target(valid: seq<Registration>): map<string, Registration> {
    if valid == [] then map[]
    else Target(valid[..|valid| - 1])[valid[|valid| - 1].backend := valid[|valid| - 1]]
  }
}
