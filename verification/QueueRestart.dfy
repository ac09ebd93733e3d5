// restore on any directory the sender can leave behind.
module QueueRestart {
  import opened Text
  import opened SeriesKey
  import opened Stale
  import opened Queue
  import opened QueueNames
  import opened QueueInvariant

  // The batch a restart learns its timestamp and snapshot from.
  function Recalled(queue: seq<Batch>, saved: Option<Batch>): Option<Batch> {
    if queue == [] then saved else Some(queue[|queue| - 1])
  }

  function AfterRestart(queue: seq<Batch>, saved: Option<Batch>): Memory {
    Memory(Names(queue), TotalSize(queue), |queue|, 0,
           SnapshotOf(Recalled(queue, saved)), TimestampOfBatch(Recalled(queue, saved)))
  }

  ghost predicate Restorable(o: Options, dir: Directory, queue: seq<Batch>, saved: Option<Batch>) {
    && AllOk(queue) && Known(saved) && Increasing(queue) && TotalSize(queue) <= o.maxBytes
    && Stored(o, dir, queue, saved)
    && TimestampOfBatch(saved) <= TimestampOfBatch(Recalled(queue, saved))
  }

  lemma ReservedNames()
    ensures !IsPending("state") && !IsPending("destination")
    ensures !IsQueueName("state") && !IsQueueName("destination")
  {
    assert "destination"[..9][0] != ".pending-"[0];
    assert "state"[2..] == "ate";
    assert "destination"[8..] == "ion";
  }

  lemma BindKeeps(o: Options, dir: Directory, queue: seq<Batch>, saved: Option<Batch>)
    requires Restorable(o, dir, queue, saved)
    ensures Bind(dir, o.want).Ok? && Restorable(o, Bind(dir, o.want).value, queue, saved)
  {
    ReservedNames();
    HoldsElsewhere(dir, Bind(dir, o.want).value, queue);
  }

  lemma QueueFilesAreScannable(dir: Directory, entries: seq<string>, queue: seq<Batch>)
    requires Holds(dir, queue) && AllOk(queue) && forall name :: name in entries ==> name in dir
    ensures Scannable(dir, entries)
  {
    forall name | name in entries && IsQueueName(name) ensures
      && name in dir && dir[name].regular && dir[name].size <= MAX_BATCH
      && ParseInt64(TrimSuffix(name, ".rw")).Some?
    {
      assert name in Names(queue);
      var i :| 0 <= i < |queue| && Names(queue)[i] == name;
      assert BatchOk(queue[i]);
      NameReadsBack(queue[i].timestamp);
    }
  }

  lemma SweepKeeps(o: Options, bound: Directory, swept: Directory, queue: seq<Batch>, saved: Option<Batch>)
    requires Restorable(o, bound, queue, saved) && SameButPending(swept, bound)
    ensures Restorable(o, swept, queue, saved)
  {
    ReservedNames();
    HoldsElsewhere(bound, swept, queue);
  }

  lemma LoadOne(m: Memory, dir: Directory, name: string, b: Batch)
    requires BatchOk(b) && name in dir && dir[name] == b.file && m.timestamp <= b.timestamp
    ensures LoadAll(m, dir, [name]) == Ok(m.(timestamp := b.timestamp, previous := b.current))
  {
    BatchLoads(m, b);
    assert [name][1..] == [];
  }

  // The candidates are read state first, so the newest queue file has the last word.
  lemma CandidatesRecall(o: Options, dir: Directory, queue: seq<Batch>, saved: Option<Batch>, m: Memory)
    requires Restorable(o, dir, queue, saved) && m.timestamp == 0 && m.previous == []
    ensures LoadAll(m, dir, Candidates(Names(queue)))
         == Ok(m.(timestamp := TimestampOfBatch(Recalled(queue, saved)),
                  previous := SnapshotOf(Recalled(queue, saved))))
  {
    var candidates := Candidates(Names(queue));
    var rest := if queue == [] then [] else [Name(queue[|queue| - 1].timestamp)];
    assert candidates[1..] == rest;
    var m1 := m.(timestamp := TimestampOfBatch(saved), previous := SnapshotOf(saved));
    if saved.Some? {
      BatchLoads(m, saved.value);
    }
    assert LoadAll(m, dir, candidates) == LoadAll(m1, dir, rest);
    if queue != [] {
      var last := queue[|queue| - 1];
      assert BatchOk(last);
      LoadOne(m1, dir, Name(last.timestamp), last);
    }
  }

  lemma ScanRebuilds(o: Options, bound: Directory, queue: seq<Batch>, saved: Option<Batch>, entries: seq<string>)
    requires Restorable(o, bound, queue, saved) && DistinctBy(Self, entries) && Elements(entries) == bound.Keys
    ensures ScanAll(Scan(bound, [], 0), entries).Ok?
    ensures var found := ScanAll(Scan(bound, [], 0), entries).value;
      && SortBy(Self, found.files) == Names(queue) && found.bytes == TotalSize(queue)
      && Restorable(o, found.dir, queue, saved) && forall name :: name in found.dir ==> !IsPending(name)
  {
    assert forall name :: name in entries <==> name in bound by {
      forall name ensures name in entries <==> name in bound {
        assert name in Elements(entries) <==> name in bound.Keys;
      }
    }
    QueueFilesAreScannable(bound, entries, queue);
    ScanFinds(Scan(bound, [], 0), entries);
    ScanSweeps(Scan(bound, [], 0), entries);
    ScanRebuildsQueue(bound, entries, queue);
    assert [] + QueueEntries(entries) == QueueEntries(entries);
    SweepKeeps(o, bound, ScanAll(Scan(bound, [], 0), entries).value.dir, queue, saved);
  }

  // From any such directory restore succeeds, and it rebuilds the queue exactly.
  lemma RestoreRebuilds(o: Options, dir: Directory, queue: seq<Batch>, saved: Option<Batch>, entries: seq<string>)
    requires Restorable(o, dir, queue, saved) && Lists(entries, dir, o.want)
    ensures Restore(dir, entries, o).Ok?
    ensures var (dir', m) := Restore(dir, entries, o).value;
      && m == AfterRestart(queue, saved) && Restorable(o, dir', queue, saved)
      && forall name :: name in dir' ==> !IsPending(name)
  {
    BindKeeps(o, dir, queue, saved);
    var bound := Bind(dir, o.want).value;
    ScanRebuilds(o, bound, queue, saved, entries);
    var found := ScanAll(Scan(bound, [], 0), entries).value;
    CandidatesRecall(o, found.dir, queue, saved, Memory(Names(queue), found.bytes, |queue|, 0, [], 0));
  }

  lemma InvIsRestorable(o: Options, s: System)
    requires Inv(o, s)
    ensures Restorable(o, s.dir, s.history.queue, s.history.saved)
  {
  }

  // What the directory of a stopped sender restores to.
  lemma RestoreOfInv(o: Options, s: System, entries: seq<string>)
    requires Inv(o, s) && Lists(entries, s.dir, o.want)
    ensures Restore(s.dir, entries, o).Ok?
    ensures var h := s.history; var (dir, m) := Restore(s.dir, entries, o).value;
      && m == AfterRestart(h.queue, h.saved) && Restorable(o, dir, h.queue, h.saved)
  {
    InvIsRestorable(o, s);
    RestoreRebuilds(o, s.dir, s.history.queue, s.history.saved, entries);
  }

  function RestartedHistory(h: History): History {
    h.(known := if h.queue == [] then h.saved else h.newest,
       breaks := if h.queue == [] && h.lagging then h.breaks + {|h.accepted|} else h.breaks,
       restarts := |h.fates|, refused := 0)
  }

  function Restarted(h: History, dir: Directory): System {
    System(dir, Up(AfterRestart(h.queue, h.saved), Idle, Resting), RestartedHistory(h))
  }

  lemma RestartRecalls(o: Options, s: System, entries: seq<string>)
    requires Inv(o, s) && s.process.Down? && Lists(entries, s.dir, o.want)
    ensures Restore(s.dir, entries, o).Ok?
    ensures ApplyRestart(o, s, entries) == Restarted(s.history, Restore(s.dir, entries, o).value.0)
  {
    RestoreOfInv(o, s, entries);
  }

  lemma HistoryRestarts(o: Options, h: History)
    requires Sound(o, h) && Chained(h.accepted, h.breaks)
    ensures var h' := RestartedHistory(h);
      && Sound(o, h') && Remembers(h') && Chained(h'.accepted, h'.breaks)
      && h'.known == Recalled(h'.queue, h'.saved)
  {
  }

  lemma RestartedIsLive(queue: seq<Batch>, saved: Option<Batch>)
    ensures Live(AfterRestart(queue, saved), queue, Recalled(queue, saved))
  {
  }

  lemma RestartedKeeps(o: Options, s: System, dir: Directory)
    requires Inv(o, s) && s.process.Down? && Stored(o, dir, s.history.queue, s.history.saved)
    ensures Inv(o, Restarted(s.history, dir))
  {
    HistoryRestarts(o, s.history);
    RestartedIsLive(s.history.queue, s.history.saved);
    assert s.history.fates[|s.history.fates|..] == [];
  }

  lemma RestartKeeps(o: Options, s: System, entries: seq<string>)
    requires Inv(o, s) && s.process.Down? && Lists(entries, s.dir, o.want)
    ensures Inv(o, ApplyRestart(o, s, entries)) && ApplyRestart(o, s, entries).process.Up?
  {
    RestoreOfInv(o, s, entries);
    RestartRecalls(o, s, entries);
    RestartedKeeps(o, s, Restore(s.dir, entries, o).value.0);
  }

  lemma DirectoryKeeps(o: Options, s: System, dir: Directory)
    requires Inv(o, s) && s.process.Down? && Stored(o, dir, s.history.queue, s.history.saved)
    ensures Inv(o, s.(dir := dir))
  {
  }

  // A restore cut short anywhere loses nothing.
  lemma FalterKeeps(o: Options, s: System, bound: bool, swept: set<string>, litter: Directory)
    requires Inv(o, s) && s.process.Down? && forall name :: name in swept || name in litter ==> IsPending(name)
    ensures Inv(o, s.(dir := Faltered(s.dir, o.want, bound, swept, litter)))
  {
    var h := s.history;
    InvIsRestorable(o, s);
    BindKeeps(o, s.dir, h.queue, h.saved);
    var from := if bound then Bind(s.dir, o.want).value else s.dir;
    SweepKeeps(o, from, Faltered(s.dir, o.want, bound, swept, litter), h.queue, h.saved);
    DirectoryKeeps(o, s, Faltered(s.dir, o.want, bound, swept, litter));
  }

  lemma ChooseKeeps(o: Options, s: System, now: int)
    requires Inv(o, s) && s.process.Up?
    ensures Inv(o, ApplyChoose(s, now))
  {
  }

  lemma PickKeeps(o: Options, s: System)
    requires Inv(o, s) && s.process.Up? && s.process.memory.files != []
    ensures Inv(o, s.(process := s.process.(deliverer := Picked(s.process.memory.files[0]))))
  {
    DelivererKeeps(o, s, Picked(s.process.memory.files[0]));
  }

  lemma ChoosingKeeps(o: Options, s: System, now: int)
    requires Inv(o, s)
    ensures Inv(o, Apply(o, s, Choose(now)))
  {
    if s.process.Up? {
      ChooseKeeps(o, s, now);
    }
  }

  lemma EnqueueingKeeps(o: Options, s: System, points: seq<Point>, rawLen: nat, bodyLen: nat, written: bool)
    requires Inv(o, s)
    ensures Inv(o, Apply(o, s, Event.Enqueue(points, rawLen, bodyLen, written)))
  {
    if s.process.Up? && s.process.collector.Chosen? && NoStaleBits(points) {
      EnqueueKeeps(o, s, points, rawLen, bodyLen, written);
    }
  }

  lemma CheckpointingKeeps(o: Options, s: System, written: bool)
    requires Inv(o, s)
    ensures Inv(o, Apply(o, s, Checkpoint(written)))
  {
    if s.process.Up? && s.process.collector.Writing? {
      CheckpointKeeps(o, s, written);
    }
  }

  lemma PickingKeeps(o: Options, s: System)
    requires Inv(o, s)
    ensures Inv(o, Apply(o, s, Pick))
  {
    if s.process.Up? && s.process.memory.files != [] {
      PickKeeps(o, s);
    }
  }

  lemma AttemptingKeeps(o: Options, s: System, now: int, answer: Answer)
    requires Inv(o, s)
    ensures Inv(o, Apply(o, s, Attempt(now, answer)))
  {
    if s.process.Up? && s.process.deliverer.Picked? {
      AttemptKeeps(o, s, now, answer);
    }
  }

  lemma RemovingKeeps(o: Options, s: System, removed: bool)
    requires Inv(o, s)
    ensures Inv(o, Apply(o, s, Remove(removed)))
  {
    if s.process.Up? && s.process.deliverer.Settled? && !s.process.collector.Writing? {
      RemoveKeeps(o, s, removed);
    }
  }

  lemma CrashingKeeps(o: Options, s: System, litter: Directory)
    requires Inv(o, s)
    ensures Inv(o, Apply(o, s, Crash(litter)))
  {
    if s.process.Up? && forall name :: name in litter ==> IsPending(name) {
      CrashKeeps(o, s, litter);
    }
  }

  lemma FalteringKeeps(o: Options, s: System, bound: bool, swept: set<string>, litter: Directory)
    requires Inv(o, s)
    ensures Inv(o, Apply(o, s, Falter(bound, swept, litter)))
  {
    if s.process.Down? && forall name :: name in swept || name in litter ==> IsPending(name) {
      FalterKeeps(o, s, bound, swept, litter);
    }
  }

  lemma RestartingKeeps(o: Options, s: System, entries: seq<string>)
    requires Inv(o, s)
    ensures Inv(o, Apply(o, s, Restart(entries)))
  {
    if s.process.Down? && Lists(entries, s.dir, o.want) {
      RestartKeeps(o, s, entries);
    }
  }

  lemma ApplyKeeps(o: Options, s: System, e: Event)
    requires Inv(o, s)
    ensures Inv(o, Apply(o, s, e))
  {
    match e
    case Choose(now) => ChoosingKeeps(o, s, now);
    case Enqueue(points, rawLen, bodyLen, written) => EnqueueingKeeps(o, s, points, rawLen, bodyLen, written);
    case Checkpoint(written) => CheckpointingKeeps(o, s, written);
    case Pick => PickingKeeps(o, s);
    case Attempt(now, answer) => AttemptingKeeps(o, s, now, answer);
    case Remove(removed) => RemovingKeeps(o, s, removed);
    case Crash(litter) => CrashingKeeps(o, s, litter);
    case Falter(bound, swept, litter) => FalteringKeeps(o, s, bound, swept, litter);
    case Restart(entries) => RestartingKeeps(o, s, entries);
  }

  // Every interleaving of collecting, delivering, failed writes, crashes and restarts.
  lemma {:induction false} RunKeeps(o: Options, events: seq<Event>)
    ensures Inv(o, Run(o, events))
  {
    if events == [] {
    } else {
      RunKeeps(o, events[..|events| - 1]);
      ApplyKeeps(o, Run(o, events[..|events| - 1]), events[|events| - 1]);
    }
  }
}
