// What holds of every run of the sender: any clock, any answers, any failed writes, any crashes.
module QueueTheorems {
  import opened Text
  import opened SeriesKey
  import opened Stale
  import opened Queue
  import opened QueueNames
  import opened QueueInvariant
  import opened QueueRestart

  // The parts of the invariant that speak of the accepted batches alone.
  lemma RunChains(o: Options, events: seq<Event>)
    ensures var h := Run(o, events).history; AllOk(h.accepted) && Chained(h.accepted, h.breaks)
  {
    RunKeeps(o, events);
  }

  lemma MemoryIsNewest(o: Options, events: seq<Event>)
    ensures var s := Run(o, events); var accepted := s.history.accepted;
      s.process.Up? && |accepted| !in s.history.breaks ==>
        s.process.memory.previous == if accepted == [] then [] else accepted[|accepted| - 1].current
  {
    RunKeeps(o, events);
  }

  // ---- the queue is the accepted batches that have not left -----------------

  lemma QueueIsExact(o: Options, events: seq<Event>)
    ensures var s := Run(o, events); var h := s.history;
      && |h.fates| <= |h.accepted|
      && Holds(s.dir, h.accepted[|h.fates|..])
      && (s.process.Up? ==>
            && s.process.memory.files == Names(h.accepted[|h.fates|..])
            && s.process.memory.queuedBytes == TotalSize(h.accepted[|h.fates|..]) <= o.maxBytes
            && s.process.memory.queuedBatches == |s.process.memory.files|)
  {
    RunKeeps(o, events);
  }

  // ---- crash and restart ---------------------------------------------------

  // The timestamp of the checkpoint on disk.
  function SavedTimestamp(dir: Directory): int {
    if "state" in dir && dir["state"].content.Snappy? && dir["state"].content.request.Some?
    then MaxTimestamp(dir["state"].content.request.value) else 0
  }

  // Attempts to start that were cut short.
  ghost function FalterAll(o: Options, s: System, falters: seq<Event>): System {
    if falters == [] then s
    else Apply(o, FalterAll(o, s, falters[..|falters| - 1]), falters[|falters| - 1])
  }

  ghost predicate AllFalter(falters: seq<Event>) {
    forall e :: e in falters ==> e.Falter?
  }

  lemma {:induction false} FaltersKeep(o: Options, s: System, falters: seq<Event>)
    requires Inv(o, s) && s.process.Down? && AllFalter(falters)
    ensures var t := FalterAll(o, s, falters); Inv(o, t) && t.process.Down? && t.history == s.history
  {
    if falters == [] {
    } else {
      var before, e := FalterAll(o, s, falters[..|falters| - 1]), falters[|falters| - 1];
      assert e in falters;
      FaltersKeep(o, s, falters[..|falters| - 1]);
      ApplyKeeps(o, before, e);
      FalterChangesDisk(o, before, e);
    }
  }

  lemma FalterChangesDisk(o: Options, s: System, e: Event)
    requires e.Falter?
    ensures Apply(o, s, e) == s.(dir := Apply(o, s, e).dir)
  {
  }

  lemma RestartApplies(o: Options, s: System, entries: seq<string>)
    requires s.process.Down? && Lists(entries, s.dir, o.want)
    ensures Apply(o, s, Restart(entries)) == ApplyRestart(o, s, entries)
  {
  }

  lemma RestartStep(o: Options, s: System, entries: seq<string>) returns (dir: Directory)
    requires Inv(o, s) && s.process.Down? && Lists(entries, s.dir, o.want)
    ensures Apply(o, s, Restart(entries)) == Restarted(s.history, dir)
  {
    RestartApplies(o, s, entries);
    RestartRecalls(o, s, entries);
    dir := Restore(s.dir, entries, o).value.0;
  }

  // A crash, any number of starts cut short, and one that comes through.
  ghost function CrashAndRestart(o: Options, s: System, litter: Directory, falters: seq<Event>,
                                 entries: seq<string>): System {
    Apply(o, FalterAll(o, Apply(o, s, Crash(litter)), falters), Restart(entries))
  }

  ghost predicate CanRestart(o: Options, s: System, litter: Directory, falters: seq<Event>, entries: seq<string>) {
    && s.process.Up? && (forall name :: name in litter ==> IsPending(name)) && AllFalter(falters)
    && Lists(entries, FalterAll(o, Apply(o, s, Crash(litter)), falters).dir, o.want)
  }

  lemma CrashThenRestart(o: Options, s: System, litter: Directory, falters: seq<Event>, entries: seq<string>)
    requires Inv(o, s) && CanRestart(o, s, litter, falters, entries)
    ensures exists dir :: CrashAndRestart(o, s, litter, falters, entries) == Restarted(s.history, dir)
  {
    var down := Apply(o, s, Crash(litter));
    CrashStops(o, s, litter);
    FaltersKeep(o, down, falters);
    var dir := RestartStep(o, FalterAll(o, down, falters), entries);
  }

  lemma CrashStops(o: Options, s: System, litter: Directory)
    requires Inv(o, s) && s.process.Up? && forall name :: name in litter ==> IsPending(name)
    ensures var down := Apply(o, s, Crash(litter)); Inv(o, down) && down.process.Down? && down.history == s.history
  {
    CrashKeeps(o, s, litter);
  }

  // Memory after the restart, against memory before the crash.
  ghost predicate Recalls(s: System, m': Memory)
    requires s.process.Up?
  {
    var m, h := s.process.memory, s.history;
    && m'.files == m.files && m'.queuedBytes == m.queuedBytes && m'.queuedBatches == m.queuedBatches
    && (m' == m.(dropped := 0) <==> m.files != [] || SavedTimestamp(s.dir) == m.timestamp)
    && (m' != m.(dropped := 0) ==> m'.timestamp < m.timestamp && h.queue == [] && h.lagging)
  }

  lemma RecallIsExact(o: Options, s: System)
    requires Inv(o, s) && s.process.Up?
    ensures Recalls(s, AfterRestart(s.history.queue, s.history.saved))
  {
    var h := s.history;
    if h.saved.Some? {
      BatchLoads(EMPTY, h.saved.value);
    }
    assert h.queue == [] <==> s.process.memory.files == [];
  }

  // A crash at any point, inside a start too, then a restart: the queue is rebuilt exactly.
  // Timestamp and snapshot are rebuilt exactly if and only if something is queued or the checkpoint
  // is current; otherwise the restart falls back to an older timestamp.
  lemma CrashRefinement(o: Options, events: seq<Event>, litter: Directory, falters: seq<Event>, entries: seq<string>)
    requires CanRestart(o, Run(o, events), litter, falters, entries)
    ensures var s := Run(o, events); var m := s.process.memory;
      var t := CrashAndRestart(o, s, litter, falters, entries);
      && t.process.Up?
      && var m' := t.process.memory;
      && m'.files == m.files && m'.queuedBytes == m.queuedBytes && m'.queuedBatches == m.queuedBatches
      && (m' == m.(dropped := 0) <==> m.files != [] || SavedTimestamp(s.dir) == m.timestamp)
      && (m' != m.(dropped := 0) ==> m'.timestamp < m.timestamp && |s.history.accepted| in t.history.breaks)
  {
    RunKeeps(o, events);
    CrashThenRestart(o, Run(o, events), litter, falters, entries);
    RecallIsExact(o, Run(o, events));
  }

  // Every checkpoint write succeeds, and no crash falls between it and its queue file.
  ghost predicate Checkpointed(o: Options, events: seq<Event>) {
    events == [] ||
    (var before, e := events[..|events| - 1], events[|events| - 1];
     && Checkpointed(o, before)
     && (e.Checkpoint? ==> e.written)
     && (e.Crash? ==> !IsWriting(Run(o, before))))
  }

  ghost predicate IsWriting(s: System) {
    s.process.Up? && s.process.collector.Writing?
  }

  lemma StepStaysCurrent(o: Options, s: System, e: Event)
    requires s.history.breaks == {} && (s.history.lagging ==> IsWriting(s))
    requires (e.Checkpoint? ==> e.written) && (e.Crash? ==> !IsWriting(s))
    ensures var t := Apply(o, s, e); t.history.breaks == {} && (t.history.lagging ==> IsWriting(t))
  {
  }

  // Then no restart ever falls back.
  lemma {:induction false} CheckpointedNeverFallsBack(o: Options, events: seq<Event>)
    requires Checkpointed(o, events)
    ensures Run(o, events).history.breaks == {}
    ensures Run(o, events).history.lagging ==> IsWriting(Run(o, events))
  {
    if events == [] {
    } else {
      CheckpointedNeverFallsBack(o, events[..|events| - 1]);
      StepStaysCurrent(o, Run(o, events[..|events| - 1]), events[|events| - 1]);
    }
  }

  // ---- ordering ------------------------------------------------------------

  // No restart fell back between the acceptance of batch i and that of batch j - 1.
  ghost predicate Unbroken(h: History, i: nat, j: nat) {
    forall k: nat :: i < k < j ==> k !in h.breaks
  }

  // Over any stretch of batches without a fallback timestamps increase strictly, whatever the
  // clock did.
  lemma TimestampsIncrease(o: Options, events: seq<Event>, i: nat, j: nat)
    requires i <= j <= |Run(o, events).history.accepted| && Unbroken(Run(o, events).history, i, j)
    ensures forall a, b :: i <= a < b < j ==>
      Run(o, events).history.accepted[a].timestamp < Run(o, events).history.accepted[b].timestamp
  {
    RunChains(o, events);
    var h := Run(o, events).history;
    ChainIncreases(h.accepted, h.breaks, i, j);
  }

  lemma {:induction false} ChainIncreases(accepted: seq<Batch>, breaks: set<nat>, i: nat, j: nat)
    requires Chained(accepted, breaks) && i <= j <= |accepted| && forall k: nat :: i < k < j ==> k !in breaks
    ensures forall a, b :: i <= a < b < j ==> accepted[a].timestamp < accepted[b].timestamp
    decreases j - i
  {
    if i + 1 < j {
      ChainIncreases(accepted, breaks, i, j - 1);
      assert Linked(accepted, j - 1);
    }
  }

  // Over a whole run they increase exactly if they do across each fallback.
  lemma TimestampsIncreaseIff(o: Options, events: seq<Event>)
    ensures var h := Run(o, events).history;
      Increasing(h.accepted) <==> forall k: nat :: k in h.breaks && 0 < k < |h.accepted| ==>
        h.accepted[k - 1].timestamp < h.accepted[k].timestamp
  {
    RunChains(o, events);
    var h := Run(o, events).history;
    if forall k: nat :: k in h.breaks && 0 < k < |h.accepted| ==>
      h.accepted[k - 1].timestamp < h.accepted[k].timestamp
    {
      forall k: nat | 0 < k < |h.accepted| ensures h.accepted[k - 1].timestamp < h.accepted[k].timestamp {
        assert k !in h.breaks ==> Linked(h.accepted, k);
      }
      StepsIncrease(h.accepted, |h.accepted|);
      forall k | 0 <= k < |h.accepted| ensures h.accepted[k].timestamp <= MAX_INT64 {
        assert BatchOk(h.accepted[k]);
      }
    }
  }

  lemma {:induction false} StepsIncrease(accepted: seq<Batch>, n: nat)
    requires n <= |accepted| && forall k: nat :: 0 < k < n ==> accepted[k - 1].timestamp < accepted[k].timestamp
    ensures forall a, b :: 0 <= a < b < n ==> accepted[a].timestamp < accepted[b].timestamp
  {
    if n > 1 {
      StepsIncrease(accepted, n - 1);
      assert accepted[n - 2].timestamp < accepted[n - 1].timestamp;
    }
  }

  // And across a fallback they do exactly if the clock has passed the forgotten timestamp: the next
  // one chosen is past the newest batch if and only if memory still knows it or the clock is past it.
  lemma ChoiceIsPastNewest(o: Options, events: seq<Event>, now: int)
    requires Run(o, events).process.Up? && Run(o, events).process.collector.Idle?
    requires Run(o, events).process.memory.timestamp < MAX_INT64 && now <= MAX_INT64
    ensures var s := Run(o, events);
      var newest := TimestampOfBatch(s.history.newest);
      var p := Apply(o, s, Choose(now)).process;
      && p.Up? && p.collector.Chosen?
      && (p.collector.timestamp > newest <==> s.process.memory.timestamp >= newest || now > newest)
  {
    RunKeeps(o, events);
  }

  // What is queued stays ordered even after a fallback; so a head that is not expired vouches for
  // the whole queue.
  lemma UnexpiredHeadMeansNoneExpired(o: Options, events: seq<Event>, now: int)
    requires Run(o, events).process.Up? && Run(o, events).process.memory.files != []
    requires !IsExpired(now, TimestampOf(Run(o, events).process.memory.files[0]), o.maxAge)
    ensures forall name :: name in Run(o, events).process.memory.files ==> !IsExpired(now, TimestampOf(name), o.maxAge)
  {
    RunKeeps(o, events);
    var m, queue := Run(o, events).process.memory, Run(o, events).history.queue;
    assert m.files == Names(queue);
    NameReadsBack(queue[0].timestamp);
    forall name | name in m.files ensures !IsExpired(now, TimestampOf(name), o.maxAge) {
      var i :| 0 <= i < |m.files| && m.files[i] == name;
      NameReadsBack(queue[i].timestamp);
    }
  }

  // ---- staleness -----------------------------------------------------------

  function RequestOf(b: Batch): Request {
    WithStale(b.current, b.basis, b.timestamp)
  }

  // What a receiver believes after the first n batches, and after all of them.
  ghost function Believed(batches: seq<Batch>, n: nat): set<Labels>
    requires n <= |batches|
  {
    if n == 0 then {} else Receive(Believed(batches, n - 1), RequestOf(batches[n - 1]))
  }

  ghost function ReceiveAll(batches: seq<Batch>): set<Labels> {
    Believed(batches, |batches|)
  }

  // The receiver believes exactly the series of the n-th batch, or none before the first.
  ghost predicate AgreesAt(accepted: seq<Batch>, n: nat)
    requires n <= |accepted|
  {
    Believed(accepted, n) == if n == 0 then {} else LabelSets(accepted[n - 1].current)
  }

  lemma ReceiveNext(accepted: seq<Batch>, n: nat)
    requires n < |accepted| && BatchOk(accepted[n])
    ensures Believed(accepted, n + 1)
         == Believed(accepted, n) - LabelSets(accepted[n].basis) + LabelSets(accepted[n].current)
  {
    var b := accepted[n];
    ReceiveAny(Believed(accepted, n), b.current, b.basis, b.timestamp);
  }

  // After any accepted batch the receiver agrees if and only if what it believed before, and the
  // sender had forgotten, is carried by the batch.
  lemma AgreementAfterBatch(o: Options, events: seq<Event>, n: nat)
    requires n < |Run(o, events).history.accepted|
    ensures var accepted := Run(o, events).history.accepted;
      AgreesAt(accepted, n + 1) <==>
        Believed(accepted, n) - LabelSets(accepted[n].basis) <= LabelSets(accepted[n].current)
  {
    RunChains(o, events);
    var accepted := Run(o, events).history.accepted;
    assert BatchOk(accepted[n]);
    ReceiveNext(accepted, n);
  }

  lemma LinkKeepsAgreement(accepted: seq<Batch>, n: nat)
    requires n < |accepted| && BatchOk(accepted[n]) && Linked(accepted, n) && AgreesAt(accepted, n)
    ensures AgreesAt(accepted, n + 1)
  {
    ReceiveNext(accepted, n);
    assert n == 0 ==> LabelSets(accepted[n].basis) == {};
  }

  lemma {:induction false} ChainAgrees(accepted: seq<Batch>, breaks: set<nat>, i: nat, j: nat)
    requires Chained(accepted, breaks) && AllOk(accepted) && i <= j <= |accepted|
    requires AgreesAt(accepted, i) && forall k: nat :: i <= k < j ==> k !in breaks
    ensures AgreesAt(accepted, j)
    decreases j - i
  {
    if i == j {
    } else {
      ChainAgrees(accepted, breaks, i, j - 1);
      assert Linked(accepted, j - 1) && BatchOk(accepted[j - 1]);
      LinkKeepsAgreement(accepted, j - 1);
    }
  }

  // Wherever the receiver agrees, it agrees until the next fallback, with every later batch, across
  // refusals, failed writes and other restarts. It agrees at 0.
  lemma ReceiverAgrees(o: Options, events: seq<Event>, i: nat, j: nat)
    requires i <= j <= |Run(o, events).history.accepted| && AgreesAt(Run(o, events).history.accepted, i)
    requires forall k: nat :: i <= k < j ==> k !in Run(o, events).history.breaks
    ensures AgreesAt(Run(o, events).history.accepted, 0) && AgreesAt(Run(o, events).history.accepted, j)
  {
    var h := Run(o, events).history;
    RunChains(o, events);
    ChainAgrees(h.accepted, h.breaks, i, j);
    NothingBelievedYet(h.accepted);
  }

  // And what it agrees on is the snapshot in memory, unless a restart has just fallen back.
  lemma MemoryAgrees(o: Options, events: seq<Event>)
    requires Run(o, events).process.Up?
    requires |Run(o, events).history.accepted| !in Run(o, events).history.breaks
    ensures var s := Run(o, events); var accepted := s.history.accepted;
      AgreesAt(accepted, |accepted|) <==> ReceiveAll(accepted) == LabelSets(s.process.memory.previous)
  {
    MemoryIsNewest(o, events);
    assert LabelSets([]) == {};
  }

  lemma NothingBelievedYet(accepted: seq<Batch>)
    ensures AgreesAt(accepted, 0)
  {
  }

  // The series of the checkpoint on disk.
  function SavedSeries(dir: Directory): Request {
    if "state" in dir && dir["state"].content.Snappy? && dir["state"].content.request.Some?
    then ActiveSeries(dir["state"].content.request.value) else []
  }

  lemma SavedIsSnapshot(o: Options, s: System)
    requires Inv(o, s)
    ensures SavedSeries(s.dir) == SnapshotOf(s.history.saved)
  {
    var saved := s.history.saved;
    if saved.Some? {
      BatchLoads(EMPTY, saved.value);
    }
  }

  // A restart breaks agreement only by falling back to a checkpoint with other series: a sender
  // that agreed before a crash agrees after it if and only if something is queued or the checkpoint
  // names the series it knew.
  lemma AgreementAfterRestart(o: Options, events: seq<Event>, litter: Directory, falters: seq<Event>,
                              entries: seq<string>)
    requires CanRestart(o, Run(o, events), litter, falters, entries)
    requires ReceiveAll(Run(o, events).history.accepted) == LabelSets(Run(o, events).process.memory.previous)
    ensures var s := Run(o, events);
      var t := CrashAndRestart(o, s, litter, falters, entries);
      && t.process.Up?
      && (ReceiveAll(t.history.accepted) == LabelSets(t.process.memory.previous) <==>
            s.process.memory.files != [] || LabelSets(SavedSeries(s.dir)) == LabelSets(s.process.memory.previous))
  {
    var s := Run(o, events);
    RunKeeps(o, events);
    CrashThenRestart(o, s, litter, falters, entries);
    SavedIsSnapshot(o, s);
    assert s.history.queue == [] <==> s.process.memory.files == [];
  }

  function TotalMarkers(batches: seq<Batch>, labels: Labels): nat {
    if batches == [] then 0
    else CountMarkers(RequestOf(batches[0]), labels) + TotalMarkers(batches[1..], labels)
  }

  // How often these batches had a series in the snapshot they were compared with.
  function TotalInBases(batches: seq<Batch>, labels: Labels): nat {
    if batches == [] then 0
    else CountLabels(batches[0].basis, labels) + TotalInBases(batches[1..], labels)
  }

  lemma {:induction false} AwayMarkersAreBases(accepted: seq<Batch>, i: nat, j: nat, labels: Labels)
    requires AllOk(accepted) && i <= j <= |accepted|
    requires forall k :: i <= k < j ==> labels !in LabelSets(accepted[k].current)
    ensures TotalMarkers(accepted[i..j], labels) == TotalInBases(accepted[i..j], labels)
    decreases j - i
  {
    if i == j {
    } else {
      var b := accepted[i];
      assert BatchOk(b);
      MarkersExactly(b.current, b.basis, b.timestamp, labels);
      assert accepted[i..j][1..] == accepted[i + 1..j];
      AwayMarkersAreBases(accepted, i + 1, j, labels);
    }
  }

  lemma {:induction false} LinkedBasesLack(accepted: seq<Batch>, breaks: set<nat>, i: nat, j: nat, labels: Labels)
    requires Chained(accepted, breaks) && 0 < i <= j <= |accepted| && forall k: nat :: i <= k < j ==> k !in breaks
    requires forall k :: i - 1 <= k < j ==> labels !in LabelSets(accepted[k].current)
    ensures TotalInBases(accepted[i..j], labels) == 0
    decreases j - i
  {
    if i == j {
    } else {
      assert Linked(accepted, i);
      CountLabelsPositive(accepted[i - 1].current, labels);
      assert accepted[i..j][1..] == accepted[i + 1..j];
      LinkedBasesLack(accepted, breaks, i + 1, j, labels);
    }
  }

  // While a series stays away it is marked stale as often as it was in the snapshots that the
  // batches were compared with, whatever restarts did.
  lemma AwayMarkedFromBases(o: Options, events: seq<Event>, i: nat, j: nat, labels: Labels)
    requires i <= j <= |Run(o, events).history.accepted|
    requires forall k :: i <= k < j ==> labels !in LabelSets(Run(o, events).history.accepted[k].current)
    ensures var accepted := Run(o, events).history.accepted;
      TotalMarkers(accepted[i..j], labels) == TotalInBases(accepted[i..j], labels)
  {
    RunChains(o, events);
    AwayMarkersAreBases(Run(o, events).history.accepted, i, j, labels);
  }

  // A series in batch i that is in none of the next ones is marked stale once for each time it was
  // there, in batch i + 1, and never again while it stays away, if no restart falls back meanwhile.
  // If one fell back just before batch i + 1, that is so exactly if the older snapshot it fell back
  // to has the series as often.
  lemma VanishedMarkedOnce(o: Options, events: seq<Event>, i: nat, j: nat, labels: Labels)
    requires i + 1 < j <= |Run(o, events).history.accepted| && Unbroken(Run(o, events).history, i + 1, j)
    requires forall k :: i < k < j ==> labels !in LabelSets(Run(o, events).history.accepted[k].current)
    ensures var h := Run(o, events).history; var accepted := h.accepted;
      && CountMarkers(RequestOf(accepted[i + 1]), labels) == TotalMarkers(accepted[i + 1..j], labels)
      && (TotalMarkers(accepted[i + 1..j], labels) == CountLabels(accepted[i].current, labels) <==>
            CountLabels(accepted[i + 1].basis, labels) == CountLabels(accepted[i].current, labels))
      && (i + 1 !in h.breaks ==> accepted[i + 1].basis == accepted[i].current)
  {
    RunChains(o, events);
    VanishedInChain(Run(o, events).history.accepted, Run(o, events).history.breaks, i, j, labels);
  }

  lemma VanishedInChain(accepted: seq<Batch>, breaks: set<nat>, i: nat, j: nat, labels: Labels)
    requires AllOk(accepted) && Chained(accepted, breaks)
    requires i + 1 < j <= |accepted| && forall k: nat :: i + 1 < k < j ==> k !in breaks
    requires forall k :: i < k < j ==> labels !in LabelSets(accepted[k].current)
    ensures CountMarkers(RequestOf(accepted[i + 1]), labels) == CountLabels(accepted[i + 1].basis, labels)
    ensures TotalMarkers(accepted[i + 1..j], labels) == CountLabels(accepted[i + 1].basis, labels)
    ensures i + 1 !in breaks ==> accepted[i + 1].basis == accepted[i].current
  {
    assert i + 1 !in breaks ==> Linked(accepted, i + 1);
    assert BatchOk(accepted[i + 1]);
    LackingMarked(accepted[i + 1], labels);
    AwayUnmarked(accepted, breaks, i + 2, j, labels);
    MarkersFromFirst(accepted, i + 1, j, labels);
  }

  lemma AwayUnmarked(accepted: seq<Batch>, breaks: set<nat>, i: nat, j: nat, labels: Labels)
    requires AllOk(accepted) && Chained(accepted, breaks)
    requires 0 < i <= j <= |accepted| && forall k: nat :: i <= k < j ==> k !in breaks
    requires forall k :: i - 1 <= k < j ==> labels !in LabelSets(accepted[k].current)
    ensures TotalMarkers(accepted[i..j], labels) == 0
  {
    AwayMarkersAreBases(accepted, i, j, labels);
    LinkedBasesLack(accepted, breaks, i, j, labels);
  }

  lemma LackingMarked(b: Batch, labels: Labels)
    requires BatchOk(b) && labels !in LabelSets(b.current)
    ensures CountMarkers(RequestOf(b), labels) == CountLabels(b.basis, labels)
  {
    MarkersExactly(b.current, b.basis, b.timestamp, labels);
  }

  lemma MarkersFromFirst(accepted: seq<Batch>, i: nat, j: nat, labels: Labels)
    requires i < j <= |accepted|
    ensures TotalMarkers(accepted[i..j], labels)
         == CountMarkers(RequestOf(accepted[i]), labels) + TotalMarkers(accepted[i + 1..j], labels)
  {
    assert accepted[i..j][1..] == accepted[i + 1..j];
  }

  // And a batch never marks a series it carries.
  lemma PresentNeverMarked(o: Options, events: seq<Event>, i: nat, labels: Labels)
    requires i < |Run(o, events).history.accepted|
    requires labels in LabelSets(Run(o, events).history.accepted[i].current)
    ensures CountMarkers(RequestOf(Run(o, events).history.accepted[i]), labels) == 0
  {
    RunChains(o, events);
    var b := Run(o, events).history.accepted[i];
    assert BatchOk(b);
    MarkersExactly(b.current, b.basis, b.timestamp, labels);
  }

  // ---- delivery ------------------------------------------------------------

  // Whatever the collector and the receiver do between the deliverer's two locked sections, the
  // batch in its hands is still the head of the queue and still on disk.
  lemma HeadStaysHead(o: Options, events: seq<Event>)
    ensures var s := Run(o, events);
      s.process.Up? && !s.process.deliverer.Resting? ==>
        && s.process.memory.files != [] && s.process.memory.files[0] == s.process.deliverer.name
        && s.process.deliverer.name in s.dir
        && (s.process.deliverer.Settled? ==> s.process.deliverer.size == s.dir[s.process.deliverer.name].size)
  {
    RunKeeps(o, events);
    var s := Run(o, events);
    if s.process.Up? && !s.process.deliverer.Resting? {
      HeadIsStored(s.dir, s.history.queue);
    }
  }

  // Consecutive repeats of one batch are retries; this drops them.
  function Collapse(sent: seq<nat>): seq<nat> {
    if |sent| <= 1 then sent
    else
      var before := Collapse(sent[..|sent| - 1]);
      if sent[|sent| - 1] == sent[|sent| - 2] then before else before + [sent[|sent| - 1]]
  }

  lemma {:induction false} CollapseIncreases(sent: seq<nat>)
    requires forall i, j :: 0 <= i < j < |sent| ==> sent[i] <= sent[j]
    ensures forall i, j :: 0 <= i < j < |Collapse(sent)| ==> Collapse(sent)[i] < Collapse(sent)[j]
    ensures sent != [] ==> Collapse(sent) != [] && Collapse(sent)[|Collapse(sent)| - 1] == sent[|sent| - 1]
    ensures forall x :: x in Collapse(sent) <==> x in sent
  {
    if |sent| > 1 {
      CollapseIncreases(sent[..|sent| - 1]);
      assert sent == sent[..|sent| - 1] + [sent[|sent| - 1]];
    }
  }

  // Ordered, at least once: every POST carries exactly an accepted batch's file; leaving retries
  // out, batches are POSTed in the order they were accepted, none after a later one; and a batch
  // that left the queue without expiring was POSTed.
  lemma DeliveredInOrder(o: Options, events: seq<Event>)
    ensures var h := Run(o, events).history;
      && |h.posts| == |h.sent|
      && (forall i :: 0 <= i < |h.posts| ==> h.sent[i] < |h.accepted| && h.posts[i] == h.accepted[h.sent[i]].file)
      && (forall i, j :: 0 <= i < j < |Collapse(h.sent)| ==> Collapse(h.sent)[i] < Collapse(h.sent)[j])
      && (forall k :: 0 <= k < |h.fates| && h.fates[k] != Expired ==> k in Collapse(h.sent))
  {
    RunKeeps(o, events);
    CollapseIncreases(Run(o, events).history.sent);
  }

  ghost predicate Caused(fate: Fate, answer: Answer, now: int, timestamp: int, maxAge: int) {
    && (fate == Expired <==> now - 1_000_000 * timestamp > maxAge)
    && (fate == Acked ==> answer.Status? && 200 <= answer.code < 300)
    && (fate == Rejected ==> answer.Status? && answer.code < 500 && answer.code != 429 && !(200 <= answer.code < 300))
  }

  lemma SettlesByAttempt(o: Options, s: System, e: Event)
    requires s.process.Up? && !s.process.deliverer.Settled?
    requires Apply(o, s, e).process.Up? && Apply(o, s, e).process.deliverer.Settled?
    ensures e.Attempt? && s.process.deliverer.Picked?
    ensures var d := Apply(o, s, e).process.deliverer;
      && d.name == s.process.deliverer.name
      && Caused(d.fate, e.answer, e.now, TimestampOf(d.name), o.maxAge)
  {
  }

  // A batch's fate is decided by one attempt on the head: a success, a final refusal, or its age.
  lemma FateNeedsCause(o: Options, events: seq<Event>, e: Event)
    requires Run(o, events).process.Up? && !Run(o, events).process.deliverer.Settled?
    requires Apply(o, Run(o, events), e).process.Up? && Apply(o, Run(o, events), e).process.deliverer.Settled?
    ensures var d, queue := Apply(o, Run(o, events), e).process.deliverer, Run(o, events).history.queue;
      && e.Attempt? && queue != [] && d.name == Name(queue[0].timestamp)
      && Caused(d.fate, e.answer, e.now, queue[0].timestamp, o.maxAge)
  {
    var s := Run(o, events);
    RunKeeps(o, events);
    SettlesByAttempt(o, s, e);
    assert s.history.queue[0].timestamp <= MAX_INT64;
    NameReadsBack(s.history.queue[0].timestamp);
  }

  // And a batch leaves the queue only with its fate decided.
  lemma LeavesOnlySettled(o: Options, s: System, e: Event)
    ensures var h, h' := s.history, Apply(o, s, e).history;
      h'.fates != h.fates ==>
        && e == Remove(true) && s.process.Up? && s.process.deliverer.Settled?
        && h'.fates == h.fates + [s.process.deliverer.fate]
  {
  }

  // What one attempt on the head does, in full: a batch too old is dropped unsent; a 2xx settles it
  // as acknowledged, a 5xx, a 429, a lost response or none at all leaves it for another attempt, and
  // any other status settles it as rejected. It is POSTed unless it is too old or no request is made.
  lemma AttemptSettlesExactly(o: Options, events: seq<Event>, now: int, answer: Answer)
    requires Run(o, events).process.Up? && Run(o, events).process.deliverer.Picked?
    ensures var s := Run(o, events); var h := s.history;
      var t := Apply(o, s, Attempt(now, answer));
      && h.queue != [] && t.process.Up?
      && var head := h.queue[0];
         var expired := now - 1_000_000 * head.timestamp > o.maxAge;
         && t.process.deliverer == Holding(head, SettledBy(answer, expired))
         && t.history.posts
            == h.posts + (if answer.Unreadable? || expired || answer.Unsent? then [] else [head.file])
  {
    var s := Run(o, events);
    RunKeeps(o, events);
    HeadIsStored(s.dir, s.history.queue);
    HeadReadsBack(o, s);
    AttemptStep(o, s, now, answer);
  }

  // The deliverer once the fate of its batch is known, or not.
  function Holding(head: Batch, fate: Option<Fate>): Deliverer {
    if fate.None? then Resting else Settled(Name(head.timestamp), head.file.size, fate.value)
  }

  function SettledBy(answer: Answer, expired: bool): Option<Fate> {
    if answer.Unreadable? then None
    else if expired then Some(Expired)
    else if !answer.Status? then None
    else if 200 <= answer.code < 300 then Some(Acked)
    else if answer.code >= 500 || answer.code == 429 then None
    else Some(Rejected)
  }

  lemma HeadReadsBack(o: Options, s: System)
    requires Inv(o, s) && s.process.Up? && s.process.deliverer.Picked?
    ensures s.history.queue != [] && s.process.deliverer.name == Name(s.history.queue[0].timestamp)
    ensures TimestampOf(s.process.deliverer.name) == s.history.queue[0].timestamp
  {
    assert s.history.queue[0].timestamp <= MAX_INT64;
    NameReadsBack(s.history.queue[0].timestamp);
  }

  lemma AttemptStep(o: Options, s: System, now: int, answer: Answer)
    requires s.process.Up? && s.process.deliverer.Picked? && s.process.deliverer.name in s.dir
    ensures var name, t := s.process.deliverer.name, Apply(o, s, Attempt(now, answer));
      var expired := now - 1_000_000 * TimestampOf(name) > o.maxAge;
      var fate := SettledBy(answer, expired);
      && t.process.Up?
      && t.process.deliverer == (if fate.None? then Resting else Settled(name, s.dir[name].size, fate.value))
      && t.history.posts
         == s.history.posts + (if answer.Unreadable? || expired || answer.Unsent? then [] else [s.dir[name]])
  {
  }

  // ---- what is accepted ------------------------------------------------------

  // A snapshot becomes an accepted batch exactly if it carries a series or there is one to end, it is
  // at most 4 MiB before and after compression, it fits under the cap, and its file is written. Only
  // one that does not fit is counted as refused.
  lemma AcceptsExactly(o: Options, s: System, points: seq<Point>, rawLen: nat, bodyLen: nat, written: bool)
    requires s.process.Up? && s.process.collector.Chosen? && NoStaleBits(points)
    ensures var m, h, ts := s.process.memory, s.history, s.process.collector.timestamp;
      var t := Apply(o, s, Event.Enqueue(points, rawLen, bodyLen, written));
      var telling := points != [] || m.previous != [];
      var fits := rawLen <= 4_194_304 && bodyLen <= 4_194_304 && m.queuedBytes + bodyLen <= o.maxBytes;
      && t.process.Up?
      && (if telling && fits && written
          then t.history.accepted
               == h.accepted + [Batch(ts, Stamped(points, ts), m.previous,
                                      Body(WithStale(Stamped(points, ts), m.previous, ts), rawLen, bodyLen))]
          else t.history.accepted == h.accepted)
      && t.history.refused == h.refused + (if telling && !fits then 1 else 0)
      && t.process.memory.dropped == m.dropped + (if telling && !fits then 1 else 0)
  {
    var m, ts := s.process.memory, s.process.collector.timestamp;
    EmptyOnlyIfNothing(Stamped(points, ts), m.previous, ts);
    assert Stamped(points, ts) == [] <==> points == [];
  }

  // ---- accounting ----------------------------------------------------------

  function CountFate(fates: seq<Fate>, fate: Fate): nat {
    if fates == [] then 0 else CountFate(fates[..|fates| - 1], fate) + (if fates[|fates| - 1] == fate then 1 else 0)
  }

  lemma {:induction false} FatesAddUp(fates: seq<Fate>)
    ensures |fates| == CountFate(fates, Acked) + CountFate(fates, Rejected) + CountFate(fates, Expired)
    ensures Losses(fates) == CountFate(fates, Rejected) + CountFate(fates, Expired)
  {
    if fates == [] {
    } else {
      FatesAddUp(fates[..|fates| - 1]);
    }
  }

  // Every accepted batch is acked, rejected, expired or queued; and since the last restart, every
  // dropped batch was refused at enqueue, rejected or expired.
  lemma BatchesAddUp(o: Options, events: seq<Event>)
    ensures var s := Run(o, events); var h := s.history;
      && |h.accepted|
         == CountFate(h.fates, Acked) + CountFate(h.fates, Rejected) + CountFate(h.fates, Expired) + |h.queue|
      && (s.process.Up? ==>
            && s.process.memory.queuedBatches == |h.queue|
            && h.restarts <= |h.fates|
            && var since := h.fates[h.restarts..];
               s.process.memory.dropped == h.refused + CountFate(since, Rejected) + CountFate(since, Expired))
  {
    RunKeeps(o, events);
    var h := Run(o, events).history;
    FatesAddUp(h.fates);
    FatesAddUp(h.fates[h.restarts..]);
  }
}
