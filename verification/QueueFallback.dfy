// The one way a restart forgets: the newest batch was sent and removed while "state" still lagged it.
module QueueFallback {
  import opened Text
  import opened SeriesKey
  import opened Stale
  import opened Queue
  import opened QueueNames
  import opened QueueInvariant
  import opened QueueRestart
  import opened QueueTheorems

  const LABELS: Labels := [Label("__name__", "up")]

  const OPTIONS := Options(1000, 1_000_000_000, "")

  const LISTING: seq<string> := ["destination"]

  // Accept a snapshot, fail its checkpoint write, deliver it, crash, restart.
  const STORY: seq<Event> := [
    Restart(LISTING), Choose(5), Enqueue([Point(LABELS, 7)], 1, 1, true), Checkpoint(false),
    Pick, Attempt(0, Status(204)), Remove(true), Crash(map[]), Restart(LISTING)]

  lemma RunSnoc(o: Options, events: seq<Event>, e: Event)
    ensures Run(o, events + [e]) == Apply(o, Run(o, events), e)
  {
    assert (events + [e])[..|events|] == events;
  }

  lemma RunTwo(o: Options, events: seq<Event>, e: Event, f: Event)
    ensures Run(o, events + [e, f]) == Apply(o, Apply(o, Run(o, events), e), f)
  {
    assert events + [e, f] == (events + [e]) + [f];
    RunSnoc(o, events, e);
    RunSnoc(o, events + [e], f);
  }

  // A snapshot of one series.
  function Snapshot(labels: Labels, timestamp: nat): Request {
    Stamped([Point(labels, 7)], timestamp)
  }

  // The batch it makes when nothing was known before.
  function Only(labels: Labels, timestamp: nat): Batch {
    Batch(timestamp, Snapshot(labels, timestamp), [],
          Body(WithStale(Snapshot(labels, timestamp), [], timestamp), 1, 1))
  }

  // Two steps of a sender that knows nothing: a timestamp is chosen, the snapshot accepted.
  lemma AcceptsOnly(s: System, labels: Labels, timestamp: nat)
    requires s.process == Up(EMPTY, Idle, Resting) && 0 < timestamp < 100
    ensures Apply(OPTIONS, Apply(OPTIONS, s, Choose(timestamp)), Enqueue([Point(labels, 7)], 1, 1, true))
         == System(s.dir[Name(timestamp) := Only(labels, timestamp).file],
                   Up(Admit(EMPTY, Snapshot(labels, timestamp), timestamp, 1),
                      Writing(Only(labels, timestamp).file), Resting),
                   Accept(s.history, Only(labels, timestamp)))
  {
    var snapshot := Snapshot(labels, timestamp);
    assert WithStale(snapshot, [], timestamp) == snapshot && snapshot != [];
    assert Judge(EMPTY, snapshot, timestamp, 1, 1, OPTIONS) == Fits(snapshot);
  }

  lemma FirstStart()
    ensures Run(OPTIONS, STORY[..1]).process == Up(EMPTY, Idle, Resting)
    ensures Run(OPTIONS, STORY[..1]).history == START.history
    ensures Run(OPTIONS, STORY[..1]).dir.Keys == {"destination"}
  {
    RunSnoc(OPTIONS, [], Restart(LISTING));
    assert [] + [Restart(LISTING)] == STORY[..1];
    ReservedNames();
    var bound := Bind(map[], "").value;
    assert LISTING[1..] == [];
    assert ScanAll(Scan(bound, [], 0), LISTING) == Ok(Scan(bound, [], 0));
    assert Candidates([])[1..] == [];
  }

  lemma Admitted()
    ensures var s := Run(OPTIONS, STORY[..4]);
      && s.process == Up(Admit(EMPTY, Snapshot(LABELS, 5), 5, 1), Idle, Resting)
      && s.history == Accept(START.history, Only(LABELS, 5))
      && s.dir.Keys == {"destination", Name(5)}
      && s.dir[Name(5)] == Only(LABELS, 5).file
  {
    FirstStart();
    RunTwo(OPTIONS, STORY[..1], STORY[1], STORY[2]);
    RunSnoc(OPTIONS, STORY[..3], STORY[3]);
    assert STORY[..3] == STORY[..1] + [STORY[1], STORY[2]];
    assert STORY[..4] == STORY[..3] + [STORY[3]];
    AcceptsOnly(Run(OPTIONS, STORY[..1]), LABELS, 5);
    CheckpointFails(Run(OPTIONS, STORY[..3]));
  }

  lemma CheckpointFails(s: System)
    requires s.process.Up? && s.process.collector.Writing?
    ensures Apply(OPTIONS, s, Checkpoint(false)) == s.(process := s.process.(collector := Idle))
  {
  }

  lemma PickAndPost(o: Options, s: System, now: int)
    requires s.process.Up? && s.process.collector.Idle? && s.process.deliverer.Resting?
    requires s.process.memory.files != [] && s.process.memory.files[0] in s.dir
    requires !IsExpired(now, TimestampOf(s.process.memory.files[0]), o.maxAge)
    ensures var t, name := Apply(o, Apply(o, s, Pick), Attempt(now, Status(204))), s.process.memory.files[0];
      && t.process == s.process.(deliverer := Settled(name, s.dir[name].size, Acked))
      && t.dir == s.dir
      && t.history == s.history.(posts := t.history.posts, sent := t.history.sent)
  {
    assert !IsRetryable(204) && !IsRejected(204);
  }

  lemma RemoveHead(o: Options, s: System)
    requires s.process.Up? && s.process.collector.Idle? && s.process.deliverer.Settled?
    requires s.process.memory.files != [] && s.process.deliverer.name in s.dir
    ensures var t, h := Apply(o, s, Remove(true)), s.history;
      && t.process.Up? && t.dir == s.dir - {s.process.deliverer.name}
      && t.history == h.(fates := h.fates + [s.process.deliverer.fate],
                         queue := if h.queue == [] then [] else h.queue[1..])
  {
  }

  lemma StoryContinues()
    ensures Run(OPTIONS, STORY[..7])
         == Apply(OPTIONS, Apply(OPTIONS, Apply(OPTIONS, Run(OPTIONS, STORY[..4]), Pick), Attempt(0, Status(204))),
                  Remove(true))
  {
    assert STORY[..5] == STORY[..4] + [Pick];
    assert STORY[..6] == STORY[..5] + [Attempt(0, Status(204))];
    assert STORY[..7] == STORY[..6] + [Remove(true)];
    RunSnoc(OPTIONS, STORY[..4], Pick);
    RunSnoc(OPTIONS, STORY[..5], Attempt(0, Status(204)));
    RunSnoc(OPTIONS, STORY[..6], Remove(true));
  }

  lemma DeliveredFrom(s: System, name: string, b: Batch)
    requires s.process == Up(Admit(EMPTY, b.current, b.timestamp, 1), Idle, Resting) && name == Name(b.timestamp)
    requires TimestampOf(name) == b.timestamp && name != "destination" && b.timestamp < 100
    requires s.dir.Keys == {"destination", name} && s.history.queue == [b]
    ensures var t := Apply(OPTIONS, Apply(OPTIONS, Apply(OPTIONS, s, Pick), Attempt(0, Status(204))), Remove(true));
      && t.process.Up? && t.dir.Keys == {"destination"}
      && t.history == s.history.(posts := t.history.posts, sent := t.history.sent, queue := [],
                                 fates := s.history.fates + [Acked])
  {
    assert EMPTY.files + [name] == [name];
    PickAndPost(OPTIONS, s, 0);
    RemoveHead(OPTIONS, Apply(OPTIONS, Apply(OPTIONS, s, Pick), Attempt(0, Status(204))));
  }

  lemma DeliveredAndGone()
    ensures var s := Run(OPTIONS, STORY[..7]);
      && s.process.Up? && s.dir.Keys == {"destination"}
      && s.history.queue == [] && s.history.lagging && s.history.saved == None
      && s.history.accepted == [Only(LABELS, 5)] && s.history.fates == [Acked] && s.history.breaks == {}
  {
    Admitted();
    StoryContinues();
    NameReadsBack(5);
    ReservedNames();
    DeliveredFrom(Run(OPTIONS, STORY[..4]), Name(5), Only(LABELS, 5));
  }

  lemma RestartForgetsNothingElse(o: Options, s: System, entries: seq<string>)
    ensures var h, h' := s.history, CrashAndRestart(o, s, map[], [], entries).history;
      h'.fates == h.fates && h'.accepted == h.accepted
  {
  }

  lemma StoryEnds()
    ensures Run(OPTIONS, STORY) == CrashAndRestart(OPTIONS, Run(OPTIONS, STORY[..7]), map[], [], LISTING)
  {
    assert STORY == STORY[..7] + [Crash(map[]), Restart(LISTING)];
    RunTwo(OPTIONS, STORY[..7], Crash(map[]), Restart(LISTING));
  }

  lemma OnlyManifestCanRestart(s: System)
    requires s.process.Up? && s.dir.Keys == {"destination"} && Inv(OPTIONS, s)
    ensures CanRestart(OPTIONS, s, map[], [], LISTING)
  {
    assert s.dir + map[] == s.dir;
    assert Elements(LISTING) == {"destination"} && DistinctBy(Self, LISTING);
  }

  lemma AfterFallback()
    ensures var s := Run(OPTIONS, STORY);
      && s.process == Up(EMPTY, Idle, Resting)
      && s.history.accepted == [Only(LABELS, 5)] && s.history.fates == [Acked] && s.history.breaks == {1}
  {
    DeliveredAndGone();
    StoryEnds();
    RunKeeps(OPTIONS, STORY[..7]);
    var s := Run(OPTIONS, STORY[..7]);
    OnlyManifestCanRestart(s);
    CrashThenRestart(OPTIONS, s, map[], [], LISTING);
    RestartForgetsNothingElse(OPTIONS, s, LISTING);
  }

  // A run that falls back: the restarted sender knows no timestamp and no series, although a batch
  // stamped 5 was accepted and delivered, and the receiver still believes its series.
  lemma FallbackHappens()
    ensures var s := Run(OPTIONS, STORY);
      && s.process.Up? && s.history.breaks == {1}
      && |s.history.accepted| == 1 && s.history.accepted[0].timestamp == 5 && s.history.fates == [Acked]
      && s.process.memory.timestamp == 0 && s.process.memory.previous == []
      && ReceiveAll(s.history.accepted) == {LABELS}
  {
    AfterFallback();
    BelievesOnly(LABELS, 5);
  }

  lemma SnapshotIs(labels: Labels, timestamp: nat)
    ensures Snapshot(labels, timestamp) == [Series(labels, [Sample(7, timestamp)])]
    ensures RequestOf(Only(labels, timestamp)) == Snapshot(labels, timestamp)
    ensures LabelSets(Snapshot(labels, timestamp)) == {labels}
  {
  }

  lemma BelievesOnly(labels: Labels, timestamp: nat)
    ensures ReceiveAll([Only(labels, timestamp)]) == {labels}
  {
    var only := Series(labels, [Sample(7, timestamp)]);
    SnapshotIs(labels, timestamp);
    assert [only][1..] == [];
    assert Receive({}, [only]) == {labels};
    assert Believed([Only(labels, timestamp)], 0) == {};
  }

  const OTHER: Labels := [Label("__name__", "down")]

  // The clock reads 3 now, and the snapshot no longer has the old series but another.
  const NEXT: seq<Event> := [Choose(3), Enqueue([Point(OTHER, 7)], 1, 1, true)]

  lemma NextIsAccepted()
    ensures var s := Run(OPTIONS, STORY + NEXT);
      && s.process.Up? && s.process.memory.previous == Snapshot(OTHER, 3)
      && s.history.accepted == [Only(LABELS, 5), Only(OTHER, 3)] && s.history.breaks == {1}
  {
    AfterFallback();
    RunTwo(OPTIONS, STORY, NEXT[0], NEXT[1]);
    AcceptsOnly(Run(OPTIONS, STORY), OTHER, 3);
  }

  lemma OneSeriesUnmarked()
    ensures CountMarkers(RequestOf(Only(OTHER, 3)), LABELS) == 0 && CountLabels(Only(LABELS, 5).current, LABELS) == 1
  {
    SnapshotIs(OTHER, 3);
    SnapshotIs(LABELS, 5);
    assert Snapshot(OTHER, 3)[1..] == [] && Snapshot(LABELS, 5)[1..] == [];
  }

  lemma OtherIsAnother()
    ensures LABELS != OTHER
  {
    assert LABELS[0].value[0] == 'u' && OTHER[0].value[0] == 'd';
  }

  // One batch later all three statements about whole runs have failed: the second batch is stamped
  // before the first, the vanished series was not marked, and the receiver believes more than the
  // sender knows.
  lemma NextBatchFails()
    ensures var s := Run(OPTIONS, STORY + NEXT); var accepted := s.history.accepted;
      && |accepted| == 2 && accepted[1].timestamp < accepted[0].timestamp
      && LABELS !in LabelSets(accepted[1].current)
      && CountMarkers(RequestOf(accepted[1]), LABELS) == 0 && CountLabels(accepted[0].current, LABELS) == 1
      && s.process.Up? && LabelSets(s.process.memory.previous) == {OTHER}
      && ReceiveAll(accepted) == {LABELS, OTHER}
  {
    NextIsAccepted();
    OneSeriesUnmarked();
    OtherIsAnother();
    SnapshotIs(OTHER, 3);
    SnapshotIs(LABELS, 5);
    RunChains(OPTIONS, STORY + NEXT);
    var accepted := Run(OPTIONS, STORY + NEXT).history.accepted;
    assert BatchOk(accepted[0]) && BatchOk(accepted[1]) && LabelSets([]) == {};
    ReceiveNext(accepted, 0);
    ReceiveNext(accepted, 1);
  }
}
