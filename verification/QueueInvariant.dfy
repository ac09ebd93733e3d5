// What every step of the sender keeps, over every interleaving and crash.
module QueueInvariant {
  import opened Text
  import opened SeriesKey
  import opened Stale
  import opened Queue
  import opened QueueNames

  function TimestampOfBatch(b: Option<Batch>): int {
    if b.Some? then b.value.timestamp else 0
  }

  function SnapshotOf(b: Option<Batch>): Request {
    if b.Some? then b.value.current else []
  }

  ghost predicate StampedAt(current: Request, timestamp: int) {
    forall s :: s in current ==>
      |s.samples| == 1 && s.samples[0].timestamp == timestamp && s.samples[0].bits != STALE_BITS
  }

  ghost predicate BatchOk(b: Batch) {
    && 1 <= b.timestamp <= MAX_INT64
    && StampedAt(b.current, b.timestamp)
    && b.file.regular && b.file.size <= MAX_BATCH
    && b.file.content.Snappy? && b.file.content.decodedLen <= MAX_BATCH
    && b.file.content.request == Some(WithStale(b.current, b.basis, b.timestamp))
    && WithStale(b.current, b.basis, b.timestamp) != []
  }

  ghost predicate AllOk(batches: seq<Batch>) {
    forall i :: 0 <= i < |batches| ==> BatchOk(batches[i])
  }

  ghost predicate Known(b: Option<Batch>) {
    b.Some? ==> BatchOk(b.value)
  }

  // ---- the invariant ------------------------------------------------------

  ghost predicate Sound(o: Options, h: History) {
    && AllOk(h.queue) && Known(h.newest) && Known(h.saved) && Known(h.known)
    && Increasing(h.queue)
    && TotalSize(h.queue) <= o.maxBytes
    && (h.queue != [] ==> h.newest == Some(h.queue[|h.queue| - 1]))
    && (if h.lagging then TimestampOfBatch(h.saved) < TimestampOfBatch(h.newest) else h.saved == h.newest)
  }

  ghost predicate Stored(o: Options, dir: Directory, queue: seq<Batch>, saved: Option<Batch>) {
    && Holds(dir, queue)
    && ("state" in dir <==> saved.Some?)
    && (saved.Some? ==> dir["state"] == saved.value.file)
    && ("destination" in dir ==> dir["destination"].content == Manifest(o.want))
  }

  ghost predicate Live(m: Memory, queue: seq<Batch>, known: Option<Batch>) {
    && m.files == Names(queue)
    && m.queuedBytes == TotalSize(queue)
    && m.queuedBatches == |queue|
    && m.timestamp == TimestampOfBatch(known)
    && m.previous == SnapshotOf(known)
  }

  // Memory remembers the newest batch, unless a restart fell back to an older checkpoint and nothing
  // was accepted since.
  ghost predicate Remembers(h: History) {
    h.known == h.newest || (h.queue == [] && h.lagging && h.known == h.saved && |h.accepted| in h.breaks)
  }

  ghost predicate CollectorOk(c: Collector, h: History) {
    && (c.Chosen? ==> TimestampOfBatch(h.known) < c.timestamp <= MAX_INT64)
    && (c.Writing? ==> h.newest.Some? && c.file == h.newest.value.file && h.known == h.newest)
  }

  // The batch in the deliverer's hands is the head of the queue.
  ghost predicate DelivererOk(d: Deliverer, queue: seq<Batch>, fates: nat, sent: seq<nat>) {
    !d.Resting? ==>
      && queue != [] && d.name == Name(queue[0].timestamp)
      && (d.Settled? ==> d.size == queue[0].file.size)
      && (d.Settled? && d.fate != Expired ==> sent != [] && sent[|sent| - 1] == fates)
  }

  ghost predicate Split(accepted: seq<Batch>, fates: nat, queue: seq<Batch>, newest: Option<Batch>) {
    && fates + |queue| == |accepted|
    && accepted[fates..] == queue
    && AllOk(accepted)
    && newest == (if accepted == [] then None else Some(accepted[|accepted| - 1]))
  }

  ghost predicate Delivered(accepted: seq<Batch>, fates: seq<Fate>, posts: seq<File>, sent: seq<nat>) {
    && |posts| == |sent|
    && (forall i :: 0 <= i < |sent| ==>
          sent[i] <= |fates| && sent[i] < |accepted| && posts[i] == accepted[sent[i]].file)
    && (forall i, j :: 0 <= i < j < |sent| ==> sent[i] <= sent[j])
    && (forall k :: 0 <= k < |fates| && fates[k] != Expired ==> k in sent)
  }

  function Losses(fates: seq<Fate>): nat {
    if fates == [] then 0 else Losses(fates[..|fates| - 1]) + (if fates[|fates| - 1] == Acked then 0 else 1)
  }

  ghost predicate Counted(p: Process, h: History) {
    h.restarts <= |h.fates| && (p.Up? ==> p.memory.dropped == h.refused + Losses(h.fates[h.restarts..]))
  }

  // Batch i builds on the snapshot of the batch before it and is stamped after it.
  ghost predicate Linked(accepted: seq<Batch>, i: nat)
    requires i < |accepted|
  {
    var before := if i == 0 then None else Some(accepted[i - 1]);
    accepted[i].basis == SnapshotOf(before) && TimestampOfBatch(before) < accepted[i].timestamp
  }

  // Every batch is linked to the one before it, but for the first after a fallback.
  ghost predicate Chained(accepted: seq<Batch>, breaks: set<nat>) {
    forall i: nat :: i < |accepted| && i !in breaks ==> Linked(accepted, i)
  }

  ghost predicate Inv(o: Options, s: System) {
    var h := s.history;
    && Sound(o, h)
    && Stored(o, s.dir, h.queue, h.saved)
    && (s.process.Up? ==>
          && Live(s.process.memory, h.queue, h.known)
          && Remembers(h)
          && CollectorOk(s.process.collector, h)
          && DelivererOk(s.process.deliverer, h.queue, |h.fates|, h.sent))
    && Split(h.accepted, |h.fates|, h.queue, h.newest)
    && Delivered(h.accepted, h.fates, h.posts, h.sent)
    && Counted(s.process, h)
    && Chained(h.accepted, h.breaks)
  }

  // ---- batches ------------------------------------------------------------

  lemma {:induction false} MarkersStamped(previous: Request, kept: set<Labels>, timestamp: int)
    ensures forall s :: s in Markers(previous, kept, timestamp) ==> s.samples == [Sample(STALE_BITS, timestamp)]
  {
    if previous == [] {
    } else {
      MarkersStamped(previous[1..], kept, timestamp);
    }
  }

  lemma {:induction false} MaxTimestampStamped(request: Request, timestamp: int, floor: int)
    requires floor <= timestamp && forall s :: s in request ==> |s.samples| == 1 && s.samples[0].timestamp == timestamp
    ensures MaxTimestampFrom(request, floor) == if request == [] then floor else timestamp
    decreases |request|
  {
    if request == [] {
    } else {
      assert request[0] in request;
      var rest := request[0].samples[1..];
      assert rest == [] && MaxTimestampOfSamples(rest, timestamp) == timestamp;
      assert MaxTimestampOfSamples(request[0].samples, floor) == timestamp;
      MaxTimestampStamped(request[1..], timestamp, timestamp);
    }
  }

  // A batch read back as a checkpoint restores its timestamp and the snapshot it was built from.
  lemma BatchLoads(m: Memory, b: Batch)
    requires BatchOk(b)
    ensures MaxTimestamp(b.file.content.request.value) == b.timestamp
    ensures m.timestamp <= b.timestamp ==>
      Load(m, b.file) == Ok(m.(timestamp := b.timestamp, previous := b.current))
  {
    var request := WithStale(b.current, b.basis, b.timestamp);
    MarkersStamped(b.basis, LabelSets(b.current), b.timestamp);
    MaxTimestampStamped(request, b.timestamp, 0);
    assert AllActive(b.current);
    ActiveOfWithStale(b.current, b.basis, b.timestamp);
  }

  lemma StampedIsStamped(points: seq<Point>, timestamp: int)
    requires NoStaleBits(points)
    ensures StampedAt(Stamped(points, timestamp), timestamp)
  {
    var current := Stamped(points, timestamp);
    forall s | s in current
      ensures |s.samples| == 1 && s.samples[0].timestamp == timestamp && s.samples[0].bits != STALE_BITS
    {
      var i :| 0 <= i < |current| && current[i] == s;
      assert points[i] in points;
    }
  }

  lemma {:induction false} LossesSnoc(fates: seq<Fate>, f: Fate)
    ensures Losses(fates + [f]) == Losses(fates) + (if f == Acked then 0 else 1)
  {
    assert (fates + [f])[..|fates|] == fates;
  }

  // ---- each step keeps it --------------------------------------------------

  lemma IncreasingSnoc(q: seq<Batch>, b: Batch)
    requires Increasing(q) && b.timestamp <= MAX_INT64
    requires q != [] ==> q[|q| - 1].timestamp < b.timestamp
    ensures Increasing(q + [b])
  {
  }

  lemma IncreasingTail(q: seq<Batch>)
    requires q != [] && Increasing(q)
    ensures Increasing(q[1..])
  {
  }

  lemma AllOkSnoc(q: seq<Batch>, b: Batch)
    requires AllOk(q) && BatchOk(b)
    ensures AllOk(q + [b])
  {
  }

  lemma HoldsSnoc(dir: Directory, q: seq<Batch>, b: Batch)
    requires Holds(dir, q) && Increasing(q + [b])
    ensures Holds(dir[Name(b.timestamp) := b.file], q + [b])
  {
    var dir', q', names := dir[Name(b.timestamp) := b.file], q + [b], Names(q + [b]);
    assert q'[|q|] == b;
    forall i | 0 <= i < |q'| ensures Name(q'[i].timestamp) in dir' && dir'[Name(q'[i].timestamp)] == q'[i].file {
      NameOrder(q'[i].timestamp, q'[|q|].timestamp);
    }
    forall name | name in dir' && IsQueueName(name) ensures name in names {
      assert names[|q|] == Name(b.timestamp);
      if name != Name(b.timestamp) {
        var i :| 0 <= i < |q| && Names(q)[i] == name;
        assert names[i] == name;
      }
    }
  }

  ghost predicate StoresAll(dir: Directory, q: seq<Batch>) {
    forall i :: 0 <= i < |q| ==> Name(q[i].timestamp) in dir && dir[Name(q[i].timestamp)] == q[i].file
  }

  lemma StoresTail(dir: Directory, head: Batch, rest: seq<Batch>)
    requires StoresAll(dir, rest) && Increasing([head] + rest)
    ensures StoresAll(dir - {Name(head.timestamp)}, rest)
  {
    var all := [head] + rest;
    forall i | 0 <= i < |rest| ensures Name(rest[i].timestamp) != Name(head.timestamp) {
      assert all[i + 1] == rest[i] && all[0] == head;
      NameOrder(head.timestamp, rest[i].timestamp);
    }
  }

  lemma HoldsTail(dir: Directory, q: seq<Batch>)
    requires q != [] && Holds(dir, q) && Increasing(q)
    ensures Holds(dir - {Name(q[0].timestamp)}, q[1..])
  {
    var dir', rest, names := dir - {Name(q[0].timestamp)}, q[1..], Names(q);
    assert q == [q[0]] + rest && Names(rest) == names[1..];
    StoresTail(dir, q[0], rest);
    assert StoresAll(dir', rest);
    forall name | name in dir' && IsQueueName(name) ensures name in Names(rest) {
      assert name in names && name != names[0];
    }
  }

  // A change that leaves queue names alone leaves the queue alone.
  lemma HoldsElsewhere(dir: Directory, dir': Directory, q: seq<Batch>)
    requires Holds(dir, q) && Increasing(q)
    requires forall name :: IsQueueName(name) ==>
      (name in dir <==> name in dir') && (name in dir ==> dir[name] == dir'[name])
    ensures Holds(dir', q)
  {
    forall i | 0 <= i < |q| ensures Name(q[i].timestamp) in dir' && dir'[Name(q[i].timestamp)] == q[i].file {
      NameReadsBack(q[i].timestamp);
    }
  }

  lemma HeadIsStored(dir: Directory, q: seq<Batch>)
    requires q != [] && Holds(dir, q)
    ensures Name(q[0].timestamp) in dir && dir[Name(q[0].timestamp)] == q[0].file
  {
  }

  lemma NamesSnoc(q: seq<Batch>, b: Batch)
    ensures Names(q + [b]) == Names(q) + [Name(b.timestamp)]
  {
  }

  lemma SplitSnoc(h: History, b: Batch)
    requires Split(h.accepted, |h.fates|, h.queue, h.newest) && BatchOk(b)
    ensures Split(h.accepted + [b], |h.fates|, h.queue + [b], Some(b))
  {
    AllOkSnoc(h.accepted, b);
    assert (h.accepted + [b])[|h.fates|..] == h.queue + [b];
  }

  lemma ChainedSnoc(h: History, b: Batch)
    requires Split(h.accepted, |h.fates|, h.queue, h.newest) && Chained(h.accepted, h.breaks)
    requires |h.accepted| !in h.breaks ==> b.basis == SnapshotOf(h.newest) && TimestampOfBatch(h.newest) < b.timestamp
    ensures Chained(h.accepted + [b], h.breaks)
  {
    forall i: nat | i < |h.accepted + [b]| && i !in h.breaks ensures Linked(h.accepted + [b], i) {
      assert i < |h.accepted| ==> Linked(h.accepted, i);
    }
  }

  lemma DeliveredSnoc(h: History, b: Batch)
    requires Delivered(h.accepted, h.fates, h.posts, h.sent)
    ensures Delivered(h.accepted + [b], h.fates, h.posts, h.sent)
  {
  }

  lemma AcceptKeepsSound(o: Options, h: History, b: Batch)
    requires Sound(o, h) && Remembers(h) && BatchOk(b) && TimestampOfBatch(h.known) < b.timestamp
    requires TotalSize(h.queue) + b.file.size <= o.maxBytes
    ensures Sound(o, Accept(h, b))
  {
    AllOkSnoc(h.queue, b);
    IncreasingSnoc(h.queue, b);
    TotalSizeSnoc(h.queue, b);
  }

  lemma AcceptKeepsStored(o: Options, dir: Directory, q: seq<Batch>, saved: Option<Batch>, b: Batch)
    requires Stored(o, dir, q, saved) && Increasing(q + [b])
    ensures Stored(o, dir[Name(b.timestamp) := b.file], q + [b], saved)
  {
    HoldsSnoc(dir, q, b);
    assert (q + [b])[|q|].timestamp <= MAX_INT64;
    NameReadsBack(b.timestamp);
  }

  lemma AcceptKeepsLive(m: Memory, q: seq<Batch>, known: Option<Batch>, b: Batch)
    requires Live(m, q, known)
    ensures Live(Admit(m, b.current, b.timestamp, b.file.size), q + [b], Some(b))
  {
    TotalSizeSnoc(q, b);
    NamesSnoc(q, b);
  }

  lemma DelivererSnoc(d: Deliverer, q: seq<Batch>, b: Batch, fates: nat, sent: seq<nat>)
    requires DelivererOk(d, q, fates, sent)
    ensures DelivererOk(d, q + [b], fates, sent)
  {
  }

  lemma AcceptRemembers(h: History, b: Batch)
    requires BatchOk(b)
    ensures Remembers(Accept(h, b)) && CollectorOk(Writing(b.file), Accept(h, b))
  {
  }

  lemma AcceptKeeps(o: Options, s: System, b: Batch, p: Process)
    requires Inv(o, s) && s.process.Up? && BatchOk(b)
    requires TimestampOfBatch(s.history.known) < b.timestamp && b.basis == SnapshotOf(s.history.known)
    requires TotalSize(s.history.queue) + b.file.size <= o.maxBytes
    requires p == Up(Admit(s.process.memory, b.current, b.timestamp, b.file.size), Writing(b.file), s.process.deliverer)
    ensures Inv(o, System(s.dir[Name(b.timestamp) := b.file], p, Accept(s.history, b)))
  {
    var h := s.history;
    AcceptKeepsSound(o, h, b);
    AcceptKeepsStored(o, s.dir, h.queue, h.saved, b);
    AcceptKeepsLive(s.process.memory, h.queue, h.known, b);
    SplitSnoc(h, b);
    DeliveredSnoc(h, b);
    DelivererSnoc(p.deliverer, h.queue, b, |h.fates|, h.sent);
    AcceptRemembers(h, b);
    ChainedSnoc(h, b);
  }

  lemma FittingBatchIsOk(m: Memory, points: seq<Point>, timestamp: nat, rawLen: nat, bodyLen: nat, o: Options)
    requires NoStaleBits(points) && 1 <= timestamp <= MAX_INT64
    requires Judge(m, Stamped(points, timestamp), timestamp, rawLen, bodyLen, o).Fits?
    ensures var request := WithStale(Stamped(points, timestamp), m.previous, timestamp);
      BatchOk(Batch(timestamp, Stamped(points, timestamp), m.previous, Body(request, rawLen, bodyLen)))
    ensures m.queuedBytes + bodyLen <= o.maxBytes
  {
    StampedIsStamped(points, timestamp);
  }

  predicate Accepts(o: Options, s: System, points: seq<Point>, rawLen: nat, bodyLen: nat, written: bool)
    requires s.process.Up? && s.process.collector.Chosen?
  {
    var timestamp := s.process.collector.timestamp;
    written && Judge(s.process.memory, Stamped(points, timestamp), timestamp, rawLen, bodyLen, o).Fits?
  }

  // A step that at most counts a refusal, and frees the collector.
  function Idled(s: System, refused: nat): System
    requires s.process.Up?
  {
    System(s.dir, Up(s.process.memory.(dropped := s.process.memory.dropped + refused), Idle, s.process.deliverer),
           s.history.(refused := s.history.refused + refused))
  }

  lemma EnqueueIdles(o: Options, s: System, points: seq<Point>, rawLen: nat, bodyLen: nat, written: bool)
    requires s.process.Up? && s.process.collector.Chosen? && !Accepts(o, s, points, rawLen, bodyLen, written)
    ensures var t := ApplyEnqueue(o, s, points, rawLen, bodyLen, written); t == Idled(s, 0) || t == Idled(s, 1)
  {
  }

  lemma IdledKeeps(o: Options, s: System, refused: nat)
    requires Inv(o, s) && s.process.Up?
    ensures Inv(o, Idled(s, refused))
  {
  }

  lemma AcceptedKeeps(o: Options, s: System, points: seq<Point>, rawLen: nat, bodyLen: nat)
    requires Inv(o, s) && s.process.Up? && s.process.collector.Chosen? && NoStaleBits(points)
    requires Accepts(o, s, points, rawLen, bodyLen, true)
    ensures Inv(o, ApplyEnqueue(o, s, points, rawLen, bodyLen, true))
  {
    var m, timestamp := s.process.memory, s.process.collector.timestamp;
    var current := Stamped(points, timestamp);
    var request := Judge(m, current, timestamp, rawLen, bodyLen, o).request;
    FittingBatchIsOk(m, points, timestamp, rawLen, bodyLen, o);
    AcceptKeeps(o, s, Batch(timestamp, current, m.previous, Body(request, rawLen, bodyLen)),
                ApplyEnqueue(o, s, points, rawLen, bodyLen, true).process);
  }

  lemma CheckpointKeeps(o: Options, s: System, written: bool)
    requires Inv(o, s) && s.process.Up? && s.process.collector.Writing?
    ensures Inv(o, ApplyCheckpoint(s, written))
  {
    if written {
      assert !IsQueueName("state");
      HoldsElsewhere(s.dir, ApplyCheckpoint(s, written).dir, s.history.queue);
    }
  }

  lemma PostKeepsDelivered(h: History)
    requires Delivered(h.accepted, h.fates, h.posts, h.sent) && h.queue != []
    requires Split(h.accepted, |h.fates|, h.queue, h.newest)
    ensures Delivered(h.accepted, h.fates, h.posts + [h.queue[0].file], h.sent + [|h.fates|])
  {
    var sent' := h.sent + [|h.fates|];
    assert h.queue[0] == h.accepted[|h.fates|];
    forall k | 0 <= k < |h.fates| && h.fates[k] != Expired ensures k in sent' {
      assert k in h.sent;
    }
  }

  lemma DelivererKeeps(o: Options, s: System, d: Deliverer)
    requires Inv(o, s) && s.process.Up? && DelivererOk(d, s.history.queue, |s.history.fates|, s.history.sent)
    ensures Inv(o, s.(process := s.process.(deliverer := d)))
  {
  }

  lemma PostedKeeps(o: Options, s: System, d: Deliverer)
    requires Inv(o, s) && s.process.Up? && s.process.deliverer.Picked?
    requires DelivererOk(d, s.history.queue, |s.history.fates|, s.history.sent + [|s.history.fates|])
    ensures var h := s.history;
      Inv(o, System(s.dir, s.process.(deliverer := d),
                    h.(posts := h.posts + [h.queue[0].file], sent := h.sent + [|h.fates|])))
  {
    PostKeepsDelivered(s.history);
  }

  lemma AttemptKeeps(o: Options, s: System, now: int, answer: Answer)
    requires Inv(o, s) && s.process.Up? && s.process.deliverer.Picked?
    ensures Inv(o, ApplyAttempt(o, s, now, answer))
  {
    var h, name := s.history, s.process.deliverer.name;
    HeadIsStored(s.dir, h.queue);
    var size := h.queue[0].file.size;
    if answer.Unreadable? {
      DelivererKeeps(o, s, Resting);
    } else if IsExpired(now, TimestampOf(name), o.maxAge) {
      DelivererKeeps(o, s, Settled(name, size, Expired));
    } else if answer.Unsent? {
      DelivererKeeps(o, s, Resting);
    } else if answer.Lost? || IsRetryable(answer.code) {
      PostedKeeps(o, s, Resting);
    } else {
      PostedKeeps(o, s, Settled(name, size, if IsRejected(answer.code) then Rejected else Acked));
    }
  }

  lemma FateKeepsDelivered(h: History, fate: Fate)
    requires Delivered(h.accepted, h.fates, h.posts, h.sent)
    requires fate != Expired ==> h.sent != [] && h.sent[|h.sent| - 1] == |h.fates|
    ensures Delivered(h.accepted, h.fates + [fate], h.posts, h.sent)
  {
  }

  lemma RemoveKeepsStored(o: Options, dir: Directory, q: seq<Batch>, saved: Option<Batch>)
    requires Stored(o, dir, q, saved) && q != [] && Increasing(q)
    ensures Stored(o, dir - {Name(q[0].timestamp)}, q[1..], saved)
  {
    HoldsTail(dir, q);
    NameReadsBack(q[0].timestamp);
  }

  lemma RemoveKeepsLive(m: Memory, q: seq<Batch>, known: Option<Batch>, fate: Fate)
    requires Live(m, q, known) && q != []
    ensures m.files != [] && Live(Forget(m, q[0].file.size, fate), q[1..], known)
  {
    assert Names(q[1..]) == Names(q)[1..];
  }

  lemma RemoveKeepsSound(o: Options, h: History, fate: Fate)
    requires Sound(o, h) && h.queue != []
    ensures Sound(o, h.(fates := h.fates + [fate], queue := h.queue[1..]))
  {
    IncreasingTail(h.queue);
  }

  lemma RemoveKeepsCounted(p: Process, h: History, size: nat, fate: Fate, d: Deliverer)
    requires Counted(p, h) && p.Up? && p.memory.files != [] && h.queue != []
    ensures Counted(p.(memory := Forget(p.memory, size, fate), deliverer := d),
                    h.(fates := h.fates + [fate], queue := h.queue[1..]))
  {
    assert (h.fates + [fate])[h.restarts..] == h.fates[h.restarts..] + [fate];
    LossesSnoc(h.fates[h.restarts..], fate);
  }

  lemma RemoveKeeps(o: Options, s: System, removed: bool)
    requires Inv(o, s) && s.process.Up? && s.process.deliverer.Settled? && !s.process.collector.Writing?
    ensures Inv(o, ApplyRemove(s, removed))
  {
    var h, d := s.history, s.process.deliverer;
    if removed && d.name in s.dir && s.process.memory.files != [] {
      RemoveKeepsSound(o, h, d.fate);
      RemoveKeepsStored(o, s.dir, h.queue, h.saved);
      RemoveKeepsLive(s.process.memory, h.queue, h.known, d.fate);
      RemoveKeepsCounted(s.process, h, d.size, d.fate, Resting);
      FateKeepsDelivered(h, d.fate);
      assert Split(h.accepted, |h.fates| + 1, h.queue[1..], h.newest);
      assert Remembers(h.(fates := h.fates + [d.fate], queue := h.queue[1..]));
    }
  }

  lemma EnqueueKeeps(o: Options, s: System, points: seq<Point>, rawLen: nat, bodyLen: nat, written: bool)
    requires Inv(o, s) && s.process.Up? && s.process.collector.Chosen? && NoStaleBits(points)
    ensures Inv(o, ApplyEnqueue(o, s, points, rawLen, bodyLen, written))
  {
    if Accepts(o, s, points, rawLen, bodyLen, written) {
      AcceptedKeeps(o, s, points, rawLen, bodyLen);
    } else {
      EnqueueIdles(o, s, points, rawLen, bodyLen, written);
      IdledKeeps(o, s, 0);
      IdledKeeps(o, s, 1);
    }
  }

  lemma CrashKeeps(o: Options, s: System, litter: Directory)
    requires Inv(o, s) && s.process.Up? && forall name :: name in litter ==> IsPending(name)
    ensures Inv(o, s.(dir := s.dir + litter, process := Down))
  {
    HoldsElsewhere(s.dir, s.dir + litter, s.history.queue);
    assert "destination"[..9][0] != ".pending-"[0];
    assert !IsPending("state") && !IsPending("destination");
  }
}
