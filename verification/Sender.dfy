// internal/remotewrite/sender.go as a class: the lock-held sections of one Sender and their loops.
module Sender {
  import opened Text
  import opened SeriesKey
  import opened Stale
  import opened Queue
  import opened QueueNames
  import opened QueueInvariant
  import opened QueueRestart
  import EncodeFamilies

  // The queue directory. Writing a file is all or nothing, as atomicWrite makes it.
  class Disk {
    var entries: Directory

    constructor (entries: Directory)
      ensures this.entries == entries
    {
      this.entries := entries;
    }
  }

  datatype EnqueueOutcome = Skipped | Oversized | QueueFull | NotWritten | NotCheckpointed | Enqueued

  // What one call of enqueue does, given how its two file writes go.
  function EnqueueEffect(m: Memory, dir: Directory, current: Request, timestamp: nat, rawLen: nat, bodyLen: nat,
                         written: bool, checkpointed: bool, o: Options): (Memory, Directory, EnqueueOutcome)
  {
    match Judge(m, current, timestamp, rawLen, bodyLen, o)
    case Nothing => (m, dir, Skipped)
    case TooLarge => (m.(dropped := m.dropped + 1), dir, Oversized)
    case Full => (m.(dropped := m.dropped + 1), dir, QueueFull)
    case Fits(request) =>
      var file := Body(request, rawLen, bodyLen);
      if !written then (m, dir, NotWritten)
      else if !checkpointed then (Admit(m, current, timestamp, bodyLen), dir[Name(timestamp) := file], NotCheckpointed)
      else (Admit(m, current, timestamp, bodyLen), dir[Name(timestamp) := file]["state" := file], Enqueued)
  }

  // What one attempt on a file gives: its fate, if that is settled, and what was POSTed, if anything.
  ghost predicate Attempted(dir: Directory, name: string, now: int, answer: Answer, o: Options,
                            settled: Option<(nat, Fate)>, posted: Option<File>)
  {
    var readable := name in dir && !answer.Unreadable?;
    var expired := now - 1_000_000 * TimestampOf(name) > o.maxAge;
    && posted == (if readable && !expired && !answer.Unsent? then Some(dir[name]) else None)
    && settled ==
       if !readable then None
       else if expired then Some((dir[name].size, Expired))
       else if answer.Status? && 200 <= answer.code < 300 then Some((dir[name].size, Acked))
       else if answer.Status? && answer.code < 500 && answer.code != 429 then Some((dir[name].size, Rejected))
       else None
  }

  // What one attempt on a batch gives.
  predicate Meets(head: Batch, now: int, answer: Answer, maxAge: int, posted: Option<File>, fate: Option<Fate>) {
    var expired := now - 1_000_000 * head.timestamp > maxAge;
    && posted == (if answer.Unreadable? || expired || answer.Unsent? then None else Some(head.file))
    && (fate == Some(Expired) <==> !answer.Unreadable? && expired)
    && (fate == Some(Acked) <==> !expired && answer.Status? && 200 <= answer.code < 300)
    && (fate == Some(Rejected)
        <==> !expired && answer.Status? && !(200 <= answer.code < 300) && answer.code < 500 && answer.code != 429)
  }

  lemma AttemptMeets(dir: Directory, name: string, head: Batch, now: int, answer: Answer, o: Options,
                     settled: Option<(nat, Fate)>, posted: Option<File>)
    requires Attempted(dir, name, now, answer, o, settled, posted)
    requires name in dir && dir[name] == head.file && TimestampOf(name) == head.timestamp
    ensures Meets(head, now, answer, o.maxAge, posted, if settled.Some? then Some(settled.value.1) else None)
    ensures settled.Some? ==> settled.value.0 == head.file.size
  {
  }

  ghost predicate Queued(m: Memory, dir: Directory, queue: seq<Batch>) {
    && Increasing(queue) && Holds(dir, queue)
    && m.files == Names(queue) && m.queuedBytes == TotalSize(queue) && m.queuedBatches == |queue|
    && 0 <= m.timestamp <= MAX_INT64 && (queue != [] ==> queue[|queue| - 1].timestamp <= m.timestamp)
  }

  // What the second locked section does, given whether the file could be removed.
  ghost predicate Finished(m: Memory, dir: Directory, name: string, size: nat, fate: Fate, removed: bool,
                           sent: bool, m': Memory, dir': Directory)
    requires m.files != []
  {
    && (sent <==> removed && name in dir)
    && (sent ==> dir' == dir - {name} && m' == Forget(m, size, fate))
    && (!sent ==> dir' == dir && m' == m)
  }

  class Sender {
    const opts: Options
    const disk: Disk

    var files: seq<string>
    var queuedBytes: int
    var queuedBatches: nat
    var dropped: nat
    var previous: Request
    var timestamp: int

    constructor (opts: Options, disk: Disk)
      ensures this.opts == opts && this.disk == disk && State() == EMPTY
    {
      this.opts, this.disk := opts, disk;
      files, queuedBytes, queuedBatches, dropped, previous, timestamp := [], 0, 0, 0, [], 0;
    }

    function State(): Memory
      reads this
    {
      Memory(files, queuedBytes, queuedBatches, dropped, previous, timestamp)
    }

    // Checks or writes the manifest.
    method BindDestination(io: Faults) returns (error: Option<RestoreError>)
      modifies disk
      ensures match Bind(old(disk.entries), opts.want, io)
        case Ok(dir) => error == None && disk.entries == dir
        case Err(e) => error == Some(e) && disk.entries == old(disk.entries)
    {
      if io.manifest {
        return Some(Io);
      }
      if "destination" in disk.entries {
        if disk.entries["destination"].content != Manifest(opts.want) {
          return Some(WrongDestination);
        }
      } else {
        disk.entries := disk.entries["destination" := File(|opts.want|, true, Manifest(opts.want))];
      }
      return None;
    }

    // Lists the queue, sweeping out what interrupted writes left behind.
    method ScanDirectory(entries: seq<string>, io: Faults) returns (error: Option<RestoreError>)
      requires State() == EMPTY
      modifies this, disk
      ensures match ScanAll(Scan(old(disk.entries), [], 0), entries, io)
        case Ok(scan) => error == None && disk.entries == scan.dir
                         && State() == EMPTY.(files := scan.files, queuedBytes := scan.bytes)
        case Err(e) => error == Some(e)
      ensures forall name :: name in old(disk.entries) && !IsPending(name) ==>
        name in disk.entries && disk.entries[name] == old(disk.entries[name])
    {
      var i := 0;
      while i < |entries|
        invariant 0 <= i <= |entries|
        invariant queuedBytes >= 0 && State() == EMPTY.(files := files, queuedBytes := queuedBytes)
        invariant ScanAll(Scan(old(disk.entries), [], 0), entries, io)
               == ScanAll(Scan(disk.entries, files, queuedBytes), entries[i..], io)
        invariant forall name :: name in old(disk.entries) && !IsPending(name) ==>
          name in disk.entries && disk.entries[name] == old(disk.entries[name])
      {
        var name := entries[i];
        assert entries[i..][0] == name && entries[i..][1..] == entries[i + 1..];
        if HasPrefix(name, ".pending-") {
          if name in io.stuck {
            return Some(Io);
          }
          disk.entries := disk.entries - {name};
        } else if HasSuffix(name, ".rw") {
          if ParseInt64(TrimSuffix(name, ".rw")).None? {
            return Some(BadName);
          }
          if name !in disk.entries || name in io.hidden {
            return Some(Io);
          }
          if !disk.entries[name].regular || disk.entries[name].size > MAX_BATCH {
            return Some(BadFile);
          }
          files := files + [name];
          queuedBytes := queuedBytes + disk.entries[name].size;
        }
        i := i + 1;
      }
      assert entries[i..] == [];
      return None;
    }

    // Takes a checkpoint file unless it is older than what is already known.
    method LoadCheckpoint(file: File) returns (error: Option<RestoreError>)
      modifies this
      ensures match Load(old(State()), file)
        case Ok(m) => error == None && State() == m
        case Err(e) => error == Some(e)
    {
      if file.size > MAX_BATCH {
        return Some(CheckpointTooLarge);
      }
      if !file.content.Snappy? || file.content.decodedLen > MAX_BATCH {
        return Some(BadCompression);
      }
      if file.content.request.None? {
        return Some(BadRequest);
      }
      var request := file.content.request.value;
      var ts := 0;
      for i := 0 to |request|
        invariant MaxTimestamp(request) == MaxTimestampFrom(request[i..], ts)
        invariant State() == old(State())
      {
        assert request[i..][1..] == request[i + 1..];
        var samples := request[i].samples;
        ghost var before := ts;
        for j := 0 to |samples|
          invariant MaxTimestampOfSamples(samples, before) == MaxTimestampOfSamples(samples[j..], ts)
          invariant State() == old(State())
        {
          assert samples[j..][1..] == samples[j + 1..];
          ts := if samples[j].timestamp > ts then samples[j].timestamp else ts;
        }
        assert samples[|samples|..] == [];
      }
      assert request[|request|..] == [];
      if ts >= timestamp {
        timestamp := ts;
        previous := ActiveSeriesMethod(request);
      }
      return None;
    }

    method LoadCandidates(candidates: seq<string>, io: Faults) returns (error: Option<RestoreError>)
      modifies this
      ensures match LoadAll(old(State()), disk.entries, candidates, io)
        case Ok(m) => error == None && State() == m
        case Err(e) => error == Some(e)
    {
      var i := 0;
      while i < |candidates|
        invariant 0 <= i <= |candidates|
        invariant LoadAll(old(State()), disk.entries, candidates, io)
               == LoadAll(State(), disk.entries, candidates[i..], io)
      {
        assert candidates[i..][0] == candidates[i] && candidates[i..][1..] == candidates[i + 1..];
        if candidates[i] in io.hidden {
          return Some(Io);
        }
        if candidates[i] in disk.entries {
          if disk.entries[candidates[i]].size <= MAX_BATCH && candidates[i] in io.unread {
            return Some(Io);
          }
          error := LoadCheckpoint(disk.entries[candidates[i]]);
          if error.Some? {
            return;
          }
        }
        i := i + 1;
      }
      assert candidates[i..] == [];
      return None;
    }

    // restore: the whole start-up, for any directory, any listing of it and any failing operation.
    method Restore(entries: seq<string>, io: Faults) returns (error: Option<RestoreError>)
      requires State() == EMPTY
      modifies this, disk
      ensures match Queue.Restore(old(disk.entries), entries, opts, io)
        case Ok((dir, m)) => error == None && disk.entries == dir && State() == m
        case Err(e) => error == Some(e)
      ensures forall name :: name in old(disk.entries) && !IsPending(name) ==>
        name in disk.entries && disk.entries[name] == old(disk.entries[name])
    {
      error := BindDestination(io);
      if error.Some? {
        return;
      }
      if io.listing {
        return Some(Io);
      }
      error := ScanDirectory(entries, io);
      if error.Some? {
        return;
      }
      error := RecallState(io);
    }

    method RecallState(io: Faults) returns (error: Option<RestoreError>)
      requires queuedBytes >= 0 && State() == EMPTY.(files := files, queuedBytes := queuedBytes)
      modifies this
      ensures match Recall(Scan(disk.entries, old(files), old(queuedBytes)), opts, io)
        case Ok(m) => error == None && State() == m
        case Err(e) => error == Some(e)
    {
      files := SortBy(Self, files);
      queuedBatches := |files|;
      if queuedBytes > opts.maxBytes {
        return Some(OverCap);
      }
      var candidates := ["state"];
      if |files| > 0 {
        candidates := candidates + [files[|files| - 1]];
      }
      error := LoadCandidates(candidates, io);
    }

    // enqueue: written and checkpointed are how the two atomic writes go.
    method Enqueue(current: Request, timestamp: nat, rawLen: nat, bodyLen: nat, written: bool, checkpointed: bool)
      returns (outcome: EnqueueOutcome)
      modifies this, disk
      ensures (State(), disk.entries, outcome)
           == EnqueueEffect(old(State()), old(disk.entries), current, timestamp,
                            rawLen, bodyLen, written, checkpointed, opts)
      // A snapshot enters the queue exactly if it has something to say or to end, is small enough
      // before and after compression, fits under the cap, and its file is written; only what is too
      // large or does not fit counts as dropped.
      ensures var telling := current != [] || old(previous) != [];
        var fits := rawLen <= 4_194_304 && bodyLen <= 4_194_304 && old(queuedBytes) + bodyLen <= opts.maxBytes;
        && files == old(files) + (if telling && fits && written then [Name(timestamp)] else [])
        && previous == (if telling && fits && written then current else old(previous))
        && dropped == old(dropped) + (if telling && !fits then 1 else 0)
        && (outcome.Skipped? <==> !telling)
        && (outcome.Oversized? || outcome.QueueFull? <==> telling && !fits)
        && (outcome.NotWritten? <==> telling && fits && !written)
        && (outcome.NotCheckpointed? <==> telling && fits && written && !checkpointed)
    {
      EmptyOnlyIfNothing(current, previous, timestamp);
      var request := WithStaleMethod(current, previous, timestamp);
      if |request| == 0 {
        return Skipped;
      }
      if rawLen > MAX_BATCH {
        dropped := dropped + 1;
        return Oversized;
      }
      if bodyLen > MAX_BATCH || queuedBytes + bodyLen > opts.maxBytes {
        dropped := dropped + 1;
        return QueueFull;
      }
      var body := File(bodyLen, true, Snappy(rawLen, Some(request)));
      var name := Pad(timestamp, 20) + ".rw";
      if !written {
        return NotWritten;
      }
      disk.entries := disk.entries[name := body];
      files := files + [name];
      queuedBytes := queuedBytes + bodyLen;
      queuedBatches := |files|;
      previous := current;
      this.timestamp := timestamp;
      if !checkpointed {
        return NotCheckpointed;
      }
      disk.entries := disk.entries["state" := body];
      return Enqueued;
    }

    // collect's choice of a timestamp: the clock's, unless that would not move forward.
    method ChooseTimestamp(now: int) returns (ts: int)
      ensures ts > timestamp && ts >= now && (ts == now || ts == timestamp + 1)
    {
      return if now > timestamp + 1 then now else timestamp + 1;
    }

    // collect: gathered is None if gathering failed.
    method Collect(gathered: Option<seq<EncodeFamilies.Family>>, host: string, now: int,
                   rawLen: nat, bodyLen: nat, written: bool, checkpointed: bool)
      returns (outcome: Option<EnqueueOutcome>, ghost current: Request, ghost ts: nat)
      requires timestamp >= 0
      modifies this, disk
      ensures outcome.None? <==> gathered.None? || !EncodeFamilies.Supported(gathered.value)
      ensures outcome.None? ==> State() == old(State()) && disk.entries == old(disk.entries)
      ensures outcome.Some? ==> ts > old(timestamp) && ts >= now && (ts == now || ts == old(timestamp) + 1)
      ensures outcome.Some? ==> SortedBy(EncodeFamilies.KeyOf, current)
      ensures outcome.Some? && EncodeFamilies.AllProper(gathered.value) ==>
        && EncodeFamilies.Encodes(current, gathered.value, host, ts)
        && EncodeFamilies.ReadsBack(current, gathered.value, host, ts)
        && exists points :: current == Stamped(points, ts)
      ensures outcome.Some? ==>
        (State(), disk.entries, outcome.value)
        == EnqueueEffect(old(State()), old(disk.entries), current, ts, rawLen, bodyLen, written, checkpointed, opts)
    {
      outcome, current, ts := None, [], 0;
      if gathered.None? {
        return;
      }
      var stamp := ChooseTimestamp(now);
      var encoded := EncodeFamilies.EncodeFamilies(gathered.value, host, stamp);
      if encoded.None? {
        return;
      }
      current, ts := encoded.value, stamp;
      if EncodeFamilies.AllProper(gathered.value) {
        var unsorted :| EncodeFamilies.Renders(unsorted, EncodeFamilies.Points(gathered.value, host), stamp)
                        && encoded.value == SortBy(EncodeFamilies.KeyOf, unsorted);
        EncodedIsStamped(unsorted, EncodeFamilies.Points(gathered.value, host), stamp);
      }
      var done := Enqueue(encoded.value, stamp, rawLen, bodyLen, written, checkpointed);
      outcome := Some(done);
    }

    // Files and disk hold exactly this queue, and the timestamp has passed it.
    ghost predicate Keeps(queue: seq<Batch>)
      reads this, disk
    {
      Queued(State(), disk.entries, queue)
    }

    // sendOne, first locked section: the oldest batch, if any is queued.
    method PickHead(ghost queue: seq<Batch>) returns (name: Option<string>)
      requires Keeps(queue)
      ensures name.None? <==> queue == []
      ensures name.Some? ==> exists b :: b in queue && name.value == Name(b.timestamp)
                                         && forall c :: c in queue ==> b.timestamp <= c.timestamp
    {
      if |files| == 0 {
        return None;
      }
      assert files[0] == Name(queue[0].timestamp) && queue[0] in queue;
      return Some(files[0]);
    }

    // sendOne, between its locked sections: one attempt on a file it has named.
    method AttemptFile(name: string, now: int, answer: Answer)
      returns (settled: Option<(nat, Fate)>, posted: Option<File>)
      ensures Attempted(disk.entries, name, now, answer, opts, settled, posted)
    {
      settled, posted := None, None;
      if answer.Unreadable? || name !in disk.entries {
        return;
      }
      var body := disk.entries[name];
      var expired := now - 1_000_000 * TimestampOf(name) > opts.maxAge;
      var rejected := false;
      if !expired {
        if answer.Unsent? {
          return;
        }
        posted := Some(body);
        if answer.Lost? || answer.code >= 500 || answer.code == 429 {
          return;
        }
        rejected := answer.code < 200 || answer.code >= 300;
      }
      settled := Some((body.size, if expired then Expired else if rejected then Rejected else Acked));
    }

    // sendOne, second locked section: drops files[0], whatever it is by now.
    method Finish(name: string, size: nat, fate: Fate, removed: bool) returns (sent: bool)
      requires files != []
      modifies this, disk
      ensures Finished(old(State()), old(disk.entries), name, size, fate, removed, sent, State(), disk.entries)
    {
      if !removed || name !in disk.entries {
        return false;
      }
      disk.entries := disk.entries - {name};
      files := files[1..];
      queuedBytes := queuedBytes - size;
      queuedBatches := |files|;
      if fate != Acked {
        dropped := dropped + 1;
      }
      return true;
    }

    // The collecting goroutine, wherever the sender is not locked: any number of snapshots. The queue
    // only grows at its end.
    method Interfere(ghost queue: seq<Batch>) returns (ghost grown: seq<Batch>)
      requires Keeps(queue)
      modifies this, disk
      ensures Keeps(grown) && queue <= grown
    {
      grown := queue;
      var n: nat := *;
      while n > 0
        invariant Keeps(grown) && queue <= grown
        decreases n
      {
        n := n - 1;
        var now: int := *;
        if timestamp < MAX_INT64 && now <= MAX_INT64 {
          grown := EnqueueAny(grown, now);
        }
      }
    }

    method EnqueueAny(ghost queue: seq<Batch>, now: int) returns (ghost grown: seq<Batch>)
      requires Keeps(queue) && timestamp < MAX_INT64 && now <= MAX_INT64
      modifies this, disk
      ensures Keeps(grown) && queue <= grown
    {
      var current: Request := *;
      var rawLen: nat, bodyLen: nat, written: bool, checkpointed: bool := *, *, *, *;
      var ts := ChooseTimestamp(now);
      EnqueueGrows(State(), disk.entries, queue, current, ts, rawLen, bodyLen, written, checkpointed, opts);
      grown := queue + Accepted(State(), current, ts, rawLen, bodyLen, written, opts);
      var outcome := Enqueue(current, ts, rawLen, bodyLen, written, checkpointed);
    }

    // sendOne whole, the collecting goroutine running between its two locked sections. It is the
    // oldest batch that is POSTed and leaves, and nothing else leaves: dropped once it is too old,
    // acknowledged by a 2xx, kept for another attempt after a 5xx, a 429 or a lost response, and
    // dropped after any other status.
    method SendOne(now: int, answer: Answer, removed: bool, ghost queue: seq<Batch>)
      returns (sent: bool, posted: Option<File>, fate: Option<Fate>, ghost left: seq<Batch>)
      requires Keeps(queue)
      modifies this, disk
      ensures queue == [] ==> fate == None && posted == None
      ensures queue != [] ==> Meets(queue[0], now, answer, opts.maxAge, posted, fate)
      ensures sent <==> fate.Some? && removed
      ensures Keeps(left) && (if sent then queue[1..] else queue) <= left
    {
      sent, posted, fate, left := false, None, None, queue;
      var name := PickHead(queue);
      if name.None? {
        return;
      }
      HeadIsOldest(queue, name.value);
      left := Interfere(queue);
      var size;
      size, fate, posted := AttemptHead(name.value, now, answer, left);
      if fate.Some? {
        sent, left := FinishLater(name.value, size, fate.value, removed, left);
      }
    }

    // The attempt, on a file that is still the head whatever was queued meanwhile.
    method AttemptHead(name: string, now: int, answer: Answer, ghost queue: seq<Batch>)
      returns (size: nat, fate: Option<Fate>, posted: Option<File>)
      requires Keeps(queue) && queue != []
      requires name == Name(queue[0].timestamp) && TimestampOf(name) == queue[0].timestamp
      ensures Meets(queue[0], now, answer, opts.maxAge, posted, fate)
      ensures fate.Some? ==> size == queue[0].file.size
    {
      HeadIsQueued(State(), disk.entries, queue);
      var settled, body := AttemptFile(name, now, answer);
      AttemptMeets(disk.entries, name, queue[0], now, answer, opts, settled, body);
      posted := body;
      size, fate := if settled.Some? then settled.value.0 else 0, None;
      if settled.Some? {
        fate := Some(settled.value.1);
      }
    }

    // The second locked section, after the collecting goroutine has run once more.
    method FinishLater(name: string, size: nat, fate: Fate, removed: bool, ghost queue: seq<Batch>)
      returns (sent: bool, ghost left: seq<Batch>)
      requires Keeps(queue) && queue != [] && name == Name(queue[0].timestamp) && size == queue[0].file.size
      modifies this, disk
      ensures sent == removed && Keeps(left) && (if sent then queue[1..] else queue) <= left
    {
      left := Interfere(queue);
      HeadIsQueued(State(), disk.entries, left);
      HeadLeaves(State(), disk.entries, left, size, fate);
      sent := Finish(name, size, fate, removed);
      if sent {
        left := left[1..];
      }
    }
  }

  // The batch that one call of enqueue adds to the queue, if it does.
  function Accepted(m: Memory, current: Request, timestamp: nat, rawLen: nat, bodyLen: nat, written: bool, o: Options)
    : seq<Batch>
  {
    match Judge(m, current, timestamp, rawLen, bodyLen, o)
    case Fits(request) =>
      if written then [Batch(timestamp, current, m.previous, Body(request, rawLen, bodyLen))] else []
    case _ => []
  }

  lemma AdmitKeepsQueued(m: Memory, dir: Directory, queue: seq<Batch>, b: Batch)
    requires Queued(m, dir, queue) && m.timestamp < b.timestamp <= MAX_INT64
    ensures Queued(Admit(m, b.current, b.timestamp, b.file.size), dir[Name(b.timestamp) := b.file], queue + [b])
  {
    IncreasingSnoc(queue, b);
    HoldsSnoc(dir, queue, b);
    NamesSnoc(queue, b);
    TotalSizeSnoc(queue, b);
    assert (queue + [b])[|queue|] == b;
  }

  lemma CheckpointKeepsQueued(m: Memory, dir: Directory, queue: seq<Batch>, file: File)
    requires Queued(m, dir, queue)
    ensures Queued(m, dir["state" := file], queue)
  {
    assert !IsQueueName("state") by {
      assert "state"[2..] == "ate";
    }
    HoldsElsewhere(dir, dir["state" := file], queue);
  }

  lemma EffectOfAccepted(m: Memory, dir: Directory, current: Request, timestamp: nat, rawLen: nat, bodyLen: nat,
                         written: bool, checkpointed: bool, o: Options)
    ensures var (m', dir', _) := EnqueueEffect(m, dir, current, timestamp, rawLen, bodyLen, written, checkpointed, o);
      var added := Accepted(m, current, timestamp, rawLen, bodyLen, written, o);
      if added == [] then dir' == dir && (m' == m || m' == m.(dropped := m.dropped + 1))
      else
        var b := added[0];
        && added == [b] && b.timestamp == timestamp && m' == Admit(m, b.current, timestamp, b.file.size)
        && var stored := dir[Name(timestamp) := b.file];
          dir' == if checkpointed then stored["state" := b.file] else stored
  {
  }

  lemma DropKeepsQueued(m: Memory, dir: Directory, queue: seq<Batch>)
    requires Queued(m, dir, queue)
    ensures Queued(m.(dropped := m.dropped + 1), dir, queue)
  {
  }

  lemma EnqueueGrows(m: Memory, dir: Directory, queue: seq<Batch>, current: Request, timestamp: nat, rawLen: nat,
                     bodyLen: nat, written: bool, checkpointed: bool, o: Options)
    requires Queued(m, dir, queue) && m.timestamp < timestamp <= MAX_INT64
    ensures var (m', dir', _) := EnqueueEffect(m, dir, current, timestamp, rawLen, bodyLen, written, checkpointed, o);
      Queued(m', dir', queue + Accepted(m, current, timestamp, rawLen, bodyLen, written, o))
  {
    var added := Accepted(m, current, timestamp, rawLen, bodyLen, written, o);
    EffectOfAccepted(m, dir, current, timestamp, rawLen, bodyLen, written, checkpointed, o);
    DropKeepsQueued(m, dir, queue);
    assert queue + [] == queue;
    if added != [] {
      var b := added[0];
      AdmitKeepsQueued(m, dir, queue, b);
      CheckpointKeepsQueued(Admit(m, b.current, timestamp, b.file.size), dir[Name(timestamp) := b.file],
                            queue + [b], b.file);
    }
  }

  // The oldest batch of an ordered queue is its head, which reads back from its name.
  lemma HeadIsOldest(queue: seq<Batch>, name: string)
    requires Increasing(queue)
    requires exists b ::
      b in queue && name == Name(b.timestamp) && forall c :: c in queue ==> b.timestamp <= c.timestamp
    ensures queue != [] && name == Name(queue[0].timestamp) && TimestampOf(name) == queue[0].timestamp
  {
    var b :| b in queue && name == Name(b.timestamp) && forall c :: c in queue ==> b.timestamp <= c.timestamp;
    var i :| 0 <= i < |queue| && queue[i] == b;
    assert queue[0] in queue;
    NameReadsBack(queue[0].timestamp);
  }

  lemma HeadIsQueued(m: Memory, dir: Directory, queue: seq<Batch>)
    requires Queued(m, dir, queue) && queue != []
    ensures m.files != [] && m.files[0] == Name(queue[0].timestamp)
    ensures m.files[0] in dir && dir[m.files[0]] == queue[0].file
  {
    HeadIsStored(dir, queue);
  }

  lemma NamesTail(queue: seq<Batch>)
    requires queue != []
    ensures Names(queue[1..]) == Names(queue)[1..] && TotalSize(queue) == queue[0].file.size + TotalSize(queue[1..])
  {
  }

  lemma ForgetIs(m: Memory, size: nat, fate: Fate)
    requires m.files != []
    ensures var m' := Forget(m, size, fate);
      && m'.files == m.files[1..] && m'.queuedBytes == m.queuedBytes - size
      && m'.queuedBatches == |m.files| - 1 && m'.timestamp == m.timestamp
  {
  }

  lemma HeadLeaves(m: Memory, dir: Directory, queue: seq<Batch>, size: nat, fate: Fate)
    requires Queued(m, dir, queue) && queue != [] && size == queue[0].file.size
    ensures m.files != [] && Queued(Forget(m, size, fate), dir - {Name(queue[0].timestamp)}, queue[1..])
  {
    ForgetIs(m, size, fate);
    IncreasingTail(queue);
    HoldsTail(dir, queue);
    NamesTail(queue);
    assert queue[1..] != [] ==> queue[1..][|queue[1..]| - 1] == queue[|queue| - 1];
  }

  // A restarted sender keeps the queue that its directory holds, so SendOne may be called on it.
  lemma RestoredIsQueued(o: Options, dir: Directory, queue: seq<Batch>, saved: Option<Batch>, entries: seq<string>)
    requires Restorable(o, dir, queue, saved) && Lists(entries, dir, o.want)
    ensures Queue.Restore(dir, entries, o).Ok?
    ensures var (dir', m) := Queue.Restore(dir, entries, o).value; Queued(m, dir', queue)
  {
    RestoreRebuilds(o, dir, queue, saved, entries);
    if queue != [] {
      assert BatchOk(queue[|queue| - 1]);
    }
  }

  // The class and the step system agree: one call of Enqueue is the two steps it is split into
  // for crashes.
  lemma EnqueueIsTwoSteps(o: Options, s: System, points: seq<Point>, rawLen: nat, bodyLen: nat, written: bool,
                          checkpointed: bool)
    requires s.process.Up? && s.process.collector.Chosen? && NoStaleBits(points)
    ensures var t := Apply(o, Apply(o, s, Event.Enqueue(points, rawLen, bodyLen, written)), Checkpoint(checkpointed));
      var timestamp := s.process.collector.timestamp;
      var (m, dir, _) := EnqueueEffect(s.process.memory, s.dir, Stamped(points, timestamp), timestamp,
                                       rawLen, bodyLen, written, checkpointed, o);
      t.process == Up(m, Idle, s.process.deliverer) && t.dir == dir
  {
  }

  // One attempt in the class is one attempt of the system, whose history records the POST.
  lemma AttemptIsOneStep(o: Options, s: System, now: int, answer: Answer, settled: Option<(nat, Fate)>,
                         posted: Option<File>)
    requires s.process.Up? && s.process.deliverer.Picked?
    requires Attempted(s.dir, s.process.deliverer.name, now, answer, o, settled, posted)
    ensures var name, t := s.process.deliverer.name, Apply(o, s, Attempt(now, answer));
      && t.dir == s.dir && t.process.Up? && t.process.memory == s.process.memory
      && t.process.deliverer == (if settled.Some? then Settled(name, settled.value.0, settled.value.1) else Resting)
      && t.history.posts == s.history.posts + (if posted.Some? then [posted.value] else [])
  {
  }

  // The choice of a timestamp is the Choose step.
  lemma ChoosingIsOneStep(o: Options, s: System, now: int, ts: nat)
    requires s.process.Up? && s.process.collector.Idle?
    requires 0 <= s.process.memory.timestamp < MAX_INT64 && now <= MAX_INT64
    requires ts > s.process.memory.timestamp && ts >= now && (ts == now || ts == s.process.memory.timestamp + 1)
    ensures Apply(o, s, Choose(now)) == s.(process := s.process.(collector := Chosen(ts)))
  {
  }

  // The head that PickHead names is the one the Pick step takes.
  lemma PickIsOneStep(o: Options, s: System)
    requires Inv(o, s) && s.process.Up? && s.process.deliverer.Resting? && !s.process.collector.Writing?
    ensures var queue := s.history.queue;
      Apply(o, s, Pick) ==
        if queue == [] then s else s.(process := s.process.(deliverer := Picked(Name(queue[0].timestamp))))
  {
    assert s.process.memory.files == Names(s.history.queue);
  }

  // What Finish does is the Remove step.
  lemma FinishIsOneStep(o: Options, s: System, removed: bool, sent: bool, m': Memory, dir': Directory)
    requires s.process.Up? && s.process.deliverer.Settled? && !s.process.collector.Writing?
    requires s.process.memory.files != []
    requires var d := s.process.deliverer;
      Finished(s.process.memory, s.dir, d.name, d.size, d.fate, removed, sent, m', dir')
    ensures var t := Apply(o, s, Remove(removed));
      && t.dir == dir' && t.process == Up(m', s.process.collector, Resting)
      && t.history.fates == s.history.fates + (if sent then [s.process.deliverer.fate] else [])
  {
  }

  // What encodeFamilies returns is a stamped snapshot, the kind the step system enqueues.
  lemma EncodedIsStamped(series: Request, points: seq<EncodeFamilies.Point>, timestamp: int)
    requires EncodeFamilies.Renders(series, points, timestamp)
    ensures exists ps: seq<Point> :: SortBy(EncodeFamilies.KeyOf, series) == Stamped(ps, timestamp)
  {
    var sorted := SortBy(EncodeFamilies.KeyOf, series);
    SortBySorts(EncodeFamilies.KeyOf, series);
    SameElements(sorted, series);
    forall i | 0 <= i < |sorted| ensures |sorted[i].samples| == 1 && sorted[i].samples[0].timestamp == timestamp {
      assert sorted[i] in Elements(sorted);
      assert sorted[i] in series;
    }
    var ps := seq(|sorted|, i requires 0 <= i < |sorted| => Point(sorted[i].labels, sorted[i].samples[0].bits));
    forall i | 0 <= i < |sorted| ensures sorted[i] == Stamped(ps, timestamp)[i] {
      assert sorted[i].samples == [Sample(sorted[i].samples[0].bits, timestamp)];
    }
    assert sorted == Stamped(ps, timestamp);
  }
}
