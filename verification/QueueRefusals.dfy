// restore on any directory at all: when a sender starts, what it refuses, and what it recalls.
module QueueRefusals {
  import opened Text
  import opened Stale
  import opened Queue
  import opened QueueNames

  // One listed entry does not stop the scan: a pending file must go, and a queue file must be named
  // by a number, be there, be a regular file and be no larger than a batch.
  predicate Passes(dir: Directory, name: string, io: Faults) {
    && (HasPrefix(name, ".pending-") ==> name !in io.stuck)
    && (!HasPrefix(name, ".pending-") && HasSuffix(name, ".rw") ==>
          && ParseInt64(TrimSuffix(name, ".rw")).Some?
          && name in dir && name !in io.hidden && dir[name].regular && dir[name].size <= 4_194_304)
  }

  ghost predicate AllPass(dir: Directory, entries: seq<string>, io: Faults) {
    forall name :: name in entries ==> Passes(dir, name, io)
  }

  // A file that a restore reads, if it is there, holds a request of the size of a batch.
  predicate Usable(dir: Directory, name: string, io: Faults) {
    && name !in io.hidden
    && (name in dir ==>
          && name !in io.unread && dir[name].size <= 4_194_304 && dir[name].content.Snappy?
          && dir[name].content.decodedLen <= 4_194_304 && dir[name].content.request.Some?)
  }

  ghost predicate IsNewest(entries: seq<string>, name: string) {
    && name in QueueEntries(entries)
    && forall other :: other in QueueEntries(entries) ==> other == name || Less(other, name)
  }

  // ---- the scan -----------------------------------------------------------------------------

  lemma ScanOneIff(scan: Scan, name: string, io: Faults)
    ensures ScanOne(scan, name, io).Ok? <==> Passes(scan.dir, name, io)
    ensures ScanOne(scan, name, io).Ok? ==> ScanOne(scan, name, io) == ScanOne(scan, name)
    ensures ScanOne(scan, name, io).Ok? ==> SameButPending(ScanOne(scan, name, io).value.dir, scan.dir)
    ensures ScanOne(scan, name, io).Err? ==> ScanOne(scan, name, io).error in {Io, BadName, BadFile}
  {
  }

  lemma PassesSame(a: Directory, b: Directory, name: string, io: Faults)
    requires SameButPending(a, b)
    ensures Passes(a, name, io) <==> Passes(b, name, io)
  {
  }

  lemma AllPassSame(a: Directory, b: Directory, entries: seq<string>, io: Faults)
    requires SameButPending(a, b)
    ensures AllPass(a, entries, io) <==> AllPass(b, entries, io)
  {
    forall name ensures Passes(a, name, io) <==> Passes(b, name, io) {
      PassesSame(a, b, name, io);
    }
  }

  lemma AllPassCons(dir: Directory, entries: seq<string>, io: Faults)
    requires entries != []
    ensures AllPass(dir, entries, io) <==> Passes(dir, entries[0], io) && AllPass(dir, entries[1..], io)
  {
    assert forall name :: name in entries <==> name == entries[0] || name in entries[1..];
  }

  // The scan succeeds exactly if every entry passes, and then as if nothing could have failed.
  lemma {:induction false} ScanAllIff(scan: Scan, entries: seq<string>, io: Faults)
    ensures ScanAll(scan, entries, io).Ok? <==> AllPass(scan.dir, entries, io)
    ensures ScanAll(scan, entries, io).Ok? ==> ScanAll(scan, entries, io) == ScanAll(scan, entries)
    ensures ScanAll(scan, entries, io).Err? ==> ScanAll(scan, entries, io).error in {Io, BadName, BadFile}
    decreases |entries|
  {
    if entries == [] {
    } else {
      ScanOneIff(scan, entries[0], io);
      AllPassCons(scan.dir, entries, io);
      if ScanOne(scan, entries[0], io).Ok? {
        var next := ScanOne(scan, entries[0], io).value;
        ScanAllIff(next, entries[1..], io);
        AllPassSame(next.dir, scan.dir, entries[1..], io);
      }
    }
  }

  lemma PassingIsScannable(dir: Directory, entries: seq<string>, io: Faults)
    requires AllPass(dir, entries, io)
    ensures Scannable(dir, entries)
  {
    forall name | name in entries && IsQueueName(name)
      ensures name in dir && dir[name].regular && dir[name].size <= MAX_BATCH
      ensures ParseInt64(TrimSuffix(name, ".rw")).Some?
    {
      assert Passes(dir, name, io);
    }
  }

  lemma ScanGives(dir: Directory, entries: seq<string>, io: Faults)
    requires AllPass(dir, entries, io)
    ensures ScanAll(Scan(dir, [], 0), entries, io).Ok?
    ensures var scan := ScanAll(Scan(dir, [], 0), entries, io).value;
      && SameButPending(scan.dir, dir) && scan.files == QueueEntries(entries)
      && scan.bytes == SizeOf(dir, QueueEntries(entries))
  {
    ScanAllIff(Scan(dir, [], 0), entries, io);
    PassingIsScannable(dir, entries, io);
    ScanFinds(Scan(dir, [], 0), entries);
    assert [] + QueueEntries(entries) == QueueEntries(entries);
  }

  // ---- the two checkpoints ----------------------------------------------------------------------

  function RequestOf(dir: Directory, name: string): Request
    requires name in dir && dir[name].content.Snappy? && dir[name].content.request.Some?
  {
    dir[name].content.request.value
  }

  // The largest timestamp of a request, and zero at least.
  lemma MaxTimestampIs(request: Request)
    ensures MaxTimestamp(request) >= 0
    ensures forall i, j :: 0 <= i < |request| && 0 <= j < |request[i].samples| ==>
      request[i].samples[j].timestamp <= MaxTimestamp(request)
    ensures MaxTimestamp(request) == 0
         || exists i, j :: 0 <= i < |request| && 0 <= j < |request[i].samples|
                        && request[i].samples[j].timestamp == MaxTimestamp(request)
  {
    MaxFrom(request, 0);
  }

  lemma {:induction false} MaxOfSamples(samples: seq<Sample>, floor: int)
    ensures MaxTimestampOfSamples(samples, floor) >= floor
    ensures forall j :: 0 <= j < |samples| ==> samples[j].timestamp <= MaxTimestampOfSamples(samples, floor)
    ensures MaxTimestampOfSamples(samples, floor) == floor
         || exists j :: 0 <= j < |samples| && samples[j].timestamp == MaxTimestampOfSamples(samples, floor)
  {
    if samples == [] {
    } else {
      var top := if samples[0].timestamp > floor then samples[0].timestamp else floor;
      MaxOfSamples(samples[1..], top);
      assert forall j :: 0 < j < |samples| ==> samples[j] == samples[1..][j - 1];
      assert forall j :: 0 <= j < |samples[1..]| ==> samples[1..][j] == samples[j + 1];
    }
  }

  ghost predicate Bounded(request: Request, top: int) {
    forall i, j :: 0 <= i < |request| && 0 <= j < |request[i].samples| ==> request[i].samples[j].timestamp <= top
  }

  ghost predicate Attained(request: Request, top: int) {
    exists i, j :: 0 <= i < |request| && 0 <= j < |request[i].samples| && request[i].samples[j].timestamp == top
  }

  lemma {:induction false} MaxFrom(request: Request, floor: int)
    ensures MaxTimestampFrom(request, floor) >= floor && Bounded(request, MaxTimestampFrom(request, floor))
    ensures MaxTimestampFrom(request, floor) == floor || Attained(request, MaxTimestampFrom(request, floor))
  {
    if request == [] {
    } else {
      var top, rest := MaxTimestampOfSamples(request[0].samples, floor), request[1..];
      MaxOfSamples(request[0].samples, floor);
      MaxFrom(rest, top);
      var all := MaxTimestampFrom(request, floor);
      forall i, j | 0 <= i < |request| && 0 <= j < |request[i].samples|
        ensures request[i].samples[j].timestamp <= all
      {
        if i > 0 {
          assert rest[i - 1] == request[i];
        }
      }
      if Attained(rest, all) {
        var i, j :| 0 <= i < |rest| && 0 <= j < |rest[i].samples| && rest[i].samples[j].timestamp == all;
        assert request[i + 1] == rest[i];
      }
    }
  }

  lemma LoadIff(m: Memory, file: File)
    ensures Load(m, file).Ok? <==>
      && file.size <= 4_194_304 && file.content.Snappy?
      && file.content.decodedLen <= 4_194_304 && file.content.request.Some?
    ensures Load(m, file).Err? ==> Load(m, file).error in {CheckpointTooLarge, BadCompression, BadRequest}
  {
  }

  lemma LoadOneIff(m: Memory, dir: Directory, name: string, rest: seq<string>, io: Faults)
    ensures Usable(dir, name, io) && name in dir ==>
      && Load(m, dir[name]).Ok?
      && LoadAll(m, dir, [name] + rest, io) == LoadAll(Load(m, dir[name]).value, dir, rest, io)
    ensures Usable(dir, name, io) && name !in dir ==> LoadAll(m, dir, [name] + rest, io) == LoadAll(m, dir, rest, io)
    ensures !Usable(dir, name, io) ==>
      && LoadAll(m, dir, [name] + rest, io).Err?
      && LoadAll(m, dir, [name] + rest, io).error in {Io, CheckpointTooLarge, BadCompression, BadRequest}
  {
    assert ([name] + rest)[0] == name && ([name] + rest)[1..] == rest;
    if name in dir {
      LoadIff(m, dir[name]);
    }
  }

  // Of the two, the one with the later timestamp tells the timestamp and the snapshot; the queue's
  // newest file wins a tie.
  ghost predicate Recalls(dir: Directory, newest: Option<string>, m: Memory)
    requires "state" in dir ==> dir["state"].content.Snappy? && dir["state"].content.request.Some?
    requires newest.Some? && newest.value in dir ==>
      dir[newest.value].content.Snappy? && dir[newest.value].content.request.Some?
  {
    if newest.Some? && newest.value in dir
       && ("state" in dir ==> MaxTimestamp(RequestOf(dir, newest.value)) >= MaxTimestamp(RequestOf(dir, "state")))
    then TakenFrom(RequestOf(dir, newest.value), m)
    else if "state" in dir then TakenFrom(RequestOf(dir, "state"), m)
    else m.timestamp == 0 && m.previous == []
  }

  predicate TakenFrom(request: Request, m: Memory) {
    m.timestamp == MaxTimestamp(request) && m.previous == ActiveSeries(request)
  }

  lemma LoadBoth(m: Memory, dir: Directory, files: seq<string>, io: Faults)
    requires m.timestamp == 0 && m.previous == []
    ensures var newest := if files == [] then None else Some(files[|files| - 1]);
      var r := LoadAll(m, dir, Candidates(files), io);
      && (r.Ok? <==> Usable(dir, "state", io) && (newest.Some? ==> Usable(dir, newest.value, io)))
      && (r.Err? ==> r.error in {Io, CheckpointTooLarge, BadCompression, BadRequest})
      && (r.Ok? ==>
            && Recalls(dir, newest, r.value)
            && r.value == m.(timestamp := r.value.timestamp, previous := r.value.previous))
  {
    var rest := if files == [] then [] else [files[|files| - 1]];
    assert Candidates(files) == ["state"] + rest;
    LoadOneIff(m, dir, "state", rest, io);
    var m1 := if Usable(dir, "state", io) && "state" in dir then Load(m, dir["state"]).value else m;
    if "state" in dir && dir["state"].content.Snappy? && dir["state"].content.request.Some? {
      MaxTimestampIs(RequestOf(dir, "state"));
    }
    if files != [] {
      var name := files[|files| - 1];
      LoadOneIff(m1, dir, name, [], io);
      assert [name] + [] == [name];
      if name in dir && dir[name].content.Snappy? && dir[name].content.request.Some? {
        MaxTimestampIs(RequestOf(dir, name));
      }
    }
  }

  // ---- the whole start --------------------------------------------------------------------------

  lemma BindIff(dir: Directory, want: string, io: Faults)
    ensures Bind(dir, want, io).Ok? <==>
      !io.manifest && ("destination" in dir ==> dir["destination"].content == Manifest(want))
    ensures Bind(dir, want, io) == Err(WrongDestination) <==>
      !io.manifest && "destination" in dir && dir["destination"].content != Manifest(want)
    ensures Bind(dir, want, io).Ok? ==> SameButManifest(Bind(dir, want, io).value, dir)
  {
  }

  ghost predicate SameButManifest(a: Directory, b: Directory) {
    forall name :: name != "destination" ==> (name in a <==> name in b) && (name in a ==> a[name] == b[name])
  }

  lemma ManifestIsNoQueueFile(name: string)
    requires IsQueueName(name) || IsPending(name) || name == "state"
    ensures name != "destination"
  {
    assert "destination"[8..] == "ion" && "ion"[0] != ".rw"[0];
    assert "destination"[0] != ".pending-"[0] && "destination"[0] != "state"[0];
    if IsPending(name) {
      assert name[0] == ".pending-"[0];
    }
  }

  lemma {:induction false} SizeOfBut(a: Directory, b: Directory, names: seq<string>)
    requires SameButManifest(a, b) && "destination" !in names
    ensures SizeOf(a, names) == SizeOf(b, names)
  {
    if names == [] {
    } else {
      SizeOfBut(a, b, names[1..]);
    }
  }

  lemma {:induction false} QueueEntriesAreQueueNames(entries: seq<string>)
    ensures forall name :: name in QueueEntries(entries) <==> name in entries && IsQueueName(name)
  {
    if entries == [] {
    } else {
      QueueEntriesAreQueueNames(entries[1..]);
      assert forall name :: name in entries <==> name == entries[0] || name in entries[1..];
    }
  }

  lemma BoundSame(bound: Directory, dir: Directory, entries: seq<string>, io: Faults)
    requires SameButManifest(bound, dir)
    ensures AllPass(bound, entries, io) <==> AllPass(dir, entries, io)
    ensures SizeOf(bound, QueueEntries(entries)) == SizeOf(dir, QueueEntries(entries))
  {
    QueueEntriesAreQueueNames(entries);
    if "destination" in QueueEntries(entries) {
      ManifestIsNoQueueFile("destination");
    }
    SizeOfBut(bound, dir, QueueEntries(entries));
    forall name ensures Passes(bound, name, io) <==> Passes(dir, name, io) {
      if IsQueueName(name) {
        ManifestIsNoQueueFile(name);
      }
    }
  }

  lemma OneNewest(entries: seq<string>, a: string, b: string)
    requires IsNewest(entries, a) && IsNewest(entries, b)
    ensures a == b
  {
    if a != b {
      LessTransitive(a, b, a);
      LessIrreflexive(a);
    }
  }

  lemma SortedAre(names: seq<string>)
    ensures SortedBy(Self, SortBy(Self, names)) && forall name :: name in SortBy(Self, names) <==> name in names
  {
    SortBySorts(Self, names);
    SameElements(SortBy(Self, names), names);
    forall name ensures name in SortBy(Self, names) <==> name in names {
      assert name in Elements(SortBy(Self, names)) <==> name in Elements(names);
    }
  }

  // The newest queue file is the last one in order.
  lemma NewestIsLast(entries: seq<string>, name: string)
    ensures var files := SortBy(Self, QueueEntries(entries));
      IsNewest(entries, name) <==> files != [] && name == files[|files| - 1]
  {
    var files := SortBy(Self, QueueEntries(entries));
    SortedAre(QueueEntries(entries));
    if files != [] {
      LastIsNewest(entries, files);
      if IsNewest(entries, name) {
        OneNewest(entries, name, files[|files| - 1]);
      }
    } else {
      assert forall other :: other in QueueEntries(entries) <==> other in files;
    }
  }

  lemma LastIsNewest(entries: seq<string>, files: seq<string>)
    requires files != [] && SortedBy(Self, files)
    requires forall name :: name in files <==> name in QueueEntries(entries)
    ensures IsNewest(entries, files[|files| - 1])
  {
    var last := files[|files| - 1];
    forall other | other in QueueEntries(entries) ensures other == last || Less(other, last) {
      var i :| 0 <= i < |files| && files[i] == other;
      if i < |files| - 1 {
        assert Less(Self(files[i]), Self(last)) || Self(files[i]) == Self(last);
      }
    }
  }

  ghost predicate NewestUsable(dir: Directory, entries: seq<string>, io: Faults) {
    forall name :: IsNewest(entries, name) ==> Usable(dir, name, io)
  }

  // A sender starts exactly if its directory is bound to no other destination, every entry passes the
  // scan, the queue is within the cap, and the checkpoint and the newest queue file can be used.
  ghost predicate Startable(dir: Directory, entries: seq<string>, o: Options, io: Faults) {
    && !io.manifest && !io.listing
    && ("destination" in dir ==> dir["destination"].content == Manifest(o.want))
    && AllPass(dir, entries, io)
    && SizeOf(dir, QueueEntries(entries)) <= o.maxBytes
    && Usable(dir, "state", io) && NewestUsable(dir, entries, io)
  }

  lemma UsableSame(a: Directory, b: Directory, name: string, io: Faults)
    requires (name in a <==> name in b) && (name in a ==> a[name] == b[name])
    ensures Usable(a, name, io) <==> Usable(b, name, io)
  {
  }

  lemma NewestUsableSame(scanned: Directory, dir: Directory, entries: seq<string>, io: Faults)
    requires SameAsListed(scanned, dir)
    ensures NewestUsable(scanned, entries, io) <==> NewestUsable(dir, entries, io)
    ensures Usable(scanned, "state", io) <==> Usable(dir, "state", io)
  {
    QueueEntriesAreQueueNames(entries);
    UsableSame(scanned, dir, "state", io);
    forall name | IsNewest(entries, name) ensures Usable(scanned, name, io) <==> Usable(dir, name, io) {
      UsableSame(scanned, dir, name, io);
    }
  }

  // What a start leaves of a directory before it looks at the checkpoints.
  ghost predicate SameAsListed(scanned: Directory, dir: Directory) {
    forall name :: IsQueueName(name) || name == "state" ==>
      (name in scanned <==> name in dir) && (name in scanned ==> scanned[name] == dir[name])
  }

  lemma ScannedSame(scanned: Directory, bound: Directory, dir: Directory)
    requires SameButPending(scanned, bound) && SameButManifest(bound, dir)
    ensures SameAsListed(scanned, dir)
  {
    assert "state"[0] != ".pending-"[0];
    forall name | IsQueueName(name) || name == "state"
      ensures (name in scanned <==> name in dir) && (name in scanned ==> scanned[name] == dir[name])
    {
      ManifestIsNoQueueFile(name);
    }
  }

  lemma RecallIff(scan: Scan, entries: seq<string>, o: Options, io: Faults)
    requires scan.files == QueueEntries(entries)
    ensures Recall(scan, o, io).Ok? <==>
      scan.bytes <= o.maxBytes && Usable(scan.dir, "state", io) && NewestUsable(scan.dir, entries, io)
    ensures Recall(scan, o, io) == Err(OverCap) <==> scan.bytes > o.maxBytes
    ensures Recall(scan, o, io) != Err(WrongDestination)
  {
    var files := SortBy(Self, scan.files);
    if scan.bytes <= o.maxBytes {
      LoadBoth(Memory(files, scan.bytes, |files|, 0, [], 0), scan.dir, files, io);
      forall name ensures IsNewest(entries, name) <==> files != [] && name == files[|files| - 1] {
        NewestIsLast(entries, name);
      }
    }
  }

  lemma RestoreSucceedsIff(dir: Directory, entries: seq<string>, o: Options, io: Faults)
    ensures Restore(dir, entries, o, io).Ok? <==> Startable(dir, entries, o, io)
    ensures Restore(dir, entries, o, io) == Err(WrongDestination) <==>
      !io.manifest && "destination" in dir && dir["destination"].content != Manifest(o.want)
    ensures Restore(dir, entries, o, io) == Err(OverCap) <==>
      && !io.manifest && !io.listing && ("destination" in dir ==> dir["destination"].content == Manifest(o.want))
      && AllPass(dir, entries, io) && SizeOf(dir, QueueEntries(entries)) > o.maxBytes
  {
    BindIff(dir, o.want, io);
    if Bind(dir, o.want, io).Ok? && !io.listing {
      var bound := Bind(dir, o.want, io).value;
      BoundSame(bound, dir, entries, io);
      ScanAllIff(Scan(bound, [], 0), entries, io);
      if AllPass(bound, entries, io) {
        ScanGives(bound, entries, io);
        var scan := ScanAll(Scan(bound, [], 0), entries, io).value;
        ScannedSame(scan.dir, bound, dir);
        NewestUsableSame(scan.dir, dir, entries, io);
        RecallIff(scan, entries, o, io);
      }
    }
  }

  // The memory is told by the directory and the queue files in it.
  ghost predicate Recalled(dir: Directory, files: seq<string>, m: Memory) {
    var newest := if files == [] then None else Some(files[|files| - 1]);
    && m.files == files && m.queuedBatches == |files| && m.dropped == 0
    && ("state" in dir ==> dir["state"].content.Snappy? && dir["state"].content.request.Some?)
    && (newest.Some? && newest.value in dir ==>
          dir[newest.value].content.Snappy? && dir[newest.value].content.request.Some?)
    && Recalls(dir, newest, m)
  }

  lemma RecallGives(scan: Scan, o: Options, io: Faults)
    requires Recall(scan, o, io).Ok?
    ensures Recall(scan, o, io).value.queuedBytes == scan.bytes
    ensures Recalled(scan.dir, SortBy(Self, scan.files), Recall(scan, o, io).value)
  {
    var files := SortBy(Self, scan.files);
    LoadBoth(Memory(files, scan.bytes, |files|, 0, [], 0), scan.dir, files, io);
  }

  lemma RecalledSame(scanned: Directory, dir: Directory, files: seq<string>, m: Memory)
    requires SameAsListed(scanned, dir) && Recalled(scanned, files, m)
    requires files != [] ==> IsQueueName(files[|files| - 1])
    ensures Recalled(dir, files, m)
  {
  }

  // And then it holds the listed queue files, oldest first, with their sizes, and the snapshot of the
  // checkpoint or of the newest queue file, whichever is the later.
  lemma RestoreRecalls(dir: Directory, entries: seq<string>, o: Options, io: Faults)
    requires Startable(dir, entries, o, io)
    ensures Restore(dir, entries, o, io).Ok?
    ensures Recalled(dir, SortBy(Self, QueueEntries(entries)), Restore(dir, entries, o, io).value.1)
    ensures Restore(dir, entries, o, io).value.1.queuedBytes == SizeOf(dir, QueueEntries(entries))
  {
    RestoreSucceedsIff(dir, entries, o, io);
    BindIff(dir, o.want, io);
    var bound := Bind(dir, o.want, io).value;
    BoundSame(bound, dir, entries, io);
    ScanGives(bound, entries, io);
    var scan := ScanAll(Scan(bound, [], 0), entries, io).value;
    ScannedSame(scan.dir, bound, dir);
    RecallGives(scan, o, io);
    var files := SortBy(Self, scan.files);
    SortedAre(QueueEntries(entries));
    QueueEntriesAreQueueNames(entries);
    assert files != [] ==> files[|files| - 1] in files;
    RecalledSame(scan.dir, dir, files, Recall(scan, o, io).value);
  }
}
