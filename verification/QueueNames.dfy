// File names and sizes of the queue directory, and what restore makes of a well-kept directory.
module QueueNames {
  import opened Text
  import opened SeriesKey
  import opened Stale
  import opened Queue

  lemma TwentyDigitsHoldInt64()
    ensures MAX_INT64 < Pow10(20)
  {
    assert Pow10(2) == 100;
    assert Pow10(4) == 10_000;
    assert Pow10(6) == 1_000_000;
    assert Pow10(8) == 100_000_000;
    assert Pow10(10) == 10_000_000_000;
    assert Pow10(12) == 1_000_000_000_000;
    assert Pow10(14) == 100_000_000_000_000;
    assert Pow10(16) == 10_000_000_000_000_000;
    assert Pow10(18) == 1_000_000_000_000_000_000;
  }

  // A batch's name is a queue file name and reads back as the batch's timestamp.
  lemma NameReadsBack(timestamp: nat)
    requires timestamp <= MAX_INT64
    ensures IsQueueName(Name(timestamp)) && Name(timestamp) != "state" && Name(timestamp) != "destination"
    ensures ParseInt64(TrimSuffix(Name(timestamp), ".rw")) == Some(timestamp)
    ensures TimestampOf(Name(timestamp)) == timestamp
  {
    TwentyDigitsHoldInt64();
    PadNumber(timestamp, 20);
    var digits, name := Pad(timestamp, 20), Name(timestamp);
    assert |name| == 23 && name[..20] == digits && name[20..] == ".rw";
    assert IsDigit(digits[0]) && name[0] == digits[0];
    assert name[..9][0] != ".pending-"[0];
    assert TrimSuffix(name, ".rw") == digits;
  }

  // Names sort as strings the way their timestamps sort as numbers.
  lemma NameOrder(a: nat, b: nat)
    requires a <= MAX_INT64 && b <= MAX_INT64
    ensures Less(Name(a), Name(b)) <==> a < b
    ensures Name(a) == Name(b) <==> a == b
  {
    TwentyDigitsHoldInt64();
    PadNumber(a, 20);
    PadNumber(b, 20);
    DigitOrder(Pad(a, 20), Pad(b, 20));
    LessCommonSuffix(Pad(a, 20), Pad(b, 20), ".rw");
    assert Name(a)[..20] == Pad(a, 20) && Name(b)[..20] == Pad(b, 20);
  }

  function Names(batches: seq<Batch>): (names: seq<string>)
    ensures |names| == |batches|
  {
    seq(|batches|, i requires 0 <= i < |batches| => Name(batches[i].timestamp))
  }

  function TotalSize(batches: seq<Batch>): nat {
    if batches == [] then 0 else batches[0].file.size + TotalSize(batches[1..])
  }

  lemma {:induction false} TotalSizeSnoc(batches: seq<Batch>, b: Batch)
    ensures TotalSize(batches + [b]) == TotalSize(batches) + b.file.size
  {
    if batches == [] {
      assert (batches + [b])[1..] == [];
    } else {
      assert (batches + [b])[1..] == batches[1..] + [b];
      TotalSizeSnoc(batches[1..], b);
    }
  }

  ghost predicate Increasing(batches: seq<Batch>) {
    && (forall i :: 0 <= i < |batches| ==> batches[i].timestamp <= MAX_INT64)
    && (forall i, j :: 0 <= i < j < |batches| ==> batches[i].timestamp < batches[j].timestamp)
  }

  lemma NamesSorted(batches: seq<Batch>)
    requires Increasing(batches)
    ensures StrictlySortedBy(Self, Names(batches))
  {
    var names := Names(batches);
    forall i, j | 0 <= i < j < |names| ensures Less(Self(names[i]), Self(names[j])) {
      NameOrder(batches[i].timestamp, batches[j].timestamp);
    }
  }

  // The directory holds exactly the files of these batches under queue names.
  ghost predicate Holds(dir: Directory, batches: seq<Batch>) {
    && (forall i :: 0 <= i < |batches| ==>
          Name(batches[i].timestamp) in dir && dir[Name(batches[i].timestamp)] == batches[i].file)
    && (forall name :: name in dir && IsQueueName(name) ==> name in Names(batches))
  }

  // ---- restore ------------------------------------------------------------

  function QueueEntries(entries: seq<string>): seq<string> {
    if entries == [] then []
    else (if IsQueueName(entries[0]) then [entries[0]] else []) + QueueEntries(entries[1..])
  }

  function SizeOf(dir: Directory, names: seq<string>): nat {
    if names == [] then 0 else (if names[0] in dir then dir[names[0]].size else 0) + SizeOf(dir, names[1..])
  }

  ghost predicate SameButPending(a: Directory, b: Directory) {
    forall name :: !IsPending(name) ==> (name in a <==> name in b) && (name in a ==> a[name] == b[name])
  }

  ghost predicate Scannable(dir: Directory, names: seq<string>) {
    forall name :: name in names && IsQueueName(name) ==>
      && name in dir && dir[name].regular && dir[name].size <= MAX_BATCH
      && ParseInt64(TrimSuffix(name, ".rw")).Some?
  }

  lemma {:induction false} SizeOfSame(a: Directory, b: Directory, names: seq<string>)
    requires SameButPending(a, b) && forall name :: name in names ==> !IsPending(name)
    ensures SizeOf(a, names) == SizeOf(b, names)
  {
    if names == [] {
    } else {
      SizeOfSame(a, b, names[1..]);
    }
  }

  lemma {:induction false} QueueEntriesAre(entries: seq<string>)
    requires DistinctBy(Self, entries)
    ensures forall name :: name in QueueEntries(entries) <==> name in entries && IsQueueName(name)
    ensures DistinctBy(Self, QueueEntries(entries))
  {
    if entries == [] {
    } else {
      var head, rest := entries[0], QueueEntries(entries[1..]);
      forall i, j | 0 <= i < j < |entries[1..]| ensures Self(entries[1..][i]) != Self(entries[1..][j]) {
        assert Self(entries[i + 1]) != Self(entries[j + 1]);
      }
      QueueEntriesAre(entries[1..]);
      forall name ensures name in entries <==> name == head || name in entries[1..] {
      }
      forall k | 1 <= k < |entries| ensures entries[k] != head {
        assert Self(entries[0]) != Self(entries[k]);
      }
    }
  }

  lemma {:induction false} QueueEntriesQueue(entries: seq<string>)
    ensures forall name :: name in QueueEntries(entries) ==> !IsPending(name)
  {
    if entries == [] {
    } else {
      QueueEntriesQueue(entries[1..]);
    }
  }

  // One entry of a sound directory.
  lemma ScanOneFinds(scan: Scan, name: string)
    requires Scannable(scan.dir, [name])
    ensures ScanOne(scan, name).Ok?
    ensures var next := ScanOne(scan, name).value;
      && SameButPending(next.dir, scan.dir)
      && next.files == scan.files + QueueEntries([name])
      && next.bytes == scan.bytes + SizeOf(scan.dir, QueueEntries([name]))
  {
    assert name in [name] && [name][1..] == [];
    assert QueueEntries([name]) == if IsQueueName(name) then [name] else [];
    assert scan.files + [] == scan.files;
  }

  lemma ScannableFurther(dir: Directory, dir': Directory, head: string, rest: seq<string>)
    requires Scannable(dir, [head] + rest) && SameButPending(dir', dir)
    ensures Scannable(dir, [head]) && Scannable(dir', rest)
  {
    forall name | name in [head] || name in rest ensures name in [head] + rest {
    }
  }

  lemma QueueEntriesCons(dir: Directory, head: string, rest: seq<string>)
    ensures QueueEntries([head] + rest) == QueueEntries([head]) + QueueEntries(rest)
    ensures SizeOf(dir, QueueEntries([head] + rest))
         == SizeOf(dir, QueueEntries([head])) + SizeOf(dir, QueueEntries(rest))
  {
    assert ([head] + rest)[1..] == rest && [head][1..] == [];
    if IsQueueName(head) {
      assert ([head] + QueueEntries(rest))[1..] == QueueEntries(rest) && [head] + [] == [head];
    } else {
      assert [] + QueueEntries(rest) == QueueEntries(rest);
    }
  }

  // The scan of a sound directory never fails, and it finds every queue file.
  lemma {:induction false} ScanFinds(scan: Scan, entries: seq<string>)
    requires Scannable(scan.dir, entries)
    ensures ScanAll(scan, entries).Ok? && SameButPending(ScanAll(scan, entries).value.dir, scan.dir)
    ensures ScanAll(scan, entries).value.files == scan.files + QueueEntries(entries)
    ensures ScanAll(scan, entries).value.bytes == scan.bytes + SizeOf(scan.dir, QueueEntries(entries))
    decreases |entries|
  {
    if entries == [] {
      assert scan.files + [] == scan.files;
    } else {
      var head, rest := entries[0], entries[1..];
      assert entries == [head] + rest;
      ScannableFurther(scan.dir, scan.dir, head, rest);
      ScanOneFinds(scan, head);
      var next := ScanOne(scan, head).value;
      ScannableFurther(scan.dir, next.dir, head, rest);
      ScanFinds(next, rest);
      QueueEntriesQueue(rest);
      SizeOfSame(next.dir, scan.dir, QueueEntries(rest));
      QueueEntriesCons(scan.dir, head, rest);
      Regroup(scan.files, QueueEntries([head]), QueueEntries(rest));
    }
  }

  // It sweeps out the pending files it was shown, and nothing else.
  lemma {:induction false} ScanSweeps(scan: Scan, entries: seq<string>)
    requires ScanAll(scan, entries).Ok?
    ensures ScanAll(scan, entries).value.dir == scan.dir - (set name | name in entries && IsPending(name))
    decreases |entries|
  {
    if entries == [] {
    } else {
      ScanSweeps(ScanOne(scan, entries[0]).value, entries[1..]);
      assert entries == [entries[0]] + entries[1..];
    }
  }

  lemma {:induction false} SizeOfInsert(dir: Directory, x: string, names: seq<string>)
    ensures SizeOf(dir, Insert(Self, x, names)) == SizeOf(dir, [x]) + SizeOf(dir, names)
  {
    if names != [] && Less(Self(names[0]), Self(x)) {
      SizeOfInsert(dir, x, names[1..]);
      assert ([names[0]] + Insert(Self, x, names[1..]))[1..] == Insert(Self, x, names[1..]);
    } else {
      assert ([x] + names)[1..] == names;
    }
  }

  lemma {:induction false} SizeOfSorted(dir: Directory, names: seq<string>)
    ensures SizeOf(dir, SortBy(Self, names)) == SizeOf(dir, names)
  {
    if names == [] {
    } else {
      SizeOfSorted(dir, names[1..]);
      SizeOfInsert(dir, names[0], SortBy(Self, names[1..]));
    }
  }

  lemma {:induction false} SizeOfNames(dir: Directory, batches: seq<Batch>)
    requires forall i :: 0 <= i < |batches| ==>
      Name(batches[i].timestamp) in dir && dir[Name(batches[i].timestamp)] == batches[i].file
    ensures SizeOf(dir, Names(batches)) == TotalSize(batches)
  {
    if batches == [] {
    } else {
      assert Names(batches)[1..] == Names(batches[1..]);
      forall i | 0 <= i < |batches[1..]| ensures
        Name(batches[1..][i].timestamp) in dir && dir[Name(batches[1..][i].timestamp)] == batches[1..][i].file {
        assert batches[1..][i] == batches[i + 1];
      }
      SizeOfNames(dir, batches[1..]);
    }
  }

  // Sorting the names found in any listing order gives the batches back oldest first.
  lemma ScanRebuildsQueue(dir: Directory, entries: seq<string>, batches: seq<Batch>)
    requires Increasing(batches) && Holds(dir, batches) && DistinctBy(Self, entries)
    requires forall name :: name in entries && IsQueueName(name) ==> name in dir
    requires forall name :: name in dir && IsQueueName(name) ==> name in entries
    ensures SortBy(Self, QueueEntries(entries)) == Names(batches)
    ensures SizeOf(dir, QueueEntries(entries)) == TotalSize(batches)
  {
    var found, names := QueueEntries(entries), Names(batches);
    QueueEntriesAre(entries);
    NamesSorted(batches);
    forall name ensures name in Elements(found) <==> name in Elements(names) {
      if name in names {
        var i :| 0 <= i < |names| && names[i] == name;
        assert name == Name(batches[i].timestamp);
        NameReadsBack(batches[i].timestamp);
        assert name in found;
      }
    }
    SortIsCanonical(Self, found, names);
    SizeOfSorted(dir, found);
    SizeOfNames(dir, batches);
  }
}
