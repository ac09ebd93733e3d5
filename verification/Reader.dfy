// internal/tail/tail.go: the Reader itself, over a file that others append to while it is read.
module Reader {
  import opened Text
  import opened Arithmetic
  import Tail

  datatype Chunk = Bytes(bytes: string) | Eof | Failed

  // An open log: its identity, bytes that are only ever appended to while it is open, and which of
  // the reads of it fail, counted from its first.
  class LogFile {
    const id: nat
    const faulty: set<nat>
    var content: string
    var done: nat

    constructor (id: nat, content: string, faulty: set<nat>)
      ensures this.id == id && this.content == content && this.faulty == faulty && done == 0
    {
      this.id, this.content, this.faulty, done := id, content, faulty, 0;
    }

    // One read(2): some of the bytes there are, after whatever others have appended meanwhile.
    method ReadAt(offset: nat, size: nat) returns (chunk: Chunk)
      requires size > 0
      modifies this
      ensures old(content) <= content
      ensures done == old(done) + 1 && (chunk.Failed? <==> old(done) in faulty)
      ensures chunk.Bytes? ==>
        && 0 < |chunk.bytes| <= size && offset + |chunk.bytes| <= |content|
        && chunk.bytes == content[offset..offset + |chunk.bytes|]
      ensures chunk.Eof? ==> |content| <= offset
    {
      done := done + 1;
      if done - 1 in faulty {
        return Failed;
      }
      if |content| <= offset {
        return Eof;
      }
      var n := if size <= |content| - offset then size else |content| - offset;
      return Bytes(content[offset..offset + n]);
    }
  }

  class Reader {
    const maxRead: nat
    const maxLine: nat

    var offset: nat
    var info: Option<nat>
    var partial: string
    var skipping: bool
    var backlog: nat

    // The bytes fed since the last reset.
    ghost var consumed: string

    constructor (maxRead: nat, maxLine: nat)
      ensures this.maxRead == maxRead && this.maxLine == maxLine
      ensures Valid() && consumed == "" && info == None && backlog == 0
    {
      this.maxRead, this.maxLine := maxRead, maxLine;
      offset, info, partial, skipping, backlog, consumed := 0, None, "", false, 0, "";
    }

    function State(): Tail.Splitter
      reads this
    {
      Tail.Splitter(partial, skipping)
    }

    // Reads are at most 64 KiB; both log adapters keep this within the longest line they accept.
    predicate Measures() {
      Min(maxRead, 0x1_0000) <= maxLine + 1
    }

    ghost predicate Valid()
      reads this
    {
      && offset == |consumed|
      && Tail.Represents(State(), Tail.Unfinished(consumed), maxLine)
      && (info == None ==> consumed == "")
    }

    // Memory is bounded by the longest line, whatever the file holds.
    lemma Bounded()
      requires Valid()
      ensures |partial| <= maxLine
    {
    }

    method Keep(b: string)
      modifies this`partial, this`skipping
      ensures State() == Tail.Keep(old(State()), b, maxLine)
    {
      if skipping {
        return;
      }
      if |partial| + |b| > maxLine {
        partial, skipping := "", true;
        return;
      }
      partial := partial + b;
    }

    // feed; the lines it hands to onLine are returned instead.
    method Feed(bytes: string) returns (lines: seq<string>)
      modifies this`partial, this`skipping
      ensures (State(), lines) == Tail.Feed(old(State()), bytes, maxLine)
    {
      lines := [];
      var chunk := bytes;
      while |chunk| > 0
        invariant Tail.Feed(old(State()), bytes, maxLine).0 == Tail.Feed(State(), chunk, maxLine).0
        invariant Tail.Feed(old(State()), bytes, maxLine).1 == lines + Tail.Feed(State(), chunk, maxLine).1
        decreases |chunk|
      {
        var i := Tail.Newline(chunk);
        if i < 0 {
          Keep(chunk);
          assert lines + [] == lines;
          return;
        }
        ghost var before := State();
        ghost var delivered := lines;
        if !skipping {
          var line;
          if |partial| > 0 {
            Keep(chunk[..i]);
            line := partial;
          } else {
            line := chunk[..i];
          }
          if !skipping {
            lines := lines + [TrimSuffix(line, "\r")];
          }
        }
        partial, skipping := "", false;
        assert lines == delivered + Tail.Complete(before, chunk[..i], maxLine);
        Tail.AppendAfter(delivered, Tail.Complete(before, chunk[..i], maxLine),
                         Tail.Feed(Tail.FRESH, chunk[i + 1..], maxLine).1, lines,
                         Tail.Feed(old(State()), bytes, maxLine).1);
        chunk := chunk[i + 1..];
      }
      assert lines + [] == lines;
    }

    // Feeding keeps the state the unfinished end of what was consumed; with measured chunks the
    // lines are those of the specification.
    method Consume(bytes: string) returns (lines: seq<string>)
      requires Valid() && info.Some?
      modifies this`partial, this`skipping, this`offset, this`consumed
      ensures Valid() && consumed == old(consumed) + bytes
      ensures |bytes| <= maxLine + 1 ==> lines == Tail.Lines(Tail.Unfinished(old(consumed)) + bytes, maxLine)
    {
      offset := offset + |bytes|;
      lines := Feed(bytes);
      consumed := consumed + bytes;
      Tail.FeedKeepsTail(old(State()), Tail.Unfinished(old(consumed)), bytes, maxLine);
      Tail.LinesConcat(old(consumed), bytes, maxLine);
      if |bytes| <= maxLine + 1 {
        Tail.ShortChunksAreMeasured(Tail.Unfinished(old(consumed)), bytes, maxLine);
        Tail.FeedDelivers(old(State()), Tail.Unfinished(old(consumed)), bytes, maxLine);
      }
    }

    // One read(2) and the feeding of what it returned.
    method Advance(file: LogFile, size: nat) returns (chunk: Chunk, lines: seq<string>)
      requires Valid() && info.Some? && 0 < size <= Min(maxRead, 0x1_0000)
      modifies this`partial, this`skipping, this`offset, this`consumed, file
      ensures Valid() && old(file.content) <= file.content
      ensures chunk.Bytes? ==>
        && 0 < |chunk.bytes| <= size && |consumed| <= |file.content|
        && |consumed| == |old(consumed)| + |chunk.bytes| && Continues(old(consumed), consumed, file.content)
        && (Measures() ==> Completes(old(consumed), consumed, lines, maxLine))
      ensures !chunk.Bytes? ==> consumed == old(consumed)
      ensures chunk.Eof? ==> |file.content| <= |consumed|
      ensures file.done == old(file.done) + 1 && (chunk.Failed? <==> old(file.done) in file.faulty)
    {
      lines := [];
      chunk := file.ReadAt(offset, size);
      if chunk.Bytes? {
        lines := Consume(chunk.bytes);
        AdvanceContinues(old(consumed), chunk.bytes, file.content);
        if Measures() {
          AdvanceCompletes(old(consumed), chunk.bytes, lines, maxLine);
        }
      }
    }

    // The loop of Read: up to maxRead bytes, until the end of the file.
    method ReadBytes(file: LogFile) returns (failed: bool, lines: seq<string>)
      requires Valid() && info.Some? && |consumed| <= |file.content|
      modifies this`partial, this`skipping, this`offset, this`consumed, file
      ensures Valid() && old(file.content) <= file.content
      ensures Continues(old(consumed), consumed, file.content) && |consumed| - |old(consumed)| <= maxRead
      ensures Measures() ==> Completes(old(consumed), consumed, lines, maxLine)
      ensures !failed ==> |consumed| - |old(consumed)| == maxRead || |consumed| >= |old(file.content)|
      ensures old(file.done) <= file.done && (failed <==> !FaultFree(file.faulty, old(file.done), file.done))
    {
      lines := [];
      ghost var base := consumed;
      CompletesNothing(base, maxLine);
      var read := 0;
      while read < maxRead
        invariant Valid() && old(file.content) <= file.content
        invariant Continues(base, consumed, file.content) && |consumed| == |base| + read && read <= maxRead
        invariant Measures() ==> Completes(base, consumed, lines, maxLine)
        invariant old(file.done) <= file.done && FaultFree(file.faulty, old(file.done), file.done)
        decreases maxRead - read
      {
        ghost var before, content := consumed, file.content;
        var chunk, more := Advance(file, Min(Min(maxRead, 0x1_0000), maxRead - read));
        if chunk.Failed? {
          ContinuesStill(base, before, content, file.content);
          return true, lines;
        }
        if chunk.Eof? {
          ContinuesStill(base, before, content, file.content);
          return false, lines;
        }
        read := read + |chunk.bytes|;
        ContinuesFurther(base, before, content, consumed, file.content);
        if Measures() {
          CompletesFurther(base, before, consumed, lines, more, maxLine);
        }
        lines := lines + more;
      }
      return false, lines;
    }

    // Whether Read starts over: the file is another one, or it is shorter than what was read.
    predicate Restarts(file: LogFile)
      reads this, file
    {
      info.Some? && (info != Some(file.id) || |file.content| < offset)
    }

    // What the next Read builds on.
    ghost function Base(file: LogFile): string
      reads this, file
    {
      if Restarts(file) then "" else consumed
    }

    // What Read does once it knows the file: it starts over or goes on.
    method Settle(file: LogFile) returns (reset: bool)
      requires Valid()
      modifies this
      ensures Valid() && info == Some(file.id) && backlog == old(backlog)
      ensures reset <==> old(Restarts(file))
      ensures consumed == old(Base(file)) && |consumed| <= |file.content|
    {
      reset := false;
      if info.Some? && (info != Some(file.id) || |file.content| < offset) {
        offset, partial, skipping, consumed := 0, "", false, "";
        reset := true;
      }
      info := Some(file.id);
    }

    // Read on a file that opened and told its size. The lines are what it hands to onLine, reset
    // whether it called onReset first; sought and statted are how Seek and the last Stat go.
    method Read(file: LogFile, sought: bool, statted: bool) returns (ok: bool, reset: bool, lines: seq<string>)
      requires Valid()
      modifies this, file
      ensures Valid() && info == Some(file.id)
      ensures old(file.content) <= file.content
      ensures reset <==> old(Restarts(file))
      // It continues from where it was, by the file's own bytes, at most maxRead of them.
      ensures Continues(old(Base(file)), consumed, file.content) && |consumed| - |old(Base(file))| <= maxRead
      // And it delivers exactly the lines those bytes complete.
      ensures Measures() ==> Completes(old(Base(file)), consumed, lines, maxLine)
      // It succeeds exactly if Seek, every read and the last Stat do.
      ensures old(file.done) <= file.done
      ensures ok <==> sought && statted && FaultFree(file.faulty, old(file.done), file.done)
      // A successful Read stops only at maxRead or at the end, and knows what it left.
      ensures ok ==> |consumed| - |old(Base(file))| == maxRead || |consumed| >= |old(file.content)|
      ensures ok ==> backlog == |file.content| - |consumed|
      ensures ok && file.content == old(file.content) ==>
        offset == OffsetAfter(|old(Base(file))|, |file.content|, maxRead, 1)
      ensures !ok ==> backlog == old(backlog)
    {
      lines := [];
      reset := Settle(file);
      ghost var base := consumed;
      ReadsNothing(base, file.content, maxLine);
      if !sought {
        return false, reset, lines;
      }
      var failed, read := ReadBytes(file);
      lines := read;
      if failed {
        return false, reset, lines;
      }
      if !statted {
        return false, reset, lines;
      }
      backlog := |file.content| - offset;
      ReadsOnce(|base|, offset, |file.content|, maxRead);
      return true, reset, lines;
    }
  }

  // None of the reads from one to before another fails.
  predicate FaultFree(faulty: set<nat>, first: nat, end: nat) {
    forall n :: first <= n < end ==> n !in faulty
  }

  // consumed is base followed by the bytes the content has there.
  ghost predicate Continues(base: string, consumed: string, content: string) {
    && base <= consumed && |consumed| <= |content|
    && consumed[|base|..] == content[|base|..|consumed|]
  }

  // lines are the lines that consumed completes beyond base.
  ghost predicate Completes(base: string, consumed: string, lines: seq<string>, maxLine: nat) {
    Tail.Lines(consumed, maxLine) == Tail.Lines(base, maxLine) + lines
  }

  lemma AdvanceContinues(before: string, bytes: string, content: string)
    requires |before| + |bytes| <= |content| && bytes == content[|before|..|before| + |bytes|]
    ensures Continues(before, before + bytes, content)
  {
  }

  lemma AdvanceCompletes(before: string, bytes: string, lines: seq<string>, maxLine: nat)
    requires lines == Tail.Lines(Tail.Unfinished(before) + bytes, maxLine)
    ensures Completes(before, before + bytes, lines, maxLine)
  {
    Tail.LinesConcat(before, bytes, maxLine);
  }

  lemma CompletesNothing(base: string, maxLine: nat)
    ensures Completes(base, base, [], maxLine)
  {
  }

  lemma ReadsNothing(base: string, content: string, maxLine: nat)
    requires |base| <= |content|
    ensures Continues(base, base, content) && Completes(base, base, [], maxLine)
  {
  }

  lemma ReadsOnce(before: nat, offset: nat, size: nat, maxRead: nat)
    requires before <= offset <= size && offset - before <= maxRead
    ensures (offset - before == maxRead || offset >= size) ==> offset == OffsetAfter(before, size, maxRead, 1)
  {
    assert OffsetAfter(before, size, maxRead, 0) == before;
  }

  lemma CompletesFurther(base: string, before: string, after: string, lines: seq<string>, more: seq<string>,
                         maxLine: nat)
    requires Completes(base, before, lines, maxLine) && Completes(before, after, more, maxLine)
    ensures Completes(base, after, lines + more, maxLine)
  {
  }

  lemma ContinuesStill(base: string, consumed: string, content: string, content': string)
    requires Continues(base, consumed, content) && content <= content'
    ensures Continues(base, consumed, content')
  {
    assert content'[|base|..|consumed|] == content[|base|..|consumed|];
  }

  lemma ContinuesFurther(base: string, before: string, content: string, after: string, content': string)
    requires Continues(base, before, content) && Continues(before, after, content') && content <= content'
    ensures Continues(base, after, content')
  {
    forall k | |base| <= k < |after| ensures after[k] == content'[k] {
      if k < |before| {
        assert after[k] == before[k] == before[|base|..][k - |base|] == content[|base|..|before|][k - |base|];
      } else {
        assert after[k] == after[|before|..][k - |before|] == content'[|before|..|after|][k - |before|];
      }
    }
  }

  // What was read is what is there exactly if the file still had, at the start of the Read, the
  // bytes read before: the reset must have caught any rewriting.
  lemma PrefixIffDetected(base: string, consumed: string, before: string, after: string)
    requires Continues(base, consumed, after) && before <= after && |base| <= |before|
    ensures consumed <= after <==> base <= before
  {
    assert consumed == base + consumed[|base|..];
    assert after[..|consumed|] == after[..|base|] + after[|base|..|consumed|];
    assert after[..|base|] == before[..|base|];
    if consumed <= after {
      assert consumed == after[..|consumed|];
      assert base == consumed[..|base|] == after[..|base|];
    }
  }

  // ---- catching up -------------------------------------------------------------

  // The offset after k successful Reads of a file that stays at this size.
  function OffsetAfter(offset: nat, size: nat, maxRead: nat, k: nat): nat
    requires offset <= size
  {
    if k == 0 then offset else Min(OffsetAfter(offset, size, maxRead, k - 1) + maxRead, size)
  }

  // The backlog shrinks by maxRead a Read, so it is gone after exactly ceil(size / maxRead) Reads.
  lemma {:induction false} CatchUp(offset: nat, size: nat, maxRead: nat, k: nat)
    requires offset <= size
    ensures OffsetAfter(offset, size, maxRead, k) == Min(offset + k * maxRead, size)
    ensures maxRead > 0 ==>
      (OffsetAfter(offset, size, maxRead, k) == size <==> k >= (size - offset + maxRead - 1) / maxRead)
  {
    if k == 0 {
    } else {
      CatchUp(offset, size, maxRead, k - 1);
      assert k * maxRead == (k - 1) * maxRead + maxRead;
    }
    if maxRead == 0 {
    } else {
      CeilingDivision(size - offset, maxRead, k);
    }
  }
}
