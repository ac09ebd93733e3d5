// internal/tail/tail.go: the lines appended to a file since the last read, with bounded memory.
module Tail {
  import opened Text

  ghost predicate NoNewline(s: string) {
    forall k :: 0 <= k < |s| ==> s[k] != '\n'
  }

  // bytes.IndexByte for the newline.
  function Newline(s: string): (i: int)
    ensures -1 <= i < |s|
    ensures i >= 0 ==> s[i] == '\n' && forall k :: 0 <= k < i ==> s[k] != '\n'
    ensures i < 0 ==> NoNewline(s)
  {
    if s == "" then -1
    else if s[0] == '\n' then 0
    else
      var rest := Newline(s[1..]);
      assert forall k :: 0 < k < |s| ==> s[k] == s[1..][k - 1];
      if rest < 0 then -1 else rest + 1
  }

  function TrimCR(line: string): string {
    TrimSuffix(line, "\r")
  }

  // One carriage return comes off the end, and nothing else ever does.
  lemma OneReturnComesOff(line: string)
    ensures TrimCR(line + "\r") == line
    ensures line == "" || line[|line| - 1] != '\r' ==> TrimCR(line) == line
  {
    assert (line + "\r")[|line|..] == "\r";
    if line != "" && TrimCR(line) != line {
      assert line[|line| - 1..][0] == "\r"[0];
    }
  }

  // ---- the specification: lines of a whole stream ----------------------------

  // Split at newlines, drop what is longer than maxLine, strip one carriage return.
  function Lines(stream: string, maxLine: nat): seq<string>
    decreases |stream|
  {
    var i := Newline(stream);
    if i < 0 then []
    else (if i <= maxLine then [TrimCR(stream[..i])] else []) + Lines(stream[i + 1..], maxLine)
  }

  // What follows the last newline.
  function Unfinished(stream: string): string
    decreases |stream|
  {
    var i := Newline(stream);
    if i < 0 then stream else Unfinished(stream[i + 1..])
  }

  lemma {:induction false} UnfinishedHasNone(stream: string)
    ensures NoNewline(Unfinished(stream))
    decreases |stream|
  {
    if Newline(stream) < 0 {
    } else {
      UnfinishedHasNone(stream[Newline(stream) + 1..]);
    }
  }

  lemma NewlineInFront(tail: string, s: string)
    requires NoNewline(tail)
    ensures Newline(tail + s) == if Newline(s) < 0 then -1 else |tail| + Newline(s)
  {
    var stream := tail + s;
    assert forall k :: 0 <= k < |tail| ==> stream[k] == tail[k];
    assert forall k :: |tail| <= k < |stream| ==> stream[k] == s[k - |tail|];
    assert forall k :: 0 <= k < |s| ==> s[k] == stream[|tail| + k];
  }

  // One step of the specification, for a first line given with what follows it.
  lemma LinesStep(line: string, rest: string, maxLine: nat)
    requires NoNewline(line)
    ensures Lines(line + "\n" + rest, maxLine)
         == (if |line| <= maxLine then [TrimCR(line)] else []) + Lines(rest, maxLine)
    ensures Unfinished(line + "\n" + rest) == Unfinished(rest)
  {
    var stream := line + "\n" + rest;
    assert stream == line + ("\n" + rest);
    NewlineInFront(line, "\n" + rest);
    assert stream[..|line|] == line && stream[|line| + 1..] == rest;
  }

  // And when the stream starts with an unfinished line.
  lemma StreamStep(tail: string, s: string, maxLine: nat)
    requires NoNewline(tail)
    ensures var i := Newline(s);
      if i < 0 then Lines(tail + s, maxLine) == [] && Unfinished(tail + s) == tail + s
      else
        && Lines(tail + s, maxLine)
        == (if |tail| + i <= maxLine then [TrimCR(tail + s[..i])] else []) + Lines(s[i + 1..], maxLine)
        && Unfinished(tail + s) == Unfinished(s[i + 1..])
  {
    var i := Newline(s);
    if i < 0 {
      NewlineInFront(tail, s);
    } else {
      assert tail + s == (tail + s[..i]) + "\n" + s[i + 1..];
      LinesStep(tail + s[..i], s[i + 1..], maxLine);
    }
  }

  // Lines of a stream that arrives in two parts.
  ghost predicate Splits(s: string, t: string, maxLine: nat) {
    && Lines(s + t, maxLine) == Lines(s, maxLine) + Lines(Unfinished(s) + t, maxLine)
    && Unfinished(s + t) == Unfinished(Unfinished(s) + t)
  }

  lemma AppendAfter<T>(a: seq<T>, b: seq<T>, c: seq<T>, ab: seq<T>, abc: seq<T>)
    requires ab == a + b && abc == a + (b + c)
    ensures abc == ab + c
  {
  }

  lemma SplitsBehindLine(line: string, rest: string, t: string, maxLine: nat)
    requires NoNewline(line) && Splits(rest, t, maxLine)
    ensures Splits(line + "\n" + rest, t, maxLine)
  {
    var s := line + "\n" + rest;
    assert s + t == line + "\n" + (rest + t);
    LinesStep(line, rest, maxLine);
    LinesStep(line, rest + t, maxLine);
    AppendAfter(if |line| <= maxLine then [TrimCR(line)] else [], Lines(rest, maxLine),
                Lines(Unfinished(rest) + t, maxLine), Lines(s, maxLine), Lines(s + t, maxLine));
  }

  lemma CutAtNewline(s: string, line: string, rest: string)
    requires Newline(s) >= 0 && line == s[..Newline(s)] && rest == s[Newline(s) + 1..]
    ensures NoNewline(line) && s == line + "\n" + rest
  {
  }

  lemma {:induction false} LinesConcat(s: string, t: string, maxLine: nat)
    ensures Splits(s, t, maxLine)
    decreases |s|
  {
    if Newline(s) < 0 {
    } else {
      var line, rest := s[..Newline(s)], s[Newline(s) + 1..];
      CutAtNewline(s, line, rest);
      LinesConcat(rest, t, maxLine);
      SplitsBehindLine(line, rest, t, maxLine);
    }
  }

  // ---- feed and keep, on values ----------------------------------------------

  datatype Splitter = Splitter(partial: string, skipping: bool)

  const FRESH := Splitter("", false)

  function Keep(s: Splitter, b: string, maxLine: nat): Splitter {
    if s.skipping then s
    else if |s.partial| + |b| > maxLine then Splitter("", true)
    else Splitter(s.partial + b, false)
  }

  // The line a newline after head completes, if one is delivered: a line that lies wholly inside
  // the chunk is not measured.
  function Complete(s: Splitter, head: string, maxLine: nat): seq<string> {
    if s.skipping then []
    else if s.partial == "" then [TrimCR(head)]
    else
      var kept := Keep(s, head, maxLine);
      if kept.skipping then [] else [TrimCR(kept.partial)]
  }

  function Feed(s: Splitter, chunk: string, maxLine: nat): (Splitter, seq<string>)
    decreases |chunk|
  {
    var i := Newline(chunk);
    if chunk == "" then (s, [])
    else if i < 0 then (Keep(s, chunk, maxLine), [])
    else
      var (s', more) := Feed(FRESH, chunk[i + 1..], maxLine);
      (s', Complete(s, chunk[..i], maxLine) + more)
  }

  // The state stands for an unfinished line: its bytes, or that there are too many of them.
  ghost predicate Represents(s: Splitter, tail: string, maxLine: nat) {
    && NoNewline(tail)
    && s == if |tail| <= maxLine then Splitter(tail, false) else Splitter("", true)
  }

  // No line that begins and ends inside the chunk is too long.
  predicate Measured(tail: string, chunk: string, maxLine: nat)
    decreases |chunk|
  {
    var i := Newline(chunk);
    i >= 0 ==> (tail == "" ==> i <= maxLine) && Measured("", chunk[i + 1..], maxLine)
  }

  lemma UnfinishedBehind(tail: string, head: string, rest: string)
    requires NoNewline(tail) && NoNewline(head)
    ensures Unfinished(tail + (head + "\n" + rest)) == Unfinished(rest)
  {
    assert tail + (head + "\n" + rest) == (tail + head) + "\n" + rest;
    LinesStep(tail + head, rest, 0);
  }

  // Whatever is fed, the state stands for exactly the unfinished last line.
  lemma {:induction false} FeedKeepsTail(s: Splitter, tail: string, chunk: string, maxLine: nat)
    requires Represents(s, tail, maxLine)
    ensures Represents(Feed(s, chunk, maxLine).0, Unfinished(tail + chunk), maxLine)
    decreases |chunk|
  {
    if Newline(chunk) < 0 {
      StreamStep(tail, chunk, maxLine);
      KeepRepresents(s, tail, chunk, maxLine);
      assert chunk == "" ==> tail + chunk == tail;
    } else {
      var head, rest := chunk[..Newline(chunk)], chunk[Newline(chunk) + 1..];
      CutAtNewline(chunk, head, rest);
      FeedKeepsTail(FRESH, "", rest, maxLine);
      assert "" + rest == rest;
      FeedStep(s, tail, head, rest, maxLine);
      UnfinishedBehind(tail, head, rest);
    }
  }

  lemma KeepRepresents(s: Splitter, tail: string, b: string, maxLine: nat)
    requires Represents(s, tail, maxLine) && NoNewline(b)
    ensures Represents(Keep(s, b, maxLine), tail + b, maxLine)
  {
  }

  lemma CompleteDelivers(s: Splitter, tail: string, head: string, maxLine: nat)
    requires Represents(s, tail, maxLine)
    ensures Complete(s, head, maxLine)
         == if |tail| + |head| <= maxLine || tail == "" then [TrimCR(tail + head)] else []
  {
    assert "" + head == head;
  }

  // Delivered lines against due ones: equal if measured, more of them if not.
  ghost predicate Tells(delivered: seq<string>, due: seq<string>, measured: bool) {
    if measured then delivered == due else |delivered| > |due|
  }

  lemma FrontsTell(front: seq<string>, delivered: seq<string>, frontDue: seq<string>, due: seq<string>,
                   fits: bool, measured: bool)
    requires Tells(front, frontDue, fits) && Tells(delivered, due, measured)
    ensures Tells(front + delivered, frontDue + due, fits && measured)
  {
  }

  lemma FeedStep(s: Splitter, tail: string, head: string, rest: string, maxLine: nat)
    requires NoNewline(head)
    ensures Feed(s, head + "\n" + rest, maxLine)
         == (Feed(FRESH, rest, maxLine).0, Complete(s, head, maxLine) + Feed(FRESH, rest, maxLine).1)
    ensures Measured(tail, head + "\n" + rest, maxLine) <==>
      (tail == "" ==> |head| <= maxLine) && Measured("", rest, maxLine)
  {
    var chunk := head + "\n" + rest;
    assert chunk == head + ("\n" + rest);
    NewlineInFront(head, "\n" + rest);
    assert chunk[..|head|] == head && chunk[|head| + 1..] == rest;
  }

  lemma LinesBehind(tail: string, head: string, rest: string, maxLine: nat)
    requires NoNewline(tail) && NoNewline(head)
    ensures Lines(tail + (head + "\n" + rest), maxLine)
         == (if |tail + head| <= maxLine then [TrimCR(tail + head)] else []) + Lines(rest, maxLine)
  {
    assert tail + (head + "\n" + rest) == (tail + head) + "\n" + rest;
    LinesStep(tail + head, rest, maxLine);
  }

  lemma CompleteTells(s: Splitter, tail: string, head: string, maxLine: nat,
                      delivered: seq<string>, due: seq<string>, measured: bool)
    requires Represents(s, tail, maxLine) && Tells(delivered, due, measured)
    ensures Tells(Complete(s, head, maxLine) + delivered,
                  (if |tail + head| <= maxLine then [TrimCR(tail + head)] else []) + due,
                  (tail == "" ==> |head| <= maxLine) && measured)
  {
    CompleteDelivers(s, tail, head, maxLine);
    FrontsTell(Complete(s, head, maxLine), delivered,
               if |tail + head| <= maxLine then [TrimCR(tail + head)] else [], due,
               tail == "" ==> |head| <= maxLine, measured);
  }

  // feed delivers the lines of the specification and, besides, the unmeasured ones; so it is right
  // exactly when there are none.
  lemma {:induction false} FeedDelivers(s: Splitter, tail: string, chunk: string, maxLine: nat)
    requires Represents(s, tail, maxLine)
    ensures Tells(Feed(s, chunk, maxLine).1, Lines(tail + chunk, maxLine), Measured(tail, chunk, maxLine))
    decreases |chunk|
  {
    if Newline(chunk) < 0 {
      StreamStep(tail, chunk, maxLine);
    } else {
      var head, rest := chunk[..Newline(chunk)], chunk[Newline(chunk) + 1..];
      CutAtNewline(chunk, head, rest);
      FeedDelivers(FRESH, "", rest, maxLine);
      assert "" + rest == rest;
      FeedStep(s, tail, head, rest, maxLine);
      LinesBehind(tail, head, rest, maxLine);
      CompleteTells(s, tail, head, maxLine,
                    Feed(FRESH, rest, maxLine).1, Lines(rest, maxLine), Measured("", rest, maxLine));
    }
  }

  lemma {:induction false} ShortChunksAreMeasured(tail: string, chunk: string, maxLine: nat)
    requires |chunk| <= maxLine + 1
    ensures Measured(tail, chunk, maxLine)
    decreases |chunk|
  {
    var i := Newline(chunk);
    if i < 0 {
    } else {
      ShortChunksAreMeasured("", chunk[i + 1..], maxLine);
    }
  }

  // ---- a whole stream in chunks ----------------------------------------------

  function Concat(chunks: seq<string>): string {
    if chunks == [] then "" else Concat(chunks[..|chunks| - 1]) + chunks[|chunks| - 1]
  }

  function FeedAll(chunks: seq<string>, maxLine: nat): (Splitter, seq<string>) {
    if chunks == [] then (FRESH, [])
    else
      var (s, lines) := FeedAll(chunks[..|chunks| - 1], maxLine);
      var (s', more) := Feed(s, chunks[|chunks| - 1], maxLine);
      (s', lines + more)
  }

  ghost predicate AtMost(chunks: seq<string>, size: nat) {
    forall c :: c in chunks ==> |c| <= size
  }

  // The state is a function of the stream, however it was cut.
  lemma {:induction false} FeedAllTail(chunks: seq<string>, maxLine: nat)
    ensures Represents(FeedAll(chunks, maxLine).0, Unfinished(Concat(chunks)), maxLine)
    ensures |FeedAll(chunks, maxLine).0.partial| <= maxLine
  {
    if chunks == [] {
    } else {
      var init, last := chunks[..|chunks| - 1], chunks[|chunks| - 1];
      FeedAllTail(init, maxLine);
      FeedKeepsTail(FeedAll(init, maxLine).0, Unfinished(Concat(init)), last, maxLine);
      LinesConcat(Concat(init), last, maxLine);
    }
    UnfinishedHasNone(Concat(chunks));
  }

  // And so are the lines, if no chunk is longer than maxLine + 1.
  lemma {:induction false} ChunkIndependence(chunks: seq<string>, maxLine: nat)
    requires AtMost(chunks, maxLine + 1)
    ensures FeedAll(chunks, maxLine).1 == Lines(Concat(chunks), maxLine)
  {
    if chunks == [] {
    } else {
      var init, last := chunks[..|chunks| - 1], chunks[|chunks| - 1];
      assert last in chunks && forall c :: c in init ==> c in chunks;
      ChunkIndependence(init, maxLine);
      FeedAllTail(init, maxLine);
      ShortChunksAreMeasured(Unfinished(Concat(init)), last, maxLine);
      FeedDelivers(FeedAll(init, maxLine).0, Unfinished(Concat(init)), last, maxLine);
      LinesConcat(Concat(init), last, maxLine);
    }
  }

  // A line one byte too long, in one chunk.
  function TooLong(maxLine: nat): string {
    seq(maxLine + 1, _ => 'x') + "\n"
  }

  lemma TooLongIsDelivered(maxLine: nat)
    ensures |TooLong(maxLine)| == maxLine + 2 && Concat([TooLong(maxLine)]) == TooLong(maxLine)
    ensures FeedAll([TooLong(maxLine)], maxLine).1 != Lines(TooLong(maxLine), maxLine)
  {
    var chunk := TooLong(maxLine);
    assert chunk[maxLine + 1] == '\n';
    var chunks := [chunk];
    assert chunks[..0] == [] && "" + chunk == chunk;
    FeedDelivers(FRESH, "", chunk, maxLine);
    assert [] + Feed(FRESH, chunk, maxLine).1 == Feed(FRESH, chunk, maxLine).1;
  }

  // The bound is exact: chunks up to a size are harmless if and only if the size is at most maxLine + 1.
  lemma ChunkBoundExact(size: nat, maxLine: nat)
    ensures (forall chunks :: AtMost(chunks, size) ==> FeedAll(chunks, maxLine).1 == Lines(Concat(chunks), maxLine))
            <==> size <= maxLine + 1
  {
    if size <= maxLine + 1 {
      forall chunks | AtMost(chunks, size) ensures FeedAll(chunks, maxLine).1 == Lines(Concat(chunks), maxLine) {
        ChunkIndependence(chunks, maxLine);
      }
    } else {
      TooLongIsDelivered(maxLine);
      assert AtMost([TooLong(maxLine)], size);
    }
  }
}
