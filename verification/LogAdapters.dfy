// The two adapters that keep counters from a log: ds4 and TensorFold's request log.
module LogAdapters {
  import opened Text
  import Tail
  import opened Reader
  import opened LogCounters
  import LogRuns

  ghost function ViewOf(tail: Reader): LogRuns.View
    reads tail
  {
    LogRuns.View(tail.info, tail.consumed)
  }

  function LogOf(file: LogFile): LogRuns.Log
    reads file
  {
    LogRuns.Log(file.id, file.content)
  }

  // One Read, and the lines of what it builds on.
  method ReadOnce(tail: Reader, file: LogFile, sought: bool, statted: bool)
    returns (ok: bool, reset: bool, lines: seq<string>, ghost base: seq<string>)
    requires tail.Valid() && tail.Measures()
    modifies tail, file
    ensures tail.Valid()
    ensures LogRuns.ReadsOn(tail.maxRead, old(ViewOf(tail)), old(LogOf(file)), ViewOf(tail), LogOf(file), ok)
    ensures old(file.done) <= file.done
    ensures ok <==> sought && statted && FaultFree(file.faulty, old(file.done), file.done)
    ensures ok ==> tail.backlog == |file.content| - |tail.consumed|
    ensures if reset then base == [] else base == Tail.Lines(old(tail.consumed), tail.maxLine)
    ensures Tail.Lines(tail.consumed, tail.maxLine) == base + lines
  {
    base := Tail.Lines(tail.Base(file), tail.maxLine);
    NoLines(tail.maxLine);
    ok, reset, lines := tail.Read(file, sought, statted);
  }

  lemma NoLines(maxLine: nat)
    ensures Tail.Lines("", maxLine) == []
  {
  }

  // ---- internal/adapter/ds4/ds4.go ------------------------------------------------

  datatype Collected = Unreadable | Behind(backlog: nat) | Silent | Counters(totals: Totals)

  // What the counters of a whole log are.
  function Ds4Count(log: string): Totals {
    CountAll(ZERO, Tail.Lines(log, 0x1_0000))
  }

  function Ds4Outcome(r: Collected): LogRuns.Outcome<Totals> {
    match r
    case Unreadable => LogRuns.Failed
    case Behind(backlog) => LogRuns.Behind(backlog)
    case Silent => LogRuns.Counted(ZERO)
    case Counters(totals) => LogRuns.Counted(totals)
  }

  lemma UnseenIsZero(t: Totals, cycles: seq<Cycle>)
    requires Tallies(t, cycles) && !t.seen
    ensures t == ZERO && cycles == []
  {
  }

  class Ds4 {
    const tail: Reader

    var seen: bool
    var proposed: nat
    var accepted: nat
    var verifys: nat

    constructor (maxRead: nat)
      ensures Valid() && fresh(tail) && tail.maxRead == maxRead
    {
      tail := new Reader(maxRead, 0x1_0000);
      seen, proposed, accepted, verifys := false, 0, 0, 0;
    }

    function State(): Totals
      reads this
    {
      Totals(seen, proposed, accepted, verifys)
    }

    // The counters are the count over every line completed so far, and nothing else.
    ghost predicate Valid()
      reads this, tail
    {
      && tail.Valid() && tail.maxLine == 0x1_0000
      && State() == CountAll(ZERO, Tail.Lines(tail.consumed, tail.maxLine))
    }

    method Reset()
      modifies this
      ensures State() == ZERO
    {
      seen, proposed, accepted, verifys := false, 0, 0, 0;
    }

    method OnLine(line: string)
      modifies this
      ensures State() == Count(old(State()), line)
    {
      if !HasPrefix(line, "ds4: ") {
        return;
      }
      var parsed := ParseLine(line);
      if parsed.None? {
        return;
      }
      Tally(parsed.value);
    }

    method Tally(c: Cycle)
      modifies this
      ensures State() == Add(old(State()), c)
    {
      seen := true;
      proposed := (proposed + c.proposed) % TWO_64;
      accepted := (accepted + c.accepted) % TWO_64;
      if c.proposed > 0 {
        verifys := (verifys + 1) % TWO_64;
      }
    }

    method OnLines(lines: seq<string>)
      modifies this
      ensures State() == CountAll(old(State()), lines)
    {
      for i := 0 to |lines|
        invariant State() == CountAll(old(State()), lines[..i])
      {
        assert lines[..i + 1][..i] == lines[..i];
        OnLine(lines[i]);
      }
      assert lines[..|lines|] == lines;
    }

    method ReadLog(file: LogFile, sought: bool, statted: bool) returns (ok: bool)
      requires Valid()
      modifies this, tail, file
      ensures Valid()
      ensures LogRuns.ReadsOn(tail.maxRead, old(ViewOf(tail)), old(LogOf(file)), ViewOf(tail), LogOf(file), ok)
      ensures old(file.done) <= file.done
      ensures ok <==> sought && statted && FaultFree(file.faulty, old(file.done), file.done)
      ensures ok ==> tail.backlog == |file.content| - |tail.consumed|
    {
      var reset, lines;
      ghost var base;
      ok, reset, lines, base := ReadOnce(tail, file, sought, statted);
      Take(reset, lines, base);
    }

    // What a Read hands over: a reset, perhaps, and then the lines.
    method Take(reset: bool, lines: seq<string>, ghost base: seq<string>)
      requires if reset then base == [] else State() == CountAll(ZERO, base)
      modifies this
      ensures State() == CountAll(ZERO, base + lines)
    {
      if reset {
        Reset();
      }
      OnLines(lines);
      CountAllConcat(ZERO, base, lines);
    }

    // file is null if the log does not open or does not tell its size; sought and statted are how the
    // Seek and the last Stat of the Read go. Nothing is emitted before the log is read to its end, and
    // then it is the count of all that was read.
    method Collect(probed: bool, file: LogFile?, sought: bool, statted: bool) returns (r: Collected)
      requires Valid()
      modifies this, tail, (if file == null then {} else {file})
      ensures Valid()
      ensures !probed || file == null ==> r == Unreadable && unchanged(this, tail)
      ensures probed && file != null ==>
        LogRuns.Collects(tail.maxRead, old(ViewOf(tail)), old(LogOf(file)), ViewOf(tail), LogOf(file),
                         sought && statted && FaultFree(file.faulty, old(file.done), file.done),
                         Ds4Outcome(r), Ds4Count(tail.consumed))
      ensures r.Unreadable? <==> !probed || file == null || !sought || !statted
                                 || !FaultFree(file.faulty, old(file.done), file.done)
      ensures r.Counters? ==> r.totals.seen
    {
      if !probed || file == null {
        return Unreadable;
      }
      var ok := ReadLog(file, sought, statted);
      CountAllTallies(Tail.Lines(tail.consumed, tail.maxLine));
      if !ok {
        return Unreadable;
      }
      if tail.backlog > 0 {
        return Behind(tail.backlog);
      }
      if !seen {
        UnseenIsZero(State(), Cycles(Tail.Lines(tail.consumed, tail.maxLine)));
        return Silent;
      }
      return Counters(State());
    }
  }

  // ---- internal/adapter/tensorfold/reqlog.go ----------------------------------------

  const FINISHES: seq<string> := ["stop", "length", "tool_calls", "cancelled", "error"]

  // What encoding/json makes of a line: no JSON, no finish, or a finish value.
  datatype Json = NotJson | NoFinish | HasFinish(finish: string)

  // A finish reason of the closed list, or what the line held instead.
  datatype Finish = Known(status: string) | Other(what: string)

  function ParseFinish(json: Json): Finish {
    match json
    case NotJson => Other("<not json>")
    case NoFinish => Other("<null>")
    case HasFinish(finish) => if finish in FINISHES then Known(finish) else Other(finish)
  }

  type Decoder = string -> Json

  // What one line adds to the counts.
  function CountFinish(decode: Decoder, finished: map<string, nat>, line: string): map<string, nat> {
    match ParseFinish(decode(line))
    case Other(_) => finished
    case Known(s) => finished[s := ((if s in finished then finished[s] else 0) + 1) % TWO_64]
  }

  function CountFinishes(decode: Decoder, finished: map<string, nat>, lines: seq<string>): map<string, nat> {
    if lines == [] then finished
    else CountFinish(decode, CountFinishes(decode, finished, lines[..|lines| - 1]), lines[|lines| - 1])
  }

  lemma {:induction false} CountFinishesConcat(decode: Decoder, finished: map<string, nat>, a: seq<string>,
                                               b: seq<string>)
    ensures CountFinishes(decode, finished, a + b) == CountFinishes(decode, CountFinishes(decode, finished, a), b)
  {
    if b == [] {
      assert a + b == a;
    } else {
      assert (a + b)[..|a + b| - 1] == a + b[..|b| - 1];
      CountFinishesConcat(decode, finished, a, b[..|b| - 1]);
    }
  }

  // How many lines of a log finished with a status, without any word size.
  function Finished(decode: Decoder, lines: seq<string>, status: string): nat {
    if lines == [] then 0
    else
      Finished(decode, lines[..|lines| - 1], status)
      + (if decode(lines[|lines| - 1]) == HasFinish(status) then 1 else 0)
  }

  // The statuses that a finish is counted under.
  predicate Listed(status: string) {
    status in {"stop", "length", "tool_calls", "cancelled", "error"}
  }

  lemma ListedAre(status: string)
    ensures Listed(status) <==> status in FINISHES
  {
    assert FINISHES[0] == "stop" && FINISHES[1] == "length" && FINISHES[2] == "tool_calls";
    assert FINISHES[3] == "cancelled" && FINISHES[4] == "error";
  }

  // The map has a status exactly when it is a listed one and some line finished with it, and counts
  // those lines.
  lemma {:induction false} FinishesAreCounted(decode: Decoder, lines: seq<string>, status: string)
    ensures var m := CountFinishes(decode, map[], lines);
      && (status in m <==> Listed(status) && Finished(decode, lines, status) > 0)
      && (status in m ==> m[status] == Finished(decode, lines, status) % TWO_64)
  {
    if lines == [] {
    } else {
      FinishesAreCounted(decode, lines[..|lines| - 1], status);
      ListedAre(status);
      ModAdd(Finished(decode, lines[..|lines| - 1], status), 1);
    }
  }

  function Recognised(decode: Decoder, lines: seq<string>): nat {
    if lines == [] then 0
    else
      Recognised(decode, lines[..|lines| - 1])
      + (if decode(lines[|lines| - 1]).HasFinish? && Listed(decode(lines[|lines| - 1]).finish) then 1 else 0)
  }

  // No recognised line is lost or counted twice.
  lemma {:induction false} FinishesPartition(decode: Decoder, lines: seq<string>)
    ensures Recognised(decode, lines)
         == Finished(decode, lines, "stop") + Finished(decode, lines, "length") + Finished(decode, lines, "tool_calls")
          + Finished(decode, lines, "cancelled") + Finished(decode, lines, "error")
  {
    if lines == [] {
    } else {
      FinishesPartition(decode, lines[..|lines| - 1]);
      DistinctStatuses();
    }
  }

  lemma DistinctStatuses()
    ensures "stop" != "length" && "stop" != "tool_calls" && "stop" != "cancelled" && "stop" != "error"
    ensures "length" != "tool_calls" && "length" != "cancelled" && "length" != "error"
    ensures "tool_calls" != "cancelled" && "tool_calls" != "error" && "cancelled" != "error"
  {
    assert "stop"[0] == 's' && "length"[0] == 'l' && "tool_calls"[0] == 't';
    assert "cancelled"[0] == 'c' && "error"[0] == 'e';
  }

  lemma DistinctFinishes()
    ensures forall i, j :: 0 <= i < j < |FINISHES| ==> FINISHES[i] != FINISHES[j]
  {
    assert FINISHES[0][0] == 's' && FINISHES[1][0] == 'l' && FINISHES[2][0] == 't';
    assert FINISHES[3][0] == 'c' && FINISHES[4][0] == 'e';
  }

  // The samples of a collection: the statuses seen, in the order of the closed list.
  function Report(finished: map<string, nat>, statuses: seq<string>): seq<(string, nat)> {
    if statuses == [] then []
    else
      (if statuses[0] in finished then [(statuses[0], finished[statuses[0]])] else [])
      + Report(finished, statuses[1..])
  }

  lemma ReportStep(finished: map<string, nat>, statuses: seq<string>, i: nat, before: seq<(string, nat)>)
    requires i < |statuses|
    ensures before + Report(finished, statuses[i..])
         == (if statuses[i] in finished then before + [(statuses[i], finished[statuses[i]])] else before)
          + Report(finished, statuses[i + 1..])
  {
    assert statuses[i..][1..] == statuses[i + 1..];
    var here := if statuses[i] in finished then [(statuses[i], finished[statuses[i]])] else [];
    Regroup(before, here, Report(finished, statuses[i + 1..]));
    assert before + [] == before;
  }

  lemma {:induction false} ReportHas(finished: map<string, nat>, statuses: seq<string>, status: string, n: nat)
    ensures (status, n) in Report(finished, statuses) <==>
      status in statuses && status in finished && finished[status] == n
  {
    if statuses == [] {
    } else {
      ReportHas(finished, statuses[1..], status, n);
    }
  }

  datatype Logged = LogFailed | LogBehind(backlog: nat) | LogAbsent | LogCounts(samples: seq<(string, nat)>)

  // What the samples of a whole log are.
  function FinishCount(decode: Decoder, log: string): seq<(string, nat)> {
    Report(CountFinishes(decode, map[], Tail.Lines(log, 0x10_0000)), FINISHES)
  }

  // A sample of a whole log: a listed status with which some line of it finished, and how many did.
  lemma SamplesOfLog(decode: Decoder, log: string, status: string, n: nat)
    ensures var finished := Finished(decode, Tail.Lines(log, 0x10_0000), status);
      (status, n) in FinishCount(decode, log) <==> Listed(status) && finished > 0 && n == finished % TWO_64
  {
    var lines := Tail.Lines(log, 0x10_0000);
    ReportHas(CountFinishes(decode, map[], lines), FINISHES, status, n);
    FinishesAreCounted(decode, lines, status);
    ListedAre(status);
  }

  function FinishOutcome(r: Logged): LogRuns.Outcome<seq<(string, nat)>> {
    match r
    case LogBehind(backlog) => LogRuns.Behind(backlog)
    case LogCounts(samples) => LogRuns.Counted(samples)
    case _ => LogRuns.Failed
  }

  class RequestLog {
    const tail: Reader
    const decode: Decoder

    var finished: map<string, nat>
    var warned: set<string>

    constructor (maxRead: nat, decode: Decoder)
      ensures Valid() && fresh(tail) && tail.maxRead == maxRead && this.decode == decode
    {
      tail := new Reader(maxRead, 0x10_0000);
      this.decode := decode;
      finished, warned := map[], {};
    }

    ghost predicate Valid()
      reads this, tail
    {
      && tail.Valid() && tail.maxLine == 0x10_0000
      && finished == CountFinishes(decode, map[], Tail.Lines(tail.consumed, tail.maxLine))
    }

    method OnLine(line: string)
      modifies this
      ensures finished == CountFinish(decode, old(finished), line)
      ensures old(warned) <= warned
    {
      var f := ParseFinish(decode(line));
      match f
      case Other(what) =>
        if what !in warned {
          warned := warned + {what};
        }
      case Known(status) =>
        var n := if status in finished then finished[status] else 0;
        finished := finished[status := (n + 1) % TWO_64];
    }

    method OnLines(lines: seq<string>)
      modifies this
      ensures finished == CountFinishes(decode, old(finished), lines)
    {
      for i := 0 to |lines|
        invariant finished == CountFinishes(decode, old(finished), lines[..i])
      {
        assert lines[..i + 1][..i] == lines[..i];
        OnLine(lines[i]);
      }
      assert lines[..|lines|] == lines;
    }

    method Samples() returns (samples: seq<(string, nat)>)
      ensures samples == Report(finished, FINISHES)
    {
      samples := [];
      for i := 0 to |FINISHES|
        invariant Report(finished, FINISHES) == samples + Report(finished, FINISHES[i..])
      {
        ReportStep(finished, FINISHES, i, samples);
        if FINISHES[i] in finished {
          samples := samples + [(FINISHES[i], finished[FINISHES[i]])];
        }
      }
      assert FINISHES[|FINISHES|..] == [];
    }

    method ReadLog(file: LogFile, sought: bool, statted: bool) returns (ok: bool)
      requires Valid()
      modifies this, tail, file
      ensures Valid()
      ensures LogRuns.ReadsOn(tail.maxRead, old(ViewOf(tail)), old(LogOf(file)), ViewOf(tail), LogOf(file), ok)
      ensures old(file.done) <= file.done
      ensures ok <==> sought && statted && FaultFree(file.faulty, old(file.done), file.done)
      ensures ok ==> tail.backlog == |file.content| - |tail.consumed|
    {
      var reset, lines;
      ghost var base;
      ok, reset, lines, base := ReadOnce(tail, file, sought, statted);
      Take(reset, lines, base);
    }

    // What a Read hands over: a reset, perhaps, and then the lines.
    method Take(reset: bool, lines: seq<string>, ghost base: seq<string>)
      requires if reset then base == [] else finished == CountFinishes(decode, map[], base)
      modifies this
      ensures finished == CountFinishes(decode, map[], base + lines)
    {
      if reset {
        finished := map[];
      }
      OnLines(lines);
      CountFinishesConcat(decode, map[], base, lines);
    }

    // mapped is whether the engine's own metrics were read and mapped; a log that does not exist
    // yet is no failure.
    method Collect(mapped: bool, file: LogFile?, missing: bool, sought: bool, statted: bool) returns (r: Logged)
      requires Valid()
      modifies this, tail, (if file == null then {} else {file})
      ensures Valid()
      ensures !mapped ==> r == LogFailed
      ensures mapped && file == null ==> r == if missing then LogAbsent else LogFailed
      ensures !mapped || file == null ==> unchanged(this, tail)
      ensures r.LogAbsent? <==> mapped && file == null && missing
      ensures mapped && file != null ==>
        (r.LogFailed? <==> !sought || !statted || !FaultFree(file.faulty, old(file.done), file.done))
      ensures mapped && file != null ==>
        LogRuns.Collects(tail.maxRead, old(ViewOf(tail)), old(LogOf(file)), ViewOf(tail), LogOf(file),
                         sought && statted && FaultFree(file.faulty, old(file.done), file.done),
                         FinishOutcome(r), FinishCount(decode, tail.consumed))
    {
      if !mapped {
        return LogFailed;
      }
      if file == null {
        return if missing then LogAbsent else LogFailed;
      }
      var ok := ReadLog(file, sought, statted);
      if !ok {
        return LogFailed;
      }
      if tail.backlog > 0 {
        return LogBehind(tail.backlog);
      }
      var samples := Samples();
      return LogCounts(samples);
    }
  }

  // ---- a log rewritten behind the reader's back --------------------------------------------------

  function OnlyAIsStop(line: string): Json {
    if line == "a" then HasFinish("stop") else NotJson
  }

  function CountStops(): string -> seq<(string, nat)> {
    (log: string) => FinishCount(OnlyAIsStop, log)
  }

  lemma OneLineCounts(decode: Decoder, line: string)
    requires Tail.NoNewline(line) && |line| <= 0x10_0000 && Tail.TrimCR(line) == line
    ensures CountFinishes(decode, map[], Tail.Lines(line + "\n", 0x10_0000)) == CountFinish(decode, map[], line)
  {
    Tail.LinesStep(line, "", 0x10_0000);
    assert line + "\n" + "" == line + "\n";
    assert [line] + Tail.Lines("", 0x10_0000) == [line] && [line][..0] == [];
  }

  lemma LettersAreLines()
    ensures Tail.NoNewline("a") && Tail.TrimCR("a") == "a" && Tail.NoNewline("b") && Tail.TrimCR("b") == "b"
  {
  }

  lemma LettersCount()
    ensures CountFinish(OnlyAIsStop, map[], "a") == map["stop" := 1]
    ensures CountFinish(OnlyAIsStop, map[], "b") == map[]
  {
    assert FINISHES[0] == "stop";
    assert "a"[0] != "b"[0];
  }

  lemma CountsOfOneLine()
    ensures FinishCount(OnlyAIsStop, "a\n") == [("stop", 1)] && FinishCount(OnlyAIsStop, "b\n") == []
  {
    LettersAreLines();
    OneLineCounts(OnlyAIsStop, "a");
    OneLineCounts(OnlyAIsStop, "b");
    LettersCount();
    assert "a" + "\n" == "a\n" && "b" + "\n" == "b\n";
    NoneReported(FINISHES);
    StopIsFirst();
  }

  lemma {:induction false} NoneReported(statuses: seq<string>)
    ensures Report(map[], statuses) == []
  {
    if statuses == [] {
    } else {
      NoneReported(statuses[1..]);
    }
  }

  lemma {:induction false} OthersUnreported(statuses: seq<string>)
    requires "stop" !in statuses
    ensures Report(map["stop" := 1], statuses) == []
  {
    if statuses == [] {
    } else {
      OthersUnreported(statuses[1..]);
    }
  }

  lemma StopIsFirst()
    ensures Report(map["stop" := 1], FINISHES) == [("stop", 1)]
  {
    DistinctFinishes();
    assert FINISHES[0] == "stop" && forall i :: 0 <= i < |FINISHES[1..]| ==> FINISHES[1..][i] == FINISHES[i + 1];
    OthersUnreported(FINISHES[1..]);
  }

  lemma SameLengthKeeps(was: string, now: string)
    requires |was| == |now|
    ensures was + now[|was|..] == was
  {
  }

  // A life of a request log, one line of it overwritten by another of the same length: the last
  // collection reports a finish that is in the file no more.
  lemma OverwrittenLineStillCounts() returns (states: seq<LogRuns.State>, steps: seq<LogRuns.Step<seq<(string, nat)>>>)
    ensures LogRuns.IsLife(CountStops(), 100, states, steps) && |steps| == 4
    ensures steps[3].Collected? && steps[3].log == LogRuns.Log(1, "b\n")
    ensures steps[3].outcome == LogRuns.Counted([("stop", 1)]) && FinishCount(OnlyAIsStop, steps[3].log.content) == []
  {
    CountsOfOneLine();
    states, steps := LogRuns.UndetectedRewrite(CountStops(), 100, 1, "a\n", "b\n");
    SameLengthKeeps("a\n", "b\n");
  }
}
