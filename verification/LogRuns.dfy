// The life of a log and of the adapter that counts it: any sequence of appends, replacements, cuts
// and collections. One collection is the relation that both adapters' Collect is proved to keep.
module LogRuns {
  import opened Text
  import opened Arithmetic
  import opened Reader

  // The file at the log's path.
  datatype Log = Log(id: nat, content: string)

  // What the tail reader knows: which file it read, and the bytes it consumed of it.
  datatype View = View(info: Option<nat>, consumed: string)

  datatype Outcome<T> = Failed | Behind(backlog: nat) | Counted(value: T)

  predicate StartsOver(v: View, log: Log) {
    v.info.Some? && (v.info != Some(log.id) || |log.content| < |v.consumed|)
  }

  function Base(v: View, log: Log): string {
    if StartsOver(v, log) then "" else v.consumed
  }

  // One Read of an open log, while others append to it: it goes on by the log's own bytes.
  ghost predicate ReadsOn(maxRead: nat, v: View, log: Log, v': View, log': Log, ok: bool) {
    && log'.id == log.id && log.content <= log'.content && v'.info == Some(log.id)
    && Continues(Base(v, log), v'.consumed, log'.content)
    && |v'.consumed| - |Base(v, log)| <= maxRead
    && (ok ==> |v'.consumed| - |Base(v, log)| == maxRead || |v'.consumed| >= |log.content|)
  }

  // One collection that opened the log: failed exactly if one of its calls on the file did, behind
  // while bytes are left, else the count of all it read. fine is whether those calls all succeed,
  // and total is that count.
  ghost predicate Collects<T(!new)>(maxRead: nat, v: View, log: Log, v': View, log': Log, fine: bool, r: Outcome<T>,
                                    total: T) {
    && ReadsOn(maxRead, v, log, v', log', fine)
    && (r.Failed? <==> !fine)
    && (r.Behind? ==> r.backlog == |log'.content| - |v'.consumed| > 0)
    && (r.Counted? ==> |v'.consumed| == |log'.content| && r.value == total)
  }

  // What is counted is the log itself exactly if the reset caught any rewriting of what was read.
  lemma CountedIsTheLog<T(!new)>(maxRead: nat, v: View, log: Log, v': View, log': Log, r: Outcome<T>, total: T)
    requires Collects(maxRead, v, log, v', log', true, r, total) && r.Counted? && |Base(v, log)| <= |log.content|
    ensures v'.consumed == log'.content <==> Base(v, log) <= log.content
  {
    PrefixIffDetected(Base(v, log), v'.consumed, log.content, log'.content);
  }

  // ---- whole lives ---------------------------------------------------------------------------

  datatype Edit = Append(bytes: string) | Replace(id: nat, content: string) | Cut(size: nat)

  function Edited(log: Log, e: Edit): Log {
    match e
    case Append(bytes) => Log(log.id, log.content + bytes)
    case Replace(id, content) => Log(id, content)
    case Cut(size) => Log(log.id, log.content[..Min(size, |log.content|)])
  }

  // Missed is a collection that failed before it opened the log; fine is whether what another does
  // with the open file succeeds.
  datatype Step<T> = Edits(e: Edit) | Missed | Collected(view: View, log: Log, fine: bool, outcome: Outcome<T>)

  // intact: nothing that was read has been overwritten or cut off since.
  datatype State = State(view: View, log: Log, intact: bool)

  // Whether this collection can know what it reads on from: nothing read before was touched, or the
  // file is visibly another one.
  predicate Trusted(s: State) {
    s.intact || StartsOver(s.view, s.log)
  }

  // The edit leaves the first offset bytes alone.
  predicate Spares(e: Edit, offset: nat) {
    e.Append? || (e.Cut? && offset <= e.size)
  }

  function Next<T>(s: State, step: Step<T>): State {
    match step
    case Missed => s
    case Edits(e) =>
      State(s.view, Edited(s.log, e), s.intact && (Spares(e, |s.view.consumed|) || s.view.consumed == ""))
    case Collected(view, log, _, _) => State(view, log, Trusted(s))
  }

  ghost predicate Allowed<T(!new)>(count: string -> T, maxRead: nat, s: State, step: Step<T>) {
    step.Collected? ==>
      Collects(maxRead, s.view, s.log, step.view, step.log, step.fine, step.outcome, count(step.view.consumed))
  }

  // The states of a life that begins with a reader that has read nothing.
  ghost predicate IsLife<T(!new)>(count: string -> T, maxRead: nat, states: seq<State>, steps: seq<Step<T>>) {
    && |states| == |steps| + 1
    && states[0].view == View(None, "") && states[0].intact
    && forall n :: 0 <= n < |steps| ==>
         Allowed(count, maxRead, states[n], steps[n]) && states[n + 1] == Next(states[n], steps[n])
  }

  ghost predicate Knows(s: State) {
    && (s.intact ==> s.view.consumed <= s.log.content)
    && (s.view.info == None ==> s.view.consumed == "")
  }

  lemma StepKnows<T(!new)>(count: string -> T, maxRead: nat, s: State, step: Step<T>)
    requires Knows(s) && Allowed(count, maxRead, s, step)
    ensures Knows(Next(s, step))
  {
    if step.Collected? {
      PrefixIffDetected(Base(s.view, s.log), step.view.consumed, s.log.content, step.log.content);
    }
  }

  lemma {:induction false} LifeKnows<T(!new)>(count: string -> T, maxRead: nat, states: seq<State>,
                                       steps: seq<Step<T>>, n: nat)
    requires IsLife(count, maxRead, states, steps) && n < |states|
    ensures Knows(states[n])
  {
    if n == 0 {
    } else {
      LifeKnows(count, maxRead, states, steps, n - 1);
      StepKnows(count, maxRead, states[n - 1], steps[n - 1]);
    }
  }

  // Across any life of the log, whatever is emitted is the count over the whole of the current
  // file, unless what was read has been rewritten behind the reader's back since it last started over.
  lemma EmissionsCountTheLog<T(!new)>(count: string -> T, maxRead: nat, states: seq<State>, steps: seq<Step<T>>, n: nat)
    requires IsLife(count, maxRead, states, steps) && n < |steps|
    requires steps[n].Collected? && steps[n].outcome.Counted? && Trusted(states[n])
    ensures steps[n].outcome.value == count(steps[n].log.content)
  {
    LifeKnows(count, maxRead, states, steps, n);
    var s, step := states[n], steps[n];
    CountedIsTheLog(maxRead, s.view, s.log, step.view, step.log, step.outcome, count(step.view.consumed));
  }

  // A log that others only append to, replace by another file, or cut below what was read, with a
  // collection between any two replacements or cuts, is always trusted.
  lemma TrustedEdits<T>(s: State, e: Edit)
    requires s.intact && s.view.info == Some(s.log.id)
    requires e.Replace? ==> e.id != s.log.id
    requires e.Cut? ==> e.size < |s.view.consumed|
    ensures Trusted(Next(s, Step<T>.Edits(e)))
  {
  }

  // The same file, no shorter, other bytes in front: nothing tells the reader, and it goes on to count
  // what it read before with what follows it now.
  lemma UndetectedRewrite<T(!new)>(count: string -> T, maxRead: nat, id: nat, was: string, now: string)
    returns (states: seq<State>, steps: seq<Step<T>>)
    requires 0 < |was| <= |now| <= maxRead
    ensures IsLife(count, maxRead, states, steps) && |steps| == 4
    ensures steps[1] == Edits(Cut(0)) && steps[2] == Edits(Append(now)) && !Trusted(states[3])
    ensures steps[3].Collected? && steps[3].log == Log(id, now)
    ensures steps[3].outcome == Counted(count(was + now[|was|..]))
  {
    var seen, all := View(Some(id), was), View(Some(id), was + now[|was|..]);
    steps := [Collected(seen, Log(id, was), true, Counted(count(was))), Edits(Cut(0)), Edits(Append(now)),
              Collected(all, Log(id, now), true, Counted(count(all.consumed)))];
    var s0 := State(View(None, ""), Log(id, was), true);
    var s1 := Next(s0, steps[0]);
    var s2 := Next(s1, steps[1]);
    var s3 := Next(s2, steps[2]);
    states := [s0, s1, s2, s3, Next(s3, steps[3])];
    assert s3 == State(seen, Log(id, "" + now), false);
    assert "" + now == now;
    assert Collects(maxRead, s0.view, s0.log, seen, Log(id, was), true, steps[0].outcome, count(was));
    assert Collects(maxRead, s3.view, s3.log, all, Log(id, now), true, steps[3].outcome, count(all.consumed));
  }

  // ---- catching up -------------------------------------------------------------------------------

  // Collections of a log that nobody writes any more, no call on the file failing.
  ghost predicate Quiet<T(!new)>(count: string -> T, maxRead: nat, log: Log, views: seq<View>,
                          outcomes: seq<Outcome<T>>) {
    && |views| == |outcomes| + 1
    && !StartsOver(views[0], log) && |views[0].consumed| <= |log.content|
    && forall n :: 0 <= n < |outcomes| ==>
         Collects(maxRead, views[n], log, views[n + 1], log, true, outcomes[n], count(views[n + 1].consumed))
  }

  lemma {:induction false} QuietOffsets<T(!new)>(count: string -> T, maxRead: nat, log: Log, views: seq<View>,
                                                 outcomes: seq<Outcome<T>>, k: nat)
    requires Quiet(count, maxRead, log, views, outcomes) && k <= |outcomes|
    ensures |views[k].consumed| == OffsetAfter(|views[0].consumed|, |log.content|, maxRead, k)
    ensures !StartsOver(views[k], log)
  {
    if k == 0 {
    } else {
      QuietOffsets(count, maxRead, log, views, outcomes, k - 1);
      assert Collects(maxRead, views[k - 1], log, views[k], log, true, outcomes[k - 1], count(views[k].consumed));
    }
  }

  // The k-th of them leaves max(0, size - offset - k * maxRead) bytes, so the counters appear at
  // exactly the ceiling number of collections, and stay.
  lemma CountersAppear<T(!new)>(count: string -> T, maxRead: nat, log: Log, views: seq<View>,
                                outcomes: seq<Outcome<T>>, k: nat)
    requires Quiet(count, maxRead, log, views, outcomes) && 0 < k <= |outcomes| && maxRead > 0
    ensures var due := |log.content| - |views[0].consumed|;
      && (k >= (due + maxRead - 1) / maxRead ==> outcomes[k - 1] == Counted(count(views[k].consumed)))
      && (k < (due + maxRead - 1) / maxRead ==>
            outcomes[k - 1].Behind? && outcomes[k - 1].backlog == due - k * maxRead)
  {
    QuietOffsets(count, maxRead, log, views, outcomes, k);
    CatchUp(|views[0].consumed|, |log.content|, maxRead, k);
    assert Collects(maxRead, views[k - 1], log, views[k], log, true, outcomes[k - 1], count(views[k].consumed));
  }
}
