// internal/remotewrite/sender.go as functions on values: what each lock-held section of the sender
// does to its memory and to the queue directory, and the steps two goroutines and a crash can take.
module Queue {
  import opened Text
  import opened SeriesKey
  import opened Stale

  const MAX_BATCH: nat := 0x40_0000

  // A file of the queue directory. Snappy and protobuf are kept as their outcome: the decoded
  // length, and the request if the decoded bytes hold one.
  datatype Content = Snappy(decodedLen: nat, request: Option<Request>) | Manifest(text: string) | Corrupt

  datatype File = File(size: nat, regular: bool, content: Content)

  type Directory = map<string, File>

  datatype Options = Options(maxBytes: nat, maxAge: int, want: string)

  datatype Memory = Memory(
    files: seq<string>, queuedBytes: int, queuedBatches: nat, dropped: nat, previous: Request, timestamp: int)

  const EMPTY := Memory([], 0, 0, 0, [], 0)

  function Name(timestamp: nat): string {
    Pad(timestamp, 20) + ".rw"
  }

  // What sendOne reads back from a file name, ignoring the error.
  function TimestampOf(name: string): int {
    match ParseInt64(TrimSuffix(name, ".rw"))
    case Some(n) => n
    case None => 0
  }

  // ---- restore ------------------------------------------------------------

  datatype RestoreError =
    | WrongDestination | BadName | BadFile | OverCap | CheckpointTooLarge | BadCompression | BadRequest | Io

  // Which operations of a restore the file system fails: reading or writing the manifest, listing
  // the directory, sweeping a file, looking one up, reading one.
  datatype Faults = Faults(
    manifest: bool, listing: bool, stuck: set<string>, hidden: set<string>, unread: set<string>)

  const HEALTHY := Faults(false, false, {}, {}, {})

  datatype Result<+T> = Ok(value: T) | Err(error: RestoreError)

  predicate IsPending(name: string) {
    HasPrefix(name, ".pending-")
  }

  predicate IsQueueName(name: string) {
    !IsPending(name) && HasSuffix(name, ".rw")
  }

  datatype Scan = Scan(dir: Directory, files: seq<string>, bytes: nat)

  function ScanOne(scan: Scan, name: string, io: Faults := HEALTHY): Result<Scan> {
    if IsPending(name) then (if name in io.stuck then Err(Io) else Ok(scan.(dir := scan.dir - {name})))
    else if !IsQueueName(name) then Ok(scan)
    else if ParseInt64(TrimSuffix(name, ".rw")).None? then Err(BadName)
    else if name !in scan.dir || name in io.hidden then Err(Io)
    else if !scan.dir[name].regular || scan.dir[name].size > MAX_BATCH then Err(BadFile)
    else Ok(scan.(files := scan.files + [name], bytes := scan.bytes + scan.dir[name].size))
  }

  function ScanAll(scan: Scan, entries: seq<string>, io: Faults := HEALTHY): Result<Scan>
    decreases |entries|
  {
    if entries == [] then Ok(scan)
    else match ScanOne(scan, entries[0], io)
      case Err(e) => Err(e)
      case Ok(next) => ScanAll(next, entries[1..], io)
  }

  function MaxTimestampOfSamples(samples: seq<Sample>, floor: int): int {
    if samples == [] then floor
    else MaxTimestampOfSamples(samples[1..], if samples[0].timestamp > floor then samples[0].timestamp else floor)
  }

  function MaxTimestampFrom(request: Request, floor: int): int {
    if request == [] then floor
    else MaxTimestampFrom(request[1..], MaxTimestampOfSamples(request[0].samples, floor))
  }

  function MaxTimestamp(request: Request): int {
    MaxTimestampFrom(request, 0)
  }

  // One checkpoint candidate: it wins unless it is older than what is already known.
  function Load(m: Memory, file: File): Result<Memory> {
    if file.size > MAX_BATCH then Err(CheckpointTooLarge)
    else if !file.content.Snappy? || file.content.decodedLen > MAX_BATCH then Err(BadCompression)
    else if file.content.request.None? then Err(BadRequest)
    else
      var request := file.content.request.value;
      if MaxTimestamp(request) >= m.timestamp
      then Ok(m.(timestamp := MaxTimestamp(request), previous := ActiveSeries(request)))
      else Ok(m)
  }

  function LoadAll(m: Memory, dir: Directory, candidates: seq<string>, io: Faults := HEALTHY): Result<Memory>
    decreases |candidates|
  {
    if candidates == [] then Ok(m)
    else if candidates[0] in io.hidden then Err(Io)
    else if candidates[0] !in dir then LoadAll(m, dir, candidates[1..], io)
    else if dir[candidates[0]].size <= MAX_BATCH && candidates[0] in io.unread then Err(Io)
    else match Load(m, dir[candidates[0]])
      case Err(e) => Err(e)
      case Ok(next) => LoadAll(next, dir, candidates[1..], io)
  }

  // The manifest check, and the manifest written by the first start in a directory.
  function Bind(dir: Directory, want: string, io: Faults := HEALTHY): Result<Directory> {
    if io.manifest then Err(Io)
    else if "destination" !in dir then Ok(dir["destination" := File(|want|, true, Manifest(want))])
    else if dir["destination"].content == Manifest(want) then Ok(dir)
    else Err(WrongDestination)
  }

  function Candidates(files: seq<string>): seq<string> {
    ["state"] + (if files == [] then [] else [files[|files| - 1]])
  }

  // What follows the listing: the order, the cap, the timestamp and the snapshot.
  function Recall(scan: Scan, o: Options, io: Faults := HEALTHY): Result<Memory> {
    var files := SortBy(Self, scan.files);
    if scan.bytes > o.maxBytes then Err(OverCap)
    else LoadAll(Memory(files, scan.bytes, |files|, 0, [], 0), scan.dir, Candidates(files), io)
  }

  // entries is the directory listing; on an error New gives up, so only the error matters.
  function Restore(dir: Directory, entries: seq<string>, o: Options, io: Faults := HEALTHY): Result<(Directory,
                   Memory)> {
    match Bind(dir, o.want, io)
    case Err(e) => Err(e)
    case Ok(bound) =>
      if io.listing then Err(Io)
      else
        match ScanAll(Scan(bound, [], 0), entries, io)
        case Err(e) => Err(e)
        case Ok(scan) =>
          match Recall(scan, o, io)
          case Err(e) => Err(e)
          case Ok(m) => Ok((scan.dir, m))
  }

  // ---- enqueue ------------------------------------------------------------

  datatype Verdict = Nothing | TooLarge | Full | Fits(request: Request)

  // Everything enqueue decides before it touches the disk. rawLen and bodyLen are the sizes the
  // request has before and after compression.
  function Judge(m: Memory, current: Request, timestamp: nat, rawLen: nat, bodyLen: nat, o: Options): Verdict {
    var request := WithStale(current, m.previous, timestamp);
    if request == [] then Nothing
    else if rawLen > MAX_BATCH then TooLarge
    else if bodyLen > MAX_BATCH || m.queuedBytes + bodyLen > o.maxBytes then Full
    else Fits(request)
  }

  function Body(request: Request, rawLen: nat, bodyLen: nat): File {
    File(bodyLen, true, Snappy(rawLen, Some(request)))
  }

  // The memory once the queue file is on disk.
  function Admit(m: Memory, current: Request, timestamp: nat, bodyLen: nat): Memory {
    Memory(m.files + [Name(timestamp)], m.queuedBytes + bodyLen, |m.files| + 1, m.dropped, current, timestamp)
  }

  // ---- sendOne ------------------------------------------------------------

  datatype Fate = Acked | Rejected | Expired

  // What one attempt met: an unreadable file, no request made, a request whose response was lost,
  // or a status code.
  datatype Answer = Unreadable | Unsent | Lost | Status(code: int)

  predicate IsExpired(now: int, timestamp: int, maxAge: int) {
    now - 1_000_000 * timestamp > maxAge
  }

  predicate IsRetryable(code: int) {
    code >= 500 || code == 429
  }

  predicate IsRejected(code: int) {
    !IsRetryable(code) && (code < 200 || code >= 300)
  }

  // The memory once the head file is gone. The source drops files[0] without looking at it.
  function Forget(m: Memory, size: nat, fate: Fate): Memory
    requires m.files != []
  {
    Memory(m.files[1..], m.queuedBytes - size, |m.files| - 1,
           if fate == Acked then m.dropped else m.dropped + 1, m.previous, m.timestamp)
  }

  // ---- the sender as a system of steps ------------------------------------

  // The collecting goroutine: Chosen has read the clock (collect, or Run at shutdown) and released
  // the lock; Writing holds the lock between the queue file and the checkpoint.
  datatype Collector = Idle | Chosen(timestamp: nat) | Writing(file: File)

  // The delivering goroutine: Picked has taken the head's name; Settled knows its fate but has
  // not removed it yet. It holds the lock in neither.
  datatype Deliverer = Resting | Picked(name: string) | Settled(name: string, size: nat, fate: Fate)

  datatype Process = Down | Up(memory: Memory, collector: Collector, deliverer: Deliverer)

  // A durably accepted batch: the snapshot, the one its markers were computed against, the file.
  datatype Batch = Batch(timestamp: nat, current: Request, basis: Request, file: File)

  // What really happened, for statements about whole runs. No step reads it.
  //   accepted      batches whose queue file was written, in order
  //   queue         those that have not left the queue
  //   fates         how the others left it, in order
  //   posts, sent   the files POSTed, and which batch each one was
  //   newest        the last accepted batch
  //   saved         the batch "state" holds, and lagging says it is not the newest
  //   known         the batch that memory's timestamp and previous come from
  //   breaks        |accepted| at each restart that found neither the newest batch nor its checkpoint
  //   restarts      |fates| at the last restart
  //   refused       snapshots enqueue dropped since the last restart
  datatype History = History(
    accepted: seq<Batch>, queue: seq<Batch>, fates: seq<Fate>, posts: seq<File>, sent: seq<nat>,
    newest: Option<Batch>, saved: Option<Batch>, lagging: bool, known: Option<Batch>,
    breaks: set<nat>, restarts: nat, refused: nat)

  datatype System = System(dir: Directory, process: Process, history: History)

  const START := System(map[], Down, History([], [], [], [], [], None, None, false, None, {}, 0, 0))

  // A gathered series, before encodeFamilies stamps it.
  datatype Point = Point(labels: Labels, bits: nat)

  function Stamped(points: seq<Point>, timestamp: int): Request {
    seq(|points|, i requires 0 <= i < |points| => Series(points[i].labels, [Sample(points[i].bits, timestamp)]))
  }

  predicate NoStaleBits(points: seq<Point>) {
    forall p :: p in points ==> p.bits != STALE_BITS
  }

  datatype Event =
    | Choose(now: int)
    | Enqueue(points: seq<Point>, rawLen: nat, bodyLen: nat, written: bool)
    | Checkpoint(written: bool)
    | Pick
    | Attempt(now: int, answer: Answer)
    | Remove(removed: bool)
    | Crash(litter: Directory)
    | Falter(bound: bool, swept: set<string>, litter: Directory)
    | Restart(entries: seq<string>)

  // os.ReadDir after the manifest check: every name once, in whatever order.
  ghost predicate Lists(entries: seq<string>, dir: Directory, want: string) {
    Bind(dir, want).Ok? ==> DistinctBy(Self, entries) && Elements(entries) == Bind(dir, want).value.Keys
  }

  // The step an event takes; an event that cannot happen in a state changes nothing.
  ghost function Apply(o: Options, s: System, e: Event): System {
    match e
    case Choose(now) => if s.process.Up? then ApplyChoose(s, now) else s
    case Enqueue(points, rawLen, bodyLen, written) =>
      if s.process.Up? && s.process.collector.Chosen? && NoStaleBits(points)
      then ApplyEnqueue(o, s, points, rawLen, bodyLen, written) else s
    case Checkpoint(written) =>
      if s.process.Up? && s.process.collector.Writing? then ApplyCheckpoint(s, written) else s
    case Pick =>
      if s.process.Up? && s.process.deliverer.Resting? && !s.process.collector.Writing? && s.process.memory.files != []
      then s.(process := s.process.(deliverer := Picked(s.process.memory.files[0]))) else s
    case Attempt(now, answer) =>
      if s.process.Up? && s.process.deliverer.Picked? then ApplyAttempt(o, s, now, answer) else s
    case Remove(removed) =>
      if s.process.Up? && s.process.deliverer.Settled? && !s.process.collector.Writing?
      then ApplyRemove(s, removed) else s
    case Crash(litter) =>
      if s.process.Up? && forall name :: name in litter ==> IsPending(name)
      then s.(dir := s.dir + litter, process := Down) else s
    case Falter(bound, swept, litter) =>
      if s.process.Down? && (forall name :: name in swept || name in litter ==> IsPending(name))
      then s.(dir := Faltered(s.dir, o.want, bound, swept, litter)) else s
    case Restart(entries) =>
      if s.process.Down? && Lists(entries, s.dir, o.want) then ApplyRestart(o, s, entries) else s
  }

  // A restore cut short, by a crash or an error: the manifest may have been written, some pending
  // files swept, and a new one left.
  function Faltered(dir: Directory, want: string, bound: bool, swept: set<string>, litter: Directory): Directory {
    ((if bound && Bind(dir, want).Ok? then Bind(dir, want).value else dir) - swept) + litter
  }

  function ApplyChoose(s: System, now: int): System
    requires s.process.Up?
  {
    var last := s.process.memory.timestamp;
    if s.process.collector.Idle? && 0 <= last < MAX_INT64 && now <= MAX_INT64
    then s.(process := s.process.(collector := Chosen(if now > last + 1 then now else last + 1)))
    else s
  }

  function ApplyEnqueue(o: Options, s: System, points: seq<Point>, rawLen: nat, bodyLen: nat, written: bool): System
    requires s.process.Up? && s.process.collector.Chosen?
  {
    var p, h, timestamp := s.process, s.history, s.process.collector.timestamp;
    var current := Stamped(points, timestamp);
    match Judge(p.memory, current, timestamp, rawLen, bodyLen, o)
    case Nothing => s.(process := p.(collector := Idle))
    case TooLarge => Refuse(s)
    case Full => Refuse(s)
    case Fits(request) =>
      if !written then s.(process := p.(collector := Idle))
      else
        var file := Body(request, rawLen, bodyLen);
        System(s.dir[Name(timestamp) := file],
               Up(Admit(p.memory, current, timestamp, bodyLen), Writing(file), p.deliverer),
               Accept(h, Batch(timestamp, current, p.memory.previous, file)))
  }

  function Accept(h: History, b: Batch): History {
    h.(accepted := h.accepted + [b], queue := h.queue + [b], newest := Some(b), known := Some(b), lagging := true)
  }

  function Refuse(s: System): System
    requires s.process.Up?
  {
    var m := s.process.memory;
    s.(process := s.process.(memory := m.(dropped := m.dropped + 1), collector := Idle),
       history := s.history.(refused := s.history.refused + 1))
  }

  function ApplyCheckpoint(s: System, written: bool): System
    requires s.process.Up? && s.process.collector.Writing?
  {
    var p := s.process.(collector := Idle);
    if written
    then System(s.dir["state" := s.process.collector.file], p, s.history.(saved := s.history.newest, lagging := false))
    else s.(process := p)
  }

  function ApplyAttempt(o: Options, s: System, now: int, answer: Answer): System
    requires s.process.Up? && s.process.deliverer.Picked?
  {
    var p, h, name := s.process, s.history, s.process.deliverer.name;
    if answer.Unreadable? || name !in s.dir then s.(process := p.(deliverer := Resting))
    else
      var file := s.dir[name];
      if IsExpired(now, TimestampOf(name), o.maxAge)
      then s.(process := p.(deliverer := Settled(name, file.size, Expired)))
      else if answer.Unsent? then s.(process := p.(deliverer := Resting))
      else
        var next :=
          if answer.Lost? || IsRetryable(answer.code) then Resting
          else Settled(name, file.size, if IsRejected(answer.code) then Rejected else Acked);
        s.(process := p.(deliverer := next),
           history := h.(posts := h.posts + [file], sent := h.sent + [|h.fates|]))
  }

  function ApplyRemove(s: System, removed: bool): System
    requires s.process.Up? && s.process.deliverer.Settled?
  {
    var p, h, d := s.process, s.history, s.process.deliverer;
    if !removed || d.name !in s.dir || p.memory.files == [] then s.(process := p.(deliverer := Resting))
    else System(s.dir - {d.name},
                p.(memory := Forget(p.memory, d.size, d.fate), deliverer := Resting),
                h.(fates := h.fates + [d.fate], queue := if h.queue == [] then [] else h.queue[1..]))
  }

  function ApplyRestart(o: Options, s: System, entries: seq<string>): System
    requires s.process.Down?
  {
    match Restore(s.dir, entries, o)
    case Err(_) => s
    case Ok((dir, m)) =>
      var h := s.history;
      System(dir, Up(m, Idle, Resting),
             h.(known := if h.queue == [] then h.saved else h.newest,
                breaks := if h.queue == [] && h.lagging then h.breaks + {|h.accepted|} else h.breaks,
                restarts := |h.fates|, refused := 0))
  }

  ghost function Run(o: Options, events: seq<Event>): System {
    if events == [] then START else Apply(o, Run(o, events[..|events| - 1]), events[|events| - 1])
  }
}
