# A model of llm-metrics-exporter and proofs about it

llm-metrics-exporter reads the metrics and logs of LLM inference engines, turns them into one canonical
schema, and can push what it gathered through Prometheus Remote Write 1.0 from a queue on disk. This project
models its five stateful parts in Dafny 4.11 and proves what they are for. `dafny verify dfyconfig.toml`
checks everything.

**Remote-write queue** (`internal/remotewrite`). `Sender.dfy` is the sender as a class: `restore`,
`enqueue`, `collect` and the locked sections of `sendOne`, with their loops, over a directory object. Each
method is proved equal to a function of the old state (`Queue.dfy`). The same functions are the steps of a
system of two goroutines and a crash: choosing a timestamp, writing the queue file, writing the checkpoint,
picking the head, one attempt on it, removing it, crashing at any point, a start cut short, restarting from
any directory listing. `QueueInvariant.dfy` and `QueueRestart.dfy` prove an invariant of every event
sequence; `QueueTheorems.dfy` states what follows: what is accepted and what settles a batch, exact
rebuilding after a crash, ordered at-least-once delivery, staleness over whole runs, increasing timestamps,
accounting. `QueueRefusals.dfy` says from which directories a sender starts, and what it recalls of each.
`Stale.dfy`, `SeriesKey.dfy` and `EncodeFamilies.dfy` model `encode.go`.

A restart forgets the timestamp and the active series exactly when the queue is empty and the checkpoint on
disk is not the newest batch (`CrashRefinement` is an equivalence); it never does if every checkpoint write
succeeds and no crash falls just before one (`CheckpointedNeverFallsBack`). `QueueFallback.dfy` is a run
that does it, and the batch after it: stamped before the one forgotten, without a marker for the series
forgotten. What relates batches is therefore stated for every stretch of batches without a fallback inside
it (`history.breaks` holds the places), together with what exactly decides it across one: the clock for the
order (`ChoiceIsPastNewest`), the older checkpoint and the next snapshot for the receiver's view
(`AgreementAfterRestart`, `AgreementAfterBatch`) and for the markers (`VanishedMarkedOnce`).

**Log tailing and log counters** (`internal/tail`, `ds4`, the TensorFold request log). `Tail.dfy` specifies
the lines of a stream and proves `feed` right however the stream is cut, exactly if chunks are at most
`maxLine + 1` bytes long. `Reader.dfy` is the reader over a file that others append to, replace or shrink;
`LogCounters.dfy` and `LogAdapters.dfy` are the two adapters, each of whose collections is one step of
`LogRuns.dfy`: over any life of the log what is emitted is a count over all complete lines of the current
file, unless bytes already read were rewritten in place without the file becoming shorter.

**Arm lifecycle** (`internal/collector`). `Collector.dfy` has `sync`, `closeArm`, `collectArm` and `Close`;
a Collect that outlived its timeout may finish wherever no arm is locked. The calls on an adapter carry the
safety properties as preconditions.

**Discovery** (`internal/discovery`). `Discovery.dfy` says what one `Observe` does to each endpoint and to
the rotating window, `Manager.dfy` proves the loops of `Observe` against that, `Observing.dfy` tells from
the inputs of an `Observe` what it shows and remembers, and `Transitions.dfy` proves what follows for whole
runs: equal transition stamps at two ready observations mean, and are meant by, an endpoint that never
stopped being the same and ready.

**Partition and histograms** (`adapter.Builder`, `promtext`, `validateHist`). `Exposition.dfy`,
`Histograms.dfy`, `Partition.dfy` and `WorkerSamples.dfy`: every worker's samples are those of its own
series, a partition by worker conserves sums and counts, merged histograms pass validation, absence never
becomes zero.

Strings are sequences of bytes. Clock readings, file-write outcomes, HTTP answers, probe results and the
iteration order of Go maps are inputs or nondeterministic choices. `Text.dfy` and `Arithmetic.dfy` hold the
string order, sorting, decimal numbers and integer division that several modules share.

Where the code and its words differ, the model follows the code: `tail.go` says lines over the limit are
skipped, but a line that lies wholly inside one chunk is delivered whatever its length
(`Tail.ChunkBoundExact`).

## Model

| member | source | states |
|---|---|---|
| SeriesKey.SeriesKey | internal/remotewrite/encode.go:17-24 | the loop builds the length-prefixed key of a label list |
| SeriesKey.KeyInjective | internal/remotewrite/encode.go:17-24 | equal keys come only from equal label lists, whatever bytes names and values hold |
| SeriesKey.KeysDecideMembership | internal/remotewrite/encode.go:73-79 | a key is among the keys of a set of label lists exactly if the label list is in the set |
| Stale.WithStaleMethod | internal/remotewrite/encode.go:72-84 | the two loops over a set of keys return the snapshot followed by one marker for each previous series whose labels it lacks |
| Stale.ActiveSeriesMethod | internal/remotewrite/encode.go:86-94 | the loop keeps, in order, the series whose first sample is not a stale marker |
| Stale.ActiveOfWithStale | internal/remotewrite/encode.go:72-94 | reading a request back gives the active part of its snapshot, and the snapshot itself exactly if every series of it has a sample that is not the stale marker |
| Stale.MarkersExactly | internal/remotewrite/encode.go:72-84 | a series gets as many markers as it had entries in the previous snapshot if it is gone, and none if it is still there |
| Stale.ReceiveWithStale | internal/remotewrite/encode.go:72-84 | a receiver that believed the previous snapshot believes exactly the current one after the request |
| Stale.EmptyOnlyIfNothing | internal/remotewrite/sender.go:234-237 | there is nothing to send exactly if the snapshot and the one before are both empty |
| Stale.MarkersAreStale | internal/remotewrite/encode.go:15-82 | each marker is one sample of the stale bits at the batch's timestamp, under the labels it ends |
| EncodeFamilies.Add | internal/remotewrite/encode.go:36-47 | for every map order and any base, labels come out sorted by name and are exactly those of base, the name and the extra label; without clashes each name once |
| EncodeFamilies.EncodeMetric | internal/remotewrite/encode.go:29-66 | one metric yields its series and no other: the counter's value, the gauge's, or each finite bucket's count under its bound, the +Inf bucket, count and sum, each under the metric's labels and the exporter's two |
| EncodeFamilies.EncodeFamilies | internal/remotewrite/encode.go:26-70 | fails exactly if a family of another type has a metric; otherwise the result is sorted by key, is the one rendering of the families, and reads back: each counter's, gauge's, bucket's, count's and sum's value is sent under its name, its metric's labels and the exporter's two, as many series as are due, and nothing else |
| EncodeFamilies.EachValueOnce | internal/remotewrite/encode.go:26-70 | if no two series share a key, the labels of a value that is due find exactly one series, and that value |
| EncodeFamilies.BaseHolds | internal/remotewrite/encode.go:30-35 | the base labels are the last non-empty value of each name the metric brings, and job and instance where it brings none |
| EncodeFamilies.EncodingCanonical | internal/remotewrite/encode.go:38-47 | two encodings of the same families are equal, so map iteration order never shows |
| EncodeFamilies.RenderingUnique | internal/remotewrite/encode.go:36-47 | a list of label maps has one rendering with labels strictly ascending by name |
| EncodeFamilies.SeriesOrderIrrelevant | internal/remotewrite/encode.go:68 | sorting by key leaves one result for series with distinct labels, whatever order they were produced in |
| EncodeFamilies.OneInfBucket | internal/remotewrite/encode.go:53-62 | a histogram yields exactly one +Inf bucket, equal to its count, whether or not it listed one |
| Sender.Sender.BindDestination | internal/remotewrite/sender.go:128-143 | the manifest is checked, or written by the first start; another manifest or a failing read or write is an error |
| Sender.Sender.ScanDirectory | internal/remotewrite/sender.go:144-171 | the listing loop sweeps pending files, collects queue files and sizes, and fails on a bad name, a bad file or a failing operation; it removes nothing else |
| Sender.Sender.LoadCheckpoint | internal/remotewrite/sender.go:192-220 | a checkpoint wins unless its newest sample is older than what is known; sizes, compression and decoding are checked in order |
| Sender.Sender.LoadCandidates | internal/remotewrite/sender.go:183-221 | the candidates are taken in order, a missing one skipped, the first error returned, failing lookups and reads included |
| Sender.Sender.RecallState | internal/remotewrite/sender.go:172-222 | the found files are ordered and checked against the cap, then timestamp and snapshot are recalled |
| Sender.Sender.Restore | internal/remotewrite/sender.go:127-223 | the whole start-up, for any directory, any listing order and any failing operation, with the error each gives |
| Sender.Sender.Enqueue | internal/remotewrite/sender.go:231-268 | the whole new state and directory for every outcome; a snapshot enters the queue if and only if it or the one before is non-empty, neither size exceeds 4 MiB, it fits under the cap and its file is written, and exactly the two size cases count as dropped |
| Sender.Sender.ChooseTimestamp | internal/remotewrite/sender.go:275-277 | the timestamp is the clock's, or one past the last if the clock does not move on |
| Sender.Sender.Collect | internal/remotewrite/sender.go:270-283 | a failed gather or encoding changes nothing; otherwise the snapshot, which reads back as the families gathered and is stamped after every earlier one, is enqueued |
| Sender.Sender.PickHead | internal/remotewrite/sender.go:295-301 | names the batch with the smallest timestamp of all that are queued, or none exactly if none is |
| Sender.Sender.AttemptFile | internal/remotewrite/sender.go:302-343 | what is POSTed, and the fate: expired by age, else acked by 200 to 299, kept by 429, 500 and above or no response, rejected by any other status |
| Sender.Sender.Finish | internal/remotewrite/sender.go:344-357 | the second locked section removes the file and the first queue entry together, or changes nothing |
| Sender.Sender.Interfere | internal/remotewrite/sender.go:231-268 | snapshots accepted while the deliverer holds no lock only grow the queue at its end |
| Sender.Sender.SendOne | internal/remotewrite/sender.go:292-371 | with snapshots accepted between its two locked sections, exactly the oldest batch is POSTed and leaves; its fate is settled as expired, acked by 200 to 299 or rejected by a status that is neither that nor 429 nor 500 and above, and otherwise it stays |
| Sender.EnqueueIsTwoSteps | internal/remotewrite/sender.go:251-262 | one call of enqueue is the queue-file step and the checkpoint step between which a crash may fall |
| Sender.AttemptIsOneStep | internal/remotewrite/sender.go:302-343 | what AttemptFile returns is the attempt step of the system, POST included |
| Sender.FinishIsOneStep | internal/remotewrite/sender.go:344-357 | what Finish does is the removal step of the system, with its fate recorded |
| Sender.PickIsOneStep | internal/remotewrite/sender.go:295-301 | the batch PickHead names is the one the pick step of the system takes |
| Sender.ChoosingIsOneStep | internal/remotewrite/sender.go:275-277 | a timestamp as ChooseTimestamp gives it is the choosing step of the system |
| Sender.RestoredIsQueued | internal/remotewrite/sender.go:127-223 | a restarted sender holds exactly the queue its directory holds |
| Sender.EncodedIsStamped | internal/remotewrite/encode.go:46-69 | what encodeFamilies returns is a snapshot of one sample per series at one timestamp |
| QueueNames.NameReadsBack | internal/remotewrite/sender.go:159 | a batch's file name is a queue name and parses back to its timestamp |
| QueueNames.NameOrder | internal/remotewrite/sender.go:172 | file names sort as strings the way their timestamps sort as numbers |
| QueueNames.ScanFinds | internal/remotewrite/sender.go:144-171 | the scan of a directory with sound queue files succeeds and finds every one of them with its size |
| QueueNames.ScanSweeps | internal/remotewrite/sender.go:150-155 | the scan removes exactly the pending files it was shown |
| QueueNames.ScanRebuildsQueue | internal/remotewrite/sender.go:144-176 | from any listing order, the sorted names are the queued batches oldest first, and the byte count is theirs |
| QueueRestart.RestoreRebuilds | internal/remotewrite/sender.go:127-223 | restore succeeds on every directory the sender can leave, rebuilds the queue, and recalls the newest queued batch or else the checkpoint |
| QueueRefusals.RestoreSucceedsIff | internal/remotewrite/sender.go:127-223 | for any directory, listing and failing operation, a start succeeds if and only if the manifest is absent or its own, every entry passes the scan, the queue is within the cap, and checkpoint and newest queue file can be read; another manifest, and a queue over the cap, are refused as such exactly when they are met |
| QueueRefusals.RestoreRecalls | internal/remotewrite/sender.go:172-222 | then it holds the listed queue files in order with their sizes, and the snapshot of the checkpoint or of the newest queue file, whichever has the later timestamp, the queue file on a tie |
| QueueRefusals.MaxTimestampIs | internal/remotewrite/sender.go:214-219 | a request's timestamp is that of its latest sample, and zero at least |
| Text.ParsesIff | internal/remotewrite/sender.go:159 | a name's number parses exactly if it is digits with at most one sign in front and fits in 64 bits |
| QueueRestart.FalterKeeps | internal/remotewrite/sender.go:128-155 | a start cut short anywhere, by a crash or an error, keeps the invariant: the manifest may be written, some pending files swept, a new one left |
| QueueInvariant.EnqueueKeeps | internal/remotewrite/sender.go:231-259 | enqueue keeps the invariant, accepted or refused, written or not |
| QueueInvariant.CheckpointKeeps | internal/remotewrite/sender.go:260-262 | so does the checkpoint write, whether it succeeds or not |
| QueueInvariant.AttemptKeeps | internal/remotewrite/sender.go:302-343 | so does one delivery attempt, whatever the answer |
| QueueInvariant.RemoveKeeps | internal/remotewrite/sender.go:344-357 | so does the removal, even if batches were accepted since the head was picked |
| QueueInvariant.CrashKeeps | internal/remotewrite/sender.go:99-125 | so does a crash at any point that leaves pending files behind |
| QueueRestart.RunKeeps | internal/remotewrite/sender.go:409-437 | the invariant holds after every sequence of steps, failures, crashes and restarts |
| QueueTheorems.QueueIsExact | internal/remotewrite/sender.go:242-257 | disk and memory hold exactly the accepted batches that have not left; QueuedBytes is their total size and at most MaxBytes, QueuedBatches their number |
| QueueTheorems.AcceptsExactly | internal/remotewrite/sender.go:231-259 | at any moment of a run the Enqueue step accepts a snapshot if and only if it or the one in memory is non-empty, both sizes are at most 4 MiB, it fits under the cap and its file is written; it drops exactly what is too large or does not fit |
| QueueTheorems.AttemptSettlesExactly | internal/remotewrite/sender.go:302-343 | at any moment of a run an attempt on the head settles it as expired by its age, acked by 200 to 299, rejected by another status below 500 but 429, and leaves it queued otherwise |
| QueueTheorems.CrashRefinement | internal/remotewrite/sender.go:127-268 | a crash at any point, any number of starts cut short, and a restart rebuild the queue exactly, and timestamp and snapshot exactly if and only if something is queued or the checkpoint is current; otherwise the timestamp goes back |
| QueueTheorems.CheckpointedNeverFallsBack | internal/remotewrite/sender.go:252-262 | if every checkpoint write succeeds and no crash falls between it and its queue file, no restart ever falls back |
| QueueTheorems.TimestampsIncrease | internal/remotewrite/sender.go:275-277 | over any stretch of accepted batches without a fallback between them timestamps increase strictly, for any clock |
| QueueTheorems.TimestampsIncreaseIff | internal/remotewrite/sender.go:275-277 | over a whole run they increase if and only if they do across each fallback |
| QueueTheorems.ChoiceIsPastNewest | internal/remotewrite/sender.go:276 | the next timestamp chosen is past the newest accepted batch if and only if memory still knows that batch or the clock is past it |
| QueueTheorems.UnexpiredHeadMeansNoneExpired | internal/remotewrite/sender.go:306-307 | if the head is not expired, no queued batch is |
| QueueTheorems.ReceiverAgrees | internal/remotewrite/sender.go:234-259 | once the receiver believes exactly the series of an accepted batch, as it does before the first, it does so after every later one up to the next fallback |
| QueueTheorems.MemoryAgrees | internal/remotewrite/sender.go:258 | what it then believes is the snapshot in memory, unless a restart has just fallen back |
| QueueTheorems.AgreementAfterBatch | internal/remotewrite/encode.go:72-84 | after any accepted batch, fallbacks or not, the receiver agrees if and only if what it believed and the sender had forgotten is carried by the batch |
| QueueTheorems.AgreementAfterRestart | internal/remotewrite/sender.go:179-221 | a crash and restart of a sender the receiver agrees with keep the agreement if and only if something is queued or the checkpoint names the same series |
| QueueTheorems.AwayMarkedFromBases | internal/remotewrite/encode.go:78-82 | while a series stays away it is marked as often as it is in the snapshots the batches were compared with, whatever restarts did |
| QueueTheorems.VanishedMarkedOnce | internal/remotewrite/sender.go:231-261 | a series that vanishes is marked stale in the first accepted batch without it, once for each time it was there, and never again while it stays away and no restart falls back; after a fallback just before that batch, if and only if the older snapshot has the series as often |
| QueueTheorems.PresentNeverMarked | internal/remotewrite/encode.go:78-82 | no batch marks a series it carries |
| QueueTheorems.HeadStaysHead | internal/remotewrite/sender.go:300-349 | between the two locked sections the file being sent stays the head of the queue and stays on disk, whatever runs meanwhile |
| QueueTheorems.DeliveredInOrder | internal/remotewrite/sender.go:292-371 | every POST is an accepted batch's file, retries aside in the order of acceptance, and every batch that left unexpired was POSTed |
| QueueTheorems.FateNeedsCause | internal/remotewrite/sender.go:307-343 | a batch is settled only as head, by one attempt: acked by a 2xx, rejected by a status that is neither 2xx, 429 nor 5xx, expired by its age |
| QueueTheorems.LeavesOnlySettled | internal/remotewrite/sender.go:344-349 | a batch leaves the queue only with its fate settled |
| QueueTheorems.BatchesAddUp | internal/remotewrite/sender.go:242-257 | accepted batches are acked, rejected, expired or queued; drops since the last start are enqueue refusals, rejections and expiries |
| QueueFallback.FallbackHappens | internal/remotewrite/sender.go:252-262 | a concrete run after which the restarted sender knows neither timestamp nor series although the receiver still believes one |
| QueueFallback.NextBatchFails | internal/remotewrite/sender.go:217-276 | the same run one batch on: that batch is stamped before the first, does not mark the vanished series, and the receiver believes more than the sender knows |
| Tail.FeedKeepsTail | internal/tail/tail.go:80-115 | partial and skipping encode exactly the unfinished last line, whatever is fed |
| Tail.FeedDelivers | internal/tail/tail.go:80-102 | feed delivers exactly the lines due if no over-long line lies wholly in the chunk, and more of them otherwise |
| Tail.LinesConcat | internal/tail/tail.go:80-102 | the lines of a stream are those of its front followed by those of its unfinished end and the rest |
| Tail.LinesStep | internal/tail/tail.go:80-102 | a first line that is not too long is delivered, without one carriage return, before those of the rest |
| Tail.OneReturnComesOff | internal/tail/tail.go:98 | exactly one carriage return comes off the end of a line, and nothing else |
| Tail.FeedAllTail | internal/tail/tail.go:80-115 | for every cut of a stream the state is that of its unfinished line, and at most maxLine bytes are kept |
| Tail.ChunkIndependence | internal/tail/tail.go:80-115 | for every cut into chunks of at most maxLine + 1 bytes the delivered lines are those of the one-shot specification |
| Tail.ChunkBoundExact | internal/tail/tail.go:92-98 | a chunk size is harmless for every stream if and only if it is at most maxLine + 1 |
| Reader.Reader.Keep | internal/tail/tail.go:106-115 | a partial line grows, or turns into skipping when it would exceed maxLine |
| Reader.Reader.Feed | internal/tail/tail.go:80-102 | the loop computes the specified new state and lines |
| Reader.Reader.ReadBytes | internal/tail/tail.go:53-68 | the read loop ends, consumes at most maxRead bytes of the file in order, and delivers the lines they complete, while others append |
| Reader.Reader.Read | internal/tail/tail.go:35-75 | succeeds if and only if Seek, every read and the last Stat do; starts over exactly on another or shrunk file; continues by the file's own bytes to the end or to maxRead; knows the backlog it leaves |
| Reader.PrefixIffDetected | internal/tail/tail.go:45-48 | what was consumed is the file's own front exactly if the bytes read earlier were still there, so undetected rewriting is the only way to differ |
| Reader.CatchUp | internal/tail/tail.go:54-73 | adding maxRead bytes a Read up to the size reaches it after exactly the ceiling number of Reads |
| Reader.Reader.Bounded | internal/tail/tail.go:104-115 | the partial line kept between Reads is never longer than maxLine |
| LogRuns.CountersAppear | internal/tail/tail.go:54-75 | over k collections of an unchanging log, no call on the file failing, the k-th leaves max(0, size - offset - k * maxRead) bytes and reports them, and from exactly the ceiling collection on it emits the count of what was read |
| LogRuns.CountedIsTheLog | internal/tail/tail.go:45-48 | what one collection counted is the current file if and only if the reset caught any rewriting of what was read |
| LogRuns.EmissionsCountTheLog | internal/adapter/ds4/ds4.go:91-130 | over any sequence of appends, replacements, cuts, failed and successful collections, whatever is emitted is the count of all complete lines of the current file, unless what was read was rewritten unseen since the reader last started over |
| LogRuns.TrustedEdits | internal/tail/tail.go:45-48 | appending, replacing by another file and cutting below what was read are all seen |
| LogRuns.UndetectedRewrite | internal/tail/tail.go:45-48 | a same file, no shorter, with other bytes is not seen: the reader counts its old bytes followed by the new ones past them |
| LogCounters.QwenReadsBack | internal/adapter/ds4/ds4.go:31-54 | every printed Qwen timing line reads back as its two numbers |
| LogCounters.CycleReadsBack | internal/adapter/ds4/ds4.go:35-57 | every printed cycle line reads back with the free first token taken off both numbers |
| LogCounters.ParsesExactly | internal/adapter/ds4/ds4.go:28-57 | a line is counted if and only if it matches one of the two expressions, written as concatenations, and then by its two numbers |
| LogCounters.ReportedIsParsed | internal/adapter/ds4/ds4.go:97-104 | the prefix the adapter looks at first refuses no line that either expression matches |
| LogCounters.TotalsAreSums | internal/adapter/ds4/ds4.go:97-111 | the counters are the sums over the log's cycles modulo 2^64, each the true sum if and only if that is below 2^64; verify steps never exceed draft tokens until these wrap |
| LogCounters.StepsCanExceedProposed | internal/adapter/ds4/ds4.go:105-110 | two log lines after which there are two verify steps and no draft token |
| LogAdapters.Ds4.OnLine | internal/adapter/ds4/ds4.go:97-111 | one line changes the counters as its cycle says, any other line not at all |
| LogAdapters.Ds4.Reset | internal/adapter/ds4/ds4.go:132-134 | a reset forgets everything counted |
| LogAdapters.Ds4.Collect | internal/adapter/ds4/ds4.go:91-130 | one step of LogRuns: nothing is emitted while backlog is positive, what is emitted is the count of all that was read, and the file is remembered; it fails if and only if the probe, opening, Seek, a read or a Stat does |
| LogAdapters.RequestLog.OnLine | internal/adapter/tensorfold/reqlog.go:74-84 | a line with a known finish is counted once, any other only warned about |
| LogAdapters.RequestLog.Collect | internal/adapter/tensorfold/reqlog.go:43-72 | one step of LogRuns for the finish counts; withheld while behind, absent exactly for a missing file, failed exactly if the mapping or a call on the file fails otherwise |
| LogAdapters.OverwrittenLineStillCounts | internal/adapter/tensorfold/reqlog.go:52-70 | a concrete log, one line overwritten in place, for which a finish is reported that is in the file no more |
| LogAdapters.FinishesAreCounted | internal/adapter/tensorfold/reqlog.go:74-84 | a status is present exactly if it is one of the five listed and some line finished with it, and counts those lines modulo 2^64 |
| LogAdapters.SamplesOfLog | internal/adapter/tensorfold/reqlog.go:65-70 | the samples of a log are exactly one per listed status with which some line finished, with the number of those lines |
| LogAdapters.FinishesPartition | internal/adapter/tensorfold/reqlog.go:94-105 | every recognised line is counted under exactly one status |
| Collector.Collector.OneCollectPerBackend | internal/collector/collector.go:255-266 | at most one Collect is in flight per backend, over live and retired arms |
| Collector.Collector.NoAdapterLeaks | internal/collector/collector.go:235-251 | a started adapter is current, or owed a Close by its running Collect, or closed exactly once |
| Collector.Collector.Finish | internal/collector/collector.go:274-283 | the late end of a Collect closes the adapter if the arm was closed meanwhile, so calls and flags stay in step |
| Collector.Collector.Interfere | internal/collector/collector.go:287-290 | any Collects in flight may end at any unlocked moment without breaking the invariant |
| Collector.Collector.CloseArm | internal/collector/collector.go:235-251 | closing twice does nothing; a busy arm is retired, an idle one closes its adapter now |
| Collector.Collector.ReleaseRetired | internal/collector/collector.go:181-190 | a retired arm is forgotten exactly when its Collect has returned |
| Collector.Collector.Vacate | internal/collector/collector.go:181-206 | an unchanged open arm stays; otherwise the old one is closed, and whether its Collect still runs is known |
| Collector.Collector.StartArm | internal/collector/collector.go:207-221 | a new adapter starts only when no Collect of its backend is in flight, and there is one exactly if its engine is known and its Start succeeds |
| Collector.Collector.SyncOne | internal/collector/collector.go:179-225 | the backend gets an arm for this registration, the same one if unchanged, a placeholder only while an old Collect runs, otherwise a new one with an adapter exactly if one starts; other backends are untouched |
| Collector.Collector.Sync | internal/collector/collector.go:169-233 | afterwards the arms are exactly the registrations, and every arm not closed is one of them |
| Collector.TargetNames | internal/collector/collector.go:178-225 | a backend has an arm exactly if some registration names it |
| Collector.TargetIsLast | internal/collector/collector.go:178-225 | of several registrations of one backend the last counts |
| Collector.Collector.CollectArm | internal/collector/collector.go:255-266 | a Collect starts exactly on an idle, open arm that has an adapter |
| Collector.Collector.CollectOne | internal/collector/collector.go:129-139 | one attempt starts a Collect exactly on an idle, open arm with an adapter, while others may end |
| Collector.Collector.CollectAll | internal/collector/collector.go:129-139 | every idle backend's arm that is open and has an adapter is collected, and no arm without one |
| Collector.Collector.Collect | internal/collector/collector.go:103-139 | a whole scrape keeps the invariant with late Collects ending anywhere; a backend with none in flight at its start is collected exactly if its arm has an adapter, which a new arm has exactly if its engine's starts |
| Collector.Collector.Close | internal/collector/collector.go:93-100 | every arm is closed, now or by its running Collect |
| Discovery.EveryCandidateInTurn | internal/discovery/discovery.go:113-120 | over the same n candidates, each is among the first min(4, n, MaxTargets) probes of one of any ceil(n / that) consecutive windows, for any cursor |
| Discovery.TurnsFollow | internal/discovery/discovery.go:119 | the cursor after t collections is t steps around the circle of candidates |
| Discovery.ListingLists | internal/discovery/discovery.go:108-112 | the candidate keys list every candidate exactly once |
| Discovery.ObservesEach | internal/discovery/discovery.go:151-190 | what is remembered of an endpoint after an Observe is what this round made of it alone |
| Discovery.KeepsEvery | internal/discovery/discovery.go:95-107 | the candidates are exactly the URLs of the admissible targets |
| Discovery.KeepsLast | internal/discovery/discovery.go:95-107 | of several targets of one URL the last gives the generation |
| DiscoveryManager.Candidates | internal/discovery/discovery.go:95-107 | a URL is kept if and only if some target has it and its port is neither excluded nor pinned, with the generation of the last such target |
| DiscoveryManager.SortedKeys | internal/discovery/discovery.go:108-112 | for any map order the keys come out in the one sorted order |
| DiscoveryManager.Manager.Rotate | internal/discovery/discovery.go:113-120 | the window starts at the cursor and wraps, and the cursor moves by the number of workers |
| DiscoveryManager.Manager.Age | internal/discovery/discovery.go:151-163 | the first loop forgets pinned and old endpoints and strips samples from those that did not answer, for any map order |
| DiscoveryManager.Manager.Merge | internal/discovery/discovery.go:164-179 | the two loops together treat every endpoint by one per-endpoint rule |
| DiscoveryManager.Manager.Evict | internal/discovery/discovery.go:180-190 | exactly the oldest-seen entries beyond the cap go |
| DiscoveryManager.Manager.Report | internal/discovery/discovery.go:191-212 | everything remembered is returned in order of backend, with a note for the most serious trouble unless that name is pinned |
| DiscoveryManager.Manager.Observe | internal/discovery/discovery.go:78-213 | the whole Observe refines the per-endpoint specification with rotation and eviction |
| Transitions.ObserveIsSafe | internal/discovery/discovery.go:141-211 | what is remembered carries samples only without an error and only from this Observe, is on no pinned port or backend, and is at most 4 * MaxTargets endpoints |
| Transitions.RunIsSafe | internal/discovery/discovery.go:141-190 | so at every point of a run an error carries no samples and memory is bounded |
| Transitions.GuardIsExact | internal/discovery/discovery.go:173-176 | over a run with increasing stamps, two ready observations carry equal stamps if and only if the endpoint was ready, the same and recently seen at every Observe in between |
| Transitions.GuardIsSound | internal/discovery/discovery.go:173-176 | so between equal stamps engine, model and generation never changed and the endpoint was always ready |
| Transitions.FreshSurvives | internal/discovery/discovery.go:180-190 | eviction takes no endpoint probed this round if all others were seen earlier |
| Transitions.FreshSurvivesRun | internal/discovery/discovery.go:180-190 | at every Observe of a run whose clock moves on, eviction takes no endpoint probed this round |
| Transitions.EveryCandidateProbed | internal/discovery/discovery.go:95-120 | the same fairness over the states of a run of Observe, for every URL of an admissible target |
| Observing.EveryCandidateSeen | internal/discovery/discovery.go:95-179 | while the same URLs may be probed, one whose probes come back is seen at one of any ceil(n / min(4, n, MaxTargets)) consecutive Observes |
| Observing.ShownIsSafe | internal/discovery/discovery.go:85-213 | nothing returned is pinned, an error carries no samples, and anything else is what a probe of an admissible target measured in this Observe |
| Observing.ProbeIsRemembered | internal/discovery/discovery.go:164-285 | what a probe measured is remembered under the target's generation and the start of its process; a probe that fails leaves an error without samples, under the identity the endpoint had if it is merely unavailable |
| Observing.SilenceIsRemembered | internal/discovery/discovery.go:151-163 | an endpoint that did not answer keeps its identity, stamp and sighting but no samples until it expires or is pinned, and nothing is lost before the memory is full |
| Observing.NoteIsShown | internal/discovery/discovery.go:191-212 | everything remembered is returned once, and one note more exactly if the listing failed, the deadline passed, candidates exceed MaxTargets or nothing is known, in this order, and its name is not pinned |
| Exposition.Sum | internal/promtext/promtext.go:87-104 | the loop adds the numbers of the selected series, and says whether there was any |
| Exposition.TotalPermutes | internal/promtext/promtext.go:92-102 | a total does not depend on the order of the series |
| Exposition.SelectsMeans | internal/promtext/promtext.go:42-69 | what each way of selecting selects, a missing label being an empty one |
| Exposition.LabelValues | internal/promtext/promtext.go:169-186 | the distinct values of a label, strictly sorted, nothing else |
| Exposition.SelectModel | internal/adapter/adapter.go:76-91 | series of two models are never selected together, and no series of the chosen one is lost; it refuses exactly if several models are reported and none is asked for, or the one asked for is not reported |
| Histograms.Agree | internal/promtext/promtext.go:155-165 | the loop decides equality of bound lists |
| Histograms.AddBuckets | internal/promtext/promtext.go:148-150 | every bucket is added to its bound's count, wrapping at 64 bits |
| Histograms.Histogram | internal/promtext/promtext.go:121-153 | the loop gives the sum of all selected histograms if all bounds agree, and fails if any two differ, however early it stops |
| Histograms.Refused | internal/promtext/promtext.go:142-144 | a series with other bounds refuses the whole sum, whatever follows |
| Histograms.MergeIgnoresOrder | internal/promtext/promtext.go:121-153 | sum, counts, buckets and refusal are the same for every order of the series |
| Histograms.MergeOfOne | internal/promtext/promtext.go:121-153 | one histogram merges to itself |
| Histograms.MergeGrows | internal/promtext/promtext.go:140-150 | one more of the same bounds adds its count, sum and buckets in 64 bits, and one of other bounds refuses the whole |
| Histograms.MergedIsValid | internal/promtext/promtext.go:145-150 | well-formed histograms over equal bounds add up to one that validateHist accepts, with conserved counts, if the count fits in 64 bits |
| Histograms.CountsAreConservedIff | internal/promtext/promtext.go:145-150 | the count, and each bucket, is the true total if and only if that is below 2^64 |
| Histograms.OverflowBreaksValidity | internal/promtext/promtext.go:146 | past 64 bits two valid histograms can add up to an invalid one |
| Histograms.SortBounds | internal/metrics/metrics.go:233-237 | the bounds in ascending order, each of them |
| Histograms.ValidateHist | internal/metrics/metrics.go:228-250 | accepts exactly if counts never fall as the bound grows nor exceed the total |
| Partition.OneShareEach | internal/adapter/adapter.go:158-178 | every selected series counts for exactly one worker |
| Partition.PartitionConserves | internal/adapter/adapter.go:158-178 | for any quantity, the workers' totals add up to that of all selected series |
| Partition.Builder.Each | internal/adapter/adapter.go:158-178 | the workers of the selected series, each once, in any order |
| Partition.Builder.Value | internal/adapter/adapter.go:186-192 | one sample per worker whose share has a number, each under the name and labels asked for, and no error |
| Partition.Builder.HistogramSum | internal/adapter/adapter.go:195-206 | one sample per worker from its merged histograms, each under the name and labels asked for, and an error for each worker whose bounds differ |
| Partition.Builder.Histogram | internal/adapter/adapter.go:209-220 | one histogram per worker, each under the name asked for and without labels, and an error for each worker whose bounds differ |
| WorkerSamples.ValueSamples | internal/adapter/adapter.go:158-192 | the samples of a value are exactly those of the workers that have a number, each the sum over that worker's own series |
| WorkerSamples.SumSamples | internal/adapter/adapter.go:158-206 | the samples of histogram sums are exactly those of the workers whose histograms have equal bounds, each the sum over that worker's own |
| WorkerSamples.WholeSamples | internal/adapter/adapter.go:158-220 | likewise the whole histograms, with that worker's own sum and count |
| WorkerSamples.FailsIfOneDiffers | internal/adapter/adapter.go:195-220 | there is an error exactly if two histograms of one worker have different bounds |
| Partition.SamplesAddUp | internal/adapter/adapter.go:186-220 | values, histogram sums and histogram counts of the workers add up to those of all selected series |
| Partition.AbsentIsNotZero | internal/adapter/adapter.go:186-192 | a source of values yields a sample exactly if some selected series of it has a number |
| Partition.AbsentHistogramIsSilent | internal/adapter/adapter.go:195-220 | a source of histograms yields neither a sample nor an error exactly if it is of another type or no selected series of it is a histogram |
| Partition.WholesAreValid | internal/adapter/adapter.go:209-220 | every histogram reported passes validateHist if the engine's own are sound |
| Partition.KeysCollideOnlyOnDefault | internal/metrics/metrics.go:253-262 | two samples of one request share a key exactly if an unnamed worker and one named default both have one |
| Partition.KeyTellsSeries | internal/metrics/metrics.go:253-262 | samples with non-empty label values share a key exactly if name, labels and worker are the same, as far as none of them holds the separator |
| Partition.DefaultCollides | internal/adapter/adapter.go:172-176 | a source with an unlabelled series and one whose worker is named default yields two samples with one key |

## Left out

- TimestampsIncrease: nothing is claimed across a fallback, where the code does not keep the order; TimestampsIncreaseIff and ChoiceIsPastNewest say exactly when it does.
- ReceiverAgrees: nothing is claimed across a fallback, after which the receiver may believe a forgotten series until a batch carries it and a later one does not; AgreementAfterRestart and AgreementAfterBatch are exact.
- EncodeMetric: a metric that brings labels named `__name__` or `le` is only covered by what Add promises for any base.
- EncodeFamilies: families that bring labels named `__name__` or `le` are only proved sorted by key, because the code then emits a repeated label name whose order the sort does not fix.
- SeriesOrderIrrelevant: series with equal label lists are left out; `sort.Slice` may order them either way.
- MergedIsValid: requires counts below 2^64 in all; past that the claim is false (`OverflowBreaksValidity`).
- KeyTellsSeries: requires texts without the separator, which the key does not escape.
- SamplesAddUp: values and sums are reals, so float rounding, NaN and infinities are not modelled.
- Read: a log that is truncated or rewritten while one Read has it open; between Reads any change is a step of LogRuns.
- Sync: within one call the Start of equal registrations goes the same way each time it is made.
- HTTP, TLS, redirects, bearer tokens and the text, JSON and protobuf parsers: a POST is an answer, a probe is an outcome, a parsed family is data. Snappy and protobuf keep sizes arbitrary and decode what was encoded.
- `json.Unmarshal` in `ParseFinish` is an arbitrary decoder; the two ds4 regular expressions are written out by hand (`LogCounters.ParsesExactly` says which lines they match).
- `atomicWrite` is all or nothing: a directory sync that fails after the rename leaves a file the sender does not know, and one that fails after a removal may lose the removal in a power cut; neither is modelled.
- The int64 limit of a timestamp: once the largest is used, no further one is chosen.
- Snapshots that carry the stale-marker bits themselves are not enqueued in the step system; `Stale.ActiveOfWithStale` says exactly what they would break.
- `LastSuccess`, `LastError`, the wake channel and the backoff delays of `deliver`: no property of the queue depends on them.
- `report`, `Validate` apart from `validateHist`, the automatic arms and the per-engine mapping tables: mostly single branches.
- Hash, URL and port handling of discovery: `portOf` and `backendOf` are arbitrary functions of an address. The HTTP exchanges inside `probe` are kept as the four shapes its result can have.
- Goroutine scheduling inside `Observe`: which probes came back in time is an arbitrary input.
- The command line, packaging, registration files and the release helpers.
