# Verification of the streaming lab's exactly-once pipeline

This Dafny project models the repository's correctness core and proves what it is for:
a landing job that commits Kafka progress and data in one Iceberg snapshot, a safe
watermark T stamped into that snapshot, and a seam query that counts lake rows below T
and ClickHouse rows at and above T, each event once.

`dafny verify dfyconfig.toml` checks everything.

## How it is modelled

**The system is a state machine** (`Protocol.dfy`). A `World` holds the lake (data files
plus a list of snapshots, the last one current), the landing process, what has been
produced, ClickHouse's table and ClickHouse's own consumer position. A `Step` is one of:
a record is produced, the job starts, polls one record, writes a data file, swaps the
snapshot pointer, returns from the append, crashes, ClickHouse ingests a record, or
ClickHouse's consumer falls back (redelivery). A step that is not enabled does nothing,
so a run is any sequence of steps and a lemma about all sequences is a lemma about all
interleavings. A crash can come anywhere: before the file write, between write and swap,
after the swap and before the in-memory state moves on.

**The log** (`Broker.dfy`) is everything each partition will ever hold, with offsets that
increase but may have gaps; an entry decodes to an event or does not. Statements about
the log therefore cover records not yet produced.

**What a snapshot remembers is text.** A commit stamps string properties, and a restart
parses them (`Summary.dfy`, `Json.dfy`); the resume state is never carried over by fiat.
The JSON printer and parser cover the strings and integers the repository writes, escapes
and surrogate pairs included (RFC 8259, sections 4, 6 and 7).

**The landing job is a class** (`LandingJob.dfy`) with the repository's fields and its run
loop over a script of poll results, clock readings and append faults. What the loop should do
with a script is a function (`Landing.AfterScript`), and `Run` is proved equal to it: the
positions polled, the loop's variables, every step of the table's history and the exit, with
the number of ticks consumed. `LoopTiming.dfy` then says when that specification commits and
exits without its variables, from the script and the commits in the table's history alone. The
table it appends to carries a ghost history of `Step`s; every method keeps the table equal to what that
history yields, so every theorem about runs is a theorem about the table
(`Landing.TableExactlyOnce`, `Landing.TableSafe`). The generator, the ground-truth reader
and writer, the batch worker and the replay are methods and classes in the same way,
proved against specification functions.

**Units.** Times are integer milliseconds (microseconds in the replay), the window is in
milliseconds, amounts are exact reals.

| file | content |
|---|---|
| `Json.dfy`, `Schema.dfy`, `GroundTruth.dfy`, `WireText.dfy` | wire format, events, ground-truth file and oracle; the texts themselves |
| `Rows.dfy`, `Orders.dfy` | aggregates over rows; accounting by order |
| `Broker.dfy`, `Watermark.dfy`, `Summary.dfy` | log prefixes, the T rule, snapshot properties |
| `Protocol.dfy`, `Safety.dfy`, `SafeWatermark.dfy` | the machine, its invariant, what every run keeps |
| `Reachability.dfy`, `WatermarkLimits.dfy` | exactly when T is safe, and why it cannot be larger |
| `Seam.dfy`, `SeamCounts.dfy`, `SeamLimits.dfy` | the seam query over moving stores; when counts can fall |
| `LandingJob.dfy`, `LoopTiming.dfy` | the table and job classes, refining the machine; when the loop commits and exits |
| `Generator.dfy`, `Pipeline.dfy`, `OnePartition.dfy`, `SliceLimits.dfy` | the generator, keyed routing, end to end |
| `BatchWorker.dfy`, `Replay.dfy` | the gateway's batcher; the three-tier replay |
| `IntSets.dfy`, `Wrappers.dfy` | small helpers |

## What turned out not to hold as stated

- **T is not safe on every log.** `WatermarkLimits.SafeExactlyWhen` gives the exact
  condition on the log: no negative event time, and no entry that its own partition
  overran by more than the window before it while every other partition overruns it too.
  `WatermarkLimits.LateRecordIsUnsafe` is the shortest log that fails it. The bounded
  disorder the repository assumes is sufficient (`SafeWatermark.DisorderExposesNothing`)
  and the generator provides it (`Pipeline.GeneratorMeetsAssumptions`).
- **Seam counts can go backwards** once ClickHouse redelivers: `SeamLimits.RedeliveryGoesBack`
  is a run whose counts are 2, then 1. `SeamCounts.NeverLessExactlyWhen` is the exact
  condition, on the log, the committed positions and what ClickHouse holds when the first
  query ends: no band of event times that a further commit can move to the lake's side holds
  more rows in ClickHouse than in the log. Without redelivery it always holds
  (`Seam.CountsNeverGoBack`), and `Seam.CountDifference` says by how much two counts differ.
- **The lake's GMV below T can be negative**, though the whole lake's cannot:
  `SliceLimits.SliceGmvCanBeNegative` builds it from generator output. For generator output
  it is never negative in any run exactly when the produced list has no negative sum below
  any T that some positions publish (`Pipeline.NeverNegativeExactlyWhen`). The reason is
  causal closure, which the whole lake always has and its time slices have exactly when no
  order is cancelled at an earlier event time than it was created
  (`Pipeline.SlicesClosedExactlyWhen`). `Pipeline.SliceGmv` says what any slice's GMV is.
- **The wire format rounds.** An event survives it unchanged exactly when its type is known
  and its amount is whole cents (`Schema.JsonRoundTripExact`); likewise the ground-truth file.
- **The replay ranges overlap** when the warm cutoff comes after the Kafka cutoff:
  `Replay.SplitExactlyWhen` gives the exact condition, `Replay.CrossedPolicyReplaysTwice` a
  policy that fails it, and `Replay.WalkExactlyWhen` the exact condition of the day walk. The walk's count is zero, although events went out, when a timestamp cannot be
  read or the walk steps past the last date there is (`Replay.WalkDates`).
- **The batch queue never drops.** `put` waits for room, so the branch that reports a full
  queue (gateway/async_kafka_producer.py:252-254) is never taken.
- docs/phases/phase-1-plan.md:95 defines T by one global maximum; the code takes the
  minimum over partitions (src/streaming_lab/lake/watermark.py:46-48) and so does the model.

## Model

| member | source | states |
|---|---|---|
| Safety.ExactlyOnce | src/streaming_lab/lake/landing_job.py:118-165 | in every reachable world the visible rows are, copy for copy, the events below the committed offsets, and all of those records decode |
| Safety.RestartResumes | src/streaming_lab/lake/landing_job.py:65-123 | killing and restarting the job at any moment resumes at exactly the committed positions with an empty batch |
| Safety.PoisonStops | src/streaming_lab/lake/landing_job.py:200 | no run ever commits a partition past its first undecodable record |
| Safety.OrphansStayInvisible | src/streaming_lab/lake/landing_job.py:12-15 | a data file a crash left unlisted is never listed by any later snapshot of any continuation |
| Safety.Conservation | src/streaming_lab/lake/landing_job.py:145-165 | sequence number = number of snapshots; stamped batch counts add up to the visible rows, which add up to the committed entries |
| Safety.DenseOffsets | src/streaming_lab/lake/landing_job.py:129-132 | with dense offsets a partition's committed entries are its committed offset |
| Safety.RunForward | src/streaming_lab/lake/landing_job.py:129-145 | from any world to any later one, restarts included, offsets, maxima, T and the snapshot list only grow |
| Safety.SwapT | src/streaming_lab/lake/landing_job.py:139-144 | the T a commit publishes is the rule applied to the maxima of everything consumed so far |
| SafeWatermark.StampsWindow | src/streaming_lab/lake/landing_job.py:150 | every snapshot of a run with one lateness window carries that window |
| Protocol.StepInv | src/streaming_lab/lake/landing_job.py:125-165 | every step keeps the system invariant; only the pointer swap changes what is durable, and it moves exactly to the batch's end |
| Protocol.RunInv | src/streaming_lab/lake/landing_job.py:101-211 | the invariant tying table, batch, consumer position and phase of the append holds in every run |
| Protocol.PolledBatch | src/streaming_lab/lake/landing_job.py:129-137 | one more polled record keeps the batch's offsets, maxima and rows in step with the consumer position |
| Protocol.WriteInv | src/streaming_lab/lake/landing_job.py:156-159 | writing the data file changes nothing any reader sees |
| Protocol.SwapInv | src/streaming_lab/lake/catalog.py:1-7 | the pointer swap publishes exactly the batch together with exactly its progress |
| Protocol.SwapReads | src/streaming_lab/lake/landing_job.py:147-159 | what a restart parses from the swapped snapshot is the state the commit moved to |
| Broker.PositionsOfOffsets | src/streaming_lab/lake/landing_job.py:118-123 | seeking to the committed offsets lands right after the last committed entry of every partition, gaps or not |
| SafeWatermark.WatermarkSafe | src/streaming_lab/lake/watermark.py:3-21 | in every run, whatever windows of at least w the restarts use, no uncommitted event of the whole log, future ones included, is below the published T |
| SafeWatermark.DisorderExposesNothing | src/streaming_lab/lake/watermark.py:15-18 | bounded disorder within each partition is enough for that |
| WatermarkLimits.SafeExactlyWhen | src/streaming_lab/lake/watermark.py:29-48 | T is safe in every run if and only if no event time is negative and no entry is exposed |
| WatermarkLimits.ExposedIsUnsafe | src/streaming_lab/lake/watermark.py:5-10 | for any exposed entry, a run that publishes a T above it before landing it |
| WatermarkLimits.LateRecordIsUnsafe | src/streaming_lab/lake/watermark.py:15-18 | one partition, times 100 and 5, window 10: a log with an exposed entry, on which T is not always safe |
| WatermarkLimits.WatermarkMaximal | src/streaming_lab/lake/watermark.py:42-48 | for any committed prefixes another legal log shares them, publishes the same T and has an uncommitted event exactly at T, so no larger T would be safe |
| Watermark.PassesExactlyWhen | src/streaming_lab/lake/watermark.py:42-48 | T exceeds t exactly when it already did, or all expected partitions reported and each is more than the window past t |
| SafeWatermark.DurableByPosition | src/streaming_lab/lake/landing_job.py:125-165 | with one window the durable offsets, maxima, T and rows are functions of the committed positions alone |
| SafeWatermark.PathIndependence | src/streaming_lab/lake/landing_job.py:125-165 | two runs that committed the same offsets agree on maxima, T and visible rows, however they batched, interleaved or crashed |
| SafeWatermark.FrozenSlice | src/streaming_lab/lake/landing_job.py:139-165 | once T is published, no later commit of any run changes the lake below T |
| SafeWatermark.SettledSlice | src/streaming_lab/query/seam.py:40-44 | below a published T any later table holds exactly what any longer prefix of the log holds |
| Reachability.EveryPositionReachable | src/streaming_lab/lake/landing_job.py:167-211 | any decodable positions are committed by some run |
| Reachability.OnwardCommits | src/streaming_lab/lake/landing_job.py:101-211 | from any reachable world a restart with any window goes on to commit any decodable later positions, and publishes the T the rule gives for them |
| Summary.ResumeRoundTrip | src/streaming_lab/lake/landing_job.py:65-76 | reading the stamped properties yields exactly the stamped offsets, maxima, T and sequence number, and the batch count and window |
| Summary.AnyOrderRoundTrip | src/streaming_lab/lake/landing_job.py:148-151 | an integer-keyed dictionary survives JSON with string keys in whatever order and spacing it was printed |
| Summary.IntMapRoundTrip | src/streaming_lab/lake/landing_job.py:70-73 | printing and re-reading an integer map is the identity |
| Summary.MembersDistinct | src/streaming_lab/lake/landing_job.py:148 | distinct integer keys print as distinct string keys |
| Summary.FreshResume | src/streaming_lab/lake/landing_job.py:57-62 | a table without snapshots resumes from nothing, T and sequence number zero |
| Json.IntRoundTrip | src/streaming_lab/lake/landing_job.py:74-75 | int(str(i)) is i for every integer |
| Json.StringRoundTrip | src/streaming_lab/events/schema.py:50-51 | a quoted string parses back to itself, with escapes and surrogate pairs, and leaves what follows it |
| Json.DumpsLoads | src/streaming_lab/events/schema.py:50-69 | a printed flat object parses back to its members in order, for either separator style |
| WireText.EscapeText | src/streaming_lab/events/schema.py:50-51 | which characters stand for themselves in a JSON string and what every other one is written as |
| WireText.DigitText | src/streaming_lab/events/schema.py:46-47 | integers are written in decimal digits, a minus sign in front of negative ones |
| WireText.ObjectText | src/streaming_lab/events/schema.py:50-51 | a flat object is its members' texts in order between braces |
| WireText.EventText | src/streaming_lab/events/schema.py:39-51 | the line of any event: its six fields by name, in order, compactly |
| WireText.CentsText | src/streaming_lab/events/schema.py:45 | an amount is written as whole units, a point and two digits |
| WireText.StampText | src/streaming_lab/lake/landing_job.py:34-40 | the names and texts of the properties a commit stamps |
| WireText.IntMapText | src/streaming_lab/lake/landing_job.py:148-151 | an integer map is written with quoted integer keys, bare values and the default separators |
| WireText.PublishedText | src/streaming_lab/query/seam.py:34-37 | the property the seam takes T from, by name, and zero without it |
| Schema.JsonRoundTrip | src/streaming_lab/events/schema.py:39-69 | what a reader gets for any event a writer prints: the amount rounded to cents, or an error for an unknown type |
| Schema.JsonRoundTripExact | src/streaming_lab/events/schema.py:39-69 | the event comes back unchanged if and only if its type is known and its amount is whole cents |
| Schema.AmountRoundTrip | src/streaming_lab/events/schema.py:45 | parsing a formatted amount gives the amount rounded half to even to cents |
| Schema.DecodedIsKnown | src/streaming_lab/events/schema.py:55-57 | whatever the line, a decoded event has one of the two known types |
| WireText.SignOfType | src/streaming_lab/events/schema.py:17-37 | "order_created" adds the amount and "order_cancelled" subtracts it, in gmv_delta and in SQL; any other text raises in the one and subtracts in the other |
| WireText.DecodedByType | src/streaming_lab/events/schema.py:53-65 | a dictionary with the six members decodes if and only if its type reads one of the two and its numbers parse; to which event, and with which sign |
| WireText.WrittenSign | src/streaming_lab/events/schema.py:31-65 | a dictionary of type "order_created" with the text of an amount decodes to that amount upwards, one of type "order_cancelled" downwards |
| GroundTruth.WriteGroundTruth | src/streaming_lab/events/generator.py:92-95 | writes one JSON line per event |
| WireText.FileGrows | src/streaming_lab/events/generator.py:92-95 | each further event adds its JSON text and one line feed |
| GroundTruth.ReadEvents | src/streaming_lab/events/ground_truth.py:24-31 | the loop computes the decoding of the file's lines, blank ones skipped, the first error winning |
| WireText.BlankLinesSkipped | src/streaming_lab/events/ground_truth.py:27-29 | lines of nothing but whitespace are read as if they were not there |
| WireText.SurroundingSpace | src/streaming_lab/events/ground_truth.py:28 | whitespace around a line does not matter |
| GroundTruth.FirstErrorWins | src/streaming_lab/events/ground_truth.py:27-30 | an error at a line is the result whatever follows |
| GroundTruth.LinesOfUnlines | src/streaming_lab/events/ground_truth.py:26-30 | splitting the written file gives back the written lines |
| GroundTruth.FileRoundTrip | src/streaming_lab/events/ground_truth.py:24-31 | the file reads back as written if and only if every type is known and every amount is whole cents |
| GroundTruth.SignRulesAgree | src/streaming_lab/events/schema.py:31-37 | gmv_delta's sum equals the SQL sign rule's on known types, and raises otherwise |
| WireText.GmvByText | src/streaming_lab/query/seam.py:48-49 | GMV is the amounts of the rows reading "order_created" less those reading "order_cancelled", in the oracle and in SQL |
| GroundTruth.OracleSplits | src/streaming_lab/events/ground_truth.py:34-45 | the oracle succeeds exactly on known types; count and GMV split at T without remainder |
| Rows.SumPermutation | src/streaming_lab/query/seam.py:48-50 | the signed sum does not depend on row order |
| Rows.SidesPartition | src/streaming_lab/query/seam.py:1-7 | below T and at or above T together hold every row once |
| Seam.SeamEqualsGroundTruth | src/streaming_lab/query/seam.py:34-70 | T, lake and ClickHouse read at three moments of any run without redelivery: once ClickHouse has caught up, count and GMV, and the below-T parts, are the oracle's |
| Seam.SeamExactlyWhen | src/streaming_lab/query/seam.py:58-70 | the combined rows are exactly the produced events if and only if ClickHouse holds those at and above T once each |
| Seam.LakeSideExact | src/streaming_lab/query/seam.py:40-55 | below T the lake scan returns exactly the log's rows, at any snapshot from the one T was read from on |
| Seam.QueryBySides | src/streaming_lab/query/seam.py:58-70 | each field of the result, as an aggregate over the log below T or over the table ClickHouse answers from, from T up |
| Seam.LakeIdsBelowT | src/streaming_lab/events/ground_truth.py:37-42 | the event ids the lake holds below T are the oracle's |
| Seam.ChExact | src/streaming_lab/realtime/clickhouse.py:3-6 | without redelivery ClickHouse holds exactly the events below its own position |
| Seam.SeamErrorAccounting | src/streaming_lab/query/seam.py:58-70 | whatever table ClickHouse answers from, lagging, redelivering or dropping, the error in count and money is its surplus at and above T less what it lacks there |
| Seam.CountDifference | src/streaming_lab/query/seam.py:58-70 | by how much two successive seam counts differ, whatever ClickHouse did in between |
| Seam.CountsNeverGoBack | src/streaming_lab/query/seam.py:58-70 | without redelivery a later seam count is never smaller, however far ClickHouse lags |
| SeamCounts.NeverLessExactlyWhen | src/streaming_lab/query/seam.py:58-70 | no later query of any continuation counts less if and only if, in every band a further commit can move to the lake's side, ClickHouse holds no more rows than the log |
| SeamCounts.LaterT | src/streaming_lab/lake/watermark.py:42-48 | in any continuation T stays, or moves with the committed positions and no further than the window allows |
| SeamCounts.WindowFor | src/streaming_lab/lake/watermark.py:47-48 | every T in between is what some admissible window publishes |
| SeamLimits.RedeliveryGoesBack | src/streaming_lab/query/seam.py:58-70 | a run with one redelivery whose counts are 2, then 1 |
| Landing.OrdersTable.constructor | src/streaming_lab/lake/catalog.py:55-60 | an empty table, the one the machine starts from |
| Landing.OrdersTable.Append | src/streaming_lab/lake/landing_job.py:156-159 | the file, then the snapshot listing it with the properties, or as much of that as a fault lets through |
| Landing.LandingJob.constructor | src/streaming_lab/lake/landing_job.py:102-123 | whatever state the table is in, the job starts in step with it at the committed positions |
| Landing.LandingJob.Poll | src/streaming_lab/lake/landing_job.py:180-201 | delivers the next entry of a partition, an error, or nothing, as the machine does |
| Landing.LandingJob.CollectOffsets | src/streaming_lab/lake/landing_job.py:129-132 | the loop computes the record-by-record merge of next offsets |
| Landing.LandingJob.CollectMaxima | src/streaming_lab/lake/landing_job.py:134-137 | the loop computes the record-by-record merge of maxima |
| Landing.LandingJob.NextState | src/streaming_lab/lake/landing_job.py:129-145 | the state the commit moves to |
| Landing.LandingJob.CommitBatch | src/streaming_lab/lake/landing_job.py:125-165 | the table's new contents under any fault; the in-memory state moves only if the append returned, and then nothing polled is uncommitted |
| Landing.LandingJob.SilentTurn | src/streaming_lab/lake/landing_job.py:182-196 | flushes exactly an overdue batch or, when idle, what is left; raises exactly on a faulted flush; returns exactly on idleness or at the batch limit |
| Landing.LandingJob.RecordTurn | src/streaming_lab/lake/landing_job.py:199-208 | flushes exactly a full or overdue batch, raises exactly on a faulted flush, returns exactly at the batch limit |
| Landing.LandingJob.Run | src/streaming_lab/lake/landing_job.py:167-211 | for any script: polls exactly the arrivals of the ticks it consumed, and its positions, the table's history and the exit are those of the loop as specified; a normal return leaves nothing uncommitted and returns the number of snapshots appended, each of 1 to the maximum batch size, at most the limit; less than one batch is ever pending |
| Landing.LandingJob.OneTurn | src/streaming_lab/lake/landing_job.py:179-208 | one pass of the loop is one tick of the specification |
| Landing.ExitsExactlyWhen | src/streaming_lab/lake/landing_job.py:182-208 | a tick raises if and only if its record does not decode or its flush fails; it returns if and only if the job is idle or a flush reached the limit; the commit count moves by its one flush |
| Landing.PollsEveryArrival | src/streaming_lab/lake/landing_job.py:180-201 | up to its exit the loop polls every arrival once and nothing else, whatever it flushes |
| Landing.KeepsUp | src/streaming_lab/lake/landing_job.py:183-206 | no turn that goes on leaves a batch that is overdue or full |
| LoopTiming.CommitsAndExitsExactlyWhen | src/streaming_lab/lake/landing_job.py:179-208 | a commit is made at a tick if and only if records are waiting since the last committing tick and its age, their number or idleness says so; the run raises and returns at a tick if and only if the script and the commits made say so |
| LoopTiming.ReturnsOnlyWhenIdle | src/streaming_lab/lake/landing_job.py:190-199 | a return below the commit limit comes at least the idle time after every tick that heard a record |
| LoopTiming.RunExits | src/streaming_lab/lake/landing_job.py:167-211 | the reasons for which a run of the method ends, at the tick it ended |
| Landing.AppendTrace | src/streaming_lab/lake/landing_job.py:156-165 | the table's append and the machine's write, swap and return steps agree under every fault |
| Landing.PendingIsBatch | src/streaming_lab/lake/landing_job.py:174-205 | the batch holds every consumed entry that is not committed |
| Landing.CommittedAfter | src/streaming_lab/lake/landing_job.py:161-165 | a commit leaves nothing polled behind |
| Landing.TableExactlyOnce | src/streaming_lab/lake/landing_job.py:1-15 | any table the methods produce is exactly-once and its bookkeeping adds up |
| Landing.TableSafe | src/streaming_lab/lake/landing_job.py:139-144 | the T its current snapshot carries is safe |
| Generator.BuildEvents | src/streaming_lab/events/generator.py:40-89 | exactly n events following the draws, each in its jitter window, paired, in whole cents, with non-negative GMV; distinct creation ids from distinct drawn ids; an error exactly on an empty range |
| Generator.Emit | src/streaming_lab/events/generator.py:57-88 | one emission keeps the pool equal to the open orders and the GMV equal to what they are worth |
| Orders.GeneratedRows | src/streaming_lab/events/generator.py:57-88 | every generated event field by field against its draw: time, ids, amount in cents, when it cancels, and the earlier creation it cancels |
| Generator.CreatedFromDraws | src/streaming_lab/events/generator.py:74 | new orders take their ids from distinct draws, so no two creations share one |
| Generator.JitterBoundsDisorder | src/streaming_lab/events/generator.py:10-14 | jitter below the window bounds the disorder of the whole list |
| Generator.SumRemove | src/streaming_lab/events/generator.py:61-62 | popping an open order takes exactly its amount out of the pool's worth |
| Pipeline.TopicConserves | src/streaming_lab/events/generator.py:98-110 | keyed routing loses nothing, duplicates nothing, and every record decodes |
| Pipeline.RoutedDisorder | src/streaming_lab/events/generator.py:98-110 | every subsequence routed on the key inherits the disorder bound |
| Pipeline.GeneratorMeetsAssumptions | src/streaming_lab/events/generator.py:10-14 | for any routing by order id the partition logs meet what the watermark assumes |
| Pipeline.DeliveredExact | src/streaming_lab/events/generator.py:107-108 | a consumer decodes exactly the produced event if and only if the wire can carry it |
| Pipeline.CreationFirst | src/streaming_lab/events/generator.py:7-8 | in its partition a cancellation comes after its order's creation |
| Pipeline.LakeCausallyClosed | src/streaming_lab/events/generator.py:57-88 | in every reachable lake a landed cancellation's creation has landed too |
| Pipeline.LakeGmvIsOpenOrders | src/streaming_lab/events/generator.py:57-88 | every reachable lake's GMV is what its uncancelled orders are worth, so never negative |
| Pipeline.SliceGmv | src/streaming_lab/query/seam.py:40-55 | below a time the GMV is the open orders less the cancellations whose creation landed at or above it; there are none of those if and only if no landed order straddles the time |
| Pipeline.SlicesClosedExactlyWhen | src/streaming_lab/events/generator.py:57-88 | every time slice of every reachable lake is causally closed if and only if no order is cancelled at an earlier event time than it was created |
| Pipeline.NeverNegativeExactlyWhen | src/streaming_lab/query/seam.py:40-55 | for generator output, GMV below the published T is non-negative in every run if and only if the produced list's is below every T some positions publish |
| SliceLimits.SliceGmvCanBeNegative | src/streaming_lab/query/seam.py:40-55 | generator output and one landing run whose below-T GMV is negative |
| Pipeline.EndToEnd | tests/test_correctness_no_dup_no_loss.py:17-40 | generate, write, produce, land through any crashes, catch up, query at any three moments: the answer is the oracle's on the file |
| Orders.GmvByOrders | src/streaming_lab/events/schema.py:3-5 | any table of matched orders: GMV is its open orders less the cancellations it has no creation for |
| Orders.GmvOfLone | src/streaming_lab/events/schema.py:3-5 | matched create/cancel pairs cancel out wherever they lie |
| Orders.SliceClosedWhen | src/streaming_lab/query/seam.py:40-44 | a slice of a closed table is closed if and only if no order straddles its upper end |
| Orders.PairedMatched | src/streaming_lab/events/generator.py:50-51 | with fresh order ids each order is created once, cancelled at most once and for the same amount |
| BatchWorker.FifoByTopic | gateway/async_kafka_producer.py:244-297 | in every interleaving: per topic, handed over, then pending, then queued is what was accepted, in order; after a cancellation anywhere what was handed over is a prefix of it |
| BatchWorker.PutsArriveInOrder | gateway/async_kafka_producer.py:244-297 | what producers put for a topic while there was room is what send_batch is given for it, in order, then what is pending and queued |
| BatchWorker.AcceptedIsPut | gateway/async_kafka_producer.py:244-251 | what was accepted for a topic is read off the actions and queue lengths |
| BatchWorker.TakeExactly | gateway/async_kafka_producer.py:264-286 | a wait that ends takes the queue's head; all of the batch is then due if and only if it is full or has lingered |
| BatchWorker.SendExactly | gateway/async_kafka_producer.py:288-293 | a flush hands over its groups one by one and then clears the batch and sets the clock |
| BatchWorker.CancelStops | gateway/async_kafka_producer.py:299-301 | once cancelled, nothing is handed over, whatever follows |
| BatchWorker.SizesBounded | gateway/async_kafka_producer.py:47-48 | the queue never exceeds its bound and a waiting batch is below the batch size |
| BatchWorker.GroupExact | gateway/async_kafka_producer.py:280-286 | the groups hold exactly the batch, topic by topic and in order |
| BatchWorker.GroupTopics | gateway/async_kafka_producer.py:281-286 | each topic has one entry and none is empty |
| BatchWorker.AppendTo | gateway/async_kafka_producer.py:283-286 | the dictionary update appends at the topic's entry, or a new entry at the end |
| BatchWorker.FlushHandsOver | gateway/async_kafka_producer.py:288-290 | a due flush hands over every group, in order |
| BatchWorker.BatchWorkerTask.SendAsyncBatch | gateway/async_kafka_producer.py:244-251 | put returns exactly when the queue holds fewer than 10000 items, and then the queue has this topic and event at its end |
| BatchWorker.BatchWorkerTask.GroupByTopic | gateway/async_kafka_producer.py:280-286 | the grouping loop computes the groups |
| BatchWorker.BatchWorkerTask.SendBatches | gateway/async_kafka_producer.py:279-293 | hands over exactly the groups of the batch, clears it and sets the clock |
| BatchWorker.BatchWorkerTask.Iterate | gateway/async_kafka_producer.py:261-293 | the taken batch is all handed over, cleared and the clock set if it is full or has lingered; otherwise it is kept and nothing is handed over; one iteration of the machine |
| Replay.SplitExactlyWhen | src/streaming_lab/naive_mode/hybrid_source_of_truth.py:145-171 | the sub-ranges partition the request if and only if the warm cutoff does not follow the Kafka cutoff or the request does not reach between them |
| Replay.SplitTimes | src/streaming_lab/naive_mode/hybrid_source_of_truth.py:149-171 | how often each instant is replayed, for any cutoffs |
| Replay.TiersOfInstant | src/streaming_lab/naive_mode/hybrid_source_of_truth.py:145-169 | which instants of a request each tier is asked for, in microseconds from the policy's days and months |
| Replay.TiersInOrder | src/streaming_lab/naive_mode/hybrid_source_of_truth.py:150-171 | each tier is asked at most once: Kafka, then the warm tier, then cold storage |
| Replay.CrossedPolicyReplaysTwice | src/streaming_lab/naive_mode/hybrid_source_of_truth.py:145-163 | with 31 days in Kafka and one month warm an instant is replayed from both |
| Replay.PolicyPartitions | src/streaming_lab/naive_mode/hybrid_source_of_truth.py:10-15 | a policy whose warm tier reaches back as far as Kafka partitions every request |
| Replay.WalkExactlyWhen | src/streaming_lab/naive_mode/hybrid_source_of_truth.py:242-263 | the day walk visits every stored event of the range once if and only if each is filed under a walked date |
| Replay.WalkCounts | src/streaming_lab/naive_mode/hybrid_source_of_truth.py:246-263 | each archived object in range under a walked date is visited once, and no other |
| Replay.WantedExactly | src/streaming_lab/naive_mode/hybrid_source_of_truth.py:206-211 | a tier republishes a stored event if and only if its half-open range contains the timestamp |
| Replay.WalkSends | src/streaming_lab/naive_mode/hybrid_source_of_truth.py:246-261 | the cold walk sends an event if and only if its half-open range contains the timestamp and a walked date lists it |
| Replay.DateText | src/streaming_lab/naive_mode/hybrid_source_of_truth.py:243-247 | a date is a day of 86,400 seconds |
| Replay.FiledByDate | src/streaming_lab/naive_mode/hybrid_source_of_truth.py:85-90 | filing by the event's own date is enough for every range |
| Replay.WalkDates | src/streaming_lab/naive_mode/hybrid_source_of_truth.py:242-270 | the loop ends and sends exactly the walk, reporting its size; when it raises, the walk up to the first unreadable timestamp or the last date, reporting zero |
| Replay.ReplayDay | src/streaming_lab/naive_mode/hybrid_source_of_truth.py:254-261 | one date's in-range events are sent in listing order, up to the first unreadable timestamp |
| Replay.ReplayBetween | src/streaming_lab/naive_mode/hybrid_source_of_truth.py:149-174 | each tier is asked for its sub-range, in order; what each reports, zero for a cold walk that raises, and that the total is their sum |
| Replay.ReplayEvents | src/streaming_lab/naive_mode/hybrid_source_of_truth.py:135-174 | the cutoffs come from the policy and the clock, and the ranges asked for are their split |

## Left out

- pyiceberg, SQLite and S3: an append is a file write followed by one atomic pointer swap; the one file of the model stands for the files an append writes, one per day of its partition spec.
- DuckDB, ClickHouse and confluent-kafka internals: a filtered scan with two aggregates, a table filled by its own consumer, an ordered poll per partition.
- Concurrent landing writers: the repository has one (README.md:67).
- Retention loss before the resume offset, and a change of the partition count between restarts.
- Records ClickHouse accepts and `from_json` rejects: the model's ClickHouse skips what does not decode.
- Floating-point time conversions (src/streaming_lab/query/seam.py:43, src/streaming_lab/realtime/clickhouse.py:97) and second-valued clocks: exact integers on both sides.
- Amount overflow of decimal(18,2) and the 28-digit Decimal context: amounts are unbounded reals.
- Amount texts with exponents, underscores, surrounding blanks or special values; JSON beyond flat objects of strings and integers; lone surrogates; integers written with leading zeros, blanks or underscores.
- Order of keys when a dictionary is printed: the model prints keys ascending; `Summary.AnyOrderRoundTrip` shows a reader cannot tell.
- The random generator: its values are draws given to `BuildEvents`, in the ranges the calls ask for.
- Arrow column building, the summary-version shim and the repository's configuration, topic, DDL and polling helpers.
- The circuit breaker, producer pool, metrics and `send_batch` itself: the batch worker's model ends where an event is handed to `send_batch`.
- The batch worker's clock is in milliseconds, and the one-second pause after an unexpected exception is not modelled because the loop body raises none.
- Kafka replay, which the repository leaves as a placeholder reporting zero, and the conversion of ClickHouse rows; the cold listing is a given set of objects.
- Dual-write storage, retention status and cleanup in `naive_mode`, `multi_tier_storage.py`, `events_api_original.py`, and the Flink reference code.
- A kill between polls is the end of the script, and a kill inside an append is a fault of that append; a kill in the middle of a poll is one before or after it.
- Replay.ReplayBetween: the times are within what a date can name, where the repository's arithmetic would raise instead.
