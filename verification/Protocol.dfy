/**
 The whole system as a state machine: the broker, the landing process and its
 crashes, the Iceberg table, and ClickHouse, taking one step at a time in any
 order (lake/landing_job.py, lake/catalog.py, realtime/clickhouse.py).

 A step that is not enabled leaves the world as it is, so a run is simply a
 sequence of steps and a claim about all runs is a claim about all sequences.
 */
module Protocol {
  import opened Broker
  import opened Rows
  import opened Schema
  import opened Summary
  import opened Watermark
  import opened Wrappers

  // -------------------------------------------------------------- the table

  /** A snapshot lists the data files it contains; a file no snapshot lists is an orphan. */
  datatype Snapshot = Snapshot(manifest: seq<nat>, props: Props)

  /** Data files in the order they were written; snapshots in commit order, the last being current. */
  datatype Lake = Lake(files: seq<Rows>, snapshots: seq<Snapshot>)
  {
    function CurrentProps(): Props { if |snapshots| == 0 then map[] else snapshots[|snapshots| - 1].props }

    function CurrentManifest(): seq<nat> { if |snapshots| == 0 then [] else snapshots[|snapshots| - 1].manifest }
  }

  /** Every row of the listed files; an id no file has contributes nothing. */
  function RowsIn(files: seq<Rows>, manifest: seq<nat>): Rows {
    if |manifest| == 0 then []
    else
      var last := manifest[|manifest| - 1];
      RowsIn(files, manifest[..|manifest| - 1]) + (if last < |files| then files[last] else [])
  }

  /** What a scan of the table returns. */
  function VisibleRows(lake: Lake): Rows { RowsIn(lake.files, lake.CurrentManifest()) }

  // ---------------------------------------------------------- the landing job

  datatype Record = Record(partition: nat, offset: nat, event: OrderEvent)

  /**
   Where append stands: not called; the data file is written; the pointer is swapped but
   the call has not returned, so the in-memory state is still the old one.
   */
  datatype Phase = Polling | Written(file: nat, ahead: ResumeState) | Swapped(ahead: ResumeState)

  datatype Job = Job(
    lateness: int,
    state: ResumeState,
    next: Counts,          // consumer position, as a count of entries delivered
    batch: seq<Record>,
    phase: Phase)

  datatype Process = Down | Up(job: Job)

  function BatchRows(batch: seq<Record>): Rows {
    if |batch| == 0 then [] else BatchRows(batch[..|batch| - 1]) + [batch[|batch| - 1].event]
  }

  function GetOr(m: map<int, int>, key: int, default: int): int {
    if key in m then m[key] else default
  }

  /** next_offsets[p] = max(next_offsets.get(p, -1), offset + 1), record by record */
  function NextOffsets(offsets: map<int, int>, batch: seq<Record>): map<int, int> {
    if |batch| == 0 then offsets
    else
      var m, r := NextOffsets(offsets, batch[..|batch| - 1]), batch[|batch| - 1];
      m[r.partition := Max(GetOr(m, r.partition, -1), r.offset + 1)]
  }

  /** part_max[p] = max(part_max.get(p, 0), event_time_ms), record by record */
  function MergeMaxima(maxima: map<int, int>, batch: seq<Record>): map<int, int> {
    if |batch| == 0 then maxima
    else
      var m, r := MergeMaxima(maxima, batch[..|batch| - 1]), batch[|batch| - 1];
      m[r.partition := Max(GetOr(m, r.partition, 0), r.event.eventTimeMs)]
  }

  /** The state a commit of the batch moves to. */
  function Ahead(partitions: nat, lateness: int, st: ResumeState, batch: seq<Record>): ResumeState {
    var maxima := MergeMaxima(st.perPartitionMax, batch);
    ResumeState(
      NextOffsets(st.offsets, batch),
      maxima,
      ComputeWatermark(maxima, lateness, st.watermarkT, Some(partitions)),
      st.commitSeq + 1)
  }

  // ------------------------------------------------------------------- steps

  datatype World = World(
    lake: Lake,
    process: Process,
    ends: Counts,          // entries produced so far, per partition
    ch: Rows,              // ClickHouse's target table, in insertion order
    chNext: Counts)        // ClickHouse's own consumer position

  datatype Step =
    | Produce(p: nat)
    | Start(lateness: int)
    | Poll(p: nat)
    | WriteFile
    | Swap
    | Ack
    | Crash
    | ChPoll(p: nat)
    | ChRewind(p: nat, to: nat)   // redelivery: the consumer group falls back to an earlier position

  function InitialWorld(log: Log): World {
    World(Lake([], []), Down, Zeros(|log|), [], Zeros(|log|))
  }

  function StartJob(log: Log, w: World, lateness: int): Process {
    match ReadResumeState(w.lake.CurrentProps())
    case Some(st) => Up(Job(lateness, st, Positions(log, st.offsets), [], Polling))
    case None => Down
  }

  /** Delivers the next entry of partition p; one that does not decode raises and ends the process. */
  function PollJob(log: Log, w: World, job: Job, p: nat): Process {
    if job.phase == Polling && p < |log| && p < |job.next| && p < |w.ends|
       && job.next[p] < w.ends[p] && job.next[p] < |log[p]|
    then
      match log[p][job.next[p]]
      case Good(offset, event) =>
        Up(job.(batch := job.batch + [Record(p, offset, event)], next := Advance(job.next, p)))
      case Bad(_) => Down
    else Up(job)
  }

  function Apply(log: Log, w: World, s: Step): World {
    match s
    case Produce(p) =>
      if p < |log| && p < |w.ends| && w.ends[p] < |log[p]| then w.(ends := Advance(w.ends, p)) else w
    case Start(lateness) => if w.process.Down? then w.(process := StartJob(log, w, lateness)) else w
    case Poll(p) => if w.process.Up? then w.(process := PollJob(log, w, w.process.job, p)) else w
    case WriteFile =>
      if w.process.Up? && w.process.job.phase == Polling && |w.process.job.batch| > 0 then
        ApplyWrite(log, w, w.process.job)
      else w
    case Swap =>
      if w.process.Up? && w.process.job.phase.Written? then ApplySwap(w, w.process.job) else w
    case Ack =>
      if w.process.Up? && w.process.job.phase.Swapped? then ApplyAck(w, w.process.job) else w
    case Crash => w.(process := Down)
    case ChPoll(p) =>
      if p < |log| && p < |w.ends| && p < |w.chNext| && w.chNext[p] < w.ends[p] && w.chNext[p] < |log[p]| then
        var entry := log[p][w.chNext[p]];
        w.(chNext := Advance(w.chNext, p), ch := if entry.Good? then w.ch + [entry.event] else w.ch)
      else w
    case ChRewind(p, to) =>
      if p < |w.chNext| && to <= w.chNext[p] then w.(chNext := w.chNext[p := to]) else w
  }

  /** The data file is written; no snapshot lists it yet. */
  function ApplyWrite(log: Log, w: World, job: Job): World {
    var ahead := Ahead(|log|, job.lateness, job.state, job.batch);
    w.(lake := w.lake.(files := w.lake.files + [BatchRows(job.batch)]),
       process := Up(job.(phase := Written(|w.lake.files|, ahead))))
  }

  /** The pointer swap: data and progress become visible together. */
  function ApplySwap(w: World, job: Job): World
    requires job.phase.Written?
  {
    var snapshot := Snapshot(w.lake.CurrentManifest() + [job.phase.file],
                             Stamp(job.phase.ahead, job.lateness, |job.batch|));
    w.(lake := w.lake.(snapshots := w.lake.snapshots + [snapshot]),
       process := Up(job.(phase := Swapped(job.phase.ahead))))
  }

  /** append has returned: only now does the in-memory state advance. */
  function ApplyAck(w: World, job: Job): World
    requires job.phase.Swapped?
  {
    w.(process := Up(job.(state := job.phase.ahead, batch := [], phase := Polling)))
  }

  function Run(log: Log, steps: seq<Step>): World {
    if |steps| == 0 then InitialWorld(log)
    else Apply(log, Run(log, steps[..|steps| - 1]), steps[|steps| - 1])
  }

  // ------------------------------------------------------- what is committed

  /** The state a restart at this moment would resume from. */
  function Durable(lake: Lake): ResumeState { StateIn(lake.CurrentProps()) }

  function StateIn(props: Props): ResumeState {
    match ReadResumeState(props)
    case Some(st) => st
    case None => FRESH
  }

  /** How many entries of each partition lie below its committed offset. */
  function Committed(log: Log, w: World): Counts { Positions(log, Durable(w.lake).offsets) }

  /** T as the seam reads it: int(props.get(K_WATERMARK, "0")). */
  function PublishedT(lake: Lake): int {
    match IntProp(lake.CurrentProps(), K_WATERMARK)
    case Some(t) => t
    case None => 0
  }

  // --------------------------------------------------------------- invariant

  /** The table against the log: st is what its current snapshot says, k how much of each partition that is. */
  ghost predicate LakeInv(log: Log, lake: Lake, st: ResumeState, k: Counts)
    requires Within(log, k)
  {
    && st.offsets == OffsetsAt(log, k)
    && st.perPartitionMax == MaximaAt(log, k)
    && st.commitSeq == |lake.snapshots|
    && (forall f | f in lake.CurrentManifest() :: f < |lake.files|)
    && multiset(VisibleRows(lake)) == EventsUpTo(log, k)
  }

  /** The batch is exactly what lies between the committed positions and the consumer's. */
  ghost predicate BatchInv(log: Log, st: ResumeState, k: Counts, batch: seq<Record>, next: Counts)
    requires Within(log, k) && Within(log, next)
  {
    && NextOffsets(st.offsets, batch) == OffsetsAt(log, next)
    && MergeMaxima(st.perPartitionMax, batch) == MaximaAt(log, next)
    && EventsUpTo(log, k) + multiset(BatchRows(batch)) == EventsUpTo(log, next)
  }

  ghost predicate PhaseInv(log: Log, files: seq<Rows>, st: ResumeState, k: Counts, job: Job)
    requires Within(log, k) && Within(log, job.next)
  {
    match job.phase
    case Polling => job.state == st && BatchInv(log, st, k, job.batch, job.next)
    case Written(file, ahead) =>
      && job.state == st && BatchInv(log, st, k, job.batch, job.next)
      && |job.batch| > 0
      && file < |files| && files[file] == BatchRows(job.batch)
      && ahead == Ahead(|log|, job.lateness, job.state, job.batch)
    case Swapped(ahead) => st == ahead && k == job.next
  }

  ghost predicate JobInv(log: Log, files: seq<Rows>, ends: Counts, st: ResumeState, k: Counts, job: Job)
    requires Within(log, k) && Within(log, ends)
  {
    && Within(log, job.next) && AtMost(k, job.next) && AtMost(job.next, ends)
    && AllDecoded(log, job.next)
    && PhaseInv(log, files, st, k, job)
  }

  /** Everything that holds of a world whose table says st and has committed k. */
  ghost predicate InvAt(log: Log, w: World, st: ResumeState, k: Counts) {
    && Within(log, k) && AllDecoded(log, k)
    && Within(log, w.ends) && AtMost(k, w.ends)
    && Within(log, w.chNext) && AtMost(w.chNext, w.ends)
    && LakeInv(log, w.lake, st, k)
    && (w.process.Up? ==> JobInv(log, w.lake.files, w.ends, st, k, w.process.job))
  }

  ghost predicate Reads(lake: Lake, st: ResumeState) { ReadResumeState(lake.CurrentProps()) == Some(st) }

  ghost predicate Inv(log: Log, w: World) {
    Reads(w.lake, Durable(w.lake)) && InvAt(log, w, Durable(w.lake), Committed(log, w))
  }

  lemma InitialInv(log: Log)
    requires WellFormed(log)
    ensures Inv(log, InitialWorld(log))
    ensures Committed(log, InitialWorld(log)) == Zeros(|log|)
  {
    FreshResume();
    ZerosAreEmpty(log, |log|);
    assert OffsetsAt(log, Zeros(|log|)) == map[];
    PositionsOfOffsets(log, Zeros(|log|));
  }

  lemma {:induction false} ZerosAreEmpty(log: Log, n: nat)
    requires n <= |log|
    ensures EventsOf(log, Zeros(|log|), n) == multiset{}
  {
    if n > 0 {
      ZerosAreEmpty(log, n - 1);
    }
  }

  lemma EmptyBatch(log: Log, st: ResumeState, k: Counts)
    requires Within(log, k) && st.offsets == OffsetsAt(log, k) && st.perPartitionMax == MaximaAt(log, k)
    ensures BatchInv(log, st, k, [], k)
  {
    assert EventsUpTo(log, k) + multiset(BatchRows([])) == EventsUpTo(log, k);
  }

  lemma StartInv(log: Log, w: World, st: ResumeState, k: Counts, lateness: int)
    requires InvAt(log, w, st, k) && w.process.Down?
    ensures InvAt(log, w.(process := Up(Job(lateness, st, k, [], Polling))), st, k)
  {
    EmptyBatch(log, st, k);
  }

  lemma BatchSnoc(batch: seq<Record>, r: Record, offsets: map<int, int>, maxima: map<int, int>)
    ensures BatchRows(batch + [r]) == BatchRows(batch) + [r.event]
    ensures var m := NextOffsets(offsets, batch);
            NextOffsets(offsets, batch + [r]) == m[r.partition := Max(GetOr(m, r.partition, -1), r.offset + 1)]
    ensures var m := MergeMaxima(maxima, batch);
            MergeMaxima(maxima, batch + [r]) == m[r.partition := Max(GetOr(m, r.partition, 0), r.event.eventTimeMs)]
  {
    assert (batch + [r])[..|batch|] == batch;
  }

  function RecordAt(log: Log, next: Counts, p: nat): Record
    requires Within(log, next) && p < |log| && next[p] < |log[p]| && log[p][next[p]].Good?
  {
    Record(p, log[p][next[p]].offset, log[p][next[p]].event)
  }

  lemma PolledOffsets(log: Log, offsets: map<int, int>, batch: seq<Record>, next: Counts, p: nat)
    requires WellFormed(log) && Within(log, next) && NextOffsets(offsets, batch) == OffsetsAt(log, next)
    requires p < |log| && next[p] < |log[p]| && log[p][next[p]].Good?
    ensures Within(log, Advance(next, p))
    ensures NextOffsets(offsets, batch + [RecordAt(log, next, p)]) == OffsetsAt(log, Advance(next, p))
  {
    BatchSnoc(batch, RecordAt(log, next, p), offsets, map[]);
    OffsetMerge(log, next, p);
  }

  lemma PolledMaxima(log: Log, maxima: map<int, int>, batch: seq<Record>, next: Counts, p: nat)
    requires Within(log, next) && MergeMaxima(maxima, batch) == MaximaAt(log, next)
    requires p < |log| && next[p] < |log[p]| && log[p][next[p]].Good?
    ensures Within(log, Advance(next, p))
    ensures MergeMaxima(maxima, batch + [RecordAt(log, next, p)]) == MaximaAt(log, Advance(next, p))
  {
    BatchSnoc(batch, RecordAt(log, next, p), map[], maxima);
    MaximumMerge(log, next, p);
  }

  /** One more record keeps the batch in step with the consumer position. */
  lemma PolledBatch(log: Log, st: ResumeState, k: Counts, batch: seq<Record>, next: Counts, p: nat)
    requires WellFormed(log) && Within(log, k) && Within(log, next)
    requires BatchInv(log, st, k, batch, next)
    requires p < |log| && next[p] < |log[p]| && log[p][next[p]].Good?
    ensures Within(log, Advance(next, p))
    ensures BatchInv(log, st, k, batch + [RecordAt(log, next, p)], Advance(next, p))
  {
    PolledOffsets(log, st.offsets, batch, next, p);
    PolledMaxima(log, st.perPartitionMax, batch, next, p);
    PolledRows(log, k, batch, next, p);
  }

  lemma PolledRows(log: Log, k: Counts, batch: seq<Record>, next: Counts, p: nat)
    requires Within(log, k) && Within(log, next)
    requires EventsUpTo(log, k) + multiset(BatchRows(batch)) == EventsUpTo(log, next)
    requires p < |log| && next[p] < |log[p]| && log[p][next[p]].Good?
    ensures Within(log, Advance(next, p))
    ensures EventsUpTo(log, k) + multiset(BatchRows(batch + [RecordAt(log, next, p)]))
         == EventsUpTo(log, Advance(next, p))
  {
    var r := RecordAt(log, next, p);
    BatchSnoc(batch, r, map[], map[]);
    EventsAdvance(log, next, p, |log|);
    SnocRows(EventsUpTo(log, k), BatchRows(batch), r.event);
  }

  lemma SnocRows(m: multiset<OrderEvent>, rows: Rows, e: OrderEvent)
    ensures m + multiset(rows + [e]) == m + multiset(rows) + multiset{e}
  {
  }

  lemma OffsetMerge(log: Log, next: Counts, p: nat)
    requires WellFormed(log) && Within(log, next)
    requires p < |log| && next[p] < |log[p]| && log[p][next[p]].Good?
    ensures var m, entry := OffsetsAt(log, next), log[p][next[p]];
            Within(log, Advance(next, p))
            && OffsetsAt(log, Advance(next, p)) == m[p := Max(GetOr(m, p, -1), entry.offset + 1)]
  {
    MapsAdvance(log, next, p);
    assert next[p] > 0 ==> log[p][next[p] - 1].offset < log[p][next[p]].offset;
  }

  lemma MaximumMerge(log: Log, next: Counts, p: nat)
    requires Within(log, next)
    requires p < |log| && next[p] < |log[p]| && log[p][next[p]].Good?
    ensures var m, entry := MaximaAt(log, next), log[p][next[p]];
            Within(log, Advance(next, p))
            && MaximaAt(log, Advance(next, p)) == m[p := Max(GetOr(m, p, 0), entry.event.eventTimeMs)]
  {
    MapsAdvance(log, next, p);
    EventsSnoc(log[p], next[p]);
    assert next[p] == 0 ==> MaxTime(log[p][..next[p]]) == 0;
  }

  lemma AdvanceDecoded(log: Log, next: Counts, p: nat)
    requires Within(log, next) && AllDecoded(log, next)
    requires p < |log| && next[p] < |log[p]| && log[p][next[p]].Good?
    ensures Within(log, Advance(next, p)) && AllDecoded(log, Advance(next, p))
  {
    EventsSnoc(log[p], next[p]);
  }

  lemma PollInv(log: Log, w: World, st: ResumeState, k: Counts, p: nat)
    requires WellFormed(log) && InvAt(log, w, st, k) && w.process.Up?
    ensures InvAt(log, w.(process := PollJob(log, w, w.process.job, p)), st, k)
  {
    var job := w.process.job;
    if job.phase == Polling && p < |log| && job.next[p] < w.ends[p] && log[p][job.next[p]].Good? {
      PolledBatch(log, st, k, job.batch, job.next, p);
      AdvanceDecoded(log, job.next, p);
    }
  }

  lemma RowsInGrow(files: seq<Rows>, file: Rows, manifest: seq<nat>)
    requires forall f | f in manifest :: f < |files|
    ensures RowsIn(files + [file], manifest) == RowsIn(files, manifest)
  {
    if |manifest| > 0 {
      var init := manifest[..|manifest| - 1];
      assert forall f | f in init :: f in manifest;
      assert manifest[|manifest| - 1] in manifest;
      RowsInGrow(files, file, init);
    }
  }

  /** Writing the data file changes nothing any reader sees. */
  lemma WriteInv(log: Log, w: World, st: ResumeState, k: Counts)
    requires InvAt(log, w, st, k)
    requires w.process.Up? && w.process.job.phase == Polling && |w.process.job.batch| > 0
    ensures InvAt(log, ApplyWrite(log, w, w.process.job), st, k)
    ensures VisibleRows(ApplyWrite(log, w, w.process.job).lake) == VisibleRows(w.lake)
  {
    RowsInGrow(w.lake.files, BatchRows(w.process.job.batch), w.lake.CurrentManifest());
  }

  lemma SwapRows(lake: Lake, file: nat, props: Props)
    requires file < |lake.files|
    ensures var lake' := lake.(snapshots := lake.snapshots + [Snapshot(lake.CurrentManifest() + [file], props)]);
            VisibleRows(lake') == VisibleRows(lake) + lake.files[file]
  {
    var manifest := lake.CurrentManifest();
    assert (manifest + [file])[..|manifest|] == manifest;
  }

  lemma AheadIsCanonical(log: Log, st: ResumeState, k: Counts, batch: seq<Record>, next: Counts, lateness: int)
    requires Within(log, k) && Within(log, next) && BatchInv(log, st, k, batch, next)
    ensures var ahead := Ahead(|log|, lateness, st, batch);
            && ahead.offsets == OffsetsAt(log, next) && ahead.perPartitionMax == MaximaAt(log, next)
            && ahead.commitSeq == st.commitSeq + 1
            && ahead.watermarkT == ComputeWatermark(MaximaAt(log, next), lateness, st.watermarkT, Some(|log|))
  {
  }

  lemma SwapLake(log: Log, lake: Lake, st: ResumeState, k: Counts, ahead: ResumeState, next: Counts,
                 file: nat, props: Props)
    requires Within(log, k) && Within(log, next) && LakeInv(log, lake, st, k)
    requires ahead.offsets == OffsetsAt(log, next) && ahead.perPartitionMax == MaximaAt(log, next)
    requires ahead.commitSeq == st.commitSeq + 1
    requires file < |lake.files| && EventsUpTo(log, k) + multiset(lake.files[file]) == EventsUpTo(log, next)
    ensures var lake' := lake.(snapshots := lake.snapshots + [Snapshot(lake.CurrentManifest() + [file], props)]);
            LakeInv(log, lake', ahead, next)
  {
    SwapRows(lake, file, props);
    assert multiset(VisibleRows(lake) + lake.files[file]) == multiset(VisibleRows(lake)) + multiset(lake.files[file]);
  }

  /** The swap publishes exactly the batch, and exactly the progress that goes with it. */
  lemma SwapInv(log: Log, w: World, st: ResumeState, k: Counts)
    requires InvAt(log, w, st, k) && w.process.Up? && w.process.job.phase.Written?
    ensures InvAt(log, ApplySwap(w, w.process.job), w.process.job.phase.ahead, w.process.job.next)
  {
    var job := w.process.job;
    AheadIsCanonical(log, st, k, job.batch, job.next, job.lateness);
    SwapLake(log, w.lake, st, k, job.phase.ahead, job.next, job.phase.file,
             Stamp(job.phase.ahead, job.lateness, |job.batch|));
  }

  lemma SwapReads(w: World, job: Job)
    requires job.phase.Written?
    ensures Reads(ApplySwap(w, job).lake, job.phase.ahead) && Durable(ApplySwap(w, job).lake) == job.phase.ahead
  {
    ResumeRoundTrip(job.phase.ahead, job.lateness, |job.batch|);
  }

  lemma AckInv(log: Log, w: World, st: ResumeState, k: Counts)
    requires InvAt(log, w, st, k) && w.process.Up? && w.process.job.phase.Swapped?
    ensures InvAt(log, ApplyAck(w, w.process.job), st, k)
  {
    EmptyBatch(log, st, k);
  }

  lemma ProduceInv(log: Log, w: World, st: ResumeState, k: Counts, p: nat)
    requires InvAt(log, w, st, k) && p < |log| && w.ends[p] < |log[p]|
    ensures InvAt(log, w.(ends := Advance(w.ends, p)), st, k)
  {
  }

  lemma ChInv(log: Log, w: World, st: ResumeState, k: Counts, chNext: Counts, ch: Rows)
    requires InvAt(log, w, st, k) && Within(log, chNext) && AtMost(chNext, w.ends)
    ensures InvAt(log, w.(chNext := chNext, ch := ch), st, k)
  {
  }

  ghost predicate Swapping(w: World, s: Step) { s.Swap? && w.process.Up? && w.process.job.phase.Written? }

  /** The landing process taking a step other than the swap. */
  lemma JobStepInv(log: Log, w: World, st: ResumeState, k: Counts, s: Step)
    requires WellFormed(log) && InvAt(log, w, st, k) && !Swapping(w, s)
    requires s.Start? || s.Poll? || s.WriteFile? || s.Swap? || s.Ack? || s.Crash?
    requires s.Start? && w.process.Down? ==> StartJob(log, w, s.lateness) == Up(Job(s.lateness, st, k, [], Polling))
    ensures InvAt(log, Apply(log, w, s), st, k)
  {
    match s
    case Start(lateness) => if w.process.Down? { StartInv(log, w, st, k, lateness); }
    case Poll(p) => if w.process.Up? { PollInv(log, w, st, k, p); }
    case WriteFile =>
      if w.process.Up? && w.process.job.phase == Polling && |w.process.job.batch| > 0 { WriteInv(log, w, st, k); }
    case Swap =>
    case Ack => if w.process.Up? && w.process.job.phase.Swapped? { AckInv(log, w, st, k); }
    case Crash =>
  }

  /** The producer or ClickHouse taking a step. */
  lemma OutsideStepInv(log: Log, w: World, st: ResumeState, k: Counts, s: Step)
    requires InvAt(log, w, st, k) && (s.Produce? || s.ChPoll? || s.ChRewind?)
    ensures InvAt(log, Apply(log, w, s), st, k)
  {
    match s
    case Produce(p) => if p < |log| && w.ends[p] < |log[p]| { ProduceInv(log, w, st, k, p); }
    case ChPoll(p) =>
      var w' := Apply(log, w, s);
      ChInv(log, w, st, k, w'.chNext, w'.ch);
    case ChRewind(p, to) =>
      ChInv(log, w, st, k, Apply(log, w, s).chNext, w.ch);
  }

  /** A step other than an effective swap leaves what the table says alone. */
  lemma OtherStepInv(log: Log, w: World, st: ResumeState, k: Counts, s: Step)
    requires WellFormed(log) && InvAt(log, w, st, k) && !Swapping(w, s)
    requires s.Start? && w.process.Down? ==> StartJob(log, w, s.lateness) == Up(Job(s.lateness, st, k, [], Polling))
    ensures InvAt(log, Apply(log, w, s), st, k)
    ensures Apply(log, w, s).lake.snapshots == w.lake.snapshots
  {
    if s.Produce? || s.ChPoll? || s.ChRewind? {
      OutsideStepInv(log, w, st, k, s);
    } else {
      JobStepInv(log, w, st, k, s);
    }
  }

  lemma StartReads(log: Log, w: World, st: ResumeState, lateness: int)
    requires Reads(w.lake, st)
    ensures StartJob(log, w, lateness) == Up(Job(lateness, st, Positions(log, st.offsets), [], Polling))
  {
  }

  lemma SwapApplies(log: Log, w: World, s: Step)
    requires Swapping(w, s)
    ensures Apply(log, w, s) == ApplySwap(w, w.process.job)
  {
  }

  /** What the table says, and how far it has committed, give the invariant. */
  lemma InvFrom(log: Log, w: World, st: ResumeState, k: Counts)
    requires WellFormed(log) && Reads(w.lake, st) && InvAt(log, w, st, k)
    ensures Inv(log, w) && Durable(w.lake) == st && Committed(log, w) == k
  {
    assert Durable(w.lake) == st;
    PositionsOfOffsets(log, k);
  }

  lemma SwapMoves(log: Log, w: World, st: ResumeState, k: Counts)
    requires WellFormed(log) && InvAt(log, w, st, k) && w.process.Up? && w.process.job.phase.Written?
    ensures var w', job := ApplySwap(w, w.process.job), w.process.job;
            Inv(log, w') && Durable(w'.lake) == job.phase.ahead && Committed(log, w') == job.next
  {
    var job := w.process.job;
    SwapInv(log, w, st, k);
    SwapReads(w, job);
    InvFrom(log, ApplySwap(w, job), job.phase.ahead, job.next);
  }

  lemma SwapStep(log: Log, w: World, s: Step)
    requires WellFormed(log) && Inv(log, w) && Swapping(w, s)
    ensures var w', job := Apply(log, w, s), w.process.job;
            Inv(log, w') && Durable(w'.lake) == job.phase.ahead && Committed(log, w') == job.next
  {
    SwapApplies(log, w, s);
    SwapMoves(log, w, Durable(w.lake), Committed(log, w));
  }

  /** What the table says depends on its snapshots alone. */
  lemma SameTable(log: Log, w: World, w': World)
    requires w'.lake.snapshots == w.lake.snapshots
    ensures w'.lake.CurrentProps() == w.lake.CurrentProps()
    ensures Durable(w'.lake) == Durable(w.lake) && Committed(log, w') == Committed(log, w)
    ensures Reads(w.lake, Durable(w.lake)) ==> Reads(w'.lake, Durable(w'.lake))
  {
    assert w'.lake.CurrentProps() == w.lake.CurrentProps();
  }

  lemma OtherStep(log: Log, w: World, s: Step)
    requires WellFormed(log) && Inv(log, w) && !Swapping(w, s)
    ensures var w' := Apply(log, w, s);
            && Inv(log, w') && w'.lake.snapshots == w.lake.snapshots
            && Durable(w'.lake) == Durable(w.lake) && Committed(log, w') == Committed(log, w)
  {
    var st, w' := Durable(w.lake), Apply(log, w, s);
    if s.Start? {
      StartReads(log, w, st, s.lateness);
    }
    OtherStepInv(log, w, st, Committed(log, w), s);
    SameTable(log, w, w');
  }

  /** What one step does to the committed state: nothing, or one swap. */
  lemma StepInv(log: Log, w: World, s: Step)
    requires WellFormed(log) && Inv(log, w)
    ensures var w' := Apply(log, w, s);
            && Inv(log, w')
            && (Swapping(w, s) ==>
                  Durable(w'.lake) == w.process.job.phase.ahead && Committed(log, w') == w.process.job.next)
            && (!Swapping(w, s) ==>
                  w'.lake.snapshots == w.lake.snapshots && Durable(w'.lake) == Durable(w.lake)
                  && Committed(log, w') == Committed(log, w))
  {
    if Swapping(w, s) {
      SwapStep(log, w, s);
    } else {
      OtherStep(log, w, s);
    }
  }

  lemma {:induction false} RunInv(log: Log, steps: seq<Step>)
    requires WellFormed(log)
    ensures Inv(log, Run(log, steps))
  {
    if |steps| == 0 {
      InitialInv(log);
    } else {
      RunInv(log, steps[..|steps| - 1]);
      StepInv(log, Run(log, steps[..|steps| - 1]), steps[|steps| - 1]);
    }
  }

  lemma RunSnoc(log: Log, steps: seq<Step>, s: Step)
    ensures Run(log, steps + [s]) == Apply(log, Run(log, steps), s)
  {
    assert (steps + [s])[..|steps|] == steps;
  }
}
