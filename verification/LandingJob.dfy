/**
 The landing job as the object it is: a table it appends to, a consumer position, an
 in-memory state, and the run loop (lake/landing_job.py).

 The table carries a ghost history: the steps of the Protocol machine that produced it.
 Every method keeps the table equal to what that history yields, so every theorem about
 runs of the machine is a theorem about the table.
 */
module Landing {
  import opened Broker
  import opened Protocol
  import opened Rows
  import opened SafeWatermark
  import opened Safety
  import opened Summary
  import opened Watermark
  import opened Wrappers

  datatype Config = Config(latenessWindowMs: int, batchMaxEvents: int, batchMaxMs: int)

  /** Where an append dies, if it does. */
  datatype Fault = NoFault | BeforeWrite | BeforeSwap | AfterSwap

  /** The Iceberg table. */
  class OrdersTable {
    ghost const topic: Log
    var files: seq<Rows>
    var snapshots: seq<Snapshot>
    ghost var history: seq<Step>

    constructor (ghost topic: Log)
      requires WellFormed(topic)
      ensures this.topic == topic && Valid()
      ensures files == [] && snapshots == [] && history == []
    {
      this.topic := topic;
      files, snapshots := [], [];
      history := [];
    }

    function Contents(): Lake
      reads this
    {
      Lake(files, snapshots)
    }

    ghost function Reached(): World
      reads this
    {
      Run(topic, history)
    }

    ghost predicate Valid()
      reads this
    {
      WellFormed(topic) && Reached().lake == Contents()
    }

    /** Writes the data file, then swaps the pointer to a snapshot that lists it and carries the properties. */
    method Append(rows: Rows, props: Props, fault: Fault) returns (ok: bool)
      modifies this`files, this`snapshots
      ensures ok <==> fault == NoFault
      ensures files == old(files) + (if fault == BeforeWrite then [] else [rows])
      ensures snapshots == old(snapshots)
                           + (if fault == BeforeWrite || fault == BeforeSwap then []
                              else [Snapshot(old(Contents()).CurrentManifest() + [|old(files)|], props)])
    {
      if fault == BeforeWrite { return false; }
      var manifest := Contents().CurrentManifest();
      files := files + [rows];
      if fault == BeforeSwap { return false; }
      snapshots := snapshots + [Snapshot(manifest + [|files| - 1], props)];
      ok := fault == NoFault;
    }
  }

  /** What a poll of the broker yields: nothing, an error message, or the next entry of some partition. */
  datatype Arrival = Silence | BrokerError | Next(p: nat)

  datatype Message = Nothing | Failed | Delivered(p: nat, entry: Entry)

  /** One turn of the loop as the outside decides it: what arrives, the clock, and what happens to an append. */
  datatype Tick = Tick(arrival: Arrival, now: int, fault: Fault)

  /** How run ends: it returns, an exception escapes it, or the process is killed. */
  datatype Outcome = Returned(committed: nat) | Raised | Killed

  // --------------------------------------------------- traces of single actions

  lemma PollTrace(log: Log, history: seq<Step>, job: Job, p: nat)
    requires WellFormed(log) && Run(log, history).process == Up(job) && job.phase == Polling
    requires p < |log| && |job.next| == |log| && job.next[p] < |log[p]|
    ensures var w, w' := Run(log, history), Run(log, history + [Produce(p)] + [Poll(p)]);
            && w'.lake == w.lake
            && match log[p][job.next[p]]
               case Good(offset, event) =>
                 w'.process == Up(job.(batch := job.batch + [Record(p, offset, event)], next := Advance(job.next, p)))
               case Bad(_) => w'.process == Down
  {
    RunInv(log, history);
    RunSnoc(log, history, Produce(p));
    RunSnoc(log, history + [Produce(p)], Poll(p));
    ProducedWorld(log, Run(log, history), job, p);
    PolledWorld(log, Run(log, history + [Produce(p)]), job, p);
  }

  lemma ProducedWorld(log: Log, w: World, job: Job, p: nat)
    requires Inv(log, w) && w.process == Up(job)
    requires p < |log| && |job.next| == |log| && job.next[p] < |log[p]|
    ensures var v := Apply(log, w, Produce(p));
            v.lake == w.lake && v.process == w.process && |v.ends| == |log| && job.next[p] < v.ends[p]
  {
  }

  lemma PolledWorld(log: Log, v: World, job: Job, p: nat)
    requires v.process == Up(job) && job.phase == Polling
    requires p < |log| && |job.next| == |log| == |v.ends| && job.next[p] < |log[p]| && job.next[p] < v.ends[p]
    ensures var w' := Apply(log, v, Poll(p));
            && w'.lake == v.lake
            && match log[p][job.next[p]]
               case Good(offset, event) =>
                 w'.process == Up(job.(batch := job.batch + [Record(p, offset, event)], next := Advance(job.next, p)))
               case Bad(_) => w'.process == Down
  {
  }

  /** The steps of an append that runs into the given fault. */
  function AppendSteps(fault: Fault): seq<Step> {
    match fault
    case NoFault => [WriteFile, Swap, Ack]
    case BeforeWrite => [Crash]
    case BeforeSwap => [WriteFile, Crash]
    case AfterSwap => [WriteFile, Swap, Crash]
  }

  function NewSnapshot(partitions: nat, lake: Lake, job: Job): Snapshot {
    Snapshot(lake.CurrentManifest() + [|lake.files|],
             Stamp(Ahead(partitions, job.lateness, job.state, job.batch), job.lateness, |job.batch|))
  }

  /** The table after an append of the batch that runs into the given fault. */
  function AppendedLake(partitions: nat, lake: Lake, job: Job, fault: Fault): Lake {
    Lake(lake.files + (if fault == BeforeWrite then [] else [BatchRows(job.batch)]),
         lake.snapshots + (if fault == BeforeWrite || fault == BeforeSwap then []
                           else [NewSnapshot(partitions, lake, job)]))
  }

  function AppendedProcess(partitions: nat, job: Job, fault: Fault): Process {
    if fault == NoFault
    then Up(job.(state := Ahead(partitions, job.lateness, job.state, job.batch), batch := []))
    else Down
  }

  lemma WriteTrace(log: Log, history: seq<Step>, job: Job)
    requires Run(log, history).process == Up(job) && job.phase == Polling && |job.batch| > 0
    ensures var w, ahead := Run(log, history), Ahead(|log|, job.lateness, job.state, job.batch);
            Run(log, history + [WriteFile])
            == w.(lake := AppendedLake(|log|, w.lake, job, BeforeSwap),
                  process := Up(job.(phase := Written(|w.lake.files|, ahead))))
  {
    RunSnoc(log, history, WriteFile);
    var w := Run(log, history);
    assert w.lake.snapshots + [] == w.lake.snapshots;
  }

  lemma SwapWorld(log: Log, w: World, job: Job, ahead: ResumeState)
    requires ahead == Ahead(|log|, job.lateness, job.state, job.batch)
    ensures var v := w.(lake := AppendedLake(|log|, w.lake, job, BeforeSwap),
                        process := Up(job.(phase := Written(|w.lake.files|, ahead))));
            Apply(log, v, Swap)
            == w.(lake := AppendedLake(|log|, w.lake, job, AfterSwap), process := Up(job.(phase := Swapped(ahead))))
  {
    LakeAfterSwap(|log|, w.lake, job);
  }

  lemma LakeAfterSwap(partitions: nat, lake: Lake, job: Job)
    ensures var written := AppendedLake(partitions, lake, job, BeforeSwap);
            && written.CurrentManifest() == lake.CurrentManifest()
            && written.(snapshots := written.snapshots + [NewSnapshot(partitions, lake, job)])
               == AppendedLake(partitions, lake, job, AfterSwap)
  {
    assert lake.snapshots + [] == lake.snapshots;
  }

  lemma SwapTrace(log: Log, history: seq<Step>, job: Job)
    requires Run(log, history).process == Up(job) && job.phase == Polling && |job.batch| > 0
    ensures var w, ahead := Run(log, history), Ahead(|log|, job.lateness, job.state, job.batch);
            Run(log, history + [WriteFile] + [Swap])
            == w.(lake := AppendedLake(|log|, w.lake, job, AfterSwap), process := Up(job.(phase := Swapped(ahead))))
  {
    WriteTrace(log, history, job);
    RunSnoc(log, history + [WriteFile], Swap);
    SwapWorld(log, Run(log, history), job, Ahead(|log|, job.lateness, job.state, job.batch));
  }

  lemma AckWorld(log: Log, v: World, job: Job, ahead: ResumeState)
    requires v.process == Up(job.(phase := Swapped(ahead))) && job.phase == Polling
    ensures Apply(log, v, Ack) == v.(process := Up(job.(state := ahead, batch := [])))
  {
  }

  lemma AckTrace(log: Log, history: seq<Step>, job: Job)
    requires Run(log, history).process == Up(job) && job.phase == Polling && |job.batch| > 0
    ensures var w := Run(log, history);
            Run(log, history + [WriteFile] + [Swap] + [Ack])
            == w.(lake := AppendedLake(|log|, w.lake, job, NoFault), process := AppendedProcess(|log|, job, NoFault))
  {
    SwapTrace(log, history, job);
    RunSnoc(log, history + [WriteFile] + [Swap], Ack);
    AckWorld(log, Run(log, history + [WriteFile] + [Swap]), job, Ahead(|log|, job.lateness, job.state, job.batch));
  }

  lemma AppendStepsInOrder(history: seq<Step>)
    ensures history + AppendSteps(NoFault) == history + [WriteFile] + [Swap] + [Ack]
    ensures history + AppendSteps(BeforeSwap) == history + [WriteFile] + [Crash]
    ensures history + AppendSteps(AfterSwap) == history + [WriteFile] + [Swap] + [Crash]
  {
  }

  /** The machine's steps of an append do what the table's method does. */
  lemma AppendTrace(log: Log, history: seq<Step>, job: Job, fault: Fault)
    requires Run(log, history).process == Up(job) && job.phase == Polling && |job.batch| > 0
    ensures var w := Run(log, history);
            Run(log, history + AppendSteps(fault))
            == w.(lake := AppendedLake(|log|, w.lake, job, fault), process := AppendedProcess(|log|, job, fault))
  {
    AppendStepsInOrder(history);
    match fault
    case BeforeWrite => CrashBefore(log, history, job);
    case BeforeSwap => CrashBetween(log, history, job);
    case AfterSwap => CrashAfter(log, history, job);
    case NoFault => AckTrace(log, history, job);
  }

  lemma CrashBefore(log: Log, history: seq<Step>, job: Job)
    ensures var w := Run(log, history);
            Run(log, history + [Crash])
            == w.(lake := AppendedLake(|log|, w.lake, job, BeforeWrite), process := Down)
  {
    RunSnoc(log, history, Crash);
    var lake := Run(log, history).lake;
    assert lake.files + [] == lake.files && lake.snapshots + [] == lake.snapshots;
  }

  lemma CrashedLake(log: Log, steps: seq<Step>, w: World, lake: Lake, process: Process)
    requires Run(log, steps) == w.(lake := lake, process := process)
    ensures Run(log, steps + [Crash]) == w.(lake := lake, process := Down)
  {
    RunSnoc(log, steps, Crash);
  }

  lemma CrashBetween(log: Log, history: seq<Step>, job: Job)
    requires Run(log, history).process == Up(job) && job.phase == Polling && |job.batch| > 0
    ensures var w := Run(log, history);
            Run(log, history + [WriteFile] + [Crash])
            == w.(lake := AppendedLake(|log|, w.lake, job, BeforeSwap), process := Down)
  {
    WriteTrace(log, history, job);
    RunSnoc(log, history + [WriteFile], Crash);
  }

  lemma CrashAfter(log: Log, history: seq<Step>, job: Job)
    requires Run(log, history).process == Up(job) && job.phase == Polling && |job.batch| > 0
    ensures var w := Run(log, history);
            Run(log, history + [WriteFile] + [Swap] + [Crash])
            == w.(lake := AppendedLake(|log|, w.lake, job, AfterSwap), process := Down)
  {
    SwapTrace(log, history, job);
    var w := Run(log, history);
    CrashedLake(log, history + [WriteFile] + [Swap], w, AppendedLake(|log|, w.lake, job, AfterSwap),
                Up(job.(phase := Swapped(Ahead(|log|, job.lateness, job.state, job.batch)))));
  }

  /** From one history to a longer one in which the job is not restarted. */
  ghost predicate Extends(before: seq<Step>, after: seq<Step>) {
    before <= after && forall i | |before| <= i < |after| :: !after[i].Start?
  }

  // ------------------------------------------------------- the loop, as it should go

  /** The loop's variables. */
  datatype Loop = Loop(batch: seq<Record>, lastFlush: int, lastMsg: int, committed: nat)

  function Flushed(l: Loop, now: int): Loop { l.(batch := [], lastFlush := now, committed := l.committed + 1) }

  predicate Idle(l: Loop, now: int, idleExitMs: int) { idleExitMs != 0 && now - l.lastMsg >= idleExitMs }

  /** A batch is flushed when it is overdue, full after a record, or left over when the job goes idle. */
  predicate FlushDue(c: Config, l: Loop, silent: bool, now: int, idleExitMs: int) {
    && |l.batch| > 0
    && (now - l.lastFlush >= c.batchMaxMs
        || (if silent then Idle(l, now, idleExitMs) else |l.batch| >= c.batchMaxEvents))
  }

  /** What one turn leaves: the loop's variables, the machine's steps, and the exit if there is one. */
  datatype Turn = Turn(loop: Loop, steps: seq<Step>, exit: Option<Outcome>)

  /** The rest of a turn once the message, if any, is in the batch: at most one flush, then the exit tests. */
  function Settle(c: Config, l: Loop, silent: bool, now: int, fault: Fault, idleExitMs: int, maxBatches: int): Turn {
    var due := FlushDue(c, l, silent, now, idleExitMs);
    if due && fault != NoFault then Turn(l, AppendSteps(fault), Some(Raised))
    else
      var l' := if due then Flushed(l, now) else l;
      Turn(l', if due then AppendSteps(NoFault) else [],
           if (silent && Idle(l, now, idleExitMs)) || (due && maxBatches != 0 && l'.committed >= maxBatches)
           then Some(Returned(l'.committed)) else None)
  }

  /** A run of the loop so far: its variables, the consumer position, the machine's steps, the exit. */
  datatype Life = Life(loop: Loop, next: Counts, steps: seq<Step>, exit: Option<Outcome>)

  function MessageFor(topic: Log, next: Counts, arrival: Arrival): Message {
    match arrival
    case Silence => Nothing
    case BrokerError => Failed
    case Next(p) =>
      if p < |topic| && p < |next| && next[p] < |topic[p]| then Delivered(p, topic[p][next[p]]) else Nothing
  }

  predicate Poisoned(m: Message) { m.Delivered? && m.entry.Bad? }

  /** The loop's variables with the message taken in. */
  function Received(l: Loop, m: Message, now: int): Loop {
    if m.Delivered? && m.entry.Good?
    then l.(batch := l.batch + [Record(m.p, m.entry.offset, m.entry.event)], lastMsg := now)
    else l
  }

  function PollSteps(m: Message): seq<Step> {
    if m.Delivered? then [Produce(m.p)] + [Step.Poll(m.p)] else []
  }

  function Position(next: Counts, m: Message): Counts {
    if m.Delivered? && m.p < |next| then Advance(next, m.p) else next
  }

  /** An escape on a poisoned record, nothing on a broker error, else the message taken in and the turn settled. */
  function RestOfTurn(c: Config, l: Loop, m: Message, t: Tick, idleExitMs: int, maxBatches: int): Turn {
    if Poisoned(m) then Turn(l, [], Some(Raised))
    else if m.Failed? then Turn(l, [], None)
    else Settle(c, Received(l, m, t.now), m.Nothing?, t.now, t.fault, idleExitMs, maxBatches)
  }

  /** One tick: the poll and the rest of the turn. */
  function AfterTick(c: Config, topic: Log, s: Life, t: Tick, idleExitMs: int, maxBatches: int): Life {
    var m := MessageFor(topic, s.next, t.arrival);
    var turn := RestOfTurn(c, s.loop, m, t, idleExitMs, maxBatches);
    Life(turn.loop, Position(s.next, m), s.steps + PollSteps(m) + turn.steps, turn.exit)
  }

  /** The whole script; what follows an exit is not looked at. */
  function AfterScript(c: Config, topic: Log, s: Life, script: seq<Tick>, idleExitMs: int, maxBatches: int): Life {
    if |script| == 0 then s
    else
      var before := AfterScript(c, topic, s, script[..|script| - 1], idleExitMs, maxBatches);
      if before.exit.Some? then before
      else AfterTick(c, topic, before, script[|script| - 1], idleExitMs, maxBatches)
  }

  function NewLife(next: Counts, flushClock: int, msgClock: int): Life {
    Life(Loop([], flushClock, msgClock, 0), next, [], None)
  }

  /** The positions after polling a script's arrivals one by one, whatever the loop does with them. */
  function Polled(topic: Log, next: Counts, script: seq<Tick>): Counts {
    if |script| == 0 then next
    else
      var before := Polled(topic, next, script[..|script| - 1]);
      Position(before, MessageFor(topic, before, script[|script| - 1].arrival))
  }

  /**
   The run that consumed n ticks of the script: it polled exactly their arrivals, it went as
   the loop should, and it ended at the first tick with an exit or was killed after the last.
   */
  ghost predicate PlayedOut(c: Config, topic: Log, s: Life, script: seq<Tick>, idleExitMs: int, maxBatches: int,
                            n: nat, r: Outcome, next: Counts, start: seq<Step>, history: seq<Step>)
  {
    && n <= |script|
    && var end := AfterScript(c, topic, s, script[..n], idleExitMs, maxBatches);
       && next == end.next == Polled(topic, s.next, script[..n])
       && (r == Killed ==> n == |script| && end.exit.None? && history == start + end.steps + [Crash])
       && (r != Killed ==>
             && n > 0 && AfterScript(c, topic, s, script[..n - 1], idleExitMs, maxBatches).exit.None?
             && end.exit == Some(r) && history == start + end.steps)
  }

  lemma ScriptSnoc(c: Config, topic: Log, s: Life, script: seq<Tick>, i: nat, idleExitMs: int, maxBatches: int)
    requires i < |script| && AfterScript(c, topic, s, script[..i], idleExitMs, maxBatches).exit.None?
    ensures AfterScript(c, topic, s, script[..i + 1], idleExitMs, maxBatches)
         == AfterTick(c, topic, AfterScript(c, topic, s, script[..i], idleExitMs, maxBatches), script[i],
                      idleExitMs, maxBatches)
  {
    assert script[..i + 1][..i] == script[..i];
  }

  /** When a tick ends the run, and how. */
  lemma ExitsExactlyWhen(c: Config, topic: Log, s: Life, t: Tick, idleExitMs: int, maxBatches: int)
    ensures var m := MessageFor(topic, s.next, t.arrival);
            var l := Received(s.loop, m, t.now);
            var taken := !m.Failed? && !Poisoned(m);
            var due := taken && FlushDue(c, l, m.Nothing?, t.now, idleExitMs);
            var committed := s.loop.committed + if due then 1 else 0;
            var end := AfterTick(c, topic, s, t, idleExitMs, maxBatches);
            && (end.exit == Some(Raised) <==> Poisoned(m) || (due && t.fault != NoFault))
            && ((exists k :: end.exit == Some(Returned(k)))
                <==> taken && (due ==> t.fault == NoFault)
                     && ((m.Nothing? && Idle(l, t.now, idleExitMs))
                         || (due && maxBatches != 0 && committed >= maxBatches)))
            && end.exit != Some(Killed)
            && (end.exit.Some? && end.exit.value.Returned? ==> end.exit.value.committed == committed)
            && (end.exit.None? ==> end.loop.committed == committed && end.loop.batch == if due then [] else l.batch)
  {
    var end := AfterTick(c, topic, s, t, idleExitMs, maxBatches);
    assert end.exit.Some? && end.exit.value.Returned? ==> end.exit == Some(Returned(end.exit.value.committed));
  }

  /** Up to its exit the loop polls every arrival once and nothing else. */
  lemma {:induction false} PollsEveryArrival(c: Config, topic: Log, s: Life, script: seq<Tick>,
                                             idleExitMs: int, maxBatches: int)
    requires s.exit.None?
    requires |script| > 0 ==>
               AfterScript(c, topic, s, script[..|script| - 1], idleExitMs, maxBatches).exit.None?
    ensures AfterScript(c, topic, s, script, idleExitMs, maxBatches).next == Polled(topic, s.next, script)
  {
    if |script| > 0 {
      var init := script[..|script| - 1];
      StillRunning(c, topic, s, init, idleExitMs, maxBatches);
      PollsEveryArrival(c, topic, s, init, idleExitMs, maxBatches);
    }
  }

  lemma StillRunning(c: Config, topic: Log, s: Life, script: seq<Tick>, idleExitMs: int, maxBatches: int)
    requires AfterScript(c, topic, s, script, idleExitMs, maxBatches).exit.None?
    ensures |script| > 0 ==>
              AfterScript(c, topic, s, script[..|script| - 1], idleExitMs, maxBatches).exit.None?
  {
  }

  lemma PollsSoFar(c: Config, topic: Log, s: Life, script: seq<Tick>, n: nat, idleExitMs: int, maxBatches: int)
    requires s.exit.None? && n <= |script|
    requires AfterScript(c, topic, s, script[..n], idleExitMs, maxBatches).exit.None?
             || (n > 0 && AfterScript(c, topic, s, script[..n - 1], idleExitMs, maxBatches).exit.None?)
    ensures AfterScript(c, topic, s, script[..n], idleExitMs, maxBatches).next == Polled(topic, s.next, script[..n])
  {
    assert n > 0 ==> script[..n][..n - 1] == script[..n - 1];
    if AfterScript(c, topic, s, script[..n], idleExitMs, maxBatches).exit.None? {
      StillRunning(c, topic, s, script[..n], idleExitMs, maxBatches);
    }
    PollsEveryArrival(c, topic, s, script[..n], idleExitMs, maxBatches);
  }

  lemma ExitPlayed(c: Config, topic: Log, first: Life, script: seq<Tick>, i: nat, idleExitMs: int, maxBatches: int,
                   s: Life, r: Outcome, start: seq<Step>)
    requires first.exit.None? && i < |script| && r != Killed && s.exit.None?
    requires s == AfterScript(c, topic, first, script[..i], idleExitMs, maxBatches)
    requires AfterTick(c, topic, s, script[i], idleExitMs, maxBatches).exit == Some(r)
    ensures var end := AfterTick(c, topic, s, script[i], idleExitMs, maxBatches);
            PlayedOut(c, topic, first, script, idleExitMs, maxBatches, i + 1, r, end.next, start, start + end.steps)
  {
    ScriptSnoc(c, topic, first, script, i, idleExitMs, maxBatches);
    PollsSoFar(c, topic, first, script, i + 1, idleExitMs, maxBatches);
  }

  lemma KillPlayed(c: Config, topic: Log, first: Life, script: seq<Tick>, idleExitMs: int, maxBatches: int,
                   start: seq<Step>)
    requires first.exit.None?
    requires AfterScript(c, topic, first, script[..|script|], idleExitMs, maxBatches).exit.None?
    ensures var end := AfterScript(c, topic, first, script[..|script|], idleExitMs, maxBatches);
            PlayedOut(c, topic, first, script, idleExitMs, maxBatches, |script|, Killed, end.next,
                      start, start + end.steps + [Crash])
  {
    PollsSoFar(c, topic, first, script, |script|, idleExitMs, maxBatches);
  }

  /** Flush points: no turn ends with a batch that is overdue or full. */
  lemma KeepsUp(c: Config, topic: Log, s: Life, t: Tick, idleExitMs: int, maxBatches: int)
    ensures var m := MessageFor(topic, s.next, t.arrival);
            var end := AfterTick(c, topic, s, t, idleExitMs, maxBatches);
            end.exit.None? && !m.Failed? && |end.loop.batch| > 0 ==>
              && t.now - end.loop.lastFlush < c.batchMaxMs
              && (m.Delivered? ==> |end.loop.batch| < c.batchMaxEvents)
              && end.loop.lastFlush == s.loop.lastFlush
  {
  }

  // ------------------------------------------------------------------ the job

  class LandingJob {
    const cfg: Config
    const topic: Log
    const tbl: OrdersTable
    var state: ResumeState
    var next: Counts       // consumer position
    var open: bool         // the consumer is not closed

    ghost function Live(batch: seq<Record>): Process
      reads this
    {
      Up(Job(cfg.latenessWindowMs, state, next, batch, Polling))
    }

    /** The table is what its history yields, and the history's process is this object with this batch. */
    ghost predicate InStep(batch: seq<Record>)
      reads this, tbl
    {
      && tbl.Valid() && tbl.topic == topic && |next| == |topic|
      && tbl.Reached().process == Live(batch)
    }

    /** Resumes from the current snapshot, whatever state an earlier process left the table in. */
    constructor (cfg: Config, topic: Log, tbl: OrdersTable)
      requires tbl.Valid() && tbl.topic == topic
      modifies tbl`history
      ensures this.cfg == cfg && this.topic == topic && this.tbl == tbl && open
      ensures InStep([])
      ensures tbl.history == old(tbl.history) + [Crash] + [Start(cfg.latenessWindowMs)]
      ensures state == Durable(tbl.Contents()) && next == Committed(topic, tbl.Reached())
    {
      this.cfg, this.topic, this.tbl := cfg, topic, tbl;
      RunInv(topic, tbl.history);
      var resumed := ReadResumeState(tbl.Contents().CurrentProps()).value;
      state := resumed;
      next := Positions(topic, resumed.offsets);
      open := true;
      RestartResumes(topic, tbl.history, cfg.latenessWindowMs);
      tbl.history := tbl.history + [Crash] + [Start(cfg.latenessWindowMs)];
    }

    /** consumer.poll, with the history of the broker and the process brought along. */
    method Poll(arrival: Arrival, ghost batch: seq<Record>) returns (m: Message)
      requires InStep(batch)
      modifies this`next, tbl`history
      ensures Extends(old(tbl.history), tbl.history) && tbl.Valid()
      ensures m == MessageFor(topic, old(next), arrival) && next == Position(old(next), m)
      ensures tbl.history == old(tbl.history) + PollSteps(m)
      ensures Poisoned(m) ==> tbl.Reached().process.Down?
      ensures m.Delivered? && m.entry.Good? ==> InStep(batch + [Record(m.p, m.entry.offset, m.entry.event)])
      ensures !m.Delivered? ==> InStep(batch)
    {
      match arrival
      case Silence => m := Nothing;
      case BrokerError => m := Failed;
      case Next(p) =>
        if p < |topic| && next[p] < |topic[p]| {
          PollTrace(topic, tbl.history, Live(batch).job, p);
          m := Delivered(p, topic[p][next[p]]);
          next := Advance(next, p);
          assert tbl.history + PollSteps(m) == tbl.history + [Produce(p)] + [Step.Poll(p)];
          tbl.history := tbl.history + PollSteps(m);
        } else {
          m := Nothing;
        }
    }

    method CollectOffsets(batch: seq<Record>) returns (nextOffsets: map<int, int>)
      ensures nextOffsets == NextOffsets(state.offsets, batch)
    {
      nextOffsets := state.offsets;
      for i := 0 to |batch|
        invariant nextOffsets == NextOffsets(state.offsets, batch[..i])
      {
        var r := batch[i];
        assert batch[..i + 1][..i] == batch[..i];
        nextOffsets := nextOffsets[r.partition := Max(GetOr(nextOffsets, r.partition, -1), r.offset + 1)];
      }
      assert batch[..|batch|] == batch;
    }

    method CollectMaxima(batch: seq<Record>) returns (partMax: map<int, int>)
      ensures partMax == MergeMaxima(state.perPartitionMax, batch)
    {
      partMax := state.perPartitionMax;
      for i := 0 to |batch|
        invariant partMax == MergeMaxima(state.perPartitionMax, batch[..i])
      {
        var r := batch[i];
        assert batch[..i + 1][..i] == batch[..i];
        partMax := partMax[r.partition := Max(GetOr(partMax, r.partition, 0), r.event.eventTimeMs)];
      }
      assert batch[..|batch|] == batch;
    }

    /** Offsets, maxima, T and sequence number as they stand once the batch is committed. */
    method NextState(batch: seq<Record>) returns (ahead: ResumeState)
      ensures ahead == Ahead(|topic|, cfg.latenessWindowMs, state, batch)
    {
      var nextOffsets := CollectOffsets(batch);
      var partMax := CollectMaxima(batch);
      var t := ComputeWatermark(partMax, cfg.latenessWindowMs, state.watermarkT, Some(|topic|));
      ahead := ResumeState(nextOffsets, partMax, t, state.commitSeq + 1);
    }

    /** Writes the batch and stamps its progress in one append; the state advances only if the append returns. */
    method CommitBatch(batch: seq<Record>, fault: Fault) returns (ok: bool)
      requires InStep(batch) && |batch| > 0
      modifies this`state, tbl
      ensures ok <==> fault == NoFault
      ensures tbl.Valid() && tbl.history == old(tbl.history) + AppendSteps(fault)
      ensures tbl.Contents() == AppendedLake(|topic|, old(tbl.Contents()), old(Live(batch)).job, fault)
      ensures ok ==> InStep([]) && next == Committed(topic, tbl.Reached())
      ensures !ok ==> state == old(state) && tbl.Reached().process.Down?
    {
      var ahead := NextState(batch);
      ghost var job := Live(batch).job;
      AppendTrace(topic, tbl.history, job, fault);
      CommittedAfter(topic, tbl.history, job);
      ok := tbl.Append(BatchRows(batch), Stamp(ahead, cfg.latenessWindowMs, |batch|), fault);
      tbl.history := tbl.history + AppendSteps(fault);
      if ok {
        state := ahead;
      }
    }

    /** The largest batch a commit may hold. */
    function Cap(): nat { if cfg.batchMaxEvents > 1 then cfg.batchMaxEvents else 1 }

    /** What holds between two turns of the loop, counted from the table as run found it. */
    ghost predicate Looping(l: Loop, start: seq<Step>, base: seq<Snapshot>, maxBatches: int)
      reads this, tbl
    {
      && open && InStep(l.batch) && |l.batch| < Cap()
      && Progressed(tbl, start, base, Cap())
      && |tbl.snapshots| == |base| + l.committed
      && (maxBatches != 0 ==> l.committed < Max(1, maxBatches))
    }

    /** What holds once run is over, with the given outcome. */
    ghost predicate Finished(r: Outcome, start: seq<Step>, base: seq<Snapshot>, idleExitMs: int, maxBatches: int)
      reads this, tbl
    {
      && !open && Progressed(tbl, start, base, Cap())
      && (maxBatches != 0 ==> |tbl.snapshots| <= |base| + Max(1, maxBatches))
      && (r.Returned? ==>
            && InStep([]) && next == Committed(topic, tbl.Reached())
            && |tbl.snapshots| == |base| + r.committed
            && (idleExitMs != 0 || (maxBatches != 0 && r.committed >= maxBatches)))
      && (!r.Returned? ==> tbl.Reached().process.Down?)
    }

    /** A flush: one commit, after which the loop starts a new batch, unless the append raises. */
    method Flush(l: Loop, now: int, fault: Fault, ghost start: seq<Step>, ghost base: seq<Snapshot>)
      returns (l': Loop, ok: bool)
      requires open && InStep(l.batch) && 1 <= |l.batch| <= Cap()
      requires Progressed(tbl, start, base, Cap()) && |tbl.snapshots| == |base| + l.committed
      modifies this`state, this`open, tbl
      ensures l' == Flushed(l, now) && (ok <==> fault == NoFault)
      ensures tbl.history == old(tbl.history) + AppendSteps(fault)
      ensures Progressed(tbl, start, base, Cap()) && |tbl.snapshots| <= |base| + l.committed + 1
      ensures ok ==> open && InStep([]) && |tbl.snapshots| == |base| + l'.committed
      ensures !ok ==> !open && tbl.Reached().process.Down?
    {
      AppendExtends(start, tbl.history, fault);
      AppendProgress(|topic|, tbl.Contents(), Live(l.batch).job, fault, base, Cap());
      ok := CommitBatch(l.batch, fault);
      if !ok { open := false; }
      l' := Flushed(l, now);
    }

    /** Closes the consumer and returns, with nothing polled left uncommitted. */
    method Return(l: Loop, ghost start: seq<Step>, ghost base: seq<Snapshot>,
                  ghost idleExitMs: int, ghost maxBatches: int)
      returns (r: Outcome)
      requires open && InStep([]) && Progressed(tbl, start, base, Cap()) && |tbl.snapshots| == |base| + l.committed
      requires maxBatches != 0 ==> l.committed <= Max(1, maxBatches)
      requires idleExitMs != 0 || (maxBatches != 0 && l.committed >= maxBatches)
      modifies this`open
      ensures r == Returned(l.committed) && Finished(r, start, base, idleExitMs, maxBatches)
    {
      NothingPending(topic, tbl.history);
      open := false;
      r := Returned(l.committed);
    }

    /** A turn in which nothing arrived: a timed flush, then the idle exit. */
    method SilentTurn(l: Loop, now: int, fault: Fault, idleExitMs: int, maxBatches: int,
                      ghost start: seq<Step>, ghost base: seq<Snapshot>)
      returns (l': Loop, done: Option<Outcome>)
      requires Looping(l, start, base, maxBatches)
      modifies this`state, this`open, tbl
      ensures done.None? ==> Looping(l', start, base, maxBatches)
      ensures done.Some? ==> done.value != Killed && Finished(done.value, start, base, idleExitMs, maxBatches)
      ensures var turn := Settle(cfg, l, true, now, fault, idleExitMs, maxBatches);
              && done == turn.exit && (done.None? ==> l' == turn.loop)
              && tbl.history == old(tbl.history) + turn.steps
    {
      l' := l;
      if |l.batch| > 0 && now - l.lastFlush >= cfg.batchMaxMs {
        var ok;
        l', ok := Flush(l, now, fault, start, base);
        if !ok { return l', Some(Raised); }
        if maxBatches != 0 && l'.committed >= maxBatches {
          var r := Return(l', start, base, idleExitMs, maxBatches);
          return l', Some(r);
        }
      }
      if idleExitMs != 0 && now - l.lastMsg >= idleExitMs {
        if |l'.batch| > 0 {
          var ok;
          l', ok := Flush(l', now, fault, start, base);
          if !ok { return l', Some(Raised); }
        }
        var r := Return(l', start, base, idleExitMs, maxBatches);
        return l', Some(r);
      }
      done := None;
    }

    /** A turn in which a record was appended to the batch: a flush when it is full or overdue. */
    method RecordTurn(l: Loop, now: int, fault: Fault, ghost idleExitMs: int, maxBatches: int,
                      ghost start: seq<Step>, ghost base: seq<Snapshot>)
      returns (l': Loop, done: Option<Outcome>)
      requires open && InStep(l.batch) && 1 <= |l.batch| <= Cap()
      requires Progressed(tbl, start, base, Cap()) && |tbl.snapshots| == |base| + l.committed
      requires maxBatches != 0 ==> l.committed < Max(1, maxBatches)
      modifies this`state, this`open, tbl
      ensures done.None? ==> Looping(l', start, base, maxBatches)
      ensures done.Some? ==> done.value != Killed && Finished(done.value, start, base, idleExitMs, maxBatches)
      ensures var turn := Settle(cfg, l, false, now, fault, idleExitMs, maxBatches);
              && done == turn.exit && (done.None? ==> l' == turn.loop)
              && tbl.history == old(tbl.history) + turn.steps
    {
      l' := l;
      if |l.batch| >= cfg.batchMaxEvents || now - l.lastFlush >= cfg.batchMaxMs {
        var ok;
        l', ok := Flush(l, now, fault, start, base);
        if !ok { return l', Some(Raised); }
        if maxBatches != 0 && l'.committed >= maxBatches {
          var r := Return(l', start, base, idleExitMs, maxBatches);
          return l', Some(r);
        }
      }
      done := None;
    }

    /**
     Consumes and commits micro-batches until a limit is reached, an exception escapes, or
     the script ends because the process is killed; n is how many ticks it consumed.
     */
    method Run(script: seq<Tick>, idleExitMs: int, maxBatches: int, flushClock: int, msgClock: int)
      returns (r: Outcome, ghost n: nat)
      requires open ==> InStep([])
      requires tbl.Valid()
      modifies this, tbl
      ensures tbl.Valid()
      ensures !old(open) ==> r == Raised && tbl.history == old(tbl.history) && tbl.Contents() == old(tbl.Contents())
      ensures old(open) ==>
                PlayedOut(cfg, topic, NewLife(old(next), flushClock, msgClock), script, idleExitMs, maxBatches,
                          n, r, next, old(tbl.history), tbl.history)
      ensures old(open) ==> Finished(r, old(tbl.history), old(tbl.snapshots), idleExitMs, maxBatches)
      ensures old(open) && r == Killed ==> |next| == |topic| && Pending(topic, tbl.Reached(), next) < Cap()
    {
      n := 0;
      if !open { return Raised, n; }
      ghost var start, base := tbl.history, tbl.snapshots;
      ghost var first := NewLife(next, flushClock, msgClock);
      ghost var s := first;
      var l := Loop([], flushClock, msgClock, 0);
      for i := 0 to |script|
        invariant Looping(l, start, base, maxBatches)
        invariant s == AfterScript(cfg, topic, first, script[..i], idleExitMs, maxBatches) && s.exit.None?
        invariant l == s.loop && next == s.next && tbl.history == start + s.steps
      {
        var done;
        l, done := OneTurn(script[i], l, idleExitMs, maxBatches, start, base, s);
        ScriptSnoc(cfg, topic, first, script, i, idleExitMs, maxBatches);
        if done.Some? {
          ExitPlayed(cfg, topic, first, script, i, idleExitMs, maxBatches, s, done.value, start);
          return done.value, i + 1;
        }
        s := AfterTick(cfg, topic, s, script[i], idleExitMs, maxBatches);
      }
      KillPlayed(cfg, topic, first, script, idleExitMs, maxBatches, start);
      PendingIsBatch(topic, tbl.history);
      CrashLake(topic, tbl.history);
      tbl.history := tbl.history + [Crash];
      open := false;
      return Killed, |script|;
    }

    /** One pass of the loop: a poll, and what its result calls for. */
    method OneTurn(t: Tick, l: Loop, idleExitMs: int, maxBatches: int,
                   ghost start: seq<Step>, ghost base: seq<Snapshot>, ghost s: Life)
      returns (l': Loop, done: Option<Outcome>)
      requires Looping(l, start, base, maxBatches)
      requires s.exit.None? && l == s.loop && next == s.next && tbl.history == start + s.steps
      modifies this`next, this`state, this`open, tbl
      ensures var end := AfterTick(cfg, topic, s, t, idleExitMs, maxBatches);
              && done == end.exit && next == end.next && tbl.history == start + end.steps
              && (done.None? ==> l' == end.loop)
      ensures done.None? ==> Looping(l', start, base, maxBatches)
      ensures done.Some? ==> done.value != Killed && Finished(done.value, start, base, idleExitMs, maxBatches)
    {
      var m := Poll(t.arrival, l.batch);
      ghost var turn := RestOfTurn(cfg, l, m, t, idleExitMs, maxBatches);
      ThreeParts(start, s.steps, PollSteps(m), turn.steps);
      if m.Delivered? && m.entry.Bad? {
        open := false;
        return l, Some(Raised);
      }
      l', done := Proceed(m, t, l, idleExitMs, maxBatches, start, base);
    }

    /** What follows a poll that yielded no poisoned record. */
    method Proceed(m: Message, t: Tick, l: Loop, idleExitMs: int, maxBatches: int,
                   ghost start: seq<Step>, ghost base: seq<Snapshot>)
      returns (l': Loop, done: Option<Outcome>)
      requires !Poisoned(m) && open && InStep(Received(l, m, t.now).batch) && |l.batch| < Cap()
      requires Progressed(tbl, start, base, Cap()) && |tbl.snapshots| == |base| + l.committed
      requires maxBatches != 0 ==> l.committed < Max(1, maxBatches)
      modifies this`state, this`open, tbl
      ensures var turn := RestOfTurn(cfg, l, m, t, idleExitMs, maxBatches);
              && done == turn.exit && tbl.history == old(tbl.history) + turn.steps && (done.None? ==> l' == turn.loop)
      ensures done.None? ==> Looping(l', start, base, maxBatches)
      ensures done.Some? ==> done.value != Killed && Finished(done.value, start, base, idleExitMs, maxBatches)
    {
      match m
      case Nothing =>
        l', done := SilentTurn(l, t.now, t.fault, idleExitMs, maxBatches, start, base);
      case Failed =>
        l', done := l, None;
      case Delivered(p, entry) =>
        l' := l.(batch := l.batch + [Record(p, entry.offset, entry.event)], lastMsg := t.now);
        l', done := RecordTurn(l', t.now, t.fault, idleExitMs, maxBatches, start, base);
    }
  }

  lemma ThreeParts(start: seq<Step>, a: seq<Step>, b: seq<Step>, c: seq<Step>)
    ensures start + a + b + c == start + (a + b + c)
  {
  }

  /** The table moved on from the given history and snapshots, by commits of 1 to cap rows each. */
  ghost predicate Progressed(tbl: OrdersTable, start: seq<Step>, base: seq<Snapshot>, cap: int)
    reads tbl
  {
    tbl.Valid() && Extends(start, tbl.history) && base <= tbl.snapshots
    && BatchesWithin(tbl.Contents(), |base|, cap)
  }

  /** Entries consumed but not committed. */
  function Pending(log: Log, w: World, next: Counts): int
    requires |next| == |log|
  {
    Sum(next, |log|) - Sum(Committed(log, w), |log|)
  }

  /** The batch holds every consumed entry that is not committed. */
  lemma PendingIsBatch(log: Log, history: seq<Step>)
    requires WellFormed(log)
    ensures var w := Protocol.Run(log, history);
            w.process.Up? && w.process.job.phase == Polling ==>
              |w.process.job.next| == |log| && Pending(log, w, w.process.job.next) == |w.process.job.batch|
  {
    var w := Protocol.Run(log, history);
    RunInv(log, history);
    if w.process.Up? && w.process.job.phase == Polling {
      PendingSize(log, Durable(w.lake), Committed(log, w), w.process.job.batch, w.process.job.next);
    }
  }

  lemma PendingSize(log: Log, st: ResumeState, k: Counts, batch: seq<Record>, next: Counts)
    requires Within(log, k) && Within(log, next) && AllDecoded(log, k) && AllDecoded(log, next)
    requires BatchInv(log, st, k, batch, next)
    ensures Sum(next, |log|) == Sum(k, |log|) + |batch|
  {
    EventsOfSize(log, k, |log|);
    EventsOfSize(log, next, |log|);
    BatchRowsSize(batch);
    assert |multiset(BatchRows(batch))| == |BatchRows(batch)|;
  }

  /** Every snapshot from the given one on added a data file of 1 to cap rows. */
  ghost predicate BatchesWithin(lake: Lake, from: nat, cap: int) {
    forall i | from <= i < |lake.snapshots| :: LastFileWithin(lake.files, lake.snapshots[i].manifest, cap)
  }

  predicate LastFileWithin(files: seq<Rows>, manifest: seq<nat>, cap: int) {
    |manifest| > 0 && manifest[|manifest| - 1] < |files| && 1 <= |files[manifest[|manifest| - 1]]| <= cap
  }

  lemma OldFilesWithin(lake: Lake, more: seq<Rows>, from: nat, cap: int)
    requires BatchesWithin(lake, from, cap)
    ensures BatchesWithin(lake.(files := lake.files + more), from, cap)
  {
    forall i | from <= i < |lake.snapshots|
      ensures LastFileWithin(lake.files + more, lake.snapshots[i].manifest, cap)
    {
      assert LastFileWithin(lake.files, lake.snapshots[i].manifest, cap);
    }
  }

  lemma NewFileWithin(files: seq<Rows>, rows: Rows, manifest: seq<nat>, cap: int)
    requires 1 <= |rows| <= cap
    ensures LastFileWithin(files + [rows], manifest + [|files|], cap)
  {
  }

  lemma AppendWithin(partitions: nat, lake: Lake, job: Job, fault: Fault, from: nat, cap: int)
    requires BatchesWithin(lake, from, cap) && 1 <= |job.batch| <= cap
    ensures BatchesWithin(AppendedLake(partitions, lake, job, fault), from, cap)
  {
    BatchRowsSize(job.batch);
    OldFilesWithin(lake, if fault == BeforeWrite then [] else [BatchRows(job.batch)], from, cap);
    NewFileWithin(lake.files, BatchRows(job.batch), lake.CurrentManifest(), cap);
  }

  lemma AppendProgress(partitions: nat, lake: Lake, job: Job, fault: Fault, base: seq<Snapshot>, cap: int)
    requires base <= lake.snapshots && BatchesWithin(lake, |base|, cap) && 1 <= |job.batch| <= cap
    ensures var after := AppendedLake(partitions, lake, job, fault);
            && base <= after.snapshots && BatchesWithin(after, |base|, cap)
            && |lake.snapshots| <= |after.snapshots| <= |lake.snapshots| + 1
            && (fault == NoFault ==> |after.snapshots| == |lake.snapshots| + 1)
  {
    AppendWithin(partitions, lake, job, fault, |base|, cap);
  }

  lemma AppendExtends(start: seq<Step>, history: seq<Step>, fault: Fault)
    requires Extends(start, history)
    ensures Extends(start, history + AppendSteps(fault))
  {
  }

  /** With an empty batch the consumer stands exactly at the committed positions. */
  lemma NothingPending(log: Log, history: seq<Step>)
    requires WellFormed(log)
    ensures var w := Protocol.Run(log, history);
            w.process.Up? && w.process.job.phase == Polling && w.process.job.batch == [] ==>
              w.process.job.next == Committed(log, w)
  {
    var w := Protocol.Run(log, history);
    RunInv(log, history);
    if w.process.Up? && w.process.job.phase == Polling && w.process.job.batch == [] {
      PositionsOfOffsets(log, w.process.job.next);
    }
  }

  lemma CrashLake(log: Log, history: seq<Step>)
    ensures Protocol.Run(log, history + [Crash]).lake == Protocol.Run(log, history).lake
    ensures Protocol.Run(log, history + [Crash]).process == Down
  {
    RunSnoc(log, history, Crash);
  }

  lemma AckLake(log: Log, v: World)
    ensures Apply(log, v, Ack).lake == v.lake
  {
  }

  lemma SwapThenAck(log: Log, v: World)
    requires WellFormed(log) && Inv(log, v) && Swapping(v, Swap)
    ensures Committed(log, Apply(log, Apply(log, v, Swap), Ack)) == v.process.job.next
  {
    var u := Apply(log, v, Swap);
    SwapStep(log, v, Swap);
    AckLake(log, u);
    SameTable(log, u, Apply(log, u, Ack));
  }

  /** A commit leaves nothing polled behind. */
  lemma CommittedAfter(log: Log, history: seq<Step>, job: Job)
    requires WellFormed(log) && Run(log, history).process == Up(job) && job.phase == Polling && |job.batch| > 0
    ensures Committed(log, Run(log, history + AppendSteps(NoFault))) == job.next
  {
    WriteTrace(log, history, job);
    RunInv(log, history + [WriteFile]);
    SwapThenAck(log, Run(log, history + [WriteFile]));
    RunSnoc(log, history + [WriteFile], Swap);
    RunSnoc(log, history + [WriteFile] + [Swap], Ack);
    AppendStepsInOrder(history);
  }

  // ------------------------------------------------- what the table guarantees

  /** Any table the methods can produce is exactly-once, and its bookkeeping adds up. */
  lemma TableExactlyOnce(tbl: OrdersTable)
    requires tbl.Valid()
    ensures var k := Committed(tbl.topic, tbl.Reached());
            && multiset(VisibleRows(tbl.Contents())) == EventsUpTo(tbl.topic, k) && AllDecoded(tbl.topic, k)
            && Durable(tbl.Contents()).commitSeq == |tbl.snapshots|
            && StampedRows(tbl.snapshots) == |VisibleRows(tbl.Contents())| == Sum(k, |tbl.topic|)
  {
    ExactlyOnce(tbl.topic, tbl.history);
    Conservation(tbl.topic, tbl.history);
  }

  /** And the T its current snapshot carries is safe, if every job that opened it used a window of at least w. */
  lemma TableSafe(tbl: OrdersTable, w: int)
    requires tbl.Valid() && NonNegative(tbl.topic) && NothingExposed(tbl.topic, w) && WindowsAtLeast(tbl.history, w)
    ensures Settled(tbl.topic, Committed(tbl.topic, tbl.Reached()), PublishedT(tbl.Contents()))
  {
    WatermarkSafe(tbl.topic, tbl.history, w);
  }
}
