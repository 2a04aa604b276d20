/**
 When the landing loop commits and when it exits, said of the script alone: what was heard
 and when, and at which ticks the table gained a commit (lake/landing_job.py).
 */
module LoopTiming {
  import opened Broker
  import opened Landing
  import opened Protocol
  import opened Wrappers

  // ---------------------------------------------------------- reading a script

  /** The tick's arrival is an entry that is there to be polled. */
  predicate Arrives(topic: Log, pos: Counts, t: Tick) {
    t.arrival.Next? && t.arrival.p < |topic| && t.arrival.p < |pos| && pos[t.arrival.p] < |topic[t.arrival.p]|
  }

  /** A record arrives and decodes. */
  predicate Hears(topic: Log, pos: Counts, t: Tick) {
    Arrives(topic, pos, t) && topic[t.arrival.p][pos[t.arrival.p]].Good?
  }

  /** A record arrives and does not decode. */
  predicate Chokes(topic: Log, pos: Counts, t: Tick) {
    Arrives(topic, pos, t) && topic[t.arrival.p][pos[t.arrival.p]].Bad?
  }

  /** The poll times out: neither a record nor a broker error. */
  predicate Quiet(topic: Log, pos: Counts, t: Tick) { !t.arrival.BrokerError? && !Arrives(topic, pos, t) }

  /** Where the script's arrivals leave the consumer. */
  function Consumed(topic: Log, start: Counts, script: seq<Tick>): Counts {
    if |script| == 0 then start
    else
      var pos, t := Consumed(topic, start, script[..|script| - 1]), script[|script| - 1];
      if Arrives(topic, pos, t) then pos[t.arrival.p := pos[t.arrival.p] + 1] else pos
  }

  /** The clock of the last tick that heard a record, or of the start of the run. */
  function LastHeard(topic: Log, start: Counts, script: seq<Tick>, msgClock: int): int {
    if |script| == 0 then msgClock
    else
      var init, t := script[..|script| - 1], script[|script| - 1];
      if Hears(topic, Consumed(topic, start, init), t) then t.now else LastHeard(topic, start, init, msgClock)
  }

  /** Commits completed among the machine's steps. */
  function Commits(steps: seq<Step>): nat {
    if |steps| == 0 then 0 else Commits(steps[..|steps| - 1]) + if steps[|steps| - 1] == Ack then 1 else 0
  }

  /** A run of the loop: its configuration and where and when it starts. */
  datatype Setting = Setting(
    cfg: Config, topic: Log, start: Counts, flushClock: int, msgClock: int, idleExitMs: int, maxBatches: int)

  function RunOn(g: Setting, script: seq<Tick>): Life {
    AfterScript(g.cfg, g.topic, NewLife(g.start, g.flushClock, g.msgClock), script, g.idleExitMs, g.maxBatches)
  }

  /** How many commits the run has made by the end of the script. */
  function Made(g: Setting, script: seq<Tick>): nat { Commits(RunOn(g, script).steps) }

  predicate CommitsAtLast(g: Setting, script: seq<Tick>)
    requires |script| > 0
  {
    Made(g, script) > Made(g, script[..|script| - 1])
  }

  /** The clock of the last tick at which a commit was made, or of the start of the run. */
  function CommitClock(g: Setting, script: seq<Tick>): int {
    if |script| == 0 then g.flushClock
    else if CommitsAtLast(g, script) then script[|script| - 1].now
    else CommitClock(g, script[..|script| - 1])
  }

  /** How many records were heard since that tick. */
  function Waiting(g: Setting, script: seq<Tick>): nat {
    if |script| == 0 || CommitsAtLast(g, script) then 0
    else
      var init, t := script[..|script| - 1], script[|script| - 1];
      Waiting(g, init) + if Hears(g.topic, Consumed(g.topic, g.start, init), t) then 1 else 0
  }

  // ------------------------------------------------------------ counting commits

  lemma {:induction false} CommitsConcat(a: seq<Step>, b: seq<Step>)
    ensures Commits(a + b) == Commits(a) + Commits(b)
  {
    if |b| == 0 {
      assert a + b == a;
    } else {
      CommitsConcat(a, b[..|b| - 1]);
      assert (a + b)[..|a + b| - 1] == a + b[..|b| - 1];
    }
  }

  lemma CommitsSnoc(a: seq<Step>, s: Step)
    ensures Commits(a + [s]) == Commits(a) + if s == Ack then 1 else 0
  {
    assert (a + [s])[..|a|] == a;
  }

  lemma CommitsOfAppend(fault: Fault)
    ensures Commits(AppendSteps(fault)) == if fault == NoFault then 1 else 0
  {
    CommitsSnoc([], WriteFile);
    CommitsSnoc([], Crash);
    CommitsSnoc([WriteFile], Swap);
    CommitsSnoc([WriteFile], Crash);
    CommitsSnoc([WriteFile, Swap], Ack);
    CommitsSnoc([WriteFile, Swap], Crash);
    assert [] + [WriteFile] == [WriteFile] && [] + [Crash] == [Crash] && [WriteFile] + [Swap] == [WriteFile, Swap];
    assert [WriteFile] + [Crash] == [WriteFile, Crash];
    assert [WriteFile, Swap] + [Ack] == [WriteFile, Swap, Ack];
    assert [WriteFile, Swap] + [Crash] == [WriteFile, Swap, Crash];
  }

  lemma CommitsOfPoll(m: Message)
    ensures Commits(PollSteps(m)) == 0
  {
    if m.Delivered? {
      CommitsSnoc([], Produce(m.p));
      CommitsSnoc([Produce(m.p)], Step.Poll(m.p));
      assert [] + [Produce(m.p)] == [Produce(m.p)];
    }
  }

  // ------------------------------------------------ the loop's variables, from outside

  predicate Agrees(s: Life, pos: Counts, lastHeard: int, commitClock: int, waiting: nat, made: nat) {
    && s.next == pos && s.loop.lastMsg == lastHeard && s.loop.lastFlush == commitClock
    && |s.loop.batch| == waiting && s.loop.committed == made
  }

  /** The loop's variables are what the script and the table's history say they are. */
  ghost predicate Accounted(g: Setting, script: seq<Tick>) {
    Agrees(RunOn(g, script), Consumed(g.topic, g.start, script), LastHeard(g.topic, g.start, script, g.msgClock),
           CommitClock(g, script), Waiting(g, script), Made(g, script))
  }

  /** A batch is waiting and its time has come. */
  ghost predicate Due(g: Setting, init: seq<Tick>, t: Tick) {
    var pos := Consumed(g.topic, g.start, init);
    var pending := Waiting(g, init) + if Hears(g.topic, pos, t) then 1 else 0;
    && (Hears(g.topic, pos, t) || Quiet(g.topic, pos, t)) && pending > 0
    && (t.now - CommitClock(g, init) >= g.cfg.batchMaxMs
        || (Hears(g.topic, pos, t) && pending >= g.cfg.batchMaxEvents)
        || GoesIdle(g, init, t))
  }

  /** Nothing was heard for as long as the run may wait. */
  ghost predicate GoesIdle(g: Setting, init: seq<Tick>, t: Tick) {
    && Quiet(g.topic, Consumed(g.topic, g.start, init), t)
    && g.idleExitMs != 0 && t.now - LastHeard(g.topic, g.start, init, g.msgClock) >= g.idleExitMs
  }

  lemma LastTick(g: Setting, script: seq<Tick>)
    requires |script| > 0 && RunOn(g, script[..|script| - 1]).exit.None?
    ensures RunOn(g, script)
         == AfterTick(g.cfg, g.topic, RunOn(g, script[..|script| - 1]), script[|script| - 1],
                      g.idleExitMs, g.maxBatches)
  {
  }

  lemma PollMatches(topic: Log, pos: Counts, t: Tick)
    ensures var m := MessageFor(topic, pos, t.arrival);
            && (m.Nothing? <==> Quiet(topic, pos, t)) && (m.Failed? <==> t.arrival.BrokerError?)
            && (Poisoned(m) <==> Chokes(topic, pos, t))
            && (m.Delivered? && m.entry.Good? <==> Hears(topic, pos, t))
            && Position(pos, m) == if Arrives(topic, pos, t) then pos[t.arrival.p := pos[t.arrival.p] + 1] else pos
  {
  }

  /** The flush test of the turn, seen from outside. */
  lemma DueMatches(g: Setting, init: seq<Tick>, t: Tick)
    requires Accounted(g, init)
    ensures var s := RunOn(g, init);
            var m := MessageFor(g.topic, s.next, t.arrival);
            && (Due(g, init, t)
                <==> !m.Failed? && !Poisoned(m)
                     && FlushDue(g.cfg, Received(s.loop, m, t.now), m.Nothing?, t.now, g.idleExitMs))
            && (GoesIdle(g, init, t) <==> m.Nothing? && Idle(s.loop, t.now, g.idleExitMs))
  {
    PollMatches(g.topic, RunOn(g, init).next, t);
  }

  lemma TurnCommits(c: Config, l: Loop, m: Message, t: Tick, idleExitMs: int, maxBatches: int)
    ensures var turn := RestOfTurn(c, l, m, t, idleExitMs, maxBatches);
            var due := !m.Failed? && !Poisoned(m)
                       && FlushDue(c, Received(l, m, t.now), m.Nothing?, t.now, idleExitMs);
            Commits(turn.steps) == if due && t.fault == NoFault then 1 else 0
  {
    CommitsOfAppend(t.fault);
    CommitsOfAppend(NoFault);
  }

  lemma TickCommits(g: Setting, init: seq<Tick>, t: Tick)
    requires RunOn(g, init).exit.None? && Accounted(g, init)
    ensures Commits(AfterTick(g.cfg, g.topic, RunOn(g, init), t, g.idleExitMs, g.maxBatches).steps)
         == Made(g, init) + if Due(g, init, t) && t.fault == NoFault then 1 else 0
  {
    var s := RunOn(g, init);
    var m := MessageFor(g.topic, s.next, t.arrival);
    var turn := RestOfTurn(g.cfg, s.loop, m, t, g.idleExitMs, g.maxBatches);
    DueMatches(g, init, t);
    CommitsConcat(s.steps + PollSteps(m), turn.steps);
    CommitsConcat(s.steps, PollSteps(m));
    CommitsOfPoll(m);
    TurnCommits(g.cfg, s.loop, m, t, g.idleExitMs, g.maxBatches);
  }

  lemma TurnExits(c: Config, l: Loop, m: Message, t: Tick, idleExitMs: int, maxBatches: int,
                  due: bool, idle: bool, made: nat)
    requires due <==> !m.Failed? && !Poisoned(m)
                      && FlushDue(c, Received(l, m, t.now), m.Nothing?, t.now, idleExitMs)
    requires (idle <==> m.Nothing? && Idle(l, t.now, idleExitMs)) && made == l.committed + if due then 1 else 0
    ensures RestOfTurn(c, l, m, t, idleExitMs, maxBatches).exit
         == if Poisoned(m) || (due && t.fault != NoFault) then Some(Raised)
            else if idle || (due && maxBatches != 0 && made >= maxBatches) then Some(Returned(made)) else None
  {
  }

  /** What one tick does to the counts, given what the variables stand for before it. */
  lemma OneTick(g: Setting, init: seq<Tick>, t: Tick, end: Life)
    requires RunOn(g, init).exit.None? && Accounted(g, init)
    requires end == AfterTick(g.cfg, g.topic, RunOn(g, init), t, g.idleExitMs, g.maxBatches)
    ensures Commits(end.steps) == Made(g, init) + if Due(g, init, t) && t.fault == NoFault then 1 else 0
    ensures end.exit == Some(Raised)
            <==> Chokes(g.topic, Consumed(g.topic, g.start, init), t) || (Due(g, init, t) && t.fault != NoFault)
    ensures forall k :: (end.exit == Some(Returned(k))
                         <==> end.exit != Some(Raised) && k == Commits(end.steps)
                              && (GoesIdle(g, init, t)
                                  || (Due(g, init, t) && g.maxBatches != 0 && Commits(end.steps) >= g.maxBatches)))
    ensures end.exit != Some(Killed)
  {
    var s := RunOn(g, init);
    var m := MessageFor(g.topic, s.next, t.arrival);
    var due := Due(g, init, t);
    PollMatches(g.topic, s.next, t);
    DueMatches(g, init, t);
    TickCommits(g, init, t);
    TurnExits(g.cfg, s.loop, m, t, g.idleExitMs, g.maxBatches, due, GoesIdle(g, init, t),
              Made(g, init) + if due then 1 else 0);
  }

  /** The loop's variables after a turn that goes on. */
  lemma TurnGoesOn(c: Config, l: Loop, m: Message, t: Tick, idleExitMs: int, maxBatches: int, due: bool, heard: bool)
    requires due <==> !m.Failed? && !Poisoned(m)
                      && FlushDue(c, Received(l, m, t.now), m.Nothing?, t.now, idleExitMs)
    requires heard <==> m.Delivered? && m.entry.Good?
    requires RestOfTurn(c, l, m, t, idleExitMs, maxBatches).exit.None?
    ensures var end := RestOfTurn(c, l, m, t, idleExitMs, maxBatches).loop;
            && (due ==> t.fault == NoFault)
            && end.lastMsg == (if heard then t.now else l.lastMsg)
            && end.lastFlush == (if due then t.now else l.lastFlush)
            && |end.batch| == (if due then 0 else |l.batch| + if heard then 1 else 0)
            && end.committed == l.committed + if due then 1 else 0
  {
  }

  /** The script's own account of one more tick. */
  lemma ScriptGoesOn(g: Setting, init: seq<Tick>, t: Tick, commits: bool)
    requires commits <==> Made(g, init + [t]) > Made(g, init)
    ensures var pos, script := Consumed(g.topic, g.start, init), init + [t];
            && Consumed(g.topic, g.start, script)
               == (if Arrives(g.topic, pos, t) then pos[t.arrival.p := pos[t.arrival.p] + 1] else pos)
            && LastHeard(g.topic, g.start, script, g.msgClock)
               == (if Hears(g.topic, pos, t) then t.now else LastHeard(g.topic, g.start, init, g.msgClock))
            && CommitClock(g, script) == (if commits then t.now else CommitClock(g, init))
            && Waiting(g, script)
               == (if commits then 0 else Waiting(g, init) + if Hears(g.topic, pos, t) then 1 else 0)
  {
    assert (init + [t])[..|init|] == init;
  }

  /** The loop's variables after one more tick, in the script's terms. */
  lemma EndAgrees(g: Setting, init: seq<Tick>, t: Tick, end: Life)
    requires RunOn(g, init).exit.None? && Accounted(g, init) && end.exit.None?
    requires end == AfterTick(g.cfg, g.topic, RunOn(g, init), t, g.idleExitMs, g.maxBatches)
    ensures var pos, due := Consumed(g.topic, g.start, init), Due(g, init, t);
            && (due ==> t.fault == NoFault)
            && Agrees(end, if Arrives(g.topic, pos, t) then pos[t.arrival.p := pos[t.arrival.p] + 1] else pos,
                      if Hears(g.topic, pos, t) then t.now else LastHeard(g.topic, g.start, init, g.msgClock),
                      if due then t.now else CommitClock(g, init),
                      if due then 0 else Waiting(g, init) + if Hears(g.topic, pos, t) then 1 else 0,
                      Made(g, init) + if due then 1 else 0)
  {
    var s := RunOn(g, init);
    PollMatches(g.topic, s.next, t);
    DueMatches(g, init, t);
    TurnGoesOn(g.cfg, s.loop, MessageFor(g.topic, s.next, t.arrival), t, g.idleExitMs, g.maxBatches,
               Due(g, init, t), Hears(g.topic, s.next, t));
  }

  lemma StillAccounted(g: Setting, init: seq<Tick>, t: Tick, end: Life)
    requires RunOn(g, init).exit.None? && Accounted(g, init) && end.exit.None?
    requires end == AfterTick(g.cfg, g.topic, RunOn(g, init), t, g.idleExitMs, g.maxBatches)
    requires RunOn(g, init + [t]) == end
    ensures Accounted(g, init + [t])
  {
    TickCommits(g, init, t);
    EndAgrees(g, init, t, end);
    ScriptGoesOn(g, init, t, Due(g, init, t));
  }

  lemma {:induction false} LoopIsAccounted(g: Setting, script: seq<Tick>)
    requires RunOn(g, script).exit.None?
    ensures Accounted(g, script)
  {
    if |script| > 0 {
      var init, t := script[..|script| - 1], script[|script| - 1];
      assert script == init + [t];
      LoopIsAccounted(g, init);
      LastTick(g, script);
      StillAccounted(g, init, t, RunOn(g, script));
    }
  }

  // ---------------------------------------------------------------- main results

  /**
   A commit is made at a tick if and only if records are waiting and the time since the last
   commit, the number waiting, or idleness says so, and the append works; the run raises and
   returns at a tick if and only if the script and the commits made say so.
   */
  lemma CommitsAndExitsExactlyWhen(g: Setting, init: seq<Tick>, t: Tick)
    requires RunOn(g, init).exit.None?
    ensures var exit, made := RunOn(g, init + [t]).exit, Made(g, init + [t]);
            && made == Made(g, init) + (if Due(g, init, t) && t.fault == NoFault then 1 else 0)
            && (exit == Some(Raised)
                <==> Chokes(g.topic, Consumed(g.topic, g.start, init), t) || (Due(g, init, t) && t.fault != NoFault))
            && (forall k :: (exit == Some(Returned(k))
                             <==> exit != Some(Raised) && k == made
                                  && (GoesIdle(g, init, t)
                                      || (Due(g, init, t) && g.maxBatches != 0 && made >= g.maxBatches))))
  {
    assert (init + [t])[..|init|] == init;
    LoopIsAccounted(g, init);
    LastTick(g, init + [t]);
    OneTick(g, init, t, RunOn(g, init + [t]));
  }

  predicate ClocksForward(g: Setting, script: seq<Tick>) {
    (forall i | 0 <= i < |script| :: g.msgClock <= script[i].now)
    && forall i, j | 0 <= i < j < |script| :: script[i].now <= script[j].now
  }

  lemma {:induction false} HeardBefore(g: Setting, script: seq<Tick>, i: nat)
    requires i < |script| && ClocksForward(g, script)
    requires Hears(g.topic, Consumed(g.topic, g.start, script[..i]), script[i])
    ensures script[i].now <= LastHeard(g.topic, g.start, script, g.msgClock)
  {
    var n := |script| - 1;
    if i < n && !Hears(g.topic, Consumed(g.topic, g.start, script[..n]), script[n]) {
      assert script[..n][..i] == script[..i];
      HeardBefore(g, script[..n], i);
    }
  }

  /** A return below the commit limit means nothing was heard for idleExitMs, at any earlier tick whatever. */
  lemma ReturnsOnlyWhenIdle(g: Setting, init: seq<Tick>, t: Tick, k: nat, i: nat)
    requires RunOn(g, init).exit.None? && RunOn(g, init + [t]).exit == Some(Returned(k))
    requires g.maxBatches == 0 || k < g.maxBatches
    requires ClocksForward(g, init) && i < |init|
    requires Hears(g.topic, Consumed(g.topic, g.start, init[..i]), init[i])
    ensures g.idleExitMs != 0 && t.now - init[i].now >= g.idleExitMs
    ensures !Hears(g.topic, Consumed(g.topic, g.start, init), t)
  {
    CommitsAndExitsExactlyWhen(g, init, t);
    HeardBefore(g, init, i);
  }

  /** A run of the method that was not killed went on until its last tick and ended there for one of these reasons. */
  lemma RunExits(g: Setting, script: seq<Tick>, n: nat, r: Outcome, next: Counts, start: seq<Step>, history: seq<Step>)
    requires PlayedOut(g.cfg, g.topic, NewLife(g.start, g.flushClock, g.msgClock), script, g.idleExitMs, g.maxBatches,
                       n, r, next, start, history)
    requires r != Killed
    ensures 0 < n <= |script|
    ensures var init, t := script[..n - 1], script[n - 1];
            && RunOn(g, init).exit.None?
            && (r == Raised
                <==> Chokes(g.topic, Consumed(g.topic, g.start, init), t) || (Due(g, init, t) && t.fault != NoFault))
            && (r.Returned? ==>
                  && r.committed == Made(g, script[..n])
                  && (GoesIdle(g, init, t) || (Due(g, init, t) && g.maxBatches != 0 && r.committed >= g.maxBatches)))
            && history == start + RunOn(g, script[..n]).steps
  {
    var init, t := script[..n - 1], script[n - 1];
    assert script[..n] == init + [t];
    CommitsAndExitsExactlyWhen(g, init, t);
    assert r.Returned? ==> r == Returned(r.committed);
  }
}
