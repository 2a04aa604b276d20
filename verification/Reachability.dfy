/** From any reachable world and for every decodable position past the committed one, a run that commits it. */
module Reachability {
  import opened Broker
  import opened Protocol
  import opened SafeWatermark
  import opened Safety
  import opened Watermark
  import opened Wrappers

  // --------------------------------------------------------- runs from a world

  function RunFrom(log: Log, u: World, steps: seq<Step>): World {
    if |steps| == 0 then u else Apply(log, RunFrom(log, u, steps[..|steps| - 1]), steps[|steps| - 1])
  }

  lemma FromSnoc(log: Log, u: World, steps: seq<Step>, s: Step)
    ensures RunFrom(log, u, steps + [s]) == Apply(log, RunFrom(log, u, steps), s)
  {
    assert (steps + [s])[..|steps|] == steps;
  }

  lemma Split(a: seq<Step>, b: seq<Step>)
    requires |b| > 0
    ensures a + b == (a + b[..|b| - 1]) + [b[|b| - 1]]
  {
  }

  lemma {:induction false} FromConcat(log: Log, u: World, a: seq<Step>, b: seq<Step>)
    ensures RunFrom(log, u, a + b) == RunFrom(log, RunFrom(log, u, a), b)
  {
    if |b| == 0 {
      assert a + b == a;
    } else {
      FromConcat(log, u, a, b[..|b| - 1]);
      Split(a, b);
      FromSnoc(log, u, a + b[..|b| - 1], b[|b| - 1]);
    }
  }

  lemma {:induction false} RunConcat(log: Log, a: seq<Step>, b: seq<Step>)
    ensures Run(log, a + b) == RunFrom(log, Run(log, a), b)
  {
    if |b| == 0 {
      assert a + b == a;
    } else {
      RunConcat(log, a, b[..|b| - 1]);
      Split(a, b);
      RunSnoc(log, a + b[..|b| - 1], b[|b| - 1]);
    }
  }

  lemma {:induction false} FromInv(log: Log, u: World, steps: seq<Step>)
    requires WellFormed(log) && Inv(log, u)
    ensures Inv(log, RunFrom(log, u, steps))
  {
    if |steps| > 0 {
      var init := steps[..|steps| - 1];
      FromInv(log, u, init);
      StepInv(log, RunFrom(log, u, init), steps[|steps| - 1]);
    }
  }

  // ----------------------------------------------------------------- fetching

  /** n entries of partition p produced, if they were not yet, and polled. */
  function FetchSteps(p: nat, n: nat): seq<Step> {
    if n == 0 then [] else FetchSteps(p, n - 1) + [Produce(p)] + [Poll(p)]
  }

  /** From base up to k in each of the first n partitions, one partition after the other. */
  function FetchAll(base: Counts, k: Counts, n: nat): seq<Step>
    requires AtMost(base, k) && n <= |k|
  {
    if n == 0 then [] else FetchAll(base, k, n - 1) + FetchSteps(n - 1, k[n - 1] - base[n - 1])
  }

  function Partial(base: Counts, k: Counts, n: nat, m: nat): (r: Counts)
    requires AtMost(base, k) && n <= |k|
    ensures |r| == |k|
  {
    seq(|k|, p requires 0 <= p < |k| => if p < n then k[p] else if p == n then base[p] + m else base[p])
  }

  /** A job that restarted at base has consumed up to next and committed nothing yet. */
  ghost predicate Fetching(log: Log, w: World, lake: Lake, base: Counts, next: Counts, lateness: int) {
    && w.lake == lake && Within(log, next) && Within(log, w.ends) && AtMost(next, w.ends)
    && w.process.Up? && w.process.job.phase == Polling
    && w.process.job.lateness == lateness && w.process.job.next == next
    && (next != base ==> |w.process.job.batch| > 0)
  }

  lemma FetchOne(log: Log, v: World, lake: Lake, base: Counts, next: Counts, lateness: int, p: nat)
    requires Fetching(log, v, lake, base, next, lateness)
    requires p < |log| && next[p] < |log[p]| && log[p][next[p]].Good?
    ensures Fetching(log, Apply(log, Apply(log, v, Produce(p)), Poll(p)), lake, base, Advance(next, p), lateness)
  {
  }

  lemma SameFetching(log: Log, v: World, v': World, lake: Lake, base: Counts, next: Counts, next': Counts,
                     lateness: int)
    requires Fetching(log, v, lake, base, next, lateness) && v' == v && next' == next
    ensures Fetching(log, v', lake, base, next', lateness)
  {
  }

  lemma FetchPair(log: Log, u: World, before: seq<Step>, lake: Lake, base: Counts, next: Counts, lateness: int, p: nat)
    requires Fetching(log, RunFrom(log, u, before), lake, base, next, lateness)
    requires p < |log| && next[p] < |log[p]| && log[p][next[p]].Good?
    ensures Fetching(log, RunFrom(log, u, before + [Produce(p)] + [Poll(p)]), lake, base, Advance(next, p), lateness)
  {
    FetchOne(log, RunFrom(log, u, before), lake, base, next, lateness, p);
    FromSnoc(log, u, before, Produce(p));
    FromSnoc(log, u, before + [Produce(p)], Poll(p));
  }

  lemma PartialAdvance(base: Counts, k: Counts, n: nat, m: nat)
    requires AtMost(base, k) && n < |k|
    ensures Advance(Partial(base, k, n, m), n) == Partial(base, k, n, m + 1)
    ensures Partial(base, k, n, m)[n] == base[n] + m
  {
  }

  lemma PartialDone(base: Counts, k: Counts, n: nat)
    requires AtMost(base, k) && n < |k|
    ensures Partial(base, k, n, k[n] - base[n]) == Partial(base, k, n + 1, 0)
  {
  }

  lemma NextDecoded(log: Log, k: Counts, n: nat, i: nat)
    requires Within(log, k) && AllDecoded(log, k) && n < |log| && i < k[n]
    ensures i < |log[n]| && log[n][i].Good?
  {
    DecodedEntries(log[n], k[n]);
  }

  lemma {:induction false} FetchPartition(log: Log, u: World, lake: Lake, base: Counts, k: Counts,
                                          n: nat, m: nat, lateness: int)
    requires Within(log, k) && AllDecoded(log, k) && AtMost(base, k) && n < |log| && base[n] + m <= k[n]
    requires Fetching(log, u, lake, base, Partial(base, k, n, 0), lateness)
    ensures Fetching(log, RunFrom(log, u, FetchSteps(n, m)), lake, base, Partial(base, k, n, m), lateness)
  {
    if m == 0 {
      assert FetchSteps(n, 0) == [];
    } else {
      FetchPartition(log, u, lake, base, k, n, m - 1, lateness);
      NextDecoded(log, k, n, base[n] + m - 1);
      PartialAdvance(base, k, n, m - 1);
      FetchPair(log, u, FetchSteps(n, m - 1), lake, base, Partial(base, k, n, m - 1), lateness, n);
      SameFetching(log, RunFrom(log, u, FetchSteps(n, m - 1) + [Produce(n)] + [Poll(n)]),
                   RunFrom(log, u, FetchSteps(n, m)), lake, base,
                   Advance(Partial(base, k, n, m - 1), n), Partial(base, k, n, m), lateness);
    }
  }

  lemma FetchWhole(log: Log, v: World, lake: Lake, base: Counts, k: Counts, n: nat, p: nat, lateness: int)
    requires Within(log, k) && AllDecoded(log, k) && AtMost(base, k) && n <= |log| && n == p + 1
    requires Fetching(log, v, lake, base, Partial(base, k, p, 0), lateness)
    ensures Fetching(log, RunFrom(log, v, FetchSteps(p, k[p] - base[p])), lake, base, Partial(base, k, n, 0), lateness)
  {
    FetchPartition(log, v, lake, base, k, p, k[p] - base[p], lateness);
    PartialDone(base, k, p);
  }

  lemma FetchNext(log: Log, u: World, before: seq<Step>, after: seq<Step>, lake: Lake, base: Counts, k: Counts,
                  n: nat, p: nat, lateness: int)
    requires Within(log, k) && AllDecoded(log, k) && AtMost(base, k) && n <= |log| && n == p + 1
    requires after == before + FetchSteps(p, k[p] - base[p])
    requires Fetching(log, RunFrom(log, u, before), lake, base, Partial(base, k, p, 0), lateness)
    ensures Fetching(log, RunFrom(log, u, after), lake, base, Partial(base, k, n, 0), lateness)
  {
    var v := RunFrom(log, u, before);
    FetchWhole(log, v, lake, base, k, n, p, lateness);
    FromConcat(log, u, before, FetchSteps(p, k[p] - base[p]));
    SameFetching(log, RunFrom(log, v, FetchSteps(p, k[p] - base[p])), RunFrom(log, u, after),
                 lake, base, Partial(base, k, n, 0), Partial(base, k, n, 0), lateness);
  }

  lemma FetchNone(log: Log, u: World, base: Counts, k: Counts)
    requires AtMost(base, k)
    ensures RunFrom(log, u, FetchAll(base, k, 0)) == u && Partial(base, k, 0, 0) == base
  {
  }

  lemma {:induction false} FetchPartitions(log: Log, u: World, lake: Lake, base: Counts, k: Counts,
                                           n: nat, lateness: int)
    requires Within(log, k) && AllDecoded(log, k) && AtMost(base, k) && n <= |log|
    requires Fetching(log, u, lake, base, base, lateness)
    ensures Fetching(log, RunFrom(log, u, FetchAll(base, k, n)), lake, base, Partial(base, k, n, 0), lateness)
  {
    if n == 0 {
      FetchNone(log, u, base, k);
      SameFetching(log, u, RunFrom(log, u, FetchAll(base, k, n)), lake, base, base, Partial(base, k, n, 0), lateness);
    } else {
      FetchPartitions(log, u, lake, base, k, n - 1, lateness);
      FetchNext(log, u, FetchAll(base, k, n - 1), FetchAll(base, k, n), lake, base, k, n, n - 1, lateness);
    }
  }

  // --------------------------------------------------------------- committing

  /** A restart with window w that goes on from base and commits up to k. */
  function Onward(base: Counts, k: Counts, w: int): seq<Step>
    requires AtMost(base, k)
  {
    [Crash] + [Start(w)] + FetchAll(base, k, |k|) + [WriteFile] + [Swap]
  }

  lemma Restarted(log: Log, u: World, w: int)
    requires Inv(log, u)
    ensures var base := Committed(log, u);
            Fetching(log, Apply(log, Apply(log, u, Crash), Start(w)), u.lake, base, base, w)
  {
    StartReads(log, u.(process := Down), Durable(u.lake), w);
  }

  lemma Fetched(log: Log, u: World, k: Counts, w: int)
    requires Inv(log, u) && Within(log, k) && AllDecoded(log, k) && AtMost(Committed(log, u), k)
    ensures var base := Committed(log, u);
            Fetching(log, RunFrom(log, u, [Crash] + [Start(w)] + FetchAll(base, k, |k|)), u.lake, base, k, w)
  {
    var base := Committed(log, u);
    var v := Apply(log, Apply(log, u, Crash), Start(w));
    Restarted(log, u, w);
    FromSnoc(log, u, [], Crash);
    assert [] + [Crash] == [Crash];
    FromSnoc(log, u, [Crash], Start(w));
    FetchPartitions(log, v, u.lake, base, k, |log|, w);
    FromConcat(log, u, [Crash] + [Start(w)], FetchAll(base, k, |k|));
    assert Partial(base, k, |k|, 0) == k;
  }

  lemma EmptyCommit(log: Log, u: World)
    requires u.process.Up? && u.process.job.phase == Polling && |u.process.job.batch| == 0
    ensures Apply(log, Apply(log, u, WriteFile), Swap) == u
  {
  }

  lemma WritesFile(log: Log, u: World)
    requires u.process.Up? && u.process.job.phase == Polling && |u.process.job.batch| > 0
    ensures var v := Apply(log, u, WriteFile);
            && Swapping(v, Swap) && v.process.job.next == u.process.job.next
            && v.process.job.lateness == u.process.job.lateness && v.lake.snapshots == u.lake.snapshots
  {
  }

  lemma CommitWritten(log: Log, v: World)
    requires WellFormed(log) && Inv(log, v) && Swapping(v, Swap)
    ensures var end, job := Apply(log, v, Swap), v.process.job;
            && Committed(log, end) == job.next
            && PublishedT(end.lake)
               == ComputeWatermark(MaximaAt(log, job.next), job.lateness, PublishedT(v.lake), Some(|log|))
  {
    SwapStep(log, v, Swap);
    SwapT(log, v, Swap);
    PublishedIsDurable(log, v);
    PublishedIsDurable(log, Apply(log, v, Swap));
  }

  lemma CommitFetched(log: Log, u: World, base: Counts, k: Counts, w: int)
    requires WellFormed(log) && Inv(log, u) && Fetching(log, u, u.lake, base, k, w) && Committed(log, u) == base
    ensures var end := Apply(log, Apply(log, u, WriteFile), Swap);
            && Committed(log, end) == k
            && (k != base ==>
                  PublishedT(end.lake) == ComputeWatermark(MaximaAt(log, k), w, PublishedT(u.lake), Some(|log|)))
  {
    if |u.process.job.batch| == 0 {
      EmptyCommit(log, u);
    } else {
      var v := Apply(log, u, WriteFile);
      WritesFile(log, u);
      StepInv(log, u, WriteFile);
      SameTable(log, u, v);
      CommitWritten(log, v);
    }
  }

  lemma OnwardFrom(log: Log, u: World, k: Counts, w: int)
    requires WellFormed(log) && Inv(log, u)
    requires Within(log, k) && AllDecoded(log, k) && AtMost(Committed(log, u), k)
    ensures var base := Committed(log, u);
            var end := RunFrom(log, u, Onward(base, k, w));
            && Committed(log, end) == k
            && (k != base ==>
                  PublishedT(end.lake) == ComputeWatermark(MaximaAt(log, k), w, PublishedT(u.lake), Some(|log|)))
  {
    var base := Committed(log, u);
    var fetch := [Crash] + [Start(w)] + FetchAll(base, k, |k|);
    var v := RunFrom(log, u, fetch);
    Fetched(log, u, k, w);
    FromInv(log, u, fetch);
    SameTable(log, u, v);
    CommitFetched(log, v, base, k, w);
    FromSnoc(log, u, fetch, WriteFile);
    FromSnoc(log, u, fetch + [WriteFile], Swap);
  }

  /** From any reachable world, any decodable positions from the committed ones on are committed by some run. */
  lemma OnwardCommits(log: Log, steps: seq<Step>, k: Counts, w: int)
    requires WellFormed(log) && Within(log, k) && AllDecoded(log, k)
    requires AtMost(Committed(log, Run(log, steps)), k)
    ensures var u := Run(log, steps);
            var base := Committed(log, u);
            var end := Run(log, steps + Onward(base, k, w));
            && Committed(log, end) == k
            && (k != base ==>
                  PublishedT(end.lake) == ComputeWatermark(MaximaAt(log, k), w, PublishedT(u.lake), Some(|log|)))
  {
    var u := Run(log, steps);
    RunInv(log, steps);
    OnwardFrom(log, u, k, w);
    RunConcat(log, steps, Onward(Committed(log, u), k, w));
  }

  // ------------------------------------------------------- the steps it takes

  predicate Fetches(s: Step) { s.Produce? || s.Poll? }

  /** A step of the producer or of a job with window w. */
  predicate LandingStep(s: Step, w: int) {
    Fetches(s) || s == Crash || s == Start(w) || s.WriteFile? || s.Swap?
  }

  lemma {:induction false} FetchAllFetches(base: Counts, k: Counts, n: nat)
    requires AtMost(base, k) && n <= |k|
    ensures forall s | s in FetchAll(base, k, n) :: Fetches(s)
  {
    if n > 0 {
      FetchAllFetches(base, k, n - 1);
      FetchStepsFetch(n - 1, k[n - 1] - base[n - 1]);
    }
  }

  lemma {:induction false} FetchStepsFetch(p: nat, n: nat)
    ensures forall s | s in FetchSteps(p, n) :: Fetches(s)
  {
    if n > 0 {
      FetchStepsFetch(p, n - 1);
    }
  }

  lemma OnwardSteps(base: Counts, k: Counts, w: int)
    requires AtMost(base, k)
    ensures forall i | 0 <= i < |Onward(base, k, w)| :: LandingStep(Onward(base, k, w)[i], w)
    ensures ConstantWindow(Onward(base, k, w), w)
  {
    FetchAllFetches(base, k, |k|);
    var steps, fetch := Onward(base, k, w), FetchAll(base, k, |k|);
    forall i | 0 <= i < |steps|
      ensures LandingStep(steps[i], w)
    {
      if 2 <= i < |fetch| + 2 {
        assert steps[i] == fetch[i - 2] && fetch[i - 2] in fetch;
      }
    }
  }

  predicate LeavesClickHouse(steps: seq<Step>) {
    forall i | 0 <= i < |steps| :: !steps[i].ChPoll? && !steps[i].ChRewind?
  }

  lemma OnwardLeavesClickHouse(base: Counts, k: Counts, w: int)
    requires AtMost(base, k)
    ensures LeavesClickHouse(Onward(base, k, w))
  {
    OnwardSteps(base, k, w);
  }

  lemma {:induction false} ChUntouched(log: Log, u: World, more: seq<Step>)
    requires LeavesClickHouse(more)
    ensures RunFrom(log, u, more).ch == u.ch && RunFrom(log, u, more).chNext == u.chNext
  {
    if |more| > 0 {
      ChUntouched(log, u, more[..|more| - 1]);
    }
  }

  // ------------------------------------------------------------ from the start

  /** A run with one window that commits exactly the given positions. */
  function Reaching(k: Counts, w: int): seq<Step> { Onward(Zeros(|k|), k, w) }

  /** Any decodable positions are committed by some run. */
  lemma EveryPositionReachable(log: Log, k: Counts, w: int)
    requires WellFormed(log) && Within(log, k) && AllDecoded(log, k)
    ensures ConstantWindow(Reaching(k, w), w)
    ensures Committed(log, Run(log, Reaching(k, w))) == k
  {
    OnwardSteps(Zeros(|k|), k, w);
    InitialInv(log);
    OnwardCommits(log, [], k, w);
    assert [] + Reaching(k, w) == Reaching(k, w);
  }
}
