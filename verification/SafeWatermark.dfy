/**
 The published watermark T: when it is safe, what it is a function of, and why no
 rule that sees only committed records could publish more (lake/watermark.py).
 */
module SafeWatermark {
  import opened Broker
  import opened IntSets
  import opened Protocol
  import opened Rows
  import opened Safety
  import opened Schema
  import opened Summary
  import opened Watermark
  import opened Wrappers

  // --------------------------------------------------------------- hypotheses

  predicate NonNegative(log: Log) {
    forall p, j | 0 <= p < |log| && 0 <= j < |log[p]| && log[p][j].Good? :: log[p][j].event.eventTimeMs >= 0
  }

  /** Within one partition, no event is more than w older than an event before it. */
  predicate BoundedDisorder(log: Log, w: int) {
    forall p, i, j | 0 <= p < |log| && 0 <= i < j < |log[p]| && log[p][i].Good? && log[p][j].Good? ::
      log[p][j].event.eventTimeMs >= log[p][i].event.eventTimeMs - w
  }

  /** Among its first n entries, and before any undecodable one, partition q holds an event more than w past t. */
  ghost predicate Overruns(l: PartitionLog, w: int, t: int, n: nat) {
    exists i :: 0 <= i < n && OverrunAt(l, w, t, i)
  }

  predicate OverrunAt(l: PartitionLog, w: int, t: int, i: int) {
    0 <= i < |l| && Decoded(l[..i + 1]) && l[i].event.eventTimeMs - w > t
  }

  /**
   Entry j of partition p is exposed when its own partition runs more than w past it
   before it, and every other partition runs more than w past it anywhere.
   */
  ghost predicate Exposed(log: Log, w: int, p: int, j: int)
    requires 0 <= p < |log| && 0 <= j < |log[p]| && log[p][j].Good?
  {
    forall q | 0 <= q < |log| ::
      Overruns(log[q], w, log[p][j].event.eventTimeMs, if q == p then j else |log[q]|)
  }

  ghost predicate NothingExposed(log: Log, w: int) {
    forall p, j | 0 <= p < |log| && 0 <= j < |log[p]| && log[p][j].Good? :: !Exposed(log, w, p, j)
  }

  /** The bound the repository assumes is more than enough. */
  lemma DisorderExposesNothing(log: Log, w: int)
    requires BoundedDisorder(log, w)
    ensures NothingExposed(log, w)
  {
    forall p, j | 0 <= p < |log| && 0 <= j < |log[p]| && log[p][j].Good?
      ensures !Exposed(log, w, p, j)
    {
      forall i | 0 <= i < j
        ensures !OverrunAt(log[p], w, log[p][j].event.eventTimeMs, i)
      {
        if Decoded(log[p][..i + 1]) {
          assert log[p][..i + 1][i] == log[p][i];
        }
      }
    }
  }

  predicate WindowsAtLeast(steps: seq<Step>, w: int) {
    forall i | 0 <= i < |steps| && steps[i].Start? :: steps[i].lateness >= w
  }

  predicate ConstantWindow(steps: seq<Step>, w: int) {
    forall i | 0 <= i < |steps| && steps[i].Start? :: steps[i].lateness == w
  }

  lemma {:induction false} JobWindow(log: Log, steps: seq<Step>, w: int)
    ensures var process := Run(log, steps).process;
            && (WindowsAtLeast(steps, w) && process.Up? ==> process.job.lateness >= w)
            && (ConstantWindow(steps, w) && process.Up? ==> process.job.lateness == w)
  {
    if |steps| > 0 {
      JobWindow(log, steps[..|steps| - 1], w);
    }
  }

  /** Every snapshot of a run with one window says so. */
  lemma {:induction false} StampsWindow(log: Log, steps: seq<Step>, w: int)
    requires WellFormed(log) && ConstantWindow(steps, w)
    ensures forall snapshot | snapshot in Run(log, steps).lake.snapshots ::
              IntProp(snapshot.props, K_LATENESS) == Some(w)
  {
    if |steps| > 0 {
      var init, s := steps[..|steps| - 1], steps[|steps| - 1];
      StampsWindow(log, init, w);
      JobWindow(log, init, w);
      StepStamps(log, Run(log, init), s, w);
    }
  }

  lemma StepStamps(log: Log, v: World, s: Step, w: int)
    requires v.process.Up? ==> v.process.job.lateness == w
    requires forall snapshot | snapshot in v.lake.snapshots :: IntProp(snapshot.props, K_LATENESS) == Some(w)
    ensures forall snapshot | snapshot in Apply(log, v, s).lake.snapshots ::
              IntProp(snapshot.props, K_LATENESS) == Some(w)
  {
    if Swapping(v, s) {
      var job := v.process.job;
      SwapApplies(log, v, s);
      ResumeRoundTrip(job.phase.ahead, job.lateness, |job.batch|);
    } else {
      assert Apply(log, v, s).lake.snapshots == v.lake.snapshots;
    }
  }

  /** What the seam reads is the T of the durable state. */
  lemma PublishedIsDurable(log: Log, w: World)
    requires Inv(log, w)
    ensures PublishedT(w.lake) == Durable(w.lake).watermarkT
  {
  }

  // -------------------------------------------------------------------- safety

  /** Every event below the published T, in all that the log will ever hold, is committed. */
  ghost predicate Safe(log: Log, w: World) { Settled(log, Committed(log, w), PublishedT(w.lake)) }

  /** The partition ids 0..n-1. */
  function Ids(n: nat): set<int> { if n == 0 then {} else Ids(n - 1) + {n - 1} }

  lemma {:induction false} IdsSize(n: nat)
    ensures |Ids(n)| == n && forall p :: p in Ids(n) <==> 0 <= p < n
  {
    if n > 0 {
      IdsSize(n - 1);
    }
  }

  /** As many maxima as partitions means every partition has one. */
  lemma FullKeys(log: Log, k: Counts)
    requires Within(log, k) && |MaximaAt(log, k)| >= |log|
    ensures forall p | 0 <= p < |log| :: k[p] > 0
  {
    var keys := MaximaAt(log, k).Keys;
    IdsSize(|log|);
    SubsetSize(keys, Ids(|log|));
    if q :| 0 <= q < |log| && k[q] == 0 {
      SubsetSize(keys, Ids(|log|) - {q});
      assert false;
    }
  }

  lemma {:induction false} SubsetSize(a: set<int>, b: set<int>)
    requires a <= b
    ensures |a| <= |b|
  {
    if a != {} {
      var x := PickFrom(a);
      SubsetSize(a - {x}, b - {x});
    }
  }

  /** A decoded prefix whose maximum is more than w past a time t >= 0 overruns t. */
  lemma MaximumOverruns(l: PartitionLog, n: nat, w: int, t: int)
    requires 0 < n <= |l| && Decoded(l[..n]) && MaxTime(l[..n]) - w > t >= 0
    requires forall i | 0 <= i < n :: l[i].Good? ==> l[i].event.eventTimeMs >= 0
    ensures Overruns(l, w, t, n)
  {
    MaxTimeBound(l[..n], t + w);
    var i: int;
    if 0 > t + w {
      i := 0;
      assert l[..n][0].Good?;
    } else {
      i :| 0 <= i < |l[..n]| && l[..n][i].Good? && l[..n][i].event.eventTimeMs > t + w;
    }
    assert forall m | 0 <= m <= i :: l[..i + 1][m] == l[..n][m];
    assert l[..n][i] == l[i];
    assert OverrunAt(l, w, t, i);
  }

  lemma SwapSafe(log: Log, w: int, prev: int, k: Counts, next: Counts, lateness: int)
    requires NonNegative(log) && NothingExposed(log, w) && lateness >= w
    requires Within(log, k) && Within(log, next) && AtMost(k, next) && AllDecoded(log, next)
    requires Settled(log, k, prev)
    ensures Settled(log, next, ComputeWatermark(MaximaAt(log, next), lateness, prev, Some(|log|)))
  {
    var t := ComputeWatermark(MaximaAt(log, next), lateness, prev, Some(|log|));
    forall p, j | 0 <= p < |log| && next[p] <= j < |log[p]| && log[p][j].Good?
      ensures log[p][j].event.eventTimeMs >= t
    {
      var time := log[p][j].event.eventTimeMs;
      if t > time {
        PassesExactlyWhen(MaximaAt(log, next), lateness, prev, Some(|log|), time);
        FullKeys(log, next);
        forall q | 0 <= q < |log|
          ensures Overruns(log[q], w, time, if q == p then j else |log[q]|)
        {
          assert MaximaAt(log, next)[q] == MaxTime(log[q][..next[q]]);
          MaximumOverruns(log[q], next[q], w, time);
        }
        assert Exposed(log, w, p, j);
        assert false;
      }
    }
  }

  /**
   Whatever is polled, committed, crashed or restarted, and however the windows of the
   restarts differ above w: no uncommitted event, produced or still to come, is below T.
   */
  lemma {:induction false} WatermarkSafe(log: Log, steps: seq<Step>, w: int)
    requires WellFormed(log) && NonNegative(log) && NothingExposed(log, w) && WindowsAtLeast(steps, w)
    ensures Safe(log, Run(log, steps))
  {
    RunInv(log, steps);
    PublishedIsDurable(log, Run(log, steps));
    if |steps| == 0 {
      InitialInv(log);
    } else {
      var init, s := steps[..|steps| - 1], steps[|steps| - 1];
      var before := Run(log, init);
      WatermarkSafe(log, init, w);
      RunInv(log, init);
      PublishedIsDurable(log, before);
      StepInv(log, before, s);
      if Swapping(before, s) {
        JobWindow(log, init, w);
        SwapT(log, before, s);
        SwapSafe(log, w, Durable(before.lake).watermarkT, Committed(log, before),
                 before.process.job.next, before.process.job.lateness);
      }
    }
  }

  // -------------------------------------------------------- path independence

  /** T as a function of what is committed: max(0, min over partitions of their maximum - w), or 0. */
  function TAt(log: Log, w: int, k: Counts): int
    requires Within(log, k)
  {
    ComputeWatermark(MaximaAt(log, k), w, 0, Some(|log|))
  }

  /** Folding T through an earlier commit changes nothing: maxima only grow. */
  lemma FoldedT(log: Log, w: int, k: Counts, next: Counts)
    requires WellFormed(log) && Within(log, k) && Within(log, next) && AtMost(k, next)
    ensures ComputeWatermark(MaximaAt(log, next), w, TAt(log, w, k), Some(|log|)) == TAt(log, w, next)
  {
    var folded := ComputeWatermark(MaximaAt(log, next), w, TAt(log, w, k), Some(|log|));
    OffsetsMonotone(log, k, next);
    PassedBefore(log, w, k, next, 0, TAt(log, w, next));
    PassesExactlyWhen(MaximaAt(log, next), w, TAt(log, w, k), Some(|log|), TAt(log, w, next));
    PassesExactlyWhen(MaximaAt(log, next), w, 0, Some(|log|), TAt(log, w, next));
    PassesExactlyWhen(MaximaAt(log, next), w, TAt(log, w, k), Some(|log|), folded);
    PassesExactlyWhen(MaximaAt(log, next), w, 0, Some(|log|), folded);
    PassesExactlyWhen(MaximaAt(log, k), w, 0, Some(|log|), folded);
  }

  /** Committing more never lowers what the rule yields from the same previous T. */
  lemma PassedBefore(log: Log, w: int, k: Counts, next: Counts, prev: int, t: int)
    requires WellFormed(log) && Within(log, k) && Within(log, next) && AtMost(k, next)
    ensures ComputeWatermark(MaximaAt(log, k), w, prev, Some(|log|)) > t
            ==> ComputeWatermark(MaximaAt(log, next), w, prev, Some(|log|)) > t
  {
    PassesExactlyWhen(MaximaAt(log, k), w, prev, Some(|log|), t);
    PassesExactlyWhen(MaximaAt(log, next), w, prev, Some(|log|), t);
    OffsetsMonotone(log, k, next);
    if AllSeen(MaximaAt(log, k), Some(|log|)) {
      FullKeys(log, k);
      SameKeys(log, k, next);
    }
  }

  lemma SameKeys(log: Log, k: Counts, next: Counts)
    requires Within(log, k) && Within(log, next) && AtMost(k, next)
    requires forall p | 0 <= p < |log| :: k[p] > 0
    ensures MaximaAt(log, k).Keys == MaximaAt(log, next).Keys
    ensures |MaximaAt(log, k)| == |MaximaAt(log, next)|
  {
    assert forall p | 0 <= p < |log| :: next[p] >= k[p];
    assert MaximaAt(log, k).Keys == MaximaAt(log, next).Keys;
    assert |MaximaAt(log, k)| == |MaximaAt(log, k).Keys|;
    assert |MaximaAt(log, next)| == |MaximaAt(log, next).Keys|;
  }

  /**
   With a constant window, all that is durable except the commit count is a function of
   the committed positions, however the run was batched, interleaved or crashed.
   */
  lemma {:induction false} DurableByPosition(log: Log, steps: seq<Step>, w: int)
    requires WellFormed(log) && ConstantWindow(steps, w)
    ensures var end := Run(log, steps);
            var k, st := Committed(log, end), Durable(end.lake);
            && st.offsets == OffsetsAt(log, k) && st.perPartitionMax == MaximaAt(log, k)
            && st.watermarkT == PublishedT(end.lake) == TAt(log, w, k)
            && multiset(VisibleRows(end.lake)) == EventsUpTo(log, k)
  {
    RunInv(log, steps);
    PublishedIsDurable(log, Run(log, steps));
    if |steps| == 0 {
      InitialInv(log);
      assert MaximaAt(log, Zeros(|log|)) == map[];
    } else {
      var init, s := steps[..|steps| - 1], steps[|steps| - 1];
      var before := Run(log, init);
      DurableByPosition(log, init, w);
      RunInv(log, init);
      StepInv(log, before, s);
      if Swapping(before, s) {
        JobWindow(log, init, w);
        SwapT(log, before, s);
        FoldedT(log, w, Committed(log, before), before.process.job.next);
      }
    }
  }

  /** Two runs that committed the same offsets agree on everything durable but their commit counts. */
  lemma PathIndependence(log: Log, a: seq<Step>, b: seq<Step>, w: int)
    requires WellFormed(log) && ConstantWindow(a, w) && ConstantWindow(b, w)
    requires Durable(Run(log, a).lake).offsets == Durable(Run(log, b).lake).offsets
    ensures var x, y := Run(log, a).lake, Run(log, b).lake;
            && Durable(x).perPartitionMax == Durable(y).perPartitionMax
            && PublishedT(x) == PublishedT(y)
            && multiset(VisibleRows(x)) == multiset(VisibleRows(y))
  {
    DurableByPosition(log, a, w);
    DurableByPosition(log, b, w);
  }

  // ------------------------------------------------------------- frozen slice

  /** Below a published T, a later table holds what any settled prefix of the log does. */
  lemma SettledSlice(log: Log, steps: seq<Step>, more: seq<Step>, w: int, h: Counts)
    requires WellFormed(log) && NonNegative(log) && NothingExposed(log, w) && WindowsAtLeast(steps, w)
    requires Within(log, h) && AtMost(Committed(log, Run(log, steps)), h)
    ensures forall x: OrderEvent | x.eventTimeMs < PublishedT(Run(log, steps).lake) ::
              multiset(VisibleRows(Run(log, steps + more).lake))[x] == EventsUpTo(log, h)[x]
  {
    var k, t := Committed(log, Run(log, steps)), PublishedT(Run(log, steps).lake);
    var later := Committed(log, Run(log, steps + more));
    WatermarkSafe(log, steps, w);
    ExactlyOnce(log, steps + more);
    RunForward(log, steps, more);
    forall x: OrderEvent | x.eventTimeMs < t
      ensures EventsUpTo(log, later)[x] == EventsUpTo(log, h)[x]
    {
      SettledCounts(log, k, later, t, x, |log|);
      SettledCounts(log, k, h, t, x, |log|);
    }
  }

  /** Once T is published no later commit, restarts included, changes the lake below T. */
  lemma FrozenSlice(log: Log, steps: seq<Step>, more: seq<Step>, w: int)
    requires WellFormed(log) && NonNegative(log) && NothingExposed(log, w) && WindowsAtLeast(steps, w)
    ensures var t := PublishedT(Run(log, steps).lake);
            multiset(Select(VisibleRows(Run(log, steps + more).lake), t, true))
            == multiset(Select(VisibleRows(Run(log, steps).lake), t, true))
  {
    var t := PublishedT(Run(log, steps).lake);
    var k := Committed(log, Run(log, steps));
    SettledSlice(log, steps, more, w, k);
    SettledSlice(log, steps, [], w, k);
    assert steps + [] == steps;
    SelectAgree(VisibleRows(Run(log, steps + more).lake), VisibleRows(Run(log, steps).lake), t, true);
  }
}
