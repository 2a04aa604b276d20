/**
 What every run of the landing protocol guarantees about rows and progress: exactly-once
 rows, restarts that resume where the table stands, orphans that stay invisible, and
 bookkeeping that adds up and never goes back (lake/landing_job.py).
 */
module Safety {
  import opened Broker
  import opened Protocol
  import opened Summary
  import opened Watermark
  import opened Wrappers

  // ------------------------------------------------------------ exactly once

  /**
   In every reachable world the visible rows are, copy for copy, the events below the
   committed offsets, and every entry below them decodes.
   */
  lemma ExactlyOnce(log: Log, steps: seq<Step>)
    requires WellFormed(log)
    ensures var w := Run(log, steps);
            var k := Committed(log, w);
            && multiset(VisibleRows(w.lake)) == EventsUpTo(log, k)
            && AllDecoded(log, k) && Within(log, w.ends) && AtMost(k, w.ends)
  {
    RunInv(log, steps);
  }

  /** A restart at any moment resumes exactly at the committed positions with an empty batch. */
  lemma RestartResumes(log: Log, steps: seq<Step>, lateness: int)
    requires WellFormed(log)
    ensures var w := Run(log, steps);
            Run(log, steps + [Crash] + [Start(lateness)])
            == w.(process := Up(Job(lateness, Durable(w.lake), Committed(log, w), [], Polling)))
  {
    var w := Run(log, steps);
    RunInv(log, steps);
    RunSnoc(log, steps, Crash);
    RunSnoc(log, steps + [Crash], Start(lateness));
    StartReads(log, w.(process := Down), Durable(w.lake), lateness);
  }

  /** No run ever commits a partition past its first undecodable record. */
  lemma PoisonStops(log: Log, steps: seq<Step>, p: nat, i: nat)
    requires WellFormed(log) && p < |log| && i < |log[p]| && log[p][i].Bad?
    ensures Committed(log, Run(log, steps))[p] <= i
  {
    ExactlyOnce(log, steps);
    DecodedEntries(log[p], Committed(log, Run(log, steps))[p]);
  }

  lemma DecodedEntries(l: PartitionLog, n: nat)
    requires n <= |l| && Decoded(l[..n])
    ensures forall i | 0 <= i < n :: l[i].Good?
  {
    forall i | 0 <= i < n
      ensures l[i].Good?
    {
      assert l[..n][i] == l[i];
    }
  }

  /** A file the process left behind unlisted. */
  ghost predicate Orphan(w: World, f: nat) {
    && f < |w.lake.files| && f !in w.lake.CurrentManifest()
    && (w.process.Up? && w.process.job.phase.Written? ==> w.process.job.phase.file != f)
  }

  lemma OrphanStep(log: Log, w: World, s: Step, f: nat)
    requires Orphan(w, f)
    ensures Orphan(Apply(log, w, s), f)
  {
    if Swapping(w, s) {
      var manifest := w.lake.CurrentManifest() + [w.process.job.phase.file];
      assert Apply(log, w, s).lake.CurrentManifest() == manifest;
    } else {
      assert Apply(log, w, s).lake.snapshots == w.lake.snapshots;
    }
  }

  /** A data file orphaned by a crash is never listed by any snapshot of any continuation. */
  lemma {:induction false} OrphansStayInvisible(log: Log, steps: seq<Step>, more: seq<Step>, f: nat)
    requires Run(log, steps).process.Down?
    requires f < |Run(log, steps).lake.files| && f !in Run(log, steps).lake.CurrentManifest()
    ensures Orphan(Run(log, steps + more), f)
  {
    if |more| == 0 {
      assert steps + more == steps;
    } else {
      var n := |more| - 1;
      OrphansStayInvisible(log, steps, more[..n], f);
      assert steps + more == (steps + more[..n]) + [more[n]];
      RunSnoc(log, steps + more[..n], more[n]);
      OrphanStep(log, Run(log, steps + more[..n]), more[n], f);
    }
  }

  // -------------------------------------------------- conservation, monotonicity

  /** The sum of the batch counts stamped into the snapshots. */
  function StampedRows(snapshots: seq<Snapshot>): int {
    if |snapshots| == 0 then 0
    else
      StampedRows(snapshots[..|snapshots| - 1])
      + match IntProp(snapshots[|snapshots| - 1].props, K_BATCH_N)
        case Some(n) => n
        case None => 0
  }

  lemma {:induction false} BatchRowsSize(batch: seq<Record>)
    ensures |BatchRows(batch)| == |batch|
  {
    if |batch| > 0 {
      BatchRowsSize(batch[..|batch| - 1]);
    }
  }

  lemma SwapStamps(w: World, job: Job)
    requires job.phase.Written?
    ensures StampedRows(ApplySwap(w, job).lake.snapshots) == StampedRows(w.lake.snapshots) + |job.batch|
  {
    ResumeRoundTrip(job.phase.ahead, job.lateness, |job.batch|);
    var snapshots := ApplySwap(w, job).lake.snapshots;
    assert snapshots[..|snapshots| - 1] == w.lake.snapshots;
  }

  lemma SwapConserves(log: Log, w: World, st: ResumeState, k: Counts)
    requires InvAt(log, w, st, k) && w.process.Up? && w.process.job.phase.Written?
    requires StampedRows(w.lake.snapshots) == |VisibleRows(w.lake)|
    ensures var lake := ApplySwap(w, w.process.job).lake;
            StampedRows(lake.snapshots) == |VisibleRows(lake)|
  {
    var job := w.process.job;
    SwapStamps(w, job);
    SwapRows(w.lake, job.phase.file, Stamp(job.phase.ahead, job.lateness, |job.batch|));
    BatchRowsSize(job.batch);
  }

  lemma StampsMatchRows(log: Log, w: World, s: Step)
    requires WellFormed(log) && Inv(log, w) && StampedRows(w.lake.snapshots) == |VisibleRows(w.lake)|
    ensures var lake := Apply(log, w, s).lake;
            StampedRows(lake.snapshots) == |VisibleRows(lake)|
  {
    if Swapping(w, s) {
      SwapApplies(log, w, s);
      SwapConserves(log, w, Durable(w.lake), Committed(log, w));
    } else if s.WriteFile? {
      VisibleUnchanged(log, w, s);
      OtherStep(log, w, s);
    } else {
      LakeUnchanged(log, w, s);
    }
  }

  lemma LakeUnchanged(log: Log, w: World, s: Step)
    requires !Swapping(w, s) && !s.WriteFile?
    ensures Apply(log, w, s).lake == w.lake
  {
  }

  lemma VisibleUnchanged(log: Log, w: World, s: Step)
    requires WellFormed(log) && Inv(log, w) && s.WriteFile?
    ensures VisibleRows(Apply(log, w, s).lake) == VisibleRows(w.lake)
  {
    if w.process.Up? && w.process.job.phase == Polling && |w.process.job.batch| > 0 {
      WriteInv(log, w, Durable(w.lake), Committed(log, w));
    }
  }

  lemma {:induction false} StampsConserved(log: Log, steps: seq<Step>)
    requires WellFormed(log)
    ensures var lake := Run(log, steps).lake;
            StampedRows(lake.snapshots) == |VisibleRows(lake)|
  {
    if |steps| > 0 {
      var init := steps[..|steps| - 1];
      StampsConserved(log, init);
      RunInv(log, init);
      StampsMatchRows(log, Run(log, init), steps[|steps| - 1]);
    }
  }

  /**
   The sequence number counts the snapshots; the stamped batch counts add up to the
   visible rows, which add up to the entries committed.
   */
  lemma Conservation(log: Log, steps: seq<Step>)
    requires WellFormed(log)
    ensures var w := Run(log, steps);
            && Durable(w.lake).commitSeq == |w.lake.snapshots|
            && StampedRows(w.lake.snapshots) == |VisibleRows(w.lake)| == Sum(Committed(log, w), |log|)
  {
    var w := Run(log, steps);
    RunInv(log, steps);
    StampsConserved(log, steps);
    EventsOfSize(log, Committed(log, w), |log|);
    assert |multiset(VisibleRows(w.lake))| == |VisibleRows(w.lake)|;
  }

  /** With dense offsets the committed entries are the sum of the committed offsets. */
  predicate Dense(log: Log) {
    forall p, i | 0 <= p < |log| && 0 <= i < |log[p]| :: log[p][i].offset == i
  }

  lemma DenseOffsets(log: Log, steps: seq<Step>, p: nat)
    requires WellFormed(log) && Dense(log) && p < |log|
    ensures var w := Run(log, steps);
            Committed(log, w)[p] == Max(0, AssignedOffset(Durable(w.lake).offsets, p))
  {
    RunInv(log, steps);
    var k := Committed(log, Run(log, steps));
    if k[p] > 0 {
      assert log[p][k[p] - 1].offset == k[p] - 1;
    }
  }

  /** From here to there: nothing committed is ever taken back. */
  ghost predicate Forward(log: Log, w: World, w': World) {
    && AtMost(Committed(log, w), Committed(log, w'))
    && Durable(w.lake).watermarkT <= Durable(w'.lake).watermarkT
    && w.lake.snapshots <= w'.lake.snapshots
    && (forall p | p in Durable(w.lake).offsets :: p in Durable(w'.lake).offsets)
    && (forall p | p in Durable(w.lake).offsets :: Durable(w.lake).offsets[p] <= Durable(w'.lake).offsets[p])
    && (forall p | p in Durable(w.lake).perPartitionMax :: p in Durable(w'.lake).perPartitionMax)
    && (forall p | p in Durable(w.lake).perPartitionMax ::
          Durable(w.lake).perPartitionMax[p] <= Durable(w'.lake).perPartitionMax[p])
  }

  lemma OffsetsMonotone(log: Log, k: Counts, h: Counts)
    requires WellFormed(log) && Within(log, k) && Within(log, h) && AtMost(k, h)
    ensures forall p | p in OffsetsAt(log, k) :: p in OffsetsAt(log, h) && OffsetsAt(log, k)[p] <= OffsetsAt(log, h)[p]
    ensures forall p | p in MaximaAt(log, k) :: p in MaximaAt(log, h) && MaximaAt(log, k)[p] <= MaximaAt(log, h)[p]
  {
    forall p | 0 <= p < |log| && k[p] > 0
      ensures log[p][k[p] - 1].offset <= log[p][h[p] - 1].offset
      ensures MaxTime(log[p][..k[p]]) <= MaxTime(log[p][..h[p]])
    {
      assert k[p] < h[p] ==> log[p][k[p] - 1].offset < log[p][h[p] - 1].offset;
      MaxTimeMonotone(log[p], k[p], h[p]);
    }
  }

  /** The T a swap publishes. */
  lemma SwapT(log: Log, w: World, s: Step)
    requires WellFormed(log) && Inv(log, w) && Swapping(w, s)
    ensures var job := w.process.job;
            && Within(log, job.next) && AtMost(Committed(log, w), job.next) && AllDecoded(log, job.next)
            && Durable(Apply(log, w, s).lake).watermarkT
               == ComputeWatermark(MaximaAt(log, job.next), job.lateness, Durable(w.lake).watermarkT, Some(|log|))
  {
    SwapStep(log, w, s);
    var job := w.process.job;
    AheadIsCanonical(log, Durable(w.lake), Committed(log, w), job.batch, job.next, job.lateness);
  }

  lemma SwapForward(log: Log, w: World, s: Step)
    requires WellFormed(log) && Inv(log, w) && Swapping(w, s)
    ensures Forward(log, w, Apply(log, w, s))
  {
    var job, w' := w.process.job, Apply(log, w, s);
    SwapStep(log, w, s);
    SwapT(log, w, s);
    SwapApplies(log, w, s);
    PassesExactlyWhen(MaximaAt(log, job.next), job.lateness, Durable(w.lake).watermarkT, Some(|log|),
                      Durable(w.lake).watermarkT - 1);
    MapsForward(log, Durable(w.lake), Durable(w'.lake), Committed(log, w), job.next);
  }

  lemma MapsForward(log: Log, st: ResumeState, st': ResumeState, k: Counts, k': Counts)
    requires WellFormed(log) && Within(log, k) && Within(log, k') && AtMost(k, k')
    requires st.offsets == OffsetsAt(log, k) && st'.offsets == OffsetsAt(log, k')
    requires st.perPartitionMax == MaximaAt(log, k) && st'.perPartitionMax == MaximaAt(log, k')
    ensures forall p | p in st.offsets :: p in st'.offsets && st.offsets[p] <= st'.offsets[p]
    ensures forall p | p in st.perPartitionMax ::
              p in st'.perPartitionMax && st.perPartitionMax[p] <= st'.perPartitionMax[p]
  {
    OffsetsMonotone(log, k, k');
  }

  lemma StepForward(log: Log, w: World, s: Step)
    requires WellFormed(log) && Inv(log, w)
    ensures Forward(log, w, Apply(log, w, s))
  {
    if Swapping(w, s) {
      SwapForward(log, w, s);
    } else {
      OtherStep(log, w, s);
    }
  }

  lemma ForwardTransitive(log: Log, u: World, v: World, w: World)
    requires Forward(log, u, v) && Forward(log, v, w)
    ensures Forward(log, u, w)
  {
  }

  /** Offsets, maxima, T and the snapshot history only ever move forward, restarts included. */
  lemma {:induction false} RunForward(log: Log, steps: seq<Step>, more: seq<Step>)
    requires WellFormed(log)
    ensures Forward(log, Run(log, steps), Run(log, steps + more))
  {
    if |more| == 0 {
      assert steps + more == steps;
    } else {
      var n := |more| - 1;
      RunForward(log, steps, more[..n]);
      assert steps + more == (steps + more[..n]) + [more[n]];
      RunSnoc(log, steps + more[..n], more[n]);
      RunInv(log, steps + more[..n]);
      StepForward(log, Run(log, steps + more[..n]), more[n]);
      ForwardTransitive(log, Run(log, steps), Run(log, steps + more[..n]), Run(log, steps + more));
    }
  }
}
