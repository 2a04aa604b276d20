/**
 Exactly when a seam count can be followed by a smaller one, as a condition on the log,
 the committed positions and what ClickHouse holds when the query ends (query/seam.py).
 */
module SeamCounts {
  import opened Broker
  import opened Protocol
  import opened Reachability
  import opened Rows
  import opened SafeWatermark
  import opened Safety
  import opened Seam
  import opened Watermark
  import opened Wrappers

  // -------------------------------------------- the T a continuation can publish

  lemma SwapMovesOn(log: Log, w: World, s: Step)
    requires Inv(log, w) && Swapping(w, s)
    ensures w.process.job.next != Committed(log, w)
  {
    var k, batch := Committed(log, w), w.process.job.batch;
    BatchRowsSize(batch);
    assert |EventsUpTo(log, k) + multiset(BatchRows(batch))| == |EventsUpTo(log, k)| + |BatchRows(batch)|;
  }

  /** The largest T commits up to k can have published, starting from prev with windows of at least w. */
  function TopT(log: Log, k: Counts, w: int, prev: int): int
    requires Within(log, k)
  {
    ComputeWatermark(MaximaAt(log, k), w, prev, Some(|log|))
  }

  lemma RaisesAtMost(log: Log, k: Counts, next: Counts, lateness: int, w: int, prev: int, t: int)
    requires WellFormed(log) && Within(log, k) && Within(log, next) && AtMost(k, next) && lateness >= w
    requires t == prev || t <= TopT(log, k, w, prev)
    ensures ComputeWatermark(MaximaAt(log, next), lateness, t, Some(|log|)) <= TopT(log, next, w, prev)
  {
    var top := TopT(log, next, w, prev);
    PassesExactlyWhen(MaximaAt(log, next), lateness, t, Some(|log|), top);
    PassesExactlyWhen(MaximaAt(log, next), w, prev, Some(|log|), top);
    PassedBefore(log, w, k, next, prev, top);
  }

  lemma NotBack(base: Counts, k: Counts, next: Counts)
    requires AtMost(base, k) && AtMost(k, next) && next != k
    ensures next != base && AtMost(base, next)
  {
    assert next == base ==> k == base;
  }

  /** From here to there T stays, or moves with the committed positions and no further than the window allows. */
  ghost predicate Moved(log: Log, base: Counts, prev: int, w: int, k: Counts, t: int) {
    && Within(log, k) && AllDecoded(log, k) && AtMost(base, k)
    && prev <= t && (t == prev || (k != base && t <= TopT(log, k, w, prev)))
  }

  lemma MovedOn(log: Log, base: Counts, prev: int, w: int, k: Counts, t: int, next: Counts, lateness: int)
    requires WellFormed(log) && Moved(log, base, prev, w, k, t)
    requires Within(log, next) && AllDecoded(log, next) && AtMost(k, next) && next != k && lateness >= w
    ensures Moved(log, base, prev, w, next, ComputeWatermark(MaximaAt(log, next), lateness, t, Some(|log|)))
  {
    NotBack(base, k, next);
    RaisesAtMost(log, k, next, lateness, w, prev, t);
    PassesExactlyWhen(MaximaAt(log, next), lateness, t, Some(|log|), prev - 1);
  }

  ghost predicate MovedTo(log: Log, base: Counts, prev: int, w: int, v: World) {
    && Inv(log, v) && (v.process.Up? ==> v.process.job.lateness >= w)
    && Moved(log, base, prev, w, Committed(log, v), Durable(v.lake).watermarkT)
  }

  lemma WindowKept(log: Log, v: World, s: Step, w: int)
    requires (v.process.Up? ==> v.process.job.lateness >= w) && (s.Start? ==> s.lateness >= w)
    ensures var v' := Apply(log, v, s);
            v'.process.Up? ==> v'.process.job.lateness >= w
  {
  }

  lemma SwapMoved(log: Log, v: World, s: Step, base: Counts, prev: int, w: int)
    requires WellFormed(log) && MovedTo(log, base, prev, w, v) && Swapping(v, s)
    ensures var v' := Apply(log, v, s);
            Moved(log, base, prev, w, Committed(log, v'), Durable(v'.lake).watermarkT)
  {
    var job := v.process.job;
    SwapStep(log, v, s);
    SwapT(log, v, s);
    SwapMovesOn(log, v, s);
    MovedOn(log, base, prev, w, Committed(log, v), Durable(v.lake).watermarkT, job.next, job.lateness);
  }

  lemma MovedStep(log: Log, v: World, s: Step, v': World, base: Counts, prev: int, w: int)
    requires WellFormed(log) && MovedTo(log, base, prev, w, v) && (s.Start? ==> s.lateness >= w)
    requires v' == Apply(log, v, s)
    ensures MovedTo(log, base, prev, w, v')
  {
    StepInv(log, v, s);
    WindowKept(log, v, s, w);
    if Swapping(v, s) {
      SwapMoved(log, v, s, base, prev, w);
    }
  }

  lemma {:induction false} LaterFrom(log: Log, u: World, more: seq<Step>, w: int, base: Counts, prev: int)
    requires WellFormed(log) && WindowsAtLeast(more, w) && MovedTo(log, base, prev, w, u)
    ensures MovedTo(log, base, prev, w, RunFrom(log, u, more))
  {
    if |more| > 0 {
      var n := |more| - 1;
      LaterFrom(log, u, more[..n], w, base, prev);
      MovedStep(log, RunFrom(log, u, more[..n]), more[n], RunFrom(log, u, more), base, prev, w);
    }
  }

  lemma LaterT(log: Log, steps: seq<Step>, more: seq<Step>, w: int)
    requires WellFormed(log) && WindowsAtLeast(steps, w) && WindowsAtLeast(more, w)
    ensures var u := Run(log, steps);
            MovedTo(log, Committed(log, u), Durable(u.lake).watermarkT, w, Run(log, steps + more))
  {
    var u := Run(log, steps);
    RunInv(log, steps);
    ExactlyOnce(log, steps);
    JobWindow(log, steps, w);
    LaterFrom(log, u, more, w, Committed(log, u), Durable(u.lake).watermarkT);
    RunConcat(log, steps, more);
  }

  /** Any T in between is published by some window. */
  lemma WindowFor(log: Log, k: Counts, w: int, prev: int, t: int) returns (lateness: int)
    requires Within(log, k) && prev < t <= TopT(log, k, w, prev)
    ensures lateness >= w && ComputeWatermark(MaximaAt(log, k), lateness, prev, Some(|log|)) == t
  {
    lateness := MinValue(MaximaAt(log, k)) - t;
  }

  // ------------------------------------------------------------- the condition

  /** Between t and t' ClickHouse holds no more rows than the whole log. */
  ghost predicate Backed(log: Log, ch: Rows, t: int, t': int) {
    |Slice(ch, t, t')| <= |Slice(AllRows(log), t, t')|
  }

  /**
   A query that read t, when base is committed, now is published and ClickHouse holds ch:
   whatever T can be published next, the band it moves to the lake's side is backed.
   */
  ghost predicate BandsBacked(log: Log, base: Counts, t: int, now: int, w: int, ch: Rows) {
    && Backed(log, ch, t, now)
    && (forall k: Counts, t': int | Within(log, k) && AllDecoded(log, k) && AtMost(base, k) && k != base
                                    && now < t' <= TopT(log, k, w, now) :: Backed(log, ch, t, t'))
  }

  /** No later query of any continuation counts less. */
  ghost predicate NeverLess(log: Log, steps: seq<Step>, w: int, i: nat, j: nat)
    requires i <= j <= |steps|
  {
    forall more: seq<Step>, i': nat, j': nat, m': nat
      | WindowsAtLeast(more, w) && |steps| <= i' <= j' <= m' <= |steps + more| ::
      Query(log, steps, i, j, |steps|).count <= Query(log, steps + more, i', j', m').count
  }

  lemma SoundOn(log: Log, steps: seq<Step>, more: seq<Step>, w: int)
    requires Sound(log, steps, w) && WindowsAtLeast(more, w)
    ensures Sound(log, steps + more, w)
  {
  }

  lemma SamePast(log: Log, steps: seq<Step>, more: seq<Step>, i: nat)
    requires i <= |steps|
    ensures At(log, steps + more, i) == At(log, steps, i)
  {
    assert (steps + more)[..i] == steps[..i];
  }

  lemma LaterCount(log: Log, steps: seq<Step>, more: seq<Step>, w: int, i: nat, j: nat, i': nat, j': nat, m': nat)
    requires Sound(log, steps, w) && WindowsAtLeast(more, w)
    requires i <= j <= |steps| <= i' <= j' <= m' <= |steps + more|
    ensures var r, r' := Query(log, steps, i, j, |steps|), Query(log, steps + more, i', j', m');
            var ch, ch' := Run(log, steps).ch, At(log, steps + more, m').ch;
            && r.watermarkT == PublishedT(At(log, steps, i).lake) <= r'.watermarkT
            && |Select(ch, r'.watermarkT, false)| <= |Select(ch', r'.watermarkT, false)|
            && r'.count - r.count
               == |Slice(AllRows(log), r.watermarkT, r'.watermarkT)| - |Slice(ch, r.watermarkT, r'.watermarkT)|
                  + (|Select(ch', r'.watermarkT, false)| - |Select(ch, r'.watermarkT, false)|)
  {
    SoundOn(log, steps, more, w);
    SamePast(log, steps, more, i);
    SamePast(log, steps, more, j);
    SamePast(log, steps, more, |steps|);
    assert steps[..|steps|] == steps;
    CountDifference(log, steps + more, w, i, j, |steps|, i', j', m');
  }

  lemma BackedIsEnough(log: Log, steps: seq<Step>, more: seq<Step>, w: int, i: nat, j: nat, i': nat, j': nat, m': nat)
    requires Sound(log, steps, w) && WindowsAtLeast(more, w)
    requires i <= j <= |steps| <= i' <= j' <= m' <= |steps + more|
    requires var u := Run(log, steps);
             BandsBacked(log, Committed(log, u), PublishedT(At(log, steps, i).lake), PublishedT(u.lake), w, u.ch)
    ensures Query(log, steps, i, j, |steps|).count <= Query(log, steps + more, i', j', m').count
  {
    var u, part := Run(log, steps), more[..i' - |steps|];
    LaterCount(log, steps, more, w, i, j, i', j', m');
    LaterT(log, steps, part, w);
    assert (steps + more)[..i'] == steps + part;
    RunInv(log, steps);
    RunInv(log, steps + part);
    PublishedIsDurable(log, u);
    PublishedIsDurable(log, Run(log, steps + part));
    var t' := PublishedT(Run(log, steps + part).lake);
    assert Backed(log, u.ch, PublishedT(At(log, steps, i).lake), t');
  }

  /** A continuation that leaves ClickHouse alone and ends with T at t' shows the band up to t'. */
  lemma BandShown(log: Log, steps: seq<Step>, more: seq<Step>, w: int, i: nat, j: nat, t': int)
    requires Sound(log, steps, w) && i <= j <= |steps| && NeverLess(log, steps, w, i, j)
    requires WindowsAtLeast(more, w) && LeavesClickHouse(more) && PublishedT(Run(log, steps + more).lake) == t'
    ensures Backed(log, Run(log, steps).ch, PublishedT(At(log, steps, i).lake), t')
  {
    var n := |steps + more|;
    LaterCount(log, steps, more, w, i, j, n, n, n);
    assert (steps + more)[..n] == steps + more;
    RunConcat(log, steps, more);
    ChUntouched(log, Run(log, steps), more);
    assert Query(log, steps, i, j, |steps|).count <= Query(log, steps + more, n, n, n).count;
  }

  lemma BandReached(log: Log, steps: seq<Step>, w: int, i: nat, j: nat, k: Counts, t': int)
    requires Sound(log, steps, w) && i <= j <= |steps| && NeverLess(log, steps, w, i, j)
    requires var u := Run(log, steps);
             && Within(log, k) && AllDecoded(log, k) && AtMost(Committed(log, u), k) && k != Committed(log, u)
             && PublishedT(u.lake) < t' <= TopT(log, k, w, PublishedT(u.lake))
    ensures Backed(log, Run(log, steps).ch, PublishedT(At(log, steps, i).lake), t')
  {
    var u := Run(log, steps);
    var base := Committed(log, u);
    var lateness := WindowFor(log, k, w, PublishedT(u.lake), t');
    OnwardCommits(log, steps, k, lateness);
    OnwardSteps(base, k, lateness);
    OnwardLeavesClickHouse(base, k, lateness);
    BandShown(log, steps, Onward(base, k, lateness), w, i, j, t');
  }

  /**
   After a query that ends now no later query ever counts less, whatever is polled,
   committed, crashed, restarted or redelivered, if and only if every band a further commit
   can move to the lake's side is backed by the log.
   */
  lemma NeverLessExactlyWhen(log: Log, steps: seq<Step>, w: int, i: nat, j: nat)
    requires Sound(log, steps, w) && i <= j <= |steps|
    ensures var u := Run(log, steps);
            NeverLess(log, steps, w, i, j)
            <==> BandsBacked(log, Committed(log, u), PublishedT(At(log, steps, i).lake), PublishedT(u.lake), w, u.ch)
  {
    var u, t := Run(log, steps), PublishedT(At(log, steps, i).lake);
    var base, now := Committed(log, u), PublishedT(u.lake);
    if BandsBacked(log, base, t, now, w, u.ch) {
      forall more: seq<Step>, i': nat, j': nat, m': nat
        | WindowsAtLeast(more, w) && |steps| <= i' <= j' <= m' <= |steps + more|
        ensures Query(log, steps, i, j, |steps|).count <= Query(log, steps + more, i', j', m').count
      {
        BackedIsEnough(log, steps, more, w, i, j, i', j', m');
      }
    }
    if NeverLess(log, steps, w, i, j) {
      assert steps + [] == steps;
      BandShown(log, steps, [], w, i, j, now);
      forall k: Counts, t': int | Within(log, k) && AllDecoded(log, k) && AtMost(base, k) && k != base
                                  && now < t' <= TopT(log, k, w, now)
        ensures Backed(log, u.ch, t, t')
      {
        BandReached(log, steps, w, i, j, k, t');
      }
    }
  }
}
