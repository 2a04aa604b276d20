/**
 The limits of the published watermark: exactly which logs it is safe for, and why
 no rule that sees only committed records could publish more (lake/watermark.py).
 */
module WatermarkLimits {
  import opened Broker
  import opened IntSets
  import opened OnePartition
  import opened Protocol
  import opened Reachability
  import opened SafeWatermark
  import opened Schema
  import opened Watermark
  import opened Wrappers

  // --------------------------------------------------- exactly when it is safe

  ghost function OverrunIndex(l: PartitionLog, w: int, t: int, n: nat): (i: nat)
    requires Overruns(l, w, t, n)
    ensures i < n && OverrunAt(l, w, t, i)
  {
    var i: nat :| i < n && OverrunAt(l, w, t, i);
    i
  }

  /** The positions just past the events that overrun an exposed entry. */
  ghost function Overrunning(log: Log, w: int, p: int, j: int): (k: Counts)
    requires 0 <= p < |log| && 0 <= j < |log[p]| && log[p][j].Good? && Exposed(log, w, p, j)
    ensures Within(log, k)
  {
    seq(|log|, q requires 0 <= q < |log| =>
      OverrunIndex(log[q], w, log[p][j].event.eventTimeMs, if q == p then j else |log[q]|) + 1)
  }

  lemma OverrunDecoded(log: Log, w: int, p: int, j: int)
    requires 0 <= p < |log| && 0 <= j < |log[p]| && log[p][j].Good? && Exposed(log, w, p, j)
    ensures var k, t := Overrunning(log, w, p, j), log[p][j].event.eventTimeMs;
            && AllDecoded(log, k) && k[p] <= j
            && (forall q | 0 <= q < |log| :: q in MaximaAt(log, k) && MaximaAt(log, k)[q] - w > t)
            && TAt(log, w, k) > t
  {
    var k, t := Overrunning(log, w, p, j), log[p][j].event.eventTimeMs;
    forall q | 0 <= q < |log|
      ensures MaximaAt(log, k)[q] - w > t
    {
      var i := k[q] - 1;
      assert OverrunAt(log[q], w, t, i);
      assert log[q][..i + 1][i] == log[q][i];
      MaxTimeBound(log[q][..k[q]], t + w);
    }
    var m := MaximaAt(log, k);
    IdsSize(|log|);
    assert m.Keys == Ids(|log|);
    assert |m| == |m.Keys|;
    PassesExactlyWhen(m, w, 0, Some(|log|), t);
  }

  /** An exposed entry is dropped by the seam in some run. */
  lemma ExposedIsUnsafe(log: Log, w: int, p: int, j: int)
    requires WellFormed(log)
    requires 0 <= p < |log| && 0 <= j < |log[p]| && log[p][j].Good? && Exposed(log, w, p, j)
    ensures var steps := Reaching(Overrunning(log, w, p, j), w);
            ConstantWindow(steps, w) && !Safe(log, Run(log, steps))
  {
    var k := Overrunning(log, w, p, j);
    var steps := Reaching(k, w);
    OverrunDecoded(log, w, p, j);
    EveryPositionReachable(log, k, w);
    DurableByPosition(log, steps, w);
  }

  ghost predicate AlwaysSafe(log: Log, w: int) {
    forall steps: seq<Step> | ConstantWindow(steps, w) :: Safe(log, Run(log, steps))
  }

  /**
   The watermark is safe in every run with window w exactly when no event time is
   negative and no entry is exposed; both can be read off the log beforehand.
   */
  lemma SafeExactlyWhen(log: Log, w: int)
    requires WellFormed(log)
    ensures AlwaysSafe(log, w) <==> NonNegative(log) && NothingExposed(log, w)
  {
    if NonNegative(log) && NothingExposed(log, w) {
      forall steps: seq<Step> | ConstantWindow(steps, w)
        ensures Safe(log, Run(log, steps))
      {
        WatermarkSafe(log, steps, w);
      }
    }
    if AlwaysSafe(log, w) {
      assert ConstantWindow([], w) && Safe(log, Run(log, []));
      InitialInv(log);
      PublishedIsDurable(log, Run(log, []));
      forall p, j | 0 <= p < |log| && 0 <= j < |log[p]| && log[p][j].Good?
        ensures !Exposed(log, w, p, j)
      {
        if Exposed(log, w, p, j) {
          ExposedIsUnsafe(log, w, p, j);
          assert false;
        }
      }
    }
  }

  /** The shortest such log: a record more than the window late, in a topic of one partition. */
  lemma LateRecordIsUnsafe(early: OrderEvent, late: OrderEvent)
    requires early.eventTimeMs == 100 && late.eventTimeMs == 5
    ensures var log := Only([early, late]);
            WellFormed(log) && NonNegative(log) && Exposed(log, 10, 0, 1) && !AlwaysSafe(log, 10)
  {
    var log := Only([early, late]);
    OnlyDecoded([early, late]);
    assert Decoded(log[0][..1]);
    assert OverrunAt(log[0], 10, 5, 0);
    assert Overruns(log[0], 10, 5, 1);
    SafeExactlyWhen(log, 10);
  }

  // --------------------------------------------------------------- maximality

  /** The partition that holds T back: an unseen one, or one whose maximum is the least. */
  lemma SlowestPartition(log: Log, w: int, k: Counts) returns (q: int)
    requires Within(log, k) && |log| > 0
    ensures 0 <= q < |log|
    ensures k[q] == 0 ==> TAt(log, w, k) == 0
    ensures k[q] > 0 ==> TAt(log, w, k) == Max(0, MaxTime(log[q][..k[q]]) - w)
  {
    if p :| 0 <= p < |log| && k[p] == 0 {
      q := p;
      UnseenHoldsBack(log, w, k, p);
    } else {
      AllPartitionsSeen(log, k);
      q := PickKey(MaximaAt(log, k), MinValue(MaximaAt(log, k)));
    }
  }

  lemma UnseenHoldsBack(log: Log, w: int, k: Counts, q: int)
    requires Within(log, k) && 0 <= q < |log| && k[q] == 0
    ensures TAt(log, w, k) == 0
  {
    IdsSize(|log|);
    assert MaximaAt(log, k).Keys <= Ids(|log|) - {q};
    SubsetSize(MaximaAt(log, k).Keys, Ids(|log|) - {q});
  }

  lemma AllPartitionsSeen(log: Log, k: Counts)
    requires Within(log, k) && forall p | 0 <= p < |log| :: k[p] > 0
    ensures |MaximaAt(log, k)| == |log|
  {
    IdsSize(|log|);
    assert MaximaAt(log, k).Keys == Ids(|log|);
    assert |MaximaAt(log, k)| == |MaximaAt(log, k).Keys|;
  }

  /** The committed prefixes, with one more record behind those of partition q. */
  function Continued(log: Log, k: Counts, q: int, e: OrderEvent): Log
    requires Within(log, k) && 0 <= q < |log|
  {
    var offset: nat := if k[q] > 0 then log[q][k[q] - 1].offset + 1 else 0;
    seq(|log|, p requires 0 <= p < |log| => log[p][..k[p]] + (if p == q then [Good(offset, e)] else []))
  }

  lemma PrefixMaximum(l: PartitionLog, n: nat, i: nat)
    requires i < n <= |l| && l[i].Good?
    ensures l[i].event.eventTimeMs <= MaxTime(l[..n])
  {
    MaxTimeBound(l[..n], MaxTime(l[..n]));
    assert l[..n][i] == l[i];
  }

  /** A record that waits exactly as long as the window allows continues the log legally. */
  lemma ContinuationLegal(log: Log, w: int, k: Counts, q: int, e: OrderEvent)
    requires WellFormed(log) && NonNegative(log) && BoundedDisorder(log, w)
    requires Within(log, k) && 0 <= q < |log|
    requires e.eventTimeMs >= 0 && (k[q] > 0 ==> e.eventTimeMs >= MaxTime(log[q][..k[q]]) - w)
    ensures var other := Continued(log, k, q, e);
            WellFormed(other) && NonNegative(other) && BoundedDisorder(other, w)
  {
    var other: Log := Continued(log, k, q, e);
    forall p, i, j | 0 <= p < |other| && 0 <= i < j < |other[p]|
      ensures other[p][i].offset < other[p][j].offset
      ensures other[p][i].Good? && other[p][j].Good? ==>
                other[p][j].event.eventTimeMs >= other[p][i].event.eventTimeMs - w
    {
      assert other[p][i] == log[p][i];
      if j < k[p] {
        assert other[p][j] == log[p][j];
      } else {
        assert log[p][i].offset <= log[p][k[p] - 1].offset;
        if log[p][i].Good? {
          PrefixMaximum(log[p], k[p], i);
        }
      }
    }
    forall p, j | 0 <= p < |other| && 0 <= j < |other[p]| && other[p][j].Good?
      ensures other[p][j].event.eventTimeMs >= 0
    {
      assert j < k[p] ==> other[p][j] == log[p][j];
    }
  }

  /** Committed prefixes determine T, so a log that shares them publishes the same T. */
  lemma SharedPrefixT(log: Log, other: Log, w: int, k: Counts)
    requires Within(log, k) && Within(other, k) && |other| == |log|
    requires forall p | 0 <= p < |log| :: other[p][..k[p]] == log[p][..k[p]]
    ensures TAt(other, w, k) == TAt(log, w, k)
  {
    assert MaximaAt(other, k) == MaximaAt(log, k);
  }

  lemma SharedPrefixDecoded(log: Log, other: Log, k: Counts)
    requires Within(log, k) && Within(other, k) && AllDecoded(log, k)
    requires |other| == |log| && forall p | 0 <= p < |log| :: other[p][..k[p]] == log[p][..k[p]]
    ensures AllDecoded(other, k)
  {
  }

  /**
   T cannot be raised: whatever has been committed, there is another legal log with the
   same committed prefixes on which some run commits exactly those, publishes the same T,
   and has yet to see an event of time T. Any rule that reads only committed records and
   answers more than T drops that event.
   */
  lemma WatermarkMaximal(log: Log, w: int, k: Counts, e: OrderEvent) returns (other: Log, q: int)
    requires WellFormed(log) && NonNegative(log) && BoundedDisorder(log, w)
    requires Within(log, k) && AllDecoded(log, k) && |log| > 0
    ensures |other| == |log| && WellFormed(other) && NonNegative(other) && BoundedDisorder(other, w)
    ensures Within(other, k) && forall p | 0 <= p < |log| :: other[p][..k[p]] == log[p][..k[p]]
    ensures ConstantWindow(Reaching(k, w), w)
    ensures Committed(other, Run(other, Reaching(k, w))) == k
    ensures PublishedT(Run(other, Reaching(k, w)).lake) == TAt(log, w, k)
    ensures 0 <= q < |other| && k[q] < |other[q]|
    ensures other[q][k[q]].Good? && other[q][k[q]].event == e.(eventTimeMs := TAt(log, w, k))
  {
    q := SlowestPartition(log, w, k);
    var late := e.(eventTimeMs := TAt(log, w, k));
    PassesExactlyWhen(MaximaAt(log, k), w, 0, Some(|log|), -1);
    other := Continued(log, k, q, late);
    ContinuationLegal(log, w, k, q, late);
    assert forall p | 0 <= p < |log| :: other[p][..k[p]] == log[p][..k[p]];
    SharedPrefixT(log, other, w, k);
    SharedPrefixDecoded(log, other, k);
    EveryPositionReachable(other, k, w);
    DurableByPosition(other, Reaching(k, w), w);
  }
}
