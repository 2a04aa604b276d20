/**
 The topic: append-only partition logs whose offsets increase but need not be
 dense, and what a prefix of them amounts to.

 A log here is everything its partition will ever hold, so statements about it
 cover records not yet produced.
 */
module Broker {
  import opened Schema

  /** A record that decodes to an event, or one that from_json rejects. */
  datatype Entry = Good(offset: nat, event: OrderEvent) | Bad(offset: nat)

  type PartitionLog = seq<Entry>

  type Log = seq<PartitionLog>

  /** One count per partition: "the first k[p] entries of partition p". */
  type Counts = seq<nat>

  /** The logical offset a consumer without a position is assigned. */
  const OFFSET_BEGINNING := -2

  predicate Increasing(l: PartitionLog) { forall i, j | 0 <= i < j < |l| :: l[i].offset < l[j].offset }

  predicate WellFormed(log: Log) { forall p | 0 <= p < |log| :: Increasing(log[p]) }

  predicate Within(log: Log, k: Counts) { |k| == |log| && forall p | 0 <= p < |log| :: k[p] <= |log[p]| }

  predicate Decoded(l: PartitionLog) { forall i | 0 <= i < |l| :: l[i].Good? }

  predicate AllDecoded(log: Log, k: Counts)
    requires Within(log, k)
  {
    forall p | 0 <= p < |log| :: Decoded(log[p][..k[p]])
  }

  predicate AtMost(k: Counts, h: Counts) { |k| == |h| && forall p | 0 <= p < |k| :: k[p] <= h[p] }

  function Zeros(n: nat): (k: Counts)
    ensures |k| == n && forall p | 0 <= p < n :: k[p] == 0
  {
    seq(n, _ => 0)
  }

  function Full(log: Log): (k: Counts)
    ensures Within(log, k)
  {
    seq(|log|, p requires 0 <= p < |log| => |log[p]|)
  }

  // --------------------------------------------------------- contents of prefixes

  function Events(l: PartitionLog): multiset<OrderEvent> {
    if |l| == 0 then multiset{}
    else Events(l[..|l| - 1]) + (if l[|l| - 1].Good? then multiset{l[|l| - 1].event} else multiset{})
  }

  /** The events in the first k[p] entries of each of the first n partitions. */
  function EventsOf(log: Log, k: Counts, n: nat): multiset<OrderEvent>
    requires Within(log, k) && n <= |log|
  {
    if n == 0 then multiset{} else EventsOf(log, k, n - 1) + Events(log[n - 1][..k[n - 1]])
  }

  function EventsUpTo(log: Log, k: Counts): multiset<OrderEvent>
    requires Within(log, k)
  {
    EventsOf(log, k, |log|)
  }

  /** The running maximum of event times, which starts at zero as part_max.get(p, 0) does. */
  function MaxTime(l: PartitionLog): int {
    if |l| == 0 then 0
    else
      var before, last := MaxTime(l[..|l| - 1]), l[|l| - 1];
      if last.Good? && before < last.event.eventTimeMs then last.event.eventTimeMs else before
  }

  /** next offset to consume, per partition with something consumed */
  function OffsetsAt(log: Log, k: Counts): map<int, int>
    requires Within(log, k)
  {
    map p | 0 <= p < |log| && k[p] > 0 :: log[p][k[p] - 1].offset + 1
  }

  function MaximaAt(log: Log, k: Counts): map<int, int>
    requires Within(log, k)
  {
    map p | 0 <= p < |log| && k[p] > 0 :: MaxTime(log[p][..k[p]])
  }

  // ----------------------------------------------------------------- seeking

  /** Where a consumer assigned the given offset resumes: the first entry at or past it. */
  function Seek(l: PartitionLog, offset: int): (n: nat)
    ensures n <= |l|
  {
    if |l| == 0 || l[0].offset >= offset then 0 else 1 + Seek(l[1..], offset)
  }

  function AssignedOffset(offsets: map<int, int>, p: int): int {
    if p in offsets then offsets[p] else OFFSET_BEGINNING
  }

  function Positions(log: Log, offsets: map<int, int>): (k: Counts)
    ensures Within(log, k)
  {
    seq(|log|, p requires 0 <= p < |log| => Seek(log[p], AssignedOffset(offsets, p)))
  }

  /** Seeking past an entry lands right after it, gaps or not. */
  lemma {:induction false} SeekPast(l: PartitionLog, i: nat)
    requires Increasing(l) && i < |l|
    ensures Seek(l, l[i].offset + 1) == i + 1
  {
    if i == 0 {
      assert |l| > 1 ==> l[1..][0] == l[1];
    } else {
      SeekPast(l[1..], i - 1);
      assert l[1..][i - 1] == l[i];
    }
  }

  /** Resume positions and committed offsets determine each other. */
  lemma PositionsOfOffsets(log: Log, k: Counts)
    requires WellFormed(log) && Within(log, k)
    ensures Positions(log, OffsetsAt(log, k)) == k
  {
    forall p | 0 <= p < |log|
      ensures Positions(log, OffsetsAt(log, k))[p] == k[p]
    {
      if k[p] > 0 {
        SeekPast(log[p], k[p] - 1);
      }
    }
  }

  // ---------------------------------------------------------- one more entry

  lemma EventsSnoc(l: PartitionLog, i: nat)
    requires i < |l|
    ensures Events(l[..i + 1]) == Events(l[..i]) + (if l[i].Good? then multiset{l[i].event} else multiset{})
    ensures MaxTime(l[..i + 1]) == if l[i].Good? && MaxTime(l[..i]) < l[i].event.eventTimeMs
                                   then l[i].event.eventTimeMs else MaxTime(l[..i])
    ensures Decoded(l[..i + 1]) <==> Decoded(l[..i]) && l[i].Good?
  {
    assert l[..i + 1][..i] == l[..i];
    assert forall j | 0 <= j < i :: l[..i + 1][j] == l[..i][j];
  }

  function Advance(k: Counts, p: nat): Counts
    requires p < |k|
  {
    k[p := k[p] + 1]
  }

  lemma AddLate(a: multiset<OrderEvent>, b: multiset<OrderEvent>, x: multiset<OrderEvent>)
    ensures a + x + b == a + b + x && a + (b + x) == a + b + x
  {
  }

  /** What the next entry of partition p adds. */
  function Single(log: Log, k: Counts, p: nat): multiset<OrderEvent>
    requires Within(log, k) && p < |log| && k[p] < |log[p]|
  {
    if log[p][k[p]].Good? then multiset{log[p][k[p]].event} else multiset{}
  }

  lemma {:induction false} EventsBeside(log: Log, k: Counts, p: nat, n: nat)
    requires Within(log, k) && p < |log| && k[p] < |log[p]| && n <= p
    requires Within(log, Advance(k, p))
    ensures EventsOf(log, Advance(k, p), n) == EventsOf(log, k, n)
  {
    if n > 0 {
      EventsBeside(log, k, p, n - 1);
      assert Advance(k, p)[n - 1] == k[n - 1];
    }
  }

  lemma EventsAdvanceHere(log: Log, k: Counts, p: nat)
    requires Within(log, k) && p < |log| && k[p] < |log[p]|
    requires Within(log, Advance(k, p))
    ensures EventsOf(log, Advance(k, p), p + 1) == EventsOf(log, k, p + 1) + Single(log, k, p)
  {
    EventsBeside(log, k, p, p);
    EventsSnoc(log[p], k[p]);
    AddLate(EventsOf(log, k, p), Events(log[p][..k[p]]), Single(log, k, p));
  }

  lemma {:induction false} EventsAdvance(log: Log, k: Counts, p: nat, n: nat)
    requires Within(log, k) && p < n <= |log| && k[p] < |log[p]|
    requires Within(log, Advance(k, p))
    ensures EventsOf(log, Advance(k, p), n) == EventsOf(log, k, n) + Single(log, k, p)
  {
    if n - 1 == p {
      EventsAdvanceHere(log, k, p);
    } else {
      EventsAdvance(log, k, p, n - 1);
      assert Advance(k, p)[n - 1] == k[n - 1];
      AddLate(EventsOf(log, k, n - 1), Events(log[n - 1][..k[n - 1]]), Single(log, k, p));
    }
  }

  lemma MapsAdvance(log: Log, k: Counts, p: nat)
    requires Within(log, k) && p < |log| && k[p] < |log[p]| && log[p][k[p]].Good?
    requires Within(log, Advance(k, p))
    ensures OffsetsAt(log, Advance(k, p)) == OffsetsAt(log, k)[p := log[p][k[p]].offset + 1]
    ensures MaximaAt(log, Advance(k, p)) == MaximaAt(log, k)[p := MaxTime(log[p][..k[p] + 1])]
  {
  }

  // --------------------------------------------------------------- maxima

  lemma {:induction false} MaxTimeBound(l: PartitionLog, t: int)
    ensures MaxTime(l) > t <==> 0 > t || exists i :: 0 <= i < |l| && l[i].Good? && l[i].event.eventTimeMs > t
  {
    if |l| > 0 {
      var init := l[..|l| - 1];
      MaxTimeBound(init, t);
      assert forall i | 0 <= i < |l| - 1 :: init[i] == l[i];
      if i :| 0 <= i < |l| && l[i].Good? && l[i].event.eventTimeMs > t {
        assert i < |l| - 1 ==> init[i].Good?;
      }
    }
  }

  lemma {:induction false} MaxTimeMonotone(l: PartitionLog, i: nat, j: nat)
    requires i <= j <= |l|
    ensures 0 <= MaxTime(l[..i]) <= MaxTime(l[..j])
    decreases j
  {
    if i < j {
      MaxTimeMonotone(l, i, j - 1);
      EventsSnoc(l, j - 1);
    } else if i > 0 {
      MaxTimeMonotone(l, i - 1, i - 1);
      EventsSnoc(l, i - 1);
    }
  }

  // ----------------------------------------------------------- counting rows

  function Sum(k: Counts, n: nat): nat
    requires n <= |k|
  {
    if n == 0 then 0 else Sum(k, n - 1) + k[n - 1]
  }

  lemma {:induction false} EventsSize(l: PartitionLog)
    requires Decoded(l)
    ensures |Events(l)| == |l|
  {
    if |l| > 0 {
      EventsSize(l[..|l| - 1]);
    }
  }

  /** Decoded prefixes hold one event per entry. */
  lemma {:induction false} EventsOfSize(log: Log, k: Counts, n: nat)
    requires Within(log, k) && AllDecoded(log, k) && n <= |log|
    ensures |EventsOf(log, k, n)| == Sum(k, n)
  {
    if n > 0 {
      EventsOfSize(log, k, n - 1);
      EventsSize(log[n - 1][..k[n - 1]]);
    }
  }

  // ------------------------------------------------------------- below a time

  /** No entry past the first k[p] has an event time below t. */
  predicate Settled(log: Log, k: Counts, t: int)
    requires Within(log, k)
  {
    forall p, j | 0 <= p < |log| && k[p] <= j < |log[p]| && log[p][j].Good? :: log[p][j].event.eventTimeMs >= t
  }

  lemma {:induction false} LateEntriesAddNothing(l: PartitionLog, i: nat, j: nat, x: OrderEvent)
    requires i <= j <= |l|
    requires forall m | i <= m < j && l[m].Good? :: l[m].event != x
    ensures Events(l[..j])[x] == Events(l[..i])[x]
    decreases j
  {
    if i < j {
      LateEntriesAddNothing(l, i, j - 1, x);
      EventsSnoc(l, j - 1);
    }
  }

  /** Below t, a settled prefix already holds every copy that any longer prefix holds. */
  lemma {:induction false} SettledCounts(log: Log, k: Counts, h: Counts, t: int, x: OrderEvent, n: nat)
    requires Within(log, k) && Within(log, h) && AtMost(k, h) && Settled(log, k, t)
    requires x.eventTimeMs < t && n <= |log|
    ensures EventsOf(log, h, n)[x] == EventsOf(log, k, n)[x]
  {
    if n > 0 {
      SettledCounts(log, k, h, t, x, n - 1);
      LateEntriesAddNothing(log[n - 1], k[n - 1], h[n - 1], x);
    }
  }

  /** A longer prefix holds every copy a shorter one does. */
  lemma {:induction false} EventsMonotone(log: Log, k: Counts, h: Counts, n: nat)
    requires Within(log, k) && Within(log, h) && AtMost(k, h) && n <= |log|
    ensures EventsOf(log, k, n) <= EventsOf(log, h, n)
  {
    if n > 0 {
      EventsMonotone(log, k, h, n - 1);
      PrefixEvents(log[n - 1], k[n - 1], h[n - 1]);
    }
  }

  lemma {:induction false} PrefixEvents(l: PartitionLog, i: nat, j: nat)
    requires i <= j <= |l|
    ensures Events(l[..i]) <= Events(l[..j])
    decreases j
  {
    if i < j {
      PrefixEvents(l, i, j - 1);
      EventsSnoc(l, j - 1);
    }
  }
}
