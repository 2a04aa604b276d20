/**
 From the generator to the seam: what keyed routing does to the generator's list, and
 what the landing protocol and the seam then guarantee about it (events/generator.py).
 */
module Pipeline {
  import opened Broker
  import opened Generator
  import opened GroundTruth
  import opened Orders
  import opened Protocol
  import opened Reachability
  import opened Rows
  import opened SafeWatermark
  import opened Safety
  import opened Schema
  import opened Seam
  import opened Wrappers

  // ---------------------------------------------------------------- routing

  /** The events whose key the partitioner sends to p, in emission order. */
  function Routed(events: Rows, f: string -> nat, p: nat): Rows {
    if |events| == 0 then []
    else
      var last := events[|events| - 1];
      Routed(events[..|events| - 1], f, p) + (if f(last.orderId) == p then [last] else [])
  }

  /** What a consumer decodes from the value produce sends for e. */
  function Delivered(e: OrderEvent, offset: nat): Entry {
    match FromJson(ToJson(e))
    case Ok(d) => Good(offset, d)
    case Err(_) => Bad(offset)
  }

  /** A partition log carrying these events in order, at whatever increasing offsets the broker gave them. */
  ghost predicate Logged(l: PartitionLog, events: Rows) {
    |l| == |events| && forall i | 0 <= i < |l| :: l[i] == Delivered(events[i], l[i].offset)
  }

  /** The topic after produce(events): each event in the partition its order id hashes to. */
  ghost predicate Topic(log: Log, events: Rows, f: string -> nat) {
    && WellFormed(log)
    && (forall e | e in events :: f(e.orderId) < |log|)
    && (forall p | 0 <= p < |log| :: Logged(log[p], Routed(events, f, p)))
  }

  /** What the wire needs of an event to deliver it unchanged. */
  predicate Wireable(events: Rows) { forall e | e in events :: e.Known() && WholeCents(e.amount) }

  lemma DeliveredExact(e: OrderEvent, offset: nat)
    ensures Delivered(e, offset) == Good(offset, e) <==> e.Known() && WholeCents(e.amount)
  {
    JsonRoundTripExact(e);
  }

  /** A log of the events themselves carries a wireable list. */
  lemma LoggedExact(l: PartitionLog, events: Rows)
    requires Wireable(events) && |l| == |events|
    requires forall i | 0 <= i < |l| :: l[i] == Good(l[i].offset, events[i])
    ensures Logged(l, events)
  {
    forall i | 0 <= i < |l|
      ensures l[i] == Delivered(events[i], l[i].offset)
    {
      assert events[i] in events;
      DeliveredExact(events[i], l[i].offset);
    }
  }

  lemma {:induction false} RoutedCounts(events: Rows, f: string -> nat, p: nat)
    ensures forall x :: multiset(Routed(events, f, p))[x] == if f(x.orderId) == p then multiset(events)[x] else 0
  {
    if |events| > 0 {
      RoutedCounts(events[..|events| - 1], f, p);
      MultisetLast(events);
    }
  }

  lemma RoutedMember(events: Rows, f: string -> nat, p: nat, e: OrderEvent)
    ensures e in Routed(events, f, p) <==> e in events && f(e.orderId) == p
  {
    RoutedCounts(events, f, p);
    assert e in Routed(events, f, p) <==> multiset(Routed(events, f, p))[e] > 0;
    assert e in events <==> multiset(events)[e] > 0;
  }

  /** On a wireable list the topic carries the events themselves. */
  lemma TopicEntry(log: Log, events: Rows, f: string -> nat, p: nat, i: nat)
    requires Topic(log, events, f) && Wireable(events) && p < |log| && i < |log[p]|
    ensures |log[p]| == |Routed(events, f, p)|
    ensures log[p][i].Good? && log[p][i].event == Routed(events, f, p)[i] && log[p][i].event in events
  {
    var e := Routed(events, f, p)[i];
    assert e in Routed(events, f, p);
    RoutedMember(events, f, p, e);
    DeliveredExact(e, log[p][i].offset);
  }

  lemma {:induction false} LoggedEvents(l: PartitionLog, events: Rows)
    requires |l| == |events| && forall i | 0 <= i < |l| :: l[i].Good? && l[i].event == events[i]
    ensures Events(l) == multiset(events) && Decoded(l)
  {
    if |l| > 0 {
      LoggedEvents(l[..|l| - 1], events[..|events| - 1]);
      MultisetLast(events);
    }
  }

  lemma PartitionEvents(log: Log, events: Rows, f: string -> nat, p: nat)
    requires Topic(log, events, f) && Wireable(events) && p < |log|
    ensures Events(log[p]) == multiset(Routed(events, f, p)) && Decoded(log[p])
  {
    forall i | 0 <= i < |log[p]|
      ensures log[p][i].Good? && log[p][i].event == Routed(events, f, p)[i]
    {
      TopicEntry(log, events, f, p, i);
    }
    LoggedEvents(log[p], Routed(events, f, p));
  }

  lemma PartitionCount(log: Log, events: Rows, f: string -> nat, p: nat, x: OrderEvent)
    requires Topic(log, events, f) && Wireable(events) && p < |log|
    ensures Events(log[p][..Full(log)[p]])[x] == if f(x.orderId) == p then multiset(events)[x] else 0
  {
    assert log[p][..Full(log)[p]] == log[p];
    PartitionEvents(log, events, f, p);
    RoutedCounts(events, f, p);
  }

  /** When only partition g holds copies of x, all of them are counted once n passes g. */
  lemma {:induction false} OnePartitionHolds(log: Log, k: Counts, x: OrderEvent, g: nat, copies: nat, n: nat)
    requires Within(log, k) && n <= |log|
    requires forall p | 0 <= p < |log| :: Events(log[p][..k[p]])[x] == if p == g then copies else 0
    ensures EventsOf(log, k, n)[x] == if g < n then copies else 0
  {
    if n > 0 {
      OnePartitionHolds(log, k, x, g, copies, n - 1);
    }
  }

  /** Routing loses nothing and duplicates nothing, and every record decodes. */
  lemma TopicConserves(log: Log, events: Rows, f: string -> nat)
    requires Topic(log, events, f) && Wireable(events)
    ensures EventsUpTo(log, Full(log)) == multiset(events)
    ensures forall p | 0 <= p < |log| :: Decoded(log[p])
  {
    forall x: OrderEvent
      ensures EventsUpTo(log, Full(log))[x] == multiset(events)[x]
    {
      forall p | 0 <= p < |log|
        ensures Events(log[p][..Full(log)[p]])[x] == if p == f(x.orderId) then multiset(events)[x] else 0
      {
        PartitionCount(log, events, f, p, x);
      }
      OnePartitionHolds(log, Full(log), x, f(x.orderId), multiset(events)[x], |log|);
      if x in events {
        assert f(x.orderId) < |log|;
      }
    }
    forall p | 0 <= p < |log|
      ensures Decoded(log[p])
    {
      PartitionEvents(log, events, f, p);
    }
  }

  // ------------------------------------------------- disorder survives routing

  lemma {:induction false} RoutedDisorder(events: Rows, f: string -> nat, p: nat, w: int)
    requires Disorder(events, w)
    ensures Disorder(Routed(events, f, p), w)
  {
    if |events| > 0 {
      var init, last := events[..|events| - 1], events[|events| - 1];
      assert Disorder(init, w);
      RoutedDisorder(init, f, p, w);
      var r := Routed(init, f, p);
      forall i | 0 <= i < |r|
        ensures last.eventTimeMs > r[i].eventTimeMs - w
      {
        RoutedMember(init, f, p, r[i]);
        var k :| 0 <= k < |init| && init[k] == r[i];
        assert events[k] == r[i] && events[|init|] == last;
      }
    }
  }

  /**
   The generator discharges what the watermark assumes: for any routing by order id, every
   partition log meets the disorder bound and holds no negative time.
   */
  lemma GeneratorMeetsAssumptions(log: Log, events: Rows, f: string -> nat, start: int, w: int)
    requires Jittered(events, start, w) && start >= 0 && Wireable(events) && Topic(log, events, f)
    ensures NonNegative(log) && BoundedDisorder(log, w - 1) && NothingExposed(log, w)
  {
    JitterBoundsDisorder(events, start, w);
    forall p, j | 0 <= p < |log| && 0 <= j < |log[p]| && log[p][j].Good?
      ensures log[p][j].event.eventTimeMs >= 0
    {
      TopicEntry(log, events, f, p, j);
      var k :| 0 <= k < |events| && events[k] == log[p][j].event;
      assert start + k * STEP_MS <= events[k].eventTimeMs;
    }
    forall p, i, j | 0 <= p < |log| && 0 <= i < j < |log[p]| && log[p][i].Good? && log[p][j].Good?
      ensures log[p][j].event.eventTimeMs >= log[p][i].event.eventTimeMs - (w - 1)
    {
      RoutedDisorder(events, f, p, w);
      TopicEntry(log, events, f, p, i);
      TopicEntry(log, events, f, p, j);
    }
    assert BoundedDisorder(log, w);
    DisorderExposesNothing(log, w);
  }

  // ------------------------------------------------------- causal closure

  /** In its partition a cancellation comes after the creation of its order. */
  lemma {:induction false} CreationFirst(events: Rows, f: string -> nat, p: nat, i: nat)
    requires Paired(events) && i < |Routed(events, f, p)| && !Routed(events, f, p)[i].Created()
    ensures exists j :: 0 <= j < i && Routed(events, f, p)[j].Created()
                        && Routed(events, f, p)[j].orderId == Routed(events, f, p)[i].orderId
  {
    var init, e := events[..|events| - 1], events[|events| - 1];
    var r := Routed(init, f, p);
    if i < |r| {
      CreationFirst(init, f, p, i);
      var j :| 0 <= j < i && r[j].Created() && r[j].orderId == r[i].orderId;
      assert Routed(events, f, p)[j] == r[j];
    } else {
      var o := OpenOrder(e.orderId, e.amount, e.userId);
      OpenWasCreated(init, o);
      var c :| c in init && Opens(c, o);
      RoutedMember(init, f, p, c);
      var j :| 0 <= j < |r| && r[j] == c;
      assert Routed(events, f, p)[j] == c;
    }
  }

  lemma {:induction false} EventInPrefix(log: Log, k: Counts, n: nat, e: OrderEvent)
    requires Within(log, k) && n <= |log| && e in EventsOf(log, k, n)
    ensures exists p, i :: 0 <= p < n && 0 <= i < k[p] && log[p][i].Good? && log[p][i].event == e
  {
    if e in EventsOf(log, k, n - 1) {
      EventInPrefix(log, k, n - 1, e);
    } else {
      EntryInPrefix(log[n - 1], k[n - 1], e);
    }
  }

  lemma {:induction false} EntryInPrefix(l: PartitionLog, n: nat, e: OrderEvent)
    requires n <= |l| && e in Events(l[..n])
    ensures exists i :: 0 <= i < n && l[i].Good? && l[i].event == e
  {
    EventsSnoc(l, n - 1);
    if e in Events(l[..n - 1]) {
      EntryInPrefix(l, n - 1, e);
    }
  }

  lemma {:induction false} PrefixHolds(log: Log, k: Counts, n: nat, p: nat, i: nat)
    requires Within(log, k) && p < n <= |log| && i < k[p] && log[p][i].Good?
    ensures log[p][i].event in EventsOf(log, k, n)
  {
    if p == n - 1 {
      EventsSnoc(log[p], i);
      PrefixEvents(log[p], i + 1, k[p]);
    } else {
      PrefixHolds(log, k, n - 1, p, i);
    }
  }

  /**
   Every lake any run can reach is causally closed: a landed cancellation's creation has
   landed too, in whatever order partitions were consumed.
   */
  lemma LakeCausallyClosed(log: Log, events: Rows, f: string -> nat, steps: seq<Step>)
    requires Topic(log, events, f) && Wireable(events) && Paired(events)
    ensures Closed(multiset(VisibleRows(Run(log, steps).lake)))
  {
    var rows := VisibleRows(Run(log, steps).lake);
    var k := Committed(log, Run(log, steps));
    ExactlyOnce(log, steps);
    forall c: OrderEvent | c in multiset(rows) && c.Cancelled()
      ensures exists o: OrderEvent :: o in multiset(rows) && o.Created() && o.orderId == c.orderId
    {
      EventInPrefix(log, k, |log|, c);
      var p, i :| 0 <= p < |log| && 0 <= i < k[p] && log[p][i].Good? && log[p][i].event == c;
      var o := CreationLanded(log, events, f, k, p, i);
    }
  }

  lemma CreationLanded(log: Log, events: Rows, f: string -> nat, k: Counts, p: nat, i: nat) returns (o: OrderEvent)
    requires Topic(log, events, f) && Wireable(events) && Paired(events)
    requires Within(log, k) && p < |log| && i < k[p] && log[p][i].Good? && log[p][i].event.Cancelled()
    ensures o in EventsUpTo(log, k) && o.Created() && o.orderId == log[p][i].event.orderId
  {
    TopicEntry(log, events, f, p, i);
    CreationFirst(events, f, p, i);
    var r := Routed(events, f, p);
    var j :| 0 <= j < i && r[j].Created() && r[j].orderId == r[i].orderId;
    TopicEntry(log, events, f, p, j);
    PrefixHolds(log, k, |log|, p, j);
    o := r[j];
  }

  lemma LandedIsProduced(log: Log, events: Rows, f: string -> nat, steps: seq<Step>)
    requires Topic(log, events, f) && Wireable(events)
    ensures multiset(VisibleRows(Run(log, steps).lake)) <= multiset(events)
  {
    ExactlyOnce(log, steps);
    EventsMonotone(log, Committed(log, Run(log, steps)), Full(log), |log|);
    TopicConserves(log, events, f);
  }

  lemma LakeMatched(log: Log, events: Rows, f: string -> nat, steps: seq<Step>)
    requires Topic(log, events, f) && Wireable(events) && Paired(events) && Distinct(CreatedIds(events))
    ensures Matched(multiset(VisibleRows(Run(log, steps).lake)))
  {
    LandedIsProduced(log, events, f, steps);
    PairedMatched(events);
    MatchedRest(multiset(events), multiset(VisibleRows(Run(log, steps).lake)));
  }

  /** The GMV of any reachable lake is what its uncancelled orders are worth, so never negative. */
  lemma LakeGmvIsOpenOrders(log: Log, events: Rows, f: string -> nat, steps: seq<Step>)
    requires Topic(log, events, f) && Wireable(events) && Paired(events) && Distinct(CreatedIds(events))
    ensures var rows := VisibleRows(Run(log, steps).lake);
            SignedSum(rows) == Worth(Lone(rows, multiset(rows)), true) >= 0.0
  {
    LakeMatched(log, events, f, steps);
    LakeCausallyClosed(log, events, f, steps);
    GmvByOrders(VisibleRows(Run(log, steps).lake));
  }

  /**
   Below a time t the lake's GMV is what the orders open there are worth, less the
   cancellations whose creation lies at or above t, of which there are none exactly when
   no landed order straddles t.
   */
  lemma SliceGmv(log: Log, events: Rows, f: string -> nat, steps: seq<Step>, t: int)
    requires Topic(log, events, f) && Wireable(events) && Paired(events) && Distinct(CreatedIds(events))
    ensures var rows := VisibleRows(Run(log, steps).lake);
            var slice := Select(rows, t, true);
            var lone := Lone(slice, multiset(slice));
            && SignedSum(slice) == Worth(lone, true) - Worth(lone, false)
            && (forall r | r in lone && !r.Created() ::
                  exists o :: o in multiset(rows) && o.Created() && o.orderId == r.orderId && o.eventTimeMs >= t)
            && (Worth(lone, false) == 0.0 <==> NoneStraddles(multiset(rows), t))
  {
    var rows := VisibleRows(Run(log, steps).lake);
    var slice := Select(rows, t, true);
    LakeMatched(log, events, f, steps);
    LakeCausallyClosed(log, events, f, steps);
    SliceOfMatched(rows, t);
  }

  lemma SliceOfMatched(rows: Rows, t: int)
    requires Matched(multiset(rows)) && Closed(multiset(rows))
    ensures var slice := Select(rows, t, true);
            var lone := Lone(slice, multiset(slice));
            && SignedSum(slice) == Worth(lone, true) - Worth(lone, false)
            && (forall r | r in lone && !r.Created() ::
                  exists o :: o in multiset(rows) && o.Created() && o.orderId == r.orderId && o.eventTimeMs >= t)
            && (Worth(lone, false) == 0.0 <==> NoneStraddles(multiset(rows), t))
  {
    var slice := Select(rows, t, true);
    var lone := Lone(slice, multiset(slice));
    SelectMember(rows, t, true);
    MatchedRest(multiset(rows), multiset(slice));
    GmvByOrders(slice);
    SliceClosedWhen(rows, t);
    forall r | r in lone && !r.Created()
      ensures exists o :: o in multiset(rows) && o.Created() && o.orderId == r.orderId && o.eventTimeMs >= t
    {
      LoneWasCreatedLater(rows, t, r);
    }
  }

  // ------------------------------------------- when slices are closed, or positive

  /** A run that lands the whole topic. */
  lemma WholeTopicLands(log: Log, events: Rows, f: string -> nat, w: int)
    requires Topic(log, events, f) && Wireable(events)
    ensures multiset(VisibleRows(Run(log, Reaching(Full(log), w)).lake)) == multiset(events)
  {
    TopicDecoded(log, events, f, Full(log));
    EveryPositionReachable(log, Full(log), w);
    ExactlyOnce(log, Reaching(Full(log), w));
    TopicConserves(log, events, f);
  }

  lemma TopicDecoded(log: Log, events: Rows, f: string -> nat, k: Counts)
    requires Topic(log, events, f) && Wireable(events) && Within(log, k)
    ensures AllDecoded(log, k)
  {
    forall p | 0 <= p < |log|
      ensures Decoded(log[p][..k[p]])
    {
      PartitionEvents(log, events, f, p);
      DecodedPrefix(log[p], k[p]);
    }
  }

  lemma DecodedPrefix(l: PartitionLog, n: nat)
    requires Decoded(l) && n <= |l|
    ensures Decoded(l[..n])
  {
  }

  /** Every time slice of every lake any run can reach is causally closed. */
  ghost predicate SlicesClosed(log: Log) {
    forall steps: seq<Step>, t: int :: Closed(multiset(Select(VisibleRows(Run(log, steps).lake), t, true)))
  }

  /** No order is cancelled at an earlier event time than it was created. */
  ghost predicate CreatedInTime(m: multiset<OrderEvent>) {
    forall c, o | c in m && o in m && c.Cancelled() && o.Created() && o.orderId == c.orderId ::
      o.eventTimeMs <= c.eventTimeMs
  }

  lemma InTimeMeansNoStraddling(m: multiset<OrderEvent>, all: multiset<OrderEvent>, t: int)
    requires m <= all && CreatedInTime(all)
    ensures NoneStraddles(m, t)
  {
    assert forall e | e in m :: e in all;
  }

  lemma ClosedSlicesAreInTime(m: multiset<OrderEvent>, c: OrderEvent, o: OrderEvent)
    requires c in m && o in m && c.Cancelled() && o.Created() && o.orderId == c.orderId
    requires NoneStraddles(m, c.eventTimeMs + 1)
    ensures o.eventTimeMs <= c.eventTimeMs
  {
  }

  lemma SliceClosed(log: Log, events: Rows, f: string -> nat, steps: seq<Step>, t: int)
    requires Topic(log, events, f) && Wireable(events) && Paired(events) && Distinct(CreatedIds(events))
    ensures var rows := VisibleRows(Run(log, steps).lake);
            Closed(multiset(Select(rows, t, true))) <==> NoneStraddles(multiset(rows), t)
  {
    LakeMatched(log, events, f, steps);
    LakeCausallyClosed(log, events, f, steps);
    SliceClosedWhen(VisibleRows(Run(log, steps).lake), t);
  }

  /**
   Causal closure holds of the slices, and not just of the whole lake, exactly for the lists
   in which no order is cancelled at an earlier event time than it was created.
   */
  lemma SlicesClosedExactlyWhen(log: Log, events: Rows, f: string -> nat)
    requires Topic(log, events, f) && Wireable(events) && Paired(events) && Distinct(CreatedIds(events))
    ensures SlicesClosed(log) <==> CreatedInTime(multiset(events))
  {
    if SlicesClosed(log) {
      var steps := Reaching(Full(log), 0);
      WholeTopicLands(log, events, f, 0);
      var m := multiset(events);
      forall c, o | c in m && o in m && c.Cancelled() && o.Created() && o.orderId == c.orderId
        ensures o.eventTimeMs <= c.eventTimeMs
      {
        SliceClosed(log, events, f, steps, c.eventTimeMs + 1);
        ClosedSlicesAreInTime(m, c, o);
      }
    }
    if CreatedInTime(multiset(events)) {
      forall steps: seq<Step>, t: int
        ensures Closed(multiset(Select(VisibleRows(Run(log, steps).lake), t, true)))
      {
        LandedIsProduced(log, events, f, steps);
        InTimeMeansNoStraddling(multiset(VisibleRows(Run(log, steps).lake)), multiset(events), t);
        SliceClosed(log, events, f, steps, t);
      }
    }
  }

  /** The GMV the lake side of the seam reports right after a run. */
  function GmvBelowT(log: Log, steps: seq<Step>): real {
    SignedSum(Select(VisibleRows(Run(log, steps).lake), PublishedT(Run(log, steps).lake), true))
  }

  lemma GmvBelowTIs(log: Log, events: Rows, f: string -> nat, start: int, w: int, steps: seq<Step>)
    requires Jittered(events, start, w) && start >= 0 && Wireable(events) && Topic(log, events, f)
    requires ConstantWindow(steps, w)
    ensures GmvBelowT(log, steps) == SignedSum(Select(events, TAt(log, w, Committed(log, Run(log, steps))), true))
  {
    var lake := Run(log, steps).lake;
    GeneratorMeetsAssumptions(log, events, f, start, w);
    TopicConserves(log, events, f);
    ExactlyOnce(log, steps);
    DurableByPosition(log, steps, w);
    SettledSlice(log, steps, [], w, Full(log));
    assert steps + [] == steps;
    SelectAgree(VisibleRows(lake), events, PublishedT(lake), true);
    SameRows(Select(VisibleRows(lake), PublishedT(lake), true), Select(events, PublishedT(lake), true));
  }

  ghost predicate NeverNegative(log: Log, w: int) {
    forall steps: seq<Step> | ConstantWindow(steps, w) :: GmvBelowT(log, steps) >= 0.0
  }

  /** Every T that some positions publish leaves a non-negative GMV below it in the produced list. */
  ghost predicate NonNegativeBelow(log: Log, events: Rows, w: int) {
    forall k: Counts | Within(log, k) :: SignedSum(Select(events, TAt(log, w, k), true)) >= 0.0
  }

  /** GMV below the published T is non-negative in every run exactly when it is so for every publishable T. */
  lemma NeverNegativeExactlyWhen(log: Log, events: Rows, f: string -> nat, start: int, w: int)
    requires Jittered(events, start, w) && start >= 0 && Wireable(events) && Topic(log, events, f)
    ensures NeverNegative(log, w) <==> NonNegativeBelow(log, events, w)
  {
    if NeverNegative(log, w) {
      forall k: Counts | Within(log, k)
        ensures SignedSum(Select(events, TAt(log, w, k), true)) >= 0.0
      {
        var steps := Reaching(k, w);
        TopicDecoded(log, events, f, k);
        EveryPositionReachable(log, k, w);
        GmvBelowTIs(log, events, f, start, w, steps);
        assert GmvBelowT(log, steps) >= 0.0;
      }
    }
    if NonNegativeBelow(log, events, w) {
      forall steps: seq<Step> | ConstantWindow(steps, w)
        ensures GmvBelowT(log, steps) >= 0.0
      {
        GmvBelowTIs(log, events, f, start, w, steps);
        assert Within(log, Committed(log, Run(log, steps)));
      }
    }
  }

  // ------------------------------------------------------------- end to end

  /**
   The repository's thesis, end to end: generate, write the ground-truth file, produce
   keyed by order id, land through any commits, crashes and restarts, let ClickHouse catch
   up, query the seam at any three moments. The answer is the oracle's on that file.
   */
  lemma EndToEnd(log: Log, events: Rows, f: string -> nat, start: int, w: int,
                 steps: seq<Step>, i: nat, j: nat, m: nat)
    requires Jittered(events, start, w) && start >= 0 && Wireable(events) && Topic(log, events, f)
    requires WindowsAtLeast(steps, w) && i <= j <= m <= |steps| && NoRewind(steps[..m])
    requires At(log, steps, m).chNext == At(log, steps, m).ends == Full(log)
    ensures var r := Query(log, steps, i, j, m);
            var read := DecodeLines(Lines(FileText(events)));
            && read.Ok? && Compute(read.value, r.watermarkT).Ok?
            && r.count == Compute(read.value, r.watermarkT).value.count
            && r.gmv == Compute(read.value, r.watermarkT).value.gmv
            && r.lakeCount == Compute(read.value, r.watermarkT).value.countBelowT
            && r.lakeGmv == Compute(read.value, r.watermarkT).value.gmvBelowT
  {
    GeneratorMeetsAssumptions(log, events, f, start, w);
    TopicConserves(log, events, f);
    WireableFile(events);
    SeamEqualsGroundTruth(log, steps, w, i, j, m, events);
  }

  lemma WireableFile(events: Rows)
    requires Wireable(events)
    ensures DecodeLines(Lines(FileText(events))) == Ok(events) && AllKnown(events)
  {
    FileRoundTrip(events);
  }
}
