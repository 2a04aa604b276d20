/** A run in which redelivery makes a later seam count smaller than an earlier one. */
module SeamLimits {
  import opened Broker
  import opened OnePartition
  import opened Protocol
  import opened Reachability
  import opened Rows
  import opened SafeWatermark
  import opened Safety
  import opened Schema
  import opened Seam

  function Early(e: OrderEvent): OrderEvent { e.(eventTimeMs := 5) }

  function Late(e: OrderEvent): OrderEvent { e.(eventTimeMs := 100) }

  function TwoRows(e: OrderEvent): Rows { [Early(e), Late(e)] }

  function TwoEvents(e: OrderEvent): Log { Only(TwoRows(e)) }

  const REDELIVERY := [ChPoll(0), ChRewind(0, 0), ChPoll(0)]

  lemma RedeliveryWorld(log: Log, before: seq<Step>, e: OrderEvent)
    requires |log| == 1 && |log[0]| > 0 && log[0][0] == Good(0, e)
    requires var w := Run(log, before);
             w.ch == [] && w.chNext == [0] && |w.ends| == 1 && w.ends[0] > 0
    ensures Run(log, before + REDELIVERY).ch == [e, e]
    ensures Run(log, before + REDELIVERY).lake == Run(log, before).lake
  {
    RunSnoc(log, before, ChPoll(0));
    RunSnoc(log, before + [ChPoll(0)], ChRewind(0, 0));
    RunSnoc(log, before + [ChPoll(0)] + [ChRewind(0, 0)], ChPoll(0));
    assert before + REDELIVERY == before + [ChPoll(0)] + [ChRewind(0, 0)] + [ChPoll(0)];
  }

  lemma TwoEventsSound(e: OrderEvent)
    ensures var log := TwoEvents(e);
            WellFormed(log) && NonNegative(log) && NothingExposed(log, 10)
  {
    OnlyDecoded(TwoRows(e));
    TwoOrdered(e, LogOf(TwoRows(e)));
    DisorderExposesNothing(TwoEvents(e), 10);
  }

  lemma TwoOrdered(e: OrderEvent, l: PartitionLog)
    requires l == [Good(0, Early(e)), Good(1, Late(e))]
    ensures NonNegative([l]) && BoundedDisorder([l], 10)
  {
  }

  lemma TwoT(e: OrderEvent)
    ensures Within(TwoEvents(e), [2]) && TAt(TwoEvents(e), 10, [2]) == 90
  {
    LogOfMax(TwoRows(e), 100);
    OnlyT(TwoRows(e), 100, 10);
  }

  lemma SidesOfTwo(e: OrderEvent)
    ensures Select([Early(e), Late(e)], 90, true) == [Early(e)]
    ensures Select([Early(e), Early(e)], 90, false) == []
    ensures Select([Early(e), Early(e)], 0, false) == [Early(e), Early(e)]
  {
    SelectSnoc([], Early(e), 90, true);
    SelectSnoc([Early(e)], Late(e), 90, true);
    SelectSnoc([], Early(e), 90, false);
    SelectSnoc([Early(e)], Early(e), 90, false);
    SelectSnoc([], Early(e), 0, false);
    SelectSnoc([Early(e)], Early(e), 0, false);
    assert [] + [Early(e)] == [Early(e)];
  }

  lemma TwoCovered(e: OrderEvent, w: World)
    requires Committed(TwoEvents(e), w) == [2]
    ensures Covers(TwoEvents(e), w, [2], TwoRows(e))
  {
    OnlyEvents(TwoRows(e));
  }

  lemma BothLanded(e: OrderEvent)
    ensures var log := TwoEvents(e);
            var w := Run(log, Reaching([2], 10));
            && Committed(log, w) == [2] && PublishedT(w.lake) == 90
            && |w.ends| == 1 && w.ends[0] > 0
  {
    TwoT(e);
    AllLanded(TwoRows(e), [2], 10, 90);
    OnlyDecoded(TwoRows(e));
    ExactlyOnce(TwoEvents(e), Reaching([2], 10));
  }

  lemma RedeliveryEnds(log: Log, before: seq<Step>, x: OrderEvent)
    requires |log| == 1 && |log[0]| > 0 && log[0][0] == Good(0, x)
    requires var w := Run(log, before);
             && w.ch == [] && w.chNext == [0] && |w.ends| == 1 && w.ends[0] > 0
             && Committed(log, w) == [2] && PublishedT(w.lake) == 90
    ensures var end := Run(log, before + REDELIVERY);
            Committed(log, end) == [2] && PublishedT(end.lake) == 90 && end.ch == [x, x]
  {
    RedeliveryWorld(log, before, x);
    SameTable(log, Run(log, before), Run(log, before + REDELIVERY));
  }

  lemma FirstEntry(e: OrderEvent)
    ensures |TwoEvents(e)| == 1 && |TwoEvents(e)[0]| == 2 && TwoEvents(e)[0][0] == Good(0, Early(e))
  {
  }

  lemma NothingIngested(e: OrderEvent)
    ensures var w := Run(TwoEvents(e), Reaching([2], 10));
            w.ch == [] && w.chNext == [0]
  {
    OnwardLeavesClickHouse(Zeros(1), [2], 10);
    ChUntouched(TwoEvents(e), InitialWorld(TwoEvents(e)), Reaching([2], 10));
    RunConcat(TwoEvents(e), [], Reaching([2], 10));
    assert [] + Reaching([2], 10) == Reaching([2], 10);
  }

  /** The redelivering run ends with T at 90, both events in the lake and two copies of the early one in ClickHouse. */
  lemma RedeliveryRun(e: OrderEvent)
    ensures var log := TwoEvents(e);
            var end := Run(log, Reaching([2], 10) + REDELIVERY);
            Committed(log, end) == [2] && PublishedT(end.lake) == 90 && end.ch == [Early(e), Early(e)]
  {
    FirstEntry(e);
    BothLanded(e);
    NothingIngested(e);
    RedeliveryEnds(TwoEvents(e), Reaching([2], 10), Early(e));
  }

  lemma RedeliverySound(e: OrderEvent)
    ensures Sound(TwoEvents(e), Reaching([2], 10) + REDELIVERY, 10)
  {
    TwoEventsSound(e);
    OnwardSteps(Zeros(1), [2], 10);
  }

  /** T was read before anything landed, ClickHouse after it redelivered. */
  lemma FirstCount(e: OrderEvent)
    ensures var log, steps := TwoEvents(e), Reaching([2], 10) + REDELIVERY;
            Query(log, steps, 0, 0, |steps|).count == 2
  {
    var log, steps := TwoEvents(e), Reaching([2], 10) + REDELIVERY;
    assert steps[..|steps|] == steps && steps[..0] == [];
    TwoEventsSound(e);
    NothingPublished(log);
    RedeliveryRun(e);
    SidesOfTwo(e);
    AllFromClickHouse(InitialWorld(log).lake, [Early(e), Early(e)]);
  }

  lemma NothingPublished(log: Log)
    requires WellFormed(log)
    ensures PublishedT(InitialWorld(log).lake) == 0 && VisibleRows(InitialWorld(log).lake) == []
  {
    InitialInv(log);
    PublishedIsDurable(log, InitialWorld(log));
  }

  lemma AllFromClickHouse(lake: Lake, ch: Rows)
    requires PublishedT(lake) == 0 && VisibleRows(lake) == [] && Select(ch, 0, false) == ch
    ensures SeamQuery(lake, lake, ch).count == |ch|
  {
    AggregateIs(ch);
  }

  lemma OneBelow(log: Log, steps: seq<Step>, w: int, h: Counts, rows: Rows, x: OrderEvent, t: int)
    requires Sound(log, steps, w)
    requires var end := At(log, steps, |steps|);
             Covers(log, end, h, rows) && PublishedT(end.lake) == t && end.ch == [x, x]
    requires |Select(rows, t, true)| == 1 && |Select([x, x], t, false)| == 0
    ensures Query(log, steps, |steps|, |steps|, |steps|).count == 1
  {
    QueryBySides(log, steps, w, |steps|, |steps|, h, rows, [x, x]);
  }

  lemma SecondCount(e: OrderEvent)
    ensures var log, steps := TwoEvents(e), Reaching([2], 10) + REDELIVERY;
            Query(log, steps, |steps|, |steps|, |steps|).count == 1
  {
    var log, steps := TwoEvents(e), Reaching([2], 10) + REDELIVERY;
    assert steps[..|steps|] == steps;
    RedeliveryRun(e);
    RedeliverySound(e);
    SidesOfTwo(e);
    TwoCovered(e, At(log, steps, |steps|));
    OneBelow(log, steps, 10, [2], TwoRows(e), Early(e), 90);
  }

  /** One redelivery is enough for the counts to go back: 2, then 1. */
  lemma RedeliveryGoesBack(e: OrderEvent)
    ensures var log, steps := TwoEvents(e), Reaching([2], 10) + REDELIVERY;
            var n := |steps|;
            && Sound(log, steps, 10)
            && Query(log, steps, 0, 0, n).count == 2 && Query(log, steps, n, n, n).count == 1
  {
    RedeliverySound(e);
    FirstCount(e);
    SecondCount(e);
  }
}
