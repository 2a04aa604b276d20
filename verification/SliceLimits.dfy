/**
 A run of the generator's own output whose lake is causally closed as a whole and yet
 has negative GMV below the published T.
 */
module SliceLimits {
  import opened Broker
  import opened Generator
  import opened OnePartition
  import opened Pipeline
  import opened Protocol
  import opened Reachability
  import opened Rows
  import opened SafeWatermark
  import opened Schema
  import opened Seam

  const START := 100
  const WINDOW := 10

  /** An order created late in its window, cancelled early in the next, and two more orders. */
  predicate Straddling(a: OrderEvent, b: OrderEvent, c: OrderEvent, d: OrderEvent) {
    && a.Created() && b.Cancelled() && !b.Created() && c.Created() && d.Created()
    && b.orderId == a.orderId && b.amount == a.amount && b.userId == a.userId
    && a.amount > 0.0 && c.amount > 0.0 && d.amount > 0.0
    && WholeCents(a.amount) && WholeCents(c.amount) && WholeCents(d.amount)
    && a.orderId != c.orderId && a.orderId != d.orderId && c.orderId != d.orderId
    && a.eventTimeMs == 105 && b.eventTimeMs == 101 && c.eventTimeMs == 111 && d.eventTimeMs == 112
  }

  /** The only partition there is. */
  function First(key: string): nat { 0 }

  lemma {:induction false} AllRouted(events: Rows)
    ensures Routed(events, First, 0) == events
  {
    if |events| > 0 {
      AllRouted(events[..|events| - 1]);
      assert events == events[..|events| - 1] + [events[|events| - 1]];
    }
  }

  lemma OneLogTopic(l: PartitionLog, events: Rows)
    requires Increasing(l) && Logged(l, events) && Routed(events, First, 0) == events
    ensures Topic([l], events, First)
  {
    var log := [l];
    forall p | 0 <= p < |log|
      ensures Logged(log[p], Routed(events, First, p))
    {
      assert p == 0 && log[p] == l && Routed(events, First, p) == events;
    }
  }

  lemma OnlyLogged(events: Rows)
    requires Wireable(events)
    ensures Increasing(LogOf(events)) && Logged(LogOf(events), events)
  {
    LoggedExact(LogOf(events), events);
  }

  /** On one partition any wireable list is a topic. */
  lemma OnlyIsTopic(events: Rows)
    requires Wireable(events)
    ensures Topic(Only(events), events, First)
  {
    AllRouted(events);
    OnlyLogged(events);
    OneLogTopic(LogOf(events), events);
  }

  lemma FourPaired(a: OrderEvent, b: OrderEvent, c: OrderEvent, d: OrderEvent)
    requires Straddling(a, b, c, d)
    ensures Paired([a, b, c, d])
    ensures CreatedIds([a, b, c, d]) == [] + [a.orderId] + [] + [c.orderId] + [d.orderId]
  {
    Appended([], a);
    Appended([a], b);
    Appended([a, b], c);
    Appended([a, b, c], d);
    assert [] + [a] == [a] && [a] + [b] == [a, b] && [a, b] + [c] == [a, b, c] && [a, b, c] + [d] == [a, b, c, d];
  }

  lemma GeneratorCouldEmit(a: OrderEvent, b: OrderEvent, c: OrderEvent, d: OrderEvent)
    requires Straddling(a, b, c, d)
    ensures var events := [a, b, c, d];
            && Jittered(events, START, WINDOW) && Wireable(events)
            && Paired(events) && Distinct(CreatedIds(events))
  {
    FourPaired(a, b, c, d);
    assert [a.orderId] + [] + [c.orderId] + [d.orderId] == [a.orderId, c.orderId, d.orderId];
  }

  lemma FourT(a: OrderEvent, b: OrderEvent, c: OrderEvent, d: OrderEvent)
    requires Straddling(a, b, c, d)
    ensures var events := [a, b, c, d];
            Within(Only(events), [4]) && TAt(Only(events), WINDOW, [4]) == 102
  {
    var events := [a, b, c, d];
    LogOfMax(events, 112);
    OnlyT(events, 112, WINDOW);
  }

  lemma SliceOfFour(a: OrderEvent, b: OrderEvent, c: OrderEvent, d: OrderEvent)
    requires Straddling(a, b, c, d)
    ensures SignedSum(Select([a, b, c, d], 102, true)) == -a.amount
  {
    SelectSnoc([], a, 102, true);
    SelectSnoc([a], b, 102, true);
    SelectSnoc([a, b], c, 102, true);
    SelectSnoc([a, b, c], d, 102, true);
    assert [] + [a] == [a] && [a] + [b] == [a, b] && [a, b] + [c] == [a, b, c] && [a, b, c] + [d] == [a, b, c, d];
    assert Select([a, b, c, d], 102, true) == [b];
  }

  /** Generator output, one landing run, and the below-T slice counts a cancellation without its creation. */
  lemma SliceGmvCanBeNegative(a: OrderEvent, b: OrderEvent, c: OrderEvent, d: OrderEvent)
    requires Straddling(a, b, c, d)
    ensures var events := [a, b, c, d];
            var log, steps := Only(events), Reaching([4], WINDOW);
            var lake := Run(log, steps).lake;
            && Jittered(events, START, WINDOW) && Paired(events) && Distinct(CreatedIds(events))
            && Topic(log, events, First) && PublishedT(lake) == 102
            && SignedSum(Select(VisibleRows(lake), PublishedT(lake), true)) == -a.amount < 0.0
  {
    var events := [a, b, c, d];
    GeneratorCouldEmit(a, b, c, d);
    OnlyIsTopic(events);
    FourT(a, b, c, d);
    AllLanded(events, [4], WINDOW, 102);
    SliceOfFour(a, b, c, d);
    var lake := Run(Only(events), Reaching([4], WINDOW)).lake;
    SelectAgree(VisibleRows(lake), events, 102, true);
    SameRows(Select(VisibleRows(lake), 102, true), Select(events, 102, true));
  }
}
