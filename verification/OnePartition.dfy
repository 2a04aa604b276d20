/** Concrete runs on a topic of one partition: all of it is landed in a single batch. */
module OnePartition {
  import opened Broker
  import opened Pipeline
  import opened Protocol
  import opened Reachability
  import opened Rows
  import opened SafeWatermark
  import opened Watermark

  function LogOf(events: Rows): PartitionLog { seq(|events|, i requires 0 <= i < |events| => Good(i, events[i])) }

  /** A topic whose only partition holds these events. */
  function Only(events: Rows): Log { [LogOf(events)] }

  lemma {:induction false} LogOfMax(events: Rows, m: int)
    requires |events| > 0 && events[|events| - 1].eventTimeMs == m >= 0
    requires forall e | e in events :: e.eventTimeMs <= m
    ensures MaxTime(LogOf(events)) == m
  {
    var l := LogOf(events);
    MaxTimeBound(l, m);
    assert forall i | 0 <= i < |l| :: l[i].event in events;
    MaxTimeBound(l, m - 1);
    assert l[|l| - 1].Good? && l[|l| - 1].event.eventTimeMs > m - 1;
  }

  lemma OnlyValue(m: int)
    ensures MinValue(map[0 := m]) == m
  {
    var one := map[0 := m];
    assert MinValue(one) in one.Values;
  }

  /** T once everything has landed. */
  lemma OnlyT(events: Rows, m: int, w: int)
    requires |events| > 0 && MaxTime(LogOf(events)) == m && m - w >= 0
    ensures Within(Only(events), [|events|]) && TAt(Only(events), w, [|events|]) == m - w
  {
    var log, k := Only(events), [|events|];
    assert log[0][..k[0]] == LogOf(events);
    assert MaximaAt(log, k) == map[0 := m];
    OnlyValue(m);
  }

  lemma OnlyDecoded(events: Rows)
    ensures WellFormed(Only(events)) && Within(Only(events), [|events|]) && AllDecoded(Only(events), [|events|])
  {
    assert LogOf(events)[..|events|] == LogOf(events);
  }

  lemma OnlyEvents(events: Rows)
    ensures Within(Only(events), [|events|]) && EventsUpTo(Only(events), [|events|]) == multiset(events)
  {
    var log, k := Only(events), [|events|];
    LoggedEvents(LogOf(events), events);
    assert log[0][..k[0]] == LogOf(events);
    assert EventsOf(log, k, 1) == EventsOf(log, k, 0) + Events(log[0][..k[0]]);
  }

  lemma LandedRows(log: Log, steps: seq<Step>, events: Rows, k: Counts, w: int, t: int)
    requires WellFormed(log) && ConstantWindow(steps, w) && Committed(log, Run(log, steps)) == k
    requires Within(log, k) && TAt(log, w, k) == t && EventsUpTo(log, k) == multiset(events)
    ensures var lake := Run(log, steps).lake;
            PublishedT(lake) == t && multiset(VisibleRows(lake)) == multiset(events)
  {
    DurableByPosition(log, steps, w);
  }

  /** After the one commit the lake holds the events and T is what their maximum says. */
  lemma AllLanded(events: Rows, k: Counts, w: int, t: int)
    requires k == [|events|] && Within(Only(events), k) && TAt(Only(events), w, k) == t
    ensures var world := Run(Only(events), Reaching(k, w));
            && Committed(Only(events), world) == k && PublishedT(world.lake) == t
            && multiset(VisibleRows(world.lake)) == multiset(events)
  {
    OnlyDecoded(events);
    OnlyEvents(events);
    EveryPositionReachable(Only(events), k, w);
    LandedRows(Only(events), Reaching(k, w), events, k, w, t);
  }
}
