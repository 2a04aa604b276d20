/**
 The three-tier replay: how a date range is split between Kafka, ClickHouse and cold
 storage, and the day-by-day walk of the cold archive
 (naive_mode/hybrid_source_of_truth.py).

 A time is a count of microseconds since the first day a date can name.
 */
module Replay {
  import opened Wrappers

  const DAY := 86_400_000_000

  /** date.max, as an ordinal; adding a day to it raises. */
  const LAST_DATE := 3_652_059

  /** The date of a time, as an ordinal. */
  function DateOf(t: int): int { t / DAY + 1 }

  predicate Nameable(t: int) { 1 <= DateOf(t) <= LAST_DATE }

  // -------------------------------------------------------------- the split

  datatype Policy = Policy(kafkaDays: int, clickhouseMonths: int)
  {
    function KafkaCutoff(now: int): int { now - kafkaDays * DAY }

    function ClickHouseCutoff(now: int): int { now - clickhouseMonths * 30 * DAY }
  }

  datatype Tier = Kafka | ClickHouse | Cold

  datatype Range = Range(tier: Tier, from: int, to: int)
  {
    predicate Contains(t: int) { from <= t < to }
  }

  function When(c: bool, r: Range): seq<Range> { if c then [r] else [] }

  function KafkaRange(kafkaCutoff: int, start: int, end: int): seq<Range> {
    When(end > kafkaCutoff, Range(Kafka, Max(start, kafkaCutoff), end))
  }

  function WarmRange(kafkaCutoff: int, clickhouseCutoff: int, start: int, end: int): seq<Range> {
    When(start < kafkaCutoff && end > clickhouseCutoff,
         Range(ClickHouse, Max(start, clickhouseCutoff), Min(end, kafkaCutoff)))
  }

  function ColdRange(clickhouseCutoff: int, start: int, end: int): seq<Range> {
    When(start < clickhouseCutoff, Range(Cold, start, Min(end, clickhouseCutoff)))
  }

  /** The sub-ranges replayed, in the order they are. */
  function Split(kafkaCutoff: int, clickhouseCutoff: int, start: int, end: int): seq<Range> {
    KafkaRange(kafkaCutoff, start, end) + WarmRange(kafkaCutoff, clickhouseCutoff, start, end)
    + ColdRange(clickhouseCutoff, start, end)
  }

  /** How many of the ranges contain t. */
  function Times(ranges: seq<Range>, t: int): nat {
    if |ranges| == 0 then 0
    else Times(ranges[..|ranges| - 1], t) + (if ranges[|ranges| - 1].Contains(t) then 1 else 0)
  }

  lemma {:induction false} TimesConcat(a: seq<Range>, b: seq<Range>, t: int)
    ensures Times(a + b, t) == Times(a, t) + Times(b, t)
  {
    if |b| == 0 {
      assert a + b == a;
    } else {
      TimesConcat(a, b[..|b| - 1], t);
      assert (a + b)[..|a + b| - 1] == a + b[..|b| - 1];
    }
  }

  lemma TimesWhen(c: bool, r: Range, t: int)
    ensures Times(When(c, r), t) == if c && r.Contains(t) then 1 else 0
  {
    assert [r][..0] == [];
  }

  function Once(start: int, end: int, t: int): nat { if start <= t < end then 1 else 0 }

  /** What the split does to one instant: between crossed cutoffs it is replayed twice. */
  lemma SplitTimes(kafkaCutoff: int, clickhouseCutoff: int, start: int, end: int, t: int)
    ensures Times(Split(kafkaCutoff, clickhouseCutoff, start, end), t)
         == Once(start, end, t) + (if start <= t < end && kafkaCutoff <= t < clickhouseCutoff then 1 else 0)
  {
    var kafka := KafkaRange(kafkaCutoff, start, end);
    var warm := WarmRange(kafkaCutoff, clickhouseCutoff, start, end);
    TimesConcat(kafka + warm, ColdRange(clickhouseCutoff, start, end), t);
    TimesConcat(kafka, warm, t);
    TimesWhen(end > kafkaCutoff, Range(Kafka, Max(start, kafkaCutoff), end), t);
    TimesWhen(start < kafkaCutoff && end > clickhouseCutoff,
              Range(ClickHouse, Max(start, clickhouseCutoff), Min(end, kafkaCutoff)), t);
    TimesWhen(start < clickhouseCutoff, Range(Cold, start, Min(end, clickhouseCutoff)), t);
  }

  /**
   The ranges partition [start, end) exactly when the warm cutoff does not come after the
   Kafka cutoff, or the request does not reach in between the two.
   */
  lemma SplitExactlyWhen(kafkaCutoff: int, clickhouseCutoff: int, start: int, end: int)
    ensures (forall t :: Times(Split(kafkaCutoff, clickhouseCutoff, start, end), t) == Once(start, end, t))
            <==> clickhouseCutoff <= kafkaCutoff || end <= kafkaCutoff || clickhouseCutoff <= start || end <= start
  {
    var ranges := Split(kafkaCutoff, clickhouseCutoff, start, end);
    forall t
      ensures Times(ranges, t)
           == Once(start, end, t) + (if start <= t < end && kafkaCutoff <= t < clickhouseCutoff then 1 else 0)
    {
      SplitTimes(kafkaCutoff, clickhouseCutoff, start, end, t);
    }
    if forall t :: Times(ranges, t) == Once(start, end, t) {
      var t := Max(start, kafkaCutoff);
      assert Times(ranges, t) == Once(start, end, t);
    }
  }

  /** A policy that keeps a day more in Kafka than in the warm tier replays that day from both. */
  lemma CrossedPolicyReplaysTwice(now: int)
    ensures var policy := Policy(31, 1);
            var kafkaCutoff, clickhouseCutoff := policy.KafkaCutoff(now), policy.ClickHouseCutoff(now);
            Times(Split(kafkaCutoff, clickhouseCutoff, kafkaCutoff, clickhouseCutoff), kafkaCutoff) == 2
  {
    var policy := Policy(31, 1);
    var kafkaCutoff, clickhouseCutoff := policy.KafkaCutoff(now), policy.ClickHouseCutoff(now);
    assert clickhouseCutoff == kafkaCutoff + DAY;
    SplitTimes(kafkaCutoff, clickhouseCutoff, kafkaCutoff, clickhouseCutoff, kafkaCutoff);
  }

  /** For a policy whose warm tier reaches back at least as far as Kafka every request is partitioned. */
  lemma PolicyPartitions(policy: Policy, now: int, start: int, end: int, t: int)
    requires policy.clickhouseMonths * 30 >= policy.kafkaDays
    ensures Times(Split(policy.KafkaCutoff(now), policy.ClickHouseCutoff(now), start, end), t) == Once(start, end, t)
  {
    SplitTimes(policy.KafkaCutoff(now), policy.ClickHouseCutoff(now), start, end, t);
  }

  lemma InRanges(a: seq<Range>, b: seq<Range>, c: seq<Range>, tier: Tier, t: int)
    ensures Holds(a + b + c, tier, t) <==> Holds(a, tier, t) || Holds(b, tier, t) || Holds(c, tier, t)
  {
    assert forall r | r in a + b + c :: r in a || r in b || r in c;
    assert forall r | r in a || r in b || r in c :: r in a + b + c;
  }

  /** Some range of the tier contains t. */
  predicate Holds(ranges: seq<Range>, tier: Tier, t: int) {
    exists r :: r in ranges && r.tier == tier && r.from <= t < r.to
  }

  lemma HoldsWhen(asked: bool, r: Range, tier: Tier, t: int)
    ensures Holds(When(asked, r), tier, t) <==> asked && r.tier == tier && r.from <= t < r.to
  {
    if asked && r.tier == tier && r.from <= t < r.to {
      assert r in When(asked, r);
    }
  }

  /**
   Which tier is asked for which instants of a request: Kafka for the last kafkaDays days,
   the warm tier back to its months of thirty days, cold storage for what is older.
   */
  lemma TiersOfInstant(policy: Policy, now: int, start: int, end: int, t: int)
    ensures var kafka := now - policy.kafkaDays * 86_400_000_000;
            var warm := now - policy.clickhouseMonths * 30 * 86_400_000_000;
            var ranges := Split(policy.KafkaCutoff(now), policy.ClickHouseCutoff(now), start, end);
            && (Holds(ranges, Kafka, t) <==> start <= t < end && t >= kafka)
            && (Holds(ranges, ClickHouse, t) <==> start <= t < end && warm <= t < kafka)
            && (Holds(ranges, Cold, t) <==> start <= t < end && t < warm)
  {
    TiersByCutoff(policy.KafkaCutoff(now), policy.ClickHouseCutoff(now), start, end, t);
  }

  lemma TiersByCutoff(kafkaCutoff: int, clickhouseCutoff: int, start: int, end: int, t: int)
    ensures var ranges := Split(kafkaCutoff, clickhouseCutoff, start, end);
            && (Holds(ranges, Kafka, t) <==> start <= t < end && t >= kafkaCutoff)
            && (Holds(ranges, ClickHouse, t) <==> start <= t < end && clickhouseCutoff <= t < kafkaCutoff)
            && (Holds(ranges, Cold, t) <==> start <= t < end && t < clickhouseCutoff)
  {
    TierByCutoff(kafkaCutoff, clickhouseCutoff, start, end, Kafka, t);
    TierByCutoff(kafkaCutoff, clickhouseCutoff, start, end, ClickHouse, t);
    TierByCutoff(kafkaCutoff, clickhouseCutoff, start, end, Cold, t);
  }

  lemma TierByCutoff(kafkaCutoff: int, clickhouseCutoff: int, start: int, end: int, tier: Tier, t: int)
    ensures Holds(Split(kafkaCutoff, clickhouseCutoff, start, end), tier, t)
            <==> start <= t < end
                 && match tier
                    case Kafka => t >= kafkaCutoff
                    case ClickHouse => clickhouseCutoff <= t < kafkaCutoff
                    case Cold => t < clickhouseCutoff
  {
    InRanges(KafkaRange(kafkaCutoff, start, end), WarmRange(kafkaCutoff, clickhouseCutoff, start, end),
             ColdRange(clickhouseCutoff, start, end), tier, t);
    HoldsWhen(end > kafkaCutoff, Range(Kafka, Max(start, kafkaCutoff), end), tier, t);
    HoldsWhen(start < kafkaCutoff && end > clickhouseCutoff,
              Range(ClickHouse, Max(start, clickhouseCutoff), Min(end, kafkaCutoff)), tier, t);
    HoldsWhen(start < clickhouseCutoff, Range(Cold, start, Min(end, clickhouseCutoff)), tier, t);
  }

  /** Each tier is asked at most once: Kafka first, then the warm tier, then cold storage. */
  lemma TiersInOrder(kafkaCutoff: int, clickhouseCutoff: int, start: int, end: int)
    ensures var ranges := Split(kafkaCutoff, clickhouseCutoff, start, end);
            forall i, j | 0 <= i < j < |ranges| ::
              ranges[i].tier != ranges[j].tier && ranges[i].tier != Cold && ranges[j].tier != Kafka
  {
  }

  // ------------------------------------------------------------ the cold walk

  /** An archived event; its timestamp may be missing or unreadable. */
  datatype Stored = Stored(id: string, timestamp: Option<int>)

  /** An object of the archive: the date in its path, and its content. */
  datatype Filed = Filed(date: int, event: Stored)

  /** The objects listed under one date. */
  function Daily(archive: seq<Filed>, date: int): seq<Stored> {
    if |archive| == 0 then []
    else
      Daily(archive[..|archive| - 1], date)
      + (if archive[|archive| - 1].date == date then [archive[|archive| - 1].event] else [])
  }

  predicate Readable(e: Stored) { e.timestamp.Some? }

  predicate InRange(e: Stored, start: int, end: int) { e.timestamp.Some? && start <= e.timestamp.value < end }

  function Wanted(events: seq<Stored>, start: int, end: int): seq<Stored> {
    if |events| == 0 then []
    else
      Wanted(events[..|events| - 1], start, end)
      + (if InRange(events[|events| - 1], start, end) then [events[|events| - 1]] else [])
  }

  /** What the walk republishes from the dates first up to, and not including, next. */
  function Walk(archive: seq<Filed>, start: int, end: int, first: int, next: int): seq<Stored>
    decreases next - first
  {
    if next <= first then []
    else Walk(archive, start, end, first, next - 1) + Wanted(Daily(archive, next - 1), start, end)
  }

  /** Everything the loop visits: the dates from the start's to the end's. */
  function FullWalk(archive: seq<Filed>, start: int, end: int): seq<Stored> {
    Walk(archive, start, end, DateOf(start), DateOf(end) + 1)
  }

  predicate ReadableOn(archive: seq<Filed>, first: int, next: int) {
    forall f | f in archive && first <= f.date < next :: Readable(f.event)
  }

  /** The archived objects of one event that lie in range under one of the dates. */
  function Copies(archive: seq<Filed>, start: int, end: int, first: int, next: int, e: Stored): nat {
    if |archive| == 0 then 0
    else
      var last := archive[|archive| - 1];
      Copies(archive[..|archive| - 1], start, end, first, next, e)
      + (if last.event == e && InRange(e, start, end) && first <= last.date < next then 1 else 0)
  }

  lemma {:induction false} WantedCounts(events: seq<Stored>, start: int, end: int, e: Stored)
    ensures multiset(Wanted(events, start, end))[e] == if InRange(e, start, end) then multiset(events)[e] else 0
  {
    if |events| > 0 {
      WantedCounts(events[..|events| - 1], start, end, e);
      assert events == events[..|events| - 1] + [events[|events| - 1]];
    }
  }

  lemma {:induction false} DailyCounts(archive: seq<Filed>, start: int, end: int, date: int, e: Stored)
    ensures (if InRange(e, start, end) then multiset(Daily(archive, date))[e] else 0)
         == Copies(archive, start, end, date, date + 1, e)
  {
    if |archive| > 0 {
      DailyCounts(archive[..|archive| - 1], start, end, date, e);
    }
  }

  lemma {:induction false} CopiesAdd(archive: seq<Filed>, start: int, end: int, first: int, date: int, e: Stored)
    requires first <= date
    ensures Copies(archive, start, end, first, date, e) + Copies(archive, start, end, date, date + 1, e)
         == Copies(archive, start, end, first, date + 1, e)
  {
    if |archive| > 0 {
      CopiesAdd(archive[..|archive| - 1], start, end, first, date, e);
    }
  }

  lemma {:induction false} NoCopies(archive: seq<Filed>, start: int, end: int, first: int, next: int, e: Stored)
    requires next <= first || !InRange(e, start, end)
    ensures Copies(archive, start, end, first, next, e) == 0
  {
    if |archive| > 0 {
      NoCopies(archive[..|archive| - 1], start, end, first, next, e);
    }
  }

  lemma AppendCounts(a: seq<Stored>, b: seq<Stored>, e: Stored)
    ensures multiset(a + b)[e] == multiset(a)[e] + multiset(b)[e]
  {
  }

  lemma DayCounts(archive: seq<Filed>, start: int, end: int, date: int, e: Stored)
    ensures multiset(Wanted(Daily(archive, date), start, end))[e] == Copies(archive, start, end, date, date + 1, e)
  {
    WantedCounts(Daily(archive, date), start, end, e);
    DailyCounts(archive, start, end, date, e);
  }

  lemma WalkDay(archive: seq<Filed>, start: int, end: int, first: int, date: int, e: Stored)
    requires first <= date
    requires multiset(Walk(archive, start, end, first, date))[e] == Copies(archive, start, end, first, date, e)
    ensures multiset(Walk(archive, start, end, first, date + 1))[e] == Copies(archive, start, end, first, date + 1, e)
  {
    AppendCounts(Walk(archive, start, end, first, date), Wanted(Daily(archive, date), start, end), e);
    DayCounts(archive, start, end, date, e);
    CopiesAdd(archive, start, end, first, date, e);
  }

  /** The walk republishes every object under a walked date once, if it is in range, and no other. */
  lemma {:induction false} WalkCounts(archive: seq<Filed>, start: int, end: int, first: int, next: int, e: Stored)
    ensures multiset(Walk(archive, start, end, first, next))[e] == Copies(archive, start, end, first, next, e)
    decreases next - first
  {
    if next <= first {
      NoCopies(archive, start, end, first, next, e);
    } else {
      WalkCounts(archive, start, end, first, next - 1, e);
      WalkDay(archive, start, end, first, next - 1, e);
    }
  }

  /** All archived events, whatever date they are filed under. */
  function Contents(archive: seq<Filed>): seq<Stored> {
    if |archive| == 0 then [] else Contents(archive[..|archive| - 1]) + [archive[|archive| - 1].event]
  }

  /** The walk reaches every object that is in range. */
  predicate WellFiled(archive: seq<Filed>, start: int, end: int) {
    forall f | f in archive && InRange(f.event, start, end) :: DateOf(start) <= f.date <= DateOf(end)
  }

  lemma {:induction false} CopiesMissing(archive: seq<Filed>, start: int, end: int, first: int, next: int, e: Stored)
    requires InRange(e, start, end)
    ensures Copies(archive, start, end, first, next, e) <= multiset(Contents(archive))[e]
    ensures Copies(archive, start, end, first, next, e) == multiset(Contents(archive))[e]
            <==> forall f | f in archive && f.event == e :: first <= f.date < next
  {
    if |archive| > 0 {
      var init, last := archive[..|archive| - 1], archive[|archive| - 1];
      CopiesMissing(init, start, end, first, next, e);
      assert forall f | f in archive :: f in init || f == last;
      assert forall f | f in init :: f in archive;
      assert last in archive;
    }
  }

  /** One event's share of the walk against its share of the archive. */
  lemma WalkOne(archive: seq<Filed>, start: int, end: int, e: Stored)
    ensures var all := Wanted(Contents(archive), start, end);
            multiset(FullWalk(archive, start, end))[e] == multiset(all)[e]
            <==> (InRange(e, start, end) ==>
                    forall f | f in archive && f.event == e :: DateOf(start) <= f.date < DateOf(end) + 1)
  {
    WalkCounts(archive, start, end, DateOf(start), DateOf(end) + 1, e);
    WantedCounts(Contents(archive), start, end, e);
    if InRange(e, start, end) {
      CopiesMissing(archive, start, end, DateOf(start), DateOf(end) + 1, e);
    } else {
      NoCopies(archive, start, end, DateOf(start), DateOf(end) + 1, e);
    }
  }

  /** Every stored event of the range is visited exactly once if and only if each is filed under a walked date. */
  lemma WalkExactlyWhen(archive: seq<Filed>, start: int, end: int)
    ensures multiset(FullWalk(archive, start, end)) == multiset(Wanted(Contents(archive), start, end))
            <==> WellFiled(archive, start, end)
  {
    var walk, all := FullWalk(archive, start, end), Wanted(Contents(archive), start, end);
    if multiset(walk) == multiset(all) {
      forall f | f in archive && InRange(f.event, start, end)
        ensures DateOf(start) <= f.date <= DateOf(end)
      {
        WalkOne(archive, start, end, f.event);
      }
    }
    if WellFiled(archive, start, end) {
      forall e: Stored
        ensures multiset(walk)[e] == multiset(all)[e]
      {
        WalkOne(archive, start, end, e);
      }
    }
  }

  /** A date is a day of 86,400 seconds, the first one numbered 1. */
  lemma DateText(t: int, d: int)
    ensures DateOf(t) == d <==> (d - 1) * 86_400_000_000 <= t < d * 86_400_000_000
  {
  }

  /** A tier republishes a stored event, copy for copy, if and only if its range contains the event's timestamp. */
  lemma WantedExactly(events: seq<Stored>, r: Range, e: Stored)
    ensures multiset(Wanted(events, r.from, r.to))[e]
         == if e.timestamp.Some? && r.from <= e.timestamp.value < r.to then multiset(events)[e] else 0
  {
    WantedCounts(events, r.from, r.to, e);
  }

  /** The cold walk sends an event if and only if its range contains the timestamp and a walked date lists it. */
  lemma WalkSends(archive: seq<Filed>, r: Range, e: Stored)
    ensures e in FullWalk(archive, r.from, r.to)
            <==> e.timestamp.Some? && r.from <= e.timestamp.value < r.to
                 && exists f :: f in archive && f.event == e && DateOf(r.from) <= f.date <= DateOf(r.to)
  {
    var first, next := DateOf(r.from), DateOf(r.to) + 1;
    WalkCounts(archive, r.from, r.to, first, next, e);
    CopiesPositive(archive, r.from, r.to, first, next, e);
    assert e in FullWalk(archive, r.from, r.to) <==> multiset(FullWalk(archive, r.from, r.to))[e] > 0;
  }

  lemma {:induction false} CopiesPositive(archive: seq<Filed>, start: int, end: int, first: int, next: int, e: Stored)
    ensures Copies(archive, start, end, first, next, e) > 0
            <==> InRange(e, start, end) && exists f :: f in archive && f.event == e && first <= f.date < next
  {
    if |archive| > 0 {
      var init, last := archive[..|archive| - 1], archive[|archive| - 1];
      CopiesPositive(init, start, end, first, next, e);
      assert forall f | f in archive :: f in init || f == last;
      assert forall f | f in init :: f in archive;
      assert last in archive;
    }
  }

  /** Filing by the event's own date is enough, for every range. */
  lemma FiledByDate(archive: seq<Filed>, start: int, end: int)
    requires forall f | f in archive && f.event.timestamp.Some? :: f.date == DateOf(f.event.timestamp.value)
    ensures WellFiled(archive, start, end)
  {
  }

  // -------------------------------------------------------------- the methods

  datatype Storage = Storage(
    warm: Option<seq<Stored>>,
    cold: Option<seq<Filed>>,
    producer: bool)             // hasattr(storage, 'kafka_producer')

  /** How many events come before the first whose timestamp cannot be read. */
  function ReadableSpan(events: seq<Stored>): (n: nat)
    ensures n <= |events| && (n < |events| ==> !Readable(events[n]))
  {
    if |events| == 0 || !Readable(events[0]) then 0 else 1 + ReadableSpan(events[1..])
  }

  lemma {:induction false} SpanIs(events: seq<Stored>, n: nat)
    requires n <= |events| && forall i | 0 <= i < n :: Readable(events[i])
    requires n < |events| ==> !Readable(events[n])
    ensures ReadableSpan(events) == n
  {
    if n > 0 {
      SpanIs(events[1..], n - 1);
    }
  }

  /** What one date sends, whether or not it raises. */
  function DaySent(archive: seq<Filed>, start: int, end: int, date: int): seq<Stored> {
    var daily := Daily(archive, date);
    Wanted(daily[..ReadableSpan(daily)], start, end)
  }

  /** What has been sent and counted once the dates from first up to next are done. */
  predicate SentSoFar(archive: seq<Filed>, producer: bool, start: int, end: int, first: int, next: int,
                      count: nat, sent: seq<Stored>)
  {
    && ReadableOn(archive, first, next)
    && count == |sent| && sent == if producer then Walk(archive, start, end, first, next) else []
  }

  lemma WholeDay(archive: seq<Filed>, start: int, end: int, date: int)
    requires ReadableOn(archive, date, date + 1)
    ensures DaySent(archive, start, end, date) == Wanted(Daily(archive, date), start, end)
  {
    var daily := Daily(archive, date);
    DailyReadable(archive, date);
    SpanIs(daily, |daily|);
    assert daily[..|daily|] == daily;
  }

  lemma SentMore(archive: seq<Filed>, producer: bool, start: int, end: int, first: int, date: int,
                 count: nat, sent: seq<Stored>, wanted: seq<Stored>)
    requires first <= date && SentSoFar(archive, producer, start, end, first, date, count, sent)
    requires ReadableOn(archive, date, date + 1)
    requires wanted == if producer then DaySent(archive, start, end, date) else []
    ensures SentSoFar(archive, producer, start, end, first, date + 1, count + |wanted|, sent + wanted)
  {
    WholeDay(archive, start, end, date);
  }

  /**
   What a walk of the dates first to last reports. The count is of events republished, but
   an unreadable timestamp, or stepping past the last date there is, raises after some have
   been sent and the count reported is then zero.
   */
  predicate WalkReport(archive: seq<Filed>, producer: bool, start: int, end: int, first: int, last: int,
                       count: nat, sent: seq<Stored>)
  {
    && (!producer ==> count == 0 && sent == [])
    && (!ReadableOn(archive, first, last + 1) ==>
          && count == 0
          && exists date | first <= date <= last ::
               ReadableOn(archive, first, date) && !ReadableOn(archive, date, date + 1)
               && (producer ==> sent == Walk(archive, start, end, first, date) + DaySent(archive, start, end, date)))
    && (producer && ReadableOn(archive, first, last + 1) ==>
          && sent == Walk(archive, start, end, first, last + 1)
          && count == (if first <= last == LAST_DATE then 0 else |sent|))
  }

  lemma RaisedReport(archive: seq<Filed>, producer: bool, start: int, end: int, first: int, date: int, last: int,
                     sent: seq<Stored>)
    requires first <= date <= last && ReadableOn(archive, first, date) && !ReadableOn(archive, date, date + 1)
    requires sent == if producer then Walk(archive, start, end, first, date) + DaySent(archive, start, end, date)
                     else []
    ensures WalkReport(archive, producer, start, end, first, last, 0, sent)
  {
    assert !ReadableOn(archive, first, last + 1);
  }

  lemma LastReport(archive: seq<Filed>, producer: bool, start: int, end: int, first: int, last: int,
                   sent: seq<Stored>)
    requires first <= last == LAST_DATE && SentSoFar(archive, producer, start, end, first, last + 1, |sent|, sent)
    ensures WalkReport(archive, producer, start, end, first, last, 0, sent)
  {
  }

  lemma DoneReport(archive: seq<Filed>, producer: bool, start: int, end: int, first: int, date: int, last: int,
                   count: nat, sent: seq<Stored>)
    requires SentSoFar(archive, producer, start, end, first, date, count, sent)
    requires last < date <= LAST_DATE && (date == last + 1 || date == first)
    ensures WalkReport(archive, producer, start, end, first, last, count, sent)
  {
    assert date == first > last ==> Walk(archive, start, end, first, date) == [];
  }

  method WalkDates(archive: seq<Filed>, producer: bool, start: int, end: int, first: int, last: int)
    returns (count: nat, sent: seq<Stored>)
    requires first <= LAST_DATE && last <= LAST_DATE
    ensures WalkReport(archive, producer, start, end, first, last, count, sent)
  {
    count, sent := 0, [];
    var date := first;
    NothingSent(archive, producer, start, end, first);
    var raised := false;
    while !raised && date <= last
      invariant first <= date <= LAST_DATE && (date <= last + 1 || date == first)
      invariant if raised then WalkReport(archive, producer, start, end, first, last, count, sent)
                else SentSoFar(archive, producer, start, end, first, date, count, sent)
      decreases last - date, !raised
    {
      count, sent, raised := WalkOneDate(archive, producer, start, end, first, date, last, count, sent);
      if !raised { date := date + 1; }
    }
    if !raised {
      DoneReport(archive, producer, start, end, first, date, last, count, sent);
    }
  }

  lemma NothingSent(archive: seq<Filed>, producer: bool, start: int, end: int, first: int)
    ensures SentSoFar(archive, producer, start, end, first, first, 0, [])
  {
  }

  /** One pass of the loop over dates, which may raise. */
  method WalkOneDate(archive: seq<Filed>, producer: bool, start: int, end: int, ghost first: int, date: int,
                     ghost last: int, count: nat, sent: seq<Stored>)
    returns (count': nat, sent': seq<Stored>, raised: bool)
    requires first <= date <= last <= LAST_DATE
    requires SentSoFar(archive, producer, start, end, first, date, count, sent)
    ensures raised ==> WalkReport(archive, producer, start, end, first, last, count', sent')
    ensures !raised ==> date < LAST_DATE && SentSoFar(archive, producer, start, end, first, date + 1, count', sent')
  {
    var readable, wanted := ReplayDate(archive, date, start, end, producer);
    count', sent' := count + |wanted|, sent + wanted;
    raised := !readable || date == LAST_DATE;
    if !readable {
      count' := 0;
      RaisedReport(archive, producer, start, end, first, date, last, sent');
    } else {
      SentMore(archive, producer, start, end, first, date, count, sent, wanted);
      if date == LAST_DATE {
        count' := 0;
        LastReport(archive, producer, start, end, first, last, sent');
      }
    }
  }

  /** Lists one date and replays it. */
  method ReplayDate(archive: seq<Filed>, date: int, start: int, end: int, producer: bool)
    returns (readable: bool, sent: seq<Stored>)
    ensures readable <==> ReadableOn(archive, date, date + 1)
    ensures sent == if producer then DaySent(archive, start, end, date) else []
  {
    DailyReadable(archive, date);
    readable, sent := ReplayDay(Daily(archive, date), start, end, producer);
  }

  method ReplayFromColdStorage(storage: Storage, start: int, end: int) returns (count: nat, sent: seq<Stored>)
    requires Nameable(start) && Nameable(end)
    ensures storage.cold.None? ==> count == 0 && sent == []
    ensures storage.cold.Some? ==>
              WalkReport(storage.cold.value, storage.producer, start, end, DateOf(start), DateOf(end), count, sent)
  {
    if storage.cold.None? {
      count, sent := 0, [];
    } else {
      count, sent := WalkDates(storage.cold.value, storage.producer, start, end, DateOf(start), DateOf(end));
    }
  }

  lemma {:induction false} DailyReadable(archive: seq<Filed>, date: int)
    ensures (forall e | e in Daily(archive, date) :: Readable(e)) <==> ReadableOn(archive, date, date + 1)
  {
    if |archive| > 0 {
      var init, last := archive[..|archive| - 1], archive[|archive| - 1];
      DailyReadable(init, date);
      assert forall f | f in archive :: f in init || f == last;
      assert forall f | f in init :: f in archive;
      assert last in archive;
    }
  }

  lemma WantedSnoc(events: seq<Stored>, i: nat, start: int, end: int)
    requires i < |events|
    ensures Wanted(events[..i + 1], start, end)
         == Wanted(events[..i], start, end) + (if InRange(events[i], start, end) then [events[i]] else [])
  {
    assert events[..i + 1][..i] == events[..i];
  }

  /** One date's objects, in listing order, up to the first whose timestamp cannot be read. */
  method ReplayDay(daily: seq<Stored>, start: int, end: int, producer: bool)
    returns (readable: bool, sent: seq<Stored>)
    ensures readable <==> forall e | e in daily :: Readable(e)
    ensures sent == if producer then Wanted(daily[..ReadableSpan(daily)], start, end) else []
  {
    sent := [];
    for i := 0 to |daily|
      invariant forall j | 0 <= j < i :: Readable(daily[j])
      invariant sent == if producer then Wanted(daily[..i], start, end) else []
    {
      if daily[i].timestamp.None? {
        assert daily[i] in daily && !Readable(daily[i]);
        SpanIs(daily, i);
        return false, sent;
      }
      WantedSnoc(daily, i, start, end);
      if start <= daily[i].timestamp.value < end {
        if producer { sent := sent + [daily[i]]; }
      }
    }
    SpanIs(daily, |daily|);
    readable := true;
  }

  /** The warm tier's query, whose rows are all republished when a producer is attached. */
  method ReplayFromClickHouse(storage: Storage, start: int, end: int) returns (count: nat)
    ensures count == if storage.warm.Some? && storage.producer then |Wanted(storage.warm.value, start, end)| else 0
  {
    count := if storage.warm.Some? && storage.producer then |Wanted(storage.warm.value, start, end)| else 0;
  }

  datatype Outcome = Outcome(total: nat, sources: seq<(Range, nat)>)

  function Ranges(sources: seq<(Range, nat)>): seq<Range> {
    seq(|sources|, i requires 0 <= i < |sources| => sources[i].0)
  }

  function Total(sources: seq<(Range, nat)>): nat {
    if |sources| == 0 then 0 else Total(sources[..|sources| - 1]) + sources[|sources| - 1].1
  }

  /** What each tier reports for its range; Kafka replay is not implemented and reports zero. */
  predicate Reported(storage: Storage, r: Range, n: nat) {
    match r.tier
    case Kafka => n == 0
    case ClickHouse =>
      n == if storage.warm.Some? && storage.producer then |Wanted(storage.warm.value, r.from, r.to)| else 0
    case Cold =>
      if storage.cold.None? || !storage.producer then n == 0
      else if !ReadableOn(storage.cold.value, DateOf(r.from), DateOf(r.to) + 1)
              || DateOf(r.from) <= DateOf(r.to) == LAST_DATE then n == 0
      else n == |FullWalk(storage.cold.value, r.from, r.to)|
  }

  predicate AllReported(storage: Storage, sources: seq<(Range, nat)>) {
    forall s | s in sources :: Reported(storage, s.0, s.1)
  }

  lemma SourcesSnoc(storage: Storage, sources: seq<(Range, nat)>, r: Range, n: nat)
    requires AllReported(storage, sources) && Reported(storage, r, n)
    ensures AllReported(storage, sources + [(r, n)])
    ensures Ranges(sources + [(r, n)]) == Ranges(sources) + [r]
    ensures Total(sources + [(r, n)]) == Total(sources) + n
  {
    assert (sources + [(r, n)])[..|sources|] == sources;
    assert forall s | s in sources + [(r, n)] :: s in sources || s == (r, n);
  }

  /** One tier's replay of one range. */
  method ReplayRange(storage: Storage, range: Range) returns (count: nat)
    requires range.tier.Cold? ==> Nameable(range.from) && Nameable(range.to)
    ensures Reported(storage, range, count)
  {
    match range.tier
    case Kafka => count := 0;
    case ClickHouse => count := ReplayFromClickHouse(storage, range.from, range.to);
    case Cold =>
      var sent: seq<Stored>;
      count, sent := ReplayFromColdStorage(storage, range.from, range.to);
  }

  /** Adds one tier's report, if its range is asked for. */
  method Consult(storage: Storage, sources: seq<(Range, nat)>, asked: bool, range: Range)
    returns (more: seq<(Range, nat)>)
    requires AllReported(storage, sources)
    requires asked && range.tier.Cold? ==> Nameable(range.from) && Nameable(range.to)
    ensures AllReported(storage, more) && Ranges(more) == Ranges(sources) + When(asked, range)
    ensures |more| == |sources| + |When(asked, range)| && sources <= more
  {
    more := sources;
    if asked {
      var count := ReplayRange(storage, range);
      SourcesSnoc(storage, sources, range, count);
      more := sources + [(range, count)];
    }
  }

  /** Each tier is asked for its sub-range of the split, and the total is what they report. */
  method ReplayBetween(storage: Storage, kafkaCutoff: int, clickhouseCutoff: int, start: int, end: int)
    returns (r: Outcome)
    requires Nameable(start) && Nameable(end) && Nameable(kafkaCutoff) && Nameable(clickhouseCutoff)
    ensures Ranges(r.sources) == Split(kafkaCutoff, clickhouseCutoff, start, end)
    ensures r.total == Total(r.sources) && AllReported(storage, r.sources)
  {
    var sources: seq<(Range, nat)> := [];
    sources := Consult(storage, sources, end > kafkaCutoff, Range(Kafka, Max(start, kafkaCutoff), end));
    assert Ranges(sources) == KafkaRange(kafkaCutoff, start, end);
    sources := Consult(storage, sources, start < kafkaCutoff && end > clickhouseCutoff,
                       Range(ClickHouse, Max(start, clickhouseCutoff), Min(end, kafkaCutoff)));
    sources := Consult(storage, sources, start < clickhouseCutoff,
                       Range(Cold, start, Min(end, clickhouseCutoff)));
    r := Outcome(Total(sources), sources);
  }

  method ReplayEvents(storage: Storage, policy: Policy, now: int, start: int, end: int) returns (r: Outcome)
    requires Nameable(start) && Nameable(end)
    requires Nameable(policy.KafkaCutoff(now)) && Nameable(policy.ClickHouseCutoff(now))
    ensures Ranges(r.sources) == Split(policy.KafkaCutoff(now), policy.ClickHouseCutoff(now), start, end)
    ensures r.total == Total(r.sources) && AllReported(storage, r.sources)
  {
    r := ReplayBetween(storage, policy.KafkaCutoff(now), policy.ClickHouseCutoff(now), start, end);
  }
}
