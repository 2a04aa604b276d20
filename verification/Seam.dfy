/**
 The seam query: lake rows below T, ClickHouse rows at and above T, with T, the lake
 and ClickHouse read at three moments of a system that keeps moving
 (query/seam.py, realtime/clickhouse.py).
 */
module Seam {
  import opened Broker
  import opened GroundTruth
  import opened Protocol
  import opened Rows
  import opened SafeWatermark
  import opened Safety
  import opened Schema

  datatype SeamResult = SeamResult(
    watermarkT: int, count: nat, gmv: real, lakeCount: nat, chCount: nat, lakeGmv: real, chGmv: real)

  /** count(*) and the signed sum, with NULL read as zero. */
  function Aggregate(rows: Rows): (nat, real) {
    (|rows|, match SqlSum(rows) case Some(sum) => sum case None => 0.0)
  }

  /** lake_side: a filtered scan of whatever snapshot is current when the table is loaded. */
  function LakeSide(lake: Lake, t: int): (nat, real) { Aggregate(Select(VisibleRows(lake), t, true)) }

  /** seam_side: ClickHouse at and above T. */
  function ChSide(ch: Rows, t: int): (nat, real) { Aggregate(Select(ch, t, false)) }

  /** T from one table load, the lake rows from a later one, ClickHouse later still. */
  function SeamQuery(forT: Lake, forRows: Lake, ch: Rows): SeamResult {
    var t := PublishedT(forT);
    var (lakeCount, lakeGmv) := LakeSide(forRows, t);
    var (chCount, chGmv) := ChSide(ch, t);
    SeamResult(t, lakeCount + chCount, lakeGmv + chGmv, lakeCount, chCount, lakeGmv, chGmv)
  }

  lemma AggregateIs(rows: Rows)
    ensures Aggregate(rows) == (|rows|, SignedSum(rows))
  {
  }

  // -------------------------------------------------------- moments of a run

  function At(log: Log, steps: seq<Step>, i: nat): World
    requires i <= |steps|
  {
    Run(log, steps[..i])
  }

  lemma Between(log: Log, steps: seq<Step>, i: nat, j: nat)
    requires WellFormed(log) && i <= j <= |steps|
    ensures Forward(log, At(log, steps, i), At(log, steps, j))
  {
    RunForward(log, steps[..i], steps[i..j]);
    assert steps[..i] + steps[i..j] == steps[..j];
  }

  /** A seam query whose three reads happen after i, j and m steps. */
  function Query(log: Log, steps: seq<Step>, i: nat, j: nat, m: nat): SeamResult
    requires i <= j <= m <= |steps|
  {
    SeamQuery(At(log, steps, i).lake, At(log, steps, j).lake, At(log, steps, m).ch)
  }

  /** What makes T safe, as a condition on the log and the windows used. */
  ghost predicate Sound(log: Log, steps: seq<Step>, w: int) {
    WellFormed(log) && NonNegative(log) && NothingExposed(log, w) && WindowsAtLeast(steps, w)
  }

  // ----------------------------------------------------------- rows of a log

  function LogRows(log: Log, k: Counts, n: nat): Rows
    requires Within(log, k) && n <= |log|
  {
    if n == 0 then [] else LogRows(log, k, n - 1) + EntryRows(log[n - 1][..k[n - 1]])
  }

  function EntryRows(l: PartitionLog): Rows {
    if |l| == 0 then []
    else EntryRows(l[..|l| - 1]) + (if l[|l| - 1].Good? then [l[|l| - 1].event] else [])
  }

  /** All events produced so far, partition by partition. */
  function ProducedRows(log: Log, k: Counts): Rows
    requires Within(log, k)
  {
    LogRows(log, k, |log|)
  }

  lemma {:induction false} EntryRowsEvents(l: PartitionLog)
    ensures multiset(EntryRows(l)) == Events(l)
  {
    if |l| > 0 {
      EntryRowsEvents(l[..|l| - 1]);
    }
  }

  lemma ConcatRows(a: Rows, b: Rows)
    ensures multiset(a + b) == multiset(a) + multiset(b)
  {
  }

  lemma JoinRows(rows: Rows, m: multiset<OrderEvent>, l: PartitionLog)
    requires multiset(rows) == m
    ensures multiset(rows + EntryRows(l)) == m + Events(l)
  {
    EntryRowsEvents(l);
    ConcatRows(rows, EntryRows(l));
  }

  lemma {:induction false} LogRowsEvents(log: Log, k: Counts, n: nat)
    requires Within(log, k) && n <= |log|
    ensures multiset(LogRows(log, k, n)) == EventsOf(log, k, n)
  {
    if n > 0 {
      LogRowsEvents(log, k, n - 1);
      JoinRows(LogRows(log, k, n - 1), EventsOf(log, k, n - 1), log[n - 1][..k[n - 1]]);
    }
  }

  // ------------------------------------------------------------ the lake side

  /** A list of exactly the events in some prefix of the log that covers what the lake holds. */
  ghost predicate Covers(log: Log, w: World, h: Counts, rows: Rows) {
    Within(log, h) && AtMost(Committed(log, w), h) && multiset(rows) == EventsUpTo(log, h)
  }

  /** Below T the lake returns exactly the rows of the log, at any later snapshot. */
  lemma LakeSideExact(log: Log, steps: seq<Step>, w: int, i: nat, j: nat, h: Counts, rows: Rows)
    requires Sound(log, steps, w) && i <= j <= |steps| && Covers(log, At(log, steps, i), h, rows)
    ensures var t := PublishedT(At(log, steps, i).lake);
            multiset(Select(VisibleRows(At(log, steps, j).lake), t, true)) == multiset(Select(rows, t, true))
  {
    var t := PublishedT(At(log, steps, i).lake);
    assert WindowsAtLeast(steps[..i], w);
    SettledSlice(log, steps[..i], steps[i..j], w, h);
    assert steps[..i] + steps[i..j] == steps[..j];
    SelectAgree(VisibleRows(At(log, steps, j).lake), rows, t, true);
  }

  lemma SameRows(a: Rows, b: Rows)
    requires multiset(a) == multiset(b)
    ensures |a| == |b| && SignedSum(a) == SignedSum(b)
  {
    SumPermutation(a, b);
    assert |multiset(a)| == |a| && |multiset(b)| == |b|;
  }

  /** The seam result as the log's rows below T plus whatever table ClickHouse answers from, from T up. */
  lemma QueryBySides(log: Log, steps: seq<Step>, w: int, i: nat, j: nat, h: Counts, rows: Rows, ch: Rows)
    requires Sound(log, steps, w) && i <= j <= |steps| && Covers(log, At(log, steps, i), h, rows)
    ensures var r := SeamQuery(At(log, steps, i).lake, At(log, steps, j).lake, ch);
            && r.watermarkT == PublishedT(At(log, steps, i).lake)
            && r.lakeCount == |Select(rows, r.watermarkT, true)|
            && r.lakeGmv == SignedSum(Select(rows, r.watermarkT, true))
            && r.chCount == |Select(ch, r.watermarkT, false)|
            && r.chGmv == SignedSum(Select(ch, r.watermarkT, false))
            && r.count == r.lakeCount + r.chCount && r.gmv == r.lakeGmv + r.chGmv
  {
    var t := PublishedT(At(log, steps, i).lake);
    LakeSideExact(log, steps, w, i, j, h, rows);
    SameRows(Select(VisibleRows(At(log, steps, j).lake), t, true), Select(rows, t, true));
    AggregateIs(Select(VisibleRows(At(log, steps, j).lake), t, true));
    AggregateIs(Select(ch, t, false));
  }

  lemma ProducedCovers(log: Log, steps: seq<Step>, i: nat, m: nat)
    requires WellFormed(log) && i <= m <= |steps|
    ensures var ends := At(log, steps, m).ends;
            Within(log, ends) && Covers(log, At(log, steps, i), ends, ProducedRows(log, ends))
  {
    RunInv(log, steps[..m]);
    Between(log, steps, i, m);
    LogRowsEvents(log, At(log, steps, m).ends, |log|);
  }

  // -------------------------------------------------------------- exactness

  /** The rows the seam counts. */
  function Combined(log: Log, steps: seq<Step>, i: nat, j: nat, m: nat): Rows
    requires i <= j <= m <= |steps|
  {
    var t := PublishedT(At(log, steps, i).lake);
    Select(VisibleRows(At(log, steps, j).lake), t, true) + Select(At(log, steps, m).ch, t, false)
  }

  /**
   The seam counts every event produced by the time ClickHouse is read once and only
   once, exactly when ClickHouse then holds those at and above T once and only once.
   */
  lemma SeamExactlyWhen(log: Log, steps: seq<Step>, w: int, i: nat, j: nat, m: nat)
    requires Sound(log, steps, w) && i <= j <= m <= |steps|
    ensures Within(log, At(log, steps, m).ends)
    ensures var truth := ProducedRows(log, At(log, steps, m).ends);
            var t := PublishedT(At(log, steps, i).lake);
            multiset(Combined(log, steps, i, j, m)) == multiset(truth)
            <==> multiset(Select(At(log, steps, m).ch, t, false)) == multiset(Select(truth, t, false))
  {
    ProducedCovers(log, steps, i, m);
    var ends := At(log, steps, m).ends;
    var truth := ProducedRows(log, ends);
    var t := PublishedT(At(log, steps, i).lake);
    LakeSideExact(log, steps, w, i, j, ends, truth);
    SidesPartition(truth, t);
    CancelLeft(multiset(Select(truth, t, true)), multiset(Select(At(log, steps, m).ch, t, false)),
               multiset(Select(truth, t, false)));
  }

  lemma CancelLeft(a: multiset<OrderEvent>, b: multiset<OrderEvent>, c: multiset<OrderEvent>)
    ensures a + b == a + c <==> b == c
  {
    assert b == a + b - a && c == a + c - a;
  }

  predicate NoRewind(steps: seq<Step>) { forall i | 0 <= i < |steps| :: !steps[i].ChRewind? }

  /** ClickHouse holds exactly the events below its own position. */
  ghost predicate ChHolds(log: Log, w: World) {
    Within(log, w.chNext) && AtMost(w.chNext, w.ends) && multiset(w.ch) == EventsUpTo(log, w.chNext)
  }

  lemma ChStart(log: Log)
    ensures ChHolds(log, InitialWorld(log))
  {
    ZerosAreEmpty(log, |log|);
  }

  lemma ChStep(log: Log, w: World, s: Step, w': World)
    requires ChHolds(log, w) && Inv(log, w') && w' == Apply(log, w, s) && !s.ChRewind?
    ensures ChHolds(log, w')
  {
    if s.ChPoll? {
      ChPollExact(log, w, s.p);
    } else {
      ChOther(log, w, s);
    }
  }

  lemma ChOther(log: Log, w: World, s: Step)
    requires !s.ChPoll? && !s.ChRewind?
    ensures Apply(log, w, s).ch == w.ch && Apply(log, w, s).chNext == w.chNext
  {
  }

  lemma ChPollExact(log: Log, w: World, p: nat)
    requires ChHolds(log, w)
    ensures var w' := Apply(log, w, ChPoll(p));
            Within(log, w'.chNext) ==> multiset(w'.ch) == EventsUpTo(log, w'.chNext)
  {
    if p < |log| && p < |w.ends| && w.chNext[p] < w.ends[p] && w.chNext[p] < |log[p]| {
      EventsAdvance(log, w.chNext, p, |log|);
    }
  }

  /** Without redelivery ClickHouse holds exactly the events below its own position. */
  lemma {:induction false} ChExact(log: Log, steps: seq<Step>)
    requires WellFormed(log) && NoRewind(steps)
    ensures ChHolds(log, Run(log, steps))
  {
    if |steps| == 0 {
      ChStart(log);
    } else {
      var init := steps[..|steps| - 1];
      ChExact(log, init);
      RunInv(log, steps);
      ChStep(log, Run(log, init), steps[|steps| - 1], Run(log, steps));
    }
  }

  /**
   The seam equals the oracle: in any run without redelivery, whatever commits, crashes
   and restarts fall between the reads, once ClickHouse has caught up with the topic.
   */
  lemma SeamEqualsGroundTruth(log: Log, steps: seq<Step>, w: int, i: nat, j: nat, m: nat, truth: Rows)
    requires Sound(log, steps, w) && i <= j <= m <= |steps| && NoRewind(steps[..m])
    requires var world := At(log, steps, m);
             world.chNext == world.ends && Within(log, world.ends)
             && multiset(truth) == EventsUpTo(log, world.ends)
    requires AllKnown(truth)
    ensures var r := Query(log, steps, i, j, m);
            var oracle := Compute(truth, r.watermarkT);
            && oracle.Ok?
            && r.count == oracle.value.count && r.gmv == oracle.value.gmv
            && r.lakeCount == oracle.value.countBelowT && r.lakeGmv == oracle.value.gmvBelowT
  {
    var ends, ch := At(log, steps, m).ends, At(log, steps, m).ch;
    var t := PublishedT(At(log, steps, i).lake);
    ProducedCovers(log, steps, i, m);
    QueryBySides(log, steps, w, i, j, ends, truth, ch);
    ChExact(log, steps[..m]);
    SelectAgree(ch, truth, t, false);
    SameRows(Select(ch, t, false), Select(truth, t, false));
    OracleSplits(truth, t);
  }

  function EventIds(rows: Rows): set<string> { set e | e in rows :: e.eventId }

  lemma SameIds(a: Rows, b: Rows)
    requires multiset(a) == multiset(b)
    ensures EventIds(a) == EventIds(b)
  {
    assert forall e: OrderEvent :: e in a <==> e in multiset(a);
    assert forall e: OrderEvent :: e in b <==> e in multiset(b);
  }

  /** The event ids the lake holds below T are the oracle's, at any later snapshot, caught up or not. */
  lemma LakeIdsBelowT(log: Log, steps: seq<Step>, w: int, i: nat, j: nat, h: Counts, truth: Rows)
    requires Sound(log, steps, w) && i <= j <= |steps| && Covers(log, At(log, steps, i), h, truth)
    requires AllKnown(truth)
    ensures var t := PublishedT(At(log, steps, i).lake);
            Compute(truth, t).Ok?
            && EventIds(Select(VisibleRows(At(log, steps, j).lake), t, true)) == Compute(truth, t).value.eventIdsBelowT
  {
    var t := PublishedT(At(log, steps, i).lake);
    LakeSideExact(log, steps, w, i, j, h, truth);
    OracleSplits(truth, t);
    SameIds(Select(VisibleRows(At(log, steps, j).lake), t, true), Select(truth, t, true));
  }

  // ------------------------------------------------------- error accounting

  /**
   Whatever ClickHouse answers from (lagging, redelivering, dropping, or all of them), the
   error against any later truth is its own: the seam is off by its surplus copies at and
   above T less the events there it lacks, in count and in money.
   */
  lemma SeamErrorAccounting(log: Log, steps: seq<Step>, w: int, i: nat, j: nat, h: Counts, truth: Rows,
                            ch: Rows, surplus: Rows, missing: Rows)
    requires Sound(log, steps, w) && i <= j <= |steps| && Covers(log, At(log, steps, i), h, truth)
    requires var t := PublishedT(At(log, steps, i).lake);
             var held, due := multiset(Select(ch, t, false)), multiset(Select(truth, t, false));
             multiset(surplus) == held - due && multiset(missing) == due - held
    ensures var r := SeamQuery(At(log, steps, i).lake, At(log, steps, j).lake, ch);
            && r.count == |truth| + |surplus| - |missing|
            && r.gmv == SignedSum(truth) + SignedSum(surplus) - SignedSum(missing)
            && r.lakeCount == |Select(truth, r.watermarkT, true)|
            && r.lakeGmv == SignedSum(Select(truth, r.watermarkT, true))
  {
    var t := PublishedT(At(log, steps, i).lake);
    var held, due := Select(ch, t, false), Select(truth, t, false);
    QueryBySides(log, steps, w, i, j, h, truth, ch);
    Balance(multiset(held), multiset(due));
    assert multiset(held + missing) == multiset(held) + multiset(missing);
    UnionAggregates(due, surplus, held + missing);
    SumConcat(held, missing);
    SidesPartition(truth, t);
    UnionAggregates(Select(truth, t, true), due, truth);
  }

  lemma Balance(held: multiset<OrderEvent>, due: multiset<OrderEvent>)
    ensures due + (held - due) == held + (due - held)
  {
  }

  // ------------------------------------------------------- counts over time

  /** The rows with t1 <= event_time < t2. */
  function Slice(rows: Rows, t1: int, t2: int): Rows { Select(Select(rows, t2, true), t1, false) }

  lemma {:induction false} SliceCounts(rows: Rows, t1: int, t2: int)
    requires t1 <= t2
    ensures |Select(rows, t2, true)| == |Select(rows, t1, true)| + |Slice(rows, t1, t2)|
    ensures |Select(rows, t1, false)| == |Slice(rows, t1, t2)| + |Select(rows, t2, false)|
  {
    if |rows| > 0 {
      var init, last := rows[..|rows| - 1], rows[|rows| - 1];
      SliceCounts(init, t1, t2);
      SelectSnoc(Select(init, t2, true), last, t1, false);
      assert last.eventTimeMs >= t2 ==> Select(rows, t2, true) == Select(init, t2, true);
    }
  }

  lemma {:induction false} ChGrows(log: Log, steps: seq<Step>, i: nat, j: nat)
    requires i <= j <= |steps|
    ensures At(log, steps, i).ch <= At(log, steps, j).ch
    decreases j
  {
    if i < j {
      ChGrows(log, steps, i, j - 1);
      assert steps[..j][..j - 1] == steps[..j - 1];
    }
  }

  lemma {:induction false} SelectGrows(a: Rows, b: Rows, t: int, below: bool)
    requires a <= b
    ensures |Select(a, t, below)| <= |Select(b, t, below)|
    decreases |b|
  {
    if |a| < |b| {
      SelectGrows(a, b[..|b| - 1], t, below);
    } else {
      assert a == b;
    }
  }

  /** Everything the log will ever hold. */
  function AllRows(log: Log): Rows { ProducedRows(log, Full(log)) }

  lemma AllCovers(log: Log, w: World)
    requires Inv(log, w)
    ensures Covers(log, w, Full(log), AllRows(log))
  {
    LogRowsEvents(log, Full(log), |log|);
  }

  /** How two seam counts differ, whatever ClickHouse did in between. */
  lemma CountDifference(log: Log, steps: seq<Step>, w: int, i: nat, j: nat, m: nat, i': nat, j': nat, m': nat)
    requires Sound(log, steps, w) && i <= j <= m <= |steps| && i' <= j' <= m' <= |steps| && i <= i' && m <= m'
    ensures var r, r' := Query(log, steps, i, j, m), Query(log, steps, i', j', m');
            var ch, ch' := At(log, steps, m).ch, At(log, steps, m').ch;
            && r.watermarkT <= r'.watermarkT
            && |Select(ch, r'.watermarkT, false)| <= |Select(ch', r'.watermarkT, false)|
            && r'.count - r.count
               == |Slice(AllRows(log), r.watermarkT, r'.watermarkT)| - |Slice(ch, r.watermarkT, r'.watermarkT)|
                  + (|Select(ch', r'.watermarkT, false)| - |Select(ch, r'.watermarkT, false)|)
  {
    RunInv(log, steps[..i]);
    RunInv(log, steps[..i']);
    PublishedIsDurable(log, At(log, steps, i));
    PublishedIsDurable(log, At(log, steps, i'));
    Between(log, steps, i, i');
    var t, t' := PublishedT(At(log, steps, i).lake), PublishedT(At(log, steps, i').lake);
    AllCovers(log, At(log, steps, i));
    AllCovers(log, At(log, steps, i'));
    QueryBySides(log, steps, w, i, j, Full(log), AllRows(log), At(log, steps, m).ch);
    QueryBySides(log, steps, w, i', j', Full(log), AllRows(log), At(log, steps, m').ch);
    SliceCounts(AllRows(log), t, t');
    SliceCounts(At(log, steps, m).ch, t, t');
    ChGrows(log, steps, m, m');
    SelectGrows(At(log, steps, m).ch, At(log, steps, m').ch, t', false);
  }

  lemma SubSlice(a: Rows, b: Rows, t1: int, t2: int)
    requires multiset(a) <= multiset(b)
    ensures |Slice(a, t1, t2)| <= |Slice(b, t1, t2)|
  {
    SelectCounts(a, t2, true);
    SelectCounts(b, t2, true);
    SelectCounts(Select(a, t2, true), t1, false);
    SelectCounts(Select(b, t2, true), t1, false);
    SubSize(multiset(Slice(a, t1, t2)), multiset(Slice(b, t1, t2)));
  }

  lemma SubSize(a: multiset<OrderEvent>, b: multiset<OrderEvent>)
    requires a <= b
    ensures |a| <= |b|
  {
    assert b == a + (b - a);
  }

  /**
   Seam counts never go backwards while ClickHouse has not redelivered, however far it
   lags and however many events move from its side to the lake's between the queries.
   */
  lemma CountsNeverGoBack(log: Log, steps: seq<Step>, w: int, i: nat, j: nat, m: nat, i': nat, j': nat, m': nat)
    requires Sound(log, steps, w) && i <= j <= m <= |steps| && i' <= j' <= m' <= |steps| && i <= i' && m <= m'
    requires NoRewind(steps[..m])
    ensures Query(log, steps, i, j, m).count <= Query(log, steps, i', j', m').count
  {
    CountDifference(log, steps, w, i, j, m, i', j', m');
    ChExact(log, steps[..m]);
    var chNext := At(log, steps, m).chNext;
    EventsMonotone(log, chNext, Full(log), |log|);
    LogRowsEvents(log, Full(log), |log|);
    SubSlice(At(log, steps, m).ch, AllRows(log),
             PublishedT(At(log, steps, i).lake), PublishedT(At(log, steps, i').lake));
  }
}
