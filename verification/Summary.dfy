/**
 The snapshot summary: what a commit stamps into a snapshot, as the string
 properties Iceberg stores, and what a restart reads back (lake/landing_job.py).
 */
module Summary {
  import opened IntSets
  import opened Wrappers
  import opened Json
  import opened Schema

  const K_OFFSETS := "streaming-lab.kafka.offsets"
  const K_WATERMARK := "streaming-lab.watermark.event_time_ms"
  const K_LATENESS := "streaming-lab.watermark.lateness_window_ms"
  const K_PART_MAX := "streaming-lab.watermark.per_partition_max_ms"
  const K_BATCH_N := "streaming-lab.batch.event_count"
  const K_SEQ := "streaming-lab.commit.seq"

  type Props = map<string, string>

  datatype ResumeState = ResumeState(
    offsets: map<int, int>,          // partition -> next offset to consume
    perPartitionMax: map<int, int>,
    watermarkT: int,
    commitSeq: int)

  const FRESH := ResumeState(map[], map[], 0, 0)

  // ------------------------------------------------- integer maps as JSON text

  type Item = (int, int)

  function MapOf(es: seq<Item>): map<int, int> {
    if |es| == 0 then map[] else MapOf(es[..|es| - 1])[es[|es| - 1].0 := es[|es| - 1].1]
  }

  predicate DistinctEntries(es: seq<Item>) { forall i, j | 0 <= i < j < |es| :: es[i].0 != es[j].0 }

  function GreatestKey(m: map<int, int>): (k: int)
    requires m.Keys != {}
    ensures k in m && forall j | j in m :: j <= k
  {
    GreatestExists(m.Keys);
    var k :| k in m.Keys && forall j | j in m.Keys :: j <= k;
    k
  }

  /** The entries of a dictionary in ascending key order. */
  function Entries(m: map<int, int>): (es: seq<Item>)
    decreases |m.Keys|
  {
    if m.Keys == {} then []
    else
      var k := GreatestKey(m);
      assert (m - {k}).Keys == m.Keys - {k};
      Entries(m - {k}) + [(k, m[k])]
  }

  lemma PutBack(m: map<int, int>, k: int)
    requires k in m
    ensures (m - {k}).Keys == m.Keys - {k} && (m - {k})[k := m[k]] == m
  {
  }

  lemma AppendEntry(es: seq<Item>, e: Item)
    requires DistinctEntries(es) && e.0 !in MapOf(es)
    ensures MapOf(es + [e]) == MapOf(es)[e.0 := e.1] && DistinctEntries(es + [e])
  {
    assert (es + [e])[..|es|] == es;
    MapOfKeys(es);
  }

  lemma {:induction false} EntriesOf(m: map<int, int>)
    ensures MapOf(Entries(m)) == m && DistinctEntries(Entries(m))
    decreases |m.Keys|
  {
    if m.Keys != {} {
      var k := GreatestKey(m);
      PutBack(m, k);
      EntriesOf(m - {k});
      AppendEntry(Entries(m - {k}), (k, m[k]));
    }
  }

  lemma {:induction false} MapOfKeys(es: seq<Item>)
    ensures forall i | 0 <= i < |es| :: es[i].0 in MapOf(es)
  {
    if |es| > 0 {
      MapOfKeys(es[..|es| - 1]);
    }
  }

  function IntMember(e: Item): Member { Member(IntToString(e.0), Int(e.1)) }

  function IntMembers(es: seq<Item>): (ms: seq<Member>)
    ensures |ms| == |es| && forall i | 0 <= i < |es| :: ms[i] == IntMember(es[i])
  {
    if |es| == 0 then [] else IntMembers(es[..|es| - 1]) + [IntMember(es[|es| - 1])]
  }

  /** json.dumps of a dictionary whose integer keys become strings. */
  function PrintIntMap(m: map<int, int>): string { Dumps(IntMembers(Entries(m)), ", ", ": ") }

  /** Keys and values back through int(); a text that is no integer raises. */
  function IntsOf(d: seq<Member>): Option<map<int, int>> {
    if |d| == 0 then Some(map[])
    else
      match IntsOf(d[..|d| - 1])
      case None => None
      case Some(m) =>
        var key, val := ParseInt(d[|d| - 1].key), ToInt(d[|d| - 1].val);
        if key.Some? && val.Some? then Some(m[key.value := val.value]) else None
  }

  function ReadIntMap(text: string): Option<map<int, int>> {
    match Loads(text)
    case Some(ms) => IntsOf(DictOf(ms))
    case None => None
  }

  lemma {:induction false} IntsOfMembers(es: seq<Item>)
    ensures IntsOf(IntMembers(es)) == Some(MapOf(es))
  {
    if |es| > 0 {
      IntsOfMembers(es[..|es| - 1]);
      IntRoundTrip(es[|es| - 1].0);
      assert IntMembers(es)[..|es| - 1] == IntMembers(es[..|es| - 1]);
    }
  }

  /** Distinct integer keys print as distinct strings. */
  lemma MembersDistinct(es: seq<Item>)
    requires DistinctEntries(es)
    ensures DistinctKeys(IntMembers(es))
  {
    forall i, j | 0 <= i < j < |es|
      ensures IntMembers(es)[i].key != IntMembers(es)[j].key
    {
      if IntToString(es[i].0) == IntToString(es[j].0) {
        IntToStringInjective(es[i].0, es[j].0);
      }
    }
  }

  /** Whatever order the dictionary was printed in, it reads back as the same dictionary. */
  lemma AnyOrderRoundTrip(es: seq<Item>, comma: string, colon: string)
    requires DistinctEntries(es) && Separators(comma, colon)
    ensures ReadIntMap(Dumps(IntMembers(es), comma, colon)) == Some(MapOf(es))
  {
    DumpsLoads(IntMembers(es), comma, colon);
    MembersDistinct(es);
    DictOfDistinct(IntMembers(es));
    IntsOfMembers(es);
  }

  lemma IntMapRoundTrip(m: map<int, int>)
    ensures ReadIntMap(PrintIntMap(m)) == Some(m)
  {
    EntriesOf(m);
    AnyOrderRoundTrip(Entries(m), ", ", ": ");
  }

  // -------------------------------------------------------------- properties

  /** The properties one commit stamps. */
  function Stamp(st: ResumeState, lateness: int, batchCount: nat): Props {
    map[K_OFFSETS := PrintIntMap(st.offsets),
        K_WATERMARK := IntToString(st.watermarkT),
        K_LATENESS := IntToString(lateness),
        K_PART_MAX := PrintIntMap(st.perPartitionMax),
        K_BATCH_N := IntToString(batchCount),
        K_SEQ := IntToString(st.commitSeq)]
  }

  function IntProp(props: Props, key: string): Option<int> {
    if key in props then ParseInt(props[key]) else Some(0)
  }

  function MapProp(props: Props, key: string): Option<map<int, int>> {
    if key in props then ReadIntMap(props[key]) else Some(map[])
  }

  /** read_resume_state; None when some text does not parse and the read raises. */
  function ReadResumeState(props: Props): Option<ResumeState> {
    var offsets, maxima := MapProp(props, K_OFFSETS), MapProp(props, K_PART_MAX);
    var t, seqNo := IntProp(props, K_WATERMARK), IntProp(props, K_SEQ);
    if offsets.Some? && maxima.Some? && t.Some? && seqNo.Some? then
      Some(ResumeState(offsets.value, maxima.value, t.value, seqNo.value))
    else None
  }

  lemma KeysDiffer()
    ensures K_OFFSETS != K_WATERMARK && K_OFFSETS != K_PART_MAX && K_OFFSETS != K_LATENESS
    ensures K_OFFSETS != K_BATCH_N && K_OFFSETS != K_SEQ
    ensures K_WATERMARK != K_PART_MAX && K_WATERMARK != K_LATENESS && K_WATERMARK != K_BATCH_N
    ensures K_WATERMARK != K_SEQ && K_PART_MAX != K_LATENESS && K_PART_MAX != K_BATCH_N
    ensures K_PART_MAX != K_SEQ && K_BATCH_N != K_SEQ && K_BATCH_N != K_LATENESS && K_LATENESS != K_SEQ
  {
    assert |K_OFFSETS| == 27 && |K_WATERMARK| == 37 && |K_LATENESS| == 42;
    assert |K_PART_MAX| == 44 && |K_BATCH_N| == 31 && |K_SEQ| == 24;
  }

  /** A restart reads back exactly the state the commit stamped, and the stamped batch size. */
  lemma ResumeRoundTrip(st: ResumeState, lateness: int, batchCount: nat)
    ensures ReadResumeState(Stamp(st, lateness, batchCount)) == Some(st)
    ensures IntProp(Stamp(st, lateness, batchCount), K_BATCH_N) == Some(batchCount)
    ensures IntProp(Stamp(st, lateness, batchCount), K_LATENESS) == Some(lateness)
  {
    KeysDiffer();
    IntMapRoundTrip(st.offsets);
    IntMapRoundTrip(st.perPartitionMax);
    IntRoundTrip(st.watermarkT);
    IntRoundTrip(st.commitSeq);
    IntRoundTrip(batchCount);
    IntRoundTrip(lateness);
  }

  /** A table without snapshots has no properties, and a job starts from nothing. */
  lemma FreshResume()
    ensures ReadResumeState(map[]) == Some(FRESH)
  {
  }
}
