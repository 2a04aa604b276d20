/** The safe watermark T (lake/watermark.py). */
module Watermark {
  import opened IntSets
  import opened Wrappers

  /** min(values) */
  function MinValue(m: map<int, int>): (v: int)
    requires |m| > 0
    ensures v in m.Values && forall p | p in m :: v <= m[p]
  {
    NonEmptyValues(m);
    LeastExists(m.Values);
    var v :| v in m.Values && forall u | u in m.Values :: v <= u;
    assert forall p | p in m :: m[p] in m.Values;
    v
  }

  lemma NonEmptyValues(m: map<int, int>)
    requires |m| > 0
    ensures m.Values != {}
  {
    assert |m.Keys| > 0;
    var p := PickFrom(m.Keys);
    assert m[p] in m.Values;
  }

  function ComputeWatermark(perPartitionMax: map<int, int>, lateness: int, previous: int,
                            expected: Option<int>): int
  {
    if expected.Some? && |perPartitionMax| < expected.value then previous
    else if |perPartitionMax| == 0 then previous
    else Max(previous, MinValue(perPartitionMax) - lateness)
  }

  /** Every expected partition has contributed a maximum, and there is at least one. */
  predicate AllSeen(perPartitionMax: map<int, int>, expected: Option<int>) {
    |perPartitionMax| > 0 && (expected.Some? ==> expected.value <= |perPartitionMax|)
  }

  /**
   The watermark passes t exactly when it already had, or when every partition has
   reported and each of them is more than the lateness window past t.
   */
  lemma PassesExactlyWhen(perPartitionMax: map<int, int>, lateness: int, previous: int,
                          expected: Option<int>, t: int)
    ensures ComputeWatermark(perPartitionMax, lateness, previous, expected) > t
            <==> previous > t
                 || (AllSeen(perPartitionMax, expected)
                     && forall p | p in perPartitionMax :: perPartitionMax[p] - lateness > t)
  {
    if |perPartitionMax| > 0 {
      var v := MinValue(perPartitionMax);
      var p := PickKey(perPartitionMax, v);
    }
  }
}
