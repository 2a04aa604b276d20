/**
 Rows and the two aggregates every reader of them computes: a count, and the
 signed sum of amounts under the SQL rule "created adds, anything else subtracts"
 (query/seam.py, realtime/clickhouse.py).
 */
module Rows {
  import opened Schema
  import opened Wrappers

  type Rows = seq<OrderEvent>

  function SqlDelta(e: OrderEvent): real { if e.Created() then e.amount else -e.amount }

  function SignedSum(rows: Rows): real {
    if |rows| == 0 then 0.0 else SignedSum(rows[..|rows| - 1]) + SqlDelta(rows[|rows| - 1])
  }

  /** sum() over no rows is NULL. */
  function SqlSum(rows: Rows): Option<real> {
    if |rows| == 0 then None else Some(SignedSum(rows))
  }

  /** The rows on one side of T: strictly below it, or at and above it. */
  function Select(rows: Rows, t: int, below: bool): Rows {
    if |rows| == 0 then []
    else
      var last := rows[|rows| - 1];
      Select(rows[..|rows| - 1], t, below) + (if (last.eventTimeMs < t) == below then [last] else [])
  }

  lemma MultisetLast(rows: Rows)
    requires |rows| > 0
    ensures multiset(rows) == multiset(rows[..|rows| - 1]) + multiset{rows[|rows| - 1]}
  {
    assert rows == rows[..|rows| - 1] + [rows[|rows| - 1]];
  }

  /** A filter keeps every copy of the rows it selects and no copy of the others. */
  lemma {:induction false} SelectCounts(rows: Rows, t: int, below: bool)
    ensures forall x :: multiset(Select(rows, t, below))[x]
                        == if (x.eventTimeMs < t) == below then multiset(rows)[x] else 0
  {
    if |rows| > 0 {
      SelectCounts(rows[..|rows| - 1], t, below);
      MultisetLast(rows);
    }
  }

  lemma SelectMember(rows: Rows, t: int, below: bool)
    ensures forall x :: x in multiset(Select(rows, t, below))
                        <==> x in multiset(rows) && ((x.eventTimeMs < t) == below)
    ensures multiset(Select(rows, t, below)) <= multiset(rows)
  {
    SelectCounts(rows, t, below);
  }

  /** Tables that agree on one side of T are alike when filtered to it. */
  lemma SelectAgree(a: Rows, b: Rows, t: int, below: bool)
    requires forall x: OrderEvent | (x.eventTimeMs < t) == below :: multiset(a)[x] == multiset(b)[x]
    ensures multiset(Select(a, t, below)) == multiset(Select(b, t, below))
  {
    SelectCounts(a, t, below);
    SelectCounts(b, t, below);
  }

  lemma SelectSnoc(rows: Rows, x: OrderEvent, t: int, below: bool)
    ensures Select(rows + [x], t, below)
         == Select(rows, t, below) + (if (x.eventTimeMs < t) == below then [x] else [])
  {
    assert (rows + [x])[..|rows|] == rows;
  }

  /** The two sides of any T split the rows: nothing is lost or counted twice. */
  lemma SidesPartition(rows: Rows, t: int)
    ensures multiset(Select(rows, t, true)) + multiset(Select(rows, t, false)) == multiset(rows)
  {
    SelectCounts(rows, t, true);
    SelectCounts(rows, t, false);
  }

  lemma {:induction false} SumConcat(a: Rows, b: Rows)
    ensures SignedSum(a + b) == SignedSum(a) + SignedSum(b)
  {
    if |b| == 0 {
      assert a + b == a;
    } else {
      SumConcat(a, b[..|b| - 1]);
      assert (a + b)[..|a + b| - 1] == a + b[..|b| - 1];
    }
  }

  lemma SumInsert(pre: Rows, x: OrderEvent, post: Rows)
    ensures SignedSum(pre + [x] + post) == SignedSum(pre + post) + SqlDelta(x)
    ensures multiset(pre + [x] + post) == multiset(pre + post) + multiset{x}
  {
    SumConcat(pre + [x], post);
    SumConcat(pre, post);
    assert (pre + [x])[..|pre|] == pre;
  }

  lemma SplitAround(rows: Rows, x: OrderEvent) returns (pre: Rows, post: Rows)
    requires x in rows
    ensures rows == pre + [x] + post
  {
    var i :| 0 <= i < |rows| && rows[i] == x;
    pre, post := rows[..i], rows[i + 1..];
  }

  lemma Cancel(m: multiset<OrderEvent>, n: multiset<OrderEvent>, x: OrderEvent)
    requires m + multiset{x} == n + multiset{x}
    ensures m == n
  {
    assert m == (m + multiset{x}) - multiset{x};
  }

  /** The signed sum does not depend on row order. */
  lemma {:induction false} SumPermutation(a: Rows, b: Rows)
    requires multiset(a) == multiset(b)
    ensures SignedSum(a) == SignedSum(b)
    decreases |a|
  {
    if |a| == 0 {
      assert |multiset(b)| == 0;
    } else {
      var rest, x := a[..|a| - 1], a[|a| - 1];
      MultisetLast(a);
      assert x in multiset(b);
      var pre, post := SplitAround(b, x);
      SumInsert(pre, x, post);
      Cancel(multiset(rest), multiset(pre + post), x);
      SumPermutation(rest, pre + post);
    }
  }

  /** Aggregates over two tables that together hold the rows of a third. */
  lemma UnionAggregates(a: Rows, b: Rows, whole: Rows)
    requires multiset(a) + multiset(b) == multiset(whole)
    ensures |a| + |b| == |whole|
    ensures SignedSum(a) + SignedSum(b) == SignedSum(whole)
  {
    assert multiset(a + b) == multiset(whole);
    assert |multiset(a + b)| == |a + b| && |multiset(whole)| == |whole|;
    SumConcat(a, b);
    SumPermutation(a + b, whole);
  }
}
