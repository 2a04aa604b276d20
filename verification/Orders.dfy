/**
 Accounting by order: what the signed sum of any table of created and cancelled rows
 amounts to once matching pairs are set aside (events/generator.py, query/seam.py).
 */
module Orders {
  import opened Generator
  import opened Rows
  import opened Schema

  /** Each order is created at most once, cancelled at most once, and for the same amount. */
  ghost predicate Matched(m: multiset<OrderEvent>) {
    && (forall e | e in m :: m[e] == 1 && e.Known() && e.amount > 0.0)
    && (forall a, b | a in m && b in m && a.orderId == b.orderId ::
          a.amount == b.amount && (a.Created() == b.Created() ==> a == b))
  }

  /** No row of the table is the other half of r's order. */
  ghost predicate Alone(r: OrderEvent, m: multiset<OrderEvent>) {
    forall s | s in m && s.orderId == r.orderId :: s.Created() == r.Created()
  }

  /** The rows that create an order the table does not cancel, or cancel one it does not create. */
  ghost function Lone(rows: Rows, m: multiset<OrderEvent>): Rows {
    if |rows| == 0 then []
    else
      var last := rows[|rows| - 1];
      Lone(rows[..|rows| - 1], m) + (if Alone(last, m) then [last] else [])
  }

  lemma {:induction false} LoneCounts(rows: Rows, m: multiset<OrderEvent>)
    ensures forall x :: multiset(Lone(rows, m))[x] == if Alone(x, m) then multiset(rows)[x] else 0
  {
    if |rows| > 0 {
      LoneCounts(rows[..|rows| - 1], m);
      MultisetLast(rows);
    }
  }

  /** Takes one copy each of x and y out of a table. */
  lemma TakeTwo(rows: Rows, x: OrderEvent, y: OrderEvent) returns (rest: Rows)
    requires x in rows && y in rows && x != y
    ensures multiset(rows) == multiset(rest) + multiset{x} + multiset{y}
    ensures SignedSum(rows) == SignedSum(rest) + SqlDelta(x) + SqlDelta(y)
    ensures |rest| < |rows|
  {
    var pre, post := SplitAround(rows, x);
    SumInsert(pre, x, post);
    StillThere(pre, x, post, y);
    var pre', post' := SplitAround(pre + post, y);
    SumInsert(pre', y, post');
    rest := pre' + post';
  }

  lemma StillThere(pre: Rows, x: OrderEvent, post: Rows, y: OrderEvent)
    requires y in pre + [x] + post && x != y
    ensures y in pre + post
  {
  }

  lemma MatchedRest(m: multiset<OrderEvent>, rest: multiset<OrderEvent>)
    requires Matched(m) && rest <= m
    ensures Matched(rest)
  {
    forall e | e in rest
      ensures e in m && rest[e] == 1
    {
      assert 0 < rest[e] <= m[e];
    }
  }

  /** Setting a pair aside leaves the lone rows as they were. */
  lemma PairSetAside(m: multiset<OrderEvent>, rest: multiset<OrderEvent>, x: OrderEvent, y: OrderEvent, r: OrderEvent)
    requires Matched(m) && m == rest + multiset{x} + multiset{y}
    requires x.orderId == y.orderId && x.Created() != y.Created()
    ensures (if Alone(r, m) then m[r] else 0) == (if Alone(r, rest) then rest[r] else 0)
  {
    assert x in m && y in m;
    if r in rest {
      assert r in m && m[r] == 1;
      assert r != x && r != y;
      assert r.orderId != x.orderId;
      assert forall s | s in m && s.orderId == r.orderId :: s in rest;
    } else if r == x {
      assert !Alone(r, m);
    } else if r == y {
      assert !Alone(r, m);
    }
  }

  /** The GMV of a table is the GMV of its lone rows: matched pairs cancel, wherever they lie. */
  lemma {:induction false} GmvOfLone(rows: Rows)
    requires Matched(multiset(rows))
    ensures SignedSum(rows) == SignedSum(Lone(rows, multiset(rows)))
    decreases |rows|
  {
    var m := multiset(rows);
    if x, y :| x in m && y in m && x.orderId == y.orderId && x.Created() != y.Created() {
      var rest := TakeTwo(rows, x, y);
      MatchedRest(m, multiset(rest));
      GmvOfLone(rest);
      SameLone(rows, rest, x, y);
    } else {
      AllLone(rows, m);
    }
  }

  lemma SameLone(rows: Rows, rest: Rows, x: OrderEvent, y: OrderEvent)
    requires Matched(multiset(rows)) && multiset(rows) == multiset(rest) + multiset{x} + multiset{y}
    requires x.orderId == y.orderId && x.Created() != y.Created()
    ensures SignedSum(Lone(rows, multiset(rows))) == SignedSum(Lone(rest, multiset(rest)))
  {
    var m, m' := multiset(rows), multiset(rest);
    LoneCounts(rows, m);
    LoneCounts(rest, m');
    forall r: OrderEvent
      ensures multiset(Lone(rows, m))[r] == multiset(Lone(rest, m'))[r]
    {
      PairSetAside(m, m', x, y, r);
    }
    SumPermutation(Lone(rows, m), Lone(rest, m'));
  }

  lemma {:induction false} AllLone(rows: Rows, m: multiset<OrderEvent>)
    requires forall x, y | x in m && y in m && x.orderId == y.orderId :: x.Created() == y.Created()
    requires forall r | r in rows :: r in m
    ensures Lone(rows, m) == rows
  {
    if |rows| > 0 {
      var init := rows[..|rows| - 1];
      assert forall r | r in init :: r in rows;
      AllLone(init, m);
      assert rows[|rows| - 1] in rows;
      assert rows == init + [rows[|rows| - 1]];
    }
  }

  /** Every cancellation in the table has its creation there. */
  ghost predicate Closed(m: multiset<OrderEvent>) {
    forall c | c in m && c.Cancelled() :: exists o :: o in m && o.Created() && o.orderId == c.orderId
  }

  /** The creations among rows, and the cancellations, as what they are worth. */
  function Worth(rows: Rows, created: bool): real {
    if |rows| == 0 then 0.0
    else
      var last := rows[|rows| - 1];
      Worth(rows[..|rows| - 1], created) + (if last.Created() == created then last.amount else 0.0)
  }

  lemma {:induction false} WorthOfSides(rows: Rows)
    ensures SignedSum(rows) == Worth(rows, true) - Worth(rows, false)
  {
    if |rows| > 0 {
      WorthOfSides(rows[..|rows| - 1]);
    }
  }

  lemma {:induction false} WorthPositive(rows: Rows, created: bool)
    requires forall r | r in rows :: r.amount > 0.0
    ensures Worth(rows, created) >= 0.0
    ensures Worth(rows, created) == 0.0 <==> forall r | r in rows :: r.Created() != created
  {
    if |rows| > 0 {
      var init, last := rows[..|rows| - 1], rows[|rows| - 1];
      assert forall r | r in init :: r in rows;
      assert forall r | r in rows :: r in init || r == last;
      WorthPositive(init, created);
    }
  }

  /**
   Every table of matched orders: its GMV is what its open orders are worth less what it
   cancels without having created, so it is never negative when it is closed.
   */
  lemma GmvByOrders(rows: Rows)
    requires Matched(multiset(rows))
    ensures var lone := Lone(rows, multiset(rows));
            && SignedSum(rows) == Worth(lone, true) - Worth(lone, false)
            && (Closed(multiset(rows)) <==> Worth(lone, false) == 0.0)
            && Worth(lone, true) >= 0.0 && Worth(lone, false) >= 0.0
  {
    var m := multiset(rows);
    var lone := Lone(rows, m);
    GmvOfLone(rows);
    WorthOfSides(lone);
    LoneCounts(rows, m);
    forall r | r in lone
      ensures r in m && Alone(r, m)
    {
      assert multiset(lone)[r] > 0;
    }
    WorthPositive(lone, true);
    WorthPositive(lone, false);
    ClosedWhen(rows, lone);
  }

  lemma ClosedWhen(rows: Rows, lone: Rows)
    requires Matched(multiset(rows))
    requires forall r :: r in lone <==> r in rows && Alone(r, multiset(rows))
    ensures Closed(multiset(rows)) <==> forall r | r in lone :: r.Created()
  {
    var m := multiset(rows);
    if Closed(m) {
      forall r | r in lone
        ensures r.Created()
      {
        assert r in m && r.Known();
      }
    }
    if forall r | r in lone :: r.Created() {
      forall c | c in m && c.Cancelled()
        ensures exists o :: o in m && o.Created() && o.orderId == c.orderId
      {
        assert !c.Created();
        assert c !in lone;
        var s :| s in m && s.orderId == c.orderId && s.Created() != c.Created();
      }
    }
  }

  // ------------------------------------------------------------- time slices

  /** No cancellation below t has its creation at or above t. */
  ghost predicate NoneStraddles(m: multiset<OrderEvent>, t: int) {
    forall c, o | c in m && o in m && c.Cancelled() && o.Created() && o.orderId == c.orderId && c.eventTimeMs < t ::
      o.eventTimeMs < t
  }

  /** A slice of a closed table is closed exactly when no order straddles its upper end. */
  lemma SliceClosedWhen(rows: Rows, t: int)
    requires Matched(multiset(rows)) && Closed(multiset(rows))
    ensures Closed(multiset(Select(rows, t, true))) <==> NoneStraddles(multiset(rows), t)
  {
    var m, slice := multiset(rows), multiset(Select(rows, t, true));
    SelectMember(rows, t, true);
    if Closed(slice) {
      forall c, o | c in m && o in m && c.Cancelled() && o.Created() && o.orderId == c.orderId && c.eventTimeMs < t
        ensures o.eventTimeMs < t
      {
        assert c in slice;
        var o' :| o' in slice && o'.Created() && o'.orderId == c.orderId;
        assert o' == o;
      }
    }
    if NoneStraddles(m, t) {
      forall c | c in slice && c.Cancelled()
        ensures exists o :: o in slice && o.Created() && o.orderId == c.orderId
      {
        var o :| o in m && o.Created() && o.orderId == c.orderId;
        assert o in slice;
      }
    }
  }

  /** What a slice of a closed table cancels without having created was created at or above its upper end. */
  lemma LoneWasCreatedLater(rows: Rows, t: int, r: OrderEvent)
    requires Matched(multiset(rows)) && Closed(multiset(rows))
    requires var slice := Select(rows, t, true);
             r in Lone(slice, multiset(slice)) && !r.Created()
    ensures exists o :: o in multiset(rows) && o.Created() && o.orderId == r.orderId && o.eventTimeMs >= t
  {
    var m, slice := multiset(rows), Select(rows, t, true);
    SelectMember(rows, t, true);
    LoneCounts(slice, multiset(slice));
    assert multiset(Lone(slice, multiset(slice)))[r] > 0;
    assert r in m && r.Known();
    var o :| o in m && o.Created() && o.orderId == r.orderId;
    assert o in multiset(slice) ==> o.Created() == r.Created();
  }

  // ------------------------------------------------------- the generator's list

  /** The creation an open order stands for. */
  predicate Opens(c: OrderEvent, o: OpenOrder) {
    c.Created() && c.orderId == o.orderId && c.amount == o.amount && c.userId == o.userId
  }

  /** The order was created and has not been cancelled. */
  ghost predicate OpenIn(events: Rows, o: OpenOrder) {
    (exists c :: c in events && Opens(c, o)) && (forall c | c in events && c.orderId == o.orderId :: c.Created())
  }

  /** The pool holds each open order once. */
  ghost predicate OpenInv(events: Rows) {
    && (forall o | o in OpenAfter(events) :: OpenAfter(events)[o] == 1 && OpenIn(events, o))
    && (forall c | c in events :: c.orderId in CreatedIds(events))
  }

  lemma MatchedAdd(m: multiset<OrderEvent>, e: OrderEvent)
    requires Matched(m) && e.Known() && e.amount > 0.0
    requires forall r | r in m && r.orderId == e.orderId :: r.amount == e.amount && r.Created() != e.Created()
    ensures Matched(m + multiset{e})
  {
    assert e !in m;
    forall r | r in m + multiset{e}
      ensures (r in m || r == e) && (m + multiset{e})[r] == 1
    {
    }
  }

  lemma OpenStays(init: Rows, e: OrderEvent, o: OpenOrder)
    requires OpenIn(init, o) && (e.orderId == o.orderId ==> e.Created())
    ensures OpenIn(init + [e], o)
  {
    var c :| c in init && Opens(c, o);
    assert c in init + [e];
  }

  lemma DistinctSnoc(ids: seq<string>, id: string)
    requires Distinct(ids + [id])
    ensures Distinct(ids) && id !in ids
  {
    var more := ids + [id];
    forall i | 0 <= i < |ids|
      ensures ids[i] != id
    {
      assert more[i] != more[|ids|];
    }
    forall i, j | 0 <= i < j < |ids|
      ensures ids[i] != ids[j]
    {
      assert more[i] != more[j];
    }
  }

  lemma SnocMultiset(rows: Rows, e: OrderEvent)
    ensures multiset(rows + [e]) == multiset(rows) + multiset{e}
  {
  }

  lemma CreateMatched(init: Rows, e: OrderEvent)
    requires Matched(multiset(init)) && OpenInv(init) && e.Created() && e.amount > 0.0
    requires e.orderId !in CreatedIds(init)
    ensures Matched(multiset(init + [e])) && OpenInv(init + [e])
  {
    Appended(init, e);
    SnocMultiset(init, e);
    MatchedAdd(multiset(init), e);
    CreateOpen(init, e);
  }

  lemma CreateOpen(init: Rows, e: OrderEvent)
    requires OpenInv(init) && e.Created() && e.orderId !in CreatedIds(init)
    requires CreatedIds(init + [e]) == CreatedIds(init) + [e.orderId]
    requires OpenAfter(init + [e]) == OpenAfter(init) + multiset{OpenOrder(e.orderId, e.amount, e.userId)}
    ensures OpenInv(init + [e])
  {
    var o := OpenOrder(e.orderId, e.amount, e.userId);
    assert o !in OpenAfter(init);
    forall q | q in OpenAfter(init + [e])
      ensures OpenAfter(init + [e])[q] == 1 && OpenIn(init + [e], q)
    {
      if q == o {
        assert e in init + [e] && Opens(e, q);
      } else {
        OpenStays(init, e, q);
      }
    }
  }

  /** An open order has no row but its creation. */
  lemma OnlyCreation(init: Rows, c: OrderEvent, o: OpenOrder)
    requires Matched(multiset(init)) && OpenIn(init, o) && c in init && Opens(c, o)
    ensures forall r | r in multiset(init) && r.orderId == o.orderId :: r == c
  {
    assert c in multiset(init);
    forall r | r in multiset(init) && r.orderId == o.orderId
      ensures r == c
    {
      assert r in init;
    }
  }

  lemma CancelMatched(init: Rows, e: OrderEvent)
    requires Matched(multiset(init)) && OpenInv(init) && e.Cancelled() && !e.Created() && e.amount > 0.0
    requires OpenOrder(e.orderId, e.amount, e.userId) in OpenAfter(init)
    ensures Matched(multiset(init + [e])) && OpenInv(init + [e])
  {
    Appended(init, e);
    SnocMultiset(init, e);
    var o := OpenOrder(e.orderId, e.amount, e.userId);
    var c :| c in init && Opens(c, o);
    OnlyCreation(init, c, o);
    MatchedAdd(multiset(init), e);
    CancelOpen(init, e, c);
  }

  lemma CancelOpen(init: Rows, e: OrderEvent, c: OrderEvent)
    requires Matched(multiset(init)) && OpenInv(init) && c in init
    requires Opens(c, OpenOrder(e.orderId, e.amount, e.userId))
    requires CreatedIds(init + [e]) == CreatedIds(init)
    requires OpenAfter(init + [e]) == OpenAfter(init) - multiset{OpenOrder(e.orderId, e.amount, e.userId)}
    ensures OpenInv(init + [e])
  {
    forall q | q in OpenAfter(init + [e])
      ensures OpenAfter(init + [e])[q] == 1 && OpenIn(init + [e], q)
    {
      assert q in OpenAfter(init) && q != OpenOrder(e.orderId, e.amount, e.userId);
      var d :| d in init && Opens(d, q);
      assert d in multiset(init) && c in multiset(init);
      OpenStays(init, e, q);
    }
  }

  /** With fresh order ids the generator's list is matched. */
  lemma {:induction false} PairedMatched(events: Rows)
    requires Paired(events) && Distinct(CreatedIds(events))
    ensures Matched(multiset(events)) && OpenInv(events)
  {
    if |events| > 0 {
      var init, e := events[..|events| - 1], events[|events| - 1];
      assert events == init + [e];
      if e.Created() {
        DistinctSnoc(CreatedIds(init), e.orderId);
        PairedMatched(init);
        CreateMatched(init, e);
      } else {
        assert CreatedIds(events) == CreatedIds(init);
        PairedMatched(init);
        CancelMatched(init, e);
      }
    }
  }

  lemma {:induction false} OpenWasCreated(events: Rows, o: OpenOrder)
    requires o in OpenAfter(events)
    ensures exists c :: c in events && Opens(c, o)
  {
    var init, e := events[..|events| - 1], events[|events| - 1];
    if o in OpenAfter(init) {
      OpenWasCreated(init, o);
      var c :| c in init && Opens(c, o);
      assert c in events;
    } else {
      assert e in events && Opens(e, o);
    }
  }

  /** How many rows have the type of this text. */
  function OfKind(events: Rows, kind: string): nat {
    if |events| == 0 then 0
    else OfKind(events[..|events| - 1], kind) + if events[|events| - 1].eventType == kind then 1 else 0
  }

  lemma {:induction false} OpenCount(events: Rows)
    requires Paired(events)
    ensures |OpenAfter(events)| == OfKind(events, "order_created") - OfKind(events, "order_cancelled")
  {
    if |events| > 0 {
      OpenCount(events[..|events| - 1]);
    }
  }

  lemma {:induction false} PairedPrefix(events: Rows, n: nat)
    requires Paired(events) && n <= |events|
    ensures Paired(events[..n])
  {
    if n < |events| {
      PairedPrefix(events[..|events| - 1], n);
      assert events[..|events| - 1][..n] == events[..n];
    } else {
      assert events[..n] == events;
    }
  }

  /** A generated list, field by field against its draws. */
  lemma GeneratedRows(events: Rows, draws: seq<Draw>, start: int, i: nat)
    requires |events| <= |draws| && Follows(events, draws, start) && Paired(events) && i < |events|
    ensures var e, d := events[i], draws[i];
            && e.eventTimeMs == start + i + d.jitter && e.eventId == d.eventId
            && (e.eventType == "order_created" || e.eventType == "order_cancelled")
            && (e.eventType == "order_cancelled"
                <==> d.cancel && OfKind(events[..i], "order_created") > OfKind(events[..i], "order_cancelled"))
            && (e.eventType == "order_created" ==>
                  e.orderId == d.orderId && e.userId == d.userId && e.amount * 100.0 == d.cents as real)
            && (e.eventType == "order_cancelled" ==>
                  exists j :: 0 <= j < i && events[j].eventType == "order_created" && events[j].orderId == e.orderId
                              && events[j].amount == e.amount && events[j].userId == e.userId)
  {
    var e := events[i];
    assert FollowsAt(events, draws, start, i);
    PairedPrefix(events, i);
    PairedPrefix(events, i + 1);
    assert events[..i + 1][..i] == events[..i] && events[..i + 1][i] == e;
    OpenCount(events[..i]);
    if e.Cancelled() {
      var o := OpenOrder(e.orderId, e.amount, e.userId);
      OpenWasCreated(events[..i], o);
      var c :| c in events[..i] && Opens(c, o);
      var j :| 0 <= j < i && events[..i][j] == c;
      assert events[j] == c;
    }
  }
}
