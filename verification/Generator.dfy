/**
 The event generator: bounded disorder by construction, and cancellations drawn from the
 pool of open orders (events/generator.py).

 The random generator becomes a script of draws. A draw's jitter is what randint returned
 when it lies in the window; its pick selects from the pool as randrange would.
 */
module Generator {
  import opened Rows
  import opened Schema
  import opened Wrappers

  datatype Draw = Draw(
    jitter: nat,
    cancel: bool,       // rng.random() < cancel_ratio
    pick: nat,
    orderId: string,
    cents: nat,
    userId: int,
    eventId: string)

  /** What is left of an order in the pool. */
  datatype OpenOrder = OpenOrder(orderId: string, amount: real, userId: int)

  const STEP_MS := 1

  /** Emission i falls in the window of length w that opens at start + i. */
  predicate Jittered(events: Rows, start: int, w: int) {
    forall i | 0 <= i < |events| ::
      start + i * STEP_MS <= events[i].eventTimeMs < start + i * STEP_MS + w
  }

  /** No event is more than, or exactly, w older than an earlier one. */
  predicate Disorder(events: Rows, w: int) {
    forall i, j | 0 <= i < j < |events| :: events[j].eventTimeMs > events[i].eventTimeMs - w
  }

  lemma JitterBoundsDisorder(events: Rows, start: int, w: int)
    requires Jittered(events, start, w)
    ensures Disorder(events, w)
  {
    forall i, j | 0 <= i < j < |events|
      ensures events[j].eventTimeMs > events[i].eventTimeMs - w
    {
      assert events[i].eventTimeMs < start + i * STEP_MS + w;
      assert events[j].eventTimeMs >= start + j * STEP_MS;
    }
  }

  // ------------------------------------------------------------------ pairing

  /** The open orders after a list of events: created and not yet cancelled. */
  function OpenAfter(events: Rows): multiset<OpenOrder> {
    if |events| == 0 then multiset{}
    else
      var open, e := OpenAfter(events[..|events| - 1]), events[|events| - 1];
      var order := OpenOrder(e.orderId, e.amount, e.userId);
      if e.Created() then open + multiset{order} else open - multiset{order}
  }

  /** Every event creates an order, or cancels one that is open with the same amount and user. */
  predicate Paired(events: Rows) {
    |events| > 0 ==>
      var init, e := events[..|events| - 1], events[|events| - 1];
      Paired(init) && e.amount > 0.0
      && (e.Created() || (e.Cancelled() && OpenOrder(e.orderId, e.amount, e.userId) in OpenAfter(init)))
  }

  function CreatedIds(events: Rows): seq<string> {
    if |events| == 0 then []
    else
      var e := events[|events| - 1];
      CreatedIds(events[..|events| - 1]) + (if e.Created() then [e.orderId] else [])
  }

  predicate Distinct(ids: seq<string>) { forall i, j | 0 <= i < j < |ids| :: ids[i] != ids[j] }

  predicate DistinctDraws(draws: seq<Draw>) {
    forall i, j | 0 <= i < j < |draws| :: draws[i].orderId != draws[j].orderId
  }

  function Sum(orders: seq<OpenOrder>): real {
    if |orders| == 0 then 0.0 else Sum(orders[..|orders| - 1]) + orders[|orders| - 1].amount
  }

  lemma {:induction false} SumRemove(orders: seq<OpenOrder>, i: nat)
    requires i < |orders|
    ensures Sum(orders) == Sum(orders[..i] + orders[i + 1..]) + orders[i].amount
  {
    var n := |orders| - 1;
    if i == n {
      assert orders[..i] + orders[i + 1..] == orders[..n];
    } else {
      SumRemove(orders[..n], i);
      var rest := orders[..i] + orders[i + 1..];
      assert rest[..|rest| - 1] == orders[..n][..i] + orders[..n][i + 1..];
    }
  }

  lemma {:induction false} SumNonNegative(orders: seq<OpenOrder>)
    requires forall o | o in orders :: o.amount > 0.0
    ensures Sum(orders) >= 0.0
  {
    if |orders| > 0 {
      var init := orders[..|orders| - 1];
      assert forall o | o in init :: o in orders;
      SumNonNegative(init);
      assert orders[|orders| - 1] in orders;
    }
  }

  lemma Appended(events: Rows, e: OrderEvent)
    ensures OpenAfter(events + [e]) ==
            (var order := OpenOrder(e.orderId, e.amount, e.userId);
             if e.Created() then OpenAfter(events) + multiset{order} else OpenAfter(events) - multiset{order})
    ensures CreatedIds(events + [e]) == CreatedIds(events) + (if e.Created() then [e.orderId] else [])
    ensures SignedSum(events + [e]) == SignedSum(events) + SqlDelta(e)
    ensures Paired(events + [e]) <==>
              Paired(events) && e.amount > 0.0
              && (e.Created() || (e.Cancelled() && OpenOrder(e.orderId, e.amount, e.userId) in OpenAfter(events)))
  {
    assert (events + [e])[..|events|] == events;
  }

  datatype DrawError = EmptyJitterRange | EmptyAmountRange

  /** What emission i takes from its draw: the time, the ids, and whether it cancels. */
  predicate FollowsAt(events: Rows, draws: seq<Draw>, start: int, i: nat)
    requires i < |events| <= |draws|
  {
    var e, d := events[i], draws[i];
    && e.eventTimeMs == start + i * STEP_MS + d.jitter && e.eventId == d.eventId
    && (e.Cancelled() <==> d.cancel && OpenAfter(events[..i]) != multiset{})
    && (e.Created() ==> e.orderId == d.orderId && e.amount == d.cents as real / 100.0 && e.userId == d.userId)
  }

  predicate Follows(events: Rows, draws: seq<Draw>, start: int)
    requires |events| <= |draws|
  {
    forall i: nat | i < |events| :: FollowsAt(events, draws, start, i)
  }

  lemma FollowOne(events: Rows, pool: seq<OpenOrder>, e: OrderEvent, draws: seq<Draw>, start: int)
    requires |events| < |draws| && Follows(events, draws, start) && multiset(pool) == OpenAfter(events)
    requires var d := draws[|events|];
             && e.eventTimeMs == start + |events| * STEP_MS + d.jitter && e.eventId == d.eventId
             && (e.Cancelled() <==> d.cancel && |pool| > 0)
             && (e.Created() ==> e.orderId == d.orderId && e.amount == d.cents as real / 100.0 && e.userId == d.userId)
    ensures Follows(events + [e], draws, start)
  {
    var more := events + [e];
    NonEmptyPool(pool);
    forall i: nat | i < |more|
      ensures FollowsAt(more, draws, start, i)
    {
      assert more[..i] == events[..i];
      assert i < |events| ==> FollowsAt(events, draws, start, i);
      assert i == |events| ==> events[..i] == events;
    }
  }

  lemma NonEmptyPool(pool: seq<OpenOrder>)
    ensures |pool| > 0 <==> multiset(pool) != multiset{}
  {
    assert |multiset(pool)| == |pool|;
  }

  /** What the loop keeps: the pool is exactly the open orders, and GMV is what they are worth. */
  ghost predicate PoolInv(events: Rows, pool: seq<OpenOrder>) {
    && multiset(pool) == OpenAfter(events) && SignedSum(events) == Sum(pool)
    && Paired(events) && (forall o | o in pool :: o.amount > 0.0 && WholeCents(o.amount))
  }

  lemma CreateKeeps(events: Rows, pool: seq<OpenOrder>, e: OrderEvent)
    requires PoolInv(events, pool) && e.Created() && e.amount > 0.0 && WholeCents(e.amount)
    ensures PoolInv(events + [e], pool + [OpenOrder(e.orderId, e.amount, e.userId)])
  {
    Appended(events, e);
    var order := OpenOrder(e.orderId, e.amount, e.userId);
    assert (pool + [order])[..|pool|] == pool;
  }

  lemma RemoveAt(pool: seq<OpenOrder>, i: nat)
    requires i < |pool|
    ensures multiset(pool[..i] + pool[i + 1..]) == multiset(pool) - multiset{pool[i]}
    ensures pool[i] in multiset(pool)
    ensures forall o | o in pool[..i] + pool[i + 1..] :: o in pool
  {
    assert pool == pool[..i] + [pool[i]] + pool[i + 1..];
  }

  lemma CancelKeeps(events: Rows, pool: seq<OpenOrder>, i: nat, e: OrderEvent)
    requires PoolInv(events, pool) && i < |pool| && e.Cancelled() && !e.Created()
    requires pool[i] == OpenOrder(e.orderId, e.amount, e.userId)
    ensures PoolInv(events + [e], pool[..i] + pool[i + 1..])
  {
    Appended(events, e);
    SumRemove(pool, i);
    RemoveAt(pool, i);
  }

  lemma CentsAreWhole(c: nat)
    ensures WholeCents(c as real / 100.0)
  {
    assert c as real / 100.0 * 100.0 == c as real;
  }

  /** Every emission so far is in its window, of a known type and in whole cents. */
  ghost predicate Emitted(events: Rows, start: int, w: int) {
    Jittered(events, start, w) && forall e | e in events :: e.Known() && WholeCents(e.amount)
  }

  lemma EmitOne(events: Rows, e: OrderEvent, start: int, w: int, jitter: nat)
    requires Emitted(events, start, w) && e.Known() && WholeCents(e.amount)
    requires jitter < w && e.eventTimeMs == start + |events| * STEP_MS + jitter
    ensures Emitted(events + [e], start, w)
  {
  }

  lemma FollowsPrefix(events: Rows, draws: seq<Draw>, start: int)
    requires 0 < |events| <= |draws| && Follows(events, draws, start)
    ensures Follows(events[..|events| - 1], draws, start)
  {
    var init := events[..|events| - 1];
    forall i: nat | i < |init|
      ensures FollowsAt(init, draws, start, i)
    {
      assert init[..i] == events[..i] && FollowsAt(events, draws, start, i);
    }
  }

  ghost predicate Drawn(id: string, draws: seq<Draw>, n: nat)
    requires n <= |draws|
  {
    exists i :: 0 <= i < n && draws[i].orderId == id
  }

  /** New orders take their ids from distinct draws. */
  lemma {:induction false} CreatedFromDraws(events: Rows, draws: seq<Draw>, start: int)
    requires |events| <= |draws| && Follows(events, draws, start) && DistinctDraws(draws)
    ensures Distinct(CreatedIds(events))
    ensures forall k | 0 <= k < |CreatedIds(events)| :: Drawn(CreatedIds(events)[k], draws, |events|)
  {
    if |events| > 0 {
      var n := |events| - 1;
      FollowsPrefix(events, draws, start);
      CreatedFromDraws(events[..n], draws, start);
      assert FollowsAt(events, draws, start, n);
      MoreDrawn(CreatedIds(events[..n]), draws, n);
      assert events[n].Created() ==> draws[n].orderId == events[n].orderId;
    }
  }

  lemma MoreDrawn(ids: seq<string>, draws: seq<Draw>, n: nat)
    requires n < |draws| && DistinctDraws(draws) && forall k | 0 <= k < |ids| :: Drawn(ids[k], draws, n)
    ensures forall k | 0 <= k < |ids| :: Drawn(ids[k], draws, n + 1) && ids[k] != draws[n].orderId
  {
    forall k | 0 <= k < |ids|
      ensures Drawn(ids[k], draws, n + 1) && ids[k] != draws[n].orderId
    {
      var i :| 0 <= i < n && draws[i].orderId == ids[k];
    }
  }

  /** All the loop keeps. */
  ghost predicate BuildInv(events: Rows, pool: seq<OpenOrder>, draws: seq<Draw>, start: int, w: int) {
    && |events| <= |draws|
    && Emitted(events, start, w) && PoolInv(events, pool)
    && Follows(events, draws, start)
  }

  lemma CancelStep(events: Rows, pool: seq<OpenOrder>, draws: seq<Draw>, start: int, w: int,
                   idx: nat, e: OrderEvent)
    requires BuildInv(events, pool, draws, start, w) && |events| < |draws| && idx < |pool|
    requires var d := draws[|events|];
             d.jitter < w && d.cancel
             && e == OrderEvent(d.eventId, pool[idx].orderId, ORDER_CANCELLED, pool[idx].amount, pool[idx].userId,
                                start + |events| * STEP_MS + d.jitter)
    ensures BuildInv(events + [e], pool[..idx] + pool[idx + 1..], draws, start, w)
  {
    assert pool[idx] in pool;
    CancelKeeps(events, pool, idx, e);
    FollowOne(events, pool, e, draws, start);
    EmitOne(events, e, start, w, draws[|events|].jitter);
  }

  lemma CreateStep(events: Rows, pool: seq<OpenOrder>, draws: seq<Draw>, start: int, w: int,
                   e: OrderEvent)
    requires BuildInv(events, pool, draws, start, w) && |events| < |draws|
    requires var d := draws[|events|];
             d.jitter < w && d.cents >= 1 && !(|pool| > 0 && d.cancel)
             && e == OrderEvent(d.eventId, d.orderId, ORDER_CREATED, d.cents as real / 100.0, d.userId,
                                start + |events| * STEP_MS + d.jitter)
    ensures BuildInv(events + [e], pool + [OpenOrder(e.orderId, e.amount, e.userId)], draws, start, w)
  {
    CentsAreWhole(draws[|events|].cents);
    CreateKeeps(events, pool, e);
    FollowOne(events, pool, e, draws, start);
    EmitOne(events, e, start, w, draws[|events|].jitter);
  }

  /** rng.randrange(n), steered by the draw. */
  method RandRange(pick: nat, n: nat) returns (i: nat)
    requires n > 0
    ensures i < n
  {
    i := pick % n;
  }

  /** One pass of the loop body, once the ranges it draws from are known not to be empty. */
  method Emit(events: Rows, pool: seq<OpenOrder>, draws: seq<Draw>,
              startMs: int, w: int, maxAmount: int)
    returns (e: OrderEvent, rest: seq<OpenOrder>)
    requires BuildInv(events, pool, draws, startMs, w) && |events| < |draws|
    requires draws[|events|].jitter < w && 1 <= draws[|events|].cents <= maxAmount * 100
    ensures BuildInv(events + [e], rest, draws, startMs, w)
  {
    var d := draws[|events|];
    var time := startMs + |events| * STEP_MS + d.jitter;
    if |pool| > 0 && d.cancel {
      var idx := RandRange(d.pick, |pool|);
      var order := pool[idx];
      e := OrderEvent(d.eventId, order.orderId, ORDER_CANCELLED, order.amount, order.userId, time);
      CancelStep(events, pool, draws, startMs, w, idx, e);
      rest := pool[..idx] + pool[idx + 1..];
    } else {
      e := OrderEvent(d.eventId, d.orderId, ORDER_CREATED, d.cents as real / 100.0, d.userId, time);
      CreateStep(events, pool, draws, startMs, w, e);
      rest := pool + [OpenOrder(e.orderId, e.amount, e.userId)];
    }
  }

  lemma Built(events: Rows, pool: seq<OpenOrder>, draws: seq<Draw>, start: int, w: int)
    requires BuildInv(events, pool, draws, start, w)
    ensures Follows(events, draws, start) && Jittered(events, start, w) && Paired(events) && SignedSum(events) >= 0.0
    ensures forall e | e in events :: e.Known() && WholeCents(e.amount)
    ensures DistinctDraws(draws) ==> Distinct(CreatedIds(events))
  {
    SumNonNegative(pool);
    if DistinctDraws(draws) {
      CreatedFromDraws(events, draws, start);
    }
  }

  /**
   Builds exactly n events. randint raises on an empty range, so with n > 0 a lateness
   window below 1 is an error, and so is a maximum amount below 1.
   */
  method BuildEvents(n: int, w: int, startMs: int, maxAmount: int, draws: seq<Draw>)
    returns (r: Result<Rows, DrawError>)
    requires |draws| >= n
    requires forall d | d in draws :: w >= 1 ==> d.jitter < w
    requires forall d | d in draws :: maxAmount >= 1 ==> 1 <= d.cents <= maxAmount * 100
    ensures r.Err? <==> n > 0 && (w < 1 || maxAmount < 1)
    ensures r.Ok? ==>
              && |r.value| == (if n < 0 then 0 else n) && Follows(r.value, draws, startMs)
              && Jittered(r.value, startMs, w) && Paired(r.value) && SignedSum(r.value) >= 0.0
              && (forall e | e in r.value :: e.Known() && WholeCents(e.amount))
    ensures r.Ok? && DistinctDraws(draws) ==> Distinct(CreatedIds(r.value))
  {
    var events: Rows := [];
    var pool: seq<OpenOrder> := [];
    while |events| < n
      invariant |events| <= n || |events| == 0
      invariant |events| > 0 ==> w >= 1 && maxAmount >= 1
      invariant BuildInv(events, pool, draws, startMs, w)
      decreases n - |events|
    {
      if w < 1 { return Err(EmptyJitterRange); }
      var d := draws[|events|];
      assert d in draws;
      if !(|pool| > 0 && d.cancel) && maxAmount < 1 { return Err(EmptyAmountRange); }
      EmptyAtFirst(events, pool);
      var e, rest := Emit(events, pool, draws, startMs, w, maxAmount);
      events, pool := events + [e], rest;
    }
    Built(events, pool, draws, startMs, w);
    return Ok(events);
  }

  lemma EmptyAtFirst(events: Rows, pool: seq<OpenOrder>)
    requires PoolInv(events, pool)
    ensures |events| == 0 ==> |pool| == 0
  {
    NonEmptyPool(pool);
  }
}
