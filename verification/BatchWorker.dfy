/**
 The gateway's background batcher: a bounded queue, a pending batch regrouped by topic,
 and cancellation at any await (gateway/async_kafka_producer.py).

 Producers and the worker interleave at awaits, so the worker is a state machine whose
 steps are the stretches between them; the task class runs whole loop iterations of it.
 */
module BatchWorker {
  datatype Item = Item(topic: string, event: string)

  /** One call to send_batch, or one entry of topic_batches. */
  datatype TopicBatch = TopicBatch(topic: string, events: seq<string>)

  datatype Phase =
    | Waiting
    | Sending(groups: seq<TopicBatch>, now: int)   // groups not yet handed over
    | Stopped

  datatype Worker = Worker(
    queue: seq<Item>,
    batch: seq<Item>,
    lastSend: int,
    phase: Phase,
    handed: seq<TopicBatch>,   // calls to send_batch, in order
    accepted: seq<Item>)       // items put has returned for, in order

  datatype Config = Config(batchSize: int, lingerMs: int)

  const QUEUE_LIMIT := 10000

  datatype Action =
    | Put(item: Item)                     // while the queue is full the producer stays suspended
    | Take(timedOut: bool, now: int)      // wait_for returns or times out, then the send decision
    | SendNext                            // one send_batch, or the clearing after the last
    | Cancel

  // ------------------------------------------------------------- the machine

  /** topic_batches[topic].append(event), creating the entry at the end if it is missing */
  function AddTo(groups: seq<TopicBatch>, item: Item): seq<TopicBatch> {
    if |groups| == 0 then [TopicBatch(item.topic, [item.event])]
    else if groups[0].topic == item.topic then [groups[0].(events := groups[0].events + [item.event])] + groups[1..]
    else [groups[0]] + AddTo(groups[1..], item)
  }

  function Group(batch: seq<Item>): seq<TopicBatch> {
    if |batch| == 0 then [] else AddTo(Group(batch[..|batch| - 1]), batch[|batch| - 1])
  }

  predicate ShouldSend(c: Config, w: Worker, batch: seq<Item>, now: int) {
    (|batch| >= c.batchSize || (|batch| > 0 && now - w.lastSend > c.lingerMs)) && |batch| > 0
  }

  function Next(c: Config, w: Worker, a: Action): Worker {
    match a
    case Put(item) =>
      if |w.queue| < QUEUE_LIMIT then w.(queue := w.queue + [item], accepted := w.accepted + [item]) else w
    case Take(timedOut, now) =>
      if w.phase == Waiting && (timedOut || |w.queue| > 0) then
        var batch := if timedOut then w.batch else w.batch + [w.queue[0]];
        var queue := if timedOut then w.queue else w.queue[1..];
        w.(batch := batch, queue := queue,
           phase := if ShouldSend(c, w, batch, now) then Sending(Group(batch), now) else Waiting)
      else w
    case SendNext =>
      if w.phase.Sending? then
        if |w.phase.groups| > 0 then
          w.(handed := w.handed + [w.phase.groups[0]], phase := Sending(w.phase.groups[1..], w.phase.now))
        else w.(batch := [], lastSend := w.phase.now, phase := Waiting)
      else w
    case Cancel => w.(phase := Stopped)
  }

  function Initial(now: int): Worker { Worker([], [], now, Waiting, [], []) }

  function RunFrom(c: Config, w: Worker, actions: seq<Action>): Worker {
    if |actions| == 0 then w
    else Next(c, RunFrom(c, w, actions[..|actions| - 1]), actions[|actions| - 1])
  }

  // ------------------------------------------------------- per-topic contents

  function ForTopic(items: seq<Item>, t: string): seq<string> {
    if |items| == 0 then []
    else
      ForTopic(items[..|items| - 1], t)
      + (if items[|items| - 1].topic == t then [items[|items| - 1].event] else [])
  }

  function OfGroups(groups: seq<TopicBatch>, t: string): seq<string> {
    if |groups| == 0 then []
    else (if groups[0].topic == t then groups[0].events else []) + OfGroups(groups[1..], t)
  }

  predicate DistinctTopics(groups: seq<TopicBatch>) {
    forall i, j | 0 <= i < j < |groups| :: groups[i].topic != groups[j].topic
  }

  predicate NonEmptyGroups(groups: seq<TopicBatch>) { forall i | 0 <= i < |groups| :: |groups[i].events| > 0 }

  lemma {:induction false} ForTopicConcat(a: seq<Item>, b: seq<Item>, t: string)
    ensures ForTopic(a + b, t) == ForTopic(a, t) + ForTopic(b, t)
  {
    if |b| == 0 {
      assert a + b == a;
    } else {
      ForTopicConcat(a, b[..|b| - 1], t);
      assert (a + b)[..|a + b| - 1] == a + b[..|b| - 1];
    }
  }

  lemma ForTopicOne(item: Item, t: string)
    ensures ForTopic([item], t) == if item.topic == t then [item.event] else []
  {
    assert [item][..0] == [];
  }

  lemma Assoc(a: seq<string>, b: seq<string>, c: seq<string>)
    ensures a + b + c == a + (b + c)
  {
  }

  lemma {:induction false} OfGroupsConcat(a: seq<TopicBatch>, b: seq<TopicBatch>, t: string)
    ensures OfGroups(a + b, t) == OfGroups(a, t) + OfGroups(b, t)
  {
    if |a| == 0 {
      assert a + b == b;
    } else {
      OfGroupsConcat(a[1..], b, t);
      assert (a + b)[1..] == a[1..] + b;
      Assoc(if a[0].topic == t then a[0].events else [], OfGroups(a[1..], t), OfGroups(b, t));
    }
  }

  lemma OfOneGroup(g: TopicBatch, t: string)
    ensures OfGroups([g], t) == if g.topic == t then g.events else []
  {
    assert [g][1..] == [];
  }

  /** Handing over the first group moves its events from the groups to what is handed. */
  lemma OfGroupsMove(handed: seq<TopicBatch>, groups: seq<TopicBatch>, t: string)
    requires |groups| > 0
    ensures OfGroups(handed + [groups[0]], t) + OfGroups(groups[1..], t) == OfGroups(handed, t) + OfGroups(groups, t)
  {
    OfGroupsConcat(handed, [groups[0]], t);
    OfOneGroup(groups[0], t);
    Assoc(OfGroups(handed, t), OfGroups([groups[0]], t), OfGroups(groups[1..], t));
  }

  lemma {:induction false} NoSuchTopic(groups: seq<TopicBatch>, t: string)
    requires forall i | 0 <= i < |groups| :: groups[i].topic != t
    ensures OfGroups(groups, t) == []
  {
    if |groups| > 0 {
      NoSuchTopic(groups[1..], t);
    }
  }

  lemma Cons(g: TopicBatch, rest: seq<TopicBatch>, t: string)
    ensures OfGroups([g] + rest, t) == (if g.topic == t then g.events else []) + OfGroups(rest, t)
  {
    assert ([g] + rest)[1..] == rest;
  }

  /** Adding an item appends it to its topic and disturbs no other. */
  lemma {:induction false} AddToExact(groups: seq<TopicBatch>, item: Item, t: string)
    requires DistinctTopics(groups)
    ensures OfGroups(AddTo(groups, item), t) == OfGroups(groups, t) + ForTopic([item], t)
  {
    ForTopicOne(item, t);
    if |groups| == 0 {
      OfOneGroup(TopicBatch(item.topic, [item.event]), t);
    } else if groups[0].topic == item.topic {
      Cons(groups[0].(events := groups[0].events + [item.event]), groups[1..], t);
      if t == item.topic {
        NoSuchTopic(groups[1..], t);
      }
    } else {
      AddToExact(groups[1..], item, t);
      Cons(groups[0], AddTo(groups[1..], item), t);
      Assoc(if groups[0].topic == t then groups[0].events else [], OfGroups(groups[1..], t), ForTopic([item], t));
    }
  }

  /** The topics so far keep their places; a new one comes last. */
  lemma {:induction false} AddToTopics(groups: seq<TopicBatch>, item: Item)
    requires NonEmptyGroups(groups)
    ensures var more := AddTo(groups, item);
            && NonEmptyGroups(more) && |groups| <= |more| <= |groups| + 1
            && (forall i | 0 <= i < |groups| :: more[i].topic == groups[i].topic)
            && (|more| > |groups| <==> forall i | 0 <= i < |groups| :: groups[i].topic != item.topic)
            && (|more| > |groups| ==> more[|groups|] == TopicBatch(item.topic, [item.event]))
  {
    if |groups| > 0 && groups[0].topic != item.topic {
      var rest := groups[1..];
      AddToTopics(rest, item);
      assert forall i | 0 < i < |groups| :: groups[i] == rest[i - 1];
    }
  }

  lemma StillDistinct(groups: seq<TopicBatch>, item: Item)
    requires DistinctTopics(groups) && NonEmptyGroups(groups)
    ensures DistinctTopics(AddTo(groups, item)) && NonEmptyGroups(AddTo(groups, item))
  {
    AddToTopics(groups, item);
  }

  lemma {:induction false} GroupTopics(batch: seq<Item>)
    ensures DistinctTopics(Group(batch)) && NonEmptyGroups(Group(batch))
  {
    if |batch| > 0 {
      GroupTopics(batch[..|batch| - 1]);
      StillDistinct(Group(batch[..|batch| - 1]), batch[|batch| - 1]);
    }
  }

  /** The groups hold exactly the batch, topic by topic and in order. */
  lemma {:induction false} GroupExact(batch: seq<Item>, t: string)
    ensures OfGroups(Group(batch), t) == ForTopic(batch, t)
  {
    if |batch| > 0 {
      var init, last := batch[..|batch| - 1], batch[|batch| - 1];
      GroupExact(init, t);
      GroupTopics(init);
      AddToExact(Group(init), last, t);
      ForTopicOne(last, t);
    }
  }

  // ------------------------------------------------------ FIFO, conservation

  /** What the worker holds of a topic between the queue and send_batch. */
  function Pending(w: Worker, t: string): seq<string> {
    if w.phase.Sending? then OfGroups(w.phase.groups, t) else ForTopic(w.batch, t)
  }

  /** Until cancelled: handed over, then pending, then queued, is what was accepted, in order. */
  ghost predicate Conserved(w: Worker, t: string) {
    OfGroups(w.handed, t) + Pending(w, t) + ForTopic(w.queue, t) == ForTopic(w.accepted, t)
  }

  /** Always: what was handed over is a prefix of what was accepted, so nothing is reordered or repeated. */
  ghost predicate HandedInOrder(w: Worker, t: string) { OfGroups(w.handed, t) <= ForTopic(w.accepted, t) }

  function Cap(c: Config): int { if c.batchSize > 1 then c.batchSize else 1 }

  /** The sizes the worker keeps: a bounded queue, and a batch below the limit whenever it waits. */
  predicate Bounded(c: Config, w: Worker) {
    && |w.queue| <= QUEUE_LIMIT
    && (w.phase == Waiting ==> |w.batch| < Cap(c))
    && (w.phase.Sending? ==> |w.batch| <= Cap(c))
  }

  lemma PutConserves(c: Config, w: Worker, item: Item, t: string)
    requires Conserved(w, t)
    ensures Conserved(Next(c, w, Put(item)), t)
  {
    ForTopicConcat(w.queue, [item], t);
    ForTopicConcat(w.accepted, [item], t);
    Assoc(OfGroups(w.handed, t) + Pending(w, t), ForTopic(w.queue, t), ForTopic([item], t));
  }

  lemma TakeConserves(c: Config, w: Worker, timedOut: bool, now: int, t: string)
    requires Conserved(w, t)
    ensures Conserved(Next(c, w, Take(timedOut, now)), t)
  {
    var w' := Next(c, w, Take(timedOut, now));
    if w.phase == Waiting {
      GroupExact(w'.batch, t);
      if !timedOut && |w.queue| > 0 {
        var head := [w.queue[0]];
        ForTopicConcat(w.batch, head, t);
        assert w.queue == head + w.queue[1..];
        ForTopicConcat(head, w.queue[1..], t);
        Assoc(ForTopic(w.batch, t), ForTopic(head, t), ForTopic(w.queue[1..], t));
        Assoc(OfGroups(w.handed, t), ForTopic(w.batch, t), ForTopic(w.queue, t));
        Assoc(OfGroups(w.handed, t), ForTopic(w'.batch, t), ForTopic(w.queue[1..], t));
      }
    }
  }

  lemma SendConserves(c: Config, w: Worker, t: string)
    requires Conserved(w, t)
    ensures Conserved(Next(c, w, SendNext), t)
  {
    if w.phase.Sending? && |w.phase.groups| > 0 {
      OfGroupsMove(w.handed, w.phase.groups, t);
    }
  }

  lemma ConservedInOrder(w: Worker, t: string)
    requires Conserved(w, t)
    ensures HandedInOrder(w, t)
  {
    Assoc(OfGroups(w.handed, t), Pending(w, t), ForTopic(w.queue, t));
  }

  lemma StoppedStays(c: Config, w: Worker, a: Action, t: string)
    requires w.phase.Stopped? && HandedInOrder(w, t)
    ensures Next(c, w, a).phase.Stopped? && Next(c, w, a).handed == w.handed && HandedInOrder(Next(c, w, a), t)
  {
    if a.Put? {
      ForTopicConcat(w.accepted, [a.item], t);
    }
  }

  lemma NextConserves(c: Config, w: Worker, a: Action, t: string)
    requires HandedInOrder(w, t) && (!w.phase.Stopped? ==> Conserved(w, t))
    ensures var w' := Next(c, w, a);
            HandedInOrder(w', t) && (!w'.phase.Stopped? ==> Conserved(w', t))
  {
    if w.phase.Stopped? {
      StoppedStays(c, w, a, t);
    } else {
      match a
      case Put(item) => PutConserves(c, w, item, t); ConservedInOrder(Next(c, w, a), t);
      case Take(timedOut, now) => TakeConserves(c, w, timedOut, now, t); ConservedInOrder(Next(c, w, a), t);
      case SendNext => SendConserves(c, w, t); ConservedInOrder(Next(c, w, a), t);
      case Cancel =>
    }
  }

  /**
   In every run, whatever the producers, the clock and the batch size do and wherever the
   cancellation falls, even between two topics of one flush.
   */
  lemma {:induction false} FifoByTopic(c: Config, now: int, actions: seq<Action>, t: string)
    ensures var w := RunFrom(c, Initial(now), actions);
            && HandedInOrder(w, t)
            && (!w.phase.Stopped? ==> Conserved(w, t))
  {
    if |actions| > 0 {
      var init := actions[..|actions| - 1];
      FifoByTopic(c, now, init, t);
      NextConserves(c, RunFrom(c, Initial(now), init), actions[|actions| - 1], t);
    }
  }

  lemma {:induction false} SizesBounded(c: Config, now: int, actions: seq<Action>)
    ensures Bounded(c, RunFrom(c, Initial(now), actions))
  {
    if |actions| > 0 {
      SizesBounded(c, now, actions[..|actions| - 1]);
    }
  }

  // ------------------------------------------------- what each action is there for

  /** Groups that hold exactly the taken items: each topic once, its events in order. */
  ghost predicate HandsOver(groups: seq<TopicBatch>, taken: seq<Item>) {
    && DistinctTopics(groups) && NonEmptyGroups(groups)
    && forall t :: OfGroups(groups, t) == ForTopic(taken, t)
  }

  lemma GroupsHandOver(taken: seq<Item>)
    ensures HandsOver(Group(taken), taken)
  {
    GroupTopics(taken);
    forall t: string
      ensures OfGroups(Group(taken), t) == ForTopic(taken, t)
    {
      GroupExact(taken, t);
    }
  }

  /**
   A wait that ends moves the queue's head into the batch, or nothing on a timeout; all of
   the batch is then due exactly when it is full or has lingered.
   */
  lemma TakeExactly(c: Config, w: Worker, timedOut: bool, now: int)
    requires w.phase == Waiting && (timedOut || |w.queue| > 0)
    ensures var taken := if timedOut then w.batch else w.batch + [w.queue[0]];
            var w' := Next(c, w, Take(timedOut, now));
            && w'.queue == (if timedOut then w.queue else w.queue[1..]) && w'.batch == taken
            && w'.handed == w.handed && w'.accepted == w.accepted && w'.lastSend == w.lastSend
            && (if |taken| > 0 && (|taken| >= c.batchSize || now - w.lastSend > c.lingerMs)
                then w'.phase.Sending? && w'.phase.now == now && HandsOver(w'.phase.groups, taken)
                else w'.phase == Waiting)
  {
    GroupsHandOver(if timedOut then w.batch else w.batch + [w.queue[0]]);
  }

  /** A flush hands over its groups from the first on, and then clears the batch. */
  lemma SendExactly(c: Config, w: Worker)
    requires w.phase.Sending?
    ensures var w' := Next(c, w, SendNext);
            && w'.queue == w.queue && w'.accepted == w.accepted
            && (if |w.phase.groups| > 0
                then w'.handed == w.handed + [w.phase.groups[0]] && w'.batch == w.batch && w'.lastSend == w.lastSend
                     && w'.phase == Sending(w.phase.groups[1..], w.phase.now)
                else w'.handed == w.handed && w'.batch == [] && w'.lastSend == w.phase.now && w'.phase == Waiting)
  {
  }

  /** Once cancelled, nothing is handed over, whatever follows. */
  lemma {:induction false} CancelStops(c: Config, w: Worker, actions: seq<Action>)
    ensures var w' := RunFrom(c, Next(c, w, Cancel), actions);
            w'.handed == w.handed && w'.phase.Stopped?
  {
    if |actions| > 0 {
      CancelStops(c, w, actions[..|actions| - 1]);
    }
  }

  /** The events producers put for a topic while the queue had room, read off the actions. */
  function PutFor(c: Config, now: int, actions: seq<Action>, t: string): seq<string> {
    if |actions| == 0 then []
    else
      var init, a := actions[..|actions| - 1], actions[|actions| - 1];
      PutFor(c, now, init, t)
      + (if a.Put? && a.item.topic == t && |RunFrom(c, Initial(now), init).queue| < 10_000 then [a.item.event] else [])
  }

  /** What was accepted for a topic is exactly what producers put for it while there was room, in order. */
  lemma {:induction false} AcceptedIsPut(c: Config, now: int, actions: seq<Action>, t: string)
    ensures ForTopic(RunFrom(c, Initial(now), actions).accepted, t) == PutFor(c, now, actions, t)
  {
    if |actions| > 0 {
      var init, a := actions[..|actions| - 1], actions[|actions| - 1];
      AcceptedIsPut(c, now, init, t);
      if a.Put? {
        ForTopicConcat(RunFrom(c, Initial(now), init).accepted, [a.item], t);
        ForTopicOne(a.item, t);
      }
    }
  }

  /** What producers put for a topic is what send_batch is given for it, in order, and then what is still held. */
  lemma PutsArriveInOrder(c: Config, now: int, actions: seq<Action>, t: string)
    ensures var w := RunFrom(c, Initial(now), actions);
            && OfGroups(w.handed, t) <= PutFor(c, now, actions, t)
            && (!w.phase.Stopped? ==>
                  OfGroups(w.handed, t) + Pending(w, t) + ForTopic(w.queue, t) == PutFor(c, now, actions, t))
  {
    FifoByTopic(c, now, actions, t);
    AcceptedIsPut(c, now, actions, t);
  }

  // ------------------------------------------------------------ the task itself

  /** The steps of one flush of n groups. */
  function Flush(n: nat): seq<Action> { if n == 0 then [] else Flush(n - 1) + [SendNext] }

  lemma RunSnoc(c: Config, w: Worker, actions: seq<Action>, a: Action)
    ensures RunFrom(c, w, actions + [a]) == Next(c, RunFrom(c, w, actions), a)
  {
    assert (actions + [a])[..|actions|] == actions;
  }

  lemma SendOne(c: Config, w: Worker, handed: seq<TopicBatch>, groups: seq<TopicBatch>, n: nat, now: int)
    requires 0 < n <= |groups|
    ensures Next(c, w.(handed := handed + groups[..n - 1], phase := Sending(groups[n - 1..], now)), SendNext)
         == w.(handed := handed + groups[..n], phase := Sending(groups[n..], now))
  {
    var rest := groups[n - 1..];
    assert rest[0] == groups[n - 1] && rest[1..] == groups[n..];
    assert handed + groups[..n] == handed + groups[..n - 1] + [rest[0]];
  }

  /** A due flush hands over the groups one by one. */
  lemma {:induction false} FlushHandsOver(c: Config, w: Worker, n: nat)
    requires w.phase.Sending? && n <= |w.phase.groups|
    ensures RunFrom(c, w, Flush(n))
         == w.(handed := w.handed + w.phase.groups[..n], phase := Sending(w.phase.groups[n..], w.phase.now))
  {
    if n == 0 {
      assert w.phase.groups[0..] == w.phase.groups && w.handed + w.phase.groups[..0] == w.handed;
    } else {
      FlushHandsOver(c, w, n - 1);
      RunSnoc(c, w, Flush(n - 1), SendNext);
      SendOne(c, w, w.handed, w.phase.groups, n, w.phase.now);
    }
  }

  lemma ConsUpdate(g: TopicBatch, rest: seq<TopicBatch>, i: nat, x: TopicBatch)
    requires i < |rest|
    ensures [g] + rest[i := x] == ([g] + rest)[i + 1 := x]
  {
  }

  /** AddTo as a lookup: append at the topic's entry, or a new entry at the end. */
  lemma {:induction false} AddToAt(groups: seq<TopicBatch>, item: Item, k: nat)
    requires k <= |groups| && forall i | 0 <= i < k :: groups[i].topic != item.topic
    requires k < |groups| ==> groups[k].topic == item.topic
    ensures k == |groups| ==> AddTo(groups, item) == groups + [TopicBatch(item.topic, [item.event])]
    ensures k < |groups| ==>
              AddTo(groups, item) == groups[k := groups[k].(events := groups[k].events + [item.event])]
  {
    if k > 0 {
      var g, rest := groups[0], groups[1..];
      assert groups == [g] + rest;
      assert forall i | 0 <= i < |rest| :: rest[i] == groups[i + 1];
      AddToAt(rest, item, k - 1);
      if k < |groups| {
        ConsUpdate(g, rest, k - 1, groups[k].(events := groups[k].events + [item.event]));
      }
    } else if |groups| > 0 {
      assert groups[0 := groups[0].(events := groups[0].events + [item.event])]
          == [groups[0].(events := groups[0].events + [item.event])] + groups[1..];
    }
  }

  /** The dictionary update of the grouping loop. */
  method AppendTo(groups: seq<TopicBatch>, item: Item) returns (more: seq<TopicBatch>)
    ensures more == AddTo(groups, item)
  {
    var k := 0;
    while k < |groups| && groups[k].topic != item.topic
      invariant k <= |groups| && forall i | 0 <= i < k :: groups[i].topic != item.topic
    {
      k := k + 1;
    }
    AddToAt(groups, item, k);
    if k == |groups| {
      more := groups + [TopicBatch(item.topic, [item.event])];
    } else {
      more := groups[k := groups[k].(events := groups[k].events + [item.event])];
    }
  }

  class BatchWorkerTask {
    const config: Config
    var queue: seq<Item>
    var batch: seq<Item>
    var lastSend: int
    var handed: seq<TopicBatch>
    ghost var accepted: seq<Item>

    /** The machine between two iterations. */
    ghost function State(): Worker
      reads this
    {
      Worker(queue, batch, lastSend, Waiting, handed, accepted)
    }

    constructor (c: Config, now: int)
      ensures config == c && State() == Initial(now)
    {
      config := c;
      queue, batch, lastSend, handed, accepted := [], [], now, [], [];
    }

    /** put returns only when there is room; otherwise the producer is still waiting. */
    method SendAsyncBatch(topic: string, event: string) returns (done: bool)
      modifies this`queue, this`accepted
      ensures done <==> |old(queue)| < 10_000
      ensures queue == old(queue) + (if done then [Item(topic, event)] else [])
      ensures accepted == old(accepted) + (if done then [Item(topic, event)] else [])
      ensures State() == Next(config, old(State()), Put(Item(topic, event)))
    {
      done := |queue| < QUEUE_LIMIT;
      if done {
        queue, accepted := queue + [Item(topic, event)], accepted + [Item(topic, event)];
      }
    }

    /** Group by topic: one pass, entries in the order their topics first appear. */
    method GroupByTopic() returns (groups: seq<TopicBatch>)
      ensures groups == Group(batch)
    {
      groups := [];
      for i := 0 to |batch|
        invariant groups == Group(batch[..i])
      {
        assert batch[..i + 1][..i] == batch[..i];
        groups := AppendTo(groups, batch[i]);
      }
      assert batch[..|batch|] == batch;
    }

    /** Regroup the batch, hand over every group, clear. */
    method SendBatches(now: int)
      modifies this`batch, this`lastSend, this`handed
      ensures handed == old(handed) + Group(old(batch)) && batch == [] && lastSend == now
    {
      var groups := GroupByTopic();
      ghost var before := handed;
      for i := 0 to |groups|
        invariant handed == before + groups[..i]
        invariant batch == old(batch)
      {
        handed := handed + [groups[i]];
      }
      assert groups[..|groups|] == groups;
      batch, lastSend := [], now;
    }

    /** One iteration: wait, decide, and send if it is time. */
    method Iterate(timedOut: bool, now: int)
      requires timedOut || |queue| > 0
      modifies this`queue, this`batch, this`lastSend, this`handed
      ensures queue == if timedOut then old(queue) else old(queue)[1..]
      ensures var taken := if timedOut then old(batch) else old(batch) + [old(queue)[0]];
              if |taken| > 0 && (|taken| >= config.batchSize || now - old(lastSend) > config.lingerMs)
              then batch == [] && lastSend == now && old(handed) <= handed
                   && HandsOver(handed[|old(handed)|..], taken)
              else batch == taken && lastSend == old(lastSend) && handed == old(handed)
      ensures State() == Iterated(config, old(State()), timedOut, now)
    {
      ghost var start := State();
      if !timedOut {
        batch, queue := batch + [queue[0]], queue[1..];
      }
      GroupsHandOver(batch);
      IteratedIs(config, start, timedOut, now);
      var shouldSend := |batch| >= config.batchSize || (|batch| > 0 && now - lastSend > config.lingerMs);
      if shouldSend && |batch| > 0 {
        SendBatches(now);
      }
    }
  }

  /** The machine through one iteration: one take and, if due, one whole flush. */
  function Iterated(c: Config, w: Worker, timedOut: bool, now: int): Worker {
    var taken := Next(c, w, Take(timedOut, now));
    if taken.phase.Sending? then RunFrom(c, taken, Flush(|taken.phase.groups|) + [SendNext]) else taken
  }

  lemma IteratedIs(c: Config, w: Worker, timedOut: bool, now: int)
    requires w.phase == Waiting && (timedOut || |w.queue| > 0)
    ensures var batch := if timedOut then w.batch else w.batch + [w.queue[0]];
            var queue := if timedOut then w.queue else w.queue[1..];
            Iterated(c, w, timedOut, now)
            == if ShouldSend(c, w, batch, now)
               then Worker(queue, [], now, Waiting, w.handed + Group(batch), w.accepted)
               else w.(queue := queue, batch := batch)
  {
    var taken := Next(c, w, Take(timedOut, now));
    if taken.phase.Sending? {
      var groups := taken.phase.groups;
      FlushHandsOver(c, taken, |groups|);
      RunSnoc(c, taken, Flush(|groups|), SendNext);
      assert groups[..|groups|] == groups;
    }
  }
}
