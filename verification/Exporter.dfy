/** The exporter's bounded queue, its batching worker and its shutdown, as interleaved atomic
    steps. A producer holds the mutex from `Lock` to the end of its last channel operation;
    the worker receives without it. */
module Exporter {

  datatype Config = Config(capacity: nat, batchSize: nat)

  /** The defaults of `New`. */
  function Configured(batchSize: int, queueCapacity: int): (c: Config)
    ensures c.batchSize >= 1 && c.capacity >= 1
    ensures c.batchSize == batchSize || (batchSize <= 0 && c.batchSize == 50)
    ensures c.capacity == queueCapacity || (queueCapacity <= 0 && c.capacity == 5 * c.batchSize)
  {
    var batch := if batchSize <= 0 then 50 else batchSize;
    Config(if queueCapacity <= 0 then batch * 5 else queueCapacity, batch)
  }

  /** Where the producer that holds the mutex stands: before the first send, before the
      eviction, before the second send. */
  datatype Producer<T> = Idle | Offering(x: T) | Evicting(x: T) | Retrying(x: T)

  datatype Worker = Running | Drained | Cancelled

  datatype Fate = Evicted | Received

  datatype Removal<T> = Removal(item: T, fate: Fate)

  /** The first line is the program's state, the second line the history. `refused` counts the
      items offered after closing, `hopeless` those given up at the second send. */
  datatype State<T> = State(
    buf: seq<T>, closed: bool, cancelled: bool, producer: Producer<T>, worker: Worker, batch: seq<T>,
    dropped: nat, enqueued: nat,
    calls: nat, refused: nat, hopeless: nat, accepted: seq<T>, removed: seq<Removal<T>>, flushed: seq<seq<T>>)

  function Init<T>(): State<T> {
    State([], false, false, Idle, Running, [], 0, 0, 0, 0, 0, [], [], [])
  }

  datatype Step<T> =
    | Lock(x: T)      // enqueue: takes the mutex and tests `closed`
    | Offer           // enqueue: the first select
    | Evict           // enqueue: the second select
    | Retry           // enqueue: the third select
    | Close           // close, under the mutex
    | Cancel          // Shutdown cancels the context after closing the queues
    | Receive         // worker: an item arrives
    | Drain           // worker: the closed channel is empty
    | Tick            // worker: the ticker fires
    | SeeCancel       // worker: the context is done

  predicate Enabled<T>(s: State<T>, step: Step<T>) {
    match step
    case Lock(_) => s.producer.Idle?
    case Offer => s.producer.Offering?
    case Evict => s.producer.Evicting?
    case Retry => s.producer.Retrying?
    case Close => s.producer.Idle?
    case Cancel => s.closed
    case Receive => s.worker.Running? && s.buf != []
    case Drain => s.worker.Running? && s.buf == [] && s.closed
    case Tick => s.worker.Running?
    case SeeCancel => s.worker.Running? && s.cancelled
  }

  /** A flush sends the batch as it is; an empty batch is not sent. */
  function Flush<T>(s: State<T>): State<T> {
    if s.batch == [] then s else s.(flushed := s.flushed + [s.batch], batch := [])
  }

  function Send<T>(s: State<T>, x: T): State<T> {
    s.(buf := s.buf + [x], accepted := s.accepted + [x], enqueued := s.enqueued + 1, producer := Idle)
  }

  function Next<T>(c: Config, s: State<T>, step: Step<T>): State<T>
    requires Enabled(s, step)
  {
    match step
    case Lock(x) =>
      if s.closed then s.(calls := s.calls + 1, refused := s.refused + 1, dropped := s.dropped + 1)
      else s.(calls := s.calls + 1, producer := Offering(x))
    case Offer =>
      if |s.buf| < c.capacity then Send(s, s.producer.x) else s.(producer := Evicting(s.producer.x))
    case Evict =>
      if s.buf == [] then s.(producer := Retrying(s.producer.x))
      else s.(buf := s.buf[1..], removed := s.removed + [Removal(s.buf[0], Evicted)],
              dropped := s.dropped + 1, producer := Retrying(s.producer.x))
    case Retry =>
      if |s.buf| < c.capacity then Send(s, s.producer.x)
      else s.(dropped := s.dropped + 1, hopeless := s.hopeless + 1, producer := Idle)
    case Close => s.(closed := true)
    case Cancel => s.(cancelled := true)
    case Receive =>
      var got := s.(buf := s.buf[1..], removed := s.removed + [Removal(s.buf[0], Received)],
                    batch := s.batch + [s.buf[0]]);
      if |got.batch| >= c.batchSize then Flush(got) else got
    case Drain => Flush(s).(worker := Drained)
    case Tick => Flush(s)
    case SeeCancel => Flush(s).(worker := Cancelled)
  }

  predicate IsRun<T>(c: Config, s: State<T>, steps: seq<Step<T>>)
    decreases |steps|
  {
    steps == [] || (Enabled(s, steps[0]) && IsRun(c, Next(c, s, steps[0]), steps[1..]))
  }

  function Run<T>(c: Config, s: State<T>, steps: seq<Step<T>>): State<T>
    requires IsRun(c, s, steps)
    decreases |steps|
  {
    if steps == [] then s else Run(c, Next(c, s, steps[0]), steps[1..])
  }

  // ----- what the history adds up to ----------------------------------------------------

  function Items<T>(removed: seq<Removal<T>>): seq<T> {
    seq(|removed|, i requires 0 <= i < |removed| => removed[i].item)
  }

  /** The removed items of one fate, in order. */
  function WithFate<T>(removed: seq<Removal<T>>, fate: Fate): seq<T> {
    if removed == [] then []
    else
      var last := removed[|removed| - 1];
      WithFate(removed[..|removed| - 1], fate) + (if last.fate == fate then [last.item] else [])
  }

  function Concat<T>(batches: seq<seq<T>>): seq<T> {
    if batches == [] then [] else Concat(batches[..|batches| - 1]) + batches[|batches| - 1]
  }

  lemma WithFateSnoc<T>(removed: seq<Removal<T>>, r: Removal<T>, fate: Fate)
    ensures WithFate(removed + [r], fate) == WithFate(removed, fate) + (if r.fate == fate then [r.item] else [])
    ensures Items(removed + [r]) == Items(removed) + [r.item]
  {
    assert (removed + [r])[..|removed|] == removed;
  }

  lemma ConcatSnoc<T>(batches: seq<seq<T>>, batch: seq<T>)
    ensures Concat(batches + [batch]) == Concat(batches) + batch
  {
    assert (batches + [batch])[..|batches|] == batches;
  }

  lemma {:induction false} FatesPartition<T>(removed: seq<Removal<T>>)
    ensures |WithFate(removed, Evicted)| + |WithFate(removed, Received)| == |removed|
  {
    if removed != [] { FatesPartition(removed[..|removed| - 1]); }
  }

  // ----- the invariant ------------------------------------------------------------------

  ghost predicate ContentsInv<T>(c: Config, s: State<T>) {
    && |s.buf| <= c.capacity
    && s.accepted == Items(s.removed) + s.buf
    && (!s.producer.Idle? ==> !s.closed)
    && (s.cancelled ==> s.closed)
    && (c.capacity >= 1 && s.producer.Retrying? ==> |s.buf| < c.capacity)
  }

  ghost predicate CountsInv<T>(c: Config, s: State<T>) {
    && s.enqueued == |s.accepted|
    && s.calls == s.enqueued + s.refused + s.hopeless + (if s.producer.Idle? then 0 else 1)
    && s.dropped == |WithFate(s.removed, Evicted)| + s.refused + s.hopeless
    && (c.capacity >= 1 ==> s.hopeless == 0)
  }

  ghost predicate WorkerInv<T>(c: Config, s: State<T>) {
    && WithFate(s.removed, Received) == Concat(s.flushed) + s.batch
    && |s.batch| < c.batchSize
    && (forall b :: b in s.flushed ==> 1 <= |b| <= c.batchSize)
    && (!s.worker.Running? ==> s.batch == [] && s.closed)
    && (s.worker.Drained? ==> s.buf == [])
    && (s.worker.Cancelled? ==> s.cancelled)
  }

  ghost predicate Inv<T>(c: Config, s: State<T>) {
    c.batchSize >= 1 && ContentsInv(c, s) && CountsInv(c, s) && WorkerInv(c, s)
  }

  lemma FlushKeeps<T>(c: Config, s: State<T>)
    requires WithFate(s.removed, Received) == Concat(s.flushed) + s.batch
    requires c.batchSize >= 1 && |s.batch| <= c.batchSize
    requires forall b :: b in s.flushed ==> 1 <= |b| <= c.batchSize
    ensures var t := Flush(s);
            && WithFate(t.removed, Received) == Concat(t.flushed) + t.batch && t.batch == []
            && forall b :: b in t.flushed ==> 1 <= |b| <= c.batchSize
  {
    ConcatSnoc(s.flushed, s.batch);
  }

  lemma HeadMoves<T>(removed: seq<Removal<T>>, buf: seq<T>, fate: Fate)
    requires buf != []
    ensures Items(removed + [Removal(buf[0], fate)]) + buf[1..] == Items(removed) + buf
  {
    WithFateSnoc(removed, Removal(buf[0], fate), fate);
    assert buf == [buf[0]] + buf[1..];
  }

  lemma TailGrows<T>(a: seq<T>, b: seq<T>, x: T)
    ensures a + (b + [x]) == (a + b) + [x]
  {
  }

  lemma ContentsStep<T>(c: Config, s: State<T>, step: Step<T>)
    requires ContentsInv(c, s) && Enabled(s, step)
    ensures ContentsInv(c, Next(c, s, step))
  {
    match step {
      case Offer => TailGrows(Items(s.removed), s.buf, s.producer.x);
      case Retry => TailGrows(Items(s.removed), s.buf, s.producer.x);
      case Evict => if s.buf != [] { HeadMoves(s.removed, s.buf, Evicted); }
      case Receive => HeadMoves(s.removed, s.buf, Received);
      case _ =>
    }
  }

  lemma CountsStep<T>(c: Config, s: State<T>, step: Step<T>)
    requires ContentsInv(c, s) && CountsInv(c, s) && Enabled(s, step)
    ensures CountsInv(c, Next(c, s, step))
  {
    if s.buf != [] {
      WithFateSnoc(s.removed, Removal(s.buf[0], Evicted), Evicted);
      WithFateSnoc(s.removed, Removal(s.buf[0], Received), Evicted);
    }
  }

  lemma ReceiveStep<T>(c: Config, s: State<T>)
    requires Inv(c, s) && Enabled(s, Receive)
    ensures WorkerInv(c, Next(c, s, Receive))
  {
    var removal := Removal(s.buf[0], Received);
    WithFateSnoc(s.removed, removal, Received);
    FlushKeeps(c, s.(buf := s.buf[1..], removed := s.removed + [removal], batch := s.batch + [s.buf[0]]));
  }

  lemma EvictStep<T>(c: Config, s: State<T>)
    requires Inv(c, s) && Enabled(s, Evict)
    ensures WorkerInv(c, Next(c, s, Evict))
  {
    if s.buf != [] { WithFateSnoc(s.removed, Removal(s.buf[0], Evicted), Received); }
  }

  lemma WorkerStep<T>(c: Config, s: State<T>, step: Step<T>)
    requires Inv(c, s) && Enabled(s, step)
    ensures WorkerInv(c, Next(c, s, step))
  {
    match step {
      case Receive => ReceiveStep(c, s);
      case Evict => EvictStep(c, s);
      case Drain => FlushKeeps(c, s);
      case Tick => FlushKeeps(c, s);
      case SeeCancel => FlushKeeps(c, s);
      case _ =>
    }
  }

  lemma {:induction false} RunKeepsInv<T>(c: Config, s: State<T>, steps: seq<Step<T>>)
    requires Inv(c, s) && IsRun(c, s, steps)
    ensures Inv(c, Run(c, s, steps))
    decreases |steps|
  {
    if steps != [] {
      ContentsStep(c, s, steps[0]);
      CountsStep(c, s, steps[0]);
      WorkerStep(c, s, steps[0]);
      RunKeepsInv(c, Next(c, s, steps[0]), steps[1..]);
    }
  }

  // ----- the theorems, for every interleaving -------------------------------------------

  /** Every accepted item leaves at the head, in order, or is still buffered; between two calls
      of `enqueue`, calls = dropped + received + depth. */
  lemma QueueConserves<T>(c: Config, steps: seq<Step<T>>)
    requires c.batchSize >= 1 && IsRun(c, Init<T>(), steps)
    ensures var s := Run(c, Init<T>(), steps);
            && s.accepted == Items(s.removed) + s.buf
            && |s.buf| <= c.capacity
            && s.enqueued == |s.accepted|
            && (s.producer.Idle? ==> s.calls == s.dropped + |WithFate(s.removed, Received)| + |s.buf|)
  {
    RunKeepsInv(c, Init<T>(), steps);
    FatesPartition(Run(c, Init<T>(), steps).removed);
  }

  /** What callers offered while the queue was open, in the order in which they got the mutex. */
  function Offered<T>(c: Config, s: State<T>, steps: seq<Step<T>>): seq<T>
    requires IsRun(c, s, steps)
    decreases |steps|
  {
    if steps == [] then []
    else
      (if steps[0].Lock? && !s.closed then [steps[0].x] else [])
      + Offered(c, Next(c, s, steps[0]), steps[1..])
  }

  /** The item of the call that is under way. */
  function UnderWay<T>(s: State<T>): seq<T> {
    if s.producer.Idle? then [] else [s.producer.x]
  }

  lemma AcceptStep<T>(c: Config, s: State<T>, step: Step<T>)
    requires c.capacity >= 1 && ContentsInv(c, s) && Enabled(s, step)
    ensures var next := Next(c, s, step);
            next.accepted + UnderWay(next) ==
            s.accepted + UnderWay(s) + if step.Lock? && !s.closed then [step.x] else []
  {
  }

  lemma {:induction false} AcceptRun<T>(c: Config, s: State<T>, steps: seq<Step<T>>)
    requires c.capacity >= 1 && Inv(c, s) && IsRun(c, s, steps)
    ensures var last := Run(c, s, steps);
            last.accepted + UnderWay(last) == s.accepted + UnderWay(s) + Offered(c, s, steps)
    decreases |steps|
  {
    if steps != [] {
      var next := Next(c, s, steps[0]);
      ContentsStep(c, s, steps[0]);
      CountsStep(c, s, steps[0]);
      WorkerStep(c, s, steps[0]);
      AcceptStep(c, s, steps[0]);
      AcceptRun(c, next, steps[1..]);
      Associates(s.accepted + UnderWay(s), if steps[0].Lock? && !s.closed then [steps[0].x] else [],
                 Offered(c, next, steps[1..]));
    }
  }

  lemma Associates<T>(a: seq<T>, b: seq<T>, c: seq<T>)
    ensures (a + b) + c == a + (b + c)
  {
  }

  /** Under every interleaving an open queue accepts every item it is offered, in order: the
      newest is never the one that is dropped. */
  lemma AcceptsAllOffered<T>(c: Config, steps: seq<Step<T>>)
    requires c.capacity >= 1 && c.batchSize >= 1 && IsRun(c, Init<T>(), steps)
    ensures var s := Run(c, Init<T>(), steps);
            s.accepted + (if s.producer.Idle? then [] else [s.producer.x]) == Offered(c, Init<T>(), steps)
  {
    AcceptRun(c, Init<T>(), steps);
  }

  /** A call that finds the buffer full, with nothing received in between, drops the oldest item
      and appends its own; with room it only appends. */
  lemma CallDropsOldest<T>(c: Config, s: State<T>, x: T)
    requires s.producer.Idle? && !s.closed && 1 <= c.capacity == |s.buf|
    ensures var steps := [Lock(x), Offer, Evict, Retry];
            && IsRun(c, s, steps)
            && var t := Run(c, s, steps);
               && t.buf == s.buf[1..] + [x] && t.accepted == s.accepted + [x] && t.producer.Idle?
               && t.removed == s.removed + [Removal(s.buf[0], Evicted)] && t.dropped == s.dropped + 1
  {
    RunFour(c, s, Lock(x), Offer, Evict, Retry);
  }

  lemma CallWithRoom<T>(c: Config, s: State<T>, x: T)
    requires s.producer.Idle? && !s.closed && |s.buf| < c.capacity
    ensures var steps := [Lock(x), Offer];
            && IsRun(c, s, steps)
            && var t := Run(c, s, steps);
               && t.buf == s.buf + [x] && t.accepted == s.accepted + [x] && t.producer.Idle?
               && t.removed == s.removed && t.dropped == s.dropped
  {
    var s1 := Next(c, s, Lock(x));
    RunCons(c, s1, Offer, []);
    RunCons(c, s, Lock(x), [Offer] + []);
    assert [Lock(x), Offer] == [Lock(x)] + ([Offer] + []);
  }

  /** A receive flushes exactly when it fills the batch. */
  lemma ReceiveFlushesIff<T>(c: Config, s: State<T>)
    requires Inv(c, s) && s.worker.Running? && s.buf != []
    ensures var t := Next(c, s, Receive);
            if |s.batch| + 1 == c.batchSize
            then t.flushed == s.flushed + [s.batch + [s.buf[0]]] && t.batch == []
            else t.flushed == s.flushed && t.batch == s.batch + [s.buf[0]]
  {
  }

  /** Every tick leaves nothing unsent of what was received. */
  lemma TickFlushes<T>(c: Config, s: State<T>)
    requires Inv(c, s) && s.worker.Running?
    ensures var t := Next(c, s, Tick);
            && t.batch == [] && Concat(t.flushed) == WithFate(t.removed, Received)
            && t.buf == s.buf && t.removed == s.removed && t.worker.Running?
            && (s.batch != [] ==> t.flushed == s.flushed + [s.batch])
  {
    FlushKeeps(c, s);
  }

  /** What the worker received is, in order, the flushed batches and the current one. */
  lemma WorkerPartitions<T>(c: Config, steps: seq<Step<T>>)
    requires c.batchSize >= 1 && IsRun(c, Init<T>(), steps)
    ensures var s := Run(c, Init<T>(), steps);
            && WithFate(s.removed, Received) == Concat(s.flushed) + s.batch
            && |s.batch| < c.batchSize
            && (forall b :: b in s.flushed ==> 1 <= |b| <= c.batchSize)
            && (!s.worker.Running? ==> Concat(s.flushed) == WithFate(s.removed, Received))
  {
    RunKeepsInv(c, Init<T>(), steps);
  }

  /** The final branch of `enqueue` can be reached exactly when the capacity is 0, which `New`
      never configures. */
  lemma HopelessIffNoCapacity<T>(c: Config, x: T)
    requires c.batchSize >= 1
    ensures (exists steps: seq<Step<T>> :: IsRun(c, Init<T>(), steps) && Run(c, Init<T>(), steps).hopeless > 0)
       <==> c.capacity == 0
  {
    if c.capacity == 0 {
      var steps := [Lock(x), Offer, Evict, Retry];
      RunFour(c, Init<T>(), steps[0], steps[1], steps[2], steps[3]);
    } else {
      forall steps: seq<Step<T>> | IsRun(c, Init<T>(), steps) ensures Run(c, Init<T>(), steps).hopeless == 0 {
        RunKeepsInv(c, Init<T>(), steps);
      }
    }
  }

  lemma RunCons<T>(c: Config, s: State<T>, step: Step<T>, rest: seq<Step<T>>)
    requires Enabled(s, step) && IsRun(c, Next(c, s, step), rest)
    ensures IsRun(c, s, [step] + rest)
    ensures Run(c, s, [step] + rest) == Run(c, Next(c, s, step), rest)
  {
    assert ([step] + rest)[1..] == rest;
  }

  lemma RunFour<T>(c: Config, s: State<T>, a: Step<T>, b: Step<T>, d: Step<T>, e: Step<T>)
    requires Enabled(s, a)
    requires var s1 := Next(c, s, a); Enabled(s1, b)
    requires var s2 := Next(c, Next(c, s, a), b); Enabled(s2, d)
    requires var s3 := Next(c, Next(c, Next(c, s, a), b), d); Enabled(s3, e)
    ensures IsRun(c, s, [a, b, d, e])
    ensures Run(c, s, [a, b, d, e]) == Next(c, Next(c, Next(c, Next(c, s, a), b), d), e)
  {
    var s1 := Next(c, s, a);
    var s2 := Next(c, s1, b);
    var s3 := Next(c, s2, d);
    RunCons(c, s3, e, []);
    RunCons(c, s2, d, [e] + []);
    RunCons(c, s1, b, [d] + ([e] + []));
    RunCons(c, s, a, [b] + ([d] + ([e] + [])));
    assert [a] + ([b] + ([d] + ([e] + []))) == [a, b, d, e];
  }

  /** The worker's two exits. On the closed channel, every accepted item was evicted or flushed
      exactly once, in order. On the cancelled context, what is still buffered is lost. */
  lemma ExitsAccountForAll<T>(c: Config, steps: seq<Step<T>>)
    requires c.batchSize >= 1 && IsRun(c, Init<T>(), steps)
    ensures var s := Run(c, Init<T>(), steps);
            && (s.worker.Drained? ==>
                  s.accepted == Items(s.removed) && WithFate(s.removed, Received) == Concat(s.flushed))
            && (s.worker.Cancelled? ==>
                  s.accepted == Items(s.removed) + s.buf && WithFate(s.removed, Received) == Concat(s.flushed))
  {
    RunKeepsInv(c, Init<T>(), steps);
  }

  /** After the worker's exit nothing is received or flushed any more, whatever happens. */
  lemma {:induction false} ExitIsFinal<T>(c: Config, s: State<T>, steps: seq<Step<T>>)
    requires Inv(c, s) && !s.worker.Running? && IsRun(c, s, steps)
    ensures var t := Run(c, s, steps);
            t.buf == s.buf && t.flushed == s.flushed && t.accepted == s.accepted && t.removed == s.removed
    decreases |steps|
  {
    if steps != [] {
      ContentsStep(c, s, steps[0]);
      CountsStep(c, s, steps[0]);
      WorkerStep(c, s, steps[0]);
      ExitIsFinal(c, Next(c, s, steps[0]), steps[1..]);
    }
  }

  /** No accepted item is lost at the end of a run: each was evicted or is in a flushed batch. */
  ghost predicate NothingLost<T>(s: State<T>) {
    |s.accepted| == |WithFate(s.removed, Evicted)| + |Concat(s.flushed)|
  }

  /** After the worker's exit, what is missing is what was left in the buffer: nothing by the
      closed channel. */
  lemma LossIsLeftover<T>(c: Config, s: State<T>)
    requires Inv(c, s) && !s.worker.Running?
    ensures NothingLost(s) <==> s.buf == []
    ensures s.worker.Drained? ==> NothingLost(s)
  {
    FatesPartition(s.removed);
  }

  /** However the rest of the shutdown goes, no accepted item is lost. */
  ghost predicate ShutdownIsSafe<T(!new)>(c: Config, s: State<T>) {
    forall steps: seq<Step<T>> ::
      IsRun(c, s, steps) && !Run(c, s, steps).worker.Running? ==> NothingLost(Run(c, s, steps))
  }

  /** Once closed, a queue accepts nothing any more. */
  lemma {:induction false} ClosedStaysEmpty<T>(c: Config, s: State<T>, steps: seq<Step<T>>)
    requires Inv(c, s) && s.closed && s.buf == [] && IsRun(c, s, steps)
    ensures Run(c, s, steps).buf == []
    decreases |steps|
  {
    if steps != [] {
      ContentsStep(c, s, steps[0]);
      CountsStep(c, s, steps[0]);
      WorkerStep(c, s, steps[0]);
      ClosedStaysEmpty(c, Next(c, s, steps[0]), steps[1..]);
    }
  }

  lemma EmptyLosesNothing<T>(c: Config, s: State<T>, steps: seq<Step<T>>)
    requires Inv(c, s) && s.closed && s.buf == []
    requires IsRun(c, s, steps) && !Run(c, s, steps).worker.Running?
    ensures NothingLost(Run(c, s, steps))
  {
    RunKeepsInv(c, s, steps);
    ClosedStaysEmpty(c, s, steps);
    LossIsLeftover(c, Run(c, s, steps));
  }

  lemma LeftoverMayBeLost<T>(c: Config, s: State<T>) returns (steps: seq<Step<T>>)
    requires Inv(c, s) && s.closed && s.worker.Running? && s.buf != []
    ensures IsRun(c, s, steps) && !Run(c, s, steps).worker.Running? && !NothingLost(Run(c, s, steps))
  {
    var cancelled := Next(c, s, Cancel);
    RunCons(c, cancelled, SeeCancel, []);
    RunCons(c, s, Cancel, [SeeCancel] + []);
    steps := [Cancel] + ([SeeCancel] + []);
    RunKeepsInv(c, s, steps);
    LossIsLeftover(c, Run(c, s, steps));
  }

  /** From the moment at which `Shutdown` has closed the queue of a running worker, every
      continuation is free of losses exactly when the queue's depth is 0 at that moment. */
  lemma ShutdownSafeIffEmpty<T(!new)>(c: Config, s: State<T>)
    requires Inv(c, s) && s.closed && s.worker.Running?
    ensures ShutdownIsSafe(c, s) <==> s.buf == []
  {
    if s.buf == [] {
      forall steps: seq<Step<T>> | IsRun(c, s, steps) && !Run(c, s, steps).worker.Running?
        ensures NothingLost(Run(c, s, steps))
      {
        EmptyLosesNothing(c, s, steps);
      }
    } else {
      var steps := LeftoverMayBeLost(c, s);
    }
  }

  /** `Shutdown` closes the queue and cancels the context; a worker that then happens to see
      the context first drops what it has not received. This happens under every usable
      configuration. */
  lemma ShutdownMayLose<T>(c: Config, x: T)
    requires c.batchSize >= 1 && c.capacity >= 1
    ensures exists steps: seq<Step<T>> ::
              IsRun(c, Init<T>(), steps)
              && var s := Run(c, Init<T>(), steps);
                 s.worker.Cancelled? && s.accepted == [x] && s.buf == [x] && s.flushed == [] && s.dropped == 0
  {
    var s := Init<T>();
    var s1 := Next(c, s, Lock(x));
    RunFour(c, s1, Offer, Close, Cancel, SeeCancel);
    var rest: seq<Step<T>> := [Offer, Close, Cancel, SeeCancel];
    var steps := [Lock(x)] + rest;
    RunCons(c, s, Lock(x), rest);
  }

  // ----- delivering one batch -----------------------------------------------------------

  /** The outcome of one POST: 2xx, a network error or a 5xx, or anything else. */
  datatype Attempt = Delivered | Retryable | Fatal

  datatype Response = NetworkError | Status(code: int)

  function Classify(response: Response): Attempt {
    match response
    case NetworkError => Retryable
    case Status(code) => if 200 <= code < 300 then Delivered else if code >= 500 then Retryable else Fatal
  }

  function Pow2(n: nat): nat {
    if n == 0 then 1 else 2 * Pow2(n - 1)
  }

  const SECOND := 1_000_000_000
  const TWO_TO_THE_63 := 0x8000_0000_0000_0000
  const TWO_TO_THE_64 := 0x1_0000_0000_0000_0000

  /** A product of 64-bit integers, wrapped around. */
  function Wrap(n: int): int {
    (n + TWO_TO_THE_63) % TWO_TO_THE_64 - TWO_TO_THE_63
  }

  /** The pause in nanoseconds in front of the given retry: 2^(retry-1) times two seconds in
      64-bit arithmetic; a negative pause ends at once. */
  function Backoff(retry: nat): nat
    requires retry >= 1
  {
    var pause := Wrap(Wrap(Pow2(retry - 1)) * 2 * SECOND);
    if pause < 0 then 0 else pause
  }

  function TotalBackoff(retries: nat): nat {
    if retries == 0 then 0 else TotalBackoff(retries - 1) + Backoff(retries)
  }

  lemma {:induction false} Pow2Grows(m: nat, n: nat)
    requires m <= n
    ensures Pow2(m) <= Pow2(n)
  {
    if m < n { Pow2Grows(m, n - 1); }
  }

  lemma Pow2Of32()
    ensures Pow2(32) == 0x1_0000_0000
  {
    assert Pow2(8) == 0x100;
    assert Pow2(16) == 0x100 * Pow2(8);
    assert Pow2(24) == 0x100 * Pow2(16);
    assert Pow2(32) == 0x100 * Pow2(24);
  }

  lemma WrapFits(n: int)
    requires -TWO_TO_THE_63 <= n < TWO_TO_THE_63
    ensures Wrap(n) == n
  {
  }

  lemma BackoffExact(retry: nat)
    requires 1 <= retry <= 33
    ensures Backoff(retry) == Pow2(retry - 1) * 2 * SECOND
  {
    Pow2Of32();
    Pow2Grows(retry - 1, 32);
    WrapFits(Pow2(retry - 1));
    WrapFits(Pow2(retry - 1) * 2 * SECOND);
  }

  /** Up to the 33rd retry the pauses are 2s, 4s, 8s, ... and add up. */
  lemma {:induction false} BackoffAddsUp(retries: nat)
    requires retries <= 33
    ensures TotalBackoff(retries) == (Pow2(retries + 1) - 2) * 1_000_000_000
  {
    if retries > 0 {
      BackoffAddsUp(retries - 1);
      BackoffExact(retries);
    }
  }

  /** The pauses are the intended ones exactly up to the 33rd retry. */
  lemma BackoffExactIff(retry: nat)
    requires retry >= 1
    ensures Backoff(retry) == Pow2(retry - 1) * 2_000_000_000 <==> retry <= 33
  {
    if retry <= 33 {
      BackoffExact(retry);
    } else {
      Pow2Of32();
      Pow2Grows(33, retry - 1);
      assert Backoff(retry) < TWO_TO_THE_63 < Pow2(33) * 2 * SECOND;
    }
  }

  /** The retry loop of `flushStream`, the i-th POST being answered by `response(i)`. The batch
      is delivered exactly when one of the first 1 + maxRetries attempts succeeds after
      retryable failures only. */
  method FlushHTTP(response: nat -> Response, maxRetries: nat) returns (delivered: bool, attempts: nat, slept: nat)
    ensures 1 <= attempts <= maxRetries + 1
    ensures forall i: nat :: i < attempts - 1 ==> response(i).NetworkError? || response(i).code >= 500
    ensures (response(attempts - 1).NetworkError? || response(attempts - 1).code >= 500) ==> attempts == maxRetries + 1
    ensures delivered <==> exists i: nat :: i <= maxRetries && response(i).Status? && 200 <= response(i).code < 300
                             && forall j: nat :: j < i ==> response(j).NetworkError? || response(j).code >= 500
    ensures slept == TotalBackoff(attempts - 1)
  {
    var attempt := 0;
    slept := 0;
    while attempt <= maxRetries
      invariant attempt <= maxRetries
      invariant forall i: nat :: i < attempt ==> Classify(response(i)) == Retryable
      invariant slept == if attempt == 0 then 0 else TotalBackoff(attempt - 1)
      decreases maxRetries - attempt
    {
      if attempt > 0 {
        slept := slept + Backoff(attempt);
      }
      var result := Classify(response(attempt));
      if result == Delivered { return true, attempt + 1, slept; }
      if attempt < maxRetries && result == Retryable {
        attempt := attempt + 1;
        continue;
      }
      return false, attempt + 1, slept;
    }
    assert false;
  }
}
