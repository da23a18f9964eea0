/** The plain FIFO sequence that the durable queue implements, including what a crash between
    any two disk transactions of an operation may leave behind. Offsets, keys and the
    persistent/volatile split do not appear here; `DurableQueue` is proved against this. */
module FifoQueue {

  const AVG_ITEM_SIZE := 500

  datatype Limits = Limits(maxBytes: int, maxEvents: int, rejectNew: bool) {
    predicate Positive() { maxBytes > 0 && maxEvents > 0 }
  }

  /** `checkCapacity`, as a test on the depth. */
  predicate Full(limits: Limits, depth: nat) {
    depth >= limits.maxEvents || depth * AVG_ITEM_SIZE >= limits.maxBytes
  }

  datatype Op<T> =
    | Enqueue(x: T, dropOk: bool, writeOk: bool)  // the flags say which transaction succeeds
    | Commit(count: nat, ok: bool)                // acknowledges the first `count` items

  predicate Legal<T>(live: seq<T>, op: Op<T>) {
    op.Commit? ==> op.count <= |live|
  }

  /** The queue contents at every boundary between two disk transactions of `op`: before the
      first one, between them, and after the last one. */
  function Boundaries<T>(limits: Limits, live: seq<T>, op: Op<T>): (b: seq<seq<T>>)
    requires limits.Positive() && Legal(live, op)
    ensures b != [] && b[0] == live
  {
    match op
    case Commit(count, ok) =>
      if ok && count > 0 then [live, live[count..]] else [live]
    case Enqueue(x, dropOk, writeOk) =>
      if !Full(limits, |live|) then
        if writeOk then [live, live + [x]] else [live]
      else if limits.rejectNew || !dropOk then [live]
      else if writeOk then [live, live[1..], live[1..] + [x]]
      else [live, live[1..]]
  }

  function After<T>(limits: Limits, live: seq<T>, op: Op<T>): seq<T>
    requires limits.Positive() && Legal(live, op)
  {
    var b := Boundaries(limits, live, op);
    b[|b| - 1]
  }

  /** An enqueue, case by case and in numbers. */
  lemma EnqueueIs<T>(limits: Limits, live: seq<T>, x: T, dropOk: bool, writeOk: bool)
    requires limits.Positive()
    ensures var full := |live| >= limits.maxEvents || |live| * 500 >= limits.maxBytes;
            var added := if writeOk then [x] else [];
            After(limits, live, Enqueue(x, dropOk, writeOk)) ==
            if !full then live + added
            else if limits.rejectNew || !dropOk then live
            else live[1..] + added
  {
  }

  // ----- whole runs ---------------------------------------------------------------------

  /** An operation that returns, or a crash after `at` of its transactions and a restart. */
  datatype Event<T> = Done(op: Op<T>) | Crash(op: Op<T>, at: nat)

  predicate Possible<T>(limits: Limits, live: seq<T>, ev: Event<T>)
    requires limits.Positive()
  {
    Legal(live, ev.op) && (ev.Crash? ==> ev.at < |Boundaries(limits, live, ev.op)|)
  }

  function Next<T>(limits: Limits, live: seq<T>, ev: Event<T>): seq<T>
    requires limits.Positive() && Possible(limits, live, ev)
  {
    match ev
    case Done(op) => After(limits, live, op)
    case Crash(op, at) => Boundaries(limits, live, op)[at]
  }

  predicate IsRun<T>(limits: Limits, live: seq<T>, evs: seq<Event<T>>)
    requires limits.Positive()
    decreases |evs|
  {
    evs == [] ||
    (Possible(limits, live, evs[0]) && IsRun(limits, Next(limits, live, evs[0]), evs[1..]))
  }

  function Run<T>(limits: Limits, live: seq<T>, evs: seq<Event<T>>): seq<T>
    requires limits.Positive() && IsRun(limits, live, evs)
    decreases |evs|
  {
    if evs == [] then live else Run(limits, Next(limits, live, evs[0]), evs[1..])
  }

  /** Whether the event got as far as its write transaction. */
  predicate Writes<T>(limits: Limits, live: seq<T>, ev: Event<T>)
    requires limits.Positive() && Possible(limits, live, ev)
  {
    && ev.op.Enqueue? && ev.op.writeOk
    && (Full(limits, |live|) ==> !limits.rejectNew && ev.op.dropOk)
    && (ev.Crash? ==> ev.at == |Boundaries(limits, live, ev.op)| - 1)
  }

  function Added<T>(limits: Limits, live: seq<T>, ev: Event<T>): seq<T>
    requires limits.Positive() && Possible(limits, live, ev)
  {
    if Writes(limits, live, ev) then [ev.op.x] else []
  }

  /** The items the events wrote, in order. */
  function Written<T>(limits: Limits, live: seq<T>, evs: seq<Event<T>>): seq<T>
    requires limits.Positive() && IsRun(limits, live, evs)
    decreases |evs|
  {
    if evs == [] then []
    else Added(limits, live, evs[0]) + Written(limits, Next(limits, live, evs[0]), evs[1..])
  }

  /** How many items the event evicted to make room, and how many it acknowledged. */
  function Evictions<T>(limits: Limits, live: seq<T>, ev: Event<T>): nat
    requires limits.Positive() && Possible(limits, live, ev)
  {
    if ev.op.Enqueue? && Full(limits, |live|) && !limits.rejectNew && ev.op.dropOk
       && (ev.Crash? ==> ev.at > 0) then 1 else 0
  }

  function Acknowledged<T>(limits: Limits, live: seq<T>, ev: Event<T>): nat
    requires limits.Positive() && Possible(limits, live, ev)
  {
    if ev.op.Commit? && ev.op.ok && (ev.Crash? ==> ev.at > 0) then ev.op.count else 0
  }

  function TotalEvictions<T>(limits: Limits, live: seq<T>, evs: seq<Event<T>>): nat
    requires limits.Positive() && IsRun(limits, live, evs)
    decreases |evs|
  {
    if evs == [] then 0
    else Evictions(limits, live, evs[0]) + TotalEvictions(limits, Next(limits, live, evs[0]), evs[1..])
  }

  function TotalAcknowledged<T>(limits: Limits, live: seq<T>, evs: seq<Event<T>>): nat
    requires limits.Positive() && IsRun(limits, live, evs)
    decreases |evs|
  {
    if evs == [] then 0
    else Acknowledged(limits, live, evs[0]) + TotalAcknowledged(limits, Next(limits, live, evs[0]), evs[1..])
  }

  lemma NextIsSlice<T>(limits: Limits, live: seq<T>, ev: Event<T>)
    requires limits.Positive() && Possible(limits, live, ev)
    ensures var n := Evictions(limits, live, ev) + Acknowledged(limits, live, ev);
            n <= |live| && Next(limits, live, ev) == (live + Added(limits, live, ev))[n..]
  {
  }

  lemma SliceAgain<T>(a: seq<T>, b: seq<T>, c: seq<T>, n: nat, m: nat)
    requires n <= |a| && m <= |(a + b)[n..] + c|
    ensures n + m <= |a + (b + c)|
    ensures ((a + b)[n..] + c)[m..] == (a + (b + c))[n + m..]
  {
    assert a + (b + c) == (a + b) + c;
    assert (a + b)[n..] + c == ((a + b) + c)[n..];
  }

  /** Durable FIFO over whole runs with crashes: whatever was there or was written leaves only
      at the front and in order; the rest is exactly the queue. Nothing is lost, repeated or
      reordered, wherever the crashes fall. */
  lemma {:induction false} RunConserves<T>(limits: Limits, live: seq<T>, evs: seq<Event<T>>)
    requires limits.Positive() && IsRun(limits, live, evs)
    ensures var gone := TotalEvictions(limits, live, evs) + TotalAcknowledged(limits, live, evs);
            var all := live + Written(limits, live, evs);
            gone <= |all| && Run(limits, live, evs) == all[gone..]
    decreases |evs|
  {
    if evs == [] {
    } else {
      var ev, rest := evs[0], evs[1..];
      var mid := Next(limits, live, ev);
      NextIsSlice(limits, live, ev);
      RunConserves(limits, mid, rest);
      SliceAgain(live, Added(limits, live, ev), Written(limits, mid, rest),
                 Evictions(limits, live, ev) + Acknowledged(limits, live, ev),
                 TotalEvictions(limits, mid, rest) + TotalAcknowledged(limits, mid, rest));
    }
  }

  /** The depth at which the queue counts as full: min(maxEvents, ceil(maxBytes / 500)). */
  function Capacity(limits: Limits): (cap: nat)
    requires limits.Positive()
    ensures cap >= 1
    ensures forall depth: nat :: Full(limits, depth) <==> depth >= cap
  {
    var byBytes := (limits.maxBytes + AVG_ITEM_SIZE - 1) / AVG_ITEM_SIZE;
    if limits.maxEvents <= byBytes then limits.maxEvents else byBytes
  }

  /** A run never takes the depth above the capacity, or above where it already was when the
      queue was opened with more than that on disk. */
  lemma {:induction false} RunKeepsCapacity<T>(limits: Limits, live: seq<T>, evs: seq<Event<T>>, bound: nat)
    requires limits.Positive() && IsRun(limits, live, evs)
    requires |live| <= bound && Capacity(limits) <= bound
    ensures |Run(limits, live, evs)| <= bound
    decreases |evs|
  {
    if evs != [] {
      NextIsSlice(limits, live, evs[0]);
      RunKeepsCapacity(limits, Next(limits, live, evs[0]), evs[1..], bound);
    }
  }

  /** The same in numbers: beyond the depth at opening, a run keeps both configured limits, the
      bytes at 500 an item. */
  lemma RunKeepsLimits<T>(limits: Limits, live: seq<T>, evs: seq<Event<T>>)
    requires limits.maxEvents > 0 && limits.maxBytes > 0 && IsRun(limits, live, evs)
    ensures var depth := |Run(limits, live, evs)|;
            depth <= |live| || (depth <= limits.maxEvents && depth <= (limits.maxBytes + 499) / 500)
  {
    var cap := Capacity(limits);
    assert Full(limits, limits.maxEvents) && Full(limits, (limits.maxBytes + 499) / 500);
    RunKeepsCapacity(limits, live, evs, if |live| <= cap then cap else |live|);
  }

  lemma {:induction false} NeverEvicts<T>(limits: Limits, live: seq<T>, evs: seq<Event<T>>)
    requires limits.Positive() && IsRun(limits, live, evs) && limits.rejectNew
    ensures TotalEvictions(limits, live, evs) == 0
    decreases |evs|
  {
    if evs != [] { NeverEvicts(limits, Next(limits, live, evs[0]), evs[1..]); }
  }

  /** Under reject-new nothing is ever evicted: what left the queue was acknowledged. */
  lemma RejectNewNeverEvicts<T>(limits: Limits, live: seq<T>, evs: seq<Event<T>>)
    requires limits.Positive() && IsRun(limits, live, evs) && limits.rejectNew
    ensures TotalEvictions(limits, live, evs) == 0
    ensures var all := live + Written(limits, live, evs);
            var acked := TotalAcknowledged(limits, live, evs);
            acked <= |all| && all == all[..acked] + Run(limits, live, evs)
  {
    NeverEvicts(limits, live, evs);
    RunConserves(limits, live, evs);
  }
}
