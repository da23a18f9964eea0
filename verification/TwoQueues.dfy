/** A queue and its dead-letter queue as two FIFO sequences, with every crash boundary of a
    move between them, and an account of where each event goes. `DurableQueue` is proved
    against this. */
module TwoQueues {
  import opened DiskImage
  import Fifo = FifoQueue

  datatype Both = Both(live: seq<Item>, dead: seq<Item>)

  datatype Setup = Setup(stream: Stream, main: Fifo.Limits, dead: Fifo.Limits) {
    predicate Positive() { main.Positive() && dead.Positive() }
  }

  datatype Burial = Burial(reason: string, message: string, attemptedAt: int, now: int)

  /** A move takes the `taken`-th queued item. Moving an item that has left the queue already
      is only an enqueue on the dead-letter queue. Reprocessing removes the oldest dead letter
      and has the caller enqueue its event again. */
  datatype Op =
    | OnMain(op: Fifo.Op<Item>)
    | OnDead(op: Fifo.Op<Item>)
    | Move(taken: nat, why: Burial, dropOk: bool, writeOk: bool, commitOk: bool)
    | Reprocess(now: int, dropOk: bool, writeOk: bool, commitOk: bool)

  function DeadLetter(stream: Stream, x: Item, why: Burial): Item {
    Item(Encoded(DLQEntry(x.data, stream, why.reason, why.message, x.enqueuedAt, why.attemptedAt, 1)), why.now)
  }

  /** The event that an item of the main queue, or of the dead-letter queue, stands for. */
  function EventOf(x: Item): Payload { x.data }

  function Origin(x: Item): Payload {
    if x.data.Encoded? then x.data.entry.originalEvent else x.data
  }

  predicate Legal(s: Both, op: Op) {
    match op
    case OnMain(o) => Fifo.Legal(s.live, o)
    case OnDead(o) => Fifo.Legal(s.dead, o)
    case Move(taken, _, _, _, _) => 0 < taken <= |s.live|
    case Reprocess(_, _, _, _) => s.dead != [] && s.dead[0].data.Encoded?
  }

  const Nothing: Fifo.Op<Item> := Fifo.Commit(0, true)

  /** Every operation acts on the dead-letter queue first ... */
  function DeadOp(c: Setup, s: Both, op: Op): (o: Fifo.Op<Item>)
    requires Legal(s, op)
    ensures Fifo.Legal(s.dead, o)
  {
    match op
    case OnMain(_) => Nothing
    case OnDead(o) => o
    case Move(taken, why, dropOk, writeOk, _) =>
      Fifo.Enqueue(DeadLetter(c.stream, s.live[taken - 1], why), dropOk, writeOk)
    case Reprocess(_, _, _, commitOk) => Fifo.Commit(1, commitOk)
  }

  /** ... and on the main queue second: a move once its dead letter is written, reprocessing
      once the dead letter is removed. */
  function MainOp(c: Setup, s: Both, op: Op): (o: Fifo.Op<Item>)
    requires c.Positive() && Legal(s, op)
    ensures Fifo.Legal(s.live, o)
  {
    match op
    case OnMain(o) => o
    case OnDead(_) => Nothing
    case Move(taken, _, _, _, commitOk) => if Buried(c, s, op) then Fifo.Commit(taken, commitOk) else Nothing
    case Reprocess(now, dropOk, writeOk, commitOk) =>
      if commitOk then Fifo.Enqueue(Item(Origin(s.dead[0]), now), dropOk, writeOk) else Nothing
  }

  /** Whether the operation gets to write a dead letter. */
  predicate Buried(c: Setup, s: Both, op: Op)
    requires c.Positive() && Legal(s, op)
  {
    Fifo.Writes(c.dead, s.dead, Fifo.Done(DeadOp(c, s, op)))
  }

  lemma MoveParts(c: Setup, s: Both, op: Op)
    requires c.Positive() && Legal(s, op) && op.Move?
    ensures Buried(c, s, op) == (op.writeOk && (Fifo.Full(c.dead, |s.dead|) ==> !c.dead.rejectNew && op.dropOk))
    ensures DeadOp(c, s, op) ==
            Fifo.Enqueue(DeadLetter(c.stream, s.live[op.taken - 1], op.why), op.dropOk, op.writeOk)
    ensures MainOp(c, s, op) == if Buried(c, s, op) then Fifo.Commit(op.taken, op.commitOk) else Nothing
  {
  }

  function DeadSteps(c: Setup, s: Both, op: Op): (n: nat)
    requires c.Positive() && Legal(s, op)
  {
    |Fifo.Boundaries(c.dead, s.dead, DeadOp(c, s, op))| - 1
  }

  function MainSteps(c: Setup, s: Both, op: Op): (n: nat)
    requires c.Positive() && Legal(s, op)
  {
    |Fifo.Boundaries(c.main, s.live, MainOp(c, s, op))| - 1
  }

  // ----- whole runs ---------------------------------------------------------------------

  /** An operation that returns, or a crash after `at` transactions of either queue. */
  datatype Event = Done(op: Op) | Crash(op: Op, at: nat)

  predicate Possible(c: Setup, s: Both, ev: Event)
    requires c.Positive()
  {
    Legal(s, ev.op) && (ev.Crash? ==> ev.at <= DeadSteps(c, s, ev.op) + MainSteps(c, s, ev.op))
  }

  /** What the event does to either queue alone. */
  function DeadEvent(c: Setup, s: Both, ev: Event): (e: Fifo.Event<Item>)
    requires c.Positive() && Possible(c, s, ev)
    ensures Fifo.Possible(c.dead, s.dead, e)
  {
    var o, n := DeadOp(c, s, ev.op), DeadSteps(c, s, ev.op);
    if ev.Done? then Fifo.Done(o) else Fifo.Crash(o, if ev.at <= n then ev.at else n)
  }

  function MainEvent(c: Setup, s: Both, ev: Event): (e: Fifo.Event<Item>)
    requires c.Positive() && Possible(c, s, ev)
    ensures Fifo.Possible(c.main, s.live, e)
  {
    var o, n := MainOp(c, s, ev.op), DeadSteps(c, s, ev.op);
    if ev.Done? then Fifo.Done(o) else Fifo.Crash(o, if ev.at <= n then 0 else ev.at - n)
  }

  function Next(c: Setup, s: Both, ev: Event): Both
    requires c.Positive() && Possible(c, s, ev)
  {
    Both(Fifo.Next(c.main, s.live, MainEvent(c, s, ev)), Fifo.Next(c.dead, s.dead, DeadEvent(c, s, ev)))
  }

  predicate IsRun(c: Setup, s: Both, evs: seq<Event>)
    requires c.Positive()
    decreases |evs|
  {
    evs == [] || (Possible(c, s, evs[0]) && IsRun(c, Next(c, s, evs[0]), evs[1..]))
  }

  function Run(c: Setup, s: Both, evs: seq<Event>): Both
    requires c.Positive() && IsRun(c, s, evs)
    decreases |evs|
  {
    if evs == [] then s else Run(c, Next(c, s, evs[0]), evs[1..])
  }

  function MainEvents(c: Setup, s: Both, evs: seq<Event>): seq<Fifo.Event<Item>>
    requires c.Positive() && IsRun(c, s, evs)
    decreases |evs|
  {
    if evs == [] then [] else [MainEvent(c, s, evs[0])] + MainEvents(c, Next(c, s, evs[0]), evs[1..])
  }

  function DeadEvents(c: Setup, s: Both, evs: seq<Event>): seq<Fifo.Event<Item>>
    requires c.Positive() && IsRun(c, s, evs)
    decreases |evs|
  {
    if evs == [] then [] else [DeadEvent(c, s, evs[0])] + DeadEvents(c, Next(c, s, evs[0]), evs[1..])
  }

  /** Seen alone, either queue runs as a FIFO queue, so nothing in it is reordered, and what
      leaves it leaves at the front. */
  lemma {:induction false} RunProjects(c: Setup, s: Both, evs: seq<Event>)
    requires c.Positive() && IsRun(c, s, evs)
    ensures var m, d := MainEvents(c, s, evs), DeadEvents(c, s, evs);
            && Fifo.IsRun(c.main, s.live, m)
            && Fifo.IsRun(c.dead, s.dead, d)
            && Run(c, s, evs) == Both(Fifo.Run(c.main, s.live, m), Fifo.Run(c.dead, s.dead, d))
    decreases |evs|
  {
    if evs != [] {
      var next := Next(c, s, evs[0]);
      RunProjects(c, next, evs[1..]);
      var m, d := MainEvents(c, next, evs[1..]), DeadEvents(c, next, evs[1..]);
      assert ([MainEvent(c, s, evs[0])] + m)[1..] == m;
      assert ([DeadEvent(c, s, evs[0])] + d)[1..] == d;
    }
  }

  // ----- where events go ----------------------------------------------------------------

  function Tally(f: Item -> Payload, items: seq<Item>): multiset<Payload> {
    multiset(seq(|items|, i requires 0 <= i < |items| => f(items[i])))
  }

  function Events(s: Both): multiset<Payload> {
    Tally(EventOf, s.live) + Tally(Origin, s.dead)
  }

  /** For one event or a run: the events evicted to make room, acknowledged by readers, removed
      only because a later item was moved, taken out of the dead-letter queue without having
      been enqueued again, enqueued, and put into the dead-letter queue while staying in the
      main queue. */
  datatype Ledger = Ledger(evicted: multiset<Payload>, acknowledged: multiset<Payload>, skipped: multiset<Payload>,
                           mislaid: multiset<Payload>, written: multiset<Payload>, doubled: multiset<Payload>) {
    function Plus(that: Ledger): Ledger {
      Ledger(evicted + that.evicted, acknowledged + that.acknowledged, skipped + that.skipped,
             mislaid + that.mislaid, written + that.written, doubled + that.doubled)
    }
  }

  const NoEvents: multiset<Payload> := multiset{}
  const Blank := Ledger(NoEvents, NoEvents, NoEvents, NoEvents, NoEvents, NoEvents)

  function Entries(c: Setup, s: Both, ev: Event): Ledger
    requires c.Positive() && Possible(c, s, ev)
  {
    var m, d := MainEvent(c, s, ev), DeadEvent(c, s, ev);
    var ackedMain, ackedDead := Fifo.Acknowledged(c.main, s.live, m), Fifo.Acknowledged(c.dead, s.dead, d);
    var evictedMain, evictedDead := Fifo.Evictions(c.main, s.live, m), Fifo.Evictions(c.dead, s.dead, d);
    var addedMain, addedDead := Fifo.Added(c.main, s.live, m), Fifo.Added(c.dead, s.dead, d);
    match ev.op
    case Move(_, _, _, _, _) => MoveEntries(s, ackedMain, evictedDead, addedDead)
    case Reprocess(_, _, _, _) => ReprocessEntries(s, evictedMain, ackedDead, addedMain)
    case _ => QueueEntries(EventOf, s.live, evictedMain, ackedMain, addedMain).Plus(
                QueueEntries(Origin, s.dead, evictedDead, ackedDead, addedDead))
  }

  function QueueEntries(f: Item -> Payload, live: seq<Item>, evicted: nat, acked: nat, added: seq<Item>): Ledger
    requires evicted <= |live| && acked <= |live|
  {
    Ledger(Tally(f, live[..evicted]), Tally(f, live[..acked]), NoEvents, NoEvents, Tally(f, added), NoEvents)
  }

  /** A move acknowledges the moved item, and skips those before it, only to bury it. */
  function MoveEntries(s: Both, acked: nat, evicted: nat, added: seq<Item>): Ledger
    requires acked <= |s.live| && evicted <= |s.dead|
  {
    Ledger(Tally(Origin, s.dead[..evicted]), NoEvents,
           if acked > 0 then Tally(EventOf, s.live[..acked - 1]) else NoEvents,
           NoEvents, NoEvents, if acked > 0 then NoEvents else Tally(Origin, added))
  }

  function ReprocessEntries(s: Both, evicted: nat, acked: nat, added: seq<Item>): Ledger
    requires evicted <= |s.live| && acked <= |s.dead|
  {
    Ledger(Tally(EventOf, s.live[..evicted]), NoEvents, NoEvents,
           if added != [] then NoEvents else Tally(Origin, s.dead[..acked]), NoEvents, NoEvents)
  }

  function Account(c: Setup, s: Both, evs: seq<Event>): Ledger
    requires c.Positive() && IsRun(c, s, evs)
    decreases |evs|
  {
    if evs == [] then Blank else Entries(c, s, evs[0]).Plus(Account(c, Next(c, s, evs[0]), evs[1..]))
  }

  lemma OneKindLeaves(limits: Fifo.Limits, live: seq<Item>, ev: Fifo.Event<Item>)
    requires limits.Positive() && Fifo.Possible(limits, live, ev)
    ensures var evicted, acked := Fifo.Evictions(limits, live, ev), Fifo.Acknowledged(limits, live, ev);
            && evicted + acked <= |live| && (evicted == 0 || acked == 0)
            && Fifo.Next(limits, live, ev) == live[evicted + acked..] + Fifo.Added(limits, live, ev)
  {
    Fifo.NextIsSlice(limits, live, ev);
  }

  lemma TallyJoins(f: Item -> Payload, a: seq<Item>, b: seq<Item>, p: Payload)
    ensures Tally(f, a + b)[p] == Tally(f, a)[p] + Tally(f, b)[p]
  {
    assert seq(|a + b|, i requires 0 <= i < |a + b| => f((a + b)[i])) ==
           seq(|a|, i requires 0 <= i < |a| => f(a[i])) + seq(|b|, i requires 0 <= i < |b| => f(b[i]));
  }

  lemma TallyCuts(f: Item -> Payload, live: seq<Item>, k: nat, p: Payload)
    requires k <= |live|
    ensures Tally(f, live)[p] == Tally(f, live[..k])[p] + Tally(f, live[k..])[p]
  {
    assert live[..k] + live[k..] == live;
    TallyJoins(f, live[..k], live[k..], p);
  }

  lemma TallyNone(f: Item -> Payload, live: seq<Item>, p: Payload)
    ensures Tally(f, live[..0])[p] == 0
  {
  }

  lemma TallyEmpty(f: Item -> Payload, p: Payload)
    ensures Tally(f, [])[p] == 0
  {
  }

  /** What a queue keeps of `live` when some leave and some are added, counted for one event. */
  lemma TallyMoves(f: Item -> Payload, live: seq<Item>, n: nat, m: nat, added: seq<Item>, p: Payload)
    requires n + m <= |live| && (n == 0 || m == 0)
    ensures Tally(f, live[n + m..] + added)[p] + Tally(f, live[..n])[p] + Tally(f, live[..m])[p]
            == Tally(f, live)[p] + Tally(f, added)[p]
  {
    TallyCuts(f, live, n + m, p);
    TallyJoins(f, live[n + m..], added, p);
    TallyNone(f, live, p);
  }

  lemma QueueAccounts(f: Item -> Payload, limits: Fifo.Limits, live: seq<Item>, ev: Fifo.Event<Item>, p: Payload)
    requires limits.Positive() && Fifo.Possible(limits, live, ev)
    ensures var evicted, acked := Fifo.Evictions(limits, live, ev), Fifo.Acknowledged(limits, live, ev);
            && evicted + acked <= |live|
            && Tally(f, Fifo.Next(limits, live, ev))[p] + Tally(f, live[..evicted])[p] + Tally(f, live[..acked])[p]
               == Tally(f, live)[p] + Tally(f, Fifo.Added(limits, live, ev))[p]
  {
    OneKindLeaves(limits, live, ev);
    TallyMoves(f, live, Fifo.Evictions(limits, live, ev), Fifo.Acknowledged(limits, live, ev),
               Fifo.Added(limits, live, ev), p);
  }

  /** `p` is found, and has left, as often as it was there and was put there. */
  predicate BalancedFor(p: Payload, before: multiset<Payload>, l: Ledger, after: multiset<Payload>) {
    after[p] + l.evicted[p] + l.acknowledged[p] + l.skipped[p] + l.mislaid[p] == before[p] + l.written[p] + l.doubled[p]
  }

  ghost predicate Balanced(before: multiset<Payload>, l: Ledger, after: multiset<Payload>) {
    forall p :: BalancedFor(p, before, l, after)
  }

  lemma BalancePlus(e0: multiset<Payload>, l1: Ledger, e1: multiset<Payload>, l2: Ledger, e2: multiset<Payload>)
    requires Balanced(e0, l1, e1) && Balanced(e1, l2, e2)
    ensures Balanced(e0, l1.Plus(l2), e2)
  {
    forall p ensures BalancedFor(p, e0, l1.Plus(l2), e2) {
      assert BalancedFor(p, e0, l1, e1) && BalancedFor(p, e1, l2, e2);
    }
  }

  lemma PlainAccounts(c: Setup, s: Both, ev: Event, p: Payload)
    requires c.Positive() && Possible(c, s, ev) && !ev.op.Move? && !ev.op.Reprocess?
    ensures BalancedFor(p, Events(s), Entries(c, s, ev), Events(Next(c, s, ev)))
  {
    QueueAccounts(EventOf, c.main, s.live, MainEvent(c, s, ev), p);
    QueueAccounts(Origin, c.dead, s.dead, DeadEvent(c, s, ev), p);
  }

  /** A move adds at most its dead letter, and takes items only once that is written. */
  lemma MoveShape(c: Setup, s: Both, ev: Event)
    requires c.Positive() && Possible(c, s, ev) && ev.op.Move?
    ensures var m, d, taken := MainEvent(c, s, ev), DeadEvent(c, s, ev), ev.op.taken;
            var acked := Fifo.Acknowledged(c.main, s.live, m);
            && Fifo.Added(c.main, s.live, m) == [] && Fifo.Evictions(c.main, s.live, m) == 0
            && Fifo.Acknowledged(c.dead, s.dead, d) == 0
            && (acked > 0 ==> acked == taken
                              && Fifo.Added(c.dead, s.dead, d) == [DeadLetter(c.stream, s.live[taken - 1], ev.op.why)])
  {
  }

  lemma LastTaken(live: seq<Item>, taken: nat, entry: Item, p: Payload)
    requires 0 < taken <= |live| && Origin(entry) == EventOf(live[taken - 1])
    ensures Tally(EventOf, live[..taken])[p] == Tally(EventOf, live[..taken - 1])[p] + Tally(Origin, [entry])[p]
  {
    var x := live[taken - 1];
    assert live[..taken] == live[..taken - 1] + [x];
    TallyJoins(EventOf, live[..taken - 1], [x], p);
    assert seq(1, i requires 0 <= i < 1 => EventOf([x][i])) == seq(1, i requires 0 <= i < 1 => Origin([entry][i]));
  }

  lemma MoveBalances(s: Both, next: Both, acked: nat, evicted: nat, added: seq<Item>, p: Payload)
    requires acked <= |s.live| && evicted <= |s.dead|
    requires Tally(EventOf, next.live)[p] + Tally(EventOf, s.live[..acked])[p] == Tally(EventOf, s.live)[p]
    requires Tally(Origin, next.dead)[p] + Tally(Origin, s.dead[..evicted])[p]
             == Tally(Origin, s.dead)[p] + Tally(Origin, added)[p]
    requires acked > 0 ==> |added| == 1 && Origin(added[0]) == EventOf(s.live[acked - 1])
    ensures BalancedFor(p, Events(s), MoveEntries(s, acked, evicted, added), Events(next))
  {
    if acked > 0 {
      LastTaken(s.live, acked, added[0], p);
      assert added == [added[0]];
    } else {
      TallyNone(EventOf, s.live, p);
    }
  }

  lemma MoveAccounts(c: Setup, s: Both, ev: Event, p: Payload)
    requires c.Positive() && Possible(c, s, ev) && ev.op.Move?
    ensures BalancedFor(p, Events(s), Entries(c, s, ev), Events(Next(c, s, ev)))
  {
    var m, d := MainEvent(c, s, ev), DeadEvent(c, s, ev);
    QueueAccounts(EventOf, c.main, s.live, m, p);
    QueueAccounts(Origin, c.dead, s.dead, d, p);
    MoveShape(c, s, ev);
    TallyNone(EventOf, s.live, p);
    TallyNone(Origin, s.dead, p);
    TallyEmpty(EventOf, p);
    MoveBalances(s, Next(c, s, ev), Fifo.Acknowledged(c.main, s.live, m), Fifo.Evictions(c.dead, s.dead, d),
                 Fifo.Added(c.dead, s.dead, d), p);
  }

  /** Reprocessing enqueues at most the event of the dead letter that it has removed. */
  lemma ReprocessShape(c: Setup, s: Both, ev: Event)
    requires c.Positive() && Possible(c, s, ev) && ev.op.Reprocess?
    ensures var m, d := MainEvent(c, s, ev), DeadEvent(c, s, ev);
            var acked, added := Fifo.Acknowledged(c.dead, s.dead, d), Fifo.Added(c.main, s.live, m);
            && Fifo.Acknowledged(c.main, s.live, m) == 0
            && Fifo.Added(c.dead, s.dead, d) == [] && Fifo.Evictions(c.dead, s.dead, d) == 0
            && acked == (if ev.op.commitOk && (ev.Crash? ==> ev.at >= 1) then 1 else 0)
            && added == (if Requeued(c, s, ev) then [Item(Origin(s.dead[0]), ev.op.now)] else [])
            && (added != [] ==> acked == 1)
  {
  }

  /** Whether reprocessing has got as far as enqueuing the event again. */
  predicate Requeued(c: Setup, s: Both, ev: Event)
    requires c.Positive() && Possible(c, s, ev) && ev.op.Reprocess?
  {
    && ev.op.commitOk && ev.op.writeOk
    && (Fifo.Full(c.main, |s.live|) ==> !c.main.rejectNew && ev.op.dropOk)
    && (ev.Crash? ==> ev.at == DeadSteps(c, s, ev.op) + MainSteps(c, s, ev.op))
  }

  lemma ReprocessBalances(s: Both, next: Both, evicted: nat, acked: nat, added: seq<Item>, p: Payload)
    requires evicted <= |s.live| && acked <= |s.dead|
    requires Tally(EventOf, next.live)[p] + Tally(EventOf, s.live[..evicted])[p]
             == Tally(EventOf, s.live)[p] + Tally(EventOf, added)[p]
    requires Tally(Origin, next.dead)[p] + Tally(Origin, s.dead[..acked])[p] == Tally(Origin, s.dead)[p]
    requires added != [] ==> acked == 1 && |added| == 1 && EventOf(added[0]) == Origin(s.dead[0])
    ensures BalancedFor(p, Events(s), ReprocessEntries(s, evicted, acked, added), Events(next))
  {
    if added != [] {
      TallyOne(EventOf, added[0], added);
      TallyOne(Origin, s.dead[0], s.dead[..1]);
    } else {
      TallyEmpty(EventOf, p);
    }
  }

  lemma ReprocessAccounts(c: Setup, s: Both, ev: Event, p: Payload)
    requires c.Positive() && Possible(c, s, ev) && ev.op.Reprocess?
    ensures BalancedFor(p, Events(s), Entries(c, s, ev), Events(Next(c, s, ev)))
  {
    var m, d := MainEvent(c, s, ev), DeadEvent(c, s, ev);
    QueueAccounts(EventOf, c.main, s.live, m, p);
    QueueAccounts(Origin, c.dead, s.dead, d, p);
    ReprocessShape(c, s, ev);
    TallyNone(EventOf, s.live, p);
    TallyNone(Origin, s.dead, p);
    TallyEmpty(Origin, p);
    ReprocessBalances(s, Next(c, s, ev), Fifo.Evictions(c.main, s.live, m), Fifo.Acknowledged(c.dead, s.dead, d),
                      Fifo.Added(c.main, s.live, m), p);
  }

  lemma StepAccounts(c: Setup, s: Both, ev: Event)
    requires c.Positive() && Possible(c, s, ev)
    ensures Balanced(Events(s), Entries(c, s, ev), Events(Next(c, s, ev)))
  {
    forall p ensures BalancedFor(p, Events(s), Entries(c, s, ev), Events(Next(c, s, ev))) {
      match ev.op
      case Move(_, _, _, _, _) => MoveAccounts(c, s, ev, p);
      case Reprocess(_, _, _, _) => ReprocessAccounts(c, s, ev, p);
      case _ => PlainAccounts(c, s, ev, p);
    }
  }

  /** Over whole runs with crashes: every event that was there or was enqueued, and every second
      copy, is still in one of the queues, was evicted, was acknowledged, was removed along with
      a later item that was moved, or was handed back for reprocessing and not enqueued again. */
  lemma {:induction false} RunAccounts(c: Setup, s: Both, evs: seq<Event>)
    requires c.Positive() && IsRun(c, s, evs)
    ensures Balanced(Events(s), Account(c, s, evs), Events(Run(c, s, evs)))
    decreases |evs|
  {
    if evs != [] {
      var next := Next(c, s, evs[0]);
      StepAccounts(c, s, evs[0]);
      RunAccounts(c, next, evs[1..]);
      BalancePlus(Events(s), Entries(c, s, evs[0]), Events(next),
                  Account(c, next, evs[1..]), Events(Run(c, next, evs[1..])));
    }
  }

  // ----- when nothing is lost -----------------------------------------------------------

  lemma MoveCounts(c: Setup, s: Both, op: Op)
    requires c.Positive() && Legal(s, op) && op.Move?
    ensures var full, buried, ev := Fifo.Full(c.dead, |s.dead|), Buried(c, s, op), Done(op);
            var m, d := MainEvent(c, s, ev), DeadEvent(c, s, ev);
            && buried == (op.writeOk && (full ==> !c.dead.rejectNew && op.dropOk))
            && (full ==> s.dead != [])
            && Fifo.Evictions(c.dead, s.dead, d) == (if full && !c.dead.rejectNew && op.dropOk then 1 else 0)
            && Fifo.Added(c.dead, s.dead, d) ==
               (if buried then [DeadLetter(c.stream, s.live[op.taken - 1], op.why)] else [])
            && Fifo.Acknowledged(c.main, s.live, m) == (if buried && op.commitOk then op.taken else 0)
  {
  }

  /** What a move that returns does, in every outcome: a dead letter is evicted when it makes
      room, even if its own write then fails; the items before the moved one go with it; a
      commit that fails leaves the moved item queued beside its dead letter. */
  lemma MoveOutcomes(c: Setup, s: Both, op: Op)
    requires c.Positive() && Legal(s, op) && op.Move?
    ensures var full, l := Fifo.Full(c.dead, |s.dead|), Entries(c, s, Done(op));
            && Buried(c, s, op) == (op.writeOk && (full ==> !c.dead.rejectNew && op.dropOk))
            && (full ==> s.dead != [])
            && l.evicted == (if full && !c.dead.rejectNew && op.dropOk then multiset{Origin(s.dead[0])} else multiset{})
            && l.skipped == (if Buried(c, s, op) && op.commitOk then Tally(EventOf, s.live[..op.taken - 1])
                             else multiset{})
            && l.doubled == (if Buried(c, s, op) && !op.commitOk then multiset{s.live[op.taken - 1].data}
                             else multiset{})
            && l.acknowledged == l.written == multiset{}
  {
    MoveShape(c, s, Done(op));
    MoveCounts(c, s, op);
    if Fifo.Full(c.dead, |s.dead|) { TallyOne(Origin, s.dead[0], s.dead[..1]); }
    var entry := DeadLetter(c.stream, s.live[op.taken - 1], op.why);
    TallyOne(Origin, entry, [entry]);
  }

  lemma TallyOne(f: Item -> Payload, x: Item, items: seq<Item>)
    requires items == [x]
    ensures Tally(f, items) == multiset{f(x)}
  {
    assert seq(|items|, i requires 0 <= i < |items| => f(items[i])) == [f(x)];
  }

  /** A completed move keeps every event of both queues exactly when it moves the head item and
      the dead-letter queue has room. */
  lemma MoveKeepsEventsIff(c: Setup, s: Both, op: Op)
    requires c.Positive() && Legal(s, op) && op.Move? && Buried(c, s, op) && op.commitOk
    ensures Events(Next(c, s, Done(op))) == Events(s) <==> op.taken == 1 && !Fifo.Full(c.dead, |s.dead|)
  {
    var ev, next := Done(op), Next(c, s, Done(op));
    assert |Events(s)| == |s.live| + |s.dead| && |Events(next)| == |next.live| + |next.dead|;
    if op.taken == 1 && !Fifo.Full(c.dead, |s.dead|) {
      StepAccounts(c, s, ev);
      assert Entries(c, s, ev) == Blank;
      BlankBalance(Events(s), Events(next));
    }
  }

  /** The same, said of the two queues' own operations. */
  lemma MovedContents(c: Setup, s: Both, taken: nat, why: Burial, dropOk: bool, next: Both)
    requires c.Positive() && 0 < taken <= |s.live|
    requires Fifo.Full(c.dead, |s.dead|) ==> !c.dead.rejectNew && dropOk
    requires next.live == s.live[taken..]
    requires next.dead == Fifo.After(c.dead, s.dead,
                                     Fifo.Enqueue(DeadLetter(c.stream, s.live[taken - 1], why), dropOk, true))
    ensures Events(next) == Events(s) <==> taken == 1 && !Fifo.Full(c.dead, |s.dead|)
  {
    MoveKeepsEventsIff(c, s, Move(taken, why, dropOk, true, true));
  }

  lemma BlankBalance(before: multiset<Payload>, after: multiset<Payload>)
    requires Balanced(before, Blank, after)
    ensures before == after
  {
    forall p ensures before[p] == after[p] {
      assert BalancedFor(p, before, Blank, after);
    }
  }

  predicate LosesNothing(l: Ledger) {
    l.evicted == NoEvents && l.skipped == NoEvents && l.mislaid == NoEvents
  }

  /** Moves take head items, and nothing is reprocessed. */
  predicate HeadsOnly(evs: seq<Event>) {
    forall i :: 0 <= i < |evs| ==> !evs[i].op.Reprocess? && (evs[i].op.Move? ==> evs[i].op.taken == 1)
  }

  lemma {:induction false} RejectNewLosesNothing(c: Setup, s: Both, evs: seq<Event>)
    requires c.Positive() && IsRun(c, s, evs)
    requires HeadsOnly(evs) && c.main.rejectNew && c.dead.rejectNew
    ensures LosesNothing(Account(c, s, evs))
    decreases |evs|
  {
    if evs != [] {
      RejectNewLosesNothing(c, Next(c, s, evs[0]), evs[1..]);
    }
  }

  lemma AccountOne(c: Setup, s: Both, ev: Event)
    requires c.Positive() && Possible(c, s, ev)
    ensures IsRun(c, s, [ev]) && Account(c, s, [ev]) == Entries(c, s, ev).Plus(Blank)
  {
    var rest := [ev][1..];
    assert rest == [];
  }

  lemma OneEventLoses(c: Setup, s: Both, ev: Event)
    requires c.Positive() && Possible(c, s, ev) && !ev.op.Move? && !ev.op.Reprocess?
    requires Entries(c, s, ev).evicted != multiset{}
    ensures IsRun(c, s, [ev]) && HeadsOnly([ev]) && !LosesNothing(Account(c, s, [ev]))
  {
    AccountOne(c, s, ev);
  }

  function Copies(x: Item, n: nat): (items: seq<Item>)
    ensures |items| == n
  {
    seq(n, _ => x)
  }

  /** A queue at capacity evicts when it drops the oldest item. */
  lemma FullEvicts(limits: Fifo.Limits, x: Item, live: seq<Item>, put: Fifo.Event<Item>)
    requires limits.Positive() && !limits.rejectNew && |live| == Fifo.Capacity(limits)
    requires put == Fifo.Done(Fifo.Enqueue(x, true, true))
    ensures Fifo.Evictions(limits, live, put) == 1
  {
  }

  lemma MainMayLose(c: Setup, x: Item) returns (s: Both, evs: seq<Event>)
    requires c.Positive() && !c.main.rejectNew
    ensures IsRun(c, s, evs) && HeadsOnly(evs) && !LosesNothing(Account(c, s, evs))
  {
    s := Both(Copies(x, Fifo.Capacity(c.main)), []);
    var put := Fifo.Enqueue(x, true, true);
    FullEvicts(c.main, x, s.live, Fifo.Done(put));
    OneEventLoses(c, s, Done(OnMain(put)));
    evs := [Done(OnMain(put))];
  }

  lemma DeadMayLose(c: Setup, x: Item) returns (s: Both, evs: seq<Event>)
    requires c.Positive() && !c.dead.rejectNew
    ensures IsRun(c, s, evs) && HeadsOnly(evs) && !LosesNothing(Account(c, s, evs))
  {
    s := Both([], Copies(x, Fifo.Capacity(c.dead)));
    var put := Fifo.Enqueue(x, true, true);
    FullEvicts(c.dead, x, s.dead, Fifo.Done(put));
    OneEventLoses(c, s, Done(OnDead(put)));
    evs := [Done(OnDead(put))];
  }

  /** No run that moves only head items and reprocesses nothing loses an event, wherever it
      crashes, exactly when both queues reject new items at capacity. */
  lemma NothingLostIff(c: Setup)
    requires c.Positive()
    ensures (forall s, evs :: IsRun(c, s, evs) && HeadsOnly(evs) ==> LosesNothing(Account(c, s, evs)))
            <==> c.main.rejectNew && c.dead.rejectNew
  {
    var x := Item(Raw(""), 0);
    if !c.main.rejectNew {
      var s, evs := MainMayLose(c, x);
    } else if !c.dead.rejectNew {
      var s, evs := DeadMayLose(c, x);
    } else {
      forall s, evs | IsRun(c, s, evs) && HeadsOnly(evs) ensures LosesNothing(Account(c, s, evs)) {
        RejectNewLosesNothing(c, s, evs);
      }
    }
  }

  /** Reprocessing holds on to its event exactly until the dead letter is removed and again once
      the event is enqueued; a crash in between, or an enqueue that fails, leaves it in neither
      queue, whatever the drop policies. */
  lemma ReprocessKeepsIff(c: Setup, s: Both, ev: Event)
    requires c.Positive() && Possible(c, s, ev) && ev.op.Reprocess?
    ensures Entries(c, s, ev).mislaid == NoEvents
       <==> !ev.op.commitOk || (ev.Crash? && ev.at == 0) || Requeued(c, s, ev)
    ensures Entries(c, s, ev).mislaid != NoEvents ==> Entries(c, s, ev).mislaid == multiset{Origin(s.dead[0])}
  {
    ReprocessShape(c, s, ev);
    TallyOne(Origin, s.dead[0], s.dead[..1]);
  }

  lemma ReprocessMayLose(c: Setup, dead: Item, now: int)
    requires c.Positive() && dead.data.Encoded?
    ensures var s, evs := Both([], [dead]), [Crash(Reprocess(now, true, true, true), 1)];
            IsRun(c, s, evs) && Run(c, s, evs) == Both([], []) && !LosesNothing(Account(c, s, evs))
  {
    var s, ev := Both([], [dead]), Crash(Reprocess(now, true, true, true), 1);
    AccountOne(c, s, ev);
    ReprocessKeepsIff(c, s, ev);
    assert IsRun(c, Next(c, s, ev), [ev][1..]);
  }
}
