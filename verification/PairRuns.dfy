/** Whole runs of the disk-backed queue with its dead-letter queue, moves between them and
    reprocessing included, with a crash and a restart of both after any transaction of either. */
module PairRuns {
  import opened KeyCodec
  import opened DiskImage
  import opened DurableQueue
  import opened QueueRuns
  import opened DeadLetters
  import Fifo = FifoQueue
  import Pair = TwoQueues

  ghost predicate Ready(q: BadgerQueue)
    reads q, q.dlq
  {
    && q.Valid() && !q.closed && q.cfg.stream != STREAM_DLQ
    && q.dlq != null && q.dlq.Valid() && !q.dlq.closed
  }

  lemma IdleWent(cfg: Config, live: seq<Item>, trail: seq<Disk>, w: Uint64)
    requires cfg.Limits().Positive()
    ensures Went(cfg, live, trail, Pair.Nothing, live, trail, w)
  {
  }

  /** The main queue's part in a move: none until the dead letter is written. */
  lemma MainPart(c: Pair.Setup, cfg: Config, s: Pair.Both, op: Pair.Op, trail: seq<Disk>,
                 live': seq<Item>, trail': seq<Disk>, w: Uint64)
    requires c.Positive() && c.main == cfg.Limits() && Pair.Legal(s, op) && op.Move?
    requires Pair.Buried(c, s, op) ==>
               Went(cfg, s.live, trail, Fifo.Commit(op.taken, op.commitOk), live', trail', w)
    requires !Pair.Buried(c, s, op) ==> live' == s.live && trail' == trail
    ensures Went(cfg, s.live, trail, Pair.MainOp(c, s, op), live', trail', w)
  {
    IdleWent(cfg, s.live, trail, w);
  }

  /** Moves an item that a reader was handed. */
  method MoveHanded(q: BadgerQueue, taken: nat, why: Pair.Burial, dropOk: bool, writeOk: bool, commitOk: bool)
    requires Ready(q) && q.writeOffset < MAX_UINT64 && q.dlq.writeOffset < MAX_UINT64
    requires 0 < taken <= |q.Contents|
    modifies q, q.dlq
    ensures Ready(q) && q.writeOffset == old(q.writeOffset)
    ensures old(q.dlq.writeOffset) <= q.dlq.writeOffset <= old(q.dlq.writeOffset) + 1
    ensures var op := Pair.Move(taken, why, dropOk, writeOk, commitOk);
            var m, d := Pair.MainOp(q.Setup(), old(q.Both()), op), Pair.DeadOp(q.Setup(), old(q.Both()), op);
            && Went(q.cfg, old(q.Contents), old(q.trail), m, q.Contents, q.trail, q.writeOffset)
            && Went(q.dlq.cfg, old(q.dlq.Contents), old(q.dlq.trail), d,
                    q.dlq.Contents, q.dlq.trail, q.dlq.writeOffset)
  {
    var read, items := q.DequeueBatch(taken, true);
    ghost var op, s, trail := Pair.Move(taken, why, dropOk, writeOk, commitOk), q.Both(), q.trail;
    Pair.MoveParts(q.Setup(), s, op);
    assert q.dlq.AtCapacity() <==> Fifo.Full(q.dlq.cfg.Limits(), |q.dlq.Contents|);
    var res, points := q.MoveToDLQ(items[taken - 1], why, dropOk, writeOk, commitOk);
    MainPart(q.Setup(), q.cfg, s, op, trail, q.Contents, q.trail, q.writeOffset);
  }

  /** Takes the oldest dead letter back and enqueues its event again. */
  method ReprocessHead(q: BadgerQueue, now: int, dropOk: bool, writeOk: bool, commitOk: bool)
    requires Ready(q) && q.writeOffset < MAX_UINT64
    requires q.dlq.Contents != [] && q.dlq.Contents[0].data.Encoded?
    modifies q, q.dlq
    ensures Ready(q) && q.dlq.writeOffset == old(q.dlq.writeOffset)
    ensures old(q.writeOffset) <= q.writeOffset <= old(q.writeOffset) + 1
    ensures var op := Pair.Reprocess(now, dropOk, writeOk, commitOk);
            var m, d := Pair.MainOp(q.Setup(), old(q.Both()), op), Pair.DeadOp(q.Setup(), old(q.Both()), op);
            && Went(q.cfg, old(q.Contents), old(q.trail), m, q.Contents, q.trail, q.writeOffset)
            && Went(q.dlq.cfg, old(q.dlq.Contents), old(q.dlq.trail), d, q.dlq.Contents, q.dlq.trail,
                    q.dlq.writeOffset)
  {
    IdleWent(q.cfg, q.Contents, q.trail, q.writeOffset);
    var manager := new DLQManager(q.dlq);
    var event, stream, res := manager.Reprocess(q.dlq.readOffset, true, commitOk);
    if res == Ok {
      var enqueued := q.Enqueue(event, now, dropOk, writeOk);
    }
  }

  method PerformOnPair(q: BadgerQueue, op: Pair.Op)
    requires Ready(q) && q.writeOffset < MAX_UINT64 && q.dlq.writeOffset < MAX_UINT64
    requires Pair.Legal(q.Both(), op)
    modifies q, q.dlq
    ensures Ready(q)
    ensures old(q.writeOffset) <= q.writeOffset <= old(q.writeOffset) + 1
    ensures old(q.dlq.writeOffset) <= q.dlq.writeOffset <= old(q.dlq.writeOffset) + 1
    ensures var m, d := Pair.MainOp(q.Setup(), old(q.Both()), op), Pair.DeadOp(q.Setup(), old(q.Both()), op);
            && Went(q.cfg, old(q.Contents), old(q.trail), m, q.Contents, q.trail, q.writeOffset)
            && Went(q.dlq.cfg, old(q.dlq.Contents), old(q.dlq.trail), d,
                    q.dlq.Contents, q.dlq.trail, q.dlq.writeOffset)
  {
    match op {
      case OnMain(o) =>
        IdleWent(q.dlq.cfg, q.dlq.Contents, q.dlq.trail, q.dlq.writeOffset);
        Perform(q, o);
      case OnDead(o) =>
        IdleWent(q.cfg, q.Contents, q.trail, q.writeOffset);
        Perform(q.dlq, o);
      case Move(taken, why, dropOk, writeOk, commitOk) =>
        MoveHanded(q, taken, why, dropOk, writeOk, commitOk);
      case Reprocess(now, dropOk, writeOk, commitOk) =>
        ReprocessHead(q, now, dropOk, writeOk, commitOk);
    }
  }

  /** One event: the operation returns, or the process dies after `at` transactions of the two
      queues and both are opened again on their disks as they were then. */
  method HappenToPair(q: BadgerQueue, ev: Pair.Event) returns (next: BadgerQueue)
    requires Ready(q) && q.writeOffset < MAX_UINT64 && q.dlq.writeOffset < MAX_UINT64
    requires Pair.Possible(q.Setup(), q.Both(), ev)
    modifies q, q.dlq
    ensures Ready(next) && next.cfg == q.cfg && next.dlq.cfg == q.dlq.cfg
    ensures (next == q && next.dlq == q.dlq) || (fresh(next) && fresh(next.dlq))
    ensures next.writeOffset <= old(q.writeOffset) + 1 && next.dlq.writeOffset <= old(q.dlq.writeOffset) + 1
    ensures next.Both() == Pair.Next(q.Setup(), old(q.Both()), ev)
  {
    var mainBefore, mainCount := q.disk, |q.trail|;
    var deadBefore, deadCount := q.dlq.disk, |q.dlq.trail|;
    ghost var s := q.Both();
    ghost var m, d := Pair.MainEvent(q.Setup(), s, ev), Pair.DeadEvent(q.Setup(), s, ev);
    assert SurvivesBelow(mainBefore, q.cfg.stream, s.live, q.writeOffset);
    assert SurvivesBelow(deadBefore, q.dlq.cfg.stream, s.dead, q.dlq.writeOffset);
    PerformOnPair(q, ev.op);
    if ev.Done? { return q; }
    StillBelow(mainBefore, q.cfg.stream, s.live, old(q.writeOffset), q.writeOffset);
    StillBelow(deadBefore, q.dlq.cfg.stream, s.dead, old(q.dlq.writeOffset), q.dlq.writeOffset);
    CrashSurvives(mainBefore, old(q.trail), q.trail, q.cfg.stream,
                  Fifo.Boundaries(q.cfg.Limits(), s.live, m.op), m.at, q.writeOffset);
    CrashSurvives(deadBefore, old(q.dlq.trail), q.dlq.trail, q.dlq.cfg.stream,
                  Fifo.Boundaries(q.dlq.cfg.Limits(), s.dead, d.op), d.at, q.dlq.writeOffset);
    var deadAt := Min(ev.at, |q.dlq.trail| - deadCount);
    next := Restart(q, DiskAt(mainBefore, q.trail, mainCount, ev.at - deadAt),
                    DiskAt(deadBefore, q.dlq.trail, deadCount, deadAt), Pair.Next(q.Setup(), s, ev));
  }

  /** Opens both queues on the disks that a crash left behind. */
  method Restart(q: BadgerQueue, main: Disk, dead: Disk, ghost s: Pair.Both) returns (next: BadgerQueue)
    requires Ready(q)
    requires SurvivesBelow(main, q.cfg.stream, s.live, q.writeOffset) && Survives(main, q.cfg.stream, s.live)
    requires SurvivesBelow(dead, q.dlq.cfg.stream, s.dead, q.dlq.writeOffset)
    requires Survives(dead, q.dlq.cfg.stream, s.dead)
    ensures fresh(next) && Ready(next) && fresh(next.dlq) && next.cfg == q.cfg && next.dlq.cfg == q.dlq.cfg
    ensures next.writeOffset <= q.writeOffset && next.dlq.writeOffset <= q.dlq.writeOffset
    ensures next.Both() == s
  {
    var nextDead := new BadgerQueue(q.dlq.cfg, q.dlq.dlq, dead);
    next := new BadgerQueue(q.cfg, nextDead, main);
  }

  /** Every run of operations, moves and crashes takes the two queues on disk exactly where it
      takes the pair of FIFO sequences, as long as the 64-bit offsets last. */
  method ReplayPair(q: BadgerQueue, evs: seq<Pair.Event>) returns (last: BadgerQueue)
    requires Ready(q) && q.writeOffset + |evs| <= MAX_UINT64 && q.dlq.writeOffset + |evs| <= MAX_UINT64
    requires Pair.IsRun(q.Setup(), q.Both(), evs)
    modifies q, q.dlq
    ensures Ready(last) && last.cfg == q.cfg && last.dlq.cfg == q.dlq.cfg
    ensures last.Both() == Pair.Run(q.Setup(), old(q.Both()), evs)
    ensures Pair.Balanced(old(Pair.Events(q.Both())), Pair.Account(q.Setup(), old(q.Both()), evs),
                          Pair.Events(last.Both()))
  {
    last := q;
    ghost var c, s := q.Setup(), q.Both();
    for i := 0 to |evs|
      invariant (last == q && last.dlq == q.dlq) || (fresh(last) && fresh(last.dlq))
      invariant Ready(last) && last.cfg == q.cfg && last.dlq.cfg == q.dlq.cfg
      invariant last.writeOffset <= old(q.writeOffset) + i && last.dlq.writeOffset <= old(q.dlq.writeOffset) + i
      invariant Pair.IsRun(c, last.Both(), evs[i..])
      invariant Pair.Run(c, last.Both(), evs[i..]) == Pair.Run(c, s, evs)
    {
      assert evs[i..][0] == evs[i] && evs[i..][1..] == evs[i + 1..];
      last := HappenToPair(last, evs[i]);
    }
    Pair.RunAccounts(c, s, evs);
  }
}
