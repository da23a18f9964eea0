/** Whole runs of the disk-backed queue itself, with a crash and a restart between any two of
    its transactions: they are runs of the plain FIFO queue. */
module QueueRuns {
  import opened KeyCodec
  import opened DiskImage
  import opened DurableQueue
  import Fifo = FifoQueue

  /** Acknowledging the first `count` items is committing the last of their offsets. */
  method Perform(q: BadgerQueue, op: Fifo.Op<Item>)
    requires q.Valid() && !q.closed && q.writeOffset < MAX_UINT64
    requires Fifo.Legal(q.Contents, op)
    modifies q
    ensures q.Valid() && !q.closed && old(q.writeOffset) <= q.writeOffset <= old(q.writeOffset) + 1
    ensures Went(q.cfg, old(q.Contents), old(q.trail), op, q.Contents, q.trail, q.writeOffset)
  {
    match op {
      case Enqueue(x, dropOk, writeOk) =>
        var res := q.Enqueue(x.data, x.enqueuedAt, dropOk, writeOk);
      case Commit(count, ok) =>
        if count > 0 {
          var res := q.Commit(q.readOffset + count - 1, ok);
        }
    }
  }

  /** An enqueue on an intact queue, case by case and in numbers. */
  method EnqueueInNumbers(q: BadgerQueue, data: Payload, now: int, dropOk: bool, writeOk: bool) returns (res: Outcome)
    requires q.Valid() && !q.closed && q.writeOffset < MAX_UINT64
    modifies q
    ensures q.Valid()
    ensures var live := old(q.Contents);
            var full := |live| >= q.cfg.maxEvents || |live| * 500 >= q.cfg.maxBytes;
            var added := if writeOk then [Item(data, now)] else [];
            && (full && q.cfg.dropPolicy == RejectNew ==> res == QueueFull && q.Contents == live)
            && (full && q.cfg.dropPolicy == DropOldest && !dropOk ==> res == StoreFailed && q.Contents == live)
            && (full && q.cfg.dropPolicy == DropOldest && dropOk ==> q.Contents == live[1..] + added)
            && (!full ==> q.Contents == live + added)
            && (res == Ok <==> writeOk && (full ==> q.cfg.dropPolicy == DropOldest && dropOk))
  {
    Fifo.EnqueueIs(q.cfg.Limits(), q.Contents, Item(data, now), dropOk, writeOk);
    res := q.Enqueue(data, now, dropOk, writeOk);
  }

  /** One event: the operation returns, or the process dies after `at` transactions and a new
      queue is opened on the disk as it was then. */
  method Happen(q: BadgerQueue, ev: Fifo.Event<Item>) returns (next: BadgerQueue)
    requires q.Valid() && !q.closed && q.writeOffset < MAX_UINT64
    requires Fifo.Possible(q.cfg.Limits(), q.Contents, ev)
    modifies q
    ensures next == q || fresh(next)
    ensures next.Valid() && !next.closed && next.cfg == q.cfg && next.writeOffset <= old(q.writeOffset) + 1
    ensures next.Contents == Fifo.Next(q.cfg.Limits(), old(q.Contents), ev)
  {
    ghost var live, w := q.Contents, q.writeOffset;
    var before, transactions := q.disk, |q.trail|;
    ghost var b := Fifo.Boundaries(q.cfg.Limits(), live, ev.op);
    assert SurvivesBelow(before, q.cfg.stream, live, w);
    Perform(q, ev.op);
    if ev.Done? { return q; }
    StillBelow(before, q.cfg.stream, live, w, q.writeOffset);
    CrashSurvives(before, old(q.trail), q.trail, q.cfg.stream, b, ev.at, q.writeOffset);
    next := new BadgerQueue(q.cfg, q.dlq, DiskAt(before, q.trail, transactions, ev.at));
  }

  /** The disk after `at` transactions, when there had been `transactions` of them before. */
  function DiskAt(before: Disk, trail: seq<Disk>, transactions: nat, at: nat): Disk
    requires transactions + at <= |trail|
  {
    if at == 0 then before else trail[transactions + at - 1]
  }

  lemma CrashSurvives(disk: Disk, before: seq<Disk>, after: seq<Disk>, stream: Stream, b: seq<seq<Item>>, at: nat,
                      w: Uint64)
    requires b != [] && SurvivesBelow(disk, stream, b[0], w)
    requires Passes(before, after, stream, b, w) && at < |b|
    ensures |before| + at <= |after|
    ensures var surviving := DiskAt(disk, after, |before|, at);
            SurvivesBelow(surviving, stream, b[at], w) && Survives(surviving, stream, b[at])
  {
    if at > 0 {
      assert after[|before| + at - 1] == after[|before|..][at - 1];
    }
    SurvivingSurvives(DiskAt(disk, after, |before|, at), stream, b[at], w);
  }

  lemma StillBelow(disk: Disk, stream: Stream, live: seq<Item>, w: Uint64, w': Uint64)
    requires SurvivesBelow(disk, stream, live, w) && w <= w'
    ensures SurvivesBelow(disk, stream, live, w')
  {
  }

  lemma SurvivingSurvives(disk: Disk, stream: Stream, live: seq<Item>, w: Uint64)
    requires SurvivesBelow(disk, stream, live, w)
    ensures Survives(disk, stream, live)
  {
  }

  /** Every run of operations and crashes takes the queue on disk exactly where it takes the
      FIFO sequence, as long as the 64-bit offsets last. */
  method Replay(q: BadgerQueue, evs: seq<Fifo.Event<Item>>) returns (last: BadgerQueue)
    requires q.Valid() && !q.closed && q.writeOffset + |evs| <= MAX_UINT64
    requires Fifo.IsRun(q.cfg.Limits(), q.Contents, evs)
    modifies q
    ensures last.Valid() && last.cfg == q.cfg
    ensures last.Contents == Fifo.Run(q.cfg.Limits(), old(q.Contents), evs)
    ensures |last.Contents| <= |old(q.Contents)|
         || (|last.Contents| <= q.cfg.maxEvents && |last.Contents| <= (q.cfg.maxBytes + 499) / 500)
  {
    last := q;
    ghost var limits := q.cfg.Limits();
    for i := 0 to |evs|
      invariant last == q || fresh(last)
      invariant last.Valid() && !last.closed && last.cfg == q.cfg
      invariant last.writeOffset <= old(q.writeOffset) + i
      invariant Fifo.IsRun(limits, last.Contents, evs[i..])
      invariant Fifo.Run(limits, last.Contents, evs[i..]) == Fifo.Run(limits, old(q.Contents), evs)
    {
      assert evs[i..][0] == evs[i] && evs[i..][1..] == evs[i + 1..];
      last := Happen(last, evs[i]);
    }
    Fifo.RunKeepsLimits(limits, old(q.Contents), evs);
  }
}
