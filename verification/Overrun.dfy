/** The disk-backed queue under any acknowledgements, those beyond the last item included, with a
    crash and a restart between any two of its transactions: it runs as the offset log does. */
module Overrun {
  import opened KeyCodec
  import opened DiskImage
  import opened DurableQueue
  import opened LogOnDisk
  import Fifo = FifoQueue
  import L = OffsetLog
  import Runs = QueueRuns

  ghost predicate Shows(q: BadgerQueue, s: L.Log)
    reads q
  {
    && !q.closed && q.cfg.Limits().Positive() && L.Fits(s)
    && Lists(q.disk, q.cfg.stream, s.items) && q.readOffset == s.r && q.writeOffset == s.w
  }

  /** The disks after successive transactions list the items of successive boundaries. */
  ghost predicate Passed(before: seq<Disk>, after: seq<Disk>, stream: Stream, b: seq<L.Log>) {
    && before <= after && |after| + 1 == |before| + |b|
    && forall i :: |before| <= i < |after| ==> Lists(after[i], stream, b[i - |before| + 1].items)
  }

  ghost function LogOf(q: BadgerQueue): L.Log
    requires q.Valid()
    reads q
  {
    L.Log(Numbered(q.Contents, q.readOffset, |q.Contents|), q.readOffset, q.writeOffset)
  }

  /** An intact queue shows the log of consecutive offsets between its read and write offset. */
  lemma ValidShows(q: BadgerQueue)
    requires q.Valid() && !q.closed
    ensures Shows(q, LogOf(q)) && L.Consecutive(LogOf(q).items)
  {
    HoldsLists(q.disk, q.cfg.stream, q.readOffset, q.Contents);
  }

  lemma HoldsLists(disk: Disk, stream: Stream, r: Uint64, live: seq<Item>)
    requires Holds(disk, stream, r, live)
    ensures Lists(disk, stream, Numbered(live, r, |live|))
  {
    var items := Numbered(live, r, |live|);
    forall o: Uint64 | FormatKey(stream, o) in disk ensures HasOffset(items, o) {
      assert items[o - r].offset == o;
    }
    forall x | x in items ensures Stores(disk, stream, x) {
      KeyHolds(disk, stream, r, live, x.offset - r);
    }
  }

  method Perform(q: BadgerQueue, op: L.Op, ghost s: L.Log)
    requires Shows(q, s) && L.Legal(s, op)
    modifies q
    ensures Shows(q, L.After(q.cfg.Limits(), s, op))
    ensures Passed(old(q.trail), q.trail, q.cfg.stream, L.Boundaries(q.cfg.Limits(), s, op))
  {
    L.AfterIs(q.cfg.Limits(), s, op);
    match op {
      case Enqueue(x, dropOk, writeOk) =>
        Put(q, x, dropOk, writeOk, s);
      case Commit(offset, ok) =>
        Acknowledge(q, offset, ok, s);
    }
  }

  method Put(q: BadgerQueue, x: Item, dropOk: bool, writeOk: bool, ghost s: L.Log)
    requires Shows(q, s) && s.w < MAX_UINT64
    requires L.Fits(L.AfterRemoval(q.cfg.Limits(), s, L.Enqueue(x, dropOk, writeOk)))
    requires L.Fits(L.After(q.cfg.Limits(), s, L.Enqueue(x, dropOk, writeOk)))
    modifies q
    ensures Shows(q, L.After(q.cfg.Limits(), s, L.Enqueue(x, dropOk, writeOk)))
    ensures Passed(old(q.trail), q.trail, q.cfg.stream,
                   L.Boundaries(q.cfg.Limits(), s, L.Enqueue(x, dropOk, writeOk)))
  {
    assert q.AtCapacity() == Fifo.Full(q.cfg.Limits(), s.Depth());
    EnqueuePasses(q.cfg.Limits(), q.cfg.stream, q.disk, q.Room(dropOk), q.trail, s, x, dropOk, writeOk);
    var res := q.Enqueue(x.data, x.enqueuedAt, dropOk, writeOk);
  }

  lemma EnqueuePasses(limits: Fifo.Limits, stream: Stream, disk: Disk, room: Disk, trail: seq<Disk>, s: L.Log,
                      x: Item, dropOk: bool, writeOk: bool)
    requires Lists(disk, stream, s.items) && s.w < MAX_UINT64
    requires L.Fits(L.AfterRemoval(limits, s, L.Enqueue(x, dropOk, writeOk)))
    requires room == if L.Evicts(limits, s, L.Enqueue(x, dropOk, writeOk)) then disk - {FormatKey(stream, s.r)}
                     else disk
    ensures var op, written := L.Enqueue(x, dropOk, writeOk), room[FormatKey(stream, s.w) := x];
            && Lists(if L.Writes(limits, s, op) then written else room, stream, L.After(limits, s, op).items)
            && Passed(trail, trail + (if L.Evicts(limits, s, op) then [room] else [])
                             + (if L.Writes(limits, s, op) then [written] else []),
                      stream, L.Boundaries(limits, s, op))
  {
    EraseRemoves(disk, stream, s.items, s.r);
    WriteAppends(room, stream, L.AfterRemoval(limits, s, L.Enqueue(x, dropOk, writeOk)).items, s.w, x);
  }

  method Acknowledge(q: BadgerQueue, offset: Uint64, ok: bool, ghost s: L.Log)
    requires Shows(q, s) && offset < MAX_UINT64
    requires L.Fits(L.After(q.cfg.Limits(), s, L.Commit(offset, ok)))
    modifies q
    ensures Shows(q, L.After(q.cfg.Limits(), s, L.Commit(offset, ok)))
    ensures Passed(old(q.trail), q.trail, q.cfg.stream, L.Boundaries(q.cfg.Limits(), s, L.Commit(offset, ok)))
  {
    ClearRemoves(q.disk, q.cfg.stream, s.items, q.readOffset, CountUpTo(q.readOffset, offset));
    var res := q.Commit(offset, ok);
  }

  /** A reader sees the first items from the read offset on, across any holes. */
  method Read(q: BadgerQueue, batchSize: nat, ghost s: L.Log) returns (items: seq<QueueItem>)
    requires Shows(q, s) && batchSize > 0
    modifies q
    ensures Shows(q, s) && q.disk == old(q.disk)
    ensures items == First(L.From(s.items, s.r), batchSize)
  {
    BatchIsFirst(q.disk, q.cfg.stream, s.items, s.r, s.w, batchSize);
    var res;
    res, items := q.DequeueBatch(batchSize, true);
  }

  /** A restart always finds every item on disk, whatever was hidden or torn before; the queue it
      opens is intact exactly if their offsets are consecutive. */
  method Reopen(q: BadgerQueue, disk: Disk, ghost s: L.Log) returns (next: BadgerQueue)
    requires q.cfg.Limits().Positive() && Lists(disk, q.cfg.stream, s.items) && L.Fits(s)
    ensures fresh(next) && next.cfg == q.cfg && Shows(next, L.Reopened(s))
    ensures L.From(s.items, next.readOffset) == s.items
    ensures next.Valid() <==> L.Consecutive(s.items)
    ensures next.Valid() ==> next.Contents == Contents(s.items)
  {
    L.ReopenedFits(s);
    L.RestartShowsAll(s);
    HoldsIff(disk, q.cfg.stream, s.items);
    next := new BadgerQueue(q.cfg, q.dlq, disk);
    RecoversReopened(disk, q.cfg.stream, s, next.readOffset, next.writeOffset);
    if L.Consecutive(s.items) { ConsecutiveHolds(disk, q.cfg.stream, s.items); }
    assert next.Valid() ==> Survives(disk, q.cfg.stream, next.Contents);
  }

  method ReadThenReopen(q: BadgerQueue, batchSize: nat, ghost s: L.Log)
    returns (items: seq<QueueItem>, reopened: BadgerQueue)
    requires Shows(q, s) && batchSize > 0
    modifies q
    ensures items == First(L.From(s.items, s.r), batchSize)
    ensures fresh(reopened) && Shows(reopened, L.Reopened(s)) && L.From(s.items, reopened.readOffset) == s.items
    ensures reopened.Valid() <==> L.Consecutive(s.items)
    ensures reopened.Valid() ==> reopened.Contents == Contents(s.items)
  {
    items := Read(q, batchSize, s);
    reopened := Reopen(q, q.disk, s);
  }

  // ----- whole runs ---------------------------------------------------------------------

  /** One event: the operation returns, or the process dies after `at` transactions and a new
      queue is opened on the disk as it was then. */
  method Happen(q: BadgerQueue, ev: L.Event, ghost s: L.Log) returns (next: BadgerQueue)
    requires Shows(q, s) && L.Possible(q.cfg.Limits(), s, ev)
    modifies q
    ensures next == q || fresh(next)
    ensures next.cfg == q.cfg && Shows(next, L.Next(q.cfg.Limits(), s, ev))
  {
    var before, transactions := q.disk, |q.trail|;
    ghost var b := L.Boundaries(q.cfg.Limits(), s, ev.op);
    Perform(q, ev.op, s);
    if ev.Done? { return q; }
    L.CrashIs(q.cfg.Limits(), s, ev.op, ev.at);
    next := Reopen(q, Runs.DiskAt(before, q.trail, transactions, ev.at), b[ev.at]);
  }

  /** Every run, whatever it commits and wherever it crashes, takes the queue on disk where it
      takes the offset log: the items on disk were there or were written, in that order and each
      once, and the rest were removed at or behind the read offset of the time. */
  method Replay(q: BadgerQueue, evs: seq<L.Event>, ghost s: L.Log) returns (last: BadgerQueue)
    requires Shows(q, s) && L.IsRun(q.cfg.Limits(), s, evs)
    modifies q
    ensures var limits := q.cfg.Limits();
            var all := s.items + L.Written(limits, s, evs);
            && Shows(last, L.Run(limits, s, evs))
            && L.IsSubsequence(L.Run(limits, s, evs).items, all)
            && multiset(L.Run(limits, s, evs).items) + multiset(L.Removed(limits, s, evs)) == multiset(all)
  {
    last := q;
    ghost var limits, now := q.cfg.Limits(), s;
    for i := 0 to |evs|
      invariant last == q || fresh(last)
      invariant last.cfg == q.cfg && Shows(last, now)
      invariant L.IsRun(limits, now, evs[i..])
      invariant L.Run(limits, now, evs[i..]) == L.Run(limits, s, evs)
    {
      assert evs[i..][0] == evs[i] && evs[i..][1..] == evs[i + 1..];
      last := Happen(last, evs[i], now);
      now := L.Next(limits, now, evs[i]);
    }
    L.RunConserves(limits, s, evs);
  }

  // ----- committed beyond the end -------------------------------------------------------

  method CommitPast(q: BadgerQueue, offset: Uint64)
    requires q.Valid() && !q.closed && q.writeOffset <= offset < MAX_UINT64
    modifies q
    ensures Shows(q, L.Log([], offset + 1, old(q.writeOffset)))
  {
    ValidShows(q);
    PastTheEnd(q.cfg.Limits(), q.Contents, q.readOffset, offset);
    Perform(q, L.Commit(offset, true), LogOf(q));
  }

  lemma PastTheEnd(limits: Fifo.Limits, live: seq<Item>, r: Uint64, offset: Uint64)
    requires r + |live| <= offset < MAX_UINT64
    ensures L.After(limits, L.Log(Numbered(live, r, |live|), r, r + |live|), L.Commit(offset, true))
            == L.Log([], offset + 1, r + |live|)
  {
    L.AllGone(Numbered(live, r, |live|), r, offset + 1);
  }

  method Offer(q: BadgerQueue, xs: seq<Item>, ghost w: Uint64, ghost r: Uint64, ghost all: seq<QueueItem>)
    requires w <= r && L.IsNumbered(all, xs, w) && Shows(q, L.Log([], r, w))
    modifies q
    ensures q.cfg.Limits().Positive() && Shows(q, L.Overcommitted(q.cfg.Limits(), w, r, all, |xs|))
  {
    ghost var limits := q.cfg.Limits();
    L.NothingOffered(limits, w, r, all);
    for i := 0 to |xs|
      invariant Shows(q, L.Overcommitted(limits, w, r, all, i))
    {
      L.OvercommittedStep(limits, w, r, all, xs, i);
      Perform(q, L.Enqueue(xs[i], true, true), L.Overcommitted(limits, w, r, all, i));
    }
  }

  /** Commits at an offset that was never handed out, then offers items, numbered from the write
      offset on: the queue takes them at these offsets, those before the committed one unseen by
      readers. A restart finds all that are left; the queue it opens is intact exactly if none
      was evicted to make room. */
  method CommitTooFar(q: BadgerQueue, offset: Uint64, xs: seq<Item>, batchSize: nat, ghost all: seq<QueueItem>)
    returns (items: seq<QueueItem>, reopened: BadgerQueue, ghost s: L.Log)
    requires q.Valid() && !q.closed && batchSize > 0
    requires q.writeOffset <= offset < MAX_UINT64 && L.IsNumbered(all, xs, q.writeOffset)
    modifies q
    ensures s == L.Overcommitted(q.cfg.Limits(), old(q.writeOffset), offset + 1, all, |xs|)
    ensures items == First(L.From(s.items, s.r), batchSize)
    ensures fresh(reopened) && Shows(reopened, L.Reopened(s)) && L.From(s.items, reopened.readOffset) == s.items
    ensures reopened.Valid()
       <==> q.cfg.dropPolicy == RejectNew || |xs| <= L.Places(q.cfg.Limits(), old(q.writeOffset), offset + 1)
    ensures reopened.Valid() ==> reopened.Contents == Contents(s.items)
  {
    ghost var w, r: Uint64 := q.writeOffset, offset + 1;
    CommitPast(q, offset);
    Offer(q, xs, w, r, all);
    L.OvercommittedIntactIff(q.cfg.Limits(), w, r, all, xs);
    s := L.Overcommitted(q.cfg.Limits(), w, r, all, |xs|);
    items, reopened := ReadThenReopen(q, batchSize, s);
  }
}
