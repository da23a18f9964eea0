/** The disk-backed queue: two volatile offsets over the store's ordered keys. Every disk
    transaction may fail without effect; the parameters named `...Ok` say which ones succeed. */
module DurableQueue {
  import opened Lexicographic
  import opened KeyCodec
  import opened DiskImage
  import Fifo = FifoQueue
  import Pair = TwoQueues

  datatype DropPolicy = DropOldest | RejectNew

  datatype Config = Config(stream: Stream, maxBytes: int, maxEvents: int, dropPolicy: DropPolicy) {
    /** The defaults that opening a queue fills in. */
    function WithDefaults(): Config {
      this.(maxBytes := if maxBytes <= 0 then 1024 * 1024 * 1024 else maxBytes,
            maxEvents := if maxEvents <= 0 then 100000 else maxEvents)
    }

    function Limits(): Fifo.Limits {
      Fifo.Limits(maxBytes, maxEvents, dropPolicy == RejectNew)
    }
  }

  datatype Outcome =
    | Ok
    | QueueClosed
    | QueueFull
    | InvalidOffset
    | StoreFailed          // a transaction of this queue failed
    | NoDLQ
    | AlreadyInDLQ
    | DLQRejected(why: Outcome)
    | NotFound
    | OffsetMismatch
    | Malformed

  /** A queue went from one state to another through the boundaries of `op`, with a disk for
      each of them. */
  ghost predicate Went(cfg: Config, live: seq<Item>, trail: seq<Disk>, op: Fifo.Op<Item>,
                       live': seq<Item>, trail': seq<Disk>, w: Uint64)
    requires cfg.Limits().Positive() && Fifo.Legal(live, op)
  {
    && live' == Fifo.After(cfg.Limits(), live, op)
    && Passes(trail, trail', cfg.stream, Fifo.Boundaries(cfg.Limits(), live, op), w)
  }

  class BadgerQueue {
    const cfg: Config
    const dlq: BadgerQueue?
    var disk: Disk
    var readOffset: Uint64
    var writeOffset: Uint64
    var droppedCount: nat
    var enqueuedCount: nat
    var dequeuedCount: nat
    var committedCount: nat
    var closed: bool

    ghost var Contents: seq<Item>   // the queued items, oldest first
    ghost const depthAtOpen: nat
    var trail: seq<Disk>         // history: the disk after each transaction, where a crash may fall

    ghost predicate Valid()
      reads this
    {
      && Holds(disk, cfg.stream, readOffset, Contents)
      && writeOffset == readOffset + |Contents|
      && cfg.Limits().Positive()
      && dlq != this
      && depthAtOpen + enqueuedCount == droppedCount + committedCount + |Contents|
    }

    /** `NewBadgerQueue` on a disk that an earlier run left behind. */
    constructor (config: Config, deadLetters: BadgerQueue?, surviving: Disk)
      ensures cfg == config.WithDefaults() && dlq == deadLetters && disk == surviving
      ensures cfg.stream == config.stream && cfg.dropPolicy == config.dropPolicy
      ensures cfg.maxEvents == (if config.maxEvents <= 0 then 100000 else config.maxEvents)
      ensures cfg.maxBytes == (if config.maxBytes <= 0 then 1073741824 else config.maxBytes)
      ensures RecoveredAs(surviving, config.stream, readOffset, writeOffset)
      ensures !closed && trail == []
      ensures droppedCount == enqueuedCount == dequeuedCount == committedCount == 0
      ensures forall live :: Survives(surviving, config.stream, live) ==> Valid() && Contents == live
      ensures forall live, w: Uint64 :: SurvivesBelow(surviving, config.stream, live, w) ==> writeOffset <= w
    {
      cfg := config.WithDefaults();
      dlq := deadLetters;
      disk := surviving;
      droppedCount, enqueuedCount, dequeuedCount, committedCount := 0, 0, 0, 0;
      closed := false;
      trail := [];
      var r, w := Recover(surviving, config.stream);
      readOffset, writeOffset := r, w;
      depthAtOpen := if w < r then 0 else w - r;
      Contents := [];
      new;
      if live: seq<Item> :| Survives(surviving, config.stream, live) {
        Contents := live;
      }
      forall live | Survives(surviving, config.stream, live) ensures Valid() && Contents == live {
        SurvivesOnce(surviving, config.stream, r, w, live, Contents);
      }
      forall live, max: Uint64 | SurvivesBelow(surviving, config.stream, live, max) ensures w <= max {
        var r0: Uint64 :| Holds(surviving, config.stream, r0, live) && r0 + |live| <= max;
        RecoveryIsFaithful(surviving, config.stream, r0, live, r, w);
      }
    }

    function Depth(): nat
      reads this
    {
      if writeOffset <= readOffset then 0 else writeOffset - readOffset
    }

    function BytesUsed(): nat
      reads this
    {
      Depth() * Fifo.AVG_ITEM_SIZE
    }

    /** `checkCapacity`: whether either limit is reached. */
    predicate AtCapacity()
      reads this
    {
      Depth() >= cfg.maxEvents || BytesUsed() >= cfg.maxBytes
    }

    lemma CapacityInNumbers()
      ensures var depth := if writeOffset <= readOffset then 0 else writeOffset - readOffset;
              && depth == Depth()
              && (AtCapacity() <==> depth >= cfg.maxEvents || depth * 500 >= cfg.maxBytes)
    {
    }

    method DropOldestItem(txnOk: bool) returns (res: Outcome)
      modifies `disk, `Contents, `readOffset, `droppedCount, `trail
      ensures res == if old(Depth()) > 0 && !txnOk then StoreFailed else Ok
      ensures old(Depth()) == 0 || !txnOk ==> unchanged(this)
      ensures old(Depth()) > 0 && txnOk ==>
                && disk == old(disk) - {FormatKey(cfg.stream, old(readOffset))}
                && trail == old(trail) + [disk]
                && readOffset == old(readOffset) + 1
                && droppedCount == old(droppedCount) + 1
      ensures SameElsewhere(old(disk), disk, cfg.stream)
      ensures old(Valid()) ==> Valid()
      ensures old(Valid()) && old(Contents) != [] && txnOk ==>
                && Contents == old(Contents)[1..]
                && Passes(old(trail), trail, cfg.stream, [old(Contents), Contents], writeOffset)
    {
      if readOffset >= writeOffset { return Ok; }
      if !txnOk { return StoreFailed; }
      EraseHead(disk, cfg.stream, readOffset, Contents);
      disk := disk - {FormatKey(cfg.stream, readOffset)};
      trail := trail + [disk];
      Contents := if Contents == [] then [] else Contents[1..];
      readOffset := readOffset + 1;
      droppedCount := droppedCount + 1;
      return Ok;
    }

    /** On an intact queue, an enqueue runs through the boundaries of the FIFO queue's enqueue
        and ends at the last one, unless it takes the last 64-bit offset: then the write
        offset wraps to 0 and the queue is no longer intact. On any queue it removes the key at
        the read offset, if it has to make room, and writes the one at the write offset. */
    method Enqueue(data: Payload, now: int, dropOk: bool, writeOk: bool) returns (res: Outcome)
      modifies `disk, `Contents, `readOffset, `writeOffset, `droppedCount, `enqueuedCount, `trail
      ensures res == if closed then QueueClosed
                     else if old(AtCapacity()) && cfg.dropPolicy == RejectNew then QueueFull
                     else if writeOk && (old(AtCapacity()) && old(Depth()) > 0 ==> dropOk) then Ok
                     else StoreFailed
      ensures var depth := if old(writeOffset) <= old(readOffset) then 0 else old(writeOffset) - old(readOffset);
              var full := depth >= cfg.maxEvents || depth * 500 >= cfg.maxBytes;
              && (res == QueueFull <==> !closed && cfg.dropPolicy == RejectNew && full)
              && (readOffset != old(readOffset) <==>
                    !closed && cfg.dropPolicy == DropOldest && full && depth > 0 && dropOk)
      ensures res == QueueClosed || res == QueueFull ==> unchanged(this)
      ensures writeOffset == if res == Ok then Successor(old(writeOffset)) else old(writeOffset)
      ensures enqueuedCount == old(enqueuedCount) + (if res == Ok then 1 else 0)
      ensures SameElsewhere(old(disk), disk, cfg.stream)
      ensures old(trail) <= trail
      ensures !closed ==>
                && readOffset == old(readOffset) + (if old(Evicts(dropOk)) then 1 else 0)
                && disk == (if res == Ok
                            then old(Room(dropOk))[FormatKey(cfg.stream, old(writeOffset)) := Item(data, now)]
                            else old(Room(dropOk)))
                && trail == old(trail) + (if old(Evicts(dropOk)) then [old(Room(dropOk))] else [])
                            + (if res == Ok then [disk] else [])
      ensures old(Valid()) ==> (Valid() <==> !(res == Ok && old(writeOffset) == MAX_UINT64))
      ensures old(Valid()) && Valid() && !closed ==>
                var op := Fifo.Enqueue(Item(data, now), dropOk, writeOk);
                && Contents == Fifo.After(cfg.Limits(), old(Contents), op)
                && Passes(old(trail), trail, cfg.stream, Fifo.Boundaries(cfg.Limits(), old(Contents), op), writeOffset)
                && (res == Ok ==> EndsIn(Contents, Item(data, now)))
    {
      CapacityInNumbers();
      if closed { return QueueClosed; }
      res := MakeRoom(dropOk);
      if res != Ok { return; }
      ghost var between := trail;
      res := Write(Item(data, now), writeOk);
      assert trail == between + trail[|between|..];
    }

    /** Whether an enqueue removes the oldest item to make room. */
    predicate Evicts(dropOk: bool)
      reads this
    {
      AtCapacity() && cfg.dropPolicy == DropOldest && Depth() > 0 && dropOk
    }

    /** The disk with room for one more item. */
    function Room(dropOk: bool): Disk
      reads this
    {
      if Evicts(dropOk) then disk - {FormatKey(cfg.stream, readOffset)} else disk
    }

    /** The first half of an enqueue. */
    method MakeRoom(dropOk: bool) returns (res: Outcome)
      modifies `disk, `Contents, `readOffset, `droppedCount, `trail
      ensures res == if !old(AtCapacity()) then Ok
                     else if cfg.dropPolicy == RejectNew then QueueFull
                     else if old(Depth()) > 0 && !dropOk then StoreFailed
                     else Ok
      ensures !old(Evicts(dropOk)) ==> unchanged(this)
      ensures disk == old(Room(dropOk))
      ensures old(Evicts(dropOk)) ==>
                && trail == old(trail) + [disk]
                && readOffset == old(readOffset) + 1
      ensures SameElsewhere(old(disk), disk, cfg.stream)
      ensures old(Valid()) ==> Valid()
      ensures old(Valid()) && old(Evicts(dropOk)) ==>
                && Contents == old(Contents)[1..]
                && Passes(old(trail), trail, cfg.stream, [old(Contents), Contents], writeOffset)
    {
      if !AtCapacity() { return Ok; }
      if cfg.dropPolicy == RejectNew { return QueueFull; }
      res := DropOldestItem(dropOk);
    }

    /** The second half of an enqueue: takes the next offset, gives it back if the write fails. */
    method Write(item: Item, writeOk: bool) returns (res: Outcome)
      modifies `disk, `Contents, `writeOffset, `enqueuedCount, `trail
      ensures res == if writeOk then Ok else StoreFailed
      ensures !writeOk ==> unchanged(this)
      ensures writeOk ==>
                && disk == old(disk)[FormatKey(cfg.stream, old(writeOffset)) := item]
                && trail == old(trail) + [disk]
                && writeOffset == Successor(old(writeOffset))
                && enqueuedCount == old(enqueuedCount) + 1
      ensures SameElsewhere(old(disk), disk, cfg.stream)
      ensures old(Valid()) ==> (Valid() <==> !(writeOk && old(writeOffset) == MAX_UINT64))
      ensures old(Valid()) && Valid() && writeOk ==>
                && Contents == old(Contents) + [item]
                && Passes(old(trail), trail, cfg.stream, [old(Contents), Contents], writeOffset)
    {
      var offset := writeOffset;
      writeOffset := Successor(offset);
      if !writeOk {
        writeOffset := if writeOffset == 0 then MAX_UINT64 else writeOffset - 1;
        return StoreFailed;
      }
      var key := FormatKey(cfg.stream, offset);
      PutAppends(disk, cfg.stream, readOffset, Contents, offset, item);
      disk, Contents := disk[key := item], Contents + [item];
      trail := trail + [disk];
      enqueuedCount := enqueuedCount + 1;
      return Ok;
    }

    /** Reads from the front without removing: the same items come back until they are
        committed or dropped. */
    method DequeueBatch(batchSize: int, viewOk: bool) returns (res: Outcome, items: seq<QueueItem>)
      modifies `dequeuedCount
      ensures res == if batchSize > 0 && !viewOk then StoreFailed else Ok
      ensures batchSize <= 0 || !viewOk || readOffset >= writeOffset ==> items == []
      ensures |items| <= batchSize || items == []
      ensures dequeuedCount == old(dequeuedCount) + |items|
      ensures Valid() <==> old(Valid())
      ensures batchSize > 0 && viewOk ==>
                items == Batch(disk, cfg.stream, readOffset, writeOffset, batchSize)
      ensures Valid() && batchSize > 0 && viewOk ==>
                && items == Numbered(Contents, readOffset, Min(batchSize, |Contents|))
                && |items| == (if batchSize <= |Contents| then batchSize else |Contents|)
                && forall i :: 0 <= i < |items| ==>
                     items[i] == QueueItem(readOffset + i, Contents[i].data, Contents[i].enqueuedAt)
    {
      if batchSize <= 0 { return Ok, []; }
      if !viewOk { return StoreFailed, []; }
      items := ReadBatch(disk, cfg.stream, readOffset, writeOffset, batchSize);
      dequeuedCount := dequeuedCount + |items|;
      if Valid() {
        BatchOfIntact(disk, cfg.stream, readOffset, Contents, batchSize);
      }
      return Ok, items;
    }

    /** Acknowledges everything up to and including `offset`. The queue stays intact exactly
        when that offset had been handed out: only the lower bound is checked. */
    method Commit(offset: Uint64, txnOk: bool) returns (res: Outcome)
      requires offset < MAX_UINT64
      modifies `disk, `Contents, `readOffset, `committedCount, `trail
      ensures res == if offset < old(readOffset) then InvalidOffset else if txnOk then Ok else StoreFailed
      ensures res != Ok ==> unchanged(this)
      ensures res == Ok ==>
                && disk == Cleared(old(disk), cfg.stream, old(readOffset), CountUpTo(old(readOffset), offset))
                && trail == old(trail) + [disk]
                && readOffset == offset + 1
                && committedCount == old(committedCount) + CountUpTo(old(readOffset), offset)
      ensures old(Valid()) ==> (Valid() <==> res != Ok || offset < old(writeOffset))
      ensures old(Valid()) && res == Ok && offset < old(writeOffset) ==>
                && Contents == old(Contents)[offset + 1 - old(readOffset)..]
                && Passes(old(trail), trail, cfg.stream, [old(Contents), Contents], writeOffset)
    {
      if offset < readOffset { return InvalidOffset; }
      var txn := DeleteRange(disk, cfg.stream, readOffset, offset);
      if !txnOk { return StoreFailed; }
      Advance(offset, txn);
      return Ok;
    }

    /** The second half of a commit: the transaction is through and the read offset follows. */
    method Advance(offset: Uint64, txn: Disk)
      requires readOffset <= offset < MAX_UINT64
      requires txn == Cleared(disk, cfg.stream, readOffset, CountUpTo(readOffset, offset))
      modifies `disk, `Contents, `readOffset, `committedCount, `trail
      ensures disk == txn && trail == old(trail) + [txn]
      ensures readOffset == offset + 1
      ensures committedCount == old(committedCount) + CountUpTo(old(readOffset), offset)
      ensures old(Valid()) ==> (Valid() <==> offset < old(writeOffset))
      ensures old(Valid()) && offset < old(writeOffset) ==>
                && Contents == old(Contents)[CountUpTo(old(readOffset), offset)..]
                && Passes(old(trail), trail, cfg.stream, [old(Contents), Contents], writeOffset)
    {
      ghost var n := CountUpTo(readOffset, offset);
      if Valid() && offset < writeOffset {
        ClearDropsPrefix(disk, trail, cfg.stream, readOffset, Contents, n);
        Contents := Contents[n..];
      }
      disk, trail := txn, trail + [txn];
      committedCount := committedCount + (offset - readOffset + 1);
      readOffset := offset + 1;
    }

    /** The queue and its dead-letter queue, as the FIFO pair sees them. */
    function Setup(): Pair.Setup
      requires dlq != null
    {
      Pair.Setup(cfg.stream, cfg.Limits(), dlq.cfg.Limits())
    }

    ghost function Both(): Pair.Both
      requires dlq != null
      reads this, dlq
    {
      Pair.Both(Contents, dlq.Contents)
    }

    function DeadLetter(item: QueueItem, why: Pair.Burial): Item {
      Pair.DeadLetter(cfg.stream, Item(item.data, item.enqueuedAt), why)
    }

    /** The item is queued, at whatever position. */
    ghost predicate IsQueued(item: QueueItem)
      requires Valid()
      reads this
    {
      readOffset <= item.offset < writeOffset
      && Contents[item.offset - readOffset] == Item(item.data, item.enqueuedAt)
    }

    /** Whether the dead-letter queue can take an item now. */
    predicate CanBury(dropOk: bool, writeOk: bool)
      reads this, dlq
    {
      && dlq != null && cfg.stream != STREAM_DLQ && !dlq.closed && writeOk
      && (dlq.AtCapacity() ==> dlq.cfg.dropPolicy == DropOldest && (dlq.Depth() > 0 ==> dropOk))
    }

    ghost predicate PairIntact()
      reads this, dlq
    {
      Valid() && (dlq != null ==> dlq.Valid() && dlq.writeOffset < MAX_UINT64)
    }

    /** Writes the dead letter first and commits the item second, which removes the items queued
        before it as well; a commit that fails is only logged. On intact queues, `points`
        collects the pair of disks after each transaction of either queue: at each of them a
        queued item is still queued or already a dead letter. */
    method MoveToDLQ(item: QueueItem, why: Pair.Burial, dropOk: bool, writeOk: bool, commitOk: bool)
      returns (res: Outcome, ghost points: seq<(Disk, Disk)>)
      requires item.offset < MAX_UINT64 && dlq != this
      modifies this, dlq
      ensures res == Ok <==> old(CanBury(dropOk, writeOk))
      ensures dlq == null ==> res == NoDLQ
      ensures dlq != null && cfg.stream == "dlq" ==> res == AlreadyInDLQ && unchanged(dlq)
      ensures dlq != null && cfg.stream != STREAM_DLQ && res != Ok ==>
                res == DLQRejected(if old(dlq.closed) then QueueClosed
                                   else if old(dlq.AtCapacity()) && dlq.cfg.dropPolicy == RejectNew then QueueFull
                                   else StoreFailed)
      ensures res != Ok || !commitOk || item.offset < old(readOffset) ==> unchanged(this)
      ensures closed == old(closed) && writeOffset == old(writeOffset)
      ensures dlq != null ==> dlq.closed == old(dlq.closed)
      ensures dlq != null && old(dlq.closed) ==> unchanged(dlq)
      ensures dlq != null && cfg.stream != STREAM_DLQ && !old(dlq.closed) ==>
                dlq.disk == if res == Ok
                            then old(dlq.Room(dropOk))[FormatKey(dlq.cfg.stream, old(dlq.writeOffset))
                                                       := DeadLetter(item, why)]
                            else old(dlq.Room(dropOk))
      ensures res == Ok && commitOk && item.offset >= old(readOffset) ==>
                && disk == Cleared(old(disk), cfg.stream, old(readOffset), CountUpTo(old(readOffset), item.offset))
                && readOffset == item.offset + 1
      ensures dlq != null ==> old(dlq.trail) <= dlq.trail
      ensures res == Ok ==>
                points == Points(old(disk), old(dlq.disk), dlq.trail[|old(dlq.trail)|..], (disk, dlq.disk))
      ensures old(PairIntact()) && dlq != null ==> dlq.Valid()
      ensures old(PairIntact()) && dlq != null ==>
                old(dlq.writeOffset) <= dlq.writeOffset <= old(dlq.writeOffset) + 1
      ensures old(PairIntact()) && dlq != null && cfg.stream != STREAM_DLQ && !old(dlq.closed) ==>
                var op := Fifo.Enqueue(DeadLetter(item, why), dropOk, writeOk);
                Went(dlq.cfg, old(dlq.Contents), old(dlq.trail), op, dlq.Contents, dlq.trail, dlq.writeOffset)
      ensures old(PairIntact()) ==> (Valid() <==> res != Ok || !commitOk || item.offset < old(writeOffset))
      ensures old(PairIntact()) && res == Ok && item.offset < old(writeOffset) ==>
                var op := Fifo.Commit(CountUpTo(old(readOffset), item.offset), commitOk);
                Went(cfg, old(Contents), old(trail), op, Contents, trail, writeOffset)
      ensures old(PairIntact() && IsQueued(item)) && res == Ok ==>
                NeverLost(points, cfg.stream, Item(item.data, item.enqueuedAt), dlq.cfg.stream, DeadLetter(item, why))
      ensures old(PairIntact() && IsQueued(item)) && res == Ok && commitOk ==>
                (Pair.Events(Both()) == old(Pair.Events(Both()))
                 <==> item.offset == old(readOffset) && !old(dlq.AtCapacity()))
    {
      points := [];
      if dlq == null { return NoDLQ, []; }
      if cfg.stream == STREAM_DLQ { return AlreadyInDLQ, []; }
      ghost var s, queued := Both(), PairIntact() && IsQueued(item);
      ghost var main0, dead0, trail0 := disk, dlq.disk, dlq.trail;
      res := BuryThenCommit(item, why, dropOk, writeOk, commitOk);
      if res != Ok { return res, []; }
      points := Points(main0, dead0, dlq.trail[|trail0|..], (disk, dlq.disk));
      if queued {
        PointsKeepItem(main0, dead0, dlq.trail[|trail0|..], (disk, dlq.disk), cfg.stream, s.live,
                       Item(item.data, item.enqueuedAt), dlq.cfg.stream, dlq.Contents, DeadLetter(item, why));
        if commitOk {
          Pair.MovedContents(Setup(), s, CountUpTo(old(readOffset), item.offset), why, dropOk, Both());
        }
      }
    }

    /** The part of a move that changes the queues. */
    method BuryThenCommit(item: QueueItem, why: Pair.Burial, dropOk: bool, writeOk: bool, commitOk: bool)
      returns (res: Outcome)
      requires item.offset < MAX_UINT64 && cfg.stream != STREAM_DLQ && dlq != null && dlq != this
      modifies this, dlq
      ensures res == if old(CanBury(dropOk, writeOk)) then Ok
                     else DLQRejected(if old(dlq.closed) then QueueClosed
                                      else if old(dlq.AtCapacity()) && dlq.cfg.dropPolicy == RejectNew then QueueFull
                                      else StoreFailed)
      ensures res != Ok || !commitOk || item.offset < old(readOffset) ==> unchanged(this)
      ensures closed == old(closed) && writeOffset == old(writeOffset) && dlq.closed == old(dlq.closed)
      ensures old(dlq.trail) <= dlq.trail
      ensures old(dlq.closed) ==> unchanged(dlq)
      ensures !old(dlq.closed) ==>
                dlq.disk == if res == Ok
                            then old(dlq.Room(dropOk))[FormatKey(dlq.cfg.stream, old(dlq.writeOffset))
                                                       := DeadLetter(item, why)]
                            else old(dlq.Room(dropOk))
      ensures res == Ok && commitOk && item.offset >= old(readOffset) ==>
                && disk == Cleared(old(disk), cfg.stream, old(readOffset), CountUpTo(old(readOffset), item.offset))
                && readOffset == item.offset + 1
      ensures old(PairIntact()) ==>
                && dlq.Valid()
                && old(dlq.writeOffset) <= dlq.writeOffset <= old(dlq.writeOffset) + 1
                && (Valid() <==> res != Ok || !commitOk || item.offset < old(writeOffset))
                && (res == Ok ==> EndsIn(dlq.Contents, DeadLetter(item, why)))
      ensures old(PairIntact()) && !old(dlq.closed) ==>
                var op := Fifo.Enqueue(DeadLetter(item, why), dropOk, writeOk);
                Went(dlq.cfg, old(dlq.Contents), old(dlq.trail), op, dlq.Contents, dlq.trail, dlq.writeOffset)
      ensures old(PairIntact()) && res == Ok && item.offset < old(writeOffset) ==>
                var op := Fifo.Commit(CountUpTo(old(readOffset), item.offset), commitOk);
                Went(cfg, old(Contents), old(trail), op, Contents, trail, writeOffset)
    {
      var entry := DeadLetter(item, why);
      var enqueued := dlq.Enqueue(entry.data, entry.enqueuedAt, dropOk, writeOk);
      if enqueued != Ok { return DLQRejected(enqueued); }
      var committed := Commit(item.offset, commitOk);
      return Ok;
    }

    method Close()
      modifies `closed
      ensures closed
    {
      closed := true;
    }
  }

  /** The body of the read transaction. */
  method ReadBatch(disk: Disk, stream: Stream, r: Uint64, w: Uint64, n: nat) returns (items: seq<QueueItem>)
    ensures items == Batch(disk, stream, r, w, n)
    ensures |items| <= n
  {
    items := [];
    ghost var all := Batch(disk, stream, r, w, n);
    var offset: Uint64, count: nat := r, 0;
    while offset < w && count < n
      invariant |items| == count <= n
      invariant items + Batch(disk, stream, offset, w, n - count) == all
      decreases w - offset
    {
      BatchSteps(disk, stream, offset, w, n - count, items);
      var key := FormatKey(stream, offset);
      if key in disk {
        items := items + [QueueItem(offset, disk[key].data, disk[key].enqueuedAt)];
        count := count + 1;
      }
      offset := offset + 1;
    }
  }

  /** The body of the commit transaction. */
  method DeleteRange(disk: Disk, stream: Stream, first: Uint64, last: Uint64) returns (txn: Disk)
    requires first <= last < MAX_UINT64
    ensures txn == Cleared(disk, stream, first, CountUpTo(first, last))
  {
    txn := disk;
    var o := first;
    while o <= last
      invariant first <= o <= last + 1
      invariant txn == Cleared(disk, stream, first, o - first)
    {
      ClearedSteps(disk, stream, first, o);
      txn := txn - {FormatKey(stream, o)};
      o := o + 1;
    }
  }

  /** How many items from offset `r` on an acknowledgement up to `offset` covers. */
  function CountUpTo(r: Uint64, offset: Uint64): nat {
    if offset < r then 0 else offset + 1 - r
  }

  /** The offset that the commit loop deletes after `k` others, its counter being 64 bits wide. */
  function LoopCounter(r: Uint64, k: nat): Uint64 {
    (r + k) % (MAX_UINT64 + 1)
  }

  /** The commit loop ends exactly below the last 64-bit offset, which no reader is handed. */
  lemma CommitEndsIff(r: Uint64, offset: Uint64)
    requires r <= offset
    ensures (exists k: nat :: LoopCounter(r, k) > offset) <==> offset < MAX_UINT64
  {
    if offset < MAX_UINT64 {
      assert LoopCounter(r, offset + 1 - r) == offset + 1;
    }
  }

  function Min(a: int, b: int): int {
    if a <= b then a else b
  }

  predicate EndsIn<T(==)>(s: seq<T>, x: T) {
    s != [] && s[|s| - 1] == x
  }

  /** The pairs of disks that a move passes through: the dead-letter queue's transactions all
      come before the main queue's. */
  ghost function Points(main: Disk, dead: Disk, moved: seq<Disk>, last: (Disk, Disk)): seq<(Disk, Disk)> {
    [(main, dead)] + seq(|moved|, i requires 0 <= i < |moved| => (main, moved[i])) + [last]
  }

  /** At every pair of disks, a restart finds `x` in the main queue or the entry `dead` at the
      end of the dead-letter queue. */
  ghost predicate NeverLost(points: seq<(Disk, Disk)>, stream: Stream, x: Item, dlqStream: Stream, dead: Item) {
    forall p :: p in points ==> Keeps(p.0, stream, x) || EndsWith(p.1, dlqStream, dead)
  }

  ghost predicate Keeps(disk: Disk, stream: Stream, x: Item) {
    exists live: seq<Item> :: Survives(disk, stream, live) && x in live
  }

  ghost predicate EndsWith(disk: Disk, stream: Stream, x: Item) {
    exists live: seq<Item> :: Survives(disk, stream, live) && EndsIn(live, x)
  }

  lemma PointsKeepItem(main: Disk, dead: Disk, moved: seq<Disk>, last: (Disk, Disk), stream: Stream,
                       live: seq<Item>, x: Item, dlqStream: Stream, buried: seq<Item>, entry: Item)
    requires Survives(main, stream, live) && x in live
    requires Survives(last.1, dlqStream, buried) && EndsIn(buried, entry)
    ensures NeverLost(Points(main, dead, moved, last), stream, x, dlqStream, entry)
  {
    assert Keeps(main, stream, x);
    assert EndsWith(last.1, dlqStream, entry);
  }

  /** The least key of a non-empty set: the store's iterator. */
  method Least(keys: set<string>) returns (k: string)
    requires keys != {}
    ensures k in keys && forall j :: j in keys ==> Le(k, j)
  {
    k :| k in keys;
    LeReflexive(k);
    var rest := keys - {k};
    while rest != {}
      invariant k in keys && rest <= keys
      invariant forall j :: j in keys - rest ==> Le(k, j)
      decreases rest
    {
      var j :| j in rest;
      LeTotal(k, j);
      LeReflexive(j);
      if !Le(k, j) {
        forall i | i in keys - rest ensures Le(j, i) { LeTransitive(j, k, i); }
        k := j;
      }
      rest := rest - {j};
    }
  }

  /** `recover`: scans the keys from the stream's prefix on while they carry it. */
  method Recover(disk: Disk, stream: Stream) returns (readOffset: Uint64, writeOffset: Uint64)
    ensures RecoveredAs(disk, stream, readOffset, writeOffset)
  {
    var prefix := StreamPrefix(stream);
    var minOffset, maxOffset, count := MAX_UINT64, 0 as Uint64, 0;
    var rest := set k | k in disk.Keys && Le(prefix, k);
    ghost var all, seen, found := rest, {}, {};
    while rest != {}
      invariant seen + rest == all
      invariant forall k :: k in seen ==> HasPrefix(k, prefix)
      invariant found == Offsets(seen, stream)
      invariant Spans(minOffset, maxOffset, count, found)
      decreases rest
    {
      var key := Least(rest);
      if !HasPrefix(key, prefix) {
        RestLacksPrefix(prefix, key, rest);
        break;
      }
      var parsed := ParseOffset(key);
      OffsetsGrow(seen, stream, key);
      seen, rest := seen + {key}, rest - {key};
      if parsed.Some? {
        SpansGrow(minOffset, maxOffset, count, found, parsed.value);
        minOffset := if parsed.value < minOffset then parsed.value else minOffset;
        maxOffset := if parsed.value > maxOffset then parsed.value else maxOffset;
        count := count + 1;
        found := found + {parsed.value};
      }
    }
    SeenAll(disk, stream, all, seen, rest);
    if count == 0 {
      readOffset, writeOffset := 0, 0;
    } else {
      readOffset, writeOffset := minOffset, Successor(maxOffset);
    }
  }

  ghost predicate Spans(min: Uint64, max: Uint64, count: nat, found: set<Uint64>) {
    if count == 0 then found == {} && min == MAX_UINT64 && max == 0
    else IsLeast(min, found) && IsGreatest(max, found)
  }

  lemma SpansGrow(min: Uint64, max: Uint64, count: nat, found: set<Uint64>, o: Uint64)
    requires Spans(min, max, count, found)
    ensures Spans(if o < min then o else min, if o > max then o else max, count + 1, found + {o})
  {
  }

  lemma OffsetsGrow(seen: set<string>, stream: Stream, key: string)
    requires HasPrefix(key, StreamPrefix(stream))
    ensures Offsets(seen + {key}, stream) ==
            Offsets(seen, stream) + (if ParseOffset(key).Some? then {ParseOffset(key).value} else {})
  {
  }

  lemma RestLacksPrefix(prefix: string, key: string, rest: set<string>)
    requires !HasPrefix(key, prefix) && Le(prefix, key)
    requires forall j :: j in rest ==> Le(key, j)
    ensures forall k :: k in rest ==> !HasPrefix(k, prefix)
  {
    forall k | k in rest ensures !HasPrefix(k, prefix) {
      if HasPrefix(k, prefix) { PrefixesAreConsecutive(prefix, key, k); }
    }
  }

  lemma SeenAll(disk: Disk, stream: Stream, all: set<string>, seen: set<string>, rest: set<string>)
    requires all == set k | k in disk.Keys && Le(StreamPrefix(stream), k)
    requires seen + rest == all
    requires forall k :: k in rest ==> !HasPrefix(k, StreamPrefix(stream))
    ensures Offsets(seen, stream) == Offsets(disk.Keys, stream)
  {
    forall k | k in disk && HasPrefix(k, StreamPrefix(stream)) ensures k in seen {
      PrefixComesFirst(StreamPrefix(stream), k);
      assert k in disk.Keys && k in all;
    }
  }
}
