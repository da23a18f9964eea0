/** The way of an item through the dead-letter queue, from end to end: what its readers find
    there, when a purge removes it, and what reprocessing hands back. */
module DeadLetterPath {
  import opened KeyCodec
  import opened DiskImage
  import opened DurableQueue
  import opened DeadLetters
  import Pair = TwoQueues

  ghost predicate Ready(q: BadgerQueue)
    reads q, q.dlq
  {
    && q.Valid() && q.cfg.stream != STREAM_DLQ
    && q.dlq != null && q.dlq.Valid() && !q.dlq.closed && q.dlq.writeOffset < MAX_UINT64
  }

  method Move(q: BadgerQueue, item: QueueItem, why: Pair.Burial, dropOk: bool, writeOk: bool, commitOk: bool)
    returns (res: Outcome)
    requires Ready(q) && item.offset < q.writeOffset
    modifies q, q.dlq
    ensures q.dlq != null && q.dlq.Valid() && !q.dlq.closed
    ensures old(q.dlq.Contents) == [] ==> (res == Ok <==> writeOk)
    ensures res == Ok && old(q.dlq.Contents) == [] ==> |q.dlq.Contents| == 1
    ensures res == Ok ==>
              q.dlq.Contents != [] && q.dlq.Contents[|q.dlq.Contents| - 1] == q.DeadLetter(item, why)
  {
    ghost var points;
    res, points := q.MoveToDLQ(item, why, dropOk, writeOk, commitOk);
  }

  /** What a reader of the dead-letter queue decodes after a move. */
  method MoveThenRead(q: BadgerQueue, item: QueueItem, why: Pair.Burial, dropOk: bool, writeOk: bool, commitOk: bool)
    returns (res: Outcome, read: QueueItem)
    requires Ready(q) && item.offset < q.writeOffset
    modifies q, q.dlq
    ensures res == Ok ==>
              && read.enqueuedAt == why.now
              && read.data.Encoded?
              && var entry := read.data.entry;
                 && entry.originalEvent == item.data
                 && entry.stream == q.cfg.stream
                 && entry.reason == why.reason
                 && entry.errorMessage == why.message
                 && entry.firstAttemptAt == item.enqueuedAt
                 && entry.lastAttemptAt == why.attemptedAt
                 && entry.attemptCount == 1
  {
    read := item;
    res := Move(q, item, why, dropOk, writeOk, commitOk);
    if res == Ok {
      var all, items := q.dlq.DequeueBatch(q.dlq.Depth(), true);
      read := items[|items| - 1];
    }
  }

  lemma OneEntry(live: seq<Item>, cutoff: int)
    requires |live| == 1
    ensures !HasFreshWindow(live, cutoff)
    ensures BehindLastOld(live, cutoff) == CountOld(live, cutoff) == if IsOld(live[0], cutoff) then 1 else 0
  {
    assert live[..0] == [];
  }

  /** A purge by age removes a dead letter exactly if its item was enqueued before the cutoff. */
  method MoveThenPurge(q: BadgerQueue, item: QueueItem, why: Pair.Burial, dropOk: bool, commitOk: bool,
                       now: int, age: int)
    returns (purged: nat, res: Outcome)
    requires Ready(q) && item.offset < q.writeOffset && q.dlq.Contents == []
    modifies q, q.dlq
    ensures q.dlq != null && (res == Ok || res == StoreFailed)
    ensures res == Ok ==> (q.dlq.Contents == [] <==> item.enqueuedAt < now - age)
    ensures res == Ok ==> purged == if item.enqueuedAt < now - age then 1 else 0
  {
    var moved := Move(q, item, why, dropOk, true, commitOk);
    OneEntry(q.dlq.Contents, now - age);
    var manager := new DLQManager(q.dlq);
    ghost var n;
    purged, res, n := manager.PurgeOlderThan(now, age);
  }

  /** Reprocessing hands the event and the name of its own queue back and empties the
      dead-letter queue. */
  method MoveThenReprocess(q: BadgerQueue, item: QueueItem, why: Pair.Burial, dropOk: bool, commitOk: bool)
    returns (event: Payload, stream: Stream, res: Outcome)
    requires Ready(q) && item.offset < q.writeOffset && q.dlq.Contents == []
    modifies q, q.dlq
    ensures q.dlq != null && res == Ok && q.dlq.Contents == []
    ensures event == item.data && stream == q.cfg.stream
  {
    var moved := Move(q, item, why, dropOk, true, commitOk);
    var manager := new DLQManager(q.dlq);
    event, stream, res := manager.Reprocess(q.dlq.readOffset, true, true);
  }
}
