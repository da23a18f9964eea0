/** Managing the dead-letter queue: what a purge by age removes, when it ends, and reprocessing. */
module DeadLetters {
  import opened KeyCodec
  import opened DiskImage
  import opened DurableQueue

  const PURGE_BATCH := 100

  /** An entry that decodes and was first attempted before the cutoff. */
  predicate IsOld(x: Item, cutoff: int) {
    x.data.Encoded? && x.data.entry.firstAttemptAt < cutoff
  }

  /** The index behind the last old entry. */
  function BehindLastOld(live: seq<Item>, cutoff: int): (n: nat)
    ensures n <= |live|
    ensures n > 0 ==> IsOld(live[n - 1], cutoff)
    ensures forall i :: n <= i < |live| ==> !IsOld(live[i], cutoff)
  {
    if live == [] then 0
    else if IsOld(live[|live| - 1], cutoff) then |live|
    else BehindLastOld(live[..|live| - 1], cutoff)
  }

  function CountOld(live: seq<Item>, cutoff: int): nat {
    if live == [] then 0
    else CountOld(live[..|live| - 1], cutoff) + (if IsOld(live[|live| - 1], cutoff) then 1 else 0)
  }

  /** A full batch without an old entry, starting at `i`. */
  predicate FreshWindow(live: seq<Item>, cutoff: int, i: nat) {
    i + PURGE_BATCH <= |live| && forall j :: i <= j < i + PURGE_BATCH ==> !IsOld(live[j], cutoff)
  }

  ghost predicate HasFreshWindow(live: seq<Item>, cutoff: int) {
    exists i: nat :: FreshWindow(live, cutoff, i)
  }

  function FirstBatch(live: seq<Item>): seq<Item> {
    live[..Min(PURGE_BATCH, |live|)]
  }

  /** One trip of the purge loop over a healthy store. */
  function Round(live: seq<Item>, cutoff: int): seq<Item> {
    live[BehindLastOld(FirstBatch(live), cutoff)..]
  }

  /** The contents before the trip numbered `k`, if the loop gets that far. */
  function BeforeTrip(live: seq<Item>, cutoff: int, k: nat): seq<Item> {
    if k == 0 then live else Round(BeforeTrip(live, cutoff, k - 1), cutoff)
  }

  // ----- arithmetic of one round --------------------------------------------------------

  lemma {:induction false} CountSplits(live: seq<Item>, cutoff: int, n: nat)
    requires n <= |live|
    ensures CountOld(live, cutoff) == CountOld(live[..n], cutoff) + CountOld(live[n..], cutoff)
  {
    if n == |live| {
      assert live[..n] == live;
    } else {
      var init := live[..|live| - 1];
      CountSplits(init, cutoff, n);
      assert init[..n] == live[..n] && init[n..] == live[n..][..|live| - n - 1];
    }
  }

  lemma OneMore(live: seq<Item>, cutoff: int, i: nat)
    requires i < |live|
    ensures BehindLastOld(live[..i + 1], cutoff) ==
            if IsOld(live[i], cutoff) then i + 1 else BehindLastOld(live[..i], cutoff)
    ensures CountOld(live[..i + 1], cutoff) == CountOld(live[..i], cutoff) + (if IsOld(live[i], cutoff) then 1 else 0)
    ensures forall n: nat :: n <= i ==> live[n..][i + 1 - n..] == live[i + 1..]
  {
    assert live[..i + 1][..i] == live[..i] && live[..i + 1][i] == live[i];
  }

  lemma CountNone(live: seq<Item>, cutoff: int)
    requires forall x :: x in live ==> !IsOld(x, cutoff)
    ensures CountOld(live, cutoff) == 0
  {
  }

  lemma BehindLastOldUnique(live: seq<Item>, cutoff: int, n: nat)
    requires n <= |live| && (n > 0 ==> IsOld(live[n - 1], cutoff))
    requires forall i :: n <= i < |live| ==> !IsOld(live[i], cutoff)
    ensures BehindLastOld(live, cutoff) == n
  {
  }

  lemma BehindLastOldOfRest(live: seq<Item>, cutoff: int, n: nat)
    requires n <= |live| && (n > 0 ==> IsOld(live[n - 1], cutoff))
    ensures BehindLastOld(live, cutoff) == n + BehindLastOld(live[n..], cutoff)
  {
    var m := BehindLastOld(live[n..], cutoff);
    if m > 0 { assert IsOld(live[n..][m - 1], cutoff); }
    forall i | n + m <= i < |live| ensures !IsOld(live[i], cutoff) {
      assert live[i] == live[n..][i - n];
    }
    BehindLastOldUnique(live, cutoff, n + m);
  }

  lemma WindowsOfRest(live: seq<Item>, cutoff: int, n: nat)
    requires n <= |live| && HasFreshWindow(live[n..], cutoff)
    ensures HasFreshWindow(live, cutoff)
  {
    var i: nat :| FreshWindow(live[n..], cutoff, i);
    forall j | n + i <= j < n + i + PURGE_BATCH ensures !IsOld(live[j], cutoff) {
      assert live[j] == live[n..][j - n];
    }
    assert FreshWindow(live, cutoff, n + i);
  }

  lemma TripAdvances(live: seq<Item>, cutoff: int, n: nat, m: nat)
    requires n <= |live| && m <= |live[n..]|
    requires n > 0 ==> IsOld(live[n - 1], cutoff)
    requires m > 0 ==> IsOld(live[n..][m - 1], cutoff)
    ensures live[n..][m..] == live[n + m..]
    ensures n + m > 0 ==> IsOld(live[n + m - 1], cutoff)
    ensures CountOld(live[..n + m], cutoff) == CountOld(live[..n], cutoff) + CountOld(live[n..][..m], cutoff)
    ensures HasFreshWindow(live[n + m..], cutoff) ==> HasFreshWindow(live[n..], cutoff)
    ensures |live[n..]| >= PURGE_BATCH && m == 0 && BehindLastOld(FirstBatch(live[n..]), cutoff) == 0 ==>
              HasFreshWindow(live[n..], cutoff)
  {
    var rest := live[n..];
    assert rest[m..] == live[n + m..];
    CountSplits(live[..n + m], cutoff, n);
    assert live[..n + m][..n] == live[..n] && live[..n + m][n..] == rest[..m];
    if HasFreshWindow(rest[m..], cutoff) { WindowsOfRest(rest, cutoff, m); }
    if |rest| >= PURGE_BATCH && BehindLastOld(FirstBatch(rest), cutoff) == 0 {
      forall j | 0 <= j < PURGE_BATCH ensures !IsOld(rest[j], cutoff) { assert rest[j] == FirstBatch(rest)[j]; }
      assert FreshWindow(rest, cutoff, 0);
    }
  }

  /** How far a purge has come: `n` entries are gone, the last of them old. */
  ghost predicate PurgedTo(live: seq<Item>, now: seq<Item>, cutoff: int, n: nat, purged: nat) {
    && n <= |live| && now == live[n..]
    && (n > 0 ==> IsOld(live[n - 1], cutoff))
    && purged == CountOld(live[..n], cutoff)
    && !HasFreshWindow(now, cutoff)
  }

  lemma TripGoesOn(live: seq<Item>, now: seq<Item>, cutoff: int, n: nat, purged: nat, m: nat, count: nat)
    requires PurgedTo(live, now, cutoff, n, purged)
    requires m <= |now| && (m > 0 ==> IsOld(now[m - 1], cutoff)) && count == CountOld(now[..m], cutoff)
    ensures PurgedTo(live, now[m..], cutoff, n + m, purged + count)
    ensures |now| >= PURGE_BATCH && m == BehindLastOld(FirstBatch(now), cutoff) ==> m > 0
  {
    TripAdvances(live, cutoff, n, m);
  }

  lemma TripIsLast(live: seq<Item>, now: seq<Item>, cutoff: int, n: nat, purged: nat, m: nat, count: nat)
    requires PurgedTo(live, now, cutoff, n, purged) && |now| < PURGE_BATCH
    requires m == BehindLastOld(FirstBatch(now), cutoff) && count == CountOld(now[..m], cutoff)
    ensures n + m == BehindLastOld(live, cutoff) && purged + count == CountOld(live, cutoff)
  {
    assert FirstBatch(now) == now;
    BehindLastOldOfRest(live, cutoff, n);
    CountSplits(live, cutoff, n);
    CountSplits(now, cutoff, m);
    CountNone(now[m..], cutoff);
  }

  // ----- when the loop ends -------------------------------------------------------------

  lemma {:induction false} WindowBlocks(live: seq<Item>, cutoff: int, i: nat, k: nat)
    requires FreshWindow(live, cutoff, i)
    ensures exists i': nat :: i' <= i && FreshWindow(BeforeTrip(live, cutoff, k), cutoff, i')
  {
    if k == 0 {
      assert FreshWindow(BeforeTrip(live, cutoff, 0), cutoff, i);
    } else {
      WindowBlocks(live, cutoff, i, k - 1);
      var now := BeforeTrip(live, cutoff, k - 1);
      var i': nat :| i' <= i && FreshWindow(now, cutoff, i');
      var n := BehindLastOld(FirstBatch(now), cutoff);
      assert n <= i';
      assert BeforeTrip(live, cutoff, k) == now[n..];
      assert FreshWindow(now[n..], cutoff, i' - n);
    }
  }

  lemma {:induction false} LoopEnds(live: seq<Item>, cutoff: int, k: nat) returns (last: nat)
    requires !HasFreshWindow(BeforeTrip(live, cutoff, k), cutoff)
    ensures |BeforeTrip(live, cutoff, last)| < PURGE_BATCH
    decreases |BeforeTrip(live, cutoff, k)|
  {
    var now := BeforeTrip(live, cutoff, k);
    if |now| < PURGE_BATCH { return k; }
    var n := BehindLastOld(FirstBatch(now), cutoff);
    assert n > 0 by {
      if n == 0 {
        forall j | 0 <= j < PURGE_BATCH ensures !IsOld(now[j], cutoff) { assert now[j] == FirstBatch(now)[j]; }
        assert FreshWindow(now, cutoff, 0);
      }
    }
    if HasFreshWindow(now[n..], cutoff) { WindowsOfRest(now, cutoff, n); }
    last := LoopEnds(live, cutoff, k + 1);
  }

  /** The purge loop reaches a short batch, after which it stops, exactly when no 100
      consecutive entries are all too young (or undecodable). Otherwise it reads the same
      batch forever. */
  lemma PurgeEndsIff(live: seq<Item>, cutoff: int)
    ensures (exists k: nat :: |BeforeTrip(live, cutoff, k)| < PURGE_BATCH) <==> !HasFreshWindow(live, cutoff)
  {
    if HasFreshWindow(live, cutoff) {
      var i: nat :| FreshWindow(live, cutoff, i);
      forall k: nat ensures |BeforeTrip(live, cutoff, k)| >= PURGE_BATCH { WindowBlocks(live, cutoff, i, k); }
    } else {
      var last := LoopEnds(live, cutoff, 0);
    }
  }

  /** The same in numbers: trips read 100 entries, and an entry counts when it decodes and was
      first attempted before the cutoff. */
  lemma PurgeEndsInNumbers(live: seq<Item>, cutoff: int)
    ensures (exists k: nat :: |BeforeTrip(live, cutoff, k)| < 100)
       <==> !exists a: seq<Item>, b: seq<Item>, c: seq<Item> :: live == a + b + c && |b| == 100
                               && forall x :: x in b ==> x.data.Raw? || x.data.entry.firstAttemptAt >= cutoff
  {
    PurgeEndsIff(live, cutoff);
    if HasFreshWindow(live, cutoff) {
      var i: nat :| FreshWindow(live, cutoff, i);
      var a, b, c := live[..i], live[i..i + 100], live[i + 100..];
      assert live == a + b + c;
      forall x | x in b ensures !IsOld(x, cutoff) {
        var j :| 0 <= j < 100 && b[j] == x;
        assert live[i + j] == x;
      }
    } else {
      forall a, b, c | live == a + b + c && |b| == 100 ensures exists x :: x in b && IsOld(x, cutoff) {
        assert !FreshWindow(live, cutoff, |a|);
        var j :| |a| <= j < |a| + 100 && IsOld(live[j], cutoff);
        assert b[j - |a|] == live[j];
      }
    }
  }

  /** The old entries come first. */
  ghost predicate OldFirst(live: seq<Item>, cutoff: int) {
    forall i, j :: 0 <= i < j < |live| && IsOld(live[j], cutoff) ==> IsOld(live[i], cutoff)
  }

  /** A purge spares every young entry exactly when the old ones come first. */
  lemma PurgeSparesYoungIff(live: seq<Item>, cutoff: int)
    ensures CountOld(live, cutoff) == BehindLastOld(live, cutoff) <==> OldFirst(live, cutoff)
  {
    var n := BehindLastOld(live, cutoff);
    CountSplits(live, cutoff, n);
    CountNone(live[n..], cutoff);
    CountAllIff(live[..n], cutoff);
    if OldFirst(live, cutoff) {
      forall i | 0 <= i < n ensures IsOld(live[..n][i], cutoff) { }
    } else if CountOld(live, cutoff) == n {
      forall i, j | 0 <= i < j < |live| && IsOld(live[j], cutoff) ensures IsOld(live[i], cutoff) {
        assert live[i] == live[..n][i];
      }
    }
  }

  lemma {:induction false} CountAllIff(live: seq<Item>, cutoff: int)
    ensures CountOld(live, cutoff) <= |live|
    ensures CountOld(live, cutoff) == |live| <==> forall i :: 0 <= i < |live| ==> IsOld(live[i], cutoff)
  {
    if live != [] {
      var init := live[..|live| - 1];
      CountAllIff(init, cutoff);
      if forall i :: 0 <= i < |init| ==> IsOld(init[i], cutoff) {
        forall i | 0 <= i < |live| && i != |live| - 1 ensures IsOld(live[i], cutoff) { assert live[i] == init[i]; }
      } else {
        var i :| 0 <= i < |init| && !IsOld(init[i], cutoff);
        assert live[i] == init[i];
      }
    }
  }

  // ----- crashes ------------------------------------------------------------------------

  /** A crash here leaves the entries behind some old one, or all of them. */
  ghost predicate LeavesRest(disk: Disk, stream: Stream, live: seq<Item>, cutoff: int, w: Uint64) {
    exists k: nat :: k <= |live| && (k > 0 ==> IsOld(live[k - 1], cutoff)) && SurvivesBelow(disk, stream, live[k..], w)
  }

  /** So does a crash after any transaction since the trail was `before`. */
  ghost predicate CrashesLeaveRest(before: seq<Disk>, after: seq<Disk>, stream: Stream, live: seq<Item>,
                                   cutoff: int, w: Uint64) {
    before <= after && forall i :: |before| <= i < |after| ==> LeavesRest(after[i], stream, live, cutoff, w)
  }

  lemma OneCommit(before: seq<Disk>, after: seq<Disk>, more: seq<Disk>, stream: Stream, live: seq<Item>,
                  cutoff: int, w: Uint64, now: seq<Item>, k: nat)
    requires CrashesLeaveRest(before, after, stream, live, cutoff, w)
    requires k <= |live| && (k > 0 ==> IsOld(live[k - 1], cutoff))
    requires Passes(after, more, stream, [now, live[k..]], w)
    ensures CrashesLeaveRest(before, more, stream, live, cutoff, w)
  {
    forall i | |before| <= i < |more| ensures LeavesRest(more[i], stream, live, cutoff, w) {
      if i < |after| {
        assert more[i] == after[i];
      } else {
        assert more[i] == more[|after|..][0];
      }
    }
  }

  lemma TripCrashes(before: seq<Disk>, after: seq<Disk>, more: seq<Disk>, stream: Stream, live: seq<Item>,
                cutoff: int, w: Uint64, n: nat)
    requires CrashesLeaveRest(before, after, stream, live, cutoff, w)
    requires n <= |live| && (n > 0 ==> IsOld(live[n - 1], cutoff))
    requires CrashesLeaveRest(after, more, stream, live[n..], cutoff, w)
    ensures CrashesLeaveRest(before, more, stream, live, cutoff, w)
  {
    forall i | |before| <= i < |more| ensures LeavesRest(more[i], stream, live, cutoff, w) {
      if i < |after| {
        assert more[i] == after[i];
      } else {
        var k: nat :| k <= |live[n..]| && (k > 0 ==> IsOld(live[n..][k - 1], cutoff))
                      && SurvivesBelow(more[i], stream, live[n..][k..], w);
        assert live[n..][k..] == live[n + k..];
      }
    }
  }

  // ----- the manager --------------------------------------------------------------------

  class DLQManager {
    const dlq: BadgerQueue

    constructor (queue: BadgerQueue)
      ensures dlq == queue
    {
      dlq := queue;
    }

    /** How far a purge of the entries `live` has come: `n` of them are gone, the last one old,
        and a crash since the trail was `before` leaves the entries behind some old one. */
    ghost predicate Purged(live: seq<Item>, cutoff: int, n: nat, purged: nat, before: seq<Disk>, w: Uint64)
      reads dlq
    {
      && dlq.Valid() && dlq.writeOffset == w
      && n <= |live| && dlq.Contents == live[n..]
      && (n > 0 ==> IsOld(live[n - 1], cutoff))
      && purged == CountOld(live[..n], cutoff)
      && CrashesLeaveRest(before, dlq.trail, dlq.cfg.stream, live, cutoff, w)
    }

    /** One trip of the purge loop: reads a batch and removes up to its last old entry. */
    method PurgeBatch(cutoff: int) returns (res: Outcome, purged: nat, seen: nat, ghost n: nat)
      requires dlq.Valid()
      modifies dlq
      ensures Purged(old(dlq.Contents), cutoff, n, purged, old(dlq.trail), old(dlq.writeOffset))
      ensures res == Ok || res == StoreFailed
      ensures res == Ok ==> seen == Min(PURGE_BATCH, |old(dlq.Contents)|)
      ensures res == Ok ==> n == BehindLastOld(FirstBatch(old(dlq.Contents)), cutoff)
    {
      purged, seen, n := 0, 0, 0;
      var viewOk: bool := *;
      var items;
      res, items := dlq.DequeueBatch(PURGE_BATCH, viewOk);
      if res != Ok { return; }
      seen := |items|;
      res, purged, n := CommitOldOnes(items, cutoff, dlq.Contents);
    }

    /** Commits at each old entry of the batch, which also removes the entries before it. No
        commit is ever turned down. */
    method CommitOldOnes(items: seq<QueueItem>, cutoff: int, ghost live: seq<Item>)
      returns (res: Outcome, purged: nat, ghost n: nat)
      requires dlq.Valid() && dlq.Contents == live
      requires |items| <= |live| && items == Numbered(live, dlq.readOffset, |items|)
      modifies dlq
      ensures Purged(live, cutoff, n, purged, old(dlq.trail), old(dlq.writeOffset))
      ensures res == Ok || res == StoreFailed
      ensures n <= |items|
      ensures res == Ok ==> n == BehindLastOld(live[..|items|], cutoff)
    {
      ghost var r, trail, w := dlq.readOffset, dlq.trail, dlq.writeOffset;
      res, purged, n := Ok, 0, 0;
      for i := 0 to |items|
        invariant res == Ok && dlq.readOffset == r + n && n <= i
        invariant Purged(live, cutoff, n, purged, trail, w)
        invariant n == BehindLastOld(live[..i], cutoff) && purged == CountOld(live[..i], cutoff)
      {
        OneMore(live, cutoff, i);
        var item := items[i];
        if item.data.Encoded? && item.data.entry.firstAttemptAt < cutoff {
          res := CommitOldOne(item.offset, live, cutoff, n, i, purged, trail, w);
          if res != Ok { return; }
          n := i + 1;
          purged := purged + 1;
        }
      }
    }

    /** Commits at the old entry number `i`, of which `n` are gone. */
    method CommitOldOne(offset: Uint64, ghost live: seq<Item>, cutoff: int, ghost n: nat, ghost i: nat,
                        ghost purged: nat, ghost before: seq<Disk>, ghost w: Uint64)
      returns (res: Outcome)
      requires Purged(live, cutoff, n, purged, before, w) && n <= i < |live|
      requires IsOld(live[i], cutoff) && purged == CountOld(live[..i], cutoff)
      requires offset == dlq.readOffset + i - n
      modifies dlq
      ensures res == Ok || res == StoreFailed
      ensures res == Ok ==> Purged(live, cutoff, i + 1, purged + 1, before, w) && dlq.readOffset == offset + 1
      ensures res != Ok ==> Purged(live, cutoff, n, purged, before, w) && dlq.readOffset == old(dlq.readOffset)
    {
      OneMore(live, cutoff, i);
      var commitOk: bool := *;
      ghost var trail, now := dlq.trail, dlq.Contents;
      res := dlq.Commit(offset, commitOk);
      if res == Ok {
        OneCommit(before, trail, dlq.trail, dlq.cfg.stream, live, cutoff, w, now, i + 1);
      }
    }

    /** Ends exactly on the contents that hold no fresh window (see `PurgeEndsIff`). Without a
        store failure it removes everything up to the last old entry and returns the number of
        old entries; no commit is ever turned down. With one, it has removed everything up to
        some old entry and counted the old ones among them. */
    method PurgeOlderThan(now: int, age: int) returns (purged: nat, res: Outcome, ghost n: nat)
      requires dlq.Valid()
      requires !HasFreshWindow(dlq.Contents, now - age)
      modifies dlq
      ensures Purged(old(dlq.Contents), now - age, n, purged, old(dlq.trail), old(dlq.writeOffset))
      ensures res == Ok || res == StoreFailed
      ensures res == Ok ==> n == BehindLastOld(old(dlq.Contents), now - age)
      ensures res == Ok ==> purged == CountOld(old(dlq.Contents), now - age)
      ensures res == Ok ==>
                forall x :: x in dlq.Contents ==> x.data.Raw? || x.data.entry.firstAttemptAt >= now - age
    {
      var cutoff := now - age;
      purged := 0;
      n := 0;
      ghost var live, trail, w := dlq.Contents, dlq.trail, dlq.writeOffset;
      assert live[0..] == live;
      while true
        invariant Purged(live, cutoff, n, purged, trail, w)
        invariant !HasFreshWindow(live[n..], cutoff)
        decreases |live| - n
      {
        var count, seen;
        ghost var m;
        res, count, seen, m := OneTrip(cutoff, live, n, purged, trail, w);
        purged := purged + count;
        n := n + m;
        if res != Ok || seen < PURGE_BATCH { return; }
      }
    }

    /** The same for a trip of the loop of which `n` entries are gone. */
    method OneTrip(cutoff: int, ghost live: seq<Item>, ghost n: nat, ghost purged: nat, ghost before: seq<Disk>,
                   ghost w: Uint64)
      returns (res: Outcome, count: nat, seen: nat, ghost m: nat)
      requires Purged(live, cutoff, n, purged, before, w) && !HasFreshWindow(live[n..], cutoff)
      modifies dlq
      ensures res == Ok || res == StoreFailed
      ensures Purged(live, cutoff, n + m, purged + count, before, w) && !HasFreshWindow(live[n + m..], cutoff)
      ensures res == Ok && seen >= PURGE_BATCH ==> m > 0
      ensures res == Ok && seen < PURGE_BATCH ==>
                n + m == BehindLastOld(live, cutoff) && purged + count == CountOld(live, cutoff)
    {
      ghost var now, trail := dlq.Contents, dlq.trail;
      res, count, seen, m := PurgeBatch(cutoff);
      TripGoesOn(live, now, cutoff, n, purged, m, count);
      TripCrashes(before, trail, dlq.trail, dlq.cfg.stream, live, cutoff, w, n);
      if res == Ok && seen < PURGE_BATCH { TripIsLast(live, now, cutoff, n, purged, m, count); }
    }

    /** Hands the oldest dead letter back and removes it; any other offset is turned down. */
    method Reprocess(offset: Uint64, viewOk: bool, commitOk: bool)
      returns (event: Payload, stream: Stream, res: Outcome)
      requires dlq.Valid()
      modifies dlq
      ensures dlq.Valid()
      ensures var live := old(dlq.Contents);
              res == if !viewOk then StoreFailed
                     else if live == [] then NotFound
                     else if offset != old(dlq.readOffset) then OffsetMismatch
                     else if live[0].data.Raw? then Malformed
                     else if !commitOk then StoreFailed
                     else Ok
      ensures dlq.closed == old(dlq.closed) && dlq.writeOffset == old(dlq.writeOffset)
      ensures res != Ok ==> dlq.Contents == old(dlq.Contents) && dlq.trail == old(dlq.trail)
      ensures res == Ok ==>
                && dlq.Contents == old(dlq.Contents)[1..]
                && Passes(old(dlq.trail), dlq.trail, dlq.cfg.stream, [old(dlq.Contents), dlq.Contents], dlq.writeOffset)
                && event == old(dlq.Contents)[0].data.entry.originalEvent
                && stream == old(dlq.Contents)[0].data.entry.stream
    {
      event, stream := Raw(""), STREAM_DLQ;
      var items;
      res, items := dlq.DequeueBatch(1, viewOk);
      if res != Ok { return; }
      if items == [] { return event, stream, NotFound; }
      var item := items[0];
      if item.offset != offset { return event, stream, OffsetMismatch; }
      if item.data.Raw? { return event, stream, Malformed; }
      res := dlq.Commit(offset, commitOk);
      if res == Ok {
        event, stream := item.data.entry.originalEvent, item.data.entry.stream;
      }
    }
  }
}
