/** A queue whose offsets need not be consecutive: the items on disk with their offsets, and the
    two volatile offsets. This is what becomes of a queue that is committed beyond its last
    item; the plain FIFO sequence is the case of items at r, r+1, ..., w-1. */
module OffsetLog {
  import opened Lexicographic
  import opened KeyCodec
  import opened DiskImage
  import Fifo = FifoQueue

  datatype Log = Log(items: seq<QueueItem>, r: Uint64, w: Uint64) {
    function Depth(): nat { if w <= r then 0 else w - r }
  }

  ghost predicate Increasing(items: seq<QueueItem>) {
    forall i, j :: 0 <= i < j < |items| ==> items[i].offset < items[j].offset
  }

  ghost predicate Below(items: seq<QueueItem>, w: Uint64) {
    forall i :: 0 <= i < |items| ==> items[i].offset < w
  }

  /** Every offset on disk is below the write offset, so no write ever hits an item. */
  ghost predicate Fits(s: Log) {
    Increasing(s.items) && Below(s.items, s.w)
  }

  function At(o: Uint64, x: Item): QueueItem {
    QueueItem(o, x.data, x.enqueuedAt)
  }

  /** The items whose offsets are not among a, ..., b-1, and those whose offsets are. */
  function Without(items: seq<QueueItem>, a: int, b: int): seq<QueueItem> {
    if items == [] then []
    else
      var last := items[|items| - 1];
      Without(items[..|items| - 1], a, b) + if a <= last.offset < b then [] else [last]
  }

  function Among(items: seq<QueueItem>, a: int, b: int): seq<QueueItem> {
    if items == [] then []
    else
      var last := items[|items| - 1];
      Among(items[..|items| - 1], a, b) + if a <= last.offset < b then [last] else []
  }

  /** What a reader at offset `r` sees. */
  function From(items: seq<QueueItem>, r: Uint64): seq<QueueItem> {
    Without(items, 0, r)
  }

  // ----- operations ---------------------------------------------------------------------

  /** Acknowledgements name an offset, of which only the lower bound is checked. */
  datatype Op =
    | Enqueue(x: Item, dropOk: bool, writeOk: bool)
    | Commit(offset: Uint64, ok: bool)

  predicate Legal(s: Log, op: Op) {
    match op
    case Enqueue(_, _, _) => s.w < MAX_UINT64
    case Commit(offset, _) => offset < MAX_UINT64
  }

  predicate Evicts(limits: Fifo.Limits, s: Log, op: Op) {
    op.Enqueue? && Fifo.Full(limits, s.Depth()) && s.Depth() > 0 && !limits.rejectNew && op.dropOk
  }

  predicate Writes(limits: Fifo.Limits, s: Log, op: Op) {
    op.Enqueue? && op.writeOk && (Fifo.Full(limits, s.Depth()) ==> !limits.rejectNew && (s.Depth() > 0 ==> op.dropOk))
  }

  predicate Clears(s: Log, op: Op) {
    op.Commit? && op.ok && op.offset >= s.r
  }

  /** After the first transaction, which removes, and after the second, which writes. */
  function AfterRemoval(limits: Fifo.Limits, s: Log, op: Op): Log
    requires Legal(s, op)
  {
    if Evicts(limits, s, op) then Log(Without(s.items, s.r, s.r + 1), s.r + 1, s.w)
    else if Clears(s, op) then Log(Without(s.items, s.r, op.offset + 1), op.offset + 1, s.w)
    else s
  }

  function After(limits: Fifo.Limits, s: Log, op: Op): Log
    requires Legal(s, op)
  {
    var room := AfterRemoval(limits, s, op);
    if Writes(limits, s, op) then Log(room.items + [At(s.w, op.x)], room.r, s.w + 1) else room
  }

  function Boundaries(limits: Fifo.Limits, s: Log, op: Op): (b: seq<Log>)
    requires Legal(s, op)
    ensures b != [] && b[0] == s && b[|b| - 1] == After(limits, s, op)
  {
    [s] + (if Evicts(limits, s, op) || Clears(s, op) then [AfterRemoval(limits, s, op)] else [])
        + (if Writes(limits, s, op) then [After(limits, s, op)] else [])
  }

  /** What a restart finds: everything on disk, the volatile offsets around it. */
  function Reopened(s: Log): Log {
    if s.items == [] then Log([], 0, 0)
    else
      var last := s.items[|s.items| - 1].offset;
      Log(s.items, s.items[0].offset, Successor(last))
  }

  // ----- whole runs ---------------------------------------------------------------------

  datatype Event = Done(op: Op) | Crash(op: Op, at: nat)

  predicate Possible(limits: Fifo.Limits, s: Log, ev: Event) {
    Legal(s, ev.op) && (ev.Crash? ==> ev.at < |Boundaries(limits, s, ev.op)|)
  }

  function Next(limits: Fifo.Limits, s: Log, ev: Event): Log
    requires Possible(limits, s, ev)
  {
    match ev
    case Done(op) => After(limits, s, op)
    case Crash(op, at) => Reopened(Boundaries(limits, s, op)[at])
  }

  predicate IsRun(limits: Fifo.Limits, s: Log, evs: seq<Event>)
    decreases |evs|
  {
    evs == [] || (Possible(limits, s, evs[0]) && IsRun(limits, Next(limits, s, evs[0]), evs[1..]))
  }

  function Run(limits: Fifo.Limits, s: Log, evs: seq<Event>): Log
    requires IsRun(limits, s, evs)
    decreases |evs|
  {
    if evs == [] then s else Run(limits, Next(limits, s, evs[0]), evs[1..])
  }

  /** The offsets that the event removes. */
  function RemovedUpTo(limits: Fifo.Limits, s: Log, ev: Event): int
    requires Possible(limits, s, ev)
  {
    if ev.Crash? && ev.at == 0 then s.r else AfterRemoval(limits, s, ev.op).r
  }

  function Added(limits: Fifo.Limits, s: Log, ev: Event): seq<QueueItem>
    requires Possible(limits, s, ev)
  {
    if Writes(limits, s, ev.op) && (ev.Crash? ==> ev.at == |Boundaries(limits, s, ev.op)| - 1)
    then [At(s.w, ev.op.x)] else []
  }

  function Written(limits: Fifo.Limits, s: Log, evs: seq<Event>): seq<QueueItem>
    requires IsRun(limits, s, evs)
    decreases |evs|
  {
    if evs == [] then []
    else Added(limits, s, evs[0]) + Written(limits, Next(limits, s, evs[0]), evs[1..])
  }

  function Removed(limits: Fifo.Limits, s: Log, evs: seq<Event>): seq<QueueItem>
    requires IsRun(limits, s, evs)
    decreases |evs|
  {
    if evs == [] then []
    else Among(s.items, s.r, RemovedUpTo(limits, s, evs[0])) + Removed(limits, Next(limits, s, evs[0]), evs[1..])
  }

  // ----- filters ------------------------------------------------------------------------

  lemma {:induction false} WithoutMembers(items: seq<QueueItem>, a: int, b: int)
    ensures forall x :: x in Without(items, a, b) <==> x in items && !(a <= x.offset < b)
  {
    if items != [] {
      var init, last := items[..|items| - 1], items[|items| - 1];
      WithoutMembers(init, a, b);
      assert items == init + [last];
    }
  }

  lemma {:induction false} WithoutIncreases(items: seq<QueueItem>, a: int, b: int)
    requires Increasing(items)
    ensures Increasing(Without(items, a, b))
  {
    if items != [] {
      var init, last := items[..|items| - 1], items[|items| - 1];
      WithoutIncreases(init, a, b);
      WithoutMembers(init, a, b);
      IncreasingSnoc(Without(init, a, b), last);
    }
  }

  lemma IncreasingSnoc(items: seq<QueueItem>, x: QueueItem)
    requires Increasing(items) && forall y :: y in items ==> y.offset < x.offset
    ensures Increasing(items + [x])
  {
  }

  lemma FilterSteps(items: seq<QueueItem>, a: int, b: int)
    requires items != []
    ensures var init, last := items[..|items| - 1], items[|items| - 1];
            && items == init + [last]
            && Without(items, a, b) ==
               (if a <= last.offset < b then Without(init, a, b) else Without(init, a, b) + [last])
            && Among(items, a, b) ==
               (if a <= last.offset < b then Among(init, a, b) + [last] else Among(init, a, b))
  {
  }

  lemma {:induction false} WithoutCounts(items: seq<QueueItem>, a: int, b: int)
    ensures multiset(Without(items, a, b)) + multiset(Among(items, a, b)) == multiset(items)
  {
    if items != [] {
      var init, last := items[..|items| - 1], items[|items| - 1];
      WithoutCounts(init, a, b);
      FilterSteps(items, a, b);
      OneMore(init, Without(init, a, b), Among(init, a, b), last);
    }
  }

  lemma OneMore<T>(items: seq<T>, kept: seq<T>, gone: seq<T>, x: T)
    requires multiset(kept) + multiset(gone) == multiset(items)
    ensures multiset(kept + [x]) + multiset(gone) == multiset(items + [x])
    ensures multiset(kept) + multiset(gone + [x]) == multiset(items + [x])
  {
  }

  lemma {:induction false} WithoutNone(items: seq<QueueItem>, a: int, b: int)
    requires forall x :: x in items ==> !(a <= x.offset < b)
    ensures Without(items, a, b) == items && Among(items, a, b) == []
  {
    if items != [] {
      WithoutNone(items[..|items| - 1], a, b);
    }
  }

  lemma {:induction false} WithoutTwice(items: seq<QueueItem>, a: int, b: int, c: int)
    requires a <= b <= c
    ensures Without(Without(items, a, b), b, c) == Without(items, a, c)
  {
    if items != [] {
      var init, last := items[..|items| - 1], items[|items| - 1];
      WithoutTwice(init, a, b, c);
      assert items == init + [last];
      if a <= last.offset < b {
        assert Without(items, a, b) == Without(init, a, b);
      } else {
        assert Without(items, a, b) == Without(init, a, b) + [last];
        WithoutSnoc(Without(init, a, b), last, b, c);
      }
    }
  }

  lemma WithoutSnoc(items: seq<QueueItem>, x: QueueItem, a: int, b: int)
    ensures Without(items + [x], a, b) == Without(items, a, b) + if a <= x.offset < b then [] else [x]
  {
    assert (items + [x])[..|items|] == items;
  }

  /** A reader sees an item if and only if its offset is not below the read offset. */
  lemma VisibleIff(items: seq<QueueItem>, r: Uint64, x: QueueItem)
    ensures x in From(items, r) <==> x in items && r <= x.offset
  {
    WithoutMembers(items, 0, r);
  }

  // ----- every run ----------------------------------------------------------------------

  /** An event removes items from the read offset on, which moves behind them, and adds at most
      one item at the end. */
  lemma AfterIs(limits: Fifo.Limits, s: Log, op: Op)
    requires Legal(s, op) && Fits(s)
    ensures var room, next := AfterRemoval(limits, s, op), After(limits, s, op);
            && room.items == Without(s.items, s.r, room.r) && room.w == s.w && Fits(room)
            && next.items == room.items + (if Writes(limits, s, op) then [At(s.w, op.x)] else [])
            && Fits(next)
  {
    var room := AfterRemoval(limits, s, op);
    WithoutNone(s.items, s.r, s.r);
    FitsWithout(s.items, s.r, room.r, s.w);
  }

  lemma FitsWithout(items: seq<QueueItem>, a: int, b: int, w: Uint64)
    requires Increasing(items) && Below(items, w)
    ensures Increasing(Without(items, a, b)) && Below(Without(items, a, b), w)
  {
    WithoutIncreases(items, a, b);
    WithoutMembers(items, a, b);
    forall i | 0 <= i < |Without(items, a, b)| ensures Without(items, a, b)[i].offset < w {
      assert Without(items, a, b)[i] in items;
    }
  }

  lemma ReopenedFits(s: Log)
    requires Fits(s)
    ensures Fits(Reopened(s)) && Reopened(s).w <= s.w
  {
  }

  lemma BoundaryIs(limits: Fifo.Limits, s: Log, op: Op, at: nat)
    requires Legal(s, op) && at < |Boundaries(limits, s, op)|
    ensures var last := |Boundaries(limits, s, op)| - 1;
            Boundaries(limits, s, op)[at] ==
            if at == 0 then s else if at == last then After(limits, s, op) else AfterRemoval(limits, s, op)
    ensures at == 0 && Writes(limits, s, op) ==> |Boundaries(limits, s, op)| > 1
  {
  }

  lemma CrashIs(limits: Fifo.Limits, s: Log, op: Op, at: nat)
    requires Possible(limits, s, Crash(op, at)) && Fits(s)
    ensures var ev, b := Crash(op, at), Boundaries(limits, s, op)[at];
            && b.items == Without(s.items, s.r, RemovedUpTo(limits, s, ev)) + Added(limits, s, ev)
            && Fits(b)
  {
    AfterIs(limits, s, op);
    BoundaryIs(limits, s, op, at);
    WithoutNone(s.items, s.r, s.r);
  }

  lemma NextIs(limits: Fifo.Limits, s: Log, ev: Event)
    requires Possible(limits, s, ev) && Fits(s)
    ensures var next := Next(limits, s, ev);
            && next.items == Without(s.items, s.r, RemovedUpTo(limits, s, ev)) + Added(limits, s, ev)
            && Fits(next)
  {
    match ev
    case Done(op) => AfterIs(limits, s, op);
    case Crash(op, at) =>
      CrashIs(limits, s, op, at);
      ReopenedFits(Boundaries(limits, s, op)[at]);
  }

  /** `a` results from leaving out elements of `b`. */
  predicate IsSubsequence(a: seq<QueueItem>, b: seq<QueueItem>) {
    if b == [] then a == []
    else
      var shorter := b[..|b| - 1];
      || IsSubsequence(a, shorter)
      || (a != [] && a[|a| - 1] == b[|b| - 1] && IsSubsequence(a[..|a| - 1], shorter))
  }

  lemma {:induction false} SubsequenceOfItself(a: seq<QueueItem>)
    ensures IsSubsequence(a, a)
  {
    if a != [] { SubsequenceOfItself(a[..|a| - 1]); }
  }

  lemma SubsequenceSnoc(a: seq<QueueItem>, b: seq<QueueItem>, x: QueueItem)
    requires IsSubsequence(a, b)
    ensures IsSubsequence(a, b + [x]) && IsSubsequence(a + [x], b + [x])
  {
    assert (b + [x])[..|b|] == b && (a + [x])[..|a|] == a;
  }

  lemma {:induction false} SubsequenceAppend(a: seq<QueueItem>, b: seq<QueueItem>, c: seq<QueueItem>)
    requires IsSubsequence(a, b)
    ensures IsSubsequence(a + c, b + c)
  {
    if c == [] {
      assert a + c == a && b + c == b;
    } else {
      var init, last := c[..|c| - 1], c[|c| - 1];
      SubsequenceAppend(a, b, init);
      SubsequenceSnoc(a + init, b + init, last);
      assert a + c == a + init + [last] && b + c == b + init + [last];
    }
  }

  lemma {:induction false} SubsequenceTransitive(a: seq<QueueItem>, b: seq<QueueItem>, c: seq<QueueItem>)
    requires IsSubsequence(a, b) && IsSubsequence(b, c)
    ensures IsSubsequence(a, c)
  {
    if c != [] {
      var shorter := c[..|c| - 1];
      if IsSubsequence(b, shorter) {
        SubsequenceTransitive(a, b, shorter);
      } else if IsSubsequence(a, b[..|b| - 1]) {
        SubsequenceTransitive(a, b[..|b| - 1], shorter);
      } else {
        SubsequenceTransitive(a[..|a| - 1], b[..|b| - 1], shorter);
      }
    }
  }

  lemma {:induction false} WithoutIsSubsequence(items: seq<QueueItem>, a: int, b: int)
    ensures IsSubsequence(Without(items, a, b), items)
  {
    if items != [] {
      var init, last := items[..|items| - 1], items[|items| - 1];
      WithoutIsSubsequence(init, a, b);
      SubsequenceSnoc(Without(init, a, b), init, last);
      assert items == init + [last];
      assert Without(init, a, b) + [] == Without(init, a, b);
    }
  }

  /** Whatever is committed, and wherever it crashes: the items on disk are items that were
      there or were written, in that order, each once; the others were removed, at or behind the
      read offset of the time. No item is overwritten, repeated or reordered. */
  lemma {:induction false} RunConserves(limits: Fifo.Limits, s: Log, evs: seq<Event>)
    requires IsRun(limits, s, evs) && Fits(s)
    ensures var last, all := Run(limits, s, evs), s.items + Written(limits, s, evs);
            && Fits(last)
            && IsSubsequence(last.items, all)
            && multiset(last.items) + multiset(Removed(limits, s, evs)) == multiset(all)
    decreases |evs|
  {
    if evs == [] {
      SubsequenceOfItself(s.items);
      assert s.items + [] == s.items;
    } else {
      var next, b := Next(limits, s, evs[0]), RemovedUpTo(limits, s, evs[0]);
      var kept, gone := Without(s.items, s.r, b), Among(s.items, s.r, b);
      var added, written := Added(limits, s, evs[0]), Written(limits, next, evs[1..]);
      NextIs(limits, s, evs[0]);
      RunConserves(limits, next, evs[1..]);
      WithoutIsSubsequence(s.items, s.r, b);
      WithoutCounts(s.items, s.r, b);
      OrderGoesOn(s.items, kept, added, written, Run(limits, s, evs).items);
      CountsAddUp(s.items, kept, gone, added, written, Run(limits, s, evs).items, Removed(limits, next, evs[1..]));
    }
  }

  lemma OrderGoesOn(items: seq<QueueItem>, kept: seq<QueueItem>, added: seq<QueueItem>, written: seq<QueueItem>,
                    last: seq<QueueItem>)
    requires IsSubsequence(kept, items) && IsSubsequence(last, (kept + added) + written)
    ensures IsSubsequence(last, items + (added + written))
  {
    assert (kept + added) + written == kept + (added + written);
    SubsequenceAppend(kept, items, added + written);
    SubsequenceTransitive(last, kept + (added + written), items + (added + written));
  }

  lemma CountsAddUp<T>(items: seq<T>, kept: seq<T>, gone: seq<T>, added: seq<T>, written: seq<T>,
                       last: seq<T>, removed: seq<T>)
    requires multiset(kept) + multiset(gone) == multiset(items)
    requires multiset(last) + multiset(removed) == multiset((kept + added) + written)
    ensures multiset(last) + multiset(gone + removed) == multiset(items + (added + written))
  {
    var rest := added + written;
    assert (kept + added) + written == kept + rest;
    forall x ensures (multiset(last) + multiset(gone + removed))[x] == multiset(items + rest)[x] {
      assert multiset(kept + rest)[x] == multiset(kept)[x] + multiset(rest)[x];
      assert (multiset(last) + multiset(removed))[x] == multiset(kept + rest)[x];
      assert (multiset(kept) + multiset(gone))[x] == multiset(items)[x];
    }
  }

  /** A restart shows every item on disk again, whatever was hidden before. */
  lemma RestartShowsAll(s: Log)
    requires Fits(s)
    ensures From(Reopened(s).items, Reopened(s).r) == s.items
  {
    WithoutNone(s.items, 0, Reopened(s).r);
  }

  // ----- when the offsets are consecutive -----------------------------------------------

  ghost predicate Consecutive(items: seq<QueueItem>) {
    forall i :: 0 <= i < |items| ==> items[i].offset == items[0].offset + i
  }

  lemma Last(items: seq<QueueItem>)
    requires items != [] && Increasing(items)
    ensures items[|items| - 1].offset >= items[0].offset + |items| - 1
    ensures items[|items| - 1].offset == items[0].offset + |items| - 1 ==> Consecutive(items)
  {
    SpreadsOut(items, 0, |items| - 1);
    if items[|items| - 1].offset == items[0].offset + |items| - 1 {
      forall i | 0 <= i < |items| ensures items[i].offset == items[0].offset + i {
        SpreadsOut(items, 0, i);
        SpreadsOut(items, i, |items| - 1);
      }
    }
  }

  lemma {:induction false} SpreadsOut(items: seq<QueueItem>, i: nat, j: nat)
    requires i <= j < |items| && Increasing(items)
    ensures items[j].offset >= items[i].offset + j - i
    decreases j
  {
    if i < j { SpreadsOut(items, i, j - 1); }
  }

  /** The depth that a restart finds is the number of items exactly when they are consecutive. */
  lemma DepthIsCountIff(s: Log)
    requires Fits(s)
    ensures Reopened(s).Depth() == |s.items| <==> Consecutive(s.items)
  {
    if s.items != [] { Last(s.items); }
  }

  /** Writing keeps the offsets consecutive exactly behind the last item or into an empty log. */
  lemma WriteKeepsConsecutiveIff(s: Log, x: Item)
    requires Fits(s) && Consecutive(s.items)
    ensures Consecutive(s.items + [At(s.w, x)])
       <==> s.items == [] || s.items[|s.items| - 1].offset + 1 == s.w
  {
    var more := s.items + [At(s.w, x)];
    if s.items != [] {
      assert more[|s.items|].offset == s.w && more[0] == s.items[0];
      assert s.items[|s.items| - 1].offset == s.items[0].offset + |s.items| - 1;
    }
  }

  /** Some item lies below `a`, where readers do not see it, and some item lies at `b` or above. */
  ghost predicate Tears(items: seq<QueueItem>, a: int, b: int) {
    && (exists x :: x in items && x.offset < a)
    && (exists x :: x in items && x.offset >= b)
  }

  /** Removing the offsets a, ..., b-1 keeps the others consecutive exactly if it does not leave
      items on both sides. */
  lemma RemoveKeepsConsecutiveIff(items: seq<QueueItem>, a: int, b: int)
    requires Increasing(items) && Consecutive(items) && a < b
    ensures Consecutive(Without(items, a, b)) <==> !Tears(items, a, b)
  {
    var rest := Without(items, a, b);
    WithoutMembers(items, a, b);
    WithoutIncreases(items, a, b);
    if Tears(items, a, b) {
      var x :| x in items && x.offset < a;
      var y :| y in items && y.offset >= b;
      Jumps(rest, x, y, a, b);
    } else if forall x :: x in items ==> x.offset >= a {
      SuffixIs(items, a, b);
    } else {
      PrefixIs(items, a, b);
    }
  }

  lemma Jumps(rest: seq<QueueItem>, x: QueueItem, y: QueueItem, a: int, b: int)
    requires Increasing(rest) && x in rest && y in rest && x.offset < a < b <= y.offset
    requires forall z :: z in rest ==> !(a <= z.offset < b)
    ensures !Consecutive(rest)
  {
    var i, j :| 0 <= i < |rest| && 0 <= j < |rest| && rest[i] == x && rest[j] == y;
    if Consecutive(rest) { Hits(rest, i, j, a); }
  }

  /** Consecutive offsets leave nothing out. */
  lemma Hits(items: seq<QueueItem>, i: nat, j: nat, o: int)
    requires Consecutive(items) && i < |items| && j < |items| && items[i].offset <= o <= items[j].offset
    ensures exists z :: z in items && z.offset == o
  {
    assert items[i].offset == items[0].offset + i && items[j].offset == items[0].offset + j;
    assert items[i + o - items[i].offset] in items;
  }

  lemma ConsecutiveSnoc(items: seq<QueueItem>, x: QueueItem)
    requires Consecutive(items) && (items != [] ==> items[|items| - 1].offset + 1 == x.offset)
    ensures Consecutive(items + [x])
  {
    if items != [] {
      assert items[|items| - 1].offset == items[0].offset + |items| - 1;
    }
  }

  lemma {:induction false} SuffixIs(items: seq<QueueItem>, a: int, b: int)
    requires Increasing(items) && Consecutive(items) && forall x :: x in items ==> x.offset >= a
    ensures var rest := Without(items, a, b);
            Consecutive(rest) && (rest != [] ==> rest[|rest| - 1] == items[|items| - 1])
  {
    if items != [] {
      var init, last := items[..|items| - 1], items[|items| - 1];
      SuffixIs(init, a, b);
      if last.offset < b {
        forall x | x in items ensures x.offset < b { }
        AllGone(items, a, b);
      } else {
        assert init != [] ==> init[|init| - 1].offset + 1 == last.offset;
        ConsecutiveSnoc(Without(init, a, b), last);
      }
    }
  }

  lemma {:induction false} AllGone(items: seq<QueueItem>, a: int, b: int)
    requires forall x :: x in items ==> a <= x.offset < b
    ensures Without(items, a, b) == []
  {
    if items != [] { AllGone(items[..|items| - 1], a, b); }
  }

  lemma {:induction false} PrefixIs(items: seq<QueueItem>, a: int, b: int)
    requires Increasing(items) && Consecutive(items) && forall x :: x in items ==> x.offset < b
    ensures Consecutive(Without(items, a, b))
  {
    if items != [] {
      var last := items[|items| - 1];
      if last.offset < a {
        WithoutNone(items, a, b);
      } else {
        PrefixIs(items[..|items| - 1], a, b);
        assert Without(items, a, b) == Without(items[..|items| - 1], a, b);
      }
    }
  }

  /** One operation keeps the offsets consecutive exactly if what it removes does not lie between
      other items and what it writes comes directly behind the last item left. */
  lemma StepKeepsConsecutiveIff(limits: Fifo.Limits, s: Log, op: Op)
    requires Legal(s, op) && Fits(s) && Consecutive(s.items)
    ensures var room := AfterRemoval(limits, s, op);
            Consecutive(After(limits, s, op).items) <==>
            && !(s.r < room.r && Tears(s.items, s.r, room.r))
            && (Writes(limits, s, op) ==> room.items == [] || room.items[|room.items| - 1].offset + 1 == s.w)
  {
    var room := AfterRemoval(limits, s, op);
    AfterIs(limits, s, op);
    if s.r < room.r {
      RemoveKeepsConsecutiveIff(s.items, s.r, room.r);
    } else {
      WithoutNone(s.items, s.r, room.r);
    }
    if Writes(limits, s, op) {
      if Consecutive(room.items) {
        WriteKeepsConsecutiveIff(room, op.x);
      } else {
        PrefixConsecutive(room.items, At(s.w, op.x));
      }
    }
  }

  lemma PrefixConsecutive(items: seq<QueueItem>, x: QueueItem)
    requires !Consecutive(items)
    ensures !Consecutive(items + [x])
  {
    var i :| 0 <= i < |items| && items[i].offset != items[0].offset + i;
    assert (items + [x])[i] == items[i] && (items + [x])[0] == items[0];
  }

  // ----- committed beyond the end -------------------------------------------------------

  /** The items `all` are numbered from `w` on. */
  ghost predicate IsNumbered(all: seq<QueueItem>, xs: seq<Item>, w: Uint64) {
    && |all| == |xs| && w + |xs| <= MAX_UINT64
    && forall i :: 0 <= i < |xs| ==> all[i] == At(w + i, xs[i])
  }

  /** How many items a queue takes, without evicting any, that reads from `r` and has nothing on
      disk when it writes at `w`. */
  function Places(limits: Fifo.Limits, w: Uint64, r: Uint64): nat
    requires limits.Positive() && w <= r
  {
    r - w + Fifo.Capacity(limits)
  }

  function Taken(limits: Fifo.Limits, places: nat, i: nat): (n: nat)
    ensures n <= i
  {
    if limits.rejectNew && i > places then places else i
  }

  function Beyond(places: nat, taken: nat): nat {
    if taken > places then taken - places else 0
  }

  /** Such a queue after it took the items `taken` and evicted some next to the hidden ones. */
  function Kept(taken: seq<QueueItem>, w: Uint64, r: Uint64, evicted: nat): Log
    requires w + |taken| <= MAX_UINT64 && r + evicted <= MAX_UINT64
  {
    Log(Without(taken, r, r + evicted), r + evicted, w + |taken|)
  }

  /** The queue after it was offered the first `i` of the items `all`. */
  function Overcommitted(limits: Fifo.Limits, w: Uint64, r: Uint64, all: seq<QueueItem>, i: nat): Log
    requires limits.Positive() && w <= r && i <= |all| && w + |all| <= MAX_UINT64
  {
    var places := Places(limits, w, r);
    var taken := Taken(limits, places, i);
    Kept(all[..taken], w, r, Beyond(places, taken))
  }

  lemma EnqueueIs(limits: Fifo.Limits, s: Log, x: Item)
    requires limits.Positive() && s.w < MAX_UINT64
    ensures After(limits, s, Enqueue(x, true, true)) ==
            if !Fifo.Full(limits, s.Depth()) then Log(s.items + [At(s.w, x)], s.r, s.w + 1)
            else if limits.rejectNew then s
            else Log(Without(s.items, s.r, s.r + 1) + [At(s.w, x)], s.r + 1, s.w + 1)
  {
  }

  lemma TakeOne(taken: seq<QueueItem>, x: QueueItem, w: Uint64, r: Uint64)
    requires w + |taken| < MAX_UINT64
    ensures Kept(taken + [x], w, r, 0) == Log(Kept(taken, w, r, 0).items + [x], r, w + |taken| + 1)
  {
    WithoutSnoc(taken, x, r, r);
  }

  /** Evicting one more of the items from `r` on and adding one behind them. */
  lemma EvictOne(taken: seq<QueueItem>, x: QueueItem, w: Uint64, r: Uint64, evicted: nat)
    requires w + |taken| < MAX_UINT64 && r + evicted < w + |taken| <= x.offset
    ensures var s := Kept(taken, w, r, evicted);
            Kept(taken + [x], w, r, evicted + 1) == Log(Without(s.items, s.r, s.r + 1) + [x], s.r + 1, s.w + 1)
  {
    WithoutTwice(taken, r, r + evicted, r + evicted + 1);
    WithoutSnoc(taken, x, r, r + evicted + 1);
  }

  lemma NothingOffered(limits: Fifo.Limits, w: Uint64, r: Uint64, all: seq<QueueItem>)
    requires limits.Positive() && w <= r && w + |all| <= MAX_UINT64
    ensures Overcommitted(limits, w, r, all, 0) == Log([], r, w)
  {
    assert all[..0] == [];
  }

  lemma OfferWithRoom(limits: Fifo.Limits, taken: seq<QueueItem>, x: Item, w: Uint64, r: Uint64)
    requires limits.Positive() && w + |taken| < MAX_UINT64 && w + |taken| < r + Fifo.Capacity(limits)
    ensures After(limits, Kept(taken, w, r, 0), Enqueue(x, true, true))
            == Kept(taken + [At(w + |taken|, x)], w, r, 0)
  {
    EnqueueIs(limits, Kept(taken, w, r, 0), x);
    TakeOne(taken, At(w + |taken|, x), w, r);
  }

  lemma OfferWhenFull(limits: Fifo.Limits, taken: seq<QueueItem>, x: Item, w: Uint64, r: Uint64, evicted: nat)
    requires limits.Positive() && w + |taken| < MAX_UINT64
    requires w + |taken| == r + evicted + Fifo.Capacity(limits)
    ensures After(limits, Kept(taken, w, r, evicted), Enqueue(x, true, true))
            == if limits.rejectNew then Kept(taken, w, r, evicted)
               else Kept(taken + [At(w + |taken|, x)], w, r, evicted + 1)
  {
    EnqueueIs(limits, Kept(taken, w, r, evicted), x);
    EvictOne(taken, At(w + |taken|, x), w, r, evicted);
  }

  lemma OvercommittedStep(limits: Fifo.Limits, w: Uint64, r: Uint64, all: seq<QueueItem>, xs: seq<Item>, i: nat)
    requires limits.Positive() && w <= r && IsNumbered(all, xs, w) && i < |xs|
    ensures After(limits, Overcommitted(limits, w, r, all, i), Enqueue(xs[i], true, true))
            == Overcommitted(limits, w, r, all, i + 1)
  {
    var places := Places(limits, w, r);
    assert all[..i + 1] == all[..i] + [all[i]];
    if i < places {
      OfferWithRoom(limits, all[..i], xs[i], w, r);
    } else {
      var taken := Taken(limits, places, i);
      OfferWhenFull(limits, all[..taken], xs[i], w, r, taken - places);
    }
  }

  /** The items that such a queue leaves on disk are consecutive exactly if it evicted none: an
      eviction falls between the hidden items and the visible ones. */
  lemma OvercommittedIntactIff(limits: Fifo.Limits, w: Uint64, r: Uint64, all: seq<QueueItem>, xs: seq<Item>)
    requires limits.Positive() && w < r && IsNumbered(all, xs, w)
    ensures Consecutive(Overcommitted(limits, w, r, all, |xs|).items)
       <==> limits.rejectNew || |xs| <= Places(limits, w, r)
  {
    var places := Places(limits, w, r);
    var taken := Taken(limits, places, |xs|);
    KeptIntactIff(all[..taken], w, r, Beyond(places, taken));
  }

  lemma KeptIntactIff(taken: seq<QueueItem>, w: Uint64, r: Uint64, evicted: nat)
    requires w < r && w + |taken| <= MAX_UINT64 && r + evicted <= MAX_UINT64
    requires forall i :: 0 <= i < |taken| ==> taken[i].offset == w + i
    requires evicted > 0 ==> r + evicted < w + |taken|
    ensures Consecutive(Kept(taken, w, r, evicted).items) <==> evicted == 0
  {
    if evicted == 0 {
      WithoutNone(taken, r, r);
    } else {
      assert taken[0] in taken && taken[|taken| - 1] in taken;
      RemoveKeepsConsecutiveIff(taken, r, r + evicted);
    }
  }

  /** With room for one item, an empty queue committed at offset 0 and then offered three items
      evicts the second: offsets 0 and 2 remain, and a restart counts three items. */
  lemma HoleAfterOvercommit(limits: Fifo.Limits, a: Item, b: Item, c: Item)
    requires limits.Positive() && Fifo.Capacity(limits) == 1 && !limits.rejectNew
    ensures var s := Overcommitted(limits, 0, 1, [At(0, a), At(1, b), At(2, c)], 3);
            && s == Log([At(0, a), At(2, c)], 2, 3)
            && Reopened(s) == Log([At(0, a), At(2, c)], 0, 3) && Reopened(s).Depth() == 3
  {
    var all := [At(0, a), At(1, b), At(2, c)];
    assert all[..3] == all && all == [At(0, a)] + [At(1, b)] + [At(2, c)];
    WithoutSnoc([], At(0, a), 1, 2);
    WithoutSnoc([At(0, a)], At(1, b), 1, 2);
    WithoutSnoc([At(0, a)] + [At(1, b)], At(2, c), 1, 2);
    assert [] + [At(0, a)] == [At(0, a)];
  }
}
