/** How items at arbitrary offsets lie in the ordered store, and what the queue's transactions,
    its reads and its recovery make of them. */
module LogOnDisk {
  import opened Lexicographic
  import opened KeyCodec
  import opened DiskImage
  import opened OffsetLog

  ghost predicate HasOffset(items: seq<QueueItem>, o: Uint64) {
    exists i :: 0 <= i < |items| && items[i].offset == o
  }

  /** The disk holds the item under its offset's key. */
  ghost predicate Stores(disk: Disk, stream: Stream, x: QueueItem) {
    var key := FormatKey(stream, x.offset);
    key in disk && x == At(x.offset, disk[key])
  }

  /** The stream's keys on disk are those of the items, and hold them. */
  ghost predicate Lists(disk: Disk, stream: Stream, items: seq<QueueItem>) {
    && Increasing(items)
    && (forall o: Uint64 {:trigger FormatKey(stream, o)} :: FormatKey(stream, o) in disk ==> HasOffset(items, o))
    && (forall x :: x in items ==> Stores(disk, stream, x))
    && (forall k {:trigger HasPrefix(k, StreamPrefix(stream))} ::
          k in disk && HasPrefix(k, StreamPrefix(stream)) ==> IsKey(k, stream))
  }

  // ----- transactions -------------------------------------------------------------------

  lemma WriteAppends(disk: Disk, stream: Stream, items: seq<QueueItem>, w: Uint64, x: Item)
    requires Lists(disk, stream, items) && Below(items, w)
    ensures Lists(disk[FormatKey(stream, w) := x], stream, items + [At(w, x)])
  {
    var disk', more := disk[FormatKey(stream, w) := x], items + [At(w, x)];
    KeyIsUnique(stream, w);
    OwnPrefix(stream, w);
    forall o: Uint64 | FormatKey(stream, o) in disk' ensures HasOffset(more, o) {
      if o == w {
        assert more[|items|].offset == o;
      } else {
        var i :| 0 <= i < |items| && items[i].offset == o;
        assert more[i].offset == o;
      }
    }
    forall y | y in more ensures Stores(disk', stream, y) {
      if y in items { StoresElsewhere(disk, disk', stream, y, w); }
    }
  }

  lemma StoresElsewhere(before: Disk, after: Disk, stream: Stream, y: QueueItem, o: Uint64)
    requires Stores(before, stream, y) && y.offset != o
    requires forall k :: k != FormatKey(stream, o) && k in before ==> k in after && after[k] == before[k]
    ensures Stores(after, stream, y)
  {
    KeyIsUnique(stream, o);
  }

  lemma EraseRemoves(disk: Disk, stream: Stream, items: seq<QueueItem>, o: Uint64)
    requires Lists(disk, stream, items)
    ensures Lists(disk - {FormatKey(stream, o)}, stream, Without(items, o, o + 1))
  {
    var disk', rest := disk - {FormatKey(stream, o)}, Without(items, o, o + 1);
    KeyIsUnique(stream, o);
    WithoutMembers(items, o, o + 1);
    WithoutIncreases(items, o, o + 1);
    forall p: Uint64 | FormatKey(stream, p) in disk' ensures HasOffset(rest, p) {
      var i :| 0 <= i < |items| && items[i].offset == p;
      assert items[i] in rest;
    }
    forall y | y in rest ensures Stores(disk', stream, y) {
      StoresElsewhere(disk, disk', stream, y, o);
    }
  }

  lemma {:induction false} ClearRemoves(disk: Disk, stream: Stream, items: seq<QueueItem>, r: Uint64, n: nat)
    requires Lists(disk, stream, items) && r + n <= MAX_UINT64
    ensures Lists(Cleared(disk, stream, r, n), stream, Without(items, r, r + n))
  {
    if n == 0 {
      WithoutNone(items, r, r);
    } else {
      var before, rest, o: Uint64 := Cleared(disk, stream, r, n - 1), Without(items, r, r + n - 1), r + n - 1;
      ClearRemoves(disk, stream, items, r, n - 1);
      EraseRemoves(before, stream, rest, o);
      WithoutTwice(items, r, o, r + n);
      ClearedSteps(disk, stream, r, o);
    }
  }

  // ----- reading ------------------------------------------------------------------------

  function First(items: seq<QueueItem>, n: nat): seq<QueueItem> {
    if n <= |items| then items[..n] else items
  }

  lemma {:induction false} FromSkips(items: seq<QueueItem>, r: Uint64)
    requires r < MAX_UINT64 && forall x :: x in items ==> x.offset != r
    ensures From(items, r) == From(items, r + 1)
  {
    if items != [] {
      FromSkips(items[..|items| - 1], r);
      FilterSteps(items, 0, r);
      FilterSteps(items, 0, r + 1);
    }
  }

  lemma {:induction false} FromTakes(items: seq<QueueItem>, x: QueueItem)
    requires Increasing(items) && x in items && x.offset < MAX_UINT64
    ensures From(items, x.offset) == [x] + From(items, x.offset + 1)
  {
    var init, last := items[..|items| - 1], items[|items| - 1];
    assert items == init + [last];
    if last == x {
      FromLast(init, x);
    } else {
      FromTakes(init, x);
      FilterSteps(items, 0, x.offset);
      FilterSteps(items, 0, x.offset + 1);
      Between(x, From(init, x.offset + 1), last);
    }
  }

  lemma FromLast(init: seq<QueueItem>, x: QueueItem)
    requires (forall y :: y in init ==> y.offset < x.offset) && x.offset < MAX_UINT64
    ensures From(init + [x], x.offset) == [x] && From(init + [x], x.offset + 1) == []
  {
    WithoutSnoc(init, x, 0, x.offset);
    WithoutSnoc(init, x, 0, x.offset + 1);
    NothingFrom(init, x.offset);
    NothingFrom(init, x.offset + 1);
  }

  lemma Between(x: QueueItem, items: seq<QueueItem>, y: QueueItem)
    ensures ([x] + items) + [y] == [x] + (items + [y])
  {
  }

  lemma NothingFrom(items: seq<QueueItem>, r: Uint64)
    requires forall x :: x in items ==> x.offset < r
    ensures From(items, r) == []
  {
    AllGone(items, 0, r);
  }

  lemma Listed(disk: Disk, stream: Stream, items: seq<QueueItem>, r: Uint64)
    requires Lists(disk, stream, items)
    ensures FormatKey(stream, r) in disk ==> At(r, disk[FormatKey(stream, r)]) in items
    ensures FormatKey(stream, r) !in disk ==> forall x :: x in items ==> x.offset != r
  {
    if FormatKey(stream, r) in disk {
      var i :| 0 <= i < |items| && items[i].offset == r;
      assert Stores(disk, stream, items[i]);
    } else {
      forall x | x in items ensures x.offset != r { assert Stores(disk, stream, x); }
    }
  }

  /** Reading from any offset returns the first items from there on, across any holes. */
  lemma {:induction false} BatchIsFirst(disk: Disk, stream: Stream, items: seq<QueueItem>, r: Uint64, w: Uint64, n: nat)
    requires Lists(disk, stream, items) && Below(items, w)
    ensures Batch(disk, stream, r, w, n) == First(From(items, r), n)
    decreases w - r
  {
    if r >= w {
      NothingFrom(items, r);
    } else if n > 0 {
      if FormatKey(stream, r) in disk {
        BatchIsFirst(disk, stream, items, r + 1, w, n - 1);
        BatchTakes(disk, stream, items, r, w, n);
      } else {
        BatchIsFirst(disk, stream, items, r + 1, w, n);
        BatchSkips(disk, stream, items, r, w, n);
      }
    }
  }

  lemma BatchTakes(disk: Disk, stream: Stream, items: seq<QueueItem>, r: Uint64, w: Uint64, n: nat)
    requires Lists(disk, stream, items) && r < w && n > 0 && FormatKey(stream, r) in disk
    requires Batch(disk, stream, r + 1, w, n - 1) == First(From(items, r + 1), n - 1)
    ensures Batch(disk, stream, r, w, n) == First(From(items, r), n)
  {
    var x := At(r, disk[FormatKey(stream, r)]);
    Listed(disk, stream, items, r);
    BatchIs(disk, stream, r, w, n);
    FirstTakes(items, x, n);
  }

  lemma BatchSkips(disk: Disk, stream: Stream, items: seq<QueueItem>, r: Uint64, w: Uint64, n: nat)
    requires Lists(disk, stream, items) && r < w && n > 0 && FormatKey(stream, r) !in disk
    requires Batch(disk, stream, r + 1, w, n) == First(From(items, r + 1), n)
    ensures Batch(disk, stream, r, w, n) == First(From(items, r), n)
  {
    Listed(disk, stream, items, r);
    BatchIs(disk, stream, r, w, n);
    FromSkips(items, r);
  }

  lemma BatchIs(disk: Disk, stream: Stream, r: Uint64, w: Uint64, n: nat)
    requires r < w && n > 0
    ensures var key := FormatKey(stream, r);
            Batch(disk, stream, r, w, n) ==
            if key in disk then [At(r, disk[key])] + Batch(disk, stream, r + 1, w, n - 1)
            else Batch(disk, stream, r + 1, w, n)
  {
  }

  lemma FirstTakes(items: seq<QueueItem>, x: QueueItem, n: nat)
    requires Increasing(items) && x in items && x.offset < MAX_UINT64 && n > 0
    ensures First(From(items, x.offset), n) == [x] + First(From(items, x.offset + 1), n - 1)
  {
    FromTakes(items, x);
  }

  // ----- restart ------------------------------------------------------------------------

  lemma OffsetsListed(disk: Disk, stream: Stream, items: seq<QueueItem>)
    requires Lists(disk, stream, items)
    ensures forall o: Uint64 :: o in Offsets(disk.Keys, stream) <==> HasOffset(items, o)
  {
    forall o: Uint64 ensures o in Offsets(disk.Keys, stream) <==> HasOffset(items, o) {
      ParseInvertsFormat(stream, o);
      OwnPrefix(stream, o);
      if o in Offsets(disk.Keys, stream) {
        var k :| k in disk.Keys && HasPrefix(k, StreamPrefix(stream)) && ParseOffset(k) == Some(o);
        var o': Uint64 :| k == FormatKey(stream, o');
        ParseInvertsFormat(stream, o');
      }
      if HasOffset(items, o) {
        var i :| 0 <= i < |items| && items[i].offset == o;
        assert Stores(disk, stream, items[i]);
      }
    }
  }

  /** Recovery puts the volatile offsets around the items on disk. */
  lemma RecoversReopened(disk: Disk, stream: Stream, s: Log, r: Uint64, w: Uint64)
    requires Lists(disk, stream, s.items) && RecoveredAs(disk, stream, r, w)
    ensures Log(s.items, r, w) == Reopened(s)
  {
    OffsetsListed(disk, stream, s.items);
    SpanOfItems(s, Offsets(disk.Keys, stream), r, w);
  }

  lemma SpanOfItems(s: Log, found: set<Uint64>, r: Uint64, w: Uint64)
    requires Increasing(s.items) && IsSpan(found, r, w)
    requires forall o: Uint64 :: o in found <==> HasOffset(s.items, o)
    ensures Log(s.items, r, w) == Reopened(s)
  {
    if s.items != [] {
      var first, last := s.items[0].offset, s.items[|s.items| - 1].offset;
      assert HasOffset(s.items, first) && HasOffset(s.items, last);
      var max: Uint64 :| IsGreatest(max, found) && w == Successor(max);
      assert max in found && HasOffset(s.items, max);
      assert HasOffset(s.items, r);
    } else {
      assert found == {};
    }
  }

  /** The interval invariant is the case of consecutive offsets. */
  lemma HoldsIff(disk: Disk, stream: Stream, items: seq<QueueItem>)
    requires Lists(disk, stream, items) && (items != [] ==> items[|items| - 1].offset < MAX_UINT64)
    ensures (exists live: seq<Item> :: Survives(disk, stream, live)) <==> Consecutive(items)
  {
    if Consecutive(items) {
      ConsecutiveHolds(disk, stream, items);
    } else if live: seq<Item> :| Survives(disk, stream, live) {
      var r: Uint64 :| Holds(disk, stream, r, live);
      HoldsConsecutive(disk, stream, items, r, live);
    }
  }

  function Contents(items: seq<QueueItem>): seq<Item> {
    seq(|items|, i requires 0 <= i < |items| => Item(items[i].data, items[i].enqueuedAt))
  }

  lemma ConsecutiveHolds(disk: Disk, stream: Stream, items: seq<QueueItem>)
    requires Lists(disk, stream, items) && Consecutive(items)
    requires items != [] ==> items[|items| - 1].offset < MAX_UINT64
    ensures Survives(disk, stream, Contents(items))
  {
    var r: Uint64 := if items == [] then 0 else items[0].offset;
    forall o: Uint64
      ensures FormatKey(stream, o) in disk <==> r <= o < r + |items|
      ensures r <= o < r + |items| ==> disk[FormatKey(stream, o)] == Contents(items)[o - r]
    {
      ConsecutiveAt(disk, stream, items, r, o);
    }
    assert Holds(disk, stream, r, Contents(items));
  }

  lemma ConsecutiveAt(disk: Disk, stream: Stream, items: seq<QueueItem>, r: Uint64, o: Uint64)
    requires Lists(disk, stream, items) && Consecutive(items) && r == if items == [] then 0 else items[0].offset
    ensures FormatKey(stream, o) in disk <==> r <= o < r + |items|
    ensures r <= o < r + |items| ==> disk[FormatKey(stream, o)] == Contents(items)[o - r]
  {
    Listed(disk, stream, items, o);
    if r <= o < r + |items| {
      assert items[o - r] in items && Stores(disk, stream, items[o - r]);
    }
  }

  lemma HoldsConsecutive(disk: Disk, stream: Stream, items: seq<QueueItem>, r: Uint64, live: seq<Item>)
    requires Lists(disk, stream, items) && Holds(disk, stream, r, live)
    ensures Consecutive(items) && live == Contents(items)
    ensures items != [] ==> items[0].offset == r
  {
    forall i | 0 <= i < |items| ensures r <= items[i].offset < r + |live| {
      assert Stores(disk, stream, items[i]);
    }
    forall o: Uint64 | r <= o < r + |live| ensures HasOffset(items, o) {
      assert FormatKey(stream, o) in disk;
    }
    Dense(items, r, |live|);
    forall i | 0 <= i < |live| ensures live[i] == Contents(items)[i] {
      assert Stores(disk, stream, items[i]);
    }
  }

  /** Increasing offsets that fill an interval are its numbers in order. */
  lemma Dense(items: seq<QueueItem>, r: Uint64, n: nat)
    requires Increasing(items) && r + n <= MAX_UINT64
    requires forall i :: 0 <= i < |items| ==> r <= items[i].offset < r + n
    requires forall o: Uint64 :: r <= o < r + n ==> HasOffset(items, o)
    ensures |items| == n && forall i :: 0 <= i < n ==> items[i].offset == r + i
  {
    DenseUpTo(items, r, n, n);
    if |items| > n { SpreadsOut(items, 0, n); }
  }

  lemma {:induction false} DenseUpTo(items: seq<QueueItem>, r: Uint64, n: nat, k: nat)
    requires Increasing(items) && r + n <= MAX_UINT64 && k <= n
    requires forall i :: 0 <= i < |items| ==> r <= items[i].offset < r + n
    requires forall o: Uint64 :: r <= o < r + n ==> HasOffset(items, o)
    ensures k <= |items| && forall i :: 0 <= i < k ==> items[i].offset == r + i
  {
    if k > 0 {
      DenseUpTo(items, r, n, k - 1);
      assert HasOffset(items, r + k - 1);
      var i :| 0 <= i < |items| && items[i].offset == r + k - 1;
      SpreadsOut(items, 0, i);
    }
  }
}
