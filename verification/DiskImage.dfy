/** How a queue lies in the key-value store, and what a restart reads back from it. */
module DiskImage {
  import opened Lexicographic
  import opened KeyCodec

  type Stream = s: string | ':' !in s witness "dlq"

  const STREAM_DLQ: Stream := "dlq"

  /** What the queue stores: JSON as a free algebra, so that decoding inverts encoding and
      fails on everything else. */
  datatype Payload = Raw(bytes: string) | Encoded(entry: DLQEntry)

  datatype DLQEntry = DLQEntry(
    originalEvent: Payload, stream: Stream, reason: string, errorMessage: string,
    firstAttemptAt: int, lastAttemptAt: int, attemptCount: int)

  datatype Item = Item(data: Payload, enqueuedAt: int)

  /** What a reader gets: an item with the offset to acknowledge it by. */
  datatype QueueItem = QueueItem(offset: Uint64, data: Payload, enqueuedAt: int)

  type Disk = map<string, Item>

  // ----- the interval invariant ---------------------------------------------------------

  /** The stream's keys on disk are exactly those of the offsets r, r+1, ..., one for each
      item of `live`, and they hold these items. */
  ghost predicate Holds(disk: Disk, stream: Stream, r: Uint64, live: seq<Item>) {
    && r + |live| <= MAX_UINT64
    && (forall o: Uint64 {:trigger FormatKey(stream, o)} ::
          FormatKey(stream, o) in disk <==> r <= o < r + |live|)
    && (forall o: Uint64 {:trigger FormatKey(stream, o)} ::
          r <= o < r + |live| ==> disk[FormatKey(stream, o)] == live[o - r])
    && (forall k {:trigger HasPrefix(k, StreamPrefix(stream))} ::
          k in disk && HasPrefix(k, StreamPrefix(stream)) ==> IsKey(k, stream))
  }

  ghost predicate IsKey(k: string, stream: Stream) {
    exists o: Uint64 :: k == FormatKey(stream, o)
  }

  /** A crash that leaves `disk` behind is survived with exactly the items `live`. */
  ghost predicate Survives(disk: Disk, stream: Stream, live: seq<Item>) {
    exists r: Uint64 :: Holds(disk, stream, r, live)
  }

  /** The same, with all offsets below `w`. */
  ghost predicate SurvivesBelow(disk: Disk, stream: Stream, live: seq<Item>, w: Uint64) {
    exists r: Uint64 :: Holds(disk, stream, r, live) && r + |live| <= w
  }

  /** The disks after successive transactions: each survives with the next boundary's contents. */
  ghost predicate Traces(disks: seq<Disk>, stream: Stream, b: seq<seq<Item>>, w: Uint64) {
    && |b| == |disks| + 1
    && forall i :: 0 <= i < |disks| ==> SurvivesBelow(disks[i], stream, b[i + 1], w)
  }

  /** The transactions since the trail was `before` led from one of the boundaries `b` to the
      next: a crash after any of them leaves exactly that boundary's contents. */
  ghost predicate Passes(before: seq<Disk>, after: seq<Disk>, stream: Stream, b: seq<seq<Item>>, w: Uint64) {
    before <= after && Traces(after[|before|..], stream, b, w)
  }

  lemma OneTransaction(trail: seq<Disk>, disk: Disk, stream: Stream, live: seq<Item>, r: Uint64, next: seq<Item>,
                       w: Uint64)
    requires Holds(disk, stream, r, next) && r + |next| <= w
    ensures Passes(trail, trail + [disk], stream, [live, next], w)
  {
    assert SurvivesBelow(disk, stream, next, w);
  }

  /** Keys of other streams are untouched. */
  ghost predicate SameElsewhere(before: Disk, after: Disk, stream: Stream) {
    forall k {:trigger HasPrefix(k, StreamPrefix(stream))} :: !HasPrefix(k, StreamPrefix(stream)) ==>
      (k in before <==> k in after) && (k in before ==> before[k] == after[k])
  }

  lemma OwnPrefix(stream: Stream, o: Uint64)
    ensures HasPrefix(FormatKey(stream, o), StreamPrefix(stream))
  {
    PrefixSeparatesStreams(stream, stream, o);
  }

  lemma KeyIsUnique(stream: Stream, o: Uint64)
    ensures forall m: Uint64 :: FormatKey(stream, m) == FormatKey(stream, o) ==> m == o
  {
    forall m: Uint64 | FormatKey(stream, m) == FormatKey(stream, o) ensures m == o {
      FormatKeyInjective(stream, m, o);
    }
  }

  /** Writing the next offset appends. */
  lemma PutAppends(disk: Disk, stream: Stream, r: Uint64, live: seq<Item>, w: Uint64, x: Item)
    ensures var disk' := disk[FormatKey(stream, w) := x];
            && SameElsewhere(disk, disk', stream)
            && (Holds(disk, stream, r, live) && w == r + |live| < MAX_UINT64 ==>
                  Holds(disk', stream, r, live + [x]))
  {
    KeyIsUnique(stream, w);
    OwnPrefix(stream, w);
  }

  /** `after` is `before` without the stream's keys of the offsets a, ..., b-1. */
  ghost predicate Erased(before: Disk, after: Disk, stream: Stream, a: int, b: int) {
    && SameElsewhere(before, after, stream)
    && (forall k :: k in after ==> k in before && after[k] == before[k])
    && (forall o: Uint64 :: FormatKey(stream, o) in after <==> FormatKey(stream, o) in before && !(a <= o < b))
  }

  lemma EraseOne(before: Disk, after: Disk, stream: Stream, a: int, o: Uint64)
    requires a <= o && Erased(before, after, stream, a, o)
    ensures Erased(before, after - {FormatKey(stream, o)}, stream, a, o + 1)
  {
    KeyIsUnique(stream, o);
    OwnPrefix(stream, o);
  }

  /** Erasing the first offsets drops the first items. */
  lemma EraseDropsPrefix(before: Disk, after: Disk, stream: Stream, r: Uint64, live: seq<Item>, n: Uint64)
    requires r <= n <= MAX_UINT64 && Erased(before, after, stream, r, n)
    ensures Holds(before, stream, r, live) && n <= r + |live| ==> Holds(after, stream, n, live[n - r..])
  {
  }

  /** `disk` without the keys of the `n` offsets from `r` on. */
  function Cleared(disk: Disk, stream: Stream, r: Uint64, n: nat): Disk
    requires r + n <= MAX_UINT64
  {
    if n == 0 then disk else Cleared(disk, stream, r, n - 1) - {FormatKey(stream, r + n - 1)}
  }

  lemma ClearedSteps(disk: Disk, stream: Stream, r: Uint64, o: Uint64)
    requires r <= o < MAX_UINT64
    ensures Cleared(disk, stream, r, o + 1 - r) == Cleared(disk, stream, r, o - r) - {FormatKey(stream, o)}
  {
  }

  lemma {:induction false} ClearedIsErased(disk: Disk, stream: Stream, r: Uint64, n: nat)
    requires r + n <= MAX_UINT64
    ensures Erased(disk, Cleared(disk, stream, r, n), stream, r, r + n)
  {
    if n > 0 {
      ClearedIsErased(disk, stream, r, n - 1);
      EraseOne(disk, Cleared(disk, stream, r, n - 1), stream, r, r + n - 1);
    }
  }

  lemma ClearDropsPrefix(disk: Disk, trail: seq<Disk>, stream: Stream, r: Uint64, live: seq<Item>, n: nat)
    requires Holds(disk, stream, r, live) && n <= |live|
    ensures var cleared := Cleared(disk, stream, r, n);
            && Holds(cleared, stream, r + n, live[n..])
            && Passes(trail, trail + [cleared], stream, [live, live[n..]], r + |live|)
  {
    ClearedIsErased(disk, stream, r, n);
    EraseDropsPrefix(disk, Cleared(disk, stream, r, n), stream, r, live, r + n);
    OneTransaction(trail, Cleared(disk, stream, r, n), stream, live, r + n, live[n..], r + |live|);
  }

  lemma EraseHead(disk: Disk, stream: Stream, r: Uint64, live: seq<Item>)
    requires r < MAX_UINT64
    ensures var disk' := disk - {FormatKey(stream, r)};
            && SameElsewhere(disk, disk', stream)
            && (Holds(disk, stream, r, live) && live != [] ==> Holds(disk', stream, r + 1, live[1..]))
  {
    EraseOne(disk, disk, stream, r, r);
    EraseDropsPrefix(disk, disk - {FormatKey(stream, r)}, stream, r, live, r + 1);
  }

  // ----- reading ------------------------------------------------------------------------

  /** The first `n` items of `live`, numbered from offset `r`. */
  ghost function Numbered(live: seq<Item>, r: Uint64, n: nat): (items: seq<QueueItem>)
    requires n <= |live| && r + |live| <= MAX_UINT64
  {
    seq(n, i requires 0 <= i < n => QueueItem(r + i, live[i].data, live[i].enqueuedAt))
  }

  /** The first `n` items at the offsets r, ..., w-1, missing keys skipped. */
  ghost function Batch(disk: Disk, stream: Stream, r: Uint64, w: Uint64, n: nat): seq<QueueItem>
    decreases w - r
  {
    if r >= w || n == 0 then []
    else
      var key := FormatKey(stream, r);
      if key !in disk then Batch(disk, stream, r + 1, w, n)
      else [QueueItem(r, disk[key].data, disk[key].enqueuedAt)] + Batch(disk, stream, r + 1, w, n - 1)
  }

  /** What reading one more offset adds to what was read before. */
  lemma BatchSteps(disk: Disk, stream: Stream, o: Uint64, w: Uint64, n: nat, items: seq<QueueItem>)
    requires o < w && n > 0
    ensures var key := FormatKey(stream, o);
            items + Batch(disk, stream, o, w, n) ==
            if key !in disk then items + Batch(disk, stream, o + 1, w, n)
            else (items + [QueueItem(o, disk[key].data, disk[key].enqueuedAt)]) + Batch(disk, stream, o + 1, w, n - 1)
  {
  }

  lemma NumberedSteps(live: seq<Item>, r: Uint64, n: nat)
    requires 0 < n <= |live| && r + |live| <= MAX_UINT64
    ensures Numbered(live, r, n) ==
            [QueueItem(r, live[0].data, live[0].enqueuedAt)] + Numbered(live[1..], r + 1, n - 1)
  {
  }

  /** Reading from an offset `k` items behind the first live one returns exactly the live items
      from there on: the first `k` are hidden, and no others. */
  lemma {:induction false} BatchOfHolds(disk: Disk, stream: Stream, base: Uint64, live: seq<Item>, k: nat, n: nat)
    requires Holds(disk, stream, base, live) && k <= |live|
    ensures var m := if n <= |live| - k then n else |live| - k;
            Batch(disk, stream, base + k, base + |live|, n) == Numbered(live[k..], base + k, m)
    decreases |live| - k
  {
    if k < |live| && n > 0 {
      BatchOfHolds(disk, stream, base, live, k + 1, n - 1);
      KeyHolds(disk, stream, base, live, k);
      BatchHead(disk, stream, base + k, base + |live|, n, live[k]);
      assert live[k..][1..] == live[k + 1..];
      NumberedSteps(live[k..], base + k, if n <= |live| - k then n else |live| - k);
    }
  }

  lemma BatchHead(disk: Disk, stream: Stream, r: Uint64, w: Uint64, n: nat, x: Item)
    requires r < w && n > 0 && FormatKey(stream, r) in disk && disk[FormatKey(stream, r)] == x
    ensures Batch(disk, stream, r, w, n) ==
            [QueueItem(r, x.data, x.enqueuedAt)] + Batch(disk, stream, r + 1, w, n - 1)
  {
  }

  lemma BatchOfIntact(disk: Disk, stream: Stream, r: Uint64, live: seq<Item>, n: nat)
    requires Holds(disk, stream, r, live)
    ensures var items, m := Batch(disk, stream, r, r + |live|, n), if n <= |live| then n else |live|;
            && items == Numbered(live, r, m) && |items| == m
            && forall i :: 0 <= i < m ==> items[i] == QueueItem(r + i, live[i].data, live[i].enqueuedAt)
  {
    BatchOfHolds(disk, stream, r, live, 0, n);
    assert live[0..] == live;
  }

  lemma KeyHolds(disk: Disk, stream: Stream, base: Uint64, live: seq<Item>, k: nat)
    requires Holds(disk, stream, base, live) && k < |live|
    ensures FormatKey(stream, base + k) in disk && disk[FormatKey(stream, base + k)] == live[k]
  {
  }

  // ----- restart ------------------------------------------------------------------------

  /** The offsets that a scan of the stream's prefix can parse. */
  function Offsets(keys: set<string>, stream: Stream): set<Uint64> {
    set k | k in keys && HasPrefix(k, StreamPrefix(stream)) && ParseOffset(k).Some?
      :: ParseOffset(k).value
  }

  ghost predicate IsLeast(n: Uint64, s: set<Uint64>) {
    n in s && forall o :: o in s ==> n <= o
  }

  ghost predicate IsGreatest(n: Uint64, s: set<Uint64>) {
    n in s && forall o :: o in s ==> o <= n
  }

  /** `n + 1`, 64 bits wide. */
  function Successor(n: Uint64): Uint64 {
    if n == MAX_UINT64 then 0 else n + 1
  }

  /** What `recover` promises about any disk: the volatile offsets span the offsets found; the
      increment of the greatest one is 64 bits wide. */
  ghost predicate RecoveredAs(disk: Disk, stream: Stream, r: Uint64, w: Uint64) {
    IsSpan(Offsets(disk.Keys, stream), r, w)
  }

  ghost predicate IsSpan(found: set<Uint64>, r: Uint64, w: Uint64) {
    if found == {} then r == w == 0
    else IsLeast(r, found) && exists max: Uint64 :: IsGreatest(max, found) && w == Successor(max)
  }

  lemma SpanOfInterval(found: set<Uint64>, r: Uint64, n: nat, r': Uint64, w': Uint64)
    requires r + n <= MAX_UINT64 && forall o: Uint64 :: o in found <==> r <= o < r + n
    requires IsSpan(found, r', w')
    ensures r' == (if n == 0 then 0 else r) && w' == r' + n
  {
    if n > 0 {
      var last: Uint64 := r + n - 1;
      assert r in found && last in found;
      var max: Uint64 :| IsGreatest(max, found) && w' == Successor(max);
      assert max == last;
    }
  }

  /** A disk without the stream's keys is the empty queue's, wherever its offsets stand. */
  lemma EmptyHolds(disk: Disk, stream: Stream, r: Uint64)
    ensures (forall k {:trigger HasPrefix(k, StreamPrefix(stream))} ::
               k in disk ==> !HasPrefix(k, StreamPrefix(stream)))
            <==> Holds(disk, stream, r, [])
  {
    if forall k :: k in disk ==> !HasPrefix(k, StreamPrefix(stream)) {
      forall o: Uint64 ensures FormatKey(stream, o) !in disk { OwnPrefix(stream, o); }
    }
  }

  lemma OffsetsFound(disk: Disk, stream: Stream, r: Uint64, live: seq<Item>)
    requires Holds(disk, stream, r, live)
    ensures forall o: Uint64 :: o in Offsets(disk.Keys, stream) <==> r <= o < r + |live|
  {
    var found := Offsets(disk.Keys, stream);
    forall o: Uint64 ensures o in found <==> r <= o < r + |live| {
      ParseInvertsFormat(stream, o);
      OwnPrefix(stream, o);
      if o in found {
        var k :| k in disk.Keys && HasPrefix(k, StreamPrefix(stream)) && ParseOffset(k) == Some(o);
        var o': Uint64 :| k == FormatKey(stream, o');
        ParseInvertsFormat(stream, o');
      }
    }
  }

  /** Whatever offsets `recover` settles on, it reads back the same items; an emptied queue
      restarts at offset 0. */
  lemma RecoveryIsFaithful(disk: Disk, stream: Stream, r: Uint64, live: seq<Item>, r': Uint64, w': Uint64)
    requires Holds(disk, stream, r, live)
    requires RecoveredAs(disk, stream, r', w')
    ensures Holds(disk, stream, r', live) && w' == r' + |live|
    ensures r' == if live == [] then 0 else r
  {
    OffsetsFound(disk, stream, r, live);
    SpanOfInterval(Offsets(disk.Keys, stream), r, |live|, r', w');
    if live == [] {
      EmptyHolds(disk, stream, r);
      EmptyHolds(disk, stream, 0);
    }
  }

  lemma SameItems(disk: Disk, stream: Stream, r: Uint64, a: seq<Item>, b: seq<Item>)
    requires Holds(disk, stream, r, a) && Holds(disk, stream, r, b) && |a| == |b|
    ensures a == b
  {
    forall i | 0 <= i < |a| ensures a[i] == b[i] {
      KeyHolds(disk, stream, r, a, i);
      KeyHolds(disk, stream, r, b, i);
    }
  }

  /** A disk determines the contents that survive on it. */
  lemma SurvivesOnce(disk: Disk, stream: Stream, r: Uint64, w: Uint64, a: seq<Item>, b: seq<Item>)
    requires RecoveredAs(disk, stream, r, w)
    requires Survives(disk, stream, a) && Survives(disk, stream, b)
    ensures Holds(disk, stream, r, a) && w == r + |a|
    ensures a == b
  {
    var ra: Uint64, rb: Uint64 :| Holds(disk, stream, ra, a) && Holds(disk, stream, rb, b);
    RecoveryIsFaithful(disk, stream, ra, a, r, w);
    RecoveryIsFaithful(disk, stream, rb, b, r, w);
    SameItems(disk, stream, r, a, b);
  }
}
