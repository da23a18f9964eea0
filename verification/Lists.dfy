/** Sequences built by nested loops: one result per element, concatenated. */
module Lists {

  function ConcatMap<A, B>(f: A -> seq<B>, xs: seq<A>): seq<B> {
    if xs == [] then [] else ConcatMap(f, xs[..|xs| - 1]) + f(xs[|xs| - 1])
  }

  lemma ConcatMapSnoc<A, B>(f: A -> seq<B>, xs: seq<A>, i: nat)
    requires i < |xs|
    ensures ConcatMap(f, xs[..i + 1]) == ConcatMap(f, xs[..i]) + f(xs[i])
  {
    assert xs[..i + 1][..i] == xs[..i];
  }

  lemma Associates<T>(a: seq<T>, b: seq<T>, c: seq<T>)
    ensures (a + b) + c == a + (b + c)
  {
  }

  lemma {:induction false} ConcatMapAppend<A, B>(f: A -> seq<B>, xs: seq<A>, ys: seq<A>)
    ensures ConcatMap(f, xs + ys) == ConcatMap(f, xs) + ConcatMap(f, ys)
  {
    if ys == [] {
      assert xs + ys == xs;
    } else {
      var init, last := ys[..|ys| - 1], ys[|ys| - 1];
      ConcatMapAppend(f, xs, init);
      assert xs + ys == (xs + init) + [last];
      assert (xs + ys)[..|xs + ys| - 1] == xs + init;
      Associates(ConcatMap(f, xs), ConcatMap(f, init), f(last));
    }
  }

  lemma {:induction false} ConcatMapSame<A, B>(f: A -> seq<B>, g: A -> seq<B>, xs: seq<A>)
    requires forall x :: x in xs ==> f(x) == g(x)
    ensures ConcatMap(f, xs) == ConcatMap(g, xs)
  {
    if xs != [] { ConcatMapSame(f, g, xs[..|xs| - 1]); }
  }

  lemma ConcatMapOne<A, B>(f: A -> seq<B>, x: A)
    ensures ConcatMap(f, [x]) == f(x)
  {
    assert [x][..0] == [];
  }

  lemma ConcatMapThree<A, B>(f: A -> seq<B>, x: A, y: A, z: A)
    ensures ConcatMap(f, [x, y, z]) == f(x) + f(y) + f(z)
  {
    ConcatMapAppend(f, [x, y], [z]);
    ConcatMapAppend(f, [x], [y]);
    ConcatMapOne(f, x);
    ConcatMapOne(f, y);
    ConcatMapOne(f, z);
    assert [x, y] + [z] == [x, y, z] && [x] + [y] == [x, y];
  }

  /** Running `g` over the concatenated results of `h` is running it inside the loop. */
  lemma {:induction false} ConcatMapNested<A, B, C>(g: B -> seq<C>, h: A -> seq<B>, gh: A -> seq<C>, xs: seq<A>)
    requires forall x :: x in xs ==> gh(x) == ConcatMap(g, h(x))
    ensures ConcatMap(g, ConcatMap(h, xs)) == ConcatMap(gh, xs)
  {
    if xs != [] {
      var init := xs[..|xs| - 1];
      ConcatMapNested(g, h, gh, init);
      ConcatMapAppend(g, ConcatMap(h, init), h(xs[|xs| - 1]));
    }
  }

  lemma {:induction false} ConcatMapMember<A, B>(f: A -> seq<B>, xs: seq<A>, y: B)
    ensures y in ConcatMap(f, xs) <==> exists x :: x in xs && y in f(x)
  {
    if xs != [] {
      var init, last := xs[..|xs| - 1], xs[|xs| - 1];
      ConcatMapMember(f, init, y);
      assert forall x :: x in xs <==> x in init || x == last;
    }
  }

  lemma {:induction false} ConcatMapGrows<A, B>(f: A -> seq<B>, xs: seq<A>, i: nat)
    requires i <= |xs|
    ensures |ConcatMap(f, xs[..i])| <= |ConcatMap(f, xs)|
  {
    if i == |xs| {
      assert xs[..i] == xs;
    } else {
      var init := xs[..|xs| - 1];
      ConcatMapGrows(f, init, i);
      assert init[..i] == xs[..i];
    }
  }

  // ----- rearrangements -----------------------------------------------------------------

  /** Two sequences hold the same elements equally often. */
  ghost predicate Rearranged<A>(xs: seq<A>, ys: seq<A>) {
    multiset(xs) == multiset(ys)
  }

  function Map<A, B>(f: A -> B, xs: seq<A>): seq<B> {
    seq(|xs|, i requires 0 <= i < |xs| => f(xs[i]))
  }

  lemma MapAppend<A, B>(f: A -> B, xs: seq<A>, ys: seq<A>)
    ensures Map(f, xs + ys) == Map(f, xs) + Map(f, ys)
  {
  }

  /** Taking out the element at `j`. */
  lemma TakeOut<A>(ys: seq<A>, j: nat)
    requires j < |ys|
    ensures ys == ys[..j] + [ys[j]] + ys[j + 1..]
    ensures multiset(ys[..j] + ys[j + 1..]) == multiset(ys) - multiset{ys[j]}
  {
    assert ys == ys[..j] + [ys[j]] + ys[j + 1..];
  }

  lemma MapTakeOut<A, B>(f: A -> B, ys: seq<A>, j: nat)
    requires j < |ys|
    ensures multiset(Map(f, ys)) == multiset(Map(f, ys[..j] + ys[j + 1..])) + multiset{f(ys[j])}
  {
    TakeOut(ys, j);
    MapAppend(f, ys[..j] + [ys[j]], ys[j + 1..]);
    MapAppend(f, ys[..j], [ys[j]]);
    MapAppend(f, ys[..j], ys[j + 1..]);
    assert Map(f, [ys[j]]) == [f(ys[j])];
  }

  lemma {:induction false} MapRearranged<A, B>(f: A -> B, xs: seq<A>, ys: seq<A>)
    requires Rearranged(xs, ys)
    ensures Rearranged(Map(f, xs), Map(f, ys))
  {
    assert |xs| == |multiset(xs)| == |multiset(ys)| == |ys|;
    if xs != [] {
      assert xs[0] in multiset(ys);
      var j :| 0 <= j < |ys| && ys[j] == xs[0];
      TakeOut(xs, 0);
      TakeOut(ys, j);
      var restX, restY := xs[..0] + xs[1..], ys[..j] + ys[j + 1..];
      MapTakeOut(f, xs, 0);
      MapTakeOut(f, ys, j);
      MapRearranged(f, restX, restY);
    }
  }

  predicate Distinct<A(==)>(xs: seq<A>) {
    forall i, j :: 0 <= i < j < |xs| ==> xs[i] != xs[j]
  }

  /** Without repetitions, having the same elements is being a rearrangement. */
  lemma DistinctRearranged<A>(xs: seq<A>, ys: seq<A>)
    requires Distinct(xs) && Distinct(ys)
    requires forall x :: x in xs <==> x in ys
    ensures Rearranged(xs, ys)
  {
    forall x ensures multiset(xs)[x] == multiset(ys)[x] {
      DistinctCount(xs, x);
      DistinctCount(ys, x);
    }
  }

  lemma {:induction false} DistinctCount<A>(xs: seq<A>, x: A)
    requires Distinct(xs)
    ensures multiset(xs)[x] == if x in xs then 1 else 0
  {
    if xs != [] {
      var init := xs[..|xs| - 1];
      assert xs == init + [xs[|xs| - 1]];
      DistinctCount(init, x);
    }
  }
}
