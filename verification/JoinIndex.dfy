/** The hash index behind the joins: every record is filed under each of its keys, once per
    occurrence of the key. */
module JoinIndex {
  import opened Lists

  type Index<T> = map<string, seq<T>>

  function Lookup<T>(index: Index<T>, key: string): seq<T> {
    if key in index then index[key] else []
  }

  function IfKey<T>(key: string, x: T): string -> seq<T> {
    k => if k == key then [x] else []
  }

  /** The copies of a record that belong under a key. */
  function Copies<T>(keysOf: T -> seq<string>, key: string): T -> seq<T> {
    x => ConcatMap(IfKey(key, x), keysOf(x))
  }

  ghost predicate Filed<T>(index: Index<T>, filed: Index<T>, keys: seq<string>, x: T) {
    forall key :: Lookup(filed, key) == Lookup(index, key) + ConcatMap(IfKey(key, x), keys)
  }

  lemma FiledUnder<T>(index: Index<T>, filed: Index<T>, keys: seq<string>, j: nat, x: T, key: string)
    requires j < |keys| && Lookup(filed, key) == Lookup(index, key) + ConcatMap(IfKey(key, x), keys[..j])
    ensures Lookup(filed[keys[j] := Lookup(filed, keys[j]) + [x]], key)
            == Lookup(index, key) + ConcatMap(IfKey(key, x), keys[..j + 1])
  {
    ConcatMapSnoc(IfKey(key, x), keys, j);
    LookupFiled(filed, keys[j], x, key);
    Associates(Lookup(index, key), ConcatMap(IfKey(key, x), keys[..j]), IfKey(key, x)(keys[j]));
  }

  lemma LookupFiled<T>(filed: Index<T>, k: string, x: T, key: string)
    ensures Lookup(filed[k := Lookup(filed, k) + [x]], key) == Lookup(filed, key) + IfKey(key, x)(k)
  {
  }

  lemma FiledOnce<T>(index: Index<T>, filed: Index<T>, keys: seq<string>, j: nat, x: T)
    requires j < |keys| && Filed(index, filed, keys[..j], x)
    ensures Filed(index, filed[keys[j] := Lookup(filed, keys[j]) + [x]], keys[..j + 1], x)
  {
    forall key { FiledUnder(index, filed, keys, j, x, key); }
  }

  method File<T>(index: Index<T>, keys: seq<string>, x: T) returns (filed: Index<T>)
    ensures Filed(index, filed, keys, x)
  {
    filed := index;
    for j := 0 to |keys|
      invariant Filed(index, filed, keys[..j], x)
    {
      FiledOnce(index, filed, keys, j, x);
      filed := filed[keys[j] := Lookup(filed, keys[j]) + [x]];
    }
    assert keys[..|keys|] == keys;
  }

  /** A bucket lists, in input order, each record once per occurrence of the key. */
  method Build<T>(keysOf: T -> seq<string>, xs: seq<T>) returns (index: Index<T>)
    ensures forall key :: Lookup(index, key) == ConcatMap(Copies(keysOf, key), xs)
  {
    index := map[];
    for i := 0 to |xs|
      invariant forall key :: Lookup(index, key) == ConcatMap(Copies(keysOf, key), xs[..i])
    {
      forall key { ConcatMapSnoc(Copies(keysOf, key), xs, i); }
      index := File(index, keysOf(xs[i]), xs[i]);
    }
    assert xs[..|xs|] == xs;
  }

  /** The nested loop that an index lookup replaces: over all records and all their keys. */
  function NestedLoop<T, R>(f: T -> seq<R>, keysOf: T -> seq<string>, key: string): T -> seq<R> {
    x => ConcatMap(IfKeyRun(f, key, x), keysOf(x))
  }

  function IfKeyRun<T, R>(f: T -> seq<R>, key: string, x: T): string -> seq<R> {
    k => if k == key then f(x) else []
  }

  lemma KeyLoop<T, R>(f: T -> seq<R>, key: string, x: T, keys: seq<string>)
    ensures ConcatMap(f, ConcatMap(IfKey(key, x), keys)) == ConcatMap(IfKeyRun(f, key, x), keys)
  {
    ConcatMapOne(f, x);
    ConcatMapNested(f, IfKey(key, x), IfKeyRun(f, key, x), keys);
  }

  /** Walking a bucket does what the nested loop does, in the same order and with the same
      multiplicity. */
  lemma BucketIsNestedLoop<T, R>(f: T -> seq<R>, keysOf: T -> seq<string>, key: string, xs: seq<T>)
    ensures ConcatMap(f, ConcatMap(Copies(keysOf, key), xs)) == ConcatMap(NestedLoop(f, keysOf, key), xs)
  {
    forall x | x in xs ensures NestedLoop(f, keysOf, key)(x) == ConcatMap(f, Copies(keysOf, key)(x)) {
      KeyLoop(f, key, x, keysOf(x));
    }
    ConcatMapNested(f, Copies(keysOf, key), NestedLoop(f, keysOf, key), xs);
  }

  /** With a single key per record the nested loop is a filter. */
  lemma SingleKeyLoop<T, R>(f: T -> seq<R>, keysOf: T -> seq<string>, filtered: T -> seq<R>, key: string, xs: seq<T>)
    requires forall x :: x in xs ==> |keysOf(x)| == 1
    requires forall x :: x in xs ==> filtered(x) == if keysOf(x)[0] == key then f(x) else []
    ensures ConcatMap(NestedLoop(f, keysOf, key), xs) == ConcatMap(filtered, xs)
  {
    forall x | x in xs ensures NestedLoop(f, keysOf, key)(x) == filtered(x) {
      ConcatMapOne(IfKeyRun(f, key, x), keysOf(x)[0]);
      assert keysOf(x) == [keysOf(x)[0]];
    }
    ConcatMapSame(NestedLoop(f, keysOf, key), filtered, xs);
  }
}
