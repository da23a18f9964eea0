/** The weighted score of a group of edges: for each matcher the best weighted confidence (at
    least 0), summed over the matchers. Scores are exact reals. */
module Scoring {
  import opened Lists
  import opened MatchTypes

  type Weights = map<string, real>

  function IndexOfSlash(s: string): (i: nat)
    ensures i <= |s|
  {
    if s == "" || s[0] == '/' then 0 else 1 + IndexOfSlash(s[1..])
  }

  /** The part of "name/version" in front of the slash; a recipe without a slash, or with one
      at the very front, is its own name. */
  function MatcherName(recipe: string): string {
    var i := IndexOfSlash(recipe);
    if 0 < i < |recipe| then recipe[..i] else recipe
  }

  function Weighted(weights: Weights, edge: LinkEdge): real {
    var name := MatcherName(edge.recipe);
    (if name in weights then weights[name] else 0.0) * edge.confidence
  }

  // ----- the score, declaratively -------------------------------------------------------

  predicate Counts(weights: Weights, group: seq<LinkEdge>, name: string, e: LinkEdge) {
    e in group && MatcherName(e.recipe) == name
  }

  function Best(weights: Weights, group: seq<LinkEdge>, name: string): (best: real)
    ensures best >= 0.0
  {
    if group == [] then 0.0
    else
      var before, e := Best(weights, group[..|group| - 1], name), group[|group| - 1];
      if MatcherName(e.recipe) == name && Weighted(weights, e) > before then Weighted(weights, e) else before
  }

  /** That is the greatest of 0 and the weighted confidences of the matcher's edges. */
  lemma {:induction false} BestIsMaximum(weights: Weights, group: seq<LinkEdge>, name: string)
    ensures forall e :: Counts(weights, group, name, e) ==> Weighted(weights, e) <= Best(weights, group, name)
    ensures Best(weights, group, name) == 0.0
         || exists e :: Counts(weights, group, name, e) && Weighted(weights, e) == Best(weights, group, name)
  {
    if group != [] {
      var init, last := group[..|group| - 1], group[|group| - 1];
      BestIsMaximum(weights, init, name);
      assert forall e :: Counts(weights, group, name, e) <==>
        Counts(weights, init, name, e) || (e == last && MatcherName(e.recipe) == name);
    }
  }

  ghost function BestOf(weights: Weights, group: seq<LinkEdge>): string -> real {
    name => Best(weights, group, name)
  }

  function Names(group: seq<LinkEdge>): set<string> {
    set e | e in group :: MatcherName(e.recipe)
  }

  ghost function SumOver(names: set<string>, f: string -> real): real {
    if names == {} then 0.0 else var n :| n in names; f(n) + SumOver(names - {n}, f)
  }

  ghost function Score(weights: Weights, group: seq<LinkEdge>): real {
    SumOver(Names(group), BestOf(weights, group))
  }

  // ----- sums do not depend on the order ------------------------------------------------

  lemma {:induction false} SumRemove(names: set<string>, f: string -> real, n: string)
    requires n in names
    ensures SumOver(names, f) == f(n) + SumOver(names - {n}, f)
  {
    var m :| m in names && SumOver(names, f) == f(m) + SumOver(names - {m}, f);
    if m != n {
      SumRemove(names - {m}, f, n);
      SumRemove(names - {n}, f, m);
      assert names - {m} - {n} == names - {n} - {m};
    }
  }

  lemma {:induction false} SumSame(names: set<string>, f: string -> real, g: string -> real)
    requires forall n :: n in names ==> f(n) == g(n)
    ensures SumOver(names, f) == SumOver(names, g)
  {
    if names != {} {
      var n :| n in names;
      SumRemove(names, f, n);
      SumRemove(names, g, n);
      SumSame(names - {n}, f, g);
    }
  }

  /** Names without a contribution may be left out of the sum. */
  lemma {:induction false} SumSuperset(names: set<string>, more: set<string>, f: string -> real)
    requires names <= more && forall n :: n in more - names ==> f(n) == 0.0
    ensures SumOver(names, f) == SumOver(more, f)
    decreases more - names
  {
    if more - names == {} {
      forall n | n in more ensures n in names { assert n in names + (more - names); }
      assert names == more;
    } else {
      var n :| n in more - names;
      SumRemove(names + {n}, f, n);
      assert names + {n} - {n} == names;
      SumSuperset(names + {n}, more, f);
    }
  }

  lemma {:induction false} SumNonNegative(names: set<string>, f: string -> real)
    requires forall n :: n in names ==> f(n) >= 0.0
    ensures SumOver(names, f) >= 0.0
  {
    if names != {} {
      var n :| n in names;
      SumRemove(names, f, n);
      SumNonNegative(names - {n}, f);
    }
  }

  lemma BestIgnoresOrder(weights: Weights, a: seq<LinkEdge>, b: seq<LinkEdge>, name: string)
    requires forall e :: e in a <==> e in b
    ensures Best(weights, a, name) == Best(weights, b, name)
  {
    BestIsMaximum(weights, a, name);
    BestIsMaximum(weights, b, name);
    assert forall e :: Counts(weights, a, name, e) <==> Counts(weights, b, name, e);
  }

  /** The score depends only on which edges the group holds. */
  lemma ScoreIgnoresOrder(weights: Weights, a: seq<LinkEdge>, b: seq<LinkEdge>)
    requires forall e :: e in a <==> e in b
    ensures Score(weights, a) == Score(weights, b)
  {
    assert Names(a) == Names(b);
    forall n { BestIgnoresOrder(weights, a, b, n); }
    SumSame(Names(a), BestOf(weights, a), BestOf(weights, b));
  }

  // ----- what a score is ----------------------------------------------------------------

  lemma {:induction false} SlashPosition(name: string, rest: string)
    requires '/' !in name
    ensures IndexOfSlash(name + "/" + rest) == |name|
  {
    if name != "" {
      assert (name + "/" + rest)[1..] == name[1..] + "/" + rest;
      SlashPosition(name[1..], rest);
    }
  }

  lemma NameBeforeSlash(name: string, version: string)
    requires '/' !in name && name != ""
    ensures MatcherName(name + "/" + version) == name
  {
    SlashPosition(name, version);
    assert (name + "/" + version)[..|name|] == name;
  }

  lemma NoSlash(name: string)
    requires '/' !in name
    ensures MatcherName(name) == name
  {
    NoSlashPosition(name);
  }

  lemma {:induction false} NoSlashPosition(name: string)
    requires '/' !in name
    ensures IndexOfSlash(name) == |name|
  {
    if name != "" { NoSlashPosition(name[1..]); }
  }

  lemma NamedBefore(recipe: string, name: string)
    requires name != "" && '/' !in name
    requires recipe == name || exists version :: recipe == name + "/" + version
    ensures MatcherName(recipe) == name
  {
    if recipe == name {
      NoSlash(name);
    } else {
      var version :| recipe == name + "/" + version;
      NameBeforeSlash(name, version);
    }
  }

  lemma ScoreIsBest(weights: Weights, group: seq<LinkEdge>, name: string)
    requires Names(group) <= {name}
    ensures Score(weights, group) == Best(weights, group, name)
  {
    var f := BestOf(weights, group);
    forall n | n in {name} - Names(group) ensures f(n) == 0.0 { BestIsMaximum(weights, group, n); }
    SumSuperset(Names(group), {name}, f);
    SumRemove({name}, f, name);
    assert {name} - {name} == {};
  }

  /** An edge counts with the weight of the matcher that its recipe names in front of the slash,
      and not at all if there is none. */
  lemma WeightedIs(weights: Weights, x: LinkEdge, name: string)
    requires name != "" && '/' !in name
    requires x.recipe == name || exists version :: x.recipe == name + "/" + version
    ensures Weighted(weights, x) == (if name in weights then weights[name] else 0.0) * x.confidence
  {
    NamedBefore(x.recipe, name);
  }

  /** The edges of one matcher score the greatest of 0 and what they count. */
  lemma ScoreOfOneMatcher(weights: Weights, group: seq<LinkEdge>, name: string)
    requires name != "" && '/' !in name
    requires forall x :: x in group ==> x.recipe == name || exists version :: x.recipe == name + "/" + version
    ensures var score := Score(weights, group);
            && score >= 0.0
            && (forall x :: x in group ==> Weighted(weights, x) <= score)
            && (score == 0.0 || exists x :: x in group && Weighted(weights, x) == score)
  {
    forall x | x in group ensures MatcherName(x.recipe) == name { NamedBefore(x.recipe, name); }
    ScoreIsBest(weights, group, name);
    BestIsMaximum(weights, group, name);
    forall x | x in group ensures Counts(weights, group, name, x) { }
  }

  lemma {:induction false} SumUnion(a: set<string>, b: set<string>, f: string -> real)
    requires a !! b
    ensures SumOver(a + b, f) == SumOver(a, f) + SumOver(b, f)
  {
    if a == {} {
      assert a + b == b;
    } else {
      var n :| n in a;
      SumRemove(a, f, n);
      SumRemove(a + b, f, n);
      assert a + b - {n} == (a - {n}) + b;
      SumUnion(a - {n}, b, f);
    }
  }

  /** Different matchers' scores add up. */
  lemma ScoreOfMatchersAdds(weights: Weights, a: seq<LinkEdge>, b: seq<LinkEdge>)
    requires forall x, y :: x in a && y in b ==> MatcherName(x.recipe) != MatcherName(y.recipe)
    ensures Score(weights, a + b) == Score(weights, a) + Score(weights, b)
  {
    assert forall x :: x in a + b <==> x in a || x in b;
    assert Names(a + b) == Names(a) + Names(b) && Names(a) !! Names(b);
    SumUnion(Names(a), Names(b), BestOf(weights, a + b));
    forall n | n in Names(a) ensures Best(weights, a + b, n) == Best(weights, a, n) {
      BestOfPart(weights, a + b, a, n);
    }
    forall n | n in Names(b) ensures Best(weights, a + b, n) == Best(weights, b, n) {
      BestOfPart(weights, a + b, b, n);
    }
    SumSame(Names(a), BestOf(weights, a + b), BestOf(weights, a));
    SumSame(Names(b), BestOf(weights, a + b), BestOf(weights, b));
  }

  lemma BestOfPart(weights: Weights, all: seq<LinkEdge>, part: seq<LinkEdge>, name: string)
    requires forall e :: Counts(weights, all, name, e) <==> Counts(weights, part, name, e)
    ensures Best(weights, all, name) == Best(weights, part, name)
  {
    BestIsMaximum(weights, all, name);
    BestIsMaximum(weights, part, name);
  }

  // ----- the algorithm ------------------------------------------------------------------

  function At(scores: map<string, real>, name: string): real {
    if name in scores then scores[name] else 0.0
  }

  ghost predicate BestSoFar(scores: map<string, real>, weights: Weights, group: seq<LinkEdge>) {
    forall n :: At(scores, n) == Best(weights, group, n)
  }

  /** Keeps the higher of the scores. */
  function Raise(scores: map<string, real>, name: string, score: real): map<string, real> {
    if score > At(scores, name) then scores[name := score] else scores
  }

  lemma RaiseStep(scores: map<string, real>, weights: Weights, group: seq<LinkEdge>, i: nat)
    requires i < |group| && BestSoFar(scores, weights, group[..i])
    ensures BestSoFar(Raise(scores, MatcherName(group[i].recipe), Weighted(weights, group[i])), weights, group[..i + 1])
  {
    assert group[..i + 1][..i] == group[..i];
    var name, score := MatcherName(group[i].recipe), Weighted(weights, group[i]);
    var raised := Raise(scores, name, score);
    forall n ensures At(raised, n) == Best(weights, group[..i + 1], n) {
      assert At(scores, n) == Best(weights, group[..i], n);
    }
  }

  /** The first loop: the best weighted confidence by matcher. */
  method ScoresByMatcher(weights: Weights, group: seq<LinkEdge>) returns (scores: map<string, real>)
    ensures scores.Keys <= Names(group)
    ensures BestSoFar(scores, weights, group)
  {
    scores := map[];
    for i := 0 to |group|
      invariant scores.Keys <= Names(group)
      invariant BestSoFar(scores, weights, group[..i])
    {
      RaiseStep(scores, weights, group, i);
      scores := Raise(scores, MatcherName(group[i].recipe), Weighted(weights, group[i]));
    }
    assert group[..|group|] == group;
  }

  /** `calculateWeightedScore`: the sum over the matchers, in any order. */
  method CalculateWeightedScore(weights: Weights, group: seq<LinkEdge>) returns (total: real)
    ensures total == Score(weights, group)
  {
    var scores := ScoresByMatcher(weights, group);
    total := 0.0;
    var todo := scores.Keys;
    ghost var f := BestOf(weights, group);
    while todo != {}
      invariant todo <= scores.Keys
      invariant total + SumOver(todo, f) == SumOver(scores.Keys, f)
      decreases todo
    {
      var n :| n in todo;
      SumRemove(todo, f, n);
      assert scores[n] == At(scores, n) == f(n);
      total := total + scores[n];
      todo := todo - {n};
    }
    forall n | n in Names(group) - scores.Keys ensures f(n) == 0.0 { assert At(scores, n) == 0.0; }
    SumSuperset(scores.Keys, Names(group), f);
  }
}
