/** When the ensemble's output depends on the order of its evidence: exactly without a salt. */
module OrderMatters {
  import opened Lists
  import opened MatchTypes
  import opened Scoring
  import opened Ensemble
  import opened Acceptance
  import D = Deterministic
  import S = SKUOverlap
  import T = Temporal

  ghost predicate OrderIndependent(p: Primitives, c: Combiner) {
    forall a, b, outA, outB ::
      Rearranged(a, b) && IsCombination(p, c, a, outA) && IsCombination(p, c, b, outB) ==> Rearranged(outA, outB)
  }

  lemma {:induction false} GroupOfOne(edges: seq<LinkEdge>, k: Key)
    requires forall e :: e in edges ==> KeyOf(e) == k
    ensures Group(edges, k) == edges
  {
    if edges != [] {
      var init := edges[..|edges| - 1];
      GroupOfOne(init, k);
      assert edges == init + [edges[|edges| - 1]];
    }
  }

  lemma OnlyOneKey(x: LinkEdge, k: Key)
    ensures HasKey([x], k) <==> KeyOf(x) == k
  {
    assert x in [x];
  }

  lemma OnlyOneAccepted(c: Combiner, edges: seq<LinkEdge>, k: Key, other: Key)
    requires edges != [] && forall e :: e in edges ==> KeyOf(e) == k
    requires Score(c.recipe.weights, edges) >= c.recipe.threshold
    ensures Accepted(c, edges, other) <==> other == k
  {
    GroupOfOne(edges, k);
    if other != k && Group(edges, other) != [] {
      GroupMember(edges, other, Group(edges, other)[0]);
    }
  }

  /** All evidence for one accepted link: the output is its consolidated edge. */
  lemma SingleLink(p: Primitives, c: Combiner, edges: seq<LinkEdge>, k: Key, x: LinkEdge)
    requires edges != [] && forall e :: e in edges ==> KeyOf(e) == k
    requires Score(c.recipe.weights, edges) >= c.recipe.threshold
    requires KeyOf(x) == k && IsEdgeFor(p, c, edges, x)
    ensures IsCombination(p, c, edges, [x])
  {
    forall other ensures HasKey([x], other) <==> Accepted(c, edges, other) {
      OnlyOneKey(x, other);
      OnlyOneAccepted(c, edges, k, other);
    }
  }

  lemma FirstOfTied(p: Primitives, c: Combiner, k: Key, e: LinkEdge, f: LinkEdge, score: real)
    requires c.salt == "" && e.confidence == f.confidence
    ensures var x := EdgeFor(p, c, k, [e, f], score);
            KeyOf(x) == k && x.proof == e.proof
  {
    assert [e, f][..1] == [e];
  }

  lemma SureScore(group: seq<LinkEdge>)
    requires group != [] && forall e :: e in group ==> e.recipe == D.RECIPE && e.confidence == 1.0
    ensures Score(DefaultWeights(), group) >= 0.8
  {
    RecipeNames();
    NamesDiffer();
    assert Names(group) <= {D.NAME};
    ThreeContributions(DefaultWeights(), group, D.NAME, T.NAME, S.NAME);
    WeightOf(group[0]);
    BestIsMaximum(DefaultWeights(), group, D.NAME);
    assert Counts(DefaultWeights(), group, D.NAME, group[0]);
  }

  lemma TiedOutput(p: Primitives, k: Key, e: LinkEdge, f: LinkEdge) returns (x: LinkEdge)
    requires KeyOf(e) == KeyOf(f) == k && e.recipe == f.recipe == D.RECIPE && e.confidence == f.confidence == 1.0
    ensures IsCombination(p, DefaultCombiner(""), [e, f], [x]) && x.proof == e.proof
  {
    var score := Score(DefaultWeights(), [e, f]);
    x := EdgeFor(p, DefaultCombiner(""), k, [e, f], score);
    FirstOfTied(p, DefaultCombiner(""), k, e, f, score);
    SureScore([e, f]);
    GroupOfOne([e, f], k);
    SingleLink(p, DefaultCombiner(""), [e, f], k, x);
  }

  lemma DifferentProofs(x: LinkEdge, y: LinkEdge)
    requires x.proof != y.proof
    ensures !Rearranged([x], [y])
  {
    assert multiset([x])[x] == 1 && multiset([y])[x] == 0;
  }

  /** Without a salt the proof of the first of equally confident edges wins. */
  lemma OrderMattersWithoutSalt(p: Primitives)
    ensures !OrderIndependent(p, DefaultCombiner(""))
  {
    var k := Key("u", "s", USER_SUBSCRIPTION);
    var e := LinkEdge(NO_META, k.from, k.to, k.kind, 1.0, "1", D.RECIPE, 0, "");
    var f := e.(proof := "2");
    assert "1"[0] != "2"[0];
    var x := TiedOutput(p, k, e, f);
    var y := TiedOutput(p, k, f, e);
    DifferentProofs(x, y);
    assert multiset([e, f]) == multiset([f, e]);
    assert Rearranged([e, f], [f, e]);
  }

  /** For every keyed hash: the default ensemble ignores the order of its evidence exactly
      when it has a salt. */
  lemma OrderIndependentIffSalted(p: Primitives, salt: string)
    ensures OrderIndependent(p, DefaultCombiner(salt)) <==> salt != ""
  {
    if salt == "" {
      OrderMattersWithoutSalt(p);
    } else {
      forall a, b, outA, outB
        | Rearranged(a, b)
          && IsCombination(p, DefaultCombiner(salt), a, outA) && IsCombination(p, DefaultCombiner(salt), b, outB)
        ensures Rearranged(outA, outB)
      {
        CombineIgnoresOrder(p, DefaultCombiner(salt), a, b, outA, outB);
      }
    }
  }
}
