/** The combining algorithm: group by link in a map, score each group, sort what is accepted. */
module Combine {
  import opened Lists
  import opened Lexicographic
  import opened MatchTypes
  import opened Scoring
  import opened Ensemble

  /** What the first loop accumulates for one link. */
  datatype Evidence = Evidence(edges: seq<LinkEdge>, timestamp: int, proofs: seq<string>, notes: seq<string>)

  function EvidenceOf(group: seq<LinkEdge>): Evidence
    requires group != []
  {
    Evidence(group, LatestAt(group), Proofs(group), Notes(group))
  }

  const NOTHING_YET := Evidence([], 0, [], [])

  /** Adds an edge; the first one starts the evidence. */
  function Extend(was: Evidence, e: LinkEdge): Evidence {
    Evidence(was.edges + [e], if was.edges == [] || e.at > was.timestamp then e.at else was.timestamp,
             was.proofs + [e.proof], was.notes + [e.notes])
  }

  lemma EvidenceGrows(group: seq<LinkEdge>, e: LinkEdge)
    ensures EvidenceOf(group + [e]) == Extend(if group == [] then NOTHING_YET else EvidenceOf(group), e)
  {
    assert (group + [e])[..|group|] == group;
    assert Proofs(group + [e]) == Proofs(group) + [e.proof];
    assert Notes(group + [e]) == Notes(group) + [e.notes];
  }

  /** The map's entry for a link sums up the link's group. */
  ghost predicate CollectedFor(candidates: map<Key, Evidence>, group: seq<LinkEdge>, k: Key) {
    && (k in candidates <==> group != [])
    && (k in candidates ==> candidates[k] == EvidenceOf(group))
  }

  ghost predicate Collected(candidates: map<Key, Evidence>, edges: seq<LinkEdge>) {
    forall k :: CollectedFor(candidates, Group(edges, k), k)
  }

  function AddEdge(candidates: map<Key, Evidence>, e: LinkEdge): map<Key, Evidence> {
    var k := KeyOf(e);
    candidates[k := Extend(if k in candidates then candidates[k] else NOTHING_YET, e)]
  }

  lemma AddEdgeFor(candidates: map<Key, Evidence>, group: seq<LinkEdge>, e: LinkEdge, k: Key)
    requires CollectedFor(candidates, group, k)
    ensures CollectedFor(AddEdge(candidates, e), group + IfKeyed(k)(e), k)
  {
    if KeyOf(e) == k {
      EvidenceGrows(group, e);
    } else {
      assert group + [] == group;
    }
  }

  lemma CollectedGrows(candidates: map<Key, Evidence>, edges: seq<LinkEdge>, i: nat)
    requires i < |edges| && Collected(candidates, edges[..i])
    ensures Collected(AddEdge(candidates, edges[i]), edges[..i + 1])
  {
    var grown, prefix := AddEdge(candidates, edges[i]), edges[..i + 1];
    forall k ensures CollectedFor(grown, Group(prefix, k), k) {
      ConcatMapSnoc(IfKeyed(k), edges, i);
      AddEdgeFor(candidates, Group(edges[..i], k), edges[i], k);
    }
  }

  method Collect(edges: seq<LinkEdge>) returns (candidates: map<Key, Evidence>)
    ensures Collected(candidates, edges)
  {
    candidates := map[];
    for i := 0 to |edges|
      invariant Collected(candidates, edges[..i])
    {
      CollectedGrows(candidates, edges, i);
      candidates := AddEdge(candidates, edges[i]);
    }
    assert edges[..|edges|] == edges;
  }

  ghost predicate Selected(p: Primitives, c: Combiner, edges: seq<LinkEdge>, done: set<Key>, out: seq<LinkEdge>) {
    && OnePerKey(out)
    && (forall k :: HasKey(out, k) <==> k in done && Accepted(c, edges, k))
    && (forall e :: e in out ==> IsEdgeFor(p, c, edges, e))
  }

  /** Appending an edge adds exactly its key. */
  lemma KeysGrow(out: seq<LinkEdge>, e: LinkEdge, k: Key)
    ensures HasKey(out + [e], k) <==> HasKey(out, k) || KeyOf(e) == k
  {
    if KeyOf(e) == k { assert e in out + [e]; }
    assert forall x :: x in out + [e] <==> x in out || x == e;
  }

  lemma OnePerKeyGrows(out: seq<LinkEdge>, e: LinkEdge)
    requires OnePerKey(out) && !HasKey(out, KeyOf(e))
    ensures OnePerKey(out + [e])
  {
  }

  lemma KeysSelected(c: Combiner, edges: seq<LinkEdge>, done: set<Key>, out: seq<LinkEdge>, e: LinkEdge)
    requires forall k :: HasKey(out, k) <==> k in done && Accepted(c, edges, k)
    requires Accepted(c, edges, KeyOf(e))
    ensures forall k :: HasKey(out + [e], k) <==> k in done + {KeyOf(e)} && Accepted(c, edges, k)
  {
    forall k { KeysGrow(out, e, k); }
  }

  lemma EdgesSelected(p: Primitives, c: Combiner, edges: seq<LinkEdge>, out: seq<LinkEdge>, e: LinkEdge)
    requires forall x :: x in out ==> IsEdgeFor(p, c, edges, x)
    requires IsEdgeFor(p, c, edges, e)
    ensures forall x :: x in out + [e] ==> IsEdgeFor(p, c, edges, x)
  {
    assert forall x :: x in out + [e] <==> x in out || x == e;
  }

  lemma SelectedGrows(p: Primitives, c: Combiner, edges: seq<LinkEdge>, done: set<Key>, out: seq<LinkEdge>, k: Key)
    requires Selected(p, c, edges, done, out) && k !in done && Group(edges, k) != []
    ensures !Accepted(c, edges, k) ==> Selected(p, c, edges, done + {k}, out)
    ensures Accepted(c, edges, k) ==>
              var group := Group(edges, k);
              Selected(p, c, edges, done + {k}, out + [EdgeFor(p, c, k, group, Score(c.recipe.weights, group))])
  {
    if Accepted(c, edges, k) {
      var e := EdgeFor(p, c, k, Group(edges, k), Score(c.recipe.weights, Group(edges, k)));
      assert KeyOf(e) == k;
      OnePerKeyGrows(out, e);
      KeysSelected(c, edges, done, out, e);
      EdgesSelected(p, c, edges, out, e);
    }
  }

  /** The consolidated edge, from the accumulated evidence. */
  function Consolidate(p: Primitives, c: Combiner, k: Key, candidate: Evidence, combinedScore: real): LinkEdge
    requires candidate.edges != []
  {
    var finalConfidence := if combinedScore > 1.0 then 1.0 else combinedScore;
    LinkEdge(NO_META, k.from, k.to, k.kind, finalConfidence, CombinedProof(p, c.salt, k, candidate.edges),
             c.recipe.name + "/" + c.recipe.version, candidate.timestamp,
             ConsolidatedNotes(p, candidate.notes, combinedScore))
  }

  lemma CandidateIsGroup(p: Primitives, c: Combiner, candidates: map<Key, Evidence>, edges: seq<LinkEdge>, k: Key)
    requires Collected(candidates, edges) && k in candidates
    ensures candidates[k].edges == Group(edges, k) != []
    ensures forall score :: Consolidate(p, c, k, candidates[k], score) == EdgeFor(p, c, k, Group(edges, k), score)
  {
    assert CollectedFor(candidates, Group(edges, k), k);
  }

  /** The second loop, over the candidates in any order. */
  method Select(p: Primitives, c: Combiner, candidates: map<Key, Evidence>, ghost edges: seq<LinkEdge>)
    returns (accepted: seq<LinkEdge>)
    requires Collected(candidates, edges)
    ensures Selected(p, c, edges, candidates.Keys, accepted)
  {
    accepted := [];
    var todo := candidates.Keys;
    while todo != {}
      invariant todo <= candidates.Keys
      invariant Selected(p, c, edges, candidates.Keys - todo, accepted)
      decreases todo
    {
      var k :| k in todo;
      var candidate := candidates[k];
      CandidateIsGroup(p, c, candidates, edges, k);
      SelectedGrows(p, c, edges, candidates.Keys - todo, accepted, k);
      assert candidates.Keys - todo + {k} == candidates.Keys - (todo - {k});
      var combinedScore := CalculateWeightedScore(c.recipe.weights, candidate.edges);
      if combinedScore >= c.recipe.threshold {
        accepted := accepted + [Consolidate(p, c, k, candidate, combinedScore)];
      }
      todo := todo - {k};
    }
    assert candidates.Keys - todo == candidates.Keys;
  }

  lemma BeforeTotal(a: LinkEdge, b: LinkEdge)
    ensures Before(a, b) || Before(b, a)
  {
    LeTotal(a.from, b.from);
  }

  lemma BeforeTransitive(a: LinkEdge, b: LinkEdge, c: LinkEdge)
    requires Before(a, b) && Before(b, c)
    ensures Before(a, c)
  {
    if a.confidence == b.confidence == c.confidence { LeTransitive(a.from, b.from, c.from); }
  }

  lemma InsertKeepsOrder(sorted: seq<LinkEdge>, j: nat, e: LinkEdge)
    requires Ordered(sorted) && j <= |sorted|
    requires j > 0 ==> Before(sorted[j - 1], e)
    requires j < |sorted| ==> Before(e, sorted[j])
    ensures Ordered(sorted[..j] + [e] + sorted[j..])
  {
    forall l | 0 <= l < j ensures Before(sorted[l], e) {
      if l < j - 1 { BeforeTransitive(sorted[l], sorted[j - 1], e); }
    }
    forall l | j <= l < |sorted| ensures Before(e, sorted[l]) {
      if l > j { BeforeTransitive(e, sorted[j], sorted[l]); }
    }
  }

  lemma InsertAdds(sorted: seq<LinkEdge>, j: nat, e: LinkEdge)
    requires j <= |sorted|
    ensures multiset(sorted[..j] + [e] + sorted[j..]) == multiset(sorted) + multiset{e}
  {
    assert sorted == sorted[..j] + sorted[j..];
  }

  method InsertEdge(sorted: seq<LinkEdge>, e: LinkEdge) returns (r: seq<LinkEdge>)
    requires Ordered(sorted)
    ensures Ordered(r) && multiset(r) == multiset(sorted) + multiset{e}
  {
    var j := |sorted|;
    while j > 0 && !Before(sorted[j - 1], e)
      invariant 0 <= j <= |sorted|
      invariant j < |sorted| ==> Before(e, sorted[j])
    {
      BeforeTotal(sorted[j - 1], e);
      j := j - 1;
    }
    InsertKeepsOrder(sorted, j, e);
    InsertAdds(sorted, j, e);
    r := sorted[..j] + [e] + sorted[j..];
  }

  /** Stands for `sort.Slice`, of which only the contract is used. */
  method SortEdges(edges: seq<LinkEdge>) returns (sorted: seq<LinkEdge>)
    ensures Rearranged(edges, sorted) && Ordered(sorted)
  {
    sorted := [];
    for i := 0 to |edges|
      invariant Rearranged(edges[..i], sorted) && Ordered(sorted)
    {
      sorted := InsertEdge(sorted, edges[i]);
      assert edges[..i + 1] == edges[..i] + [edges[i]];
    }
    assert edges[..|edges|] == edges;
  }

  lemma SortedStaysSelected(p: Primitives, c: Combiner, edges: seq<LinkEdge>, done: set<Key>,
                            out: seq<LinkEdge>, sorted: seq<LinkEdge>)
    requires Selected(p, c, edges, done, out) && Rearranged(out, sorted) && Ordered(sorted)
    requires forall k :: Accepted(c, edges, k) ==> k in done
    ensures IsCombination(p, c, edges, sorted)
  {
    assert forall e :: e in out <==> e in multiset(out);
    assert forall e :: e in sorted <==> e in multiset(sorted);
    forall k ensures HasKey(sorted, k) <==> HasKey(out, k) { }
    KeysRearranged(out, sorted);
  }

  lemma KeysRearranged(out: seq<LinkEdge>, sorted: seq<LinkEdge>)
    requires OnePerKey(out) && Rearranged(out, sorted)
    ensures OnePerKey(sorted)
  {
    var f := (e: LinkEdge) => KeyOf(e);
    MapRearranged(f, out, sorted);
    forall i, j | 0 <= i < j < |sorted| ensures KeyOf(sorted[i]) != KeyOf(sorted[j]) {
      if KeyOf(sorted[i]) == KeyOf(sorted[j]) {
        DistinctCount(Map(f, out), f(sorted[i]));
        CountTwice(Map(f, sorted), i, j);
      }
    }
  }

  lemma CountTwice<A>(xs: seq<A>, i: nat, j: nat)
    requires i < j < |xs| && xs[i] == xs[j]
    ensures multiset(xs)[xs[i]] >= 2
  {
    assert xs == xs[..j] + xs[j..];
    assert xs[i] in xs[..j] && xs[i] in xs[j..];
  }

  /** `Combine`. */
  method CombineEdges(p: Primitives, c: Combiner, edges: seq<LinkEdge>) returns (accepted: seq<LinkEdge>)
    ensures IsCombination(p, c, edges, accepted)
  {
    if edges == [] { return []; }
    var candidates := Collect(edges);
    var selected := Select(p, c, candidates, edges);
    accepted := SortEdges(selected);
    forall k | Accepted(c, edges, k) ensures k in candidates { assert CollectedFor(candidates, Group(edges, k), k); }
    SortedStaysSelected(p, c, edges, candidates.Keys, selected, accepted);
  }
}
