/** Combining the evidence of several matchers into one edge per link. */
module Ensemble {
  import opened Lexicographic
  import opened Lists
  import opened MatchTypes
  import opened Scoring

  datatype Recipe = Recipe(name: string, version: string, weights: Weights, threshold: real)

  datatype Key = Key(from: string, to: string, kind: string)

  function KeyOf(e: LinkEdge): Key {
    Key(e.from, e.to, e.kind)
  }

  // ----- one group ----------------------------------------------------------------------

  function IfKeyed(k: Key): LinkEdge -> seq<LinkEdge> {
    (e: LinkEdge) => if KeyOf(e) == k then [e] else []
  }

  /** The edges of one candidate link, in input order. */
  function Group(edges: seq<LinkEdge>, k: Key): seq<LinkEdge> {
    ConcatMap(IfKeyed(k), edges)
  }

  lemma GroupMember(edges: seq<LinkEdge>, k: Key, e: LinkEdge)
    ensures e in Group(edges, k) <==> KeyOf(e) == k && e in edges
  {
    ConcatMapMember(IfKeyed(k), edges, e);
  }

  function LatestAt(group: seq<LinkEdge>): (at: int)
    requires group != []
    ensures forall e :: e in group ==> e.at <= at
    ensures exists e :: e in group && e.at == at
  {
    var last := group[|group| - 1];
    if |group| == 1 then last.at
    else
      var before := LatestAt(group[..|group| - 1]);
      if last.at > before then last.at else before
  }

  function Proofs(group: seq<LinkEdge>): seq<string> {
    Map((e: LinkEdge) => e.proof, group)
  }

  function Notes(group: seq<LinkEdge>): seq<string> {
    Map((e: LinkEdge) => e.notes, group)
  }

  function Join(parts: seq<string>, separator: string): string {
    if parts == [] then ""
    else if |parts| == 1 then parts[0]
    else parts[0] + separator + Join(parts[1..], separator)
  }

  /** The separator stands between neighbours and nowhere else. */
  lemma {:induction false} JoinIs(a: seq<string>, b: seq<string>, separator: string)
    requires a != [] && b != []
    ensures Join([a[0]], separator) == a[0]
    ensures Join(a + b, separator) == Join(a, separator) + separator + Join(b, separator)
  {
    if |a| == 1 {
      assert (a + b)[1..] == b;
    } else {
      JoinIs(a[1..], b, separator);
      assert (a + b)[1..] == a[1..] + b;
    }
  }

  /** `selectBestProof`: the first edge of the highest confidence. */
  function BestEdge(group: seq<LinkEdge>): (best: LinkEdge)
    requires group != []
    ensures best in group && forall e :: e in group ==> e.confidence <= best.confidence
    ensures exists i :: 0 <= i < |group| && group[i] == best
                        && forall j :: 0 <= j < i ==> group[j].confidence < best.confidence
  {
    var last := group[|group| - 1];
    if |group| == 1 then last
    else
      var before := BestEdge(group[..|group| - 1]);
      if last.confidence > before.confidence then last else before
  }

  /** The keyed hash over the link and its sorted proofs; without a salt there is no hash and
      the best edge's own proof stands in. */
  function CombinedProof(p: Primitives, salt: string, k: Key, group: seq<LinkEdge>): string
    requires group != []
  {
    if salt == "" then BestEdge(group).proof
    else p.hmac(salt, k.from + "|" + k.to + "|" + k.kind + "|ensemble|" + Join(Sort(Proofs(group)), ","))
  }

  /** The non-empty notes, each once. */
  function Unique(notes: seq<string>): (unique: seq<string>)
    ensures Distinct(unique)
    ensures forall n :: n in unique <==> n in notes && n != ""
  {
    if notes == [] then []
    else
      var before, last := Unique(notes[..|notes| - 1]), notes[|notes| - 1];
      if last == "" || last in before then before else before + [last]
  }

  function Summary(p: Primitives, parts: seq<string>, score: real): string {
    Join(parts, "; ") + " (score=" + p.score(score) + ")"
  }

  /** `consolidateNotes`. */
  function ConsolidatedNotes(p: Primitives, notes: seq<string>, score: real): (r: string)
    ensures notes != [] ==> |r| <= 200
  {
    if notes == [] then "ensemble match (score=" + p.score(score) + ")"
    else
      var r := Summary(p, Sort(Unique(notes)), score);
      if |r| > 200 then r[..197] + "..." else r
  }

  /** The notes of a group are its non-empty notes, each once and in order, followed by the
      score, cut to 200 bytes if longer. */
  lemma NotesAre(p: Primitives, notes: seq<string>, score: real, parts: seq<string>)
    requires notes != [] && Sorted(parts) && Distinct(parts)
    requires forall n :: n in parts <==> n in notes && n != ""
    ensures var whole, r := Summary(p, parts, score), ConsolidatedNotes(p, notes, score);
            if |whole| <= 200 then r == whole
            else |r| == 200 && r[..197] == whole[..197] && r[197..] == "..."
  {
    DistinctRearranged(parts, Unique(notes));
    SortSorts(Unique(notes));
    SortedUnique(parts, Sort(Unique(notes)));
  }

  // ----- what combining means -----------------------------------------------------------

  datatype Combiner = Combiner(recipe: Recipe, salt: string)

  /** A link is accepted when it has evidence and its score reaches the threshold. */
  ghost predicate Accepted(c: Combiner, edges: seq<LinkEdge>, k: Key) {
    Group(edges, k) != [] && Score(c.recipe.weights, Group(edges, k)) >= c.recipe.threshold
  }

  /** The consolidated edge of a link. */
  function EdgeFor(p: Primitives, c: Combiner, k: Key, group: seq<LinkEdge>, score: real): LinkEdge
    requires group != []
  {
    LinkEdge(NO_META, k.from, k.to, k.kind, if score > 1.0 then 1.0 else score,
             CombinedProof(p, c.salt, k, group), c.recipe.name + "/" + c.recipe.version,
             LatestAt(group), ConsolidatedNotes(p, Notes(group), score))
  }

  ghost predicate HasKey(out: seq<LinkEdge>, k: Key) {
    exists e :: e in out && KeyOf(e) == k
  }

  ghost predicate OnePerKey(out: seq<LinkEdge>) {
    forall i, j :: 0 <= i < j < |out| ==> KeyOf(out[i]) != KeyOf(out[j])
  }

  ghost predicate IsEdgeFor(p: Primitives, c: Combiner, edges: seq<LinkEdge>, e: LinkEdge) {
    var group := Group(edges, KeyOf(e));
    group != [] && e == EdgeFor(p, c, KeyOf(e), group, Score(c.recipe.weights, group))
  }

  /** By falling confidence, then by source ID. */
  predicate Before(a: LinkEdge, b: LinkEdge) {
    if a.confidence != b.confidence then a.confidence > b.confidence else Le(a.from, b.from)
  }

  ghost predicate Ordered(out: seq<LinkEdge>) {
    forall i, j :: 0 <= i < j < |out| ==> Before(out[i], out[j])
  }

  /** Exactly one consolidated edge for every accepted link and no other, in order. */
  ghost predicate IsCombination(p: Primitives, c: Combiner, edges: seq<LinkEdge>, out: seq<LinkEdge>) {
    && OnePerKey(out)
    && (forall k {:trigger HasKey(out, k)} :: HasKey(out, k) <==> Accepted(c, edges, k))
    && (forall e :: e in out ==> IsEdgeFor(p, c, edges, e))
    && Ordered(out)
  }

  /** Every output confidence lies in [0, 1] and reaches the threshold or the cap, whatever the
      weights and the input confidences. */
  lemma ConfidenceInRange(p: Primitives, c: Combiner, edges: seq<LinkEdge>, out: seq<LinkEdge>)
    requires IsCombination(p, c, edges, out)
    ensures forall e :: e in out ==> 0.0 <= e.confidence <= 1.0
    ensures forall e :: e in out ==> e.confidence >= c.recipe.threshold || e.confidence == 1.0
  {
    forall e | e in out
      ensures 0.0 <= e.confidence <= 1.0 && (e.confidence >= c.recipe.threshold || e.confidence == 1.0)
    {
      assert IsEdgeFor(p, c, edges, e) && HasKey(out, KeyOf(e)) && Accepted(c, edges, KeyOf(e));
      var group := Group(edges, KeyOf(e));
      SumNonNegative(Names(group), BestOf(c.recipe.weights, group));
    }
  }

  // ----- the input order does not matter ------------------------------------------------

  lemma {:induction false} GroupCount(edges: seq<LinkEdge>, k: Key, e: LinkEdge)
    ensures multiset(Group(edges, k))[e] == if KeyOf(e) == k then multiset(edges)[e] else 0
  {
    if edges != [] {
      var init, last := edges[..|edges| - 1], edges[|edges| - 1];
      GroupCount(init, k, e);
      assert edges == init + [last];
      assert Group(edges, k) == Group(init, k) + IfKeyed(k)(last);
    }
  }

  lemma GroupRearranged(a: seq<LinkEdge>, b: seq<LinkEdge>, k: Key)
    requires Rearranged(a, b)
    ensures Rearranged(Group(a, k), Group(b, k))
    ensures forall e :: e in Group(a, k) <==> e in Group(b, k)
  {
    forall e ensures multiset(Group(a, k))[e] == multiset(Group(b, k))[e] {
      GroupCount(a, k, e);
      GroupCount(b, k, e);
    }
    forall e ensures e in Group(a, k) <==> e in Group(b, k) {
      assert e in Group(a, k) <==> e in multiset(Group(a, k));
      assert e in Group(b, k) <==> e in multiset(Group(b, k));
    }
  }

  /** The notes depend only on which non-empty notes there are. */
  lemma NotesAreASet(p: Primitives, a: seq<string>, b: seq<string>, score: real)
    requires a == [] <==> b == []
    requires forall n :: n != "" ==> (n in a <==> n in b)
    ensures ConsolidatedNotes(p, a, score) == ConsolidatedNotes(p, b, score)
  {
    DistinctRearranged(Unique(a), Unique(b));
    SortIgnoresOrder(Unique(a), Unique(b));
  }

  lemma NotesIgnoreOrder(p: Primitives, a: seq<string>, b: seq<string>, score: real)
    requires Rearranged(a, b)
    ensures ConsolidatedNotes(p, a, score) == ConsolidatedNotes(p, b, score)
  {
    assert |a| == |multiset(a)| == |multiset(b)| == |b|;
    forall n ensures n in a <==> n in b {
      assert n in a <==> n in multiset(a);
      assert n in b <==> n in multiset(b);
    }
    NotesAreASet(p, a, b, score);
  }

  /** With a salt, a consolidated edge is a function of the evidence as a collection. */
  lemma EdgeIgnoresOrder(p: Primitives, c: Combiner, k: Key, a: seq<LinkEdge>, b: seq<LinkEdge>, score: real)
    requires c.salt != "" && a != [] && b != []
    requires Rearranged(a, b) && forall e :: e in a <==> e in b
    ensures EdgeFor(p, c, k, a, score) == EdgeFor(p, c, k, b, score)
  {
    MapRearranged((e: LinkEdge) => e.proof, a, b);
    MapRearranged((e: LinkEdge) => e.notes, a, b);
    assert Rearranged(Proofs(a), Proofs(b)) && Rearranged(Notes(a), Notes(b));
    SortIgnoresOrder(Proofs(a), Proofs(b));
    NotesIgnoreOrder(p, Notes(a), Notes(b), score);
    assert LatestAt(a) == LatestAt(b);
  }

  lemma CombinationMembers(p: Primitives, c: Combiner, a: seq<LinkEdge>, b: seq<LinkEdge>,
                           outA: seq<LinkEdge>, outB: seq<LinkEdge>, x: LinkEdge)
    requires c.salt != "" && Rearranged(a, b)
    requires IsCombination(p, c, a, outA) && IsCombination(p, c, b, outB)
    requires x in outA
    ensures x in outB
  {
    var k := KeyOf(x);
    GroupRearranged(a, b, k);
    ScoreIgnoresOrder(c.recipe.weights, Group(a, k), Group(b, k));
    assert HasKey(outA, k) && Accepted(c, a, k) && Accepted(c, b, k) && HasKey(outB, k);
    var y :| y in outB && KeyOf(y) == k;
    assert IsEdgeFor(p, c, a, x) && IsEdgeFor(p, c, b, y);
    EdgeIgnoresOrder(p, c, k, Group(a, k), Group(b, k), Score(c.recipe.weights, Group(a, k)));
  }

  /** Permuting the evidence permutes the output, proofs included. */
  lemma CombineIgnoresOrder(p: Primitives, c: Combiner, a: seq<LinkEdge>, b: seq<LinkEdge>,
                            outA: seq<LinkEdge>, outB: seq<LinkEdge>)
    requires c.salt != "" && Rearranged(a, b)
    requires IsCombination(p, c, a, outA) && IsCombination(p, c, b, outB)
    ensures Rearranged(outA, outB)
  {
    forall x ensures x in outA <==> x in outB {
      if x in outA { CombinationMembers(p, c, a, b, outA, outB, x); }
      if x in outB { CombinationMembers(p, c, b, a, outB, outA, x); }
    }
    DistinctRearranged(outA, outB);
  }

  // ----- the order of the output --------------------------------------------------------

  ghost function Capped(c: Combiner, edges: seq<LinkEdge>, k: Key): real {
    var score := Score(c.recipe.weights, Group(edges, k));
    if score > 1.0 then 1.0 else score
  }

  /** No two accepted links share their source and their capped score. */
  ghost predicate NoTies(c: Combiner, edges: seq<LinkEdge>) {
    forall j, k | Accepted(c, edges, j) && Accepted(c, edges, k) ::
      j.from == k.from && Capped(c, edges, j) == Capped(c, edges, k) ==> j == k
  }

  predicate Tied(a: LinkEdge, b: LinkEdge) {
    a.confidence == b.confidence && a.from == b.from
  }

  lemma BeforeBothWays(a: LinkEdge, b: LinkEdge)
    ensures Before(a, b) && Before(b, a) <==> Tied(a, b)
  {
    LeReflexive(a.from);
    if Before(a, b) && Before(b, a) { LeAntisymmetric(a.from, b.from); }
  }

  /** The edge of a key is determined by the evidence. */
  lemma EdgeOfKey(p: Primitives, c: Combiner, edges: seq<LinkEdge>, out: seq<LinkEdge>, e: LinkEdge)
    requires IsCombination(p, c, edges, out) && e in out
    ensures Accepted(c, edges, KeyOf(e)) && e.confidence == Capped(c, edges, KeyOf(e)) && e.from == KeyOf(e).from
    ensures forall x :: IsEdgeFor(p, c, edges, x) && KeyOf(x) == KeyOf(e) ==> x == e
  {
    assert IsEdgeFor(p, c, edges, e) && HasKey(out, KeyOf(e));
  }

  lemma SameMembers(p: Primitives, c: Combiner, edges: seq<LinkEdge>, out: seq<LinkEdge>, out': seq<LinkEdge>)
    requires IsCombination(p, c, edges, out) && IsCombination(p, c, edges, out')
    ensures Rearranged(out, out')
  {
    forall x ensures x in out <==> x in out' {
      if x in out { MemberOfOther(p, c, edges, out, out', x); }
      if x in out' { MemberOfOther(p, c, edges, out', out, x); }
    }
    DistinctRearranged(out, out');
  }

  lemma MemberOfOther(p: Primitives, c: Combiner, edges: seq<LinkEdge>, out: seq<LinkEdge>, out': seq<LinkEdge>,
                      x: LinkEdge)
    requires IsCombination(p, c, edges, out) && IsCombination(p, c, edges, out') && x in out
    ensures x in out'
  {
    EdgeOfKey(p, c, edges, out, x);
    assert HasKey(out', KeyOf(x));
  }

  lemma {:induction false} OrderedUnique(a: seq<LinkEdge>, b: seq<LinkEdge>)
    requires Ordered(a) && Ordered(b) && Rearranged(a, b)
    requires forall x, y :: x in a && y in a && Tied(x, y) ==> x == y
    ensures a == b
  {
    assert |a| == |multiset(a)| == |multiset(b)| == |b|;
    if a != [] {
      HeadsAgree(a, b);
      WithoutFirst(a);
      WithoutFirst(b);
      OrderedUnique(a[1..], b[1..]);
      assert a == [a[0]] + a[1..] && b == [b[0]] + b[1..];
    }
  }

  lemma HeadsAgree(a: seq<LinkEdge>, b: seq<LinkEdge>)
    requires Ordered(a) && Ordered(b) && Rearranged(a, b) && a != [] && b != []
    requires forall x, y :: x in a && y in a && Tied(x, y) ==> x == y
    ensures a[0] == b[0]
  {
    assert a[0] in multiset(b) && b[0] in multiset(a);
    FirstIsBefore(a, b[0]);
    FirstIsBefore(b, a[0]);
    BeforeBothWays(a[0], b[0]);
  }

  lemma FirstIsBefore(a: seq<LinkEdge>, x: LinkEdge)
    requires Ordered(a) && x in a
    ensures Before(a[0], x)
  {
    LeReflexive(x.from);
  }

  lemma WithoutFirst(a: seq<LinkEdge>)
    requires a != [] && Ordered(a)
    ensures Ordered(a[1..]) && multiset(a[1..]) == multiset(a) - multiset{a[0]}
    ensures forall x :: x in a[1..] ==> x in a
  {
    assert a == [a[0]] + a[1..];
  }

  function Swapped(out: seq<LinkEdge>, i: nat, j: nat): seq<LinkEdge>
    requires i < j < |out|
  {
    out[i := out[j]][j := out[i]]
  }

  lemma SwapKeepsMembers(out: seq<LinkEdge>, i: nat, j: nat)
    requires i < j < |out|
    ensures forall x :: x in Swapped(out, i, j) <==> x in out
  {
    var out' := Swapped(out, i, j);
    assert out[i] == out'[j] && out[j] == out'[i];
    forall x ensures x in out' <==> x in out {
      if x in out {
        var m :| 0 <= m < |out| && out[m] == x;
        assert out'[if m == i then j else if m == j then i else m] == x;
      }
    }
  }

  lemma SwapKeepsKeys(out: seq<LinkEdge>, i: nat, j: nat)
    requires i < j < |out| && OnePerKey(out)
    ensures OnePerKey(Swapped(out, i, j)) && Swapped(out, i, j) != out
    ensures forall k :: HasKey(Swapped(out, i, j), k) <==> HasKey(out, k)
  {
    SwapKeepsMembers(out, i, j);
    assert Swapped(out, i, j)[i] == out[j];
  }

  lemma SwapKeepsCombination(p: Primitives, c: Combiner, edges: seq<LinkEdge>, out: seq<LinkEdge>, i: nat, j: nat)
    requires IsCombination(p, c, edges, out) && i < j < |out| && Tied(out[i], out[j])
    ensures IsCombination(p, c, edges, Swapped(out, i, j)) && Swapped(out, i, j) != out
  {
    SwapKeepsMembers(out, i, j);
    SwapKeepsKeys(out, i, j);
    SwapKeepsOrder(out, i, j);
  }

  lemma SwapKeepsOrder(out: seq<LinkEdge>, i: nat, j: nat)
    requires Ordered(out) && i < j < |out| && Tied(out[i], out[j])
    ensures Ordered(Swapped(out, i, j))
  {
    forall m, n | 0 <= m < n < |out| ensures Before(Swapped(out, i, j)[m], Swapped(out, i, j)[n]) {
      if i < m < j { BeforeBothWays(out[i], out[m]); }
      if i < n < j { BeforeBothWays(out[i], out[n]); }
      LeReflexive(out[i].from);
    }
  }

  lemma UntiedIsUnique(p: Primitives, c: Combiner, edges: seq<LinkEdge>, out: seq<LinkEdge>, out': seq<LinkEdge>)
    requires IsCombination(p, c, edges, out) && IsCombination(p, c, edges, out') && NoTies(c, edges)
    ensures out == out'
  {
    forall x, y | x in out && y in out && Tied(x, y) ensures x == y {
      EdgeOfKey(p, c, edges, out, x);
      EdgeOfKey(p, c, edges, out, y);
    }
    SameMembers(p, c, edges, out, out');
    OrderedUnique(out, out');
  }

  lemma IndexOfKey(p: Primitives, c: Combiner, edges: seq<LinkEdge>, out: seq<LinkEdge>, k: Key) returns (m: nat)
    requires IsCombination(p, c, edges, out) && Accepted(c, edges, k)
    ensures m < |out| && KeyOf(out[m]) == k && out[m].confidence == Capped(c, edges, k) && out[m].from == k.from
  {
    assert HasKey(out, k);
    var e :| e in out && KeyOf(e) == k;
    EdgeOfKey(p, c, edges, out, e);
    m :| 0 <= m < |out| && out[m] == e;
  }

  lemma TieInOutput(p: Primitives, c: Combiner, edges: seq<LinkEdge>, out: seq<LinkEdge>, j: Key, k: Key)
    returns (first: nat, second: nat)
    requires IsCombination(p, c, edges, out) && Accepted(c, edges, j) && Accepted(c, edges, k)
    requires j != k && j.from == k.from && Capped(c, edges, j) == Capped(c, edges, k)
    ensures first < second < |out| && Tied(out[first], out[second])
  {
    var m := IndexOfKey(p, c, edges, out, j);
    var n := IndexOfKey(p, c, edges, out, k);
    if m < n { return m, n; } else { return n, m; }
  }

  /** The output order is determined by the evidence exactly when there are no ties: otherwise
      swapping two tied edges gives another sequence that the sort may return. */
  lemma OrderUniqueIff(p: Primitives, c: Combiner, edges: seq<LinkEdge>, out: seq<LinkEdge>)
    requires IsCombination(p, c, edges, out)
    ensures (forall out' :: IsCombination(p, c, edges, out') ==> out' == out) <==> NoTies(c, edges)
  {
    if NoTies(c, edges) {
      forall out' | IsCombination(p, c, edges, out') ensures out' == out {
        UntiedIsUnique(p, c, edges, out, out');
      }
    } else {
      var j, k :| Accepted(c, edges, j) && Accepted(c, edges, k)
                  && j.from == k.from && Capped(c, edges, j) == Capped(c, edges, k) && j != k;
      var first, second := TieInOutput(p, c, edges, out, j, k);
      SwapKeepsCombination(p, c, edges, out, first, second);
    }
  }
}
