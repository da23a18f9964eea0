/** What the combination yields, edge by edge and field by field, in terms of the evidence. */
module OutputEdges {
  import opened Lexicographic
  import opened Lists
  import opened MatchTypes
  import opened Scoring
  import opened Ensemble

  /** `group` holds exactly the input edges of a link, as often as they come. */
  ghost predicate IsEvidence(group: seq<LinkEdge>, edges: seq<LinkEdge>, from: string, to: string, kind: string) {
    forall x :: multiset(group)[x] == if x.from == from && x.to == to && x.kind == kind then multiset(edges)[x] else 0
  }

  lemma GroupIsEvidence(edges: seq<LinkEdge>, k: Key)
    ensures IsEvidence(Group(edges, k), edges, k.from, k.to, k.kind)
  {
    forall x ensures multiset(Group(edges, k))[x] ==
        if x.from == k.from && x.to == k.to && x.kind == k.kind then multiset(edges)[x] else 0
    {
      GroupCount(edges, k, x);
    }
  }

  lemma EvidenceUnique(group: seq<LinkEdge>, edges: seq<LinkEdge>, k: Key)
    requires IsEvidence(group, edges, k.from, k.to, k.kind)
    ensures Rearranged(group, Group(edges, k))
    ensures |group| == |Group(edges, k)| && forall e :: e in group <==> e in Group(edges, k)
  {
    GroupIsEvidence(edges, k);
    forall x ensures multiset(group)[x] == multiset(Group(edges, k))[x] { }
    SameSize(group, Group(edges, k));
    forall e ensures e in group <==> e in Group(edges, k) {
      assert e in group <==> e in multiset(group);
      assert e in Group(edges, k) <==> e in multiset(Group(edges, k));
    }
  }

  lemma SameSize<T>(a: seq<T>, b: seq<T>)
    requires multiset(a) == multiset(b)
    ensures |a| == |b|
  {
    assert |multiset(a)| == |a| && |multiset(b)| == |b|;
  }

  // ----- which links, in which order ----------------------------------------------------

  /** A link is in the output if and only if it has evidence whose score reaches the threshold. */
  lemma OutputLinksIff(p: Primitives, c: Combiner, edges: seq<LinkEdge>, out: seq<LinkEdge>, group: seq<LinkEdge>,
                       from: string, to: string, kind: string)
    requires IsCombination(p, c, edges, out) && IsEvidence(group, edges, from, to, kind)
    ensures (exists e :: e in out && e.from == from && e.to == to && e.kind == kind)
       <==> group != [] && Score(c.recipe.weights, group) >= c.recipe.threshold
  {
    var k := Key(from, to, kind);
    EvidenceUnique(group, edges, k);
    ScoreIgnoresOrder(c.recipe.weights, group, Group(edges, k));
    assert HasKey(out, k) <==> exists e :: e in out && e.from == from && e.to == to && e.kind == kind;
  }

  /** No link comes twice; the more confident come first, equally confident ones by source. */
  lemma OutputOrdered(p: Primitives, c: Combiner, edges: seq<LinkEdge>, out: seq<LinkEdge>, i: nat, j: nat)
    requires IsCombination(p, c, edges, out) && i < j < |out|
    ensures out[i].confidence > out[j].confidence
         || (out[i].confidence == out[j].confidence && Le(out[i].from, out[j].from))
    ensures out[i].from != out[j].from || out[i].to != out[j].to || out[i].kind != out[j].kind
  {
    assert Before(out[i], out[j]) && KeyOf(out[i]) != KeyOf(out[j]);
  }

  // ----- the fields of an output edge ---------------------------------------------------

  /** The evidence of an output edge fixes its score, its time and its recipe. */
  lemma OutputEdgeIs(p: Primitives, c: Combiner, edges: seq<LinkEdge>, out: seq<LinkEdge>, e: LinkEdge,
                     group: seq<LinkEdge>)
    requires IsCombination(p, c, edges, out) && e in out && IsEvidence(group, edges, e.from, e.to, e.kind)
    ensures group != []
    ensures e.meta == EdgeMeta("", "")
    ensures e.recipe == c.recipe.name + "/" + c.recipe.version
    ensures (forall x :: x in group ==> x.at <= e.at) && exists x :: x in group && x.at == e.at
    ensures var score := Score(c.recipe.weights, group);
            score >= c.recipe.threshold && e.confidence == if score > 1.0 then 1.0 else score
  {
    var k := KeyOf(e);
    EvidenceUnique(group, edges, k);
    ScoreIgnoresOrder(c.recipe.weights, group, Group(edges, k));
    assert IsEdgeFor(p, c, edges, e) && HasKey(out, k);
  }

  /** With a salt its proof is the keyed hash over the link and the sorted proofs of exactly its
      evidence. */
  lemma OutputProofIs(p: Primitives, c: Combiner, edges: seq<LinkEdge>, out: seq<LinkEdge>, e: LinkEdge,
                      group: seq<LinkEdge>, proofs: seq<string>)
    requires c.salt != "" && IsCombination(p, c, edges, out) && e in out
    requires IsEvidence(group, edges, e.from, e.to, e.kind)
    requires Sorted(proofs) && multiset(proofs) == multiset(ProofsOf(group))
    ensures e.proof == p.hmac(c.salt, e.from + "|" + e.to + "|" + e.kind + "|ensemble|" + Join(proofs, ","))
  {
    var k := KeyOf(e);
    EvidenceUnique(group, edges, k);
    assert IsEdgeFor(p, c, edges, e);
    MapRearranged((x: LinkEdge) => x.proof, group, Group(edges, k));
    assert Rearranged(ProofsOf(group), Proofs(Group(edges, k)));
    SortSorts(Proofs(Group(edges, k)));
    SortedUnique(proofs, Sort(Proofs(Group(edges, k))));
  }

  /** Its notes are the distinct non-empty notes of its evidence in order, and the score. */
  lemma OutputNotesAre(p: Primitives, c: Combiner, edges: seq<LinkEdge>, out: seq<LinkEdge>, e: LinkEdge,
                       group: seq<LinkEdge>, parts: seq<string>)
    requires IsCombination(p, c, edges, out) && e in out && IsEvidence(group, edges, e.from, e.to, e.kind)
    requires Sorted(parts) && Distinct(parts)
    requires forall n :: n in parts <==> n != "" && exists x :: x in group && x.notes == n
    ensures var whole := Join(parts, "; ") + " (score=" + p.score(Score(c.recipe.weights, group)) + ")";
            if |whole| <= 200 then e.notes == whole
            else |e.notes| == 200 && e.notes[..197] == whole[..197] && e.notes[197..] == "..."
  {
    var k, notes := KeyOf(e), Notes(Group(edges, KeyOf(e)));
    EvidenceUnique(group, edges, k);
    ScoreIgnoresOrder(c.recipe.weights, group, Group(edges, k));
    assert IsEdgeFor(p, c, edges, e);
    forall n ensures n in notes <==> exists x :: x in group && x.notes == n {
      NotesMember(Group(edges, k), n);
    }
    NotesAre(p, notes, Score(c.recipe.weights, Group(edges, k)), parts);
  }

  lemma NotesMember(group: seq<LinkEdge>, n: string)
    ensures n in Notes(group) <==> exists x :: x in group && x.notes == n
  {
    if x :| x in group && x.notes == n {
      var i :| 0 <= i < |group| && group[i] == x;
      assert Notes(group)[i] == n;
    }
  }

  // ----- proofs -------------------------------------------------------------------------

  lemma GroupSteps(edges: seq<LinkEdge>, k: Key)
    requires edges != []
    ensures var init, last := edges[..|edges| - 1], edges[|edges| - 1];
            Group(edges, k) == if KeyOf(last) == k then Group(init, k) + [last] else Group(init, k)
  {
  }

  lemma BestSteps(group: seq<LinkEdge>, last: LinkEdge)
    ensures BestEdge(group + [last]) ==
            if group == [] || last.confidence > BestEdge(group).confidence then last else BestEdge(group)
  {
    assert (group + [last])[..|group|] == group;
  }

  /** The edge at `i` has the key and no other such edge is better, no earlier one as good. */
  ghost predicate IsFirstBest(edges: seq<LinkEdge>, k: Key, i: nat) {
    && i < |edges| && KeyOf(edges[i]) == k
    && (forall x :: x in edges && KeyOf(x) == k ==> x.confidence <= edges[i].confidence)
    && (forall j :: 0 <= j < i && KeyOf(edges[j]) == k ==> edges[j].confidence < edges[i].confidence)
  }

  lemma FirstOfKey(init: seq<LinkEdge>, last: LinkEdge, k: Key)
    requires KeyOf(last) == k && forall x :: x in init ==> KeyOf(x) != k
    ensures IsFirstBest(init + [last], k, |init|)
  {
  }

  lemma StaysBest(init: seq<LinkEdge>, last: LinkEdge, k: Key, i: nat)
    requires IsFirstBest(init, k, i) && (KeyOf(last) != k || last.confidence <= init[i].confidence)
    ensures IsFirstBest(init + [last], k, i)
  {
  }

  lemma BecomesBest(init: seq<LinkEdge>, last: LinkEdge, k: Key, i: nat)
    requires IsFirstBest(init, k, i) && KeyOf(last) == k && last.confidence > init[i].confidence
    ensures IsFirstBest(init + [last], k, |init|)
  {
    forall j | 0 <= j < |init| && KeyOf(init[j]) == k ensures init[j].confidence < last.confidence {
      assert init[j] in init;
    }
  }

  lemma {:induction false} FirstBest(edges: seq<LinkEdge>, k: Key) returns (i: nat)
    requires Group(edges, k) != []
    ensures IsFirstBest(edges, k, i) && edges[i] == BestEdge(Group(edges, k))
  {
    var init, last := edges[..|edges| - 1], edges[|edges| - 1];
    var before := Group(init, k);
    GroupSteps(edges, k);
    assert edges == init + [last];
    if before == [] {
      NoneGrouped(init, k);
      BestSteps(before, last);
      FirstOfKey(init, last, k);
      return |init|;
    }
    i := FirstBest(init, k);
    if KeyOf(last) != k {
      StaysBest(init, last, k, i);
    } else {
      BestSteps(before, last);
      if last.confidence > init[i].confidence {
        BecomesBest(init, last, k, i);
        i := |init|;
      } else {
        StaysBest(init, last, k, i);
      }
    }
  }

  lemma NoneGrouped(edges: seq<LinkEdge>, k: Key)
    requires Group(edges, k) == []
    ensures forall x :: x in edges ==> KeyOf(x) != k
  {
    forall x | x in edges ensures KeyOf(x) != k { GroupMember(edges, k, x); }
  }

  /** Without a salt the proof is that of the first of its most confident input edges. */
  lemma UnsaltedProofIs(p: Primitives, c: Combiner, edges: seq<LinkEdge>, out: seq<LinkEdge>, e: LinkEdge)
    requires IsCombination(p, c, edges, out) && e in out
    ensures c.salt == "" ==>
              exists i :: 0 <= i < |edges| && e.proof == edges[i].proof
                && edges[i].from == e.from && edges[i].to == e.to && edges[i].kind == e.kind
                && (forall x :: x in edges && x.from == e.from && x.to == e.to && x.kind == e.kind ==>
                      x.confidence <= edges[i].confidence)
                && forall j | 0 <= j < i && edges[j].from == e.from && edges[j].to == e.to && edges[j].kind == e.kind ::
                     edges[j].confidence < edges[i].confidence
  {
    assert IsEdgeFor(p, c, edges, e);
    var i := FirstBest(edges, KeyOf(e));
    assert c.salt == "" ==> e.proof == edges[i].proof;
  }

  lemma FirstSeparator(separator: char, a: string, x: string)
    requires separator !in a
    ensures var s := a + [separator] + x;
            s[|a|] == separator && (forall i :: 0 <= i < |a| ==> s[i] != separator)
            && s[..|a|] == a && s[|a| + 1..] == x
  {
  }

  lemma SplitAt(separator: char, a: string, x: string, b: string, y: string)
    requires separator !in a && separator !in b
    requires a + [separator] + x == b + [separator] + y
    ensures a == b && x == y
  {
    FirstSeparator(separator, a, x);
    FirstSeparator(separator, b, y);
  }

  lemma {:induction false} JoinHasSeparator(parts: seq<string>)
    requires |parts| > 1
    ensures ',' in Join(parts, ",")
  {
    assert Join(parts, ",") == parts[0] + "," + Join(parts[1..], ",");
    assert Join(parts, ",")[|parts[0]|] == ',';
  }

  lemma {:induction false} JoinInjective(a: seq<string>, b: seq<string>)
    requires a != [] && b != [] && Join(a, ",") == Join(b, ",")
    requires (forall s :: s in a ==> ',' !in s) && (forall s :: s in b ==> ',' !in s)
    ensures a == b
  {
    assert a[0] in a && b[0] in b;
    if |a| > 1 { JoinHasSeparator(a); }
    if |b| > 1 { JoinHasSeparator(b); }
    assert |a| == 1 <==> |b| == 1;
    if |a| > 1 {
      assert "," == [','];
      SplitAt(',', a[0], Join(a[1..], ","), b[0], Join(b[1..], ","));
      JoinInjective(a[1..], b[1..]);
      assert a == [a[0]] + a[1..] && b == [b[0]] + b[1..];
    } else {
      assert a == [a[0]] && b == [b[0]];
    }
  }

  /** What is hashed. */
  function Hashed(from: string, to: string, kind: string, proofs: seq<string>): string {
    from + "|" + to + "|" + kind + "|ensemble|" + Join(proofs, ",")
  }

  lemma HashedInjective(f: string, t: string, k: string, ps: seq<string>, f': string, t': string, k': string,
                        qs: seq<string>)
    requires '|' !in f && '|' !in t && '|' !in k && '|' !in f' && '|' !in t' && '|' !in k'
    requires ps != [] && qs != [] && Hashed(f, t, k, ps) == Hashed(f', t', k', qs)
    requires (forall s :: s in ps ==> ',' !in s) && (forall s :: s in qs ==> ',' !in s)
    ensures f == f' && t == t' && k == k' && ps == qs
  {
    var x, y := "ensemble|" + Join(ps, ","), "ensemble|" + Join(qs, ",");
    Grouped(f, t, k, Join(ps, ","));
    Grouped(f', t', k', Join(qs, ","));
    SplitAt('|', f, t + ['|'] + (k + ['|'] + x), f', t' + ['|'] + (k' + ['|'] + y));
    SplitAt('|', t, k + ['|'] + x, t', k' + ['|'] + y);
    SplitAt('|', k, x, k', y);
    assert x[|"ensemble|"|..] == Join(ps, ",") && y[|"ensemble|"|..] == Join(qs, ",");
    JoinInjective(ps, qs);
  }

  lemma Grouped(f: string, t: string, k: string, joined: string)
    ensures f + "|" + t + "|" + k + "|ensemble|" + joined
            == f + ['|'] + (t + ['|'] + (k + ['|'] + ("ensemble|" + joined)))
  {
    assert "|ensemble|" == ['|'] + "ensemble|" && "|" == ['|'];
  }

  function ProofsOf(group: seq<LinkEdge>): seq<string> {
    Map((x: LinkEdge) => x.proof, group)
  }

  /** With a hash that never collides and without separators in the parts, two output edges, of
      whatever evidence, have the same proof if and only if they are the same link with the same
      collection of contributing proofs. */
  lemma ProofsEqualIff(p: Primitives, c: Combiner,
                       a: seq<LinkEdge>, outA: seq<LinkEdge>, x: LinkEdge, gx: seq<LinkEdge>,
                       b: seq<LinkEdge>, outB: seq<LinkEdge>, y: LinkEdge, gy: seq<LinkEdge>)
    requires c.salt != "" && forall s, t :: p.hmac(c.salt, s) == p.hmac(c.salt, t) ==> s == t
    requires IsEvidence(gx, a, x.from, x.to, x.kind) && IsEvidence(gy, b, y.from, y.to, y.kind)
    requires '|' !in x.from && '|' !in x.to && '|' !in x.kind && '|' !in y.from && '|' !in y.to && '|' !in y.kind
    requires (forall e :: e in gx ==> ',' !in e.proof) && (forall e :: e in gy ==> ',' !in e.proof)
    ensures IsCombination(p, c, a, outA) && x in outA && IsCombination(p, c, b, outB) && y in outB ==>
              (x.proof == y.proof <==> x.from == y.from && x.to == y.to && x.kind == y.kind
                                       && multiset(ProofsOf(gx)) == multiset(ProofsOf(gy)))
  {
    if IsCombination(p, c, a, outA) && x in outA && IsCombination(p, c, b, outB) && y in outB {
      OutputProofIs(p, c, a, outA, x, gx, SortedProofs(gx));
      OutputProofIs(p, c, b, outB, y, gy, SortedProofs(gy));
      OutputEdgeIs(p, c, a, outA, x, gx);
      OutputEdgeIs(p, c, b, outB, y, gy);
      HashesEqualIff(p, c.salt, x, gx, y, gy);
    }
  }

  function SortedProofs(group: seq<LinkEdge>): (proofs: seq<string>)
    ensures Sorted(proofs) && multiset(proofs) == multiset(ProofsOf(group))
  {
    SortSorts(ProofsOf(group));
    Sort(ProofsOf(group))
  }

  lemma HashesEqualIff(p: Primitives, salt: string, x: LinkEdge, gx: seq<LinkEdge>, y: LinkEdge, gy: seq<LinkEdge>)
    requires forall s, t :: p.hmac(salt, s) == p.hmac(salt, t) ==> s == t
    requires gx != [] && x.proof == p.hmac(salt, Hashed(x.from, x.to, x.kind, SortedProofs(gx)))
    requires gy != [] && y.proof == p.hmac(salt, Hashed(y.from, y.to, y.kind, SortedProofs(gy)))
    requires '|' !in x.from && '|' !in x.to && '|' !in x.kind && '|' !in y.from && '|' !in y.to && '|' !in y.kind
    requires (forall e :: e in gx ==> ',' !in e.proof) && (forall e :: e in gy ==> ',' !in e.proof)
    ensures x.proof == y.proof <==> x.from == y.from && x.to == y.to && x.kind == y.kind
                                    && multiset(ProofsOf(gx)) == multiset(ProofsOf(gy))
  {
    ProofsAreOf(gx);
    ProofsAreOf(gy);
    if x.proof == y.proof {
      HashedInjective(x.from, x.to, x.kind, SortedProofs(gx), y.from, y.to, y.kind, SortedProofs(gy));
    } else if multiset(ProofsOf(gx)) == multiset(ProofsOf(gy)) {
      SortIgnoresOrder(ProofsOf(gx), ProofsOf(gy));
    }
  }

  lemma ProofsAreOf(group: seq<LinkEdge>)
    requires group != []
    ensures SortedProofs(group) != []
    ensures forall s :: s in SortedProofs(group) ==> exists e :: e in group && e.proof == s
  {
    SameSize(SortedProofs(group), ProofsOf(group));
    forall s | s in SortedProofs(group) ensures exists e :: e in group && e.proof == s {
      assert s in multiset(SortedProofs(group)) && s in multiset(ProofsOf(group));
      var i :| 0 <= i < |group| && ProofsOf(group)[i] == s;
      assert group[i].proof == s;
    }
  }
}
