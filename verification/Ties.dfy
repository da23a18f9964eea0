/** When the default ensemble's output order is left open: ties, in terms of the inputs alone. */
module Ties {
  import opened Lists
  import opened MatchTypes
  import opened Scoring
  import opened Ensemble
  import opened Acceptance
  import D = Deterministic
  import T = Temporal
  import S = SKUOverlap

  /** Some use of the user falls `d` seconds from the creation of the subscription. */
  ghost predicate AtDistance(ins: Inputs, user: string, id: string, d: nat) {
    exists u, sub :: u in ins.usages && sub in ins.subs && u.user == user && sub.id == id
                  && Abs(u.at - sub.createdAt) == d
  }

  ghost predicate NearestUse(ins: Inputs, user: string, id: string, d: nat) {
    AtDistance(ins, user, id, d) && forall e: nat :: AtDistance(ins, user, id, e) ==> d <= e
  }

  lemma {:induction false} NearestExists(ins: Inputs, user: string, id: string, d: nat) returns (n: nat)
    requires AtDistance(ins, user, id, d)
    ensures NearestUse(ins, user, id, n) && n <= d
  {
    n := d;
    if e: nat :| e < d && AtDistance(ins, user, id, e) {
      n := NearestExists(ins, user, id, e);
    }
  }

  lemma ActiveIffNearest(ins: Inputs, windowSec: int, user: string, id: string, d: nat)
    requires NearestUse(ins, user, id, d)
    ensures ActiveNearCreation(ins, windowSec, user, id) <==> windowSec > 0 && 15 * d <= 7 * windowSec
  {
    if ActiveNearCreation(ins, windowSec, user, id) {
      var u, sub :| u in ins.usages && sub in ins.subs && u.user == user && sub.id == id
                 && 15 * Abs(u.at - sub.createdAt) <= 7 * windowSec;
      assert AtDistance(ins, user, id, Abs(u.at - sub.createdAt));
    }
  }

  lemma ActiveHasNearest(ins: Inputs, windowSec: int, user: string, id: string) returns (d: nat)
    requires ActiveNearCreation(ins, windowSec, user, id)
    ensures NearestUse(ins, user, id, d) && windowSec > 0 && 15 * d <= 7 * windowSec
  {
    var u, sub :| u in ins.usages && sub in ins.subs && u.user == user && sub.id == id
               && windowSec > 0 && 15 * Abs(u.at - sub.createdAt) <= 7 * windowSec;
    d := NearestExists(ins, user, id, Abs(u.at - sub.createdAt));
  }

  // ----- the exact scores ---------------------------------------------------------------

  lemma TimeEdgeSource(x: Setup, e: LinkEdge) returns (d: nat)
    requires e in x.Times() && e.kind == USER_SUBSCRIPTION
    ensures AtDistance(x.ins, e.from, e.to, d)
    ensures x.windowSec > 0 && e.confidence == T.Closeness(x.windowSec, d)
  {
    var m := T.Matcher(x.windowSec, x.salt);
    var near := T.UsageEdges(x.p, m, x.ins.subs, x.ins.invs);
    ConcatMapMember(near, x.ins.usages, e);
    var u :| u in x.ins.usages && e in near(u);
    var sub := NearSubscriptionOf(x, m, u, e);
    d := DistanceOf(x, m, u, sub, e);
  }

  lemma DistanceOf(x: Setup, m: T.Matcher, u: UsageEvent, sub: Subscription, e: LinkEdge) returns (d: nat)
    requires u in x.ins.usages && sub in x.ins.subs && e in T.IfNearSubscription(x.p, m, u)(sub)
    ensures AtDistance(x.ins, e.from, e.to, d)
    ensures m.windowSec > 0 && e.confidence == T.Closeness(m.windowSec, d)
  {
    d := Abs(u.at - sub.createdAt);
    NearSubscriptionEdge(x.p, m, u, sub, e);
    T.ConfidenceIsCloseness(m, u.at, sub.createdAt);
  }

  lemma NearSubscriptionOf(x: Setup, m: T.Matcher, u: UsageEvent, e: LinkEdge) returns (sub: Subscription)
    requires e in T.UsageEdges(x.p, m, x.ins.subs, x.ins.invs)(u) && e.kind == USER_SUBSCRIPTION
    ensures sub in x.ins.subs && e in T.IfNearSubscription(x.p, m, u)(sub)
  {
    KindsDiffer();
    ConcatMapMember(T.IfNearSubscription(x.p, m, u), x.ins.subs, e);
    ConcatMapMember(T.IfNearInvoice(x.p, m, u), x.ins.invs, e);
    forall inv | inv in x.ins.invs ensures e !in T.IfNearInvoice(x.p, m, u)(inv) { }
    sub :| sub in x.ins.subs && e in T.IfNearSubscription(x.p, m, u)(sub);
  }

  lemma TimeEdgeAt(x: Setup, user: string, id: string, d: nat) returns (e: LinkEdge)
    requires AtDistance(x.ins, user, id, d) && 0 < x.windowSec && d <= x.windowSec
    ensures e in x.Times() && KeyOf(e) == Key(user, id, USER_SUBSCRIPTION)
    ensures e.confidence == T.Closeness(x.windowSec, d)
  {
    var m := T.Matcher(x.windowSec, x.salt);
    var u, sub :| u in x.ins.usages && sub in x.ins.subs && u.user == user && sub.id == id
               && Abs(u.at - sub.createdAt) == d;
    T.ConfidenceIsCloseness(m, u.at, sub.createdAt);
    e := T.IfNearSubscription(x.p, m, u)(sub)[0];
    ConcatMapMember(T.IfNearSubscription(x.p, m, u), x.ins.subs, e);
    ConcatMapMember(T.UsageEdges(x.p, m, x.ins.subs, x.ins.invs), x.ins.usages, e);
    assert e in T.UsageEdges(x.p, m, x.ins.subs, x.ins.invs)(u);
  }

  /** The contribution is that of an edge that no other one exceeds. */
  lemma BestIs(weights: Weights, group: seq<LinkEdge>, name: string, e: LinkEdge)
    requires Counts(weights, group, name, e) && Weighted(weights, e) > 0.0
    requires forall f :: Counts(weights, group, name, f) ==> Weighted(weights, f) <= Weighted(weights, e)
    ensures Best(weights, group, name) == Weighted(weights, e)
  {
    BestIsMaximum(weights, group, name);
  }

  lemma NoEdgeIsCloser(x: Setup, k: Key, d: nat, e: LinkEdge)
    requires k.kind == USER_SUBSCRIPTION && NearestUse(x.ins, k.from, k.to, d)
    ensures Counts(DefaultWeights(), x.GroupFor(k), T.NAME, e) ==>
              x.windowSec > 0 && Weighted(DefaultWeights(), e) <= 0.5 * T.Closeness(x.windowSec, d)
  {
    if Counts(DefaultWeights(), x.GroupFor(k), T.NAME, e) {
      CountsOf(x, k, e);
      WeightOf(e);
      var far := TimeEdgeSource(x, e);
      if d < far { T.ClosenessFalls(x.windowSec, d, far); }
    }
  }

  /** The temporal matcher contributes half the closeness of the nearest use. */
  lemma TimeContributionIs(x: Setup, k: Key, d: nat)
    requires k.kind == USER_SUBSCRIPTION && NearestUse(x.ins, k.from, k.to, d)
    requires x.windowSec > 0 && d < x.windowSec
    ensures Best(DefaultWeights(), x.GroupFor(k), T.NAME) == 0.5 * T.Closeness(x.windowSec, d)
  {
    var group, w := x.GroupFor(k), DefaultWeights();
    var nearest := TimeEdgeAt(x, k.from, k.to, d);
    CountsOf(x, k, nearest);
    WeightOf(nearest);
    ClosenessPositive(x.windowSec, d);
    forall e | Counts(w, group, T.NAME, e) ensures Weighted(w, e) <= Weighted(w, nearest) {
      NoEdgeIsCloser(x, k, d, e);
    }
    BestIs(w, group, T.NAME, nearest);
  }

  lemma ClosenessPositive(w: int, d: nat)
    requires w > 0 && d < w
    ensures 0.0 < T.Closeness(w, d) <= 0.6
  {
    T.Fraction(d as real, w as real);
  }

  /** Owned links reach the cap, other accepted ones stay below it. */
  lemma CappedScore(x: Setup, k: Key)
    requires DefaultAccepts(x.ins, x.windowSec, k)
    ensures var capped := Capped(DefaultCombiner(x.salt), x.Raw(), k);
            && (IDEvidence(x.ins, k) ==> capped == 1.0)
            && (!IDEvidence(x.ins, k) ==>
                  k.kind == USER_SUBSCRIPTION && capped < 1.0
                  && forall d: nat :: NearestUse(x.ins, k.from, k.to, d) ==>
                       0 <= d < x.windowSec && capped == 0.64 + 0.5 * T.Closeness(x.windowSec, d))
  {
    ScoreIsSum(x, k);
    IDContribution(x, k);
    SKUContribution(x, k);
    KindsDiffer();
    if !IDEvidence(x.ins, k) {
      TimeContribution(x, k);
      forall d: nat | NearestUse(x.ins, k.from, k.to, d)
        ensures d < x.windowSec
        ensures Best(DefaultWeights(), x.GroupFor(k), T.NAME) == 0.5 * T.Closeness(x.windowSec, d)
      {
        ActiveIffNearest(x.ins, x.windowSec, k.from, k.to, d);
        TimeContributionIs(x, k, d);
      }
    }
  }

  // ----- ties ---------------------------------------------------------------------------

  /** Two links of one user that the order cannot tell apart: both owned, or both subscriptions
      that are accepted without being owned and whose nearest uses are equally near. */
  ghost predicate TieBetween(ins: Inputs, windowSec: int, j: Key, k: Key) {
    && j != k && j.from == k.from
    && DefaultAccepts(ins, windowSec, j) && DefaultAccepts(ins, windowSec, k)
    && (IDEvidence(ins, j) <==> IDEvidence(ins, k))
    && (!IDEvidence(ins, j) ==>
          exists d: nat :: NearestUse(ins, j.from, j.to, d) && NearestUse(ins, k.from, k.to, d))
  }

  lemma TieIff(x: Setup, j: Key, k: Key)
    requires DefaultAccepts(x.ins, x.windowSec, j) && DefaultAccepts(x.ins, x.windowSec, k)
    requires j != k && j.from == k.from
    ensures var c := DefaultCombiner(x.salt);
            Capped(c, x.Raw(), j) == Capped(c, x.Raw(), k) <==> TieBetween(x.ins, x.windowSec, j, k)
  {
    CappedScore(x, j);
    CappedScore(x, k);
    if !IDEvidence(x.ins, j) && !IDEvidence(x.ins, k) {
      var d := ActiveHasNearest(x.ins, x.windowSec, j.from, j.to);
      var e := ActiveHasNearest(x.ins, x.windowSec, k.from, k.to);
      if d < e { T.ClosenessFalls(x.windowSec, d, e); }
      if e < d { T.ClosenessFalls(x.windowSec, e, d); }
    }
  }

  lemma SameCappedIff(x: Setup, j: Key, k: Key)
    ensures var c := DefaultCombiner(x.salt);
            TieBetween(x.ins, x.windowSec, j, k) <==>
            Accepted(c, x.Raw(), j) && Accepted(c, x.Raw(), k) && j != k && j.from == k.from
            && Capped(c, x.Raw(), j) == Capped(c, x.Raw(), k)
  {
    DefaultAcceptance(x.p, x.salt, x.idMode, x.windowSec, x.ins, j);
    DefaultAcceptance(x.p, x.salt, x.idMode, x.windowSec, x.ins, k);
    if DefaultAccepts(x.ins, x.windowSec, j) && DefaultAccepts(x.ins, x.windowSec, k) && j != k && j.from == k.from {
      TieIff(x, j, k);
    }
  }

  lemma NoTiesIff(x: Setup)
    ensures NoTies(DefaultCombiner(x.salt), x.Raw()) <==> !exists j, k :: TieBetween(x.ins, x.windowSec, j, k)
  {
    var c := DefaultCombiner(x.salt);
    if NoTies(c, x.Raw()) {
      forall j, k ensures !TieBetween(x.ins, x.windowSec, j, k) { SameCappedIff(x, j, k); }
    } else {
      var j, k :| Accepted(c, x.Raw(), j) && Accepted(c, x.Raw(), k)
                  && j.from == k.from && Capped(c, x.Raw(), j) == Capped(c, x.Raw(), k) && j != k;
      SameCappedIff(x, j, k);
    }
  }

  /** The default ensemble's output order is determined by its inputs exactly when no two links
      tie. */
  lemma DefaultOrderUniqueIff(x: Setup, out: seq<LinkEdge>)
    requires IsCombination(x.p, DefaultCombiner(x.salt), x.Raw(), out)
    ensures (forall out' :: IsCombination(x.p, DefaultCombiner(x.salt), x.Raw(), out') ==> out' == out)
       <==> !exists j, k :: TieBetween(x.ins, x.windowSec, j, k)
  {
    OrderUniqueIff(x.p, DefaultCombiner(x.salt), x.Raw(), out);
    NoTiesIff(x);
  }

  /** Any two links owned by one user tie: a customer with a subscription and an invoice, or
      with two subscriptions. */
  lemma OwnedLinksTie(ins: Inputs, windowSec: int, j: Key, k: Key)
    requires IDEvidence(ins, j) && IDEvidence(ins, k) && j != k && j.from == k.from
    ensures TieBetween(ins, windowSec, j, k)
  {
  }

  /** One use by a customer with two subscriptions leaves the order of the output open. */
  lemma TiesOccur(x: Setup, u: UsageEvent, a: Subscription, b: Subscription, out: seq<LinkEdge>)
    requires x.ins == Inputs([u], [a, b], []) && a.customer == b.customer == u.user && a.id != b.id
    requires IsCombination(x.p, DefaultCombiner(x.salt), x.Raw(), out)
    ensures exists out' :: IsCombination(x.p, DefaultCombiner(x.salt), x.Raw(), out') && out' != out
  {
    var j, k := Key(u.user, a.id, USER_SUBSCRIPTION), Key(u.user, b.id, USER_SUBSCRIPTION);
    assert u in x.ins.usages && a in x.ins.subs && b in x.ins.subs;
    OwnedLinksTie(x.ins, x.windowSec, j, k);
    DefaultOrderUniqueIff(x, out);
  }
}
