/** The matcher that links usage events to billing records created close in time. */
module Temporal {
  import opened Lists
  import opened MatchTypes

  const NAME := "temporal_proximity"
  const RECIPE := NAME + "/" + "v1"

  datatype Matcher = Matcher(windowSec: int, salt: string)

  predicate Within(ts: int, center: int, windowSec: int) {
    windowSec > 0 && Abs(ts - center) <= windowSec
  }

  /** `calculateConfidence`, clamps included. */
  function Confidence(m: Matcher, ts1: int, ts2: int): real {
    if m.windowSec == 0 then 0.0
    else
      var decay := Abs(ts1 - ts2) as real / m.windowSec as real;
      var confidence := 0.6 * (1.0 - decay);
      if confidence < 0.0 then 0.0 else if confidence > 0.6 then 0.6 else confidence
  }

  /** Inside the window the clamps never apply: the confidence falls linearly from 0.6 to
      exactly 0 on the boundary, which the range claimed for it, (0, 0.6], leaves out. */
  lemma ConfidenceInWindow(m: Matcher, ts: int, center: int)
    requires Within(ts, center, m.windowSec)
    ensures var c := Confidence(m, ts, center);
            && 0.0 <= c <= 0.6
            && c * m.windowSec as real == 0.6 * (m.windowSec - Abs(ts - center)) as real
            && (c == 0.0 <==> Abs(ts - center) == m.windowSec)
            && (c == 0.6 <==> ts == center)
  {
    Fraction(Abs(ts - center) as real, m.windowSec as real);
  }

  lemma Fraction(d: real, w: real)
    requires 0.0 <= d <= w && w > 0.0
    ensures 0.0 <= d / w <= 1.0
    ensures d / w == 0.0 <==> d == 0.0
    ensures d / w == 1.0 <==> d == w
    ensures (0.6 * (1.0 - d / w)) * w == 0.6 * (w - d)
  {
    var q := d / w;
    assert q * w == d;
    assert q < 0.0 ==> q * w < 0.0;
    assert q > 1.0 ==> (q - 1.0) * w > 0.0;
  }

  /** The confidence at distance `d` inside a window of `w` seconds. */
  function Closeness(w: int, d: nat): real
    requires w > 0
  {
    0.6 * (1.0 - d as real / w as real)
  }

  lemma ConfidenceIsCloseness(m: Matcher, ts: int, center: int)
    requires Within(ts, center, m.windowSec)
    ensures Confidence(m, ts, center) == Closeness(m.windowSec, Abs(ts - center))
  {
    Fraction(Abs(ts - center) as real, m.windowSec as real);
  }

  /** Closer is strictly better. */
  lemma ClosenessFalls(w: int, d: nat, e: nat)
    requires w > 0 && d < e
    ensures Closeness(w, d) > Closeness(w, e)
  {
    Quotient(d as real, e as real, w as real);
  }

  lemma Quotient(d: real, e: real, w: real)
    requires w > 0.0 && d < e
    ensures d / w < e / w
  {
    var a, b := d / w, e / w;
    assert a * w == d && b * w == e;
    assert a >= b ==> (a - b) * w >= 0.0;
  }

  function Proof(p: Primitives, m: Matcher, from: string, to: string, kind: string, diffSec: nat): string {
    p.hmac(m.salt, from + "|" + to + "|" + kind + "|" + NAME + "|" + Itoa(diffSec))
  }

  function Edge(p: Primitives, m: Matcher, u: UsageEvent, to: string, kind: string, createdAt: int, what: string)
    : LinkEdge
  {
    var diffSec := Abs(u.at - createdAt);
    LinkEdge(NO_META, u.user, to, kind, Confidence(m, u.at, createdAt), Proof(p, m, u.user, to, kind, diffSec),
             RECIPE, u.at, "usage within " + Itoa(diffSec) + "s of " + what)
  }

  function IfNearSubscription(p: Primitives, m: Matcher, u: UsageEvent): Subscription -> seq<LinkEdge> {
    (sub: Subscription) =>
      if Within(u.at, sub.createdAt, m.windowSec)
      then [Edge(p, m, u, sub.id, USER_SUBSCRIPTION, sub.createdAt, "subscription creation")] else []
  }

  function IfNearInvoice(p: Primitives, m: Matcher, u: UsageEvent): Invoice -> seq<LinkEdge> {
    (inv: Invoice) =>
      if Within(u.at, inv.createdAt, m.windowSec)
      then [Edge(p, m, u, inv.id, USER_INVOICE, inv.createdAt, "invoice creation")] else []
  }

  function UsageEdges(p: Primitives, m: Matcher, subs: seq<Subscription>, invs: seq<Invoice>)
    : UsageEvent -> seq<LinkEdge>
  {
    (u: UsageEvent) => ConcatMap(IfNearSubscription(p, m, u), subs) + ConcatMap(IfNearInvoice(p, m, u), invs)
  }

  function Edges(p: Primitives, m: Matcher, usages: seq<UsageEvent>, subs: seq<Subscription>, invs: seq<Invoice>)
    : seq<LinkEdge>
  {
    ConcatMap(UsageEdges(p, m, subs, invs), usages)
  }

  method MatchSubscriptions(p: Primitives, m: Matcher, u: UsageEvent, subs: seq<Subscription>)
    returns (r: Result<seq<LinkEdge>>)
    ensures r == Emit(m.salt, ConcatMap(IfNearSubscription(p, m, u), subs))
  {
    var edges: seq<LinkEdge> := [];
    for j := 0 to |subs|
      invariant edges == ConcatMap(IfNearSubscription(p, m, u), subs[..j])
      invariant m.salt == "" ==> edges == []
    {
      var sub := subs[j];
      ConcatMapSnoc(IfNearSubscription(p, m, u), subs, j);
      ConcatMapGrows(IfNearSubscription(p, m, u), subs, j + 1);
      if Within(u.at, sub.createdAt, m.windowSec) {
        if m.salt == "" { return Failure(EMPTY_SALT); }
        edges := edges + [Edge(p, m, u, sub.id, USER_SUBSCRIPTION, sub.createdAt, "subscription creation")];
      }
    }
    assert subs[..|subs|] == subs;
    return Success(edges);
  }

  method MatchInvoices(p: Primitives, m: Matcher, u: UsageEvent, invs: seq<Invoice>)
    returns (r: Result<seq<LinkEdge>>)
    ensures r == Emit(m.salt, ConcatMap(IfNearInvoice(p, m, u), invs))
  {
    var edges: seq<LinkEdge> := [];
    for j := 0 to |invs|
      invariant edges == ConcatMap(IfNearInvoice(p, m, u), invs[..j])
      invariant m.salt == "" ==> edges == []
    {
      var inv := invs[j];
      ConcatMapSnoc(IfNearInvoice(p, m, u), invs, j);
      ConcatMapGrows(IfNearInvoice(p, m, u), invs, j + 1);
      if Within(u.at, inv.createdAt, m.windowSec) {
        if m.salt == "" { return Failure(EMPTY_SALT); }
        edges := edges + [Edge(p, m, u, inv.id, USER_INVOICE, inv.createdAt, "invoice creation")];
      }
    }
    assert invs[..|invs|] == invs;
    return Success(edges);
  }

  method MatchUsage(p: Primitives, m: Matcher, u: UsageEvent, subs: seq<Subscription>, invs: seq<Invoice>)
    returns (r: Result<seq<LinkEdge>>)
    ensures r == Emit(m.salt, UsageEdges(p, m, subs, invs)(u))
  {
    var near := MatchSubscriptions(p, m, u, subs);
    if near.Failure? { return near; }
    var nearInvoices := MatchInvoices(p, m, u, invs);
    if nearInvoices.Failure? { return nearInvoices; }
    return Success(near.value + nearInvoices.value);
  }

  method Match(p: Primitives, m: Matcher, usages: seq<UsageEvent>, subs: seq<Subscription>, invs: seq<Invoice>)
    returns (r: Result<seq<LinkEdge>>)
    ensures r == Emit(m.salt, Edges(p, m, usages, subs, invs))
    ensures r.Failure? <==> m.salt == "" && Edges(p, m, usages, subs, invs) != []
    ensures r.Success? ==> r.value == Edges(p, m, usages, subs, invs)
  {
    var edges: seq<LinkEdge> := [];
    ghost var f := UsageEdges(p, m, subs, invs);
    for i := 0 to |usages|
      invariant edges == ConcatMap(f, usages[..i])
      invariant m.salt == "" ==> edges == []
    {
      ConcatMapSnoc(f, usages, i);
      ConcatMapGrows(f, usages, i + 1);
      var near := MatchUsage(p, m, usages[i], subs, invs);
      if near.Failure? { return near; }
      edges := edges + near.value;
    }
    assert usages[..|usages|] == usages;
    return Success(edges);
  }
}
