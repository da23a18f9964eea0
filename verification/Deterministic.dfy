/** The matcher that joins usage events with subscriptions and invoices by customer ID. */
module Deterministic {
  import opened Lists
  import opened JoinIndex
  import opened MatchTypes

  const NAME := "deterministic_id"
  const RECIPE := NAME + "/" + "v1"
  const SCHEMA := "connektn.edge.v1"

  datatype Matcher = Matcher(salt: string, idMode: string)

  function Proof(p: Primitives, m: Matcher, from: string, to: string, kind: string, sku: string): string {
    p.hmac(m.salt, from + "|" + to + "|" + kind + "|" + NAME + "|" + sku + "|" + m.idMode)
  }

  function Edge(p: Primitives, m: Matcher, u: UsageEvent, to: string, kind: string, notes: string): LinkEdge {
    LinkEdge(EdgeMeta(SCHEMA, m.idMode), u.user, to, kind, 1.0,
             Proof(p, m, u.user, to, kind, u.sku), RECIPE, u.at, notes)
  }

  function SubscriptionEdge(p: Primitives, m: Matcher, u: UsageEvent, sub: Subscription): LinkEdge {
    Edge(p, m, u, sub.id, USER_SUBSCRIPTION, "exact customer ID match")
  }

  // ----- the naive join: every usage event against every subscription and invoice ---------

  function PriceEdges(p: Primitives, m: Matcher, u: UsageEvent): string -> seq<LinkEdge> {
    id => if u.sku == id then [Edge(p, m, u, id, USER_PRICE, "exact SKU-price match")] else []
  }

  function ProductEdges(p: Primitives, m: Matcher, u: UsageEvent): string -> seq<LinkEdge> {
    id => if u.sku == id then [Edge(p, m, u, id, USER_PRODUCT, "exact SKU-product match")] else []
  }

  function SubscriptionEdges(p: Primitives, m: Matcher, u: UsageEvent): Subscription -> seq<LinkEdge> {
    (sub: Subscription) =>
      [SubscriptionEdge(p, m, u, sub)]
      + ConcatMap(PriceEdges(p, m, u), sub.priceIds)
      + ConcatMap(ProductEdges(p, m, u), sub.productIds)
  }

  function InvoiceEdges(p: Primitives, m: Matcher, u: UsageEvent): Invoice -> seq<LinkEdge> {
    (inv: Invoice) => [Edge(p, m, u, inv.id, USER_INVOICE, "exact customer ID match")]
  }

  function IfSubscriber(p: Primitives, m: Matcher, u: UsageEvent): Subscription -> seq<LinkEdge> {
    (sub: Subscription) => if sub.customer == u.user then SubscriptionEdges(p, m, u)(sub) else []
  }

  function IfBilled(p: Primitives, m: Matcher, u: UsageEvent): Invoice -> seq<LinkEdge> {
    (inv: Invoice) => if inv.customer == u.user then InvoiceEdges(p, m, u)(inv) else []
  }

  function UsageEdges(p: Primitives, m: Matcher, subs: seq<Subscription>, invs: seq<Invoice>)
    : UsageEvent -> seq<LinkEdge>
  {
    (u: UsageEvent) => ConcatMap(IfSubscriber(p, m, u), subs) + ConcatMap(IfBilled(p, m, u), invs)
  }

  function Edges(p: Primitives, m: Matcher, usages: seq<UsageEvent>, subs: seq<Subscription>, invs: seq<Invoice>)
    : seq<LinkEdge>
  {
    ConcatMap(UsageEdges(p, m, subs, invs), usages)
  }

  // ----- the index ----------------------------------------------------------------------

  function CustomerOfSubscription(): Subscription -> seq<string> {
    (sub: Subscription) => [sub.customer]
  }

  function CustomerOfInvoice(): Invoice -> seq<string> {
    (inv: Invoice) => [inv.customer]
  }

  /** Walking a customer's buckets is walking everything and skipping the other customers. */
  lemma BucketsAreFilters(p: Primitives, m: Matcher, u: UsageEvent, subs: seq<Subscription>, invs: seq<Invoice>)
    ensures ConcatMap(SubscriptionEdges(p, m, u), ConcatMap(Copies(CustomerOfSubscription(), u.user), subs))
            == ConcatMap(IfSubscriber(p, m, u), subs)
    ensures ConcatMap(InvoiceEdges(p, m, u), ConcatMap(Copies(CustomerOfInvoice(), u.user), invs))
            == ConcatMap(IfBilled(p, m, u), invs)
  {
    BucketIsNestedLoop(SubscriptionEdges(p, m, u), CustomerOfSubscription(), u.user, subs);
    SingleKeyLoop(SubscriptionEdges(p, m, u), CustomerOfSubscription(), IfSubscriber(p, m, u), u.user, subs);
    BucketIsNestedLoop(InvoiceEdges(p, m, u), CustomerOfInvoice(), u.user, invs);
    SingleKeyLoop(InvoiceEdges(p, m, u), CustomerOfInvoice(), IfBilled(p, m, u), u.user, invs);
  }

  // ----- the algorithm ------------------------------------------------------------------

  /** Appends an edge for each price (or product) of the subscription that the event names. */
  method AppendSKUEdges(p: Primitives, m: Matcher, u: UsageEvent, ids: seq<string>, kind: string, notes: string,
                        ghost f: string -> seq<LinkEdge>, edges: seq<LinkEdge>) returns (r: seq<LinkEdge>)
    requires forall id :: f(id) == if u.sku == id then [Edge(p, m, u, id, kind, notes)] else []
    ensures r == edges + ConcatMap(f, ids)
  {
    r := edges;
    for i := 0 to |ids|
      invariant r == edges + ConcatMap(f, ids[..i])
    {
      ConcatMapSnoc(f, ids, i);
      if u.sku == ids[i] {
        r := r + [Edge(p, m, u, ids[i], kind, notes)];
      }
    }
    assert ids[..|ids|] == ids;
  }

  /** The edges of one subscription in the bucket of the event's user. */
  method MatchSubscription(p: Primitives, m: Matcher, u: UsageEvent, sub: Subscription) returns (edges: seq<LinkEdge>)
    ensures edges == SubscriptionEdges(p, m, u)(sub)
  {
    edges := [SubscriptionEdge(p, m, u, sub)];
    edges := AppendSKUEdges(p, m, u, sub.priceIds, USER_PRICE, "exact SKU-price match", PriceEdges(p, m, u), edges);
    edges := AppendSKUEdges(p, m, u, sub.productIds, USER_PRODUCT, "exact SKU-product match", ProductEdges(p, m, u),
                            edges);
  }

  /** One usage event against the buckets of its user. */
  method MatchUsage(p: Primitives, m: Matcher, u: UsageEvent, userSubs: seq<Subscription>, userInvs: seq<Invoice>)
    returns (r: Result<seq<LinkEdge>>)
    ensures r == Emit(m.salt, ConcatMap(SubscriptionEdges(p, m, u), userSubs)
                              + ConcatMap(InvoiceEdges(p, m, u), userInvs))
  {
    var edges: seq<LinkEdge> := [];
    for j := 0 to |userSubs|
      invariant edges == ConcatMap(SubscriptionEdges(p, m, u), userSubs[..j])
      invariant m.salt == "" ==> j == 0
    {
      ConcatMapSnoc(SubscriptionEdges(p, m, u), userSubs, j);
      ConcatMapGrows(SubscriptionEdges(p, m, u), userSubs, j + 1);
      if m.salt == "" { return Failure(EMPTY_SALT); }
      var more := MatchSubscription(p, m, u, userSubs[j]);
      edges := edges + more;
    }
    assert userSubs[..|userSubs|] == userSubs;
    ghost var base := edges;
    for j := 0 to |userInvs|
      invariant edges == base + ConcatMap(InvoiceEdges(p, m, u), userInvs[..j])
      invariant m.salt == "" ==> j == 0
    {
      ConcatMapSnoc(InvoiceEdges(p, m, u), userInvs, j);
      ConcatMapGrows(InvoiceEdges(p, m, u), userInvs, j + 1);
      if m.salt == "" { return Failure(EMPTY_SALT); }
      edges := edges + [Edge(p, m, u, userInvs[j].id, USER_INVOICE, "exact customer ID match")];
    }
    assert userInvs[..|userInvs|] == userInvs;
    return Success(edges);
  }

  /** The index join yields exactly the edges of the naive join, in the same order. */
  method Match(p: Primitives, m: Matcher, usages: seq<UsageEvent>, subs: seq<Subscription>, invs: seq<Invoice>)
    returns (r: Result<seq<LinkEdge>>)
    ensures r == Emit(m.salt, Edges(p, m, usages, subs, invs))
    ensures r.Failure? <==> m.salt == "" && Edges(p, m, usages, subs, invs) != []
    ensures r.Success? ==> r.value == Edges(p, m, usages, subs, invs)
  {
    var subsByCustomer := Build(CustomerOfSubscription(), subs);
    var invsByCustomer := Build(CustomerOfInvoice(), invs);
    var edges: seq<LinkEdge> := [];
    ghost var f := UsageEdges(p, m, subs, invs);
    for i := 0 to |usages|
      invariant edges == ConcatMap(f, usages[..i])
      invariant m.salt == "" ==> edges == []
    {
      var u := usages[i];
      ConcatMapSnoc(f, usages, i);
      ConcatMapGrows(f, usages, i + 1);
      BucketsAreFilters(p, m, u, subs, invs);
      var more := MatchUsage(p, m, u, Lookup(subsByCustomer, u.user), Lookup(invsByCustomer, u.user));
      if more.Failure? { return more; }
      edges := edges + more.value;
    }
    assert usages[..|usages|] == usages;
    return Success(edges);
  }
}
