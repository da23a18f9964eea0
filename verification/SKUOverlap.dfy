/** The matcher that joins usage events with subscriptions whose prices or products include
    the event's SKU. */
module SKUOverlap {
  import opened Lists
  import opened JoinIndex
  import opened MatchTypes

  const NAME := "sku_overlap"
  const RECIPE := NAME + "/" + "v1"

  datatype MatchType = Price | Product

  function Proof(p: Primitives, salt: string, from: string, to: string, kind: string, sku: string): string {
    p.hmac(salt, from + "|" + to + "|" + kind + "|" + NAME + "|" + sku)
  }

  function Edge(p: Primitives, salt: string, u: UsageEvent, to: string, kind: string,
                confidence: real, notes: string): LinkEdge {
    LinkEdge(NO_META, u.user, to, kind, confidence, Proof(p, salt, u.user, to, kind, u.sku), RECIPE, u.at, notes)
  }

  /** The index order of a subscription's keys. */
  function SKUsOf(): Subscription -> seq<string> {
    (sub: Subscription) => sub.priceIds + sub.productIds
  }

  /** A matched subscription counts as a price match whenever one of its prices is the SKU. */
  function TypeOf(u: UsageEvent, sub: Subscription): MatchType {
    if u.sku in sub.priceIds then Price else Product
  }

  /** One link to the subscription and one to the price or product itself. */
  function PairEdges(p: Primitives, salt: string, u: UsageEvent): Subscription -> seq<LinkEdge> {
    (sub: Subscription) =>
      match TypeOf(u, sub)
      case Price =>
        [Edge(p, salt, u, sub.id, USER_SUBSCRIPTION, 0.8, "SKU matched subscription price"),
         Edge(p, salt, u, u.sku, USER_PRICE, 0.9, "exact SKU-price match")]
      case Product =>
        [Edge(p, salt, u, sub.id, USER_SUBSCRIPTION, 0.8, "SKU matched subscription product"),
         Edge(p, salt, u, u.sku, USER_PRODUCT, 0.9, "exact SKU-product match")]
  }

  /** The naive join: every event against every price and product of every subscription. */
  function UsageEdges(p: Primitives, salt: string, subs: seq<Subscription>): UsageEvent -> seq<LinkEdge> {
    (u: UsageEvent) => ConcatMap(NestedLoop(PairEdges(p, salt, u), SKUsOf(), u.sku), subs)
  }

  function Edges(p: Primitives, salt: string, usages: seq<UsageEvent>, subs: seq<Subscription>): seq<LinkEdge> {
    ConcatMap(UsageEdges(p, salt, subs), usages)
  }

  /** The classification loops: first the prices, then the products. In a bucket one of them
      always finds the SKU. */
  method Classify(u: UsageEvent, sub: Subscription) returns (matchType: MatchType)
    requires u.sku in SKUsOf()(sub)
    ensures matchType == TypeOf(u, sub)
    ensures matchType == Product ==> u.sku in sub.productIds
  {
    for i := 0 to |sub.priceIds|
      invariant u.sku !in sub.priceIds[..i]
    {
      if u.sku == sub.priceIds[i] { return Price; }
    }
    for i := 0 to |sub.productIds|
      invariant u.sku !in sub.productIds[..i]
    {
      if u.sku == sub.productIds[i] { return Product; }
    }
    assert false;
  }

  /** What a bucket holds really carries the SKU. */
  lemma BucketMatches(u: UsageEvent, subs: seq<Subscription>, sub: Subscription)
    requires sub in ConcatMap(Copies(SKUsOf(), u.sku), subs)
    ensures sub in subs && u.sku in SKUsOf()(sub)
  {
    ConcatMapMember(Copies(SKUsOf(), u.sku), subs, sub);
    var x :| x in subs && sub in Copies(SKUsOf(), u.sku)(x);
    ConcatMapMember(IfKey(u.sku, x), SKUsOf()(x), sub);
  }

  method MatchUsage(p: Primitives, salt: string, u: UsageEvent, bucket: seq<Subscription>)
    returns (r: Result<seq<LinkEdge>>)
    requires forall sub :: sub in bucket ==> u.sku in SKUsOf()(sub)
    ensures r == Emit(salt, ConcatMap(PairEdges(p, salt, u), bucket))
  {
    var edges: seq<LinkEdge> := [];
    for j := 0 to |bucket|
      invariant edges == ConcatMap(PairEdges(p, salt, u), bucket[..j])
      invariant salt == "" ==> j == 0
    {
      var sub := bucket[j];
      ConcatMapSnoc(PairEdges(p, salt, u), bucket, j);
      ConcatMapGrows(PairEdges(p, salt, u), bucket, j + 1);
      var matchType := Classify(u, sub);
      if salt == "" { return Failure(EMPTY_SALT); }
      if matchType == Price {
        edges := edges + [Edge(p, salt, u, sub.id, USER_SUBSCRIPTION, 0.8, "SKU matched subscription price"),
                          Edge(p, salt, u, u.sku, USER_PRICE, 0.9, "exact SKU-price match")];
      } else {
        edges := edges + [Edge(p, salt, u, sub.id, USER_SUBSCRIPTION, 0.8, "SKU matched subscription product"),
                          Edge(p, salt, u, u.sku, USER_PRODUCT, 0.9, "exact SKU-product match")];
      }
    }
    assert bucket[..|bucket|] == bucket;
    return Success(edges);
  }

  /** The index join yields exactly the edges of the naive join, once per occurrence of the SKU
      among a subscription's prices and products, in that order. */
  method Match(p: Primitives, salt: string, usages: seq<UsageEvent>, subs: seq<Subscription>)
    returns (r: Result<seq<LinkEdge>>)
    ensures r == Emit(salt, Edges(p, salt, usages, subs))
    ensures r.Failure? <==> salt == "" && Edges(p, salt, usages, subs) != []
    ensures r.Success? ==> r.value == Edges(p, salt, usages, subs)
  {
    var skuToSubs := Build(SKUsOf(), subs);
    var edges: seq<LinkEdge> := [];
    ghost var f := UsageEdges(p, salt, subs);
    for i := 0 to |usages|
      invariant edges == ConcatMap(f, usages[..i])
      invariant salt == "" ==> edges == []
    {
      var u := usages[i];
      ConcatMapSnoc(f, usages, i);
      ConcatMapGrows(f, usages, i + 1);
      BucketIsNestedLoop(PairEdges(p, salt, u), SKUsOf(), u.sku, subs);
      var bucket := Lookup(skuToSubs, u.sku);
      forall sub | sub in bucket ensures u.sku in SKUsOf()(sub) { BucketMatches(u, subs, sub); }
      var more := MatchUsage(p, salt, u, bucket);
      if more.Failure? { return more; }
      edges := edges + more.value;
    }
    assert usages[..|usages|] == usages;
    return Success(edges);
  }
}
