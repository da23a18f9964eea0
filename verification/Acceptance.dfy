/** The whole ensemble under the default recipe: which links it accepts, in terms of its
    inputs alone. */
module Acceptance {
  import opened Lists
  import opened JoinIndex
  import opened MatchTypes
  import opened Scoring
  import opened Ensemble
  import opened Combine
  import D = Deterministic
  import T = Temporal
  import S = SKUOverlap

  datatype Matcher = ByID(id: D.Matcher) | ByTime(time: T.Matcher) | BySKU(salt: string)

  datatype Inputs = Inputs(usages: seq<UsageEvent>, subs: seq<Subscription>, invs: seq<Invoice>)

  function SaltOf(m: Matcher): string {
    match m
    case ByID(id) => id.salt
    case ByTime(time) => time.salt
    case BySKU(salt) => salt
  }

  function MatcherEdges(p: Primitives, ins: Inputs): Matcher -> seq<LinkEdge> {
    (m: Matcher) =>
      match m
      case ByID(id) => D.Edges(p, id, ins.usages, ins.subs, ins.invs)
      case ByTime(time) => T.Edges(p, time, ins.usages, ins.subs, ins.invs)
      case BySKU(salt) => S.Edges(p, salt, ins.usages, ins.subs)
  }

  /** All matchers' edges, matcher by matcher. */
  function RawEdges(p: Primitives, matchers: seq<Matcher>, ins: Inputs): seq<LinkEdge> {
    ConcatMap(MatcherEdges(p, ins), matchers)
  }

  predicate Fails(p: Primitives, ins: Inputs, m: Matcher) {
    Emit(SaltOf(m), MatcherEdges(p, ins)(m)).Failure?
  }

  method RunMatcher(p: Primitives, m: Matcher, ins: Inputs) returns (r: Result<seq<LinkEdge>>)
    ensures r == Emit(SaltOf(m), MatcherEdges(p, ins)(m))
  {
    match m {
      case ByID(id) => r := D.Match(p, id, ins.usages, ins.subs, ins.invs);
      case ByTime(time) => r := T.Match(p, time, ins.usages, ins.subs, ins.invs);
      case BySKU(salt) => r := S.Match(p, salt, ins.usages, ins.subs);
    }
  }

  /** `Ensemble.Match`: stops at the first matcher that fails. */
  method MatchAll(p: Primitives, matchers: seq<Matcher>, ins: Inputs) returns (r: Result<seq<LinkEdge>>)
    ensures r.Failure? <==> exists m :: m in matchers && Fails(p, ins, m)
    ensures r.Success? ==> r.value == RawEdges(p, matchers, ins)
  {
    var edges: seq<LinkEdge> := [];
    for i := 0 to |matchers|
      invariant edges == RawEdges(p, matchers[..i], ins)
      invariant forall m :: m in matchers[..i] ==> !Fails(p, ins, m)
    {
      ConcatMapSnoc(MatcherEdges(p, ins), matchers, i);
      var more := RunMatcher(p, matchers[i], ins);
      if more.Failure? {
        assert matchers[i] in matchers && Fails(p, ins, matchers[i]);
        return more;
      }
      edges := edges + more.value;
    }
    assert matchers[..|matchers|] == matchers;
    return Success(edges);
  }

  /** `RunEnsemble`. */
  method RunEnsemble(p: Primitives, matchers: seq<Matcher>, c: Combiner, ins: Inputs) returns (r: Result<seq<LinkEdge>>)
    ensures r.Failure? <==> exists m :: m in matchers && Fails(p, ins, m)
    ensures r.Success? ==> IsCombination(p, c, RawEdges(p, matchers, ins), r.value)
  {
    r := MatchAll(p, matchers, ins);
    if r.Success? {
      var accepted := CombineEdges(p, c, r.value);
      r := Success(accepted);
    }
  }

  // ----- the default recipe -------------------------------------------------------------

  function DefaultWeights(): Weights {
    map[D.NAME := 1.0, T.NAME := 0.5, S.NAME := 0.8]
  }

  function DefaultCombiner(salt: string): Combiner {
    Combiner(Recipe("default", "v1", DefaultWeights(), 0.8), salt)
  }

  function DefaultMatchers(salt: string, idMode: string, windowSec: int): seq<Matcher> {
    [ByID(D.Matcher(salt, idMode)), ByTime(T.Matcher(windowSec, salt)), BySKU(salt)]
  }

  // ----- the acceptance condition -------------------------------------------------------

  ghost predicate OwnsSubscription(ins: Inputs, user: string, id: string) {
    exists u, sub :: u in ins.usages && sub in ins.subs && u.user == user && sub.customer == user && sub.id == id
  }

  ghost predicate UsesSKUOf(ins: Inputs, user: string, id: string) {
    exists u, sub :: u in ins.usages && sub in ins.subs && u.user == user && sub.id == id
                  && (u.sku in sub.priceIds || u.sku in sub.productIds)
  }

  /** Some use within 7/15 of the window around the creation of the subscription. */
  ghost predicate ActiveNearCreation(ins: Inputs, windowSec: int, user: string, id: string) {
    exists u, sub :: u in ins.usages && sub in ins.subs && u.user == user && sub.id == id
                  && windowSec > 0 && 15 * Abs(u.at - sub.createdAt) <= 7 * windowSec
  }

  ghost predicate OwnsInvoice(ins: Inputs, user: string, id: string) {
    exists u, inv :: u in ins.usages && inv in ins.invs && u.user == user && inv.customer == user && inv.id == id
  }

  ghost predicate UsesOwnPrice(ins: Inputs, user: string, id: string) {
    exists u, sub :: u in ins.usages && sub in ins.subs && u.user == user && sub.customer == user
                  && u.sku == id && id in sub.priceIds
  }

  ghost predicate UsesOwnProduct(ins: Inputs, user: string, id: string) {
    exists u, sub :: u in ins.usages && sub in ins.subs && u.user == user && sub.customer == user
                  && u.sku == id && id in sub.productIds
  }

  ghost predicate DefaultAccepts(ins: Inputs, windowSec: int, k: Key) {
    if k.kind == USER_SUBSCRIPTION then
      || OwnsSubscription(ins, k.from, k.to)
      || (UsesSKUOf(ins, k.from, k.to) && ActiveNearCreation(ins, windowSec, k.from, k.to))
    else if k.kind == USER_INVOICE then OwnsInvoice(ins, k.from, k.to)
    else if k.kind == USER_PRICE then UsesOwnPrice(ins, k.from, k.to)
    else k.kind == USER_PRODUCT && UsesOwnProduct(ins, k.from, k.to)
  }

  // ----- what each matcher contributes to a link ----------------------------------------

  /** The deterministic matcher's evidence for a link. */
  ghost predicate IDEvidence(ins: Inputs, k: Key) {
    || (k.kind == USER_SUBSCRIPTION && OwnsSubscription(ins, k.from, k.to))
    || (k.kind == USER_INVOICE && OwnsInvoice(ins, k.from, k.to))
    || (k.kind == USER_PRICE && UsesOwnPrice(ins, k.from, k.to))
    || (k.kind == USER_PRODUCT && UsesOwnProduct(ins, k.from, k.to))
  }

  lemma KindsDiffer()
    ensures USER_SUBSCRIPTION != USER_INVOICE && USER_SUBSCRIPTION != USER_PRICE && USER_SUBSCRIPTION != USER_PRODUCT
    ensures USER_INVOICE != USER_PRICE && USER_INVOICE != USER_PRODUCT && USER_PRICE != USER_PRODUCT
  {
    assert USER_SUBSCRIPTION[6] == 's' && USER_INVOICE[6] == 'i';
    assert |USER_PRICE| == 11 && |USER_PRODUCT| == 13;
    assert USER_PRODUCT[6] == 'p' && USER_PRICE[6] == 'p';
  }

  lemma IDSubscriptionEdgeIs(p: Primitives, m: D.Matcher, u: UsageEvent, sub: Subscription, e: LinkEdge)
    requires e in D.SubscriptionEdges(p, m, u)(sub)
    ensures e.recipe == D.RECIPE && e.confidence == 1.0 && e.from == u.user
    ensures || (e.kind == USER_SUBSCRIPTION && e.to == sub.id)
            || (e.kind == USER_PRICE && e.to == u.sku && e.to in sub.priceIds)
            || (e.kind == USER_PRODUCT && e.to == u.sku && e.to in sub.productIds)
  {
    if e != D.SubscriptionEdge(p, m, u, sub) {
      ConcatMapMember(D.PriceEdges(p, m, u), sub.priceIds, e);
      ConcatMapMember(D.ProductEdges(p, m, u), sub.productIds, e);
      if id :| id in sub.priceIds && e in D.PriceEdges(p, m, u)(id) {
      } else {
        var id :| id in sub.productIds && e in D.ProductEdges(p, m, u)(id);
      }
    }
  }

  lemma IDEdgeOf(p: Primitives, m: D.Matcher, ins: Inputs, u: UsageEvent, e: LinkEdge)
    requires u in ins.usages && e in D.UsageEdges(p, m, ins.subs, ins.invs)(u)
    ensures e.recipe == D.RECIPE && e.confidence == 1.0 && IDEvidence(ins, KeyOf(e))
  {
    ConcatMapMember(D.IfSubscriber(p, m, u), ins.subs, e);
    ConcatMapMember(D.IfBilled(p, m, u), ins.invs, e);
    if sub :| sub in ins.subs && e in D.IfSubscriber(p, m, u)(sub) {
      IDSubscriptionEdgeIs(p, m, u, sub, e);
    } else {
      var inv :| inv in ins.invs && e in D.IfBilled(p, m, u)(inv);
      assert e in D.InvoiceEdges(p, m, u)(inv);
      assert e == D.Edge(p, m, u, inv.id, USER_INVOICE, "exact customer ID match");
    }
  }

  lemma IDEdges(p: Primitives, m: D.Matcher, ins: Inputs, e: LinkEdge)
    requires e in D.Edges(p, m, ins.usages, ins.subs, ins.invs)
    ensures e.recipe == D.RECIPE && e.confidence == 1.0 && IDEvidence(ins, KeyOf(e))
  {
    ConcatMapMember(D.UsageEdges(p, m, ins.subs, ins.invs), ins.usages, e);
    var u :| u in ins.usages && e in D.UsageEdges(p, m, ins.subs, ins.invs)(u);
    IDEdgeOf(p, m, ins, u, e);
  }

  lemma IDSubscriptionEdge(p: Primitives, m: D.Matcher, ins: Inputs, u: UsageEvent, sub: Subscription, e: LinkEdge)
    requires u in ins.usages && sub in ins.subs && sub.customer == u.user
    requires e in D.SubscriptionEdges(p, m, u)(sub)
    ensures e in D.Edges(p, m, ins.usages, ins.subs, ins.invs)
  {
    ConcatMapMember(D.IfSubscriber(p, m, u), ins.subs, e);
    ConcatMapMember(D.UsageEdges(p, m, ins.subs, ins.invs), ins.usages, e);
    assert e in D.IfSubscriber(p, m, u)(sub);
    assert e in D.UsageEdges(p, m, ins.subs, ins.invs)(u);
  }

  lemma IDEdgeExists(p: Primitives, m: D.Matcher, ins: Inputs, k: Key)
    requires IDEvidence(ins, k)
    ensures HasKey(D.Edges(p, m, ins.usages, ins.subs, ins.invs), k)
  {
    if k.kind == USER_SUBSCRIPTION && OwnsSubscription(ins, k.from, k.to) {
      var u, sub :| u in ins.usages && sub in ins.subs && u.user == k.from && sub.customer == k.from && sub.id == k.to;
      IDSubscriptionEdge(p, m, ins, u, sub, D.SubscriptionEdge(p, m, u, sub));
    } else if k.kind == USER_INVOICE && OwnsInvoice(ins, k.from, k.to) {
      var u, inv :| u in ins.usages && inv in ins.invs && u.user == k.from && inv.customer == k.from && inv.id == k.to;
      var e := D.InvoiceEdges(p, m, u)(inv)[0];
      ConcatMapMember(D.IfBilled(p, m, u), ins.invs, e);
      ConcatMapMember(D.UsageEdges(p, m, ins.subs, ins.invs), ins.usages, e);
      assert e in D.IfBilled(p, m, u)(inv);
      assert e in D.UsageEdges(p, m, ins.subs, ins.invs)(u);
    } else if k.kind == USER_PRICE && UsesOwnPrice(ins, k.from, k.to) {
      var u, sub :| u in ins.usages && sub in ins.subs && u.user == k.from && sub.customer == k.from
                 && u.sku == k.to && k.to in sub.priceIds;
      var e := D.PriceEdges(p, m, u)(k.to)[0];
      ConcatMapMember(D.PriceEdges(p, m, u), sub.priceIds, e);
      IDSubscriptionEdge(p, m, ins, u, sub, e);
    } else {
      var u, sub :| u in ins.usages && sub in ins.subs && u.user == k.from && sub.customer == k.from
                 && u.sku == k.to && k.to in sub.productIds;
      var e := D.ProductEdges(p, m, u)(k.to)[0];
      ConcatMapMember(D.ProductEdges(p, m, u), sub.productIds, e);
      IDSubscriptionEdge(p, m, ins, u, sub, e);
    }
  }

  lemma SKUPairEdgeIs(p: Primitives, salt: string, u: UsageEvent, sub: Subscription, e: LinkEdge)
    requires e in S.PairEdges(p, salt, u)(sub)
    ensures e.recipe == S.RECIPE && e.from == u.user
    ensures || (e.kind == USER_SUBSCRIPTION && e.confidence == 0.8 && e.to == sub.id)
            || ((e.kind == USER_PRICE || e.kind == USER_PRODUCT) && e.confidence == 0.9 && e.to == u.sku)
  {
  }

  /** What is known of an edge of the SKU matcher. */
  lemma SKUEdges(p: Primitives, salt: string, ins: Inputs, e: LinkEdge)
    requires e in S.Edges(p, salt, ins.usages, ins.subs)
    ensures e.recipe == S.RECIPE
    ensures || (e.kind == USER_SUBSCRIPTION && e.confidence == 0.8 && UsesSKUOf(ins, e.from, e.to))
            || ((e.kind == USER_PRICE || e.kind == USER_PRODUCT) && e.confidence == 0.9)
  {
    ConcatMapMember(S.UsageEdges(p, salt, ins.subs), ins.usages, e);
    var u :| u in ins.usages && e in S.UsageEdges(p, salt, ins.subs)(u);
    var sub := SKUEdgeSource(p, salt, u, ins.subs, e);
    SKUPairEdgeIs(p, salt, u, sub, e);
  }

  lemma SKUEdgeSource(p: Primitives, salt: string, u: UsageEvent, subs: seq<Subscription>, e: LinkEdge)
    returns (sub: Subscription)
    requires e in S.UsageEdges(p, salt, subs)(u)
    ensures sub in subs && e in S.PairEdges(p, salt, u)(sub)
    ensures u.sku in sub.priceIds || u.sku in sub.productIds
  {
    BucketIsNestedLoop(S.PairEdges(p, salt, u), S.SKUsOf(), u.sku, subs);
    var bucket := ConcatMap(Copies(S.SKUsOf(), u.sku), subs);
    ConcatMapMember(S.PairEdges(p, salt, u), bucket, e);
    sub :| sub in bucket && e in S.PairEdges(p, salt, u)(sub);
    S.BucketMatches(u, subs, sub);
  }

  lemma SKUEdgeExists(p: Primitives, salt: string, ins: Inputs, k: Key)
    requires k.kind == USER_SUBSCRIPTION && UsesSKUOf(ins, k.from, k.to)
    ensures HasKey(S.Edges(p, salt, ins.usages, ins.subs), k)
  {
    var u, sub :| u in ins.usages && sub in ins.subs && u.user == k.from && sub.id == k.to
               && (u.sku in sub.priceIds || u.sku in sub.productIds);
    var e := S.PairEdges(p, salt, u)(sub)[0];
    var loop := NestedLoop(S.PairEdges(p, salt, u), S.SKUsOf(), u.sku);
    ConcatMapMember(IfKeyRun(S.PairEdges(p, salt, u), u.sku, sub), S.SKUsOf()(sub), e);
    assert e in IfKeyRun(S.PairEdges(p, salt, u), u.sku, sub)(u.sku);
    ConcatMapMember(loop, ins.subs, e);
    assert e in loop(sub);
    ConcatMapMember(S.UsageEdges(p, salt, ins.subs), ins.usages, e);
    assert e in S.UsageEdges(p, salt, ins.subs)(u);
  }

  /** What is known of an edge of the temporal matcher. */
  lemma TimeEdges(p: Primitives, m: T.Matcher, ins: Inputs, e: LinkEdge)
    requires e in T.Edges(p, m, ins.usages, ins.subs, ins.invs)
    ensures e.recipe == T.RECIPE && 0.0 <= e.confidence <= 0.6
    ensures || (e.kind == USER_SUBSCRIPTION
                && (e.confidence >= 0.32 ==> ActiveNearCreation(ins, m.windowSec, e.from, e.to)))
            || e.kind == USER_INVOICE
  {
    ConcatMapMember(T.UsageEdges(p, m, ins.subs, ins.invs), ins.usages, e);
    var u :| u in ins.usages && e in T.UsageEdges(p, m, ins.subs, ins.invs)(u);
    ConcatMapMember(T.IfNearSubscription(p, m, u), ins.subs, e);
    ConcatMapMember(T.IfNearInvoice(p, m, u), ins.invs, e);
    if sub :| sub in ins.subs && e in T.IfNearSubscription(p, m, u)(sub) {
      NearSubscriptionEdge(p, m, u, sub, e);
    } else {
      var inv :| inv in ins.invs && e in T.IfNearInvoice(p, m, u)(inv);
      T.ConfidenceInWindow(m, u.at, inv.createdAt);
    }
  }

  lemma NearSubscriptionEdge(p: Primitives, m: T.Matcher, u: UsageEvent, sub: Subscription, e: LinkEdge)
    requires e in T.IfNearSubscription(p, m, u)(sub)
    ensures e.recipe == T.RECIPE && e.kind == USER_SUBSCRIPTION && e.from == u.user && e.to == sub.id
    ensures 0.0 <= e.confidence <= 0.6
    ensures e.confidence >= 0.32 <==> 15 * Abs(u.at - sub.createdAt) <= 7 * m.windowSec
  {
    T.ConfidenceInWindow(m, u.at, sub.createdAt);
    HighConfidence(m, u.at, sub.createdAt);
  }

  /** The confidence is worth 0.16 after weighting exactly within 7/15 of the window. */
  lemma HighConfidence(m: T.Matcher, ts: int, center: int)
    requires T.Within(ts, center, m.windowSec)
    ensures T.Confidence(m, ts, center) >= 0.32 <==> 15 * Abs(ts - center) <= 7 * m.windowSec
  {
    T.ConfidenceInWindow(m, ts, center);
    ScaledBound(T.Confidence(m, ts, center), m.windowSec, Abs(ts - center));
  }

  lemma ScaledBound(c: real, w: int, d: int)
    requires w > 0 && c * w as real == 0.6 * (w - d) as real
    ensures c >= 0.32 <==> 15 * d <= 7 * w
  {
    var x, y := w as real, d as real;
    if c >= 0.32 { assert (c - 0.32) * x >= 0.0; } else { assert (0.32 - c) * x > 0.0; }
    assert c >= 0.32 <==> 0.6 * (x - y) >= 0.32 * x;
  }

  lemma TimeEdgeExists(p: Primitives, m: T.Matcher, ins: Inputs, k: Key) returns (e: LinkEdge)
    requires k.kind == USER_SUBSCRIPTION && ActiveNearCreation(ins, m.windowSec, k.from, k.to)
    ensures e in T.Edges(p, m, ins.usages, ins.subs, ins.invs) && KeyOf(e) == k && e.confidence >= 0.32
  {
    var u, sub :| u in ins.usages && sub in ins.subs && u.user == k.from && sub.id == k.to
               && m.windowSec > 0 && 15 * Abs(u.at - sub.createdAt) <= 7 * m.windowSec;
    HighConfidence(m, u.at, sub.createdAt);
    e := T.IfNearSubscription(p, m, u)(sub)[0];
    ConcatMapMember(T.IfNearSubscription(p, m, u), ins.subs, e);
    ConcatMapMember(T.UsageEdges(p, m, ins.subs, ins.invs), ins.usages, e);
    assert e in T.UsageEdges(p, m, ins.subs, ins.invs)(u);
  }

  // ----- the three contributions add up -------------------------------------------------

  lemma NamesDiffer()
    ensures D.NAME != T.NAME && D.NAME != S.NAME && T.NAME != S.NAME
  {
    assert |D.NAME| == 16 && |T.NAME| == 18 && |S.NAME| == 11;
  }

  lemma RecipeNames()
    ensures MatcherName(D.RECIPE) == D.NAME && MatcherName(T.RECIPE) == T.NAME && MatcherName(S.RECIPE) == S.NAME
  {
    NameBeforeSlash(D.NAME, "v1");
    NameBeforeSlash(T.NAME, "v1");
    NameBeforeSlash(S.NAME, "v1");
  }

  lemma WeightOf(e: LinkEdge)
    ensures MatcherName(e.recipe) == D.NAME ==> Weighted(DefaultWeights(), e) == e.confidence
    ensures MatcherName(e.recipe) == T.NAME ==> Weighted(DefaultWeights(), e) == 0.5 * e.confidence
    ensures MatcherName(e.recipe) == S.NAME ==> Weighted(DefaultWeights(), e) == 0.8 * e.confidence
  {
    NamesDiffer();
  }

  lemma SumOfThree(f: string -> real, a: string, b: string, c: string)
    requires a != b && a != c && b != c
    ensures SumOver({a, b, c}, f) == f(a) + f(b) + f(c)
  {
    SumRemove({a, b, c}, f, a);
    assert {a, b, c} - {a} == {b, c};
    SumRemove({b, c}, f, b);
    assert {b, c} - {b} == {c};
    SumRemove({c}, f, c);
    assert {c} - {c} == {};
  }

  lemma ThreeContributions(weights: Weights, group: seq<LinkEdge>, a: string, b: string, c: string)
    requires a != b && a != c && b != c && Names(group) <= {a, b, c}
    ensures Score(weights, group) == Best(weights, group, a) + Best(weights, group, b) + Best(weights, group, c)
  {
    var f := BestOf(weights, group);
    forall n | n in {a, b, c} - Names(group) ensures f(n) == 0.0 {
      BestIsMaximum(weights, group, n);
    }
    SumSuperset(Names(group), {a, b, c}, f);
    SumOfThree(f, a, b, c);
  }

  /** One run of the default ensemble. */
  datatype Setup = Setup(p: Primitives, salt: string, idMode: string, windowSec: int, ins: Inputs) {
    function IDs(): seq<LinkEdge> { D.Edges(p, D.Matcher(salt, idMode), ins.usages, ins.subs, ins.invs) }
    function Times(): seq<LinkEdge> { T.Edges(p, T.Matcher(windowSec, salt), ins.usages, ins.subs, ins.invs) }
    function SKUs(): seq<LinkEdge> { S.Edges(p, salt, ins.usages, ins.subs) }
    function Raw(): seq<LinkEdge> { RawEdges(p, DefaultMatchers(salt, idMode, windowSec), ins) }
    function GroupFor(k: Key): seq<LinkEdge> { Group(Raw(), k) }
  }

  lemma RawIsAll(x: Setup)
    ensures x.Raw() == x.IDs() + x.Times() + x.SKUs()
  {
    ConcatMapThree(MatcherEdges(x.p, x.ins), ByID(D.Matcher(x.salt, x.idMode)),
                   ByTime(T.Matcher(x.windowSec, x.salt)), BySKU(x.salt));
  }

  lemma InThree<A>(a: seq<A>, b: seq<A>, c: seq<A>, e: A)
    ensures e in a + b + c <==> e in a || e in b || e in c
  {
  }

  lemma GroupMembers(x: Setup, k: Key, e: LinkEdge)
    ensures e in x.GroupFor(k) <==> KeyOf(e) == k && (e in x.IDs() || e in x.Times() || e in x.SKUs())
  {
    RawIsAll(x);
    InThree(x.IDs(), x.Times(), x.SKUs(), e);
    GroupMember(x.Raw(), k, e);
  }

  /** In a group, the matcher's name tells which matcher an edge comes from. */
  lemma Origins(x: Setup, k: Key, e: LinkEdge)
    requires e in x.GroupFor(k)
    ensures MatcherName(e.recipe) in {D.NAME, T.NAME, S.NAME}
    ensures MatcherName(e.recipe) == D.NAME <==> e in x.IDs()
    ensures MatcherName(e.recipe) == T.NAME <==> e in x.Times()
    ensures MatcherName(e.recipe) == S.NAME <==> e in x.SKUs()
  {
    GroupMembers(x, k, e);
    RecipeNames();
    NamesDiffer();
    if e in x.IDs() { IDEdges(x.p, D.Matcher(x.salt, x.idMode), x.ins, e); }
    if e in x.Times() { TimeEdges(x.p, T.Matcher(x.windowSec, x.salt), x.ins, e); }
    if e in x.SKUs() { SKUEdges(x.p, x.salt, x.ins, e); }
  }

  lemma CountsOf(x: Setup, k: Key, e: LinkEdge)
    ensures Counts(DefaultWeights(), x.GroupFor(k), D.NAME, e) <==> KeyOf(e) == k && e in x.IDs()
    ensures Counts(DefaultWeights(), x.GroupFor(k), T.NAME, e) <==> KeyOf(e) == k && e in x.Times()
    ensures Counts(DefaultWeights(), x.GroupFor(k), S.NAME, e) <==> KeyOf(e) == k && e in x.SKUs()
  {
    GroupMembers(x, k, e);
    if e in x.GroupFor(k) { Origins(x, k, e); }
  }

  lemma IDContribution(x: Setup, k: Key)
    ensures Best(DefaultWeights(), x.GroupFor(k), D.NAME) == if IDEvidence(x.ins, k) then 1.0 else 0.0
  {
    var group, w := x.GroupFor(k), DefaultWeights();
    BestIsMaximum(w, group, D.NAME);
    forall e ensures Counts(w, group, D.NAME, e) <==> KeyOf(e) == k && e in x.IDs()
             ensures Counts(w, group, D.NAME, e) ==> Weighted(w, e) == 1.0 && IDEvidence(x.ins, k)
    {
      CountsOf(x, k, e);
      WeightOf(e);
      if e in x.IDs() { IDEdges(x.p, D.Matcher(x.salt, x.idMode), x.ins, e); }
    }
    if IDEvidence(x.ins, k) {
      IDEdgeExists(x.p, D.Matcher(x.salt, x.idMode), x.ins, k);
    }
  }

  lemma SKUContribution(x: Setup, k: Key)
    ensures var best := Best(DefaultWeights(), x.GroupFor(k), S.NAME);
            && best <= 0.72
            && (k.kind == USER_SUBSCRIPTION ==> best == if UsesSKUOf(x.ins, k.from, k.to) then 0.64 else 0.0)
            && (best > 0.0 ==> k.kind == USER_SUBSCRIPTION || k.kind == USER_PRICE || k.kind == USER_PRODUCT)
  {
    var group, w := x.GroupFor(k), DefaultWeights();
    KindsDiffer();
    BestIsMaximum(w, group, S.NAME);
    forall e ensures Counts(w, group, S.NAME, e) <==> KeyOf(e) == k && e in x.SKUs()
             ensures Counts(w, group, S.NAME, e) ==>
               || (k.kind == USER_SUBSCRIPTION && Weighted(w, e) == 0.64 && UsesSKUOf(x.ins, k.from, k.to))
               || ((k.kind == USER_PRICE || k.kind == USER_PRODUCT) && Weighted(w, e) == 0.72)
    {
      CountsOf(x, k, e);
      WeightOf(e);
      if e in x.SKUs() { SKUEdges(x.p, x.salt, x.ins, e); }
    }
    if k.kind == USER_SUBSCRIPTION && UsesSKUOf(x.ins, k.from, k.to) {
      SKUEdgeExists(x.p, x.salt, x.ins, k);
    }
  }

  lemma TimeContribution(x: Setup, k: Key)
    ensures var best := Best(DefaultWeights(), x.GroupFor(k), T.NAME);
            && best <= 0.3
            && (k.kind == USER_SUBSCRIPTION ==>
                  (best >= 0.16 <==> ActiveNearCreation(x.ins, x.windowSec, k.from, k.to)))
            && (best > 0.0 ==> k.kind == USER_SUBSCRIPTION || k.kind == USER_INVOICE)
  {
    var group, w := x.GroupFor(k), DefaultWeights();
    KindsDiffer();
    BestIsMaximum(w, group, T.NAME);
    forall e ensures Counts(w, group, T.NAME, e) <==> KeyOf(e) == k && e in x.Times()
             ensures Counts(w, group, T.NAME, e) ==> Weighted(w, e) == 0.5 * e.confidence <= 0.3
             ensures Counts(w, group, T.NAME, e) ==>
               || (k.kind == USER_SUBSCRIPTION
                   && (e.confidence >= 0.32 ==> ActiveNearCreation(x.ins, x.windowSec, k.from, k.to)))
               || k.kind == USER_INVOICE
    {
      CountsOf(x, k, e);
      WeightOf(e);
      if e in x.Times() { TimeEdges(x.p, T.Matcher(x.windowSec, x.salt), x.ins, e); }
    }
    if k.kind == USER_SUBSCRIPTION && ActiveNearCreation(x.ins, x.windowSec, k.from, k.to) {
      var e := TimeEdgeExists(x.p, T.Matcher(x.windowSec, x.salt), x.ins, k);
      assert Counts(w, group, T.NAME, e);
    }
  }

  lemma ScoreIsSum(x: Setup, k: Key)
    ensures Score(DefaultWeights(), x.GroupFor(k)) ==
            Best(DefaultWeights(), x.GroupFor(k), D.NAME) + Best(DefaultWeights(), x.GroupFor(k), T.NAME)
            + Best(DefaultWeights(), x.GroupFor(k), S.NAME)
  {
    forall n | n in Names(x.GroupFor(k)) ensures n in {D.NAME, T.NAME, S.NAME} {
      var e :| e in x.GroupFor(k) && MatcherName(e.recipe) == n;
      Origins(x, k, e);
    }
    NamesDiffer();
    ThreeContributions(DefaultWeights(), x.GroupFor(k), D.NAME, T.NAME, S.NAME);
  }

  lemma DefaultScore(x: Setup, k: Key)
    ensures Score(DefaultWeights(), x.GroupFor(k)) >= 0.8 <==> DefaultAccepts(x.ins, x.windowSec, k)
    ensures x.GroupFor(k) == [] ==> Score(DefaultWeights(), x.GroupFor(k)) == 0.0
  {
    ScoreIsSum(x, k);
    IDContribution(x, k);
    SKUContribution(x, k);
    TimeContribution(x, k);
    KindsDiffer();
  }

  /** With the default recipe a link is accepted exactly when the user owns the linked record,
      or, for subscriptions, when an SKU of the subscription was used and some use fell close
      enough to its creation. */
  lemma DefaultAcceptance(p: Primitives, salt: string, idMode: string, windowSec: int, ins: Inputs, k: Key)
    ensures Accepted(DefaultCombiner(salt), RawEdges(p, DefaultMatchers(salt, idMode, windowSec), ins), k)
       <==> DefaultAccepts(ins, windowSec, k)
  {
    DefaultScore(Setup(p, salt, idMode, windowSec, ins), k);
  }

  /** The end-to-end run with the default recipe: it succeeds whenever there is a salt, and
      outputs an edge for a link exactly under the acceptance condition. */
  method RunDefault(p: Primitives, salt: string, idMode: string, windowSec: int, ins: Inputs)
    returns (r: Result<seq<LinkEdge>>)
    ensures salt != "" ==> r.Success?
    ensures r.Success? ==> OnePerKey(r.value) && Ordered(r.value)
    ensures r.Success? ==> forall k :: HasKey(r.value, k) <==> DefaultAccepts(ins, windowSec, k)
  {
    r := RunEnsemble(p, DefaultMatchers(salt, idMode, windowSec), DefaultCombiner(salt), ins);
    if r.Success? {
      forall k ensures HasKey(r.value, k) <==> DefaultAccepts(ins, windowSec, k) {
        DefaultAcceptance(p, salt, idMode, windowSec, ins, k);
      }
    }
  }
}
