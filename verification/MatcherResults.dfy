/** What the matchers' results hold, in terms of their inputs alone: every edge with all its
    fields, how often, and in which order. */
module MatcherResults {
  import opened Lists
  import opened JoinIndex
  import opened MatchTypes
  import Acceptance
  import D = Deterministic
  import S = SKUOverlap
  import T = Temporal

  lemma RecipesSpelled()
    ensures D.RECIPE == "deterministic_id/v1" && S.RECIPE == "sku_overlap/v1" && T.RECIPE == "temporal_proximity/v1"
  {
    assert D.RECIPE == "deterministic_id" + "/" + "v1" && S.RECIPE == "sku_overlap" + "/" + "v1";
    assert T.RECIPE == "temporal_proximity" + "/" + "v1";
  }

  lemma ItoaDecimal(n: nat)
    ensures Itoa(n) == (if n < 10 then "" else Itoa(n / 10)) + ["0123456789"[n % 10]]
  {
    assert "0123456789"[n % 10] == '0' + (n % 10) as char;
  }

  /** `n` copies of a sequence, one after the other. */
  function Times<A>(n: nat, xs: seq<A>): seq<A> {
    if n == 0 then [] else Times(n - 1, xs) + xs
  }

  lemma {:induction false} TimesMember<A>(n: nat, xs: seq<A>, x: A)
    ensures x in Times(n, xs) <==> n > 0 && x in xs
  {
    if n > 0 { TimesMember(n - 1, xs, x); }
  }

  /** Walking a list and acting on one key acts once per occurrence of it. */
  lemma {:induction false} ActsPerOccurrence<R>(f: string -> seq<R>, ids: seq<string>, key: string, out: seq<R>)
    requires forall id :: f(id) == if id == key then out else []
    ensures ConcatMap(f, ids) == Times(multiset(ids)[key], out)
  {
    if ids != [] {
      var init, last := ids[..|ids| - 1], ids[|ids| - 1];
      ActsPerOccurrence(f, init, key, out);
      OccursMore(init, last, key);
      assert ids == init + [last] && ConcatMap(f, ids) == ConcatMap(f, init) + f(last);
      if last == key {
        assert Times(multiset(ids)[key], out) == Times(multiset(init)[key], out) + out;
      } else {
        assert ConcatMap(f, init) + [] == ConcatMap(f, init);
      }
    }
  }

  lemma OccursMore(ids: seq<string>, last: string, key: string)
    ensures multiset(ids + [last])[key] == multiset(ids)[key] + if last == key then 1 else 0
  {
  }

  // ----- the SKU matcher ----------------------------------------------------------------

  /** One usage event against one subscription: two edges for each time the subscription lists
      the event's SKU, prices taking precedence over products. */
  lemma SKUOnePair(p: Primitives, salt: string, u: UsageEvent, sub: Subscription)
    ensures S.Edges(p, salt, [u], [sub]) ==
      Times(multiset(sub.priceIds + sub.productIds)[u.sku],
            if u.sku in sub.priceIds then
              [LinkEdge(EdgeMeta("", ""), u.user, sub.id, "user->subscription", 0.8,
                        p.hmac(salt, u.user + "|" + sub.id + "|" + "user->subscription" + "|" + "sku_overlap"
                                     + "|" + u.sku),
                        "sku_overlap/v1", u.at, "SKU matched subscription price"),
               LinkEdge(EdgeMeta("", ""), u.user, u.sku, "user->price", 0.9,
                        p.hmac(salt, u.user + "|" + u.sku + "|" + "user->price" + "|" + "sku_overlap" + "|" + u.sku),
                        "sku_overlap/v1", u.at, "exact SKU-price match")]
            else
              [LinkEdge(EdgeMeta("", ""), u.user, sub.id, "user->subscription", 0.8,
                        p.hmac(salt, u.user + "|" + sub.id + "|" + "user->subscription" + "|" + "sku_overlap"
                                     + "|" + u.sku),
                        "sku_overlap/v1", u.at, "SKU matched subscription product"),
               LinkEdge(EdgeMeta("", ""), u.user, u.sku, "user->product", 0.9,
                        p.hmac(salt, u.user + "|" + u.sku + "|" + "user->product" + "|" + "sku_overlap" + "|" + u.sku),
                        "sku_overlap/v1", u.at, "exact SKU-product match")])
  {
    var pair := S.PairEdges(p, salt, u);
    RecipesSpelled();
    ConcatMapOne(S.UsageEdges(p, salt, [sub]), u);
    ConcatMapOne(NestedLoop(pair, S.SKUsOf(), u.sku), sub);
    ActsPerOccurrence(IfKeyRun(pair, u.sku, sub), sub.priceIds + sub.productIds, u.sku, pair(sub));
  }

  /** The result for more events, and of one event for more subscriptions, is the results in
      their order. */
  lemma SKUAdds(p: Primitives, salt: string, u: UsageEvent, us: seq<UsageEvent>, vs: seq<UsageEvent>,
                ss: seq<Subscription>, ts: seq<Subscription>)
    ensures S.Edges(p, salt, us + vs, ss) == S.Edges(p, salt, us, ss) + S.Edges(p, salt, vs, ss)
    ensures S.Edges(p, salt, [u], ss + ts) == S.Edges(p, salt, [u], ss) + S.Edges(p, salt, [u], ts)
  {
    ConcatMapAppend(S.UsageEdges(p, salt, ss), us, vs);
    ConcatMapAppend(NestedLoop(S.PairEdges(p, salt, u), S.SKUsOf(), u.sku), ss, ts);
    ConcatMapOne(S.UsageEdges(p, salt, ss + ts), u);
    ConcatMapOne(S.UsageEdges(p, salt, ss), u);
    ConcatMapOne(S.UsageEdges(p, salt, ts), u);
  }

  /** An edge is in the result if and only if it is in that of some event and subscription. */
  lemma SKUPairwise(p: Primitives, salt: string, usages: seq<UsageEvent>, subs: seq<Subscription>, e: LinkEdge)
    ensures e in S.Edges(p, salt, usages, subs) <==>
            exists u, sub :: u in usages && sub in subs && e in S.Edges(p, salt, [u], [sub])
  {
    ConcatMapMember(S.UsageEdges(p, salt, subs), usages, e);
    forall u | u in usages
      ensures e in S.UsageEdges(p, salt, subs)(u) <==> exists sub :: sub in subs && e in S.Edges(p, salt, [u], [sub])
    {
      var loop := NestedLoop(S.PairEdges(p, salt, u), S.SKUsOf(), u.sku);
      ConcatMapMember(loop, subs, e);
      forall sub ensures S.Edges(p, salt, [u], [sub]) == loop(sub) {
        ConcatMapOne(S.UsageEdges(p, salt, [sub]), u);
        ConcatMapOne(loop, sub);
      }
    }
  }

  ghost predicate HasLink(edges: seq<LinkEdge>, kind: string, user: string, to: string, at: int) {
    exists e :: e in edges && e.kind == kind && e.from == user && e.to == to && e.at == at
  }

  lemma SKULinksOfPair(p: Primitives, salt: string, u: UsageEvent, sub: Subscription, to: string)
    ensures var edges := S.Edges(p, salt, [u], [sub]);
            && (forall e :: e in edges ==> e.from == u.user && e.at == u.at)
            && (HasLink(edges, "user->price", u.user, to, u.at) <==> u.sku == to && to in sub.priceIds)
            && (HasLink(edges, "user->product", u.user, to, u.at) <==>
                  u.sku == to && to !in sub.priceIds && to in sub.productIds)
            && (HasLink(edges, "user->subscription", u.user, to, u.at) <==>
                  sub.id == to && (u.sku in sub.priceIds || u.sku in sub.productIds))
  {
    Acceptance.KindsDiffer();
    SKUOnePair(p, salt, u, sub);
    var k, pair := multiset(sub.priceIds + sub.productIds)[u.sku], S.PairEdges(p, salt, u)(sub);
    RecipesSpelled();
    assert k > 0 <==> u.sku in sub.priceIds || u.sku in sub.productIds by {
      assert k > 0 <==> u.sku in sub.priceIds + sub.productIds;
    }
    forall e ensures e in S.Edges(p, salt, [u], [sub]) <==> k > 0 && e in pair { TimesMember(k, pair, e); }
    assert pair[0] in pair && pair[1] in pair;
  }

  lemma LinksOfPairs(p: Primitives, salt: string, usages: seq<UsageEvent>, subs: seq<Subscription>,
                     kind: string, user: string, to: string, at: int)
    ensures HasLink(S.Edges(p, salt, usages, subs), kind, user, to, at) <==>
            exists u, sub :: u in usages && sub in subs && u.user == user && u.at == at
                             && HasLink(S.Edges(p, salt, [u], [sub]), kind, user, to, at)
  {
    forall e ensures e in S.Edges(p, salt, usages, subs) <==>
                     exists u, sub :: u in usages && sub in subs && e in S.Edges(p, salt, [u], [sub])
    {
      SKUPairwise(p, salt, usages, subs, e);
    }
    forall u, sub ensures forall e :: e in S.Edges(p, salt, [u], [sub]) ==> e.from == u.user && e.at == u.at {
      SKULinksOfPair(p, salt, u, sub, to);
    }
  }

  /** Which links the SKU matcher makes, and at which time. */
  lemma SKULinksIff(p: Primitives, salt: string, usages: seq<UsageEvent>, subs: seq<Subscription>,
                    user: string, to: string, at: int)
    ensures (exists e :: e in S.Edges(p, salt, usages, subs) && e.kind == "user->price"
                         && e.from == user && e.to == to && e.at == at)
       <==> exists u, sub :: u in usages && sub in subs && u.user == user && u.at == at
                             && u.sku == to && to in sub.priceIds
    ensures (exists e :: e in S.Edges(p, salt, usages, subs) && e.kind == "user->product"
                         && e.from == user && e.to == to && e.at == at)
       <==> exists u, sub :: u in usages && sub in subs && u.user == user && u.at == at
                             && u.sku == to && to !in sub.priceIds && to in sub.productIds
    ensures (exists e :: e in S.Edges(p, salt, usages, subs) && e.kind == "user->subscription"
                         && e.from == user && e.to == to && e.at == at)
       <==> exists u, sub :: u in usages && sub in subs && u.user == user && u.at == at
                             && sub.id == to && (u.sku in sub.priceIds || u.sku in sub.productIds)
  {
    LinksOfPairs(p, salt, usages, subs, "user->price", user, to, at);
    LinksOfPairs(p, salt, usages, subs, "user->product", user, to, at);
    LinksOfPairs(p, salt, usages, subs, "user->subscription", user, to, at);
    forall u, sub | u in usages && sub in subs && u.user == user && u.at == at {
      SKULinksOfPair(p, salt, u, sub, to);
    }
  }

  // ----- the deterministic matcher ------------------------------------------------------

  /** One usage event against one subscription: nothing for another customer, otherwise the
      subscription and each occurrence of the SKU among its prices, then its products. */
  lemma IDOneSubscription(p: Primitives, m: D.Matcher, u: UsageEvent, sub: Subscription)
    ensures D.Edges(p, m, [u], [sub], []) ==
            if sub.customer != u.user then []
            else
              [LinkEdge(EdgeMeta("connektn.edge.v1", m.idMode), u.user, sub.id, "user->subscription", 1.0,
                        p.hmac(m.salt, u.user + "|" + sub.id + "|" + "user->subscription" + "|" + "deterministic_id"
                                       + "|" + u.sku + "|" + m.idMode),
                        "deterministic_id/v1", u.at, "exact customer ID match")]
              + Times(multiset(sub.priceIds)[u.sku],
                      [LinkEdge(EdgeMeta("connektn.edge.v1", m.idMode), u.user, u.sku, "user->price", 1.0,
                                p.hmac(m.salt, u.user + "|" + u.sku + "|" + "user->price" + "|" + "deterministic_id"
                                               + "|" + u.sku + "|" + m.idMode),
                                "deterministic_id/v1", u.at, "exact SKU-price match")])
              + Times(multiset(sub.productIds)[u.sku],
                      [LinkEdge(EdgeMeta("connektn.edge.v1", m.idMode), u.user, u.sku, "user->product", 1.0,
                                p.hmac(m.salt, u.user + "|" + u.sku + "|" + "user->product" + "|" + "deterministic_id"
                                               + "|" + u.sku + "|" + m.idMode),
                                "deterministic_id/v1", u.at, "exact SKU-product match")])
  {
    IDSingles(p, m, u, sub);
    IDEdgeSpelled(p, m, u, sub.id, "user->subscription", "exact customer ID match");
    IDEdgeSpelled(p, m, u, u.sku, "user->price", "exact SKU-price match");
    IDEdgeSpelled(p, m, u, u.sku, "user->product", "exact SKU-product match");
    assert sub.customer == u.user ==> D.IfSubscriber(p, m, u)(sub) == D.SubscriptionEdges(p, m, u)(sub);
    ActsPerOccurrence(D.PriceEdges(p, m, u), sub.priceIds, u.sku,
                      [D.Edge(p, m, u, u.sku, USER_PRICE, "exact SKU-price match")]);
    ActsPerOccurrence(D.ProductEdges(p, m, u), sub.productIds, u.sku,
                      [D.Edge(p, m, u, u.sku, USER_PRODUCT, "exact SKU-product match")]);
  }

  lemma IDEdgeSpelled(p: Primitives, m: D.Matcher, u: UsageEvent, to: string, kind: string, notes: string)
    ensures D.Edge(p, m, u, to, kind, notes) ==
            LinkEdge(EdgeMeta("connektn.edge.v1", m.idMode), u.user, to, kind, 1.0,
                     p.hmac(m.salt, u.user + "|" + to + "|" + kind + "|" + "deterministic_id"
                                    + "|" + u.sku + "|" + m.idMode),
                     "deterministic_id/v1", u.at, notes)
  {
    RecipesSpelled();
  }

  lemma IDSingles(p: Primitives, m: D.Matcher, u: UsageEvent, sub: Subscription)
    ensures D.Edges(p, m, [u], [sub], []) == D.IfSubscriber(p, m, u)(sub)
  {
    ConcatMapOne(D.UsageEdges(p, m, [sub], []), u);
    ConcatMapOne(D.IfSubscriber(p, m, u), sub);
  }

  lemma IDOneInvoice(p: Primitives, m: D.Matcher, u: UsageEvent, inv: Invoice)
    ensures D.Edges(p, m, [u], [], [inv]) ==
            if inv.customer != u.user then []
            else [LinkEdge(EdgeMeta("connektn.edge.v1", m.idMode), u.user, inv.id, "user->invoice", 1.0,
                           p.hmac(m.salt, u.user + "|" + inv.id + "|" + "user->invoice" + "|" + "deterministic_id"
                                          + "|" + u.sku + "|" + m.idMode),
                           "deterministic_id/v1", u.at, "exact customer ID match")]
  {
    IDEdgeSpelled(p, m, u, inv.id, "user->invoice", "exact customer ID match");
    IDOfOne(p, m, u, [], [inv]);
    ConcatMapOne(D.IfBilled(p, m, u), inv);
    assert inv.customer == u.user ==> D.IfBilled(p, m, u)(inv) == D.InvoiceEdges(p, m, u)(inv);
  }

  /** More events, more subscriptions, more invoices: the results follow each other in order,
      those of an event's subscriptions in front of those of its invoices. */
  lemma IDAdds(p: Primitives, m: D.Matcher, u: UsageEvent, us: seq<UsageEvent>, vs: seq<UsageEvent>,
               ss: seq<Subscription>, ts: seq<Subscription>, ins: seq<Invoice>, more: seq<Invoice>)
    ensures D.Edges(p, m, us + vs, ss, ins) == D.Edges(p, m, us, ss, ins) + D.Edges(p, m, vs, ss, ins)
    ensures D.Edges(p, m, [u], ss + ts, []) == D.Edges(p, m, [u], ss, []) + D.Edges(p, m, [u], ts, [])
    ensures D.Edges(p, m, [u], [], ins + more) == D.Edges(p, m, [u], [], ins) + D.Edges(p, m, [u], [], more)
    ensures D.Edges(p, m, [u], ss, ins) == D.Edges(p, m, [u], ss, []) + D.Edges(p, m, [u], [], ins)
  {
    ConcatMapAppend(D.UsageEdges(p, m, ss, ins), us, vs);
    IDAddsSubscriptions(p, m, u, ss, ts);
    IDAddsInvoices(p, m, u, ins, more);
    IDAddsKinds(p, m, u, ss, ins);
  }

  lemma IDAddsSubscriptions(p: Primitives, m: D.Matcher, u: UsageEvent, ss: seq<Subscription>, ts: seq<Subscription>)
    ensures D.Edges(p, m, [u], ss + ts, []) == D.Edges(p, m, [u], ss, []) + D.Edges(p, m, [u], ts, [])
  {
    ConcatMapAppend(D.IfSubscriber(p, m, u), ss, ts);
    IDOfOne(p, m, u, ss + ts, []);
    IDOfOne(p, m, u, ss, []);
    IDOfOne(p, m, u, ts, []);
  }

  lemma IDAddsInvoices(p: Primitives, m: D.Matcher, u: UsageEvent, ins: seq<Invoice>, more: seq<Invoice>)
    ensures D.Edges(p, m, [u], [], ins + more) == D.Edges(p, m, [u], [], ins) + D.Edges(p, m, [u], [], more)
  {
    ConcatMapAppend(D.IfBilled(p, m, u), ins, more);
    IDOfOne(p, m, u, [], ins + more);
    IDOfOne(p, m, u, [], ins);
    IDOfOne(p, m, u, [], more);
  }

  lemma IDAddsKinds(p: Primitives, m: D.Matcher, u: UsageEvent, ss: seq<Subscription>, ins: seq<Invoice>)
    ensures D.Edges(p, m, [u], ss, ins) == D.Edges(p, m, [u], ss, []) + D.Edges(p, m, [u], [], ins)
  {
    IDOfOne(p, m, u, ss, []);
    IDOfOne(p, m, u, [], ins);
    IDOfOne(p, m, u, ss, ins);
  }

  lemma IDOfOne(p: Primitives, m: D.Matcher, u: UsageEvent, ss: seq<Subscription>, ins: seq<Invoice>)
    ensures D.Edges(p, m, [u], ss, ins) == ConcatMap(D.IfSubscriber(p, m, u), ss) + ConcatMap(D.IfBilled(p, m, u), ins)
    ensures ins == [] ==> D.Edges(p, m, [u], ss, ins) == ConcatMap(D.IfSubscriber(p, m, u), ss)
    ensures ss == [] ==> D.Edges(p, m, [u], ss, ins) == ConcatMap(D.IfBilled(p, m, u), ins)
  {
    ConcatMapOne(D.UsageEdges(p, m, ss, ins), u);
  }

  /** An edge is in the result if and only if it is in that of some event and some record. */
  lemma IDPairwise(p: Primitives, m: D.Matcher, usages: seq<UsageEvent>, subs: seq<Subscription>, invs: seq<Invoice>,
                   e: LinkEdge)
    ensures e in D.Edges(p, m, usages, subs, invs) <==>
            || (exists u, sub :: u in usages && sub in subs && e in D.Edges(p, m, [u], [sub], []))
            || (exists u, inv :: u in usages && inv in invs && e in D.Edges(p, m, [u], [], [inv]))
  {
    var near := D.UsageEdges(p, m, subs, invs);
    ConcatMapMember(near, usages, e);
    forall u | u in usages
      ensures e in near(u) <==>
              || (exists sub :: sub in subs && e in D.Edges(p, m, [u], [sub], []))
              || (exists inv :: inv in invs && e in D.Edges(p, m, [u], [], [inv]))
    {
      ConcatMapMember(D.IfSubscriber(p, m, u), subs, e);
      ConcatMapMember(D.IfBilled(p, m, u), invs, e);
      forall sub { IDSingles(p, m, u, sub); }
      forall inv ensures D.Edges(p, m, [u], [], [inv]) == D.IfBilled(p, m, u)(inv) {
        IDOfOne(p, m, u, [], [inv]);
        ConcatMapOne(D.IfBilled(p, m, u), inv);
      }
    }
  }

  // ----- the temporal matcher -----------------------------------------------------------

  /** One usage event against one subscription: an edge exactly within the window, with the
      distance in its confidence, its proof and its notes. */
  lemma TimeOneSubscription(p: Primitives, m: T.Matcher, u: UsageEvent, sub: Subscription)
    ensures var d := if u.at < sub.createdAt then sub.createdAt - u.at else u.at - sub.createdAt;
            T.Edges(p, m, [u], [sub], []) ==
            if m.windowSec <= 0 || d > m.windowSec then []
            else [LinkEdge(EdgeMeta("", ""), u.user, sub.id, "user->subscription",
                           0.6 * (1.0 - d as real / m.windowSec as real),
                           p.hmac(m.salt, u.user + "|" + sub.id + "|" + "user->subscription" + "|"
                                          + "temporal_proximity" + "|" + Itoa(d)),
                           "temporal_proximity/v1", u.at,
                           "usage within " + Itoa(d) + "s of " + "subscription creation")]
  {
    RecipesSpelled();
    ConcatMapOne(T.UsageEdges(p, m, [sub], []), u);
    ConcatMapOne(T.IfNearSubscription(p, m, u), sub);
    if T.Within(u.at, sub.createdAt, m.windowSec) { T.ConfidenceIsCloseness(m, u.at, sub.createdAt); }
  }

  lemma TimeOneInvoice(p: Primitives, m: T.Matcher, u: UsageEvent, inv: Invoice)
    ensures var d := if u.at < inv.createdAt then inv.createdAt - u.at else u.at - inv.createdAt;
            T.Edges(p, m, [u], [], [inv]) ==
            if m.windowSec <= 0 || d > m.windowSec then []
            else [LinkEdge(EdgeMeta("", ""), u.user, inv.id, "user->invoice",
                           0.6 * (1.0 - d as real / m.windowSec as real),
                           p.hmac(m.salt, u.user + "|" + inv.id + "|" + "user->invoice" + "|"
                                          + "temporal_proximity" + "|" + Itoa(d)),
                           "temporal_proximity/v1", u.at, "usage within " + Itoa(d) + "s of " + "invoice creation")]
  {
    RecipesSpelled();
    ConcatMapOne(T.UsageEdges(p, m, [], [inv]), u);
    ConcatMapOne(T.IfNearInvoice(p, m, u), inv);
    if T.Within(u.at, inv.createdAt, m.windowSec) { T.ConfidenceIsCloseness(m, u.at, inv.createdAt); }
  }

  lemma TimeAdds(p: Primitives, m: T.Matcher, u: UsageEvent, us: seq<UsageEvent>, vs: seq<UsageEvent>,
                 ss: seq<Subscription>, ts: seq<Subscription>, ins: seq<Invoice>, more: seq<Invoice>)
    ensures T.Edges(p, m, us + vs, ss, ins) == T.Edges(p, m, us, ss, ins) + T.Edges(p, m, vs, ss, ins)
    ensures T.Edges(p, m, [u], ss + ts, []) == T.Edges(p, m, [u], ss, []) + T.Edges(p, m, [u], ts, [])
    ensures T.Edges(p, m, [u], [], ins + more) == T.Edges(p, m, [u], [], ins) + T.Edges(p, m, [u], [], more)
    ensures T.Edges(p, m, [u], ss, ins) == T.Edges(p, m, [u], ss, []) + T.Edges(p, m, [u], [], ins)
  {
    ConcatMapAppend(T.UsageEdges(p, m, ss, ins), us, vs);
    TimeAddsSubscriptions(p, m, u, ss, ts);
    TimeAddsInvoices(p, m, u, ins, more);
    TimeAddsKinds(p, m, u, ss, ins);
  }

  lemma TimeAddsSubscriptions(p: Primitives, m: T.Matcher, u: UsageEvent, ss: seq<Subscription>, ts: seq<Subscription>)
    ensures T.Edges(p, m, [u], ss + ts, []) == T.Edges(p, m, [u], ss, []) + T.Edges(p, m, [u], ts, [])
  {
    ConcatMapAppend(T.IfNearSubscription(p, m, u), ss, ts);
    TimeOfOne(p, m, u, ss + ts, []);
    TimeOfOne(p, m, u, ss, []);
    TimeOfOne(p, m, u, ts, []);
  }

  lemma TimeAddsInvoices(p: Primitives, m: T.Matcher, u: UsageEvent, ins: seq<Invoice>, more: seq<Invoice>)
    ensures T.Edges(p, m, [u], [], ins + more) == T.Edges(p, m, [u], [], ins) + T.Edges(p, m, [u], [], more)
  {
    ConcatMapAppend(T.IfNearInvoice(p, m, u), ins, more);
    TimeOfOne(p, m, u, [], ins + more);
    TimeOfOne(p, m, u, [], ins);
    TimeOfOne(p, m, u, [], more);
  }

  lemma TimeAddsKinds(p: Primitives, m: T.Matcher, u: UsageEvent, ss: seq<Subscription>, ins: seq<Invoice>)
    ensures T.Edges(p, m, [u], ss, ins) == T.Edges(p, m, [u], ss, []) + T.Edges(p, m, [u], [], ins)
  {
    TimeOfOne(p, m, u, ss, []);
    TimeOfOne(p, m, u, [], ins);
    TimeOfOne(p, m, u, ss, ins);
  }

  lemma TimeOfOne(p: Primitives, m: T.Matcher, u: UsageEvent, ss: seq<Subscription>, ins: seq<Invoice>)
    ensures T.Edges(p, m, [u], ss, ins) ==
            ConcatMap(T.IfNearSubscription(p, m, u), ss) + ConcatMap(T.IfNearInvoice(p, m, u), ins)
    ensures ins == [] ==> T.Edges(p, m, [u], ss, ins) == ConcatMap(T.IfNearSubscription(p, m, u), ss)
    ensures ss == [] ==> T.Edges(p, m, [u], ss, ins) == ConcatMap(T.IfNearInvoice(p, m, u), ins)
  {
    ConcatMapOne(T.UsageEdges(p, m, ss, ins), u);
  }

  lemma TimePairwise(p: Primitives, m: T.Matcher, usages: seq<UsageEvent>, subs: seq<Subscription>,
                     invs: seq<Invoice>, e: LinkEdge)
    ensures e in T.Edges(p, m, usages, subs, invs) <==>
            || (exists u, sub :: u in usages && sub in subs && e in T.Edges(p, m, [u], [sub], []))
            || (exists u, inv :: u in usages && inv in invs && e in T.Edges(p, m, [u], [], [inv]))
  {
    var near := T.UsageEdges(p, m, subs, invs);
    ConcatMapMember(near, usages, e);
    forall u | u in usages
      ensures e in near(u) <==>
              || (exists sub :: sub in subs && e in T.Edges(p, m, [u], [sub], []))
              || (exists inv :: inv in invs && e in T.Edges(p, m, [u], [], [inv]))
    {
      ConcatMapMember(T.IfNearSubscription(p, m, u), subs, e);
      ConcatMapMember(T.IfNearInvoice(p, m, u), invs, e);
      forall sub ensures T.Edges(p, m, [u], [sub], []) == T.IfNearSubscription(p, m, u)(sub) {
        TimeOfOne(p, m, u, [sub], []);
        ConcatMapOne(T.IfNearSubscription(p, m, u), sub);
      }
      forall inv ensures T.Edges(p, m, [u], [], [inv]) == T.IfNearInvoice(p, m, u)(inv) {
        TimeOfOne(p, m, u, [], [inv]);
        ConcatMapOne(T.IfNearInvoice(p, m, u), inv);
      }
    }
  }
}
