/** The pipeline around the ensemble: input validation, statistics, and the guarantee that only
    synthetic IDs leave it. */
module Pipeline {
  import opened Lists
  import opened MatchTypes
  import opened Ensemble
  import opened Acceptance
  import opened Combine
  import D = Deterministic
  import T = Temporal
  import S = SKUOverlap

  predicate IsSynthetic(id: string) {
    |id| >= 4 && id[..4] == "syn_"
  }

  predicate UsageOk(u: UsageEvent) {
    IsSynthetic(u.user) && u.at > 0
  }

  predicate AllSynthetic(ids: seq<string>) {
    forall id :: id in ids ==> IsSynthetic(id)
  }

  predicate SubscriptionOk(sub: Subscription) {
    IsSynthetic(sub.id) && IsSynthetic(sub.customer) && AllSynthetic(sub.priceIds) && AllSynthetic(sub.productIds)
  }

  predicate InvoiceOk(inv: Invoice) {
    IsSynthetic(inv.id) && IsSynthetic(inv.customer) && (inv.subscription == "" || IsSynthetic(inv.subscription))
  }

  /** What validation checks. The SKUs of usage events are not among it. */
  predicate InputsOk(ins: Inputs) {
    && (forall u :: u in ins.usages ==> UsageOk(u))
    && (forall sub :: sub in ins.subs ==> SubscriptionOk(sub))
    && (forall inv :: inv in ins.invs ==> InvoiceOk(inv))
  }

  lemma SyntheticSpelled(id: string)
    ensures IsSynthetic(id) <==> "syn_" <= id
  {
    assert |"syn_"| == 4;
    assert |id| >= 4 ==> id[..4] == [id[0], id[1], id[2], id[3]];
  }

  lemma InputsSpelled(ins: Inputs)
    ensures InputsOk(ins) <==>
            && (forall u :: u in ins.usages ==> "syn_" <= u.user && u.at > 0)
            && (forall sub :: sub in ins.subs ==> "syn_" <= sub.id && "syn_" <= sub.customer)
            && (forall sub, id :: sub in ins.subs && (id in sub.priceIds || id in sub.productIds) ==> "syn_" <= id)
            && (forall inv :: inv in ins.invs ==> "syn_" <= inv.id && "syn_" <= inv.customer)
            && (forall inv :: inv in ins.invs && inv.subscription != "" ==> "syn_" <= inv.subscription)
  {
    forall id ensures IsSynthetic(id) <==> "syn_" <= id { SyntheticSpelled(id); }
  }

  method IDsOk(ids: seq<string>) returns (ok: bool)
    ensures ok <==> AllSynthetic(ids)
  {
    for i := 0 to |ids|
      invariant AllSynthetic(ids[..i])
    {
      if !IsSynthetic(ids[i]) { return false; }
    }
    return true;
  }

  /** `validateInputs`. */
  method ValidateInputs(ins: Inputs) returns (ok: bool)
    ensures ok <==> InputsOk(ins)
    ensures ok <==>
            && (forall u :: u in ins.usages ==> "syn_" <= u.user && u.at > 0)
            && (forall sub :: sub in ins.subs ==> "syn_" <= sub.id && "syn_" <= sub.customer)
            && (forall sub, id :: sub in ins.subs && (id in sub.priceIds || id in sub.productIds) ==> "syn_" <= id)
            && (forall inv :: inv in ins.invs ==> "syn_" <= inv.id && "syn_" <= inv.customer)
            && (forall inv :: inv in ins.invs && inv.subscription != "" ==> "syn_" <= inv.subscription)
  {
    InputsSpelled(ins);
    for i := 0 to |ins.usages|
      invariant forall u :: u in ins.usages[..i] ==> UsageOk(u)
    {
      var u := ins.usages[i];
      assert u in ins.usages;
      if !IsSynthetic(u.user) || u.at <= 0 { return false; }
    }
    for i := 0 to |ins.subs|
      invariant forall sub :: sub in ins.subs[..i] ==> SubscriptionOk(sub)
    {
      var sub := ins.subs[i];
      assert sub in ins.subs;
      var pricesOk := IDsOk(sub.priceIds);
      var productsOk := IDsOk(sub.productIds);
      if !IsSynthetic(sub.id) || !IsSynthetic(sub.customer) || !pricesOk || !productsOk { return false; }
    }
    for i := 0 to |ins.invs|
      invariant forall inv :: inv in ins.invs[..i] ==> InvoiceOk(inv)
    {
      var inv := ins.invs[i];
      assert inv in ins.invs;
      if !IsSynthetic(inv.id) || !IsSynthetic(inv.customer) { return false; }
      if inv.subscription != "" && !IsSynthetic(inv.subscription) { return false; }
    }
    return true;
  }

  // ----- closure ------------------------------------------------------------------------

  predicate Closed(e: LinkEdge) {
    IsSynthetic(e.from) && IsSynthetic(e.to)
  }

  lemma IDClosed(p: Primitives, m: D.Matcher, ins: Inputs, e: LinkEdge)
    requires InputsOk(ins) && e in D.Edges(p, m, ins.usages, ins.subs, ins.invs)
    ensures Closed(e)
  {
    IDEdges(p, m, ins, e);
  }

  lemma TimeClosed(p: Primitives, m: T.Matcher, ins: Inputs, e: LinkEdge)
    requires InputsOk(ins) && e in T.Edges(p, m, ins.usages, ins.subs, ins.invs)
    ensures Closed(e)
  {
    ConcatMapMember(T.UsageEdges(p, m, ins.subs, ins.invs), ins.usages, e);
    var u :| u in ins.usages && e in T.UsageEdges(p, m, ins.subs, ins.invs)(u);
    ConcatMapMember(T.IfNearSubscription(p, m, u), ins.subs, e);
    ConcatMapMember(T.IfNearInvoice(p, m, u), ins.invs, e);
    if sub :| sub in ins.subs && e in T.IfNearSubscription(p, m, u)(sub) {
      assert SubscriptionOk(sub);
    } else {
      var inv :| inv in ins.invs && e in T.IfNearInvoice(p, m, u)(inv);
      assert InvoiceOk(inv);
    }
  }

  /** The unchecked SKU becomes a target only where it equals a checked price or product ID. */
  lemma SKUClosed(p: Primitives, salt: string, ins: Inputs, e: LinkEdge)
    requires InputsOk(ins) && e in S.Edges(p, salt, ins.usages, ins.subs)
    ensures Closed(e)
  {
    ConcatMapMember(S.UsageEdges(p, salt, ins.subs), ins.usages, e);
    var u :| u in ins.usages && e in S.UsageEdges(p, salt, ins.subs)(u);
    var sub := SKUEdgeSource(p, salt, u, ins.subs, e);
    SKUPairEdgeIs(p, salt, u, sub, e);
    assert SubscriptionOk(sub);
  }

  lemma RawClosed(p: Primitives, matchers: seq<Matcher>, ins: Inputs, e: LinkEdge)
    requires InputsOk(ins) && e in RawEdges(p, matchers, ins)
    ensures Closed(e)
  {
    ConcatMapMember(MatcherEdges(p, ins), matchers, e);
    var m :| m in matchers && e in MatcherEdges(p, ins)(m);
    match m {
      case ByID(id) => IDClosed(p, id, ins, e);
      case ByTime(time) => TimeClosed(p, time, ins, e);
      case BySKU(salt) => SKUClosed(p, salt, ins, e);
    }
  }

  /** Whatever the matchers, the recipe and the salt: validated inputs yield synthetic edges. */
  lemma OutputClosed(p: Primitives, matchers: seq<Matcher>, c: Combiner, ins: Inputs, out: seq<LinkEdge>)
    requires InputsOk(ins) && IsCombination(p, c, RawEdges(p, matchers, ins), out)
    ensures forall e :: e in out ==> Closed(e)
  {
    var raw := RawEdges(p, matchers, ins);
    forall e | e in out ensures Closed(e) {
      assert IsEdgeFor(p, c, raw, e);
      var x := Group(raw, KeyOf(e))[0];
      GroupMember(raw, KeyOf(e), x);
      RawClosed(p, matchers, ins, x);
    }
  }

  lemma ClosedSpelled(edges: seq<LinkEdge>)
    requires forall e :: e in edges ==> Closed(e)
    ensures forall e :: e in edges ==> "syn_" <= e.from && "syn_" <= e.to
  {
    forall e | e in edges ensures "syn_" <= e.from && "syn_" <= e.to {
      SyntheticSpelled(e.from);
      SyntheticSpelled(e.to);
    }
  }

  // ----- running ------------------------------------------------------------------------

  datatype Stats = Stats(matcherStats: map<string, nat>, rawEdges: nat, acceptedEdges: nat,
                         high: nat, medium: nat, low: nat, exportedEdges: nat)

  datatype RunResult = RunResult(edges: seq<LinkEdge>, stats: Stats)

  /** The exporter, if there is one; its enqueue turns an edge down or takes it. */
  datatype Export = NoExport | ExportTo(takes: LinkEdge -> bool)

  const INVALID_INPUTS := "invalid inputs"

  datatype Band = High | Medium | Low

  function BandOf(confidence: real): Band {
    if confidence >= 0.9 then High else if confidence >= 0.6 then Medium else Low
  }

  function CountBand(edges: seq<LinkEdge>, band: Band): nat {
    if edges == [] then 0
    else CountBand(edges[..|edges| - 1], band) + (if BandOf(edges[|edges| - 1].confidence) == band then 1 else 0)
  }

  function InBand(edges: seq<LinkEdge>, band: Band): set<nat> {
    set i: nat | i < |edges| && BandOf(edges[i].confidence) == band
  }

  lemma InBandGrows(init: seq<LinkEdge>, last: LinkEdge, band: Band)
    ensures |InBand(init + [last], band)| == |InBand(init, band)| + if BandOf(last.confidence) == band then 1 else 0
  {
    assert InBand(init + [last], band) ==
           InBand(init, band) + if BandOf(last.confidence) == band then {|init|} else {};
  }

  lemma {:induction false} CountIs(edges: seq<LinkEdge>, band: Band)
    ensures CountBand(edges, band) == |InBand(edges, band)|
  {
    if edges != [] {
      var init, last := edges[..|edges| - 1], edges[|edges| - 1];
      CountIs(init, band);
      InBandGrows(init, last, band);
      assert edges == init + [last];
    }
  }

  /** High from 0.9 on, medium from 0.6 on. */
  lemma BandsInNumbers(edges: seq<LinkEdge>)
    ensures CountBand(edges, High) == |set i: nat | i < |edges| && edges[i].confidence >= 0.9|
    ensures CountBand(edges, Medium) == |set i: nat | i < |edges| && 0.6 <= edges[i].confidence < 0.9|
    ensures CountBand(edges, Low) == |set i: nat | i < |edges| && edges[i].confidence < 0.6|
  {
    CountIs(edges, High);
    CountIs(edges, Medium);
    CountIs(edges, Low);
    assert InBand(edges, High) == set i: nat | i < |edges| && edges[i].confidence >= 0.9;
    assert InBand(edges, Medium) == set i: nat | i < |edges| && 0.6 <= edges[i].confidence < 0.9;
    assert InBand(edges, Low) == set i: nat | i < |edges| && edges[i].confidence < 0.6;
  }

  /** The confidence bands of the accepted edges. */
  method Classify(edges: seq<LinkEdge>) returns (high: nat, medium: nat, low: nat)
    ensures high == CountBand(edges, High) && medium == CountBand(edges, Medium) && low == CountBand(edges, Low)
    ensures high + medium + low == |edges|
  {

    high, medium, low := 0, 0, 0;
    for i := 0 to |edges|
      invariant high == CountBand(edges[..i], High)
      invariant medium == CountBand(edges[..i], Medium)
      invariant low == CountBand(edges[..i], Low)
      invariant high + medium + low == i
    {
      assert edges[..i + 1][..i] == edges[..i];
      if edges[i].confidence >= 0.9 {
        high := high + 1;
      } else if edges[i].confidence >= 0.6 {
        medium := medium + 1;
      } else {
        low := low + 1;
      }
    }
    assert edges[..|edges|] == edges;
  }

  function NameOf(m: Matcher): string {
    match m
    case ByID(_) => D.NAME
    case ByTime(_) => T.NAME
    case BySKU(_) => S.NAME
  }

  /** No later matcher has the name of the one at `i`. */
  predicate LastOfName(matchers: seq<Matcher>, i: nat)
    requires i < |matchers|
  {
    forall j :: i < j < |matchers| ==> NameOf(matchers[j]) != NameOf(matchers[i])
  }

  /** One count per matcher name, of the edges that `run` yields. */
  function Counts(run: Matcher -> seq<LinkEdge>, matchers: seq<Matcher>): map<string, nat> {
    if matchers == [] then map[]
    else
      var init, last := matchers[..|matchers| - 1], matchers[|matchers| - 1];
      Counts(run, init)[NameOf(last) := |run(last)|]
  }

  lemma CountsSnoc(run: Matcher -> seq<LinkEdge>, matchers: seq<Matcher>, i: nat)
    requires i < |matchers|
    ensures Counts(run, matchers[..i + 1]) == Counts(run, matchers[..i])[NameOf(matchers[i]) := |run(matchers[i])|]
  {
    assert matchers[..i + 1][..i] == matchers[..i];
  }

  /** A later matcher of the same name overwrites the count of an earlier one. */
  lemma {:induction false} CountIsLast(run: Matcher -> seq<LinkEdge>, matchers: seq<Matcher>, i: nat)
    requires i < |matchers| && LastOfName(matchers, i)
    ensures NameOf(matchers[i]) in Counts(run, matchers)
    ensures Counts(run, matchers)[NameOf(matchers[i])] == |run(matchers[i])|
  {
    var last := |matchers| - 1;
    if i < last {
      assert NameOf(matchers[last]) != NameOf(matchers[i]);
      CountIsLast(run, matchers[..last], i);
    }
  }

  /** The matching loop, with its statistics. */
  method MatchCounted(p: Primitives, matchers: seq<Matcher>, ins: Inputs)
    returns (r: Result<seq<LinkEdge>>, counts: map<string, nat>)
    ensures r.Failure? <==> exists m :: m in matchers && Fails(p, ins, m)
    ensures r.Success? ==> r.value == RawEdges(p, matchers, ins) && counts == Counts(MatcherEdges(p, ins), matchers)
  {
    var edges: seq<LinkEdge> := [];
    counts := map[];
    ghost var run := MatcherEdges(p, ins);
    for i := 0 to |matchers|
      invariant edges == ConcatMap(run, matchers[..i])
      invariant counts == Counts(run, matchers[..i])
      invariant forall m :: m in matchers[..i] ==> !Fails(p, ins, m)
    {
      ConcatMapSnoc(run, matchers, i);
      CountsSnoc(run, matchers, i);
      var more := RunMatcher(p, matchers[i], ins);
      if more.Failure? {
        assert matchers[i] in matchers && Fails(p, ins, matchers[i]);
        return more, counts;
      }
      counts := counts[NameOf(matchers[i]) := |more.value|];
      edges := edges + more.value;
    }
    assert matchers[..|matchers|] == matchers;
    return Success(edges), counts;
  }

  /** The export loop: it stops at the first edge that is turned down. */
  method ExportEdges(edges: seq<LinkEdge>, exp: Export) returns (ok: bool, exported: seq<LinkEdge>)
    ensures exported <= edges
    ensures exp.ExportTo? ==> forall e :: e in exported ==> exp.takes(e)
    ensures ok <==> exp.NoExport? || exported == edges
    ensures !ok ==> |exported| < |edges| && !exp.takes(edges[|exported|])
    ensures exp.NoExport? ==> exported == []
  {
    exported := [];
    if exp.NoExport? { return true, exported; }
    for i := 0 to |edges|
      invariant exported == edges[..i]
      invariant forall e :: e in exported ==> exp.takes(e)
    {
      if !exp.takes(edges[i]) { return false, exported; }
      exported := exported + [edges[i]];
    }
    return true, exported;
  }

  /** Whether matching gets as far as combining. */
  ghost predicate Matches(p: Primitives, matchers: seq<Matcher>, ins: Inputs) {
    InputsOk(ins) && forall m :: m in matchers ==> !Fails(p, ins, m)
  }

  /** `Run`. A run that fails while exporting has exported the edges before the one that was
      turned down, in output order; any other failure exports nothing. */
  method Run(p: Primitives, matchers: seq<Matcher>, c: Combiner, exp: Export, ins: Inputs)
    returns (r: Result<RunResult>, exported: seq<LinkEdge>)
    ensures !Matches(p, matchers, ins) ==> r.Failure? && exported == []
    ensures Matches(p, matchers, ins) ==>
              exists out :: IsCombination(p, c, RawEdges(p, matchers, ins), out) && ExportedFrom(exp, out, r, exported)
    ensures r.Success? ==> IsCombination(p, c, RawEdges(p, matchers, ins), r.value.edges)
    ensures r.Success? ==> r.value.stats.matcherStats == Counts(MatcherEdges(p, ins), matchers)
    ensures r.Success? ==>
              var edges, stats := r.value.edges, r.value.stats;
              && stats.rawEdges == |RawEdges(p, matchers, ins)|
              && stats.exportedEdges == |exported|
              && stats.acceptedEdges == |edges| == stats.high + stats.medium + stats.low
              && stats.high == CountBand(edges, High) && stats.medium == CountBand(edges, Medium)
    ensures forall e :: e in exported ==> Closed(e)
    ensures r.Success? ==> forall e :: e in r.value.edges ==> Closed(e)
    ensures r.Success? ==> forall e :: e in r.value.edges ==> "syn_" <= e.from && "syn_" <= e.to
  {
    var ok := ValidateInputs(ins);
    if !ok { return Failure(INVALID_INPUTS), []; }
    var all, counts := MatchCounted(p, matchers, ins);
    if all.Failure? { return Failure(all.error), []; }
    var accepted := CombineEdges(p, c, all.value);
    OutputClosed(p, matchers, c, ins, accepted);
    ClosedSpelled(accepted);
    r, exported := Deliver(accepted, counts, |all.value|, exp);
    assert forall e :: e in exported ==> e in accepted;
  }

  /** The end of a run: classifies and exports the accepted edges. */
  method Deliver(accepted: seq<LinkEdge>, counts: map<string, nat>, raw: nat, exp: Export)
    returns (r: Result<RunResult>, exported: seq<LinkEdge>)
    ensures ExportedFrom(exp, accepted, r, exported) && exported <= accepted
    ensures r.Success? ==>
              var stats := r.value.stats;
              && r.value.edges == accepted && stats.matcherStats == counts
              && stats.rawEdges == raw && stats.exportedEdges == |exported|
              && stats.acceptedEdges == |accepted| == stats.high + stats.medium + stats.low
              && stats.high == CountBand(accepted, High) && stats.medium == CountBand(accepted, Medium)
  {
    var high, medium, low := Classify(accepted);
    var ok;
    ok, exported := ExportEdges(accepted, exp);
    if !ok { return Failure(NOT_EXPORTED), exported; }
    return Success(RunResult(accepted, Stats(counts, raw, |accepted|, high, medium, low, |exported|))), exported;
  }

  const NOT_EXPORTED := "failed to enqueue edge"

  /** What the export leaves behind of the output `out`. */
  ghost predicate ExportedFrom(exp: Export, out: seq<LinkEdge>, r: Result<RunResult>, exported: seq<LinkEdge>) {
    if exp.NoExport? then r.Success? && r.value.edges == out && exported == []
    else
      && exported <= out
      && (forall e :: e in exported ==> exp.takes(e))
      && (if r.Success? then r.value.edges == exported == out
          else |exported| < |out| && !exp.takes(out[|exported|]))
  }
}
