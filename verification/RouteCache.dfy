// The flash-loan router: choosing the most profitable approved provider, and the keyed 30-second
// cache in front of that choice.

module RouteCache {
  import opened Options
  import opened Text
  import opened Chains
  import opened Ordered

  const ROUTE_CACHE_TTL_MS := 30_000

  datatype Asset = Asset(symbol: string, decimals: nat)
  datatype AssetAmount = AssetAmount(asset: Asset, raw: int)

  datatype RouteInput = RouteInput(
    chain: SupportedChain, opportunityId: string,
    revenue: AssetAmount, debt: AssetAmount, gas: AssetAmount, swapCost: AssetAmount,
    slippageBuffer: AssetAmount, safetyBuffer: AssetAmount, capitalAtRisk: AssetAmount,
    minimumMarginBps: int)

  type ProviderId = string

  /** What the profitability engine says of one provider; it may also throw. */
  datatype Evaluation = Approves(netProfit: AssetAmount, marginBps: int) | Declines | EvaluationThrows

  /** Everything outside the router at one moment: the chain's breaker and providers, and the engine. */
  datatype Market = Market(
    breakerOpen: bool, providers: seq<ProviderId>, evaluate: (RouteInput, ProviderId, AssetAmount) -> Evaluation)

  datatype Approved = Approved(provider: ProviderId, netProfit: AssetAmount, marginBps: int)

  datatype RouteResult =
    | Selected(best: Approved)
    | NoProfitableProvider
    | ExecutionCircuitOpen

  type Fees = map<ProviderId, AssetAmount>

  // ----- the selection without a cache -----

  /** The approved providers in configured order; None when a fee is missing or the engine throws. */
  function ApprovedAmong(m: Market, fees: Fees, input: RouteInput, n: nat): Option<seq<Approved>>
    requires n <= |m.providers|
  {
    if n == 0 then Some([])
    else
      var before := ApprovedAmong(m, fees, input, n - 1);
      var provider := m.providers[n - 1];
      if before.None? || provider !in fees then None
      else
        match m.evaluate(input, provider, fees[provider])
        case EvaluationThrows => None
        case Declines => before
        case Approves(net, margin) => Some(before.value + [Approved(provider, net, margin)])
  }

  function LossOf(a: Approved): int {
    -a.netProfit.raw
  }

  function Choose(approved: seq<Approved>): RouteResult {
    if approved == [] then NoProfitableProvider else Selected(SortBy(approved, LossOf)[0])
  }

  /** None is the exception of a missing fee or a throwing engine. */
  function Uncached(m: Market, fees: Fees, input: RouteInput): Option<RouteResult> {
    if m.breakerOpen then Some(ExecutionCircuitOpen)
    else
      match ApprovedAmong(m, fees, input, |m.providers|)
      case None => None
      case Some(approved) => Some(Choose(approved))
  }

  /** The chosen provider is an approved one of greatest net profit, the first such in order. */
  lemma ChoiceIsBest(approved: seq<Approved>) returns (i: nat)
    requires approved != []
    ensures i < |approved| && Choose(approved) == Selected(approved[i])
    ensures forall j :: 0 <= j < |approved| ==> approved[j].netProfit.raw <= approved[i].netProfit.raw
    ensures forall j :: 0 <= j < i ==> approved[j].netProfit.raw < approved[i].netProfit.raw
  {
    i := SortByHead(approved, LossOf);
    forall j | 0 <= j < |approved| ensures approved[j].netProfit.raw <= approved[i].netProfit.raw {
      assert LossOf(approved[i]) <= LossOf(approved[j]);
    }
    forall j | 0 <= j < i ensures approved[j].netProfit.raw < approved[i].netProfit.raw {
      assert LossOf(approved[i]) < LossOf(approved[j]);
    }
  }

  // ----- the cache key -----

  function AmountsKey(input: RouteInput, n: nat): string
    requires n <= 8
  {
    if n == 0 then ChainName(input.chain) + ":" + input.opportunityId
    else AmountsKey(input, n - 1) + ":" + PrintInt(Number(input, n - 1))
  }

  /** The numeric fields of the key, in order. */
  function Number(input: RouteInput, n: nat): int
    requires n < 8
  {
    [input.revenue.raw, input.debt.raw, input.gas.raw, input.swapCost.raw, input.slippageBuffer.raw,
     input.safetyBuffer.raw, input.capitalAtRisk.raw, input.minimumMarginBps][n]
  }

  function CacheKey(input: RouteInput): string {
    AmountsKey(input, 8)
  }

  ghost predicate SameKeyFields(a: RouteInput, b: RouteInput) {
    && a.chain == b.chain && a.opportunityId == b.opportunityId
    && forall n :: 0 <= n < 8 ==> Number(a, n) == Number(b, n)
  }

  lemma HeadIdentifies(a: RouteInput, b: RouteInput)
    requires AmountsKey(a, 0) == AmountsKey(b, 0)
    ensures a.chain == b.chain && a.opportunityId == b.opportunityId
  {
    FirstColonSplits(ChainName(a.chain), a.opportunityId, ChainName(b.chain), b.opportunityId);
    assert ChainName(a.chain)[0] == ChainName(b.chain)[0];
  }

  lemma LastNumberSplits(x: string, a: int, y: string, b: int)
    requires x + ":" + PrintInt(a) == y + ":" + PrintInt(b)
    ensures x == y && a == b
  {
    hide PrintInt;
    PrintIntHasNoColon(a);
    PrintIntHasNoColon(b);
    LastColonSplits(x, PrintInt(a), y, PrintInt(b));
    PrintIntInjective(a, b);
  }

  lemma {:induction false} AmountsKeyIdentifies(a: RouteInput, b: RouteInput, n: nat)
    requires n <= 8 && AmountsKey(a, n) == AmountsKey(b, n)
    ensures a.chain == b.chain && a.opportunityId == b.opportunityId
    ensures forall i :: 0 <= i < n ==> Number(a, i) == Number(b, i)
  {
    if n == 0 {
      HeadIdentifies(a, b);
      hide ChainName;
    } else {
      hide PrintInt, Number, ChainName;
      LastNumberSplits(AmountsKey(a, n - 1), Number(a, n - 1), AmountsKey(b, n - 1), Number(b, n - 1));
      hide AmountsKey;
      AmountsKeyIdentifies(a, b, n - 1);
    }
  }

  lemma {:induction false} SameNumbersSameKey(a: RouteInput, b: RouteInput, n: nat)
    requires n <= 8 && SameKeyFields(a, b)
    ensures AmountsKey(a, n) == AmountsKey(b, n)
  {
    if n > 0 {
      SameNumbersSameKey(a, b, n - 1);
    }
  }

  /** Keys agree exactly when all their fields do, even though opportunity ids may contain colons. */
  lemma CacheKeyIdentifies(a: RouteInput, b: RouteInput)
    ensures CacheKey(a) == CacheKey(b) <==> SameKeyFields(a, b)
  {
    if CacheKey(a) == CacheKey(b) {
      AmountsKeyIdentifies(a, b, 8);
    }
    if SameKeyFields(a, b) {
      SameNumbersSameKey(a, b, 8);
    }
  }

  function AssetsOf(input: RouteInput): seq<Asset> {
    [input.revenue.asset, input.debt.asset, input.gas.asset, input.swapCost.asset, input.slippageBuffer.asset,
     input.safetyBuffer.asset, input.capitalAtRisk.asset]
  }

  /** The key leaves out the assets of the amounts, and nothing else. */
  lemma KeyAndAssetsAreTheInput(a: RouteInput, b: RouteInput)
    ensures CacheKey(a) == CacheKey(b) && AssetsOf(a) == AssetsOf(b) <==> a == b
  {
    CacheKeyIdentifies(a, b);
    if CacheKey(a) == CacheKey(b) && AssetsOf(a) == AssetsOf(b) {
      forall i | 0 <= i < 7 ensures AssetsOf(a)[i] == AssetsOf(b)[i] {
      }
      assert Number(a, 0) == Number(b, 0) && Number(a, 1) == Number(b, 1) && Number(a, 2) == Number(b, 2)
          && Number(a, 3) == Number(b, 3) && Number(a, 4) == Number(b, 4) && Number(a, 5) == Number(b, 5)
          && Number(a, 6) == Number(b, 6) && Number(a, 7) == Number(b, 7);
      assert AssetsOf(a)[0] == AssetsOf(b)[0] && AssetsOf(a)[1] == AssetsOf(b)[1] && AssetsOf(a)[2] == AssetsOf(b)[2]
          && AssetsOf(a)[3] == AssetsOf(b)[3] && AssetsOf(a)[4] == AssetsOf(b)[4] && AssetsOf(a)[5] == AssetsOf(b)[5]
          && AssetsOf(a)[6] == AssetsOf(b)[6];
    }
  }

  // ----- one call -----

  datatype Entry = Entry(result: RouteResult, cachedAtMs: int)
  datatype RouterState = RouterState(cache: map<string, Entry>, fees: Fees)

  /** A call looks up at `nowMs` and, when it has to select, stores at `storedAtMs`. */
  datatype Call = Call(input: RouteInput, market: Market, nowMs: int, storedAtMs: int)

  predicate Hits(s: RouterState, c: Call) {
    var key := CacheKey(c.input);
    key in s.cache && c.nowMs - s.cache[key].cachedAtMs < ROUTE_CACHE_TTL_MS
  }

  function Answer(s: RouterState, c: Call): Option<RouteResult> {
    if Hits(s, c) then Some(s.cache[CacheKey(c.input)].result) else Uncached(c.market, s.fees, c.input)
  }

  function AfterCall(s: RouterState, c: Call): RouterState {
    if Hits(s, c) || Answer(s, c).None? then s
    else s.(cache := s.cache[CacheKey(c.input) := Entry(Answer(s, c).value, c.storedAtMs)])
  }

  class FlashLoanProviderRouter {
    var providerFees: Fees
    var routeCache: map<string, Entry>

    constructor (fees: Fees)
      ensures State() == RouterState(map[], fees)
    {
      providerFees, routeCache := fees, map[];
    }

    ghost function State(): RouterState
      reads this
    {
      RouterState(routeCache, providerFees)
    }

    method SetProviderFee(provider: ProviderId, fee: AssetAmount)
      modifies this
      ensures State() == RouterState(old(routeCache), old(providerFees)[provider := fee])
    {
      providerFees := providerFees[provider := fee];
    }

    method ClearRouteCache()
      modifies this
      ensures State() == RouterState(map[], old(providerFees))
    {
      routeCache := map[];
    }

    method SelectBestRoute(c: Call) returns (result: Option<RouteResult>)
      modifies this`routeCache
      ensures result == Answer(old(State()), c)
      ensures State() == AfterCall(old(State()), c)
    {
      var key := CacheKey(c.input);
      if key in routeCache && c.nowMs - routeCache[key].cachedAtMs < ROUTE_CACHE_TTL_MS {
        return Some(routeCache[key].result);
      }
      if c.market.breakerOpen {
        routeCache := routeCache[key := Entry(ExecutionCircuitOpen, c.storedAtMs)];
        return Some(ExecutionCircuitOpen);
      }
      var approved: seq<Approved> := [];
      var i := 0;
      while i < |c.market.providers|
        invariant 0 <= i <= |c.market.providers|
        invariant ApprovedAmong(c.market, providerFees, c.input, i) == Some(approved)
      {
        var provider := c.market.providers[i];
        i := i + 1;
        if provider !in providerFees {
          ThrowsForGood(c.market, providerFees, c.input, i, |c.market.providers|);
          return None;
        }
        var e := c.market.evaluate(c.input, provider, providerFees[provider]);
        if e.EvaluationThrows? {
          ThrowsForGood(c.market, providerFees, c.input, i, |c.market.providers|);
          return None;
        }
        if e.Approves? {
          approved := approved + [Approved(provider, e.netProfit, e.marginBps)];
        }
      }
      var chosen := Choose(approved);
      routeCache := routeCache[key := Entry(chosen, c.storedAtMs)];
      return Some(chosen);
    }
  }

  lemma {:induction false} ThrowsForGood(m: Market, fees: Fees, input: RouteInput, i: nat, n: nat)
    requires i <= n <= |m.providers| && ApprovedAmong(m, fees, input, i).None?
    ensures ApprovedAmong(m, fees, input, n).None?
  {
    if i < n {
      ThrowsForGood(m, fees, input, i, n - 1);
    }
  }

  // ----- runs -----

  datatype Event = Select(call: Call) | SetFee(provider: ProviderId, fee: AssetAmount) | Clear

  function After(s: RouterState, events: seq<Event>): RouterState
    decreases |events|
  {
    if events == [] then s
    else
      var before := After(s, events[..|events| - 1]);
      match events[|events| - 1]
      case Select(c) => AfterCall(before, c)
      case SetFee(p, fee) => before.(fees := before.fees[p := fee])
      case Clear => before.(cache := map[])
  }

  const NoRoutes: map<string, Entry> := map[]

  /** Event j of the run selected without the cache and stored this entry; no clear came since. */
  ghost predicate StoredBy(fees: Fees, events: seq<Event>, key: string, entry: Entry, j: nat) {
    && j < |events| && events[j].Select?
    && var c := events[j].call;
       && CacheKey(c.input) == key && c.storedAtMs == entry.cachedAtMs
       && Uncached(c.market, After(RouterState(NoRoutes, fees), events[..j]).fees, c.input) == Some(entry.result)
       && forall k :: j < k < |events| ==> events[k] != Clear
  }

  lemma StoredByExtends(fees: Fees, events: seq<Event>, key: string, entry: Entry, j: nat)
    requires events != [] && events[|events| - 1] != Clear
    requires StoredBy(fees, events[..|events| - 1], key, entry, j)
    ensures StoredBy(fees, events, key, entry, j)
  {
    hide After, Uncached, CacheKey;
    var front := events[..|events| - 1];
    assert front[..j] == events[..j] && front[j] == events[j];
    forall k | j < k < |events| ensures events[k] != Clear {
      assert k < |front| ==> events[k] == front[k];
    }
  }

  /** What one event does to one key's entry. */
  lemma EntryAfter(s: RouterState, events: seq<Event>, key: string)
    requires events != [] && key in After(s, events).cache
    ensures var before, last := After(s, events[..|events| - 1]), events[|events| - 1];
            if last.Select? && CacheKey(last.call.input) == key && !Hits(before, last.call)
                && Answer(before, last.call).Some?
            then After(s, events).cache[key] == Entry(Answer(before, last.call).value, last.call.storedAtMs)
            else last != Clear && key in before.cache && before.cache[key] == After(s, events).cache[key]
  {
  }

  lemma {:induction false} EntriesWereSelected(fees: Fees, events: seq<Event>, key: string) returns (j: nat)
    requires key in After(RouterState(NoRoutes, fees), events).cache
    ensures StoredBy(fees, events, key, After(RouterState(NoRoutes, fees), events).cache[key], j)
    decreases |events|
  {
    var s := RouterState(NoRoutes, fees);
    assert events != [];
    EntryAfter(s, events, key);
    var before, last := After(s, events[..|events| - 1]), events[|events| - 1];
    if last.Select? && CacheKey(last.call.input) == key && !Hits(before, last.call) && Answer(before, last.call).Some? {
      j := |events| - 1;
    } else {
      j := EntriesWereSelected(fees, events[..|events| - 1], key);
      StoredByExtends(fees, events, key, before.cache[key], j);
    }
  }

  /** Whatever changes around the router, an answer is either a fresh selection or the selection made
      by an earlier call with the same key less than 30 seconds before, with no clear in between. */
  lemma AnswersAreRecent(fees: Fees, events: seq<Event>, c: Call) returns (j: nat)
    ensures var s := After(RouterState(NoRoutes, fees), events);
            Answer(s, c) == Uncached(c.market, s.fees, c.input) ||
            exists entry :: StoredBy(fees, events, CacheKey(c.input), entry, j)
                            && Answer(s, c) == Some(entry.result) && c.nowMs - entry.cachedAtMs < ROUTE_CACHE_TTL_MS
  {
    var s := After(RouterState(NoRoutes, fees), events);
    if Hits(s, c) {
      j := EntriesWereSelected(fees, events, CacheKey(c.input));
      var entry := s.cache[CacheKey(c.input)];
      assert StoredBy(fees, events, CacheKey(c.input), entry, j);
    } else {
      j := 0;
    }
  }

  /** Fees, market and simulator stay as they are, and inputs with one key have the same assets. */
  ghost predicate Steady(market: Market, events: seq<Event>, c: Call) {
    && c.market == market
    && forall i :: 0 <= i < |events| ==>
         && !events[i].SetFee?
         && (events[i].Select? ==>
               && events[i].call.market == market
               && (CacheKey(events[i].call.input) == CacheKey(c.input) ==>
                     AssetsOf(events[i].call.input) == AssetsOf(c.input)))
  }

  lemma {:induction false} FeesStay(s: RouterState, events: seq<Event>)
    requires forall i :: 0 <= i < |events| ==> !events[i].SetFee?
    ensures After(s, events).fees == s.fees
    decreases |events|
  {
    if events != [] {
      FeesStay(s, events[..|events| - 1]);
    }
  }

  /** Then the cache is transparent: every answer is what a selection without it would give. */
  lemma CacheIsTransparent(fees: Fees, market: Market, events: seq<Event>, c: Call)
    requires Steady(market, events, c)
    ensures Answer(After(RouterState(NoRoutes, fees), events), c) == Uncached(market, fees, c.input)
  {
    var s0 := RouterState(NoRoutes, fees);
    var s := After(s0, events);
    FeesStay(s0, events);
    if Hits(s, c) {
      var j := EntriesWereSelected(fees, events, CacheKey(c.input));
      FeesStay(s0, events[..j]);
      KeyAndAssetsAreTheInput(events[j].call.input, c.input);
    }
  }

  /** In an unchanged market, with an empty cache before, the second call is answered as without one. */
  ghost predicate SecondIsTransparent(
    market: Market, fees: Fees, a: RouteInput, storedAtMs: int, b: RouteInput, nowMs: int)
  {
    var s := AfterCall(RouterState(NoRoutes, fees), Call(a, market, storedAtMs, storedAtMs));
    Answer(s, Call(b, market, nowMs, nowMs)) == Uncached(market, fees, b)
  }

  /** A caller can tell beforehand: whatever the market, a second call is answered as without a cache
      exactly when the keys of the two inputs differ, their assets agree, or the entry is too old. */
  lemma SecondCallTransparentIff(a: RouteInput, storedAtMs: int, b: RouteInput, nowMs: int)
    ensures (forall market, fees :: SecondIsTransparent(market, fees, a, storedAtMs, b, nowMs)) <==>
            CacheKey(a) != CacheKey(b) || AssetsOf(a) == AssetsOf(b) || nowMs - storedAtMs >= ROUTE_CACHE_TTL_MS
  {
    hide Uncached, CacheKey;
    if CacheKey(a) == CacheKey(b) && AssetsOf(a) != AssetsOf(b) && nowMs - storedAtMs < ROUTE_CACHE_TTL_MS {
      var market, fees := OtherAssetsAreMissed(a, storedAtMs, b, nowMs);
      assert !SecondIsTransparent(market, fees, a, storedAtMs, b, nowMs);
    } else if CacheKey(a) == CacheKey(b) && AssetsOf(a) == AssetsOf(b) {
      KeyAndAssetsAreTheInput(a, b);
    }
  }

  /** Inputs of one key but different assets: a market that tells them apart answers the second one
      with the route of the first. */
  lemma OtherAssetsAreMissed(a: RouteInput, storedAtMs: int, b: RouteInput, nowMs: int)
    returns (market: Market, fees: Fees)
    requires CacheKey(a) == CacheKey(b) && AssetsOf(a) != AssetsOf(b) && nowMs - storedAtMs < ROUTE_CACHE_TTL_MS
    ensures Uncached(market, fees, a) == Some(Selected(Approved("p", a.revenue, 0)))
    ensures Uncached(market, fees, b) == Some(NoProfitableProvider)
    ensures !SecondIsTransparent(market, fees, a, storedAtMs, b, nowMs)
  {
    hide CacheKey;
    market := Market(false, ["p"], (i, p, f) => if i == a then Approves(a.revenue, 0) else Declines);
    fees := map["p" := a.debt];
    var only := Approved("p", a.revenue, 0);
    assert [] + [only] == [only] && [only][..0] == [];
    assert ApprovedAmong(market, fees, a, 0) == Some([]) && ApprovedAmong(market, fees, b, 0) == Some([]);
    assert ApprovedAmong(market, fees, a, 1) == Some([only]);
    assert ApprovedAmong(market, fees, b, 1) == Some([]);
    assert SortBy([only], LossOf) == [only] by {
      assert SortBy<Approved>([], LossOf) == [];
    }
  }

  /** So the key misses assets: whatever the first input, the same input with its debt in another asset
      shares its entry for 30 seconds. */
  lemma AssetsAreMissed(a: RouteInput, symbol: string, storedAtMs: int, nowMs: int) returns (b: RouteInput)
    requires symbol != a.debt.asset.symbol && nowMs - storedAtMs < ROUTE_CACHE_TTL_MS
    ensures b == a.(debt := b.debt) && b.debt.raw == a.debt.raw && b.debt.asset.symbol == symbol
    ensures !forall market, fees :: SecondIsTransparent(market, fees, a, storedAtMs, b, nowMs)
  {
    b := a.(debt := AssetAmount(Asset(symbol, a.debt.asset.decimals), a.debt.raw));
    assert SameKeyFields(a, b);
    CacheKeyIdentifies(a, b);
    assert AssetsOf(a)[1] != AssetsOf(b)[1];
    hide SecondIsTransparent, CacheKey;
    SecondCallTransparentIff(a, storedAtMs, b, nowMs);
  }
}
