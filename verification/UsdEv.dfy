// The exact-USD profit verdict of a flash-loan arbitrage, its five floor divisions, and how far the
// verdict can be from the exact rational profit.

module UsdEv {
  import opened Floors

  datatype EvInput = EvInput(
    amountIn: int, amountOutFinal: int,
    flashFeeBps: real, slippageBps: real,
    gasEstimate: int, gasPrice: int, minProfitThreshold: int,
    tokenInDecimals: int, nativeGasTokenDecimals: int, minProfitUsdRaw: int)

  const DEFAULT_SLIPPAGE_BPS := 100.0
  const MIN_PROFIT_THRESHOLD_WEI := 10_000_000_000_000_000
  const DEFAULT_MIN_PROFIT_USD_RAW := 15_000_000

  datatype ArbitrageEv = ArbitrageEv(
    profitWei: int, rawProfitWei: int, flashFeeWei: nat, gasCostWei: nat, slippageBufferWei: nat, isProfitable: bool)

  datatype UsdVerdict = UsdVerdict(
    netProfitUsdRaw: int, revenueUsdRaw: int, costUsdRaw: int, isPriceAvailable: bool, isProfitable: bool)

  datatype Result<T> = Ok(value: T) | NegativeInput(name: string)

  /** Basis points as the program uses them: truncated to whole ones. */
  function WholeBps(bps: real): nat
    requires bps >= 0.0
  {
    bps.Floor
  }

  function CalculateFlashLoanArbitrageEv(i: EvInput): Result<ArbitrageEv> {
    if i.amountIn < 0 then NegativeInput("amountIn")
    else if i.amountOutFinal < 0 then NegativeInput("amountOutFinal")
    else if i.gasEstimate < 0 then NegativeInput("gasEstimate")
    else if i.gasPrice < 0 then NegativeInput("gasPrice")
    else if i.minProfitThreshold < 0 then NegativeInput("minProfitThreshold")
    else if i.flashFeeBps < 0.0 then NegativeInput("flashFeeBps")
    else if i.slippageBps < 0.0 then NegativeInput("slippageBps")
    else
      var fee := i.amountIn * WholeBps(i.flashFeeBps) / 10_000;
      var gas := i.gasEstimate * i.gasPrice;
      var slippage := i.amountOutFinal * WholeBps(i.slippageBps) / 10_000;
      var raw := i.amountOutFinal - i.amountIn - fee - gas - slippage;
      var profitable := raw >= i.minProfitThreshold;
      Ok(ArbitrageEv(if profitable then raw else 0, raw, fee, gas, slippage, profitable))
  }

  function AmountToUsdRaw(amountRaw: nat, decimals: nat, usdPriceRaw: nat): nat {
    FlooredQuotient(amountRaw * usdPriceRaw, Pow10(decimals))
  }

  /** Division of non-negative bigints. */
  function FlooredQuotient(a: nat, b: nat): nat
    requires b >= 1
  {
    a / b
  }

  /** `tokenPrice` and `nativePrice` are what the price cache answers, 0 for a missing price. */
  function CalculateExactUsdEv(i: EvInput, tokenPrice: int, nativePrice: int): Result<UsdVerdict> {
    if i.amountIn < 0 then NegativeInput("amountIn")
    else if i.amountOutFinal < 0 then NegativeInput("amountOutFinal")
    else if i.tokenInDecimals < 0 then NegativeInput("tokenInDecimals")
    else if i.minProfitUsdRaw < 0 then NegativeInput("minProfitUsdRaw")
    else if i.nativeGasTokenDecimals < 0 then NegativeInput("nativeGasTokenDecimals")
    else if tokenPrice <= 0 || nativePrice <= 0 then Ok(UsdVerdict(0, 0, 0, false, false))
    else
      match CalculateFlashLoanArbitrageEv(i)
      case NegativeInput(name) => NegativeInput(name)
      case Ok(ev) =>
        var revenue := AmountToUsdRaw(i.amountOutFinal, i.tokenInDecimals, tokenPrice);
        var cost := AmountToUsdRaw(i.amountIn + ev.flashFeeWei + ev.slippageBufferWei, i.tokenInDecimals, tokenPrice)
                  + AmountToUsdRaw(ev.gasCostWei, i.nativeGasTokenDecimals, nativePrice);
        Ok(UsdVerdict(revenue - cost, revenue, cost, true, revenue - cost >= i.minProfitUsdRaw))
  }

  // ----- the exact profit -----

  /** An amount in USD without rounding. */
  function Usd(amount: real, price: nat, unit: nat): real
    requires unit >= 1
  {
    amount * price as real / unit as real
  }

  /** A rate in basis points of an amount. */
  function Portion(amount: nat, bps: real): real {
    amount as real * bps / 10_000.0
  }

  /** Revenue minus amount, fee, slippage and gas at the given rates, with no flooring of any of them. */
  function NetUsdAt(i: EvInput, feeBps: real, slippageBps: real, tokenPrice: nat, nativePrice: nat): real
    requires i.amountIn >= 0 && i.amountOutFinal >= 0
    requires i.gasEstimate >= 0 && i.gasPrice >= 0 && i.tokenInDecimals >= 0 && i.nativeGasTokenDecimals >= 0
  {
    var cost := i.amountIn as real + Portion(i.amountIn, feeBps) + Portion(i.amountOutFinal, slippageBps);
    Usd(i.amountOutFinal as real, tokenPrice, Pow10(i.tokenInDecimals))
      - Usd(cost, tokenPrice, Pow10(i.tokenInDecimals))
      - Usd((i.gasEstimate * i.gasPrice) as real, nativePrice, Pow10(i.nativeGasTokenDecimals))
  }

  /** The exact net profit: at the rates as given, fractions of a basis point included. */
  function ExactNetUsd(i: EvInput, tokenPrice: nat, nativePrice: nat): real
    requires i.amountIn >= 0 && i.amountOutFinal >= 0
    requires i.gasEstimate >= 0 && i.gasPrice >= 0 && i.tokenInDecimals >= 0 && i.nativeGasTokenDecimals >= 0
  {
    NetUsdAt(i, i.flashFeeBps, i.slippageBps, tokenPrice, nativePrice)
  }

  /** What truncating the two rates to whole basis points leaves out of the cost. */
  function DroppedRatesUsd(i: EvInput, tokenPrice: nat): real
    requires i.amountIn >= 0 && i.amountOutFinal >= 0 && i.flashFeeBps >= 0.0 && i.slippageBps >= 0.0
    requires i.tokenInDecimals >= 0
  {
    Usd(Portion(i.amountIn, Fraction(i.flashFeeBps)) + Portion(i.amountOutFinal, Fraction(i.slippageBps)),
        tokenPrice, Pow10(i.tokenInDecimals))
  }

  function Fraction(bps: real): (r: real)
    ensures 0.0 <= r < 1.0
  {
    bps - bps.Floor as real
  }

  /** Two raw USD units, and two token units at the price. */
  function Slack(tokenPrice: nat, decimals: nat): real {
    2.0 + 2.0 * tokenPrice as real / Pow10(decimals) as real
  }

  lemma FloorBounds(a: nat, b: nat)
    requires b >= 1
    ensures (a / b) as real <= a as real / b as real < (a / b) as real + 1.0
  {
    var q, r := a / b, a % b;
    assert a == q * b + r;
    var x := r as real / b as real;
    assert a as real == q as real * b as real + r as real;
    assert a as real / b as real == q as real + x by {
      DivideSum(q as real, b as real, r as real);
    }
    BelowOne(r as real, b as real);
  }

  lemma DivideSum(q: real, b: real, r: real)
    requires b >= 1.0
    ensures (q * b + r) / b == q + r / b
  {
    assert (q * b) / b == q;
  }

  lemma BelowOne(r: real, b: real)
    requires 0.0 <= r < b && b >= 1.0
    ensures 0.0 <= r / b < 1.0
  {
  }

  lemma UsdBounds(amount: nat, decimals: nat, price: nat)
    ensures AmountToUsdRaw(amount, decimals, price) as real
            <= Usd(amount as real, price, Pow10(decimals))
            < AmountToUsdRaw(amount, decimals, price) as real + 1.0
  {
    FloorBounds(amount * price, Pow10(decimals));
    assert (amount * price) as real == amount as real * price as real;
  }

  lemma PortionBounds(amount: nat, bps: nat)
    ensures (amount * bps / 10_000) as real <= Portion(amount, bps as real) < (amount * bps / 10_000) as real + 1.0
  {
    FloorBounds(amount * bps, 10_000);
    assert (amount * bps) as real == amount as real * bps as real;
  }

  /** Usd grows with the amount; two more units cost 2*price/unit more. */
  lemma UsdMonotone(x: real, y: real, price: nat, unit: nat)
    requires x <= y < x + 2.0 && price >= 1 && unit >= 1
    ensures Usd(x, price, unit) <= Usd(y, price, unit) < Usd(x, price, unit) + 2.0 * price as real / unit as real
  {
    var p, u, d := price as real, unit as real, y - x;
    Distributes(x, d, p);
    DivideAdds(x * p, d * p, u);
    MultiplyBounds(d, p);
    DivideBounds(d * p, 2.0 * p, u);
  }

  lemma Distributes(x: real, d: real, p: real)
    ensures (x + d) * p == x * p + d * p
  {
  }

  lemma DivideAdds(a: real, b: real, u: real)
    requires u >= 1.0
    ensures (a + b) / u == a / u + b / u
  {
  }

  lemma MultiplyBounds(d: real, p: real)
    requires 0.0 <= d < 2.0 && p >= 1.0
    ensures 0.0 <= d * p < 2.0 * p
  {
    assert (2.0 - d) * p > 0.0;
    assert (2.0 - d) * p == 2.0 * p - d * p;
  }

  lemma DivideBounds(x: real, y: real, u: real)
    requires 0.0 <= x < y && u >= 1.0
    ensures 0.0 <= x / u < y / u
  {
    DividePositive(y - x, u);
    DivideAdds(x, y - x, u);
  }

  lemma DividePositive(x: real, u: real)
    requires x > 0.0 && u >= 1.0
    ensures x / u > 0.0
  {
  }

  /** With the rates truncated as the program truncates them, the net is within the slack. */
  lemma WholeRateBounds(i: EvInput, tokenPrice: nat, nativePrice: nat)
    requires CalculateExactUsdEv(i, tokenPrice, nativePrice).Ok?
    requires tokenPrice >= 1 && nativePrice >= 1
    ensures var net := CalculateExactUsdEv(i, tokenPrice, nativePrice).value.netProfitUsdRaw as real;
            var exact := NetUsdAt(i, WholeBps(i.flashFeeBps) as real, WholeBps(i.slippageBps) as real, tokenPrice,
              nativePrice);
            net - Slack(tokenPrice, i.tokenInDecimals) < exact < net + 1.0
  {
    hide Usd, Portion, Pow10, AmountToUsdRaw;
    var ev := CalculateFlashLoanArbitrageEv(i).value;
    var fee, slippage := WholeBps(i.flashFeeBps), WholeBps(i.slippageBps);
    var cost := i.amountIn + ev.flashFeeWei + ev.slippageBufferWei;
    var exactCost := i.amountIn as real + Portion(i.amountIn, fee as real)
      + Portion(i.amountOutFinal, slippage as real);
    PortionBounds(i.amountIn, fee);
    PortionBounds(i.amountOutFinal, slippage);
    UsdMonotone(cost as real, exactCost, tokenPrice, Pow10(i.tokenInDecimals));
    UsdBounds(i.amountOutFinal, i.tokenInDecimals, tokenPrice);
    UsdBounds(cost, i.tokenInDecimals, tokenPrice);
    UsdBounds(ev.gasCostWei, i.nativeGasTokenDecimals, nativePrice);
  }

  lemma UsdAdds(x: real, y: real, price: nat, unit: nat)
    requires unit >= 1
    ensures Usd(x + y, price, unit) == Usd(x, price, unit) + Usd(y, price, unit)
    ensures x >= 0.0 ==> Usd(x, price, unit) >= 0.0
  {
    var p, u := price as real, unit as real;
    assert (x + y) * p == x * p + y * p;
    DivideAdds(x * p, y * p, u);
    if x >= 0.0 {
      assert x * p >= 0.0;
      assert x * p / u >= 0.0;
    }
  }

  lemma PortionSplits(amount: nat, bps: real)
    requires bps >= 0.0
    ensures Portion(amount, bps) == Portion(amount, WholeBps(bps) as real) + Portion(amount, Fraction(bps))
    ensures Portion(amount, Fraction(bps)) >= 0.0
  {
    var a, w, f := amount as real, WholeBps(bps) as real, Fraction(bps);
    assert a * (w + f) == a * w + a * f;
    assert a * f >= 0.0;
  }

  /** The exact net is the one at whole rates less what the truncation leaves out. */
  lemma RatesSplit(i: EvInput, tokenPrice: nat, nativePrice: nat)
    requires CalculateExactUsdEv(i, tokenPrice, nativePrice).Ok? && tokenPrice >= 1 && nativePrice >= 1
    ensures var whole :=
              NetUsdAt(i, WholeBps(i.flashFeeBps) as real, WholeBps(i.slippageBps) as real, tokenPrice, nativePrice);
            ExactNetUsd(i, tokenPrice, nativePrice) == whole - DroppedRatesUsd(i, tokenPrice)
    ensures DroppedRatesUsd(i, tokenPrice) >= 0.0
  {
    hide Usd, Portion, Pow10, AmountToUsdRaw, Fraction, WholeBps;
    PortionSplits(i.amountIn, i.flashFeeBps);
    PortionSplits(i.amountOutFinal, i.slippageBps);
    var dropped := Portion(i.amountIn, Fraction(i.flashFeeBps)) + Portion(i.amountOutFinal, Fraction(i.slippageBps));
    var cost := i.amountIn as real + Portion(i.amountIn, WholeBps(i.flashFeeBps) as real)
              + Portion(i.amountOutFinal, WholeBps(i.slippageBps) as real);
    UsdAdds(cost, dropped, tokenPrice, Pow10(i.tokenInDecimals));
    UsdAdds(dropped, 0.0, tokenPrice, Pow10(i.tokenInDecimals));
    assert i.amountIn as real + Portion(i.amountIn, i.flashFeeBps) + Portion(i.amountOutFinal, i.slippageBps)
             == cost + dropped;
  }

  /** The verdict errs on one side only: an exact profit at the threshold is always reported, and a
      reported one is below the threshold by less than the slack and what truncating the rates leaves
      out of the cost. */
  lemma VerdictBounds(i: EvInput, tokenPrice: nat, nativePrice: nat)
    requires CalculateExactUsdEv(i, tokenPrice, nativePrice).Ok?
    requires tokenPrice >= 1 && nativePrice >= 1
    ensures var verdict := CalculateExactUsdEv(i, tokenPrice, nativePrice).value;
            var exact, threshold := ExactNetUsd(i, tokenPrice, nativePrice), i.minProfitUsdRaw as real;
            var error := Slack(tokenPrice, i.tokenInDecimals) + DroppedRatesUsd(i, tokenPrice);
            && (exact >= threshold ==> verdict.isProfitable)
            && (verdict.isProfitable ==> exact > threshold - error)
            && verdict.netProfitUsdRaw as real - error < exact < verdict.netProfitUsdRaw as real + 1.0
  {
    WholeRateBounds(i, tokenPrice, nativePrice);
    RatesSplit(i, tokenPrice, nativePrice);
    hide NetUsdAt, ExactNetUsd, DroppedRatesUsd, Slack, AmountToUsdRaw;
  }

  /** A reported profit is within two raw units and two priced token units of the threshold. */
  ghost predicate WithinSlack(i: EvInput, tokenPrice: nat, nativePrice: nat) {
    tokenPrice >= 1 && nativePrice >= 1 && CalculateExactUsdEv(i, tokenPrice, nativePrice).Ok?
    && CalculateExactUsdEv(i, tokenPrice, nativePrice).value.isProfitable ==>
      ExactNetUsd(i, tokenPrice, nativePrice) > i.minProfitUsdRaw as real - Slack(tokenPrice, i.tokenInDecimals)
  }

  lemma WholeRatesDropNothing(i: EvInput, tokenPrice: nat)
    requires i.amountIn >= 0 && i.amountOutFinal >= 0 && i.tokenInDecimals >= 0
    requires i.flashFeeBps >= 0.0 && Fraction(i.flashFeeBps) == 0.0
    requires i.slippageBps >= 0.0 && Fraction(i.slippageBps) == 0.0
    ensures DroppedRatesUsd(i, tokenPrice) == 0.0
  {
  }

  /** Ten thousand times a and b tokens of no decimals at price 1, no gas. */
  function PlainInput(a: nat, b: nat, feeBps: real, slippageBps: real, threshold: nat): EvInput {
    EvInput(10_000 * a, 10_000 * b, feeBps, slippageBps, 0, 0, 0, 0, 0, threshold)
  }

  function PlainNet(a: nat, b: nat, feeBps: real, slippageBps: real): int
    requires feeBps >= 0.0 && slippageBps >= 0.0
  {
    10_000 * b - 10_000 * a - a * WholeBps(feeBps) - b * WholeBps(slippageBps)
  }

  /** Nothing is rounded in such an input but the rates. */
  lemma PlainVerdict(a: nat, b: nat, feeBps: real, slippageBps: real, threshold: nat)
    requires feeBps >= 0.0 && slippageBps >= 0.0
    ensures var i, net := PlainInput(a, b, feeBps, slippageBps, threshold), PlainNet(a, b, feeBps, slippageBps);
            && CalculateExactUsdEv(i, 1, 1).Ok? && CalculateExactUsdEv(i, 1, 1).value.netProfitUsdRaw == net
            && CalculateExactUsdEv(i, 1, 1).value.isProfitable == (net >= threshold)
            && ExactNetUsd(i, 1, 1) == net as real - a as real * Fraction(feeBps) - b as real * Fraction(slippageBps)
  {
    hide WholeBps, Fraction;
    var i := PlainInput(a, b, feeBps, slippageBps, threshold);
    var f, s := WholeBps(feeBps), WholeBps(slippageBps);
    assert 10_000 * a * f == (a * f) * 10_000 && 10_000 * a * f / 10_000 == a * f;
    assert 10_000 * b * s == (b * s) * 10_000 && 10_000 * b * s / 10_000 == b * s;
    PlainPortion(a, feeBps);
    PlainPortion(b, slippageBps);
    PlainCalculation(a, b, feeBps, slippageBps, threshold);
    PlainExact(a, b, feeBps, slippageBps, threshold);
  }

  lemma PlainPortion(a: nat, bps: real)
    requires bps >= 0.0
    ensures Portion(10_000 * a, bps) == (a * WholeBps(bps)) as real + a as real * Fraction(bps)
  {
    var x, w, f := a as real, WholeBps(bps) as real, Fraction(bps);
    assert (10_000 * a) as real == 10_000.0 * x;
    assert (10_000.0 * x) * bps / 10_000.0 == x * bps;
    assert x * (w + f) == x * w + x * f;
    assert (a * WholeBps(bps)) as real == x * w;
  }

  lemma PlainCalculation(a: nat, b: nat, feeBps: real, slippageBps: real, threshold: nat)
    requires feeBps >= 0.0 && slippageBps >= 0.0
    requires 10_000 * a * WholeBps(feeBps) / 10_000 == a * WholeBps(feeBps)
    requires 10_000 * b * WholeBps(slippageBps) / 10_000 == b * WholeBps(slippageBps)
    ensures var i, net := PlainInput(a, b, feeBps, slippageBps, threshold), PlainNet(a, b, feeBps, slippageBps);
            && CalculateExactUsdEv(i, 1, 1).Ok? && CalculateExactUsdEv(i, 1, 1).value.netProfitUsdRaw == net
            && CalculateExactUsdEv(i, 1, 1).value.isProfitable == (net >= threshold)
  {
    hide WholeBps;
    assert Pow10(0) == 1;
  }

  lemma PlainExact(a: nat, b: nat, feeBps: real, slippageBps: real, threshold: nat)
    requires feeBps >= 0.0 && slippageBps >= 0.0
    ensures var i := PlainInput(a, b, feeBps, slippageBps, threshold);
            ExactNetUsd(i, 1, 1) == (10_000 * b) as real - (10_000 * a) as real
                                    - Portion(10_000 * a, feeBps) - Portion(10_000 * b, slippageBps)
  {
    hide Portion;
    assert Pow10(0) == 1;
  }

  // ----- inputs in which every division rounds by almost a unit -----

  /** One whole USD unit, or none, comes in; the gas is a token below one, and n is what goes out. */
  function WideInput(one: bool, n: nat, e: nat, feeBps: real, slippageBps: real): EvInput {
    var unit := Pow10(e + 4);
    EvInput(10_000 * n, if one then unit else 0, feeBps, slippageBps, unit - 1, 1, 0, e + 4, e + 4, 0)
  }

  /** What the tokens cost with the rates truncated: a whole number, so that neither rate is floored. */
  function WideCost(one: bool, n: nat, e: nat, feeBps: real, slippageBps: real): nat
    requires feeBps >= 0.0 && slippageBps >= 0.0
  {
    n * (10_000 + WholeBps(feeBps)) + if one then Pow10(e) * WholeBps(slippageBps) else 0
  }

  function Dropped(one: bool, n: nat, e: nat, feeBps: real, slippageBps: real): real {
    n as real * Fraction(feeBps) + if one then Pow10(e) as real * Fraction(slippageBps) else 0.0
  }

  lemma UnitIs(e: nat)
    ensures Pow10(e + 4) == 10_000 * Pow10(e) && Pow10(e) > e
  {
    assert Pow10(e + 4) == 10 * Pow10(e + 3) == 100 * Pow10(e + 2) == 1_000 * Pow10(e + 1);
    Pow10Grows(e);
  }

  lemma {:induction false} Pow10Grows(e: nat)
    ensures Pow10(e) > e
  {
    if e > 0 {
      Pow10Grows(e - 1);
    }
  }

  lemma WholeShare(n: nat, rate: nat)
    ensures 10_000 * n * rate / 10_000 == n * rate
  {
    assert 10_000 * n * rate == (n * rate) * 10_000;
  }

  /** Such an input is reported as a profit of zero. */
  lemma WideVerdict(one: bool, n: nat, e: nat, feeBps: real, slippageBps: real)
    requires feeBps >= 0.0 && slippageBps >= 0.0
    requires var a, cost := if one then 1 else 0, WideCost(one, n, e, feeBps, slippageBps);
             a * Pow10(e + 4) <= cost < (a + 1) * Pow10(e + 4)
    ensures var verdict := CalculateExactUsdEv(WideInput(one, n, e, feeBps, slippageBps), 1, 1);
            verdict.Ok? && verdict.value.isProfitable
  {
    UnitIs(e);
    hide Pow10, WholeBps;
    var u, f, w := Pow10(e + 4), WholeBps(feeBps), WholeBps(slippageBps);
    var cost := WideCost(one, n, e, feeBps, slippageBps);
    WholeShare(n, f);
    WholeShare(Pow10(e), w);
    assert n * (10_000 + f) == 10_000 * n + n * f;
    assert (if one then u else 0) * w / 10_000 == if one then Pow10(e) * w else 0;
    assert cost / u == if one then 1 else 0 by {
      QuotientIs(cost, u, if one then 1 else 0);
    }
    QuotientIs(u - 1, u, 0);
    QuotientIs(if one then u else 0, u, if one then 1 else 0);
  }

  lemma QuotientIs(x: nat, u: nat, q: nat)
    requires u >= 1 && q * u <= x < (q + 1) * u
    ensures x / u == q
  {
    DivLessIff(x, u, q + 1);
    DivLessIff(x, u, q);
  }

  /** Its exact net, in token units. */
  lemma WideExact(one: bool, n: nat, e: nat, feeBps: real, slippageBps: real)
    requires feeBps >= 0.0 && slippageBps >= 0.0
    ensures var i, u := WideInput(one, n, e, feeBps, slippageBps), Pow10(e + 4) as real;
            ExactNetUsd(i, 1, 1) * u
            == (if one then u else 0.0) - WideCost(one, n, e, feeBps, slippageBps) as real
               - Dropped(one, n, e, feeBps, slippageBps) - (u - 1.0)
  {
    UnitIs(e);
    hide Pow10, WholeBps, Fraction, Portion;
    var i, u, m := WideInput(one, n, e, feeBps, slippageBps), Pow10(e + 4) as real, Pow10(e);
    PlainPortion(n, feeBps);
    PlainPortion(if one then m else 0, slippageBps);
    var cost := i.amountIn as real + Portion(i.amountIn, feeBps) + Portion(i.amountOutFinal, slippageBps);
    assert (n * (10_000 + WholeBps(feeBps))) as real == i.amountIn as real + (n * WholeBps(feeBps)) as real;
    assert cost == WideCost(one, n, e, feeBps, slippageBps) as real + Dropped(one, n, e, feeBps, slippageBps);
    assert Usd(i.amountOutFinal as real, 1, Pow10(e + 4)) * u == i.amountOutFinal as real;
    assert Usd(cost, 1, Pow10(e + 4)) * u == cost;
    assert Usd((i.gasEstimate * i.gasPrice) as real, 1, Pow10(e + 4)) * u == u - 1.0;
  }

  /** The truncated costs stay below the next USD unit, and the dropped fractions lift them to three
      tokens above it. */
  ghost predicate LiftedOver(one: bool, n: nat, e: nat, feeBps: real, slippageBps: real)
    requires feeBps >= 0.0 && slippageBps >= 0.0
  {
    var u, cost := Pow10(e + 4), WideCost(one, n, e, feeBps, slippageBps);
    && (if one then u <= cost < 2 * u else cost < u)
    && cost as real + Dropped(one, n, e, feeBps, slippageBps) >= (if one then 2 * u else u) as real + 3.0
  }

  /** Then the exact net is below what the slack allows. */
  lemma WideFails(one: bool, n: nat, e: nat, feeBps: real, slippageBps: real)
    requires feeBps >= 0.0 && slippageBps >= 0.0 && LiftedOver(one, n, e, feeBps, slippageBps)
    ensures !WithinSlack(WideInput(one, n, e, feeBps, slippageBps), 1, 1)
  {
    WideVerdict(one, n, e, feeBps, slippageBps);
    ExactIsBelow(one, n, e, feeBps, slippageBps);
    hide CalculateExactUsdEv, ExactNetUsd, Pow10, LiftedOver, Slack;
  }

  lemma ExactIsBelow(one: bool, n: nat, e: nat, feeBps: real, slippageBps: real)
    requires feeBps >= 0.0 && slippageBps >= 0.0 && LiftedOver(one, n, e, feeBps, slippageBps)
    ensures ExactNetUsd(WideInput(one, n, e, feeBps, slippageBps), 1, 1) <= -Slack(1, e + 4)
  {
    WideExact(one, n, e, feeBps, slippageBps);
    hide ExactNetUsd, WideCost, Dropped, Pow10, WholeBps, Fraction;
    BelowSlack(ExactNetUsd(WideInput(one, n, e, feeBps, slippageBps), 1, 1), Pow10(e + 4) as real);
  }

  lemma BelowSlack(exact: real, u: real)
    requires u >= 1.0 && exact * u <= -2.0 * u - 2.0
    ensures exact <= -(2.0 + 2.0 / u)
  {
    var above := exact + 2.0 + 2.0 / u;
    assert (2.0 / u) * u == 2.0;
    assert above * u == exact * u + 2.0 * u + (2.0 / u) * u;
    if above > 0.0 {
      PositiveProduct(above, u);
      assert false;
    }
  }

  lemma PositiveProduct(x: real, y: real)
    requires x > 0.0 && y > 0.0
    ensures x * y > 0.0
  {
  }

  /** Enough tokens make any fraction of a basis point cost this much. */
  lemma EnoughFor(fraction: real, cost: nat) returns (n: nat)
    requires fraction > 0.0
    ensures n as real * fraction >= cost as real
  {
    var x := cost as real / fraction;
    n := x.Floor + 1;
    assert n as real >= x && x * fraction == cost as real;
    MoreCostsMore(x, n as real, fraction);
  }

  lemma MoreCostsMore(x: real, y: real, fraction: real)
    requires x <= y && fraction >= 0.0
    ensures x * fraction <= y * fraction
  {
    assert (y - x) * fraction >= 0.0;
    assert (y - x) * fraction == y * fraction - x * fraction;
  }

  /** The most shares that fit: less than one more is left over. */
  lemma Fits(room: nat, share: nat, known: nat) returns (n: nat)
    requires share >= 1 && known * share <= room
    ensures room - share < n * share <= room && n >= known
  {
    n := room / share;
    assert room == n * share + room % share;
    DivLessIff(room, share, known);
  }

  /** A fractional fee: nothing comes in, and what goes out is worth almost one unit. */
  lemma FractionalFee(feeBps: real, slippageBps: real) returns (i: EvInput)
    requires feeBps >= 0.0 && slippageBps >= 0.0 && Fraction(feeBps) > 0.0
    ensures i.flashFeeBps == feeBps && i.slippageBps == slippageBps && !WithinSlack(i, 1, 1)
  {
    hide WholeBps, Pow10, Fraction, WithinSlack, WideInput;
    var share := 10_000 + WholeBps(feeBps);
    var enough := EnoughFor(Fraction(feeBps), share + 3);
    var e := enough * share;
    var n := FillsAlmostOne(e, enough, share);
    MoreCostsMore(enough as real, n as real, Fraction(feeBps));
    i := WideInput(false, n, e, feeBps, slippageBps);
    WideFails(false, n, e, feeBps, slippageBps);
    SameRates(false, n, e, feeBps, slippageBps);
  }

  lemma FillsAlmostOne(e: nat, known: nat, share: nat) returns (n: nat)
    requires share >= 1 && e == known * share
    ensures Pow10(e + 4) - share <= n * share < Pow10(e + 4) && n >= known
  {
    UnitIs(e);
    n := Fits(Pow10(e + 4) - 1, share, known);
  }

  /** A fractional slippage below 200%: one unit comes in, and almost two go out. */
  lemma FractionalSlippage(feeBps: real, slippageBps: real) returns (i: EvInput)
    requires feeBps >= 0.0 && 0.0 <= slippageBps < 20_000.0 && Fraction(slippageBps) > 0.0
    ensures i.flashFeeBps == feeBps && i.slippageBps == slippageBps && !WithinSlack(i, 1, 1)
  {
    var share, w := 10_000 + WholeBps(feeBps), WholeBps(slippageBps);
    var enough := EnoughFor(Fraction(slippageBps), share + 3);
    assert w <= 19_999;
    hide WholeBps, Pow10, Fraction, WithinSlack, WideInput, Dropped;
    var e := enough + share;
    var n := FillsAlmostTwo(e, w, share);
    UnitIs(e);
    MoreCostsMore(enough as real, Pow10(e) as real, Fraction(slippageBps));
    DroppedAtLeast(n, e, feeBps, slippageBps, share + 3);
    i := WideInput(true, n, e, feeBps, slippageBps);
    WideFails(true, n, e, feeBps, slippageBps);
    SameRates(true, n, e, feeBps, slippageBps);
  }

  lemma SameRates(one: bool, n: nat, e: nat, feeBps: real, slippageBps: real)
    ensures var i := WideInput(one, n, e, feeBps, slippageBps);
            i.flashFeeBps == feeBps && i.slippageBps == slippageBps
  {
  }

  lemma FillsAlmostTwo(e: nat, w: nat, share: nat) returns (n: nat)
    requires w <= 19_999 && 1 <= share <= e
    ensures var u, cost := Pow10(e + 4), n * share + Pow10(e) * w;
            2 * u - share <= cost < 2 * u && u <= cost
  {
    UnitIs(e);
    hide Pow10;
    var m, u := Pow10(e), Pow10(e + 4);
    MulMonotone(w, 19_999, m);
    assert m * w == w * m;
    n := Fits(2 * u - 1 - m * w, share, 0);
  }

  lemma DroppedAtLeast(n: nat, e: nat, feeBps: real, slippageBps: real, bound: nat)
    requires Pow10(e) as real * Fraction(slippageBps) >= bound as real
    ensures Dropped(true, n, e, feeBps, slippageBps) >= bound as real
  {
    hide Fraction, Pow10;
    assert n as real * Fraction(feeBps) >= 0.0;
  }

  // ----- exactly when the smaller error is right -----

  /** Where the buffer is at least twice the revenue, only what is worth nothing is reported, and then
      the fraction of the buffer costs less than the revenue brings. */
  lemma HugeSlippageIsWithin(i: EvInput, tokenPrice: nat, nativePrice: nat)
    requires i.slippageBps >= 20_000.0 && i.flashFeeBps >= 0.0 && Fraction(i.flashFeeBps) == 0.0
    ensures WithinSlack(i, tokenPrice, nativePrice)
  {
    if tokenPrice >= 1 && nativePrice >= 1 && CalculateExactUsdEv(i, tokenPrice, nativePrice).Ok?
       && CalculateExactUsdEv(i, tokenPrice, nativePrice).value.isProfitable
    {
      NothingIsLeft(i, tokenPrice, nativePrice);
      NothingCosts(i, tokenPrice, nativePrice);
      RatesSplit(i, tokenPrice, nativePrice);
      FractionIsLess(i, tokenPrice);
      hide ExactNetUsd, CalculateExactUsdEv, NetUsdAt, DroppedRatesUsd, Usd, Slack;
    }
  }

  lemma NothingIsLeft(i: EvInput, tokenPrice: nat, nativePrice: nat)
    requires i.slippageBps >= 20_000.0 && i.flashFeeBps >= 0.0 && tokenPrice >= 1 && nativePrice >= 1
    requires CalculateExactUsdEv(i, tokenPrice, nativePrice).Ok?
    requires CalculateExactUsdEv(i, tokenPrice, nativePrice).value.isProfitable
    ensures CalculateFlashLoanArbitrageEv(i).Ok? && i.minProfitUsdRaw == 0
    ensures var ev := CalculateFlashLoanArbitrageEv(i).value;
            && AmountToUsdRaw(i.amountIn + ev.flashFeeWei + ev.slippageBufferWei, i.tokenInDecimals, tokenPrice) == 0
            && AmountToUsdRaw(ev.gasCostWei, i.nativeGasTokenDecimals, nativePrice) == 0
  {
    hide Pow10, WholeBps;
    var ev, u := CalculateFlashLoanArbitrageEv(i).value, Pow10(i.tokenInDecimals);
    var cost, out := i.amountIn + ev.flashFeeWei + ev.slippageBufferWei, i.amountOutFinal;
    BufferIsTwice(out, i.slippageBps);
    MulMonotone(2 * out, cost, tokenPrice);
    DivMonotone((2 * out) * tokenPrice, cost * tokenPrice, u);
    assert (2 * out) * tokenPrice == 2 * (out * tokenPrice);
    TwiceFloor(out * tokenPrice, u);
  }

  lemma BufferIsTwice(out: nat, bps: real)
    requires bps >= 20_000.0
    ensures out * WholeBps(bps) / 10_000 >= 2 * out
  {
    var w := WholeBps(bps);
    assert w >= 20_000;
    MulMonotone(20_000, w, out);
    assert out * w == w * out;
    DivMonotone(20_000 * out, out * w, 10_000);
  }

  lemma TwiceFloor(x: nat, u: nat)
    requires u >= 1
    ensures 2 * (x / u) <= (2 * x) / u
  {
    var q := x / u;
    assert x == q * u + x % u;
    DivLessIff(2 * x, u, 2 * q);
    assert (2 * q) * u == 2 * (q * u);
  }

  /** Costs that are floored to zero are worth less than one unit each, and two tokens. */
  lemma NothingCosts(i: EvInput, tokenPrice: nat, nativePrice: nat)
    requires tokenPrice >= 1 && nativePrice >= 1 && CalculateFlashLoanArbitrageEv(i).Ok?
    requires i.tokenInDecimals >= 0 && i.nativeGasTokenDecimals >= 0
    requires var ev := CalculateFlashLoanArbitrageEv(i).value;
             && AmountToUsdRaw(i.amountIn + ev.flashFeeWei + ev.slippageBufferWei, i.tokenInDecimals, tokenPrice) == 0
             && AmountToUsdRaw(ev.gasCostWei, i.nativeGasTokenDecimals, nativePrice) == 0
    ensures NetUsdAt(i, WholeBps(i.flashFeeBps) as real, WholeBps(i.slippageBps) as real, tokenPrice, nativePrice)
            > Usd(i.amountOutFinal as real, tokenPrice, Pow10(i.tokenInDecimals)) - Slack(tokenPrice, i.tokenInDecimals)
  {
    hide Usd, Portion, Pow10, AmountToUsdRaw;
    var ev := CalculateFlashLoanArbitrageEv(i).value;
    var fee, slippage := WholeBps(i.flashFeeBps), WholeBps(i.slippageBps);
    var cost := i.amountIn + ev.flashFeeWei + ev.slippageBufferWei;
    PortionBounds(i.amountIn, fee);
    PortionBounds(i.amountOutFinal, slippage);
    UsdMonotone(cost as real,
                i.amountIn as real + Portion(i.amountIn, fee as real) + Portion(i.amountOutFinal, slippage as real),
                tokenPrice, Pow10(i.tokenInDecimals));
    UsdBounds(cost, i.tokenInDecimals, tokenPrice);
    UsdBounds(ev.gasCostWei, i.nativeGasTokenDecimals, nativePrice);
  }

  lemma FractionIsLess(i: EvInput, tokenPrice: nat)
    requires i.amountIn >= 0 && i.amountOutFinal >= 0 && i.tokenInDecimals >= 0 && i.slippageBps >= 0.0
    requires i.flashFeeBps >= 0.0 && Fraction(i.flashFeeBps) == 0.0
    ensures DroppedRatesUsd(i, tokenPrice) <= Usd(i.amountOutFinal as real, tokenPrice, Pow10(i.tokenInDecimals))
  {
    hide Pow10, Fraction, Usd;
    var out, f := i.amountOutFinal as real, Fraction(i.slippageBps);
    assert out * f <= out;
    var dropped := Portion(i.amountOutFinal, f);
    assert Portion(i.amountIn, Fraction(i.flashFeeBps)) == 0.0;
    UsdAdds(dropped, out - dropped, tokenPrice, Pow10(i.tokenInDecimals));
    UsdAdds(out - dropped, 0.0, tokenPrice, Pow10(i.tokenInDecimals));
  }

  lemma WholeRatesAreWithin(i: EvInput, tokenPrice: nat, nativePrice: nat)
    requires i.flashFeeBps >= 0.0 && Fraction(i.flashFeeBps) == 0.0
    requires i.slippageBps >= 0.0 && Fraction(i.slippageBps) == 0.0
    ensures WithinSlack(i, tokenPrice, nativePrice)
  {
    if tokenPrice >= 1 && nativePrice >= 1 && CalculateExactUsdEv(i, tokenPrice, nativePrice).Ok? {
      VerdictBounds(i, tokenPrice, nativePrice);
      WholeRatesDropNothing(i, tokenPrice);
    }
  }

  /** The smaller error, without the dropped fractions, is right for all inputs of two rates exactly when
      the fee is whole and the slippage is whole or at least 200%. */
  lemma WithinSlackIff(feeBps: real, slippageBps: real)
    requires feeBps >= 0.0 && slippageBps >= 0.0
    ensures (forall i: EvInput, tokenPrice: nat, nativePrice: nat ::
               i.flashFeeBps == feeBps && i.slippageBps == slippageBps ==> WithinSlack(i, tokenPrice, nativePrice))
            <==> Fraction(feeBps) == 0.0 && (Fraction(slippageBps) == 0.0 || slippageBps >= 20_000.0)
  {
    hide WithinSlack;
    if Fraction(feeBps) > 0.0 {
      var i := FractionalFee(feeBps, slippageBps);
    } else if Fraction(slippageBps) > 0.0 && slippageBps < 20_000.0 {
      var i := FractionalSlippage(feeBps, slippageBps);
    } else {
      forall i: EvInput, tokenPrice: nat, nativePrice: nat | i.flashFeeBps == feeBps && i.slippageBps == slippageBps
        ensures WithinSlack(i, tokenPrice, nativePrice)
      {
        if Fraction(slippageBps) == 0.0 {
          WholeRatesAreWithin(i, tokenPrice, nativePrice);
        } else {
          HugeSlippageIsWithin(i, tokenPrice, nativePrice);
        }
      }
    }
  }

  lemma PlainSlack()
    ensures Slack(1, 0) == 4.0
  {
    assert Pow10(0) == 1;
  }

  /** For example: a million in and out, a fee of half a basis point. The verdict is a profit of zero,
      which meets a threshold of zero, and the exact net is a loss of 50. */
  lemma HalfABasisPoint(i: EvInput)
    requires i == EvInput(1_000_000, 1_000_000, 0.5, 0.0, 0, 0, 0, 0, 0, 0)
    ensures CalculateExactUsdEv(i, 1, 1).Ok? && CalculateExactUsdEv(i, 1, 1).value.isProfitable
    ensures ExactNetUsd(i, 1, 1) == -50.0 && !WithinSlack(i, 1, 1)
  {
    hide CalculateExactUsdEv, ExactNetUsd, Slack, Pow10;
    PlainVerdict(100, 100, i.flashFeeBps, i.slippageBps, 0);
    assert i.flashFeeBps.Floor == 0 && i.slippageBps.Floor == 0;
    assert ExactNetUsd(i, 1, 1) == -50.0;
    PlainSlack();
  }
}
