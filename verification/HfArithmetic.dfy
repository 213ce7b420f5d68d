// The integer arithmetic of a position's health factor: when it is below one, and which way balance
// changes move it through the floor divisions.

module HfArithmetic {
  import opened Options
  import opened Ordered
  import opened PegPrices
  import opened Positions
  import opened Floors
  import opened PositionModel
  import opened PositionRuns

  /** A computed health factor is below one exactly when the floored weighted collateral is below the
      debt, although it is itself a floored quotient. */
  lemma BelowOneIff(o: Oracle, m: Model, p: UserPosition, nowSec: int)
    requires HfOf(o, m, p, nowSec).HfOk?
    ensures HfOf(o, m, p, nowSec).hf < WAD <==>
            CollateralSum(o, m, p, p.collateral.keys, nowSec) < DebtSum(o, m, p, p.debt.keys, nowSec)
  {
    hide CollateralSum, DebtSum, MissingAmong, StaleAmong, PositiveKeys;
    FlooredBelow(CollateralSum(o, m, p, p.collateral.keys, nowSec), DebtSum(o, m, p, p.debt.keys, nowSec), WAD);
  }

  /** The order of numeric results, no debt at the top. */
  ghost predicate AtMost(r: HfResult, s: HfResult)
    requires Numeric(r) && Numeric(s)
  {
    s.NoDebt? || (r.HfOk? && r.hf <= s.hf)
  }

  lemma RatioMonotone(w: nat, w': nat, d: nat, d': nat)
    requires w <= w' && d' <= d
    ensures AtMost(Ratio(w, d), Ratio(w', d'))
  {
    if d' > 0 {
      MulMonotone(w, w', WAD);
      DivMonotone(w * WAD, w' * WAD, d);
      DivAntitone(w' * WAD, d', d);
    }
  }

  lemma ScaleMonotone(a: nat, b: nat, stored: Option<nat>, current: nat)
    requires a <= b
    ensures Scale(a, stored, current) <= Scale(b, stored, current)
  {
    var index := if stored.Some? then stored.value else WAD;
    if index != 0 && current != index {
      MulMonotone(a, b, current);
      DivMonotone(a * current, b * current, index);
    }
  }

  lemma WeightedMonotone(a: nat, b: nat, price: nat, thresholdBps: nat)
    requires a <= b
    ensures Weighted(a, price, thresholdBps) <= Weighted(b, price, thresholdBps)
  {
    MulMonotone(a, b, price);
    MulMonotone(a * price, b * price, thresholdBps);
    DivMonotone(a * price * thresholdBps, b * price * thresholdBps, BPS);
  }

  /** The balance of an asset at the current index. */
  function ScaledCollateral(m: Model, p: UserPosition, key: string): nat
    requires key in m.reserves
  {
    Scale(AmountOf(p.collateral, key), IndexAt(p.collateralIndex, key), m.reserves[key].liquidityIndex)
  }

  function ScaledDebt(m: Model, p: UserPosition, key: string): nat
    requires key in m.reserves
  {
    Scale(AmountOf(p.debt, key), IndexAt(p.debtIndex, key), m.reserves[key].borrowIndex)
  }

  lemma CollateralTermMonotone(o: Oracle, m: Model, p: UserPosition, q: UserPosition, key: string, nowSec: int)
    requires key in m.reserves && ScaledCollateral(m, p, key) <= ScaledCollateral(m, q, key)
    requires AmountOf(q.collateral, key) == 0 ==> AmountOf(p.collateral, key) == 0
    ensures CollateralTerm(o, m, p, key, nowSec) <= CollateralTerm(o, m, q, key, nowSec)
  {
    hide EffectivePrice, Weighted, Scale;
    var price := PriceIn(o, m, key, nowSec);
    if price.Some? {
      WeightedMonotone(ScaledCollateral(m, p, key), ScaledCollateral(m, q, key), price.value,
        m.reserves[key].thresholdBps);
    }
  }

  lemma DebtTermMonotone(o: Oracle, m: Model, p: UserPosition, q: UserPosition, key: string, nowSec: int)
    requires key in m.reserves && ScaledDebt(m, p, key) <= ScaledDebt(m, q, key)
    requires AmountOf(q.debt, key) == 0 ==> AmountOf(p.debt, key) == 0
    ensures DebtTerm(o, m, p, key, nowSec) <= DebtTerm(o, m, q, key, nowSec)
  {
    hide EffectivePrice, Scale;
    var price := PriceIn(o, m, key, nowSec);
    if price.Some? {
      MulMonotone(ScaledDebt(m, p, key), ScaledDebt(m, q, key), price.value);
    }
  }

  // ----- sums -----

  lemma {:induction false} CollateralSumMonotone(o: Oracle, m: Model, p: UserPosition, q: UserPosition,
      keys: seq<string>, nowSec: int)
    requires forall k :: k in keys ==> CollateralTerm(o, m, p, k, nowSec) <= CollateralTerm(o, m, q, k, nowSec)
    ensures CollateralSum(o, m, p, keys, nowSec) <= CollateralSum(o, m, q, keys, nowSec)
  {
    hide CollateralTerm;
    if keys != [] {
      CollateralSumMonotone(o, m, p, q, keys[..|keys| - 1], nowSec);
    }
  }

  lemma {:induction false} DebtSumMonotone(o: Oracle, m: Model, p: UserPosition, q: UserPosition, keys: seq<string>,
      nowSec: int)
    requires forall k :: k in keys ==> DebtTerm(o, m, p, k, nowSec) <= DebtTerm(o, m, q, k, nowSec)
    ensures DebtSum(o, m, p, keys, nowSec) <= DebtSum(o, m, q, keys, nowSec)
  {
    hide DebtTerm;
    if keys != [] {
      DebtSumMonotone(o, m, p, q, keys[..|keys| - 1], nowSec);
    }
  }

  lemma DropLast(keys: seq<string>, dead: set<string>)
    requires keys != []
    ensures Drop(keys, dead) == Drop(keys[..|keys| - 1], dead)
                                + if keys[|keys| - 1] in dead then [] else [keys[|keys| - 1]]
  {
    var front, last := keys[..|keys| - 1], keys[|keys| - 1];
    assert keys == front + [last];
    DropConcat(front, [last], dead);
    assert [last][1..] == [];
    assert Drop([], dead) == [];
  }

  lemma CollateralSumStep(o: Oracle, m: Model, p: UserPosition, keys: seq<string>, k: string, nowSec: int)
    ensures CollateralSum(o, m, p, keys + [k], nowSec)
              == CollateralSum(o, m, p, keys, nowSec) + CollateralTerm(o, m, p, k, nowSec)
    ensures DebtSum(o, m, p, keys + [k], nowSec) == DebtSum(o, m, p, keys, nowSec) + DebtTerm(o, m, p, k, nowSec)
  {
    hide CollateralTerm, DebtTerm;
    assert (keys + [k])[..|keys|] == keys;
  }

  lemma {:induction false} SumsOfFewer(o: Oracle, m: Model, p: UserPosition, keys: seq<string>, dead: set<string>,
      nowSec: int)
    ensures CollateralSum(o, m, p, Drop(keys, dead), nowSec) <= CollateralSum(o, m, p, keys, nowSec)
    ensures DebtSum(o, m, p, Drop(keys, dead), nowSec) <= DebtSum(o, m, p, keys, nowSec)
  {
    hide CollateralTerm, DebtTerm;
    if keys != [] {
      var front, last := keys[..|keys| - 1], keys[|keys| - 1];
      SumsOfFewer(o, m, p, front, dead, nowSec);
      DropLast(keys, dead);
      CollateralSumStep(o, m, p, Drop(front, dead), last, nowSec);
      assert Drop(front, dead) + [] == Drop(front, dead);
    }
  }

  // ----- the four balance changes -----

  lemma AddCollateralIs(r: Reserves, p: UserPosition, key: string, amount: nat)
    ensures var q := AddCollateral(r, p, key, amount);
            && q.collateral == p.collateral.Set(key, AmountOf(p.collateral, key) + amount)
            && q.collateral.keys == (if key in p.collateral.at then p.collateral.keys else p.collateral.keys + [key])
            && q.debt == p.debt && q.debtIndex == p.debtIndex
            && AmountOf(q.collateral, key) == AmountOf(p.collateral, key) + amount
  {
  }

  lemma AddDebtIs(r: Reserves, p: UserPosition, key: string, amount: nat)
    ensures var q := AddDebt(r, p, key, amount);
            && q.debt == p.debt.Set(key, AmountOf(p.debt, key) + amount)
            && q.debt.keys == (if key in p.debt.at then p.debt.keys else p.debt.keys + [key])
            && q.collateral == p.collateral && q.collateralIndex == p.collateralIndex
            && AmountOf(q.debt, key) == AmountOf(p.debt, key) + amount
  {
  }

  lemma SubCollateralIs(p: UserPosition, key: string, amount: nat)
    ensures var q, next := SubCollateral(p, key, amount), Reduced(AmountOf(p.collateral, key), amount);
            && q.collateral == (if next == 0 then p.collateral.Delete(key) else p.collateral.Set(key, next))
            && forall k :: k != key || next > 0 ==> IndexAt(q.collateralIndex, k) == IndexAt(p.collateralIndex, k)
  {
  }

  lemma SubDebtIs(p: UserPosition, key: string, amount: nat)
    ensures var q, next := SubDebt(p, key, amount), Reduced(AmountOf(p.debt, key), amount);
            && q.debt == (if next == 0 then p.debt.Delete(key) else p.debt.Set(key, next))
            && forall k :: k != key || next > 0 ==> IndexAt(q.debtIndex, k) == IndexAt(p.debtIndex, k)
  {
  }

  ghost predicate BothNumeric(o: Oracle, m: Model, p: UserPosition, q: UserPosition, nowSec: int) {
    Numeric(HfOf(o, m, p, nowSec)) && Numeric(HfOf(o, m, q, nowSec))
  }

  lemma CollateralDecides(o: Oracle, m: Model, p: UserPosition, q: UserPosition, nowSec: int)
    requires BothNumeric(o, m, p, q, nowSec)
    requires CollateralSum(o, m, p, p.collateral.keys, nowSec) <= CollateralSum(o, m, q, q.collateral.keys, nowSec)
    requires DebtSum(o, m, q, q.debt.keys, nowSec) <= DebtSum(o, m, p, p.debt.keys, nowSec)
    ensures AtMost(HfOf(o, m, p, nowSec), HfOf(o, m, q, nowSec))
  {
    hide CollateralSum, DebtSum, MissingAmong, StaleAmong, PositiveKeys;
    RatioMonotone(CollateralSum(o, m, p, p.collateral.keys, nowSec), CollateralSum(o, m, q, q.collateral.keys, nowSec),
                  DebtSum(o, m, p, p.debt.keys, nowSec), DebtSum(o, m, q, q.debt.keys, nowSec));
  }

  lemma {:induction false} SameDebtSum(o: Oracle, m: Model, p: UserPosition, q: UserPosition, keys: seq<string>,
      nowSec: int)
    requires q.debt == p.debt && q.debtIndex == p.debtIndex
    ensures DebtSum(o, m, p, keys, nowSec) == DebtSum(o, m, q, keys, nowSec)
  {
    hide EffectivePrice, Scale;
    if keys != [] {
      SameDebtSum(o, m, p, q, keys[..|keys| - 1], nowSec);
    }
  }

  lemma {:induction false} SameCollateralSum(o: Oracle, m: Model, p: UserPosition, q: UserPosition,
      keys: seq<string>, nowSec: int)
    requires q.collateral == p.collateral && q.collateralIndex == p.collateralIndex
    ensures CollateralSum(o, m, p, keys, nowSec) == CollateralSum(o, m, q, keys, nowSec)
  {
    hide EffectivePrice, Scale, Weighted;
    if keys != [] {
      SameCollateralSum(o, m, p, q, keys[..|keys| - 1], nowSec);
    }
  }

  /** A supply never lowers the health factor when the interest accrued since the entry was stored is
      at most the amount supplied (in particular when the index has not moved). The stored index is
      overwritten without rescaling, which is what the condition is about. */
  lemma SupplyNeverLowers(o: Oracle, m: Model, p: UserPosition, key: string, amount: nat, nowSec: int)
    requires PositionOk(p, m.reserves) && key in m.reserves
    requires ScaledCollateral(m, p, key) <= AmountOf(p.collateral, key) + amount
    requires BothNumeric(o, m, p, AddCollateral(m.reserves, p, key, amount), nowSec)
    ensures AtMost(HfOf(o, m, p, nowSec), HfOf(o, m, AddCollateral(m.reserves, p, key, amount), nowSec))
  {
    hide EffectivePrice, Weighted, HfOf, CollateralTerm;
    var q := AddCollateral(m.reserves, p, key, amount);
    forall k | k in p.collateral.keys || k == key
      ensures CollateralTerm(o, m, p, k, nowSec) <= CollateralTerm(o, m, q, k, nowSec)
    {
      assert k in m.reserves;
      CollateralTermMonotone(o, m, p, q, k, nowSec);
    }
    CollateralSumMonotone(o, m, p, q, p.collateral.keys, nowSec);
    if key !in p.collateral.at {
      CollateralSumStep(o, m, q, p.collateral.keys, key, nowSec);
    }
    SameDebtSum(o, m, p, q, p.debt.keys, nowSec);
    CollateralDecides(o, m, p, q, nowSec);
  }

  /** A withdrawal never raises it. */
  lemma WithdrawNeverRaises(o: Oracle, m: Model, p: UserPosition, key: string, amount: nat, nowSec: int)
    requires PositionOk(p, m.reserves)
    requires BothNumeric(o, m, p, SubCollateral(p, key, amount), nowSec)
    ensures AtMost(HfOf(o, m, SubCollateral(p, key, amount), nowSec), HfOf(o, m, p, nowSec))
  {
    hide EffectivePrice, Weighted, HfOf, CollateralTerm;
    var q := SubCollateral(p, key, amount);
    forall k | k in q.collateral.keys ensures CollateralTerm(o, m, q, k, nowSec) <= CollateralTerm(o, m, p, k, nowSec) {
      ShrunkCollateral(m, p, key, amount, k);
      CollateralTermMonotone(o, m, q, p, k, nowSec);
    }
    CollateralSumMonotone(o, m, q, p, q.collateral.keys, nowSec);
    SumsOfFewer(o, m, p, p.collateral.keys, {key}, nowSec);
    SameDebtSum(o, m, p, q, p.debt.keys, nowSec);
    CollateralDecides(o, m, q, p, nowSec);
  }

  lemma ShrunkCollateral(m: Model, p: UserPosition, key: string, amount: nat, k: string)
    requires PositionOk(p, m.reserves) && k in SubCollateral(p, key, amount).collateral.keys
    ensures k in m.reserves
    ensures ScaledCollateral(m, SubCollateral(p, key, amount), k) <= ScaledCollateral(m, p, k)
    ensures AmountOf(p.collateral, k) == 0 ==> AmountOf(SubCollateral(p, key, amount).collateral, k) == 0
  {
    var q := SubCollateral(p, key, amount);
    SubCollateralShrinks(p, key, amount, k);
    hide Scale, SubCollateral, AmountOf;
    ScaleMonotone(AmountOf(q.collateral, k), AmountOf(p.collateral, k), IndexAt(p.collateralIndex, k),
      m.reserves[k].liquidityIndex);
  }

  lemma SubCollateralShrinks(p: UserPosition, key: string, amount: nat, k: string)
    requires p.collateral.Valid() && k in SubCollateral(p, key, amount).collateral.keys
    ensures k in p.collateral.at
    ensures AmountOf(SubCollateral(p, key, amount).collateral, k) <= AmountOf(p.collateral, k)
    ensures IndexAt(SubCollateral(p, key, amount).collateralIndex, k) == IndexAt(p.collateralIndex, k)
  {
    SubCollateralIs(p, key, amount);
    hide SubCollateral, IndexAt;
    EntryLeft(p.collateral, key, AmountOf(p.collateral, key), amount, k);
  }

  /** An entry that is left when a balance is reduced is no larger than before. */
  lemma EntryLeft(m: OMap<nat>, key: string, balance: nat, amount: nat, k: string)
    requires m.Valid() && balance == AmountOf(m, key)
    requires var next := Reduced(balance, amount); k in (if next == 0 then m.Delete(key) else m.Set(key, next)).keys
    ensures k in m.at && (Reduced(balance, amount) == 0 ==> k != key)
    ensures var next := Reduced(balance, amount);
            AmountOf(if next == 0 then m.Delete(key) else m.Set(key, next), k) <= m.at[k]
  {
    if Reduced(balance, amount) == 0 {
      RemoveValid(m, {key});
    } else {
      SetValid(m, key, Reduced(balance, amount));
    }
  }

  /** A borrow never raises it, under the same condition on accrued interest as a supply. */
  lemma BorrowNeverRaises(o: Oracle, m: Model, p: UserPosition, key: string, amount: nat, nowSec: int)
    requires PositionOk(p, m.reserves) && key in m.reserves
    requires ScaledDebt(m, p, key) <= AmountOf(p.debt, key) + amount
    requires BothNumeric(o, m, p, AddDebt(m.reserves, p, key, amount), nowSec)
    ensures AtMost(HfOf(o, m, AddDebt(m.reserves, p, key, amount), nowSec), HfOf(o, m, p, nowSec))
  {
    hide EffectivePrice, HfOf, DebtTerm;
    var q := AddDebt(m.reserves, p, key, amount);
    forall k | k in p.debt.keys || k == key ensures DebtTerm(o, m, p, k, nowSec) <= DebtTerm(o, m, q, k, nowSec) {
      assert k in m.reserves;
      DebtTermMonotone(o, m, p, q, k, nowSec);
    }
    DebtSumMonotone(o, m, p, q, p.debt.keys, nowSec);
    if key !in p.debt.at {
      CollateralSumStep(o, m, q, p.debt.keys, key, nowSec);
    }
    SameCollateralSum(o, m, p, q, p.collateral.keys, nowSec);
    CollateralDecides(o, m, q, p, nowSec);
  }

  /** A repayment never lowers it. */
  lemma RepayNeverLowers(o: Oracle, m: Model, p: UserPosition, key: string, amount: nat, nowSec: int)
    requires PositionOk(p, m.reserves)
    requires BothNumeric(o, m, p, SubDebt(p, key, amount), nowSec)
    ensures AtMost(HfOf(o, m, p, nowSec), HfOf(o, m, SubDebt(p, key, amount), nowSec))
  {
    hide EffectivePrice, HfOf, DebtTerm;
    var q := SubDebt(p, key, amount);
    forall k | k in q.debt.keys ensures DebtTerm(o, m, q, k, nowSec) <= DebtTerm(o, m, p, k, nowSec) {
      ShrunkDebt(m, p, key, amount, k);
      DebtTermMonotone(o, m, q, p, k, nowSec);
    }
    DebtSumMonotone(o, m, q, p, q.debt.keys, nowSec);
    SumsOfFewer(o, m, p, p.debt.keys, {key}, nowSec);
    SameCollateralSum(o, m, p, q, p.collateral.keys, nowSec);
    CollateralDecides(o, m, p, q, nowSec);
  }

  lemma ShrunkDebt(m: Model, p: UserPosition, key: string, amount: nat, k: string)
    requires PositionOk(p, m.reserves) && k in SubDebt(p, key, amount).debt.keys
    ensures k in m.reserves
    ensures ScaledDebt(m, SubDebt(p, key, amount), k) <= ScaledDebt(m, p, k)
    ensures AmountOf(p.debt, k) == 0 ==> AmountOf(SubDebt(p, key, amount).debt, k) == 0
  {
    var q := SubDebt(p, key, amount);
    SubDebtShrinks(p, key, amount, k);
    hide Scale, SubDebt, AmountOf;
    ScaleMonotone(AmountOf(q.debt, k), AmountOf(p.debt, k), IndexAt(p.debtIndex, k), m.reserves[k].borrowIndex);
  }

  lemma SubDebtShrinks(p: UserPosition, key: string, amount: nat, k: string)
    requires p.debt.Valid() && k in SubDebt(p, key, amount).debt.keys
    ensures k in p.debt.at
    ensures AmountOf(SubDebt(p, key, amount).debt, k) <= AmountOf(p.debt, k)
    ensures IndexAt(SubDebt(p, key, amount).debtIndex, k) == IndexAt(p.debtIndex, k)
  {
    SubDebtIs(p, key, amount);
    hide SubDebt, IndexAt;
    EntryLeft(p.debt, key, AmountOf(p.debt, key), amount, k);
  }

  /** The other way round: when the dropped interest is at least the amount, a supply never raises it.
      So which of the two is larger decides the direction, through all floor divisions. */
  lemma AccruedSupplyNeverRaises(o: Oracle, m: Model, p: UserPosition, key: string, amount: nat, nowSec: int)
    requires PositionOk(p, m.reserves) && key in m.reserves
    requires ScaledCollateral(m, p, key) >= AmountOf(p.collateral, key) + amount
    requires BothNumeric(o, m, p, AddCollateral(m.reserves, p, key, amount), nowSec)
    ensures AtMost(HfOf(o, m, AddCollateral(m.reserves, p, key, amount), nowSec), HfOf(o, m, p, nowSec))
  {
    hide HfOf, CollateralTerm, DebtTerm, AddCollateral, ScaledCollateral, AmountOf, PositionOk;
    AddCollateralIs(m.reserves, p, key, amount);
    AccruedSupplySum(o, m, p, key, amount, nowSec);
    SameDebtSum(o, m, p, AddCollateral(m.reserves, p, key, amount), p.debt.keys, nowSec);
    CollateralDecides(o, m, AddCollateral(m.reserves, p, key, amount), p, nowSec);
  }

  lemma AccruedSupplySum(o: Oracle, m: Model, p: UserPosition, key: string, amount: nat, nowSec: int)
    requires PositionOk(p, m.reserves) && key in m.reserves
    requires ScaledCollateral(m, p, key) >= AmountOf(p.collateral, key) + amount
    ensures var q := AddCollateral(m.reserves, p, key, amount);
            CollateralSum(o, m, q, q.collateral.keys, nowSec) <= CollateralSum(o, m, p, p.collateral.keys, nowSec)
  {
    var q := AddCollateral(m.reserves, p, key, amount);
    NoBalanceNoTerm(o, m, q, key, nowSec);
    assert key !in p.collateral.at ==> amount == 0;
    AddCollateralIs(m.reserves, p, key, amount);
    hide CollateralTerm, AddCollateral, Scale;
    forall k | k in p.collateral.keys ensures CollateralTerm(o, m, q, k, nowSec) <= CollateralTerm(o, m, p, k, nowSec) {
      AccruedSupplyTerm(o, m, p, key, amount, k, nowSec);
    }
    hide ScaledCollateral, PositionOk;
    CollateralSumMonotone(o, m, q, p, p.collateral.keys, nowSec);
    if key !in p.collateral.at {
      CollateralSumStep(o, m, q, p.collateral.keys, key, nowSec);
    }
  }

  /** And a borrow never lowers it: debt interest that is dropped makes the position look safer. */
  lemma AccruedBorrowNeverLowers(o: Oracle, m: Model, p: UserPosition, key: string, amount: nat, nowSec: int)
    requires PositionOk(p, m.reserves) && key in m.reserves
    requires ScaledDebt(m, p, key) >= AmountOf(p.debt, key) + amount
    requires BothNumeric(o, m, p, AddDebt(m.reserves, p, key, amount), nowSec)
    ensures AtMost(HfOf(o, m, p, nowSec), HfOf(o, m, AddDebt(m.reserves, p, key, amount), nowSec))
  {
    hide HfOf, CollateralTerm, DebtTerm, AddDebt, ScaledDebt, AmountOf, PositionOk;
    AddDebtIs(m.reserves, p, key, amount);
    AccruedBorrowSum(o, m, p, key, amount, nowSec);
    SameCollateralSum(o, m, p, AddDebt(m.reserves, p, key, amount), p.collateral.keys, nowSec);
    CollateralDecides(o, m, p, AddDebt(m.reserves, p, key, amount), nowSec);
  }

  lemma AccruedBorrowSum(o: Oracle, m: Model, p: UserPosition, key: string, amount: nat, nowSec: int)
    requires PositionOk(p, m.reserves) && key in m.reserves
    requires ScaledDebt(m, p, key) >= AmountOf(p.debt, key) + amount
    ensures var q := AddDebt(m.reserves, p, key, amount);
            DebtSum(o, m, q, q.debt.keys, nowSec) <= DebtSum(o, m, p, p.debt.keys, nowSec)
  {
    var q := AddDebt(m.reserves, p, key, amount);
    NoBalanceNoTerm(o, m, q, key, nowSec);
    assert key !in p.debt.at ==> amount == 0;
    AddDebtIs(m.reserves, p, key, amount);
    hide DebtTerm, AddDebt, Scale;
    forall k | k in p.debt.keys ensures DebtTerm(o, m, q, k, nowSec) <= DebtTerm(o, m, p, k, nowSec) {
      AccruedBorrowTerm(o, m, p, key, amount, k, nowSec);
    }
    hide ScaledDebt, PositionOk;
    DebtSumMonotone(o, m, q, p, p.debt.keys, nowSec);
    if key !in p.debt.at {
      CollateralSumStep(o, m, q, p.debt.keys, key, nowSec);
    }
  }

  lemma AccruedSupplyTerm(o: Oracle, m: Model, p: UserPosition, key: string, amount: nat, k: string, nowSec: int)
    requires PositionOk(p, m.reserves) && key in m.reserves && k in p.collateral.keys
    requires ScaledCollateral(m, p, key) >= AmountOf(p.collateral, key) + amount
    ensures CollateralTerm(o, m, AddCollateral(m.reserves, p, key, amount), k, nowSec)
            <= CollateralTerm(o, m, p, k, nowSec)
  {
    assert k in m.reserves;
    hide CollateralTerm;
    CollateralTermMonotone(o, m, AddCollateral(m.reserves, p, key, amount), p, k, nowSec);
  }

  lemma AccruedBorrowTerm(o: Oracle, m: Model, p: UserPosition, key: string, amount: nat, k: string, nowSec: int)
    requires PositionOk(p, m.reserves) && key in m.reserves && k in p.debt.keys
    requires ScaledDebt(m, p, key) >= AmountOf(p.debt, key) + amount
    ensures DebtTerm(o, m, AddDebt(m.reserves, p, key, amount), k, nowSec) <= DebtTerm(o, m, p, k, nowSec)
  {
    assert k in m.reserves;
    hide DebtTerm;
    DebtTermMonotone(o, m, AddDebt(m.reserves, p, key, amount), p, k, nowSec);
  }

  lemma NoBalanceNoTerm(o: Oracle, m: Model, p: UserPosition, key: string, nowSec: int)
    ensures AmountOf(p.collateral, key) == 0 ==> CollateralTerm(o, m, p, key, nowSec) == 0
    ensures AmountOf(p.debt, key) == 0 ==> DebtTerm(o, m, p, key, nowSec) == 0
  {
  }

  /** A supply grows the balance by its amount less the interest accrued since the entry was stored; so
      the balance does not shrink exactly when that interest is at most the amount. */
  lemma SupplyKeepsBalanceIff(m: Model, p: UserPosition, key: string, amount: nat)
    requires key in m.reserves
    ensures var q := AddCollateral(m.reserves, p, key, amount);
            var interest := ScaledCollateral(m, p, key) - AmountOf(p.collateral, key);
            && ScaledCollateral(m, q, key) == ScaledCollateral(m, p, key) + amount - interest
            && (ScaledCollateral(m, p, key) <= ScaledCollateral(m, q, key) <==> interest <= amount)
  {
  }

  /** A borrow likewise. */
  lemma BorrowKeepsBalanceIff(m: Model, p: UserPosition, key: string, amount: nat)
    requires key in m.reserves
    ensures var q := AddDebt(m.reserves, p, key, amount);
            var interest := ScaledDebt(m, p, key) - AmountOf(p.debt, key);
            && ScaledDebt(m, q, key) == ScaledDebt(m, p, key) + amount - interest
            && (ScaledDebt(m, p, key) <= ScaledDebt(m, q, key) <==> interest <= amount)
  {
  }

  // ----- what one balance change undoes -----

  /** Deleting a key that was just appended gives the map back. */
  lemma DeleteAppended(m: OMap<nat>, key: string, amount: nat)
    requires m.Valid() && key !in m.at
    ensures m.Set(key, amount).Delete(key) == m
  {
    assert key !in m.keys;
    DropConcat(m.keys, [key], {key});
    DropNothing(m.keys, {key});
    assert [key][1..] == [];
    assert m.keys + [] == m.keys;
    assert m.at[key := amount] - {key} == m.at;
  }

  lemma SetBack(m: OMap<nat>, key: string, amount: nat)
    requires key in m.at
    ensures m.Set(key, amount).Set(key, m.at[key]) == m
  {
    assert m.at[key := amount][key := m.at[key]] == m.at;
  }

  /** Adding an amount to a balance and taking it away again. */
  lemma SetThenReduced(m: OMap<nat>, key: string, amount: nat)
    requires m.Valid()
    ensures var more, before := m.Set(key, AmountOf(m, key) + amount), AmountOf(m, key);
            && AmountOf(more, key) == before + amount && Reduced(before + amount, amount) == before
            && ((if before == 0 then more.Delete(key) else more.Set(key, before)) == m <==>
                key !in m.at || m.at[key] > 0)
  {
    var more := m.Set(key, AmountOf(m, key) + amount);
    if key in m.at {
      SetBack(m, key, AmountOf(m, key) + amount);
      assert key !in more.Delete(key).at;
    } else {
      DeleteAppended(m, key, amount);
    }
  }

  /** Withdrawing what was just supplied gives the balances back, order included, exactly unless the
      position held an entry of zero, which goes away. */
  lemma WithdrawUndoesSupplyIff(r: Reserves, p: UserPosition, key: string, amount: nat)
    requires PositionOk(p, r)
    ensures SubCollateral(AddCollateral(r, p, key, amount), key, amount).collateral == p.collateral <==>
            key !in p.collateral.at || p.collateral.at[key] > 0
  {
    AddCollateralIs(r, p, key, amount);
    SubCollateralIs(AddCollateral(r, p, key, amount), key, amount);
    SetThenReduced(p.collateral, key, amount);
    hide AddCollateral, SubCollateral, Reduced, AmountOf, IndexAt;
  }

  /** Repaying what was just borrowed likewise. */
  lemma RepayUndoesBorrowIff(r: Reserves, p: UserPosition, key: string, amount: nat)
    requires PositionOk(p, r)
    ensures SubDebt(AddDebt(r, p, key, amount), key, amount).debt == p.debt <==>
            key !in p.debt.at || p.debt.at[key] > 0
  {
    AddDebtIs(r, p, key, amount);
    SubDebtIs(AddDebt(r, p, key, amount), key, amount);
    SetThenReduced(p.debt, key, amount);
    hide AddDebt, SubDebt, Reduced, AmountOf, IndexAt;
  }
}
