// Whether the interest that a supply or a borrow drops can move the health factor the wrong way, decided
// for all markets and positions from the one entry that it changes.

module DroppedInterest {
  import opened Options
  import opened Text
  import opened Ordered
  import opened PegPrices
  import opened Positions
  import opened Floors
  import opened PositionModel
  import opened PositionRuns
  import opened HfArithmetic

  /** The position's collateral entry, and the index that its reserve has reached. */
  ghost predicate CollateralEntry(m: Model, p: UserPosition, key: string, balance: nat, stored: nat, current: nat) {
    && PositionOk(p, m.reserves) && key in m.reserves && m.reserves[key].liquidityIndex == current
    && AmountOf(p.collateral, key) == balance && IndexAt(p.collateralIndex, key) == Some(stored)
  }

  ghost predicate DebtEntry(m: Model, p: UserPosition, key: string, balance: nat, stored: nat, current: nat) {
    && PositionOk(p, m.reserves) && key in m.reserves && m.reserves[key].borrowIndex == current
    && AmountOf(p.debt, key) == balance && IndexAt(p.debtIndex, key) == Some(stored)
  }

  /** The supply does not lower the health factor. */
  ghost predicate SupplyKeeps(o: Oracle, m: Model, p: UserPosition, key: string, amount: nat, nowSec: int) {
    var q := AddCollateral(m.reserves, p, key, amount);
    BothNumeric(o, m, p, q, nowSec) ==> AtMost(HfOf(o, m, p, nowSec), HfOf(o, m, q, nowSec))
  }

  /** The borrow does not raise it. */
  ghost predicate BorrowKeeps(o: Oracle, m: Model, p: UserPosition, key: string, amount: nat, nowSec: int) {
    var q := AddDebt(m.reserves, p, key, amount);
    BothNumeric(o, m, p, q, nowSec) ==> AtMost(HfOf(o, m, q, nowSec), HfOf(o, m, p, nowSec))
  }

  // ----- a market of two assets -----

  /** Assets c and d at price 2, c with a threshold of one, at the given indexes. */
  function SmallMarket(liquidityIndex: nat, borrowIndex: nat): Model {
    NewModel.(prices := map["c" := 2, "d" := 2], bootstrapped := true,
              reserves := map["c" := ReserveConfig(BPS, liquidityIndex, WAD, 0, None),
                              "d" := ReserveConfig(BPS, WAD, borrowIndex, 0, None)])
  }

  function SmallPosition(supplied: nat, atLiquidity: nat, owed: nat, atBorrow: nat): UserPosition {
    NewPosition("u", 0).(collateral := Empty().Set("c", supplied), collateralIndex := map["c" := atLiquidity],
                         debt := Empty().Set("d", owed), debtIndex := map["d" := atBorrow])
  }

  lemma SmallPositionOk(m: Model, p: UserPosition, supplied: nat, owed: nat)
    requires p.collateral == Empty().Set("c", supplied) && p.debt == Empty().Set("d", owed)
    requires p.collateralIndex.Keys == {"c"} && p.debtIndex.Keys == {"d"}
    requires "c" in m.reserves && "d" in m.reserves
    ensures PositionOk(p, m.reserves) && p.collateral.keys == ["c"] && p.debt.keys == ["d"]
    ensures AmountOf(p.collateral, "c") == supplied && AmountOf(p.debt, "d") == owed && AssetKeys(p) == ["c", "d"]
  {
    LettersAreLower();
    hide Lower;
    SetValid(Empty<nat>(), "c", supplied);
    SetValid(Empty<nat>(), "d", owed);
    OneKey("c", supplied);
    OneKey("d", owed);
    assert Drop(["d"], {"c"}) == ["d"] by {
      assert ["d"][..0] == [];
    }
  }

  lemma OneKey(key: string, amount: nat)
    ensures var m := Empty<nat>().Set(key, amount);
            m.keys == [key] && m.at.Keys == {key} && AmountOf(m, key) == amount
  {
  }

  lemma LettersAreLower()
    ensures Lower("c") == "c" && Lower("d") == "d"
  {
  }

  lemma NothingMissing(o: Oracle, m: Model, p: UserPosition)
    requires m.prices == map["c" := 2, "d" := 2] && m.feeds == map[]
    ensures MissingAmong(o, m, p, ["c", "d"], 0) == [] && StaleAmong(o, m, p, ["c", "d"], 0) == []
    ensures PriceIn(o, m, "c", 0) == Some(2) && PriceIn(o, m, "d", 0) == Some(2)
  {
    assert PriceIn(o, m, "c", 0) == Some(2) && PriceIn(o, m, "d", 0) == Some(2);
    hide PriceIn, IsStale;
    NoneAmong(o, m, p, ["c", "d"], 0);
  }

  lemma {:induction false} NoneAmong(o: Oracle, m: Model, p: UserPosition, keys: seq<string>, nowSec: int)
    requires forall k :: k in keys ==> PriceIn(o, m, k, nowSec).Some? && k !in m.feeds
    ensures MissingAmong(o, m, p, keys, nowSec) == [] && StaleAmong(o, m, p, keys, nowSec) == []
  {
    hide PriceIn, IsStale, Holds;
    if keys != [] {
      NoneAmong(o, m, p, keys[..|keys| - 1], nowSec);
    }
  }

  /** There the health factor is the ratio of the two scaled balances. */
  lemma SmallHf(o: Oracle, li: nat, bi: nat, supplied: nat, atLiquidity: nat, owed: nat, atBorrow: nat)
    ensures var m, p := SmallMarket(li, bi), SmallPosition(supplied, atLiquidity, owed, atBorrow);
            && CollateralEntry(m, p, "c", supplied, atLiquidity, li) && DebtEntry(m, p, "d", owed, atBorrow, bi)
            && HfOf(o, m, p, 0)
               == Ratio(2 * Scale(supplied, Some(atLiquidity), li), 2 * Scale(owed, Some(atBorrow), bi))
  {
    SmallEntries(li, bi, supplied, atLiquidity, owed, atBorrow);
    SmallRatio(o, li, bi, supplied, atLiquidity, owed, atBorrow);
    hide *;
  }

  lemma SmallEntries(li: nat, bi: nat, supplied: nat, atLiquidity: nat, owed: nat, atBorrow: nat)
    ensures var m, p := SmallMarket(li, bi), SmallPosition(supplied, atLiquidity, owed, atBorrow);
            CollateralEntry(m, p, "c", supplied, atLiquidity, li) && DebtEntry(m, p, "d", owed, atBorrow, bi)
  {
    var m, p := SmallMarket(li, bi), SmallPosition(supplied, atLiquidity, owed, atBorrow);
    SmallIndexes(li, bi, supplied, atLiquidity, owed, atBorrow);
    SmallPositionOk(m, p, supplied, owed);
    hide PositionOk, SmallMarket, SmallPosition;
  }

  lemma SmallRatio(o: Oracle, li: nat, bi: nat, supplied: nat, atLiquidity: nat, owed: nat, atBorrow: nat)
    ensures var m, p := SmallMarket(li, bi), SmallPosition(supplied, atLiquidity, owed, atBorrow);
            HfOf(o, m, p, 0) == Ratio(2 * Scale(supplied, Some(atLiquidity), li), 2 * Scale(owed, Some(atBorrow), bi))
  {
    var m, p := SmallMarket(li, bi), SmallPosition(supplied, atLiquidity, owed, atBorrow);
    SmallEntries(li, bi, supplied, atLiquidity, owed, atBorrow);
    SmallPositionOk(m, p, supplied, owed);
    NothingMissing(o, m, p);
    assert m.bootstrapped && m.reserves["c"].thresholdBps == BPS;
    hide SmallMarket, SmallPosition, PositionOk, Ratio, HfOf, AssetKeys, MissingAmong, StaleAmong, PriceIn,
         CollateralTerm, DebtTerm, Scale, AmountOf, IndexAt;
    SmallTerms(o, m, p);
    RatioOfTerms(o, m, p);
  }

  lemma SmallIndexes(li: nat, bi: nat, supplied: nat, atLiquidity: nat, owed: nat, atBorrow: nat)
    ensures var m, p := SmallMarket(li, bi), SmallPosition(supplied, atLiquidity, owed, atBorrow);
            && m.bootstrapped && "c" in m.reserves && "d" in m.reserves
            && m.reserves["c"].liquidityIndex == li && m.reserves["d"].borrowIndex == bi
            && IndexAt(p.collateralIndex, "c") == Some(atLiquidity) && IndexAt(p.debtIndex, "d") == Some(atBorrow)
  {
  }

  lemma RatioOfTerms(o: Oracle, m: Model, p: UserPosition)
    requires m.bootstrapped && p.collateral.keys == ["c"] && p.debt.keys == ["d"] && AssetKeys(p) == ["c", "d"]
    requires MissingAmong(o, m, p, ["c", "d"], 0) == [] && StaleAmong(o, m, p, ["c", "d"], 0) == []
    ensures HfOf(o, m, p, 0) == Ratio(CollateralTerm(o, m, p, "c", 0), DebtTerm(o, m, p, "d", 0))
  {
    OneTerm(o, m, p);
    hide CollateralTerm, DebtTerm, CollateralSum, DebtSum, MissingAmong, StaleAmong, AssetKeys, Ratio;
  }

  lemma OneTerm(o: Oracle, m: Model, p: UserPosition)
    ensures CollateralSum(o, m, p, ["c"], 0) == CollateralTerm(o, m, p, "c", 0)
    ensures DebtSum(o, m, p, ["d"], 0) == DebtTerm(o, m, p, "d", 0)
  {
    hide CollateralTerm, DebtTerm;
    assert ["c"][..0] == [] && ["d"][..0] == [];
    assert CollateralSum(o, m, p, [], 0) == 0 && DebtSum(o, m, p, [], 0) == 0;
  }

  lemma SmallTerms(o: Oracle, m: Model, p: UserPosition)
    requires "c" in m.reserves && "d" in m.reserves && m.reserves["c"].thresholdBps == BPS
    requires PriceIn(o, m, "c", 0) == Some(2) && PriceIn(o, m, "d", 0) == Some(2)
    ensures CollateralTerm(o, m, p, "c", 0) == 2 * ScaledCollateral(m, p, "c")
    ensures DebtTerm(o, m, p, "d", 0) == 2 * ScaledDebt(m, p, "d")
  {
    hide PriceIn;
    NothingScales(IndexAt(p.collateralIndex, "c"), m.reserves["c"].liquidityIndex);
    NothingScales(IndexAt(p.debtIndex, "d"), m.reserves["d"].borrowIndex);
    hide Scale;
    var s := ScaledCollateral(m, p, "c");
    assert s * 2 * BPS / BPS == s * 2;
  }

  lemma NothingScales(stored: Option<nat>, current: nat)
    ensures Scale(0, stored, current) == 0
  {
  }

  lemma WholeRatio(s: nat, d: nat, q: nat)
    requires d >= 1 && s == q * d
    ensures Ratio(2 * s, 2 * d) == HfOk(q * WAD)
  {
    assert 2 * (q * d) == q * (2 * d);
    Cancels(q, 2 * d, WAD);
  }

  lemma Cancels(q: nat, d: nat, w: nat)
    requires d >= 1
    ensures (q * d) * w / d == q * w
  {
    var x := q * w;
    assert (q * d) * w == x * d;
    assert (x + 1) * d == x * d + d;
    DivLessIff(x * d, d, x);
    DivLessIff(x * d, d, x + 1);
  }

  // ----- supplies -----

  lemma SupplyMoves(o: Oracle, balance: nat, stored: nat, current: nat, amount: nat)
    ensures var m, p := SmallMarket(current, WAD), SmallPosition(balance, stored, 1, WAD);
            && CollateralEntry(m, p, "c", balance, stored, current)
            && HfOf(o, m, p, 0) == Ratio(2 * Scale(balance, Some(stored), current), 2)
            && HfOf(o, m, AddCollateral(m.reserves, p, "c", amount), 0) == Ratio(2 * (balance + amount), 2)
  {
    SmallSupply(balance, stored, current, amount);
    hide HfOf, CollateralEntry, DebtEntry, Ratio, AddCollateral, SmallMarket, SmallPosition;
    SmallHf(o, current, WAD, balance, stored, 1, WAD);
    SmallHf(o, current, WAD, balance + amount, current, 1, WAD);
  }

  lemma SmallSupply(balance: nat, stored: nat, current: nat, amount: nat)
    ensures AddCollateral(SmallMarket(current, WAD).reserves, SmallPosition(balance, stored, 1, WAD), "c", amount)
            == SmallPosition(balance + amount, current, 1, WAD)
  {
  }

  /** An entry that loses more interest than is supplied: against a debt of one unit the health factor is
      the balance itself, and falls. */
  lemma SupplyFalls(o: Oracle, balance: nat, stored: nat, current: nat, amount: nat)
    requires Scale(balance, Some(stored), current) > balance + amount
    ensures var m, p := SmallMarket(current, WAD), SmallPosition(balance, stored, 1, WAD);
            CollateralEntry(m, p, "c", balance, stored, current) && !SupplyKeeps(o, m, p, "c", amount, 0)
  {
    SupplyMoves(o, balance, stored, current, amount);
    hide HfOf, CollateralEntry, Ratio, Scale, AddCollateral, SmallMarket, SmallPosition;
    var before, after := Scale(balance, Some(stored), current), balance + amount;
    WholeRatio(before, 1, before);
    WholeRatio(after, 1, after);
  }

  /** In no market and for no position does a supply lower the health factor, exactly when the interest
      that its entry drops is at most the amount. */
  lemma SupplyLowersInNoMarketIff(balance: nat, stored: nat, current: nat, amount: nat)
    ensures (forall o: Oracle, m: Model, p: UserPosition, key: string, nowSec: int ::
               CollateralEntry(m, p, key, balance, stored, current) ==> SupplyKeeps(o, m, p, key, amount, nowSec))
            <==> Scale(balance, Some(stored), current) - balance <= amount
  {
    hide SupplyKeeps;
    if Scale(balance, Some(stored), current) - balance <= amount {
      forall o: Oracle, m: Model, p: UserPosition, key: string, nowSec: int
        | CollateralEntry(m, p, key, balance, stored, current)
        ensures SupplyKeeps(o, m, p, key, amount, nowSec)
      {
        SupplyDoesKeep(o, m, p, key, amount, nowSec);
      }
    } else {
      SupplyFalls(Oracle(BasePegs(), map[], DEFAULT_PEG_FRESHNESS), balance, stored, current, amount);
    }
  }

  lemma SupplyDoesKeep(o: Oracle, m: Model, p: UserPosition, key: string, amount: nat, nowSec: int)
    requires PositionOk(p, m.reserves) && key in m.reserves
    requires ScaledCollateral(m, p, key) <= AmountOf(p.collateral, key) + amount
    ensures SupplyKeeps(o, m, p, key, amount, nowSec)
  {
    hide HfOf, PositionOk, ScaledCollateral;
    if BothNumeric(o, m, p, AddCollateral(m.reserves, p, key, amount), nowSec) {
      SupplyNeverLowers(o, m, p, key, amount, nowSec);
    }
  }

  // ----- borrows -----

  lemma BorrowMoves(o: Oracle, supplied: nat, balance: nat, stored: nat, current: nat, amount: nat)
    ensures var m, p := SmallMarket(WAD, current), SmallPosition(supplied, WAD, balance, stored);
            && DebtEntry(m, p, "d", balance, stored, current)
            && HfOf(o, m, p, 0) == Ratio(2 * supplied, 2 * Scale(balance, Some(stored), current))
            && HfOf(o, m, AddDebt(m.reserves, p, "d", amount), 0) == Ratio(2 * supplied, 2 * (balance + amount))
  {
    SmallBorrow(supplied, balance, stored, current, amount);
    hide HfOf, CollateralEntry, DebtEntry, Ratio, AddDebt, SmallMarket, SmallPosition;
    SmallHf(o, WAD, current, supplied, WAD, balance, stored);
    SmallHf(o, WAD, current, supplied, WAD, balance + amount, current);
  }

  lemma SmallBorrow(supplied: nat, balance: nat, stored: nat, current: nat, amount: nat)
    ensures AddDebt(SmallMarket(WAD, current).reserves, SmallPosition(supplied, WAD, balance, stored), "d", amount)
            == SmallPosition(supplied, WAD, balance + amount, current)
  {
  }

  /** An entry that loses more interest than is borrowed: for the product of the two balances as
      collateral, each health factor is the other balance, and it rises. */
  lemma BorrowRises(o: Oracle, balance: nat, stored: nat, current: nat, amount: nat)
    requires Scale(balance, Some(stored), current) > balance + amount
    ensures var supplied := Scale(balance, Some(stored), current) * (balance + amount);
            var m, p := SmallMarket(WAD, current), SmallPosition(supplied, WAD, balance, stored);
            DebtEntry(m, p, "d", balance, stored, current) && !BorrowKeeps(o, m, p, "d", amount, 0)
  {
    NothingScales(Some(stored), current);
    hide HfOf, DebtEntry, Ratio, Scale, AddDebt, SmallMarket, SmallPosition;
    var before, after := Scale(balance, Some(stored), current), balance + amount;
    BorrowMoves(o, before * after, balance, stored, current, amount);
    assert before * after == after * before;
    WholeRatio(before * after, before, after);
    WholeRatio(before * after, after, before);
  }

  /** The same for a borrow, which raises the health factor in no market. */
  lemma BorrowRaisesInNoMarketIff(balance: nat, stored: nat, current: nat, amount: nat)
    ensures (forall o: Oracle, m: Model, p: UserPosition, key: string, nowSec: int ::
               DebtEntry(m, p, key, balance, stored, current) ==> BorrowKeeps(o, m, p, key, amount, nowSec))
            <==> Scale(balance, Some(stored), current) - balance <= amount
  {
    hide BorrowKeeps;
    if Scale(balance, Some(stored), current) - balance <= amount {
      forall o: Oracle, m: Model, p: UserPosition, key: string, nowSec: int
        | DebtEntry(m, p, key, balance, stored, current)
        ensures BorrowKeeps(o, m, p, key, amount, nowSec)
      {
        BorrowDoesKeep(o, m, p, key, amount, nowSec);
      }
    } else {
      BorrowRises(Oracle(BasePegs(), map[], DEFAULT_PEG_FRESHNESS), balance, stored, current, amount);
    }
  }

  lemma BorrowDoesKeep(o: Oracle, m: Model, p: UserPosition, key: string, amount: nat, nowSec: int)
    requires PositionOk(p, m.reserves) && key in m.reserves
    requires ScaledDebt(m, p, key) <= AmountOf(p.debt, key) + amount
    ensures BorrowKeeps(o, m, p, key, amount, nowSec)
  {
    hide HfOf, PositionOk, ScaledDebt;
    if BothNumeric(o, m, p, AddDebt(m.reserves, p, key, amount), nowSec) {
      BorrowNeverRaises(o, m, p, key, amount, nowSec);
    }
  }
}
