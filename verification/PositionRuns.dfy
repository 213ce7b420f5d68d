// What every operation of the position model keeps, over whole runs, and why a health factor never
// leaves out a balance.

module PositionRuns {
  import opened Options
  import opened Text
  import opened Ordered
  import opened PegPrices
  import opened Positions
  import opened HfPolicy
  import opened PositionModel

  /** Balances and indexes have the same keys, and every asset held has a reserve configuration. */
  ghost predicate PositionOk(p: UserPosition, r: Reserves) {
    && p.collateral.Valid() && p.debt.Valid()
    && p.collateralIndex.Keys == p.collateral.at.Keys && p.debtIndex.Keys == p.debt.at.Keys
    && (forall k :: k in p.collateral.at ==> k in r && Lower(k) == k)
    && (forall k :: k in p.debt.at ==> k in r && Lower(k) == k)
  }

  /** Positions are stored under their own case-insensitive account. */
  ghost predicate Stored(m: OMap<UserPosition>, r: Reserves) {
    && m.Valid()
    && forall k :: k in m.at ==> KeyOf(m.at[k]) == k && PositionOk(m.at[k], r)
  }

  ghost predicate Invariant(m: Model) {
    Stored(m.positions, m.reserves)
  }

  // ----- single positions -----

  lemma RemoveKeys(m: OMap<nat>, key: string)
    requires m.Valid()
    ensures m.Delete(key).Valid() && m.Delete(key).at.Keys == m.at.Keys - {key}
  {
    RemoveValid(m, {key});
  }

  lemma AddCollateralOk(r: Reserves, p: UserPosition, key: string, amount: nat)
    requires PositionOk(p, r) && key in r && Lower(key) == key
    ensures PositionOk(AddCollateral(r, p, key, amount), r)
  {
    SetValid(p.collateral, key, AmountOf(p.collateral, key) + amount);
  }

  lemma AddDebtOk(r: Reserves, p: UserPosition, key: string, amount: nat)
    requires PositionOk(p, r) && key in r && Lower(key) == key
    ensures PositionOk(AddDebt(r, p, key, amount), r)
  {
    SetValid(p.debt, key, AmountOf(p.debt, key) + amount);
  }

  lemma SubCollateralOk(r: Reserves, p: UserPosition, key: string, amount: nat)
    requires PositionOk(p, r)
    ensures PositionOk(SubCollateral(p, key, amount), r)
  {
    var next := Reduced(AmountOf(p.collateral, key), amount);
    if next == 0 {
      RemoveKeys(p.collateral, key);
    } else {
      SetValid(p.collateral, key, next);
      assert p.collateral.at.Keys + {key} == p.collateral.at.Keys;
    }
  }

  lemma SubDebtOk(r: Reserves, p: UserPosition, key: string, amount: nat)
    requires PositionOk(p, r)
    ensures PositionOk(SubDebt(p, key, amount), r)
  {
    var next := Reduced(AmountOf(p.debt, key), amount);
    if next == 0 {
      RemoveKeys(p.debt, key);
    } else {
      SetValid(p.debt, key, next);
      assert p.debt.at.Keys + {key} == p.debt.at.Keys;
    }
  }

  lemma MovedOk(r: Reserves, p: UserPosition, e: PoolEvent)
    requires PositionOk(p, r) && Lower(e.reserve) in r
    ensures PositionOk(Moved(r, p, e), r) && Moved(r, p, e).account == p.account
  {
    hide SubCollateral, SubDebt, AddCollateral, AddDebt, PositionOk, Liquidated;
    LowerIdempotent(e.reserve);
    var key, amount := Lower(e.reserve), OrElse(e.amount, 0);
    if e.name == LiquidationCall {
      LiquidatedOk(r, p, e);
    } else {
      AddCollateralOk(r, p, key, amount);
      AddDebtOk(r, p, key, amount);
      SubCollateralOk(r, p, key, amount);
      SubDebtOk(r, p, key, amount);
      MovesKeepAccount(r, p, key, amount);
    }
  }

  lemma MovesKeepAccount(r: Reserves, p: UserPosition, key: string, amount: nat)
    ensures AddCollateral(r, p, key, amount).account == p.account && AddDebt(r, p, key, amount).account == p.account
    ensures SubCollateral(p, key, amount).account == p.account && SubDebt(p, key, amount).account == p.account
  {
  }

  function Carried(amount: Option<nat>): int {
    OrElse(amount, 0)
  }

  /** By how much an event moves a collateral balance, before it is cut off at zero. */
  function CollateralChange(e: PoolEvent, key: string): int {
    match e.name
    case Supply => if key == Lower(e.reserve) then Carried(e.amount) else 0
    case Withdraw => if key == Lower(e.reserve) then -Carried(e.amount) else 0
    case LiquidationCall =>
      if key == Lower(OrElse(e.collateralAsset, e.reserve)) then -Carried(e.liquidatedCollateral) else 0
    case _ => 0
  }

  function DebtChange(e: PoolEvent, key: string): int {
    match e.name
    case Borrow => if key == Lower(e.reserve) then Carried(e.amount) else 0
    case Repay => if key == Lower(e.reserve) then -Carried(e.amount) else 0
    case LiquidationCall => if key == Lower(OrElse(e.debtAsset, e.reserve)) then -Carried(e.debtToCover) else 0
    case _ => 0
  }

  function AtLeastZero(n: int): nat {
    if n > 0 then n else 0
  }

  /** Only balances and indexes differ. */
  ghost predicate SameElse(p: UserPosition, q: UserPosition) {
    q.(collateral := p.collateral, debt := p.debt, collateralIndex := p.collateralIndex, debtIndex := p.debtIndex) == p
  }

  lemma CollateralMoves(r: Reserves, p: UserPosition, moved: string, amount: nat, key: string)
    ensures var q, s := AddCollateral(r, p, moved, amount), SubCollateral(p, moved, amount);
            var change := if key == moved then amount else 0;
            && SameElse(p, q) && q.debt == p.debt && SameElse(p, s) && s.debt == p.debt
            && AmountOf(q.collateral, key) == AmountOf(p.collateral, key) + change
            && AmountOf(s.collateral, key) == AtLeastZero(AmountOf(p.collateral, key) - change)
  {
  }

  lemma DebtMoves(r: Reserves, p: UserPosition, moved: string, amount: nat, key: string)
    ensures var q, s := AddDebt(r, p, moved, amount), SubDebt(p, moved, amount);
            var change := if key == moved then amount else 0;
            && SameElse(p, q) && q.collateral == p.collateral && SameElse(p, s) && s.collateral == p.collateral
            && AmountOf(q.debt, key) == AmountOf(p.debt, key) + change
            && AmountOf(s.debt, key) == AtLeastZero(AmountOf(p.debt, key) - change)
  {
  }

  /** An event changes the two balances of every asset by its amounts, never below zero, and nothing of
      the position but balances and indexes. */
  lemma MovedAmounts(r: Reserves, p: UserPosition, e: PoolEvent, key: string)
    ensures var q := Moved(r, p, e);
            && AmountOf(q.collateral, key) == AtLeastZero(AmountOf(p.collateral, key) + CollateralChange(e, key))
            && AmountOf(q.debt, key) == AtLeastZero(AmountOf(p.debt, key) + DebtChange(e, key))
            && SameElse(p, q)
  {
    hide AddCollateral, SubCollateral, AddDebt, SubDebt, AmountOf;
    if e.name == LiquidationCall {
      LiquidatedAmounts(r, p, e, key);
      hide Liquidated, SameElse, AtLeastZero, Lower;
    } else {
      CollateralMoves(r, p, Lower(e.reserve), OrElse(e.amount, 0), key);
      DebtMoves(r, p, Lower(e.reserve), OrElse(e.amount, 0), key);
    }
  }

  lemma LiquidatedAmounts(r: Reserves, p: UserPosition, e: PoolEvent, key: string)
    requires e.name == LiquidationCall
    ensures var q := Liquidated(p, e);
            && AmountOf(q.collateral, key) == AtLeastZero(AmountOf(p.collateral, key) + CollateralChange(e, key))
            && AmountOf(q.debt, key) == AtLeastZero(AmountOf(p.debt, key) + DebtChange(e, key))
            && SameElse(p, q)
  {
    hide AddCollateral, SubCollateral, AddDebt, SubDebt, AmountOf, Lower;
    var owed, taken := Lower(OrElse(e.debtAsset, e.reserve)), Lower(OrElse(e.collateralAsset, e.reserve));
    var p1 := if e.debtToCover.Some? then SubDebt(p, owed, e.debtToCover.value) else p;
    DebtMoves(r, p, owed, OrElse(e.debtToCover, 0), key);
    CollateralMoves(r, p1, taken, OrElse(e.liquidatedCollateral, 0), key);
  }

  lemma LiquidatedOk(r: Reserves, p: UserPosition, e: PoolEvent)
    requires PositionOk(p, r)
    ensures PositionOk(Liquidated(p, e), r) && Liquidated(p, e).account == p.account
  {
    hide SubCollateral, SubDebt, PositionOk;
    var debtKey, collateralKey := Lower(OrElse(e.debtAsset, e.reserve)), Lower(OrElse(e.collateralAsset, e.reserve));
    var p1 := if e.debtToCover.Some? then SubDebt(p, debtKey, e.debtToCover.value) else p;
    SubDebtOk(r, p, debtKey, OrElse(e.debtToCover, 0));
    MovesKeepAccount(r, p, debtKey, OrElse(e.debtToCover, 0));
    SubCollateralOk(r, p1, collateralKey, OrElse(e.liquidatedCollateral, 0));
    MovesKeepAccount(r, p1, collateralKey, OrElse(e.liquidatedCollateral, 0));
  }

  lemma PutCollateralOk(r: Reserves, p: UserPosition, key: string, amount: nat, index: nat)
    requires PositionOk(p, r) && key in r && Lower(key) == key
    ensures PositionOk(p.(collateral := p.collateral.Set(key, amount),
                          collateralIndex := p.collateralIndex[key := index]), r)
  {
    SetValid(p.collateral, key, amount);
  }

  lemma PutDebtOk(r: Reserves, p: UserPosition, key: string, amount: nat, index: nat)
    requires PositionOk(p, r) && key in r && Lower(key) == key
    ensures PositionOk(p.(debt := p.debt.Set(key, amount), debtIndex := p.debtIndex[key := index]), r)
  {
    SetValid(p.debt, key, amount);
  }

  lemma WithRowOk(r: Reserves, p: UserPosition, row: ReserveRow)
    requires PositionOk(p, r)
    ensures PositionOk(WithRow(r, p, row), r) && WithRow(r, p, row).account == p.account
  {
    hide PositionOk;
    LowerIdempotent(row.asset);
    var key := Lower(row.asset);
    if key in r {
      PutCollateralOk(r, p, key, row.scaledCollateral, r[key].liquidityIndex);
      var p1 := if row.scaledCollateral == 0 then p
                else p.(collateral := p.collateral.Set(key, row.scaledCollateral),
                        collateralIndex := p.collateralIndex[key := r[key].liquidityIndex]);
      PutDebtOk(r, p1, key, row.scaledDebt, r[key].borrowIndex);
    }
  }

  lemma {:induction false} WithRowsOk(r: Reserves, p: UserPosition, rows: seq<ReserveRow>)
    requires PositionOk(p, r)
    ensures PositionOk(WithRows(r, p, rows), r) && WithRows(r, p, rows).account == p.account
  {
    hide PositionOk, WithRow;
    if rows != [] {
      WithRowsOk(r, p, rows[..|rows| - 1]);
      WithRowOk(r, WithRows(r, p, rows[..|rows| - 1]), rows[|rows| - 1]);
    }
  }

  // ----- stores of positions -----

  lemma StoreSet(m: OMap<UserPosition>, r: Reserves, p: UserPosition)
    requires Stored(m, r) && PositionOk(p, r)
    ensures Stored(m.Set(KeyOf(p), p), r)
  {
    hide PositionOk;
    SetValid(m, KeyOf(p), p);
  }

  lemma StoreRemove(m: OMap<UserPosition>, r: Reserves, dead: set<string>)
    requires Stored(m, r)
    ensures Stored(m.Remove(dead), r)
  {
    hide PositionOk;
    RemoveValid(m, dead);
  }

  lemma StoreMoreReserves(m: OMap<UserPosition>, r: Reserves, more: Reserves)
    requires Stored(m, r) && forall k :: k in r ==> k in more
    ensures Stored(m, more)
  {
    forall k | k in m.at ensures PositionOk(m.at[k], more) {
      assert PositionOk(m.at[k], r);
    }
  }

  lemma CommitOk(p: UserPosition, r: Reserves, result: HfResult)
    requires PositionOk(p, r)
    ensures PositionOk(Commit(p, result), r) && KeyOf(Commit(p, result)) == KeyOf(p)
  {
    hide ResolveHf;
  }

  lemma CommitAllOk(o: Oracle, m: Model, keys: set<string>, nowSec: int)
    requires Invariant(m)
    ensures Invariant(CommitAll(o, m, keys, nowSec))
  {
    hide PositionOk, Commit, HfOf;
    var m' := CommitAll(o, m, keys, nowSec);
    forall k | k in m'.positions.at
      ensures KeyOf(m'.positions.at[k]) == k && PositionOk(m'.positions.at[k], m'.reserves)
    {
      CommitOk(m.positions.at[k], m.reserves, HfOf(o, m, m.positions.at[k], nowSec));
    }
  }

  /** Price changes leave positions and reserves alone. */
  lemma NormalizedKeeps(o: Oracle, m: Model, nowSec: int)
    ensures Normalized(o, m, nowSec).positions == m.positions && Normalized(o, m, nowSec).reserves == m.reserves
    ensures Normalized(o, m, nowSec).evictionTotal == m.evictionTotal
    ensures Normalized(o, m, nowSec).bootstrapped == m.bootstrapped
  {
  }

  lemma RecomputeHfOk(o: Oracle, m: Model, nowSec: int)
    requires Invariant(m)
    ensures Invariant(AfterRecomputeHf(o, m, nowSec))
  {
    hide CommitAll, Normalized;
    NormalizedKeeps(o, m, nowSec);
    CommitAllOk(o, Normalized(o, m, nowSec), if PegMismatched(o, m) then TouchedKeys(m, o.pegs.usdbc) else {}, nowSec);
  }

  lemma RecomputeOk(o: Oracle, m: Model, asset: string, nowSec: int)
    requires Invariant(m)
    ensures Invariant(AfterRecompute(o, m, asset, nowSec))
  {
    hide CommitAll, Normalized;
    NormalizedKeeps(o, m, nowSec);
    CommitAllOk(o, Normalized(o, m, nowSec),
                TouchedKeys(m, asset) + if PegMismatched(o, m) then TouchedKeys(m, o.pegs.usdbc) else {}, nowSec);
  }

  lemma SyncOk(o: Oracle, m: Model, reference: Option<string>, nowSec: int)
    requires Invariant(m)
    ensures Invariant(AfterSync(o, m, reference, nowSec))
  {
    hide AfterRecompute;
    if Syncs(o, m, reference) {
      RecomputeOk(o, RegisterPeg(o, m, nowSec), o.pegs.usdbc, nowSec);
    }
  }

  lemma FeedUpdateOk(cfg: Config, m: Model, asset: Address, feed: Address, answer: int, decimals: int, updatedAt: int)
    requires Invariant(m)
    ensures Invariant(AfterFeedUpdate(cfg, m, asset, feed, answer, decimals, updatedAt))
  {
    hide AfterRecompute, AfterSync;
    if FeedAccepted(answer, decimals) {
      var priced := WithFeedPrice(m, asset, feed, answer, decimals, updatedAt);
      SyncOk(cfg.oracle, priced, Some(Lower(asset)), updatedAt);
      RecomputeOk(cfg.oracle, AfterSync(cfg.oracle, priced, Some(Lower(asset)), updatedAt), Lower(asset), updatedAt);
    }
  }

  lemma WithReserveOk(m: Model, asset: Address, thresholdBps: nat)
    requires Invariant(m)
    ensures Invariant(WithReserve(m, asset, thresholdBps))
    ensures Lower(asset) in WithReserve(m, asset, thresholdBps).reserves
    ensures WithReserve(m, asset, thresholdBps).positions == m.positions
    ensures forall k :: k in m.reserves ==>
              k in WithReserve(m, asset, thresholdBps).reserves
                && WithReserve(m, asset, thresholdBps).reserves[k] == m.reserves[k]
  {
    StoreMoreReserves(m.positions, m.reserves, WithReserve(m, asset, thresholdBps).reserves);
  }

  lemma {:induction false} WithReservesOk(m: Model, rows: seq<ReserveRow>)
    requires Invariant(m)
    ensures Invariant(WithReserves(m, rows)) && WithReserves(m, rows).positions == m.positions
    ensures forall k :: k in m.reserves ==> k in WithReserves(m, rows).reserves
    ensures forall i :: 0 <= i < |rows| ==> Lower(rows[i].asset) in WithReserves(m, rows).reserves
  {
    hide WithReserve, Invariant;
    if rows != [] {
      WithReservesOk(m, rows[..|rows| - 1]);
      WithReserveOk(WithReserves(m, rows[..|rows| - 1]), rows[|rows| - 1].asset, BASE_LT_BPS);
      forall i | 0 <= i < |rows| ensures Lower(rows[i].asset) in WithReserves(m, rows).reserves {
        assert i < |rows| - 1 ==> rows[i] == rows[..|rows| - 1][i];
      }
    }
  }

  lemma GetOrCreateOk(m: Model, account: Address, block: nat)
    requires Invariant(m)
    ensures PositionOk(GetOrCreate(m, account, block), m.reserves)
    ensures KeyOf(GetOrCreate(m, account, block)) == Lower(account)
  {
  }

  lemma WithMovedOk(m: Model, e: PoolEvent, user: Address)
    requires Invariant(m)
    ensures Invariant(WithMoved(m, e, user)) && Lower(user) in WithMoved(m, e, user).positions.at
  {
    hide Moved, PositionOk, Stored;
    var m1 := WithReserve(m, e.reserve, BASE_LT_BPS);
    WithReserveOk(m, e.reserve, BASE_LT_BPS);
    GetOrCreateOk(m1, user, e.block);
    var p := GetOrCreate(m1, user, e.block).(lastActivityBlock := e.block);
    assert PositionOk(p, m1.reserves) by {
      SameBalancesOk(GetOrCreate(m1, user, e.block), p, m1.reserves);
    }
    MovedOk(m1.reserves, p, e);
    StoreSet(m1.positions, m1.reserves, Moved(m1.reserves, p, e));
  }

  lemma SameBalancesOk(p: UserPosition, p': UserPosition, r: Reserves)
    requires PositionOk(p, r)
    requires p'.collateral == p.collateral && p'.debt == p.debt
    requires p'.collateralIndex == p.collateralIndex && p'.debtIndex == p.debtIndex
    ensures PositionOk(p', r)
  {
  }

  lemma OwnRecomputeOk(o: Oracle, m: Model, key: string, nowSec: int)
    requires Invariant(m) && key in m.positions.at
    ensures Invariant(AfterOwnRecompute(o, m, key, nowSec))
    ensures AfterOwnRecompute(o, m, key, nowSec).positions.at.Keys == m.positions.at.Keys
    ensures AfterOwnRecompute(o, m, key, nowSec).positions.keys == m.positions.keys
    ensures AfterOwnRecompute(o, m, key, nowSec).evictionTotal == m.evictionTotal
  {
    hide PositionOk, HfOf, Commit, Normalized;
    var m1 := AfterRecomputeHf(o, m, nowSec);
    NormalizedKeeps(o, m, nowSec);
    RecomputeHfOk(o, m, nowSec);
    assert m1.positions.keys == m.positions.keys && m1.positions.at.Keys == m.positions.at.Keys;
    var p := m1.positions.at[key];
    var r := HfOf(o, m1, p, nowSec);
    CommitOk(p, m1.reserves, r);
    StoreSet(m1.positions, m1.reserves, Commit(p, r));
  }

  lemma EvictedOk(m: Model, dead: set<string>)
    requires Invariant(m)
    ensures Invariant(Evicted(m, dead))
  {
    StoreRemove(m.positions, m.reserves, dead);
  }

  lemma HardCappedOk(cfg: Config, m: Model, block: int)
    requires Invariant(m)
    ensures Invariant(HardCapped(cfg, m, block))
  {
    hide CapVictims, InactiveVictims, Evicted, Invariant;
    var m1 := Evicted(m, CapVictims(cfg, m));
    EvictedOk(m, CapVictims(cfg, m));
    EvictedOk(m1, InactiveVictims(cfg, m1, block));
  }

  lemma EventOk(cfg: Config, m: Model, e: PoolEvent, nowSec: int)
    requires Invariant(m)
    ensures Invariant(AfterEvent(cfg, m, e, nowSec))
  {
    hide WithMoved, AfterOwnRecompute, HardCapped, Stored;
    if e.name == ReserveDataUpdated {
      WithReserveOk(m, e.reserve, BASE_LT_BPS);
      var m1 := WithReserve(m, e.reserve, BASE_LT_BPS);
      StoreMoreReserves(m1.positions, m1.reserves, WithIndexes(m1, e).reserves);
    } else if !Ignored(cfg, m, e) {
      var user := ResolveUser(e).value;
      var key, m1 := Lower(user), WithMoved(m, e, user);
      WithMovedOk(m, e, user);
      if e.name == LiquidationCall && DebtFree(m1.positions.at[key]) {
        StoreRemove(m1.positions, m1.reserves, {key});
      } else if !m1.positions.at[key].seeded {
        HardCappedOk(cfg, m1, e.block);
      } else {
        OwnRecomputeOk(cfg.oracle, m1, key, nowSec);
        HardCappedOk(cfg, AfterOwnRecompute(cfg.oracle, m1, key, nowSec), e.block);
      }
    }
  }

  lemma ConfirmOk(m: Model, c: Confirmation)
    requires Invariant(m)
    ensures Invariant(AfterConfirm(m, c))
  {
    hide KnownHf;
    var p := GetOrCreate(m, c.account, c.block);
    GetOrCreateOk(m, c.account, c.block);
    var p' := AfterConfirm(m, c).positions.at[Lower(c.account)];
    SameBalancesOk(p, p', m.reserves);
    StoreSet(m.positions, m.reserves, p');
  }

  lemma WithSeedOk(m: Model, s: Snapshot)
    requires Invariant(m)
    ensures Invariant(WithSeed(m, s))
    ensures WithSeed(m, s).positions == m.positions.Set(Lower(s.account), WithSeed(m, s).positions.at[Lower(s.account)])
    ensures WithSeed(m, s).evictionTotal == m.evictionTotal
  {
    hide WithRows, KnownHf, Stored;
    var m1 := WithReserves(m, s.reserves);
    WithReservesOk(m, s.reserves);
    WithReservesTotal(m, s.reserves);
    GetOrCreateOk(m, s.account, s.block);
    var p := GetOrCreate(m, s.account, s.block);
    assert PositionOk(Cleared(p), m1.reserves);
    WithRowsOk(m1.reserves, Cleared(p), s.reserves);
    var p' := SeededPosition(m1.reserves, p, s);
    SameBalancesOk(WithRows(m1.reserves, Cleared(p), s.reserves), p', m1.reserves);
    StoreSet(m1.positions, m1.reserves, p');
  }

  lemma {:induction false} WithReservesTotal(m: Model, rows: seq<ReserveRow>)
    ensures WithReserves(m, rows).evictionTotal == m.evictionTotal
  {
    if rows != [] {
      WithReservesTotal(m, rows[..|rows| - 1]);
    }
  }

  lemma SeedOk(cfg: Config, m: Model, s: Snapshot)
    requires Invariant(m)
    ensures Invariant(AfterSeed(cfg, m, s))
  {
    hide WithSeed, HardCapped, Invariant;
    WithSeedOk(m, s);
    HardCappedOk(cfg, WithSeed(m, s), s.block);
  }

  lemma PressureOk(cfg: Config, m: Model, block: int)
    requires Invariant(m)
    ensures Invariant(AfterPressure(cfg, m, block))
  {
    hide PressureVictims, InactiveVictims, Evicted, Invariant;
    var m1 := Evicted(m, PressureVictims(cfg, m, m.positions.Size()));
    EvictedOk(m, PressureVictims(cfg, m, m.positions.Size()));
    EvictedOk(m1, InactiveVictims(cfg, m1, block));
  }

  // ----- runs -----

  datatype Operation =
    | RegisterReserve(asset: Address, thresholdBps: nat)
    | SetLiquidationBonus(asset: Address, bonus: Option<nat>)
    | RegisterPrice(asset: Address, price: int, state: Option<FeedState>)
    | MarkBootstrapped
    | PoolEventArrives(event: PoolEvent, nowSec: int)
    | FeedUpdates(asset: Address, feed: Address, answer: int, decimals: int, updatedAt: int)
    | SyncPegs(reference: Option<Address>, nowSec: int)
    | Recompute(nowSec: int)
    | Confirm(confirmation: Confirmation)
    | Seed(snapshot: Snapshot)
    | RelieveMemory(block: int)
    | RemovePosition(account: Address)

  function WithBonus(m: Model, asset: Address, bonus: Option<nat>): Model {
    var m1 := WithReserve(m, asset, BASE_LT_BPS);
    m1.(reserves := m1.reserves[Lower(asset) := m1.reserves[Lower(asset)].(liquidationBonus := bonus)])
  }

  function WithPrice(m: Model, asset: Address, price: int, state: Option<FeedState>): Model {
    m.(prices := m.prices[Lower(asset) := price],
       feeds := if state.Some? then m.feeds[Lower(asset) := state.value] else m.feeds)
  }

  function Apply(cfg: Config, m: Model, op: Operation): Model {
    match op
    case RegisterReserve(asset, thresholdBps) => WithReserve(m, asset, thresholdBps)
    case SetLiquidationBonus(asset, bonus) => WithBonus(m, asset, bonus)
    case RegisterPrice(asset, price, state) => WithPrice(m, asset, price, state)
    case MarkBootstrapped => m.(bootstrapped := true)
    case PoolEventArrives(e, nowSec) => AfterEvent(cfg, m, e, nowSec)
    case FeedUpdates(asset, feed, answer, decimals, updatedAt) =>
      AfterFeedUpdate(cfg, m, asset, feed, answer, decimals, updatedAt)
    case SyncPegs(reference, nowSec) =>
      AfterSync(cfg.oracle, m, if reference.Some? then Some(Lower(reference.value)) else None, nowSec)
    case Recompute(nowSec) => AfterRecomputeHf(cfg.oracle, m, nowSec)
    case Confirm(c) => AfterConfirm(m, c)
    case Seed(s) => AfterSeed(cfg, m, s)
    case RelieveMemory(block) => AfterPressure(cfg, m, block)
    case RemovePosition(account) => m.(positions := m.positions.Delete(Lower(account)))
  }

  lemma BonusOk(m: Model, asset: Address, bonus: Option<nat>)
    requires Invariant(m)
    ensures Invariant(WithBonus(m, asset, bonus))
  {
    WithReserveOk(m, asset, BASE_LT_BPS);
    StoreMoreReserves(m.positions, m.reserves, WithBonus(m, asset, bonus).reserves);
  }

  /** Every operation keeps the invariant. */
  lemma ApplyKeepsInvariant(cfg: Config, m: Model, op: Operation)
    requires Invariant(m)
    ensures Invariant(Apply(cfg, m, op))
  {
    hide Stored, AfterEvent, AfterFeedUpdate, AfterSync, AfterRecomputeHf, AfterConfirm, AfterSeed, AfterPressure,
      WithBonus;
    match op
    case RegisterReserve(asset, thresholdBps) => WithReserveOk(m, asset, thresholdBps);
    case SetLiquidationBonus(asset, bonus) => BonusOk(m, asset, bonus);
    case RegisterPrice(asset, price, state) =>
    case MarkBootstrapped =>
    case PoolEventArrives(e, nowSec) => EventOk(cfg, m, e, nowSec);
    case FeedUpdates(asset, feed, answer, decimals, updatedAt) =>
      FeedUpdateOk(cfg, m, asset, feed, answer, decimals, updatedAt);
    case SyncPegs(reference, nowSec) =>
      SyncOk(cfg.oracle, m, if reference.Some? then Some(Lower(reference.value)) else None, nowSec);
    case Recompute(nowSec) => RecomputeHfOk(cfg.oracle, m, nowSec);
    case Confirm(c) => ConfirmOk(m, c);
    case Seed(s) => SeedOk(cfg, m, s);
    case RelieveMemory(block) => PressureOk(cfg, m, block);
    case RemovePosition(account) => StoreRemove(m.positions, m.reserves, {Lower(account)});
  }

  function RunOf(cfg: Config, ops: seq<Operation>): Model {
    if ops == [] then NewModel else Apply(cfg, RunOf(cfg, ops[..|ops| - 1]), ops[|ops| - 1])
  }

  lemma {:induction false} RunsKeepInvariant(cfg: Config, ops: seq<Operation>)
    ensures Invariant(RunOf(cfg, ops))
  {
    hide Apply, Stored;
    if ops == [] {
      NewModelOk();
    } else {
      RunsKeepInvariant(cfg, ops[..|ops| - 1]);
      ApplyKeepsInvariant(cfg, RunOf(cfg, ops[..|ops| - 1]), ops[|ops| - 1]);
    }
  }

  lemma NewModelOk()
    ensures Invariant(NewModel)
  {
  }

  // ----- nothing is left out of a health factor -----

  lemma {:induction false} MissingNoneMeans(o: Oracle, m: Model, p: UserPosition, keys: seq<string>, nowSec: int,
      key: string)
    requires MissingAmong(o, m, p, keys, nowSec) == [] && key in keys && PositionModel.Holds(p, key)
    ensures PriceIn(o, m, key, nowSec).Some?
  {
    if key != keys[|keys| - 1] {
      MissingNoneMeans(o, m, p, keys[..|keys| - 1], nowSec, key);
    }
  }

  /** The sums with nothing skipped: all positive balances, each priced and configured. */
  ghost function FullCollateral(o: Oracle, m: Model, p: UserPosition, keys: seq<string>, nowSec: int): nat
    requires forall k :: k in keys && AmountOf(p.collateral, k) > 0
               ==> k in m.reserves && PriceIn(o, m, k, nowSec).Some?
  {
    if keys == [] then 0
    else
      var k := keys[|keys| - 1];
      FullCollateral(o, m, p, keys[..|keys| - 1], nowSec) +
      if AmountOf(p.collateral, k) == 0 then 0
      else Weighted(Scale(AmountOf(p.collateral, k), IndexAt(p.collateralIndex, k), m.reserves[k].liquidityIndex),
                    PriceIn(o, m, k, nowSec).value, m.reserves[k].thresholdBps)
  }

  ghost function FullDebt(o: Oracle, m: Model, p: UserPosition, keys: seq<string>, nowSec: int): nat
    requires forall k :: k in keys && AmountOf(p.debt, k) > 0 ==> k in m.reserves && PriceIn(o, m, k, nowSec).Some?
  {
    if keys == [] then 0
    else
      var k := keys[|keys| - 1];
      FullDebt(o, m, p, keys[..|keys| - 1], nowSec) +
      if AmountOf(p.debt, k) == 0 then 0
      else Scale(AmountOf(p.debt, k), IndexAt(p.debtIndex, k), m.reserves[k].borrowIndex)
           * PriceIn(o, m, k, nowSec).value
  }

  lemma {:induction false} SumsAreFull(o: Oracle, m: Model, p: UserPosition, cKeys: seq<string>, dKeys: seq<string>,
      nowSec: int)
    requires forall k :: k in cKeys && AmountOf(p.collateral, k) > 0
               ==> k in m.reserves && PriceIn(o, m, k, nowSec).Some?
    requires forall k :: k in dKeys && AmountOf(p.debt, k) > 0 ==> k in m.reserves && PriceIn(o, m, k, nowSec).Some?
    ensures CollateralSum(o, m, p, cKeys, nowSec) == FullCollateral(o, m, p, cKeys, nowSec)
    ensures DebtSum(o, m, p, dKeys, nowSec) == FullDebt(o, m, p, dKeys, nowSec)
    decreases |cKeys| + |dKeys|
  {
    hide EffectivePrice, Weighted, Scale;
    if cKeys != [] {
      SumsAreFull(o, m, p, cKeys[..|cKeys| - 1], [], nowSec);
    }
    if dKeys != [] {
      SumsAreFull(o, m, p, [], dKeys[..|dKeys| - 1], nowSec);
    }
  }

  /** In a model that keeps the invariant, a numeric result ranges over every positive balance, all of
      them priced above 1 and configured: no branch that skips an asset was taken. */
  lemma NothingIsSkipped(o: Oracle, m: Model, key: string, nowSec: int)
    requires Invariant(m) && key in m.positions.at && Numeric(HfOf(o, m, m.positions.at[key], nowSec))
    ensures var p := m.positions.at[key];
            && (forall k :: k in p.collateral.keys && AmountOf(p.collateral, k) > 0 ==>
                  k in m.reserves && PriceIn(o, m, k, nowSec).Some?)
            && (forall k :: k in p.debt.keys && AmountOf(p.debt, k) > 0 ==>
                  k in m.reserves && PriceIn(o, m, k, nowSec).Some?)
            && HfOf(o, m, p, nowSec)
               == Ratio(FullCollateral(o, m, p, p.collateral.keys, nowSec), FullDebt(o, m, p, p.debt.keys, nowSec))
  {
    hide EffectivePrice, CollateralSum, DebtSum, MissingAmong, StaleAmong;
    var p := m.positions.at[key];
    assert PositionOk(p, m.reserves);
    forall k | (k in p.collateral.keys && AmountOf(p.collateral, k) > 0)
      || (k in p.debt.keys && AmountOf(p.debt, k) > 0)
      ensures k in m.reserves && PriceIn(o, m, k, nowSec).Some?
    {
      assert k in AssetKeys(p);
      MissingNoneMeans(o, m, p, AssetKeys(p), nowSec, k);
    }
    SumsAreFull(o, m, p, p.collateral.keys, p.debt.keys, nowSec);
  }

  // ----- alignment of the peg -----

  /** Prices a recomputation has summed with: a priced peg equals its resolvable reference. Doing it
      again changes nothing, so every position is judged by the same prices. */
  lemma NormalizedIsAligned(o: Oracle, m: Model, nowSec: int)
    requires PegsOk(o.pegs)
    ensures !PegMismatched(o, Normalized(o, m, nowSec))
    ensures Normalized(o, Normalized(o, m, nowSec), nowSec) == Normalized(o, m, nowSec)
  {
  }
}
