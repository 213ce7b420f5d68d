// The local position model as a value: its state, the health factor of a position in it, what
// recomputations commit, and what every operation does to it.

module PositionModel {
  import opened Options
  import opened Text
  import opened Ordered
  import opened PegPrices
  import opened Positions
  import opened HfPolicy
  import opened Floors

  datatype Config = Config(
    oracle: Oracle,
    urgentHf: nat,
    watchHf: nat,
    hardCap: nat,
    evictionHf: nat,
    evictionInactiveBlocks: nat,
    allowlist: Option<set<string>>)

  datatype ReserveConfig = ReserveConfig(
    thresholdBps: nat, liquidityIndex: nat, borrowIndex: nat, indexUpdatedAtBlock: nat, liquidationBonus: Option<nat>)

  type Reserves = map<string, ReserveConfig>

  datatype Model = Model(
    positions: OMap<UserPosition>,
    prices: Prices,
    feeds: Feeds,
    reserves: Reserves,
    evictionTotal: nat,
    bootstrapped: bool)

  const NewModel := Model(Empty(), map[], map[], map[], 0, false)

  datatype Tier = Healthy | Watch | Urgent | Liquidatable

  datatype TierChange = TierChange(account: Address, tier: Tier, localHf: nat, isNew: bool, seeded: bool)

  function ClassifyTier(cfg: Config, hf: nat): Tier {
    if hf < WAD then Liquidatable
    else if hf <= cfg.urgentHf then Urgent
    else if hf <= cfg.watchHf then Watch
    else Healthy
  }

  function ToTierChange(cfg: Config, p: UserPosition, isNew: bool): TierChange {
    TierChange(p.account, ClassifyTier(cfg, p.cachedHf), p.cachedHf, isNew, p.seeded)
  }

  // ----- the health factor of a position -----

  function AmountOf(m: OMap<nat>, key: string): nat {
    if key in m.at then m.at[key] else 0
  }

  /** The asset keys of a position, collateral first, each once. */
  function AssetKeys(p: UserPosition): seq<string> {
    p.collateral.keys + Drop(p.debt.keys, p.collateral.at.Keys)
  }

  predicate Holds(p: UserPosition, key: string) {
    AmountOf(p.collateral, key) > 0 || AmountOf(p.debt, key) > 0
  }

  function PriceIn(o: Oracle, m: Model, key: string, nowSec: int): Option<int> {
    EffectivePrice(o, key, m.prices, m.feeds, nowSec)
  }

  /** Of the given keys, those held without an effective price. */
  function MissingAmong(o: Oracle, m: Model, p: UserPosition, keys: seq<string>, nowSec: int): seq<string> {
    if keys == [] then []
    else
      var before, last := MissingAmong(o, m, p, keys[..|keys| - 1], nowSec), keys[|keys| - 1];
      if Holds(p, last) && PriceIn(o, m, last, nowSec).None? then before + [last] else before
  }

  function StaleAmong(o: Oracle, m: Model, p: UserPosition, keys: seq<string>, nowSec: int): seq<string> {
    if keys == [] then []
    else
      var before, last := StaleAmong(o, m, p, keys[..|keys| - 1], nowSec), keys[|keys| - 1];
      if Holds(p, last) && last in m.feeds && IsStale(o, m.feeds[last], nowSec) then before + [last] else before
  }

  /** An amount carried from the index it was stored at to the current one. */
  function Scale(amount: nat, stored: Option<nat>, current: nat): nat {
    var index := if stored.Some? then stored.value else WAD;
    if index == 0 || current == index then amount else amount * current / index
  }

  function IndexAt(m: map<string, nat>, key: string): Option<nat> {
    if key in m then Some(m[key]) else None
  }

  function CollateralTerm(o: Oracle, m: Model, p: UserPosition, key: string, nowSec: int): nat {
    var price := PriceIn(o, m, key, nowSec);
    if key !in m.reserves || price.None? || AmountOf(p.collateral, key) == 0 then 0
    else
      var r := m.reserves[key];
      Weighted(Scale(AmountOf(p.collateral, key), IndexAt(p.collateralIndex, key), r.liquidityIndex), price.value,
        r.thresholdBps)
  }

  function Weighted(scaled: nat, price: nat, thresholdBps: nat): nat {
    scaled * price * thresholdBps / BPS
  }

  function DebtTerm(o: Oracle, m: Model, p: UserPosition, key: string, nowSec: int): nat {
    var price := PriceIn(o, m, key, nowSec);
    if key !in m.reserves || price.None? || AmountOf(p.debt, key) == 0 then 0
    else Scale(AmountOf(p.debt, key), IndexAt(p.debtIndex, key), m.reserves[key].borrowIndex) * price.value
  }

  function CollateralSum(o: Oracle, m: Model, p: UserPosition, keys: seq<string>, nowSec: int): nat {
    if keys == [] then 0
    else CollateralSum(o, m, p, keys[..|keys| - 1], nowSec) + CollateralTerm(o, m, p, keys[|keys| - 1], nowSec)
  }

  function DebtSum(o: Oracle, m: Model, p: UserPosition, keys: seq<string>, nowSec: int): nat {
    if keys == [] then 0
    else DebtSum(o, m, p, keys[..|keys| - 1], nowSec) + DebtTerm(o, m, p, keys[|keys| - 1], nowSec)
  }

  function Ratio(weighted: nat, debt: nat): HfResult {
    if debt == 0 then NoDebt else HfOk(weighted * WAD / debt)
  }

  /** The assets of positive balance, collateral ones first. */
  function PositiveKeys(m: OMap<nat>, keys: seq<string>): seq<string> {
    if keys == [] then []
    else
      var before := PositiveKeys(m, keys[..|keys| - 1]);
      if AmountOf(m, keys[|keys| - 1]) > 0 then before + [keys[|keys| - 1]] else before
  }

  /** The health factor from the model's prices as they stand. */
  function HfOf(o: Oracle, m: Model, p: UserPosition, nowSec: int): HfResult {
    if !m.bootstrapped then
      PriceIncomplete(PositiveKeys(p.collateral, p.collateral.keys) + PositiveKeys(p.debt, p.debt.keys))
    else
      var missing := MissingAmong(o, m, p, AssetKeys(p), nowSec);
      var stale := StaleAmong(o, m, p, AssetKeys(p), nowSec);
      if missing != [] then PriceIncomplete(missing)
      else if stale != [] then PriceStale(stale)
      else Ratio(CollateralSum(o, m, p, p.collateral.keys, nowSec), DebtSum(o, m, p, p.debt.keys, nowSec))
  }

  // ----- peg prices -----

  /** The reference's price, when it is known and above 1. */
  function ReferencePrice(o: Oracle, prices: Prices): Option<int> {
    ResolvePegPrice(o, o.pegs.usdbc, prices)
  }

  /** The pegged asset is unpriced, or priced unlike its resolvable reference. */
  predicate PegOff(o: Oracle, m: Model) {
    var reference := ReferencePrice(o, m.prices);
    reference.Some? && (o.pegs.usdbc in m.prices ==> m.prices[o.pegs.usdbc] != reference.value)
  }

  /** What a plain synchronisation corrects: a peg that has a price, but not its reference's. */
  predicate PegMismatched(o: Oracle, m: Model) {
    o.pegs.usdbc in m.prices && PegOff(o, m)
  }

  function PegState(o: Oracle, price: int, updatedAt: int): FeedState {
    FeedState(price / 10_000_000_000, 8, updatedAt, o.pegs.usdc, o.pegs.usdbc, Some(PegSource))
  }

  function RegisterPeg(o: Oracle, m: Model, updatedAt: int): Model
    requires ReferencePrice(o, m.prices).Some?
  {
    var price := ReferencePrice(o, m.prices).value;
    m.(prices := m.prices[o.pegs.usdbc := price], feeds := m.feeds[o.pegs.usdbc := PegState(o, price, updatedAt)])
  }

  /** Writes the peg from a healthy reference when it is off. */
  function Materialized(o: Oracle, m: Model, nowSec: int): Model {
    if RelaxesForHealthyPeg(o, o.pegs.usdbc, m.prices, m.feeds, nowSec) && PegOff(o, m) then
      RegisterPeg(o, m, if o.pegs.usdc in m.feeds then m.feeds[o.pegs.usdc].updatedAt else nowSec)
    else m
  }

  /** The prices a recomputation sums with. */
  function Normalized(o: Oracle, m: Model, nowSec: int): Model {
    Materialized(o, if PegMismatched(o, m) then RegisterPeg(o, m, nowSec) else m, nowSec)
  }

  // ----- recomputation -----

  predicate Touched(p: UserPosition, asset: string) {
    p.seeded && Holds(p, asset)
  }

  /** The keys of seeded positions that hold the asset. */
  function TouchedKeys(m: Model, asset: string): set<string> {
    set k | k in m.positions.at && Touched(m.positions.at[k], asset)
  }

  /** Commits the result of the model's current prices to the given positions. */
  function CommitAll(o: Oracle, m: Model, keys: set<string>, nowSec: int): Model {
    m.(positions := OMap(m.positions.keys,
      map k | k in m.positions.at :: if k in keys then Commit(m.positions.at[k], HfOf(o, m, m.positions.at[k], nowSec))
                                     else m.positions.at[k]))
  }

  /** `recomputeHf` seen from outside: it aligns the peg, and when it had to, recomputes the positions
      that hold it. Nothing happens before prices are bootstrapped. */
  function AfterRecomputeHf(o: Oracle, m: Model, nowSec: int): Model {
    if !m.bootstrapped then m
    else CommitAll(o, Normalized(o, m, nowSec),
                   if PegMismatched(o, m) then TouchedKeys(m, o.pegs.usdbc) else {}, nowSec)
  }

  /** Recomputing all positions that hold the asset. */
  function AfterRecompute(o: Oracle, m: Model, asset: string, nowSec: int): Model {
    if !m.bootstrapped || TouchedKeys(m, asset) == {} then m
    else CommitAll(o, Normalized(o, m, nowSec),
                   TouchedKeys(m, asset) + if PegMismatched(o, m) then TouchedKeys(m, o.pegs.usdbc) else {}, nowSec)
  }

  /** The changes it reports for the given positions, in order: those that got a numeric result. */
  function ChangesAmong(cfg: Config, m: Model, keys: seq<string>, asset: string, nowSec: int): seq<TierChange>
    requires forall k :: k in keys ==> k in m.positions.at
  {
    if keys == [] then []
    else
      var k := keys[|keys| - 1];
      var before, p := ChangesAmong(cfg, m, keys[..|keys| - 1], asset, nowSec), m.positions.at[k];
      var n := Normalized(cfg.oracle, m, nowSec);
      var r := HfOf(cfg.oracle, n, p, nowSec);
      if m.bootstrapped && Touched(p, asset) && Numeric(r) then before + [ToTierChange(cfg, Commit(p, r), false)]
      else before
  }

  function RecomputeChanges(cfg: Config, m: Model, asset: string, nowSec: int): seq<TierChange>
    requires m.positions.Valid()
  {
    ChangesAmong(cfg, m, m.positions.keys, asset, nowSec)
  }

  /** `syncDerivedPegPrices`: for an updated reference also a peg without a price is written; without
      one only a mismatched peg. */
  predicate Syncs(o: Oracle, m: Model, reference: Option<string>) {
    if reference.Some? then reference.value == o.pegs.usdc && PegOff(o, m) else PegMismatched(o, m)
  }

  function AfterSync(o: Oracle, m: Model, reference: Option<string>, nowSec: int): Model {
    if Syncs(o, m, reference) then AfterRecompute(o, RegisterPeg(o, m, nowSec), o.pegs.usdbc, nowSec) else m
  }

  function SyncChanges(cfg: Config, m: Model, reference: Option<string>, nowSec: int): seq<TierChange>
    requires m.positions.Valid()
  {
    if Syncs(cfg.oracle, m, reference)
    then RecomputeChanges(cfg, RegisterPeg(cfg.oracle, m, nowSec), cfg.oracle.pegs.usdbc, nowSec) else []
  }

  // ----- price updates -----

  predicate FeedAccepted(answer: int, decimals: int) {
    answer > 0 && decimals <= 18
  }

  function WithFeedPrice(m: Model, asset: Address, feed: Address, answer: int, decimals: int, updatedAt: int): Model
    requires FeedAccepted(answer, decimals)
  {
    var key := Lower(asset);
    m.(prices := m.prices[key := answer * Pow10(18 - decimals)],
       feeds := m.feeds[key := FeedState(answer, decimals, updatedAt, feed, asset, None)])
  }

  /** Changes of the second list whose account, in any casing, is not in the first or earlier in it. */
  function MergedChanges(merged: seq<TierChange>, more: seq<TierChange>): seq<TierChange> {
    if more == [] then merged
    else
      var before, last := MergedChanges(merged, more[..|more| - 1]), more[|more| - 1];
      if Lower(last.account) in AccountsOf(before) then before else before + [last]
  }

  function AccountsOf(changes: seq<TierChange>): set<string> {
    set c | c in changes :: Lower(c.account)
  }

  function AfterFeedUpdate(cfg: Config, m: Model, asset: Address, feed: Address, answer: int, decimals: int,
      updatedAt: int): Model {
    if !FeedAccepted(answer, decimals) then m
    else
      var priced := WithFeedPrice(m, asset, feed, answer, decimals, updatedAt);
      var synced := AfterSync(cfg.oracle, priced, Some(Lower(asset)), updatedAt);
      AfterRecompute(cfg.oracle, synced, Lower(asset), updatedAt)
  }

  function FeedUpdateChanges(cfg: Config, m: Model, asset: Address, feed: Address, answer: int, decimals: int,
      updatedAt: int): seq<TierChange>
    requires m.positions.Valid()
  {
    if !FeedAccepted(answer, decimals) then []
    else
      var priced := WithFeedPrice(m, asset, feed, answer, decimals, updatedAt);
      var synced := AfterSync(cfg.oracle, priced, Some(Lower(asset)), updatedAt);
      MergedChanges(RecomputeChanges(cfg, synced, Lower(asset), updatedAt),
                    SyncChanges(cfg, priced, Some(Lower(asset)), updatedAt))
  }

  // ----- pool events -----

  datatype EventName = Supply | Withdraw | Borrow | Repay | LiquidationCall | ReserveDataUpdated

  datatype PoolEvent = PoolEvent(
    name: EventName, block: nat, reserve: Address,
    collateralAsset: Option<Address>, debtAsset: Option<Address>,
    user: Option<Address>, onBehalfOf: Option<Address>,
    amount: Option<nat>, debtToCover: Option<nat>, liquidatedCollateral: Option<nat>,
    liquidityIndex: Option<nat>, borrowIndex: Option<nat>)

  function ZeroAddress(): string {
    "0x" + seq(40, i => '0')
  }

  function OrElse<T>(a: Option<T>, b: T): T {
    if a.Some? then a.value else b
  }

  /** The user whose position the event concerns; never the zero address. */
  function ResolveUser(e: PoolEvent): Option<Address> {
    var raw := if e.name == LiquidationCall || e.onBehalfOf.None? then e.user else e.onBehalfOf;
    if raw.Some? && Lower(raw.value) == ZeroAddress() then None else raw
  }

  const FreshReserve := ReserveConfig(BASE_LT_BPS, WAD, WAD, 0, None)

  function WithReserve(m: Model, asset: Address, thresholdBps: nat): Model {
    if Lower(asset) in m.reserves then m
    else m.(reserves := m.reserves[Lower(asset) := FreshReserve.(thresholdBps := thresholdBps)])
  }

  function WithIndexes(m: Model, e: PoolEvent): Model {
    var key := Lower(e.reserve);
    if key !in m.reserves then m
    else
      var r := m.reserves[key];
      m.(reserves := m.reserves[key := r.(liquidityIndex := OrElse(e.liquidityIndex, r.liquidityIndex),
                                          borrowIndex := OrElse(e.borrowIndex, r.borrowIndex),
                                          indexUpdatedAtBlock := e.block)])
  }

  function NewPosition(account: Address, block: nat): UserPosition {
    UserPosition(account, Empty(), Empty(), map[], map[], MAX_UINT256, false, false, 0, block, 0, None, None, None)
  }

  function GetOrCreate(m: Model, account: Address, block: nat): UserPosition {
    if Lower(account) in m.positions.at then m.positions.at[Lower(account)] else NewPosition(account, block)
  }

  function Reduced(a: nat, b: nat): nat {
    if a > b then a - b else 0
  }

  function AddCollateral(r: Reserves, p: UserPosition, key: string, amount: nat): UserPosition {
    p.(collateral := p.collateral.Set(key, AmountOf(p.collateral, key) + amount),
       collateralIndex := p.collateralIndex[key := if key in r then r[key].liquidityIndex else WAD])
  }

  function SubCollateral(p: UserPosition, key: string, amount: nat): UserPosition {
    var next := Reduced(AmountOf(p.collateral, key), amount);
    if next == 0 then p.(collateral := p.collateral.Delete(key), collateralIndex := p.collateralIndex - {key})
    else p.(collateral := p.collateral.Set(key, next))
  }

  function AddDebt(r: Reserves, p: UserPosition, key: string, amount: nat): UserPosition {
    p.(debt := p.debt.Set(key, AmountOf(p.debt, key) + amount),
       debtIndex := p.debtIndex[key := if key in r then r[key].borrowIndex else WAD])
  }

  function SubDebt(p: UserPosition, key: string, amount: nat): UserPosition {
    var next := Reduced(AmountOf(p.debt, key), amount);
    if next == 0 then p.(debt := p.debt.Delete(key), debtIndex := p.debtIndex - {key})
    else p.(debt := p.debt.Set(key, next))
  }

  function Liquidated(p: UserPosition, e: PoolEvent): UserPosition {
    var p1 := if e.debtToCover.Some? then SubDebt(p, Lower(OrElse(e.debtAsset, e.reserve)), e.debtToCover.value) else p;
    if e.liquidatedCollateral.Some?
    then SubCollateral(p1, Lower(OrElse(e.collateralAsset, e.reserve)), e.liquidatedCollateral.value) else p1
  }

  predicate DebtFree(p: UserPosition) {
    forall k :: k in p.debt.at ==> p.debt.at[k] == 0
  }

  /** The balances after the event. */
  function Moved(r: Reserves, p: UserPosition, e: PoolEvent): UserPosition {
    var key := Lower(e.reserve);
    match e.name
    case Supply => if e.amount.Some? then AddCollateral(r, p, key, e.amount.value) else p
    case Withdraw => if e.amount.Some? then SubCollateral(p, key, e.amount.value) else p
    case Borrow => if e.amount.Some? then AddDebt(r, p, key, e.amount.value) else p
    case Repay => if e.amount.Some? then SubDebt(p, key, e.amount.value) else p
    case LiquidationCall => Liquidated(p, e)
    case ReserveDataUpdated => p
  }

  datatype EventResult = EventResult(changes: seq<TierChange>, firstTouch: Option<Address>)

  const NoEventResult := EventResult([], None)

  predicate Ignored(cfg: Config, m: Model, e: PoolEvent) {
    var user := ResolveUser(e);
    || user.None?
    || (&& Lower(user.value) !in m.positions.at
        && cfg.allowlist.Some? && Lower(e.reserve) !in cfg.allowlist.value)
  }

  /** A user event up to its recomputation: the moved position is stored under the user's key. */
  function WithMoved(m: Model, e: PoolEvent, user: Address): Model {
    var m1 := WithReserve(m, e.reserve, BASE_LT_BPS);
    var p := GetOrCreate(m1, user, e.block).(lastActivityBlock := e.block);
    m1.(positions := m1.positions.Set(Lower(user), Moved(m1.reserves, p, e)))
  }

  function AfterEvent(cfg: Config, m: Model, e: PoolEvent, nowSec: int): Model {
    if e.name == ReserveDataUpdated then WithIndexes(WithReserve(m, e.reserve, BASE_LT_BPS), e)
    else if Ignored(cfg, m, e) then m
    else
      var key := Lower(ResolveUser(e).value);
      var m1 := WithMoved(m, e, ResolveUser(e).value);
      var p := m1.positions.at[key];
      if e.name == LiquidationCall && DebtFree(p) then m1.(positions := m1.positions.Delete(key))
      else if !p.seeded then HardCapped(cfg, m1, e.block)
      else HardCapped(cfg, AfterOwnRecompute(cfg.oracle, m1, key, nowSec), e.block)
  }

  /** Recomputing one position and committing its result. */
  function AfterOwnRecompute(o: Oracle, m: Model, key: string, nowSec: int): Model
    requires key in m.positions.at
  {
    var m1 := AfterRecomputeHf(o, m, nowSec);
    var p := m1.positions.at[key];
    m1.(positions := m1.positions.Set(key, Commit(p, HfOf(o, m1, p, nowSec))))
  }

  function EventOutcome(cfg: Config, m: Model, e: PoolEvent, nowSec: int): EventResult {
    if e.name == ReserveDataUpdated || Ignored(cfg, m, e) then NoEventResult
    else
      var key := Lower(ResolveUser(e).value);
      var m1 := WithMoved(m, e, ResolveUser(e).value);
      var p := m1.positions.at[key];
      if e.name == LiquidationCall && DebtFree(p) then NoEventResult
      else if !p.seeded then EventResult([], ResolveUser(e))
      else
        var m2 := AfterOwnRecompute(cfg.oracle, m1, key, nowSec);
        if Numeric(HfOf(cfg.oracle, m2, m2.positions.at[key], nowSec))
        then EventResult([ToTierChange(cfg, m2.positions.at[key], key !in m.positions.at)], None)
        else NoEventResult
  }

  // ----- confirmations and snapshots -----

  function KnownHf(hf: nat, collateralBase: nat, debtBase: nat, threshold: nat): nat {
    if hf > 0 then hf else CalculateHealthFactor(collateralBase, debtBase, threshold)
  }

  datatype Confirmation = Confirmation(
    account: Address, collateralBase: nat, debtBase: nat, threshold: nat, healthFactor: nat, block: nat, eMode: nat)

  function AfterConfirm(m: Model, c: Confirmation): Model {
    var p := GetOrCreate(m, c.account, c.block);
    m.(positions := m.positions.Set(Lower(c.account),
      p.(highConfidence := true, seeded := true, lastConfirmedBlock := c.block, eMode := c.eMode,
         lastCollateralBase := Some(c.collateralBase), lastDebtBase := Some(c.debtBase),
         lastThreshold := Some(c.threshold),
         cachedHf := KnownHf(c.healthFactor, c.collateralBase, c.debtBase, c.threshold))))
  }

  datatype ReserveRow = ReserveRow(asset: Address, scaledCollateral: nat, scaledDebt: nat)

  datatype Snapshot = Snapshot(
    account: Address, block: nat, eMode: nat, healthFactor: nat,
    collateralBase: nat, debtBase: nat, threshold: nat, reserves: seq<ReserveRow>)

  /** Every row's asset gets a reserve configuration. */
  function WithReserves(m: Model, rows: seq<ReserveRow>): Model {
    if rows == [] then m
    else WithReserve(WithReserves(m, rows[..|rows| - 1]), rows[|rows| - 1].asset, BASE_LT_BPS)
  }

  function WithRow(r: Reserves, p: UserPosition, row: ReserveRow): UserPosition {
    var key := Lower(row.asset);
    if key !in r then p
    else
      var p1 := if row.scaledCollateral == 0 then p
                else p.(collateral := p.collateral.Set(key, row.scaledCollateral),
                        collateralIndex := p.collateralIndex[key := r[key].liquidityIndex]);
      if row.scaledDebt == 0 then p1
      else p1.(debt := p1.debt.Set(key, row.scaledDebt), debtIndex := p1.debtIndex[key := r[key].borrowIndex])
  }

  function WithRows(r: Reserves, p: UserPosition, rows: seq<ReserveRow>): UserPosition {
    if rows == [] then p else WithRow(r, WithRows(r, p, rows[..|rows| - 1]), rows[|rows| - 1])
  }

  function Cleared(p: UserPosition): UserPosition {
    p.(collateral := Empty(), debt := Empty(), collateralIndex := map[], debtIndex := map[])
  }

  function SeededPosition(r: Reserves, p: UserPosition, s: Snapshot): UserPosition {
    WithRows(r, Cleared(p), s.reserves).(
      eMode := s.eMode, highConfidence := true, seeded := true,
      lastConfirmedBlock := s.block, lastActivityBlock := s.block,
      lastCollateralBase := Some(s.collateralBase), lastDebtBase := Some(s.debtBase),
      lastThreshold := Some(s.threshold),
      cachedHf := KnownHf(s.healthFactor, s.collateralBase, s.debtBase, s.threshold))
  }

  function WithSeed(m: Model, s: Snapshot): Model {
    var m1 := WithReserves(m, s.reserves);
    m1.(positions := m1.positions.Set(
      Lower(s.account), SeededPosition(m1.reserves, GetOrCreate(m, s.account, s.block), s)))
  }

  function AfterSeed(cfg: Config, m: Model, s: Snapshot): Model {
    HardCapped(cfg, WithSeed(m, s), s.block)
  }

  // ----- eviction -----

  function LastActivity(p: UserPosition): int {
    p.lastActivityBlock
  }

  function ByActivity(m: OMap<UserPosition>): seq<UserPosition> {
    SortBy(Values(m), LastActivity)
  }

  /** The positions in insertion order. */
  function Values(m: OMap<UserPosition>): seq<UserPosition> {
    seq(|m.keys|, i requires 0 <= i < |m.keys| => if m.keys[i] in m.at then m.at[m.keys[i]] else NewPosition("", 0))
  }

  function KeyOf(p: UserPosition): string {
    Lower(p.account)
  }

  function KeysOf(ps: seq<UserPosition>): set<string> {
    set p | p in ps :: KeyOf(p)
  }

  function Excess(size: nat, cap: nat): (n: nat)
    ensures n <= size
  {
    if size > cap then size - cap else 0
  }

  /** The least recently active positions beyond the cap. */
  function CapVictims(cfg: Config, m: Model): set<string> {
    KeysOf(ByActivity(m.positions)[..Excess(m.positions.Size(), cfg.hardCap)])
  }

  predicate InactiveHealthy(cfg: Config, p: UserPosition, block: int) {
    p.cachedHf >= cfg.evictionHf && block - p.lastActivityBlock >= cfg.evictionInactiveBlocks
  }

  function InactiveVictims(cfg: Config, m: Model, block: int): set<string> {
    set k | k in m.positions.at && InactiveHealthy(cfg, m.positions.at[k], block)
  }

  function Evicted(m: Model, victims: set<string>): Model {
    m.(positions := m.positions.Remove(victims), evictionTotal := m.evictionTotal + |victims|)
  }

  function WithoutInactive(cfg: Config, m: Model, block: int): Model {
    Evicted(m, InactiveVictims(cfg, m, block))
  }

  function HardCapped(cfg: Config, m: Model, block: int): Model {
    WithoutInactive(cfg, Evicted(m, CapVictims(cfg, m)), block)
  }

  /** Three quarters of the cap, rounded down. */
  function PressureCap(cfg: Config): nat {
    cfg.hardCap * 3 / 4
  }

  predicate Sheddable(cfg: Config, p: UserPosition) {
    ClassifyTier(cfg, p.cachedHf) == Healthy && p.cachedHf >= 3 * WAD / 2
  }

  /** Of the first n positions by activity, those shed while the size is above the pressure cap. */
  function PressureVictims(cfg: Config, m: Model, n: nat): (r: set<string>)
    requires n <= m.positions.Size()
  {
    if n == 0 then {}
    else
      var before, p := PressureVictims(cfg, m, n - 1), ByActivity(m.positions)[n - 1];
      if m.positions.Size() - |before| > PressureCap(cfg) && Sheddable(cfg, p) then before + {KeyOf(p)} else before
  }

  function AfterPressure(cfg: Config, m: Model, block: int): Model {
    WithoutInactive(cfg, Evicted(m, PressureVictims(cfg, m, m.positions.Size())), block)
  }
}
