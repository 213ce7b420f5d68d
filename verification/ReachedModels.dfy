// Models that runs of the program reach, in which a promise of the position model fails: a change that
// is not reported, a snapshot that is lost, and interest that a supply or a borrow drops.

module ReachedModels {
  import opened Options
  import opened Text
  import opened Ordered
  import opened PegPrices
  import opened Positions
  import opened HfPolicy
  import opened PositionModel
  import opened PositionRuns
  import opened PriceUpdates
  import opened Floors
  import opened SnapshotStore

  // ----- one more operation of a run -----

  lemma OneMore(cfg: Config, ops: seq<Operation>, op: Operation)
    ensures RunOf(cfg, ops + [op]) == Apply(cfg, RunOf(cfg, ops), op)
  {
    hide Apply;
    assert (ops + [op])[..|ops|] == ops;
  }

  lemma OneSeed(cfg: Config, ops: seq<Operation>, s: Snapshot)
    ensures RunOf(cfg, ops + [Seed(s)]) == AfterSeed(cfg, RunOf(cfg, ops), s)
  {
    OneMore(cfg, ops, Seed(s));
    hide RunOf, AfterSeed;
  }

  lemma FirstSeed(cfg: Config, s: Snapshot)
    ensures RunOf(cfg, [Seed(s)]) == AfterSeed(cfg, NewModel, s)
  {
    hide AfterSeed;
    NoOperations(cfg);
    OneSeed(cfg, [], s);
    assert [] + [Seed(s)] == [Seed(s)];
  }

  lemma OneEvent(cfg: Config, ops: seq<Operation>, e: PoolEvent, nowSec: int)
    ensures RunOf(cfg, ops + [PoolEventArrives(e, nowSec)]) == AfterEvent(cfg, RunOf(cfg, ops), e, nowSec)
  {
    OneMore(cfg, ops, PoolEventArrives(e, nowSec));
    hide RunOf, AfterEvent;
  }

  lemma NoOperations(cfg: Config)
    ensures RunOf(cfg, []) == NewModel
  {
  }

  /** Seeding while there is room and everything was active in the same block evicts nothing. */
  lemma SeedInRoom(cfg: Config, m: Model, s: Snapshot)
    requires m.positions.Size() < cfg.hardCap && cfg.evictionInactiveBlocks >= 1
    requires forall k :: k in m.positions.at ==> m.positions.at[k].lastActivityBlock == s.block
    ensures AfterSeed(cfg, m, s) == WithSeed(m, s)
  {
    hide WithRows, HardCapped, KnownHf, WithReserve;
    SeedKeepsPositions(m, s.reserves);
    NothingEvicted(cfg, WithSeed(m, s), s.block);
  }

  lemma {:induction false} SeedKeepsPositions(m: Model, rows: seq<ReserveRow>)
    ensures WithReserves(m, rows).positions == m.positions
  {
    if rows != [] {
      SeedKeepsPositions(m, rows[..|rows| - 1]);
    }
  }

  /** Seeding a new account with rows of two reserves. */
  lemma SeedTwoRows(m: Model, s: Snapshot, c: ReserveRow, d: ReserveRow)
    requires s.reserves == [c, d]
    ensures var m1 := WithReserve(WithReserve(m, c.asset, BASE_LT_BPS), d.asset, BASE_LT_BPS);
            WithReserves(m, s.reserves) == m1
            && forall p :: WithRows(m1.reserves, p, s.reserves) == WithRow(m1.reserves, WithRow(m1.reserves, p, c), d)
  {
    hide WithReserve, WithRow;
    var rows := s.reserves;
    assert rows[..1] == [c] && [c][..0] == [];
    forall r: Reserves, p ensures WithRows(r, p, rows) == WithRow(r, WithRow(r, p, c), d) {
      assert WithRows(r, p, [c]) == WithRow(r, p, c);
    }
    assert WithReserves(m, [c]) == WithReserve(m, c.asset, BASE_LT_BPS);
  }

  lemma SeedOneRow(m: Model, s: Snapshot, c: ReserveRow)
    requires s.reserves == [c]
    ensures var m1 := WithReserve(m, c.asset, BASE_LT_BPS);
            WithReserves(m, s.reserves) == m1
            && forall p :: WithRows(m1.reserves, p, s.reserves) == WithRow(m1.reserves, p, c)
  {
    hide WithReserve, WithRow;
    assert [c][..0] == [];
  }

  // ----- dropped interest -----

  const Accruing := Snapshot("u", 0, 0, 2 * WAD, 200, 100, 10_000, [ReserveRow("c", 100, 0), ReserveRow("d", 0, 100)])

  function IndexEvent(reserve: Address, liquidityIndex: Option<nat>, borrowIndex: Option<nat>): PoolEvent {
    PoolEvent(ReserveDataUpdated, 0, reserve, None, None, None, None, None, None, None, liquidityIndex, borrowIndex)
  }

  /** An account is seeded with 100 of collateral c and 100 of debt d, both are priced, and then both
      indexes double. */
  function AccruedRun(): seq<Operation> {
    [Seed(Accruing)] + [RegisterPrice("c", 2, None)] + [RegisterPrice("d", 2, None)] + [MarkBootstrapped]
    + [PoolEventArrives(IndexEvent("c", Some(2 * WAD), None), 0)]
    + [PoolEventArrives(IndexEvent("d", None, Some(2 * WAD)), 0)]
  }

  function AccruedPosition(): UserPosition {
    NewPosition("u", 0).(
      collateral := Empty().Set("c", 100), collateralIndex := map["c" := WAD],
      debt := Empty().Set("d", 100), debtIndex := map["d" := WAD], highConfidence := true, seeded := true,
      lastCollateralBase := Some(200), lastDebtBase := Some(100), lastThreshold := Some(10_000), cachedHf := 2 * WAD)
  }

  function AccruedModel(): Model {
    Model(Empty().Set("u", AccruedPosition()), map["c" := 2, "d" := 2], map[],
          map["c" := FreshReserve.(liquidityIndex := 2 * WAD), "d" := FreshReserve.(borrowIndex := 2 * WAD)], 0, true)
  }

  function SeededModel(): Model {
    NewModel.(positions := Empty().Set("u", AccruedPosition()),
              reserves := map["c" := FreshReserve, "d" := FreshReserve])
  }

  function PricedModel(): Model {
    SeededModel().(prices := map["c" := 2, "d" := 2], bootstrapped := true)
  }

  lemma AccruedSeed(cfg: Config)
    requires cfg.hardCap >= 1 && cfg.evictionInactiveBlocks >= 1
    ensures AfterSeed(cfg, NewModel, Accruing) == SeededModel()
  {
    assert Lower("u") == "u" && Lower("c") == "c" && Lower("d") == "d";
    hide Lower;
    hide HardCapped;
    SeedInRoom(cfg, NewModel, Accruing);
    SeedTwoRows(NewModel, Accruing, Accruing.reserves[0], Accruing.reserves[1]);
  }

  lemma AccruedPricing(cfg: Config)
    ensures Apply(cfg, Apply(cfg, Apply(cfg, SeededModel(), RegisterPrice("c", 2, None)), RegisterPrice("d", 2, None)),
                  MarkBootstrapped) == PricedModel()
  {
    hide AccruedPosition;
    assert Lower("c") == "c" && Lower("d") == "d";
  }

  lemma AccruedGrowth(cfg: Config)
    ensures Apply(cfg, Apply(cfg, PricedModel(), PoolEventArrives(IndexEvent("c", Some(2 * WAD), None), 0)),
                  PoolEventArrives(IndexEvent("d", None, Some(2 * WAD)), 0)) == AccruedModel()
  {
    hide AccruedPosition;
    assert Lower("c") == "c" && Lower("d") == "d";
  }

  lemma AccruedIsReached(cfg: Config)
    requires cfg.hardCap >= 1 && cfg.evictionInactiveBlocks >= 1
    ensures RunOf(cfg, AccruedRun()) == AccruedModel()
  {
    var seed := [Seed(Accruing)];
    FirstSeed(cfg, Accruing);
    AccruedSeed(cfg);
    AccruedPricing(cfg);
    AccruedGrowth(cfg);
    hide *;
    var priced := seed + [RegisterPrice("c", 2, None)];
    var both := priced + [RegisterPrice("d", 2, None)];
    var started := both + [MarkBootstrapped];
    var grown := started + [PoolEventArrives(IndexEvent("c", Some(2 * WAD), None), 0)];
    OneMore(cfg, seed, RegisterPrice("c", 2, None));
    OneMore(cfg, priced, RegisterPrice("d", 2, None));
    OneMore(cfg, both, MarkBootstrapped);
    OneMore(cfg, started, PoolEventArrives(IndexEvent("c", Some(2 * WAD), None), 0));
    OneMore(cfg, grown, PoolEventArrives(IndexEvent("d", None, Some(2 * WAD)), 0));
  }

  // the health factor of the run's position, over its two assets

  lemma AccruedSums(o: Oracle, p: UserPosition)
    requires p.collateral.keys == ["c"] && p.debt.keys == ["d"] && "c" in p.collateral.at && "d" !in p.collateral.at
    requires "d" in p.debt.at && p.collateral.at["c"] > 0 && p.debt.at["d"] > 0
    ensures var m := AccruedModel();
            HfOf(o, m, p, 0) == Ratio(CollateralTerm(o, m, p, "c", 0), DebtTerm(o, m, p, "d", 0))
  {
    hide CollateralTerm, DebtTerm, AccruedPosition;
    var m := AccruedModel();
    assert Drop(["d"], p.collateral.at.Keys) == ["d"] by {
      assert ["d"][1..] == [];
    }
    assert AssetKeys(p) == ["c", "d"];
    assert ["c"][..0] == [] && ["d"][..0] == [] && ["c", "d"][..1] == ["c"];
    assert MissingAmong(o, m, p, ["c"], 0) == [] && StaleAmong(o, m, p, ["c"], 0) == [];
    assert MissingAmong(o, m, p, ["c", "d"], 0) == [] && StaleAmong(o, m, p, ["c", "d"], 0) == [];
    assert CollateralSum(o, m, p, [], 0) == 0 && DebtSum(o, m, p, [], 0) == 0;
    assert CollateralSum(o, m, p, ["c"], 0) == CollateralTerm(o, m, p, "c", 0);
    assert DebtSum(o, m, p, ["d"], 0) == DebtTerm(o, m, p, "d", 0);
  }

  lemma DoubledScale()
    ensures Scale(100, Some(WAD), 2 * WAD) == 200 && Scale(100, Some(WAD), WAD) == 100
    ensures Scale(101, Some(2 * WAD), 2 * WAD) == 101
    ensures Weighted(200, 2, BASE_LT_BPS) == 340 && Weighted(101, 2, BASE_LT_BPS) == 171
  {
    assert 100 * (2 * WAD) / WAD == 200;
  }

  lemma AccruedTerms(o: Oracle, p: UserPosition)
    ensures AmountOf(p.collateral, "c") == 100 && IndexAt(p.collateralIndex, "c") == Some(WAD) ==>
              CollateralTerm(o, AccruedModel(), p, "c", 0) == 340
    ensures AmountOf(p.collateral, "c") == 101 && IndexAt(p.collateralIndex, "c") == Some(2 * WAD) ==>
              CollateralTerm(o, AccruedModel(), p, "c", 0) == 171
    ensures AmountOf(p.debt, "d") == 100 && IndexAt(p.debtIndex, "d") == Some(WAD) ==>
              DebtTerm(o, AccruedModel(), p, "d", 0) == 400
    ensures AmountOf(p.debt, "d") == 101 && IndexAt(p.debtIndex, "d") == Some(2 * WAD) ==>
              DebtTerm(o, AccruedModel(), p, "d", 0) == 202
  {
    DoubledScale();
    hide Scale, Weighted, AmountOf, IndexAt, AccruedPosition;
    var m := AccruedModel();
    assert PriceIn(o, m, "c", 0) == Some(2) && PriceIn(o, m, "d", 0) == Some(2);
    assert m.reserves["c"].liquidityIndex == 2 * WAD && m.reserves["c"].thresholdBps == BASE_LT_BPS;
    assert m.reserves["d"].borrowIndex == 2 * WAD;
  }

  /** In a model that a run reaches, supplying one unit halves the health factor, because it drops the
      interest of 100, and borrowing one unit lifts it from below one to above. */
  lemma DroppedInterestMovesHf(cfg: Config)
    requires cfg.hardCap >= 1 && cfg.evictionInactiveBlocks >= 1
    ensures var m, o := RunOf(cfg, AccruedRun()), cfg.oracle;
            && "u" in m.positions.at
            && var p := m.positions.at["u"];
               var before, supplied, borrowed := HfOf(o, m, p, 0), HfOf(o, m, AddCollateral(m.reserves, p, "c", 1), 0),
                                                 HfOf(o, m, AddDebt(m.reserves, p, "d", 1), 0);
               && before.HfOk? && supplied.HfOk? && borrowed.HfOk?
               && 2 * supplied.hf < before.hf + WAD / 100 && supplied.hf < before.hf < WAD < borrowed.hf
  {
    AccruedIsReached(cfg);
    AccruedChanges(cfg.oracle);
    hide *;
  }

  lemma AccruedChanges(o: Oracle)
    ensures var m, p := AccruedModel(), AccruedPosition();
            && m.positions.at == map["u" := p]
            && HfOf(o, m, p, 0) == HfOk(340 * WAD / 400)
            && HfOf(o, m, AddCollateral(m.reserves, p, "c", 1), 0) == HfOk(171 * WAD / 400)
            && HfOf(o, m, AddDebt(m.reserves, p, "d", 1), 0) == HfOk(340 * WAD / 202)
  {
    AccruedShapes();
    hide HfOf, AccruedModel, AccruedPosition, AddCollateral, AddDebt;
    var m, p := AccruedModel(), AccruedPosition();
    AccruedHf(o, p, 100, WAD, 100, WAD);
    AccruedHf(o, AddCollateral(m.reserves, p, "c", 1), 101, 2 * WAD, 100, WAD);
    AccruedHf(o, AddDebt(m.reserves, p, "d", 1), 100, WAD, 101, 2 * WAD);
  }

  lemma AccruedShapes()
    ensures AccruedModel().positions.at == map["u" := AccruedPosition()]
    ensures var m, p := AccruedModel(), AccruedPosition();
            var q, r := AddCollateral(m.reserves, p, "c", 1), AddDebt(m.reserves, p, "d", 1);
            && p.collateral == r.collateral == Empty().Set("c", 100) && q.collateral == Empty().Set("c", 101)
            && p.debt == q.debt == Empty().Set("d", 100) && r.debt == Empty().Set("d", 101)
            && p.collateralIndex == r.collateralIndex == map["c" := WAD] && q.collateralIndex == map["c" := 2 * WAD]
            && p.debtIndex == q.debtIndex == map["d" := WAD] && r.debtIndex == map["d" := 2 * WAD]
  {
  }

  lemma AccruedHf(o: Oracle, p: UserPosition, supplied: nat, atLiquidity: nat, owed: nat, atBorrow: nat)
    requires p.collateral == Empty().Set("c", supplied) && p.collateralIndex == map["c" := atLiquidity]
    requires p.debt == Empty().Set("d", owed) && p.debtIndex == map["d" := atBorrow]
    requires (supplied == 100 && atLiquidity == WAD) || (supplied == 101 && atLiquidity == 2 * WAD)
    requires (owed == 100 && atBorrow == WAD) || (owed == 101 && atBorrow == 2 * WAD)
    ensures HfOf(o, AccruedModel(), p, 0)
            == HfOk((if supplied == 100 then 340 else 171) * WAD / (if owed == 100 then 400 else 202))
  {
    AccruedTerms(o, p);
    hide HfOf, CollateralTerm, DebtTerm;
    AccruedSums(o, p);
  }

  // ----- a snapshot that is lost -----

  const Debtless := Snapshot("u", 0, 0, 2 * WAD, 0, 0, 0, [])

  function BorrowNothing(): PoolEvent {
    PoolEvent(Borrow, 0, "a", None, None, Some("u"), None, Some(0), None, None, None, None)
  }

  /** An account is seeded without debt, and then a borrow event of amount zero arrives for it. */
  function OwingNothingRun(): seq<Operation> {
    [Seed(Debtless)] + [PoolEventArrives(BorrowNothing(), 0)]
  }

  function DebtlessPosition(): UserPosition {
    NewPosition("u", 0).(highConfidence := true, seeded := true, lastCollateralBase := Some(0), lastDebtBase := Some(0),
                         lastThreshold := Some(0), cachedHf := 2 * WAD)
  }

  function DebtlessModel(): Model {
    NewModel.(positions := Empty().Set("u", DebtlessPosition()))
  }

  function OwingNothing(): UserPosition {
    DebtlessPosition().(debt := Empty().Set("a", 0), debtIndex := map["a" := WAD])
  }

  function OwingNothingModel(): Model {
    NewModel.(positions := Empty().Set("u", OwingNothing()), reserves := map["a" := FreshReserve])
  }

  lemma DebtlessSeed(cfg: Config)
    requires cfg.hardCap >= 1 && cfg.evictionInactiveBlocks >= 1
    ensures AfterSeed(cfg, NewModel, Debtless) == DebtlessModel()
  {
    assert Lower("u") == "u";
    SeedInRoom(cfg, NewModel, Debtless);
  }

  lemma ZeroBorrow(cfg: Config)
    requires cfg.hardCap >= 1 && cfg.evictionInactiveBlocks >= 1
    ensures AfterEvent(cfg, DebtlessModel(), BorrowNothing(), 0) == OwingNothingModel()
  {
    var m, e := DebtlessModel(), BorrowNothing();
    assert Lower("u") == "u" && Lower("a") == "a";
    var moved := WithMoved(m, e, "u");
    assert moved == OwingNothingModel();
    ZeroBorrowMatters(cfg, m);
    UnpricedOwnRecompute(cfg.oracle, moved, "u");
    hide HfOf, WithMoved, AfterOwnRecompute, HardCapped;
    NothingEvicted(cfg, moved, 0);
  }

  lemma ZeroBorrowMatters(cfg: Config, m: Model)
    requires "u" in m.positions.at
    ensures ResolveUser(BorrowNothing()) == Some("u") && !Ignored(cfg, m, BorrowNothing())
  {
    assert Lower("u") == "u" && |ZeroAddress()| == 42;
  }

  lemma UnpricedOwnRecompute(o: Oracle, m: Model, key: string)
    requires !m.bootstrapped && key in m.positions.at
    ensures AfterOwnRecompute(o, m, key, 0) == m
  {
    hide CommitAll, Normalized;
    assert m.positions.Set(key, m.positions.at[key]).at == m.positions.at;
  }

  lemma OwingNothingIsReached(cfg: Config)
    requires cfg.hardCap >= 1 && cfg.evictionInactiveBlocks >= 1
    ensures RunOf(cfg, OwingNothingRun()) == OwingNothingModel()
  {
    DebtlessSeed(cfg);
    ZeroBorrow(cfg);
    OwingNothingRunsTo(cfg);
  }

  lemma OwingNothingRunsTo(cfg: Config)
    ensures RunOf(cfg, OwingNothingRun()) == AfterEvent(cfg, AfterSeed(cfg, NewModel, Debtless), BorrowNothing(), 0)
  {
    hide AfterSeed, AfterEvent, BorrowNothing, RunOf;
    FirstSeed(cfg, Debtless);
    OneEvent(cfg, [Seed(Debtless)], BorrowNothing(), 0);
  }

  lemma OwingNothingOk()
    ensures Exportable(OwingNothing()) && DebtFree(OwingNothing())
    ensures ExportedKeys(OwingNothingModel().positions, OwingNothingModel().positions.keys) == ["u"]
    ensures OwingNothingModel().positions.at == map["u" := OwingNothing()]
  {
    assert OwingNothingModel().positions.keys == ["u"];
    assert ["u"][..0] == [];
  }

  /** The round trip of that model loses it: it is exported, but not again after being seeded. */
  lemma RoundTripCanFail(cfg: Config, block: nat)
    requires cfg.hardCap >= 1 && cfg.evictionInactiveBlocks >= 1
    ensures var m := RunOf(cfg, OwingNothingRun());
            var w := Import(cfg, NewModel, block, Export(m));
            w.Some? && Export(w.value) != Export(m)
  {
    OwingNothingIsReached(cfg);
    RunsKeepInvariant(cfg, OwingNothingRun());
    OwingNothingOk();
    hide Import, Export, RowKept, Invariant, OwingNothing, ExportedKeys, OwingNothingModel, DebtFree, RunOf;
    var m := OwingNothingModel();
    assert "u" in m.positions.at && !Keeps(m, "u");
    RoundTripIff(cfg, m, block);
  }

  // ----- a change that is not reported -----

  function HolderOf(account: Address, asset: Address): Snapshot {
    Snapshot(account, 0, 0, 5, 1, 0, 0, [ReserveRow(asset, 1, 0)])
  }

  /** Account p is seeded holding the pegged asset and q holding x; then the reference is priced 2, the
      peg 3, and prices are complete. */
  function TwoHoldersRun(pegs: Pegs): seq<Operation> {
    [Seed(HolderOf("p", pegs.usdbc))] + [Seed(HolderOf("q", "x"))]
    + [RegisterPrice(pegs.usdc, 2, None)] + [RegisterPrice(pegs.usdbc, 3, None)] + [MarkBootstrapped]
  }

  function TwoHolders(pegs: Pegs): Model {
    TwoHoldersAt(pegs, "x", map[pegs.usdc := 2, pegs.usdbc := 3])
  }

  /** The model between the two seeds. */
  function FirstHolder(pegs: Pegs): Model {
    NewModel.(positions := Empty().Set("p", Holder("p", pegs.usdbc)), reserves := map[pegs.usdbc := FreshReserve])
  }

  lemma SeedHolder(cfg: Config, m: Model, account: Address, key: string)
    requires m.positions.Size() < cfg.hardCap && cfg.evictionInactiveBlocks >= 1
    requires forall k :: k in m.positions.at ==> m.positions.at[k].lastActivityBlock == 0
    requires Lower(account) == account && Lower(key) == key && account !in m.positions.at && key !in m.reserves
    ensures AfterSeed(cfg, m, HolderOf(account, key))
            == m.(positions := m.positions.Set(account, Holder(account, key)),
                 reserves := m.reserves[key := FreshReserve])
  {
    var s := HolderOf(account, key);
    SeedInRoom(cfg, m, s);
    SeedOneRow(m, s, s.reserves[0]);
  }

  lemma TwoHoldersAreReached(cfg: Config)
    requires PegsOk(cfg.oracle.pegs) && "x" != cfg.oracle.pegs.usdc && "x" != cfg.oracle.pegs.usdbc
    requires cfg.hardCap >= 2 && cfg.evictionInactiveBlocks >= 1
    ensures RunOf(cfg, TwoHoldersRun(cfg.oracle.pegs)) == TwoHolders(cfg.oracle.pegs)
  {
    var pegs := cfg.oracle.pegs;
    SeedTwoHolders(cfg);
    PriceTwoHolders(cfg);
    RunsTo(cfg);
    hide *;
  }

  lemma SeedTwoHolders(cfg: Config)
    requires PegsOk(cfg.oracle.pegs) && "x" != cfg.oracle.pegs.usdc && "x" != cfg.oracle.pegs.usdbc
    requires cfg.hardCap >= 2 && cfg.evictionInactiveBlocks >= 1
    ensures var pegs := cfg.oracle.pegs;
            AfterSeed(cfg, AfterSeed(cfg, NewModel, HolderOf("p", pegs.usdbc)), HolderOf("q", "x"))
            == TwoHolders(pegs).(prices := map[], bootstrapped := false)
  {
    var pegs := cfg.oracle.pegs;
    assert Lower("p") == "p" && Lower("q") == "q" && Lower("x") == "x";
    hide Lower, Holder, HolderOf, AfterSeed;
    SeedHolder(cfg, NewModel, "p", pegs.usdbc);
    assert FirstHolder(pegs) == AfterSeed(cfg, NewModel, HolderOf("p", pegs.usdbc));
    assert FirstHolder(pegs).positions.at == map["p" := Holder("p", pegs.usdbc)];
    FirstIsIdle(pegs);
    SeedHolder(cfg, FirstHolder(pegs), "q", "x");
  }

  lemma FirstIsIdle(pegs: Pegs)
    ensures var m := FirstHolder(pegs);
            m.positions.Size() == 1 && forall k :: k in m.positions.at ==> m.positions.at[k].lastActivityBlock == 0
  {
  }

  /** The run, operation by operation. */
  lemma RunsTo(cfg: Config)
    ensures var pegs := cfg.oracle.pegs;
            RunOf(cfg, TwoHoldersRun(pegs))
            == Apply(cfg, Apply(cfg,
               Apply(cfg, AfterSeed(cfg, AfterSeed(cfg, NewModel, HolderOf("p", pegs.usdbc)), HolderOf("q", "x")),
                 RegisterPrice(pegs.usdc, 2, None)), RegisterPrice(pegs.usdbc, 3, None)), MarkBootstrapped)
  {
    var pegs := cfg.oracle.pegs;
    var p, q := HolderOf("p", pegs.usdbc), HolderOf("q", "x");
    var one, two := [Seed(p)], [Seed(p)] + [Seed(q)];
    var three := two + [RegisterPrice(pegs.usdc, 2, None)];
    var four := three + [RegisterPrice(pegs.usdbc, 3, None)];
    hide AfterSeed, HolderOf, Apply, RunOf;
    FirstSeed(cfg, p);
    OneSeed(cfg, one, q);
    OneMore(cfg, two, RegisterPrice(pegs.usdc, 2, None));
    OneMore(cfg, three, RegisterPrice(pegs.usdbc, 3, None));
    OneMore(cfg, four, MarkBootstrapped);
  }

  lemma PriceTwoHolders(cfg: Config)
    requires PegsOk(cfg.oracle.pegs)
    ensures var pegs, t := cfg.oracle.pegs, TwoHolders(cfg.oracle.pegs);
            t == Apply(cfg, Apply(cfg,
              Apply(cfg, t.(prices := map[], bootstrapped := false), RegisterPrice(pegs.usdc, 2, None)),
                                  RegisterPrice(pegs.usdbc, 3, None)), MarkBootstrapped)
  {
    hide Holder;
  }

  /** In a model that a run reaches, a feed update of x changes p, which holds the mispriced peg, and
      does not report it. */
  lemma FeedUpdateCanBeSilent(cfg: Config) returns (ops: seq<Operation>)
    requires PegsOk(cfg.oracle.pegs) && "x" != cfg.oracle.pegs.usdc && "x" != cfg.oracle.pegs.usdbc
    requires cfg.hardCap >= 2 && cfg.evictionInactiveBlocks >= 1
    ensures var m := RunOf(cfg, ops);
            && Invariant(m) && "p" in m.positions.at && !Tells(cfg, m, "x", "f", 2, 18, 0, "p")
    ensures ops == TwoHoldersRun(cfg.oracle.pegs)
  {
    hide RunOf, TwoHoldersRun, TwoHolders, Stored, AfterFeedUpdate, FeedUpdateChanges;
    ops := TwoHoldersRun(cfg.oracle.pegs);
    TwoHoldersAreReached(cfg);
    TwoHoldersAreSilent(cfg);
  }

  lemma TwoHoldersAreSilent(cfg: Config)
    requires PegsOk(cfg.oracle.pegs) && "x" != cfg.oracle.pegs.usdc && "x" != cfg.oracle.pegs.usdbc
    ensures var m := TwoHolders(cfg.oracle.pegs);
            && Invariant(m) && "p" in m.positions.at && !Tells(cfg, m, "x", "f", 2, 18, 0, "p")
  {
    var pegs := cfg.oracle.pegs;
    NothingSettles(pegs);
    hide PegSettled, TwoHoldersAt, Invariant, Tells, Pow10;
    var m := UnsettledIsSilent(cfg, "x", "f", 2, 18, 0, map[pegs.usdc := 2, pegs.usdbc := 3]);
  }

  lemma NothingSettles(pegs: Pegs)
    requires PegsOk(pegs) && "x" != pegs.usdc && "x" != pegs.usdbc
    ensures Lower("x") == "x"
    ensures !PegSettled(pegs, "x", map[pegs.usdc := 2, pegs.usdbc := 3]["x" := 2 * Pow10(0)])
  {
  }
}
