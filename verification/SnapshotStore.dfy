// Exporting positions as decimal text and seeding a model from it again.

module SnapshotStore {
  import opened Options
  import opened Text
  import opened Ordered
  import opened Positions
  import opened PositionModel
  import opened PositionRuns

  datatype ExportedReserve = ExportedReserve(asset: string, scaledCollateral: string, scaledDebt: string)

  datatype ExportedPosition = ExportedPosition(
    account: Address, eMode: nat, healthFactorWad: string, totalCollateralBase: string, totalDebtBase: string,
    liquidationThreshold: string, reserves: seq<ExportedReserve>)

  // ----- export -----

  /** One row per asset key with a balance. */
  function ExportReserves(p: UserPosition, keys: seq<string>): seq<ExportedReserve> {
    if keys == [] then []
    else
      var before, k := ExportReserves(p, keys[..|keys| - 1]), keys[|keys| - 1];
      if !Holds(p, k) then before
      else before + [ExportedReserve(k, PrintInt(AmountOf(p.collateral, k)), PrintInt(AmountOf(p.debt, k)))]
  }

  function ExportPosition(p: UserPosition): ExportedPosition {
    ExportedPosition(p.account, p.eMode, PrintInt(p.cachedHf), PrintInt(OrElse(p.lastCollateralBase, 0)),
                     PrintInt(OrElse(p.lastDebtBase, 1)), PrintInt(OrElse(p.lastThreshold, 0)),
                     ExportReserves(p, AssetKeys(p)))
  }

  predicate Exportable(p: UserPosition) {
    p.seeded && p.debt.Size() != 0
  }

  /** The keys of the exported positions, in order. */
  function ExportedKeys(m: OMap<UserPosition>, keys: seq<string>): (r: seq<string>)
    ensures forall k :: k in r <==> k in keys && k in m.at && Exportable(m.at[k])
  {
    if keys == [] then []
    else
      var k := keys[|keys| - 1];
      assert keys == keys[..|keys| - 1] + [k];
      if k in m.at && Exportable(m.at[k]) then ExportedKeys(m, keys[..|keys| - 1]) + [k]
      else ExportedKeys(m, keys[..|keys| - 1])
  }

  function ExportAll(m: OMap<UserPosition>, keys: seq<string>): seq<ExportedPosition>
    requires forall k :: k in keys ==> k in m.at
  {
    if keys == [] then [] else ExportAll(m, keys[..|keys| - 1]) + [ExportPosition(m.at[keys[|keys| - 1]])]
  }

  /** `exportBootstrapSnapshots`. */
  function Export(m: Model): seq<ExportedPosition> {
    ExportAll(m.positions, ExportedKeys(m.positions, m.positions.keys))
  }

  // ----- import -----

  /** `BigInt` of a natural number's text; None where it throws or is negative. */
  function ParseAmount(s: string): Option<nat> {
    match ParseInt(s)
    case None => None
    case Some(n) => if n < 0 then None else Some(n)
  }

  function ParseReserves(rows: seq<ExportedReserve>): Option<seq<ReserveRow>> {
    if rows == [] then Some([])
    else
      var before, row := ParseReserves(rows[..|rows| - 1]), rows[|rows| - 1];
      var c, d := ParseAmount(row.scaledCollateral), ParseAmount(row.scaledDebt);
      if before.None? || c.None? || d.None? then None
      else Some(before.value + [ReserveRow(row.asset, c.value, d.value)])
  }

  function ParsePosition(row: ExportedPosition, block: nat): Option<Snapshot> {
    var hf, c, d, t := ParseAmount(row.healthFactorWad), ParseAmount(row.totalCollateralBase),
                       ParseAmount(row.totalDebtBase), ParseAmount(row.liquidationThreshold);
    var reserves := ParseReserves(row.reserves);
    if hf.None? || c.None? || d.None? || t.None? || reserves.None? then None
    else Some(Snapshot(row.account, block, row.eMode, hf.value, c.value, d.value, t.value, reserves.value))
  }

  /** `applyToModel`: seeds the model row by row; None when a number does not parse. */
  function Import(cfg: Config, m: Model, block: nat, rows: seq<ExportedPosition>): Option<Model> {
    if rows == [] then Some(m)
    else
      var before, s := Import(cfg, m, block, rows[..|rows| - 1]), ParsePosition(rows[|rows| - 1], block);
      if before.None? || s.None? then None else Some(AfterSeed(cfg, before.value, s.value))
  }

  // ----- one position through the text -----

  lemma ParsePrintAmount(n: nat)
    ensures ParseAmount(PrintInt(n)) == Some(n)
  {
    ParsePrintInt(n);
  }

  /** Of the given keys, those with a balance. */
  function HeldAmong(p: UserPosition, keys: seq<string>): (r: seq<string>)
    ensures forall k :: k in r <==> k in keys && Holds(p, k)
  {
    if keys == [] then []
    else
      var before, k := HeldAmong(p, keys[..|keys| - 1]), keys[|keys| - 1];
      assert keys == keys[..|keys| - 1] + [k];
      if Holds(p, k) then before + [k] else before
  }

  /** The assets of an exported position's rows, in order. */
  function HeldKeys(p: UserPosition): seq<string> {
    HeldAmong(p, AssetKeys(p))
  }

  lemma {:induction false} OnlyHeldAreExported(p: UserPosition, keys: seq<string>)
    ensures ExportReserves(p, keys) == ExportReserves(p, HeldAmong(p, keys))
  {
    hide PrintInt;
    if keys != [] {
      var front, k := keys[..|keys| - 1], keys[|keys| - 1];
      OnlyHeldAreExported(p, front);
      assert (HeldAmong(p, front) + [k])[..|HeldAmong(p, front)|] == HeldAmong(p, front);
    }
  }

  lemma {:induction false} HeldDistinct(p: UserPosition, keys: seq<string>)
    requires Distinct(keys)
    ensures Distinct(HeldAmong(p, keys))
  {
    hide PositionModel.Holds;
    if keys != [] {
      HeldDistinct(p, keys[..|keys| - 1]);
      assert keys == keys[..|keys| - 1] + [keys[|keys| - 1]];
    }
  }

  lemma HeldKeysOk(p: UserPosition, r: Reserves)
    requires PositionOk(p, r)
    ensures Distinct(HeldKeys(p))
    ensures forall k :: k in HeldKeys(p) ==> k in r && Lower(k) == k && Holds(p, k)
    ensures forall k :: Holds(p, k) ==> k in HeldKeys(p)
  {
    var held, rest := p.collateral.keys, Drop(p.debt.keys, p.collateral.at.Keys);
    DropDistinct(p.debt.keys, p.collateral.at.Keys);
    forall i, j | 0 <= i < |held| && 0 <= j < |rest| ensures held[i] != rest[j] {
      assert held[i] in held && rest[j] in rest;
    }
    forall k | k in held + rest ensures k in p.collateral.at || k in p.debt.at {
      assert k in held || k in rest;
    }
    HeldDistinct(p, AssetKeys(p));
  }

  function RowsFor(p: UserPosition, keys: seq<string>): seq<ReserveRow> {
    seq(|keys|, i requires 0 <= i < |keys| =>
      ReserveRow(keys[i], AmountOf(p.collateral, keys[i]), AmountOf(p.debt, keys[i])))
  }

  /** Exported rows parse back to the balances. */
  lemma {:induction false} ParseExported(p: UserPosition, keys: seq<string>)
    requires forall k :: k in keys ==> Holds(p, k)
    ensures ParseReserves(ExportReserves(p, keys)) == Some(RowsFor(p, keys))
  {
    hide PrintInt, ParseAmount;
    if keys != [] {
      var front, k := keys[..|keys| - 1], keys[|keys| - 1];
      ParseExported(p, front);
      ParsePrintAmount(AmountOf(p.collateral, k));
      ParsePrintAmount(AmountOf(p.debt, k));
      var rows := ExportReserves(p, keys);
      assert rows[..|rows| - 1] == ExportReserves(p, front);
      assert RowsFor(p, keys) == RowsFor(p, front) + [ReserveRow(k, AmountOf(p.collateral, k), AmountOf(p.debt, k))];
    }
  }

  function SnapshotOf(p: UserPosition, block: nat): Snapshot {
    Snapshot(p.account, block, p.eMode, p.cachedHf, OrElse(p.lastCollateralBase, 0), OrElse(p.lastDebtBase, 1),
             OrElse(p.lastThreshold, 0), RowsFor(p, HeldKeys(p)))
  }

  lemma ParsesBack(p: UserPosition, block: nat)
    ensures ParsePosition(ExportPosition(p), block) == Some(SnapshotOf(p, block))
  {
    hide PrintInt, ParseAmount, AssetKeys, ExportReserves, ParseReserves, RowsFor, PositionModel.Holds;
    OnlyHeldAreExported(p, AssetKeys(p));
    ParseExported(p, HeldKeys(p));
    ParsePrintAmount(p.cachedHf);
    ParsePrintAmount(OrElse(p.lastCollateralBase, 0));
    ParsePrintAmount(OrElse(p.lastDebtBase, 1));
    ParsePrintAmount(OrElse(p.lastThreshold, 0));
  }

  // ----- what seeding an exported position builds -----

  /** The positive balances among the keys, in their order. */
  ghost predicate BalancesRebuilt(w: OMap<nat>, m: OMap<nat>, keys: seq<string>) {
    w.Valid() && w.keys == PositiveKeys(m, keys) && forall k :: k in w.at ==> k in keys && w.at[k] == AmountOf(m, k)
  }

  ghost predicate Rebuilt(w: UserPosition, p: UserPosition, keys: seq<string>) {
    BalancesRebuilt(w.collateral, p.collateral, keys) && BalancesRebuilt(w.debt, p.debt, keys)
  }

  lemma {:induction false} PositiveMembers(m: OMap<nat>, keys: seq<string>)
    ensures forall k :: k in PositiveKeys(m, keys) <==> k in keys && AmountOf(m, k) > 0
  {
    if keys != [] {
      PositiveMembers(m, keys[..|keys| - 1]);
      assert keys == keys[..|keys| - 1] + [keys[|keys| - 1]];
    }
  }

  lemma {:induction false} SeededRows(r: Reserves, start: UserPosition, p: UserPosition, keys: seq<string>)
    requires Distinct(keys) && forall k :: k in keys ==> k in r && Lower(k) == k
    ensures Rebuilt(WithRows(r, Cleared(start), RowsFor(p, keys)), p, keys)
  {
    hide WithRow;
    if keys != [] {
      var front, k := keys[..|keys| - 1], keys[|keys| - 1];
      assert keys == front + [k];
      SeededRows(r, start, p, front);
      assert RowsFor(p, keys)[..|keys| - 1] == RowsFor(p, front);
      var w := WithRows(r, Cleared(start), RowsFor(p, front));
      OneMoreRow(r, w, p, front, k);
    }
  }

  /** Writing one more positive balance. */
  lemma OneMoreBalance(w: OMap<nat>, m: OMap<nat>, front: seq<string>, k: string)
    requires BalancesRebuilt(w, m, front) && k !in front
    ensures BalancesRebuilt(if AmountOf(m, k) == 0 then w else w.Set(k, AmountOf(m, k)), m, front + [k])
  {
    OneMorePositive(m, front, k);
    hide PositiveKeys;
    assert k !in w.at;
    SetValid(w, k, AmountOf(m, k));
  }

  lemma OneMorePositive(m: OMap<nat>, front: seq<string>, k: string)
    ensures PositiveKeys(m, front + [k])
            == if AmountOf(m, k) > 0 then PositiveKeys(m, front) + [k] else PositiveKeys(m, front)
  {
    hide AmountOf;
    assert (front + [k])[..|front + [k]| - 1] == front;
  }

  lemma OneMoreRow(r: Reserves, w: UserPosition, p: UserPosition, front: seq<string>, k: string)
    requires Rebuilt(w, p, front) && k !in front && k in r && Lower(k) == k
    ensures Rebuilt(WithRow(r, w, ReserveRow(k, AmountOf(p.collateral, k), AmountOf(p.debt, k))), p, front + [k])
  {
    hide BalancesRebuilt, AmountOf, Lower;
    OneMoreBalance(w.collateral, p.collateral, front, k);
    OneMoreBalance(w.debt, p.debt, front, k);
  }

  /** Of the given keys, those without collateral. */
  function DebtOnly(p: UserPosition, keys: seq<string>): seq<string> {
    if keys == [] then []
    else
      var before, k := DebtOnly(p, keys[..|keys| - 1]), keys[|keys| - 1];
      if AmountOf(p.collateral, k) == 0 then before + [k] else before
  }

  /** Seeding groups the rows: those with collateral first. */
  function Regrouped(p: UserPosition): seq<string> {
    PositiveKeys(p.collateral, HeldKeys(p)) + DebtOnly(p, HeldKeys(p))
  }

  /** No row without collateral comes before one with collateral. */
  ghost predicate CollateralFirst(p: UserPosition, keys: seq<string>) {
    forall i, j :: 0 <= i < j < |keys| && AmountOf(p.collateral, keys[j]) > 0 ==> AmountOf(p.collateral, keys[i]) > 0
  }

  lemma {:induction false} RestIsDebtOnly(w: UserPosition, p: UserPosition, keys: seq<string>)
    requires forall k :: k in keys ==> Holds(p, k) && (k in w.collateral.at <==> AmountOf(p.collateral, k) > 0)
    ensures Drop(PositiveKeys(p.debt, keys), w.collateral.at.Keys) == DebtOnly(p, keys)
  {
    if keys != [] {
      var front, k := keys[..|keys| - 1], keys[|keys| - 1];
      assert keys == front + [k];
      RestIsDebtOnly(w, p, front);
      DropConcat(PositiveKeys(p.debt, front), [k], w.collateral.at.Keys);
      DropOne(k, w.collateral.at.Keys);
      var kept := PositiveKeys(p.debt, front);
      assert PositiveKeys(p.debt, keys) == if AmountOf(p.debt, k) > 0 then kept + [k] else kept;
      assert DebtOnly(p, keys)
             == if AmountOf(p.collateral, k) == 0 then DebtOnly(p, front) + [k] else DebtOnly(p, front);
      assert Holds(p, k) && (k in w.collateral.at <==> AmountOf(p.collateral, k) > 0);
      hide PositiveKeys, DebtOnly, Drop, AmountOf;
    }
  }

  lemma DropOne(k: string, dead: set<string>)
    ensures Drop([k], dead) == if k in dead then [] else [k]
  {
    assert [k][1..] == [];
  }

  /** The rebuilt position holds the same balances, with the rows regrouped; it has a debt entry exactly
      when something is owed. */
  lemma RebuiltKeys(w: UserPosition, p: UserPosition, r: Reserves)
    requires PositionOk(p, r) && Rebuilt(w, p, HeldKeys(p))
    ensures AssetKeys(w) == Regrouped(p)
    ensures forall k :: k in HeldKeys(p) ==>
              AmountOf(w.collateral, k) == AmountOf(p.collateral, k) && AmountOf(w.debt, k) == AmountOf(p.debt, k)
    ensures w.debt.Size() != 0 <==> !DebtFree(p)
  {
    var keys := HeldKeys(p);
    HeldKeysOk(p, r);
    RebuiltDebt(w, p, r);
    hide HeldKeys, PositiveKeys, PositionOk, DebtFree, DebtOnly;
    RebuiltBalances(w.collateral, p.collateral, keys);
    RebuiltBalances(w.debt, p.debt, keys);
    RestIsDebtOnly(w, p, keys);
    hide AmountOf, BalancesRebuilt;
  }

  lemma RebuiltBalances(w: OMap<nat>, m: OMap<nat>, keys: seq<string>)
    requires BalancesRebuilt(w, m, keys)
    ensures w.keys == PositiveKeys(m, keys)
    ensures forall k :: k in keys ==> (k in w.at <==> AmountOf(m, k) > 0) && AmountOf(w, k) == AmountOf(m, k)
  {
    PositiveMembers(m, keys);
    hide PositiveKeys;
    forall k | k in keys ensures k in w.at <==> AmountOf(m, k) > 0 {
      assert k in w.at <==> k in w.keys;
    }
  }

  lemma RebuiltDebt(w: UserPosition, p: UserPosition, r: Reserves)
    requires PositionOk(p, r) && Rebuilt(w, p, HeldKeys(p))
    ensures w.debt.Size() != 0 <==> !DebtFree(p)
  {
    HeldKeysOk(p, r);
    PositiveMembers(p.debt, HeldKeys(p));
    hide HeldKeys, PositiveKeys, PositionOk;
    if w.debt.Size() != 0 {
      assert w.debt.keys[0] in w.debt.keys;
      assert AmountOf(p.debt, w.debt.keys[0]) > 0;
    }
    if !DebtFree(p) {
      var k :| k in p.debt.at && p.debt.at[k] != 0;
      assert Holds(p, k) && k in w.debt.keys;
    }
  }

  lemma {:induction false} ExportReservesSame(w: UserPosition, p: UserPosition, keys: seq<string>)
    requires forall k :: k in keys ==>
               AmountOf(w.collateral, k) == AmountOf(p.collateral, k) && AmountOf(w.debt, k) == AmountOf(p.debt, k)
    ensures ExportReserves(w, keys) == ExportReserves(p, keys)
  {
    hide PrintInt, AmountOf;
    if keys != [] {
      ExportReservesSame(w, p, keys[..|keys| - 1]);
    }
  }

  lemma {:induction false} DebtOnlyMembers(p: UserPosition, keys: seq<string>)
    ensures forall k :: k in DebtOnly(p, keys) <==> k in keys && AmountOf(p.collateral, k) == 0
  {
    if keys != [] {
      DebtOnlyMembers(p, keys[..|keys| - 1]);
      assert keys == keys[..|keys| - 1] + [keys[|keys| - 1]];
    }
  }

  lemma RegroupedMembers(p: UserPosition)
    ensures forall k :: k in Regrouped(p) <==> k in HeldKeys(p)
  {
    hide HeldKeys, AmountOf;
    PositiveMembers(p.collateral, HeldKeys(p));
    DebtOnlyMembers(p, HeldKeys(p));
  }

  /** Regrouping leaves the order alone exactly when collateral already comes first. */
  lemma {:induction false} RegroupingIsNeutralIff(p: UserPosition, keys: seq<string>)
    ensures PositiveKeys(p.collateral, keys) + DebtOnly(p, keys) == keys <==> CollateralFirst(p, keys)
  {
    var some, none := PositiveKeys(p.collateral, keys), DebtOnly(p, keys);
    PositiveMembers(p.collateral, keys);
    DebtOnlyMembers(p, keys);
    if some + none == keys {
      forall t | |some| <= t < |keys| ensures AmountOf(p.collateral, keys[t]) == 0 {
        assert keys[t] in none;
      }
      forall t | 0 <= t < |some| ensures AmountOf(p.collateral, keys[t]) > 0 {
        assert keys[t] in some;
      }
    }
    if CollateralFirst(p, keys) {
      CollateralFirstRegroups(p, keys);
    }
  }

  lemma {:induction false} CollateralFirstRegroups(p: UserPosition, keys: seq<string>)
    requires CollateralFirst(p, keys)
    ensures PositiveKeys(p.collateral, keys) + DebtOnly(p, keys) == keys
  {
    if keys != [] {
      var front, k := keys[..|keys| - 1], keys[|keys| - 1];
      assert keys == front + [k];
      CollateralFirstRegroups(p, front);
      if AmountOf(p.collateral, k) > 0 {
        forall i | 0 <= i < |front| ensures AmountOf(p.collateral, front[i]) > 0 {
          assert front[i] == keys[i] && keys[|keys| - 1] == k;
        }
        NoneDebtOnly(p, front);
      }
    }
  }

  lemma {:induction false} NoneDebtOnly(p: UserPosition, keys: seq<string>)
    requires forall i :: 0 <= i < |keys| ==> AmountOf(p.collateral, keys[i]) > 0
    ensures DebtOnly(p, keys) == []
  {
    if keys != [] {
      NoneDebtOnly(p, keys[..|keys| - 1]);
    }
  }

  lemma {:induction false} ExportedAssets(p: UserPosition, keys: seq<string>)
    requires forall k :: k in keys ==> Holds(p, k)
    ensures |ExportReserves(p, keys)| == |keys|
    ensures forall i :: 0 <= i < |keys| ==> ExportReserves(p, keys)[i].asset == keys[i]
  {
    hide PrintInt;
    if keys != [] {
      ExportedAssets(p, keys[..|keys| - 1]);
    }
  }

  // ----- one position there and back -----

  /** The health factor a position has after being exported and seeded. */
  function ReseededHf(p: UserPosition): nat {
    KnownHf(p.cachedHf, OrElse(p.lastCollateralBase, 0), OrElse(p.lastDebtBase, 1), OrElse(p.lastThreshold, 0))
  }

  function ReseededExport(p: UserPosition): ExportedPosition {
    ExportPosition(p).(healthFactorWad := PrintInt(ReseededHf(p)), reserves := ExportReserves(p, Regrouped(p)))
  }

  /** A fresh position seeded from p's snapshot. */
  ghost predicate Copies(w: UserPosition, p: UserPosition, block: nat) {
    && w.seeded && (w.debt.Size() != 0 <==> !DebtFree(p)) && w.lastActivityBlock == block && w.account == p.account
    && ExportPosition(w) == ReseededExport(p)
  }

  lemma SeededCopies(r: Reserves, s: Reserves, p: UserPosition, block: nat)
    requires PositionOk(p, r) && forall k :: k in HeldKeys(p) ==> k in s
    ensures Copies(SeededPosition(s, NewPosition(p.account, block), SnapshotOf(p, block)), p, block)
  {
    hide PrintInt, ExportReserves, WithRows, KnownHf, RowsFor, HeldKeys, PositionOk, DebtFree, AssetKeys, Regrouped;
    HeldKeysOk(p, r);
    var start := NewPosition(p.account, block);
    var rows := WithRows(s, Cleared(start), RowsFor(p, HeldKeys(p)));
    SeededRows(s, start, p, HeldKeys(p));
    RebuiltKeys(rows, p, r);
    var w := SeededPosition(s, start, SnapshotOf(p, block));
    WithRowsAccount(s, Cleared(start), RowsFor(p, HeldKeys(p)));
    SameAssetKeys(w, rows);
    RegroupedMembers(p);
    ExportReservesSame(w, p, Regrouped(p));
  }

  lemma SameAssetKeys(w: UserPosition, v: UserPosition)
    requires w.collateral == v.collateral && w.debt == v.debt
    ensures AssetKeys(w) == AssetKeys(v)
  {
  }

  lemma {:induction false} WithRowsAccount(r: Reserves, p: UserPosition, rows: seq<ReserveRow>)
    ensures WithRows(r, p, rows).account == p.account
  {
    if rows != [] {
      WithRowsAccount(r, p, rows[..|rows| - 1]);
    }
  }

  /** What keeps a position's row through the text: a health factor that is positive or recomputes to
      zero from the exported totals, and rows with collateral before rows without. */
  ghost predicate RowKept(p: UserPosition) {
    (p.cachedHf > 0 || ReseededHf(p) == 0) && CollateralFirst(p, HeldKeys(p))
  }

  lemma SameRowIff(p: UserPosition)
    ensures ReseededExport(p) == ExportPosition(p) <==> RowKept(p)
  {
    hide ExportReserves, AssetKeys, PrintInt, PositionModel.Holds, CollateralFirst, KnownHf;
    if PrintInt(ReseededHf(p)) == PrintInt(p.cachedHf) {
      PrintIntInjective(ReseededHf(p), p.cachedHf);
    }
    var keys := HeldKeys(p);
    KnownHfKeeps(p);
    OnlyHeldAreExported(p, AssetKeys(p));
    RegroupingIsNeutralIff(p, keys);
    RegroupedMembers(p);
    ExportedAssets(p, keys);
    ExportedAssets(p, Regrouped(p));
    if ExportReserves(p, Regrouped(p)) == ExportReserves(p, keys) {
      forall i | 0 <= i < |keys| ensures Regrouped(p)[i] == keys[i] {
      }
      assert Regrouped(p) == keys;
    }
  }

  lemma KnownHfKeeps(p: UserPosition)
    ensures ReseededHf(p) == p.cachedHf <==> p.cachedHf > 0 || ReseededHf(p) == 0
  {
  }

  // ----- the whole model through the text -----

  /** The given exported positions have been seeded, in order, and nothing else is stored. */
  ghost predicate Seeded(w: Model, m: OMap<UserPosition>, keys: seq<string>, block: nat)
    requires forall k :: k in keys ==> k in m.at
  {
    && Invariant(w) && w.positions.keys == keys
    && forall k :: k in keys ==> k in w.positions.at && Copies(w.positions.at[k], m.at[k], block)
  }

  lemma NothingEvicted(cfg: Config, w: Model, block: nat)
    requires w.positions.Size() <= cfg.hardCap && cfg.evictionInactiveBlocks >= 1
    requires forall k :: k in w.positions.at ==> w.positions.at[k].lastActivityBlock == block
    ensures HardCapped(cfg, w, block) == w
  {
    hide ByActivity;
    assert CapVictims(cfg, w) == {};
    RemoveNothing(w.positions);
    assert InactiveVictims(cfg, w, block) == {};
  }

  lemma RowsRegister(p: UserPosition, keys: seq<string>)
    ensures |RowsFor(p, keys)| == |keys|
    ensures forall i :: 0 <= i < |keys| ==> RowsFor(p, keys)[i].asset == keys[i]
  {
  }

  lemma SeedOneMore(cfg: Config, w: Model, m: OMap<UserPosition>, r: Reserves, front: seq<string>, k: string,
      block: nat)
    requires Stored(m, r) && (forall x :: x in front ==> x in m.at) && Seeded(w, m, front, block)
    requires k in m.at && k !in front
    requires |front| < cfg.hardCap && cfg.evictionInactiveBlocks >= 1
    ensures (forall x :: x in front + [k] ==> x in m.at)
    ensures Seeded(AfterSeed(cfg, w, SnapshotOf(m.at[k], block)), m, front + [k], block)
  {
    hide WithReserves, SeededPosition, HardCapped, RowsFor, Copies, PositionOk;
    var p := m.at[k];
    var s := SnapshotOf(p, block);
    assert Lower(s.account) == k;
    assert k !in w.positions.at;
    var registered := WithReserves(w, s.reserves);
    WithReservesOk(w, s.reserves);
    forall x | x in HeldKeys(p) ensures x in registered.reserves {
      AssetRegistered(p, r, w, x);
    }
    SeededCopies(r, registered.reserves, p, block);
    WithSeedOk(w, s);
    var seeded := WithSeed(w, s);
    assert seeded.positions
             == w.positions.Set(k, SeededPosition(registered.reserves, NewPosition(p.account, block), s));
    forall x | x in seeded.positions.at ensures seeded.positions.at[x].lastActivityBlock == block {
      assert x == k || x in w.positions.keys;
      CopyActivity(seeded.positions.at[x], m.at[x], block);
    }
    NothingEvicted(cfg, seeded, block);
  }

  lemma CopyActivity(w: UserPosition, p: UserPosition, block: nat)
    requires Copies(w, p, block)
    ensures w.lastActivityBlock == block && (Exportable(w) <==> !DebtFree(p)) && ExportPosition(w) == ReseededExport(p)
  {
    hide DebtFree;
  }

  lemma AssetRegistered(p: UserPosition, r: Reserves, w: Model, x: string)
    requires PositionOk(p, r) && Invariant(w) && x in HeldKeys(p)
    ensures x in WithReserves(w, RowsFor(p, HeldKeys(p))).reserves
  {
    hide PositionOk, Stored, HeldKeys, WithReserves;
    var keys := HeldKeys(p);
    HeldKeysOk(p, r);
    WithReservesOk(w, RowsFor(p, keys));
    RowsRegister(p, keys);
    var i :| 0 <= i < |keys| && keys[i] == x;
    assert Lower(RowsFor(p, keys)[i].asset) == x;
  }

  lemma {:induction false} ImportSeeds(cfg: Config, m: OMap<UserPosition>, r: Reserves, keys: seq<string>, block: nat)
    requires Stored(m, r) && Distinct(keys) && |keys| <= cfg.hardCap && cfg.evictionInactiveBlocks >= 1
    requires forall k :: k in keys ==> k in m.at
    ensures var w := Import(cfg, NewModel, block, ExportAll(m, keys));
            w.Some? && Seeded(w.value, m, keys, block)
  {
    hide AfterSeed, ParsePosition, ExportPosition, PositionOk, Copies;
    if keys == [] {
      NewModelOk();
    } else {
      var front, k := keys[..|keys| - 1], keys[|keys| - 1];
      assert keys == front + [k];
      ImportSeeds(cfg, m, r, front, block);
      ParsesBack(m.at[k], block);
      var rows := ExportAll(m, keys);
      assert rows[..|rows| - 1] == ExportAll(m, front);
      SeedOneMore(cfg, Import(cfg, NewModel, block, ExportAll(m, front)).value, m, r, front, k, block);
    }
  }

  lemma {:induction false} ExportedRows(m: OMap<UserPosition>, keys: seq<string>)
    requires forall k :: k in keys ==> k in m.at
    ensures |ExportAll(m, keys)| == |keys|
    ensures forall i :: 0 <= i < |keys| ==> ExportAll(m, keys)[i] == ExportPosition(m.at[keys[i]])
  {
    hide ExportPosition;
    if keys != [] {
      ExportedRows(m, keys[..|keys| - 1]);
    }
  }

  /** All of the keys are exported, or fewer of them. */
  lemma {:induction false} ExportedDistinct(m: OMap<UserPosition>, keys: seq<string>)
    requires Distinct(keys)
    ensures Distinct(ExportedKeys(m, keys)) && |ExportedKeys(m, keys)| <= |keys|
    ensures if forall k :: k in keys ==> k in m.at && Exportable(m.at[k]) then ExportedKeys(m, keys) == keys
            else |ExportedKeys(m, keys)| < |keys|
  {
    hide Exportable;
    if keys != [] {
      ExportedDistinct(m, keys[..|keys| - 1]);
      assert keys == keys[..|keys| - 1] + [keys[|keys| - 1]];
    }
  }

  /** What the round trip asks of an exported position. */
  ghost predicate Keeps(m: Model, k: string)
    requires k in m.positions.at
  {
    !DebtFree(m.positions.at[k]) && RowKept(m.positions.at[k])
  }

  /** Exporting any model, seeding an empty model of sufficient cap with the text and exporting again
      succeeds, and gives the very same rows, in order, exactly when every exported position owes
      something, lists its collateral first, and has a health factor that is positive or recomputes to
      zero from its exported totals. */
  lemma RoundTripIff(cfg: Config, m: Model, block: nat)
    requires Invariant(m) && cfg.evictionInactiveBlocks >= 1
    requires |ExportedKeys(m.positions, m.positions.keys)| <= cfg.hardCap
    ensures var w := Import(cfg, NewModel, block, Export(m));
            && w.Some?
            && (Export(w.value) == Export(m) <==>
                forall k :: k in ExportedKeys(m.positions, m.positions.keys) ==> Keeps(m, k))
  {
    hide PositionOk, Exportable, Import, ExportAll, Copies, Keeps;
    var keys := ExportedKeys(m.positions, m.positions.keys);
    ExportedDistinct(m.positions, m.positions.keys);
    ImportSeeds(cfg, m.positions, m.reserves, keys, block);
    var w := Import(cfg, NewModel, block, Export(m)).value;
    SameExportsIff(w, m, keys, block);
  }

  lemma SameExportsIff(w: Model, m: Model, keys: seq<string>, block: nat)
    requires (forall k :: k in keys ==> k in m.positions.at) && Distinct(keys) && Seeded(w, m.positions, keys, block)
    ensures Export(w) == ExportAll(m.positions, keys) <==> forall k :: k in keys ==> Keeps(m, k)
  {
    hide Invariant, Exportable, ExportPosition, ReseededExport, DebtFree, RowKept, ExportAll, Copies;
    var again := ExportedKeys(w.positions, keys);
    ExportedDistinct(w.positions, keys);
    ExportedRows(m.positions, keys);
    ExportedRows(w.positions, again);
    forall k | k in keys
      ensures Exportable(w.positions.at[k]) <==> !DebtFree(m.positions.at[k])
      ensures ExportPosition(w.positions.at[k]) == ExportPosition(m.positions.at[k]) <==> RowKept(m.positions.at[k])
    {
      CopyActivity(w.positions.at[k], m.positions.at[k], block);
      SameRowIff(m.positions.at[k]);
    }
    if Export(w) == ExportAll(m.positions, keys) {
      assert again == keys;
      forall k | k in keys ensures Keeps(m, k) {
        var i :| 0 <= i < |keys| && keys[i] == k;
        assert Export(w)[i] == ExportAll(m.positions, keys)[i];
      }
    }
  }

  /** In particular without zero balances and with positive health factors. */
  ghost predicate NoZeroBalances(p: UserPosition) {
    && (forall k :: k in p.collateral.at ==> p.collateral.at[k] > 0)
    && (forall k :: k in p.debt.at ==> p.debt.at[k] > 0)
  }

  lemma RoundTrip(cfg: Config, m: Model, block: nat)
    requires Invariant(m) && cfg.evictionInactiveBlocks >= 1
    requires |ExportedKeys(m.positions, m.positions.keys)| <= cfg.hardCap
    requires forall k :: k in m.positions.at ==> NoZeroBalances(m.positions.at[k]) && m.positions.at[k].cachedHf > 0
    ensures var w := Import(cfg, NewModel, block, Export(m));
            w.Some? && Export(w.value) == Export(m)
  {
    hide PositionOk, ExportPosition, Import, Export, NoZeroBalances, RowKept, DebtFree;
    forall k | k in ExportedKeys(m.positions, m.positions.keys) ensures Keeps(m, k) {
      assert PositionOk(m.positions.at[k], m.reserves);
      PositiveIsKept(m.positions.at[k], m.reserves);
    }
    RoundTripIff(cfg, m, block);
  }

  lemma PositiveIsKept(p: UserPosition, r: Reserves)
    requires PositionOk(p, r) && NoZeroBalances(p) && p.cachedHf > 0 && Exportable(p)
    ensures !DebtFree(p) && RowKept(p)
  {
    assert p.debt.keys[0] in p.debt.keys;
    AllHeld(p, AssetKeys(p));
    assert HeldKeys(p) == AssetKeys(p);
    var keys, n := AssetKeys(p), |p.collateral.keys|;
    forall t | n <= t < |keys| ensures AmountOf(p.collateral, keys[t]) == 0 {
      assert keys[t] in Drop(p.debt.keys, p.collateral.at.Keys);
    }
    forall t | 0 <= t < n ensures AmountOf(p.collateral, keys[t]) > 0 {
      assert keys[t] in p.collateral.keys;
    }
  }

  lemma {:induction false} AllHeld(p: UserPosition, keys: seq<string>)
    requires forall k :: k in keys ==> Holds(p, k)
    ensures HeldAmong(p, keys) == keys
  {
    hide PositionModel.Holds;
    if keys != [] {
      AllHeld(p, keys[..|keys| - 1]);
      assert keys == keys[..|keys| - 1] + [keys[|keys| - 1]];
    }
  }
}
