// The local position model as the program has it: an object whose methods update its fields, each
// proved to do to the state exactly what the functions of `PositionModel` say.

module LocalPositions {
  import opened Options
  import opened Text
  import opened Ordered
  import opened PegPrices
  import opened Positions
  import opened Floors
  import opened HfPolicy
  import opened PositionModel
  import opened PositionRuns
  import opened PriceUpdates
  import opened Eviction
  import opened SnapshotStore

  // ----- what a step of a recomputation does -----

  /** The keys a recomputation also commits because it has to align the peg. */
  ghost function PegKeys(o: Oracle, m: Model): set<string> {
    if PegMismatched(o, m) then TouchedKeys(m, o.pegs.usdbc) else {}
  }

  /** A recomputation that has judged the given keys so far. */
  ghost function Judged(o: Oracle, m: Model, seen: set<string>, nowSec: int): Model {
    if !m.bootstrapped || seen == {} then m
    else CommitAll(o, Normalized(o, m, nowSec), seen + PegKeys(o, m), nowSec)
  }

  /** The keys of the asset's holders among the given ones. */
  ghost function TouchedAmong(m: Model, keys: seq<string>, asset: string): set<string> {
    set k | k in keys && k in m.positions.at && Touched(m.positions.at[k], asset)
  }

  lemma TouchedStep(m: Model, keys: seq<string>, i: nat, asset: string)
    requires i < |keys| && keys[i] in m.positions.at
    ensures TouchedAmong(m, keys[..i + 1], asset)
            == TouchedAmong(m, keys[..i], asset) + if Touched(m.positions.at[keys[i]], asset) then {keys[i]} else {}
  {
    assert keys[..i + 1] == keys[..i] + [keys[i]];
  }

  lemma AllTouched(m: Model, asset: string)
    requires m.positions.Valid()
    ensures TouchedAmong(m, m.positions.keys, asset) == TouchedKeys(m, asset)
    ensures m.positions.keys[..|m.positions.keys|] == m.positions.keys
  {
  }

  /** Storing one committed position is a commit of that key alone. */
  lemma OneCommit(o: Oracle, m: Model, k: string, nowSec: int)
    requires k in m.positions.at
    ensures m.(positions := m.positions.Set(k, Committed(o, m, m.positions.at[k], nowSec)))
              == CommitAll(o, m, {k}, nowSec)
  {
    hide HfOf, Commit;
    assert m.positions.Set(k, Committed(o, m, m.positions.at[k], nowSec)).at
             == CommitAll(o, m, {k}, nowSec).positions.at;
  }

  /** Recomputing while keys have been judged leaves the state where those keys and the peg's holders
      are committed. */
  lemma RecomputeWhileJudging(o: Oracle, m: Model, seen: set<string>, nowSec: int)
    requires PegsOk(o.pegs) && m.bootstrapped
    ensures AfterRecomputeHf(o, Judged(o, m, seen, nowSec), nowSec)
            == CommitAll(o, Normalized(o, m, nowSec), seen + PegKeys(o, m), nowSec)
  {
    hide CommitAll, Normalized;
    if seen == {} {
      assert {} + PegKeys(o, m) == PegKeys(o, m);
    } else {
      var n, keys := Normalized(o, m, nowSec), seen + PegKeys(o, m);
      NormalizedKeeps(o, m, nowSec);
      NormalizedIsAligned(o, m, nowSec);
      NormalizedStays(o, n, keys, nowSec);
      CommitAllMarket(o, n, keys, nowSec);
      NoCommits(o, CommitAll(o, n, keys, nowSec), nowSec);
    }
  }

  /** Judging one more key: recompute, then store what its result commits. */
  lemma JudgeOneMore(o: Oracle, m: Model, seen: set<string>, k: string, nowSec: int)
    requires PegsOk(o.pegs) && k in m.positions.at
    ensures var after := AfterRecomputeHf(o, Judged(o, m, seen, nowSec), nowSec);
            && k in after.positions.at
            && after.(positions := after.positions.Set(k, Committed(o, after, after.positions.at[k], nowSec)))
               == Judged(o, m, seen + {k}, nowSec)
            && HfOf(o, after, after.positions.at[k], nowSec)
               == HfOf(o, Normalized(o, m, nowSec), m.positions.at[k], nowSec)
            && (m.bootstrapped ==> Committed(o, after, after.positions.at[k], nowSec)
                                   == Committed(o, Normalized(o, m, nowSec), m.positions.at[k], nowSec))
  {
    var n := Normalized(o, m, nowSec);
    NormalizedKeeps(o, m, nowSec);
    if m.bootstrapped {
      hide HfOf, CommitAll, Normalized, AfterRecomputeHf, Commit;
      var keys := seen + PegKeys(o, m);
      var after := CommitAll(o, n, keys, nowSec);
      RecomputeWhileJudging(o, m, seen, nowSec);
      CommitAllMarket(o, n, keys, nowSec);
      OneCommit(o, after, k, nowSec);
      CommitsCombine(o, n, keys, {k}, nowSec);
      assert keys + {k} == seen + {k} + PegKeys(o, m);
      CommitAllAt(o, n, keys, nowSec, k);
      CommittedAgain(o, n, after, m.positions.at[k], nowSec);
      HfSame(o, n, m.positions.at[k], after, m.positions.at[k], nowSec);
    } else {
      hide Normalized;
      SetSame(m.positions, k);
    }
  }

  lemma SetSame(m: OMap<UserPosition>, k: string)
    requires k in m.at
    ensures m.Set(k, m.at[k]) == m
  {
    assert m.at[k := m.at[k]] == m.at;
  }

  /** Aligning the peg, then writing it from a healthy reference, is what a recomputation does. */
  lemma RecomputeInTwoSteps(o: Oracle, m: Model, nowSec: int)
    requires PegsOk(o.pegs) && m.bootstrapped
    ensures Materialized(o, AfterSync(o, m, None, nowSec), nowSec) == AfterRecomputeHf(o, m, nowSec)
  {
    if PegMismatched(o, m) {
      hide CommitAll, TouchedKeys;
      var r := RegisterPeg(o, m, nowSec);
      SyncAligns(o, m, nowSec);
      assert Normalized(o, r, nowSec) == r == Normalized(o, m, nowSec);
      RegisterKeepsTouched(o, m, nowSec);
      var keys := TouchedKeys(m, o.pegs.usdbc);
      assert keys + {} == keys;
      CommitAllMarket(o, r, keys, nowSec);
      NoCommits(o, r, nowSec);
    } else {
      hide CommitAll;
      NoCommits(o, Normalized(o, m, nowSec), nowSec);
    }
  }

  lemma RegisterKeepsTouched(o: Oracle, m: Model, nowSec: int)
    requires ReferencePrice(o, m.prices).Some?
    ensures TouchedKeys(RegisterPeg(o, m, nowSec), o.pegs.usdbc) == TouchedKeys(m, o.pegs.usdbc)
  {
  }

  lemma ChangesStep(cfg: Config, m: Model, keys: seq<string>, i: nat, asset: string, nowSec: int)
    requires i < |keys| && forall k :: k in keys ==> k in m.positions.at
    ensures (forall k :: k in keys[..i] ==> k in m.positions.at)
              && (forall k :: k in keys[..i + 1] ==> k in m.positions.at)
    ensures var p, n := m.positions.at[keys[i]], Normalized(cfg.oracle, m, nowSec);
            ChangesAmong(cfg, m, keys[..i + 1], asset, nowSec)
            == ChangesAmong(cfg, m, keys[..i], asset, nowSec)
               + if m.bootstrapped && Touched(p, asset) && Numeric(HfOf(cfg.oracle, n, p, nowSec))
                 then [ToTierChange(cfg, Committed(cfg.oracle, n, p, nowSec), false)] else []
  {
    hide HfOf, Normalized, Commit;
    assert keys[..i + 1][..i] == keys[..i];
  }

  ghost function PegRank(o: Oracle, m: Model): nat {
    if PegOff(o, m) then 1 else 0
  }

  /** A recomputation never leaves the peg off where it was not. */
  lemma JudgingKeepsRank(o: Oracle, m: Model, seen: set<string>, nowSec: int)
    requires PegsOk(o.pegs)
    ensures PegRank(o, Judged(o, m, seen, nowSec)) <= PegRank(o, m)
  {
  }

  // ----- what a step of an eviction or a merge does -----

  lemma KeysOfStep(s: seq<UserPosition>, n: nat)
    requires n < |s|
    ensures KeysOf(s[..n + 1]) == KeysOf(s[..n]) + {KeyOf(s[n])}
  {
    assert s[..n + 1] == s[..n] + [s[n]];
    forall k | k in KeysOf(s[..n]) ensures k in KeysOf(s[..n + 1]) {
      var p :| p in s[..n] && KeyOf(p) == k;
      assert p in s[..n + 1];
    }
    assert s[n] in s[..n + 1];
  }

  /** Deleting the next victim in order of activity. */
  lemma EvictOneMore(m: OMap<UserPosition>, sorted: seq<UserPosition>, n: nat)
    requires n < |sorted|
    ensures m.Remove(KeysOf(sorted[..n])).Delete(KeyOf(sorted[n])) == m.Remove(KeysOf(sorted[..n + 1]))
  {
    KeysOfStep(sorted, n);
    RemoveTwice(m, KeysOf(sorted[..n]), {KeyOf(sorted[n])});
  }

  ghost function WithoutOldest(m: Model, n: nat): OMap<UserPosition> {
    m.positions.Remove(KeysOf(ByActivity(m.positions)[..if n <= |ByActivity(m.positions)| then n else 0]))
  }

  /** After deleting the first n by activity, exactly n are gone. */
  lemma OldestGone(m: Model, n: nat)
    requires Invariant(m) && n <= m.positions.Size()
    ensures |ByActivity(m.positions)| == m.positions.Size()
    ensures WithoutOldest(m, n).Size() == m.positions.Size() - n && |KeysOf(ByActivity(m.positions)[..n])| == n
    ensures n == 0 ==> WithoutOldest(m, n) == m.positions
    ensures n > 0 ==> WithoutOldest(m, n) == WithoutOldest(m, n - 1).Delete(KeyOf(ByActivity(m.positions)[n - 1]))
  {
    OldestSize(m, n);
    hide Stored, ByActivity;
    if n == 0 {
      RemoveNothing(m.positions);
    } else {
      EvictOneMore(m.positions, ByActivity(m.positions), n - 1);
    }
    hide KeysOf;
  }

  lemma OldestSize(m: Model, n: nat)
    requires Invariant(m) && n <= m.positions.Size()
    ensures |ByActivity(m.positions)| == m.positions.Size()
    ensures m.positions.Remove(KeysOf(ByActivity(m.positions)[..n])).Size() == m.positions.Size() - n
    ensures |KeysOf(ByActivity(m.positions)[..n])| == n
  {
    hide PositionOk, ByActivity;
    var s := ByActivity(m.positions);
    ActivityOrder(m.positions, m.reserves);
    KeysOfDistinct(s[..n]);
    forall k | k in KeysOf(s[..n]) ensures k in m.positions.at {
      var p :| p in s[..n] && KeyOf(p) == k;
      assert p in s;
    }
    RemoveSize(m.positions, KeysOf(s[..n]));
  }

  /** Once the excess is gone, those gone are the victims. */
  lemma AllOldestGone(cfg: Config, m: Model)
    requires Invariant(m) && m.positions.Size() > cfg.hardCap
    ensures var n := m.positions.Size() - cfg.hardCap;
            Evicted(m, CapVictims(cfg, m))
            == m.(positions := WithoutOldest(m, n), evictionTotal := m.evictionTotal + n)
  {
    hide PositionOk, ByActivity;
    OldestGone(m, m.positions.Size() - cfg.hardCap);
    CapVictimsAreOldest(cfg, m);
  }

  ghost function InactiveAmong(cfg: Config, m: Model, keys: seq<string>, block: int): set<string> {
    set k | k in keys && k in m.positions.at && InactiveHealthy(cfg, m.positions.at[k], block)
  }

  /** These positions and this total are what removing the keys leaves. */
  ghost predicate Dropped(positions: OMap<UserPosition>, total: nat, m: Model, dead: set<string>) {
    positions == m.positions.Remove(dead) && total == m.evictionTotal + |dead|
  }

  lemma DropOneMore(positions: OMap<UserPosition>, total: nat, m: Model, dead: set<string>, k: string)
    requires Dropped(positions, total, m, dead) && k !in dead
    ensures Dropped(positions.Delete(k), total + 1, m, dead + {k})
  {
    RemoveTwice(m.positions, dead, {k});
  }

  lemma DroppedIsEvicted(m: Model)
    ensures Dropped(m.positions, m.evictionTotal, m, {})
    ensures forall positions, total, dead :: Dropped(positions, total, m, dead) ==>
              m.(positions := positions, evictionTotal := total) == Evicted(m, dead)
  {
    RemoveNothing(m.positions);
  }

  lemma InactiveStep(cfg: Config, m: Model, positions: OMap<UserPosition>, total: nat, i: nat, block: int)
    requires m.positions.Valid() && i < |m.positions.keys|
    requires Dropped(positions, total, m, InactiveAmong(cfg, m, m.positions.keys[..i], block))
    ensures var k := m.positions.keys[i];
            && k in positions.at
            && if InactiveHealthy(cfg, positions.at[k], block)
               then Dropped(positions.Delete(k), total + 1, m, InactiveAmong(cfg, m, m.positions.keys[..i + 1], block))
               else Dropped(positions, total, m, InactiveAmong(cfg, m, m.positions.keys[..i + 1], block))
  {
    hide InactiveAmong, InactiveHealthy;
    var k, dead := m.positions.keys[i], InactiveAmong(cfg, m, m.positions.keys[..i], block);
    InactiveOneMore(cfg, m, i, block);
    assert k in positions.at && positions.at[k] == m.positions.at[k];
    hide Dropped;
    DropOneMore(positions, total, m, dead, k);
  }

  lemma InactiveOneMore(cfg: Config, m: Model, i: nat, block: int)
    requires m.positions.Valid() && i < |m.positions.keys|
    ensures var k, dead := m.positions.keys[i], InactiveAmong(cfg, m, m.positions.keys[..i], block);
            && k in m.positions.at && k !in dead
            && InactiveAmong(cfg, m, m.positions.keys[..i + 1], block)
               == dead + (if InactiveHealthy(cfg, m.positions.at[k], block) then {k} else {})
  {
    hide InactiveHealthy;
    var keys := m.positions.keys;
    assert keys[..i + 1] == keys[..i] + [keys[i]];
    assert keys[i] in keys;
  }

  lemma AllInactive(cfg: Config, m: Model, block: int)
    requires m.positions.Valid()
    ensures InactiveAmong(cfg, m, m.positions.keys, block) == InactiveVictims(cfg, m, block)
    ensures m.positions.keys[..|m.positions.keys|] == m.positions.keys
    ensures InactiveAmong(cfg, m, m.positions.keys[..0], block) == {}
  {
  }

  /** One step of shedding, seen from the next position by activity. */
  lemma ShedStep(cfg: Config, m: Model, positions: OMap<UserPosition>, total: nat, n: nat)
    requires Invariant(m) && n < m.positions.Size() == |ByActivity(m.positions)|
    requires Dropped(positions, total, m, PressureVictims(cfg, m, n))
    ensures var p := ByActivity(m.positions)[n];
            if positions.Size() <= PressureCap(cfg)
            then Dropped(positions, total, m, PressureVictims(cfg, m, m.positions.Size()))
            else if Sheddable(cfg, p)
            then Dropped(positions.Delete(KeyOf(p)), total + 1, m, PressureVictims(cfg, m, n + 1))
            else Dropped(positions, total, m, PressureVictims(cfg, m, n + 1))
  {
    hide PositionOk, ByActivity, Sheddable;
    var gone, p := PressureVictims(cfg, m, n), ByActivity(m.positions)[n];
    PressureVictimsAreShed(cfg, m, n);
    RemoveSize(m.positions, gone);
    if positions.Size() <= PressureCap(cfg) {
      ShedEnough(cfg, m, n, m.positions.Size());
    } else {
      NextNotGone(cfg, m, n);
      DropOneMore(positions, total, m, gone, KeyOf(p));
    }
  }

  lemma NextNotGone(cfg: Config, m: Model, n: nat)
    requires Invariant(m) && n < m.positions.Size() == |ByActivity(m.positions)|
    ensures KeyOf(ByActivity(m.positions)[n]) !in PressureVictims(cfg, m, n)
  {
    hide PositionOk, ByActivity, PressureVictims;
    ActivityOrder(m.positions, m.reserves);
    ShedAreEarlier(cfg, m, n);
  }

  lemma {:induction false} ShedAreEarlier(cfg: Config, m: Model, n: nat)
    requires n <= m.positions.Size()
    ensures n <= |ByActivity(m.positions)| && PressureVictims(cfg, m, n) <= KeysOf(ByActivity(m.positions)[..n])
  {
    hide Sheddable, ByActivity, KeysOf;
    ByActivityLength(m.positions);
    if n > 0 {
      ShedAreEarlier(cfg, m, n - 1);
      KeysOfStep(ByActivity(m.positions), n - 1);
    }
  }

  /** Once the size is down to the pressure cap nothing more is shed. */
  lemma {:induction false} ShedEnough(cfg: Config, m: Model, n: nat, all: nat)
    requires n <= all <= m.positions.Size()
    requires m.positions.Size() - |PressureVictims(cfg, m, n)| <= PressureCap(cfg)
    ensures PressureVictims(cfg, m, all) == PressureVictims(cfg, m, n)
  {
    hide Sheddable, ByActivity, PressureCap;
    if n < all {
      ShedEnough(cfg, m, n, all - 1);
      assert m.positions.Size() - |PressureVictims(cfg, m, all - 1)| <= PressureCap(cfg);
    }
  }

  lemma AccountsStep(changes: seq<TierChange>, c: TierChange)
    ensures AccountsOf(changes + [c]) == AccountsOf(changes) + {Lower(c.account)}
  {
    forall a ensures a in AccountsOf(changes + [c]) <==> a in AccountsOf(changes) || a == Lower(c.account) {
      if a in AccountsOf(changes) {
        var x :| x in changes && Lower(x.account) == a;
        assert x in changes + [c];
      }
      if a == Lower(c.account) {
        assert c in changes + [c];
      }
    }
  }

  /** A cache within its cap has no excess to evict. */
  lemma NoExcess(cfg: Config, m: Model)
    requires m.positions.Size() <= cfg.hardCap
    ensures Evicted(m, CapVictims(cfg, m)) == m
  {
    hide ByActivity;
    assert CapVictims(cfg, m) == {};
    RemoveNothing(m.positions);
  }

  lemma NothingShed(cfg: Config, m: Model)
    ensures PressureVictims(cfg, m, 0) == {}
  {
  }

  lemma ByActivityLength(m: OMap<UserPosition>)
    ensures |ByActivity(m)| == m.Size()
  {
  }

  lemma PressureIsTwoSteps(cfg: Config, m: Model, block: int)
    requires Invariant(m)
    ensures Invariant(Evicted(m, PressureVictims(cfg, m, m.positions.Size())))
    ensures AfterPressure(cfg, m, block)
              == WithoutInactive(cfg, Evicted(m, PressureVictims(cfg, m, m.positions.Size())), block)
  {
    EvictedOk(m, PressureVictims(cfg, m, m.positions.Size()));
  }

  // ----- what a pool event and a snapshot do to one position -----

  lemma SetTwice(m: OMap<UserPosition>, k: string, p: UserPosition, q: UserPosition)
    ensures m.Set(k, p).Set(k, q) == m.Set(k, q)
  {
    assert m.at[k := p][k := q] == m.at[k := q];
  }

  /** Judging one's own position: what is stored, and that judging it again says the same. */
  lemma OwnResult(o: Oracle, m: Model, key: string, nowSec: int)
    requires key in m.positions.at
    ensures var after, own := AfterRecomputeHf(o, m, nowSec), AfterOwnRecompute(o, m, key, nowSec);
            var r := HfOf(o, after, m.positions.at[key], nowSec);
            && key in after.positions.at && key in own.positions.at
            && own == after.(positions := after.positions.Set(key, Commit(after.positions.at[key], r)))
            && HfOf(o, own, own.positions.at[key], nowSec) == r
  {
    hide HfOf, Commit, AfterRecomputeHf;
    var after := AfterRecomputeHf(o, m, nowSec);
    RecomputedBalances(o, m, key, nowSec);
    HfSame(o, after, m.positions.at[key], after, after.positions.at[key], nowSec);
    var own := AfterOwnRecompute(o, m, key, nowSec);
    CommittedAgain(o, after, own, after.positions.at[key], nowSec);
  }

  /** The same rows, written before more reserves are registered. */
  lemma {:induction false} RowsEarly(r: Reserves, more: Reserves, p: UserPosition, rows: seq<ReserveRow>)
    requires forall k :: k in r ==> k in more && more[k] == r[k]
    requires forall i :: 0 <= i < |rows| ==> Lower(rows[i].asset) in r
    ensures WithRows(more, p, rows) == WithRows(r, p, rows)
  {
    if rows != [] {
      RowsEarly(r, more, p, rows[..|rows| - 1]);
    }
  }

  /** Registering one reserve and writing its row after the rows before it. */
  lemma RowStep(m: Model, p: UserPosition, rows: seq<ReserveRow>, i: nat)
    requires Invariant(m) && i < |rows|
    ensures var before, after := WithReserves(m, rows[..i]), WithReserves(m, rows[..i + 1]);
            && after == WithReserve(before, rows[i].asset, BASE_LT_BPS)
            && Lower(rows[i].asset) in after.reserves
            && WithRows(after.reserves, p, rows[..i + 1])
               == WithRow(after.reserves, WithRows(before.reserves, p, rows[..i]), rows[i])
  {
    hide Invariant, WithReserve, WithRow;
    assert rows[..i + 1][..i] == rows[..i];
    var before := WithReserves(m, rows[..i]);
    WithReservesOk(m, rows[..i]);
    WithReserveOk(before, rows[i].asset, BASE_LT_BPS);
    forall j | 0 <= j < i ensures Lower(rows[..i][j].asset) in before.reserves {
    }
    RowsEarly(before.reserves, WithReserves(m, rows[..i + 1]).reserves, p, rows[..i]);
  }

  lemma SeededOk(m: Model, s: Snapshot)
    requires Invariant(m)
    ensures Invariant(WithSeed(m, s))
    ensures WithReserves(m, s.reserves).positions == m.positions
    ensures WithSeed(m, s) == WithReserves(m, s.reserves).(positions := m.positions.Set(Lower(s.account),
              SeededPosition(WithReserves(m, s.reserves).reserves, GetOrCreate(m, s.account, s.block), s)))
  {
    hide Invariant, SeededPosition;
    WithSeedOk(m, s);
    WithReservesOk(m, s.reserves);
  }

  lemma ConfirmedHf(c: Confirmation)
    ensures KnownHf(c.healthFactor, c.collateralBase, c.debtBase, c.threshold)
            == if c.healthFactor > 0 then c.healthFactor
               else CalculateHealthFactor(c.collateralBase, c.debtBase, c.threshold)
  {
  }

  lemma RegisterKeepsPositions(m: Model, asset: Address)
    ensures WithReserve(m, asset, BASE_LT_BPS).positions == m.positions
  {
  }

  /** Registering a reserve does not depend on the positions. */
  lemma RegisterElsewhere(m: Model, asset: Address, positions: OMap<UserPosition>)
    ensures WithReserve(m.(positions := positions), asset, BASE_LT_BPS)
            == WithReserve(m, asset, BASE_LT_BPS).(positions := positions)
  {
  }

  function LowerOption(a: Option<Address>): Option<string> {
    if a.Some? then Some(Lower(a.value)) else None
  }

  lemma RecomputeUnpriced(o: Oracle, m: Model, nowSec: int)
    ensures !m.bootstrapped ==> AfterRecomputeHf(o, m, nowSec) == m
  {
    hide CommitAll, Normalized;
  }

  /** After a recomputation a priced peg equals its resolvable reference. */
  lemma RecomputedIsAligned(o: Oracle, m: Model, nowSec: int)
    requires PegsOk(o.pegs) && m.bootstrapped
    ensures !PegMismatched(o, AfterRecomputeHf(o, m, nowSec))
  {
    hide CommitAll, Normalized;
    var n, keys := Normalized(o, m, nowSec), PegKeys(o, m);
    NormalizedIsAligned(o, m, nowSec);
    CommitAllMarket(o, n, keys, nowSec);
    NormalizedOfCommits(o, CommitAll(o, n, keys, nowSec), n, nowSec);
  }

  lemma RecomputeBootstrapped(o: Oracle, m: Model, nowSec: int)
    ensures AfterRecomputeHf(o, m, nowSec).bootstrapped == m.bootstrapped
  {
    hide CommitAll, Normalized;
    NormalizedKeeps(o, m, nowSec);
    CommitAllMarket(o, Normalized(o, m, nowSec), PegKeys(o, m), nowSec);
  }

  lemma JudgedNothing(o: Oracle, m: Model, nowSec: int)
    ensures Judged(o, m, {}, nowSec) == m
  {
  }

  lemma JudgedAll(o: Oracle, m: Model, asset: string, nowSec: int)
    ensures Judged(o, m, TouchedKeys(m, asset), nowSec) == AfterRecompute(o, m, asset, nowSec)
  {
    hide CommitAll, Normalized;
  }

  /** Judging keeps every position in place, with its balances. */
  lemma JudgedKeeps(o: Oracle, m: Model, seen: set<string>, k: string, nowSec: int)
    requires k in m.positions.at
    ensures var s := Judged(o, m, seen, nowSec);
            && s.positions.keys == m.positions.keys && k in s.positions.at
            && SameBalances(s.positions.at[k], m.positions.at[k])
            && s.positions.at[k].seeded == m.positions.at[k].seeded
  {
    hide HfOf, Normalized, Commit;
    NormalizedKeeps(o, m, nowSec);
    CommitKeepsBalances(m.positions.at[k], HfOf(o, Normalized(o, m, nowSec), m.positions.at[k], nowSec));
  }

  /** The step of a recomputation's loop at a position: the one it sees is a holder of the asset exactly
      when it was at the start, and what it computes and stores judges one more key. */
  lemma JudgeStep(o: Oracle, m: Model, seen: set<string>, k: string, asset: string, nowSec: int)
    requires PegsOk(o.pegs) && k in m.positions.at
    ensures var s := Judged(o, m, seen, nowSec);
            var after := AfterRecomputeHf(o, s, nowSec);
            && PegRank(o, s) <= PegRank(o, m)
            && k in s.positions.at && Touched(s.positions.at[k], asset) == Touched(m.positions.at[k], asset)
            && k in after.positions.at
            && HfOf(o, after, s.positions.at[k], nowSec) == HfOf(o, Normalized(o, m, nowSec), m.positions.at[k], nowSec)
            && after.(positions := after.positions.Set(k,
                 Commit(after.positions.at[k], HfOf(o, after, s.positions.at[k], nowSec))))
                   == Judged(o, m, seen + {k}, nowSec)
            && (Numeric(HfOf(o, after, s.positions.at[k], nowSec)) ==> m.bootstrapped)
            && (m.bootstrapped ==>
                  Commit(after.positions.at[k], HfOf(o, after, s.positions.at[k], nowSec))
                  == Committed(o, Normalized(o, m, nowSec), m.positions.at[k], nowSec))
  {
    hide HfOf, Commit, CommitAll, Normalized, AfterRecomputeHf, Judged, PegRank;
    var s := Judged(o, m, seen, nowSec);
    var after := AfterRecomputeHf(o, s, nowSec);
    JudgingKeepsRank(o, m, seen, nowSec);
    JudgedKeeps(o, m, seen, k, nowSec);
    JudgeOneMore(o, m, seen, k, nowSec);
    RecomputedBalances(o, s, k, nowSec);
    UnpricedIsNotNumeric(o, m, m.positions.at[k], nowSec);
    HfSame(o, after, s.positions.at[k], after, after.positions.at[k], nowSec);
  }

  lemma UnpricedIsNotNumeric(o: Oracle, m: Model, p: UserPosition, nowSec: int)
    ensures Numeric(HfOf(o, Normalized(o, m, nowSec), p, nowSec)) ==> m.bootstrapped
  {
    hide Normalized;
    NormalizedKeeps(o, m, nowSec);
  }

  lemma RecomputedBalances(o: Oracle, m: Model, k: string, nowSec: int)
    requires k in m.positions.at
    ensures k in AfterRecomputeHf(o, m, nowSec).positions.at
    ensures SameBalances(AfterRecomputeHf(o, m, nowSec).positions.at[k], m.positions.at[k])
  {
    hide HfOf, Normalized, Commit;
    NormalizedKeeps(o, m, nowSec);
    CommitKeepsBalances(m.positions.at[k], HfOf(o, Normalized(o, m, nowSec), m.positions.at[k], nowSec));
  }

  lemma NoChangesYet(cfg: Config, m: Model, keys: seq<string>, asset: string, nowSec: int)
    ensures keys[..0] == [] && ChangesAmong(cfg, m, [], asset, nowSec) == []
  {
  }

  lemma StoredValid(m: Model)
    requires Invariant(m)
    ensures m.positions.Valid()
  {
  }

  /** Writing the bonus at once is registering the reserve first. */
  lemma BonusAtOnce(m: Model, asset: Address, bonus: Option<nat>)
    ensures WithBonus(m, asset, bonus).reserves
            == m.reserves[Lower(asset) :=
               (if Lower(asset) in m.reserves then m.reserves[Lower(asset)] else FreshReserve)
                                            .(liquidationBonus := bonus)]
  {
  }

  lemma BonusOnlyReserves(m: Model, asset: Address, bonus: Option<nat>)
    ensures WithBonus(m, asset, bonus) == m.(reserves := WithBonus(m, asset, bonus).reserves)
  {
  }

  lemma NothingExported(m: OMap<UserPosition>, keys: seq<string>)
    ensures ExportAll(m, ExportedKeys(m, keys[..0])) == []
  {
  }

  lemma ExportStep(m: OMap<UserPosition>, keys: seq<string>, i: nat)
    requires i < |keys| && keys[i] in m.at
    ensures ExportAll(m, ExportedKeys(m, keys[..i + 1]))
            == ExportAll(m, ExportedKeys(m, keys[..i]))
               + if Exportable(m.at[keys[i]]) then [ExportPosition(m.at[keys[i]])] else []
  {
    hide ExportPosition;
    assert keys[..i + 1][..i] == keys[..i];
    var before := ExportedKeys(m, keys[..i]);
    assert (before + [keys[i]])[..|before|] == before;
  }

  class LocalPositionModel {
    const cfg: Config
    var positions: OMap<UserPosition>
    var prices: Prices
    var feedStates: Feeds
    var reserveConfig: Reserves
    var evictionTotal: nat
    var pricesBootstrapped: bool

    ghost function State(): Model
      reads this
    {
      Model(positions, prices, feedStates, reserveConfig, evictionTotal, pricesBootstrapped)
    }

    ghost predicate Valid()
      reads this
    {
      Invariant(State()) && PegsOk(cfg.oracle.pegs)
    }

    constructor (cfg: Config)
      requires PegsOk(cfg.oracle.pegs)
      ensures Valid() && State() == NewModel && this.cfg == cfg
    {
      this.cfg := cfg;
      positions, prices, feedStates, reserveConfig := Empty(), map[], map[], map[];
      evictionTotal, pricesBootstrapped := 0, false;
      new;
      NewModelOk();
    }

    // ----- registration -----

    method MarkPricesBootstrapped()
      requires Valid()
      modifies `pricesBootstrapped
      ensures Valid() && State() == Apply(cfg, old(State()), MarkBootstrapped)
    {
      pricesBootstrapped := true;
    }

    method RegisterPriceFeed(asset: Address, initialPrice: int)
      requires Valid()
      modifies `prices
      ensures Valid() && State() == WithPrice(old(State()), asset, initialPrice, None)
    {
      prices := prices[Lower(asset) := initialPrice];
    }

    method RegisterBootstrapPrice(asset: Address, normalizedPrice: int, state: FeedState)
      requires Valid()
      modifies `prices, `feedStates
      ensures Valid() && State() == WithPrice(old(State()), asset, normalizedPrice, Some(state))
    {
      prices := prices[Lower(asset) := normalizedPrice];
      feedStates := feedStates[Lower(asset) := state];
    }

    method RegisterReserve(asset: Address, thresholdBps: nat)
      requires Valid()
      modifies `reserveConfig
      ensures Valid() && State() == WithReserve(old(State()), asset, thresholdBps)
    {
      WithReserveOk(State(), asset, thresholdBps);
      if Lower(asset) !in reserveConfig {
        reserveConfig := reserveConfig[Lower(asset) := FreshReserve.(thresholdBps := thresholdBps)];
      }
    }

    method SetReserveLiquidationBonus(asset: Address, bonus: Option<nat>)
      requires Valid()
      modifies `reserveConfig
      ensures Valid() && State() == WithBonus(old(State()), asset, bonus)
    {
      hide WithBonus, Invariant;
      BonusOk(State(), asset, bonus);
      BonusAtOnce(State(), asset, bonus);
      BonusOnlyReserves(State(), asset, bonus);
      var key := Lower(asset);
      if key !in reserveConfig {
        reserveConfig := reserveConfig[key := FreshReserve.(liquidationBonus := bonus)];
      } else {
        reserveConfig := reserveConfig[key := reserveConfig[key].(liquidationBonus := bonus)];
      }
    }

    method RemovePosition(account: Address)
      requires Valid()
      modifies `positions
      ensures Valid() && State() == Apply(cfg, old(State()), Operation.RemovePosition(account))
    {
      StoreRemove(positions, reserveConfig, {Lower(account)});
      positions := positions.Delete(Lower(account));
    }

    // ----- health factors -----

    method CollectPositionAssets(p: UserPosition) returns (assets: seq<string>)
      ensures assets == PositiveKeys(p.collateral, p.collateral.keys) + PositiveKeys(p.debt, p.debt.keys)
    {
      assets := [];
      var keys := p.collateral.keys;
      for i := 0 to |keys|
        invariant assets == PositiveKeys(p.collateral, keys[..i])
      {
        assert keys[..i + 1][..i] == keys[..i];
        if AmountOf(p.collateral, keys[i]) > 0 {
          assets := assets + [keys[i]];
        }
      }
      assert keys[..|keys|] == keys;
      keys := p.debt.keys;
      for i := 0 to |keys|
        invariant assets == PositiveKeys(p.collateral, p.collateral.keys) + PositiveKeys(p.debt, keys[..i])
      {
        assert keys[..i + 1][..i] == keys[..i];
        if AmountOf(p.debt, keys[i]) > 0 {
          assets := assets + [keys[i]];
        }
      }
      assert keys[..|keys|] == keys;
    }

    method CollectMissingPriceAssets(p: UserPosition, nowSec: int) returns (missing: seq<string>)
      ensures missing == MissingAmong(cfg.oracle, State(), p, AssetKeys(p), nowSec)
    {
      hide EffectivePrice, AssetKeys;
      missing := [];
      var keys := AssetKeys(p);
      for i := 0 to |keys|
        invariant missing == MissingAmong(cfg.oracle, State(), p, keys[..i], nowSec)
      {
        assert keys[..i + 1][..i] == keys[..i];
        if AmountOf(p.collateral, keys[i]) == 0 && AmountOf(p.debt, keys[i]) == 0 {
          continue;
        }
        if EffectivePrice(cfg.oracle, keys[i], prices, feedStates, nowSec).Some? {
          continue;
        }
        missing := missing + [keys[i]];
      }
      assert keys[..|keys|] == keys;
    }

    method CollectStalePriceAssets(p: UserPosition, nowSec: int) returns (stale: seq<string>)
      ensures stale == StaleAmong(cfg.oracle, State(), p, AssetKeys(p), nowSec)
    {
      hide IsStale, AssetKeys;
      stale := [];
      var keys := AssetKeys(p);
      for i := 0 to |keys|
        invariant stale == StaleAmong(cfg.oracle, State(), p, keys[..i], nowSec)
      {
        assert keys[..i + 1][..i] == keys[..i];
        if AmountOf(p.collateral, keys[i]) == 0 && AmountOf(p.debt, keys[i]) == 0 {
          continue;
        }
        if keys[i] !in feedStates {
          continue;
        }
        if IsStale(cfg.oracle, feedStates[keys[i]], nowSec) {
          stale := stale + [keys[i]];
        }
      }
      assert keys[..|keys|] == keys;
    }

    method SumCollateral(p: UserPosition, nowSec: int) returns (weightedCollateral: nat)
      ensures weightedCollateral == CollateralSum(cfg.oracle, State(), p, p.collateral.keys, nowSec)
    {
      hide EffectivePrice, Scale, Weighted;
      weightedCollateral := 0;
      var keys := p.collateral.keys;
      for i := 0 to |keys|
        invariant weightedCollateral == CollateralSum(cfg.oracle, State(), p, keys[..i], nowSec)
      {
        var key := keys[i];
        assert keys[..i + 1][..i] == keys[..i];
        var price := EffectivePrice(cfg.oracle, key, prices, feedStates, nowSec);
        if key !in reserveConfig || price.None? || AmountOf(p.collateral, key) == 0 {
          continue;
        }
        var reserve := reserveConfig[key];
        var scaled := Scale(AmountOf(p.collateral, key), IndexAt(p.collateralIndex, key), reserve.liquidityIndex);
        weightedCollateral := weightedCollateral + Weighted(scaled, price.value, reserve.thresholdBps);
      }
      assert keys[..|keys|] == keys;
    }

    method SumDebt(p: UserPosition, nowSec: int) returns (totalDebt: nat)
      ensures totalDebt == DebtSum(cfg.oracle, State(), p, p.debt.keys, nowSec)
    {
      hide EffectivePrice, Scale;
      totalDebt := 0;
      var keys := p.debt.keys;
      for i := 0 to |keys|
        invariant totalDebt == DebtSum(cfg.oracle, State(), p, keys[..i], nowSec)
      {
        var key := keys[i];
        assert keys[..i + 1][..i] == keys[..i];
        var price := EffectivePrice(cfg.oracle, key, prices, feedStates, nowSec);
        if key !in reserveConfig || price.None? || AmountOf(p.debt, key) == 0 {
          continue;
        }
        var scaled := Scale(AmountOf(p.debt, key), IndexAt(p.debtIndex, key), reserveConfig[key].borrowIndex);
        totalDebt := totalDebt + scaled * price.value;
      }
      assert keys[..|keys|] == keys;
    }

    method MaterializeHealthyPegPrices(nowSec: int)
      requires Valid()
      modifies `prices, `feedStates
      ensures Valid() && State() == Materialized(cfg.oracle, old(State()), nowSec)
    {
      var pegs := cfg.oracle.pegs;
      if !RelaxesForHealthyPeg(cfg.oracle, pegs.usdbc, prices, feedStates, nowSec) {
        return;
      }
      var pegPrice := prices[pegs.usdc];
      if pegs.usdbc in prices && prices[pegs.usdbc] == pegPrice {
        return;
      }
      var updatedAt := if pegs.usdc in feedStates then feedStates[pegs.usdc].updatedAt else nowSec;
      RegisterBootstrapPrice(pegs.usdbc, pegPrice, PegState(cfg.oracle, pegPrice, updatedAt));
    }

    /** The priced assets that follow a reference, found by a scan of all prices. */
    method PricedPegs() returns (pegAssets: seq<string>)
      ensures pegAssets == if cfg.oracle.pegs.usdbc in prices then [cfg.oracle.pegs.usdbc] else []
    {
      pegAssets := [];
      var rest := prices.Keys;
      while rest != {}
        invariant rest <= prices.Keys
        invariant pegAssets == if cfg.oracle.pegs.usdbc in prices.Keys - rest then [cfg.oracle.pegs.usdbc] else []
      {
        var key :| key in rest;
        if PegReference(cfg.oracle, key).Some? {
          pegAssets := pegAssets + [key];
        }
        rest := rest - {key};
      }
    }

    /** Keeps the peg aligned with its reference. Registering the peg before recomputing is what ends
        the recursion: afterwards the peg is not off, and no reference is itself pegged. */
    method SyncDerivedPegPrices(nowSec: int, updatedReference: Option<Address>) returns (changes: seq<TierChange>)
      requires Valid()
      modifies `positions, `prices, `feedStates
      ensures Valid()
      ensures State() == AfterSync(cfg.oracle, old(State()), LowerOption(updatedReference), nowSec)
      ensures changes == SyncChanges(cfg, old(State()), LowerOption(updatedReference), nowSec)
      decreases PegRank(cfg.oracle, State()), 0
    {
      hide AfterRecompute, ChangesAmong, Stored;
      ghost var m := State();
      var o := cfg.oracle;
      var pegAssets;
      if updatedReference.Some? {
        pegAssets := PegAssetsDerivedFrom(o, Lower(updatedReference.value));
      } else {
        pegAssets := PricedPegs();
      }
      assert pegAssets == [] || pegAssets == [o.pegs.usdbc];
      changes := [];
      if pegAssets != [] {
        var pegPrice := ResolvePegPrice(o, pegAssets[0], prices);
        if pegPrice.Some? && !(pegAssets[0] in prices && prices[pegAssets[0]] == pegPrice.value) {
          assert Syncs(o, m, LowerOption(updatedReference));
          RegisterBootstrapPrice(pegAssets[0], pegPrice.value, PegState(o, pegPrice.value, nowSec));
          assert State() == RegisterPeg(o, m, nowSec);
          changes := RecomputeTierChangesForAsset(pegAssets[0], nowSec);
        }
      }
    }

    method RecomputeHf(p: UserPosition, nowSec: int) returns (r: HfResult)
      requires Valid()
      modifies `positions, `prices, `feedStates
      ensures Valid()
      ensures State() == AfterRecomputeHf(cfg.oracle, old(State()), nowSec)
      ensures r == HfOf(cfg.oracle, State(), p, nowSec)
      // nothing is summed while a priced peg differs from its resolvable reference
      ensures pricesBootstrapped ==> !PegMismatched(cfg.oracle, State())
      decreases PegRank(cfg.oracle, State()), 1
    {
      hide AfterSync, SyncChanges, Materialized, AfterRecomputeHf, MissingAmong, StaleAmong, CollateralSum, DebtSum,
        Stored;
      ghost var m := State();
      if !pricesBootstrapped {
        RecomputeUnpriced(cfg.oracle, m, nowSec);
        var assets := CollectPositionAssets(p);
        return PriceIncomplete(assets);
      }
      var _ := SyncDerivedPegPrices(nowSec, None);
      MaterializeHealthyPegPrices(nowSec);
      RecomputeInTwoSteps(cfg.oracle, m, nowSec);
      RecomputeBootstrapped(cfg.oracle, m, nowSec);
      RecomputedIsAligned(cfg.oracle, m, nowSec);
      var missing := CollectMissingPriceAssets(p, nowSec);
      if missing != [] {
        return PriceIncomplete(missing);
      }
      var stale := CollectStalePriceAssets(p, nowSec);
      if stale != [] {
        return PriceStale(stale);
      }
      var weightedCollateral := SumCollateral(p, nowSec);
      var totalDebt := SumDebt(p, nowSec);
      if totalDebt == 0 {
        return NoDebt;
      }
      return HfOk(weightedCollateral * WAD / totalDebt);
    }

    method CommitHfFromRecompute(key: string, r: HfResult) returns (committed: bool)
      requires Valid() && key in positions.at
      modifies `positions
      ensures Valid() && committed == Numeric(r)
      ensures State() == old(State()).(positions := old(positions).Set(key, Commit(old(positions).at[key], r)))
    {
      hide PositionOk, ResolveHf;
      var p := positions.at[key];
      var effective := ResolveHf(p, r);
      CommitOk(p, reserveConfig, r);
      StoreSet(positions, reserveConfig, Commit(p, r));
      SetSame(positions, key);
      committed := effective.Some?;
      if committed {
        positions := positions.Set(key, p.(cachedHf := effective.value));
      }
    }

    method RecomputeTierChangesForAsset(asset: Address, nowSec: int) returns (changes: seq<TierChange>)
      requires Valid()
      modifies `positions, `prices, `feedStates
      ensures Valid()
      ensures State() == AfterRecompute(cfg.oracle, old(State()), Lower(asset), nowSec)
      ensures changes == RecomputeChanges(cfg, old(State()), Lower(asset), nowSec)
      decreases PegRank(cfg.oracle, State()), 2
    {
      hide HfOf, Commit, Normalized, CommitAll, AfterRecomputeHf, ChangesAmong, Stored, PegRank, Judged;
      ghost var m := State();
      var o, key := cfg.oracle, Lower(asset);
      var keys := positions.keys;
      changes := [];
      ghost var seen: set<string> := {};
      JudgedNothing(o, m, nowSec);
      StoredValid(m);
      NoChangesYet(cfg, m, keys, key, nowSec);
      for i := 0 to |keys|
        invariant Valid() && State() == Judged(o, m, seen, nowSec)
        invariant seen == TouchedAmong(m, keys[..i], key)
        invariant forall k :: k in keys[..i] ==> k in m.positions.at
        invariant changes == ChangesAmong(cfg, m, keys[..i], key, nowSec)
      {
        JudgeStep(o, m, seen, keys[i], key, nowSec);
        TouchedStep(m, keys, i, key);
        ChangesStep(cfg, m, keys, i, key, nowSec);
        var p := positions.at[keys[i]];
        if !(p.seeded && Holds(p, key)) {
          continue;
        }
        var result := RecomputeHf(p, nowSec);
        var committed := CommitHfFromRecompute(keys[i], result);
        seen := seen + {keys[i]};
        if committed {
          changes := changes + [ToTierChange(cfg, positions.at[keys[i]], false)];
        }
      }
      AllTouched(m, key);
      JudgedAll(o, m, key, nowSec);
    }

    // ----- prices -----

    method ApplyFeedPriceUpdate(asset: Address, feed: Address, answer: int, decimals: int, updatedAtSec: int)
      returns (changes: seq<TierChange>)
      requires Valid()
      modifies `positions, `prices, `feedStates
      ensures Valid()
      ensures State() == AfterFeedUpdate(cfg, old(State()), asset, feed, answer, decimals, updatedAtSec)
      ensures changes == FeedUpdateChanges(cfg, old(State()), asset, feed, answer, decimals, updatedAtSec)
    {
      hide AfterRecompute, AfterSync, ChangesAmong, Stored;
      if answer <= 0 || decimals > 18 {
        return [];
      }
      var normalizedPrice := answer * Pow10(18 - decimals);
      RegisterBootstrapPrice(asset, normalizedPrice, FeedState(answer, decimals, updatedAtSec, feed, asset, None));
      StoredValid(old(State()));
      ghost var priced := WithFeedPrice(old(State()), asset, feed, answer, decimals, updatedAtSec);
      assert State() == priced;
      var pegChanges := SyncDerivedPegPrices(updatedAtSec, Some(asset));
      assert pegChanges == SyncChanges(cfg, priced, Some(Lower(asset)), updatedAtSec);
      ghost var synced := State();
      StoredValid(synced);
      var directChanges := RecomputeTierChangesForAsset(asset, updatedAtSec);
      assert directChanges == RecomputeChanges(cfg, synced, Lower(asset), updatedAtSec);
      assert FeedUpdateChanges(cfg, old(State()), asset, feed, answer, decimals, updatedAtSec)
          == MergedChanges(directChanges, pegChanges);
      if pegChanges == [] {
        return directChanges;
      }
      changes := MergeChanges(directChanges, pegChanges);
    }

    /** The second list's changes of accounts not yet in the first. */
    method MergeChanges(directChanges: seq<TierChange>, pegChanges: seq<TierChange>) returns (changes: seq<TierChange>)
      ensures changes == MergedChanges(directChanges, pegChanges)
    {
      changes := directChanges;
      var seen := AccountsOf(changes);
      for i := 0 to |pegChanges|
        invariant changes == MergedChanges(directChanges, pegChanges[..i]) && seen == AccountsOf(changes)
      {
        var change := pegChanges[i];
        assert pegChanges[..i + 1][..i] == pegChanges[..i];
        if Lower(change.account) !in seen {
          AccountsStep(changes, change);
          changes := changes + [change];
          seen := seen + {Lower(change.account)};
        }
      }
      assert pegChanges[..|pegChanges|] == pegChanges;
    }

    /** A price event has the decimals of its feed, or 8. */
    method ApplyPriceEvent(asset: Address, feed: Address, price: int,
        updatedAtSec: int) returns (changes: seq<TierChange>)
      requires Valid()
      modifies `positions, `prices, `feedStates
      ensures Valid()
      ensures var decimals := if Lower(asset) in old(feedStates) then old(feedStates)[Lower(asset)].decimals else 8;
              && State() == AfterFeedUpdate(cfg, old(State()), asset, feed, price, decimals, updatedAtSec)
              && changes == FeedUpdateChanges(cfg, old(State()), asset, feed, price, decimals, updatedAtSec)
    {
      hide AfterFeedUpdate, FeedUpdateChanges, Stored;
      var decimals := if Lower(asset) in feedStates then feedStates[Lower(asset)].decimals else 8;
      changes := ApplyFeedPriceUpdate(asset, feed, price, decimals, updatedAtSec);
    }

    // ----- eviction -----

    method EvictInactiveHealthy(block: int)
      requires Valid()
      modifies `positions, `evictionTotal
      ensures Valid() && State() == WithoutInactive(cfg, old(State()), block)
    {
      hide Stored, InactiveHealthy;
      hide Dropped, InactiveAmong, Evicted;
      ghost var m := State();
      var keys := positions.keys;
      StoredValid(m);
      AllInactive(cfg, m, block);
      DroppedIsEvicted(m);
      EvictedOk(m, InactiveVictims(cfg, m, block));
      for i := 0 to |keys|
        invariant State() == m.(positions := positions, evictionTotal := evictionTotal)
        invariant Dropped(positions, evictionTotal, m, InactiveAmong(cfg, m, keys[..i], block))
      {
        InactiveStep(cfg, m, positions, evictionTotal, i, block);
        if InactiveHealthy(cfg, positions.at[keys[i]], block) {
          positions := positions.Delete(keys[i]);
          evictionTotal := evictionTotal + 1;
        }
      }
    }

    method EnforceHardCap(block: int)
      requires Valid()
      modifies `positions, `evictionTotal
      ensures Valid() && State() == HardCapped(cfg, old(State()), block)
    {
      hide Stored, ByActivity, WithoutInactive, WithoutOldest;
      ghost var m := State();
      EvictedOk(m, CapVictims(cfg, m));
      if positions.Size() <= cfg.hardCap {
        NoExcess(cfg, m);
        EvictInactiveHealthy(block);
        return;
      }
      var sorted := ByActivity(positions);
      ghost var n := 0;
      OldestGone(m, 0);
      while positions.Size() > cfg.hardCap && |sorted| > 0
        invariant n <= m.positions.Size() - cfg.hardCap && |ByActivity(m.positions)| == m.positions.Size()
        invariant sorted == ByActivity(m.positions)[n..]
        invariant positions == WithoutOldest(m, n)
        invariant positions.Size() == m.positions.Size() - n && evictionTotal == m.evictionTotal + n
        decreases |sorted|
      {
        var victim := sorted[0];
        OldestGone(m, n + 1);
        sorted := sorted[1..];
        positions := positions.Delete(KeyOf(victim));
        evictionTotal := evictionTotal + 1;
        n := n + 1;
      }
      AllOldestGone(cfg, m);
      assert State() == Evicted(m, CapVictims(cfg, m));
      hide Evicted, CapVictims;
      EvictInactiveHealthy(block);
    }

    method EvictUnderMemoryPressure(block: int) returns (removed: int)
      requires Valid()
      modifies `positions, `evictionTotal
      ensures Valid() && State() == AfterPressure(cfg, old(State()), block)
      ensures removed == old(positions).Size() - positions.Size() == evictionTotal - old(evictionTotal)
    {
      hide Stored, ByActivity, WithoutInactive, PressureVictims, AfterPressure, Dropped, Evicted;
      ghost var m := State();
      var startSize := positions.Size();
      var pressureCap := PressureCap(cfg);
      var sorted := ByActivity(positions);
      ByActivityLength(m.positions);
      DroppedIsEvicted(m);
      NothingShed(cfg, m);
      PressureIsTwoSteps(cfg, m, block);
      PressureOutcome(cfg, m, block);
      ghost var n := 0;
      for i := 0 to |sorted|
        invariant State() == m.(positions := positions, evictionTotal := evictionTotal)
        invariant n == i && Dropped(positions, evictionTotal, m, PressureVictims(cfg, m, i))
      {
        ShedStep(cfg, m, positions, evictionTotal, i);
        if positions.Size() <= pressureCap {
          n := m.positions.Size();
          break;
        }
        n := i + 1;
        var p := sorted[i];
        var tier := ClassifyTier(cfg, p.cachedHf);
        if tier == Urgent || tier == Watch || tier == Liquidatable {
          continue;
        }
        if p.cachedHf < 3 * WAD / 2 {
          continue;
        }
        positions := positions.Delete(KeyOf(p));
        evictionTotal := evictionTotal + 1;
      }
      assert Dropped(positions, evictionTotal, m, PressureVictims(cfg, m, m.positions.Size()));
      EvictInactiveHealthy(block);
      removed := startSize - positions.Size();
    }

    // ----- confirmations and snapshots -----

    method FindOrCreate(account: Address, block: nat) returns (p: UserPosition)
      requires Valid()
      modifies `positions
      ensures Valid() && p == GetOrCreate(old(State()), account, block)
      ensures State() == old(State()).(positions := old(positions).Set(Lower(account), p))
    {
      hide PositionOk;
      GetOrCreateOk(State(), account, block);
      var key := Lower(account);
      if key in positions.at {
        p := positions.at[key];
        SetSame(positions, key);
      } else {
        p := NewPosition(account, block);
        StoreSet(positions, reserveConfig, p);
        positions := positions.Set(key, p);
      }
    }

    method ConfirmOnChain(c: Confirmation)
      requires Valid()
      modifies `positions
      ensures Valid() && State() == AfterConfirm(old(State()), c)
    {
      hide Stored, KnownHf;
      ghost var m := State();
      ConfirmOk(m, c);
      var p := FindOrCreate(c.account, c.block);
      ghost var found := p;
      p := p.(highConfidence := true, seeded := true);
      p := p.(lastConfirmedBlock := c.block, eMode := c.eMode);
      p := p.(lastCollateralBase := Some(c.collateralBase), lastDebtBase := Some(c.debtBase),
              lastThreshold := Some(c.threshold));
      if c.healthFactor > 0 {
        p := p.(cachedHf := c.healthFactor);
      } else {
        p := p.(cachedHf := CalculateHealthFactor(c.collateralBase, c.debtBase, c.threshold));
      }
      ConfirmedHf(c);
      SetTwice(m.positions, Lower(c.account), found, p);
      positions := positions.Set(Lower(c.account), p);
    }

    method SeedFromOnChainSnapshot(s: Snapshot)
      requires Valid()
      modifies `positions, `reserveConfig, `evictionTotal
      ensures Valid() && State() == AfterSeed(cfg, old(State()), s)
    {
      hide Stored, KnownHf, HardCapped, WithRow, WithReserve, PositionOk;
      ghost var m := State();
      SeededOk(m, s);
      var p := FindOrCreate(s.account, s.block);
      ghost var found := p;
      p := p.(collateral := Empty(), debt := Empty(), collateralIndex := map[], debtIndex := map[]);
      p := WriteRows(p, s, m, found);
      hide WithReserves, WithRows;
      p := p.(eMode := s.eMode, highConfidence := true, seeded := true);
      p := p.(lastConfirmedBlock := s.block, lastActivityBlock := s.block);
      p := p.(lastCollateralBase := Some(s.collateralBase), lastDebtBase := Some(s.debtBase),
              lastThreshold := Some(s.threshold));
      p := p.(cachedHf := KnownHf(s.healthFactor, s.collateralBase, s.debtBase, s.threshold));
      SetTwice(m.positions, Lower(s.account), found, p);
      positions := positions.Set(Lower(s.account), p);
      assert State() == WithSeed(m, s);
      EnforceHardCap(s.block);
    }

    /** Each row's reserve is registered, and its balances written. */
    method WriteRows(start: UserPosition, s: Snapshot, ghost m: Model, ghost found: UserPosition)
      returns (p: UserPosition)
      requires Valid() && Invariant(m) && start == Cleared(found)
      requires State() == m.(positions := m.positions.Set(Lower(s.account), found))
      modifies `reserveConfig
      ensures Valid() && p == WithRows(reserveConfig, Cleared(found), s.reserves)
      ensures State() == WithReserves(m, s.reserves).(positions := m.positions.Set(Lower(s.account), found))
    {
      hide Stored, WithRow, WithReserve, PositionOk;
      p := start;
      for i := 0 to |s.reserves|
        invariant Valid()
        invariant State() == WithReserves(m, s.reserves[..i]).(positions := m.positions.Set(Lower(s.account), found))
        invariant p == WithRows(reserveConfig, Cleared(found), s.reserves[..i])
      {
        var row := s.reserves[i];
        RowStep(m, Cleared(found), s.reserves, i);
        RegisterReserve(row.asset, BASE_LT_BPS);
        RegisterElsewhere(WithReserves(m, s.reserves[..i]), row.asset, m.positions.Set(Lower(s.account), found));
        p := WriteRow(p, row);
      }
      assert s.reserves[..|s.reserves|] == s.reserves;
    }

    /** The positive balances of a row, with the current indexes. */
    method WriteRow(p: UserPosition, row: ReserveRow) returns (q: UserPosition)
      ensures q == WithRow(reserveConfig, p, row)
    {
      var key := Lower(row.asset);
      q := p;
      if key !in reserveConfig {
        return;
      }
      if row.scaledCollateral > 0 {
        q := q.(collateral := q.collateral.Set(key, row.scaledCollateral));
        q := q.(collateralIndex := q.collateralIndex[key := reserveConfig[key].liquidityIndex]);
      }
      if row.scaledDebt > 0 {
        q := q.(debt := q.debt.Set(key, row.scaledDebt));
        q := q.(debtIndex := q.debtIndex[key := reserveConfig[key].borrowIndex]);
      }
    }

    // ----- pool events -----

    method ApplyReserveIndexUpdate(e: PoolEvent)
      requires Valid()
      modifies `reserveConfig
      ensures Valid() && State() == WithIndexes(old(State()), e)
    {
      var key := Lower(e.reserve);
      StoreMoreReserves(positions, reserveConfig, WithIndexes(State(), e).reserves);
      if key !in reserveConfig {
        return;
      }
      var reserve := reserveConfig[key];
      if e.liquidityIndex.Some? {
        reserve := reserve.(liquidityIndex := e.liquidityIndex.value);
      }
      if e.borrowIndex.Some? {
        reserve := reserve.(borrowIndex := e.borrowIndex.value);
      }
      reserveConfig := reserveConfig[key := reserve.(indexUpdatedAtBlock := e.block)];
    }

    /** The balances the event moves. */
    method Move(p: UserPosition, e: PoolEvent) returns (q: UserPosition)
      ensures q == Moved(reserveConfig, p, e)
    {
      hide AddCollateral, SubCollateral, AddDebt, SubDebt;
      var key := Lower(e.reserve);
      q := p;
      match e.name {
        case Supply =>
          if e.amount.Some? {
            q := AddCollateral(reserveConfig, q, key, e.amount.value);
          }
        case Withdraw =>
          if e.amount.Some? {
            q := SubCollateral(q, key, e.amount.value);
          }
        case Borrow =>
          if e.amount.Some? {
            q := AddDebt(reserveConfig, q, key, e.amount.value);
          }
        case Repay =>
          if e.amount.Some? {
            q := SubDebt(q, key, e.amount.value);
          }
        case LiquidationCall =>
          if e.debtToCover.Some? {
            q := SubDebt(q, Lower(OrElse(e.debtAsset, e.reserve)), e.debtToCover.value);
          }
          if e.liquidatedCollateral.Some? {
            q := SubCollateral(q, Lower(OrElse(e.collateralAsset, e.reserve)), e.liquidatedCollateral.value);
          }
        case ReserveDataUpdated =>
      }
    }

    method ApplyHfResult(key: string, isNew: bool, nowSec: int) returns (changes: seq<TierChange>)
      requires Valid() && key in positions.at
      modifies `positions, `prices, `feedStates
      ensures Valid() && State() == AfterOwnRecompute(cfg.oracle, old(State()), key, nowSec)
      ensures key in positions.at
      ensures changes == if Numeric(HfOf(cfg.oracle, State(), positions.at[key], nowSec))
                         then [ToTierChange(cfg, positions.at[key], isNew)] else []
    {
      hide HfOf, AfterRecomputeHf, AfterOwnRecompute, Stored, Commit;
      OwnResult(cfg.oracle, State(), key, nowSec);
      var result := RecomputeHf(positions.at[key], nowSec);
      var committed := CommitHfFromRecompute(key, result);
      changes := if committed then [ToTierChange(cfg, positions.at[key], isNew)] else [];
    }

    /** A user event up to its recomputation. */
    method MovePosition(account: Address, e: PoolEvent) returns (p: UserPosition)
      requires Valid()
      modifies `positions, `reserveConfig
      ensures Valid() && State() == WithMoved(old(State()), e, account)
      ensures Lower(account) in positions.at && p == positions.at[Lower(account)]
    {
      hide Stored, Moved, WithReserve;
      ghost var m := State();
      RegisterReserve(e.reserve, BASE_LT_BPS);
      ghost var registered := State();
      RegisterKeepsPositions(m, e.reserve);
      p := FindOrCreate(account, e.block);
      ghost var found := p;
      p := Move(p.(lastActivityBlock := e.block), e);
      WithMovedOk(m, e, account);
      SetTwice(registered.positions, Lower(account), found, p);
      positions := positions.Set(Lower(account), p);
    }

    method ApplyAaveEvent(e: PoolEvent, nowSec: int) returns (result: EventResult)
      requires Valid()
      modifies `positions, `prices, `feedStates, `reserveConfig, `evictionTotal
      ensures Valid() && State() == AfterEvent(cfg, old(State()), e, nowSec)
      ensures result == EventOutcome(cfg, old(State()), e, nowSec)
    {
      hide Stored, HardCapped, HfOf, AfterOwnRecompute, WithReserve, DebtFree, WithIndexes, WithMoved;
      if e.name == ReserveDataUpdated {
        RegisterReserve(e.reserve, BASE_LT_BPS);
        ApplyReserveIndexUpdate(e);
        return NoEventResult;
      }
      var account := ResolveUser(e);
      if account.None? {
        return NoEventResult;
      }
      var key := Lower(account.value);
      var isNew := key !in positions.at;
      if isNew && cfg.allowlist.Some? && Lower(e.reserve) !in cfg.allowlist.value {
        return NoEventResult;
      }
      var p := MovePosition(account.value, e);
      if e.name == LiquidationCall && DebtFree(p) {
        StoreRemove(positions, reserveConfig, {key});
        positions := positions.Delete(key);
        return NoEventResult;
      }
      if !p.seeded {
        EnforceHardCap(e.block);
        return EventResult([], account);
      }
      var changes := ApplyHfResult(key, isNew, nowSec);
      EnforceHardCap(e.block);
      result := EventResult(changes, None);
    }

    // ----- export -----

    static method ExportRows(p: UserPosition) returns (reserves: seq<ExportedReserve>)
      ensures reserves == ExportReserves(p, AssetKeys(p))
    {
      hide PrintInt, AssetKeys;
      reserves := [];
      var assetKeys := AssetKeys(p);
      for i := 0 to |assetKeys|
        invariant reserves == ExportReserves(p, assetKeys[..i])
      {
        assert assetKeys[..i + 1][..i] == assetKeys[..i];
        var collateral, debt := AmountOf(p.collateral, assetKeys[i]), AmountOf(p.debt, assetKeys[i]);
        if collateral == 0 && debt == 0 {
          continue;
        }
        reserves := reserves + [ExportedReserve(assetKeys[i], PrintInt(collateral), PrintInt(debt))];
      }
      assert assetKeys[..|assetKeys|] == assetKeys;
    }

    static method ExportRow(p: UserPosition) returns (row: ExportedPosition)
      ensures row == ExportPosition(p)
    {
      hide PrintInt, AssetKeys, ExportReserves;
      var reserves := ExportRows(p);
      row := ExportedPosition(p.account, p.eMode, PrintInt(p.cachedHf), PrintInt(OrElse(p.lastCollateralBase, 0)),
                              PrintInt(OrElse(p.lastDebtBase, 1)), PrintInt(OrElse(p.lastThreshold, 0)), reserves);
    }

    method ExportBootstrapSnapshots() returns (out: seq<ExportedPosition>)
      requires Valid()
      ensures out == Export(State())
    {
      hide ExportPosition, Invariant, PegsOk, ExportedKeys, ExportAll;
      out := [];
      var keys := positions.keys;
      StoredValid(State());
      NothingExported(positions, keys);
      for i := 0 to |keys|
        invariant out == ExportAll(positions, ExportedKeys(positions, keys[..i]))
      {
        ExportStep(positions, keys, i);
        var p := positions.at[keys[i]];
        if !p.seeded || p.debt.Size() == 0 {
          continue;
        }
        var row := ExportRow(p);
        out := out + [row];
      }
      assert keys[..|keys|] == keys;
    }
  }
}
