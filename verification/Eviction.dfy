// The size of the position cache: which positions the two eviction rules remove, and which they keep.

module Eviction {
  import opened Options
  import opened Text
  import opened Ordered
  import opened Positions
  import opened PositionModel
  import opened PositionRuns

  // ----- positions by activity -----

  lemma ValuesDistinct(m: OMap<UserPosition>, r: Reserves)
    requires Stored(m, r)
    ensures Distinct(Values(m))
    ensures forall p :: p in Values(m) <==> KeyOf(p) in m.at && m.at[KeyOf(p)] == p
  {
    hide PositionOk;
    var v := Values(m);
    forall i | 0 <= i < |v| ensures KeyOf(v[i]) == m.keys[i] {
      assert m.keys[i] in m.at;
    }
    forall p ensures p in v <==> KeyOf(p) in m.at && m.at[KeyOf(p)] == p {
      if KeyOf(p) in m.at && m.at[KeyOf(p)] == p {
        var i :| 0 <= i < |m.keys| && m.keys[i] == KeyOf(p);
        assert v[i] == p;
      }
    }
  }

  /** The positions in order of activity: all of them, once, with different keys. */
  lemma ActivityOrder(m: OMap<UserPosition>, r: Reserves)
    requires Stored(m, r)
    ensures var s := ByActivity(m);
            && |s| == m.Size() && Ascending(s, LastActivity)
            && (forall p :: p in s <==> KeyOf(p) in m.at && m.at[KeyOf(p)] == p)
            && (forall i, j :: 0 <= i < j < |s| ==> KeyOf(s[i]) != KeyOf(s[j]))
  {
    hide PositionOk, Values;
    var s := ByActivity(m);
    ValuesDistinct(m, r);
    SortByCorrect(Values(m), LastActivity);
    SortByMembers(Values(m), LastActivity);
    DistinctPermutes(Values(m), s);
    assert |Values(m)| == m.Size() by {
      ValuesLength(m);
    }
    forall i, j | 0 <= i < j < |s| ensures KeyOf(s[i]) != KeyOf(s[j]) {
      assert s[i] in s && s[j] in s;
    }
  }

  lemma ValuesLength(m: OMap<UserPosition>)
    ensures |Values(m)| == m.Size()
  {
  }

  lemma {:induction false} KeysOfDistinct(s: seq<UserPosition>)
    requires forall i, j :: 0 <= i < j < |s| ==> KeyOf(s[i]) != KeyOf(s[j])
    ensures |KeysOf(s)| == |s|
  {
    if s != [] {
      var front, last := s[..|s| - 1], s[|s| - 1];
      KeysOfDistinct(front);
      assert s == front + [last];
      KeysOfAppend(front, last);
    }
  }

  lemma KeysOfAppend(front: seq<UserPosition>, last: UserPosition)
    requires forall i :: 0 <= i < |front| ==> KeyOf(front[i]) != KeyOf(last)
    ensures KeysOf(front + [last]) == KeysOf(front) + {KeyOf(last)} && KeyOf(last) !in KeysOf(front)
  {
    forall k ensures k in KeysOf(front + [last]) <==> k in KeysOf(front) || k == KeyOf(last) {
      if k in KeysOf(front) {
        var p :| p in front && KeyOf(p) == k;
        assert p in front + [last];
      }
      if k == KeyOf(last) {
        assert last in front + [last];
      }
    }
  }

  // ----- the hard cap -----

  /** Exactly the excess is removed, from stored positions, and no survivor was active before a victim. */
  lemma CapVictimsAreOldest(cfg: Config, m: Model)
    requires Invariant(m)
    ensures var victims := CapVictims(cfg, m);
            && victims <= m.positions.at.Keys
            && |victims| == Excess(m.positions.Size(), cfg.hardCap)
            && forall v, k :: v in victims && k in m.positions.at && k !in victims ==>
                 m.positions.at[v].lastActivityBlock <= m.positions.at[k].lastActivityBlock
  {
    hide PositionOk, ByActivity;
    var s, n := ByActivity(m.positions), Excess(m.positions.Size(), cfg.hardCap);
    ActivityOrder(m.positions, m.reserves);
    var dead := s[..n];
    KeysOfDistinct(dead);
    forall v | v in CapVictims(cfg, m) ensures v in m.positions.at && m.positions.at[v] in dead {
      var p :| p in dead && KeyOf(p) == v;
      assert p in s;
    }
    forall x | 0 <= x < n ensures KeyOf(s[x]) in CapVictims(cfg, m) {
      assert dead[x] in dead;
    }
    forall v, k | v in CapVictims(cfg, m) && k in m.positions.at && k !in CapVictims(cfg, m)
      ensures m.positions.at[v].lastActivityBlock <= m.positions.at[k].lastActivityBlock
    {
      assert KeyOf(m.positions.at[k]) == k;
      OlderThanTheRest(s, n, m.positions.at[v], m.positions.at[k]);
    }
  }

  lemma OlderThanTheRest(s: seq<UserPosition>, n: nat, v: UserPosition, q: UserPosition)
    requires Ascending(s, LastActivity) && n <= |s| && v in s[..n] && q in s && q !in s[..n]
    ensures v.lastActivityBlock <= q.lastActivityBlock
  {
    var i :| 0 <= i < n && s[i] == v;
    assert forall k :: 0 <= k < n ==> s[..n][k] == s[k];
    var j :| 0 <= j < |s| && s[j] == q;
    assert LastActivity(s[i]) <= LastActivity(s[j]);
  }

  lemma EvictedCounts(m: Model, victims: set<string>)
    requires Invariant(m) && victims <= m.positions.at.Keys
    ensures Evicted(m, victims).positions.Size() == m.positions.Size() - |victims|
    ensures Evicted(m, victims).evictionTotal - m.evictionTotal
              == m.positions.Size() - Evicted(m, victims).positions.Size()
  {
    hide PositionOk;
    RemoveSize(m.positions, victims);
  }

  /** Enforcing the cap always ends within it and counts every removal. */
  lemma HardCapHolds(cfg: Config, m: Model, block: int)
    requires Invariant(m)
    ensures var m' := HardCapped(cfg, m, block);
            && m'.positions.Size() <= cfg.hardCap
            && m'.evictionTotal - m.evictionTotal == m.positions.Size() - m'.positions.Size()
  {
    hide Invariant, CapVictims, InactiveVictims;
    CapVictimsAreOldest(cfg, m);
    EvictedCounts(m, CapVictims(cfg, m));
    EvictedOk(m, CapVictims(cfg, m));
    var m1 := Evicted(m, CapVictims(cfg, m));
    InactiveAreStored(cfg, m1, block);
    EvictedCounts(m1, InactiveVictims(cfg, m1, block));
  }

  lemma InactiveAreStored(cfg: Config, m: Model, block: int)
    ensures InactiveVictims(cfg, m, block) <= m.positions.at.Keys
  {
  }

  /** A position the cap removes was last active no later than any survivor, unless it was removed as
      inactive and healthy. */
  lemma HardCapRemovesOldest(cfg: Config, m: Model, block: int, victim: string, survivor: string)
    requires Invariant(m) && victim in m.positions.at && victim !in HardCapped(cfg, m, block).positions.at
    requires survivor in HardCapped(cfg, m, block).positions.at
    ensures survivor in m.positions.at
    ensures m.positions.at[victim].lastActivityBlock <= m.positions.at[survivor].lastActivityBlock
         || InactiveHealthy(cfg, m.positions.at[victim], block)
  {
    hide CapVictims;
    CapVictimsAreOldest(cfg, m);
  }


  /** Pool events keep the cache within its cap; applying a snapshot brings it within it. */
  lemma EventsAndSeedsKeepTheCap(cfg: Config, m: Model, e: PoolEvent, s: Snapshot, nowSec: int)
    requires Invariant(m)
    ensures m.positions.Size() <= cfg.hardCap ==> AfterEvent(cfg, m, e, nowSec).positions.Size() <= cfg.hardCap
    ensures AfterSeed(cfg, m, s).positions.Size() <= cfg.hardCap
  {
    hide HardCapped, WithMoved, AfterOwnRecompute, Stored, WithSeed;
    WithSeedOk(m, s);
    HardCapHolds(cfg, WithSeed(m, s), s.block);
    if e.name != ReserveDataUpdated && !Ignored(cfg, m, e) {
      var user := ResolveUser(e).value;
      var key, m1 := Lower(user), WithMoved(m, e, user);
      WithMovedOk(m, e, user);
      if e.name == LiquidationCall && DebtFree(m1.positions.at[key]) {
        LiquidationShrinks(m, e, user);
      } else if !m1.positions.at[key].seeded {
        HardCapHolds(cfg, m1, e.block);
      } else {
        OwnRecomputeOk(cfg.oracle, m1, key, nowSec);
        HardCapHolds(cfg, AfterOwnRecompute(cfg.oracle, m1, key, nowSec), e.block);
      }
    }
  }

  lemma LiquidationShrinks(m: Model, e: PoolEvent, user: Address)
    requires Invariant(m)
    ensures WithMoved(m, e, user).positions.Delete(Lower(user)).Size() <= m.positions.Size()
  {
    hide PositionOk, Moved;
    WithMovedOk(m, e, user);
    RemoveSize(WithMoved(m, e, user).positions, {Lower(user)});
  }

  /** A confirmation does not enforce the cap: it keeps it exactly when it adds no position to a full
      cache. */
  lemma ConfirmKeepsCapIff(cfg: Config, m: Model, c: Confirmation)
    requires m.positions.Size() <= cfg.hardCap
    ensures AfterConfirm(m, c).positions.Size() <= cfg.hardCap <==>
            Lower(c.account) in m.positions.at || m.positions.Size() < cfg.hardCap
  {
  }

  /** Over any run in which every confirmation concerns a known account or finds room, the cache stays
      within its cap. */
  lemma {:induction false} RunsKeepTheCap(cfg: Config, ops: seq<Operation>)
    requires forall i :: 0 <= i < |ops| && ops[i].Confirm? ==>
               var m := RunOf(cfg, ops[..i]);
               Lower(ops[i].confirmation.account) in m.positions.at || m.positions.Size() < cfg.hardCap
    ensures RunOf(cfg, ops).positions.Size() <= cfg.hardCap
  {
    hide Apply, Stored;
    if ops != [] {
      var front, last := ops[..|ops| - 1], ops[|ops| - 1];
      forall i | 0 <= i < |front| && front[i].Confirm?
        ensures var m := RunOf(cfg, front[..i]);
                Lower(front[i].confirmation.account) in m.positions.at || m.positions.Size() < cfg.hardCap
      {
        assert front[..i] == ops[..i] && front[i] == ops[i];
      }
      RunsKeepTheCap(cfg, front);
      RunsKeepInvariant(cfg, front);
      ApplyKeepsCap(cfg, RunOf(cfg, front), last);
    }
  }

  lemma ApplyKeepsCap(cfg: Config, m: Model, op: Operation)
    requires Invariant(m) && m.positions.Size() <= cfg.hardCap
    requires op.Confirm? ==> Lower(op.confirmation.account) in m.positions.at || m.positions.Size() < cfg.hardCap
    ensures Apply(cfg, m, op).positions.Size() <= cfg.hardCap
  {
    hide AfterEvent, AfterSeed, AfterPressure, CommitAll, Normalized, Stored;
    match op
    case RegisterReserve(_, _) =>
    case SetLiquidationBonus(_, _) =>
    case RegisterPrice(_, _, _) =>
    case MarkBootstrapped =>
    case PoolEventArrives(e, nowSec) => EventsAndSeedsKeepTheCap(cfg, m, e, Snapshot("", 0, 0, 0, 0, 0, 0, []), nowSec);
    case FeedUpdates(asset, feed, answer, decimals, updatedAt) =>
      FeedUpdateKeepsKeys(cfg, m, asset, feed, answer, decimals, updatedAt);
    case SyncPegs(reference, nowSec) =>
      SyncKeepsKeys(cfg.oracle, m, if reference.Some? then Some(Lower(reference.value)) else None, nowSec);
    case Recompute(nowSec) => RecomputeHfKeepsKeys(cfg.oracle, m, nowSec);
    case Confirm(c) => ConfirmKeepsCapIff(cfg, m, c);
    case Seed(s) => SeedKeepsCap(cfg, m, s);
    case RelieveMemory(block) => PressureShrinks(cfg, m, block);
    case RemovePosition(account) => DeleteShrinks(m.positions, Lower(account));
  }

  lemma SeedKeepsCap(cfg: Config, m: Model, s: Snapshot)
    requires Invariant(m)
    ensures AfterSeed(cfg, m, s).positions.Size() <= cfg.hardCap
  {
    hide HardCapped, WithSeed, Invariant;
    WithSeedOk(m, s);
    HardCapHolds(cfg, WithSeed(m, s), s.block);
  }

  lemma {:induction false} DropShrinks(keys: seq<string>, dead: set<string>)
    ensures |Drop(keys, dead)| <= |keys|
  {
    if keys != [] {
      DropShrinks(keys[1..], dead);
    }
  }

  lemma DeleteShrinks(m: OMap<UserPosition>, key: string)
    ensures m.Delete(key).Size() <= m.Size()
  {
    DropShrinks(m.keys, {key});
  }

  lemma RecomputeHfKeepsKeys(o: PegPrices.Oracle, m: Model, nowSec: int)
    ensures AfterRecomputeHf(o, m, nowSec).positions.keys == m.positions.keys
  {
    hide Normalized, HfOf;
    NormalizedKeeps(o, m, nowSec);
  }

  lemma RecomputeKeepsKeys(o: PegPrices.Oracle, m: Model, asset: string, nowSec: int)
    ensures AfterRecompute(o, m, asset, nowSec).positions.keys == m.positions.keys
  {
    hide Normalized, HfOf;
    NormalizedKeeps(o, m, nowSec);
  }

  lemma SyncKeepsKeys(o: PegPrices.Oracle, m: Model, reference: Option<string>, nowSec: int)
    ensures AfterSync(o, m, reference, nowSec).positions.keys == m.positions.keys
  {
    hide AfterRecompute;
    if Syncs(o, m, reference) {
      RecomputeKeepsKeys(o, RegisterPeg(o, m, nowSec), o.pegs.usdbc, nowSec);
    }
  }

  lemma FeedUpdateKeepsKeys(cfg: Config, m: Model, asset: Address, feed: Address, answer: int, decimals: int,
      updatedAt: int)
    ensures AfterFeedUpdate(cfg, m, asset, feed, answer, decimals, updatedAt).positions.keys == m.positions.keys
  {
    hide AfterRecompute, AfterSync;
    if FeedAccepted(answer, decimals) {
      var priced := WithFeedPrice(m, asset, feed, answer, decimals, updatedAt);
      SyncKeepsKeys(cfg.oracle, priced, Some(Lower(asset)), updatedAt);
      RecomputeKeepsKeys(cfg.oracle, AfterSync(cfg.oracle, priced, Some(Lower(asset)), updatedAt), Lower(asset),
        updatedAt);
    }
  }

  // ----- memory pressure -----

  lemma OrderedIsStored(m: Model, i: nat)
    requires Invariant(m) && i < m.positions.Size()
    ensures i < |ByActivity(m.positions)|
    ensures var p := ByActivity(m.positions)[i]; KeyOf(p) in m.positions.at && m.positions.at[KeyOf(p)] == p
  {
    hide PositionOk, ByActivity;
    ActivityOrder(m.positions, m.reserves);
    assert ByActivity(m.positions)[i] in ByActivity(m.positions);
  }

  lemma {:induction false} VictimWasShed(cfg: Config, m: Model, n: nat, key: string)
    requires Invariant(m) && n <= m.positions.Size() && key in PressureVictims(cfg, m, n)
    ensures key in m.positions.at && Sheddable(cfg, m.positions.at[key])
  {
    hide Sheddable, ByActivity, Invariant;
    OrderedIsStored(m, n - 1);
    if key in PressureVictims(cfg, m, n - 1) {
      VictimWasShed(cfg, m, n - 1, key);
    }
  }

  lemma PressureVictimsAreShed(cfg: Config, m: Model, n: nat)
    requires Invariant(m) && n <= m.positions.Size()
    ensures forall k :: k in PressureVictims(cfg, m, n) ==> k in m.positions.at && Sheddable(cfg, m.positions.at[k])
  {
    hide Sheddable, PressureVictims, Invariant;
    forall k | k in PressureVictims(cfg, m, n) ensures k in m.positions.at && Sheddable(cfg, m.positions.at[k]) {
      VictimWasShed(cfg, m, n, k);
    }
  }

  lemma PressureVictimsGrow(cfg: Config, m: Model, n: nat)
    requires 0 < n <= m.positions.Size()
    ensures PressureVictims(cfg, m, n - 1) <= PressureVictims(cfg, m, n)
    ensures |PressureVictims(cfg, m, n - 1)| <= |PressureVictims(cfg, m, n)|
  {
    hide Sheddable;
    var before, after := PressureVictims(cfg, m, n - 1), PressureVictims(cfg, m, n);
    if after != before {
      var x := KeyOf(ByActivity(m.positions)[n - 1]);
      assert after == before + {x};
      assert |before + {x}| >= |before| by {
        assert before == (before + {x}) - ({x} - before);
      }
    }
  }

  /** As long as the size stays above the pressure cap, nothing sheddable is passed over. */
  lemma {:induction false} PressureShedsAll(cfg: Config, m: Model, n: nat, i: nat)
    requires i < n <= m.positions.Size() && Sheddable(cfg, ByActivity(m.positions)[i])
    requires m.positions.Size() - |PressureVictims(cfg, m, n)| > PressureCap(cfg)
    ensures KeyOf(ByActivity(m.positions)[i]) in PressureVictims(cfg, m, n)
  {
    hide Sheddable, ByActivity;
    PressureVictimsGrow(cfg, m, n);
    if i < n - 1 {
      PressureShedsAll(cfg, m, n - 1, i);
    }
  }

  /** Memory pressure removes only healthy positions of at least 1.5 in its first step, and ends at or
      below three quarters of the cap or with none of those left; every removal is counted. */
  lemma PressureOutcome(cfg: Config, m: Model, block: int)
    requires Invariant(m)
    ensures var victims := PressureVictims(cfg, m, m.positions.Size());
            var m' := AfterPressure(cfg, m, block);
            && (forall k :: k in victims ==> k in m.positions.at && Sheddable(cfg, m.positions.at[k]))
            && (m'.positions.Size() <= PressureCap(cfg)
                || forall k :: k in m'.positions.at ==> k in m.positions.at && m'.positions.at[k] == m.positions.at[k]
                                                        && !Sheddable(cfg, m.positions.at[k]))
            && m'.positions.Size() <= m.positions.Size()
            && m'.evictionTotal - m.evictionTotal == m.positions.Size() - m'.positions.Size()
  {
    hide Sheddable, ByActivity, PressureVictims, InactiveHealthy, PositionOk;
    var victims := PressureVictims(cfg, m, m.positions.Size());
    PressureVictimsAreShed(cfg, m, m.positions.Size());
    EvictedCounts(m, victims);
    EvictedOk(m, victims);
    var m1 := Evicted(m, victims);
    InactiveAreStored(cfg, m1, block);
    EvictedCounts(m1, InactiveVictims(cfg, m1, block));
    ActivityOrder(m.positions, m.reserves);
    if m.positions.Size() - |victims| > PressureCap(cfg) {
      forall k | k in m1.positions.at ensures !Sheddable(cfg, m.positions.at[k]) {
        var p := m.positions.at[k];
        assert KeyOf(p) == k && p in ByActivity(m.positions);
        var i :| 0 <= i < |ByActivity(m.positions)| && ByActivity(m.positions)[i] == p;
        if Sheddable(cfg, p) {
          PressureShedsAll(cfg, m, m.positions.Size(), i);
        }
      }
    }
  }

  lemma PressureShrinks(cfg: Config, m: Model, block: int)
    requires Invariant(m)
    ensures AfterPressure(cfg, m, block).positions.Size() <= m.positions.Size()
  {
    hide AfterPressure, Invariant, PressureVictims;
    PressureOutcome(cfg, m, block);
  }

  /** The eviction threshold protects at-risk positions exactly when it is above both tier thresholds
      and at least one. */
  lemma ThresholdProtectsIff(cfg: Config)
    ensures (forall hf :: hf >= cfg.evictionHf ==> ClassifyTier(cfg, hf) == Healthy)
            <==> cfg.evictionHf > cfg.urgentHf && cfg.evictionHf > cfg.watchHf && cfg.evictionHf >= WAD
  {
    if forall hf :: hf >= cfg.evictionHf ==> ClassifyTier(cfg, hf) == Healthy {
      assert ClassifyTier(cfg, cfg.evictionHf) == Healthy;
    }
  }

  /** Then everything memory pressure removes, in either step, is healthy. */
  lemma PressureRemovesOnlyHealthy(cfg: Config, m: Model, block: int, key: string)
    requires Invariant(m) && cfg.evictionHf > cfg.urgentHf && cfg.evictionHf > cfg.watchHf && cfg.evictionHf >= WAD
    requires key in m.positions.at && key !in AfterPressure(cfg, m, block).positions.at
    ensures ClassifyTier(cfg, m.positions.at[key].cachedHf) == Healthy
  {
    hide PressureVictims;
    PressureOutcome(cfg, m, block);
    ThresholdProtectsIff(cfg);
    var m1 := Evicted(m, PressureVictims(cfg, m, m.positions.Size()));
    if key !in PressureVictims(cfg, m, m.positions.Size()) {
      assert key in InactiveVictims(cfg, m1, block);
    }
  }
}
