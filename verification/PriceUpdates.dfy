// Recomputation after price changes: commits of one price state combine and repeat harmlessly, so the
// overlapping peg and direct recomputations of a feed update report each account once, truthfully.

module PriceUpdates {
  import opened Options
  import opened Text
  import opened Ordered
  import opened PegPrices
  import opened Positions
  import opened Floors
  import opened HfPolicy
  import opened PositionModel
  import opened PositionRuns

  // ----- the health factor depends on prices and balances only -----

  ghost predicate SameMarket(m: Model, n: Model) {
    m.prices == n.prices && m.feeds == n.feeds && m.reserves == n.reserves && m.bootstrapped == n.bootstrapped
  }

  ghost predicate SameBalances(p: UserPosition, q: UserPosition) {
    && p.collateral == q.collateral && p.debt == q.debt
    && p.collateralIndex == q.collateralIndex && p.debtIndex == q.debtIndex
  }

  lemma {:induction false} ListsSame(o: Oracle, m: Model, p: UserPosition, n: Model, q: UserPosition,
      keys: seq<string>, nowSec: int)
    requires SameMarket(m, n) && SameBalances(p, q)
    ensures MissingAmong(o, m, p, keys, nowSec) == MissingAmong(o, n, q, keys, nowSec)
    ensures StaleAmong(o, m, p, keys, nowSec) == StaleAmong(o, n, q, keys, nowSec)
    ensures CollateralSum(o, m, p, keys, nowSec) == CollateralSum(o, n, q, keys, nowSec)
    ensures DebtSum(o, m, p, keys, nowSec) == DebtSum(o, n, q, keys, nowSec)
  {
    hide EffectivePrice, IsStale, Weighted, Scale;
    if keys != [] {
      ListsSame(o, m, p, n, q, keys[..|keys| - 1], nowSec);
    }
  }

  lemma HfSame(o: Oracle, m: Model, p: UserPosition, n: Model, q: UserPosition, nowSec: int)
    requires SameMarket(m, n) && SameBalances(p, q)
    ensures HfOf(o, m, p, nowSec) == HfOf(o, n, q, nowSec)
  {
    hide MissingAmong, StaleAmong, CollateralSum, DebtSum, PositiveKeys;
    ListsSame(o, m, p, n, q, AssetKeys(p), nowSec);
    ListsSame(o, m, p, n, q, p.collateral.keys, nowSec);
    ListsSame(o, m, p, n, q, p.debt.keys, nowSec);
  }

  lemma CommitKeepsBalances(p: UserPosition, r: HfResult)
    ensures SameBalances(p, Commit(p, r)) && Commit(p, r).seeded == p.seeded && Commit(p, r).account == p.account
    ensures Commit(p, r) == p.(cachedHf := Commit(p, r).cachedHf)
  {
    hide ResolveHf;
  }

  // ----- commits combine -----

  function Committed(o: Oracle, m: Model, p: UserPosition, nowSec: int): UserPosition {
    Commit(p, HfOf(o, m, p, nowSec))
  }

  /** Judging a position again by the same market commits the same value. */
  lemma CommittedAgain(o: Oracle, m: Model, n: Model, p: UserPosition, nowSec: int)
    requires SameMarket(m, n)
    ensures Committed(o, n, Committed(o, m, p, nowSec), nowSec) == Committed(o, m, p, nowSec)
    ensures HfOf(o, n, Committed(o, m, p, nowSec), nowSec) == HfOf(o, m, p, nowSec)
  {
    hide HfOf, Commit;
    var r := HfOf(o, m, p, nowSec);
    CommitKeepsBalances(p, r);
    HfSame(o, m, p, n, Commit(p, r), nowSec);
    CommitIdempotent(p, r);
  }

  lemma CommitAllAt(o: Oracle, m: Model, keys: set<string>, nowSec: int, k: string)
    requires k in m.positions.at
    ensures k in CommitAll(o, m, keys, nowSec).positions.at
    ensures CommitAll(o, m, keys, nowSec).positions.at[k]
            == if k in keys then Committed(o, m, m.positions.at[k], nowSec) else m.positions.at[k]
  {
  }

  /** Two commits in one market are one commit of the union. */
  lemma CommitsCombine(o: Oracle, m: Model, a: set<string>, b: set<string>, nowSec: int)
    ensures CommitAll(o, CommitAll(o, m, a, nowSec), b, nowSec) == CommitAll(o, m, a + b, nowSec)
  {
    hide HfOf, Commit;
    var n := CommitAll(o, m, a, nowSec);
    var twice, once := CommitAll(o, n, b, nowSec), CommitAll(o, m, a + b, nowSec);
    forall k | k in m.positions.at ensures k in twice.positions.at && twice.positions.at[k] == once.positions.at[k] {
      var p := m.positions.at[k];
      if k in a {
        CommittedAgain(o, m, n, p, nowSec);
      } else {
        HfSame(o, m, p, n, p, nowSec);
      }
    }
    assert twice.positions.at == once.positions.at;
  }

  lemma NoCommits(o: Oracle, m: Model, nowSec: int)
    ensures CommitAll(o, m, {}, nowSec) == m
  {
    assert CommitAll(o, m, {}, nowSec).positions.at == m.positions.at;
  }

  /** Prices alone decide normalisation. */
  lemma NormalizedOfCommits(o: Oracle, n: Model, m: Model, nowSec: int)
    requires SameMarket(n, m)
    ensures PegMismatched(o, n) == PegMismatched(o, m) && PegOff(o, n) == PegOff(o, m)
    ensures SameMarket(Normalized(o, n, nowSec), Normalized(o, m, nowSec))
  {
  }

  /** A committed market that is already normalised stays as it is. */
  lemma NormalizedStays(o: Oracle, m: Model, keys: set<string>, nowSec: int)
    requires PegsOk(o.pegs) && Normalized(o, m, nowSec) == m
    ensures Normalized(o, CommitAll(o, m, keys, nowSec), nowSec) == CommitAll(o, m, keys, nowSec)
    ensures !PegMismatched(o, m) && !PegMismatched(o, CommitAll(o, m, keys, nowSec))
  {
    hide CommitAll;
    NormalizedIsAligned(o, m, nowSec);
    CommitAllMarket(o, m, keys, nowSec);
    var n := CommitAll(o, m, keys, nowSec);
    NormalizedOfCommits(o, n, m, nowSec);
    NormalizedKeeps(o, n, nowSec);
  }

  lemma CommitAllMarket(o: Oracle, m: Model, keys: set<string>, nowSec: int)
    ensures SameMarket(CommitAll(o, m, keys, nowSec), m)
    ensures CommitAll(o, m, keys, nowSec).positions.keys == m.positions.keys
    ensures CommitAll(o, m, keys, nowSec).evictionTotal == m.evictionTotal
    ensures CommitAll(o, m, keys, nowSec).positions.at.Keys == m.positions.at.Keys
  {
  }

  // ----- what a recomputation reports -----

  /** Each change says exactly what the model holds for its account. */
  ghost predicate Reports(cfg: Config, m: Model, changes: seq<TierChange>) {
    forall i :: 0 <= i < |changes| ==> Truthful(cfg, m, changes[i])
  }

  ghost predicate Truthful(cfg: Config, m: Model, c: TierChange) {
    Lower(c.account) in m.positions.at && c == ToTierChange(cfg, m.positions.at[Lower(c.account)], false)
  }

  ghost predicate OncePerAccount(changes: seq<TierChange>) {
    forall i, j :: 0 <= i < j < |changes| ==> Lower(changes[i].account) != Lower(changes[j].account)
  }

  /** A reported change belongs to a touched position with a numeric result. */
  ghost predicate FromTouched(cfg: Config, m: Model, c: TierChange, asset: string, nowSec: int) {
    var key := Lower(c.account);
    && m.bootstrapped && key in m.positions.at && Touched(m.positions.at[key], asset)
    && c == ToTierChange(cfg, Committed(cfg.oracle, Normalized(cfg.oracle, m, nowSec), m.positions.at[key], nowSec),
       false)
  }

  lemma {:induction false} ChangesAreFromTouched(cfg: Config, m: Model, keys: seq<string>, asset: string, nowSec: int)
    requires Stored(m.positions, m.reserves) && Distinct(keys) && forall k :: k in keys ==> k in m.positions.at
    ensures var changes := ChangesAmong(cfg, m, keys, asset, nowSec);
            && OncePerAccount(changes)
            && forall i :: 0 <= i < |changes| ==>
                 FromTouched(cfg, m, changes[i], asset, nowSec) && Lower(changes[i].account) in keys
  {
    hide HfOf, Commit, Normalized, PositionOk;
    if keys != [] {
      var front, k := keys[..|keys| - 1], keys[|keys| - 1];
      ChangesAreFromTouched(cfg, m, front, asset, nowSec);
      var n := Normalized(cfg.oracle, m, nowSec);
      CommitKeepsBalances(m.positions.at[k], HfOf(cfg.oracle, n, m.positions.at[k], nowSec));
      assert keys == front + [k];
      assert k !in front;
    }
  }

  /** The changes of one recomputation: one per account, each as the model then holds it. */
  lemma RecomputeReports(cfg: Config, m: Model, asset: string, nowSec: int)
    requires Invariant(m)
    ensures Reports(cfg, AfterRecompute(cfg.oracle, m, asset, nowSec), RecomputeChanges(cfg, m, asset, nowSec))
    ensures OncePerAccount(RecomputeChanges(cfg, m, asset, nowSec))
  {
    hide HfOf, Commit, Normalized, CommitAll;
    var o, changes := cfg.oracle, RecomputeChanges(cfg, m, asset, nowSec);
    ChangesAreFromTouched(cfg, m, m.positions.keys, asset, nowSec);
    NormalizedKeeps(o, m, nowSec);
    forall i | 0 <= i < |changes|
      ensures Truthful(cfg, AfterRecompute(o, m, asset, nowSec), changes[i])
    {
      var key := Lower(changes[i].account);
      assert FromTouched(cfg, m, changes[i], asset, nowSec);
      assert key in TouchedKeys(m, asset);
      CommitAllAt(o, Normalized(o, m, nowSec),
                  TouchedKeys(m, asset)
                  + if PegMismatched(o, m) then TouchedKeys(m, o.pegs.usdbc) else {}, nowSec, key);
    }
  }

  /** Recomputing after a recomputation at the same moment changes no value the first one committed. */
  lemma FirstCommitsSurvive(cfg: Config, m: Model, first: string, second: string, nowSec: int)
    requires Invariant(m) && PegsOk(cfg.oracle.pegs)
    ensures var synced := AfterRecompute(cfg.oracle, m, first, nowSec);
            Reports(cfg, AfterRecompute(cfg.oracle, synced, second, nowSec), RecomputeChanges(cfg, m, first, nowSec))
  {
    hide HfOf, Commit, Normalized, CommitAll;
    var o, changes := cfg.oracle, RecomputeChanges(cfg, m, first, nowSec);
    var n := Normalized(o, m, nowSec);
    var synced := AfterRecompute(o, m, first, nowSec);
    var final := AfterRecompute(o, synced, second, nowSec);
    ChangesAreFromTouched(cfg, m, m.positions.keys, first, nowSec);
    RecomputeReports(cfg, m, first, nowSec);
    NormalizedIsAligned(o, m, nowSec);
    NormalizedKeeps(o, m, nowSec);
    forall i | 0 <= i < |changes| ensures Truthful(cfg, final, changes[i]) {
      var key := Lower(changes[i].account);
      assert FromTouched(cfg, m, changes[i], first, nowSec) && key in TouchedKeys(m, first);
      var committed := TouchedKeys(m, first) + if PegMismatched(o, m) then TouchedKeys(m, o.pegs.usdbc) else {};
      assert synced == CommitAll(o, n, committed, nowSec);
      CommitAllAt(o, n, committed, nowSec, key);
      CommitAllMarket(o, n, committed, nowSec);
      NormalizedStays(o, n, committed, nowSec);
      KeptByRecompute(o, synced, second, nowSec, key, n, m.positions.at[key]);
    }
  }

  /** In a normalised market, a position already judged by it keeps its value. */
  lemma KeptByRecompute(o: Oracle, synced: Model, asset: string, nowSec: int, key: string, n: Model, p: UserPosition)
    requires Normalized(o, synced, nowSec) == synced && SameMarket(synced, n)
    requires key in synced.positions.at && synced.positions.at[key] == Committed(o, n, p, nowSec)
    ensures key in AfterRecompute(o, synced, asset, nowSec).positions.at
    ensures AfterRecompute(o, synced, asset, nowSec).positions.at[key] == synced.positions.at[key]
  {
    hide HfOf, Commit, Normalized, CommitAll;
    CommitAllAt(o, synced, TouchedKeys(synced, asset)
                           + if PegMismatched(o, synced) then TouchedKeys(synced, o.pegs.usdbc) else {},
                nowSec, key);
    CommittedAgain(o, n, synced, p, nowSec);
  }

  // ----- merging -----

  lemma {:induction false} MergeKeeps(cfg: Config, m: Model, direct: seq<TierChange>, more: seq<TierChange>)
    requires Reports(cfg, m, direct) && Reports(cfg, m, more) && OncePerAccount(direct)
    ensures Reports(cfg, m, MergedChanges(direct, more)) && OncePerAccount(MergedChanges(direct, more))
  {
    hide Truthful;
    if more != [] {
      var front, last := more[..|more| - 1], more[|more| - 1];
      assert forall i :: 0 <= i < |front| ==> front[i] == more[i];
      MergeKeeps(cfg, m, direct, front);
      var before := MergedChanges(direct, front);
      if Lower(last.account) !in AccountsOf(before) {
        forall i | 0 <= i < |before| ensures Lower(before[i].account) != Lower(last.account) {
          assert Lower(before[i].account) in AccountsOf(before);
        }
      }
    }
  }

  /** A feed update returns at most one change per account, in any casing, and each reports exactly the
      health factor and tier the model holds when it returns. */
  lemma FeedUpdateReports(cfg: Config, m: Model, asset: Address, feed: Address, answer: int, decimals: int,
      updatedAt: int)
    requires Invariant(m) && PegsOk(cfg.oracle.pegs)
    ensures var changes := FeedUpdateChanges(cfg, m, asset, feed, answer, decimals, updatedAt);
            && OncePerAccount(changes)
            && Reports(cfg, AfterFeedUpdate(cfg, m, asset, feed, answer, decimals, updatedAt), changes)
  {
    hide AfterRecompute, ChangesAmong;
    if FeedAccepted(answer, decimals) {
      var o, key := cfg.oracle, Lower(asset);
      var priced := WithFeedPrice(m, asset, feed, answer, decimals, updatedAt);
      var synced := AfterSync(o, priced, Some(key), updatedAt);
      SyncOk(o, priced, Some(key), updatedAt);
      RecomputeReports(cfg, synced, key, updatedAt);
      if Syncs(o, priced, Some(key)) {
        FirstCommitsSurvive(cfg, RegisterPeg(o, priced, updatedAt), o.pegs.usdbc, key, updatedAt);
      }
      MergeKeeps(cfg, AfterRecompute(o, synced, key, updatedAt), RecomputeChanges(cfg, synced, key, updatedAt),
                 SyncChanges(cfg, priced, Some(key), updatedAt));
    }
  }

  // ----- what is not reported -----

  lemma {:induction false} NumericAreReported(cfg: Config, m: Model, keys: seq<string>, asset: string, nowSec: int,
      key: string)
    requires Stored(m.positions, m.reserves) && (forall k :: k in keys ==> k in m.positions.at) && key in keys
    requires m.bootstrapped && Touched(m.positions.at[key], asset)
    requires Numeric(HfOf(cfg.oracle, Normalized(cfg.oracle, m, nowSec), m.positions.at[key], nowSec))
    ensures key in AccountsOf(ChangesAmong(cfg, m, keys, asset, nowSec))
  {
    hide HfOf, Commit, Normalized, PositionOk;
    var front, k := keys[..|keys| - 1], keys[|keys| - 1];
    var changes := ChangesAmong(cfg, m, keys, asset, nowSec);
    if k == key {
      CommitKeepsBalances(m.positions.at[k],
        HfOf(cfg.oracle, Normalized(cfg.oracle, m, nowSec), m.positions.at[k], nowSec));
      assert changes[|changes| - 1] in changes;
    } else {
      NumericAreReported(cfg, m, front, asset, nowSec, key);
      var c :| c in ChangesAmong(cfg, m, front, asset, nowSec) && Lower(c.account) == key;
      assert c in changes;
    }
  }

  lemma {:induction false} MergeCovers(direct: seq<TierChange>, more: seq<TierChange>)
    ensures AccountsOf(direct) + AccountsOf(more) <= AccountsOf(MergedChanges(direct, more))
  {
    if more != [] {
      var front, last := more[..|more| - 1], more[|more| - 1];
      MergeCovers(direct, front);
      forall a | a in AccountsOf(more) ensures a in AccountsOf(MergedChanges(direct, more)) {
        var c :| c in more && Lower(c.account) == a;
        if c in front {
          assert a in AccountsOf(front);
        }
        assert c == last ==>
          last in MergedChanges(direct, more) || Lower(last.account) in AccountsOf(MergedChanges(direct, front));
        GrowsBy(direct, more);
      }
      GrowsBy(direct, more);
    }
  }

  lemma GrowsBy(direct: seq<TierChange>, more: seq<TierChange>)
    requires more != []
    ensures AccountsOf(MergedChanges(direct, more[..|more| - 1])) <= AccountsOf(MergedChanges(direct, more))
    ensures Lower(more[|more| - 1].account) in AccountsOf(MergedChanges(direct, more))
  {
    var before, after := MergedChanges(direct, more[..|more| - 1]), MergedChanges(direct, more);
    forall a | a in AccountsOf(before) ensures a in AccountsOf(after) {
      var c :| c in before && Lower(c.account) == a;
      assert c in after;
    }
    if Lower(more[|more| - 1].account) !in AccountsOf(before) {
      assert more[|more| - 1] in after;
    }
  }

  /** What judging a position in the aligned market would change of it. */
  ghost predicate Revalued(o: Oracle, m: Model, p: UserPosition, nowSec: int) {
    Committed(o, Normalized(o, m, nowSec), p, nowSec) != p
  }

  /** A recomputation changes a position and does not report it exactly when it found the peg mismatched
      while it had holders of its asset to judge, the position holds the peg but not that asset, and the
      aligned prices revalue it. */
  lemma UnreportedIff(cfg: Config, m: Model, asset: string, nowSec: int, key: string)
    requires Invariant(m) && key in m.positions.at
    ensures var o, p, m' := cfg.oracle, m.positions.at[key], AfterRecompute(cfg.oracle, m, asset, nowSec);
            && key in m'.positions.at
            && (m'.positions.at[key] != p && key !in AccountsOf(RecomputeChanges(cfg, m, asset, nowSec)) <==>
                && m.bootstrapped && TouchedKeys(m, asset) != {} && PegMismatched(o, m)
                && Touched(p, o.pegs.usdbc) && !Touched(p, asset) && Revalued(o, m, p, nowSec))
  {
    hide HfOf, Normalized, CommitAll, ResolveHf;
    var o, n, p := cfg.oracle, Normalized(cfg.oracle, m, nowSec), m.positions.at[key];
    NormalizedKeeps(o, m, nowSec);
    CommitAllAt(o, n, TouchedKeys(m, asset)
                      + if PegMismatched(o, m) then TouchedKeys(m, o.pegs.usdbc) else {}, nowSec, key);
    if m.bootstrapped && Touched(p, asset) && Numeric(HfOf(o, n, p, nowSec)) {
      NumericAreReported(cfg, m, m.positions.keys, asset, nowSec, key);
    }
    if !Touched(p, asset) {
      OnlyHoldersAreReported(cfg, m, asset, nowSec, key);
    }
  }

  lemma OnlyHoldersAreReported(cfg: Config, m: Model, asset: string, nowSec: int, key: string)
    requires Invariant(m) && key in m.positions.at && !Touched(m.positions.at[key], asset)
    ensures key !in AccountsOf(RecomputeChanges(cfg, m, asset, nowSec))
  {
    hide HfOf, Commit, Normalized, ChangesAmong;
    var changes := RecomputeChanges(cfg, m, asset, nowSec);
    ChangesAreFromTouched(cfg, m, m.positions.keys, asset, nowSec);
    forall c | c in changes ensures Lower(c.account) != key {
      var i :| 0 <= i < |changes| && changes[i] == c;
      assert FromTouched(cfg, m, changes[i], asset, nowSec);
    }
  }

  /** A feed update changes a position without reporting it exactly when the updated asset is not the
      peg's reference, has holders, the peg is mispriced at that moment, and the position holds the peg
      but not the asset and is revalued by aligning them. */
  lemma FeedUpdateSilenceIff(cfg: Config, m: Model, asset: Address, feed: Address, answer: int, decimals: int,
      updatedAt: int, key: string)
    requires Invariant(m) && PegsOk(cfg.oracle.pegs) && key in m.positions.at
    ensures !FeedAccepted(answer, decimals) ==> AfterFeedUpdate(cfg, m, asset, feed, answer, decimals, updatedAt) == m
    ensures FeedAccepted(answer, decimals) ==>
            var o, a, p := cfg.oracle, Lower(asset), m.positions.at[key];
            var priced := WithFeedPrice(m, asset, feed, answer, decimals, updatedAt);
            var m' := AfterFeedUpdate(cfg, m, asset, feed, answer, decimals, updatedAt);
            && key in m'.positions.at
            && (m'.positions.at[key] != p
                && key !in AccountsOf(FeedUpdateChanges(cfg, m, asset, feed, answer, decimals, updatedAt)) <==>
                && a != o.pegs.usdc && m.bootstrapped && PegMismatched(o, priced) && TouchedKeys(priced, a) != {}
                && Touched(p, o.pegs.usdbc) && !Touched(p, a) && Revalued(o, priced, p, updatedAt))
  {
    hide AfterRecompute, ChangesAmong, Revalued;
    if !FeedAccepted(answer, decimals) {
      return;
    }
    var o, a := cfg.oracle, Lower(asset);
    var priced := WithFeedPrice(m, asset, feed, answer, decimals, updatedAt);
    if Syncs(o, priced, Some(a)) {
      ReferenceUpdateTellsAll(cfg, priced, updatedAt, key);
    } else {
      SyncOk(o, priced, Some(a), updatedAt);
      UnreportedIff(cfg, priced, a, updatedAt, key);
    }
  }

  /** After an update of the reference everything that changed is reported. */
  lemma ReferenceUpdateTellsAll(cfg: Config, priced: Model, nowSec: int, key: string)
    requires Invariant(priced) && PegsOk(cfg.oracle.pegs) && key in priced.positions.at
    requires PegOff(cfg.oracle, priced)
    ensures var o, a := cfg.oracle, cfg.oracle.pegs.usdc;
            var synced := AfterSync(o, priced, Some(a), nowSec);
            var m' := AfterRecompute(o, synced, a, nowSec);
            && Invariant(synced) && key in m'.positions.at
            && (m'.positions.at[key] != priced.positions.at[key] ==>
                  key in AccountsOf(MergedChanges(RecomputeChanges(cfg, synced, a, nowSec),
                                                  SyncChanges(cfg, priced, Some(a), nowSec))))
  {
    hide AfterRecompute, ChangesAmong, MergedChanges;
    var o, a := cfg.oracle, cfg.oracle.pegs.usdc;
    var synced := AfterSync(o, priced, Some(a), nowSec);
    SyncOk(o, priced, Some(a), nowSec);
    MergeCovers(RecomputeChanges(cfg, synced, a, nowSec), SyncChanges(cfg, priced, Some(a), nowSec));
    UnreportedIff(cfg, RegisterPeg(o, priced, nowSec), o.pegs.usdbc, nowSec, key);
    SyncAligns(o, priced, nowSec);
    UnreportedIff(cfg, synced, a, nowSec, key);
  }

  /** From the asset and the prices after its update: it is the peg or its reference, or the two then have
      one price, or one of them has none. */
  predicate PegSettled(pegs: Pegs, key: string, prices: Prices) {
    || key == pegs.usdc || key == pegs.usdbc || pegs.usdbc !in prices
    || pegs.usdc !in prices || prices[pegs.usdc] <= 1 || prices[pegs.usdbc] == prices[pegs.usdc]
  }

  /** What the update changes of this position, it reports. */
  ghost predicate Tells(cfg: Config, m: Model, asset: Address, feed: Address, answer: int, decimals: int,
      updatedAt: int, key: string)
    requires Invariant(m) && key in m.positions.at
  {
    var m' := AfterFeedUpdate(cfg, m, asset, feed, answer, decimals, updatedAt);
    && key in m'.positions.at
    && (m'.positions.at[key] != m.positions.at[key] ==>
          key in AccountsOf(FeedUpdateChanges(cfg, m, asset, feed, answer, decimals, updatedAt)))
  }

  /** Then every change is reported, whatever positions and feeds there are. */
  lemma FeedUpdateTellsAll(cfg: Config, m: Model, asset: Address, feed: Address, answer: int, decimals: int,
      updatedAt: int, key: string)
    requires Invariant(m) && PegsOk(cfg.oracle.pegs) && key in m.positions.at && FeedAccepted(answer, decimals)
    requires PegSettled(cfg.oracle.pegs, Lower(asset), m.prices[Lower(asset) := answer * Pow10(18 - decimals)])
    ensures Tells(cfg, m, asset, feed, answer, decimals, updatedAt, key)
  {
    hide AfterFeedUpdate, FeedUpdateChanges, Revalued, Invariant;
    FeedUpdateSilenceIff(cfg, m, asset, feed, answer, decimals, updatedAt, key);
  }

  /** A seeded position with one unit of one collateral asset. */
  function Holder(account: Address, key: string): UserPosition {
    NewPosition(account, 0).(
      collateral := Empty().Set(key, 1), collateralIndex := map[key := WAD], highConfidence := true, seeded := true,
      lastCollateralBase := Some(1), lastDebtBase := Some(0), lastThreshold := Some(0), cachedHf := 5)
  }

  /** Account p holds the pegged asset, and q another. */
  function TwoHoldersAt(pegs: Pegs, other: string, prices: Prices): Model {
    Model(Empty().Set("p", Holder("p", pegs.usdbc)).Set("q", Holder("q", other)),
          prices, map[], map[pegs.usdbc := FreshReserve, other := FreshReserve], 0, true)
  }

  lemma TwoHoldersOk(pegs: Pegs, other: string, prices: Prices)
    requires PegsOk(pegs) && Lower(other) == other
    ensures var m := TwoHoldersAt(pegs, other, prices);
            && m.positions.at == map["p" := Holder("p", pegs.usdbc), "q" := Holder("q", other)]
            && Invariant(m)
  {
    var r := map[pegs.usdbc := FreshReserve, other := FreshReserve];
    HolderOk("p", pegs.usdbc, r);
    HolderOk("q", other, r);
    assert Lower("p") == "p" && Lower("q") == "q";
    hide Holder, PositionOk;
    TwoStored(Holder("p", pegs.usdbc), Holder("q", other), r);
  }

  lemma TwoStored(p: UserPosition, q: UserPosition, r: Reserves)
    requires KeyOf(p) == "p" && KeyOf(q) == "q" && PositionOk(p, r) && PositionOk(q, r)
    ensures var positions := Empty().Set("p", p).Set("q", q);
            positions.at == map["p" := p, "q" := q] && Stored(positions, r)
  {
    hide PositionOk;
    SetValid(Empty<UserPosition>(), "p", p);
    SetValid(Empty().Set("p", p), "q", q);
  }

  lemma HolderOk(account: Address, key: string, r: Reserves)
    requires Lower(key) == key && key in r
    ensures PositionOk(Holder(account, key), r) && Holder(account, key).account == account
  {
    SetValid(Empty<nat>(), key, 1);
    assert Empty<nat>().Set(key, 1).at.Keys == {key};
  }

  lemma HolderHf(o: Oracle, n: Model, account: Address, key: string, nowSec: int)
    requires n.bootstrapped && PriceIn(o, n, key, nowSec).Some?
    requires key in n.feeds ==> !IsStale(o, n.feeds[key], nowSec)
    ensures HfOf(o, n, Holder(account, key), nowSec) == NoDebt
    ensures Committed(o, n, Holder(account, key), nowSec).cachedHf == MAX_UINT256
  {
    hide EffectivePrice, IsStale;
    var p := Holder(account, key);
    assert AssetKeys(p) == [key] && [key][..0] == [];
    assert MissingAmong(o, n, p, [], nowSec) == [] && StaleAmong(o, n, p, [], nowSec) == [];
    assert [key][..|[key]| - 1] == [];
    assert !(key in n.feeds && IsStale(o, n.feeds[key], nowSec));
    assert StaleAmong(o, n, p, [key], nowSec) == [];
  }

  /** Aligning a mismatched peg prices it at its reference, from a feed that is never stale. */
  lemma AlignedPeg(o: Oracle, m: Model, nowSec: int)
    requires PegsOk(o.pegs) && PegMismatched(o, m)
    ensures var n := Normalized(o, m, nowSec);
            && n.bootstrapped == m.bootstrapped && PriceIn(o, n, o.pegs.usdbc, nowSec).Some?
            && (o.pegs.usdbc in n.feeds ==> !IsStale(o, n.feeds[o.pegs.usdbc], nowSec))
  {
  }

  /** Otherwise some positions are changed unreported. */
  lemma UnsettledIsSilent(cfg: Config, asset: Address, feed: Address, answer: int, decimals: int, updatedAt: int,
      prices: Prices) returns (m: Model)
    requires PegsOk(cfg.oracle.pegs) && FeedAccepted(answer, decimals)
    requires !PegSettled(cfg.oracle.pegs, Lower(asset), prices[Lower(asset) := answer * Pow10(18 - decimals)])
    ensures m == TwoHoldersAt(cfg.oracle.pegs, Lower(asset), prices)
    ensures m.prices == prices && Invariant(m) && "p" in m.positions.at
    ensures !Tells(cfg, m, asset, feed, answer, decimals, updatedAt, "p")
  {
    var o, a := cfg.oracle, Lower(asset);
    LowerIdempotent(asset);
    m := TwoHoldersAt(o.pegs, a, prices);
    TwoHoldersOk(o.pegs, a, prices);
    hide TwoHoldersAt, Invariant, Normalized, HfOf, AfterFeedUpdate, FeedUpdateChanges, Commit, IsStale, EffectivePrice;
    SilentUpdate(cfg, m, asset, feed, answer, decimals, updatedAt);
  }

  lemma SilentUpdate(cfg: Config, m: Model, asset: Address, feed: Address, answer: int, decimals: int, updatedAt: int)
    requires PegsOk(cfg.oracle.pegs) && FeedAccepted(answer, decimals) && Invariant(m) && m.bootstrapped
    requires var pegs := cfg.oracle.pegs;
             && m.positions.at == map["p" := Holder("p", pegs.usdbc), "q" := Holder("q", Lower(asset))]
             && !PegSettled(pegs, Lower(asset), m.prices[Lower(asset) := answer * Pow10(18 - decimals)])
    ensures !Tells(cfg, m, asset, feed, answer, decimals, updatedAt, "p")
  {
    hide Invariant, Normalized, HfOf, AfterFeedUpdate, FeedUpdateChanges, Commit, IsStale, EffectivePrice;
    var o, a := cfg.oracle, Lower(asset);
    var priced := WithFeedPrice(m, asset, feed, answer, decimals, updatedAt);
    assert PegMismatched(o, priced);
    AlignedPeg(o, priced, updatedAt);
    HolderHf(o, Normalized(o, priced, updatedAt), "p", o.pegs.usdbc, updatedAt);
    assert Touched(priced.positions.at["q"], a);
    assert "q" in TouchedKeys(priced, a);
    FeedUpdateSilenceIff(cfg, m, asset, feed, answer, decimals, updatedAt, "p");
  }

  /** A caller can tell from the asset and the prices alone whether an update of it reports every change. */
  lemma FeedUpdateTellsAllIff(cfg: Config, asset: Address, feed: Address, answer: int, decimals: int, updatedAt: int,
      prices: Prices)
    requires PegsOk(cfg.oracle.pegs) && FeedAccepted(answer, decimals)
    ensures (forall m: Model, key: string :: m.prices == prices && Invariant(m) && key in m.positions.at ==>
               Tells(cfg, m, asset, feed, answer, decimals, updatedAt, key))
            <==> PegSettled(cfg.oracle.pegs, Lower(asset), prices[Lower(asset) := answer * Pow10(18 - decimals)])
  {
    hide Tells, Invariant, PegSettled;
    if PegSettled(cfg.oracle.pegs, Lower(asset), prices[Lower(asset) := answer * Pow10(18 - decimals)]) {
      forall m: Model, key: string | m.prices == prices && Invariant(m) && key in m.positions.at
        ensures Tells(cfg, m, asset, feed, answer, decimals, updatedAt, key)
      {
        FeedUpdateTellsAll(cfg, m, asset, feed, answer, decimals, updatedAt, key);
      }
    } else {
      var m := UnsettledIsSilent(cfg, asset, feed, answer, decimals, updatedAt, prices);
    }
  }

  /** The events whose position is judged anew: a seeded user's, not deleted by the event. */
  predicate JudgesUser(cfg: Config, m: Model, e: PoolEvent) {
    && e.name != ReserveDataUpdated && !Ignored(cfg, m, e)
    && var p := WithMoved(m, e, ResolveUser(e).value).positions.at[Lower(ResolveUser(e).value)];
       p.seeded && !(e.name == LiquidationCall && DebtFree(p))
  }

  /** A pool event reports its own account at most. It changes another position that it keeps exactly
      when it judges its user while the peg is mispriced, and aligning them revalues that holder. */
  lemma EventSilenceIff(cfg: Config, m: Model, e: PoolEvent, nowSec: int, key: string)
    requires Invariant(m) && key in m.positions.at && key in AfterEvent(cfg, m, e, nowSec).positions.at
    requires ResolveUser(e).Some? ==> Lower(ResolveUser(e).value) != key
    ensures key !in AccountsOf(EventOutcome(cfg, m, e, nowSec).changes)
    ensures var o, p := cfg.oracle, m.positions.at[key];
            AfterEvent(cfg, m, e, nowSec).positions.at[key] != p <==>
            && JudgesUser(cfg, m, e) && m.bootstrapped && PegMismatched(o, m) && Touched(p, o.pegs.usdbc)
            && Revalued(o, WithMoved(m, e, ResolveUser(e).value), p, nowSec)
  {
    hide HardCapped, AfterOwnRecompute, WithMoved, Revalued, DebtFree, Stored;
    EventReportsOwn(cfg, m, e, nowSec);
    if e.name != ReserveDataUpdated && !Ignored(cfg, m, e) {
      var user := ResolveUser(e).value;
      var m1 := WithMoved(m, e, user);
      WithMovedOk(m, e, user);
      MovesOnlyUser(m, e, user, key);
      CapOnlyRemoves(cfg, m1, e.block, key);
      if JudgesUser(cfg, m, e) {
        OwnRecomputeElsewhere(cfg.oracle, m1, Lower(user), nowSec, key);
        CapOnlyRemoves(cfg, AfterOwnRecompute(cfg.oracle, m1, Lower(user), nowSec), e.block, key);
      }
    }
  }

  /** The user's own position, if it is kept: it is reported exactly when it is judged with a numeric
      result, as the aligned prices judge the moved balances; else only the balances move, so that a
      change of its health factor is always reported. */
  lemma EventReportsItsUserIff(cfg: Config, m: Model, e: PoolEvent, nowSec: int)
    requires Invariant(m) && e.name != ReserveDataUpdated && !Ignored(cfg, m, e)
    ensures var o, key := cfg.oracle, Lower(ResolveUser(e).value);
            var m1, m' := WithMoved(m, e, ResolveUser(e).value), AfterEvent(cfg, m, e, nowSec);
            && key in m1.positions.at
            && var p := m1.positions.at[key];
               var r := HfOf(o, Normalized(o, m1, nowSec), p, nowSec);
               && (key in AccountsOf(EventOutcome(cfg, m, e, nowSec).changes) <==>
                   JudgesUser(cfg, m, e) && Numeric(r))
               && (key in m'.positions.at ==>
                     m'.positions.at[key] == if JudgesUser(cfg, m, e) then Commit(p, r) else p)
  {
    hide HardCapped, AfterOwnRecompute, WithMoved, DebtFree, HfOf, Normalized, Commit, PositionOk;
    var user := ResolveUser(e).value;
    var key, m1 := Lower(user), WithMoved(m, e, user);
    WithMovedOk(m, e, user);
    CapOnlyRemoves(cfg, m1, e.block, key);
    if JudgesUser(cfg, m, e) {
      OwnRecomputeOwn(cfg.oracle, m1, key, nowSec);
      OwnRecomputeOk(cfg.oracle, m1, key, nowSec);
      CapOnlyRemoves(cfg, AfterOwnRecompute(cfg.oracle, m1, key, nowSec), e.block, key);
    }
  }

  /** Judging one position: what is stored, and that judging it again says the same. */
  lemma OwnRecomputeOwn(o: Oracle, m: Model, own: string, nowSec: int)
    requires own in m.positions.at
    ensures var m', p := AfterOwnRecompute(o, m, own, nowSec), m.positions.at[own];
            var r := HfOf(o, Normalized(o, m, nowSec), p, nowSec);
            && own in m'.positions.at && m'.positions.at[own] == Commit(p, r)
            && (Numeric(HfOf(o, m', m'.positions.at[own], nowSec)) <==> Numeric(r))
  {
    NormalizedKeeps(o, m, nowSec);
    var m1, n, p := AfterRecomputeHf(o, m, nowSec), Normalized(o, m, nowSec), m.positions.at[own];
    var m' := AfterOwnRecompute(o, m, own, nowSec);
    if m.bootstrapped {
      hide HfOf, Commit, Normalized;
      CommittedAgain(o, n, m1, p, nowSec);
      HfSame(o, n, p, m1, p, nowSec);
      CommittedAgain(o, m1, m', p, nowSec);
    } else {
      hide Normalized;
      UnpricedCommits(p, HfOf(o, n, p, nowSec));
      UnpricedCommits(p, HfOf(o, m, p, nowSec));
    }
  }

  lemma UnpricedCommits(p: UserPosition, r: HfResult)
    requires !Numeric(r)
    ensures Commit(p, r) == p
  {
  }

  lemma MovesOnlyUser(m: Model, e: PoolEvent, user: Address, key: string)
    requires key in m.positions.at && key != Lower(user)
    ensures var m1 := WithMoved(m, e, user);
            && key in m1.positions.at && m1.positions.at[key] == m.positions.at[key]
            && m1.prices == m.prices && m1.feeds == m.feeds && m1.bootstrapped == m.bootstrapped
  {
    hide Moved;
  }

  lemma CapOnlyRemoves(cfg: Config, m: Model, block: int, key: string)
    ensures key in HardCapped(cfg, m, block).positions.at ==>
              key in m.positions.at && HardCapped(cfg, m, block).positions.at[key] == m.positions.at[key]
  {
    hide CapVictims, InactiveVictims;
  }

  /** Judging one position changes another exactly when it is a holder of the mismatched peg and revalued. */
  lemma OwnRecomputeElsewhere(o: Oracle, m: Model, own: string, nowSec: int, key: string)
    requires own in m.positions.at && key in m.positions.at && key != own
    ensures own in AfterRecomputeHf(o, m, nowSec).positions.at
    ensures var m', p := AfterOwnRecompute(o, m, own, nowSec), m.positions.at[key];
            && key in m'.positions.at
            && (m'.positions.at[key] != p <==>
                m.bootstrapped && PegMismatched(o, m) && Touched(p, o.pegs.usdbc) && Revalued(o, m, p, nowSec))
  {
    hide HfOf, Commit, Normalized;
    NormalizedKeeps(o, m, nowSec);
  }

  lemma EventReportsOwn(cfg: Config, m: Model, e: PoolEvent, nowSec: int)
    requires Invariant(m)
    ensures forall a :: a in AccountsOf(EventOutcome(cfg, m, e, nowSec).changes) ==>
              ResolveUser(e).Some? && a == Lower(ResolveUser(e).value)
  {
    hide HfOf, WithMoved, AfterOwnRecompute, DebtFree, PositionOk;
    if e.name != ReserveDataUpdated && !Ignored(cfg, m, e) {
      var user := ResolveUser(e).value;
      WithMovedOk(m, e, user);
      OwnRecomputeOk(cfg.oracle, WithMoved(m, e, user), Lower(user), nowSec);
    }
  }

  /** Synchronising for an updated reference leaves the peg aligned. */
  lemma SyncAligns(o: Oracle, m: Model, nowSec: int)
    requires PegsOk(o.pegs) && ReferencePrice(o, m.prices).Some?
    ensures !PegMismatched(o, RegisterPeg(o, m, nowSec))
    ensures !PegMismatched(o, AfterRecompute(o, RegisterPeg(o, m, nowSec), o.pegs.usdbc, nowSec))
  {
    hide CommitAll, Normalized;
    var r := RegisterPeg(o, m, nowSec);
    NormalizedIsAligned(o, r, nowSec);
    CommitAllMarket(o, Normalized(o, r, nowSec), TouchedKeys(r, o.pegs.usdbc) + {}, nowSec);
    CommitAllMarket(o, Normalized(o, r, nowSec),
      TouchedKeys(r, o.pegs.usdbc) + if PegMismatched(o, r) then TouchedKeys(r, o.pegs.usdbc) else {}, nowSec);
  }
}
