// The policy that decides which health factor a recomputation may commit.

module HfPolicy {
  import opened Options
  import opened Positions
  import opened Floors

  const HF_POLICY_CAP_WAD := 1_000 * WAD
  const HF_DANGER_ZONE_MAX_WAD := 3 * WAD / 2
  const HF_DIVERGENCE_RATIO_BPS := 5_000
  const DUST_DEBT_BASE_THRESHOLD := 1_000_000

  function AggregateHf(p: UserPosition): Option<nat> {
    if p.lastCollateralBase.None? || p.lastDebtBase.None? || p.lastThreshold.None? then None
    else Some(CalculateHealthFactor(p.lastCollateralBase.value, p.lastDebtBase.value, p.lastThreshold.value))
  }

  predicate IsDangerZone(hf: nat) {
    if hf >= MAX_UINT256 then false
    else if hf < HF_DANGER_ZONE_MAX_WAD then true
    else (if hf > WAD then hf - WAD else WAD - hf) < WAD / 2
  }

  function RelativeDivergenceBps(baseline: nat, proposed: nat): nat {
    if baseline == 0 || baseline >= MAX_UINT256 then 0
    else (if baseline > proposed then baseline - proposed else proposed - baseline) * BPS / baseline
  }

  function CapPerReserveHf(hf: nat, p: UserPosition): nat {
    if hf > HF_POLICY_CAP_WAD then HF_POLICY_CAP_WAD
    else if p.lastDebtBase.Some? && 0 < p.lastDebtBase.value < DUST_DEBT_BASE_THRESHOLD && hf > HF_DANGER_ZONE_MAX_WAD
    then HF_POLICY_CAP_WAD
    else hf
  }

  predicate RejectsOverwrite(p: UserPosition, proposed: nat) {
    && p.highConfidence && p.lastDebtBase.Some? && p.lastCollateralBase.Some?
    && RelativeDivergenceBps(p.cachedHf, proposed) > HF_DIVERGENCE_RATIO_BPS
  }

  function ResolveEffectiveHf(p: UserPosition, perReserveHf: nat): nat {
    var capped := CapPerReserveHf(perReserveHf, p);
    var aggregate := AggregateHf(p);
    if aggregate.Some? && IsDangerZone(aggregate.value) then aggregate.value
    else if p.highConfidence && aggregate.Some?
            && RelativeDivergenceBps(aggregate.value, capped) > HF_DIVERGENCE_RATIO_BPS
    then aggregate.value
    else if RejectsOverwrite(p, capped) then p.cachedHf
    else capped
  }

  /** The health factor a result may commit; None leaves the cached one alone. */
  function ResolveHf(p: UserPosition, r: HfResult): (hf: Option<nat>)
    ensures hf.Some? <==> Numeric(r)
  {
    match r
    case PriceIncomplete(_) => None
    case PriceStale(_) => None
    case HfError(_) => None
    case NoDebt =>
      if p.lastDebtBase.Some? && p.lastDebtBase.value > 0 then
        if AggregateHf(p).Some? then Some(ResolveEffectiveHf(p, AggregateHf(p).value)) else Some(p.cachedHf)
      else Some(MAX_UINT256)
    case HfOk(hf) => Some(ResolveEffectiveHf(p, hf))
  }

  /** The position after a recomputation. */
  function Commit(p: UserPosition, r: HfResult): UserPosition {
    match ResolveHf(p, r)
    case None => p
    case Some(hf) => p.(cachedHf := hf)
  }

  /** The danger zone is exactly "below 1.5"; its second test never adds anything. */
  lemma DangerZoneIsBelowOnePointFive(hf: nat)
    ensures IsDangerZone(hf) <==> hf < HF_DANGER_ZONE_MAX_WAD
  {
  }

  lemma NoSelfDivergence(hf: nat)
    ensures RelativeDivergenceBps(hf, hf) == 0
  {
  }

  /** Committing is idempotent: the same result resolved again after the commit gives the same value. */
  lemma CommitIdempotent(p: UserPosition, r: HfResult)
    ensures Commit(Commit(p, r), r) == Commit(p, r)
  {
    hide RelativeDivergenceBps, CalculateHealthFactor, IsDangerZone;
    if Numeric(r) {
      NoSelfDivergence(ResolveHf(p, r).value);
    }
  }

  /** While the last on-chain aggregate is below 1.5, every numeric result commits exactly it. */
  lemma DangerZonePrevails(p: UserPosition, r: HfResult)
    requires Numeric(r)
    ensures AggregateHf(p).Some? && AggregateHf(p).value < HF_DANGER_ZONE_MAX_WAD ==>
              Commit(p, r).cachedHf == AggregateHf(p).value
  {
    hide RelativeDivergenceBps;
    if AggregateHf(p).Some? {
      DangerZoneIsBelowOnePointFive(AggregateHf(p).value);
    }
  }

  /** An on-chain snapshot with collateral * threshold < debt * 10000 is under-collateralised, and no
      local price can make a commit say otherwise; without a numeric result nothing is committed. */
  lemma SnapshotIsNeverMasked(p: UserPosition, r: HfResult)
    requires p.lastCollateralBase.Some? && p.lastDebtBase.Some? && p.lastThreshold.Some?
    requires p.lastDebtBase.value > 0
    ensures AggregateHf(p).value < WAD <==>
              p.lastCollateralBase.value * p.lastThreshold.value < p.lastDebtBase.value * BPS
    ensures Numeric(r) && p.lastCollateralBase.value * p.lastThreshold.value < p.lastDebtBase.value * BPS ==>
              Commit(p, r).cachedHf < WAD
    ensures !Numeric(r) ==> Commit(p, r) == p
  {
    hide RelativeDivergenceBps, IsDangerZone;
    FlooredBelow(p.lastCollateralBase.value * p.lastThreshold.value, p.lastDebtBase.value * BPS, WAD);
    if Numeric(r) {
      DangerZonePrevails(p, r);
    }
  }
}
