// The position record, the results that a recomputation can have, and fixed-point units.

module Positions {
  import opened Options
  import opened Text
  import opened Ordered

  const WAD := 1_000_000_000_000_000_000
  const BPS := 10_000
  const BASE_LT_BPS := 8500
  const MAX_UINT256 := 0x1_0000_0000_0000_0000_0000_0000_0000_0000_0000_0000_0000_0000_0000_0000_0000_0000 - 1

  datatype UserPosition = UserPosition(
    account: Address,
    collateral: OMap<nat>,
    debt: OMap<nat>,
    collateralIndex: map<string, nat>,
    debtIndex: map<string, nat>,
    cachedHf: nat,
    highConfidence: bool,
    seeded: bool,
    lastConfirmedBlock: nat,
    lastActivityBlock: nat,
    eMode: nat,
    lastCollateralBase: Option<nat>,
    lastDebtBase: Option<nat>,
    lastThreshold: Option<nat>)

  datatype HfResult =
    | HfOk(hf: nat)
    | PriceIncomplete(missing: seq<string>)
    | PriceStale(stale: seq<string>)
    | NoDebt
    | HfError(reason: string)

  /** The results that carry a health factor. */
  predicate Numeric(r: HfResult) {
    r.HfOk? || r.NoDebt?
  }

  /** `calculateHealthFactor` on on-chain totals. */
  function CalculateHealthFactor(collateralBase: nat, debtBase: nat, threshold: nat): nat {
    if debtBase == 0 then MAX_UINT256 else collateralBase * threshold * WAD / (debtBase * BPS)
  }
}

/** Powers of ten, floor division and order on natural numbers. */
