# Verification model of the liquidation bot

The bot keeps an in-memory replica of Aave positions and sends liquidation and arbitrage transactions. This project
models the parts of it that have to stay right over long runs, and proves what they promise:

- **Local position model** (`PegPrices`, `HfPolicy`, `PositionModel`, `PositionRuns`, `PriceUpdates`, `HfArithmetic`,
  `DroppedInterest`, `Eviction`, `LocalPositionModel`, `ReachedModels`). `PositionModel` says as functions on a value what every operation does;
  `LocalPositionModel` is the object itself, whose methods update fields and are proved to do exactly that, with the
  mutual recursion of health-factor recomputation and peg synchronisation terminating on every state. About the
  functions: the invariant of every run, no balance left out of a health factor, one truthful report per account and
  price update, how balance changes move the health factor, and what eviction removes. `ReachedModels` exhibits runs that end in a
  model where a promise fails.
- **Snapshot text** (`SnapshotStore`, `BootstrapStore`). When exporting, printing, parsing and seeding again gives the
  same rows.
- **Nonces and execution** (`NonceManager`, `NonceSimulation`, `SafeExecutor`, `ExecutorProtocol`, `ResyncClashes`).
  The nonce manager as an object and as steps between awaits, each method one step; every execution as a state machine
  over its answers; any number of executions interleaved over one manager; and exactly when a resync makes two of them
  submit one nonce.
- **Caches** (`BorrowerCache`, `RouteCache`, `Dedupe`). An index against a scan, a cached selection against an uncached
  one, two duplicate filters against one specification.
- **Replay and paging** (`GapReplay`, `BorrowerPages`). Halving replay with a saved cursor; cursor paging over a listing.
- **Arithmetic** (`HfRegression`, `UsdEv`). Least squares in exact arithmetic; the rounding error of the profit verdict.

`Options`, `Text`, `Chains`, `Ordered`, `Floors` and `Positions` hold what these share: decimal and colon-joined text,
chain keys, insertion-ordered maps and the stable sort, floor division, and the position record.

Where the code does less than it or its tests say, the exact condition is proved:

- A second `release` is not always a no-op: once the nonce was handed out again, it frees a nonce in use
  (`SecondReleaseCollides`, `LateReleaseSafeIff`).
- `resync` is harmless exactly while no first nonce of the account is being read, with a nonce above all live ones and
  above all that callers in flight will still take from the replaced states (`ResyncSafeIff`). The executor checks none
  of that after a failed send: two executions come to submit one nonce exactly when the rule can be broken
  (`ResyncNeverClashesIff`), as in a run in which the chain reports the nonce of the failed send (`ResyncCanClash`).
- The route cache key leaves out the assets of the amounts: exactly then, within 30 seconds, can a second call be
  answered with the route of another input (`SecondCallTransparentIff`, `AssetsAreMissed`).
- Live logs that arrive during a gap replay can move the cursor past blocks never read (`LiveSaveSafeIff`,
  `LiveLogsCanSkipBlocks`).
- A price update or a pool event can change holders of the pegged asset without reporting them, exactly under the
  conditions of `FeedUpdateSilenceIff` and `EventSilenceIff`. From the asset and the prices alone a caller can tell
  whether an update of it reports every change (`FeedUpdateTellsAllIff`); `FeedUpdateCanBeSilent` is a run in which it
  does not.
- A supply or borrow overwrites the stored index and so drops accrued interest. A supply lowers the health
  factor in no market exactly when that interest is at most the amount (`SupplyLowersInNoMarketIff`,
  `BorrowRaisesInNoMarketIff`), and with more interest it never raises it (`AccruedSupplyNeverRaises`,
  `AccruedBorrowNeverLowers`); in a model that a run reaches, a supply lowers it and a borrow
  lifts it from below one to above (`DroppedInterestMovesHf`).
- `confirmOnChain` can exceed the cap (`ConfirmKeepsCapIff`).
- A position that borrowed zero is exported but lost by the round trip (`RoundTripCanFail`, `RoundTripIff`).
- The profit verdict truncates fractional basis points, which costs more than the final floors: with a fee of half a basis
  point a loss of 50 is reported as no loss (`HalfABasisPoint`). The floors alone bound the error exactly for a whole fee
  and a slippage that is whole or at least 200% (`WithinSlackIff`).
- A dedupe capacity below one still holds one key, unlike the websocket filter (`FiltersAgreeIff`).
- The second test of the danger zone adds nothing (`DangerZoneIsBelowOnePointFive`), and the filter that forgives healthy
  pegs never removes a missing asset (`MissingIsNeverForgiven`).

`dafny verify dfyconfig.toml` checks the whole project.

## Model

| member | source | states |
|---|---|---|
| LocalPositions.LocalPositionModel.constructor | src/monitors/localPositionModel.ts:111-130 | a new model is empty, unpriced and valid |
| LocalPositions.LocalPositionModel.RegisterReserve | src/monitors/localPositionModel.ts:171-183 | configures a reserve once, later calls change nothing |
| LocalPositions.LocalPositionModel.SetReserveLiquidationBonus | src/monitors/localPositionModel.ts:154-169 | sets the bonus, registering an unknown reserve first, and changes nothing else of it |
| LocalPositions.LocalPositionModel.RegisterPriceFeed | src/monitors/localPositionModel.ts:140-142 | sets a price and no feed state |
| LocalPositions.LocalPositionModel.RegisterBootstrapPrice | src/monitors/localPositionModel.ts:144-152 | sets price and feed state together under the lower-cased asset |
| LocalPositions.LocalPositionModel.MarkPricesBootstrapped | src/monitors/localPositionModel.ts:136-138 | prices count as complete from here on; nothing else changes |
| LocalPositions.LocalPositionModel.RemovePosition | src/monitors/localPositionModel.ts:194-196 | removes the account in any casing and counts no eviction |
| LocalPositions.LocalPositionModel.CollectPositionAssets | src/monitors/localPositionModel.ts:891-904 | the assets of positive balance, collateral first |
| LocalPositions.LocalPositionModel.CollectMissingPriceAssets | src/monitors/localPositionModel.ts:906-925 | the held assets without an effective price, each once, in order |
| LocalPositions.LocalPositionModel.CollectStalePriceAssets | src/monitors/localPositionModel.ts:927-954 | the held assets whose feed is older than one and a half heartbeats, in order |
| LocalPositions.LocalPositionModel.SumCollateral | src/monitors/localPositionModel.ts:567-578 | the loop accumulates the sum of floored weighted collateral |
| LocalPositions.LocalPositionModel.SumDebt | src/monitors/localPositionModel.ts:580-588 | the loop accumulates the sum of scaled, priced debt |
| LocalPositions.LocalPositionModel.RecomputeHf | src/monitors/localPositionModel.ts:546-599 | terminates on every state; aligns the peg, recomputing its holders when it had to, then gives the health factor of the aligned prices; nothing is summed while a priced peg differs from its resolvable reference |
| LocalPositions.LocalPositionModel.SyncDerivedPegPrices | src/monitors/localPositionModel.ts:321-356 | writes the peg exactly when it is off (or, without an updated reference, mispriced), and then recomputes and reports its holders; registering before recomputing ends the recursion |
| LocalPositions.LocalPositionModel.RecomputeTierChangesForAsset | src/monitors/localPositionModel.ts:601-639 | one pass that reads the shared positions anew after each nested recomputation equals one commit of all holders in the aligned market, and reports the holders with a numeric result in order |
| LocalPositions.LocalPositionModel.MaterializeHealthyPegPrices | src/monitors/localPositionModel.ts:845-870 | writes the peg from a fresh enough reference when it differs |
| LocalPositions.LocalPositionModel.CommitHfFromRecompute | src/monitors/localPositionModel.ts:641-648 | commits exactly the numeric results |
| LocalPositions.LocalPositionModel.ApplyFeedPriceUpdate | src/monitors/localPositionModel.ts:273-318 | rejects non-positive answers and over 18 decimals; otherwise prices, syncs the peg, recomputes, and merges the two lists by account |
| LocalPositions.LocalPositionModel.ApplyPriceEvent | src/monitors/localPositionModel.ts:358-377 | a feed update with the decimals of the known feed, or 8 |
| LocalPositions.LocalPositionModel.ApplyAaveEvent | src/monitors/localPositionModel.ts:206-271 | state and outcome of a pool event, over index updates, ignored users, unlisted reserves, first touches, deleting liquidations and recomputation |
| PositionRuns.MovedAmounts | src/monitors/localPositionModel.ts:229-257 | a pool event moves the two balances of every asset by the amounts it carries, cut off at zero, a liquidation both at once, and changes nothing else of the position but indexes |
| LocalPositions.LocalPositionModel.ApplyReserveIndexUpdate | src/monitors/localPositionModel.ts:794-806 | only the indexes the event carries change |
| LocalPositions.LocalPositionModel.ApplyHfResult | src/monitors/localPositionModel.ts:650-682 | recomputes and commits one position; reports it exactly for a numeric result |
| LocalPositions.LocalPositionModel.FindOrCreate | src/monitors/localPositionModel.ts:691-712 | the stored position, or a new one that is stored at once |
| LocalPositions.LocalPositionModel.ConfirmOnChain | src/monitors/localPositionModel.ts:379-403 | takes over the totals and the health factor, computed from them when the one given is zero |
| LocalPositions.LocalPositionModel.SeedFromOnChainSnapshot | src/monitors/localPositionModel.ts:405-458 | registering reserves while rows are written gives the same as registering all first; then the cap is enforced |
| LocalPositions.LocalPositionModel.EnforceHardCap | src/monitors/localPositionModel.ts:808-822 | the loop removes the least recently active excess, then the inactive healthy |
| LocalPositions.LocalPositionModel.EvictInactiveHealthy | src/monitors/localPositionModel.ts:824-834 | removes exactly the healthy positions inactive for long enough, and counts them |
| LocalPositions.LocalPositionModel.EvictUnderMemoryPressure | src/monitors/localPositionModel.ts:477-499 | the loop sheds sheddable positions by activity until three quarters of the cap; returns how many are gone, which is what the total grew by |
| LocalPositions.LocalPositionModel.ExportBootstrapSnapshots | src/monitors/localPositionModel.ts:505-536 | a row for every seeded position with a debt entry, in order |
| LocalPositions.JudgeStep | src/monitors/localPositionModel.ts:603-611 | a step of the recomputation loop commits one more holder of the aligned market, whatever was committed before it |
| LocalPositions.RecomputeInTwoSteps | src/monitors/localPositionModel.ts:553-554 | synchronising and then materialising equals one alignment followed by one commit of the holders |
| LocalPositions.RowsEarly | src/monitors/localPositionModel.ts:425-440 | rows read the same configuration before and after later reserves are registered |
| PositionRuns.ApplyKeepsInvariant | src/monitors/localPositionModel.ts:124-458 | every operation keeps: positions under their own key, index keys equal balance keys, every held asset configured |
| PositionRuns.RunsKeepInvariant | src/monitors/localPositionModel.ts:111-834 | so does every run of operations from an empty model |
| PositionRuns.NothingIsSkipped | src/monitors/localPositionModel.ts:567-588 | a numeric result sums every positive balance, each configured and priced above 1: no skipping branch was taken |
| PositionRuns.NormalizedIsAligned | src/monitors/localPositionModel.ts:321-356 | alignment leaves no priced peg off its reference, and aligning again changes nothing |
| PositionRuns.MovedOk | src/monitors/localPositionModel.ts:740-792 | supplies, withdrawals, borrows, repayments and liquidations keep indexes with balances |
| PositionRuns.WithSeedOk | src/monitors/localPositionModel.ts:405-440 | so does seeding from a snapshot |
| PriceUpdates.CommitsCombine | src/monitors/localPositionModel.ts:601-648 | two commits in one market are one commit of the union |
| PriceUpdates.CommittedAgain | src/monitors/localPositionModel.ts:641-648 | judging a position again in the same market commits the same value |
| PriceUpdates.HfSame | src/monitors/localPositionModel.ts:546-599 | the result depends on prices, configuration and balances only, not on what is cached |
| PriceUpdates.RecomputeReports | src/monitors/localPositionModel.ts:601-639 | one change per account, each as the model then holds it |
| PriceUpdates.FirstCommitsSurvive | src/monitors/localPositionModel.ts:304-305 | the direct recomputation does not change what the peg recomputation reported |
| PriceUpdates.FeedUpdateReports | src/monitors/localPositionModel.ts:273-318 | at most one change per account, in any casing, each exactly the health factor and tier the model holds on return |
| PriceUpdates.UnreportedIff | src/monitors/localPositionModel.ts:601-639 | a recomputation changes a position unreported exactly when it has holders to judge, finds the peg mispriced, and the position holds the peg but not the asset and is revalued by aligning |
| PriceUpdates.FeedUpdateSilenceIff | src/monitors/localPositionModel.ts:273-318 | a rejected update changes nothing; an accepted one changes a position unreported exactly when the asset is not the reference, has holders, the peg is mispriced under the new price, and the position holds the peg but not the asset and is revalued |
| PriceUpdates.FeedUpdateTellsAll | src/monitors/localPositionModel.ts:304-305 | every change is reported when the asset is the peg or its reference, or the two then have one price, or one has none |
| PriceUpdates.FeedUpdateTellsAllIff | src/monitors/localPositionModel.ts:273-318 | whatever positions and feeds there are, an update reports every change exactly under that condition on the asset and the prices |
| PriceUpdates.EventSilenceIff | src/monitors/localPositionModel.ts:206-271 | a pool event reports at most its own account, and changes another position exactly when it judges its user while the peg is mispriced and aligning revalues that holder |
| PriceUpdates.EventReportsItsUserIff | src/monitors/localPositionModel.ts:206-271 | the user is reported exactly when judged with a numeric result; what is then stored is the moved position with that result committed, else the moved position alone |
| ReachedModels.FeedUpdateCanBeSilent | src/monitors/localPositionModel.ts:304-305 | a run to a model in which updating one asset changes a holder of the mispriced peg and does not report it |
| HfPolicy.CommitIdempotent | src/monitors/localPositionHfPolicy.ts:96-148 | resolving the same result after its commit gives the same value |
| HfPolicy.DangerZonePrevails | src/monitors/localPositionHfPolicy.ts:96-102 | with a last aggregate below 1.5, every numeric result commits exactly the aggregate |
| HfPolicy.SnapshotIsNeverMasked | src/monitors/localPositionHfPolicy.ts:126-148 | collateral*threshold < debt*10000 on chain commits a value below one whatever local prices say; other results commit nothing |
| HfPolicy.DangerZoneIsBelowOnePointFive | src/monitors/localPositionHfPolicy.ts:45-54 | the danger zone is exactly below 1.5; the distance test never decides |
| PegPrices.ReferencesAreNotPegged | src/oracle/pegPriceNormalizer.ts:17-29 | pegs do not chain, and the two lookups are inverse |
| PegPrices.MissingIsNeverForgiven | src/oracle/healthyPegAsset.ts:79-96 | an asset without an effective price is never filtered from the gap list |
| HfArithmetic.BelowOneIff | src/monitors/localPositionModel.ts:567-595 | the floored health factor is below one exactly when floored weighted collateral is below the debt |
| HfArithmetic.SupplyNeverLowers | src/monitors/localPositionModel.ts:714-746 | when the dropped interest is at most the amount, a supply never lowers the result, through all floor divisions, no debt on top |
| HfArithmetic.WithdrawNeverRaises | src/monitors/localPositionModel.ts:748-758 | a withdrawal never raises it, also when it removes the entry |
| HfArithmetic.BorrowNeverRaises | src/monitors/localPositionModel.ts:727-766 | a borrow never raises it, under the same condition |
| HfArithmetic.RepayNeverLowers | src/monitors/localPositionModel.ts:768-778 | a repayment never lowers it |
| HfArithmetic.SupplyKeepsBalanceIff | src/monitors/localPositionModel.ts:740-746 | a supply grows the scaled balance by the amount less the dropped interest, so that it does not shrink exactly when that is at most the amount |
| HfArithmetic.BorrowKeepsBalanceIff | src/monitors/localPositionModel.ts:760-766 | the same for a borrow |
| HfArithmetic.AccruedSupplyNeverRaises | src/monitors/localPositionModel.ts:714-746 | when the dropped interest is at least the amount, a supply never raises the result, through all floor divisions |
| HfArithmetic.AccruedBorrowNeverLowers | src/monitors/localPositionModel.ts:727-766 | when the dropped interest is at least the amount, a borrow never lowers it |
| DroppedInterest.SupplyLowersInNoMarketIff | src/monitors/localPositionModel.ts:714-746 | over all markets and positions with one collateral entry: a supply to it never lowers the result exactly when the interest it drops is at most the amount |
| DroppedInterest.BorrowRaisesInNoMarketIff | src/monitors/localPositionModel.ts:727-766 | over all markets and positions with one debt entry: a borrow on it never raises the result exactly when the interest it drops is at most the amount |
| ReachedModels.DroppedInterestMovesHf | src/monitors/localPositionModel.ts:740-766 | a run to a model in which supplying one unit nearly halves the health factor and borrowing one lifts it from below one to above |
| HfArithmetic.WithdrawUndoesSupplyIff | src/monitors/localPositionModel.ts:740-758 | withdrawing what was just supplied gives the balances back, order included, exactly unless a zero entry was stored |
| HfArithmetic.RepayUndoesBorrowIff | src/monitors/localPositionModel.ts:760-778 | the same for repaying a borrow |
| Floors.FlooredBelow | src/monitors/localPositionModel.ts:595 | a floored fixed-point ratio is below one exactly when the ratio is |
| Eviction.CapVictimsAreOldest | src/monitors/localPositionModel.ts:813-820 | exactly the excess is removed, and no survivor was active before a victim |
| Eviction.HardCapHolds | src/monitors/localPositionModel.ts:808-822 | the size ends within the cap and the total grows by the number removed |
| Eviction.HardCapRemovesOldest | src/monitors/localPositionModel.ts:808-834 | a removed position was active no later than any survivor unless removed as inactive and healthy |
| Eviction.EventsAndSeedsKeepTheCap | src/monitors/localPositionModel.ts:206-271 | pool events keep the cap; seeding ends within it |
| Eviction.RunsKeepTheCap | src/monitors/localPositionModel.ts:206-458 | over any run whose confirmations find a known account or room, the size never exceeds the cap |
| Eviction.ConfirmKeepsCapIff | src/monitors/localPositionModel.ts:388 | a confirmation keeps the cap exactly for a known account or with room |
| Eviction.PressureOutcome | src/monitors/localPositionModel.ts:477-499 | sheds only healthy positions of 1.5 or more; ends at three quarters of the cap or with none of those left; counts every removal |
| Eviction.PressureRemovesOnlyHealthy | src/monitors/localPositionModel.ts:477-499 | with a threshold above both tiers, everything removed is healthy |
| Eviction.ThresholdProtectsIff | src/monitors/localPositionModel.ts:460-471 | the threshold shields at-risk positions exactly when above both tier limits and at least one |
| PegPrices.BasePegsOk | src/oracle/pegPriceNormalizer.ts:1-22 | the program's two assets differ and are stored lower-cased, as all peg theorems assume |
| Ordered.SortByCorrect | src/monitors/localPositionModel.ts:480-482 | the sort is ascending and a permutation |
| SnapshotStore.RoundTripIff | src/monitors/bootstrapSnapshotStore.ts:70-112 | export, seed an empty model, export again: the same rows exactly when each position owes something, lists collateral first, and its health factor is positive or recomputes to zero |
| SnapshotStore.RoundTrip | src/monitors/bootstrapSnapshotStore.ts:70-112 | always without zero balances and with positive health factors |
| ReachedModels.RoundTripCanFail | src/monitors/localPositionModel.ts:508-510 | a run, a seed and a borrow of zero, to a model whose position is exported and then lost |
| SnapshotStore.ParsesBack | src/monitors/bootstrapSnapshotStore.ts:74-87 | the exported text of a position parses to its numbers and balances |
| SnapshotStore.RebuiltKeys | src/monitors/localPositionModel.ts:425-440 | seeding rebuilds the balances with collateral rows first |
| SnapshotStore.ImportSeeds | src/monitors/bootstrapSnapshotStore.ts:70-91 | importing exported rows stores exactly those accounts, in order, evicting none |
| BootstrapStore.ApplyToModel | src/monitors/bootstrapSnapshotStore.ts:70-91 | seeds row by row; where a number does not parse, exactly the rows before it stay seeded |
| BootstrapStore.BuildSnapshotFromModel | src/monitors/bootstrapSnapshotStore.ts:94-112 | the exported rows, their number, chain, source and time of saving, and a block number that parses back |
| Text.ParsePrintInt | src/monitors/localPositionModel.ts:519-532 | printing an integer and parsing the text gives it back |
| NonceManager.LocalNonceManager.BeginReserve | src/executors/nonceManager.ts:25-27 | before the await: the current state of the key is captured, or created |
| NonceManager.LocalNonceManager.FinishReserve | src/executors/nonceManager.ts:29-42 | after it: takes from the captured state, or throws when that has no nonce |
| NonceManager.LocalNonceManager.Release | src/executors/nonceManager.ts:45-56 | gives back to the state the key has now, if the nonce is active there |
| NonceManager.LocalNonceManager.Resync | src/executors/nonceManager.ts:58-65 | replaces the state of the key by an empty one at the nonce |
| NonceManager.LocalNonceManager.InitRejected | src/executors/nonceManager.ts:74-77 | a failed read drops whatever state the key has |
| NonceManager.TakeSmallestFree | src/executors/nonceManager.ts:29-42 | reserving hands out the smallest free nonce and keeps active and released disjoint and gap-free |
| NonceManager.GiveBackFrees | src/executors/nonceManager.ts:50-55 | releasing an active nonce frees exactly it and keeps released ascending |
| NonceManager.StepKeepsGood | src/executors/nonceManager.ts:20-84 | every disciplined step keeps the invariant of manager, callers in flight and reservations, older states included |
| NonceManager.ActiveIsKept | src/executors/nonceManager.ts:20-56 | an active nonce stays active and is not handed out again, whatever the callers do, until it is released or its account resynchronised |
| NonceSimulation.BeginIsAStep | src/executors/nonceManager.ts:25-27 | reserving on the object up to the await is the first step of the protocol |
| NonceSimulation.FinishIsAStep | src/executors/nonceManager.ts:27-42 | after the await it is the second, and the nonce returned is the one then held |
| NonceSimulation.ReleaseIsAStep | src/executors/nonceManager.ts:45-56 | releasing on the object is the release step |
| NonceSimulation.ResyncIsAStep | src/executors/nonceManager.ts:58-65 | resynchronising it is the resync step |
| NonceSimulation.RejectIsAStep | src/executors/nonceManager.ts:67-84 | a failed first read is the step that drops the state |
| NonceManager.RunsAreSafe | src/executors/nonceManager.ts:20-84 | over any interleaving of disciplined steps no two live reservations of an account share a nonce |
| NonceManager.ReserveGetsSmallestFree | src/executors/nonceManager.ts:20-43 | a finished reserve holds the smallest nonce free in its account |
| NonceManager.ResyncSafeIff | src/executors/nonceManager.ts:58-65 | a resync is safe for ever exactly while no first nonce of the account is being read, above all live nonces and above all that callers in flight will still take |
| NonceManager.StaleReadCollides | src/executors/nonceManager.ts:69-77 | a resync while the first nonce is being read lets two callers hold one nonce: when that read fails, it drops the new state |
| NonceManager.LateReleaseSafeIff | src/executors/nonceManager.ts:45-56 | a release by a past holder is safe for ever exactly when nobody now holds that nonce of the current state |
| NonceManager.StaleReleaseChangesNothing | src/executors/nonceManager.ts:45-52 | a reservation older than the last resync frees nothing |
| NonceManager.SecondReleaseCollides | src/executors/nonceManager.ts:45-56 | a run in which a double release lets two callers hold one nonce |
| Chains.ChainKeyIdentifies | src/executors/nonceManager.ts:87-89 | keys identify chain and case-insensitive account |
| SafeExecutor.AdvanceKeeps | src/executors/safeTransactionExecutor.ts:139-488 | whatever the next answer, an execution keeps its nonce, gas, price and submission bookkeeping |
| ExecutorProtocol.AdvanceEffect | src/executors/safeTransactionExecutor.ts:139-287 | each answer has one effect on the reservation, fitting what the execution holds |
| ExecutorProtocol.EventKeepsTrack | src/executors/safeTransactionExecutor.ts:139-537 | every event of interleaved executions, whatever nonce a resync reads, is a run of the nonce manager, and keeps who waits and who holds in step with the executions |
| ExecutorProtocol.RunsKeepTrack | src/executors/safeTransactionExecutor.ts:139-537 | so in every run |
| ExecutorProtocol.EventKeeps | src/executors/safeTransactionExecutor.ts:139-537 | executions release only what they hold, once, so that a resync above the other holders and the callers in flight is all it takes for every event to be a disciplined run of the manager and keep its invariant |
| ExecutorProtocol.RunsKeepInvariant | src/executors/safeTransactionExecutor.ts:139-537 | so in every run whose resyncs are of that kind |
| ExecutorProtocol.ResultsTellTheTruth | src/executors/safeTransactionExecutor.ts:139-267 | in every run: rejected or simulated means nothing submitted and the nonce released once; a preflight failure releases; sent, late throws and failed receipts never do; send_failed exactly after a resync; a dry run submits nothing |
| ExecutorProtocol.SubmissionsAgree | src/executors/safeTransactionExecutor.ts:331-464 | in every run, all submissions of an execution share its nonce and one gas limit, cost p or p + p*bump/10000, and number at most three times one private and one public |
| ExecutorProtocol.NoTwoHoldersSubmitOneNonce | src/executors/safeTransactionExecutor.ts:331-464 | two holders of one account never submit one nonce, in every run whose resyncs read nonces above those of the other holders and of the callers in flight |
| ExecutorProtocol.ReleaseFreesTheNonce | src/executors/safeTransactionExecutor.ts:521-532 | whenever an answer makes an execution release, nobody holds its nonce any more and the nonce is free in its account, unless a resync came in between, and then no state changes |
| ExecutorProtocol.UnsubmittedEndsFree | src/executors/safeTransactionExecutor.ts:139-287 | in every run whose resyncs keep the rule, the answer on which an execution ends rejected, simulated or failed in preflight, also before its nonce arrived, leaves the nonce unsubmitted and free in that sense |
| ResyncClashes.ResyncNeverClashesIff | src/executors/safeTransactionExecutor.ts:376-418 | after a failed send, taking over the pending nonce never leads to two executions submitting one nonce exactly when it is above those of the other holders and of the callers in flight; else a continuation is driven to both submissions |
| ResyncClashes.ResyncCanClash | src/executors/safeTransactionExecutor.ts:534-537 | a run from the start: two reserve, the send of the first fails, the chain reports its nonce as at first, and two executions come to submit one nonce |
| ResyncClashes.ResyncAfterFailedSend | src/executors/safeTransactionExecutor.ts:534-537 | the same rule for the reservations of the manager alone |
| BorrowerCache.ReserveAwareBorrowerCache.Upsert | src/monitors/reserveAwareBorrowerCache.ts:45-56 | overwrites in any casing, prunes, keeps index and counts equal to a scan; with room for one, the snapshot survives exactly unless expired |
| BorrowerCache.ReserveAwareBorrowerCache.Prune | src/monitors/reserveAwareBorrowerCache.ts:81-99 | drops the expired, then the oldest beyond the limit, and keeps the index a scan |
| BorrowerCache.ReserveAwareBorrowerCache.DeleteSnapshot | src/monitors/reserveAwareBorrowerCache.ts:101-110 | one snapshot leaves store, index and count |
| BorrowerCache.ReserveAwareBorrowerCache.AttachReserveIndex | src/monitors/reserveAwareBorrowerCache.ts:112-119 | the loop brings the index to the scan that includes the snapshot, duplicates and all |
| BorrowerCache.ReserveAwareBorrowerCache.DetachReserveIndex | src/monitors/reserveAwareBorrowerCache.ts:121-133 | the loop brings it to the scan without, leaving no empty entry |
| BorrowerCache.ReserveAwareBorrowerCache.ListAccountsForReserve | src/monitors/reserveAwareBorrowerCache.ts:75-79 | exactly the accounts a scan of the surviving snapshots finds |
| BorrowerCache.ReserveAwareBorrowerCache.ListSnapshots | src/monitors/reserveAwareBorrowerCache.ts:70-73 | the surviving snapshots of the chain in insertion order |
| BorrowerCache.ReserveAwareBorrowerCache.Size | src/monitors/reserveAwareBorrowerCache.ts:58-60 | the count is the number of stored snapshots of the chain |
| BorrowerCache.NewSnapshotSurvivesIff | src/monitors/reserveAwareBorrowerCache.ts:45-99 | in a cache within its limit, a new snapshot survives its own pruning exactly unless expired |
| BorrowerCache.AccountHasOneKey | src/monitors/reserveAwareBorrowerCache.ts:112-133 | one account string cannot stand for two stored keys, so removing it is safe |
| RouteCache.FlashLoanProviderRouter.SelectBestRoute | src/profitability/flashLoanProviderRouter.ts:59-106 | a fresh entry answers; otherwise the loop selects and stores, and stores nothing when it throws |
| RouteCache.ChoiceIsBest | src/profitability/flashLoanProviderRouter.ts:85-86 | the choice is an approved provider of greatest net profit, the first on ties |
| RouteCache.CacheKeyIdentifies | src/profitability/flashLoanProviderRouter.ts:128-141 | keys agree exactly when all joined fields do, although opportunity ids may hold colons |
| RouteCache.KeyAndAssetsAreTheInput | src/profitability/flashLoanProviderRouter.ts:128-141 | key and assets together determine the input |
| RouteCache.CacheIsTransparent | src/profitability/flashLoanProviderRouter.ts:59-106 | in a steady market where equal keys mean equal assets, every answer of every run is the uncached one |
| RouteCache.AnswersAreRecent | src/profitability/flashLoanProviderRouter.ts:59-106 | under any changes, an answer is fresh or a selection for its key less than 30 seconds old with no clear since |
| RouteCache.SecondCallTransparentIff | src/profitability/flashLoanProviderRouter.ts:60-64 | in every market a second call is answered as without a cache exactly when keys differ, assets agree, or 30 seconds have passed |
| RouteCache.OtherAssetsAreMissed | src/profitability/flashLoanProviderRouter.ts:128-141 | for any two inputs of one key and different assets, a market in which the second gets the route of the first |
| RouteCache.AssetsAreMissed | src/profitability/flashLoanProviderRouter.ts:128-141 | so every input shares its entry with the same input in another debt asset |
| Dedupe.FixedSizeDedupe.Add | src/utils/fixedSizeDedupe.ts:13-26 | evict-before-insert accepts a key exactly when it is not among the last accepted ones |
| Dedupe.SeenLogs.MarkSeen | src/monitors/wsEventLayer.ts:182-201 | evict-after-insert accepts by the same rule |
| Dedupe.AcceptancesAreSpaced | src/utils/fixedSizeDedupe.ts:13-26 | between two acceptances of a key lie at least as many others as the capacity |
| Dedupe.FiltersAgreeIff | src/utils/fixedSizeDedupe.ts:17-22 | the two filters agree in every run exactly for capacities from one on |
| Dedupe.DedupKeyIdentifies | src/monitors/aaveEventParser.ts:54-57 | keys identify block, flashblock, transaction and log index |
| GapReplay.EventDrivenWatchlist.FetchChunkWithBackoff | src/monitors/eventDrivenWatchlist.ts:126-160 | for any pattern of failures: ends within its call budget, what it handled tiles a prefix of the range, all of it when it succeeds, and every saved cursor is safe |
| GapReplay.EventDrivenWatchlist.ReplayGap | src/monitors/eventDrivenWatchlist.ts:91-124 | a completed replay tiles exactly the blocks after the cursor up to the safe head; one runs at a time; every saved cursor is safe |
| GapReplay.EventDrivenWatchlist.HandleLogs | src/monitors/eventDrivenWatchlist.ts:162-191 | adds all borrowers of the logs and saves the highest block only when deep enough |
| GapReplay.EventDrivenWatchlist.ReplayGapFromCursor | src/monitors/eventDrivenWatchlist.ts:86-89 | a completed replay from the cursor has covered every block up to the safe head |
| GapReplay.TilesCoverOnce | src/monitors/eventDrivenWatchlist.ts:109-111 | tiles cover every block exactly once, in ascending order |
| GapReplay.RestartLosesNothing | src/monitors/eventDrivenWatchlist.ts:86-89 | what was added before a safe checkpoint and what a restart adds cover everything |
| GapReplay.LiveSaveSafeIff | src/monitors/eventDrivenWatchlist.ts:184-186 | saving the highest block of a live batch is safe, whatever fitting chain there is, exactly when the batch is complete from a block that the replay has reached |
| GapReplay.LiveLogsCanSkipBlocks | src/monitors/eventDrivenWatchlist.ts:162-191 | handling a complete live batch of block 20 with the cursor at 10 saves 20, which is unsafe: block 12 is never read |
| BorrowerPages.FetchAllBorrowers | src/protocols/aaveV3.ts:415-438 | terminates and returns the addresses of all ids, each once, in order, also when the count is a multiple of the page size |
| BorrowerPages.AddressesAreExactlyTheIds | src/protocols/aaveV3.ts:425-431 | each address of an id is there once, and nothing else |
| BorrowerPages.ViemAaveV3Protocol.GetLiquidatablePositions | src/protocols/aaveV3.ts:338-360 | scans the page after the cursor and moves it, wrapping after a short page; a failed read leaves it |
| BorrowerPages.LapsVisitEveryIdOnce | src/protocols/aaveV3.ts:338-360 | every lap of floor(N/pageSize)+1 successful calls visits every id exactly once, in order, whatever calls fail in between |
| BorrowerPages.PositionIdsAboveZero | src/protocols/aaveV3.ts:417 | position ids lie above the start cursor |
| HfRegression.LinearRegressionHf | src/utils/hfLinearRegression.ts:16-54 | undefined exactly for fewer than two samples or one point in time; otherwise no line has smaller squared residuals, and R squared is in [0, 1] |
| HfRegression.LeastSquares | src/utils/hfLinearRegression.ts:33-38 | the fitted line is the only minimiser |
| HfRegression.RSquaredInRange | src/utils/hfLinearRegression.ts:48 | the clamp at zero never acts |
| HfRegression.DenominatorZeroIff | src/utils/hfLinearRegression.ts:33-36 | the denominator vanishes exactly when all times are equal |
| HfRegression.ShiftInvariant | src/utils/hfLinearRegression.ts:21-53 | shifting all times shifts projections with them and keeps R squared |
| HfRegression.BlocksAheadShiftInvariant | src/utils/hfLinearRegression.ts:57-65 | a projection some blocks after the last sample does not depend on when the samples were taken |
| HfRegression.OriginDoesNotMatter | src/utils/hfLinearRegression.ts:21-53 | projections do not depend on the time origin |
| UsdEv.VerdictBounds | src/utils/evCalculator.ts:169-222 | an exact profit at the threshold is always reported; a reported one misses it by less than 2 + 2*price/10^decimals plus the value of the truncated fractions of both rates; the net is within that of the exact one at the real rates, through five floor divisions and two truncations |
| UsdEv.WithinSlackIff | src/utils/evCalculator.ts:136-138 | the error without those fractions is right for all inputs exactly when the fee is whole and the slippage is whole or at least 200% |
| UsdEv.HalfABasisPoint | src/utils/evCalculator.ts:136-138 | a fee of half a basis point: reported as a profit, exactly a loss of 50 |

## Left out

- LocalPositionModel: the hard cap is a natural number, in the program any number; positions are values in the map, so what a caller does to a position object it was handed is not captured; nor are the tick counter, the lookups `isFullySeeded` and `tierChangeForAccount`, and the price-gap log.
- Positions: `computeShadowDriftBps` and the eviction threshold's conversion from a float are not modelled; thresholds are fixed-point integers.
- Oracle: the heartbeats of known feeds are a parameter, and so are the freshness multiplier, read from the environment, and every clock reading.
- HfResult: the `error` result is part of the type, but no modelled step throws while recomputing.
- RoundTripIff: needs an inactivity limit of at least one block; with zero, seeding itself evicts healthy positions. RoundTrip and the models of ReachedModels likewise.
- SupplyNeverLowers: needs the interest dropped by the overwritten index to be at most the amount, and both results numeric; BorrowNeverRaises likewise. SupplyLowersInNoMarketIff and BorrowRaisesInNoMarketIff say that no weaker condition would do.
- FeedUpdateTellsAllIff: the positions of the converse satisfy the invariant of all runs, but only those of FeedUpdateCanBeSilent are shown to be reached.
- NoTwoHoldersSubmitOneNonce: holds of runs whose resyncs keep the rule, which the executor does not check; ResyncNeverClashesIff says that no weaker rule would do.
- ResyncNeverClashesIff: an execution whose submission stands (sent, failed receipt, thrown after sending) still counts as a holder, because nothing gives its nonce back; one that threw without submitting does not.
- UnsubmittedEndsFree: holds of runs whose resyncs keep the rule, as ReleaseFreesTheNonce does of their states.
- ListAccountsForReserve: the order of the returned accounts is not stated, only which they are.
- SelectBestRoute: one call reads the market in one moment, so changes and other calls between its awaits are not stated.
- SnapshotStore: text that `BigInt` would accept besides plain decimals (hexadecimal, blanks, empty) is an error here, and so is a negative number; reading and writing the file and its age check are left out.
- PegPrices: the one peg of the program is modelled; peg assets are not a growing list.
- NonceManager: nonces are natural numbers without the float limit; timeouts of the RPC are not modelled, a read either succeeds or fails.
- SafeExecutor: the registry, gas-limit tables, metrics, logs and latency records are left out; what the router, simulator, risk model, bundle router and RPC answer is an input of each step. An error that is thrown after preflight ends the execution. A settled preflight resumes in a later turn, and what building a transaction gives is an input of that turn.
- BorrowerCache: the accounts under a reserve are a set; `toCandidates` is left out because `typedAssetMath` is not part of this model.
- RouteCache: one call reads the market in one moment, with one clock reading before and one at the store; two calls do not interleave between their awaits. Profit evaluation is an uninterpreted function. The minimum margin is an integer, in the program a number.
- Dedupe: `SeenLogs` holds the two fields of the websocket layer that the filter uses; the rest of that layer is left out.
- GapReplay: delays between chunks and the stale eviction of the watchlist are left out; `gapChunkBlocks` is at least one, since the loop would not advance otherwise.
- BorrowerPages: the server's listing stays as it is while it is paged; turning an account into a candidate is left out.
- HfRegression: numbers are reals; rounding of floating point is not modelled.
- UsdEv: decimals are integers, as the code requires of them; the price lookup is a parameter.
- Arbitrage scanning, competitor models, AMM mirrors, Bayesian and FTRL ranking, gas-price oracle, circuit breakers, cooldown registries, dead-letter queue, orchestrator, metrics, HTTP and configuration: heuristics, I/O or easy members.
