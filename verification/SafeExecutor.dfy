// The transaction executor: one execution as a machine that moves on each awaited answer.

module SafeExecutor {
  import opened Options
  import opened Text
  import N = NonceManager

  // ----- what is configured, asked and answered -----

  datatype Config = Config(
    bumpBps: nat,
    privateThresholdBps: nat,
    hasBundleRouter: bool,
    hasCompetitorModel: bool,
    publicFallback: bool,
    dryRun: bool,
    hasGasCap: bool,
    hasPreviewCheck: bool,
    hasBroadcastCheck: bool)

  /** `key` is the chain and account; `routeChainMatches` is the check made before anything else. */
  datatype Request = Request(key: string, routeChainMatches: bool, hasPreview: bool, privateFirst: bool)

  /** What building the transaction from the selected route gives. */
  datatype Built = BuildThrows | ProviderMismatch | Usable

  datatype Receipt = Included | Underpriced | Reorged | Reverted

  /** What an execution awaits. When all promises of the preflight have settled, it resumes in a later
      turn, in which it gives up or builds its transaction; others may run in between. */
  datatype Answer =
    | CircuitBreaker(open: bool)
    | Quotes(selected: bool, gasPrice: nat)
    | NonceSettled(nonce: Option<nat>)
    | Resumes(built: Built)
    | GasLimit(gas: nat)
    | MaxFee(fee: nat)
    | RejectReason(reason: Option<string>)
    | Simulated(success: bool)
    | RiskIs(riskBps: Option<nat>)
    | Sent
    | SendError(message: string)
    | ReceiptIs(receipt: Receipt)
    | PendingNonce(next: nat)
    | Fails

  datatype RejectedFor = RouteRejected | RouteTransactionMismatch | FinalSimulationFailed
                       | ExecutionCircuitOpen | DustFiltered | BorrowerCooldown
  datatype FailedFor = ReceiptReorged | ReceiptReverted | SendFailed
  datatype Result = SentTx | SimulatedOnly | RejectedAs(why: RejectedFor) | FailedAs(how: FailedFor)

  datatype Attempt = First | AfterError | AfterReceipt
  datatype Route = PrivateBundle | PublicRpc

  /** Gas, nonce and the price before any bump. */
  datatype Overrides = Overrides(nonce: nat, gas: nat, gasPrice: nat)

  datatype Submission = Submission(attempt: Attempt, route: Route, nonce: nat, gas: nat, gasPrice: nat)

  datatype Phase =
    | Entering
    | Preflight(quotes: Option<(bool, nat)>, failed: bool)
    | AwaitGas(price: nat)
    | AwaitGasCap(price: nat, gas: nat)
    | AwaitPreviewCheck
    | AwaitPreview
    | AwaitSimulation
    | AwaitBroadcastCheck
    | AwaitRisk(attempt: Attempt)
    | AwaitSend(attempt: Attempt, route: Route)
    | AwaitReceipt(attempt: Attempt)
    | AwaitPendingNonce
    | Finished(result: Result)
    | ThrewEarly   // before or in preflight
    | ThrewLate    // after preflight: the nonce is not given back

  /** One execution: where it is, the nonce it was given, what it fixed for submission, what it
      submitted, how often it released its nonce and whether it resynchronised the manager. */
  datatype Exec = Exec(
    phase: Phase,
    nonce: Option<nat>,
    overrides: Option<Overrides>,
    sends: seq<Submission>,
    released: nat,
    resynced: bool)

  const Fresh := Exec(Entering, None, None, [], 0, false)

  // ----- one execution -----

  function BumpGasPrice(price: nat, bumpBps: nat): nat {
    price + price * bumpBps / 10_000
  }

  function PriceOf(cfg: Config, o: Overrides, attempt: Attempt): nat {
    if attempt == First then o.gasPrice else BumpGasPrice(o.gasPrice, cfg.bumpBps)
  }

  predicate IsUnderpricedError(message: string) {
    Contains(Lower(message), "underpriced")
  }

  function ReleaseAnd(e: Exec, phase: Phase): Exec {
    e.(phase := phase, released := e.released + 1)
  }

  /** Both the quotes and the reservation are there: the synchronous part up to the gas limit. */
  function AfterPreflight(e: Exec, selected: bool, price: nat, built: Built): Exec {
    if !selected then ReleaseAnd(e, Finished(RejectedAs(RouteRejected)))
    else
      match built
      case BuildThrows => e.(phase := ThrewLate)
      case ProviderMismatch => ReleaseAnd(e, Finished(RejectedAs(RouteTransactionMismatch)))
      case Usable => e.(phase := AwaitGas(price))
  }

  function WithOverrides(cfg: Config, req: Request, e: Exec, gas: nat, price: nat): Exec
    requires e.nonce.Some?
  {
    e.(overrides := Some(Overrides(e.nonce.value, gas, price)),
       phase := if !req.hasPreview then AwaitSimulation
                else if cfg.hasPreviewCheck then AwaitPreviewCheck else AwaitPreview)
  }

  function PreviewRejection(reason: string): RejectedFor {
    if reason == "borrower_cooldown" then BorrowerCooldown
    else if "dust:" <= reason then DustFiltered else FinalSimulationFailed
  }

  function Submit(cfg: Config, e: Exec, attempt: Attempt, route: Route): Exec
    requires e.overrides.Some?
  {
    var o := e.overrides.value;
    e.(phase := AwaitSend(attempt, route),
       sends := e.sends + [Submission(attempt, route, o.nonce, o.gas, PriceOf(cfg, o, attempt))])
  }

  /** `sendTransaction`: forced private, assessed, or public. */
  function SendTransaction(cfg: Config, req: Request, e: Exec, attempt: Attempt): Exec
    requires e.overrides.Some?
  {
    if cfg.hasBundleRouter && req.privateFirst then Submit(cfg, e, attempt, PrivateBundle)
    else if cfg.hasCompetitorModel then e.(phase := AwaitRisk(attempt))
    else Submit(cfg, e, attempt, PublicRpc)
  }

  function OnSendError(cfg: Config, req: Request, e: Exec, attempt: Attempt, route: Route, message: string): Exec
    requires e.overrides.Some?
  {
    if route == PrivateBundle && cfg.publicFallback then Submit(cfg, e, attempt, PublicRpc)
    else if attempt == First && IsUnderpricedError(message) then SendTransaction(cfg, req, e, AfterError)
    else e.(phase := AwaitPendingNonce)
  }

  function OnReceipt(cfg: Config, req: Request, e: Exec, attempt: Attempt, receipt: Receipt): Exec
    requires e.overrides.Some?
  {
    match receipt
    case Included => e.(phase := Finished(SentTx))
    case Underpriced =>
      if attempt == AfterReceipt then e.(phase := Finished(FailedAs(ReceiptReverted)))
      else SendTransaction(cfg, req, e, AfterReceipt)
    case Reorged => e.(phase := Finished(FailedAs(ReceiptReorged)))
    case Reverted => e.(phase := Finished(FailedAs(ReceiptReverted)))
  }

  ghost predicate WellFormed(e: Exec) {
    match e.phase
    case AwaitGas(_) => e.nonce.Some?
    case AwaitGasCap(_, _) => e.nonce.Some?
    case AwaitSimulation => e.overrides.Some?
    case AwaitBroadcastCheck => e.overrides.Some?
    case AwaitRisk(_) => e.overrides.Some?
    case AwaitSend(_, _) => e.overrides.Some?
    case AwaitReceipt(_) => e.overrides.Some?
    case _ => true
  }

  function AdvancePreflight(e: Exec, quotes: Option<(bool, nat)>, failed: bool, a: Answer): Option<Exec> {
    match a
    case Quotes(selected, price) =>
      if quotes.Some? || failed then None else Some(e.(phase := Preflight(Some((selected, price)), false)))
    case Fails =>
      if quotes.Some? || failed then None else Some(e.(phase := Preflight(None, true)))
    case NonceSettled(nonce) =>
      if e.nonce.Some? then None
      else if nonce.None? then Some(e.(phase := ThrewEarly))
      else Some(e.(nonce := nonce))
    case Resumes(built) =>
      if e.nonce.None? then None
      else if failed then Some(ReleaseAnd(e, ThrewEarly))
      else if quotes.Some? then Some(AfterPreflight(e, quotes.value.0, quotes.value.1, built))
      else None
    case _ => None
  }

  /** From the gas limit to the last check before broadcasting. */
  function AdvanceChecks(cfg: Config, req: Request, e: Exec, a: Answer): Option<Exec>
    requires WellFormed(e)
  {
    if a == Fails then Some(e.(phase := ThrewLate))
    else
      match e.phase
      case AwaitGas(price) =>
        if !a.GasLimit? then None
        else if cfg.hasGasCap then Some(e.(phase := AwaitGasCap(price, a.gas)))
        else Some(WithOverrides(cfg, req, e, a.gas, price))
      case AwaitGasCap(price, gas) =>
        if !a.MaxFee? then None
        else Some(WithOverrides(cfg, req, e, gas, if price < a.fee then price else a.fee))
      case AwaitPreviewCheck =>
        if !a.RejectReason? then None
        else if a.reason.Some? then Some(ReleaseAnd(e, Finished(RejectedAs(PreviewRejection(a.reason.value)))))
        else Some(e.(phase := AwaitPreview))
      case AwaitPreview =>
        if !a.Simulated? then None
        else if a.success then Some(e.(phase := AwaitSimulation))
        else Some(ReleaseAnd(e, Finished(RejectedAs(FinalSimulationFailed))))
      case AwaitSimulation =>
        if !a.Simulated? then None
        else if !a.success then Some(ReleaseAnd(e, Finished(RejectedAs(FinalSimulationFailed))))
        else if cfg.dryRun then Some(ReleaseAnd(e, Finished(SimulatedOnly)))
        else if cfg.hasBroadcastCheck then Some(e.(phase := AwaitBroadcastCheck))
        else Some(SendTransaction(cfg, req, e, First))
      case AwaitBroadcastCheck =>
        if !a.RejectReason? then None
        else if a.reason.Some? then Some(ReleaseAnd(e, Finished(RejectedAs(FinalSimulationFailed))))
        else Some(SendTransaction(cfg, req, e, First))
      case _ => None
  }

  function AdvanceSubmission(cfg: Config, req: Request, e: Exec, a: Answer): Option<Exec>
    requires WellFormed(e)
  {
    match e.phase
    case AwaitRisk(attempt) =>
      if !a.RiskIs? then None
      else Some(Submit(cfg, e, attempt,
                       if a.riskBps.Some? && a.riskBps.value >= cfg.privateThresholdBps && cfg.hasBundleRouter
                       then PrivateBundle else PublicRpc))
    case AwaitSend(attempt, route) =>
      if a == Sent then Some(e.(phase := AwaitReceipt(attempt)))
      else if a.SendError? then Some(OnSendError(cfg, req, e, attempt, route, a.message))
      else None
    case AwaitReceipt(attempt) =>
      if a == Fails then Some(e.(phase := ThrewLate))
      else if a.ReceiptIs? then Some(OnReceipt(cfg, req, e, attempt, a.receipt))
      else None
    case AwaitPendingNonce =>
      if a == Fails then Some(e.(phase := ThrewLate))
      else if a.PendingNonce? then Some(e.(phase := Finished(FailedAs(SendFailed)), resynced := true))
      else None
    case _ => None
  }

  /** The next state of the execution on an answer; None when the answer is not one it awaits. */
  function Advance(cfg: Config, req: Request, e: Exec, a: Answer): Option<Exec>
    requires WellFormed(e)
  {
    match e.phase
    case Entering =>
      if !a.CircuitBreaker? then None
      else if !req.routeChainMatches then Some(e.(phase := ThrewEarly))
      else if a.open then Some(e.(phase := Finished(RejectedAs(ExecutionCircuitOpen))))
      else Some(e.(phase := Preflight(None, false)))
    case Preflight(quotes, failed) => AdvancePreflight(e, quotes, failed, a)
    case AwaitRisk(_) => AdvanceSubmission(cfg, req, e, a)
    case AwaitSend(_, _) => AdvanceSubmission(cfg, req, e, a)
    case AwaitReceipt(_) => AdvanceSubmission(cfg, req, e, a)
    case AwaitPendingNonce => AdvanceSubmission(cfg, req, e, a)
    case Finished(_) => None
    case ThrewEarly => None
    case ThrewLate => None
    case _ => AdvanceChecks(cfg, req, e, a)
  }

  // ----- what every execution keeps -----

  function AttemptRank(attempt: Attempt): nat {
    match attempt case First => 0 case AfterError => 2 case AfterReceipt => 4
  }

  function Rank(s: Submission): nat {
    AttemptRank(s.attempt) + if s.route == PrivateBundle then 0 else 1
  }

  /** All submissions carry the fixed nonce and gas and the price of their attempt; within an attempt
      a private one comes at most once, before an at most single public one; attempts only move on. */
  ghost predicate SendsOk(cfg: Config, e: Exec, below: nat) {
    && (forall i :: 0 <= i < |e.sends| ==>
          && e.overrides.Some?
          && e.sends[i].nonce == e.overrides.value.nonce
          && e.sends[i].gas == e.overrides.value.gas
          && e.sends[i].gasPrice == PriceOf(cfg, e.overrides.value, e.sends[i].attempt)
          && Rank(e.sends[i]) < below)
    && (forall i, j :: 0 <= i < j < |e.sends| ==> Rank(e.sends[i]) < Rank(e.sends[j]))
  }

  ghost predicate HasOverrides(e: Exec) {
    && e.nonce.Some? && e.overrides.Some? && e.overrides.value.nonce == e.nonce.value
  }

  /** Nothing was submitted, released or resynchronised yet. */
  ghost predicate Quiet(e: Exec) {
    e.sends == [] && e.released == 0 && !e.resynced
  }

  ghost predicate Sending(cfg: Config, e: Exec, below: nat) {
    HasOverrides(e) && e.released == 0 && !e.resynced && SendsOk(cfg, e, below) && !cfg.dryRun
  }

  ghost predicate LocalOk(cfg: Config, e: Exec) {
    match e.phase
    case Entering => Quiet(e) && e.nonce.None?
    case Preflight(quotes, failed) =>
      Quiet(e) && (failed ==> quotes.None?)
    case AwaitGas(_) => Quiet(e) && e.nonce.Some?
    case AwaitGasCap(_, _) => Quiet(e) && e.nonce.Some?
    case AwaitPreviewCheck => Quiet(e) && HasOverrides(e)
    case AwaitPreview => Quiet(e) && HasOverrides(e)
    case AwaitSimulation => Quiet(e) && HasOverrides(e)
    case AwaitBroadcastCheck => Quiet(e) && HasOverrides(e) && !cfg.dryRun
    case AwaitRisk(attempt) => Sending(cfg, e, AttemptRank(attempt))
    case AwaitSend(attempt, route) =>
      Sending(cfg, e, AttemptRank(attempt) + if route == PrivateBundle then 1 else 2) && e.sends != []
    case AwaitReceipt(attempt) => Sending(cfg, e, AttemptRank(attempt) + 2) && e.sends != []
    case AwaitPendingNonce => Sending(cfg, e, 6) && e.sends != []
    case Finished(SentTx) => Sending(cfg, e, 6) && e.sends != []
    case Finished(FailedAs(how)) =>
      && HasOverrides(e) && e.released == 0 && SendsOk(cfg, e, 6) && e.sends != []
      && (e.resynced <==> how == SendFailed) && !cfg.dryRun
    case Finished(RejectedAs(ExecutionCircuitOpen)) => Quiet(e) && e.nonce.None?
    case Finished(result) =>
      e.sends == [] && !e.resynced && e.nonce.Some? && e.released == 1 && (result == SimulatedOnly ==> cfg.dryRun)
    case ThrewEarly => e.sends == [] && !e.resynced && e.released == if e.nonce.Some? then 1 else 0
    case ThrewLate => e.nonce.Some? && e.released == 0 && !e.resynced && SendsOk(cfg, e, 6) &&
                      (e.sends != [] ==> HasOverrides(e) && !cfg.dryRun)
  }

  lemma LocalOkWellFormed(cfg: Config, e: Exec)
    requires LocalOk(cfg, e)
    ensures WellFormed(e)
  {
  }

  lemma SubmitKeeps(cfg: Config, e: Exec, attempt: Attempt, route: Route)
    requires Sending(cfg, e, AttemptRank(attempt) + if route == PrivateBundle then 0 else 1)
    ensures LocalOk(cfg, Submit(cfg, e, attempt, route))
  {
    var e' := Submit(cfg, e, attempt, route);
    forall i | 0 <= i < |e.sends| ensures e'.sends[i] == e.sends[i] {
    }
  }

  lemma SendTransactionKeeps(cfg: Config, req: Request, e: Exec, attempt: Attempt)
    requires Sending(cfg, e, AttemptRank(attempt))
    ensures LocalOk(cfg, SendTransaction(cfg, req, e, attempt))
  {
    if cfg.hasBundleRouter && req.privateFirst {
      SubmitKeeps(cfg, e, attempt, PrivateBundle);
    } else if !cfg.hasCompetitorModel {
      SubmitKeeps(cfg, e, attempt, PublicRpc);
    }
  }

  lemma ChecksKeep(cfg: Config, req: Request, e: Exec, a: Answer)
    requires LocalOk(cfg, e) && WellFormed(e)
    requires e.phase.AwaitGas? || e.phase.AwaitGasCap? || e.phase.AwaitPreviewCheck? || e.phase.AwaitPreview?
          || e.phase.AwaitSimulation? || e.phase.AwaitBroadcastCheck?
    requires AdvanceChecks(cfg, req, e, a).Some?
    ensures LocalOk(cfg, AdvanceChecks(cfg, req, e, a).value)
  {
    if e.phase == AwaitBroadcastCheck || (e.phase == AwaitSimulation && !cfg.dryRun) {
      SendTransactionKeeps(cfg, req, e, First);
      hide SendTransaction;
    }
    hide PriceOf;
  }

  lemma SendErrorKeeps(cfg: Config, req: Request, e: Exec, attempt: Attempt, route: Route, message: string)
    requires Sending(cfg, e, AttemptRank(attempt) + if route == PrivateBundle then 1 else 2) && e.sends != []
    ensures LocalOk(cfg, OnSendError(cfg, req, e, attempt, route, message))
  {
    if route == PrivateBundle && cfg.publicFallback {
      SubmitKeeps(cfg, e, attempt, PublicRpc);
    } else if attempt == First && IsUnderpricedError(message) {
      SendTransactionKeeps(cfg, req, e, AfterError);
    }
  }

  lemma ReceiptKeeps(cfg: Config, req: Request, e: Exec, attempt: Attempt, receipt: Receipt)
    requires Sending(cfg, e, AttemptRank(attempt) + 2) && e.sends != []
    ensures LocalOk(cfg, OnReceipt(cfg, req, e, attempt, receipt))
  {
    if receipt == Underpriced && attempt != AfterReceipt {
      SendTransactionKeeps(cfg, req, e, AfterReceipt);
    }
  }

  lemma AfterSendKeeps(cfg: Config, e: Exec, phase: Phase)
    requires Sending(cfg, e, 6) && e.sends != []
    requires phase == AwaitPendingNonce || phase == Finished(SentTx) || phase == ThrewLate
          || phase == Finished(FailedAs(ReceiptReorged)) || phase == Finished(FailedAs(ReceiptReverted))
    ensures LocalOk(cfg, e.(phase := phase))
  {
  }

  /** Neither a later bound nor another phase spoils what is being sent. */
  lemma SendingBelow(cfg: Config, e: Exec, below: nat, more: nat, phase: Phase)
    requires Sending(cfg, e, below) && below <= more
    ensures Sending(cfg, e, more) && Sending(cfg, e.(phase := phase), more)
  {
  }

  lemma SendAnswerKeeps(cfg: Config, req: Request, e: Exec, a: Answer)
    requires LocalOk(cfg, e) && WellFormed(e) && e.phase.AwaitSend? && AdvanceSubmission(cfg, req, e, a).Some?
    ensures LocalOk(cfg, AdvanceSubmission(cfg, req, e, a).value)
  {
    hide SendsOk, OnSendError;
    var attempt, route := e.phase.attempt, e.phase.route;
    if a.SendError? {
      SendErrorKeeps(cfg, req, e, attempt, route, a.message);
    } else {
      SendingBelow(cfg, e, AttemptRank(attempt) + if route == PrivateBundle then 1 else 2, AttemptRank(attempt) + 2,
                   AwaitReceipt(attempt));
    }
  }

  lemma ReceiptAnswerKeeps(cfg: Config, req: Request, e: Exec, a: Answer)
    requires LocalOk(cfg, e) && WellFormed(e) && e.phase.AwaitReceipt? && AdvanceSubmission(cfg, req, e, a).Some?
    ensures LocalOk(cfg, AdvanceSubmission(cfg, req, e, a).value)
  {
    hide SendsOk, OnReceipt;
    if a.ReceiptIs? {
      ReceiptKeeps(cfg, req, e, e.phase.attempt, a.receipt);
    } else {
      SendingBelow(cfg, e, AttemptRank(e.phase.attempt) + 2, 6, ThrewLate);
      AfterSendKeeps(cfg, e, ThrewLate);
    }
  }

  lemma RiskAnswerKeeps(cfg: Config, req: Request, e: Exec, a: Answer)
    requires LocalOk(cfg, e) && WellFormed(e) && e.phase.AwaitRisk? && AdvanceSubmission(cfg, req, e, a).Some?
    ensures LocalOk(cfg, AdvanceSubmission(cfg, req, e, a).value)
  {
    hide SendsOk, Submit;
    var attempt := e.phase.attempt;
    SendingBelow(cfg, e, AttemptRank(attempt), AttemptRank(attempt) + 1, e.phase);
    SubmitKeeps(cfg, e, attempt, PublicRpc);
    SubmitKeeps(cfg, e, attempt, PrivateBundle);
  }

  lemma PendingNonceKeeps(cfg: Config, req: Request, e: Exec, a: Answer)
    requires LocalOk(cfg, e) && e.phase.AwaitPendingNonce? && AdvanceSubmission(cfg, req, e, a).Some?
    ensures LocalOk(cfg, AdvanceSubmission(cfg, req, e, a).value)
  {
  }

  lemma SubmissionKeeps(cfg: Config, req: Request, e: Exec, a: Answer)
    requires LocalOk(cfg, e) && WellFormed(e) && AdvanceSubmission(cfg, req, e, a).Some?
    ensures LocalOk(cfg, AdvanceSubmission(cfg, req, e, a).value)
  {
    if e.phase.AwaitRisk? {
      RiskAnswerKeeps(cfg, req, e, a);
    } else if e.phase.AwaitSend? {
      SendAnswerKeeps(cfg, req, e, a);
    } else if e.phase.AwaitReceipt? {
      ReceiptAnswerKeeps(cfg, req, e, a);
    } else {
      PendingNonceKeeps(cfg, req, e, a);
    }
    hide LocalOk;
  }

  lemma EarlyKeeps(cfg: Config, req: Request, e: Exec, a: Answer)
    requires LocalOk(cfg, e) && WellFormed(e) && Advance(cfg, req, e, a).Some?
               && (e.phase.Entering? || e.phase.Preflight?)
    ensures LocalOk(cfg, Advance(cfg, req, e, a).value)
  {
    hide AdvanceChecks, AdvanceSubmission;
  }

  /** Whatever the answer, an execution keeps its local invariant. */
  lemma AdvanceKeeps(cfg: Config, req: Request, e: Exec, a: Answer)
    requires LocalOk(cfg, e) && WellFormed(e) && Advance(cfg, req, e, a).Some?
    ensures LocalOk(cfg, Advance(cfg, req, e, a).value)
  {
    hide LocalOk, AdvanceChecks, AdvanceSubmission, AdvancePreflight;
    match e.phase
    case Entering => EarlyKeeps(cfg, req, e, a);
    case Preflight(_, _) => EarlyKeeps(cfg, req, e, a);
    case AwaitRisk(_) => SubmissionKeeps(cfg, req, e, a);
    case AwaitSend(_, _) => SubmissionKeeps(cfg, req, e, a);
    case AwaitReceipt(_) => SubmissionKeeps(cfg, req, e, a);
    case AwaitPendingNonce => SubmissionKeeps(cfg, req, e, a);
    case _ => ChecksKeep(cfg, req, e, a);
  }
}
