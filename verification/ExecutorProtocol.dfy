// Many executions interleaved at every await over one nonce manager: which steps of the manager each
// answer causes, what every run keeps, what disciplined resyncs keep besides, and what follows for
// results and submissions.

module ExecutorProtocol {
  import opened Options
  import opened SafeExecutor
  import N = NonceManager

  datatype System = System(manager: N.World, execs: map<nat, Exec>, requests: map<nat, Request>)

  const Idle := System(N.Start, map[], map[])

  datatype Event =
    | Launch(id: nat, request: Request)
    | Answered(id: nat, answer: Answer)
    | NonceRead(slot: nat, nonce: nat)
    | NonceReadFailed(slot: nat)

  function KeyOf(s: System, id: nat): string
    requires id in s.requests
  {
    s.requests[id].key
  }

  /** What the second half of this caller's `reserve` gives: a nonce, or None when it throws. */
  ghost function Settlement(w: N.World, id: nat): Option<nat>
    requires N.Indexed(w) && id in w.waiting
  {
    var slot := w.slots[w.waiting[id]];
    if slot.status == N.Rejected then None else N.Take(slot.value).1
  }

  ghost predicate Formed(s: System) {
    && N.Indexed(s.manager)
    && s.execs.Keys == s.requests.Keys
    && forall id :: id in s.execs ==> WellFormed(s.execs[id])
  }

  ghost predicate Enabled(cfg: Config, s: System, ev: Event)
    requires Formed(s)
  {
    match ev
    case Launch(id, _) => id !in s.execs
    case Answered(id, a) =>
      && id in s.execs && Advance(cfg, s.requests[id], s.execs[id], a).Some?
      && (a.NonceSettled? ==>
            && N.Enabled(s.manager, N.Finish(id))
            && a.nonce == Settlement(s.manager, id))
    case NonceRead(slot, _) => slot < |s.manager.slots| && s.manager.slots[slot].status == N.Pending
    case NonceReadFailed(slot) => slot < |s.manager.slots| && s.manager.slots[slot].status == N.Pending
  }

  function ExecAfter(cfg: Config, s: System, id: nat, a: Answer): Exec
    requires id in s.execs && id in s.requests && WellFormed(s.execs[id])
    requires Advance(cfg, s.requests[id], s.execs[id], a).Some?
  {
    Advance(cfg, s.requests[id], s.execs[id], a).value
  }

  /** The execution threw after preflight without having submitted: nobody will use its nonce, and
      nobody gives it back. */
  predicate Lost(e: Exec) {
    e.phase == ThrewLate && e.sends == []
  }

  /** The steps of the nonce manager that an event consists of. A lost nonce is abandoned: no call of the
      manager, it only ends the execution's claim on it. */
  ghost function ManagerSteps(cfg: Config, s: System, ev: Event): seq<N.Step>
    requires Formed(s) && Enabled(cfg, s, ev)
  {
    match ev
    case Launch(_, _) => []
    case NonceRead(slot, nonce) => [N.Resolve(slot, nonce)]
    case NonceReadFailed(slot) => [N.Reject(slot)]
    case Answered(id, a) =>
      var e, e', key := s.execs[id], ExecAfter(cfg, s, id, a), KeyOf(s, id);
      (if e.phase == Entering && e'.phase.Preflight? then [N.Begin(id, key)] else [])
      + (if a.NonceSettled? then [N.Finish(id)] else [])
      + (if e'.released > e.released && e'.nonce.Some?
         then [N.Release(id, N.Reservation(key, e'.nonce.value))] else [])
      + (if Lost(e') then [N.Abandon(id)] else [])
      + (if e'.resynced && !e.resynced && a.PendingNonce? then [N.Abandon(id), N.Resync(key, a.next)] else [])
  }

  // ----- executions and their reservations -----

  predicate InReserve(e: Exec) {
    e.phase.Preflight? && e.nonce.None?
  }

  /** The execution has a nonce that it may still submit or has submitted: not released, not lost, and not
      given up by a resync. */
  predicate Holds(e: Exec) {
    e.nonce.Some? && e.released == 0 && !e.resynced && !Lost(e)
  }

  ghost predicate Coupled(s: System, id: nat)
    requires N.Indexed(s.manager) && id in s.execs && id in s.requests
  {
    var e, w := s.execs[id], s.manager;
    && (id in w.waiting <==> InReserve(e))
    && (id in w.waiting ==> w.slots[w.waiting[id]].key == KeyOf(s, id))
    && (id in w.live <==> Holds(e))
    && (id in w.live ==> w.live[id] == N.Reservation(KeyOf(s, id), e.nonce.value))
  }

  /** What every run keeps, whatever nonces resyncs read. */
  ghost predicate Tracked(cfg: Config, s: System) {
    && Formed(s) && N.Keyed(s.manager)
    && (forall id :: id in s.execs ==> LocalOk(cfg, s.execs[id]) && Coupled(s, id))
    && (forall id :: id in s.manager.waiting || id in s.manager.live ==> id in s.execs)
  }

  /** What disciplined runs keep besides. */
  ghost predicate Invariant(cfg: Config, s: System) {
    Tracked(cfg, s) && N.Good(s.manager)
  }

  /** The manager changed only on behalf of this caller. */
  ghost predicate OnlyFor(w: N.World, w': N.World, id: nat) {
    && |w.slots| <= |w'.slots|
    && (forall k :: 0 <= k < |w.slots| ==> w'.slots[k].key == w.slots[k].key)
    && w'.waiting - {id} == w.waiting - {id}
    && w'.live - {id} == w.live - {id}
  }

  lemma StepOnlyFor(w: N.World, s: N.Step, id: nat)
    requires N.Indexed(w) && N.Enabled(w, s)
    requires match s
             case Begin(i, _) => i == id
             case Finish(i) => i == id
             case Release(i, _) => i == id
             case Abandon(i) => i == id
             case _ => true
    ensures OnlyFor(w, N.Next(w, s), id)
  {
    N.StepKeepsSlotKeys(w, s);
    hide N.Take, N.GiveBack, N.Indexed;
  }

  lemma OnlyForTwice(w: N.World, w1: N.World, w2: N.World, id: nat)
    requires OnlyFor(w, w1, id) && OnlyFor(w1, w2, id)
    ensures OnlyFor(w, w2, id)
  {
  }

  /** An execution's own step keeps everything tracked if the manager moved only for it and ends coupled. */
  lemma OthersKeep(cfg: Config, s: System, s': System, id: nat)
    requires Tracked(cfg, s) && id in s.execs
    requires s'.requests == s.requests && s'.execs.Keys == s.execs.Keys
    requires forall i :: i in s.execs && i != id ==> s'.execs[i] == s.execs[i]
    requires N.Indexed(s'.manager) && N.Keyed(s'.manager) && OnlyFor(s.manager, s'.manager, id)
    requires LocalOk(cfg, s'.execs[id]) && Coupled(s', id)
    ensures Tracked(cfg, s')
  {
    hide LocalOk, N.Keyed, Coupled, OnlyFor;
    LocalOkWellFormed(cfg, s'.execs[id]);
    forall i | i in s'.execs && i != id ensures LocalOk(cfg, s'.execs[i]) && Coupled(s', i) {
      assert Coupled(s, i);
      OtherStaysCoupled(s, s', id, i);
    }
    forall i: nat | i != id
      ensures (i in s'.manager.waiting <==> i in s.manager.waiting) && (i in s'.manager.live <==> i in s.manager.live)
    {
      SameForOthers(s.manager, s'.manager, id, i);
    }
  }

  lemma SameForOthers(w: N.World, w': N.World, id: nat, i: nat)
    requires OnlyFor(w, w', id) && i != id
    ensures (i in w'.waiting <==> i in w.waiting) && (i in w.waiting ==> w'.waiting[i] == w.waiting[i])
    ensures (i in w'.live <==> i in w.live) && (i in w.live ==> w'.live[i] == w.live[i])
  {
    assert i in w'.waiting <==> i in w'.waiting - {id};
    assert i in w.waiting <==> i in w.waiting - {id};
    assert i in w'.live <==> i in w'.live - {id};
    assert i in w.live <==> i in w.live - {id};
    assert i in w.waiting ==> w'.waiting[i] == (w'.waiting - {id})[i];
    assert i in w.live ==> w'.live[i] == (w'.live - {id})[i];
  }

  lemma OtherStaysCoupled(s: System, s': System, id: nat, i: nat)
    requires N.Indexed(s.manager) && N.Indexed(s'.manager) && OnlyFor(s.manager, s'.manager, id)
    requires s'.requests == s.requests && i != id && i in s.execs && i in s.requests && Coupled(s, i)
    requires i in s'.execs && s'.execs[i] == s.execs[i]
    ensures Coupled(s', i)
  {
    SameForOthers(s.manager, s'.manager, id, i);
    hide Holds, InReserve;
  }

  // ----- the effect of one answer -----

  datatype Effect = Begins | SettlesNone | Settles | Frees | Loses | Resyncs | Nothing

  ghost function EffectOf(e: Exec, e': Exec, a: Answer): Effect {
    if e.phase == Entering && e'.phase.Preflight? then Begins
    else if a.NonceSettled? then if a.nonce.None? then SettlesNone else Settles
    else if e'.released > e.released then Frees
    else if e'.resynced && !e.resynced then Resyncs
    else if Lost(e') then Loses
    else Nothing
  }

  ghost predicate EffectOk(e: Exec, e': Exec, a: Answer) {
    match EffectOf(e, e', a)
    case Begins => !InReserve(e) && !Holds(e) && InReserve(e') && !Holds(e') && e'.released == e.released
                   && !a.NonceSettled? && e'.resynced == e.resynced && e'.nonce == e.nonce
    case SettlesNone => InReserve(e) && !Holds(e) && !InReserve(e') && !Holds(e') && e'.released == e.released
                        && e'.resynced == e.resynced && !Lost(e')
    case Settles => InReserve(e) && !Holds(e) && !InReserve(e') && Holds(e') && e'.nonce == a.nonce
                    && e'.released == e.released && e'.resynced == e.resynced
    case Frees => !InReserve(e) && Holds(e) && !InReserve(e') && !Holds(e') && e'.nonce == e.nonce
                  && e'.resynced == e.resynced && !Lost(e')
    case Resyncs => !InReserve(e) && Holds(e) && !InReserve(e') && !Holds(e') && e'.nonce == e.nonce
                    && a.PendingNonce? && e'.released == e.released && !Lost(e')
    case Loses => !InReserve(e) && Holds(e) && !InReserve(e') && !Holds(e') && e'.nonce == e.nonce
                  && e'.released == e.released && e'.resynced == e.resynced
    case Nothing => InReserve(e') == InReserve(e) && Holds(e') == Holds(e) && e'.nonce == e.nonce
                    && e'.released == e.released && e'.resynced == e.resynced
  }

  lemma PreflightEffect(cfg: Config, req: Request, e: Exec, a: Answer)
    requires LocalOk(cfg, e) && WellFormed(e) && Advance(cfg, req, e, a).Some?
    requires e.phase == Entering || e.phase.Preflight?
    ensures EffectOk(e, Advance(cfg, req, e, a).value, a)
  {
    hide SendsOk;
  }

  lemma ChecksEffect(cfg: Config, req: Request, e: Exec, a: Answer)
    requires LocalOk(cfg, e) && WellFormed(e) && AdvanceChecks(cfg, req, e, a).Some?
    requires e.phase.AwaitGas? || e.phase.AwaitGasCap? || e.phase.AwaitPreviewCheck? || e.phase.AwaitPreview?
          || e.phase.AwaitSimulation? || e.phase.AwaitBroadcastCheck?
    ensures EffectOk(e, AdvanceChecks(cfg, req, e, a).value, a)
  {
    hide SendsOk, PriceOf;
  }

  lemma SubmissionEffect(cfg: Config, req: Request, e: Exec, a: Answer)
    requires LocalOk(cfg, e) && WellFormed(e) && AdvanceSubmission(cfg, req, e, a).Some?
    ensures EffectOk(e, AdvanceSubmission(cfg, req, e, a).value, a)
  {
    hide SendsOk, PriceOf, IsUnderpricedError;
  }

  lemma AdvanceEffect(cfg: Config, req: Request, e: Exec, a: Answer)
    requires LocalOk(cfg, e) && WellFormed(e) && Advance(cfg, req, e, a).Some?
    ensures EffectOk(e, Advance(cfg, req, e, a).value, a)
  {
    hide SendsOk, EffectOk, AdvanceChecks, AdvanceSubmission, AdvancePreflight;
    match e.phase
    case Entering => PreflightEffect(cfg, req, e, a);
    case Preflight(_, _) => PreflightEffect(cfg, req, e, a);
    case AwaitRisk(_) => SubmissionEffect(cfg, req, e, a);
    case AwaitSend(_, _) => SubmissionEffect(cfg, req, e, a);
    case AwaitReceipt(_) => SubmissionEffect(cfg, req, e, a);
    case AwaitPendingNonce => SubmissionEffect(cfg, req, e, a);
    case _ => ChecksEffect(cfg, req, e, a);
  }

  // ----- the manager's part of an event -----

  /** From w the steps are possible and lead to w', which differs only for the caller. */
  ghost predicate LeadsTo(w: N.World, steps: seq<N.Step>, w': N.World, id: nat) {
    && N.Indexed(w) && N.Indexed(w') && N.Possible(w, steps) && N.Run(w, steps) == w'
    && OnlyFor(w, w', id) && (N.Keyed(w) ==> N.Keyed(w'))
  }

  lemma NoStepLeads(w: N.World, id: nat)
    requires N.Indexed(w)
    ensures LeadsTo(w, [], w, id)
  {
  }

  lemma OneStepLeads(w: N.World, s: N.Step, id: nat)
    requires N.Indexed(w) && N.Enabled(w, s)
    requires match s
             case Begin(i, _) => i == id
             case Finish(i) => i == id
             case Release(i, _) => i == id
             case Abandon(i) => i == id
             case _ => true
    ensures LeadsTo(w, [s], N.Next(w, s), id)
  {
    assert [s][1..] == [];
    assert N.Possible(N.Next(w, s), []) && N.Run(N.Next(w, s), []) == N.Next(w, s);
    StepOnlyFor(w, s, id);
    if N.Keyed(w) {
      N.StepKeepsKeyed(w, s);
    }
  }

  lemma OneMoreLeads(w: N.World, s: N.Step, w1: N.World, t: N.Step, w2: N.World, id: nat)
    requires LeadsTo(w, [s], w1, id) && LeadsTo(w1, [t], w2, id)
    ensures LeadsTo(w, [s, t], w2, id)
  {
    hide N.Next, N.Keyed;
    OnlyForTwice(w, w1, w2, id);
    assert [s][1..] == [] && [s, t][1..] == [t];
    assert N.Enabled(w, s) && N.Run(w, [s]) == N.Run(N.Next(w, s), []);
    assert w1 == N.Next(w, s);
  }

  /** What settling a caller's reserve changes: it no longer waits, and holds what was settled. */
  lemma FinishEffect(w: N.World, id: nat)
    requires N.Indexed(w) && N.Enabled(w, N.Finish(id))
    ensures var w', key := N.Next(w, N.Finish(id)), w.slots[w.waiting[id]].key;
            && w'.waiting == w.waiting - {id}
            && match Settlement(w, id)
               case None => w'.live == w.live
               case Some(n) => w'.live == w.live[id := N.Reservation(key, n)]
  {
    hide N.Take;
  }

  lemma GiveUpEffect(w: N.World, id: nat)
    requires N.Indexed(w) && id in w.live
    ensures N.Next(w, N.Release(id, w.live[id])).waiting == w.waiting
    ensures N.Next(w, N.Release(id, w.live[id])).live == w.live - {id}
    ensures N.Next(w, N.Abandon(id)).waiting == w.waiting && N.Next(w, N.Abandon(id)).live == w.live - {id}
  {
    hide N.GiveBack;
  }

  ghost predicate StepsOk(cfg: Config, s: System, id: nat, a: Answer)
    requires Formed(s) && Enabled(cfg, s, Answered(id, a))
  {
    var steps := ManagerSteps(cfg, s, Answered(id, a));
    && N.Possible(s.manager, steps)
    && var w' := N.Run(s.manager, steps);
       && LeadsTo(s.manager, steps, w', id)
       && Coupled(System(w', s.execs[id := ExecAfter(cfg, s, id, a)], s.requests), id)
  }

  /** The step with which an execution gives its claim up. */
  ghost function GivesUp(s: System, id: nat, e': Exec): N.Step
    requires id in s.requests && e'.nonce.Some?
  {
    if Lost(e') then N.Abandon(id) else N.Release(id, N.Reservation(KeyOf(s, id), e'.nonce.value))
  }

  lemma SettlementStep(cfg: Config, s: System, id: nat, a: Answer)
    requires Tracked(cfg, s) && Enabled(cfg, s, Answered(id, a)) && a.NonceSettled?
    requires EffectOk(s.execs[id], ExecAfter(cfg, s, id, a), a)
    ensures StepsOk(cfg, s, id, a)
  {
    hide LocalOk, Advance, Settlement, N.Next, N.Possible, N.Run, OnlyFor, N.Keyed;
    var w, finish := s.manager, N.Finish(id);
    assert Coupled(s, id);
    FinishEffect(w, id);
    OneStepLeads(w, finish, id);
    assert ManagerSteps(cfg, s, Answered(id, a)) == [finish];
  }

  lemma BeginStep(cfg: Config, s: System, id: nat, a: Answer)
    requires Tracked(cfg, s) && Enabled(cfg, s, Answered(id, a))
    requires EffectOk(s.execs[id], ExecAfter(cfg, s, id, a), a)
    requires EffectOf(s.execs[id], ExecAfter(cfg, s, id, a), a) == Begins
    ensures StepsOk(cfg, s, id, a)
  {
    hide LocalOk, Advance, N.Possible, N.Run, OnlyFor;
    var key, w := KeyOf(s, id), s.manager;
    assert Coupled(s, id);
    assert ManagerSteps(cfg, s, Answered(id, a)) == [N.Begin(id, key)];
    OneStepLeads(w, N.Begin(id, key), id);
  }

  lemma GiveUpStep(cfg: Config, s: System, id: nat, a: Answer)
    requires Tracked(cfg, s) && Enabled(cfg, s, Answered(id, a))
    requires EffectOk(s.execs[id], ExecAfter(cfg, s, id, a), a)
    requires var effect := EffectOf(s.execs[id], ExecAfter(cfg, s, id, a), a); effect == Frees || effect == Loses
    ensures StepsOk(cfg, s, id, a)
  {
    hide LocalOk, Advance, N.Possible, N.Run, OnlyFor, N.Next, N.Keyed;
    var w, e' := s.manager, ExecAfter(cfg, s, id, a);
    assert Coupled(s, id);
    GiveUpEffect(w, id);
    assert ManagerSteps(cfg, s, Answered(id, a)) == [GivesUp(s, id, e')];
    OneStepLeads(w, GivesUp(s, id, e'), id);
  }

  lemma ResyncStep(cfg: Config, s: System, id: nat, a: Answer)
    requires Tracked(cfg, s) && Enabled(cfg, s, Answered(id, a))
    requires EffectOk(s.execs[id], ExecAfter(cfg, s, id, a), a)
    requires EffectOf(s.execs[id], ExecAfter(cfg, s, id, a), a) == Resyncs
    ensures StepsOk(cfg, s, id, a)
  {
    hide LocalOk, Advance, N.Possible, N.Run, OnlyFor, N.Keyed;
    var w, abandon, resync := s.manager, N.Abandon(id), N.Resync(KeyOf(s, id), a.next);
    assert Coupled(s, id);
    assert ManagerSteps(cfg, s, Answered(id, a)) == [abandon, resync];
    var w1 := N.Next(w, abandon);
    OneStepLeads(w, abandon, id);
    OneStepLeads(w1, resync, id);
    OneMoreLeads(w, abandon, w1, resync, N.Next(w1, resync), id);
  }

  lemma OtherStep(cfg: Config, s: System, id: nat, a: Answer)
    requires Tracked(cfg, s) && Enabled(cfg, s, Answered(id, a))
    requires !a.NonceSettled? && EffectOk(s.execs[id], ExecAfter(cfg, s, id, a), a)
    ensures StepsOk(cfg, s, id, a)
  {
    hide LocalOk, Advance, StepsOk, N.Keyed;
    var effect := EffectOf(s.execs[id], ExecAfter(cfg, s, id, a), a);
    if effect == Begins {
      BeginStep(cfg, s, id, a);
    } else if effect == Frees || effect == Loses {
      GiveUpStep(cfg, s, id, a);
    } else if effect == Resyncs {
      ResyncStep(cfg, s, id, a);
    } else {
      NothingStep(cfg, s, id, a);
    }
  }

  lemma NothingStep(cfg: Config, s: System, id: nat, a: Answer)
    requires Tracked(cfg, s) && Enabled(cfg, s, Answered(id, a)) && !a.NonceSettled?
    requires EffectOk(s.execs[id], ExecAfter(cfg, s, id, a), a)
    requires EffectOf(s.execs[id], ExecAfter(cfg, s, id, a), a) == Nothing
    ensures ManagerSteps(cfg, s, Answered(id, a)) == [] && StepsOk(cfg, s, id, a)
  {
    hide LocalOk, Advance, OnlyFor, N.Keyed;
    assert Coupled(s, id);
    assert ManagerSteps(cfg, s, Answered(id, a)) == [];
    NoStepLeads(s.manager, id);
  }

  // ----- one event -----

  ghost function Next(cfg: Config, s: System, ev: Event): System
    requires Formed(s) && Enabled(cfg, s, ev)
    requires N.Possible(s.manager, ManagerSteps(cfg, s, ev))
  {
    var w' := N.Run(s.manager, ManagerSteps(cfg, s, ev));
    match ev
    case Launch(id, request) => System(w', s.execs[id := Fresh], s.requests[id := request])
    case Answered(id, a) => System(w', s.execs[id := ExecAfter(cfg, s, id, a)], s.requests)
    case _ => s.(manager := w')
  }

  /** Every event, whatever nonce a resync reads, is a possible run of the nonce manager and keeps
      executions and reservations coupled. */
  lemma EventKeepsTrack(cfg: Config, s: System, ev: Event)
    requires Tracked(cfg, s) && Enabled(cfg, s, ev)
    ensures N.Possible(s.manager, ManagerSteps(cfg, s, ev))
    ensures Tracked(cfg, Next(cfg, s, ev))
  {
    hide LocalOk, EffectOk, Advance, OnlyFor, N.Keyed;
    match ev
    case Answered(id, a) =>
      AdvanceEffect(cfg, s.requests[id], s.execs[id], a);
      AdvanceKeeps(cfg, s.requests[id], s.execs[id], a);
      if a.NonceSettled? {
        SettlementStep(cfg, s, id, a);
      } else {
        OtherStep(cfg, s, id, a);
      }
      OthersKeep(cfg, s, Next(cfg, s, ev), id);
    case Launch(id, request) =>
      LaunchKeeps(cfg, s, id, request);
    case NonceRead(slot, nonce) =>
      ManagerOnlyKeeps(cfg, s, N.Resolve(slot, nonce));
    case NonceReadFailed(slot) =>
      ManagerOnlyKeeps(cfg, s, N.Reject(slot));
  }

  lemma LaunchKeeps(cfg: Config, s: System, id: nat, request: Request)
    requires Tracked(cfg, s) && id !in s.execs
    ensures N.Possible(s.manager, []) && N.Run(s.manager, []) == s.manager
    ensures Tracked(cfg, System(s.manager, s.execs[id := Fresh], s.requests[id := request]))
  {
    hide N.Keyed;
    var s' := System(s.manager, s.execs[id := Fresh], s.requests[id := request]);
    forall i | i in s'.execs ensures LocalOk(cfg, s'.execs[i]) && Coupled(s', i) {
      assert i != id ==> Coupled(s, i);
    }
  }

  lemma ManagerOnlyKeeps(cfg: Config, s: System, step: N.Step)
    requires Tracked(cfg, s) && N.Enabled(s.manager, step) && (step.Resolve? || step.Reject?)
    ensures N.Possible(s.manager, [step])
    ensures Tracked(cfg, s.(manager := N.Run(s.manager, [step])))
  {
    hide LocalOk;
    assert [step][1..] == [] && N.Possible(N.Next(s.manager, step), []);
    N.StepKeepsKeyed(s.manager, step);
    var s' := s.(manager := N.Next(s.manager, step));
    forall i | i in s'.execs ensures Coupled(s', i) {
      assert Coupled(s, i);
    }
  }

  // ----- discipline -----

  /** A resynchronising execution reads a pending nonce above those that other executions of its account
      hold and above those that the account's callers in flight will be given. */
  ghost predicate ResyncAbove(s: System, id: nat, next: nat)
    requires Formed(s) && id in s.requests
  {
    && (forall i :: i in s.manager.live && i != id && s.manager.live[i].key == KeyOf(s, id)
                    ==> s.manager.live[i].nonce < next)
    && N.AboveWaiting(s.manager, KeyOf(s, id), next)
  }

  /** Nothing else is asked of a run. */
  ghost predicate Disciplined(s: System, ev: Event)
    requires Formed(s)
  {
    ev.Answered? && ev.answer.PendingNonce? && ev.id in s.requests ==> ResyncAbove(s, ev.id, ev.answer.next)
  }

  /** While an execution holds a nonce of its account, no first nonce of the account is being read. */
  lemma HolderIsReady(w: N.World, id: nat)
    requires N.Good(w) && id in w.live
    ensures N.Ready(w, w.live[id].key) && !N.StillReading(w, w.live[id].key)
  {
    N.LiveIsBacked(w, id);
  }

  /** The executor's resync rule is the manager's, once its own reservation is given up. */
  lemma GivingUp(s: System, id: nat, next: nat)
    requires Formed(s) && id in s.requests && id in s.manager.live && !N.StillReading(s.manager, KeyOf(s, id))
    ensures var given := N.Next(s.manager, N.Abandon(id));
            N.Disciplined(given, N.Resync(KeyOf(s, id), next)) <==> ResyncAbove(s, id, next)
  {
    hide N.NextBelow;
    var w, given, key := s.manager, N.Next(s.manager, N.Abandon(id)), KeyOf(s, id);
    forall i ensures i in given.live <==> i in w.live && i != id {
    }
    forall t ensures N.Waiters(given, t) == N.Waiters(w, t) {
    }
    if ResyncAbove(s, id, next) {
      assert N.AboveLive(given, key, next);
    }
  }

  /** Executions release only what they hold, once, so that all the manager asks of its callers follows
      from the discipline of resyncs. */
  lemma DisciplinedSteps(cfg: Config, s: System, ev: Event)
    requires Invariant(cfg, s) && Enabled(cfg, s, ev) && Disciplined(s, ev)
    ensures N.Legal(s.manager, ManagerSteps(cfg, s, ev))
  {
    EventKeepsTrack(cfg, s, ev);
    if ev.Answered? {
      AnswerIsDisciplined(cfg, s, ev.id, ev.answer);
    } else {
      ReadIsDisciplined(cfg, s, ev);
    }
    hide *;
  }

  lemma ReadIsDisciplined(cfg: Config, s: System, ev: Event)
    requires Formed(s) && Enabled(cfg, s, ev) && !ev.Answered? && N.Possible(s.manager, ManagerSteps(cfg, s, ev))
    ensures N.AllDisciplined(s.manager, ManagerSteps(cfg, s, ev))
  {
    hide N.Next;
    var steps := ManagerSteps(cfg, s, ev);
    if steps != [] {
      assert steps == [steps[0]] && N.Disciplined(s.manager, steps[0]);
      assert steps[1..] == [];
    }
  }

  lemma AnswerIsDisciplined(cfg: Config, s: System, id: nat, a: Answer)
    requires Invariant(cfg, s) && Enabled(cfg, s, Answered(id, a)) && Disciplined(s, Answered(id, a))
    requires N.Possible(s.manager, ManagerSteps(cfg, s, Answered(id, a)))
    ensures N.AllDisciplined(s.manager, ManagerSteps(cfg, s, Answered(id, a)))
  {
    hide LocalOk, Advance, N.Next, N.Good, EffectOk, N.Possible, N.AllDisciplined;
    AdvanceEffect(cfg, s.requests[id], s.execs[id], a);
    var effect := EffectOf(s.execs[id], ExecAfter(cfg, s, id, a), a);
    if effect == Resyncs {
      ResyncIsDisciplined(cfg, s, id, a);
    } else {
      OneIsDisciplined(cfg, s, id, a);
    }
  }

  lemma ResyncIsDisciplined(cfg: Config, s: System, id: nat, a: Answer)
    requires Invariant(cfg, s) && Enabled(cfg, s, Answered(id, a)) && Disciplined(s, Answered(id, a))
    requires EffectOk(s.execs[id], ExecAfter(cfg, s, id, a), a)
    requires EffectOf(s.execs[id], ExecAfter(cfg, s, id, a), a) == Resyncs
    requires N.Possible(s.manager, ManagerSteps(cfg, s, Answered(id, a)))
    ensures N.AllDisciplined(s.manager, ManagerSteps(cfg, s, Answered(id, a)))
  {
    hide LocalOk, Advance, N.Next, N.Keyed, N.Good;
    assert Coupled(s, id);
    assert ManagerSteps(cfg, s, Answered(id, a)) == [N.Abandon(id), N.Resync(KeyOf(s, id), a.next)];
    HolderIsReady(s.manager, id);
    GivingUp(s, id, a.next);
    TwoDisciplined(s.manager, N.Abandon(id), N.Resync(KeyOf(s, id), a.next));
  }

  lemma OneIsDisciplined(cfg: Config, s: System, id: nat, a: Answer)
    requires Tracked(cfg, s) && Enabled(cfg, s, Answered(id, a)) && EffectOk(s.execs[id], ExecAfter(cfg, s, id, a), a)
    requires EffectOf(s.execs[id], ExecAfter(cfg, s, id, a), a) != Resyncs
    requires N.Possible(s.manager, ManagerSteps(cfg, s, Answered(id, a)))
    ensures N.AllDisciplined(s.manager, ManagerSteps(cfg, s, Answered(id, a)))
  {
    hide LocalOk, Advance, N.Next, N.Keyed;
    var steps := ManagerSteps(cfg, s, Answered(id, a));
    assert Coupled(s, id);
    if steps != [] {
      assert steps == [steps[0]] && N.Disciplined(s.manager, steps[0]);
      assert steps[1..] == [];
    }
  }

  lemma TwoDisciplined(w: N.World, first: N.Step, second: N.Step)
    requires N.Indexed(w) && N.Possible(w, [first, second]) && N.Disciplined(w, first)
    requires N.Enabled(w, first) && N.Enabled(N.Next(w, first), second) ==> N.Disciplined(N.Next(w, first), second)
    ensures N.AllDisciplined(w, [first, second])
  {
    var steps := [first, second];
    assert steps[1..] == [second] && steps[1..][1..] == [];
  }

  /** Every disciplined event is a legal run of the nonce manager and keeps its invariant too. */
  lemma EventKeeps(cfg: Config, s: System, ev: Event)
    requires Invariant(cfg, s) && Enabled(cfg, s, ev) && Disciplined(s, ev)
    ensures N.Legal(s.manager, ManagerSteps(cfg, s, ev))
    ensures Invariant(cfg, Next(cfg, s, ev))
  {
    DisciplinedSteps(cfg, s, ev);
    EventKeepsTrack(cfg, s, ev);
    hide N.Good, N.AllDisciplined, N.Possible, Tracked, ManagerSteps, Enabled;
    N.RunsAreSafe(s.manager, ManagerSteps(cfg, s, ev));
  }

  // ----- runs -----

  /** Every event of the run can happen when its turn comes. */
  ghost predicate Possible(cfg: Config, s: System, events: seq<Event>)
    decreases |events|
  {
    events == [] ||
    (&& Formed(s) && Enabled(cfg, s, events[0]) && N.Possible(s.manager, ManagerSteps(cfg, s, events[0]))
     && Possible(cfg, Next(cfg, s, events[0]), events[1..]))
  }

  ghost function After(cfg: Config, s: System, events: seq<Event>): System
    requires Possible(cfg, s, events)
    decreases |events|
  {
    if events == [] then s else After(cfg, Next(cfg, s, events[0]), events[1..])
  }

  /** Every resync of the run keeps the rule. */
  ghost predicate AllDisciplined(cfg: Config, s: System, events: seq<Event>)
    requires Possible(cfg, s, events)
    decreases |events|
  {
    events == [] || (Disciplined(s, events[0]) && AllDisciplined(cfg, Next(cfg, s, events[0]), events[1..]))
  }

  lemma IdleInvariant(cfg: Config)
    ensures Invariant(cfg, Idle)
  {
    N.StartIsGood();
  }

  /** All runs, whatever nonces the resyncs read. */
  lemma {:induction false} RunsKeepTrack(cfg: Config, s: System, events: seq<Event>)
    requires Tracked(cfg, s) && Possible(cfg, s, events)
    ensures Tracked(cfg, After(cfg, s, events))
    decreases |events|
  {
    hide Tracked, Enabled;
    if events != [] {
      EventKeepsTrack(cfg, s, events[0]);
      RunsKeepTrack(cfg, Next(cfg, s, events[0]), events[1..]);
    }
  }

  lemma {:induction false} RunsKeepInvariant(cfg: Config, s: System, events: seq<Event>)
    requires Invariant(cfg, s) && Possible(cfg, s, events) && AllDisciplined(cfg, s, events)
    ensures Invariant(cfg, After(cfg, s, events))
    decreases |events|
  {
    hide Tracked, Enabled, N.Good;
    if events != [] {
      EventKeeps(cfg, s, events[0]);
      RunsKeepInvariant(cfg, Next(cfg, s, events[0]), events[1..]);
    }
  }

  // ----- what follows for results and submissions -----

  /** What the result of an execution says about its nonce and its submissions, in any run. */
  lemma ResultsTellTheTruth(cfg: Config, events: seq<Event>, id: nat)
    requires Possible(cfg, Idle, events) && id in After(cfg, Idle, events).execs
    ensures var s := After(cfg, Idle, events);
            var e := s.execs[id];
            // rejected or simulated: nothing submitted, the nonce released exactly once
            && (e.phase.Finished? && (e.phase.result.RejectedAs? || e.phase.result == SimulatedOnly) ==>
                  && e.sends == [] && id !in s.manager.live
                  && (if e.phase.result == RejectedAs(ExecutionCircuitOpen) then e.nonce == None && e.released == 0
                      else e.nonce.Some? && e.released == 1))
            // a preflight failure releases the nonce if it was reserved
            && (e.phase == ThrewEarly ==>
                  e.sends == [] && id !in s.manager.live && e.released == if e.nonce.Some? then 1 else 0)
            // a later throw, a sent or a failed-receipt result never release the nonce
            && (e.phase == ThrewLate || (e.phase.Finished? && (e.phase.result == SentTx ||
                  e.phase.result == FailedAs(ReceiptReorged) || e.phase.result == FailedAs(ReceiptReverted))) ==>
                  && e.nonce.Some? && e.released == 0 && (e.phase != ThrewLate ==> e.sends != [])
                  && (id in s.manager.live <==> e.sends != [])
                  && (id in s.manager.live ==> s.manager.live[id].nonce == e.nonce.value))
            // send_failed exactly when the manager was resynchronised
            && (e.resynced <==> e.phase == Finished(FailedAs(SendFailed)))
            // a dry run ends simulated and never submits
            && (if cfg.dryRun then e.sends == [] else e.phase != Finished(SimulatedOnly))
  {
    hide LocalOk, N.Keyed, Possible, After;
    var s := After(cfg, Idle, events);
    IdleInvariant(cfg);
    RunsKeepTrack(cfg, Idle, events);
    assert LocalOk(cfg, s.execs[id]) && Coupled(s, id);
    ExecutionTellsTheTruth(cfg, s.execs[id]);
  }

  lemma ExecutionTellsTheTruth(cfg: Config, e: Exec)
    requires LocalOk(cfg, e)
    ensures e.phase.Finished? && (e.phase.result.RejectedAs? || e.phase.result == SimulatedOnly) ==>
              && e.sends == [] && !Holds(e)
              && (if e.phase.result == RejectedAs(ExecutionCircuitOpen) then e.nonce == None && e.released == 0
                  else e.nonce.Some? && e.released == 1)
    ensures e.phase == ThrewEarly ==> e.sends == [] && !Holds(e) && e.released == if e.nonce.Some? then 1 else 0
    ensures (e.phase == ThrewLate || (e.phase.Finished? && (e.phase.result == SentTx ||
               e.phase.result == FailedAs(ReceiptReorged) || e.phase.result == FailedAs(ReceiptReverted)))) ==>
              && e.nonce.Some? && e.released == 0 && (e.phase != ThrewLate ==> e.sends != [])
              && (Holds(e) <==> e.sends != [])
    ensures e.resynced <==> e.phase == Finished(FailedAs(SendFailed))
    ensures if cfg.dryRun then e.sends == [] else e.phase != Finished(SimulatedOnly)
  {
    hide SendsOk;
  }

  ghost predicate Agreeing(cfg: Config, e: Exec, gas: nat, p: nat) {
    forall i :: 0 <= i < |e.sends| ==>
      && e.nonce == Some(e.sends[i].nonce) && e.sends[i].gas == gas
      && e.sends[i].gasPrice == if e.sends[i].attempt == First then p else p + p * cfg.bumpBps / 10_000
  }

  /** In any run, everything one execution submits carries its own nonce, one gas limit and a price of p
      or p + p*bump/10000; at most three sends of at most one private and one public submission each. */
  lemma SubmissionsAgree(cfg: Config, events: seq<Event>, id: nat) returns (gas: nat, p: nat)
    requires Possible(cfg, Idle, events) && id in After(cfg, Idle, events).execs
    ensures var e := After(cfg, Idle, events).execs[id];
            && Agreeing(cfg, e, gas, p) && |e.sends| <= 6
            && forall i, j :: 0 <= i < j < |e.sends| ==> Rank(e.sends[i]) < Rank(e.sends[j])
  {
    IdleInvariant(cfg);
    RunsKeepTrack(cfg, Idle, events);
    var e := After(cfg, Idle, events).execs[id];
    assert LocalOk(cfg, e);
    gas, p := 0, 0;
    if e.sends != [] {
      SendsWithinSix(cfg, e);
      gas, p := e.overrides.value.gas, e.overrides.value.gasPrice;
    }
  }

  lemma SendsWithinSix(cfg: Config, e: Exec)
    requires LocalOk(cfg, e) && e.sends != []
    ensures HasOverrides(e) && SendsOk(cfg, e, 6) && |e.sends| <= 6
  {
    assert HasOverrides(e) && SendsOk(cfg, e, 6);
    RanksCount(e.sends);
    assert |e.sends| - 1 <= Rank(e.sends[|e.sends| - 1]) < 6;
  }

  lemma {:induction false} RanksCount(sends: seq<Submission>)
    requires forall i, j :: 0 <= i < j < |sends| ==> Rank(sends[i]) < Rank(sends[j])
    ensures sends != [] ==> |sends| - 1 <= Rank(sends[|sends| - 1])
  {
    if |sends| > 1 {
      RanksCount(sends[..|sends| - 1]);
      assert Rank(sends[|sends| - 2]) < Rank(sends[|sends| - 1]);
    }
  }

  /** Both executions still hold the nonce of their one account, and both submitted it. */
  ghost predicate Clash(s: System, i: nat, j: nat) {
    && i != j && i in s.execs && j in s.execs && i in s.requests && j in s.requests
    && KeyOf(s, i) == KeyOf(s, j) && Holds(s.execs[i]) && Holds(s.execs[j])
    && exists a, b :: a in s.execs[i].sends && b in s.execs[j].sends && a.nonce == b.nonce
  }

  /** Where reservations are apart, submissions are: no nonce is submitted by two that hold it. */
  lemma InvariantHasNoClash(cfg: Config, s: System, i: nat, j: nat)
    requires Invariant(cfg, s)
    ensures !Clash(s, i, j)
  {
    hide LocalOk, N.Good, N.Keyed;
    if Clash(s, i, j) {
      N.GoodIsUnique(s.manager);
      assert Coupled(s, i) && Coupled(s, j);
      SendsWithinSix(cfg, s.execs[i]);
      SendsWithinSix(cfg, s.execs[j]);
    }
  }

  /** In a run whose resyncs keep the rule, two executions of one account that both still hold their
      nonces never submit the same one. */
  lemma NoTwoHoldersSubmitOneNonce(cfg: Config, events: seq<Event>, i: nat, j: nat)
    requires Possible(cfg, Idle, events) && AllDisciplined(cfg, Idle, events)
    ensures !Clash(After(cfg, Idle, events), i, j)
  {
    IdleInvariant(cfg);
    RunsKeepInvariant(cfg, Idle, events);
    InvariantHasNoClash(cfg, After(cfg, Idle, events), i, j);
  }

  // ----- what a release frees -----

  /** The answer makes the execution release its nonce. */
  ghost predicate Releases(cfg: Config, s: System, id: nat, a: Answer) {
    && Formed(s) && Enabled(cfg, s, Answered(id, a))
    && ExecAfter(cfg, s, id, a).released > s.execs[id].released
  }

  lemma ReleaseStep(cfg: Config, s: System, id: nat, a: Answer)
    requires Tracked(cfg, s) && Releases(cfg, s, id, a)
    ensures Holds(s.execs[id]) && id in s.manager.live
    ensures s.manager.live[id] == N.Reservation(KeyOf(s, id), s.execs[id].nonce.value)
    ensures N.Possible(s.manager, ManagerSteps(cfg, s, Answered(id, a)))
    ensures Next(cfg, s, Answered(id, a)).manager == N.Next(s.manager, N.Release(id, s.manager.live[id]))
  {
    hide LocalOk, Advance, N.Next, N.Keyed;
    AdvanceEffect(cfg, s.requests[id], s.execs[id], a);
    assert Coupled(s, id);
    var release := N.Release(id, N.Reservation(KeyOf(s, id), s.execs[id].nonce.value));
    assert ManagerSteps(cfg, s, Answered(id, a)) == [release];
    EventKeepsTrack(cfg, s, Answered(id, a));
    assert [release][1..] == [];
    assert N.Run(N.Next(s.manager, release), []) == N.Next(s.manager, release);
  }

  /** Nobody holds the reservation any more. It is free in the current state of its account, unless that
      state is newer (a resync came in between), and then no state has changed. */
  ghost predicate Freed(w: N.World, w': N.World, id: nat, r: N.Reservation) {
    && w'.live == w.live - {id} && (forall i :: i in w'.live ==> w'.live[i] != r)
    && w'.states == w.states && r.key in w.states && w.states[r.key] < |w.slots| == |w'.slots|
    && var before, after := w.slots[w.states[r.key]], w'.slots[w.states[r.key]];
       && after.key == r.key && after.status == N.Resolved && after.first == before.first
       && if r.nonce < before.first then w'.slots == w.slots
          else r.nonce in after.value.released && r.nonce !in after.value.active
  }

  /** Whenever an answer makes an execution release its nonce, the nonce is free. */
  lemma ReleaseFreesTheNonce(cfg: Config, s: System, id: nat, a: Answer)
    requires Invariant(cfg, s) && Releases(cfg, s, id, a)
    ensures id in s.manager.live && s.manager.live[id].key == KeyOf(s, id)
    ensures s.execs[id].nonce == Some(s.manager.live[id].nonce)
    ensures N.Possible(s.manager, ManagerSteps(cfg, s, Answered(id, a)))
    ensures Freed(s.manager, Next(cfg, s, Answered(id, a)).manager, id, s.manager.live[id])
  {
    ReleaseStep(cfg, s, id, a);
    HolderReleases(s.manager, id);
  }

  lemma HolderReleases(w: N.World, id: nat)
    requires N.Good(w) && id in w.live
    ensures Freed(w, N.Next(w, N.Release(id, w.live[id])), id, w.live[id])
  {
    var r := w.live[id];
    N.LiveIsBacked(w, id);
    N.GoodIsUnique(w);
    assert N.Indexed(w);
    hide N.Good;
    var before := w.slots[w.states[r.key]];
    N.GiveBackFrees(before.value, before.first, r.nonce);
    if r.nonce < before.first {
      N.StaleReleaseChangesNothing(w, id);
    }
  }

  /** Ends without a submission, after the circuit breaker let it in and a nonce was reserved for it. */
  predicate EndsUnsubmitted(e: Exec) {
    || e.phase == Finished(SimulatedOnly)
    || (e.phase.Finished? && e.phase.result.RejectedAs? && e.phase.result.why != ExecutionCircuitOpen)
    || (e.phase == ThrewEarly && e.nonce.Some?)
  }

  lemma EndingReleases(cfg: Config, s: System, id: nat, a: Answer)
    requires Tracked(cfg, s) && Enabled(cfg, s, Answered(id, a)) && EndsUnsubmitted(ExecAfter(cfg, s, id, a))
    ensures Releases(cfg, s, id, a)
  {
    hide Advance, LocalOk, EndsUnsubmitted, Coupled, N.Keyed;
    AdvanceKeeps(cfg, s.requests[id], s.execs[id], a);
    MovesOnlyUnreleased(cfg, s.requests[id], s.execs[id], a);
    UnsubmittedIsReleased(cfg, ExecAfter(cfg, s, id, a));
  }

  lemma UnsubmittedIsReleased(cfg: Config, e: Exec)
    requires LocalOk(cfg, e) && EndsUnsubmitted(e)
    ensures e.released == 1
  {
    hide SendsOk;
  }

  lemma MovesOnlyUnreleased(cfg: Config, req: Request, e: Exec, a: Answer)
    requires LocalOk(cfg, e) && WellFormed(e) && Advance(cfg, req, e, a).Some?
    ensures e.released == 0
  {
    hide SendsOk, AdvancePreflight, AdvanceChecks, AdvanceSubmission;
  }

  /** In every run whose resyncs keep the rule: the answer on which an execution ends rejected, simulated
      or failed in preflight leaves its nonce free, and unsubmitted. */
  lemma UnsubmittedEndsFree(cfg: Config, events: seq<Event>, id: nat, a: Answer)
    requires Possible(cfg, Idle, events) && AllDisciplined(cfg, Idle, events)
    requires Formed(After(cfg, Idle, events)) && Enabled(cfg, After(cfg, Idle, events), Answered(id, a))
    requires EndsUnsubmitted(ExecAfter(cfg, After(cfg, Idle, events), id, a))
    ensures var s := After(cfg, Idle, events);
            && id in s.manager.live && s.manager.live[id].key == KeyOf(s, id)
            && s.execs[id].nonce == Some(s.manager.live[id].nonce)
            && N.Possible(s.manager, ManagerSteps(cfg, s, Answered(id, a)))
            && Freed(s.manager, Next(cfg, s, Answered(id, a)).manager, id, s.manager.live[id])
            && Next(cfg, s, Answered(id, a)).execs[id].sends == []
  {
    hide LocalOk, N.Good, N.Keyed, Freed, Possible, After, AllDisciplined;
    var s := After(cfg, Idle, events);
    IdleInvariant(cfg);
    RunsKeepInvariant(cfg, Idle, events);
    EndingReleases(cfg, s, id, a);
    ReleaseFreesTheNonce(cfg, s, id, a);
    EventKeepsTrack(cfg, s, Answered(id, a));
    assert LocalOk(cfg, Next(cfg, s, Answered(id, a)).execs[id]);
    ExecutionTellsTheTruth(cfg, Next(cfg, s, Answered(id, a)).execs[id]);
  }
}
