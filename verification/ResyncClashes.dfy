// Exactly when taking over the pending nonce after a failed send lets two executions of one account
// submit the same nonce, and a run from the start in which it does.

module ResyncClashes {
  import opened Options
  import opened SafeExecutor
  import opened ExecutorProtocol
  import N = NonceManager

  /** In no continuation whose later resyncs keep the rule do two holders submit one nonce. */
  ghost predicate NeverClashes(cfg: Config, s: System) {
    forall events, i, j :: Possible(cfg, s, events) && AllDisciplined(cfg, s, events)
                           ==> !Clash(After(cfg, s, events), i, j)
  }

  // ----- runs without a resync -----

  ghost predicate NoResync(events: seq<Event>) {
    forall k :: 0 <= k < |events| ==> !(events[k].Answered? && events[k].answer.PendingNonce?)
  }

  ghost predicate LeadsOn(cfg: Config, s: System, events: seq<Event>, s': System) {
    Tracked(cfg, s) && Tracked(cfg, s') && NoResync(events) && Possible(cfg, s, events) && After(cfg, s, events) == s'
  }

  lemma {:induction false} NoResyncIsDisciplined(cfg: Config, s: System, events: seq<Event>)
    requires Possible(cfg, s, events) && NoResync(events)
    ensures AllDisciplined(cfg, s, events)
    decreases |events|
  {
    hide Enabled, Next;
    if events != [] {
      forall k | 0 <= k < |events[1..]|
        ensures !(events[1..][k].Answered? && events[1..][k].answer.PendingNonce?)
      {
        assert events[1..][k] == events[k + 1];
      }
      NoResyncIsDisciplined(cfg, Next(cfg, s, events[0]), events[1..]);
    }
  }

  lemma {:induction false} Appended(cfg: Config, a: System, first: seq<Event>, b: System, second: seq<Event>)
    requires Possible(cfg, a, first) && After(cfg, a, first) == b && Possible(cfg, b, second)
    ensures Possible(cfg, a, first + second) && After(cfg, a, first + second) == After(cfg, b, second)
    decreases |first|
  {
    hide Enabled, Next, ManagerSteps, Formed, N.Possible;
    if first == [] {
      assert first + second == second;
    } else {
      assert (first + second)[0] == first[0] && (first + second)[1..] == first[1..] + second;
      Appended(cfg, Next(cfg, a, first[0]), first[1..], b, second);
    }
  }

  lemma {:induction false} AppendedDisciplined(
    cfg: Config, a: System, first: seq<Event>, b: System, second: seq<Event>)
    requires Possible(cfg, a, first) && After(cfg, a, first) == b && Possible(cfg, b, second)
    requires AllDisciplined(cfg, a, first) && AllDisciplined(cfg, b, second)
    ensures Possible(cfg, a, first + second) && AllDisciplined(cfg, a, first + second)
    decreases |first|
  {
    hide Enabled, Next, ManagerSteps, Formed, Disciplined, N.Possible;
    Appended(cfg, a, first, b, second);
    if first == [] {
      assert first + second == second;
    } else {
      assert (first + second)[0] == first[0] && (first + second)[1..] == first[1..] + second;
      AppendedDisciplined(cfg, Next(cfg, a, first[0]), first[1..], b, second);
    }
  }

  lemma StaysHere(cfg: Config, s: System)
    requires Tracked(cfg, s)
    ensures LeadsOn(cfg, s, [], s)
  {
  }

  lemma LeadsFurther(cfg: Config, a: System, first: seq<Event>, b: System, second: seq<Event>, c: System)
    requires LeadsOn(cfg, a, first, b) && LeadsOn(cfg, b, second, c)
    ensures LeadsOn(cfg, a, first + second, c)
  {
    hide Tracked, Possible, After;
    Appended(cfg, a, first, b, second);
  }

  lemma OneEvent(cfg: Config, s: System, ev: Event)
    requires Tracked(cfg, s) && Enabled(cfg, s, ev) && !(ev.Answered? && ev.answer.PendingNonce?)
    ensures N.Possible(s.manager, ManagerSteps(cfg, s, ev)) && LeadsOn(cfg, s, [ev], Next(cfg, s, ev))
  {
    EventKeepsTrack(cfg, s, ev);
    hide Enabled, Next, ManagerSteps;
    assert [ev][1..] == [];
    var s' := Next(cfg, s, ev);
    assert Tracked(cfg, s) ==> Formed(s);
    assert Possible(cfg, s', []) && After(cfg, s', []) == s';
    assert Possible(cfg, s, [ev]) && After(cfg, s, [ev]) == s';
  }

  lemma ClashLater(cfg: Config, s: System, events: seq<Event>, s': System)
    requires LeadsOn(cfg, s, events, s') && !NeverClashes(cfg, s')
    ensures !NeverClashes(cfg, s)
  {
    hide Tracked, Possible, After, AllDisciplined, Clash;
    var more, i, j := SomeClash(cfg, s');
    NoResyncIsDisciplined(cfg, s, events);
    Appended(cfg, s, events, s', more);
    AppendedDisciplined(cfg, s, events, s', more);
    assert Possible(cfg, s, events + more) && AllDisciplined(cfg, s, events + more);
  }

  // ----- an execution that holds a nonce goes on to submit it -----

  /** Its preflight has failed or found no route: once its nonce has settled, it gives it back. */
  predicate WillGiveBack(e: Exec) {
    e.phase.Preflight? && (e.phase.failed || (e.phase.quotes.Some? && !e.phase.quotes.value.0))
  }

  /** The answer that takes an execution with a nonce towards submission. */
  ghost function Onward(e: Exec): Answer {
    match e.phase
    case Preflight(quotes, _) => if quotes.None? then Quotes(true, 0) else Resumes(Usable)
    case AwaitGas(_) => GasLimit(0)
    case AwaitGasCap(_, _) => MaxFee(0)
    case AwaitPreviewCheck => RejectReason(None)
    case AwaitBroadcastCheck => RejectReason(None)
    case AwaitRisk(_) => RiskIs(None)
    case _ => Simulated(true)
  }

  ghost function StepsLeft(e: Exec): nat {
    match e.phase
    case Preflight(quotes, _) => if quotes.None? then 9 else 8
    case AwaitGas(_) => 7
    case AwaitGasCap(_, _) => 6
    case AwaitPreviewCheck => 5
    case AwaitPreview => 4
    case AwaitSimulation => 3
    case AwaitBroadcastCheck => 2
    case AwaitRisk(_) => 1
    case _ => 0
  }

  lemma OnwardStep(cfg: Config, req: Request, e: Exec)
    requires LocalOk(cfg, e) && WellFormed(e) && Holds(e) && e.sends == [] && !WillGiveBack(e) && !cfg.dryRun
    ensures Advance(cfg, req, e, Onward(e)).Some?
    ensures var e' := Advance(cfg, req, e, Onward(e)).value;
            && EffectOf(e, e', Onward(e)) == Nothing && Holds(e') && e'.nonce == e.nonce && !WillGiveBack(e')
            && (if e'.sends != [] then e'.phase.AwaitSend? else StepsLeft(e') < StepsLeft(e))
  {
    hide SendsOk, IsUnderpricedError;
    match e.phase
    case AwaitSimulation => OnwardSubmits(cfg, req, e);
    case AwaitBroadcastCheck => OnwardSubmits(cfg, req, e);
    case AwaitRisk(_) => hide PriceOf;
    case _ => OnwardChecks(cfg, req, e);
  }

  lemma OnwardChecks(cfg: Config, req: Request, e: Exec)
    requires LocalOk(cfg, e) && WellFormed(e) && Holds(e) && e.sends == [] && !WillGiveBack(e)
    requires e.phase != AwaitSimulation && e.phase != AwaitBroadcastCheck && !e.phase.AwaitRisk?
    ensures Advance(cfg, req, e, Onward(e)).Some?
    ensures var e' := Advance(cfg, req, e, Onward(e)).value;
            && EffectOf(e, e', Onward(e)) == Nothing && Holds(e') && e'.nonce == e.nonce && !WillGiveBack(e')
            && e'.sends == [] && StepsLeft(e') < StepsLeft(e)
  {
    hide SendsOk, SendTransaction, AdvanceSubmission;
  }

  lemma OnwardSubmits(cfg: Config, req: Request, e: Exec)
    requires LocalOk(cfg, e) && WellFormed(e) && Holds(e) && e.sends == [] && !cfg.dryRun
    requires e.phase == AwaitSimulation || e.phase == AwaitBroadcastCheck
    ensures Advance(cfg, req, e, Onward(e)).Some?
    ensures var e' := Advance(cfg, req, e, Onward(e)).value;
            && EffectOf(e, e', Onward(e)) == Nothing && Holds(e') && e'.nonce == e.nonce && !WillGiveBack(e')
            && (if e'.sends != [] then e'.phase.AwaitSend? else StepsLeft(e') < StepsLeft(e))
  {
    hide SendsOk, PriceOf, AdvanceSubmission, AdvancePreflight;
  }

  /** Only this execution moved; the manager did not. */
  ghost predicate OnlyExec(s: System, s': System, id: nat)
    requires id in s.execs
  {
    && s'.manager == s.manager && s'.requests == s.requests && id in s'.execs
    && s'.execs == s.execs[id := s'.execs[id]]
  }

  lemma QuietAnswer(cfg: Config, s: System, id: nat, a: Answer)
    requires Tracked(cfg, s) && id in s.execs && !a.NonceSettled? && !a.PendingNonce?
    requires Advance(cfg, s.requests[id], s.execs[id], a).Some?
    requires EffectOf(s.execs[id], ExecAfter(cfg, s, id, a), a) == Nothing
    ensures var s' := s.(execs := s.execs[id := ExecAfter(cfg, s, id, a)]);
            LeadsOn(cfg, s, [Answered(id, a)], s') && OnlyExec(s, s', id)
  {
    hide LocalOk, Advance, N.Keyed;
    var ev := Answered(id, a);
    AdvanceEffect(cfg, s.requests[id], s.execs[id], a);
    NothingStep(cfg, s, id, a);
    OneEvent(cfg, s, ev);
    assert N.Run(s.manager, []) == s.manager;
  }

  /** One answer towards submission. */
  lemma GoesOn(cfg: Config, s: System, id: nat) returns (s': System)
    requires Tracked(cfg, s) && id in s.execs && Holds(s.execs[id]) && !WillGiveBack(s.execs[id]) && !cfg.dryRun
    requires s.execs[id].sends == []
    ensures LeadsOn(cfg, s, [Answered(id, Onward(s.execs[id]))], s') && Tracked(cfg, s') && OnlyExec(s, s', id)
    ensures var e' := s'.execs[id];
            && Holds(e') && e'.nonce == s.execs[id].nonce && !WillGiveBack(e')
            && (if e'.sends != [] then e'.phase.AwaitSend? else StepsLeft(e') < StepsLeft(s.execs[id]))
  {
    hide LocalOk, Advance, N.Keyed, LeadsOn, EffectOf, Holds, WillGiveBack, Onward, StepsLeft, Coupled;
    var a := Onward(s.execs[id]);
    OnwardStep(cfg, s.requests[id], s.execs[id]);
    OnwardIsQuiet(s.execs[id]);
    QuietAnswer(cfg, s, id, a);
    s' := s.(execs := s.execs[id := ExecAfter(cfg, s, id, a)]);
    LeadsOnTracks(cfg, s, [Answered(id, a)], s');
  }

  lemma {:induction false} Submits(cfg: Config, s: System, id: nat) returns (events: seq<Event>, s': System)
    requires Tracked(cfg, s) && id in s.execs && Holds(s.execs[id]) && !WillGiveBack(s.execs[id]) && !cfg.dryRun
    ensures LeadsOn(cfg, s, events, s') && OnlyExec(s, s', id)
    ensures Holds(s'.execs[id]) && s'.execs[id].nonce == s.execs[id].nonce && s'.execs[id].sends != []
    ensures s.execs[id].sends == [] ==> s'.execs[id].phase.AwaitSend?
    decreases StepsLeft(s.execs[id])
  {
    hide Tracked, LeadsOn, Holds, WillGiveBack, Onward, StepsLeft;
    if s.execs[id].sends != [] {
      StaysHere(cfg, s);
      events, s' := [], s;
    } else {
      var a := Onward(s.execs[id]);
      var s1 := GoesOn(cfg, s, id);
      if s1.execs[id].sends != [] {
        events, s' := [Answered(id, a)], s1;
      } else {
        var more;
        more, s' := Submits(cfg, s1, id);
        LeadsFurther(cfg, s, [Answered(id, a)], s1, more, s');
        events := [Answered(id, a)] + more;
        assert s1.execs[id := s'.execs[id]] == s.execs[id := s'.execs[id]];
      }
    }
  }

  lemma OnwardIsQuiet(e: Exec)
    ensures !Onward(e).NonceSettled? && !Onward(e).PendingNonce?
  {
  }

  lemma LeadsOnTracks(cfg: Config, s: System, events: seq<Event>, s': System)
    requires LeadsOn(cfg, s, events, s')
    ensures Tracked(cfg, s) && Tracked(cfg, s')
  {
  }

  // ----- a reserve that settles -----

  function SettledWith(nonce: nat): Answer {
    NonceSettled(Some(nonce))
  }

  lemma SettlementAdvance(cfg: Config, req: Request, e: Exec, nonce: nat)
    requires LocalOk(cfg, e) && InReserve(e)
    ensures WellFormed(e) && Advance(cfg, req, e, SettledWith(nonce)) == Some(e.(nonce := Some(nonce)))
    ensures var e' := e.(nonce := Some(nonce)); Holds(e') && !Lost(e') && e'.sends == []
  {
    hide SendsOk;
  }

  /** What the next taker of a state is given. */
  ghost predicate Gives(w: N.World, t: nat, nonce: nat) {
    t < |w.slots| && w.slots[t].status == N.Resolved && N.Take(w.slots[t].value).1 == Some(nonce)
  }

  /** The manager once a caller took its nonce from the state it waited for. */
  ghost function Taken(w: N.World, id: nat, nonce: nat): N.World
    requires N.Indexed(w) && id in w.waiting
  {
    var t := w.waiting[id];
    N.World(w.slots[t := w.slots[t].(value := N.Take(w.slots[t].value).0)], w.states, w.waiting - {id},
            w.live[id := N.Reservation(w.slots[t].key, nonce)])
  }

  lemma FinishTakes(w: N.World, id: nat, nonce: nat)
    requires N.Indexed(w) && id in w.waiting && Gives(w, w.waiting[id], nonce)
    ensures N.Next(w, N.Finish(id)) == Taken(w, id, nonce)
  {
    hide N.Take;
  }

  lemma RunOfOne(w: N.World, first: N.Step)
    requires N.Indexed(w) && N.Possible(w, [first])
    ensures N.Enabled(w, first) && N.Run(w, [first]) == N.Next(w, first)
  {
    hide N.Next, N.Enabled;
    assert [first][1..] == [];
    assert N.Run(N.Next(w, first), []) == N.Next(w, first);
  }

  lemma RunOfTwo(w: N.World, first: N.Step, second: N.Step)
    requires N.Indexed(w) && N.Possible(w, [first, second])
    ensures N.Enabled(w, first) && N.Enabled(N.Next(w, first), second)
    ensures N.Run(w, [first, second]) == N.Next(N.Next(w, first), second)
  {
    hide N.Next, N.Enabled;
    assert [first, second][1..] == [second];
    RunOfOne(N.Next(w, first), second);
  }

  /** A caller in flight settles. */
  lemma Settle(cfg: Config, s: System, id: nat, nonce: nat) returns (s': System)
    requires Tracked(cfg, s) && id in s.execs && id in s.manager.waiting
    requires Gives(s.manager, s.manager.waiting[id], nonce)
    ensures LeadsOn(cfg, s, [Answered(id, SettledWith(nonce))], s')
    ensures s' == System(Taken(s.manager, id, nonce), s.execs[id := s.execs[id].(nonce := Some(nonce))], s.requests)
    ensures Holds(s'.execs[id]) && s'.execs[id].sends == []
  {
    SettlementEnabled(cfg, s, id, nonce);
    hide LocalOk, Advance, N.Keyed, N.Next, N.Take, EffectOk, Enabled, ManagerSteps, Taken, Holds, LeadsOn;
    var ev := Answered(id, SettledWith(nonce));
    OneEvent(cfg, s, ev);
    s' := Next(cfg, s, ev);
    FinishTakes(s.manager, id, nonce);
    RunOfOne(s.manager, N.Finish(id));
  }

  lemma SettlementEnabled(cfg: Config, s: System, id: nat, nonce: nat)
    requires Tracked(cfg, s) && id in s.execs && id in s.manager.waiting
    requires Gives(s.manager, s.manager.waiting[id], nonce)
    ensures var ev, e' := Answered(id, SettledWith(nonce)), s.execs[id].(nonce := Some(nonce));
            && Enabled(cfg, s, ev) && ManagerSteps(cfg, s, ev) == [N.Finish(id)]
            && ExecAfter(cfg, s, id, SettledWith(nonce)) == e' && Holds(e') && e'.sends == []
  {
    hide LocalOk, Advance, N.Keyed, N.Take, EffectOk;
    assert Coupled(s, id);
    SettlementAdvance(cfg, s.requests[id], s.execs[id], nonce);
  }

  /** The manager once the holder gave its nonce back to the current state of its key. */
  ghost function GivenBack(w: N.World, id: nat, key: string, nonce: nat): N.World
    requires N.Indexed(w) && key in w.states
  {
    var c := w.states[key];
    N.World(w.slots[c := w.slots[c].(value := N.GiveBack(w.slots[c].value, nonce))], w.states, w.waiting,
            w.live - {id})
  }

  lemma ReleaseGivesBack(w: N.World, id: nat, key: string, nonce: nat)
    requires N.Indexed(w) && key in w.states && id in w.live && w.live[id] == N.Reservation(key, nonce)
    ensures N.Next(w, N.Release(id, N.Reservation(key, nonce))) == GivenBack(w, id, key, nonce)
  {
    hide N.GiveBack;
  }

  lemma GiveBackAdvance(cfg: Config, req: Request, e: Exec)
    requires LocalOk(cfg, e) && Holds(e) && WillGiveBack(e)
    ensures WellFormed(e) && Advance(cfg, req, e, Resumes(Usable)).Some?
    ensures var e' := Advance(cfg, req, e, Resumes(Usable)).value;
            && e'.released == e.released + 1 && e'.nonce == e.nonce && !e'.phase.Preflight? && !Lost(e')
            && e'.resynced == e.resynced
  {
    hide SendsOk;
  }

  /** A holder that will give its nonce back does. */
  lemma GivesBack(cfg: Config, s: System, id: nat, nonce: nat) returns (s': System)
    requires Tracked(cfg, s) && id in s.execs && KeyOf(s, id) in s.manager.states
    requires Holds(s.execs[id]) && WillGiveBack(s.execs[id]) && s.execs[id].nonce == Some(nonce)
    ensures LeadsOn(cfg, s, [Answered(id, Resumes(Usable))], s')
    ensures s'.requests == s.requests && id in s'.execs && s'.execs == s.execs[id := s'.execs[id]]
    ensures s'.manager == GivenBack(s.manager, id, KeyOf(s, id), nonce)
  {
    hide LocalOk, Advance, N.Keyed, N.Next, Coupled, LeadsOn, ManagerSteps, GivenBack, Holds, WillGiveBack;
    GiveBackAdvance(cfg, s.requests[id], s.execs[id]);
    ReleaseStep(cfg, s, id, Resumes(Usable));
    OneEvent(cfg, s, Answered(id, Resumes(Usable)));
    ReleaseGivesBack(s.manager, id, KeyOf(s, id), nonce);
    s' := Next(cfg, s, Answered(id, Resumes(Usable)));
  }

  // ----- a new execution of a ready account -----

  function Plain(key: string): Request {
    Request(key, true, false, false)
  }

  const Entered := Fresh.(phase := Preflight(None, false))

  /** The circuit breaker is closed: a launched execution starts to reserve. */
  lemma Starts(cfg: Config, s: System, id: nat) returns (s': System)
    requires Tracked(cfg, s) && id in s.execs && s.execs[id] == Fresh && s.requests[id].routeChainMatches
    ensures LeadsOn(cfg, s, [Answered(id, CircuitBreaker(false))], s')
    ensures s'.execs == s.execs[id := Entered] && s'.requests == s.requests
    ensures N.Enabled(s.manager, N.Begin(id, KeyOf(s, id)))
    ensures s'.manager == N.Next(s.manager, N.Begin(id, KeyOf(s, id)))
  {
    hide LocalOk, N.Keyed, N.Next, AdvanceChecks, AdvancePreflight, AdvanceSubmission;
    var ev, begin := Answered(id, CircuitBreaker(false)), N.Begin(id, KeyOf(s, id));
    assert ExecAfter(cfg, s, id, CircuitBreaker(false)) == Entered;
    OneEvent(cfg, s, ev);
    s' := Next(cfg, s, ev);
    assert ManagerSteps(cfg, s, ev) == [begin];
    RunOfOne(s.manager, begin);
  }

  function Launched(s: System, id: nat, key: string): System {
    System(s.manager, s.execs[id := Fresh], s.requests[id := Plain(key)])
  }

  lemma Launches(cfg: Config, s: System, id: nat, key: string)
    requires Tracked(cfg, s) && id !in s.execs
    ensures LeadsOn(cfg, s, [Launch(id, Plain(key))], Launched(s, id, key))
  {
    hide LocalOk, N.Keyed, N.Next, Coupled, LeadsOn;
    OneEvent(cfg, s, Launch(id, Plain(key)));
    assert Next(cfg, s, Launch(id, Plain(key))) == Launched(s, id, key);
  }

  /** A new execution is launched and starts to reserve. */
  lemma Enters(cfg: Config, s: System, id: nat, key: string) returns (s': System)
    requires Tracked(cfg, s) && id !in s.execs
    ensures LeadsOn(cfg, s, [Launch(id, Plain(key)), Answered(id, CircuitBreaker(false))], s')
    ensures s'.execs == s.execs[id := Entered] && s'.requests == s.requests[id := Plain(key)]
    ensures N.Enabled(s.manager, N.Begin(id, key)) && s'.manager == N.Next(s.manager, N.Begin(id, key))
  {
    hide LocalOk, N.Keyed, N.Next, Coupled, LeadsOn;
    var launch, s1 := Launch(id, Plain(key)), Launched(s, id, key);
    Launches(cfg, s, id, key);
    LeadsOnTracks(cfg, s, [launch], s1);
    s' := Starts(cfg, s1, id);
    LeadsFurther(cfg, s, [launch], s1, [Answered(id, CircuitBreaker(false))], s');
    assert [launch] + [Answered(id, CircuitBreaker(false))] == [launch, Answered(id, CircuitBreaker(false))];
  }

  /** Executions, callers in flight and states of before are as they were, except for the value of the
      current state of the key. */
  ghost predicate Around(s: System, s': System, key: string)
    requires N.Indexed(s.manager) && key in s.manager.states
  {
    var w, w', c := s.manager, s'.manager, s.manager.states[key];
    && N.Indexed(w') && w'.states == w.states && w'.waiting == w.waiting && |w'.slots| == |w.slots|
    && (forall k :: 0 <= k < |w.slots| && k != c ==> w'.slots[k] == w.slots[k])
    && w'.slots[c].key == w.slots[c].key && w'.slots[c].first == w.slots[c].first
    && (forall i :: i in s.execs ==> i in s'.execs && s'.execs[i] == s.execs[i])
    && (forall i :: i in s.requests ==> i in s'.requests && s'.requests[i] == s.requests[i])
  }

  /** The execution is new, of this account, and holds the nonce without having submitted. */
  ghost predicate NewHolder(s: System, s': System, id: nat, key: string, nonce: nat) {
    && id !in s.execs && id in s'.execs && id in s'.requests && s'.requests[id].key == key
    && Holds(s'.execs[id]) && s'.execs[id].nonce == Some(nonce) && s'.execs[id].sends == []
    && !WillGiveBack(s'.execs[id])
  }

  /** The manager once a new caller reserved on the current state of the key. */
  ghost function Reserved(w: N.World, key: string, id: nat, nonce: nat): N.World
    requires N.Indexed(w) && key in w.states
  {
    var c := w.states[key];
    N.World(w.slots[c := w.slots[c].(value := N.Take(w.slots[c].value).0)], w.states, w.waiting,
            w.live[id := N.Reservation(w.slots[c].key, nonce)])
  }

  ghost predicate ReservedBy(s: System, s': System, key: string, id: nat, nonce: nat) {
    && N.Indexed(s.manager) && key in s.manager.states && id !in s.execs
    && Gives(s.manager, s.manager.states[key], nonce)
    && s'.requests == s.requests[id := Plain(key)] && s'.manager == Reserved(s.manager, key, id, nonce)
    && id in s'.execs && s'.execs == s.execs[id := s'.execs[id]]
    && Holds(s'.execs[id]) && s'.execs[id].nonce == Some(nonce) && s'.execs[id].sends == []
    && !WillGiveBack(s'.execs[id])
  }

  lemma BeginThenTake(w: N.World, key: string, id: nat, nonce: nat)
    requires N.Indexed(w) && key in w.states && id !in w.waiting && id !in w.live
    requires Gives(w, w.states[key], nonce)
    ensures var w1 := N.Next(w, N.Begin(id, key));
            && w1.states == w.states && id in w1.waiting && w1.waiting[id] == w.states[key] && w1.slots == w.slots
            && Taken(w1, id, nonce) == Reserved(w, key, id, nonce)
  {
    hide N.Take;
    var w1 := N.Next(w, N.Begin(id, key));
    assert w1.waiting - {id} == w.waiting;
  }

  lemma UnusedExec(cfg: Config, s: System) returns (id: nat)
    requires Tracked(cfg, s)
    ensures id !in s.execs && id !in s.manager.waiting && id !in s.manager.live
  {
    id := N.AboveAll(s.execs.Keys);
  }

  /** A new execution waits for the current state of a ready key, which will give it this nonce. */
  ghost predicate WaitsFor(s: System, s1: System, key: string, id: nat, nonce: nat) {
    && N.Indexed(s.manager) && N.Indexed(s1.manager) && key in s.manager.states && key in s1.manager.states
    && id !in s.execs && Gives(s.manager, s.manager.states[key], nonce)
    && s1.execs == s.execs[id := Entered] && s1.requests == s.requests[id := Plain(key)]
    && id in s1.manager.waiting && Gives(s1.manager, s1.manager.waiting[id], nonce)
    && Taken(s1.manager, id, nonce) == Reserved(s.manager, key, id, nonce)
  }

  lemma Waits(cfg: Config, s: System, key: string) returns (events: seq<Event>, s1: System, id: nat, nonce: nat)
    requires Tracked(cfg, s) && N.Ready(s.manager, key)
    ensures LeadsOn(cfg, s, events, s1) && Tracked(cfg, s1) && WaitsFor(s, s1, key, id, nonce)
  {
    id := UnusedExec(cfg, s);
    var w := s.manager;
    var slot := w.slots[w.states[key]];
    N.TakeSmallestFree(slot.value, slot.first);
    nonce := N.Take(slot.value).1.value;
    BeginThenTake(w, key, id, nonce);
    hide LocalOk, N.Keyed, N.Take, N.Shape, LeadsOn, Coupled, N.Next, Taken, Reserved;
    s1 := Enters(cfg, s, id, key);
    events := [Launch(id, Plain(key)), Answered(id, CircuitBreaker(false))];
    LeadsOnTracks(cfg, s, events, s1);
  }

  /** A whole reserve of a new execution on a ready key. */
  lemma Reserves(cfg: Config, s: System, key: string) returns (events: seq<Event>, s': System, id: nat, nonce: nat)
    requires Tracked(cfg, s) && N.Ready(s.manager, key)
    ensures LeadsOn(cfg, s, events, s') && ReservedBy(s, s', key, id, nonce)
  {
    hide LocalOk, N.Keyed, LeadsOn, Coupled, Taken, Reserved, Gives, N.Ready;
    var entering, s1;
    entering, s1, id, nonce := Waits(cfg, s, key);
    s' := Settle(cfg, s1, id, nonce);
    LeadsFurther(cfg, s, entering, s1, [Answered(id, SettledWith(nonce))], s');
    events := entering + [Answered(id, SettledWith(nonce))];
    assert s'.execs == s.execs[id := s'.execs[id]];
  }

  lemma ReservedAround(s: System, s': System, key: string, id: nat, nonce: nat)
    requires ReservedBy(s, s', key, id, nonce) && N.Ready(s.manager, key)
    requires s.execs.Keys == s.requests.Keys
    ensures Around(s, s', key) && N.Ready(s'.manager, key) && NewHolder(s, s', id, key, nonce)
    ensures var slot, slot' := s.manager.slots[s.manager.states[key]], s'.manager.slots[s.manager.states[key]];
            && slot.first <= nonce && nonce !in slot.value.active
            && slot'.value.active == slot.value.active + {nonce}
            && forall n: nat :: slot.first <= n < nonce ==> n in slot.value.active
  {
    ReservedSlots(s.manager, key, id, nonce);
    hide N.Take, N.Shape, N.Ready, Gives, Holds;
    assert Around(s, s', key);
    hide Around, Reserved;
  }

  lemma ReservedSlots(w: N.World, key: string, id: nat, nonce: nat)
    requires N.Indexed(w) && N.Ready(w, key) && Gives(w, w.states[key], nonce)
    ensures var c, w' := w.states[key], Reserved(w, key, id, nonce);
            && N.Indexed(w') && N.Ready(w', key) && w.slots[c].first <= nonce && nonce !in w.slots[c].value.active
            && w'.states == w.states && w'.waiting == w.waiting && |w'.slots| == |w.slots|
            && (forall k :: 0 <= k < |w.slots| && k != c ==> w'.slots[k] == w.slots[k])
            && w'.slots[c].key == w.slots[c].key && w'.slots[c].first == w.slots[c].first
            && w'.slots[c].value.active == w.slots[c].value.active + {nonce}
            && forall n: nat :: w.slots[c].first <= n < nonce ==> n in w.slots[c].value.active
  {
    var slot := w.slots[w.states[key]];
    N.TakeSmallestFree(slot.value, slot.first);
    hide N.Shape, N.Take;
  }

  /** A whole reserve, and what it leaves alone. */
  lemma ReservesAround(cfg: Config, s: System, key: string)
    returns (events: seq<Event>, s': System, id: nat, nonce: nat)
    requires Tracked(cfg, s) && N.Ready(s.manager, key)
    ensures LeadsOn(cfg, s, events, s') && Tracked(cfg, s')
    ensures Around(s, s', key) && N.Ready(s'.manager, key) && NewHolder(s, s', id, key, nonce)
    ensures var slot, slot' := s.manager.slots[s.manager.states[key]], s'.manager.slots[s.manager.states[key]];
            && slot.first <= nonce && nonce !in slot.value.active
            && slot'.value.active == slot.value.active + {nonce}
            && forall n: nat :: slot.first <= n < nonce ==> n in slot.value.active
  {
    events, s', id, nonce := Reserves(cfg, s, key);
    ReservedAround(s, s', key, id, nonce);
    LeadsOnTracks(cfg, s, events, s');
  }

  lemma AroundTwice(s: System, s1: System, s2: System, key: string)
    requires N.Indexed(s.manager) && key in s.manager.states && Around(s, s1, key) && Around(s1, s2, key)
    ensures Around(s, s2, key)
  {
  }

  /** From a ready key, enough further reserves hand out any given inactive nonce of the current state. */
  lemma {:induction false} HandsOut(cfg: Config, s: System, key: string, nonce: nat, lowest: nat)
    returns (events: seq<Event>, s': System, id: nat)
    requires Tracked(cfg, s) && N.Ready(s.manager, key)
    requires var slot := s.manager.slots[s.manager.states[key]];
             && slot.first <= lowest <= nonce && nonce !in slot.value.active
             && forall n: nat :: slot.first <= n < lowest ==> n in slot.value.active
    ensures LeadsOn(cfg, s, events, s') && Around(s, s', key) && N.Ready(s'.manager, key)
    ensures NewHolder(s, s', id, key, nonce)
    decreases nonce - lowest
  {
    hide LeadsOn, LocalOk, Coupled, N.Keyed, N.Shape, Holds, WillGiveBack;
    var first, s1, holder, taken := ReservesAround(cfg, s, key);
    if taken == nonce {
      events, s', id := first, s1, holder;
    } else {
      var more;
      more, s', id := HandsOut(cfg, s1, key, nonce, taken + 1);
      LeadsFurther(cfg, s, first, s1, more, s');
      AroundTwice(s, s1, s', key);
      events := first + more;
    }
  }

  // ----- how executions come to clash -----

  lemma SubmittedNonce(cfg: Config, e: Exec, nonce: nat)
    requires LocalOk(cfg, e) && e.sends != [] && e.nonce == Some(nonce)
    ensures e.sends[0] in e.sends && e.sends[0].nonce == nonce
  {
    SendsWithinSix(cfg, e);
  }

  /** Two executions of one account that hold one nonce can both submit it. */
  lemma BothSubmit(cfg: Config, s: System, i: nat, j: nat, nonce: nat)
    requires Tracked(cfg, s) && !cfg.dryRun && i != j && i in s.execs && j in s.execs
    requires KeyOf(s, i) == KeyOf(s, j) && Holds(s.execs[i]) && Holds(s.execs[j])
    requires !WillGiveBack(s.execs[i]) && !WillGiveBack(s.execs[j])
    requires s.execs[i].nonce == Some(nonce) && s.execs[j].nonce == Some(nonce)
    ensures !NeverClashes(cfg, s)
  {
    var one, s1 := Submits(cfg, s, i);
    LeadsOnTracks(cfg, s, one, s1);
    var two, s2 := Submits(cfg, s1, j);
    LeadsOnTracks(cfg, s1, two, s2);
    SubmittedNonce(cfg, s2.execs[i], nonce);
    SubmittedNonce(cfg, s2.execs[j], nonce);
    assert Clash(s2, i, j);
    ClashNow(cfg, s2, i, j);
    ClashLater(cfg, s1, two, s2);
    ClashLater(cfg, s, one, s1);
  }

  lemma ClashNow(cfg: Config, s: System, i: nat, j: nat)
    requires Clash(s, i, j)
    ensures !NeverClashes(cfg, s)
  {
    assert Possible(cfg, s, []) && AllDisciplined(cfg, s, []) && After(cfg, s, []) == s;
  }

  /** The holder's nonce is one that the current state of its key will hand out as well. */
  ghost predicate Unprotected(s: System, key: string, id: nat) {
    && N.Indexed(s.manager) && N.Ready(s.manager, key)
    && id in s.execs && id in s.requests && KeyOf(s, id) == key && Holds(s.execs[id])
    && var slot, nonce := s.manager.slots[s.manager.states[key]], s.execs[id].nonce.value;
       slot.first <= nonce && nonce !in slot.value.active
  }

  /** A holder that goes on to submit will meet another. */
  lemma SubmitterCollides(cfg: Config, s: System, key: string, id: nat)
    requires Tracked(cfg, s) && !cfg.dryRun && Unprotected(s, key, id) && !WillGiveBack(s.execs[id])
    ensures !NeverClashes(cfg, s)
  {
    hide LocalOk, N.Keyed, Coupled, LeadsOn, N.Shape;
    var nonce := s.execs[id].nonce.value;
    var events, s1, other := HandsOut(cfg, s, key, nonce, s.manager.slots[s.manager.states[key]].first);
    LeadsOnTracks(cfg, s, events, s1);
    BothSubmit(cfg, s1, id, other, nonce);
    ClashLater(cfg, s, events, s1);
  }

  /** A holder gives its nonce back to the current state, where another holds it: that one will meet a third. */
  lemma GiverCollides(cfg: Config, s: System, key: string, id: nat, other: nat, nonce: nat)
    requires Tracked(cfg, s) && !cfg.dryRun && N.Ready(s.manager, key) && id != other
    requires s.manager.slots[s.manager.states[key]].first <= nonce
    requires id in s.execs && KeyOf(s, id) == key && Holds(s.execs[id]) && s.execs[id].nonce == Some(nonce)
    requires WillGiveBack(s.execs[id])
    requires other in s.execs && KeyOf(s, other) == key && Holds(s.execs[other])
    requires s.execs[other].nonce == Some(nonce) && !WillGiveBack(s.execs[other])
    ensures !NeverClashes(cfg, s)
  {
    hide LocalOk, N.Keyed, Coupled, LeadsOn, N.Shape, WillGiveBack, N.GiveBack;
    var slot := s.manager.slots[s.manager.states[key]];
    N.GiveBackFrees(slot.value, slot.first, nonce);
    var s1 := GivesBack(cfg, s, id, nonce);
    LeadsOnTracks(cfg, s, [Answered(id, Resumes(Usable))], s1);
    SubmitterCollides(cfg, s1, key, other);
    ClashLater(cfg, s, [Answered(id, Resumes(Usable))], s1);
  }

  /** One that will give its nonce back does so once another was handed it by the current state. */
  lemma HolderCollides(cfg: Config, s: System, key: string, id: nat)
    requires Tracked(cfg, s) && !cfg.dryRun && Unprotected(s, key, id)
    ensures !NeverClashes(cfg, s)
  {
    hide LocalOk, N.Keyed, Coupled, LeadsOn, N.Shape, WillGiveBack;
    if WillGiveBack(s.execs[id]) {
      var nonce := s.execs[id].nonce.value;
      var events, s1, other := HandsOut(cfg, s, key, nonce, s.manager.slots[s.manager.states[key]].first);
      LeadsOnTracks(cfg, s, events, s1);
      GiverCollides(cfg, s1, key, id, other, nonce);
      ClashLater(cfg, s, events, s1);
    } else {
      SubmitterCollides(cfg, s, key, id);
    }
  }

  /** The current state of the key is new and nobody took a nonce from it; callers still wait on another
      state of the key, and not all that they will take is below the bound from which the new one starts. */
  ghost predicate Overtaken(w: N.World, key: string, t: nat, next: nat) {
    && N.Indexed(w) && N.Ready(w, key)
    && w.slots[w.states[key]].first == next && w.slots[w.states[key]].value == N.NonceValue(Some(next), [], {})
    && t < |w.slots| && t != w.states[key] && w.slots[t].key == key && w.slots[t].status == N.Resolved
    && N.Shape(w.slots[t].value, w.slots[t].first)
    && !N.NextBelow(w.slots[t].value, |N.Waiters(w, t)|, next)
  }

  /** What holds until one of them takes such a nonce. */
  lemma TakesLess(w: N.World, key: string, t: nat, next: nat, id: nat, nonce: nat)
    requires Overtaken(w, key, t, next) && id in N.Waiters(w, t) && Gives(w, t, nonce) && nonce < next
    ensures var w1 := Taken(w, id, nonce);
            Overtaken(w1, key, t, next) && |N.Waiters(w1, t)| < |N.Waiters(w, t)|
  {
    var w1 := Taken(w, id, nonce);
    N.TakeSmallestFree(w.slots[t].value, w.slots[t].first);
    assert N.Waiters(w1, t) == N.Waiters(w, t) - {id};
  }

  lemma FirstToTake(cfg: Config, s: System, key: string, t: nat, next: nat) returns (id: nat, nonce: nat)
    requires Tracked(cfg, s) && Overtaken(s.manager, key, t, next)
    ensures id in N.Waiters(s.manager, t) && Gives(s.manager, t, nonce)
    ensures id in s.execs && InReserve(s.execs[id]) && KeyOf(s, id) == key
  {
    var w := s.manager;
    assert N.Waiters(w, t) != {};
    id :| id in N.Waiters(w, t);
    assert Coupled(s, id);
    N.TakeSmallestFree(w.slots[t].value, w.slots[t].first);
    nonce := N.Take(w.slots[t].value).1.value;
  }

  lemma {:induction false} WaitersCollide(cfg: Config, s: System, key: string, t: nat, next: nat)
    requires Tracked(cfg, s) && !cfg.dryRun && Overtaken(s.manager, key, t, next)
    ensures !NeverClashes(cfg, s)
    decreases |N.Waiters(s.manager, t)|
  {
    hide LocalOk, N.Keyed, Coupled, LeadsOn, N.Shape, N.Take;
    var id, nonce := FirstToTake(cfg, s, key, t, next);
    var s1 := Settle(cfg, s, id, nonce);
    LeadsOnTracks(cfg, s, [Answered(id, SettledWith(nonce))], s1);
    if nonce < next {
      TakesLess(s.manager, key, t, next, id, nonce);
      WaitersCollide(cfg, s1, key, t, next);
    } else {
      HolderCollides(cfg, s1, key, id);
    }
    ClashLater(cfg, s, [Answered(id, SettledWith(nonce))], s1);
  }

  // ----- exactly when a resync is harmless -----

  /** The system once a failed send was answered with this pending nonce. */
  function Resynced(s: System, id: nat, next: nat): System
    requires id in s.execs && id in s.requests
  {
    var w, key := s.manager, KeyOf(s, id);
    var state := N.Slot(key, N.Resolved, next, N.NonceValue(Some(next), [], {}));
    System(N.World(w.slots + [state], w.states[key := |w.slots|], w.waiting, w.live - {id}),
           s.execs[id := GivenUp(s.execs[id])],
           s.requests)
  }

  function GivenUp(e: Exec): Exec {
    e.(phase := Finished(FailedAs(SendFailed)), resynced := true)
  }

  lemma PendingNonceAdvance(cfg: Config, req: Request, e: Exec, next: nat)
    requires LocalOk(cfg, e) && e.phase == AwaitPendingNonce
    ensures WellFormed(e) && Advance(cfg, req, e, PendingNonce(next)) == Some(GivenUp(e))
    ensures Holds(e) && !e.resynced && !Lost(GivenUp(e)) && !cfg.dryRun
  {
    hide SendsOk;
  }

  lemma ResyncManager(cfg: Config, s: System, id: nat, next: nat)
    requires Formed(s) && id in s.execs && id in s.manager.live
    requires Advance(cfg, s.requests[id], s.execs[id], PendingNonce(next)) == Some(GivenUp(s.execs[id]))
    requires !s.execs[id].resynced && !Lost(GivenUp(s.execs[id]))
    requires Enabled(cfg, s, Answered(id, PendingNonce(next)))
    requires N.Possible(s.manager, ManagerSteps(cfg, s, Answered(id, PendingNonce(next))))
    ensures N.Run(s.manager, ManagerSteps(cfg, s, Answered(id, PendingNonce(next)))) == Resynced(s, id, next).manager
  {
    hide Advance, N.Possible, N.Run;
    var key := KeyOf(s, id);
    assert ManagerSteps(cfg, s, Answered(id, PendingNonce(next))) == [N.Abandon(id), N.Resync(key, next)];
    RunOfTwo(s.manager, N.Abandon(id), N.Resync(key, next));
  }

  lemma ResyncEvent(cfg: Config, s: System, id: nat, next: nat)
    requires Tracked(cfg, s) && id in s.execs && s.execs[id].phase == AwaitPendingNonce
    ensures var ev := Answered(id, PendingNonce(next));
            && Enabled(cfg, s, ev) && N.Possible(s.manager, ManagerSteps(cfg, s, ev))
            && Next(cfg, s, ev) == Resynced(s, id, next)
    ensures Tracked(cfg, Resynced(s, id, next)) && id in s.manager.live && !cfg.dryRun
  {
    hide LocalOk, Advance, N.Keyed, OnlyFor, Holds, Lost;
    var ev, key := Answered(id, PendingNonce(next)), KeyOf(s, id);
    assert Coupled(s, id);
    PendingNonceAdvance(cfg, s.requests[id], s.execs[id], next);
    EventKeepsTrack(cfg, s, ev);
    ResyncManager(cfg, s, id, next);
  }

  /** After a failed send, taking over the pending nonce that was read never lets two executions submit
      one nonce, whatever happens next, exactly when it is above the nonces that other executions of the
      account hold and above those that its callers in flight will be given. */
  lemma ResyncNeverClashesIff(cfg: Config, s: System, id: nat, next: nat)
    requires Invariant(cfg, s) && id in s.execs && s.execs[id].phase == AwaitPendingNonce
    ensures var ev := Answered(id, PendingNonce(next));
            && Enabled(cfg, s, ev) && N.Possible(s.manager, ManagerSteps(cfg, s, ev))
            && (NeverClashes(cfg, Next(cfg, s, ev)) <==> ResyncAbove(s, id, next))
  {
    hide N.Good, LocalOk, N.Keyed, Coupled, NeverClashes;
    ResyncEvent(cfg, s, id, next);
    if ResyncAbove(s, id, next) {
      EventKeeps(cfg, s, Answered(id, PendingNonce(next)));
      InvariantIsSafe(cfg, Resynced(s, id, next));
    } else {
      BelowIsNotSafe(cfg, s, id, next);
    }
  }

  lemma InvariantIsSafe(cfg: Config, s: System)
    requires Invariant(cfg, s)
    ensures NeverClashes(cfg, s)
  {
    hide Invariant, Next, Clash;
    forall events, i, j | Possible(cfg, s, events) && AllDisciplined(cfg, s, events)
      ensures !Clash(After(cfg, s, events), i, j)
    {
      RunsKeepInvariant(cfg, s, events);
      InvariantHasNoClash(cfg, After(cfg, s, events), i, j);
    }
  }

  lemma BelowIsNotSafe(cfg: Config, s: System, id: nat, next: nat)
    requires Invariant(cfg, s) && id in s.execs && Tracked(cfg, Resynced(s, id, next)) && !cfg.dryRun
    requires !ResyncAbove(s, id, next)
    ensures !NeverClashes(cfg, Resynced(s, id, next))
  {
    hide N.Good, LocalOk, N.Keyed, N.NextBelow, N.Take, NeverClashes;
    var w, key, s' := s.manager, KeyOf(s, id), Resynced(s, id, next);
    assert N.Shape(N.NonceValue(Some(next), [], {}), next);
    hide N.Shape;
    assert N.Ready(s'.manager, key);
    if i :| i in w.live && i != id && w.live[i].key == key && w.live[i].nonce >= next {
      assert Coupled(s, i);
      HolderCollides(cfg, s', key, i);
    } else {
      var t :| 0 <= t < |w.slots| && w.slots[t].key == key && w.slots[t].status == N.Resolved
               && !N.NextBelow(w.slots[t].value, |N.Waiters(w, t)|, next);
      ResyncOvertakes(s, id, t, next);
      WaitersCollide(cfg, s', key, t, next);
    }
  }

  lemma ResyncOvertakes(s: System, id: nat, t: nat, next: nat)
    requires Formed(s) && N.Good(s.manager) && id in s.execs && t < |s.manager.slots|
    requires s.manager.slots[t].key == KeyOf(s, id) && s.manager.slots[t].status == N.Resolved
    requires !N.NextBelow(s.manager.slots[t].value, |N.Waiters(s.manager, t)|, next)
    ensures Overtaken(Resynced(s, id, next).manager, KeyOf(s, id), t, next)
  {
    hide N.Good, N.NextBelow;
    StatesHaveShape(s.manager, t);
    assert N.Shape(N.NonceValue(Some(next), [], {}), next);
    assert N.Waiters(Resynced(s, id, next).manager, t) == N.Waiters(s.manager, t);
  }

  lemma StatesHaveShape(w: N.World, t: nat)
    requires N.Good(w) && t < |w.slots| && w.slots[t].status == N.Resolved
    ensures N.Shape(w.slots[t].value, w.slots[t].first)
  {
    assert N.KeyGood(w, w.slots[t].key);
  }

  /** The same rule for the nonce manager alone: reservations stay apart for ever. */
  lemma ResyncAfterFailedSend(cfg: Config, s: System, id: nat, next: nat)
    requires Invariant(cfg, s) && id in s.execs && s.execs[id].phase == AwaitPendingNonce
    ensures id in s.manager.live
    ensures var given := N.Next(s.manager, N.Abandon(id));
            N.SafeForever(N.Next(given, N.Resync(KeyOf(s, id), next))) <==> ResyncAbove(s, id, next)
  {
    hide N.Good, N.Keyed, SendsOk;
    assert Coupled(s, id) && LocalOk(cfg, s.execs[id]);
    var given := N.Next(s.manager, N.Abandon(id));
    N.StepKeepsGood(s.manager, N.Abandon(id));
    HolderIsReady(s.manager, id);
    GivingUp(s, id, next);
    N.ResyncSafeIff(given, KeyOf(s, id), next);
  }

  // ----- a run in which it happens -----

  /** From submitting to asking for the pending nonce: the send fails, and so does the public fallback. */
  lemma SendFails(cfg: Config, s: System, id: nat) returns (events: seq<Event>, s': System)
    requires Tracked(cfg, s) && id in s.execs && s.execs[id].phase.AwaitSend?
    ensures LeadsOn(cfg, s, events, s') && OnlyExec(s, s', id)
    ensures s'.execs[id].phase == AwaitPendingNonce && s'.execs[id].nonce == s.execs[id].nonce
    decreases if s.execs[id].phase.route == PrivateBundle then 1 else 0
  {
    hide LocalOk, Advance, N.Keyed, LeadsOn, EffectOf, Coupled;
    var a := SendError("");
    assert LocalOk(cfg, s.execs[id]);
    FailedSend(cfg, s.requests[id], s.execs[id]);
    QuietAnswer(cfg, s, id, a);
    var s1 := s.(execs := s.execs[id := ExecAfter(cfg, s, id, a)]);
    if s1.execs[id].phase == AwaitPendingNonce {
      events, s' := [Answered(id, a)], s1;
    } else {
      LeadsOnTracks(cfg, s, [Answered(id, a)], s1);
      var more;
      more, s' := SendFails(cfg, s1, id);
      LeadsFurther(cfg, s, [Answered(id, a)], s1, more, s');
      events := [Answered(id, a)] + more;
      assert s1.execs[id := s'.execs[id]] == s.execs[id := s'.execs[id]];
    }
  }

  lemma FailedSend(cfg: Config, req: Request, e: Exec)
    requires LocalOk(cfg, e) && e.phase.AwaitSend?
    ensures WellFormed(e) && Advance(cfg, req, e, SendError("")).Some?
    ensures var e' := Advance(cfg, req, e, SendError("")).value;
            && EffectOf(e, e', SendError("")) == Nothing && e'.nonce == e.nonce
            && (e'.phase == AwaitPendingNonce || (e'.phase.AwaitSend? && e'.phase.route == PublicRpc
                                                  && e.phase.route == PrivateBundle))
  {
    hide SendsOk, PriceOf;
    NotUnderpriced();
  }

  lemma NotUnderpriced()
    ensures !IsUnderpricedError("")
  {
  }

  function ReadBy(key: string, id: nat, nonce: nat): N.World {
    N.World([N.Slot(key, N.Resolved, nonce, N.NonceValue(Some(nonce), [], {}))], map[key := 0], map[id := 0], map[])
  }

  /** The first execution of all waits for the first nonce of its account, and it is read. */
  lemma FirstRead(cfg: Config, key: string, nonce: nat) returns (events: seq<Event>, s': System)
    ensures LeadsOn(cfg, Idle, events, s')
    ensures s' == System(ReadBy(key, 0, nonce), map[0 := Entered], map[0 := Plain(key)])
  {
    hide LocalOk, Coupled, LeadsOn;
    IdleInvariant(cfg);
    var s1 := Enters(cfg, Idle, 0, key);
    var entering := [Launch(0, Plain(key)), Answered(0, CircuitBreaker(false))];
    LeadsOnTracks(cfg, Idle, entering, s1);
    assert s1.manager == N.World([N.Slot(key, N.Pending, 0, N.Blank)], map[key := 0], map[0 := 0], map[]);
    var read := NonceRead(0, nonce);
    OneEvent(cfg, s1, read);
    RunOfOne(s1.manager, N.Resolve(0, nonce));
    s' := Next(cfg, s1, read);
    LeadsFurther(cfg, Idle, entering, s1, [read], s');
    events := entering + [read];
  }

  lemma FirstTakes(key: string, nonce: nat)
    ensures var w, w' := ReadBy(key, 0, nonce), Taken(ReadBy(key, 0, nonce), 0, nonce);
            && 0 in w.waiting && Gives(w, w.waiting[0], nonce)
            && N.Indexed(w') && N.Ready(w', key) && w'.slots[w'.states[key]].first == nonce
  {
    var value := N.NonceValue(Some(nonce), [], {});
    assert N.Shape(value, nonce) && N.Take(value).1 == Some(nonce);
    N.TakeSmallestFree(value, nonce);
    hide N.Shape, N.Take;
  }

  /** The first execution of all holds the nonce that was read. */
  lemma FirstHolds(cfg: Config, key: string, nonce: nat) returns (events: seq<Event>, s': System)
    ensures LeadsOn(cfg, Idle, events, s') && N.Indexed(s'.manager) && N.Ready(s'.manager, key)
    ensures s'.manager.slots[s'.manager.states[key]].first == nonce
    ensures 0 in s'.execs && 0 in s'.requests && s'.requests[0].key == key && Holds(s'.execs[0])
    ensures s'.execs[0].nonce == Some(nonce) && s'.execs[0].sends == [] && !WillGiveBack(s'.execs[0])
  {
    var first, s1 := FirstRead(cfg, key, nonce);
    LeadsOnTracks(cfg, Idle, first, s1);
    FirstTakes(key, nonce);
    hide LeadsOn, Tracked, N.Shape, N.Take, ReadBy, Taken, Gives;
    s' := Settle(cfg, s1, 0, nonce);
    LeadsFurther(cfg, Idle, first, s1, [Answered(0, SettledWith(nonce))], s');
    events := first + [Answered(0, SettledWith(nonce))];
  }

  /** The execution's send failed; another of its account holds a nonce not below its own. */
  ghost predicate FailedBesideAnother(s: System, id: nat, other: nat, nonce: nat) {
    && id != other && id in s.execs && other in s.execs && id in s.requests && other in s.requests
    && KeyOf(s, id) == KeyOf(s, other) && s.execs[id].phase == AwaitPendingNonce && s.execs[id].nonce == Some(nonce)
    && Holds(s.execs[other]) && s.execs[other].nonce.value >= nonce
  }

  lemma FailsBesideAnother(cfg: Config, key: string, nonce: nat) returns (events: seq<Event>, s: System, other: nat)
    requires !cfg.dryRun
    ensures LeadsOn(cfg, Idle, events, s) && FailedBesideAnother(s, 0, other, nonce)
  {
    hide LeadsOn, N.Shape, LocalOk, Coupled, N.Keyed;
    var first, s1 := FirstHolds(cfg, key, nonce);
    LeadsOnTracks(cfg, Idle, first, s1);
    var second, s2, taken;
    second, s2, other, taken := Reserves(cfg, s1, key);
    ReservedAround(s1, s2, key, other, taken);
    LeadsOnTracks(cfg, s1, second, s2);
    var third, s3 := Submits(cfg, s2, 0);
    LeadsOnTracks(cfg, s2, third, s3);
    var fourth;
    fourth, s := SendFails(cfg, s3, 0);
    LeadsFurther(cfg, Idle, first, s1, second, s2);
    LeadsFurther(cfg, Idle, first + second, s2, third, s3);
    LeadsFurther(cfg, Idle, first + second + third, s3, fourth, s);
    events := first + second + third + fourth;
  }

  /** From the start, for every configuration that submits: two executions of an account reserve, the
      first one's send fails, and the chain reports its nonce as the pending one, as it did at first. With
      no other resync out of rule, two executions come to submit one nonce. */
  lemma ResyncCanClash(cfg: Config, key: string, nonce: nat)
    returns (before: seq<Event>, s: System, after: seq<Event>, i: nat, j: nat)
    requires !cfg.dryRun
    ensures NoResync(before) && Possible(cfg, Idle, before) && After(cfg, Idle, before) == s && Formed(s)
    ensures var resync := Answered(0, PendingNonce(nonce));
            && Enabled(cfg, s, resync) && N.Possible(s.manager, ManagerSteps(cfg, s, resync))
            && Possible(cfg, Next(cfg, s, resync), after) && AllDisciplined(cfg, Next(cfg, s, resync), after)
    ensures var events := before + [Answered(0, PendingNonce(nonce))] + after;
            Possible(cfg, Idle, events) && Clash(After(cfg, Idle, events), i, j)
  {
    hide Clash, AllDisciplined, N.Keyed, LocalOk, Next, Enabled, ManagerSteps, NeverClashes, Coupled;
    var other;
    before, s, other := FailsBesideAnother(cfg, key, nonce);
    LeadsOnKeeps(cfg, before, s);
    var ev := Answered(0, PendingNonce(nonce));
    NotAbove(cfg, s, 0, other, nonce);
    ResyncNeverClashesIff(cfg, s, 0, nonce);
    after, i, j := SomeClash(cfg, Next(cfg, s, ev));
    OneThen(cfg, s, ev, after);
    Appended(cfg, Idle, before, s, [ev] + after);
    assert before + ([ev] + after) == before + [ev] + after;
  }

  lemma LeadsOnKeeps(cfg: Config, events: seq<Event>, s: System)
    requires LeadsOn(cfg, Idle, events, s)
    ensures Invariant(cfg, s)
  {
    hide Tracked, N.Good;
    NoResyncIsDisciplined(cfg, Idle, events);
    IdleInvariant(cfg);
    RunsKeepInvariant(cfg, Idle, events);
  }

  lemma SomeClash(cfg: Config, s: System) returns (events: seq<Event>, i: nat, j: nat)
    requires !NeverClashes(cfg, s)
    ensures Possible(cfg, s, events) && AllDisciplined(cfg, s, events) && Clash(After(cfg, s, events), i, j)
  {
    hide Possible, After, AllDisciplined, Clash;
    events, i, j :| Possible(cfg, s, events) && AllDisciplined(cfg, s, events) && Clash(After(cfg, s, events), i, j);
  }

  lemma NotAbove(cfg: Config, s: System, id: nat, other: nat, nonce: nat)
    requires Tracked(cfg, s) && FailedBesideAnother(s, id, other, nonce)
    ensures !ResyncAbove(s, id, nonce)
  {
    assert Coupled(s, other);
  }

  lemma OneThen(cfg: Config, s: System, ev: Event, after: seq<Event>)
    requires Formed(s) && Enabled(cfg, s, ev) && N.Possible(s.manager, ManagerSteps(cfg, s, ev))
    requires Possible(cfg, Next(cfg, s, ev), after)
    ensures Possible(cfg, s, [ev] + after) && After(cfg, s, [ev] + after) == After(cfg, Next(cfg, s, ev), after)
  {
    hide Enabled, Next, Formed;
    assert ([ev] + after)[0] == ev && ([ev] + after)[1..] == after;
  }
}
