/** Where the coordinator's guarantees end: two calls for one proof that overlap, and two
    messages that share a digest. */
module AttestationLimits {
  import opened Bytes
  import opened Base58
  import opened Commitment
  import opened Addresses
  import opened Coordinator
  import opened CoordinatorRuns

  /** A transaction the coordinator attests when everything goes well. */
  ghost predicate Honest(env: Env, unsigned: seq<byte>, signed: seq<byte>, localT: int) {
    && DecodeTrade(env, unsigned, localT).Ok? && DecodeTrade(env, signed, localT).Ok?
    && var u, s := DecodeTrade(env, unsigned, localT).value, DecodeTrade(env, signed, localT).value;
    && u.messageBytes == s.messageBytes
    && s.signature.Some? && Verifies(env, s.shape.feePayer, s.messageBytes, s.signature.value)
  }

  /** Arm, and attest the unsigned wire. */
  function SimulatedRun(unsigned: seq<byte>, localT: int, simulated: Clock, result: SimulationResult): seq<Action> {
    [Arm, ArmConfirmed(0, localT), Simulate(unsigned), ClockRead(1, simulated), Simulated(1, result)]
  }

  /** The same, then the signed wire twice before the first clock is back. */
  function DoubleSubmission(env: Env, unsigned: seq<byte>, signed: seq<byte>, localT: int, simulated: Clock,
                            result: SimulationResult): seq<Action>
  {
    SimulatedRun(unsigned, localT, simulated, result)
    + [Authorize(env.newId(1), signed)] + [Authorize(env.newId(1), signed)]
  }

  lemma Armed(env: Env, localT: int)
    ensures Run(env, [Arm, ArmConfirmed(0, localT)]) == INITIAL.(flags := Flags(Some(localT), true), next := 1)
  {
    RunSnoc(env, [], Arm);
    RunSnoc(env, [Arm], ArmConfirmed(0, localT));
    assert [] + [Arm] == [Arm] && [Arm] + [ArmConfirmed(0, localT)] == [Arm, ArmConfirmed(0, localT)];
    assert map[0 := Arming] - {0} == map[];
  }

  lemma Attested(env: Env, w: World, unsigned: seq<byte>, localT: int, clock: Clock, result: SimulationResult)
    requires w == INITIAL.(flags := Flags(Some(localT), true), next := 1)
    requires DecodeTrade(env, unsigned, localT).Ok?
    requires OnItsSide(clock, localT, DecodeTrade(env, unsigned, localT).value.shape.phase)
    requires !result.failed && Succeeded(result.logs) == REQUIRED_SUCCESS
    ensures var x := Step(env, Step(env, Step(env, w, Simulate(unsigned)), ClockRead(1, clock)), Simulated(1, result));
            && x.flags.armed == Some(localT) && x.next == 2 && x.tasks == map[]
            && x.store.authorizations == map[] && env.newId(1) in x.store.simulations
            && var s, trade := x.store.simulations[env.newId(1)], DecodeTrade(env, unsigned, localT).value;
            && s.localT == localT && s.messageSha == trade.messageSha && s.timing.phase == trade.shape.phase
  {
    hide DecodeTrade, Succeeded;
    var job := SimulationJob(localT, DecodeTrade(env, unsigned, localT).value);
    var a := Step(env, w, Simulate(unsigned));
    assert a.tasks == map[1 := AwaitingClock(job)];
    var b := Step(env, a, ClockRead(1, clock));
    assert b.tasks == map[1 := AwaitingSimulation(job, clock)];
    assert b.tasks - {1} == map[];
  }

  lemma SimulationSteps(env: Env, unsigned: seq<byte>, localT: int, simulated: Clock, result: SimulationResult)
    ensures Run(env, SimulatedRun(unsigned, localT, simulated, result)) ==
            Step(env, Step(env, Step(env, Run(env, [Arm, ArmConfirmed(0, localT)]),
              Simulate(unsigned)), ClockRead(1, simulated)), Simulated(1, result))
  {
    hide Step, Run;
    var all := SimulatedRun(unsigned, localT, simulated, result);
    assert all[..2] == [Arm, ArmConfirmed(0, localT)] && all[..5] == all;
    assert all[..3] == all[..2] + [all[2]] && all[..4] == all[..3] + [all[3]] && all[..5] == all[..4] + [all[4]];
    RunSnoc(env, all[..2], all[2]);
    RunSnoc(env, all[..3], all[3]);
    RunSnoc(env, all[..4], all[4]);
  }

  /** One call in flight for the proof, or two. */
  lemma OneInFlight(env: Env, w: World, signed: seq<byte>, localT: int, p: string)
    requires w.flags.armed == Some(localT) && w.next == 2 && w.tasks == map[] && w.store.authorizations == map[]
    requires p in w.store.simulations && w.store.simulations[p].localT == localT
    requires BeginAuthorization(env, w.store, p, signed, localT).Ok?
    ensures var x := Step(env, w, Authorize(p, signed));
            var task := AwaitingSignedClock(BeginAuthorization(env, w.store, p, signed, localT).value);
            && x.tasks == map[2 := task] && Step(env, x, Authorize(p, signed)).tasks == map[2 := task, 3 := task]
            && x.store == w.store && task.authorizing.proofId == p && task.authorizing.localT == localT
            && DecodeTrade(env, signed, localT) == Ok(task.authorizing.trade)
  {
    hide DecodeTrade, Verifies;
  }

  lemma SignaturesHaveText(raw: seq<byte>)
    requires raw != []
    ensures Encode(raw) != ""
  {
    DecodeOfEncode(raw);
    DecodeOfEncode([]);
    assert Encode([]) == "";
  }

  lemma HonestlySigned(env: Env, unsigned: seq<byte>, signed: seq<byte>, localT: int)
    requires Honest(env, unsigned, signed, localT)
    ensures Encode(DecodeTrade(env, signed, localT).value.signature.value) != ""
  {
    hide DecodeTrade, Encode;
    SignaturesHaveText(DecodeTrade(env, signed, localT).value.signature.value);
  }

  /** So no honest proof is safe from it: its signed bytes, submitted twice at once,
      leave a server where two clock readings replace its authorization. */
  lemma EveryHonestProofCanBeReplaced(env: Env, unsigned: seq<byte>, signed: seq<byte>, localT: int,
                                      simulated: Clock, result: SimulationResult, first: Clock, second: Clock)
    requires Honest(env, unsigned, signed, localT) && first != second
    requires !result.failed && Succeeded(result.logs) == REQUIRED_SUCCESS
    requires var phase := DecodeTrade(env, signed, localT).value.shape.phase;
             OnItsSide(simulated, localT, phase) && OnItsSide(first, localT, phase) && OnItsSide(second, localT, phase)
    ensures var actions := DoubleSubmission(env, unsigned, signed, localT, simulated, result) + [ClockRead(2, first)];
            !KeepsAuthorizations(Run(env, actions), Run(env, actions + [ClockRead(3, second)]))
  {
    hide DecodeTrade, Succeeded, Verifies, Step, Run, KeepsAuthorizations, FinishSimulation, SimulatedRun;
    var sent := DoubleSubmission(env, unsigned, signed, localT, simulated, result);
    var p := env.newId(1);
    SameMessageSameShape(env, unsigned, signed, localT);
    TradesAreOpened(env, unsigned, localT);
    TradesAreOpened(env, signed, localT);
    HonestlySigned(env, unsigned, signed, localT);
    Armed(env, localT);
    var attested := SimulatedRun(unsigned, localT, simulated, result);
    SimulationSteps(env, unsigned, localT, simulated, result);
    Attested(env, Run(env, [Arm, ArmConfirmed(0, localT)]), unsigned, localT, simulated, result);
    OneInFlight(env, Run(env, attested), signed, localT, p);
    RunSnoc(env, attested, Authorize(p, signed));
    RunSnoc(env, attested + [Authorize(p, signed)], Authorize(p, signed));
    OverlapReplaces(env, Run(env, sent), 2, 3, p, first, second);
    RunSnoc(env, sent, ClockRead(2, first));
    RunSnoc(env, sent + [ClockRead(2, first)], ClockRead(3, second));
  }

  // ------------------------------------------------ phases and collisions

  /** Every authorization names the phase its simulation was attested in. */
  ghost predicate PhasesAgree(env: Env) {
    forall actions: seq<Action>, p: string :: p in Run(env, actions).store.authorizations ==>
      p in Run(env, actions).store.simulations
      && Run(env, actions).store.authorizations[p].timing.phase == Run(env, actions).store.simulations[p].timing.phase
  }

  /** Two attestable trades of different phases, the second signed, whose messages collide. */
  predicate PhaseCollision(env: Env, unsigned: seq<byte>, signed: seq<byte>, localT: int) {
    && DecodeTrade(env, unsigned, localT).Ok? && DecodeTrade(env, signed, localT).Ok?
    && var u, s := DecodeTrade(env, unsigned, localT).value, DecodeTrade(env, signed, localT).value;
    && Collide(env.sha, u.messageBytes, s.messageBytes) && u.shape.phase != s.shape.phase
    && s.signature.Some? && Verifies(env, s.shape.feePayer, s.messageBytes, s.signature.value)
  }

  const CLEAN := SimulationResult(false, [SuccessLine(EQUITY_GUARD), SuccessLine(JUPITER), SuccessLine(WHIRLPOOL)],
                                  None, None)

  lemma CleanSucceeds()
    ensures !CLEAN.failed && Succeeded(CLEAN.logs) == REQUIRED_SUCCESS
  {
    hide SuccessLine;
  }

  lemma CollidingCallBegins(env: Env, store: Store, p: string, unsigned: seq<byte>, signed: seq<byte>, localT: int)
    requires PhaseCollision(env, unsigned, signed, localT)
    requires p in store.simulations && p !in store.authorizations && store.simulations[p].localT == localT
    requires store.simulations[p].messageSha == DecodeTrade(env, unsigned, localT).value.messageSha
    ensures BeginAuthorization(env, store, p, signed, localT).Ok?
  {
    SignaturesHaveText(DecodeTrade(env, signed, localT).value.signature.value);
    TradesAreOpened(env, unsigned, localT);
    TradesAreOpened(env, signed, localT);
    hide DecodeTrade;
  }

  /** A collision gives a run whose authorization is of the other phase than its simulation. */
  lemma CollisionSplits(env: Env, unsigned: seq<byte>, signed: seq<byte>, localT: int)
    requires PhaseCollision(env, unsigned, signed, localT)
    ensures !PhasesAgree(env)
  {
    hide DecodeTrade, Succeeded, Verifies, Step, Run, SimulatedRun, PhaseCollision;
    var p := env.newId(1);
    CollisionDecodes(env, unsigned, signed, localT);
    var u, s := DecodeTrade(env, unsigned, localT).value, DecodeTrade(env, signed, localT).value;
    var before, after := Beside(localT, u.shape.phase, 0), Beside(localT, s.shape.phase, 0);
    var attested := SimulatedRun(unsigned, localT, before, CLEAN);
    CleanSucceeds();
    Armed(env, localT);
    SimulationSteps(env, unsigned, localT, before, CLEAN);
    Attested(env, Run(env, [Arm, ArmConfirmed(0, localT)]), unsigned, localT, before, CLEAN);
    var w := Run(env, attested);
    CollidingCallBegins(env, w.store, p, unsigned, signed, localT);
    OneInFlight(env, w, signed, localT, p);
    RunSnoc(env, attested, Authorize(p, signed));
    var sent := attested + [Authorize(p, signed)];
    RunSnoc(env, sent, ClockRead(2, after));
    FirstRecord(env, Run(env, sent), 2, after);
    var done := Run(env, sent + [ClockRead(2, after)]);
    assert p in done.store.authorizations && done.store.authorizations[p].timing.phase == s.shape.phase;
    assert done.store.simulations[p].timing.phase == u.shape.phase;
  }

  lemma CollisionDecodes(env: Env, unsigned: seq<byte>, signed: seq<byte>, localT: int)
    requires PhaseCollision(env, unsigned, signed, localT)
    ensures DecodeTrade(env, unsigned, localT).Ok? && DecodeTrade(env, signed, localT).Ok?
    ensures DecodeTrade(env, unsigned, localT).value.shape.phase != DecodeTrade(env, signed, localT).value.shape.phase
  {
    hide DecodeTrade, Verifies;
  }

  /** A signed call whose clock is on its side leaves its record and no simulation else. */
  lemma FirstRecord(env: Env, w: World, t: nat, clock: Clock)
    requires t in w.tasks && w.tasks[t].AwaitingSignedClock?
    requires OnItsSide(clock, w.tasks[t].authorizing.localT, w.tasks[t].authorizing.trade.shape.phase)
    ensures var x, job := Step(env, w, ClockRead(t, clock)), w.tasks[t].authorizing;
            && job.proofId in x.store.authorizations && x.store.authorizations[job.proofId] == Recorded(job, clock)
            && x.store.simulations == w.store.simulations
  {
  }

  /** Over all runs an authorization is of its simulation's phase exactly when no two
      attestable trades of different phases have colliding messages. */
  lemma PhasesAgreeExactly(env: Env)
    requires InjectiveIds(env)
    ensures PhasesAgree(env) <==> forall unsigned, signed, localT :: !PhaseCollision(env, unsigned, signed, localT)
  {
    hide Run, InjectiveIds, PhaseCollision;
    if unsigned, signed, localT :| PhaseCollision(env, unsigned, signed, localT) {
      CollisionSplits(env, unsigned, signed, localT);
    } else {
      forall actions: seq<Action>, p: string | p in Run(env, actions).store.authorizations
        ensures p in Run(env, actions).store.simulations
        ensures Run(env, actions).store.authorizations[p].timing.phase ==
                Run(env, actions).store.simulations[p].timing.phase
      {
        DifferingPhasesCollide(env, actions, p);
      }
    }
  }

  lemma DifferingPhasesCollide(env: Env, actions: seq<Action>, p: string)
    requires InjectiveIds(env) && p in Run(env, actions).store.authorizations
    ensures p in Run(env, actions).store.simulations
    ensures Run(env, actions).store.authorizations[p].timing.phase ==
            Run(env, actions).store.simulations[p].timing.phase
            || exists unsigned, signed, localT :: PhaseCollision(env, unsigned, signed, localT)
  {
    hide Run, InjectiveIds, TaskTrue, KeepsSimulations, KeepsArmed, DecodeTrade, Verifies, Attests, RecordsCall,
         PhaseCollision;
    EveryRun(env, actions, 0);
    var w := Run(env, actions);
    assert AuthorizationTrue(env, actions, w, p);
    assert SimulationTrue(env, actions, w, p);
    var s, r := w.store.simulations[p], w.store.authorizations[p];
    var i: nat, c: nat, e: nat, j: nat, d: nat :| Attests(env, actions, i, c, e, j, d, s, r);
    OnePhaseOrCollision(env, actions, i, c, e, j, d, s, r);
  }

  lemma OnePhaseOrCollision(env: Env, h: seq<Action>, i: nat, c: nat, e: nat, j: nat, d: nat, s: Simulation,
                            r: Authorization)
    requires Attests(env, h, i, c, e, j, d, s, r) && r.localT == s.localT && s.timing.phase == s.shape.phase
    ensures r.timing.phase == s.timing.phase
            || exists unsigned, signed, localT :: PhaseCollision(env, unsigned, signed, localT)
  {
    hide DecodeTrade, Verifies;
    if !OneAuthorization(env, h[i].wire, h[j].signedWire, s, r) && r.timing.phase != s.timing.phase {
      TradesAreOpened(env, h[i].wire, s.localT);
      TradesAreOpened(env, h[j].signedWire, r.localT);
      assert PhaseCollision(env, h[i].wire, h[j].signedWire, r.localT);
    }
  }
}
