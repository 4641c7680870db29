/** Every interleaving of the server's calls: between two awaits anything may
    happen, in any order, any number of times, and any await may never return. */
module CoordinatorRuns {
  import opened Bytes
  import opened Base58
  import opened Commitment
  import opened Addresses
  import opened Coordinator
  import Digits

  /** A call suspended at an await. */
  datatype Task =
    | Arming
    | AwaitingClock(simulating: SimulationJob)
    | AwaitingSimulation(clocked: SimulationJob, clock: Clock)
    | AwaitingSignedClock(authorizing: AuthorizationJob)

  /** The server's two arming flags. */
  datatype Flags = Flags(armed: Option<int>, arming: bool)

  /** `arm` up to its first await, and after its last: nothing ever lowers the flag again. */
  function Begun(f: Flags): Option<Flags> {
    if f.armed.Some? || f.arming then None else Some(f.(arming := true))
  }

  function Confirmed(f: Flags, localT: int): Flags {
    f.(armed := Some(localT))
  }

  datatype World = World(store: Store, flags: Flags, tasks: map<nat, Task>, next: nat)

  const INITIAL := World(Store(map[], map[], 0), Flags(None, false), map[], 0)

  /** One thing the environment does to the server. */
  datatype Action =
    | Arm
    | ArmConfirmed(task: nat, localT: int)
    | Simulate(wire: seq<byte>)
    | Authorize(proofId: string, signedWire: seq<byte>)
    | ClockRead(task: nat, clock: Clock)
    | Simulated(task: nat, result: SimulationResult)
    | Rejected(task: nat)

  function Suspend(w: World, task: Task): World {
    w.(tasks := w.tasks[w.next := task], next := w.next + 1)
  }

  function Resolve(w: World, task: nat): World {
    w.(tasks := w.tasks - {task})
  }

  /** One segment runs to its next await. An action nothing waits for changes nothing,
      and so does a refusal, except that its own call ends. */
  function Step(env: Env, w: World, a: Action): World {
    match a
    case Arm =>
      (match Begun(w.flags)
       case None => w
       case Some(flags) => Suspend(w.(flags := flags), Arming))
    case ArmConfirmed(task, localT) =>
      if task in w.tasks && w.tasks[task].Arming? then
        Resolve(w, task).(flags := Confirmed(w.flags, localT))
      else w
    case Simulate(wire) =>
      if w.flags.armed.None? then w
      else
        (match BeginSimulation(env, wire, w.flags.armed.value)
         case Refused(_) => w
         case Ok(job) => Suspend(w, AwaitingClock(job)))
    case Authorize(proofId, wire) =>
      if w.flags.armed.None? then w
      else
        (match BeginAuthorization(env, w.store, proofId, wire, w.flags.armed.value)
         case Refused(_) => w
         case Ok(job) => Suspend(w, AwaitingSignedClock(job)))
    case ClockRead(task, clock) =>
      if task !in w.tasks then w
      else
        (match w.tasks[task]
         case AwaitingClock(job) =>
           if ClockMismatch(clock, job.localT, job.trade.shape.phase).Some? then Resolve(w, task)
           else w.(tasks := w.tasks[task := AwaitingSimulation(job, clock)])
         case AwaitingSignedClock(job) =>
           Resolve(w, task).(store := FinishAuthorization(w.store, job, clock).0)
         case _ => w)
    case Simulated(task, result) =>
      if task in w.tasks && w.tasks[task].AwaitingSimulation? then
        Resolve(w, task).(store := FinishSimulation(env, w.store, w.tasks[task].clocked, w.tasks[task].clock, result).0)
      else w
    case Rejected(task) => Resolve(w, task)
  }

  /** The server: its two flags, its attestations, and what each request does up to its first await. */
  class ActivationServer {
    const attestations: CoordinatorAttestations
    var armed: Option<int>
    var arming: bool

    function Current(): Flags
      reads this
    {
      Flags(armed, arming)
    }

    constructor (env: Env)
      ensures Current() == INITIAL.flags && attestations.env == env && attestations.Stored() == INITIAL.store
      ensures fresh(attestations)
    {
      attestations := new CoordinatorAttestations(env);
      armed, arming := None, false;
    }

    /** `arm` up to its first await: refused once armed or arming. */
    method BeginArm() returns (refused: bool)
      modifies this
      ensures refused <==> Begun(old(Current())).None?
      ensures Current() == if refused then old(Current()) else Begun(old(Current())).value
    {
      if armed.Some? || arming {
        return true;
      }
      arming := true;
      return false;
    }

    /** `arm` after its last await. */
    method FinishArm(localT: int)
      requires arming && armed.None?
      modifies this
      ensures Current() == Confirmed(old(Current()), localT)
    {
      armed := Some(localT);
    }

    /** The whole call, with what its awaits come to: nothing else touches the flags meanwhile. */
    method HandleArm(confirmed: Option<int>) returns (localT: Option<int>)
      modifies this
      ensures Begun(old(Current())).None? ==> localT == None && Current() == old(Current())
      ensures Begun(old(Current())).Some? ==>
                && localT == confirmed
                && Current() == match confirmed
                                case None => Begun(old(Current())).value
                                case Some(t) => Confirmed(Begun(old(Current())).value, t)
    {
      var refused := BeginArm();
      if refused || confirmed.None? {
        return None;
      }
      FinishArm(confirmed.value);
      return confirmed;
    }

    /** `requireArmed`. */
    method RequireArmed() returns (localT: Option<int>)
      ensures localT == Current().armed
    {
      return armed;
    }

    /** A simulation request up to its first await is the step every run takes. */
    method HandleSimulation(wire: seq<byte>) returns (job: Option<SimulationJob>)
      ensures forall w: World :: w.flags == Current() ==>
                Step(attestations.env, w, Simulate(wire)) ==
                (match job case None => w case Some(j) => Suspend(w, AwaitingClock(j)))
    {
      hide DecodeTrade;
      var localT := RequireArmed();
      if localT.None? {
        return None;
      }
      var begun := BeginSimulation(attestations.env, wire, localT.value);
      job := if begun.Ok? then Some(begun.value) else None;
    }

    /** And so is an authorization request. */
    method HandleAuthorization(proofId: string, wire: seq<byte>) returns (job: Option<AuthorizationJob>)
      ensures forall w: World :: w.flags == Current() && w.store == attestations.Stored() ==>
                Step(attestations.env, w, Authorize(proofId, wire)) ==
                (match job case None => w case Some(j) => Suspend(w, AwaitingSignedClock(j)))
    {
      hide DecodeTrade, BeginAuthorization;
      var localT := RequireArmed();
      if localT.None? {
        return None;
      }
      var begun := attestations.StartAuthorization(proofId, wire, localT.value);
      job := if begun.Ok? then Some(begun.value) else None;
    }
  }

  function Run(env: Env, actions: seq<Action>): World {
    if actions == [] then INITIAL
    else Step(env, Run(env, actions[..|actions| - 1]), actions[|actions| - 1])
  }

  // ------------------------------------------------------------ invariants

  /** PENDING was read before the activation, ACTIVATED at or after it. */
  predicate OnItsSide(clock: Clock, localT: int, phase: Phase) {
    phase == Pending <==> clock.unixTimestamp < localT
  }

  predicate TimingTrue(timing: Timing, clock: Clock, localT: int, phase: Phase) {
    && timing == Timing(phase, RequiredRelation(phase), RequiredRelation(phase))
    && OnItsSide(clock, localT, phase)
  }

  /** The record is of a wire that decoded as a protected trade of this activation. */
  predicate Records(env: Env, wire: seq<byte>, r: Simulation) {
    var d := DecodeTrade(env, wire, r.localT);
    && d.Ok? && d.value.messageSha == r.messageSha && d.value.wireSha == r.wireSha
    && d.value.wireLength == r.wireLength && d.value.shape == r.shape
  }

  /** The number the call begun by action `i` is known by while it is in flight. */
  function TaskOf(env: Env, h: seq<Action>, i: nat): nat
    requires i <= |h|
  {
    Run(env, h[..i]).next
  }

  /** Action `i` of the history presented the wire this is a record of, action `c` read
      that call its clock and action `e` brought it the result on record. */
  predicate RecordsCall(env: Env, h: seq<Action>, i: nat, c: nat, e: nat, r: Simulation) {
    && i < c < e < |h| && h[i].Simulate? && Records(env, h[i].wire, r)
    && h[c] == ClockRead(TaskOf(env, h, i), r.clock)
    && h[e].Simulated? && h[e].task == TaskOf(env, h, i) && !h[e].result.failed
    && r.logs == h[e].result.logs && r.units == h[e].result.units && r.contextSlot == h[e].result.contextSlot
  }

  ghost predicate RecordedBy(env: Env, h: seq<Action>, r: Simulation) {
    exists i, c, e :: RecordsCall(env, h, i, c, e, r)
  }

  /** The record a signed call leaves when its clock is on its side. */
  function Recorded(job: AuthorizationJob, clock: Clock): Authorization {
    var phase := job.trade.shape.phase;
    Authorization(job.proofId, job.localT, clock, Timing(phase, RequiredRelation(phase), RequiredRelation(phase)),
                  job.trade.shape.feePayer, Encode(job.signature), job.trade.wireSha, job.trade.wireLength,
                  job.trade.messageSha, job.simulation.proofId)
  }

  /** What a simulation record attests. */
  ghost predicate SimulationTrue(env: Env, h: seq<Action>, w: World, id: string)
    requires id in w.store.simulations
  {
    var r := w.store.simulations[id];
    && r.proofId == id && (exists k :: 1 <= k <= w.store.counter && env.newId(k) == id)
    && w.flags.armed == Some(r.localT) && RecordedBy(env, h, r)
    && TimingTrue(r.timing, r.clock, r.localT, r.shape.phase)
    && r.succeeded == REQUIRED_SUCCESS && Succeeded(r.logs) == REQUIRED_SUCCESS
  }

  /** The record is of a signed wire whose signature verified, in the phase that wire names. */
  predicate Authorizes(env: Env, wire: seq<byte>, r: Authorization) {
    var d := DecodeTrade(env, wire, r.localT);
    && d.Ok? && d.value.messageSha == r.messageSha && d.value.wireSha == r.wireSha
    && d.value.wireLength == r.wireLength && d.value.shape.feePayer == r.signer
    && d.value.signature.Some? && Encode(d.value.signature.value) == r.signature
    && Verifies(env, r.signer, d.value.messageBytes, d.value.signature.value)
    && TimingTrue(r.timing, r.clock, r.localT, d.value.shape.phase)
  }

  /** One authorization under one phase: the message signed is the message simulated,
      and both clocks were on the side of the activation that its phase names. */
  predicate OneAuthorization(env: Env, unsigned: seq<byte>, signed: seq<byte>, s: Simulation, r: Authorization)
    requires env.open(unsigned).Some? && env.open(signed).Some?
  {
    && env.open(unsigned).value.messageBytes == env.open(signed).value.messageBytes
    && r.timing.phase == s.timing.phase == s.shape.phase
    && OnItsSide(s.clock, r.localT, r.timing.phase) && OnItsSide(r.clock, r.localT, r.timing.phase)
  }

  /** Calls `i` and `j` of the history presented the two wires an authorization stands on,
      and actions `c`, `e` and `d` completed them; they are one authorization, unless their
      two messages are a collision. */
  predicate Attests(env: Env, h: seq<Action>, i: nat, c: nat, e: nat, j: nat, d: nat, s: Simulation,
                    r: Authorization) {
    && e < j < d < |h| && RecordsCall(env, h, i, c, e, s)
    && h[j].Authorize? && h[j].proofId == r.proofId && Authorizes(env, h[j].signedWire, r)
    && h[d] == ClockRead(TaskOf(env, h, j), r.clock)
    && env.open(h[i].wire).Some? && env.open(h[j].signedWire).Some?
    && (OneAuthorization(env, h[i].wire, h[j].signedWire, s, r)
        || Collide(env.sha, env.open(h[i].wire).value.messageBytes, env.open(h[j].signedWire).value.messageBytes))
  }

  /** What an authorization attests: its own simulation and the two calls behind them. */
  ghost predicate AuthorizationTrue(env: Env, h: seq<Action>, w: World, id: string)
    requires id in w.store.authorizations
  {
    var r := w.store.authorizations[id];
    && r.proofId == id && r.simulationProofId == id && id in w.store.simulations
    && var s := w.store.simulations[id];
    && r.localT == s.localT && r.messageSha == s.messageSha
    && exists i, c, e, j, d :: Attests(env, h, i, c, e, j, d, s, r)
  }

  /** Action `i` presented the trade of call `t`. */
  predicate Presented(env: Env, h: seq<Action>, i: nat, t: nat, job: SimulationJob) {
    && i < |h| && h[i].Simulate? && TaskOf(env, h, i) == t
    && DecodeTrade(env, h[i].wire, job.localT) == Ok(job.trade)
  }

  /** And action `c` read it its clock. */
  predicate Clocked(env: Env, h: seq<Action>, i: nat, c: nat, t: nat, job: SimulationJob, clock: Clock) {
    Presented(env, h, i, t, job) && i < c < |h| && h[c] == ClockRead(t, clock)
  }

  /** Action `j` presented the signed trade of call `t`, for the proof recorded before it. */
  predicate PresentedSigned(env: Env, h: seq<Action>, i: nat, c: nat, e: nat, j: nat, t: nat,
                            job: AuthorizationJob) {
    && e < j < |h| && RecordsCall(env, h, i, c, e, job.simulation)
    && h[j].Authorize? && h[j].proofId == job.proofId && TaskOf(env, h, j) == t
    && DecodeTrade(env, h[j].signedWire, job.localT) == Ok(job.trade)
  }

  ghost predicate TaskTrue(env: Env, h: seq<Action>, w: World, t: nat, task: Task) {
    match task
    case Arming => w.flags.armed.None?
    case AwaitingClock(job) => w.flags.armed == Some(job.localT) && exists i :: Presented(env, h, i, t, job)
    case AwaitingSimulation(job, clock) =>
      && w.flags.armed == Some(job.localT) && (exists i, c :: Clocked(env, h, i, c, t, job, clock))
      && ClockMismatch(clock, job.localT, job.trade.shape.phase).None?
    case AwaitingSignedClock(job) =>
      && w.flags.armed == Some(job.localT)
      && (exists i, c, e, j :: PresentedSigned(env, h, i, c, e, j, t, job))
      && job.proofId in w.store.simulations && job.simulation == w.store.simulations[job.proofId]
      && job.trade.messageSha == job.simulation.messageSha
      && job.trade.signature == Some(job.signature)
      && Verifies(env, job.trade.shape.feePayer, job.trade.messageBytes, job.signature)
  }

  /** The world a history led to holds nothing that history does not account for. */
  ghost predicate Invariant(env: Env, h: seq<Action>, w: World) {
    && (forall id :: id in w.store.simulations ==> SimulationTrue(env, h, w, id))
    && (forall id :: id in w.store.authorizations ==> AuthorizationTrue(env, h, w, id))
    && (forall t :: t in w.tasks ==> t < w.next && TaskTrue(env, h, w, t, w.tasks[t]))
    && (w.flags.armed.Some? || (exists t :: t in w.tasks && w.tasks[t].Arming?) ==> w.flags.arming)
    && (forall t, u :: t in w.tasks && u in w.tasks && w.tasks[t].Arming? && w.tasks[u].Arming? ==> t == u)
  }

  ghost predicate InjectiveIds(env: Env) {
    forall j: nat, k: nat :: env.newId(j) == env.newId(k) ==> j == k
  }

  /** The later world still holds every simulation of the earlier one, unchanged. */
  predicate KeepsSimulations(w: World, v: World) {
    forall id :: id in w.store.simulations ==>
      id in v.store.simulations && v.store.simulations[id] == w.store.simulations[id]
  }

  predicate KeepsAuthorizations(w: World, v: World) {
    forall id :: id in w.store.authorizations ==>
      id in v.store.authorizations && v.store.authorizations[id] == w.store.authorizations[id]
  }

  /** The localT a server is armed with never changes. */
  predicate KeepsArmed(w: World, v: World) {
    w.flags.armed.Some? ==> v.flags.armed == w.flags.armed
  }

  lemma StartsTrue(env: Env)
    ensures Invariant(env, [], INITIAL)
  {
  }

  /** Changing only tasks, or arming, keeps what the records say. */
  lemma SameRecords(env: Env, h: seq<Action>, w: World, v: World)
    requires Invariant(env, h, w) && v.store == w.store && KeepsArmed(w, v)
    ensures forall id :: id in v.store.simulations ==> SimulationTrue(env, h, v, id)
    ensures forall id :: id in v.store.authorizations ==> AuthorizationTrue(env, h, v, id)
  {
    hide TaskTrue;
    forall id | id in v.store.simulations ensures SimulationTrue(env, h, v, id) {
      assert SimulationTrue(env, h, w, id);
    }
    forall id | id in v.store.authorizations ensures AuthorizationTrue(env, h, v, id) {
      assert AuthorizationTrue(env, h, w, id);
    }
  }

  lemma SuspendKeeps(env: Env, h: seq<Action>, w: World, task: Task)
    requires Invariant(env, h, w) && TaskTrue(env, h, w, w.next, task)
    requires !task.Arming?
    ensures Invariant(env, h, Suspend(w, task))
  {
    var v := Suspend(w, task);
    SameRecords(env, h, w, v);
    hide SimulationTrue, AuthorizationTrue;
    forall t | t in v.tasks ensures t < v.next && TaskTrue(env, h, v, t, v.tasks[t]) {
      if t != w.next {
        assert TaskTrue(env, h, w, t, w.tasks[t]);
      }
    }
  }

  lemma ArmKeeps(env: Env, h: seq<Action>, w: World)
    requires Invariant(env, h, w)
    ensures Invariant(env, h, Step(env, w, Arm))
  {
    if w.flags.armed.None? && !w.flags.arming {
      var v := Step(env, w, Arm);
      SameRecords(env, h, w, v);
      UnarmedTasks(env, h, w);
      hide SimulationTrue, AuthorizationTrue;
      assert forall t :: t in v.tasks ==> t == w.next;
    }
  }

  /** Until the server is armed, the only call in flight is the one arming it. */
  lemma UnarmedTasks(env: Env, h: seq<Action>, w: World)
    requires Invariant(env, h, w) && w.flags.armed.None?
    ensures forall t, u :: t in w.tasks && u in w.tasks ==> w.tasks[t].Arming? && t == u
    ensures !w.flags.arming ==> w.tasks == map[]
  {
    hide SimulationTrue, AuthorizationTrue;
    forall t | t in w.tasks ensures w.tasks[t].Arming? {
      assert TaskTrue(env, h, w, t, w.tasks[t]);
    }
  }

  lemma ResolveKeeps(env: Env, h: seq<Action>, w: World, task: nat)
    requires Invariant(env, h, w)
    ensures Invariant(env, h, Resolve(w, task))
  {
    var v := Resolve(w, task);
    SameRecords(env, h, w, v);
    hide SimulationTrue, AuthorizationTrue;
    forall t | t in v.tasks ensures t < v.next && TaskTrue(env, h, v, t, v.tasks[t]) {
      assert TaskTrue(env, h, w, t, w.tasks[t]);
    }
  }

  /** The activation is confirmed by the only call that can be arming. */
  lemma ArmConfirmedKeeps(env: Env, h: seq<Action>, w: World, task: nat, localT: int)
    requires Invariant(env, h, w) && task in w.tasks && w.tasks[task].Arming?
    ensures Invariant(env, h, Step(env, w, ArmConfirmed(task, localT)))
    ensures w.flags.armed.None?
  {
    var v := Step(env, w, ArmConfirmed(task, localT));
    assert TaskTrue(env, h, w, task, w.tasks[task]);
    SameRecords(env, h, w, v);
    UnarmedTasks(env, h, w);
    hide SimulationTrue, AuthorizationTrue;
    assert v.tasks == map[];
  }

  lemma ClockIsRead(env: Env, h: seq<Action>, w: World, task: nat, clock: Clock)
    requires task in w.tasks && w.tasks[task].AwaitingClock? && TaskTrue(env, h, w, task, w.tasks[task])
    ensures exists i, c :: Clocked(env, h + [ClockRead(task, clock)], i, c, task, w.tasks[task].simulating, clock)
  {
    hide DecodeTrade, Run;
    var k := h + [ClockRead(task, clock)];
    var i: nat :| Presented(env, h, i, task, w.tasks[task].simulating);
    assert h[..i] == k[..i];
    assert Clocked(env, k, i, |h|, task, w.tasks[task].simulating, clock);
  }

  lemma ClockedKeeps(env: Env, h: seq<Action>, w: World, task: nat, clock: Clock)
    requires Invariant(env, h, w) && task in w.tasks && w.tasks[task].AwaitingClock?
    requires exists i, c :: Clocked(env, h, i, c, task, w.tasks[task].simulating, clock)
    ensures Invariant(env, h, Step(env, w, ClockRead(task, clock)))
  {
    hide DecodeTrade, Verifies, RecordedBy, Attests, Presented, Clocked, PresentedSigned, TimingTrue, Run;
    var job := w.tasks[task].simulating;
    if ClockMismatch(clock, job.localT, job.trade.shape.phase).Some? {
      ResolveKeeps(env, h, w, task);
    } else {
      var v := Step(env, w, ClockRead(task, clock));
      assert TaskTrue(env, h, w, task, w.tasks[task]);
      SameRecords(env, h, w, v);
      hide SimulationTrue, AuthorizationTrue;
      forall t | t in v.tasks ensures t < v.next && TaskTrue(env, h, v, t, v.tasks[t]) {
        assert TaskTrue(env, h, w, t, w.tasks[t]);
      }
    }
  }

  /** Two decoded trades with one message digest are one authorization, or their messages collide. */
  lemma OneOrCollide(env: Env, unsigned: seq<byte>, signed: seq<byte>, s: Simulation, r: Authorization)
    requires Records(env, unsigned, s) && Authorizes(env, signed, r)
    requires r.localT == s.localT && r.messageSha == s.messageSha
    requires TimingTrue(s.timing, s.clock, s.localT, s.shape.phase)
    ensures env.open(unsigned).Some? && env.open(signed).Some?
    ensures OneAuthorization(env, unsigned, signed, s, r)
            || Collide(env.sha, env.open(unsigned).value.messageBytes, env.open(signed).value.messageBytes)
  {
    TradesAreOpened(env, unsigned, s.localT);
    TradesAreOpened(env, signed, r.localT);
    hide DecodeTrade, Verifies;
    if env.open(unsigned).value.messageBytes == env.open(signed).value.messageBytes {
      SameMessageSameShape(env, unsigned, signed, r.localT);
    }
  }

  lemma TradesAreOpened(env: Env, wire: seq<byte>, localT: int)
    requires DecodeTrade(env, wire, localT).Ok?
    ensures env.open(wire).Some?
    ensures DecodeTrade(env, wire, localT).value.messageBytes == env.open(wire).value.messageBytes
    ensures DecodeTrade(env, wire, localT).value.messageSha == env.sha(env.open(wire).value.messageBytes)
  {
    hide DecodeTrade;
    AdmittedExactly(env, wire, localT);
  }

  lemma AuthorizedAttests(env: Env, h: seq<Action>, i: nat, c: nat, e: nat, j: nat, t: nat, job: AuthorizationJob,
                          clock: Clock, r: Authorization)
    requires PresentedSigned(env, h, i, c, e, j, t, job) && job.trade.messageSha == job.simulation.messageSha
    requires job.trade.signature == Some(job.signature) && job.simulation.localT == job.localT
    requires Verifies(env, job.trade.shape.feePayer, job.trade.messageBytes, job.signature)
    requires TimingTrue(job.simulation.timing, job.simulation.clock, job.simulation.localT, job.simulation.shape.phase)
    requires ClockMismatch(clock, job.localT, job.trade.shape.phase).None?
    requires r == Recorded(job, clock)
    ensures Attests(env, h + [ClockRead(t, clock)], i, c, e, j, |h|, job.simulation, r)
  {
    hide DecodeTrade, Verifies, Records, OneAuthorization, Run;
    var k := h + [ClockRead(t, clock)];
    assert h[..j] == k[..j] && h[..i] == k[..i];
    assert Authorizes(env, k[j].signedWire, r);
    OneOrCollide(env, h[i].wire, h[j].signedWire, job.simulation, r);
  }

  lemma AuthorizedKeeps(env: Env, h: seq<Action>, w: World, task: nat, clock: Clock)
    requires Invariant(env, h, w) && task in w.tasks && w.tasks[task].AwaitingSignedClock?
    requires Invariant(env, h + [ClockRead(task, clock)], w)
    ensures Invariant(env, h + [ClockRead(task, clock)], Step(env, w, ClockRead(task, clock)))
    ensures KeepsSimulations(w, Step(env, w, ClockRead(task, clock)))
  {
    hide DecodeTrade, Verifies, RecordedBy, Attests, PresentedSigned, Clocked, Presented, Run;
    var k := h + [ClockRead(task, clock)];
    var job := w.tasks[task].authorizing;
    var v := Step(env, w, ClockRead(task, clock));
    TimingThrowsExactlyUnchecked(clock, job.localT, job.trade.shape.phase);
    assert TaskTrue(env, k, w, task, w.tasks[task]);
    forall id | id in v.store.simulations ensures SimulationTrue(env, k, v, id) {
      assert SimulationTrue(env, k, w, id);
    }
    forall id | id in v.store.authorizations ensures AuthorizationTrue(env, k, v, id) {
      if id == job.proofId && v.store != w.store {
        assert SimulationTrue(env, h, w, id);
        var i: nat, c: nat, e: nat, j: nat :| PresentedSigned(env, h, i, c, e, j, task, job);
        AuthorizedAttests(env, h, i, c, e, j, task, job, clock, v.store.authorizations[id]);
      } else {
        assert AuthorizationTrue(env, k, w, id);
      }
    }
    hide SimulationTrue, AuthorizationTrue;
    forall t | t in v.tasks ensures t < v.next && TaskTrue(env, k, v, t, v.tasks[t]) {
      assert TaskTrue(env, k, w, t, w.tasks[t]);
    }
  }

  lemma AllThree(logs: seq<string>)
    ensures |Succeeded(logs)| == 3 ==> Succeeded(logs) == REQUIRED_SUCCESS
  {
  }

  lemma FreshId(env: Env, h: seq<Action>, w: World)
    requires Invariant(env, h, w) && InjectiveIds(env)
    ensures env.newId(w.store.counter + 1) !in w.store.simulations
  {
    forall id | id in w.store.simulations ensures id != env.newId(w.store.counter + 1) {
      assert SimulationTrue(env, h, w, id);
    }
  }

  lemma ResultIsBack(env: Env, h: seq<Action>, w: World, task: nat, result: SimulationResult, r: Simulation)
    requires task in w.tasks && w.tasks[task].AwaitingSimulation? && TaskTrue(env, h, w, task, w.tasks[task])
    requires var job := w.tasks[task].clocked;
             && r.localT == job.localT && r.messageSha == job.trade.messageSha && r.wireSha == job.trade.wireSha
             && r.wireLength == job.trade.wireLength && r.shape == job.trade.shape
    requires r.clock == w.tasks[task].clock && !result.failed
    requires r.logs == result.logs && r.units == result.units && r.contextSlot == result.contextSlot
    ensures RecordedBy(env, h + [Simulated(task, result)], r)
  {
    hide DecodeTrade, Run;
    var k := h + [Simulated(task, result)];
    var i: nat, c: nat :| Clocked(env, h, i, c, task, w.tasks[task].clocked, w.tasks[task].clock);
    assert h[..i] == k[..i];
    assert RecordsCall(env, k, i, c, |h|, r);
  }

  lemma SimulatedKeeps(env: Env, h: seq<Action>, w: World, task: nat, result: SimulationResult)
    requires Invariant(env, h, w) && InjectiveIds(env) && task in w.tasks && w.tasks[task].AwaitingSimulation?
    requires Invariant(env, h + [Simulated(task, result)], w)
    ensures Invariant(env, h + [Simulated(task, result)], Step(env, w, Simulated(task, result)))
    ensures KeepsSimulations(w, Step(env, w, Simulated(task, result)))
  {
    hide Succeeded, SuccessLine, AuthorizationTrue, DecodeTrade, RecordedBy, PresentedSigned, Clocked, Presented, Run;
    var k := h + [Simulated(task, result)];
    var job, clock := w.tasks[task].clocked, w.tasks[task].clock;
    var v := Step(env, w, Simulated(task, result));
    AllThree(result.logs);
    TimingThrowsExactlyUnchecked(clock, job.localT, job.trade.shape.phase);
    assert TaskTrue(env, h, w, task, w.tasks[task]);
    var id' := env.newId(w.store.counter + 1);
    FreshId(env, h, w);
    assert KeepsSimulations(w, v);
    forall id | id in v.store.simulations ensures SimulationTrue(env, k, v, id) {
      if id in w.store.simulations {
        assert SimulationTrue(env, k, w, id);
      } else {
        ResultIsBack(env, h, w, task, result, v.store.simulations[id]);
      }
    }
    OthersUnmoved(env, k, w, v, task);
  }

  /** A longer list of simulations takes nothing from the authorizations and the other calls. */
  lemma OthersUnmoved(env: Env, h: seq<Action>, w: World, v: World, task: nat)
    requires Invariant(env, h, w) && KeepsSimulations(w, v)
    requires v.store.authorizations == w.store.authorizations && v.tasks == w.tasks - {task}
    requires v.flags == w.flags && v.next == w.next
    ensures forall id :: id in v.store.authorizations ==> AuthorizationTrue(env, h, v, id)
    ensures forall t :: t in v.tasks ==> t < v.next && TaskTrue(env, h, v, t, v.tasks[t])
  {
    hide SimulationTrue;
    forall id | id in v.store.authorizations ensures AuthorizationTrue(env, h, v, id) {
      assert AuthorizationTrue(env, h, w, id);
    }
    forall t | t in v.tasks ensures t < v.next && TaskTrue(env, h, v, t, v.tasks[t]) {
      assert TaskTrue(env, h, w, t, w.tasks[t]);
    }
  }

  lemma LaterRecord(env: Env, h: seq<Action>, k: seq<Action>, i: nat, c: nat, e: nat, r: Simulation)
    requires RecordsCall(env, h, i, c, e, r) && h <= k
    ensures RecordsCall(env, k, i, c, e, r)
  {
    hide Records, Run;
    assert h[..i] == k[..i];
  }

  lemma LaterAttests(env: Env, h: seq<Action>, k: seq<Action>, i: nat, c: nat, e: nat, j: nat, d: nat, s: Simulation,
                     r: Authorization)
    requires Attests(env, h, i, c, e, j, d, s, r) && h <= k
    ensures Attests(env, k, i, c, e, j, d, s, r)
  {
    hide Records, Authorizes, OneAuthorization, Run;
    assert h[..j] == k[..j];
    LaterRecord(env, h, k, i, c, e, s);
  }

  /** A longer history accounts for everything a shorter one does. */
  lemma LaterHistory(env: Env, h: seq<Action>, k: seq<Action>, w: World)
    requires Invariant(env, h, w) && h <= k
    ensures Invariant(env, k, w)
  {
    hide RecordsCall, Attests, TimingTrue, DecodeTrade, Verifies, Succeeded;
    forall id | id in w.store.simulations ensures SimulationTrue(env, k, w, id) {
      assert SimulationTrue(env, h, w, id);
      var i: nat, c: nat, e: nat :| RecordsCall(env, h, i, c, e, w.store.simulations[id]);
      LaterRecord(env, h, k, i, c, e, w.store.simulations[id]);
    }
    forall id | id in w.store.authorizations ensures AuthorizationTrue(env, k, w, id) {
      assert AuthorizationTrue(env, h, w, id);
      var r, s := w.store.authorizations[id], w.store.simulations[id];
      var i: nat, c: nat, e: nat, j: nat, d: nat :| Attests(env, h, i, c, e, j, d, s, r);
      LaterAttests(env, h, k, i, c, e, j, d, s, r);
    }
    hide SimulationTrue, AuthorizationTrue;
    forall t | t in w.tasks ensures t < w.next && TaskTrue(env, k, w, t, w.tasks[t]) {
      assert TaskTrue(env, h, w, t, w.tasks[t]);
      LaterTask(env, h, k, w, t, w.tasks[t]);
    }
  }

  lemma LaterTask(env: Env, h: seq<Action>, k: seq<Action>, w: World, t: nat, task: Task)
    requires TaskTrue(env, h, w, t, task) && h <= k
    ensures TaskTrue(env, k, w, t, task)
  {
    hide RecordsCall, DecodeTrade, Verifies, ClockMismatch, Run;
    match task
    case Arming =>
    case AwaitingClock(job) =>
      var i: nat :| Presented(env, h, i, t, job);
      assert h[..i] == k[..i];
      assert Presented(env, k, i, t, job);
    case AwaitingSimulation(job, clock) =>
      var i: nat, c: nat :| Clocked(env, h, i, c, t, job, clock);
      assert h[..i] == k[..i];
      assert Clocked(env, k, i, c, t, job, clock);
    case AwaitingSignedClock(job) =>
      var i: nat, c: nat, e: nat, j: nat :| PresentedSigned(env, h, i, c, e, j, t, job);
      assert h[..j] == k[..j];
      LaterRecord(env, h, k, i, c, e, job.simulation);
      assert PresentedSigned(env, k, i, c, e, j, t, job);
  }

  lemma StartedSimulationIsTrue(env: Env, h: seq<Action>, w: World, wire: seq<byte>)
    requires w == Run(env, h)
    requires w.flags.armed.Some? && BeginSimulation(env, wire, w.flags.armed.value).Ok?
    ensures TaskTrue(env, h + [Simulate(wire)], w, w.next,
                     AwaitingClock(BeginSimulation(env, wire, w.flags.armed.value).value))
  {
    hide DecodeTrade, Run;
    var k := h + [Simulate(wire)];
    assert k[..|h|] == h;
    assert Presented(env, k, |h|, w.next, BeginSimulation(env, wire, w.flags.armed.value).value);
  }

  lemma StartedAuthorizationIsTrue(env: Env, h: seq<Action>, w: World, p: string, wire: seq<byte>)
    requires Invariant(env, h, w) && w == Run(env, h)
    requires w.flags.armed.Some? && BeginAuthorization(env, w.store, p, wire, w.flags.armed.value).Ok?
    ensures TaskTrue(env, h + [Authorize(p, wire)], w, w.next,
                     AwaitingSignedClock(BeginAuthorization(env, w.store, p, wire, w.flags.armed.value).value))
  {
    hide DecodeTrade, Verifies, RecordsCall, TimingTrue, AuthorizationTrue, Run, Succeeded;
    var k := h + [Authorize(p, wire)];
    assert k[..|h|] == h;
    var job := BeginAuthorization(env, w.store, p, wire, w.flags.armed.value).value;
    assert SimulationTrue(env, h, w, p);
    var i: nat, c: nat, e: nat :| RecordsCall(env, h, i, c, e, w.store.simulations[p]);
    LaterRecord(env, h, k, i, c, e, job.simulation);
    SoonerRecord(env, h, i, c, e, job.simulation);
    assert PresentedSigned(env, k, i, c, e, |h|, w.next, job);
  }

  lemma SoonerRecord(env: Env, h: seq<Action>, i: nat, c: nat, e: nat, r: Simulation)
    requires RecordsCall(env, h, i, c, e, r)
    ensures i < c < e < |h|
  {
    hide Records, Run;
  }

  lemma TaskIsTrue(env: Env, h: seq<Action>, w: World, t: nat)
    requires Invariant(env, h, w) && t in w.tasks
    ensures TaskTrue(env, h, w, t, w.tasks[t])
  {
    hide SimulationTrue, AuthorizationTrue, TaskTrue;
  }

  /** One step, whichever it is. */
  lemma StepKeeps(env: Env, h: seq<Action>, w: World, a: Action)
    requires Invariant(env, h, w) && InjectiveIds(env) && w == Run(env, h)
    ensures Invariant(env, h + [a], Step(env, w, a))
    ensures KeepsSimulations(w, Step(env, w, a)) && KeepsArmed(w, Step(env, w, a))
  {
    hide Invariant, InjectiveIds, BeginSimulation, BeginAuthorization, FinishSimulation, FinishAuthorization,
         ClockMismatch, TaskTrue, Run, Clocked;
    var k := h + [a];
    LaterHistory(env, h, k, w);
    match a
    case Arm => ArmKeeps(env, k, w);
    case ArmConfirmed(task, localT) =>
      if task in w.tasks && w.tasks[task].Arming? {
        ArmConfirmedKeeps(env, k, w, task, localT);
      }
    case Simulate(wire) =>
      if w.flags.armed.Some? && BeginSimulation(env, wire, w.flags.armed.value).Ok? {
        StartedSimulationIsTrue(env, h, w, wire);
        SuspendKeeps(env, k, w, AwaitingClock(BeginSimulation(env, wire, w.flags.armed.value).value));
      }
    case Authorize(proofId, wire) =>
      if w.flags.armed.Some? && BeginAuthorization(env, w.store, proofId, wire, w.flags.armed.value).Ok? {
        StartedAuthorizationIsTrue(env, h, w, proofId, wire);
        var begun := BeginAuthorization(env, w.store, proofId, wire, w.flags.armed.value);
        SuspendKeeps(env, k, w, AwaitingSignedClock(begun.value));
      }
    case ClockRead(task, clock) =>
      if task in w.tasks {
        match w.tasks[task]
        case AwaitingClock(_) =>
          TaskIsTrue(env, h, w, task);
          ClockIsRead(env, h, w, task, clock);
          ClockedKeeps(env, k, w, task, clock);
        case AwaitingSignedClock(_) => AuthorizedKeeps(env, h, w, task, clock);
        case _ =>
      }
    case Simulated(task, result) =>
      if task in w.tasks && w.tasks[task].AwaitingSimulation? {
        SimulatedKeeps(env, h, w, task, result);
      }
    case Rejected(task) => ResolveKeeps(env, k, w, task);
  }

  /** Over every interleaving: what is attested is true of wires the run really
      presented, an authorization and its simulation are of one message in one phase
      with both clocks on its side (or their messages are a collision), one activation
      is armed at most once, and no simulation is ever lost or replaced. */
  lemma {:induction false} EveryRun(env: Env, actions: seq<Action>, k: nat)
    requires InjectiveIds(env) && k <= |actions|
    ensures Invariant(env, actions, Run(env, actions))
    ensures KeepsSimulations(Run(env, actions[..k]), Run(env, actions))
    ensures KeepsArmed(Run(env, actions[..k]), Run(env, actions))
    decreases |actions|
  {
    hide Invariant, InjectiveIds, Step;
    if actions == [] {
      StartsTrue(env);
    } else {
      var before := actions[..|actions| - 1];
      assert before + [actions[|actions| - 1]] == actions;
      EveryRun(env, before, if k < |actions| then k else |before|);
      StepKeeps(env, before, Run(env, before), actions[|actions| - 1]);
      if k < |actions| {
        assert actions[..k] == before[..k];
      } else {
        assert actions[..k] == actions;
      }
    }
  }

  /** A record, in the wire's own bytes. */
  lemma RecordedWire(env: Env, wire: seq<byte>, s: Simulation)
    requires Records(env, wire, s)
    ensures Describes(env, wire, s.localT, s.shape) && IsGuardedTrade(env, wire)
    ensures NamesTheActivation(env, wire, s.localT)
    ensures s.wireSha == env.sha(wire) && s.wireLength == |wire|
    ensures s.messageSha == env.sha(env.open(wire).value.messageBytes)
  {
    hide DecodeTrade;
    AdmittedExactly(env, wire, s.localT);
  }

  lemma SignedWire(env: Env, wire: seq<byte>, r: Authorization)
    requires Authorizes(env, wire, r)
    ensures IsGuardedTrade(env, wire) && NamesTheActivation(env, wire, r.localT)
    ensures r.wireSha == env.sha(wire) && r.wireLength == |wire|
    ensures r.messageSha == env.sha(env.open(wire).value.messageBytes)
    ensures var (signer, signature) := env.open(wire).value.signatures[0];
            && r.signer == signer == MessageIn(env, wire).staticAccounts[0]
            && signature.Some? && r.signature == Encode(signature.value) && |signature.value| == 64
            && env.verify(signer, env.open(wire).value.messageBytes, signature.value)
    ensures r.timing.phase == Pending <==> MessageIn(env, wire).instructions[0].data.value[57] == 0
    ensures r.timing.phase == Pending <==> r.clock.unixTimestamp < r.localT
    ensures r.timing.required == r.timing.observed
    ensures r.timing.observed == BeforeActivation <==> r.clock.unixTimestamp < r.localT
  {
    hide DecodeTrade, Encode;
    AdmittedExactly(env, wire, r.localT);
  }

  /** Read off for one stored simulation, in the wire's own bytes: the action `i` that
      presented it, the `c` that read its clock, the `e` that brought its result. */
  lemma SimulationsAreOfTheirCall(env: Env, actions: seq<Action>, p: string) returns (i: nat, c: nat, e: nat)
    requires InjectiveIds(env) && p in Run(env, actions).store.simulations
    ensures i < c < e < |actions| && actions[i].Simulate? && actions[e].Simulated?
    ensures IsGuardedTrade(env, actions[i].wire)
    ensures var s, wire, result := Run(env, actions).store.simulations[p], actions[i].wire, actions[e].result;
            && s.proofId == p && (exists k :: 1 <= k <= Run(env, actions).store.counter && env.newId(k) == p)
            && Run(env, actions).flags.armed == Some(s.localT)
            && Describes(env, wire, s.localT, s.shape)
            && s.wireSha == env.sha(wire) && s.wireLength == |wire|
            && s.messageSha == env.sha(env.open(wire).value.messageBytes)
            && actions[c] == ClockRead(Run(env, actions[..i]).next, s.clock)
            && actions[e].task == Run(env, actions[..i]).next
            && !result.failed && s.logs == result.logs && s.units == result.units
            && s.contextSlot == result.contextSlot
    ensures var s := Run(env, actions).store.simulations[p];
            && (s.shape.phase == Pending <==> s.clock.unixTimestamp < s.localT)
            && s.timing.phase == s.shape.phase
            && s.timing.required == s.timing.observed
            && (s.timing.observed == BeforeActivation <==> s.clock.unixTimestamp < s.localT)
            && s.succeeded == [EQUITY_GUARD, JUPITER, WHIRLPOOL]
            && forall program :: program in s.succeeded ==> "Program " + program + " success" in s.logs
  {
    hide Run, InjectiveIds, TaskTrue, AuthorizationTrue, KeepsSimulations, KeepsArmed, Records, Describes,
         IsGuardedTrade, Succeeded;
    EveryRun(env, actions, 0);
    var w := Run(env, actions);
    assert SimulationTrue(env, actions, w, p);
    var s := w.store.simulations[p];
    i, c, e :| RecordsCall(env, actions, i, c, e, s);
    RecordedWire(env, actions[i].wire, s);
    SucceededLines(s.logs);
  }

  lemma SucceededLines(logs: seq<string>)
    requires Succeeded(logs) == REQUIRED_SUCCESS
    ensures forall program :: program in REQUIRED_SUCCESS ==> "Program " + program + " success" in logs
  {
    hide SuccessLine;
    assert |Succeeded(logs)| == 3;
    SuccessLineIs(EQUITY_GUARD);
    SuccessLineIs(JUPITER);
    SuccessLineIs(WHIRLPOOL);
  }

  lemma SuccessLineIs(program: string)
    ensures SuccessLine(program) == "Program " + program + " success"
  {
  }

  /** Read off for one authorization: the actions it and its simulation stand on, in the
      order they happened, and what the two have in common. */
  lemma AuthorizationsAreOfTheirSimulation(env: Env, actions: seq<Action>, p: string)
    returns (i: nat, c: nat, e: nat, j: nat, d: nat)
    requires InjectiveIds(env) && p in Run(env, actions).store.authorizations
    ensures p in Run(env, actions).store.simulations
    ensures i < c < e < j < d < |actions|
    ensures actions[i].Simulate? && actions[e].Simulated? && actions[j].Authorize? && actions[j].proofId == p
    ensures IsGuardedTrade(env, actions[i].wire) && IsGuardedTrade(env, actions[j].signedWire)
    ensures var s, r := Run(env, actions).store.simulations[p], Run(env, actions).store.authorizations[p];
            && actions[c] == ClockRead(Run(env, actions[..i]).next, s.clock)
            && actions[e].task == Run(env, actions[..i]).next
            && actions[d] == ClockRead(Run(env, actions[..j]).next, r.clock)
            && r.proofId == r.simulationProofId == s.proofId == p
            && Run(env, actions).flags.armed == Some(s.localT) == Some(r.localT)
            && NamesTheActivation(env, actions[i].wire, s.localT)
            && NamesTheActivation(env, actions[j].signedWire, r.localT)
    ensures var s, r := Run(env, actions).store.simulations[p], Run(env, actions).store.authorizations[p];
            && s.wireSha == env.sha(actions[i].wire) && s.wireLength == |actions[i].wire|
            && r.wireSha == env.sha(actions[j].signedWire) && r.wireLength == |actions[j].signedWire|
            && var (signer, signature) := env.open(actions[j].signedWire).value.signatures[0];
            && r.signer == signer == MessageIn(env, actions[j].signedWire).staticAccounts[0]
            && signature.Some? && r.signature == Encode(signature.value) && |signature.value| == 64
            && env.verify(signer, env.open(actions[j].signedWire).value.messageBytes, signature.value)
            && (r.timing.phase == Pending <==>
                  MessageIn(env, actions[j].signedWire).instructions[0].data.value[57] == 0)
    ensures var s, r := Run(env, actions).store.simulations[p], Run(env, actions).store.authorizations[p];
            var simulated := env.open(actions[i].wire).value.messageBytes;
            var signed := env.open(actions[j].signedWire).value.messageBytes;
            && s.messageSha == env.sha(simulated) == env.sha(signed) == r.messageSha
            && (r.timing.phase == Pending <==> r.clock.unixTimestamp < r.localT)
            && r.timing.required == r.timing.observed
            && (r.timing.observed == BeforeActivation <==> r.clock.unixTimestamp < r.localT)
            && (Collide(env.sha, simulated, signed)
                || (&& simulated == signed && r.timing.phase == s.timing.phase
                    && (r.timing.phase == Pending ==>
                          s.clock.unixTimestamp < r.localT && r.clock.unixTimestamp < r.localT)
                    && (r.timing.phase == Activated ==>
                          s.clock.unixTimestamp >= r.localT && r.clock.unixTimestamp >= r.localT)))
  {
    hide Run, InjectiveIds, TaskTrue, KeepsSimulations, KeepsArmed, DecodeTrade, Verifies, Encode,
         Describes, IsGuardedTrade, NamesTheActivation, Collide, Succeeded, Records, Authorizes;
    EveryRun(env, actions, 0);
    var w := Run(env, actions);
    assert AuthorizationTrue(env, actions, w, p);
    assert SimulationTrue(env, actions, w, p);
    var s, r := w.store.simulations[p], w.store.authorizations[p];
    i, c, e, j, d :| Attests(env, actions, i, c, e, j, d, s, r);
    RecordedWire(env, actions[i].wire, s);
    SignedWire(env, actions[j].signedWire, r);
  }

  ghost predicate Stuck(w: World) {
    w.flags.arming && w.flags.armed.None? && forall t :: t in w.tasks ==> !w.tasks[t].Arming?
  }

  /** An arming call that fails leaves the server unarmed for good. */
  lemma {:induction false} FailedArmingIsFinal(env: Env, actions: seq<Action>, k: nat)
    requires k <= |actions| && Stuck(Run(env, actions[..k]))
    ensures Stuck(Run(env, actions))
    decreases |actions|
  {
    if k < |actions| {
      hide FinishSimulation, FinishAuthorization, BeginSimulation, BeginAuthorization, ClockMismatch;
      var before := actions[..|actions| - 1];
      assert before[..k] == actions[..k];
      FailedArmingIsFinal(env, before, k);
      StuckStep(env, Run(env, before), actions[|actions| - 1]);
    } else {
      assert actions[..k] == actions;
    }
  }

  lemma StuckStep(env: Env, w: World, a: Action)
    requires Stuck(w)
    ensures Stuck(Step(env, w, a))
  {
    hide FinishSimulation, FinishAuthorization, BeginSimulation, BeginAuthorization, ClockMismatch;
  }

  // -------------------------------------------------- the default proof ids

  function Decimal(k: nat): string {
    var ds := Digits.Minimal(10, k);
    seq(|ds|, i requires 0 <= i < |ds| => '0' + (ds[i] as char))
  }

  /** `presign-1`, `presign-2`, ... */
  function DefaultId(k: nat): string {
    "presign-" + if k == 0 then "0" else Decimal(k)
  }

  lemma DecimalInjective(j: nat, k: nat)
    requires Decimal(j) == Decimal(k)
    ensures j == k
  {
    var a, b := Digits.Minimal(10, j), Digits.Minimal(10, k);
    hide Digits.Minimal;
    assert |a| == |Decimal(j)| == |Decimal(k)| == |b|;
    forall i | 0 <= i < |a| ensures a[i] == b[i] {
      assert Decimal(j)[i] as int == '0' as int + a[i];
      assert Decimal(k)[i] as int == '0' as int + b[i];
    }
    assert a == b;
    Digits.ValueOfMinimal(10, j);
    Digits.ValueOfMinimal(10, k);
  }

  lemma ZeroIsApart(k: nat)
    requires k > 0
    ensures Decimal(k) != "0"
  {
    Digits.MinimalHasNoLeadingZero(10, k);
    var d := Digits.Minimal(10, k)[0];
    assert Decimal(k)[0] as int == '0' as int + d;
    assert Decimal(k)[0] != "0"[0];
  }

  lemma DefaultIdsAreInjective(env: Env)
    requires env.newId == DefaultId
    ensures InjectiveIds(env)
  {
    forall j: nat, k: nat | env.newId(j) == env.newId(k) ensures j == k {
      hide Decimal;
      var a, b := if j == 0 then "0" else Decimal(j), if k == 0 then "0" else Decimal(k);
      assert DefaultId(j)[8..] == a && DefaultId(k)[8..] == b;
      if j > 0 {
        ZeroIsApart(j);
      }
      if k > 0 {
        ZeroIsApart(k);
      }
      if j > 0 && k > 0 {
        DecimalInjective(j, k);
      }
    }
  }

  // ------------------------------------- one immutable authorization per proof

  predicate Holds(w: World, t: nat, proofId: string) {
    t in w.tasks && w.tasks[t].AwaitingSignedClock? && w.tasks[t].authorizing.proofId == proofId
  }

  /** No two calls for one proof are in flight, and none for a proof already authorized. */
  ghost predicate Exclusive(w: World) {
    && (forall t, u, p :: Holds(w, t, p) && Holds(w, u, p) ==> t == u)
    && (forall t, p :: Holds(w, t, p) ==> p !in w.store.authorizations)
  }

  /** The call does not start while another call for the same proof is in flight. */
  ghost predicate Waits(w: World, a: Action) {
    a.Authorize? ==> forall t :: !Holds(w, t, a.proofId)
  }

  /** Calls that wait for one another never replace an authorization. */
  lemma WaitingStepKeeps(env: Env, w: World, a: Action)
    requires Exclusive(w) && Waits(w, a) && forall t :: t in w.tasks ==> t < w.next
    ensures Exclusive(Step(env, w, a)) && KeepsAuthorizations(w, Step(env, w, a))
  {
    hide FinishSimulation, BeginSimulation, ClockMismatch, DecodeTrade, Verifies;
    var v := Step(env, w, a);
    SimulationsLeaveAuthorizations(env, w, a);
    match a {
      case Authorize(p, wire) =>
        forall t, q | Holds(v, t, q) ensures Holds(w, t, q) || (t == w.next && q == p && p !in w.store.authorizations) {
        }
      case ClockRead(task, clock) =>
        forall t, q | Holds(v, t, q) ensures Holds(w, t, q) && t != task {
        }
        if task in w.tasks && w.tasks[task].AwaitingSignedClock? {
          var p := w.tasks[task].authorizing.proofId;
          assert Holds(w, task, p);
          assert v.store.authorizations.Keys <= w.store.authorizations.Keys + {p};
        }
      case _ =>
        forall t, q | Holds(v, t, q) ensures Holds(w, t, q) {
        }
    }
  }

  lemma SimulationsLeaveAuthorizations(env: Env, w: World, a: Action)
    ensures !a.ClockRead? ==> Step(env, w, a).store.authorizations == w.store.authorizations
  {
  }

  /** Every call of the continuation waits for the calls for its proof still in flight. */
  ghost predicate WaitsAlong(env: Env, actions: seq<Action>, more: seq<Action>) {
    forall k :: 0 <= k < |more| ==> Waits(Run(env, actions + more[..k]), more[k])
  }

  lemma WaitsAlongPrefix(env: Env, actions: seq<Action>, more: seq<Action>)
    requires more != [] && WaitsAlong(env, actions, more)
    ensures WaitsAlong(env, actions, more[..|more| - 1])
  {
    hide Run, Waits;
    var before := more[..|more| - 1];
    forall k | 0 <= k < |before| ensures Waits(Run(env, actions + before[..k]), before[k]) {
      assert before[..k] == more[..k];
      assert Waits(Run(env, actions + more[..k]), more[k]);
    }
  }

  lemma {:induction false} WaitingCallsNeverReplace(env: Env, actions: seq<Action>, more: seq<Action>, k: nat)
    requires InjectiveIds(env) && Exclusive(Run(env, actions)) && WaitsAlong(env, actions, more) && k <= |more|
    ensures Exclusive(Run(env, actions + more))
    ensures KeepsAuthorizations(Run(env, actions + more[..k]), Run(env, actions + more))
    decreases |more|
  {
    hide Step, Run, InjectiveIds, Exclusive, Waits, Holds, Invariant, WaitsAlong;
    if more == [] {
      assert actions + more == actions;
    } else {
      var before, last := more[..|more| - 1], more[|more| - 1];
      assert actions + more == (actions + before) + [last];
      WaitsAlongPrefix(env, actions, more);
      WaitingCallsNeverReplace(env, actions, before, if k < |more| then k else |before|);
      TasksAreNumbered(env, actions + before);
      LastWaits(env, actions, more);
      WaitingStepKeeps(env, Run(env, actions + before), last);
      RunSnoc(env, actions + before, last);
      if k < |more| {
        assert more[..k] == before[..k];
      } else {
        assert more[..k] == more;
      }
    }
  }

  lemma LastWaits(env: Env, actions: seq<Action>, more: seq<Action>)
    requires more != [] && WaitsAlong(env, actions, more)
    ensures Waits(Run(env, actions + more[..|more| - 1]), more[|more| - 1])
  {
    hide Run, Waits;
  }

  lemma TasksAreNumbered(env: Env, actions: seq<Action>)
    requires InjectiveIds(env)
    ensures var w := Run(env, actions); forall t :: t in w.tasks ==> t < w.next
  {
    hide Run, InjectiveIds, SimulationTrue, AuthorizationTrue, TaskTrue, KeepsSimulations, KeepsArmed;
    EveryRun(env, actions, 0);
  }

  /** So in every run whose authorization calls for one proof never overlap, the
      first authorization of a proof is its only one. */
  lemma SerializedRunsNeverReplace(env: Env, actions: seq<Action>, k: nat)
    requires InjectiveIds(env) && WaitsAlong(env, [], actions) && k <= |actions|
    ensures Exclusive(Run(env, actions))
    ensures KeepsAuthorizations(Run(env, actions[..k]), Run(env, actions))
  {
    hide Step, InjectiveIds, Exclusive, WaitsAlong;
    NothingHeld();
    assert [] + actions == actions && [] + actions[..k] == actions[..k];
    WaitingCallsNeverReplace(env, [], actions, k);
  }

  lemma NothingHeld()
    ensures Exclusive(INITIAL)
  {
  }

  /** And wherever two such calls do overlap, two clock readings on the right side
      replace the first authorization by the second. */
  lemma OverlapReplaces(env: Env, w: World, t: nat, u: nat, p: string, first: Clock, second: Clock)
    requires t != u && Holds(w, t, p) && Holds(w, u, p)
    requires OnItsSide(first, w.tasks[t].authorizing.localT, w.tasks[t].authorizing.trade.shape.phase)
    requires OnItsSide(second, w.tasks[u].authorizing.localT, w.tasks[u].authorizing.trade.shape.phase)
    requires first != second
    ensures var v := Step(env, w, ClockRead(t, first));
            p in v.store.authorizations && !KeepsAuthorizations(v, Step(env, v, ClockRead(u, second)))
  {
    var v := Step(env, w, ClockRead(t, first));
    var x := Step(env, v, ClockRead(u, second));
    assert u in v.tasks && v.tasks[u] == w.tasks[u];
    assert v.store.authorizations[p].clock == first && x.store.authorizations[p].clock == second;
  }

  /** The clock of a call in flight for `p`, read on the side its phase names. */
  predicate Resumes(w: World, a: Action, p: string) {
    && a.ClockRead? && Holds(w, a.task, p)
    && OnItsSide(a.clock, w.tasks[a.task].authorizing.localT, w.tasks[a.task].authorizing.trade.shape.phase)
  }

  /** What a signed call puts on record besides its clock. */
  predicate SameSignedWire(job: AuthorizationJob, r: Authorization) {
    && job.trade.shape.feePayer == r.signer && Encode(job.signature) == r.signature
    && job.trade.wireSha == r.wireSha && job.trade.wireLength == r.wireLength
    && job.trade.shape.phase == r.timing.phase
  }

  lemma StepRecords(env: Env, w: World, a: Action, p: string)
    requires p in w.store.authorizations
    ensures p in Step(env, w, a).store.authorizations
    ensures Step(env, w, a).store.authorizations[p] ==
            if Resumes(w, a, p) then Recorded(w.tasks[a.task].authorizing, a.clock) else w.store.authorizations[p]
  {
    SimulationsLeaveAuthorizations(env, w, a);
  }

  /** Whatever happens next in a run, the authorization of `p` is replaced exactly when a
      call in flight for `p` has its clock read on its side, and either that clock or the
      signed wire is not the one on record. */
  lemma ReplacedExactly(env: Env, actions: seq<Action>, a: Action, p: string)
    requires InjectiveIds(env) && p in Run(env, actions).store.authorizations
    ensures var w, v := Run(env, actions), Run(env, actions + [a]);
            var r := w.store.authorizations[p];
            && p in v.store.authorizations
            && (v.store.authorizations[p] != r <==>
                  Resumes(w, a, p) && (a.clock != r.clock || !SameSignedWire(w.tasks[a.task].authorizing, r)))
  {
    hide Run, Step, InjectiveIds, KeepsSimulations, KeepsArmed, Verifies, Records, DecodeTrade, OneAuthorization;
    EveryRun(env, actions, 0);
    RunSnoc(env, actions, a);
    var w := Run(env, actions);
    StepRecords(env, w, a, p);
    if Resumes(w, a, p) {
      RecordsShareTheRest(env, actions, w, a.task, p);
    }
  }

  lemma TimingIsItsPhase(env: Env, wire: seq<byte>, r: Authorization)
    requires Authorizes(env, wire, r)
    ensures r.timing == Timing(r.timing.phase, RequiredRelation(r.timing.phase), RequiredRelation(r.timing.phase))
  {
    hide DecodeTrade, Verifies;
  }

  lemma RecordsShareTheRest(env: Env, h: seq<Action>, w: World, t: nat, p: string)
    requires Invariant(env, h, w) && p in w.store.authorizations && Holds(w, t, p)
    ensures var r, job := w.store.authorizations[p], w.tasks[t].authorizing;
            && r.proofId == job.proofId && r.localT == job.localT && r.messageSha == job.trade.messageSha
            && r.simulationProofId == job.simulation.proofId
            && r.timing == Timing(r.timing.phase, RequiredRelation(r.timing.phase), RequiredRelation(r.timing.phase))
  {
    hide Verifies, RecordsCall, RecordedBy, DecodeTrade, OneAuthorization, PresentedSigned, Presented, Clocked, Run,
         TimingTrue, Collide, Succeeded;
    assert AuthorizationTrue(env, h, w, p);
    assert TaskTrue(env, h, w, t, w.tasks[t]);
    assert SimulationTrue(env, h, w, p);
    var s, r := w.store.simulations[p], w.store.authorizations[p];
    var i: nat, c: nat, e: nat, j: nat, d: nat :| Attests(env, h, i, c, e, j, d, s, r);
    TimingIsItsPhase(env, h[j].signedWire, r);
  }

  /** However the run goes on, as long as its calls wait for one another, no
      authorization is ever replaced. */
  ghost predicate Immutable(env: Env, actions: seq<Action>) {
    forall more: seq<Action>, k: nat :: k <= |more| && WaitsAlong(env, actions, more) ==>
      KeepsAuthorizations(Run(env, actions + more[..k]), Run(env, actions + more))
  }

  function Beside(localT: int, phase: Phase, slot: nat): (c: Clock)
    ensures OnItsSide(c, localT, phase) && c.slot == slot
  {
    Clock(if phase == Pending then localT - 1 else localT, slot)
  }

  lemma TwoInFlight(env: Env, actions: seq<Action>, t: nat, u: nat, p: string)
    requires t != u && Holds(Run(env, actions), t, p) && Holds(Run(env, actions), u, p)
    ensures !Immutable(env, actions)
  {
    hide Run, Step, KeepsAuthorizations;
    var w := Run(env, actions);
    var first := Beside(w.tasks[t].authorizing.localT, w.tasks[t].authorizing.trade.shape.phase, 0);
    var second := Beside(w.tasks[u].authorizing.localT, w.tasks[u].authorizing.trade.shape.phase, 1);
    var more := [ClockRead(t, first), ClockRead(u, second)];
    assert actions + more[..1] == actions + [ClockRead(t, first)];
    assert actions + more == (actions + [ClockRead(t, first)]) + [ClockRead(u, second)];
    RunSnoc(env, actions, ClockRead(t, first));
    RunSnoc(env, actions + [ClockRead(t, first)], ClockRead(u, second));
    OverlapReplaces(env, w, t, u, p, first, second);
    assert WaitsAlong(env, actions, more);
  }

  lemma OneTooMany(env: Env, actions: seq<Action>, t: nat, p: string)
    requires Holds(Run(env, actions), t, p) && p in Run(env, actions).store.authorizations
    ensures !Immutable(env, actions)
  {
    hide Run, Step;
    var w := Run(env, actions);
    var job := w.tasks[t].authorizing;
    var late := Beside(job.localT, job.trade.shape.phase, w.store.authorizations[p].clock.slot + 1);
    var more := [ClockRead(t, late)];
    assert actions + more[..0] == actions;
    RunSnoc(env, actions, ClockRead(t, late));
    StepRecords(env, w, ClockRead(t, late), p);
    assert WaitsAlong(env, actions, more);
  }

  /** One immutable authorization per proof holds, from any reachable world on, exactly
      when no two calls for a proof are in flight, nor one for a proof already authorized. */
  lemma ImmutableExactly(env: Env, actions: seq<Action>)
    requires InjectiveIds(env)
    ensures Immutable(env, actions) <==> Exclusive(Run(env, actions))
  {
    hide Run, InjectiveIds, KeepsAuthorizations, WaitsAlong;
    var w := Run(env, actions);
    if Exclusive(w) {
      forall more: seq<Action>, k: nat | k <= |more| && WaitsAlong(env, actions, more)
        ensures KeepsAuthorizations(Run(env, actions + more[..k]), Run(env, actions + more))
      {
        WaitingCallsNeverReplace(env, actions, more, k);
      }
    } else if t, u, p :| Holds(w, t, p) && Holds(w, u, p) && t != u {
      TwoInFlight(env, actions, t, u, p);
    } else {
      var t, p :| Holds(w, t, p) && p in w.store.authorizations;
      OneTooMany(env, actions, t, p);
    }
  }

  lemma RunSnoc(env: Env, actions: seq<Action>, a: Action)
    ensures Run(env, actions + [a]) == Step(env, Run(env, actions), a)
  {
    assert (actions + [a])[..|actions|] == actions;
  }

  lemma RecordsNameTheArmed(env: Env, h: seq<Action>, w: World, id: string)
    requires Invariant(env, h, w) && id in w.store.simulations
    ensures w.flags.armed == Some(w.store.simulations[id].localT)
  {
    hide DecodeTrade, Records, TimingTrue, AuthorizationTrue, TaskTrue;
    assert SimulationTrue(env, h, w, id);
  }

  /** On a server no call is ever refused for naming another activation: all records
      carry the one the server was armed with. */
  lemma ActivationMismatchNeverHappens(env: Env, actions: seq<Action>, proofId: string, wire: seq<byte>)
    requires InjectiveIds(env) && Run(env, actions).flags.armed.Some?
    ensures BeginAuthorization(env, Run(env, actions).store, proofId, wire, Run(env, actions).flags.armed.value)
            != Refused(ActivationMismatch)
  {
    hide Run, DecodeTrade, Invariant, InjectiveIds, Verifies, KeepsSimulations, KeepsArmed;
    EveryRun(env, actions, 0);
    var w := Run(env, actions);
    if proofId in w.store.simulations {
      RecordsNameTheArmed(env, actions, w, proofId);
    }
    DecodingIsNotAMismatch(env, wire, w.flags.armed.value);
  }

  lemma DecodingIsNotAMismatch(env: Env, wire: seq<byte>, localT: int)
    ensures DecodeTrade(env, wire, localT) != Refused(ActivationMismatch)
  {
  }
}
