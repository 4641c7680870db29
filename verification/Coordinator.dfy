/** The coordinator's own record of what was valid when it was signed. Each call
    runs in segments between awaits; the segments are methods here, and the
    functions they compute drive the interleaved runs of CoordinatorRuns. */
module Coordinator {
  import opened Bytes
  import opened Base58
  import opened Commitment
  import opened Addresses
  import Abi

  datatype Phase = Pending | Activated
  datatype Relation = BeforeActivation | AtOrAfterActivation

  datatype Code =
    | UndecodableWire | UnsupportedVersion | UnexpectedSigners | UnresolvedProgram | UnsupportedGrammar
    | GuardNotFirst | JupiterNotLast | UnsupportedGuardPayload | UnexpectedMint | UnexpectedActivation
    | ClockAtOrPastActivation | ClockBeforeActivation | PhaseTimingMismatch
    | SimulationFailed | SimulationIncomplete
    | UnknownProof | ActivationMismatch | AlreadyAttested | MessageMismatch | MissingSignature | InvalidSignature

  datatype Result<T> = Ok(value: T) | Refused(code: Code)

  datatype Clock = Clock(unixTimestamp: int, slot: nat)

  // ------------------------------------------------------------ the wire

  datatype Compiled = Compiled(programIndex: nat, data: Option<seq<byte>>)
  datatype Message = Message(version: Option<nat>, numSigners: nat, staticAccounts: seq<string>,
                             instructions: seq<Compiled>)

  /** A transaction as its decoder returns it: the message bytes and the signatures in signer order. */
  datatype Transaction = Transaction(messageBytes: seq<byte>, signatures: seq<(string, Option<seq<byte>>)>)

  /** What the coordinator is given: the transaction and message decoders, SHA-256,
      Ed25519 verification, the mint it protects and its source of proof ids. */
  datatype Env = Env(open: seq<byte> -> Option<Transaction>, message: seq<byte> -> Option<Message>, sha: Sha,
                     verify: (string, seq<byte>, seq<byte>) -> bool,
                     protectedMint: string, newId: nat -> string)

  datatype Shape = Shape(feePayer: string, protectedMint: string, adapterKind: byte, phase: Phase,
                         effectiveTimestamp: int, programs: seq<string>)
  datatype Trade = Trade(messageBytes: seq<byte>, messageSha: Bytes32, wireSha: Bytes32, wireLength: nat,
                         signature: Option<seq<byte>>, shape: Shape)

  function ProgramAt(m: Message, i: Compiled): string {
    if i.programIndex < |m.staticAccounts| then m.staticAccounts[i.programIndex] else ""
  }

  function ProgramsOf(m: Message): (p: seq<string>)
    ensures |p| == |m.instructions|
    ensures forall k :: 0 <= k < |p| ==> p[k] == ProgramAt(m, m.instructions[k])
  {
    seq(|m.instructions|, k requires 0 <= k < |m.instructions| => ProgramAt(m, m.instructions[k]))
  }

  function GuardData(m: Message): seq<byte>
    requires m.instructions != []
  {
    match m.instructions[0].data case None => [] case Some(d) => d
  }

  /** The checks on the guard's own payload. */
  function CheckPayload(env: Env, data: seq<byte>, localT: int): Option<Code> {
    if |data| != 99 || data[0] != 2 then Some(UnsupportedGuardPayload)
    else if data[66] != 2 && data[66] != 3 then Some(UnsupportedGuardPayload)
    else if Encode(data[1..33]) != env.protectedMint then Some(UnexpectedMint)
    else if I64FromLE(data[49..57]) != localT then Some(UnexpectedActivation)
    else if data[57] > 1 then Some(UnsupportedGuardPayload)
    else None
  }

  function CheckPrograms(programs: seq<string>): Option<Code> {
    if exists k :: 0 <= k < |programs| && programs[k] == "" then Some(UnresolvedProgram)
    else if |programs| != 4 && |programs| != 5 then Some(UnsupportedGrammar)
    else if programs[0] != EQUITY_GUARD then Some(GuardNotFirst)
    else if programs[|programs| - 1] != JUPITER then Some(JupiterNotLast)
    else if programs[1] != COMPUTE_BUDGET || programs[2] != COMPUTE_BUDGET then Some(UnsupportedGrammar)
    else None
  }

  /** `decodeProtectedTradeWire`. */
  function DecodeTrade(env: Env, wire: seq<byte>, localT: int): Result<Trade> {
    if wire == [] || env.open(wire).None? || env.message(env.open(wire).value.messageBytes).None? then
      Refused(UndecodableWire)
    else
      var tx := env.open(wire).value;
      var m := env.message(tx.messageBytes).value;
      if m.version != Some(0) then Refused(UnsupportedVersion)
      else if |tx.signatures| != 1 || tx.signatures[0].0 == "" then Refused(UnexpectedSigners)
      else if m.numSigners != 1 || m.staticAccounts == [] || m.staticAccounts[0] != tx.signatures[0].0 then
        Refused(UnexpectedSigners)
      else
        match CheckPrograms(ProgramsOf(m))
        case Some(code) => Refused(code)
        case None =>
          var data := GuardData(m);
          match CheckPayload(env, data, localT)
          case Some(code) => Refused(code)
          case None =>
            Ok(Trade(tx.messageBytes, env.sha(tx.messageBytes), env.sha(wire), |wire|, tx.signatures[0].1,
                     Shape(tx.signatures[0].0, Encode(data[1..33]), data[66],
                           if data[57] == 0 then Pending else Activated, I64FromLE(data[49..57]), ProgramsOf(m))))
  }

  /** The message a wire opens to. */
  function MessageIn(env: Env, wire: seq<byte>): Message
    requires env.open(wire).Some? && env.message(env.open(wire).value.messageBytes).Some?
  {
    env.message(env.open(wire).value.messageBytes).value
  }

  /** Everything recorded of a trade but its wire and signature is a function of its message. */
  lemma SameMessageSameShape(env: Env, a: seq<byte>, b: seq<byte>, localT: int)
    requires DecodeTrade(env, a, localT).Ok? && DecodeTrade(env, b, localT).Ok?
    requires DecodeTrade(env, a, localT).value.messageBytes == DecodeTrade(env, b, localT).value.messageBytes
    ensures DecodeTrade(env, a, localT).value.shape == DecodeTrade(env, b, localT).value.shape
  {
  }

  // ------------------------------------------- the rules, said of the wire itself

  /** A v0 transaction with one signature slot, its fee payer's, over four or five
      instructions of static programs: the guard, two budgets, Jupiter last. */
  predicate IsGuardedTrade(env: Env, wire: seq<byte>) {
    && wire != [] && env.open(wire).Some? && env.message(env.open(wire).value.messageBytes).Some?
    && var tx, m := env.open(wire).value, MessageIn(env, wire);
    && m.version == Some(0) && m.numSigners == 1 && |tx.signatures| == 1
    && m.staticAccounts != [] && tx.signatures[0].0 == m.staticAccounts[0] != ""
    && (forall i :: 0 <= i < |m.instructions| ==>
          m.instructions[i].programIndex < |m.staticAccounts|
          && m.staticAccounts[m.instructions[i].programIndex] != "")
    && 4 <= |m.instructions| <= 5
    && m.staticAccounts[m.instructions[0].programIndex] == EQUITY_GUARD
    && m.staticAccounts[m.instructions[1].programIndex] == COMPUTE_BUDGET
    && m.staticAccounts[m.instructions[2].programIndex] == COMPUTE_BUDGET
    && m.staticAccounts[m.instructions[|m.instructions| - 1].programIndex] == JUPITER
  }

  /** Its guard carries 99 bytes of version 2 for a Jupiter trade of the mint, the
      activation and either phase. */
  predicate NamesTheActivation(env: Env, wire: seq<byte>, localT: int)
    requires IsGuardedTrade(env, wire)
  {
    var guard := MessageIn(env, wire).instructions[0];
    && guard.data.Some? && |guard.data.value| == 99 && guard.data.value[0] == 2
    && 2 <= guard.data.value[66] <= 3 && guard.data.value[57] <= 1
    && Encode(guard.data.value[1..33]) == env.protectedMint && I64FromLE(guard.data.value[49..57]) == localT
  }

  predicate IsV2Trade(data: seq<byte>) {
    |data| == 99 && data[0] == 2 && (data[66] == 2 || data[66] == 3)
  }

  /** What a shape says of the wire it was read from. */
  ghost predicate Describes(env: Env, wire: seq<byte>, localT: int, shape: Shape) {
    && IsGuardedTrade(env, wire) && NamesTheActivation(env, wire, localT)
    && var m := MessageIn(env, wire);
    && shape.feePayer == m.staticAccounts[0] && shape.protectedMint == env.protectedMint
    && shape.effectiveTimestamp == localT && shape.adapterKind == m.instructions[0].data.value[66]
    && (shape.phase == Pending <==> m.instructions[0].data.value[57] == 0)
    && |shape.programs| == |m.instructions|
    && forall i :: 0 <= i < |m.instructions| ==>
         shape.programs[i] == m.staticAccounts[m.instructions[i].programIndex]
  }

  lemma ProgramsInOrder(m: Message)
    ensures CheckPrograms(ProgramsOf(m)).None? <==>
            && (forall i :: 0 <= i < |m.instructions| ==>
                  m.instructions[i].programIndex < |m.staticAccounts|
                  && m.staticAccounts[m.instructions[i].programIndex] != "")
            && 4 <= |m.instructions| <= 5
            && m.staticAccounts[m.instructions[0].programIndex] == EQUITY_GUARD
            && m.staticAccounts[m.instructions[1].programIndex] == COMPUTE_BUDGET
            && m.staticAccounts[m.instructions[2].programIndex] == COMPUTE_BUDGET
            && m.staticAccounts[m.instructions[|m.instructions| - 1].programIndex] == JUPITER
  {
    var programs := ProgramsOf(m);
    if CheckPrograms(programs).None? {
      forall i | 0 <= i < |m.instructions| ensures ProgramAt(m, m.instructions[i]) != "" {
        assert programs[i] != "";
      }
    }
  }

  /** A wire is admitted exactly when it is such a trade, and what is kept of it are the
      digests of its own bytes and of its message, its length, its signature and what its
      message and its guard's bytes say. */
  lemma AdmittedExactly(env: Env, wire: seq<byte>, localT: int)
    ensures DecodeTrade(env, wire, localT).Ok? <==>
            IsGuardedTrade(env, wire) && NamesTheActivation(env, wire, localT)
    ensures DecodeTrade(env, wire, localT).Ok? ==>
              && Describes(env, wire, localT, DecodeTrade(env, wire, localT).value.shape)
              && DecodeTrade(env, wire, localT).value.messageBytes == env.open(wire).value.messageBytes
              && DecodeTrade(env, wire, localT).value.messageSha == env.sha(env.open(wire).value.messageBytes)
              && DecodeTrade(env, wire, localT).value.wireSha == env.sha(wire)
              && DecodeTrade(env, wire, localT).value.wireLength == |wire|
              && DecodeTrade(env, wire, localT).value.signature == env.open(wire).value.signatures[0].1
  {
    hide CheckPrograms, Encode, I64FromLE;
    if wire != [] && env.open(wire).Some? && env.message(env.open(wire).value.messageBytes).Some? {
      ProgramsInOrder(MessageIn(env, wire));
    }
  }

  lemma ProgramsRefusedInOrder(m: Message)
    ensures CheckPrograms(ProgramsOf(m)) ==
            None
            .OrIf(exists i :: 0 <= i < |m.instructions| && ProgramAt(m, m.instructions[i]) == "", UnresolvedProgram)
            .OrIf(|m.instructions| != 4 && |m.instructions| != 5, UnsupportedGrammar)
            .OrIf(m.instructions != [] && ProgramAt(m, m.instructions[0]) != EQUITY_GUARD, GuardNotFirst)
            .OrIf(m.instructions != [] && ProgramAt(m, m.instructions[|m.instructions| - 1]) != JUPITER,
                  JupiterNotLast)
            .OrIf(|m.instructions| > 2 && (ProgramAt(m, m.instructions[1]) != COMPUTE_BUDGET
                                           || ProgramAt(m, m.instructions[2]) != COMPUTE_BUDGET), UnsupportedGrammar)
  {
  }

  lemma PayloadRefusedInOrder(env: Env, data: seq<byte>, localT: int)
    ensures CheckPayload(env, data, localT) ==
            None
            .OrIf(!IsV2Trade(data), UnsupportedGuardPayload)
            .OrIf(IsV2Trade(data) && Encode(data[1..33]) != env.protectedMint, UnexpectedMint)
            .OrIf(IsV2Trade(data) && I64FromLE(data[49..57]) != localT, UnexpectedActivation)
            .OrIf(IsV2Trade(data) && data[57] > 1, UnsupportedGuardPayload)
  {
    hide Encode, I64FromLE;
  }

  /** The refusals in their order; the two lemmas above list those of the programs and of the payload. */
  lemma TradeRefusedInOrder(env: Env, wire: seq<byte>, localT: int)
    ensures DecodeTrade(env, wire, localT) == Refused(UndecodableWire) <==>
            wire == [] || env.open(wire).None? || env.message(env.open(wire).value.messageBytes).None?
    ensures DecodeTrade(env, wire, localT) != Refused(UndecodableWire) ==>
              var tx, m, decoded := env.open(wire).value, MessageIn(env, wire), DecodeTrade(env, wire, localT);
              var programs := CheckPrograms(ProgramsOf(m));
              var payload := if m.instructions == [] then None else CheckPayload(env, GuardData(m), localT);
              (if decoded.Ok? then None else Some(decoded.code)) ==
              None
              .OrIf(m.version != Some(0), UnsupportedVersion)
              .OrIf(|tx.signatures| != 1 || tx.signatures[0].0 == "" || m.numSigners != 1
                    || m.staticAccounts == [] || m.staticAccounts[0] != tx.signatures[0].0, UnexpectedSigners)
              .Or(programs)
              .Or(payload)
  {
    hide Encode, I64FromLE;
  }

  /** The payload rules single out, among all payloads the program decodes, the Jupiter
      requests for the protected mint and the armed activation. */
  lemma PayloadExactly(env: Env, data: seq<byte>, localT: int)
    requires Abi.DecodePayload(data).Ok?
    ensures var p := Abi.DecodePayload(data).payload;
            CheckPayload(env, data, localT).None? <==>
            p.adapter != 1 && Encode(p.mint) == env.protectedMint && p.request.expected.t == localT
  {
    hide Abi.ValidMultiplier, Encode, I64FromLE;
  }

  /** What is recorded of a trade is what the program reads from its guard, and the
      program can read it exactly when both multipliers are positive normal. */
  lemma RecordedIsWhatTheProgramDecodes(env: Env, wire: seq<byte>, localT: int)
    requires DecodeTrade(env, wire, localT).Ok?
    ensures env.open(wire).Some? && env.message(env.open(wire).value.messageBytes).Some?
    ensures MessageIn(env, wire).instructions != []
    ensures var data, shape := GuardData(MessageIn(env, wire)), DecodeTrade(env, wire, localT).value.shape;
            && Abi.GuardPayload(data).Some?
            && var p := Abi.GuardPayload(data).value;
            && shape.protectedMint == Encode(p.mint) == env.protectedMint
            && shape.effectiveTimestamp == p.request.expected.t == localT
            && shape.adapterKind == p.adapter
            && (shape.phase == Pending <==> p.request.phase == 0)
            && (Abi.DecodePayload(data).Ok? <==>
                  Abi.ValidMultiplier(p.request.expected.multiplier)
                    && Abi.ValidMultiplier(p.request.expected.newMultiplier))
            && (Abi.DecodePayload(data).Ok? ==> Abi.DecodePayload(data).payload == p)
  {
    hide Abi.ValidMultiplier, Encode, I64FromLE;
  }

  // ------------------------------------------------------------ the clock

  function RequiredRelation(phase: Phase): Relation {
    if phase == Pending then BeforeActivation else AtOrAfterActivation
  }

  function ObservedRelation(clock: Clock, localT: int): Relation {
    if clock.unixTimestamp < localT then BeforeActivation else AtOrAfterActivation
  }

  datatype Timing = Timing(phase: Phase, observed: Relation, required: Relation)

  /** Throws on a mismatch, so that the record's literal can never be written unchecked. */
  function PhaseTiming(clock: Clock, localT: int, phase: Phase): Result<Timing> {
    var observed, required := ObservedRelation(clock, localT), RequiredRelation(phase);
    if observed != required then Refused(PhaseTimingMismatch) else Ok(Timing(phase, observed, required))
  }

  function ClockMismatch(clock: Clock, localT: int, phase: Phase): Option<Code> {
    if phase == Pending && clock.unixTimestamp >= localT then Some(ClockAtOrPastActivation)
    else if phase == Activated && clock.unixTimestamp < localT then Some(ClockBeforeActivation)
    else None
  }

  /** After the clock has been checked the timing record never throws, and before
      that it always would. */
  lemma TimingThrowsExactlyUnchecked(clock: Clock, localT: int, phase: Phase)
    ensures PhaseTiming(clock, localT, phase).Ok? <==> ClockMismatch(clock, localT, phase).None?
    ensures ClockMismatch(clock, localT, phase) == Some(ClockAtOrPastActivation) <==>
            phase == Pending && clock.unixTimestamp >= localT
    ensures ClockMismatch(clock, localT, phase) == Some(ClockBeforeActivation) <==>
            phase == Activated && clock.unixTimestamp < localT
    ensures ClockMismatch(clock, localT, phase).Some? ==>
              ClockMismatch(clock, localT, phase).value in {ClockAtOrPastActivation, ClockBeforeActivation}
  {
  }

  // ----------------------------------------------------------- the store

  datatype SimulationResult = SimulationResult(failed: bool, logs: seq<string>, units: Option<nat>,
                                               contextSlot: Option<nat>)

  datatype Simulation = Simulation(proofId: string, localT: int, clock: Clock, contextSlot: Option<nat>,
                                   timing: Timing, messageSha: Bytes32, wireSha: Bytes32, wireLength: nat,
                                   shape: Shape, logs: seq<string>, units: Option<nat>, succeeded: seq<string>)

  datatype Authorization = Authorization(proofId: string, localT: int, clock: Clock, timing: Timing,
                                         signer: string, signature: string, wireSha: Bytes32, wireLength: nat,
                                         messageSha: Bytes32, simulationProofId: string)

  datatype Store = Store(simulations: map<string, Simulation>, authorizations: map<string, Authorization>,
                         counter: nat)

  const REQUIRED_SUCCESS := [EQUITY_GUARD, JUPITER, WHIRLPOOL]

  function SuccessLine(program: string): string {
    "Program " + program + " success"
  }

  function Succeeded(logs: seq<string>): seq<string> {
    (if SuccessLine(EQUITY_GUARD) in logs then [EQUITY_GUARD] else [])
    + (if SuccessLine(JUPITER) in logs then [JUPITER] else [])
    + (if SuccessLine(WHIRLPOOL) in logs then [WHIRLPOOL] else [])
  }

  // ------------------------------------------- the segments of the two calls

  datatype SimulationJob = SimulationJob(localT: int, trade: Trade)
  datatype AuthorizationJob = AuthorizationJob(proofId: string, localT: int, trade: Trade, signature: seq<byte>,
                                               simulation: Simulation)

  function BeginSimulation(env: Env, wire: seq<byte>, localT: int): Result<SimulationJob> {
    match DecodeTrade(env, wire, localT)
    case Refused(code) => Refused(code)
    case Ok(trade) => Ok(SimulationJob(localT, trade))
  }

  /** The last segment: the simulation is back, and everything recorded is read in one go. */
  function FinishSimulation(env: Env, store: Store, job: SimulationJob, clock: Clock, result: SimulationResult)
    : (Store, Result<Simulation>)
  {
    if result.failed then (store, Refused(SimulationFailed))
    else if |Succeeded(result.logs)| != 3 then (store, Refused(SimulationIncomplete))
    else
      var id := env.newId(store.counter + 1);
      var counted := store.(counter := store.counter + 1);
      match PhaseTiming(clock, job.localT, job.trade.shape.phase)
      case Refused(code) => (counted, Refused(code))
      case Ok(timing) =>
        var record := Simulation(id, job.localT, clock, result.contextSlot, timing, job.trade.messageSha,
                                 job.trade.wireSha, job.trade.wireLength, job.trade.shape, result.logs,
                                 result.units, Succeeded(result.logs));
        (counted.(simulations := store.simulations[id := record]), Ok(record))
  }

  predicate Verifies(env: Env, signer: string, message: seq<byte>, signature: seq<byte>) {
    |signature| == 64 && env.verify(signer, message, signature)
  }

  /** Everything the second call decides before it awaits the clock. */
  function BeginAuthorization(env: Env, store: Store, proofId: string, wire: seq<byte>, localT: int)
    : Result<AuthorizationJob>
  {
    if proofId !in store.simulations then Refused(UnknownProof)
    else
      var simulation := store.simulations[proofId];
      if simulation.localT != localT then Refused(ActivationMismatch)
      else if proofId in store.authorizations then Refused(AlreadyAttested)
      else
        match DecodeTrade(env, wire, localT)
        case Refused(code) => Refused(code)
        case Ok(trade) =>
          if trade.messageSha != simulation.messageSha then Refused(MessageMismatch)
          else if trade.signature.None? || Encode(trade.signature.value) == "" then Refused(MissingSignature)
          else if !Verifies(env, trade.shape.feePayer, trade.messageBytes, trade.signature.value) then
            Refused(InvalidSignature)
          else Ok(AuthorizationJob(proofId, localT, trade, trade.signature.value, simulation))
  }

  /** What happens once the clock is back: the store is written without looking at it again. */
  function FinishAuthorization(store: Store, job: AuthorizationJob, clock: Clock): (Store, Result<Authorization>) {
    match ClockMismatch(clock, job.localT, job.trade.shape.phase)
    case Some(code) => (store, Refused(code))
    case None =>
      match PhaseTiming(clock, job.localT, job.trade.shape.phase)
      case Refused(code) => (store, Refused(code))
      case Ok(timing) =>
        var record := Authorization(job.proofId, job.localT, clock, timing, job.trade.shape.feePayer,
                                    Encode(job.signature), job.trade.wireSha, job.trade.wireLength,
                                    job.trade.messageSha, job.simulation.proofId);
        (store.(authorizations := store.authorizations[job.proofId := record]), Ok(record))
  }

  /** A call for a proof is refused by the first of these that holds. */
  lemma AuthorizationRefusedInOrder(env: Env, store: Store, proofId: string, wire: seq<byte>, localT: int)
    ensures var begun, decoded := BeginAuthorization(env, store, proofId, wire, localT), DecodeTrade(env, wire, localT);
            (if begun.Ok? then None else Some(begun.code)) ==
            None
            .OrIf(proofId !in store.simulations, UnknownProof)
            .OrIf(proofId in store.simulations && store.simulations[proofId].localT != localT, ActivationMismatch)
            .OrIf(proofId in store.authorizations, AlreadyAttested)
            .Or(if decoded.Ok? then None else Some(decoded.code))
            .OrIf(proofId in store.simulations && decoded.Ok?
                  && env.sha(decoded.value.messageBytes) != store.simulations[proofId].messageSha, MessageMismatch)
            .OrIf(decoded.Ok? && (decoded.value.signature.None? || Encode(decoded.value.signature.value) == ""),
                  MissingSignature)
            .OrIf(decoded.Ok? && decoded.value.signature.Some?
                  && !(|decoded.value.signature.value| == 64
                       && env.verify(env.open(wire).value.signatures[0].0, env.open(wire).value.messageBytes,
                                     decoded.value.signature.value)), InvalidSignature)
  {
    hide DecodeTrade, Encode;
    if DecodeTrade(env, wire, localT).Ok? {
      AdmittedExactly(env, wire, localT);
    }
  }

  /** A simulation is refused before anything is stored; what is stored is its record. */
  lemma SimulationRefusedInOrder(env: Env, store: Store, job: SimulationJob, clock: Clock, result: SimulationResult)
    requires ClockMismatch(clock, job.localT, job.trade.shape.phase).None?
    ensures var (after, recorded) := FinishSimulation(env, store, job, clock, result);
            && (if recorded.Ok? then None else Some(recorded.code)) ==
               None
               .OrIf(result.failed, SimulationFailed)
               .OrIf(exists program :: program in [EQUITY_GUARD, JUPITER, WHIRLPOOL]
                                       && SuccessLine(program) !in result.logs, SimulationIncomplete)
            && (recorded.Refused? ==> after == store)
            && (recorded.Ok? ==>
                  && recorded.value.proofId == env.newId(store.counter + 1)
                  && after == Store(store.simulations[recorded.value.proofId := recorded.value], store.authorizations,
                                    store.counter + 1))
  {
    hide SuccessLine;
    assert EQUITY_GUARD in [EQUITY_GUARD, JUPITER, WHIRLPOOL] && JUPITER in [EQUITY_GUARD, JUPITER, WHIRLPOOL]
           && WHIRLPOOL in [EQUITY_GUARD, JUPITER, WHIRLPOOL];
  }

  // -------------------------------------------------------------- the class

  class CoordinatorAttestations {
    const env: Env
    var simulations: map<string, Simulation>
    var authorizations: map<string, Authorization>
    var counter: nat

    function Stored(): Store
      reads this
    {
      Store(simulations, authorizations, counter)
    }

    constructor (env: Env)
      ensures this.env == env && Stored() == Store(map[], map[], 0)
    {
      this.env := env;
      simulations, authorizations, counter := map[], map[], 0;
    }

    /** `#proofId()`. */
    method NewProofId() returns (id: string)
      modifies this`counter
      ensures counter == old(counter) + 1 && id == env.newId(counter)
    {
      counter := counter + 1;
      id := env.newId(counter);
    }

    /** The segment of `recordPreSignSimulation` after its last await. */
    method ResumeSimulation(job: SimulationJob, clock: Clock, result: SimulationResult)
      returns (recorded: Result<Simulation>)
      modifies this
      ensures (Stored(), recorded) == FinishSimulation(env, old(Stored()), job, clock, result)
      ensures recorded.Ok? ==>
                && recorded.value.proofId in simulations && simulations[recorded.value.proofId] == recorded.value
                && counter == old(counter) + 1
      ensures recorded.Refused? ==> simulations == old(simulations)
      ensures authorizations == old(authorizations)
    {
      if result.failed {
        return Refused(SimulationFailed);
      }
      var succeeded := Succeeded(result.logs);
      if |succeeded| != |REQUIRED_SUCCESS| {
        return Refused(SimulationIncomplete);
      }
      var id := NewProofId();
      var timing := PhaseTiming(clock, job.localT, job.trade.shape.phase);
      if timing.Refused? {
        return Refused(timing.code);
      }
      var record := Simulation(id, job.localT, clock, result.contextSlot, timing.value, job.trade.messageSha,
                               job.trade.wireSha, job.trade.wireLength, job.trade.shape, result.logs,
                               result.units, succeeded);
      simulations := simulations[id := record];
      return Ok(record);
    }

    /** The segment of `recordSignedAuthorization` before its only await. */
    method StartAuthorization(proofId: string, wire: seq<byte>, localT: int) returns (job: Result<AuthorizationJob>)
      ensures job == BeginAuthorization(env, Stored(), proofId, wire, localT)
      ensures job.Ok? ==>
                && proofId in simulations && proofId !in authorizations
                && job.value.trade.messageSha == simulations[proofId].messageSha
                && Verifies(env, job.value.trade.shape.feePayer, job.value.trade.messageBytes, job.value.signature)
    {
      if proofId !in simulations {
        return Refused(UnknownProof);
      }
      var simulation := simulations[proofId];
      if simulation.localT != localT {
        return Refused(ActivationMismatch);
      }
      if proofId in authorizations {
        return Refused(AlreadyAttested);
      }
      var decoded := DecodeTrade(env, wire, localT);
      if decoded.Refused? {
        return Refused(decoded.code);
      }
      var trade := decoded.value;
      if trade.messageSha != simulation.messageSha {
        return Refused(MessageMismatch);
      }
      if trade.signature.None? || Encode(trade.signature.value) == "" {
        return Refused(MissingSignature);
      }
      if !Verifies(env, trade.shape.feePayer, trade.messageBytes, trade.signature.value) {
        return Refused(InvalidSignature);
      }
      return Ok(AuthorizationJob(proofId, localT, trade, trade.signature.value, simulation));
    }

    /** The segment of `recordSignedAuthorization` after its only await. */
    method ResumeAuthorization(job: AuthorizationJob, clock: Clock) returns (recorded: Result<Authorization>)
      modifies this`authorizations
      ensures (Stored(), recorded) == FinishAuthorization(old(Stored()), job, clock)
      ensures recorded.Ok? <==> (clock.unixTimestamp < job.localT <==> job.trade.shape.phase == Pending)
      ensures recorded.Refused? ==> authorizations == old(authorizations)
    {
      var mismatch := ClockMismatch(clock, job.localT, job.trade.shape.phase);
      if mismatch.Some? {
        return Refused(mismatch.value);
      }
      var timing := PhaseTiming(clock, job.localT, job.trade.shape.phase);
      if timing.Refused? {
        return Refused(timing.code);
      }
      var record := Authorization(job.proofId, job.localT, clock, timing.value, job.trade.shape.feePayer,
                                  Encode(job.signature), job.trade.wireSha, job.trade.wireLength,
                                  job.trade.messageSha, job.simulation.proofId);
      authorizations := authorizations[job.proofId := record];
      return Ok(record);
    }
  }
}
