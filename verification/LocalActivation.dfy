/** The closures the local reproduction passes to the activation-crossing
    protocol, and what the program then answers to the submitted bytes: the held
    authorization was good when it was signed and is refused from its submission on. */
module LocalActivation {
  import opened Bytes
  import opened Guard
  import opened Activation
  import opened Commitment
  import opened SysvarView
  import opened Addresses
  import opened Abi
  import opened Mint
  import opened OnChain
  import opened JupiterTrade

  /** The mint's protected state and the chain clock, read at one slot. */
  datatype Snapshot = Snapshot(state: Economic, clock: Clock)

  /** The request the guard was built with, and the unsigned message. */
  datatype Prepared = Prepared(request: Request, message: seq<byte>)

  /** Everything the closures reach for, each an adversary: the swap to protect, the
      compiler, the wallet, the coordinator, the validator. `messageOf` takes the
      message out of a wire and `resolve` shows its instructions with their flags in
      the whole transaction. */
  datatype World<!O(!new)> = World(
    sha: Sha, ata: Ata, program: string, feePayer: string, mint: string, adapter: nat,
    snapshot: Trace<Prepared> -> Option<Snapshot>,
    suffix: Trace<Prepared> -> seq<Instruction>,
    compile: (Trace<Prepared>, seq<Instruction>) -> seq<byte>,
    resolve: seq<byte> -> Option<seq<Instruction>>,
    wallet: (Trace<Prepared>, seq<byte>) -> Option<seq<byte>>,
    messageOf: seq<byte> -> Option<seq<byte>>,
    attestPreSign: (Trace<Prepared>, Prepared) -> Option<PreSign>,
    attestSigned: (Trace<Prepared>, string, seq<byte>) -> Option<Receipt>,
    attestDeployment: (Trace<Prepared>, Stage) -> Option<string>,
    lifetime: (Trace<Prepared>, Prepared) -> Option<Lifetime>,
    send: (Trace<Prepared>, seq<byte>, bool) -> Option<O>,
    rewrite: (Trace<Prepared>, seq<byte>) -> seq<byte>)

  /** The mint is an address and the swap's lengths are a transaction's. */
  ghost predicate Sendable<O(!new)>(w: World<O>) {
    IsKey(w.mint) && forall tr :: Sized(w.suffix(tr))
  }

  function Trade<O(!new)>(w: World<O>, request: Request, suffix: seq<Instruction>): Option<seq<Instruction>>
    requires IsKey(w.mint)
  {
    var zeros := seq(32, _ => 0);
    BuildTrade(w.sha, w.ata, w.program, w.feePayer, w.mint, w.adapter, FieldsOf(Payload(zeros, request, 1, zeros)),
               suffix)
  }

  /** `prepareReplay`, as far as the message: it is refused unless it resolves to the
      trade exactly as the transaction will show it. */
  function Prepare<O(!new)>(w: World<O>, tr: Trace<Prepared>, request: Request): Option<seq<byte>>
    requires IsKey(w.mint)
  {
    match Trade(w, request, w.suffix(tr))
    case None => None
    case Some(built) =>
      var message := w.compile(tr, built);
      if w.resolve(message) != Some(View(built, w.feePayer)) then None else Some(message)
  }

  /** `snapshot()`: refuses once the mint's timestamp or multipliers are not the captured ones. */
  function CheckedSnapshot<O(!new)>(w: World<O>, captured: Economic, localT: int, tr: Trace<Prepared>)
    : Option<Snapshot>
  {
    match w.snapshot(tr)
    case None => None
    case Some(s) =>
      if s.state.t != localT then None
      else if s.state.multiplier != captured.multiplier || s.state.newMultiplier != captured.newMultiplier then None
      else Some(s)
  }

  function ReadClock<O(!new)>(w: World<O>, captured: Economic, localT: int, tr: Trace<Prepared>): Option<Clock> {
    match CheckedSnapshot(w, captured, localT, tr)
    case None => None
    case Some(s) => Some(s.clock)
  }

  function Build<O(!new)>(w: World<O>, captured: Economic, localT: int, stale: bool, tr: Trace<Prepared>)
    : Option<Prepared>
    requires IsKey(w.mint)
  {
    match CheckedSnapshot(w, captured, localT, tr)
    case None => None
    case Some(s) =>
      var phase := PhaseAt(s.state, s.clock.unixTimestamp);
      if phase != (if stale then PENDING else ACTIVATED) then None
      else
        var request := Request(s.state, phase, 0, 0);
        match Prepare(w, tr, request)
        case None => None
        case Some(message) => Some(Prepared(request, message))
  }

  /** The wallet's bytes, refused unless they carry exactly the prepared message. */
  function Sign<O(!new)>(w: World<O>, tr: Trace<Prepared>, p: Prepared): Option<seq<byte>> {
    match w.wallet(tr, p.message)
    case None => None
    case Some(wire) => if w.messageOf(wire) == Some(p.message) then Some(wire) else None
  }

  function Submit<O(!new)>(w: World<O>, captured: Economic, localT: int, tr: Trace<Prepared>, wire: seq<byte>,
                           stale: bool): Option<O>
  {
    match CheckedSnapshot(w, captured, localT, tr)
    case None => None
    case Some(s) =>
      if PhaseAt(s.state, s.clock.unixTimestamp) != ACTIVATED then None else w.send(tr, wire, stale)
  }

  function LocalDeps<O(!new)>(w: World<O>, captured: Economic, localT: int, stale: bool): Deps<Prepared, O>
    requires IsKey(w.mint)
  {
    Deps(tr => Build(w, captured, localT, stale, tr),
         tr => ReadClock(w, captured, localT, tr),
         w.attestPreSign,
         w.attestDeployment,
         (tr, p) => Sign(w, tr, p),
         w.attestSigned,
         w.lifetime,
         (tr, p, wire, deliberate) => Submit(w, captured, localT, tr, wire, deliberate),
         w.rewrite)
  }

  /** The instructions a wire shows the program. */
  function Shown<O(!new)>(w: World<O>, wire: seq<byte>): Option<seq<Instruction>> {
    match w.messageOf(wire) case None => None case Some(message) => w.resolve(message)
  }

  /** What the program answers when the wire executes: its guard is instruction 0. */
  function Executed<O(!new)>(w: World<O>, wire: seq<byte>, account: Account, sysvar: Account, now: int): Verdict
    requires Shown(w, wire).Some? && Shown(w, wire).value != []
  {
    var view := Shown(w, wire).value;
    Execute(w.sha, w.ata, w.program, [account, sysvar], view[0].data, view, 0, Some(now))
  }

  /** The wire shows a trade built around the request. */
  ghost predicate Carries<O(!new)>(w: World<O>, request: Request, wire: seq<byte>)
    requires IsKey(w.mint)
  {
    exists suffix :: && Sized(suffix) && Trade(w, request, suffix).Some?
                     && Shown(w, wire) == Some(View(Trade(w, request, suffix).value, w.feePayer))
  }

  /** The program's answer to the wire, whatever its mint account holds by then and
      whenever it executes. */
  ghost predicate Crosses<O(!new)>(w: World<O>, expected: Economic, phase: byte, wire: seq<byte>) {
    && Shown(w, wire).Some? && Shown(w, wire).value != []
    && forall account: Account, sysvar: Account, now: int ::
         && account.key == w.mint && sysvar.key == INSTRUCTIONS_SYSVAR
         && DecodeProtectedState(account.owner, account.data).State?
         ==> Executed(w, wire, account, sysvar, now) ==
             Crossing(expected, phase, DecodeProtectedState(account.owner, account.data).economic, now)
  }

  lemma TradeFields<O(!new)>(w: World<O>, request: Request, suffix: seq<Instruction>)
    requires IsKey(w.mint) && Trade(w, request, suffix).Some?
    ensures var zeros := seq(32, _ => 0);
            var fields := FieldsOf(Payload(zeros, request, 1, zeros));
            ClientAccepts(fields) && OnChain.Expected(fields) == request && IsI64(request.expected.t)
    ensures var data := Trade(w, request, suffix).value[0].data;
            DecodePayload(data).Ok? && DecodePayload(data).payload.request == request
  {
    hide BuildTrade, ValidMultiplier, IsKey, KeyBytes, U64Of, LE, DecodePayload;
    var zeros := seq(32, _ => 0);
    var p := Payload(zeros, request, 1, zeros);
    BuiltTradeParts(w.sha, w.ata, w.program, w.feePayer, w.mint, w.adapter, FieldsOf(p), suffix);
    BitsRoundTrip(request.expected.multiplier);
    BitsRoundTrip(request.expected.newMultiplier);
    ExpectedOfFields(p);
  }

  /** A wire that carries a request is answered by the policy, and its guard data is the request's. */
  lemma CarriedIsThePolicy<O(!new)>(w: World<O>, request: Request, wire: seq<byte>, account: Account, sysvar: Account,
                                    now: int)
    requires IsKey(w.mint) && Carries(w, request, wire)
    requires account.key == w.mint && sysvar.key == INSTRUCTIONS_SYSVAR
    requires DecodeProtectedState(account.owner, account.data).State?
    ensures Shown(w, wire).Some? && Shown(w, wire).value != [] && IsI64(request.expected.t)
    ensures Executed(w, wire, account, sysvar, now) ==
            SpecVerdict(request, DecodeProtectedState(account.owner, account.data).economic, now)
  {
    hide BuildTrade, ValidMultiplier, IsKey, KeyBytes, FieldsOf, DecodeProtectedState, SpecVerdict, Execute, Sized,
         Shown,
         ClientAccepts, OnChain.Expected, View, Seen;
    var suffix :| && Sized(suffix) && Trade(w, request, suffix).Some?
                  && Shown(w, wire) == Some(View(Trade(w, request, suffix).value, w.feePayer));
    var zeros := seq(32, _ => 0);
    TradeFields(w, request, suffix);
    BuiltTradeExecutesThePolicy(w.sha, w.ata, w.program, w.feePayer, w.mint, w.adapter,
                                FieldsOf(Payload(zeros, request, 1, zeros)), suffix, account, sysvar, now);
    var built := Trade(w, request, suffix).value;
    SeenKeepsProgramAndData(built[0], built, w.feePayer);
  }

  lemma CarriedData<O(!new)>(w: World<O>, request: Request, wire: seq<byte>)
    requires IsKey(w.mint) && Carries(w, request, wire)
    ensures Shown(w, wire).Some? && Shown(w, wire).value != [] && IsI64(request.expected.t)
    ensures var data := Shown(w, wire).value[0].data;
            DecodePayload(data).Ok? && DecodePayload(data).payload.request == request
  {
    hide BuildTrade, ValidMultiplier, IsKey, KeyBytes, FieldsOf, DecodePayload, Sized, Shown, View, Seen, ClientAccepts,
         OnChain.Expected;
    var suffix :| && Sized(suffix) && Trade(w, request, suffix).Some?
                  && Shown(w, wire) == Some(View(Trade(w, request, suffix).value, w.feePayer));
    TradeFields(w, request, suffix);
    var zeros := seq(32, _ => 0);
    BuiltTradeParts(w.sha, w.ata, w.program, w.feePayer, w.mint, w.adapter, FieldsOf(Payload(zeros, request, 1, zeros)),
                    suffix);
    var built := Trade(w, request, suffix).value;
    SeenKeepsProgramAndData(built[0], built, w.feePayer);
  }

  lemma CarriedCrosses<O(!new)>(w: World<O>, expected: Economic, phase: byte, wire: seq<byte>)
    requires IsKey(w.mint) && Carries(w, Request(expected, phase, 0, 0), wire)
    ensures Crosses(w, expected, phase, wire)
  {
    hide Carries, Executed, SpecVerdict, Crossing, DecodeProtectedState, IsKey, Shown, DecodePayload;
    var request := Request(expected, phase, 0, 0);
    CarriedData(w, request, wire);
    forall account: Account, sysvar: Account, now: int |
      && account.key == w.mint && sysvar.key == INSTRUCTIONS_SYSVAR
      && DecodeProtectedState(account.owner, account.data).State?
      ensures Executed(w, wire, account, sysvar, now) ==
              Crossing(expected, phase, DecodeProtectedState(account.owner, account.data).economic, now)
    {
      CarriedIsThePolicy(w, request, wire, account, sysvar, now);
      CrossesExactly(expected, phase, DecodeProtectedState(account.owner, account.data).economic, now);
    }
  }

  /** What the leg expects the mint to hold. */
  function Expectation(captured: Economic, localT: int): Economic {
    Economic(captured.multiplier, captured.newMultiplier, localT)
  }

  function LegPhase(stale: bool): byte {
    if stale then PENDING else ACTIVATED
  }

  /** The submitted wire shows the program a guard built around the captured state, the
      leg's phase and a zero window, before the trade it commits to. */
  lemma SubmittedCarriesTheRequest<O(!new)>(
      w: World<O>, captured: Economic, hash: seq<byte> -> string, localT: int, stale: bool,
      tr: Trace<Prepared>, polls: nat)
    requires Sendable(w) && Faithful(LocalDeps(w, captured, localT, stale), tr)
    requires SubmittedAfter(tr, polls, hash, localT, stale)
    ensures tr[|tr| - 1].wire == tr[5].wire && w.messageOf(tr[5].wire) == Some(tr[0].prepared.message)
    ensures tr[0].prepared.request == Request(Expectation(captured, localT), LegPhase(stale), 0, 0)
    ensures Carries(w, Request(Expectation(captured, localT), LegPhase(stale), 0, 0), tr[5].wire)
  {
    hide Trade, View, Sized, IsKey;
    var deps := LocalDeps(w, captured, localT, stale);
    assert Answers(deps, tr, 0) && Answers(deps, tr, 5);
    assert deps.build(tr[..0]) == Build(w, captured, localT, stale, tr[..0]);
    assert deps.sign(tr[..5], tr[0].prepared) == Sign(w, tr[..5], tr[0].prepared);
    assert Sized(w.suffix(tr[..0]));
  }

  /** The stale leg: allowed while it was simulated and signed; from the submission on
      the unchanged mint refuses it with exactly ActivationPhaseChanged, and no mint, no
      accounts and no transaction around the held guard ever make the program allow it. */
  lemma StaleLegIsRefused<O(!new)>(
      w: World<O>, captured: Economic, hash: seq<byte> -> string, localT: int, tr: Trace<Prepared>, polls: nat,
      account: Account, sysvar: Account, now: int, accounts: seq<Account>, view: seq<Instruction>, current: nat)
    requires Sendable(w) && Faithful(LocalDeps(w, captured, localT, true), tr)
    requires SubmittedAfter(tr, polls, hash, localT, true) && HasScheduledChange(captured)
    requires account.key == w.mint && sysvar.key == INSTRUCTIONS_SYSVAR
    requires DecodeProtectedState(account.owner, account.data) == State(Expectation(captured, localT))
    requires now >= Latest(tr, polls).unixTimestamp
    ensures Shown(w, tr[5].wire).Some? && Shown(w, tr[5].wire).value != []
    ensures Executed(w, tr[5].wire, account, sysvar, tr[3].clock.unixTimestamp) == Allow
    ensures Executed(w, tr[5].wire, account, sysvar, tr[6].clock.unixTimestamp) == Allow
    ensures Executed(w, tr[5].wire, account, sysvar, now) == Block(ActivationPhaseChanged)
    ensures Execute(w.sha, w.ata, w.program, accounts, Shown(w, tr[5].wire).value[0].data, view, current,
                    Some(now)) != Allow
  {
    hide Sendable, Carries, Executed, DecodeProtectedState, IsKey, Shown, DecodePayload, Execute, Faithful, LocalDeps;
    var request := Request(Expectation(captured, localT), PENDING, 0, 0);
    MintIsKey(w);
    SubmittedCarriesTheRequest(w, captured, hash, localT, true, tr, polls);
    CarriedData(w, request, tr[5].wire);
    CarriedIsThePolicy(w, request, tr[5].wire, account, sysvar, tr[3].clock.unixTimestamp);
    CarriedIsThePolicy(w, request, tr[5].wire, account, sysvar, tr[6].clock.unixTimestamp);
    CarriedIsThePolicy(w, request, tr[5].wire, account, sysvar, now);
    DeadRequestIsNeverAllowed(w.sha, w.ata, w.program, accounts, Shown(w, tr[5].wire).value[0].data, view, current,
                              now);
  }

  lemma MintIsKey<O(!new)>(w: World<O>)
    requires Sendable(w)
    ensures IsKey(w.mint)
  {
  }

  /** The refreshed leg is built at or after the activation and, on an unchanged mint,
      allowed exactly after the activation second, or always when no change is scheduled. */
  lemma RefreshedLegIsAccepted<O(!new)>(
      w: World<O>, captured: Economic, hash: seq<byte> -> string, localT: int, tr: Trace<Prepared>, polls: nat,
      account: Account, sysvar: Account, now: int)
    requires Sendable(w) && Faithful(LocalDeps(w, captured, localT, false), tr)
    requires SubmittedAfter(tr, polls, hash, localT, false)
    requires account.key == w.mint && sysvar.key == INSTRUCTIONS_SYSVAR
    requires DecodeProtectedState(account.owner, account.data) == State(Expectation(captured, localT))
    ensures tr[1].clock.unixTimestamp >= localT
    ensures Shown(w, tr[5].wire).Some? && Shown(w, tr[5].wire).value != []
    ensures Executed(w, tr[5].wire, account, sysvar, now) == Allow <==> now > localT || !HasScheduledChange(captured)
  {
    hide Sendable, Carries, Executed, DecodeProtectedState, IsKey, Shown, Faithful, LocalDeps;
    MintIsKey(w);
    SubmittedCarriesTheRequest(w, captured, hash, localT, false, tr, polls);
    CarriedIsThePolicy(w, Request(Expectation(captured, localT), ACTIVATED, 0, 0), tr[5].wire, account, sysvar, now);
  }

  /** The submission read the mint and the clock once more: still the captured state, and
      at or after the activation on either leg. */
  lemma SubmittedAtActivation<O(!new)>(w: World<O>, captured: Economic, localT: int, tr: Trace<Prepared>,
                                       wire: seq<byte>, stale: bool)
    requires Submit(w, captured, localT, tr, wire, stale).Some?
    ensures w.snapshot(tr).Some? && w.snapshot(tr).value.state == Expectation(captured, localT)
    ensures w.snapshot(tr).value.clock.unixTimestamp >= localT
    ensures Submit(w, captured, localT, tr, wire, stale) == w.send(tr, wire, stale)
  {
  }

  /** `runLocalActivation`: a completed run submitted a wire whose whole life on chain is
      known, signed on one side of the activation and submitted on the other. */
  method RunLocalActivation<O(!new)>(
      w: World<O>, hash: seq<byte> -> string, captured: Economic, localT: int, stale: bool)
    returns (run: Run<Prepared, O>, tr: Trace<Prepared>, polls: nat)
    requires Sendable(w)
    ensures run.Completed? ==>
              && SubmittedAfter(tr, polls, hash, localT, stale)
              && w.messageOf(run.report.wire) == Some(run.report.prepared.message)
              && Crosses(w, Expectation(captured, localT), LegPhase(stale), run.report.wire)
    ensures run.Completed? ==>
              var before := tr[..|tr| - 1];
              && w.snapshot(before).Some? && w.snapshot(before).value.state == Expectation(captured, localT)
              && w.snapshot(before).value.clock.unixTimestamp >= localT
              && w.send(before, run.report.wire, stale) == Some(run.report.outcome)
    ensures run.Completed? && stale ==>
              && run.report.atSimulation.unixTimestamp < localT && run.report.atSigning.unixTimestamp < localT
              && localT < run.report.atSubmission.unixTimestamp
    ensures run.Completed? && !stale ==> localT <= run.report.beforeSimulation.unixTimestamp
  {
    hide Sendable, Carries, Crosses, IsKey;
    MintIsKey(w);
    var deps := LocalDeps(w, captured, localT, stale);
    run, tr, polls := ExecuteAcrossActivation(deps, hash, localT, stale);
    if run.Completed? {
      assert deps.submit(tr[..|tr| - 1], tr[0].prepared, tr[5].wire, stale) ==
             Submit(w, captured, localT, tr[..|tr| - 1], tr[5].wire, stale);
      SubmittedAtActivation(w, captured, localT, tr[..|tr| - 1], tr[5].wire, stale);
      hide Faithful, LocalDeps, Submit;
      SubmittedCarriesTheRequest(w, captured, hash, localT, stale, tr, polls);
      CarriedCrosses(w, Expectation(captured, localT), LegPhase(stale), tr[5].wire);
    }
  }
}
