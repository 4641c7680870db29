/** The coordinator beside the program: its wire rules let through every trade for its
    mint and its activation that the program would allow, and no authorization it stored
    is ever allowed on the other side of the activation. */
module AttestedTrades {
  import opened Bytes
  import opened Base58
  import opened Guard
  import opened Commitment
  import opened Addresses
  import opened Abi
  import opened Mint
  import opened OnChain
  import opened JupiterTrade
  import G = Grammar
  import C = Coordinator
  import R = CoordinatorRuns

  /** The instructions the program sees are those of the message: the same programs, and
      the guard's data first. */
  ghost predicate Shows(m: C.Message, view: seq<Instruction>) {
    && view != [] && |view| == |m.instructions|
    && (forall k :: 0 <= k < |view| ==> view[k].programId == C.ProgramAt(m, m.instructions[k]))
    && view[0].data == C.GuardData(m)
  }

  /** A v0 transaction with one signature slot, its fee payer's. */
  predicate SingleSigner(env: C.Env, wire: seq<byte>) {
    && wire != [] && env.open(wire).Some? && env.message(env.open(wire).value.messageBytes).Some?
    && var tx, m := env.open(wire).value, C.MessageIn(env, wire);
    && m.version == Some(0) && m.numSigners == 1 && m.staticAccounts != []
    && |tx.signatures| == 1 && tx.signatures[0].0 == m.staticAccounts[0] != ""
  }

  lemma AddressOfKey(address: string)
    requires IsKey(address)
    ensures Encode(KeyBytes(address)) == address
  {
    EncodeOfDecode(address);
  }

  /** The program's grammar is inside the coordinator's. */
  lemma AllowedSuffixHasThePrograms(ata: Ata, view: seq<Instruction>, role: G.Direction, mint: string,
                                    programs: seq<string>)
    requires view != [] && CheckSuffix(ata, view[1..], role, mint) == Allow && view[0].programId == EQUITY_GUARD
    requires |programs| == |view| && forall k :: 0 <= k < |view| ==> programs[k] == view[k].programId
    ensures C.CheckPrograms(programs) == None
  {
    hide CheckRoute, CheckSetup, IsBudget;
    var suffix := view[1..];
    assert |view| == 4 || |view| == 5;
    assert view[1] == suffix[0] && view[2] == suffix[1] && view[|view| - 1] == suffix[|suffix| - 1];
    assert |view| == 5 ==> view[3] == suffix[2];
  }

  lemma AllowedSuffixIsInOrder(sha: Sha, ata: Ata, data: seq<byte>, payload: Payload, mint: string,
                               view: seq<Instruction>)
    requires VerifyDownstream(sha, ata, EQUITY_GUARD, data, payload, mint, view, 0) == Allow && payload.adapter != 1
    ensures view != [] && view[0].programId == EQUITY_GUARD
    ensures CheckSuffix(ata, view[1..], RoleOf(payload.adapter), mint) == Allow
  {
    hide CheckSuffix, SuffixPreimage;
  }

  lemma AllowedAccounts(sha: Sha, ata: Ata, accounts: seq<Account>, data: seq<byte>, view: seq<Instruction>, now: int)
    requires Execute(sha, ata, EQUITY_GUARD, accounts, data, view, 0, Some(now)) == Allow
    ensures DecodePayload(data).Ok? && accounts != [] && KeyBytes(accounts[0].key) == DecodePayload(data).payload.mint
  {
    hide DecodePayload, VerifyDownstream, DecodeProtectedState, ProgramCheck, KeyBytes;
  }

  lemma PayloadBytes(data: seq<byte>)
    requires DecodePayload(data).Ok?
    ensures |data| == 99 && data[66] == DecodePayload(data).payload.adapter
    ensures data[57] == DecodePayload(data).payload.request.phase <= 1
    ensures data[1..33] == DecodePayload(data).payload.mint
    ensures I64FromLE(data[49..57]) == DecodePayload(data).payload.request.expected.t
  {
    hide ValidMultiplier, I64FromLE;
  }

  /** Whatever trade of its mint and activation the program allows at any time, over any
      accounts, passes the coordinator's wire rules; and what they read from it is what the
      program decoded. */
  lemma AllowedTradesAreAdmitted(env: C.Env, wire: seq<byte>, localT: int, ata: Ata, accounts: seq<Account>,
                                 view: seq<Instruction>, now: int)
    requires SingleSigner(env, wire) && Shows(C.MessageIn(env, wire), view)
    requires Execute(env.sha, ata, EQUITY_GUARD, accounts, view[0].data, view, 0, Some(now)) == Allow
    ensures DecodePayload(view[0].data).Ok? && accounts != []
    ensures var p := DecodePayload(view[0].data).payload;
            p.adapter != 1 && accounts[0].key == env.protectedMint && IsKey(env.protectedMint)
            && p.request.expected.t == localT ==>
              && C.DecodeTrade(env, wire, localT).Ok?
              && C.DecodeTrade(env, wire, localT).value.shape ==
                 C.Shape(C.MessageIn(env, wire).staticAccounts[0], env.protectedMint, p.adapter,
                         if p.request.phase == PENDING then C.Pending else C.Activated, localT,
                         C.ProgramsOf(C.MessageIn(env, wire)))
  {
    hide Execute, DecodePayload, VerifyDownstream, CheckSuffix, C.CheckPrograms, C.CheckPayload, KeyBytes, Encode,
         IsKey,
         ProgramCheck, DecodeProtectedState, I64FromLE;
    var data, m := view[0].data, C.MessageIn(env, wire);
    AllowMeans(env.sha, ata, EQUITY_GUARD, accounts, data, view, 0, Some(now));
    AllowedAccounts(env.sha, ata, accounts, data, view, now);
    var p := DecodePayload(data).payload;
    C.PayloadExactly(env, data, localT);
    PayloadBytes(data);
    if p.adapter != 1 && accounts[0].key == env.protectedMint && IsKey(env.protectedMint)
       && p.request.expected.t == localT {
      AddressOfKey(env.protectedMint);
      AllowedSuffixIsInOrder(env.sha, ata, data, p, accounts[0].key, view);
      AllowedSuffixHasThePrograms(ata, view, RoleOf(p.adapter), accounts[0].key, C.ProgramsOf(m));
    }
  }

  /** Where a recorded phase cannot execute over a scheduled change. */
  predicate OffItsSide(phase: C.Phase, localT: int, now: int) {
    if phase == C.Pending then now >= localT else now <= localT
  }

  lemma RecordedPhaseIsDead(env: C.Env, wire: seq<byte>, localT: int, ata: Ata, program: string,
                            accounts: seq<Account>, view: seq<Instruction>, current: nat, now: int)
    requires C.DecodeTrade(env, wire, localT).Ok?
    requires OffItsSide(C.DecodeTrade(env, wire, localT).value.shape.phase, localT, now)
    ensures env.open(wire).Some? && env.message(env.open(wire).value.messageBytes).Some?
    ensures C.MessageIn(env, wire).instructions != []
    ensures var data := C.GuardData(C.MessageIn(env, wire));
            && GuardPayload(data).Some?
            && (HasScheduledChange(GuardPayload(data).value.request.expected) ==>
                  Execute(env.sha, ata, program, accounts, data, view, current, Some(now)) != Allow)
  {
    C.RecordedIsWhatTheProgramDecodes(env, wire, localT);
    hide C.DecodeTrade, DecodePayload, GuardPayload, Execute, SpecVerdict, ValidMultiplier;
    var data := C.GuardData(C.MessageIn(env, wire));
    var request := GuardPayload(data).value.request;
    if DecodePayload(data).Ok? && HasScheduledChange(request.expected) {
      forall actual ensures SpecVerdict(request, actual, now) != Allow {
        AcceptedExactly(request, actual, now);
      }
      DeadRequestIsNeverAllowed(env.sha, ata, program, accounts, data, view, current, now);
    } else if DecodePayload(data).Err? {
      UndecodedIsNeverAllowed(env.sha, ata, program, accounts, data, view, current, now);
    }
  }

  lemma UndecodedIsNeverAllowed(sha: Sha, ata: Ata, program: string, accounts: seq<Account>, data: seq<byte>,
                                view: seq<Instruction>, current: nat, now: int)
    requires DecodePayload(data).Err?
    ensures Execute(sha, ata, program, accounts, data, view, current, Some(now)) != Allow
  {
    hide DecodePayload;
  }

  /** Over every run: the guard data inside the wire of a stored authorization, signed for a
      scheduled change, is never allowed off the side of the activation its record names:
      PENDING not from localT on, ACTIVATED not up to it; whatever the mint, the accounts
      and the transaction around it. */
  lemma StoredAuthorizationsDieAtActivation(env: C.Env, actions: seq<R.Action>, p: string, ata: Ata, program: string,
                                            accounts: seq<Account>, view: seq<Instruction>, current: nat, now: int)
    returns (j: nat)
    requires R.InjectiveIds(env) && p in R.Run(env, actions).store.authorizations
    requires var r := R.Run(env, actions).store.authorizations[p]; OffItsSide(r.timing.phase, r.localT, now)
    ensures j < |actions| && actions[j].Authorize? && actions[j].proofId == p
    ensures R.Authorizes(env, actions[j].signedWire, R.Run(env, actions).store.authorizations[p])
    ensures env.open(actions[j].signedWire).Some?
    ensures env.message(env.open(actions[j].signedWire).value.messageBytes).Some?
    ensures C.MessageIn(env, actions[j].signedWire).instructions != []
    ensures var data := C.GuardData(C.MessageIn(env, actions[j].signedWire));
            && GuardPayload(data).Some?
            && (HasScheduledChange(GuardPayload(data).value.request.expected) ==>
                  Execute(env.sha, ata, program, accounts, data, view, current, Some(now)) != Allow)
  {
    hide R.Run, R.InjectiveIds, R.TaskTrue, R.SimulationTrue, R.KeepsSimulations, R.KeepsArmed, C.DecodeTrade,
         C.Verifies,
         Execute, GuardPayload, HasScheduledChange, R.RecordsCall, R.OneAuthorization;
    R.EveryRun(env, actions, 0);
    var w := R.Run(env, actions);
    assert R.AuthorizationTrue(env, actions, w, p);
    var s, r := w.store.simulations[p], w.store.authorizations[p];
    var i: nat, c: nat, e: nat, d: nat;
    i, c, e, j, d :| R.Attests(env, actions, i, c, e, j, d, s, r);
    RecordedPhaseIsDead(env, actions[j].signedWire, r.localT, ata, program, accounts, view, current, now);
  }
}
