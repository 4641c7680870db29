/** Kinds 2 and 3 from the client's builder to the program: the trade it guards is
    decided on chain by the policy alone. */
module JupiterTrade {
  import opened Bytes
  import opened Guard
  import opened Commitment
  import opened SysvarView
  import opened Addresses
  import opened Abi
  import opened Mint
  import opened OnChain
  import G = Grammar

  function RoleOf(adapter: nat): G.Direction {
    if adapter == 2 then G.Buy else G.Sell
  }

  function FieldsFor(mint: string, adapter: nat, expectation: RequestFields): RequestFields
    requires IsKey(mint)
  {
    expectation.(mint := KeyBytes(mint), adapter := adapter, commitment := seq(32, _ => 0))
  }

  /** `buildGuardedJupiterTrade`: the suffix is checked and hashed beside a guard with a
      zero commitment, the guard is rebuilt around the digest, and everything is checked again. */
  function BuildTrade(sha: Sha, ata: Ata, program: string, feePayer: string, mint: string, adapter: nat,
                      expectation: RequestFields, suffix: seq<Instruction>): Option<seq<Instruction>>
    requires IsKey(mint)
  {
    var fields := FieldsFor(mint, adapter, expectation);
    if adapter != 2 && adapter != 3 then None
    else
      match ClientEncode(fields)
      case None => None
      case Some(placeholder) =>
        var committed := View([GuardInstruction(program, mint, placeholder)] + suffix, feePayer)[1..];
        var commitment := sha(SuffixPreimage(KeyBytes, committed));
        if CheckSuffix(ata, committed, RoleOf(adapter), mint) != Allow then None
        else
          match ClientEncode(fields.(commitment := commitment))
          case None => None
          case Some(data) =>
            var built := [GuardInstruction(program, mint, data)] + suffix;
            var final := View(built, feePayer)[1..];
            if CheckSuffix(ata, final, RoleOf(adapter), mint) != Allow
               || sha(SuffixPreimage(KeyBytes, final)) != commitment then None
            else Some(built)
  }

  /** The suffix of a trade as the transaction will show it. */
  function Committed(program: string, feePayer: string, mint: string, suffix: seq<Instruction>): seq<Instruction> {
    View([GuardInstruction(program, mint, [])] + suffix, feePayer)[1..]
  }

  lemma SeenBesideAnyGuard(program: string, feePayer: string, mint: string, data: seq<byte>, suffix: seq<Instruction>)
    ensures View([GuardInstruction(program, mint, data)] + suffix, feePayer)[1..] ==
            Committed(program, feePayer, mint, suffix)
  {
    hide View, Insert, Without, SuffixPreimage;
    var empty, guard := GuardInstruction(program, mint, []), GuardInstruction(program, mint, data);
    GuardDataIsUnseen(suffix, empty, guard, 0, feePayer);
    InsertAtFront(suffix, guard);
    WithoutFirst(View([guard] + suffix, feePayer));
  }

  /** The second check never fails: the builder refuses exactly what the encoder or the
      program's own rules refuse, and the digest in the guard is that of the finished transaction. */
  lemma BuildsTradeExactly(sha: Sha, ata: Ata, program: string, feePayer: string, mint: string, adapter: nat,
                           expectation: RequestFields, suffix: seq<Instruction>)
    requires IsKey(mint)
    ensures var built := BuildTrade(sha, ata, program, feePayer, mint, adapter, expectation, suffix);
            var committed := Committed(program, feePayer, mint, suffix);
            && (built.Some? <==>
                  && (adapter == 2 || adapter == 3) && ClientAccepts(expectation.(adapter := adapter))
                  && IsTradeSuffix(ata, committed, if adapter == 2 then G.Buy else G.Sell, mint))
            && (built.Some? ==>
                  var commitment := sha(SuffixPreimage(KeyBytes, committed));
                  var fields := FieldsFor(mint, adapter, expectation).(commitment := commitment);
                  && ClientEncode(fields).Some?
                  && built.value == [GuardInstruction(program, mint, ClientEncode(fields).value)] + suffix
                  && View(built.value, feePayer)[1..] == committed)
  {
    hide View, CheckSuffix, SuffixPreimage, KeyBytes, Packed, ValidMultiplier, IsKey, Committed, U64Of,
         GuardInstruction, IsTradeSuffix;
    KeyLength(mint);
    SuffixAllowedExactly(ata, Committed(program, feePayer, mint, suffix), RoleOf(adapter), mint);
    var fields := FieldsFor(mint, adapter, expectation);
    var committed := Committed(program, feePayer, mint, suffix);
    var final := fields.(commitment := sha(SuffixPreimage(KeyBytes, committed)));
    SeenBesideAnyGuard(program, feePayer, mint, Packed(fields), suffix);
    SeenBesideAnyGuard(program, feePayer, mint, Packed(final), suffix);
  }

  /** Lengths any transaction keeps within. */
  predicate Sized(suffix: seq<Instruction>) {
    forall k :: 0 <= k < |suffix| ==> |suffix[k].accounts| < 0x1_0000_0000 && |suffix[k].data| < 0x1_0000_0000
  }

  lemma CommittedIsSized(program: string, feePayer: string, mint: string, suffix: seq<Instruction>)
    requires Sized(suffix)
    ensures Sized(Committed(program, feePayer, mint, suffix))
  {
    var whole := [GuardInstruction(program, mint, [])] + suffix;
    assert forall k :: 0 <= k < |suffix| ==> View(whole, feePayer)[1..][k] == Seen(whole[k + 1], whole, feePayer);
  }

  lemma SuffixInOrder(sha: Sha, ata: Ata, program: string, mint: string, data: seq<byte>, view: seq<Instruction>)
    requires DecodePayload(data).Ok?
    requires DecodePayload(data).payload.adapter == 2 || DecodePayload(data).payload.adapter == 3
    requires view != [] && view[0].programId == program && view[0].data == data && Sized(view[1..])
    requires CheckSuffix(ata, view[1..], RoleOf(DecodePayload(data).payload.adapter), mint) == Allow
    requires sha(SuffixPreimage(KeyBytes, view[1..])) == DecodePayload(data).payload.commitment
    ensures VerifyDownstream(sha, ata, program, data, DecodePayload(data).payload, mint, view, 0) == Allow
  {
    hide CheckSuffix, DecodePayload, SuffixPreimage;
    var suffix := view[1..];
    assert !exists k :: 0 <= k < |suffix| &&
             (|suffix[k].accounts| >= 0x1_0000_0000 || |suffix[k].data| >= 0x1_0000_0000);
  }

  lemma ThenThePolicy(sha: Sha, ata: Ata, program: string, account: Account, sysvar: Account, data: seq<byte>,
                      view: seq<Instruction>, now: int)
    requires DecodePayload(data).Ok? && DecodeProtectedState(account.owner, account.data).State?
    requires KeyBytes(account.key) == DecodePayload(data).payload.mint && sysvar.key == INSTRUCTIONS_SYSVAR
    requires VerifyDownstream(sha, ata, program, data, DecodePayload(data).payload, account.key, view, 0) == Allow
    ensures Execute(sha, ata, program, [account, sysvar], data, view, 0, Some(now)) ==
            SpecVerdict(DecodePayload(data).payload.request,
                        DecodeProtectedState(account.owner, account.data).economic, now)
  {
    StoredTimesAreI64(account.owner, account.data);
    ProgramRefinesSpec(DecodePayload(data).payload.request,
                       DecodeProtectedState(account.owner, account.data).economic, now);
    hide DecodePayload, DecodeProtectedState, VerifyDownstream, KeyBytes, ProgramCheck, SpecVerdict;
  }

  /** What the built guard decodes to. */
  lemma BuiltTradeParts(sha: Sha, ata: Ata, program: string, feePayer: string, mint: string, adapter: nat,
                        expectation: RequestFields, suffix: seq<Instruction>)
    requires IsKey(mint)
    requires BuildTrade(sha, ata, program, feePayer, mint, adapter, expectation, suffix).Some?
    ensures (adapter == 2 || adapter == 3) && ClientAccepts(expectation.(adapter := 1))
    ensures var built := BuildTrade(sha, ata, program, feePayer, mint, adapter, expectation, suffix).value;
            var committed := View(built, feePayer)[1..];
            && |built| == 1 + |suffix| && built[0].programId == program
            && DecodePayload(built[0].data) ==
               Ok(Payload(KeyBytes(mint), OnChain.Expected(expectation), adapter,
                          sha(SuffixPreimage(KeyBytes, committed))))
            && CheckSuffix(ata, committed, RoleOf(adapter), mint) == Allow
  {
    hide View, CheckSuffix, SuffixPreimage, KeyBytes, Packed, ValidMultiplier, IsKey, Committed, U64Of, DecodePayload,
         BuildTrade, IsTradeSuffix;
    BuildsTradeExactly(sha, ata, program, feePayer, mint, adapter, expectation, suffix);
    KeyLength(mint);
    var committed := Committed(program, feePayer, mint, suffix);
    SuffixAllowedExactly(ata, committed, RoleOf(adapter), mint);
    ClientToProgram(FieldsFor(mint, adapter, expectation).(commitment := sha(SuffixPreimage(KeyBytes, committed))));
  }

  /** A guarded trade, built by the client, executes exactly as the policy says: for
      every account state and every time. */
  lemma BuiltTradeExecutesThePolicy(sha: Sha, ata: Ata, program: string, feePayer: string, mint: string, adapter: nat,
                                    expectation: RequestFields, suffix: seq<Instruction>, account: Account,
                                    sysvar: Account, now: int)
    requires IsKey(mint) && Sized(suffix)
    requires BuildTrade(sha, ata, program, feePayer, mint, adapter, expectation, suffix).Some?
    requires account.key == mint && sysvar.key == INSTRUCTIONS_SYSVAR
    requires DecodeProtectedState(account.owner, account.data).State?
    ensures ClientAccepts(expectation.(adapter := 1))
    ensures var built := BuildTrade(sha, ata, program, feePayer, mint, adapter, expectation, suffix).value;
            && built != []
            && Execute(sha, ata, program, [account, sysvar], built[0].data, View(built, feePayer), 0, Some(now)) ==
               SpecVerdict(OnChain.Expected(expectation), DecodeProtectedState(account.owner, account.data).economic,
                           now)
  {
    hide CheckSuffix, SuffixPreimage, KeyBytes, IsKey, DecodePayload, BuildTrade, DecodeProtectedState, SpecVerdict,
         Execute, VerifyDownstream, OnChain.Expected, ClientAccepts, Sized, View;
    BuiltTradeParts(sha, ata, program, feePayer, mint, adapter, expectation, suffix);
    var built := BuildTrade(sha, ata, program, feePayer, mint, adapter, expectation, suffix).value;
    BuildsTradeExactly(sha, ata, program, feePayer, mint, adapter, expectation, suffix);
    var view := View(built, feePayer);
    CommittedIsSized(program, feePayer, mint, suffix);
    SeenKeepsProgramAndData(built[0], built, feePayer);
    SuffixInOrder(sha, ata, program, mint, built[0].data, view);
    ThenThePolicy(sha, ata, program, account, sysvar, built[0].data, view, now);
  }
}
