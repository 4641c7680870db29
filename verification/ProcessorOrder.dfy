/** Every refusal of the program's processor, in the order the checks are made: the
    first row of these tables whose condition holds decides. Conditions are said of the
    instruction's own bytes and accounts. */
module ProcessorOrder {
  import opened Bytes
  import opened Guard
  import opened Commitment
  import opened Addresses
  import opened Abi
  import opened Mint
  import opened OnChain
  import G = Grammar

  /** Kind 1. */
  lemma TransferRefusedInOrder(sha: Sha, view: seq<Instruction>, current: nat, commitment: Bytes32, mint: string)
    ensures var there := current + 1 < |view|;
            VerifyTransferChecked(sha, view, current, commitment, mint) ==
            Allow
            .BlockIf(!there, MissingDownstreamInstruction)
            .BlockIf(there && view[current + 1].programId != TOKEN_2022, UnsupportedDownstreamProgram)
            .BlockIf(there && !(var next := view[current + 1];
                                |next.data| == 10 && next.data[0] == 12 && |next.accounts| >= 4),
                     UnsupportedDownstreamInstruction)
            .BlockIf(there && |view[current + 1].accounts| >= 2 && view[current + 1].accounts[1].pubkey != mint,
                     DownstreamMintMismatch)
            .BlockIf(there && |view[current + 1].accounts| >= 0x1_0000_0000, ArithmeticOverflow)
            .BlockIf(there && sha(DownstreamPreimage(KeyBytes, view[current + 1])) != commitment,
                     DownstreamCommitmentMismatch)
  {
    hide DownstreamPreimage, KeyBytes;
  }

  /** A `route_v2` instruction with its fixed prefix and its ten fixed accounts. */
  predicate IsRoute(i: Instruction) {
    && |i.data| >= 34 && |i.accounts| >= 10
    && i.data[..8] == [0xbb, 0x64, 0xfa, 0xcc, 0x31, 0xc4, 0xaf, 0x14]
  }

  /** The account of the trade that holds the protected mint's side, and the other one. */
  function Ours(role: G.Direction): nat {
    if role.Buy? then 4 else 3
  }

  function Theirs(role: G.Direction): nat {
    if role.Buy? then 3 else 4
  }

  /** The trade of kinds 2 and 3. */
  lemma RouteRefusedInOrder(i: Instruction, role: G.Direction, mint: string)
    requires i.programId == JUPITER
    ensures CheckRoute(i, role, mint) ==
            Allow
            .BlockIf(!IsRoute(i), InvalidJupiterInstruction)
            .BlockIf(IsRoute(i) && i.accounts[9].pubkey != JUPITER, InvalidJupiterProgram)
            .BlockIf(IsRoute(i) && i.accounts[8].pubkey != JUPITER_EVENT_AUTHORITY, InvalidJupiterInstruction)
            .BlockIf(IsRoute(i) && !i.accounts[0].isSigner, InvalidJupiterInstruction)
            .BlockIf(IsRoute(i) && (FromLE(i.data[8..16]) == 0 || FromLE(i.data[16..24]) == 0
                                    || FromLE(i.data[24..26]) > 10_000 || FromLE(i.data[30..34]) == 0),
                     InvalidJupiterInstruction)
            .BlockIf(IsRoute(i) && i.accounts[7].pubkey != JUPITER, DestinationOverrideUnsupported)
            .BlockIf(IsRoute(i) && i.accounts[Ours(role)].pubkey != mint, InvalidJupiterDirection)
            .BlockIf(IsRoute(i) && i.accounts[Theirs(role)].pubkey != USDC, InvalidCounterMint)
            .BlockIf(IsRoute(i) && (i.accounts[Ours(role) + 2].pubkey != TOKEN_2022
                                    || i.accounts[Theirs(role) + 2].pubkey != LEGACY_TOKEN), InvalidTokenProgram)
            .BlockIf(IsRoute(i) && (FromLE(i.data[26..28]) != 0 || FromLE(i.data[28..30]) != 0), UnsupportedJupiterFee)
  {
    hide FromLE;
  }

  /** An instruction without accounts, of this tag and length. */
  predicate IsBare(i: Instruction, tag: byte, len: nat) {
    i.accounts == [] && |i.data| == len && len > 0 && i.data[0] == tag
  }

  /** The whole suffix of kinds 2 and 3; the trade's own rows are above. */
  lemma SuffixRefusedInOrder(ata: Ata, suffix: seq<Instruction>, role: G.Direction, mint: string)
    ensures |suffix| != 3 && |suffix| != 4 ==>
              CheckSuffix(ata, suffix, role, mint) == Block(UnsupportedTransactionGrammar)
    ensures |suffix| == 3 || |suffix| == 4 ==>
              var trade := suffix[|suffix| - 1];
              var a := trade.accounts;
              CheckSuffix(ata, suffix, role, mint) ==
              Allow
              .BlockIf(suffix[0].programId != COMPUTE_BUDGET || suffix[1].programId != COMPUTE_BUDGET,
                       UnsupportedTransactionGrammar)
              .BlockIf(|suffix| == 4 && suffix[2].programId != ASSOCIATED_TOKEN, UnsupportedTransactionGrammar)
              .BlockIf(trade.programId != JUPITER, InvalidJupiterProgram)
              .BlockIf(!IsBare(suffix[0], 3, 9), InvalidComputeBudgetInstruction)
              .BlockIf(!IsBare(suffix[1], 2, 5), InvalidComputeBudgetInstruction)
              .Then(if trade.programId == JUPITER then CheckRoute(trade, role, mint) else Allow)
              .BlockIf(|a| >= 10 && |suffix| == 4 && suffix[2].programId == ASSOCIATED_TOKEN
                       && !CreatesDestination(suffix[2], trade), InvalidAtaSetup)
              .BlockIf(|a| >= 10 && a[1].pubkey != ata(a[0].pubkey, a[3].pubkey, a[5].pubkey),
                       NonCanonicalSourceAccount)
              .BlockIf(|a| >= 10 && a[2].pubkey != ata(a[0].pubkey, a[4].pubkey, a[6].pubkey),
                       NonCanonicalDestinationAccount)
  {
    hide CheckRoute, CheckSetup, CreatesDestination, FromLE, G.Decodes;
    if |suffix| == 3 || |suffix| == 4 {
      var trade := suffix[|suffix| - 1];
      AllowedRoutesDecode(trade, role, mint);
      if G.Decodes(trade) && |suffix| == 4 {
        SetupAllowedExactly(suffix[2], trade);
      }
    }
  }

  lemma AllowedRoutesDecode(trade: Instruction, role: G.Direction, mint: string)
    ensures trade.programId == JUPITER && CheckRoute(trade, role, mint) == Allow ==> G.Decodes(trade)
    ensures G.Decodes(trade) ==> |trade.accounts| >= 10
  {
    hide FromLE;
  }

  /** The commitment of kinds 2 and 3 is over everything behind a guard that stands first. */
  lemma CommittedSuffixRefusedInOrder(sha: Sha, ata: Ata, view: seq<Instruction>, current: nat, role: G.Direction,
                                      commitment: Bytes32, mint: string)
    requires current < |view|
    ensures VerifyJupiterSuffix(sha, ata, view, current, role, commitment, mint) ==
            Allow
            .BlockIf(current != 0, GuardNotFirst)
            .Then(CheckSuffix(ata, view[1..], role, mint))
            .BlockIf(exists k :: 1 <= k < |view| &&
                       (|view[k].accounts| >= 0x1_0000_0000 || |view[k].data| >= 0x1_0000_0000), ArithmeticOverflow)
            .BlockIf(sha(SuffixPreimage(KeyBytes, view[1..])) != commitment, DownstreamCommitmentMismatch)
  {
    hide CheckSuffix, SuffixPreimage, KeyBytes;
    assert forall k :: 1 <= k < |view| ==> view[k] == view[1..][k - 1];
    assert forall k :: 0 <= k < |view| - 1 ==> view[1..][k] == view[k + 1];
  }

  /** The processor: payload, accounts, mint, position, the downstream action, the clock,
      and the policy last. */
  lemma ExecuteRefusesInOrder(sha: Sha, ata: Ata, program: string, accounts: seq<Account>, data: seq<byte>,
                              view: seq<Instruction>, current: nat, clock: Option<int>)
    ensures var read := DecodePayload(data);
            match read
            case Err(error) =>
              Execute(sha, ata, program, accounts, data, view, current, clock) == Block(error)
            case Ok(payload) =>
              |accounts| != 2 ==>
                Execute(sha, ata, program, accounts, data, view, current, clock) == Block(InvalidAccountCount)
    ensures DecodePayload(data).Ok? && |accounts| == 2 ==>
              var payload := DecodePayload(data).payload;
              var (mint, sysvar) := (accounts[0], accounts[1]);
              var state := DecodeProtectedState(mint.owner, mint.data);
              var top := current < |view| && view[current].programId == program && view[current].data == data;
              Execute(sha, ata, program, accounts, data, view, current, clock) ==
              Allow
              .BlockIf(KeyBytes(mint.key) != payload.mint, MintKeyMismatch)
              .BlockIf(sysvar.key != INSTRUCTIONS_SYSVAR, InvalidInstructionsSysvar)
              .Then(if state.Unreadable? then Block(state.error) else Allow)
              .BlockIf(!top, GuardNotTopLevel)
              .Then(if !top then Allow
                    else if payload.adapter == 1 then
                      VerifyTransferChecked(sha, view, current, payload.commitment, mint.key)
                    else
                      VerifyJupiterSuffix(sha, ata, view, current, if payload.adapter == 2 then G.Buy else G.Sell,
                                          payload.commitment, mint.key))
              .BlockIf(clock.None?, ClockUnavailable)
              .Then(if clock.None? || state.Unreadable? then Allow
                    else ProgramCheck(payload.request, state.economic, clock.value))
  {
    hide DecodePayload, VerifyTransferChecked, VerifyJupiterSuffix, ProgramCheck, DecodeProtectedState, KeyBytes;
  }
}
