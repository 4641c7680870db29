/** The program's processor around the economic policy: payload, accounts, mint
    and the downstream action are checked in that order, and only then the
    policy. The theorems say when nothing but the policy is left to decide. */
module OnChain {
  import opened Bytes
  import opened Guard
  import opened Commitment
  import opened SysvarView
  import opened Addresses
  import opened Abi
  import G = Grammar
  import opened Mint
  import W = WalletPrefix

  type Ata = (string, string, string) -> string

  // ------------------------------------------------- kind 1: the next action

  predicate IsTransferChecked(i: Instruction) {
    |i.data| == 10 && i.data[0] == 12 && |i.accounts| >= 4
  }

  function VerifyTransferChecked(sha: Sha, view: seq<Instruction>, current: nat, commitment: Bytes32, mint: string)
    : Verdict
  {
    if current + 1 >= |view| then Block(MissingDownstreamInstruction)
    else
      var next := view[current + 1];
      if next.programId != TOKEN_2022 then Block(UnsupportedDownstreamProgram)
      else if !IsTransferChecked(next) then Block(UnsupportedDownstreamInstruction)
      else if next.accounts[1].pubkey != mint then Block(DownstreamMintMismatch)
      else if |next.accounts| >= 0x1_0000_0000 then Block(ArithmeticOverflow)
      else if sha(DownstreamPreimage(KeyBytes, next)) != commitment then Block(DownstreamCommitmentMismatch)
      else Allow
  }

  // ---------------------------------------- kinds 2 and 3: the whole suffix

  /** Which side of the trade the protected mint is on. */
  function TradeOf(route: G.Route, role: G.Direction, mint: string): G.Trade {
    G.Trade(mint, role, USDC, route.authority, route.destination, route.inAmount, route.quotedOut, route.slippageBps)
  }

  predicate IsBudget(i: Instruction, tag: byte, len: nat) {
    i.accounts == [] && |i.data| == len && len > 0 && i.data[0] == tag
  }

  predicate RoutePlausible(route: G.Route) {
    route.inAmount > 0 && route.quotedOut > 0 && route.slippageBps <= 10_000 && route.steps > 0
  }

  function CheckRoute(trade: Instruction, role: G.Direction, mint: string): Verdict
    requires trade.programId == JUPITER
  {
    match G.DecodeRoute(trade)
    case None => Block(InvalidJupiterInstruction)
    case Some(route) =>
      var declared := TradeOf(route, role, mint);
      var (protectedProgram, counterProgram) :=
        if role.Buy? then (route.destinationProgram, route.sourceProgram)
        else (route.sourceProgram, route.destinationProgram);
      if trade.accounts[9].pubkey != JUPITER then Block(InvalidJupiterProgram)
      else if trade.accounts[8].pubkey != JUPITER_EVENT_AUTHORITY || !trade.accounts[0].isSigner
              || !RoutePlausible(route) then Block(InvalidJupiterInstruction)
      else if route.overridden != None then Block(DestinationOverrideUnsupported)
      else if G.ProtectedSide(route, declared) != mint then Block(InvalidJupiterDirection)
      else if G.CounterSide(route, declared) != USDC then Block(InvalidCounterMint)
      else if protectedProgram != TOKEN_2022 || counterProgram != LEGACY_TOKEN then Block(InvalidTokenProgram)
      else if route.platformFeeBps != 0 || route.positiveSlippageBps != 0 then Block(UnsupportedJupiterFee)
      else Allow
  }

  function CheckSetup(setup: Instruction, route: G.Route): Verdict {
    if |setup.accounts| != 6 || setup.data != [1] then Block(InvalidAtaSetup)
    else if setup.accounts[0].isSigner && G.ForTheTrade(setup, route) then Allow
    else Block(InvalidAtaSetup)
  }

  function CheckSuffix(ata: Ata, suffix: seq<Instruction>, role: G.Direction, mint: string): Verdict {
    if |suffix| != 3 && |suffix| != 4 then Block(UnsupportedTransactionGrammar)
    else
      var trade := suffix[|suffix| - 1];
      if suffix[0].programId != COMPUTE_BUDGET || suffix[1].programId != COMPUTE_BUDGET
         || (|suffix| == 4 && suffix[2].programId != ASSOCIATED_TOKEN) then Block(UnsupportedTransactionGrammar)
      else if trade.programId != JUPITER then Block(InvalidJupiterProgram)
      else if !IsBudget(suffix[0], 3, 9) || !IsBudget(suffix[1], 2, 5) then Block(InvalidComputeBudgetInstruction)
      else
        var routed := CheckRoute(trade, role, mint);
        if routed != Allow then routed
        else
          var route := G.DecodeRoute(trade).value;
          if |suffix| == 4 && CheckSetup(suffix[2], route) != Allow then Block(InvalidAtaSetup)
          else if ata(route.authority, route.sourceMint, route.sourceProgram) != route.source then
            Block(NonCanonicalSourceAccount)
          else if ata(route.authority, route.destinationMint, route.destinationProgram) != route.destination then
            Block(NonCanonicalDestinationAccount)
          else Allow
  }

  function VerifyJupiterSuffix(sha: Sha, ata: Ata, view: seq<Instruction>, current: nat, role: G.Direction,
                               commitment: Bytes32, mint: string): Verdict
    requires current < |view|
  {
    if current != 0 then Block(GuardNotFirst)
    else
      var suffix := view[1..];
      var checked := CheckSuffix(ata, suffix, role, mint);
      if checked != Allow then checked
      else if exists k :: 0 <= k < |suffix| &&
                (|suffix[k].accounts| >= 0x1_0000_0000 || |suffix[k].data| >= 0x1_0000_0000) then
        Block(ArithmeticOverflow)
      else if sha(SuffixPreimage(KeyBytes, suffix)) != commitment then Block(DownstreamCommitmentMismatch)
      else Allow
  }

  // ---------------------------------------------------------- the processor

  /** The guard must be the top-level instruction now executing, then its kind decides. */
  function VerifyDownstream(sha: Sha, ata: Ata, program: string, guardData: seq<byte>, payload: Payload,
                            mint: string, view: seq<Instruction>, current: nat): Verdict
  {
    if current >= |view| || view[current].programId != program || view[current].data != guardData then
      Block(GuardNotTopLevel)
    else if payload.adapter == 1 then VerifyTransferChecked(sha, view, current, payload.commitment, mint)
    else
      VerifyJupiterSuffix(sha, ata, view, current, if payload.adapter == 2 then G.Buy else G.Sell,
                          payload.commitment, mint)
  }

  datatype Account = Account(key: string, owner: string, data: seq<byte>)

  function Execute(sha: Sha, ata: Ata, program: string, accounts: seq<Account>,
                   data: seq<byte>, view: seq<Instruction>, current: nat, clock: Option<int>): Verdict
  {
    match DecodePayload(data)
    case Err(error) => Block(error)
    case Ok(payload) =>
      if |accounts| != 2 then Block(InvalidAccountCount)
      else if KeyBytes(accounts[0].key) != payload.mint then Block(MintKeyMismatch)
      else if accounts[1].key != INSTRUCTIONS_SYSVAR then Block(InvalidInstructionsSysvar)
      else
        match DecodeProtectedState(accounts[0].owner, accounts[0].data)
        case Unreadable(error) => Block(error)
        case State(actual) =>
          var downstream := VerifyDownstream(sha, ata, program, data, payload, accounts[0].key, view, current);
          if downstream != Allow then downstream
          else
            match clock
            case None => Block(ClockUnavailable)
            case Some(now) => ProgramCheck(payload.request, actual, now)
  }

  // -------------------------------------- acceptance, said of the instructions

  /** The next instruction is a Token-2022 TransferChecked of this mint: ten bytes with
      tag 12, and the mint second among at least four accounts. */
  predicate MovesTheMint(i: Instruction, mint: string) {
    && i.programId == TOKEN_2022 && |i.data| == 10 && i.data[0] == 12
    && |i.accounts| >= 4 && i.accounts[1].pubkey == mint
  }

  /** Kind 1 is let through exactly when the committed transfer of the mint comes next. */
  lemma TransferAllowedExactly(sha: Sha, view: seq<Instruction>, current: nat, commitment: Bytes32, mint: string)
    ensures VerifyTransferChecked(sha, view, current, commitment, mint) == Allow <==>
            && current + 1 < |view|
            && MovesTheMint(view[current + 1], mint)
            && |view[current + 1].accounts| < 0x1_0000_0000
            && sha(DownstreamPreimage(KeyBytes, view[current + 1])) == commitment
  {
    hide DownstreamPreimage, KeyBytes;
  }

  /** A buy or sell of the mint against USDC, with nothing added and nothing charged. */
  predicate IsSwap(i: Instruction, role: G.Direction, mint: string) {
    && i.programId == JUPITER && |i.data| >= 34 && |i.accounts| >= 10
    && i.data[..8] == [0xbb, 0x64, 0xfa, 0xcc, 0x31, 0xc4, 0xaf, 0x14]
    && FromLE(i.data[8..16]) > 0 && FromLE(i.data[16..24]) > 0 && FromLE(i.data[24..26]) <= 10_000
    && FromLE(i.data[26..28]) == 0 && FromLE(i.data[28..30]) == 0 && FromLE(i.data[30..34]) > 0
    && i.accounts[0].isSigner && i.accounts[7].pubkey == JUPITER
    && i.accounts[8].pubkey == JUPITER_EVENT_AUTHORITY && i.accounts[9].pubkey == JUPITER
    && (if role.Buy? then
          && i.accounts[3].pubkey == USDC && i.accounts[4].pubkey == mint
          && i.accounts[5].pubkey == LEGACY_TOKEN && i.accounts[6].pubkey == TOKEN_2022
        else
          && i.accounts[3].pubkey == mint && i.accounts[4].pubkey == USDC
          && i.accounts[5].pubkey == TOKEN_2022 && i.accounts[6].pubkey == LEGACY_TOKEN)
  }

  /** Creates the account the swap pays into. */
  predicate CreatesDestination(i: Instruction, swap: Instruction)
    requires |swap.accounts| >= 10
  {
    && i.programId == ASSOCIATED_TOKEN && i.data == [1] && |i.accounts| == 6 && i.accounts[0].isSigner
    && i.accounts[1].pubkey == swap.accounts[2].pubkey && i.accounts[2].pubkey == swap.accounts[0].pubkey
    && i.accounts[3].pubkey == swap.accounts[4].pubkey && i.accounts[4].pubkey == SYSTEM_PROGRAM
    && i.accounts[5].pubkey == swap.accounts[6].pubkey
  }

  /** A price, a limit, at most a setup, and the swap between its owner's canonical accounts. */
  predicate IsTradeSuffix(ata: Ata, suffix: seq<Instruction>, role: G.Direction, mint: string) {
    && 3 <= |suffix| <= 4
    && suffix[0].programId == COMPUTE_BUDGET && suffix[0].accounts == []
    && |suffix[0].data| == 9 && suffix[0].data[0] == 3
    && suffix[1].programId == COMPUTE_BUDGET && suffix[1].accounts == []
    && |suffix[1].data| == 5 && suffix[1].data[0] == 2
    && IsSwap(suffix[|suffix| - 1], role, mint)
    && (|suffix| == 4 ==> CreatesDestination(suffix[2], suffix[3]))
    && var a := suffix[|suffix| - 1].accounts;
    && a[1].pubkey == ata(a[0].pubkey, a[3].pubkey, a[5].pubkey)
    && a[2].pubkey == ata(a[0].pubkey, a[4].pubkey, a[6].pubkey)
  }

  lemma RouteAllowedExactly(trade: Instruction, role: G.Direction, mint: string)
    requires trade.programId == JUPITER && G.Decodes(trade)
    ensures CheckRoute(trade, role, mint) == Allow <==> IsSwap(trade, role, mint)
  {
    hide FromLE;
  }

  lemma SwapAllowedExactly(trade: Instruction, role: G.Direction, mint: string)
    requires trade.programId == JUPITER
    ensures CheckRoute(trade, role, mint) == Allow <==> IsSwap(trade, role, mint)
  {
    hide FromLE, CheckRoute, IsSwap, G.Decodes;
    SwapsDecode(trade, role, mint);
    if G.Decodes(trade) {
      RouteAllowedExactly(trade, role, mint);
    } else {
      UndecodedIsBlocked(trade, role, mint);
    }
  }

  lemma UndecodedIsBlocked(trade: Instruction, role: G.Direction, mint: string)
    requires trade.programId == JUPITER && !G.Decodes(trade)
    ensures CheckRoute(trade, role, mint) == Block(InvalidJupiterInstruction)
  {
    hide G.Decodes;
  }

  lemma SetupAllowedExactly(setup: Instruction, trade: Instruction)
    requires G.Decodes(trade)
    ensures setup.programId == ASSOCIATED_TOKEN && CheckSetup(setup, G.DecodeRoute(trade).value) == Allow <==>
            CreatesDestination(setup, trade)
  {
    hide FromLE;
  }

  /** Kinds 2 and 3 let through exactly these suffixes. */
  lemma SuffixAllowedExactly(ata: Ata, suffix: seq<Instruction>, role: G.Direction, mint: string)
    ensures CheckSuffix(ata, suffix, role, mint) == Allow <==> IsTradeSuffix(ata, suffix, role, mint)
  {
    hide CheckRoute, CheckSetup, CreatesDestination, IsSwap;
    if 3 <= |suffix| <= 4 && suffix[|suffix| - 1].programId == JUPITER {
      var trade := suffix[|suffix| - 1];
      SwapAllowedExactly(trade, role, mint);
      SwapsDecode(trade, role, mint);
      if G.Decodes(trade) && |suffix| == 4 {
        SetupAllowedExactly(suffix[2], trade);
      }
    } else {
      SwapsAreJupiters(suffix, role, mint);
    }
  }

  lemma SwapsDecode(trade: Instruction, role: G.Direction, mint: string)
    ensures IsSwap(trade, role, mint) ==> G.Decodes(trade) && trade.programId == JUPITER
  {
    hide FromLE;
  }

  lemma SwapsAreJupiters(suffix: seq<Instruction>, role: G.Direction, mint: string)
    ensures suffix != [] && IsSwap(suffix[|suffix| - 1], role, mint) ==> suffix[|suffix| - 1].programId == JUPITER
  {
  }

  // ----------------------------------------- the program's grammar, exactly

  /** What the program asks of a trade beyond the host grammar: its two fixed programs, a
      plausible route without a second fee, and the token programs of the two sides. */
  predicate NarrowTrade(i: Instruction, role: G.Direction) {
    && |i.accounts| >= 10 && |i.data| >= 34
    && i.accounts[8].pubkey == JUPITER_EVENT_AUTHORITY && i.accounts[9].pubkey == JUPITER
    && FromLE(i.data[8..16]) > 0 && FromLE(i.data[16..24]) > 0 && FromLE(i.data[24..26]) <= 10_000
    && FromLE(i.data[28..30]) == 0 && FromLE(i.data[30..34]) > 0
    && i.accounts[if role.Buy? then 6 else 5].pubkey == TOKEN_2022
    && i.accounts[if role.Buy? then 5 else 6].pubkey == LEGACY_TOKEN
  }

  /** And of the suffix: a price, then a limit, both without accounts, and at most a setup before it. */
  predicate Narrower(suffix: seq<Instruction>, role: G.Direction) {
    && 3 <= |suffix| <= 4
    && suffix[0].programId == COMPUTE_BUDGET && |suffix[0].data| == 9 && suffix[0].accounts == []
    && suffix[1].programId == COMPUTE_BUDGET && |suffix[1].data| == 5 && suffix[1].accounts == []
    && NarrowTrade(suffix[|suffix| - 1], role)
  }

  /** A swap is the trade it declares itself, of this mint against USDC, and narrow. */
  lemma SwapIsItsTrade(i: Instruction, role: G.Direction, mint: string)
    requires G.Decodes(i)
    ensures IsSwap(i, role, mint) <==>
            NarrowTrade(i, role) && G.IsTheTrade(i, TradeOf(G.DecodeRoute(i).value, role, mint))
  {
    hide FromLE;
  }

  lemma TradesDecode(i: Instruction, trade: G.Trade)
    ensures G.IsTheTrade(i, trade) ==> G.Decodes(i)
  {
    hide FromLE;
  }

  /** Between a narrow suffix's guard and its trade, the host grammar leaves room for a setup only. */
  lemma NarrowMiddle(tx: seq<Instruction>, suffix: seq<Instruction>, role: G.Direction)
    requires Narrower(suffix, role) && |tx| == |suffix| + 1 && tx[1..] == suffix
    ensures var last := tx[|tx| - 1];
            && |last.accounts| >= 10 && last == suffix[|suffix| - 1]
            && ((forall k :: 1 <= k < |tx| - 1 ==> G.MayPrecede(tx[k], last))
                && (forall j, k :: 1 <= j < k < |tx| - 1 ==> G.Apart(tx[j], tx[k])) <==>
                  && suffix[0].data[0] == 3 && suffix[1].data[0] == 2
                  && (|suffix| == 4 ==> CreatesDestination(suffix[2], suffix[3])))
  {
    hide NarrowTrade;
    NarrowAccounts(suffix[|suffix| - 1], role);
    ProgramsDiffer();
    var last := tx[|tx| - 1];
    assert tx[1] == suffix[0] && tx[2] == suffix[1] && (|suffix| == 4 ==> tx[3] == suffix[2]);
    if |suffix| == 4 {
      SetupBetween(suffix[0], suffix[1], suffix[2], last);
    }
  }

  lemma NarrowAccounts(i: Instruction, role: G.Direction)
    requires NarrowTrade(i, role)
    ensures |i.accounts| >= 10
  {
  }

  lemma SetupBetween(price: Instruction, limit: Instruction, i: Instruction, trade: Instruction)
    requires |trade.accounts| >= 10
    requires price.programId == COMPUTE_BUDGET && |price.data| == 9
    requires limit.programId == COMPUTE_BUDGET && |limit.data| == 5
    ensures G.MayPrecede(i, trade) && G.Apart(price, i) && G.Apart(limit, i) <==> CreatesDestination(i, trade)
  {
    ProgramsDiffer();
  }

  /** The program accepts a suffix exactly when the host grammar accepts it behind
      any guard, for the trade it declares itself against USDC, and the
      program's narrower demands hold. */
  lemma ProgramGrammarExactly(ata: Ata, guard: Instruction, suffix: seq<Instruction>, role: G.Direction, mint: string)
    ensures CheckSuffix(ata, suffix, role, mint) == Allow <==>
            && Narrower(suffix, role) && G.DecodeRoute(suffix[|suffix| - 1]).Some?
            && var trade := TradeOf(G.DecodeRoute(suffix[|suffix| - 1]).value, role, mint);
               G.Failures(ata, [guard] + suffix, guard.programId, trade) == []
  {
    SuffixAllowedExactly(ata, suffix, role, mint);
    hide CheckSuffix, G.Failures, G.Decodes, G.DecodeRoute, IsSwap, NarrowTrade, CreatesDestination, G.IsTheTrade,
         G.MayPrecede, G.Apart;
    if 3 <= |suffix| <= 4 {
      var last := suffix[|suffix| - 1];
      SwapsDecode(last, role, mint);
      if G.Decodes(last) {
        var tx, trade := [guard] + suffix, TradeOf(G.DecodeRoute(last).value, role, mint);
        SwapIsItsTrade(last, role, mint);
        G.AcceptedExactly(ata, tx, guard.programId, trade);
        TradesDecode(last, trade);
        assert tx[1..] == suffix && tx[|tx| - 1] == last;
        if Narrower(suffix, role) {
          NarrowMiddle(tx, suffix, role);
        }
      }
    }
  }

  // -------------------------------------------------------- what acceptance binds

  lemma AllowMeans(sha: Sha, ata: Ata, program: string, accounts: seq<Account>,
                   data: seq<byte>, view: seq<Instruction>, current: nat, clock: Option<int>)
    requires Execute(sha, ata, program, accounts, data, view, current, clock) == Allow
    ensures DecodePayload(data).Ok? && |accounts| == 2 && clock.Some?
    ensures VerifyDownstream(sha, ata, program, data, DecodePayload(data).payload, accounts[0].key, view, current)
            == Allow
    ensures DecodeProtectedState(accounts[0].owner, accounts[0].data).State?
    ensures ProgramCheck(DecodePayload(data).payload.request,
                         DecodeProtectedState(accounts[0].owner, accounts[0].data).economic,
                         clock.value) == Allow
  {
    hide DecodePayload, VerifyDownstream, ProgramCheck, DecodeProtectedState;
  }

  /** A request the policy refuses in every mint state is never allowed, whatever the
      accounts and the transaction around it. */
  lemma DeadRequestIsNeverAllowed(sha: Sha, ata: Ata, program: string, accounts: seq<Account>, data: seq<byte>,
                                  view: seq<Instruction>, current: nat, now: int)
    requires DecodePayload(data).Ok?
    requires forall actual :: SpecVerdict(DecodePayload(data).payload.request, actual, now) != Allow
    ensures Execute(sha, ata, program, accounts, data, view, current, Some(now)) != Allow
  {
    hide DecodePayload, VerifyDownstream, ProgramCheck, SpecVerdict, DecodeProtectedState, Execute;
    if Execute(sha, ata, program, accounts, data, view, current, Some(now)) == Allow {
      AllowMeans(sha, ata, program, accounts, data, view, current, Some(now));
      StoredTimesAreI64(accounts[0].owner, accounts[0].data);
      ProgramRefinesSpec(DecodePayload(data).payload.request,
                         DecodeProtectedState(accounts[0].owner, accounts[0].data).economic, now);
      assert false;
    }
  }

  /** An allowed transaction holds exactly what the payload committed to, the next
      instruction for kind 1 and everything after the guard for kinds 2 and 3,
      unless its preimage and the committed one are a collision. */
  lemma AllowedIsCommitted(sha: Sha, ata: Ata, program: string, accounts: seq<Account>,
                           data: seq<byte>, view: seq<Instruction>, current: nat, clock: Option<int>,
                           action: Instruction, suffix: seq<Instruction>)
    requires Execute(sha, ata, program, accounts, data, view, current, clock) == Allow
    requires Encodable(action) && EncodableAll(suffix)
    requires forall k :: current < k < |view| ==> Encodable(view[k])
    requires |view| < 0x1_0000_0000
    ensures var payload := DecodePayload(data).payload;
            && current < |view| && view[current].programId == program && view[current].data == data
            && |accounts| == 2 && (payload.adapter == 1 ==>
                  current + 1 < |view| && MovesTheMint(view[current + 1], accounts[0].key))
            && (payload.adapter != 1 ==>
                  current == 0
                  && IsTradeSuffix(ata, view[1..], if payload.adapter == 2 then G.Buy else G.Sell, accounts[0].key))
            && (payload.adapter == 1 && payload.commitment == sha(DownstreamPreimage(KeyBytes, action)) ==>
                  && current + 1 < |view|
                  && (view[current + 1] == action
                      || Collide(sha, DownstreamPreimage(KeyBytes, view[current + 1]),
                                 DownstreamPreimage(KeyBytes, action))))
            && (payload.adapter != 1 && payload.commitment == sha(SuffixPreimage(KeyBytes, suffix)) ==>
                  && current == 0
                  && (view[1..] == suffix
                      || Collide(sha, SuffixPreimage(KeyBytes, view[1..]), SuffixPreimage(KeyBytes, suffix))))
  {
    hide DecodePayload, ProgramCheck, DecodeProtectedState, CheckSuffix, Encodable, SuffixPreimage,
         DownstreamPreimage, KeyBytes, MovesTheMint, IsTradeSuffix, VerifyTransferChecked, Execute;
    AllowMeans(sha, ata, program, accounts, data, view, current, clock);
    var payload := DecodePayload(data).payload;
    TransferAllowedExactly(sha, view, current, payload.commitment, accounts[0].key);
    SuffixAllowedExactly(ata, view[1..], if payload.adapter == 2 then G.Buy else G.Sell, accounts[0].key);
    if payload.adapter == 1 && payload.commitment == sha(DownstreamPreimage(KeyBytes, action)) {
      CommitmentsBind(sha, view[current + 1], action, [], []);
    }
    if payload.adapter != 1 && payload.commitment == sha(SuffixPreimage(KeyBytes, suffix)) {
      CommitmentsBind(sha, action, action, view[1..], suffix);
    }
  }

  // --------------------------------------------------------------- end to end

  predicate SupportedTransfer(transfer: Instruction, mint: string) {
    transfer.programId == TOKEN_2022 && IsTransferChecked(transfer) && transfer.accounts[1].pubkey == mint
  }

  function GuardInstruction(program: string, mint: string, data: seq<byte>): Instruction {
    Instruction(program, [Meta(mint, false, false), Meta(INSTRUCTIONS_SYSVAR, false, false)], data)
  }

  /** `buildGuardedTransferChecked`: the action is fixed first and seen beside a
      placeholder guard; only then is the guard built around its digest. */
  function BuildGuarded(sha: Sha, program: string, feePayer: string, mint: string, expectation: RequestFields,
                        transfer: Instruction, before: seq<Instruction>): Option<seq<Instruction>>
    requires IsKey(mint)
  {
    if !SupportedTransfer(transfer, mint) then None
    else
      var fields := expectation.(mint := KeyBytes(mint), adapter := 1, commitment := seq(32, _ => 0));
      match ClientEncode(fields)
      case None => None
      case Some(placeholder) =>
        var draft := before + [GuardInstruction(program, mint, placeholder), transfer];
        var committed := Seen(transfer, draft, feePayer);
        match ClientEncode(fields.(commitment := sha(DownstreamPreimage(KeyBytes, committed))))
        case None => None
        case Some(data) => Some(before + [GuardInstruction(program, mint, data), transfer])
  }

  /** The builder succeeds exactly on a supported transfer of the mint and an
      expectation the client encoder lets through. */
  lemma BuildsExactly(sha: Sha, program: string, feePayer: string, mint: string, expectation: RequestFields,
                      transfer: Instruction, before: seq<Instruction>)
    requires IsKey(mint)
    ensures BuildGuarded(sha, program, feePayer, mint, expectation, transfer, before).Some? <==>
            MovesTheMint(transfer, mint) && ClientAccepts(expectation.(adapter := 1))
  {
    hide Seen, DownstreamPreimage, KeyBytes, Packed, ValidMultiplier, IsKey;
    KeyLength(mint);
  }

  /** What the expectation's fields mean. */
  function Expected(expectation: RequestFields): Request
    requires ClientAccepts(expectation.(adapter := 1))
  {
    Request(Economic(U64Of(expectation.multiplier), U64Of(expectation.newMultiplier), expectation.t),
            expectation.phase, expectation.beforeSecs, expectation.afterSecs)
  }

  /** The fields a decoded request is encoded from are its own. */
  lemma ExpectedOfFields(p: Payload)
    requires p.adapter == 1 && p.request.phase <= 1 && IsI64(p.request.expected.t)
    requires ValidMultiplier(p.request.expected.multiplier) && ValidMultiplier(p.request.expected.newMultiplier)
    ensures ClientAccepts(FieldsOf(p)) && Expected(FieldsOf(p)) == p.request
  {
    hide ValidMultiplier, U64Of, LE;
    BitsRoundTrip(p.request.expected.multiplier);
    BitsRoundTrip(p.request.expected.newMultiplier);
  }

  lemma BuiltParts(sha: Sha, program: string, feePayer: string, mint: string, expectation: RequestFields,
                   transfer: Instruction, before: seq<Instruction>)
    requires IsKey(mint)
    requires BuildGuarded(sha, program, feePayer, mint, expectation, transfer, before).Some?
    ensures SupportedTransfer(transfer, mint) && ClientAccepts(expectation.(adapter := 1))
    ensures var built := BuildGuarded(sha, program, feePayer, mint, expectation, transfer, before).value;
            && |built| == |before| + 2 && built[|before| + 1] == transfer
            && built[|before|].programId == program
            && DecodePayload(built[|before|].data) ==
               Ok(Payload(KeyBytes(mint), Expected(expectation), 1,
                          sha(DownstreamPreimage(KeyBytes, Seen(transfer, built, feePayer)))))
  {
    hide Seen, DownstreamPreimage, KeyBytes, Packed, DecodePayload, ValidMultiplier, SupportedTransfer, IsKey;
    var built := BuildGuarded(sha, program, feePayer, mint, expectation, transfer, before).value;
    KeyLength(mint);
    var fields := expectation.(mint := KeyBytes(mint), adapter := 1, commitment := seq(32, _ => 0));
    var draft := before + [GuardInstruction(program, mint, Packed(fields)), transfer];
    var final := fields.(commitment := sha(DownstreamPreimage(KeyBytes, Seen(transfer, draft, feePayer))));
    assert built == before + [GuardInstruction(program, mint, Packed(final)), transfer];
    ClientToProgram(final);
    forall i | 0 <= i < |built| ensures built[i].accounts == draft[i].accounts {
    }
    SeenAlike(transfer, draft, built, feePayer);
  }

  lemma KeyLength(mint: string)
    requires IsKey(mint)
    ensures |KeyBytes(mint)| == 32
  {
  }

  lemma SeenKeepsTheAction(transfer: Instruction, instructions: seq<Instruction>, feePayer: string, mint: string)
    requires SupportedTransfer(transfer, mint)
    ensures SupportedTransfer(Seen(transfer, instructions, feePayer), mint)
    ensures |Seen(transfer, instructions, feePayer).accounts| == |transfer.accounts|
  {
  }

  /** A guarded transfer, built by the client and seen as it was built, behind
      instructions without accounts, is decided on chain by the policy alone:
      whatever the mint holds by then, whenever it executes. */
  lemma BuiltTransferExecutesThePolicy(
      sha: Sha, ata: Ata, program: string, feePayer: string, mint: string,
      expectation: RequestFields, transfer: Instruction, before: seq<Instruction>,
      executed: seq<Instruction>, guardIndex: nat, account: Account, sysvar: Account, actual: Economic, now: int)
    requires IsKey(mint) && |transfer.accounts| < 0x1_0000_0000
    requires BuildGuarded(sha, program, feePayer, mint, expectation, transfer, before).Some?
    requires guardIndex <= |executed| && Accountless(executed[..guardIndex])
    requires View(executed[guardIndex..], feePayer) ==
             View(BuildGuarded(sha, program, feePayer, mint, expectation, transfer, before).value, feePayer)
    requires account.key == mint && sysvar.key == INSTRUCTIONS_SYSVAR
    requires DecodeProtectedState(account.owner, account.data) == State(actual)
    ensures ClientAccepts(expectation.(adapter := 1))
    ensures var guardAt := guardIndex + |before|;
            && guardAt < |executed|
            && Execute(sha, ata, program, [account, sysvar], executed[guardAt].data,
                       View(executed, feePayer), guardAt, Some(now)) ==
               SpecVerdict(Expected(expectation), actual, now)
  {
    hide DecodeProtectedState, BuildGuarded, SpecVerdict, ProgramCheck, Seen, DownstreamPreimage, KeyBytes,
         DecodePayload,
         IsKey, SupportedTransfer, Expected, Execute, Accountless, ClientAccepts, View;
    BuiltParts(sha, program, feePayer, mint, expectation, transfer, before);
    var built := BuildGuarded(sha, program, feePayer, mint, expectation, transfer, before).value;
    UnseenBefore(executed, guardIndex, feePayer);
    BehindThePrefix(executed, guardIndex, built, |before|, feePayer);
    BehindThePrefix(executed, guardIndex, built, |before| + 1, feePayer);
    SeenKeepsTheAction(transfer, built, feePayer, mint);
    OnlyThePolicyIsLeft(sha, ata, program, account, sysvar, built[|before|].data,
                        View(executed, feePayer), guardIndex + |before|, now);
    StoredTimesAreI64(account.owner, account.data);
    ProgramRefinesSpec(Expected(expectation), actual, now);
  }

  /** So it is for whatever the wallet's signature is accepted with, compiling having
      shown every account with its flags in the whole transaction. */
  lemma SignedTransferExecutesThePolicy(
      sha: Sha, ata: Ata, program: string, feePayer: string, mint: string,
      expectation: RequestFields, transfer: Instruction, before: seq<Instruction>,
      unsigned: W.Message, signed: W.Signed, account: Account, sysvar: Account, actual: Economic, now: int)
    requires IsKey(mint) && |transfer.accounts| < 0x1_0000_0000
    requires BuildGuarded(sha, program, feePayer, mint, expectation, transfer, before).Some?
    requires View(W.PlainAll(unsigned.instructions), feePayer) ==
             View(BuildGuarded(sha, program, feePayer, mint, expectation, transfer, before).value, feePayer)
    requires W.Extends(signed.message.instructions, unsigned.instructions)
    requires W.AllowedPrefix(signed.message.instructions[..|signed.message.instructions| - |unsigned.instructions|])
    requires account.key == mint && sysvar.key == INSTRUCTIONS_SYSVAR
    requires DecodeProtectedState(account.owner, account.data) == State(actual)
    ensures ClientAccepts(expectation.(adapter := 1))
    ensures var executed := W.PlainAll(signed.message.instructions);
            var guardAt := (|executed| - |unsigned.instructions|) + |before|;
            && guardAt < |executed|
            && Execute(sha, ata, program, [account, sysvar], executed[guardAt].data,
                       View(executed, feePayer), guardAt, Some(now)) ==
               SpecVerdict(Expected(expectation), actual, now)
  {
    hide DecodeProtectedState, BuildGuarded, SpecVerdict, W.AllowedPrefix, W.Same, IsKey, Expected, Execute,
         Accountless,
         W.Plain, W.PlainAll, ClientAccepts, View, U64Of, LE, FromLE, Seen, KeyBytes;
    W.PrefixAndRest(unsigned, signed);
    var executed := W.PlainAll(signed.message.instructions);
    BuiltTransferExecutesThePolicy(sha, ata, program, feePayer, mint, expectation, transfer, before,
                                   executed, |executed| - |unsigned.instructions|, account, sysvar, actual, now);
  }

  lemma BehindThePrefix(executed: seq<Instruction>, guardIndex: nat, built: seq<Instruction>, k: nat, feePayer: string)
    requires guardIndex <= |executed| && View(executed, feePayer)[guardIndex..] == View(built, feePayer) && k < |built|
    ensures guardIndex + k < |executed|
    ensures View(executed, feePayer)[guardIndex + k] == Seen(built[k], built, feePayer)
    ensures View(executed, feePayer)[guardIndex + k].programId == built[k].programId
    ensures View(executed, feePayer)[guardIndex + k].data == executed[guardIndex + k].data == built[k].data
  {
    hide Seen;
    assert |View(executed, feePayer)[guardIndex..]| == |built|;
    assert View(executed, feePayer)[guardIndex + k] == View(executed, feePayer)[guardIndex..][k];
    SeenKeepsProgramAndData(built[k], built, feePayer);
    SeenKeepsProgramAndData(executed[guardIndex + k], executed, feePayer);
  }

  /** Once the payload, the accounts and the next action are in order, the
      processor's verdict is the policy's. */
  lemma OnlyThePolicyIsLeft(sha: Sha, ata: Ata, program: string, account: Account,
                            sysvar: Account, data: seq<byte>, view: seq<Instruction>, current: nat, now: int)
    requires DecodePayload(data).Ok? && DecodePayload(data).payload.adapter == 1
    requires KeyBytes(account.key) == DecodePayload(data).payload.mint && sysvar.key == INSTRUCTIONS_SYSVAR
    requires DecodeProtectedState(account.owner, account.data).State?
    requires current + 1 < |view| && view[current].programId == program && view[current].data == data
    requires SupportedTransfer(view[current + 1], account.key)
    requires |view[current + 1].accounts| < 0x1_0000_0000
    requires sha(DownstreamPreimage(KeyBytes, view[current + 1])) == DecodePayload(data).payload.commitment
    ensures Execute(sha, ata, program, [account, sysvar], data, view, current, Some(now)) ==
            ProgramCheck(DecodePayload(data).payload.request,
                         DecodeProtectedState(account.owner, account.data).economic, now)
  {
    hide DecodePayload, DecodeProtectedState, ProgramCheck, DownstreamPreimage, KeyBytes;
  }

  lemma SeenKeepsProgramAndData(i: Instruction, instructions: seq<Instruction>, feePayer: string)
    ensures Seen(i, instructions, feePayer).programId == i.programId
    ensures Seen(i, instructions, feePayer).data == i.data
  {
  }
}
