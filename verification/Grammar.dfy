/** The grammar of a guarded Jupiter trade: what the accumulating checker lets
    through is exactly one declarative language of transactions. */
module Grammar {
  import opened Bytes
  import opened Commitment
  import opened Addresses

  const ROUTE_V2_DISCRIMINATOR: seq<byte> := [0xbb, 0x64, 0xfa, 0xcc, 0x31, 0xc4, 0xaf, 0x14]
  const FIXED_ACCOUNTS := 10
  const PREFIX_LEN := 34

  datatype Route = Route(
    authority: string, source: string, destination: string, sourceMint: string, destinationMint: string,
    sourceProgram: string, destinationProgram: string, overridden: Option<string>,
    inAmount: nat, quotedOut: nat, slippageBps: nat, platformFeeBps: nat, positiveSlippageBps: nat,
    steps: nat, tail: seq<byte>, venueAccounts: nat)

  datatype Failure =
    | EmptySuffix | GuardNotAtIndexZero | TradeNotLast | UnsupportedProgram | UnsupportedComputeBudget
    | DuplicatePrice | DuplicateLimit | UnsupportedAssociatedToken | DuplicateSetup | SetupNotForTheTrade
    | SetupPayerNotSigner | SecondJupiter | SourceNotCanonical | DestinationNotCanonical
    | ProgramNotJupiter | UnsupportedJupiter | ProtectedMintNotInRole | CounterMintMismatch
    | AuthorityMismatch | AuthorityNotSigner | DestinationMismatch | DestinationOverridden
    | InAmountMismatch | QuotedOutMismatch | SlippageMismatch | PlatformFeePresent

  datatype Direction = Buy | Sell

  datatype Trade = Trade(
    protectedMint: string, direction: Direction, counterMint: string, authority: string,
    destination: string, inAmount: nat, quotedOut: nat, slippageBps: nat)

  // ------------------------------------------------------------- the trade

  predicate Decodes(i: Instruction) {
    && i.programId == JUPITER && |i.data| >= PREFIX_LEN
    && i.data[..8] == ROUTE_V2_DISCRIMINATOR && |i.accounts| >= FIXED_ACCOUNTS
  }

  /** `decodeRouteV2`: ten fixed accounts and the fixed argument prefix; the plan stays opaque. */
  function DecodeRoute(i: Instruction): (r: Option<Route>)
    ensures r.Some? <==> Decodes(i)
  {
    if !Decodes(i) then None
    else
      var key := (k: nat) requires k < |i.accounts| => i.accounts[k].pubkey;
      Some(Route(key(0), key(1), key(2), key(3), key(4), key(5), key(6),
                 if key(7) == JUPITER then None else Some(key(7)),
                 FromLE(i.data[8..16]), FromLE(i.data[16..24]), FromLE(i.data[24..26]), FromLE(i.data[26..28]),
                 FromLE(i.data[28..30]), FromLE(i.data[30..34]), i.data[34..], |i.accounts| - 10))
  }

  /** `if (condition) failures.push(failure)`, on values. */
  function Also(failures: seq<Failure>, condition: bool, failure: Failure): (out: seq<Failure>)
    ensures out == [] <==> failures == [] && !condition
  {
    if condition then failures + [failure] else failures
  }

  function ProtectedSide(route: Route, trade: Trade): string {
    if trade.direction.Buy? then route.destinationMint else route.sourceMint
  }

  function CounterSide(route: Route, trade: Trade): string {
    if trade.direction.Buy? then route.sourceMint else route.destinationMint
  }

  function SemanticFailures(i: Instruction, trade: Trade): seq<Failure> {
    match DecodeRoute(i)
    case None => [if i.programId != JUPITER then ProgramNotJupiter else UnsupportedJupiter]
    case Some(route) =>
      var f := Also([], ProtectedSide(route, trade) != trade.protectedMint, ProtectedMintNotInRole);
      var f := Also(f, CounterSide(route, trade) != trade.counterMint, CounterMintMismatch);
      var f := Also(f, route.authority != trade.authority, AuthorityMismatch);
      var f := Also(f, !i.accounts[0].isSigner, AuthorityNotSigner);
      var f := Also(f, route.destination != trade.destination, DestinationMismatch);
      var f := Also(f, route.overridden != None, DestinationOverridden);
      var f := Also(f, route.inAmount != trade.inAmount, InAmountMismatch);
      var f := Also(f, route.quotedOut != trade.quotedOut, QuotedOutMismatch);
      var f := Also(f, route.slippageBps != trade.slippageBps, SlippageMismatch);
      Also(f, route.platformFeeBps != 0, PlatformFeePresent)
  }

  /** `if (condition) failures.push(failure)`. */
  method Report(failures: seq<Failure>, condition: bool, failure: Failure) returns (out: seq<Failure>)
    ensures out == Also(failures, condition, failure)
  {
    out := failures;
    if condition {
      out := out + [failure];
    }
  }

  /** `checkSemanticBinding`: one list, pushed to check by check. */
  method CheckSemanticBinding(i: Instruction, trade: Trade) returns (failures: seq<Failure>)
    ensures failures == SemanticFailures(i, trade)
  {
    hide Decodes, Also, DecodeRoute, ProtectedSide, CounterSide;
    failures := [];
    var decoded := DecodeRoute(i);
    if decoded.None? {
      return [if i.programId != JUPITER then ProgramNotJupiter else UnsupportedJupiter];
    }
    var route := decoded.value;
    SignerIsThere(i);
    failures := Report(failures, ProtectedSide(route, trade) != trade.protectedMint, ProtectedMintNotInRole);
    failures := Report(failures, CounterSide(route, trade) != trade.counterMint, CounterMintMismatch);
    failures := Report(failures, route.authority != trade.authority, AuthorityMismatch);
    failures := Report(failures, !i.accounts[0].isSigner, AuthorityNotSigner);
    failures := Report(failures, route.destination != trade.destination, DestinationMismatch);
    failures := Report(failures, route.overridden != None, DestinationOverridden);
    failures := Report(failures, route.inAmount != trade.inAmount, InAmountMismatch);
    failures := Report(failures, route.quotedOut != trade.quotedOut, QuotedOutMismatch);
    failures := Report(failures, route.slippageBps != trade.slippageBps, SlippageMismatch);
    failures := Report(failures, route.platformFeeBps != 0, PlatformFeePresent);
  }

  lemma SignerIsThere(i: Instruction)
    requires Decodes(i)
    ensures |i.accounts| >= FIXED_ACCOUNTS
  {
  }

  /** The instruction is the declared trade and nothing more. */
  predicate IsTheTrade(i: Instruction, trade: Trade) {
    && i.programId == JUPITER && |i.data| >= 34 && |i.accounts| >= 10
    && i.data[..8] == [0xbb, 0x64, 0xfa, 0xcc, 0x31, 0xc4, 0xaf, 0x14]
    && i.accounts[0].isSigner && i.accounts[0].pubkey == trade.authority
    && i.accounts[2].pubkey == trade.destination
    && i.accounts[if trade.direction.Buy? then 4 else 3].pubkey == trade.protectedMint
    && i.accounts[if trade.direction.Buy? then 3 else 4].pubkey == trade.counterMint
    && i.accounts[7].pubkey == JUPITER
    && FromLE(i.data[8..16]) == trade.inAmount && FromLE(i.data[16..24]) == trade.quotedOut
    && FromLE(i.data[24..26]) == trade.slippageBps && FromLE(i.data[26..28]) == 0
  }

  lemma BoundExactly(i: Instruction, trade: Trade)
    ensures SemanticFailures(i, trade) == [] <==> IsTheTrade(i, trade)
  {
  }

  // ------------------------------------------------- what may stand before it

  predicate IsPrice(i: Instruction) {
    i.programId == COMPUTE_BUDGET && |i.data| == 9 && i.data[0] == 3
  }

  predicate IsLimit(i: Instruction) {
    i.programId == COMPUTE_BUDGET && |i.data| == 5 && i.data[0] == 2
  }

  predicate ForTheTrade(i: Instruction, route: Route)
    requires |i.accounts| == 6
  {
    && i.accounts[1].pubkey == route.destination && i.accounts[2].pubkey == route.authority
    && i.accounts[3].pubkey == route.destinationMint && i.accounts[4].pubkey == SYSTEM_PROGRAM
    && i.accounts[5].pubkey == route.destinationProgram
  }

  function SetupFailures(i: Instruction, route: Route): seq<Failure> {
    if i.data != [1] || |i.accounts| != 6 then [UnsupportedAssociatedToken]
    else Also(Also([], !i.accounts[0].isSigner, SetupPayerNotSigner), !ForTheTrade(i, route), SetupNotForTheTrade)
  }

  /** `checkSetup`. */
  method CheckSetup(i: Instruction, route: Route) returns (failures: seq<Failure>)
    ensures failures == SetupFailures(i, route)
  {
    if i.data != [1] || |i.accounts| != 6 {
      return [UnsupportedAssociatedToken];
    }
    failures := Report([], !i.accounts[0].isSigner, SetupPayerNotSigner);
    failures := Report(failures, !ForTheTrade(i, route), SetupNotForTheTrade);
  }

  /** Creates the destination account of this trade, paid by a signer. */
  predicate IsSetup(i: Instruction, route: Route) {
    && i.programId == ASSOCIATED_TOKEN && i.data == [1] && |i.accounts| == 6
    && i.accounts[0].isSigner && ForTheTrade(i, route)
  }

  datatype Role = Price | Limit | Setup | Other

  function RoleOf(i: Instruction, route: Route): Role {
    if IsPrice(i) then Price
    else if IsLimit(i) then Limit
    else if IsSetup(i, route) then Setup
    else Other
  }

  function Roles(middle: seq<Instruction>, route: Route): (r: seq<Role>)
    ensures |r| == |middle|
    ensures forall k :: 0 <= k < |r| ==> r[k] == RoleOf(middle[k], route)
  {
    seq(|middle|, k requires 0 <= k < |middle| => RoleOf(middle[k], route))
  }

  /** The counters of the checking loop after a stretch of instructions. */
  datatype Counters = Counters(prices: nat, limits: nat, setups: nat)

  function Counted(c: Counters, i: Instruction): Counters {
    if i.programId == COMPUTE_BUDGET then
      if IsPrice(i) then c.(prices := c.prices + 1)
      else if IsLimit(i) then c.(limits := c.limits + 1)
      else c
    else if i.programId == ASSOCIATED_TOKEN then c.(setups := c.setups + 1)
    else c
  }

  function StepFailures(before: Counters, i: Instruction, route: Route): seq<Failure> {
    if i.programId == COMPUTE_BUDGET then
      if IsPrice(i) then Also([], before.prices >= 1, DuplicatePrice)
      else if IsLimit(i) then Also([], before.limits >= 1, DuplicateLimit)
      else [UnsupportedComputeBudget]
    else if i.programId == ASSOCIATED_TOKEN then
      Also([], before.setups >= 1, DuplicateSetup) + SetupFailures(i, route)
    else [if i.programId == JUPITER then SecondJupiter else UnsupportedProgram]
  }

  function CountersOf(middle: seq<Instruction>): Counters {
    if middle == [] then Counters(0, 0, 0)
    else Counted(CountersOf(middle[..|middle| - 1]), middle[|middle| - 1])
  }

  function MiddleFailures(middle: seq<Instruction>, route: Route): seq<Failure> {
    if middle == [] then []
    else
      var init, last := middle[..|middle| - 1], middle[|middle| - 1];
      MiddleFailures(init, route) + StepFailures(CountersOf(init), last, route)
  }

  lemma MiddleSnoc(init: seq<Instruction>, last: Instruction, route: Route)
    ensures MiddleFailures(init + [last], route) ==
            MiddleFailures(init, route) + StepFailures(CountersOf(init), last, route)
    ensures CountersOf(init + [last]) == Counted(CountersOf(init), last)
    ensures Roles(init + [last], route) == Roles(init, route) + [RoleOf(last, route)]
  {
    assert (init + [last])[..|init|] == init;
  }

  // --------------------------------------------------------------- the whole

  /** Every failure, in the order the checker reports them. */
  function Failures(ata: (string, string, string) -> string, tx: seq<Instruction>, guard: string, trade: Trade)
    : seq<Failure>
  {
    var first := Also([], tx == [] || tx[0].programId != guard, GuardNotAtIndexZero);
    if |tx| <= 1 then first + [EmptySuffix]
    else
      var last := tx[|tx| - 1];
      if last.programId != JUPITER then
        first + [if exists k :: 1 <= k < |tx| && tx[k].programId == JUPITER then TradeNotLast else ProgramNotJupiter]
      else
        match DecodeRoute(last)
        case None => first + [UnsupportedJupiter]
        case Some(route) =>
          var f := first + SemanticFailures(last, trade) + MiddleFailures(tx[1..|tx| - 1], route);
          var f := Also(f, route.source != ata(route.authority, route.sourceMint, route.sourceProgram),
                        SourceNotCanonical);
          Also(f, route.destination != ata(route.authority, route.destinationMint, route.destinationProgram),
               DestinationNotCanonical)
  }

  /** The loop over what stands between the guard and the trade. */
  method CheckMiddle(reported: seq<Failure>, middle: seq<Instruction>, route: Route)
    returns (failures: seq<Failure>)
    ensures failures == reported + MiddleFailures(middle, route)
  {
    hide SetupFailures, IsPrice, IsLimit, MiddleFailures, CountersOf, Roles;
    failures := reported;
    var prices, limits, setups := 0, 0, 0;
    NothingYet(route);
    for k := 0 to |middle|
      invariant Counters(prices, limits, setups) == CountersOf(middle[..k])
      invariant failures == reported + MiddleFailures(middle[..k], route)
    {
      var i := middle[k];
      assert middle[..k + 1] == middle[..k] + [i];
      MiddleSnoc(middle[..k], i, route);
      ghost var before := failures;
      if i.programId == COMPUTE_BUDGET {
        if IsPrice(i) {
          prices := prices + 1;
          failures := Report(failures, prices > 1, DuplicatePrice);
        } else if IsLimit(i) {
          limits := limits + 1;
          failures := Report(failures, limits > 1, DuplicateLimit);
        } else {
          failures := failures + [UnsupportedComputeBudget];
        }
      } else if i.programId == ASSOCIATED_TOKEN {
        setups := setups + 1;
        failures := Report(failures, setups > 1, DuplicateSetup);
        var setup := CheckSetup(i, route);
        failures := failures + setup;
      } else if i.programId == JUPITER {
        failures := failures + [SecondJupiter];
      } else {
        failures := failures + [UnsupportedProgram];
      }
      assert failures == before + StepFailures(CountersOf(middle[..k]), i, route);
    }
    assert middle[..|middle|] == middle;
  }

  /** `checkTransactionGrammar`: early returns first, then every other check. */
  method CheckTransactionGrammar(ata: (string, string, string) -> string, tx: seq<Instruction>, guard: string,
                                 trade: Trade)
    returns (failures: seq<Failure>)
    ensures failures == Failures(ata, tx, guard, trade)
  {
    hide Decodes, SemanticFailures, MiddleFailures, Also, DecodeRoute;
    failures := Report([], tx == [] || tx[0].programId != guard, GuardNotAtIndexZero);
    if |tx| <= 1 {
      return failures + [EmptySuffix];
    }
    var suffix := tx[1..];
    var last := suffix[|suffix| - 1];
    if last.programId != JUPITER {
      var elsewhere := exists k :: 0 <= k < |suffix| && suffix[k].programId == JUPITER;
      ShiftedSearch(tx);
      return failures + [if elsewhere then TradeNotLast else ProgramNotJupiter];
    }
    var decoded := DecodeRoute(last);
    if decoded.None? {
      return failures + [UnsupportedJupiter];
    }
    var route := decoded.value;
    var semantic := CheckSemanticBinding(last, trade);
    failures := failures + semantic;
    assert suffix[..|suffix| - 1] == tx[1..|tx| - 1];
    failures := CheckMiddle(failures, suffix[..|suffix| - 1], route);
    var source := ata(route.authority, route.sourceMint, route.sourceProgram);
    var destination := ata(route.authority, route.destinationMint, route.destinationProgram);
    failures := Report(failures, route.source != source, SourceNotCanonical);
    failures := Report(failures, route.destination != destination, DestinationNotCanonical);
  }

  lemma ShiftedSearch(tx: seq<Instruction>)
    requires |tx| >= 1
    ensures (exists k :: 0 <= k < |tx[1..]| && tx[1..][k].programId == JUPITER) <==>
            (exists k :: 1 <= k < |tx| && tx[k].programId == JUPITER)
  {
    forall k | 1 <= k < |tx| ensures tx[1..][k - 1] == tx[k] {
    }
  }

  lemma NothingYet(route: Route)
    ensures CountersOf([]) == Counters(0, 0, 0) && MiddleFailures([], route) == []
  {
  }

  // ------------------------------------------------------------- exactness

  lemma {:induction false} CountersAreCounts(middle: seq<Instruction>, route: Route)
    ensures CountersOf(middle).prices == multiset(Roles(middle, route))[Price]
    ensures CountersOf(middle).limits == multiset(Roles(middle, route))[Limit]
    ensures Other !in Roles(middle, route) ==> CountersOf(middle).setups == multiset(Roles(middle, route))[Setup]
  {
    hide Roles, CountersOf, MiddleFailures;
    if middle == [] {
      NothingYet(route);
    } else {
      var init, last := middle[..|middle| - 1], middle[|middle| - 1];
      assert middle == init + [last];
      MiddleSnoc(init, last, route);
      ProgramsDiffer();
      CountersAreCounts(init, route);
      assert multiset(Roles(middle, route)) == multiset(Roles(init, route)) + multiset{RoleOf(last, route)};
    }
  }

  const ONE_OF_EACH := multiset{Price, Limit, Setup}

  lemma StepClean(init: seq<Instruction>, last: Instruction, route: Route)
    requires multiset(Roles(init, route)) <= ONE_OF_EACH
    ensures StepFailures(CountersOf(init), last, route) == [] <==>
            multiset(Roles(init, route)) + multiset{RoleOf(last, route)} <= ONE_OF_EACH
  {
    hide Roles, CountersOf, ForTheTrade;
    ProgramsDiffer();
    var m := multiset(Roles(init, route));
    assert m[Other] == 0;
    CountersAreCounts(init, route);
    var role := RoleOf(last, route);
    assert (m + multiset{role})[role] == m[role] + 1;
    assert ONE_OF_EACH[Other] == 0;
  }

  lemma {:induction false} MiddleClean(middle: seq<Instruction>, route: Route)
    ensures MiddleFailures(middle, route) == [] <==> multiset(Roles(middle, route)) <= ONE_OF_EACH
  {
    hide Roles, CountersOf, MiddleFailures, StepFailures, RoleOf;
    if middle == [] {
      NothingYet(route);
    } else {
      var init, last := middle[..|middle| - 1], middle[|middle| - 1];
      assert middle == init + [last];
      MiddleSnoc(init, last, route);
      MiddleClean(init, route);
      assert multiset(Roles(middle, route)) == multiset(Roles(init, route)) + multiset{RoleOf(last, route)};
      if multiset(Roles(init, route)) <= ONE_OF_EACH {
        StepClean(init, last, route);
      }
    }
  }

  /** The language: a guard; any arrangement of at most one price, one limit and one
      setup for the trade's own destination; the declared trade last, between the
      canonical accounts of its authority. Accounts and bytes are the instructions' own. */
  ghost predicate InGrammar(ata: (string, string, string) -> string, tx: seq<Instruction>, guard: string,
                            trade: Trade)
  {
    && |tx| >= 2 && tx[0].programId == guard
    && var last := tx[|tx| - 1];
    && IsTheTrade(last, trade)
    && (forall k :: 1 <= k < |tx| - 1 ==> MayPrecede(tx[k], last))
    && (forall j, k :: 1 <= j < k < |tx| - 1 ==> Apart(tx[j], tx[k]))
    && var (owner, from, to) := (last.accounts[0].pubkey, last.accounts[1].pubkey, last.accounts[2].pubkey);
    && from == ata(owner, last.accounts[3].pubkey, last.accounts[5].pubkey)
    && to == ata(owner, last.accounts[4].pubkey, last.accounts[6].pubkey)
  }

  /** What may stand between the guard and the trade. */
  predicate MayPrecede(i: Instruction, trade: Instruction)
    requires |trade.accounts| >= 10
  {
    || (i.programId == COMPUTE_BUDGET && |i.data| == 9 && i.data[0] == 3)
    || (i.programId == COMPUTE_BUDGET && |i.data| == 5 && i.data[0] == 2)
    || (&& i.programId == ASSOCIATED_TOKEN && i.data == [1] && |i.accounts| == 6 && i.accounts[0].isSigner
        && i.accounts[1].pubkey == trade.accounts[2].pubkey && i.accounts[2].pubkey == trade.accounts[0].pubkey
        && i.accounts[3].pubkey == trade.accounts[4].pubkey && i.accounts[4].pubkey == SYSTEM_PROGRAM
        && i.accounts[5].pubkey == trade.accounts[6].pubkey)
  }

  /** Two of those are of different kinds. */
  predicate Apart(i: Instruction, j: Instruction) {
    i.programId != j.programId || |i.data| != |j.data|
  }

  lemma KindsAreRoles(i: Instruction, last: Instruction)
    requires Decodes(last)
    ensures MayPrecede(i, last) <==> RoleOf(i, DecodeRoute(last).value) != Other
  {
    ProgramsDiffer();
  }

  lemma ApartRolesDiffer(i: Instruction, j: Instruction, last: Instruction)
    requires Decodes(last) && MayPrecede(i, last) && MayPrecede(j, last)
    ensures Apart(i, j) <==> RoleOf(i, DecodeRoute(last).value) != RoleOf(j, DecodeRoute(last).value)
  {
    ProgramsDiffer();
  }

  /** One of each kind at most. */
  lemma {:induction false} RolesAreApart(middle: seq<Instruction>, last: Instruction)
    requires Decodes(last)
    ensures multiset(Roles(middle, DecodeRoute(last).value)) <= ONE_OF_EACH <==>
            && (forall k :: 0 <= k < |middle| ==> MayPrecede(middle[k], last))
            && (forall j, k :: 0 <= j < k < |middle| ==> Apart(middle[j], middle[k]))
  {
    hide MayPrecede, RoleOf, MiddleFailures, CountersOf, DecodeRoute, Apart, Decodes;
    var route := DecodeRoute(last).value;
    if middle == [] {
      NothingYet(route);
    } else {
      var init, x := middle[..|middle| - 1], middle[|middle| - 1];
      assert middle == init + [x];
      MiddleSnoc(init, x, route);
      RolesAreApart(init, last);
      assert multiset(Roles(middle, route)) == multiset(Roles(init, route)) + multiset{RoleOf(x, route)};
      if multiset(Roles(init, route)) <= ONE_OF_EACH {
        OneMoreRole(init, x, last);
      }
    }
  }

  lemma OneMoreRole(init: seq<Instruction>, x: Instruction, last: Instruction)
    requires Decodes(last)
    requires forall k :: 0 <= k < |init| ==> MayPrecede(init[k], last)
    requires multiset(Roles(init, DecodeRoute(last).value)) <= ONE_OF_EACH
    ensures var route := DecodeRoute(last).value;
            multiset(Roles(init, route)) + multiset{RoleOf(x, route)} <= ONE_OF_EACH <==>
            MayPrecede(x, last) && forall k :: 0 <= k < |init| ==> Apart(init[k], x)
  {
    hide MayPrecede, RoleOf, DecodeRoute, Apart;
    var route := DecodeRoute(last).value;
    var roles, role := Roles(init, route), RoleOf(x, route);
    KindsAreRoles(x, last);
    assert multiset(roles)[role] > 0 <==> role in roles;
    assert (multiset(roles) + multiset{role})[role] == multiset(roles)[role] + 1;
    if MayPrecede(x, last) {
      forall k | 0 <= k < |init| ensures Apart(init[k], x) <==> roles[k] != role {
        ApartRolesDiffer(init[k], x, last);
      }
    } else {
      assert role == Other && ONE_OF_EACH[Other] == 0;
    }
  }

  /** No failure is reported exactly on that language. */
  lemma AcceptedExactly(ata: (string, string, string) -> string, tx: seq<Instruction>, guard: string, trade: Trade)
    ensures Failures(ata, tx, guard, trade) == [] <==> InGrammar(ata, tx, guard, trade)
  {
    hide IsTheTrade, SemanticFailures, MiddleFailures, Roles, MayPrecede, Apart;
    if |tx| >= 2 {
      var last := tx[|tx| - 1];
      BoundExactly(last, trade);
      TradesDecode(last, trade);
      if Decodes(last) {
        var middle := tx[1..|tx| - 1];
        MiddleClean(middle, DecodeRoute(last).value);
        RolesAreApart(middle, last);
        Shifted(tx, last);
      }
    }
  }

  lemma Shifted(tx: seq<Instruction>, last: Instruction)
    requires |tx| >= 2 && |last.accounts| >= 10
    ensures var middle := tx[1..|tx| - 1];
            && (forall k :: 1 <= k < |tx| - 1 ==> MayPrecede(tx[k], last)) ==
               (forall k :: 0 <= k < |middle| ==> MayPrecede(middle[k], last))
            && (forall j, k :: 1 <= j < k < |tx| - 1 ==> Apart(tx[j], tx[k])) ==
               (forall j, k :: 0 <= j < k < |middle| ==> Apart(middle[j], middle[k]))
  {
    hide MayPrecede, Apart;
    var middle := tx[1..|tx| - 1];
    assert forall k :: 1 <= k < |tx| - 1 ==> tx[k] == middle[k - 1];
    assert forall k :: 0 <= k < |middle| ==> middle[k] == tx[k + 1];
  }

  lemma TradesDecode(i: Instruction, trade: Trade)
    ensures IsTheTrade(i, trade) ==> Decodes(i) && i.programId != COMPUTE_BUDGET && i.programId != ASSOCIATED_TOKEN
  {
    ProgramsDiffer();
  }

  /** So an accepted transaction has two to five instructions. */
  lemma AtMostFive(ata: (string, string, string) -> string, tx: seq<Instruction>, guard: string, trade: Trade)
    requires Failures(ata, tx, guard, trade) == []
    ensures 2 <= |tx| <= 5
  {
    hide IsTheTrade, Failures, MayPrecede, Apart;
    AcceptedExactly(ata, tx, guard, trade);
    TradesDecode(tx[|tx| - 1], trade);
    RolesAreApart(tx[1..|tx| - 1], tx[|tx| - 1]);
    Shifted(tx, tx[|tx| - 1]);
    var roles := multiset(Roles(tx[1..|tx| - 1], DecodeRoute(tx[|tx| - 1]).value));
    assert ONE_OF_EACH == roles + (ONE_OF_EACH - roles);
    assert |roles| <= |ONE_OF_EACH| == 3;
  }

  /** Nothing can be appended to an accepted transaction, and nothing but a budget
      or setup instruction can be inserted after its guard. */
  lemma InsertionsAreRejected(ata: (string, string, string) -> string, tx: seq<Instruction>, guard: string,
                              trade: Trade, at: nat, i: Instruction, declared: Trade)
    requires Failures(ata, tx, guard, trade) == []
    requires 1 <= at <= |tx|
    requires at == |tx| || (i.programId != COMPUTE_BUDGET && i.programId != ASSOCIATED_TOKEN)
    ensures Failures(ata, tx[..at] + [i] + tx[at..], guard, declared) != []
  {
    hide Failures, IsTheTrade, Apart;
    var longer := tx[..at] + [i] + tx[at..];
    AcceptedExactly(ata, tx, guard, trade);
    AcceptedExactly(ata, longer, guard, declared);
    TradesDecode(tx[|tx| - 1], trade);
    var k := if at == |tx| then |tx| - 1 else at;
    assert longer[k].programId != COMPUTE_BUDGET && longer[k].programId != ASSOCIATED_TOKEN;
  }

  // ------------------------------------------------------ the minimum output

  /** Division and remainder of big integers truncate toward zero. */
  function Quotient(n: int, d: int): int
    requires d > 0
  {
    if n >= 0 then n / d else -(-n / d)
  }

  function Remainder(n: int, d: int): int
    requires d > 0
  {
    n - Quotient(n, d) * d
  }

  function RoundedUp(numerator: int): int {
    if Remainder(numerator, 10_000) == 0 then Quotient(numerator, 10_000) else Quotient(numerator, 10_000) + 1
  }

  /** `minimumOutFromQuote`. */
  function MinimumOut(quoted: nat, slippageBps: nat): int {
    RoundedUp(quoted * (10_000 - slippageBps))
  }

  lemma RoundedUpExactly(numerator: int)
    ensures var m := RoundedUp(numerator);
            && ((m - 1) * 10_000 < numerator <= m * 10_000 <==> numerator >= 0 || numerator % 10_000 == 0)
            && (numerator < 0 && numerator % 10_000 != 0 ==> (m - 2) * 10_000 < numerator < (m - 1) * 10_000)
  {
  }

  /** The rule rounds up exactly when the slippage is at most 100% or the numerator divides. */
  lemma RoundsUpExactly(quoted: nat, slippageBps: nat)
    ensures var numerator := quoted * (10_000 - slippageBps);
            var m := MinimumOut(quoted, slippageBps);
            && ((m - 1) * 10_000 < numerator <= m * 10_000 <==> numerator >= 0 || numerator % 10_000 == 0)
            && (numerator < 0 && numerator % 10_000 != 0 ==> (m - 2) * 10_000 < numerator < (m - 1) * 10_000)
    ensures slippageBps <= 10_000 ==> quoted * (10_000 - slippageBps) >= 0
  {
    hide RoundedUp;
    RoundedUpExactly(quoted * (10_000 - slippageBps));
  }
}
