/** Which failures the grammar checker reports: each of them exactly when what it names
    is the case, said of the instructions' own accounts and bytes. */
module GrammarReports {
  import opened Bytes
  import opened Commitment
  import opened Addresses
  import opened Grammar

  // -------------------------------------------------------- the trade itself

  /** The wire's own account `k` of the trade. */
  predicate At(trade: Instruction, k: nat, address: string) {
    k < |trade.accounts| && trade.accounts[k].pubkey == address
  }

  /** What each failure of the declared trade says of a decodable instruction. */
  predicate Unbound(i: Instruction, trade: Trade, f: Failure)
    requires Decodes(i)
  {
    match f
    case ProtectedMintNotInRole => !At(i, if trade.direction.Buy? then 4 else 3, trade.protectedMint)
    case CounterMintMismatch => !At(i, if trade.direction.Buy? then 3 else 4, trade.counterMint)
    case AuthorityMismatch => !At(i, 0, trade.authority)
    case AuthorityNotSigner => !i.accounts[0].isSigner
    case DestinationMismatch => !At(i, 2, trade.destination)
    case DestinationOverridden => !At(i, 7, JUPITER)
    case InAmountMismatch => FromLE(i.data[8..16]) != trade.inAmount
    case QuotedOutMismatch => FromLE(i.data[16..24]) != trade.quotedOut
    case SlippageMismatch => FromLE(i.data[24..26]) != trade.slippageBps
    case PlatformFeePresent => FromLE(i.data[26..28]) != 0
    case _ => false
  }

  lemma SemanticReports(i: Instruction, trade: Trade, f: Failure)
    requires Decodes(i)
    ensures f in SemanticFailures(i, trade) <==> Unbound(i, trade, f)
  {
    AlsoReports(f);
    hide FromLE, Also;
  }

  lemma AlsoReports(f: Failure)
    ensures forall failures: seq<Failure>, c: bool, g: Failure ::
              f in Also(failures, c, g) <==> f in failures || (c && f == g)
  {
  }

  /** Of an instruction that is no decodable trade only that is reported. */
  lemma UnreadableReports(i: Instruction, trade: Trade, f: Failure)
    requires !Decodes(i)
    ensures f in SemanticFailures(i, trade) <==>
            f == if i.programId == JUPITER then UnsupportedJupiter else ProgramNotJupiter
  {
  }

  // ------------------------------------------------- what stands before it

  predicate Price9(i: Instruction) {
    i.programId == COMPUTE_BUDGET && |i.data| == 9 && i.data[0] == 3
  }

  predicate Limit5(i: Instruction) {
    i.programId == COMPUTE_BUDGET && |i.data| == 5 && i.data[0] == 2
  }

  predicate Create6(i: Instruction) {
    i.programId == ASSOCIATED_TOKEN && i.data == [1] && |i.accounts| == 6
  }

  /** A setup for another trade than this one. */
  predicate Elsewhere(i: Instruction, trade: Instruction)
    requires |trade.accounts| >= 10 && |i.accounts| == 6
  {
    || i.accounts[1].pubkey != trade.accounts[2].pubkey || i.accounts[2].pubkey != trade.accounts[0].pubkey
    || i.accounts[3].pubkey != trade.accounts[4].pubkey || i.accounts[4].pubkey != SYSTEM_PROGRAM
    || i.accounts[5].pubkey != trade.accounts[6].pubkey
  }

  /** What one instruction alone is reported for. */
  predicate Wrong(i: Instruction, trade: Instruction, f: Failure)
    requires |trade.accounts| >= 10
  {
    match f
    case UnsupportedComputeBudget => i.programId == COMPUTE_BUDGET && !Price9(i) && !Limit5(i)
    case UnsupportedAssociatedToken => i.programId == ASSOCIATED_TOKEN && !Create6(i)
    case SetupPayerNotSigner => Create6(i) && !i.accounts[0].isSigner
    case SetupNotForTheTrade => Create6(i) && Elsewhere(i, trade)
    case SecondJupiter => i.programId == JUPITER
    case UnsupportedProgram => i.programId !in {COMPUTE_BUDGET, ASSOCIATED_TOKEN, JUPITER}
    case _ => false
  }

  /** What an instruction is reported for because of one before it. */
  predicate Repeats(i: Instruction, j: Instruction, f: Failure) {
    match f
    case DuplicatePrice => Price9(i) && Price9(j)
    case DuplicateLimit => Limit5(i) && Limit5(j)
    case DuplicateSetup => i.programId == ASSOCIATED_TOKEN == j.programId
    case _ => false
  }

  ghost predicate OutOfPlace(middle: seq<Instruction>, trade: Instruction, f: Failure)
    requires |trade.accounts| >= 10
  {
    || (exists k :: 0 <= k < |middle| && Wrong(middle[k], trade, f))
    || (exists j, k :: 0 <= j < k < |middle| && Repeats(middle[j], middle[k], f))
  }

  lemma {:induction false} CountersSeen(middle: seq<Instruction>)
    ensures CountersOf(middle).prices >= 1 <==> exists k :: 0 <= k < |middle| && Price9(middle[k])
    ensures CountersOf(middle).limits >= 1 <==> exists k :: 0 <= k < |middle| && Limit5(middle[k])
    ensures CountersOf(middle).setups >= 1 <==>
            exists k :: 0 <= k < |middle| && middle[k].programId == ASSOCIATED_TOKEN
  {
    if middle != [] {
      var init, last := middle[..|middle| - 1], middle[|middle| - 1];
      assert middle == init + [last];
      CountersSeen(init);
      ProgramsDiffer();
      assert Counted(CountersOf(init), last) == CountersOf(middle);
    }
  }

  lemma SetupReports(i: Instruction, trade: Instruction, f: Failure)
    requires Decodes(trade) && i.programId == ASSOCIATED_TOKEN
    ensures f in SetupFailures(i, DecodeRoute(trade).value) <==> Wrong(i, trade, f)
  {
    ProgramsDiffer();
    hide FromLE;
  }

  lemma RepeatReports(init: seq<Instruction>, last: Instruction, f: Failure)
    ensures (exists k :: 0 <= k < |init| && Repeats(init[k], last, f)) <==>
            || (f == DuplicatePrice && Price9(last) && CountersOf(init).prices >= 1)
            || (f == DuplicateLimit && Limit5(last) && CountersOf(init).limits >= 1)
            || (f == DuplicateSetup && last.programId == ASSOCIATED_TOKEN && CountersOf(init).setups >= 1)
  {
    hide CountersOf, Price9, Limit5;
    CountersSeen(init);
    hide Repeats;
    forall i: Instruction
      ensures Repeats(i, last, f) <==>
              || (f == DuplicatePrice && Price9(i) && Price9(last))
              || (f == DuplicateLimit && Limit5(i) && Limit5(last))
              || (f == DuplicateSetup && i.programId == ASSOCIATED_TOKEN == last.programId)
    {
      RepeatMeans(i, last, f);
    }
  }

  lemma RepeatMeans(i: Instruction, last: Instruction, f: Failure)
    ensures Repeats(i, last, f) <==>
            || (f == DuplicatePrice && Price9(i) && Price9(last))
            || (f == DuplicateLimit && Limit5(i) && Limit5(last))
            || (f == DuplicateSetup && i.programId == ASSOCIATED_TOKEN == last.programId)
  {
  }

  lemma BudgetReports(init: seq<Instruction>, last: Instruction, trade: Instruction, f: Failure)
    requires Decodes(trade) && last.programId == COMPUTE_BUDGET
    ensures f in StepFailures(CountersOf(init), last, DecodeRoute(trade).value) <==>
            || Wrong(last, trade, f)
            || (f == DuplicatePrice && Price9(last) && CountersOf(init).prices >= 1)
            || (f == DuplicateLimit && Limit5(last) && CountersOf(init).limits >= 1)
  {
    hide CountersOf, SetupFailures, DecodeRoute, Decodes, Elsewhere;
    ProgramsDiffer();
  }

  lemma OtherReports(init: seq<Instruction>, last: Instruction, trade: Instruction, f: Failure)
    requires Decodes(trade) && last.programId != COMPUTE_BUDGET
    ensures f in StepFailures(CountersOf(init), last, DecodeRoute(trade).value) <==>
            || Wrong(last, trade, f)
            || (f == DuplicateSetup && last.programId == ASSOCIATED_TOKEN && CountersOf(init).setups >= 1)
  {
    hide CountersOf, SetupFailures, DecodeRoute, Decodes, Elsewhere, IsPrice, IsLimit;
    ProgramsDiffer();
    if last.programId == ASSOCIATED_TOKEN {
      SetupReports(last, trade, f);
    }
  }

  lemma StepReports(init: seq<Instruction>, last: Instruction, trade: Instruction, f: Failure)
    requires Decodes(trade)
    ensures f in StepFailures(CountersOf(init), last, DecodeRoute(trade).value) <==>
            Wrong(last, trade, f) || exists k :: 0 <= k < |init| && Repeats(init[k], last, f)
  {
    hide CountersOf, StepFailures, DecodeRoute, Decodes, Repeats, Wrong;
    RepeatReports(init, last, f);
    ProgramsDiffer();
    if last.programId == COMPUTE_BUDGET {
      BudgetReports(init, last, trade, f);
    } else {
      OtherReports(init, last, trade, f);
    }
  }

  lemma {:induction false} MiddleReports(middle: seq<Instruction>, trade: Instruction, f: Failure)
    requires Decodes(trade)
    ensures f in MiddleFailures(middle, DecodeRoute(trade).value) <==> OutOfPlace(middle, trade, f)
  {
    hide Wrong, Repeats, DecodeRoute, StepFailures, MiddleFailures, CountersOf;
    if middle == [] {
      NothingYet(DecodeRoute(trade).value);
    } else {
      var init, last := middle[..|middle| - 1], middle[|middle| - 1];
      assert middle == init + [last];
      MiddleSnoc(init, last, DecodeRoute(trade).value);
      MiddleReports(init, trade, f);
      StepReports(init, last, trade, f);
    }
  }

  // ------------------------------------------------------------- the whole

  /** The last instruction is a trade that can be read. */
  predicate Readable(i: Instruction) {
    && i.programId == JUPITER && |i.data| >= 34 && |i.accounts| >= 10
    && i.data[..8] == [0xbb, 0x64, 0xfa, 0xcc, 0x31, 0xc4, 0xaf, 0x14]
  }

  /** What each failure says of a whole transaction. Behind an unreadable trade nothing
      else is judged. */
  ghost predicate Deserved(ata: (string, string, string) -> string, tx: seq<Instruction>, guard: string,
                           trade: Trade, f: Failure)
  {
    match f
    case GuardNotAtIndexZero => tx == [] || tx[0].programId != guard
    case EmptySuffix => |tx| <= 1
    case TradeNotLast =>
      |tx| >= 2 && tx[|tx| - 1].programId != JUPITER && exists k :: 1 <= k < |tx| && tx[k].programId == JUPITER
    case ProgramNotJupiter => |tx| >= 2 && forall k :: 1 <= k < |tx| ==> tx[k].programId != JUPITER
    case UnsupportedJupiter => |tx| >= 2 && tx[|tx| - 1].programId == JUPITER && !Readable(tx[|tx| - 1])
    case SourceNotCanonical =>
      && |tx| >= 2 && Readable(tx[|tx| - 1])
      && var a := tx[|tx| - 1].accounts; a[1].pubkey != ata(a[0].pubkey, a[3].pubkey, a[5].pubkey)
    case DestinationNotCanonical =>
      && |tx| >= 2 && Readable(tx[|tx| - 1])
      && var a := tx[|tx| - 1].accounts; a[2].pubkey != ata(a[0].pubkey, a[4].pubkey, a[6].pubkey)
    case _ =>
      && |tx| >= 2 && Readable(tx[|tx| - 1])
      && (Unbound(tx[|tx| - 1], trade, f) || OutOfPlace(tx[1..|tx| - 1], tx[|tx| - 1], f))
  }

  lemma ReadableExactly(i: Instruction)
    ensures Readable(i) <==> Decodes(i)
  {
  }

  /** What is reported of the whole is reported of no part. */
  lemma OfTheWhole(i: Instruction, middle: seq<Instruction>, trade: Trade, f: Failure)
    requires Decodes(i)
    requires f in {GuardNotAtIndexZero, EmptySuffix, TradeNotLast, ProgramNotJupiter, UnsupportedJupiter,
                   SourceNotCanonical, DestinationNotCanonical}
    ensures !Unbound(i, trade, f) && !OutOfPlace(middle, i, f)
  {
    hide FromLE, Decodes;
  }

  lemma JudgedReports(ata: (string, string, string) -> string, tx: seq<Instruction>, guard: string, trade: Trade,
                      f: Failure)
    requires |tx| >= 2 && Decodes(tx[|tx| - 1])
    ensures var last := tx[|tx| - 1];
            var a := last.accounts;
            f in Failures(ata, tx, guard, trade) <==>
            || (f == GuardNotAtIndexZero && tx[0].programId != guard)
            || f in SemanticFailures(last, trade)
            || f in MiddleFailures(tx[1..|tx| - 1], DecodeRoute(last).value)
            || (f == SourceNotCanonical && a[1].pubkey != ata(a[0].pubkey, a[3].pubkey, a[5].pubkey))
            || (f == DestinationNotCanonical && a[2].pubkey != ata(a[0].pubkey, a[4].pubkey, a[6].pubkey))
  {
    hide SemanticFailures, MiddleFailures, FromLE;
  }

  /** Every failure is reported exactly when it is deserved. */
  lemma ReportedExactly(ata: (string, string, string) -> string, tx: seq<Instruction>, guard: string, trade: Trade,
                        f: Failure)
    ensures f in Failures(ata, tx, guard, trade) <==> Deserved(ata, tx, guard, trade, f)
  {
    hide SemanticFailures, MiddleFailures, FromLE, Unbound, OutOfPlace;
    if |tx| >= 2 && Decodes(tx[|tx| - 1]) {
      hide Failures, Decodes;
      var last := tx[|tx| - 1];
      ReadableExactly(last);
      JudgedReports(ata, tx, guard, trade, f);
      SemanticReports(last, trade, f);
      MiddleReports(tx[1..|tx| - 1], last, f);
      if f.GuardNotAtIndexZero? || f.EmptySuffix? || f.TradeNotLast? || f.ProgramNotJupiter?
         || f.UnsupportedJupiter? || f.SourceNotCanonical? || f.DestinationNotCanonical?
      {
        OfTheWhole(last, tx[1..|tx| - 1], trade, f);
      }
    } else {
      UnjudgedReports(ata, tx, guard, trade, f);
    }
  }

  lemma UnjudgedReports(ata: (string, string, string) -> string, tx: seq<Instruction>, guard: string, trade: Trade,
                        f: Failure)
    requires |tx| <= 1 || !Decodes(tx[|tx| - 1])
    ensures f in Failures(ata, tx, guard, trade) <==> Deserved(ata, tx, guard, trade, f)
  {
    hide SemanticFailures, MiddleFailures, FromLE, Unbound, OutOfPlace, Decodes;
    if tx != [] {
      ReadableExactly(tx[|tx| - 1]);
    }
  }

  // ---------------------------------------------------- what decoding keeps

  lemma Cut(data: seq<byte>)
    requires |data| >= 34
    ensures data == data[..8] + data[8..16] + data[16..24] + data[24..26] + data[26..28] + data[28..30]
                    + data[30..34] + data[34..]
  {
  }

  /** The decoded route loses nothing of its instruction: the data can be rebuilt from it,
      and its keys are the first eight accounts in order. */
  lemma RouteRebuildsTheTrade(i: Instruction)
    requires DecodeRoute(i).Some?
    ensures var r := DecodeRoute(i).value;
            && i.data == [0xbb, 0x64, 0xfa, 0xcc, 0x31, 0xc4, 0xaf, 0x14] + LE(r.inAmount, 8) + LE(r.quotedOut, 8)
                         + LE(r.slippageBps, 2) + LE(r.platformFeeBps, 2) + LE(r.positiveSlippageBps, 2)
                         + LE(r.steps, 4) + r.tail
            && |i.accounts| == 10 + r.venueAccounts
            && (forall k :: 0 <= k < 8 ==>
                  i.accounts[k].pubkey ==
                  [r.authority, r.source, r.destination, r.sourceMint, r.destinationMint, r.sourceProgram,
                   r.destinationProgram, r.overridden.GetOr(JUPITER)][k])
            && r.overridden != Some(JUPITER)
  {
    hide LE, FromLE;
    Cut(i.data);
    LEOfFromLE(i.data[8..16]);
    LEOfFromLE(i.data[16..24]);
    LEOfFromLE(i.data[24..26]);
    LEOfFromLE(i.data[26..28]);
    LEOfFromLE(i.data[28..30]);
    LEOfFromLE(i.data[30..34]);
  }
}
