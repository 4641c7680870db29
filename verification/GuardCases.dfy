/** One generated case of the differential corpus, the expectation it carries, and
    the proof that the expectation is the program's own verdict on the case. */
module GuardCases {
  import opened Bytes
  import opened Guard
  import opened Commitment
  import opened Addresses
  import opened Abi
  import opened Mint
  import opened OnChain
  import opened Generator

  datatype Category =
    | Fresh | StalePhase | StaleMultiplier | StaleNewMultiplier | StaleTimestamp | ImmediateUpdateStale
    | PausedFresh | MintInvalidFloat | RequestInvalidFloat | RequestInvalidPhase | RequestUnknownAdapter
    | RequestJupiterAdapterOnTransfer | RequestBadVersion | RequestBadLength | MintKeyDiffers
    | CommitmentMismatch | MintWrongOwner | MintNoExtensions | MintDuplicateTlv | MintUnknownTlv
    | MintForbiddenCombination | MintNotInitializedOrNotMint | MintTruncated | MintRandomByteFlips

  const CATEGORIES: seq<Category> :=
    [Fresh, StalePhase, StaleMultiplier, StaleNewMultiplier, StaleTimestamp, ImmediateUpdateStale,
     PausedFresh, MintInvalidFloat, RequestInvalidFloat, RequestInvalidPhase, RequestUnknownAdapter,
     RequestJupiterAdapterOnTransfer, RequestBadVersion, RequestBadLength, MintKeyDiffers,
     CommitmentMismatch, MintWrongOwner, MintNoExtensions, MintDuplicateTlv, MintUnknownTlv,
     MintForbiddenCombination, MintNotInitializedOrNotMint, MintTruncated, MintRandomByteFlips]

  datatype Expectation = Exactly(verdict: Verdict) | BlockAny | Unspecified

  datatype GuardCase = GuardCase(
    category: Category, expected: Expectation, mintKey: string, mintOwner: string, mintData: seq<byte>,
    guardData: seq<byte>, clock: int, instructions: seq<Instruction>, currentIndex: nat)

  /** A captured mint with its two value offsets. */
  datatype Fixture = Fixture(mint: string, data: seq<byte>, scaled: nat, pausable: Option<nat>, decimals: byte)

  /** What the committed fixtures are: guardable mints whose extensions fill the account. */
  ghost predicate Sound(f: Fixture) {
    && IsKey(f.mint) && Guardable(TOKEN_2022, f.data, f.scaled) && DecodeProtectedState(TOKEN_2022, f.data).State?
    && EndOf(f.data, TLV_START) == |f.data| > MULTISIG_LEN
    && 10 !in KindsOf(ReadFrom(f.data, TLV_START, {}).list)
    && (f.pausable.Some? ==> Entry(26, 33, f.pausable.value) in ReadFrom(f.data, TLV_START, {}).list)
  }

  /** The addresses of the generated transfer, and SHA-256. */
  datatype Env = Env(sha: Sha, ata: Ata, source: string, destination: string, payer: string, otherOwner: string)

  function TransferOf(env: Env, mint: string, amount: nat, decimals: byte): (i: Instruction)
    ensures SupportedTransfer(i, mint)
  {
    Instruction(TOKEN_2022,
                [Meta(env.source, false, true), Meta(mint, false, false), Meta(env.destination, false, true),
                 Meta(env.payer, true, true)],
                [12] + LE(amount, 8) + [decimals])
  }

  /** The transfer moves the amount from the source to the destination, signed by the payer. */
  lemma TransferReads(env: Env, mint: string, amount: nat, decimals: byte)
    requires amount < TWO_64
    ensures var i := TransferOf(env, mint, amount, decimals);
            && |i.data| == 10 && i.data[0] == 12 && FromLE(i.data[1..9]) == amount && i.data[9] == decimals
            && (forall k :: 0 <= k < |i.accounts| ==>
                  i.accounts[k].pubkey == [env.source, mint, env.destination, env.payer][k]
                  && (i.accounts[k].isSigner <==> k == 3) && (i.accounts[k].isWritable <==> k != 1))
  {
    hide LE, FromLE;
    PowersOf256();
    LERoundTrip(amount, 8);
    assert TransferOf(env, mint, amount, decimals).data[1..9] == LE(amount, 8);
  }

  function CommitmentOf(env: Env, transfer: Instruction): Bytes32 {
    env.sha(DownstreamPreimage(KeyBytes, transfer))
  }

  /** How every implementation is asked about a case. */
  function Outcome(env: Env, c: GuardCase): Verdict {
    Execute(env.sha, env.ata, EQUITY_GUARD,
            [Account(c.mintKey, c.mintOwner, c.mintData), Account(INSTRUCTIONS_SYSVAR, "Sysvar", [])],
            c.guardData, c.instructions, c.currentIndex, Some(c.clock))
  }

  ghost predicate Labelled(env: Env, c: GuardCase) {
    match c.expected
    case Exactly(verdict) => Outcome(env, c) == verdict
    case BlockAny => Outcome(env, c).Block?
    case Unspecified => true
  }

  /** The last lines of the generator: guard first, the committed transfer second. */
  function Assemble(env: Env, category: Category, expected: Expectation, f: Fixture, owner: string, mint: seq<byte>,
                    guardData: seq<byte>, clock: int, transfer: Instruction): GuardCase
  {
    GuardCase(category, expected, f.mint, owner, mint, guardData, clock,
              [GuardInstruction(EQUITY_GUARD, f.mint, guardData), transfer], 0)
  }

  // ------------------------------------------------- the processor, by stage

  lemma Undecodable(env: Env, c: GuardCase)
    requires DecodePayload(c.guardData).Err?
    ensures Outcome(env, c) == Block(DecodePayload(c.guardData).error)
  {
    hide DecodePayload, DecodeProtectedState;
  }

  lemma WrongKey(env: Env, c: GuardCase)
    requires DecodePayload(c.guardData).Ok? && KeyBytes(c.mintKey) != DecodePayload(c.guardData).payload.mint
    ensures Outcome(env, c) == Block(MintKeyMismatch)
  {
    hide DecodePayload, DecodeProtectedState, KeyBytes;
  }

  lemma BadMint(env: Env, c: GuardCase)
    requires DecodePayload(c.guardData).Ok? && KeyBytes(c.mintKey) == DecodePayload(c.guardData).payload.mint
    requires DecodeProtectedState(c.mintOwner, c.mintData).Unreadable?
    ensures Outcome(env, c) == Block(DecodeProtectedState(c.mintOwner, c.mintData).error)
  {
    hide DecodePayload, DecodeProtectedState, KeyBytes;
  }

  ghost predicate ReachesDownstream(c: GuardCase, f: Fixture, transfer: Instruction) {
    && DecodePayload(c.guardData).Ok? && KeyBytes(f.mint) == DecodePayload(c.guardData).payload.mint
    && DecodeProtectedState(c.mintOwner, c.mintData).State?
    && c.mintKey == f.mint && c.currentIndex == 0
    && c.instructions == [GuardInstruction(EQUITY_GUARD, f.mint, c.guardData), transfer]
    && SupportedTransfer(transfer, f.mint) && |transfer.accounts| == 4
  }

  lemma WrongCommitment(env: Env, c: GuardCase, f: Fixture, transfer: Instruction)
    requires ReachesDownstream(c, f, transfer) && DecodePayload(c.guardData).payload.adapter == 1
    requires DecodePayload(c.guardData).payload.commitment != CommitmentOf(env, transfer)
    ensures Outcome(env, c) == Block(DownstreamCommitmentMismatch)
  {
    hide DecodePayload, DecodeProtectedState, KeyBytes, DownstreamPreimage;
  }

  lemma WrongAdapter(env: Env, c: GuardCase, f: Fixture, transfer: Instruction)
    requires ReachesDownstream(c, f, transfer) && DecodePayload(c.guardData).payload.adapter != 1
    ensures Outcome(env, c) == Block(UnsupportedTransactionGrammar)
  {
    hide DecodePayload, DecodeProtectedState, KeyBytes, DownstreamPreimage;
    assert c.instructions[1..] == [transfer];
  }

  lemma ByPolicy(env: Env, c: GuardCase, f: Fixture, transfer: Instruction)
    requires ReachesDownstream(c, f, transfer) && DecodePayload(c.guardData).payload.adapter == 1
    requires DecodePayload(c.guardData).payload.commitment == CommitmentOf(env, transfer)
    ensures Outcome(env, c) ==
            SpecVerdict(DecodePayload(c.guardData).payload.request,
                        DecodeProtectedState(c.mintOwner, c.mintData).economic, c.clock)
  {
    hide DecodePayload, DecodeProtectedState, KeyBytes, DownstreamPreimage, Execute, SpecVerdict, ProgramCheck,
         SupportedTransfer;
    OnlyThePolicyIsLeft(env.sha, env.ata, EQUITY_GUARD, Account(c.mintKey, c.mintOwner, c.mintData),
                        Account(INSTRUCTIONS_SYSVAR, "Sysvar", []), c.guardData, c.instructions, 0, c.clock);
    StoredTimesAreI64(c.mintOwner, c.mintData);
    ProgramRefinesSpec(DecodePayload(c.guardData).payload.request,
                       DecodeProtectedState(c.mintOwner, c.mintData).economic, c.clock);
  }

  // ------------------------------------------------------------ the request

  /** The request fields as the specification is given them, before any packing. */
  function OnFields(r: RequestFields): Request {
    Request(Economic(U64Of(r.multiplier), U64Of(r.newMultiplier), r.t), r.phase % 256,
            r.beforeSecs % 0x1_0000_0000, r.afterSecs % 0x1_0000_0000)
  }

  /** The verdict on the fields is the verdict on what is read back from the packed
      bytes; a time that wraps can only follow a multiplier that already differs. */
  lemma PackedVerdict(r: RequestFields, actual: Economic, now: int)
    requires IsI64(r.t) || U64Of(r.multiplier) != actual.multiplier
    ensures SpecVerdict(Meant(r), actual, now) == SpecVerdict(OnFields(r), actual, now)
  {
    hide U64Of;
  }

  ghost predicate WellFormed(r: RequestFields) {
    && ValidMultiplier(U64Of(r.multiplier)) && ValidMultiplier(U64Of(r.newMultiplier))
    && r.phase <= 1 && 1 <= r.adapter <= 3
  }

  lemma WellFormedDecodes(r: RequestFields)
    requires WellFormed(r)
    ensures DecodePayload(Packed(r)) == Ok(Payload(r.mint, Meant(r), r.adapter, r.commitment))
  {
    hide DecodePayload, ValidMultiplier, Packed;
    DecodeOfPacked(r);
  }

  // ------------------------------------------------------ a prepared account

  /** The fixture's bytes with a drawn economic state written into them. */
  ghost predicate Prepared(f: Fixture, mint: seq<byte>, actual: Economic) {
    && SameOutside(f.data, mint, f.scaled) && Guardable(TOKEN_2022, mint, f.scaled)
    && DecodeProtectedState(TOKEN_2022, mint) == State(actual)
    && ReadFrom(mint, TLV_START, {}) == ReadFrom(f.data, TLV_START, {})
    && EndOf(mint, TLV_START) == |mint| > MULTISIG_LEN
    && ValidMultiplier(actual.multiplier) && ValidMultiplier(actual.newMultiplier) && IsI64(actual.t)
  }

  lemma PreparedBy(f: Fixture, mint: seq<byte>, actual: Economic)
    requires Sound(f) && SameOutside(f.data, mint, f.scaled) && f.scaled + CONFIG_LEN <= |mint|
    requires ReadEconomic(mint, f.scaled) == actual && IsI64(actual.t)
    requires ValidMultiplier(actual.multiplier) && ValidMultiplier(actual.newMultiplier)
    ensures Prepared(f, mint, actual)
  {
    hide DecodeProtectedState, ReadEconomic, ValidMultiplier, ReadFrom, EndOf, ForbiddenCombination, EntryOf;
    EditedDecodes(TOKEN_2022, f.data, mint, f.scaled);
    var e := Entry(SCALED_UI, CONFIG_LEN, f.scaled);
    WalkUnmoved(f.data, mint, e, TLV_START, {});
  }

  /** A bad float in either slot of a prepared config. */
  lemma BadFloat(f: Fixture, mint: seq<byte>, broken: seq<byte>, actual: Economic, bad: Bytes8, slot: nat)
    requires Prepared(f, mint, actual) && (slot == 32 || slot == 48)
    requires f.scaled + CONFIG_LEN <= |mint| == |broken| && !ValidMultiplier(U64Of(bad))
    requires broken == mint[..f.scaled + slot] + bad + mint[f.scaled + slot + 8..]
    ensures DecodeProtectedState(TOKEN_2022, broken) == Unreadable(InvalidMultiplier)
  {
    hide DecodeProtectedState, ValidMultiplier, Guardable, U64Of, I64FromLE;
    assert SameOutside(mint, broken, f.scaled);
    assert broken[f.scaled + slot..f.scaled + slot + 8] == bad;
    EditedDecodes(TOKEN_2022, mint, broken, f.scaled);
  }

  // -------------------------------------------- the generator, piece by piece

  /** A multiplier of the fixture, or one drawn in this stretch of the stream. */
  ghost predicate Known(draws: Stream, doubles: Doubles, f: Fixture, start: nat, end: nat, x: u64)
    requires doubles.observed != []
  {
    || Drawn(draws, doubles, start, end, x)
    || (f.scaled + CONFIG_LEN <= |f.data|
        && var e := ReadEconomic(f.data, f.scaled); x == e.multiplier || x == e.newMultiplier)
  }

  /** None of the tries right behind the multiplier drawn at `q` is another one. */
  predicate StarvedBehind(draws: Stream, doubles: Doubles, q: nat, tries: nat)
    requires doubles.observed != []
  {
    var (m, at) := Bits(draws, doubles, q);
    Starved(draws, doubles, m, at, tries)
  }

  /** The tries for a replacement of one of the two multipliers end the call with nothing. */
  predicate GivesUp(draws: Stream, doubles: Doubles, actual: Economic, start: nat, end: nat, tries: nat)
    requires doubles.observed != []
  {
    || (Starved(draws, doubles, actual.multiplier, start, tries)
        && end == Behind(draws, doubles, actual.multiplier, start, tries))
    || (Starved(draws, doubles, actual.newMultiplier, start, tries)
        && end == Behind(draws, doubles, actual.newMultiplier, start, tries))
  }

  /** This very call ran out of tries: for the multiplier it drew, or for one of those its
      mint held, at the place in the stream it had come to. */
  ghost predicate OutOfTries(draws: Stream, doubles: Doubles, f: Fixture, start: nat, end: nat, tries: nat)
    requires doubles.observed != []
  {
    || (exists q :: start <= q < end && StarvedBehind(draws, doubles, q, tries))
    || (exists x, at ::
          && start <= at && Known(draws, doubles, f, start, at, x) && Starved(draws, doubles, x, at, tries)
          && end == Behind(draws, doubles, x, at, tries))
  }

  /** The state a case's chain holds: three times in ten the fixture's own, three times one
      multiplier twice, four times two different ones; always twice the same for an
      immediate update. */
  ghost predicate StateDrawn(draws: Stream, doubles: Doubles, f: Fixture, immediate: bool, at: nat, tries: nat,
                             e: Economic, end: nat)
    requires doubles.observed != []
  {
    var shape := draws(at) % 10;
    if shape < 3 && !immediate then
      f.scaled + CONFIG_LEN <= |f.data| && e == ReadEconomic(f.data, f.scaled) && end == at + 1
    else
      var (m, next) := Bits(draws, doubles, at + 1);
      && e.multiplier == m
      && if shape < 6 || immediate then e.newMultiplier == m && (e.t, end) == TimestampOf(draws, next)
         else
           exists behind: nat :: (e.t, end) == TimestampOf(draws, behind)
             && IsOther(draws, doubles, m, next, tries, e.newMultiplier, behind)
  }

  /** The state the chain holds: the fixture's own, or a drawn one. */
  method DrawState(g: Generator, f: Fixture, immediate: bool, tries: nat) returns (actual: Option<Economic>)
    requires Sound(f) && g.doubles.observed != []
    modifies g
    ensures g.used >= old(g.used)
    ensures actual.None? ==>
              exists q :: old(g.used) <= q < g.used && StarvedBehind(g.draws, g.doubles, q, tries)
    ensures actual.Some? ==>
              var e := actual.value;
              && ValidMultiplier(e.multiplier) && ValidMultiplier(e.newMultiplier) && IsI64(e.t)
              && StateDrawn(g.draws, g.doubles, f, immediate, old(g.used), tries, e, g.used)
              && Known(g.draws, g.doubles, f, old(g.used), g.used, e.multiplier)
              && Known(g.draws, g.doubles, f, old(g.used), g.used, e.newMultiplier)
  {
    hide Sound, ReadEconomic, ValidMultiplier, Bits, Candidate, Behind, TimestampOf;
    SoundFits(f);
    var shape := g.Below(10);
    if shape < 3 && !immediate {
      return Some(ReadEconomic(f.data, f.scaled));
    }
    ghost var q := g.used;
    var m := g.ValidMultiplierBits();
    assert DrawnAt(g.draws, g.doubles, q, m);
    var n := m;
    if shape >= 6 && !immediate {
      var other := g.OtherMultiplier(m, tries);
      if other.None? {
        assert StarvedBehind(g.draws, g.doubles, q, tries);
        return None;
      }
      n := other.value;
      DrawnBehind(g.draws, g.doubles, q, tries, n, g.used);
    }
    var t := g.Timestamp();
    actual := Some(Economic(m, n, t));
  }

  lemma DrawnBehind(draws: Stream, doubles: Doubles, q: nat, tries: nat, other: u64, end: nat)
    requires doubles.observed != []
    requires IsOther(draws, doubles, Bits(draws, doubles, q).0, Bits(draws, doubles, q).1, tries, other, end)
    ensures DrawnAt(draws, doubles, q, other)
  {
    hide Bits, Candidate, Behind;
  }

  /** Draws that state and writes it into the copy of the fixture. */
  method DrawActual(g: Generator, f: Fixture, data: array<byte>, immediate: bool, tries: nat)
    returns (actual: Option<Economic>)
    requires Sound(f) && data[..] == f.data && g.doubles.observed != []
    modifies g, data
    ensures g.used >= old(g.used)
    ensures actual.None? ==>
              exists q :: old(g.used) <= q < g.used && StarvedBehind(g.draws, g.doubles, q, tries)
    ensures actual.Some? ==>
              && Known(g.draws, g.doubles, f, old(g.used), g.used, actual.value.multiplier)
              && Known(g.draws, g.doubles, f, old(g.used), g.used, actual.value.newMultiplier)
    ensures actual.Some? ==> Prepared(f, data[..], actual.value)
    ensures actual.Some? ==>
              StateDrawn(g.draws, g.doubles, f, immediate, old(g.used), tries, actual.value, g.used)
  {
    hide Sound, Prepared, ReadEconomic, ValidMultiplier, SameOutside, U64Of, I64FromLE, Wrap64, Known, StarvedBehind,
         StateDrawn;
    SoundFits(f);
    actual := DrawState(g, f, immediate, tries);
    if actual.None? {
      return;
    }
    var e := actual.value;
    WriteEconomic(data, f.scaled, LE(e.multiplier, 8), LE(e.newMultiplier, 8), e.t);
    BitsRoundTrip(e.multiplier);
    BitsRoundTrip(e.newMultiplier);
    InRangeUnwrapped(e.t);
    PreparedBy(f, data[..], e);
  }

  lemma InRangeUnwrapped(t: int)
    requires IsI64(t)
    ensures Wrap64(t) == t
  {
  }

  lemma SoundFits(f: Fixture)
    requires Sound(f)
    ensures f.scaled + CONFIG_LEN <= |f.data|
    ensures var e := ReadEconomic(f.data, f.scaled);
            ValidMultiplier(e.multiplier) && ValidMultiplier(e.newMultiplier) && IsI64(e.t)
  {
    hide ReadFrom, EntryOf, ValidMultiplier, ReadEconomic, EndOf;
    var at := ConfigOf(TOKEN_2022, f.data);
    GuardableFits(TOKEN_2022, f.data, f.scaled);
    StoredTimesAreI64(TOKEN_2022, f.data);
  }

  /** An honest request for the drawn state, before a category alters it. */
  function HonestRequest(f: Fixture, actual: Economic, phase: byte, before: u32, after: u32): RequestFields
    requires IsKey(f.mint)
  {
    RequestFields(KeyBytes(f.mint), LE(actual.multiplier, 8), LE(actual.newMultiplier, 8), actual.t, phase,
                  before, after, 1, seq(32, _ => 0))
  }

  /** A step from a time that stays inside i64, backwards if it must. */
  function Moved(t: int, d: int): int {
    if IsI64(t + d) then t + d else t - d
  }

  /** What a category makes of the honest request. */
  ghost predicate RequestFits(category: Category, fixtures: seq<Fixture>, f: Fixture, actual: Economic,
                              honest: RequestFields, r: RequestFields)
  {
    match category
    case StalePhase => r == honest.(phase := if honest.phase == 1 then 0 else 1)
    case StaleMultiplier => r == honest.(multiplier := r.multiplier) && U64Of(r.multiplier) != actual.multiplier
    case StaleNewMultiplier =>
      r == honest.(newMultiplier := r.newMultiplier) && U64Of(r.newMultiplier) != actual.newMultiplier
    case StaleTimestamp =>
      && r == honest.(t := r.t)
      && exists d :: d in {1, -1, 60, -86_400, 0x1_0000_0000} && r.t == Moved(actual.t, d)
    case ImmediateUpdateStale =>
      && r == honest.(multiplier := r.multiplier, newMultiplier := r.multiplier, t := r.t)
      && U64Of(r.multiplier) != actual.multiplier && actual.t - 86_400 <= r.t < actual.t
    case RequestInvalidFloat =>
      || (r == honest.(multiplier := r.multiplier) && !ValidMultiplier(U64Of(r.multiplier)))
      || (r == honest.(newMultiplier := r.newMultiplier) && !ValidMultiplier(U64Of(r.newMultiplier)))
    case RequestInvalidPhase => r == honest.(phase := r.phase) && 2 <= r.phase < 256
    case RequestUnknownAdapter =>
      r == honest.(adapter := r.adapter) && (r.adapter == 0 || 4 <= r.adapter < 256)
    case RequestJupiterAdapterOnTransfer => r == honest.(adapter := r.adapter) && 2 <= r.adapter <= 3
    case MintKeyDiffers =>
      && r == honest.(mint := r.mint)
      && exists other :: other in fixtures && other.mint != f.mint && r.mint == KeyBytes(other.mint)
    case _ => r == honest
  }

  /** What a category makes of the account. */
  predicate MintFits(category: Category, f: Fixture, owner: string, mint: seq<byte>) {
    && (owner != TOKEN_2022 <==> category == MintWrongOwner)
    && match category
       case MintNoExtensions => |mint| == 82
       case MintDuplicateTlv => |mint| == |f.data| + 60 && U16(mint, |f.data|) == 25
       case MintUnknownTlv => |mint| == |f.data| + 4 && U16(mint, |f.data|) >= 29
       case MintForbiddenCombination => |mint| == |f.data| + 56 && U16(mint, |f.data|) == 10
       case MintNotInitializedOrNotMint =>
         |mint| == |f.data| > 165 && (mint[45] == 0 || mint[165] in {0, 2, 3, 255})
       case MintTruncated => |mint| < |f.data|
       case PausedFresh =>
         && |mint| == |f.data|
         && (f.pausable.Some? && f.pausable.value + 33 <= |mint| ==> mint[f.pausable.value + 32] == 1)
       case _ => |mint| == |f.data|
  }

  /** And of the whole case. */
  ghost predicate PlanFits(category: Category, fixtures: seq<Fixture>, f: Fixture, actual: Economic,
                           honest: RequestFields, p: Plan)
  {
    && RequestFits(category, fixtures, f, actual, honest, p.request)
    && MintFits(category, f, p.owner, p.mint)
    && (p.flip.Some? <==> category == CommitmentMismatch)
    && (p.edit == Length <==> category == RequestBadLength)
    && (p.edit == Empty || p.edit.Version? <==> category == RequestBadVersion)
    && p.expected == ExpectationOf(category, p.edit)
  }

  /** The expectation written down in advance; the others are the policy's verdict. */
  function ExpectationOf(category: Category, edit: PayloadEdit): Option<Expectation> {
    match category
    case RequestBadVersion =>
      Some(Exactly(Block(if edit == Empty then UnsupportedInstruction else UnsupportedVersion)))
    case RequestBadLength => Some(Exactly(Block(InvalidInstructionLength)))
    case MintInvalidFloat => Some(Exactly(Block(InvalidMultiplier)))
    case RequestInvalidFloat => Some(Exactly(Block(InvalidExpectedState)))
    case RequestInvalidPhase => Some(Exactly(Block(InvalidExpectedState)))
    case RequestUnknownAdapter => Some(Exactly(Block(UnsupportedAdapter)))
    case RequestJupiterAdapterOnTransfer => Some(BlockAny)
    case MintKeyDiffers => Some(Exactly(Block(MintKeyMismatch)))
    case CommitmentMismatch => Some(Exactly(Block(DownstreamCommitmentMismatch)))
    case MintWrongOwner => Some(Exactly(Block(InvalidMintOwner)))
    case MintNoExtensions => Some(Exactly(Block(MissingScaledUiAmount)))
    case MintDuplicateTlv => Some(Exactly(Block(InvalidMintData)))
    case MintUnknownTlv => Some(Exactly(Block(InvalidMintData)))
    case MintForbiddenCombination => Some(Exactly(Block(InvalidExtensionCombination)))
    case MintNotInitializedOrNotMint => Some(Exactly(Block(InvalidMintData)))
    case _ => if category in {MintTruncated, MintRandomByteFlips} then Some(Unspecified) else None
  }

  /** Where the account or the payload is what a category changes, the request stays honest. */
  lemma HonestFits(category: Category, fixtures: seq<Fixture>, f: Fixture, actual: Economic, honest: RequestFields)
    requires BreaksTheMint(category)
             || category in {Fresh, PausedFresh, RequestBadVersion, RequestBadLength, CommitmentMismatch, MintTruncated,
                             MintRandomByteFlips}
    ensures RequestFits(category, fixtures, f, actual, honest, honest)
  {
  }

  /** Where the request is, the account stays as it is. */
  lemma SameMintFits(category: Category, f: Fixture, mint: seq<byte>)
    requires |mint| == |f.data| && category != MintTruncated && !BreaksTheMint(category)
    requires category == PausedFresh && f.pausable.Some? && f.pausable.value + 33 <= |mint| ==>
               mint[f.pausable.value + 32] == 1
    ensures MintFits(category, f, TOKEN_2022, mint)
  {
  }

  /** The request of the categories the specification decides. */
  method AlterRequest(g: Generator, category: Category, ghost fixtures: seq<Fixture>, ghost f: Fixture,
                      actual: Economic, honest: RequestFields, tries: nat)
    returns (altered: Option<RequestFields>)
    requires g.doubles.observed != [] && WellFormed(honest) && IsI64(actual.t) && honest.t == actual.t
    requires U64Of(honest.multiplier) == actual.multiplier && U64Of(honest.newMultiplier) == actual.newMultiplier
    modifies g
    ensures altered.None? ==> GivesUp(g.draws, g.doubles, actual, old(g.used), g.used, tries)
    ensures altered.Some? ==>
              && WellFormed(altered.value)
              && altered.value.mint == honest.mint && altered.value.adapter == honest.adapter
              && (IsI64(altered.value.t) || U64Of(altered.value.multiplier) != actual.multiplier)
              && (DecidedByTheSpec(category) ==>
                    RequestFits(category, fixtures, f, actual, honest, altered.value))
  {
    hide ValidMultiplier, U64Of, LE;
    match category
    case StalePhase => altered := Some(honest.(phase := if honest.phase == 1 then 0 else 1));
    case StaleMultiplier =>
      var other := g.OtherMultiplier(actual.multiplier, tries);
      if other.None? {
        return None;
      }
      BitsRoundTrip(other.value);
      altered := Some(honest.(multiplier := LE(other.value, 8)));
    case StaleNewMultiplier =>
      var other := g.OtherMultiplier(actual.newMultiplier, tries);
      if other.None? {
        return None;
      }
      BitsRoundTrip(other.value);
      altered := Some(honest.(newMultiplier := LE(other.value, 8)));
    case StaleTimestamp =>
      var delta: int := g.Pick([1, -1, 60, -86_400, 0x1_0000_0000]);
      var t := actual.t + delta;
      altered := Some(honest.(t := if IsI64(t) then t else actual.t - delta));
      assert altered.value.t == Moved(actual.t, delta);
    case ImmediateUpdateStale =>
      var previous := g.OtherMultiplier(actual.multiplier, tries);
      if previous.None? {
        return None;
      }
      BitsRoundTrip(previous.value);
      var k := g.Below(86_400);
      altered := Some(honest.(multiplier := LE(previous.value, 8), newMultiplier := LE(previous.value, 8),
                              t := actual.t - (1 + k)));
    case _ => altered := Some(honest);
  }

  /** A request the payload decoder must refuse with `error`, whatever its commitment. */
  ghost predicate Refused(r: RequestFields, error: GuardError) {
    var valid := ValidMultiplier(U64Of(r.multiplier)) && ValidMultiplier(U64Of(r.newMultiplier)) && r.phase % 256 <= 1;
    || (error == InvalidExpectedState && !valid)
    || (error == UnsupportedAdapter && valid && !(1 <= r.adapter % 256 <= 3))
  }

  method BreakRequest(g: Generator, category: Category, ghost fixtures: seq<Fixture>, ghost f: Fixture,
                      ghost actual: Economic, honest: RequestFields)
    returns (broken: RequestFields, ghost error: GuardError)
    requires WellFormed(honest)
    requires category == RequestInvalidFloat || category == RequestInvalidPhase || category == RequestUnknownAdapter
    modifies g
    ensures Refused(broken, error) && RequestFits(category, fixtures, f, actual, honest, broken)
    ensures error == if category == RequestUnknownAdapter then UnsupportedAdapter else InvalidExpectedState
  {
    hide ValidMultiplier, U64Of, LE;
    error := if category == RequestUnknownAdapter then UnsupportedAdapter else InvalidExpectedState;
    if category == RequestInvalidFloat {
      var first := g.Chance(2);
      var bits := g.InvalidMultiplierBits();
      BitsRoundTrip(bits);
      broken := if first then honest.(multiplier := LE(bits, 8)) else honest.(newMultiplier := LE(bits, 8));
    } else if category == RequestInvalidPhase {
      var k := g.Below(254);
      broken := honest.(phase := 2 + k);
    } else {
      var zero := g.Chance(4);
      if zero {
        broken := honest.(adapter := 0);
      } else {
        var k := g.Below(252);
        broken := honest.(adapter := 4 + k);
      }
    }
  }

  /** An invalid float over one of the two multipliers. */
  method SpoilFloat(g: Generator, f: Fixture, data: array<byte>, ghost actual: Economic)
    requires Prepared(f, data[..], actual) && f.scaled + CONFIG_LEN <= data.Length
    modifies g, data
    ensures DecodeProtectedState(TOKEN_2022, data[..]) == Unreadable(InvalidMultiplier)
  {
    hide Prepared, DecodeProtectedState, ValidMultiplier, U64Of, LE;
    ghost var was := data[..];
    var bits := g.InvalidMultiplierBits();
    var first := g.Chance(2);
    var slot := if first then 32 else 48;
    BitsRoundTrip(bits);
    Set(data, LE(bits, 8), f.scaled + slot);
    ghost var now := data[..];
    assert now == now[..f.scaled + slot + 8] + now[f.scaled + slot + 8..];
    BadFloat(f, was, now, actual, LE(bits, 8), slot);
  }

  predicate BreaksTheMint(category: Category) {
    category in {MintInvalidFloat, MintWrongOwner, MintNoExtensions, MintDuplicateTlv, MintUnknownTlv,
                 MintForbiddenCombination, MintNotInitializedOrNotMint}
  }

  function MintError(category: Category): GuardError
    requires BreaksTheMint(category)
  {
    match category
    case MintInvalidFloat => InvalidMultiplier
    case MintWrongOwner => InvalidMintOwner
    case MintNoExtensions => MissingScaledUiAmount
    case MintForbiddenCombination => InvalidExtensionCombination
    case _ => InvalidMintData
  }

  /** The mint of the categories that break the account; in place while the bytes keep their length. */
  method BreakMint(g: Generator, env: Env, category: Category, f: Fixture, data: array<byte>, ghost actual: Economic)
    returns (owner: string, mint: seq<byte>, ghost error: GuardError)
    requires Sound(f) && Prepared(f, data[..], actual) && g.doubles.observed != []
    requires env.otherOwner != TOKEN_2022
    requires BreaksTheMint(category)
    modifies g, data
    ensures DecodeProtectedState(owner, mint) == Unreadable(error)
    ensures error == MintError(category)
    ensures |mint| <= |f.data| + 60 && MintFits(category, f, owner, mint)
  {
    hide Sound, DecodeProtectedState, ReadEconomic, ValidMultiplier, SameOutside, U64Of, I64FromLE, Guardable, EndOf,
         ReadFrom, LE;
    owner := TOKEN_2022;
    PreparedFits(f, data[..], actual);
    ghost var was := data[..];
    if category == MintInvalidFloat {
      SpoilFloat(g, f, data, actual);
      mint := data[..];
      error := InvalidMultiplier;
    } else if category == MintWrongOwner {
      owner := g.Pick([LEGACY_TOKEN, SYSTEM_PROGRAM, env.otherOwner]);
      mint := data[..];
      error := InvalidMintOwner;
      OtherOwners(mint, owner, env.otherOwner);
    } else if category == MintNoExtensions {
      mint := data[..82];
      error := MissingScaledUiAmount;
      BrokenHeaders(was, f.scaled, 1, 1);
    } else if category == MintDuplicateTlv {
      mint := AppendDuplicate(g, f, data[..], actual);
      error := InvalidMintData;
    } else if category == MintUnknownTlv {
      mint := AppendUnknown(g, f, data[..], actual);
      error := InvalidMintData;
    } else if category == MintForbiddenCombination {
      var entry := [10, 0, 52, 0] + seq(52, _ => 0);
      mint := data[..] + entry;
      error := InvalidExtensionCombination;
      NoInterest(f, was, actual);
      AppendedInterest(was, entry, f.scaled);
    } else {
      SpoilHeader(g, f, data);
      mint := data[..];
      error := InvalidMintData;
    }
  }

  /** The config entry a second time, half the time with another multiplier. */
  method AppendDuplicate(g: Generator, f: Fixture, data: seq<byte>, ghost actual: Economic) returns (mint: seq<byte>)
    requires Prepared(f, data, actual) && g.doubles.observed != []
    modifies g
    ensures DecodeProtectedState(TOKEN_2022, mint) == Unreadable(InvalidMintData) && |mint| == |data| + 60
    ensures U16(mint, |data|) == SCALED_UI
  {
    hide DecodeProtectedState, ReadFrom, EndOf, ValidMultiplier, LE;
    PreparedFits(f, data, actual);
    var entry := data[f.scaled - 4..f.scaled + 56];
    assert entry[..4] == data[f.scaled - 4..f.scaled];
    var altered := g.Chance(2);
    if altered {
      var bits := g.ValidMultiplierBits();
      ghost var was := entry;
      entry := entry[..36] + LE(bits, 8) + entry[44..];
      assert entry[..4] == was[..36][..4] == was[..4];
    }
    DuplicateHeader(data, f.scaled, entry);
    AppendedCorruption(data, entry, f.scaled);
    mint := data + entry;
  }

  /** An empty entry of a kind no release of the token program knows. */
  method AppendUnknown(g: Generator, f: Fixture, data: seq<byte>, ghost actual: Economic) returns (mint: seq<byte>)
    requires Prepared(f, data, actual)
    modifies g
    ensures DecodeProtectedState(TOKEN_2022, mint) == Unreadable(InvalidMintData) && |mint| == |data| + 4
    ensures U16(mint, |data|) >= 29
  {
    hide DecodeProtectedState, ReadFrom, EndOf, LE;
    var k := g.Below(65_536 - 29);
    TwoBytes(29 + k, [0, 0]);
    AppendedCorruption(data, LE(29 + k, 2) + [0, 0], f.scaled);
    mint := data + (LE(29 + k, 2) + [0, 0]);
  }

  /** An uninitialized mint, or an account of another type. */
  method SpoilHeader(g: Generator, f: Fixture, data: array<byte>)
    requires Guardable(TOKEN_2022, data[..], f.scaled)
    modifies g, data
    ensures DecodeProtectedState(TOKEN_2022, data[..]) == Unreadable(InvalidMintData)
    ensures data.Length > 165 && (data[45] == 0 || data[165] in {0, 2, 3, 255})
  {
    hide DecodeProtectedState, ReadFrom;
    ghost var was := data[..];
    var state := g.Chance(2);
    if state {
      data[45] := 0;
      BrokenHeaders(was, f.scaled, 0, 1);
      assert data[..] == was[45 := 0];
    } else {
      var kind: byte := g.Pick([0, 2, 3, 255]);
      data[165] := kind;
      BrokenHeaders(was, f.scaled, 1, kind);
      assert data[..] == was[165 := kind];
    }
  }

  lemma PreparedFits(f: Fixture, mint: seq<byte>, actual: Economic)
    requires Prepared(f, mint, actual)
    ensures |mint| == |f.data| > MULTISIG_LEN && TLV_START + 4 <= f.scaled && f.scaled + CONFIG_LEN <= |mint|
  {
    hide DecodeProtectedState, ReadFrom, EndOf;
    GuardableFits(TOKEN_2022, mint, f.scaled);
  }

  lemma NoInterest(f: Fixture, mint: seq<byte>, actual: Economic)
    requires Sound(f) && Prepared(f, mint, actual)
    ensures ReadFrom(mint, TLV_START, {}).Entries? && 10 !in KindsOf(ReadFrom(mint, TLV_START, {}).list)
  {
  }

  lemma OtherOwners(mint: seq<byte>, owner: string, other: string)
    requires owner in [LEGACY_TOKEN, SYSTEM_PROGRAM, other] && other != TOKEN_2022
    ensures DecodeProtectedState(owner, mint) == Unreadable(InvalidMintOwner)
  {
    assert LEGACY_TOKEN[5] == 'k' && TOKEN_2022[5] == 'z' && SYSTEM_PROGRAM[0] == '1' && TOKEN_2022[0] == 'T';
  }

  lemma TwoBytes(n: nat, rest: seq<byte>)
    requires n < 0x1_0000
    ensures U16(LE(n, 2) + rest, 0) == n
  {
    assert LE(n, 2) == [n % 256] + LE(n / 256, 1);
    assert LE(n / 256, 1) == [n / 256 % 256] + LE(n / 256 / 256, 0);
  }

  lemma {:induction false} HeaderOfEntry(data: seq<byte>, offset: nat, seen: set<nat>, e: Entry)
    requires ReadFrom(data, offset, seen).Entries? && e in ReadFrom(data, offset, seen).list
    ensures offset + 4 <= e.at <= |data| && U16(data, e.at - 4) == e.kind && U16(data, e.at - 2) == e.length
    decreases |data| - offset
  {
    var length := U16(data, offset + 2);
    var first := Entry(U16(data, offset), length, offset + 4);
    if e != first {
      HeaderOfEntry(data, offset + 4 + length, seen + {U16(data, offset)}, e);
    }
  }

  /** The repeated entry starts with the header of the one it repeats. */
  lemma DuplicateHeader(mint: seq<byte>, at: nat, entry: seq<byte>)
    requires Guardable(TOKEN_2022, mint, at) && TLV_START + 4 <= at && at + CONFIG_LEN <= |mint|
    requires |entry| == 60 && entry[..4] == mint[at - 4..at]
    ensures U16(entry, 0) == SCALED_UI
  {
    HeaderOfEntry(mint, TLV_START, {}, Entry(SCALED_UI, CONFIG_LEN, at));
    assert entry[0] == entry[..4][0] && entry[1] == entry[..4][1];
  }

  /** What is done to the packed payload afterwards. */
  datatype PayloadEdit = Keep | Empty | Version(version: byte) | Length

  /** What is left of the packed payload: all of it, nothing, a part of it under another
      version, or a part of it or it with zeros behind. */
  predicate PayloadFits(edit: PayloadEdit, packed: seq<byte>, data: seq<byte>)
    requires |packed| == 99
  {
    match edit
    case Keep => data == packed
    case Empty => data == []
    case Version(version) => 1 <= |data| <= 99 && data == [version] + packed[1..|data|]
    case Length =>
      || (1 <= |data| < 99 && data == packed[..|data|])
      || (99 < |data| < 200 && data[..99] == packed && forall k :: 99 <= k < |data| ==> data[k] == 0)
  }

  method EditPayload(g: Generator, edit: PayloadEdit, packed: seq<byte>) returns (edited: seq<byte>)
    requires |packed| == 99 && packed[0] == 2
    requires edit.Version? ==> edit.version != 2
    modifies g
    ensures |edited| < 200 && PayloadFits(edit, packed, edited)
    ensures edit == Keep ==> edited == packed
    ensures edit == Empty ==> DecodePayload(edited) == Err(UnsupportedInstruction)
    ensures edit.Version? ==> DecodePayload(edited) == Err(UnsupportedVersion)
    ensures edit == Length ==> DecodePayload(edited) == Err(InvalidInstructionLength)
  {
    edited := packed;
    match edit
    case Keep =>
    case Empty => edited := [];
    case Version(version) =>
      var whole := g.Chance(2);
      if !whole {
        var k := g.Below(98);
        edited := packed[..1 + k];
      }
      edited := edited[0 := version];
    case Length =>
      var shorter := g.Chance(2);
      if shorter {
        var k := g.Below(98);
        edited := packed[..1 + k];
      } else {
        var k := g.Below(100);
        edited := packed + seq(1 + k, _ => 0);
      }
  }

  function FlipBit(b: byte, k: nat): (r: byte)
    requires k < 8
    ensures r != b
  {
    var bit: nat := [1, 2, 4, 8, 16, 32, 64, 128][k];
    if b / bit % 2 == 0 then b + bit else b - bit
  }

  // -------------------------------------------------------------- one case

  /** Why a case ends as it does: the stage at which the processor stops. */
  datatype Stage =
    | BadPayload(error: GuardError) | EditedPayload | OtherMint | BadAccount(error: GuardError)
    | Flipped | OtherKind | ByThePolicy | Undetermined

  datatype Plan = Plan(request: RequestFields, owner: string, mint: seq<byte>, edit: PayloadEdit,
                       flip: Option<(nat, nat)>, expected: Option<Expectation>)

  ghost predicate Planned(f: Fixture, stage: Stage, p: Plan, actual: Economic) {
    && (p.edit != Keep <==> stage == EditedPayload) && (p.edit.Version? ==> p.edit.version != 2)
    && (p.flip.Some? <==> stage == Flipped) && (p.flip.Some? ==> p.flip.value.0 < 32 && p.flip.value.1 < 8)
    && match stage
       case BadPayload(error) => Refused(p.request, error) && p.expected == Some(Exactly(Block(error)))
       case EditedPayload =>
         p.expected == Some(Exactly(Block(if p.edit == Empty then UnsupportedInstruction
                                          else if p.edit == Length then InvalidInstructionLength
                                          else UnsupportedVersion)))
       case OtherMint =>
         && WellFormed(p.request) && p.request.mint != KeyBytes(f.mint)
         && p.expected == Some(Exactly(Block(MintKeyMismatch)))
       case BadAccount(error) =>
         && WellFormed(p.request) && p.request.mint == KeyBytes(f.mint)
         && DecodeProtectedState(p.owner, p.mint) == Unreadable(error) && p.expected == Some(Exactly(Block(error)))
       case Undetermined => p.expected == Some(Unspecified)
       case _ =>
         && WellFormed(p.request) && p.request.mint == KeyBytes(f.mint)
         && DecodeProtectedState(p.owner, p.mint) == State(actual)
         && (p.request.adapter != 1 <==> stage == OtherKind)
         && match stage
            case Flipped => p.expected == Some(Exactly(Block(DownstreamCommitmentMismatch)))
            case OtherKind => p.expected == Some(BlockAny)
            case _ => p.expected == None
                      && (IsI64(p.request.t) || U64Of(p.request.multiplier) != actual.multiplier)
  }

  lemma RefusedDecodes(r: RequestFields, error: GuardError)
    requires Refused(r, error)
    ensures DecodePayload(Packed(r)) == Err(error)
  {
    hide ValidMultiplier, Packed, DecodePayload, U64Of;
    DecodeOfPacked(r);
  }

  /** Whatever stage a plan stops at, the expectation written on the case is the outcome. */
  lemma PlansAreLabelled(env: Env, f: Fixture, stage: Stage, p: Plan, actual: Economic, category: Category,
                         commitment: Bytes32, guardData: seq<byte>, clock: int, amount: nat, expected: Expectation)
    requires Planned(f, stage, p, actual)
    requires var c := CommitmentOf(env, TransferOf(env, f.mint, amount, f.decimals));
             if p.flip.Some? then commitment != c else commitment == c
    requires var packed := Packed(p.request.(commitment := commitment));
             && (p.edit == Keep ==> guardData == packed)
             && (p.edit == Empty ==> DecodePayload(guardData) == Err(UnsupportedInstruction))
             && (p.edit.Version? ==> DecodePayload(guardData) == Err(UnsupportedVersion))
             && (p.edit == Length ==> DecodePayload(guardData) == Err(InvalidInstructionLength))
    requires expected == match p.expected
                         case Some(e) => e
                         case None => Exactly(SpecVerdict(OnFields(p.request), actual, clock))
    ensures Labelled(env, Assemble(env, category, expected, f, p.owner, p.mint, guardData, clock,
                                   TransferOf(env, f.mint, amount, f.decimals)))
  {
    hide DecodePayload, Packed, DecodeProtectedState, KeyBytes, SpecVerdict, U64Of, DownstreamPreimage, Outcome,
         ValidMultiplier, TransferOf, SupportedTransfer;
    var transfer := TransferOf(env, f.mint, amount, f.decimals);
    var c := Assemble(env, category, expected, f, p.owner, p.mint, guardData, clock, transfer);
    var r := p.request.(commitment := commitment);
    FourAccounts(env, f, amount);
    match stage
    case BadPayload(error) =>
      RefusedDecodes(r, error);
      Undecodable(env, c);
    case EditedPayload => Undecodable(env, c);
    case OtherMint =>
      WellFormedDecodes(r);
      WrongKey(env, c);
    case BadAccount(error) =>
      WellFormedDecodes(r);
      BadMint(env, c);
    case Undetermined =>
    case Flipped =>
      WellFormedDecodes(r);
      WrongCommitment(env, c, f, transfer);
    case OtherKind =>
      WellFormedDecodes(r);
      WrongAdapter(env, c, f, transfer);
    case ByThePolicy =>
      WellFormedDecodes(r);
      ByPolicy(env, c, f, transfer);
      PackedVerdict(r, actual, clock);
  }

  lemma FourAccounts(env: Env, f: Fixture, amount: nat)
    ensures |TransferOf(env, f.mint, amount, f.decimals).accounts| == 4
    ensures SupportedTransfer(TransferOf(env, f.mint, amount, f.decimals), f.mint)
  {
  }

  predicate DecidedByTheSpec(category: Category) {
    category in {Fresh, StalePhase, StaleMultiplier, StaleNewMultiplier, StaleTimestamp, ImmediateUpdateStale,
                 PausedFresh}
  }

  /** Another adapter, or a payload altered after packing. */
  method DecidePayload(g: Generator, category: Category, ghost fixtures: seq<Fixture>, f: Fixture, mint: seq<byte>,
                       ghost actual: Economic, honest: RequestFields)
    returns (plan: Plan, ghost stage: Stage)
    requires category in {RequestJupiterAdapterOnTransfer, RequestBadVersion, RequestBadLength}
    requires Prepared(f, mint, actual) && WellFormed(honest) && honest.mint == KeyBytes(f.mint)
    modifies g
    ensures Planned(f, stage, plan, actual) && plan.mint == mint && stage != ByThePolicy
    ensures PlanFits(category, fixtures, f, actual, honest, plan)
  {
    hide DecodeProtectedState, ValidMultiplier, U64Of, Guardable, EndOf, ReadFrom, KeyBytes, SameOutside, MintFits;
    PreparedFits(f, mint, actual);
    SameMintFits(category, f, mint);
    if category == RequestJupiterAdapterOnTransfer {
      var buy := g.Chance(2);
      stage := OtherKind;
      plan := Plan(honest.(adapter := if buy then 2 else 3), TOKEN_2022, mint, Keep, None, Some(BlockAny));
    } else if category == RequestBadVersion {
      stage := EditedPayload;
      var empty := g.Chance(5);
      if empty {
        plan := Plan(honest, TOKEN_2022, mint, Empty, None, Some(Exactly(Block(UnsupportedInstruction))));
      } else {
        var version: byte := g.Pick([0, 1, 3, 255]);
        plan := Plan(honest, TOKEN_2022, mint, Version(version), None, Some(Exactly(Block(UnsupportedVersion))));
      }
    } else {
      stage := EditedPayload;
      plan := Plan(honest, TOKEN_2022, mint, Length, None, Some(Exactly(Block(InvalidInstructionLength))));
    }
  }

  /** The categories that leave payload and account sound, and the two without an expectation. */
  method DecideAlongside(g: Generator, category: Category, fixtures: seq<Fixture>, f: Fixture, data: array<byte>,
                         ghost actual: Economic, honest: RequestFields)
    returns (plan: Plan, ghost stage: Stage)
    requires Sound(f) && Prepared(f, data[..], actual) && WellFormed(honest)
    requires forall k :: 0 <= k < |fixtures| ==> Sound(fixtures[k])
    requires exists k :: 0 <= k < |fixtures| && fixtures[k].mint != f.mint
    requires honest.mint == KeyBytes(f.mint) && honest.adapter == 1
    requires category in {MintKeyDiffers, CommitmentMismatch, MintTruncated, MintRandomByteFlips}
    modifies g, data
    ensures Planned(f, stage, plan, actual) && |plan.mint| <= |f.data| + 60 && stage != ByThePolicy
    ensures PlanFits(category, fixtures, f, actual, honest, plan)
  {
    hide Sound, DecodeProtectedState, ValidMultiplier, U64Of, Guardable, EndOf, ReadFrom, LE, KeyBytes,
         SameOutside, IsKey;
    PreparedFits(f, data[..], actual);
    var owner := TOKEN_2022;
    if category == MintKeyDiffers {
      stage := OtherMint;
      var others := Others(fixtures, f.mint);
      var other := g.Pick(others);
      OtherKey(f, other);
      plan := Plan(honest.(mint := KeyBytes(other.mint)), owner, data[..], Keep, None,
                   Some(Exactly(Block(MintKeyMismatch))));
    } else if category == CommitmentMismatch {
      stage := Flipped;
      var at := g.Below(32);
      var bit := g.Below(8);
      plan := Plan(honest, owner, data[..], Keep, Some((at, bit)),
                   Some(Exactly(Block(DownstreamCommitmentMismatch))));
    } else {
      plan, stage := DecideSpoiled(g, category, fixtures, f, data, actual, honest);
    }
  }

  /** An account cut short or with flipped bytes, which may or may not still be read. */
  method DecideSpoiled(g: Generator, category: Category, ghost fixtures: seq<Fixture>, f: Fixture, data: array<byte>,
                       ghost actual: Economic, honest: RequestFields)
    returns (plan: Plan, ghost stage: Stage)
    requires category in {MintTruncated, MintRandomByteFlips} && data.Length == |f.data| > 0
    modifies g, data
    ensures Planned(f, stage, plan, actual) && |plan.mint| <= |f.data| && stage != ByThePolicy
    ensures PlanFits(category, fixtures, f, actual, honest, plan)
  {
    stage := Undetermined;
    if category == MintTruncated {
      var n := g.Below(data.Length);
      plan := Plan(honest, TOKEN_2022, data[..n], Keep, None, Some(Unspecified));
    } else {
      FlipBytes(g, data);
      plan := Plan(honest, TOKEN_2022, data[..], Keep, None, Some(Unspecified));
    }
  }

  /** A plan without an edit and without a flip fits by its request, its account and its error. */
  lemma PlainPlan(category: Category, fixtures: seq<Fixture>, f: Fixture, actual: Economic, honest: RequestFields,
                  p: Plan)
    requires RequestFits(category, fixtures, f, actual, honest, p.request) && MintFits(category, f, p.owner, p.mint)
    requires p.edit == Keep && p.flip == None
    requires BreaksTheMint(category)
             || category in {RequestInvalidFloat, RequestInvalidPhase, RequestUnknownAdapter}
    requires p.expected ==
             Some(Exactly(Block(if BreaksTheMint(category) then MintError(category)
                                else if category == RequestUnknownAdapter then UnsupportedAdapter
                                else InvalidExpectedState)))
    ensures PlanFits(category, fixtures, f, actual, honest, p)
  {
    hide RequestFits, MintFits;
  }

  /** The categories the generator labels itself. */
  method DecideBroken(g: Generator, env: Env, category: Category, fixtures: seq<Fixture>, f: Fixture, data: array<byte>,
                      actual: Economic, honest: RequestFields)
    returns (plan: Plan, ghost stage: Stage)
    requires !DecidedByTheSpec(category)
    requires g.doubles.observed != [] && env.otherOwner != TOKEN_2022
    requires Sound(f) && Prepared(f, data[..], actual) && WellFormed(honest)
    requires forall k :: 0 <= k < |fixtures| ==> Sound(fixtures[k])
    requires exists k :: 0 <= k < |fixtures| && fixtures[k].mint != f.mint
    requires honest.mint == KeyBytes(f.mint) && honest.adapter == 1
    modifies g, data
    ensures Planned(f, stage, plan, actual) && |plan.mint| <= |f.data| + 60 && stage != ByThePolicy
    ensures PlanFits(category, fixtures, f, actual, honest, plan)
  {
    hide Sound, DecodeProtectedState, ValidMultiplier, U64Of, Guardable, EndOf, ReadFrom, LE, KeyBytes,
         SameOutside, IsKey, RequestFits, MintFits, WellFormed, Refused, PlanFits, ExpectationOf;
    PreparedFits(f, data[..], actual);
    var owner := TOKEN_2022;
    if BreaksTheMint(category) {
      HonestFits(category, fixtures, f, actual, honest);
      ghost var error;
      var o, mint;
      o, mint, error := BreakMint(g, env, category, f, data, actual);
      stage := BadAccount(error);
      plan := Plan(honest, o, mint, Keep, None, Some(Exactly(Block(MintError(category)))));
      PlainPlan(category, fixtures, f, actual, honest, plan);
    } else if category in {RequestInvalidFloat, RequestInvalidPhase, RequestUnknownAdapter} {
      ghost var error;
      var broken;
      broken, error := BreakRequest(g, category, fixtures, f, actual, honest);
      SameMintFits(category, f, data[..]);
      stage := BadPayload(error);
      var e := if category == RequestUnknownAdapter then UnsupportedAdapter else InvalidExpectedState;
      plan := Plan(broken, owner, data[..], Keep, None, Some(Exactly(Block(e))));
      PlainPlan(category, fixtures, f, actual, honest, plan);
    } else if category in {RequestJupiterAdapterOnTransfer, RequestBadVersion, RequestBadLength} {
      plan, stage := DecidePayload(g, category, fixtures, f, data[..], actual, honest);
    } else {
      plan, stage := DecideAlongside(g, category, fixtures, f, data, actual, honest);
    }
  }

  /** The category's switch, from the honest request and the prepared account. */
  method Decide(g: Generator, env: Env, category: Category, fixtures: seq<Fixture>, f: Fixture, data: array<byte>,
                actual: Economic, honest: RequestFields, tries: nat)
    returns (plan: Option<Plan>, ghost stage: Stage)
    requires g.doubles.observed != [] && env.otherOwner != TOKEN_2022
    requires Sound(f) && Prepared(f, data[..], actual) && WellFormed(honest)
    requires forall k :: 0 <= k < |fixtures| ==> Sound(fixtures[k])
    requires exists k :: 0 <= k < |fixtures| && fixtures[k].mint != f.mint
    requires honest.mint == KeyBytes(f.mint) && honest.adapter == 1 && honest.t == actual.t
    requires U64Of(honest.multiplier) == actual.multiplier && U64Of(honest.newMultiplier) == actual.newMultiplier
    modifies g, data
    ensures plan.None? ==> GivesUp(g.draws, g.doubles, actual, old(g.used), g.used, tries)
    ensures plan.Some? ==> Planned(f, stage, plan.value, actual) && |plan.value.mint| <= |f.data| + 60
    ensures plan.Some? ==> PlanFits(category, fixtures, f, actual, honest, plan.value)
    ensures plan.Some? ==> (stage == ByThePolicy <==> DecidedByTheSpec(category))
  {
    hide Sound, Prepared, DecodeProtectedState, ValidMultiplier, U64Of, Guardable, EndOf, ReadFrom, LE, KeyBytes,
         SameOutside, IsKey, RequestFits, MintFits, WellFormed;
    PreparedFits(f, data[..], actual);
    PreparedState(f, data[..], actual);
    if DecidedByTheSpec(category) {
      stage := ByThePolicy;
      if category == PausedFresh && f.pausable.Some? {
        Pause(f, data, actual);
      }
      var altered := AlterRequest(g, category, fixtures, f, actual, honest, tries);
      if altered.None? {
        return None, stage;
      }
      SameMintFits(category, f, data[..]);
      plan := Some(Plan(altered.value, TOKEN_2022, data[..], Keep, None, None));
    } else {
      var broken;
      broken, stage := DecideBroken(g, env, category, fixtures, f, data, actual, honest);
      plan := Some(broken);
    }
  }

  /** Sets the pausable flag, which the guard does not read. */
  method Pause(f: Fixture, data: array<byte>, ghost actual: Economic)
    requires Sound(f) && Prepared(f, data[..], actual) && f.pausable.Some?
    modifies data
    ensures DecodeProtectedState(TOKEN_2022, data[..]) == State(actual)
    ensures f.pausable.value + 33 <= data.Length && data[f.pausable.value + 32] == 1
  {
    ghost var was := data[..];
    ghost var e := Entry(26, 33, f.pausable.value);
    PausableFits(f, was, actual);
    hide DecodeProtectedState, ReadFrom, EndOf, Guardable, SameOutside, Sound, Prepared;
    data[f.pausable.value + 32] := 1;
    EditedElsewhere(was, data[..], e, f.scaled);
  }

  lemma PausableFits(f: Fixture, mint: seq<byte>, actual: Economic)
    requires Sound(f) && Prepared(f, mint, actual) && f.pausable.Some?
    ensures f.pausable.value + 33 <= |mint|
    ensures Guardable(TOKEN_2022, mint, f.scaled) && DecodeProtectedState(TOKEN_2022, mint) == State(actual)
    ensures ReadFrom(mint, TLV_START, {}).Entries?
            && Entry(26, 33, f.pausable.value) in ReadFrom(mint, TLV_START, {}).list
  {
    hide DecodeProtectedState, EndOf;
    EntriesFit(mint, TLV_START, {});
  }

  /** One to three bytes each replaced by another. */
  method FlipBytes(g: Generator, data: array<byte>)
    requires data.Length > 0
    modifies g, data
  {
    var flips := g.Below(3);
    for i := 0 to 1 + flips {
      var at := g.Below(data.Length);
      var x: byte := g.Below(255);
      data[at] := ((data[at] as bv8) ^ ((1 + x) as bv8)) as int;
    }
  }

  function Others(fixtures: seq<Fixture>, mint: string): (o: seq<Fixture>)
    ensures forall x :: x in o <==> x in fixtures && x.mint != mint
  {
    if fixtures == [] then []
    else (if fixtures[0].mint != mint then [fixtures[0]] else []) + Others(fixtures[1..], mint)
  }

  lemma OtherKey(f: Fixture, other: Fixture)
    requires Sound(f) && Sound(other) && f.mint != other.mint
    ensures IsKey(other.mint) && |KeyBytes(other.mint)| == 32 && KeyBytes(other.mint) != KeyBytes(f.mint)
  {
    if KeyBytes(other.mint) == KeyBytes(f.mint) {
      KeysAreInjective(other.mint, f.mint);
    }
  }

  method PackAndEdit(g: Generator, r: RequestFields, edit: PayloadEdit) returns (edited: seq<byte>)
    requires edit.Version? ==> edit.version != 2
    modifies g
    ensures |edited| < 200 && PayloadFits(edit, Packed(r), edited)
    ensures edit == Keep ==> edited == Packed(r)
    ensures edit == Empty ==> DecodePayload(edited) == Err(UnsupportedInstruction)
    ensures edit.Version? ==> DecodePayload(edited) == Err(UnsupportedVersion)
    ensures edit == Length ==> DecodePayload(edited) == Err(InvalidInstructionLength)
  {
    hide Packed, DecodePayload;
    var packed := PackV2(r);
    PackedStart(r);
    edited := EditPayload(g, edit, packed[..]);
  }

  /** One bit of a commitment turned over. */
  function Flip(commitment: Bytes32, at: nat, bit: nat): (flipped: Bytes32)
    requires at < 32 && bit < 8
    ensures flipped != commitment
  {
    var flipped := commitment[at := FlipBit(commitment[at], bit)];
    assert flipped[at] != commitment[at];
    flipped
  }

  /** The case is made of the plan: its account, its edited payload, and the transfer of
      some amount the payload commits to, truly unless a bit was turned over. */
  ghost predicate Carries(env: Env, f: Fixture, p: Plan, clock: int, c: GuardCase) {
    && c.mintKey == f.mint && c.mintOwner == p.owner && c.mintData == p.mint
    && c.clock == clock && c.currentIndex == 0
    && exists amount: nat, commitment: Bytes32 :: Signs(env, f, p, c, amount, commitment)
  }

  predicate Signs(env: Env, f: Fixture, p: Plan, c: GuardCase, amount: nat, commitment: Bytes32) {
    var transfer := TransferOf(env, f.mint, amount, f.decimals);
    && 1 <= amount <= 1_000_000_000
    && c.instructions == [GuardInstruction(EQUITY_GUARD, f.mint, c.guardData), transfer]
    && (commitment == CommitmentOf(env, transfer) <==> p.flip.None?)
    && PayloadFits(p.edit, Packed(p.request.(commitment := commitment)), c.guardData)
  }

  /** The transfer, its commitment, the packed payload and the expectation of a planned case. */
  method Finish(g: Generator, env: Env, category: Category, f: Fixture, p: Plan, ghost stage: Stage, actual: Economic,
                clock: int)
    returns (c: GuardCase)
    requires Planned(f, stage, p, actual)
    modifies g
    ensures Labelled(env, c) && c.category == category && Carries(env, f, p, clock, c)
    ensures c.expected == p.expected.GetOr(Exactly(SpecVerdict(OnFields(p.request), actual, clock)))
    ensures |c.guardData| < 200 && |c.instructions| == 2 && c.currentIndex == 0
    ensures forall i :: i in c.instructions ==> |i.accounts| <= 4 && |i.data| < 200
  {
    hide Planned, DecodeProtectedState, U64Of, Packed, KeyBytes, Labelled, SpecVerdict, CommitmentOf, DecodePayload,
         TransferOf, SupportedTransfer, OnFields, Flip, LE, FromLE, PayloadFits;
    var k := g.Below(1_000_000_000);
    var transfer := TransferOf(env, f.mint, 1 + k, f.decimals);
    var commitment := CommitmentOf(env, transfer);
    PlannedFlip(f, stage, p, actual);
    if p.flip.Some? {
      commitment := Flip(commitment, p.flip.value.0, p.flip.value.1);
    }
    var guardData := PackAndEdit(g, p.request.(commitment := commitment), p.edit);
    var expected: Expectation;
    if p.expected.Some? {
      expected := p.expected.value;
    } else {
      expected := Exactly(SpecVerdict(OnFields(p.request), actual, clock));
    }
    PlansAreLabelled(env, f, stage, p, actual, category, commitment, guardData, clock, 1 + k, expected);
    FourAccounts(env, f, 1 + k);
    TransferSize(env, f, 1 + k);
    c := Assemble(env, category, expected, f, p.owner, p.mint, guardData, clock, transfer);
    assert Signs(env, f, p, c, 1 + k, commitment);
  }

  /** How a case begins: a fixture, the state its chain holds, a window and a clock. */
  datatype Opening = Opening(f: Fixture, actual: Economic, before: u32, after: u32, clock: int)

  /** It is the one the stream gives from here on. */
  ghost predicate Opens(draws: Stream, doubles: Doubles, fixtures: seq<Fixture>, immediate: bool, at: nat,
                        tries: nat, o: Opening)
    requires fixtures != [] && doubles.observed != []
  {
    && o.f == fixtures[draws(at) % |fixtures|]
    && exists next: nat ::
         && StateDrawn(draws, doubles, o.f, immediate, at + 1, tries, o.actual, next)
         && ((o.before, o.after), WindowOf(draws, next).1) == WindowOf(draws, next)
         && IsI64(o.actual.t)
         && o.clock == ClockOf(draws, o.actual.t, o.before, o.after, WindowOf(draws, next).1).0
  }

  /** The honest request for what a case begins with: the chain's state, the phase its
      clock is in, and the window. */
  ghost predicate Honest(o: Opening, r: RequestFields) {
    && r.mint == KeyBytes(o.f.mint) && r.adapter == 1 && r.commitment == seq(32, _ => 0)
    && U64Of(r.multiplier) == o.actual.multiplier && U64Of(r.newMultiplier) == o.actual.newMultiplier
    && r.t == o.actual.t && r.phase == (if o.clock < o.actual.t then 0 else 1)
    && r.beforeSecs == o.before && r.afterSecs == o.after
  }

  /** The case is made of what it begins with as its category says, and carries the
      expectation written down for the category or else the policy's verdict. */
  ghost predicate IsCase(env: Env, fixtures: seq<Fixture>, o: Opening, c: GuardCase) {
    exists honest: RequestFields, p: Plan :: IsCaseBy(env, fixtures, o, honest, p, c)
  }

  ghost predicate IsCaseBy(env: Env, fixtures: seq<Fixture>, o: Opening, honest: RequestFields, p: Plan, c: GuardCase)
  {
    && Honest(o, honest) && PlanFits(c.category, fixtures, o.f, o.actual, honest, p)
    && Carries(env, o.f, p, o.clock, c)
    && c.expected == p.expected.GetOr(Exactly(SpecVerdict(OnFields(p.request), o.actual, o.clock)))
  }

  /** The category is the one whose stretch of the weights holds the draw. */
  ghost predicate DrawnCategory(draws: Stream, at: nat, category: Category) {
    exists k: nat ::
      k < 24 && category == CATEGORIES[k] && Sum(WEIGHTS[..k]) <= draws(at) % 1000 < Sum(WEIGHTS[..k + 1])
  }

  /** The case is the one of its category the stream gives from here on. */
  ghost predicate DrawnCase(env: Env, draws: Stream, doubles: Doubles, fixtures: seq<Fixture>, at: nat, tries: nat,
                            c: GuardCase)
    requires fixtures != [] && doubles.observed != []
  {
    exists o: Opening ::
      && Opens(draws, doubles, fixtures, c.category == ImmediateUpdateStale, at, tries, o)
      && IsCase(env, fixtures, o, c)
  }

  lemma CaseIsDrawn(env: Env, draws: Stream, doubles: Doubles, fixtures: seq<Fixture>, at: nat, tries: nat,
                    o: Opening, c: GuardCase)
    requires fixtures != [] && doubles.observed != []
    requires Opens(draws, doubles, fixtures, c.category == ImmediateUpdateStale, at, tries, o)
    requires IsCase(env, fixtures, o, c)
    ensures DrawnCase(env, draws, doubles, fixtures, at, tries, c)
  {
    hide Opens, IsCase;
  }

  /** What the labels of the categories the specification decides can be. */
  predicate PolicyLabelled(c: GuardCase) {
    match c.category
    case StaleMultiplier => c.expected == Exactly(Block(MultiplierChanged))
    case ImmediateUpdateStale => c.expected == Exactly(Block(MultiplierChanged))
    case StaleNewMultiplier => c.expected == Exactly(Block(NewMultiplierChanged))
    case StaleTimestamp => c.expected == Exactly(Block(EffectiveTimestampChanged))
    case StalePhase =>
      c.expected in {Exactly(Allow), Exactly(Block(InsideTransitionWindow)), Exactly(Block(ArithmeticOverflow)),
                     Exactly(Block(ActivationPhaseChanged))}
    case Fresh => c.expected in {Exactly(Allow), Exactly(Block(InsideTransitionWindow)),
                                 Exactly(Block(ArithmeticOverflow))}
    case PausedFresh => c.expected in {Exactly(Allow), Exactly(Block(InsideTransitionWindow)),
                                       Exactly(Block(ArithmeticOverflow))}
    case _ => true
  }

  method OpenCase(g: Generator, immediate: bool, fixtures: seq<Fixture>, tries: nat)
    returns (begun: Option<Opening>, data: array<byte>, ghost f: Fixture)
    requires g.doubles.observed != [] && fixtures != []
    requires forall k :: 0 <= k < |fixtures| ==> Sound(fixtures[k])
    modifies g
    ensures fresh(data) && g.used >= old(g.used) && f in fixtures
    ensures begun.None? ==>
              exists q :: old(g.used) <= q < g.used && StarvedBehind(g.draws, g.doubles, q, tries)
    ensures begun.Some? ==>
              && begun.value.f == f
              && Opens(g.draws, g.doubles, fixtures, immediate, old(g.used), tries, begun.value)
              && Prepared(f, data[..], begun.value.actual) && IsI64(begun.value.clock)
              && Known(g.draws, g.doubles, f, old(g.used), g.used, begun.value.actual.multiplier)
              && Known(g.draws, g.doubles, f, old(g.used), g.used, begun.value.actual.newMultiplier)
  {
    hide Sound, Prepared, StateDrawn, WindowOf, ClockOf, StarvedBehind, Known, Opens;
    ghost var start := g.used;
    var fixture := g.Pick(fixtures);
    f := fixture;
    data := new byte[|fixture.data|](i requires 0 <= i < |fixture.data| => fixture.data[i]);
    assert data[..] == fixture.data;
    var drawn := DrawActual(g, fixture, data, immediate, tries);
    if drawn.None? {
      return None, data, f;
    }
    var actual := drawn.value;
    ghost var next := g.used;
    var before, after := g.Window();
    PreparedState(fixture, data[..], actual);
    var clock := g.ClockNear(actual.t, before, after);
    begun := Some(Opening(fixture, actual, before, after, clock));
    OpensBy(g.draws, g.doubles, fixtures, immediate, start, tries, begun.value, next);
    KnownLater(g.draws, g.doubles, f, start + 1, next, start, g.used, actual.multiplier);
    KnownLater(g.draws, g.doubles, f, start + 1, next, start, g.used, actual.newMultiplier);
  }

  lemma OpensBy(draws: Stream, doubles: Doubles, fixtures: seq<Fixture>, immediate: bool, at: nat, tries: nat,
                o: Opening, next: nat)
    requires fixtures != [] && doubles.observed != [] && o.f == fixtures[draws(at) % |fixtures|]
    requires StateDrawn(draws, doubles, o.f, immediate, at + 1, tries, o.actual, next) && IsI64(o.actual.t)
    requires (o.before, o.after) == WindowOf(draws, next).0
    requires o.clock == ClockOf(draws, o.actual.t, o.before, o.after, WindowOf(draws, next).1).0
    ensures Opens(draws, doubles, fixtures, immediate, at, tries, o)
  {
    hide StateDrawn, WindowOf, ClockOf;
  }

  lemma KnownLater(draws: Stream, doubles: Doubles, f: Fixture, a: nat, b: nat, start: nat, end: nat, x: u64)
    requires doubles.observed != [] && Known(draws, doubles, f, a, b, x) && start <= a && b <= end
    ensures Known(draws, doubles, f, start, end, x)
  {
    hide DrawnAt, ReadEconomic;
  }

  /** What is common to all cases, whatever they are made of. */
  ghost predicate Complete(env: Env, c: GuardCase, f: Fixture) {
    && Labelled(env, c) && PolicyLabelled(c) && |c.mintData| <= |f.data| + 60
    && |c.guardData| < 200 && |c.instructions| == 2 && c.currentIndex == 0
    && (forall i :: i in c.instructions ==> |i.accounts| <= 4 && |i.data| < 200)
  }

  /** The honest request, what the category makes of it, and the case. */
  method CloseCase(g: Generator, env: Env, category: Category, fixtures: seq<Fixture>, o: Opening, data: array<byte>,
                   tries: nat)
    returns (c: Option<GuardCase>)
    requires g.doubles.observed != [] && env.otherOwner != TOKEN_2022
    requires forall k :: 0 <= k < |fixtures| ==> Sound(fixtures[k])
    requires exists k :: 0 <= k < |fixtures| && fixtures[k].mint != o.f.mint
    requires Sound(o.f) && Prepared(o.f, data[..], o.actual)
    modifies g, data
    ensures c.None? ==> GivesUp(g.draws, g.doubles, o.actual, old(g.used), g.used, tries)
    ensures c.Some? ==> c.value.category == category && c.value.clock == o.clock && Complete(env, c.value, o.f)
    ensures c.Some? ==> IsCase(env, fixtures, o, c.value)
  {
    hide Sound, Prepared, Planned, DecodeProtectedState, ValidMultiplier, U64Of, Packed, KeyBytes, Labelled,
         SpecVerdict, LE, IsKey, DecodePayload, RequestFits, MintFits, Carries, GivesUp, PolicyLabelled,
         ExpectationOf;
    SoundKey(o.f);
    PreparedState(o.f, data[..], o.actual);
    var phase: byte := if o.clock >= o.actual.t then 1 else 0;
    var honest := HonestRequest(o.f, o.actual, phase, o.before, o.after);
    BitsRoundTrip(o.actual.multiplier);
    BitsRoundTrip(o.actual.newMultiplier);
    ghost var stage;
    var plan;
    plan, stage := Decide(g, env, category, fixtures, o.f, data, o.actual, honest, tries);
    if plan.None? {
      return None;
    }
    var closed := Finish(g, env, category, o.f, plan.value, stage, o.actual, o.clock);
    Unexpected(category, plan.value.edit);
    PolicyLabels(fixtures, o, honest, plan.value, closed);
    CarriedParts(env, o.f, plan.value, o.clock, closed);
    assert IsCaseBy(env, fixtures, o, honest, plan.value, closed);
    c := Some(closed);
  }

  /** `generateCase`: for every stream, every case is the one the stream gives, and carries
      the program's own verdict. */
  method GenerateCase(g: Generator, env: Env, fixtures: seq<Fixture>, tries: nat) returns (generated: Option<GuardCase>)
    requires g.doubles.observed != [] && env.otherOwner != TOKEN_2022
    requires forall k :: 0 <= k < |fixtures| ==> Sound(fixtures[k])
    requires exists j, k :: 0 <= j < k < |fixtures| && fixtures[j].mint != fixtures[k].mint
    modifies g
    ensures generated.None? ==>
              exists f :: f in fixtures && OutOfTries(g.draws, g.doubles, f, old(g.used), g.used, tries)
    ensures generated.Some? ==> Labelled(env, generated.value) && IsI64(generated.value.clock)
    ensures generated.Some? ==> exists f :: f in fixtures && Complete(env, generated.value, f)
    ensures generated.Some? ==>
              && DrawnCategory(g.draws, old(g.used), generated.value.category)
              && DrawnCase(env, g.draws, g.doubles, fixtures, old(g.used) + 1, tries, generated.value)
  {
    hide Sound, Prepared, Opens, StarvedBehind, Sum, GivesUp, IsCase, Labelled, PolicyLabelled, Known,
         DrawnCase, OutOfTries;
    ghost var start := g.used;
    var index := g.PickCategory();
    WeightsSumTo1000();
    var category := CATEGORIES[index];
    assert DrawnCategory(g.draws, start, category);
    ghost var f;
    var begun, data;
    begun, data, f := OpenCase(g, category == ImmediateUpdateStale, fixtures, tries);
    if begun.None? {
      RunsOutBehind(g.draws, g.doubles, f, start + 1, start, g.used, tries);
      return None;
    }
    var o := begun.value;
    AnotherMint(fixtures, f);
    ghost var behind := g.used;
    generated := CloseCase(g, env, category, fixtures, o, data, tries);
    if generated.None? {
      KnownLater(g.draws, g.doubles, f, start + 1, behind, start, behind, o.actual.multiplier);
      KnownLater(g.draws, g.doubles, f, start + 1, behind, start, behind, o.actual.newMultiplier);
      RunsOut(g.draws, g.doubles, f, o.actual, start, behind, g.used, tries);
    } else {
      CaseIsDrawn(env, g.draws, g.doubles, fixtures, start + 1, tries, o, generated.value);
    }
  }

  lemma AnotherMint(fixtures: seq<Fixture>, f: Fixture)
    requires exists j, k :: 0 <= j < k < |fixtures| && fixtures[j].mint != fixtures[k].mint
    ensures exists k :: 0 <= k < |fixtures| && fixtures[k].mint != f.mint
  {
  }

  lemma CarriedParts(env: Env, f: Fixture, p: Plan, clock: int, c: GuardCase)
    requires Carries(env, f, p, clock, c)
    ensures c.clock == clock && c.mintData == p.mint
  {
  }

  lemma Unexpected(category: Category, edit: PayloadEdit)
    ensures DecidedByTheSpec(category) ==> ExpectationOf(category, edit) == None
  {
  }

  lemma RunsOutBehind(draws: Stream, doubles: Doubles, f: Fixture, a: nat, start: nat, end: nat, tries: nat)
    requires doubles.observed != [] && start <= a
    requires exists q :: a <= q < end && StarvedBehind(draws, doubles, q, tries)
    ensures OutOfTries(draws, doubles, f, start, end, tries)
  {
    hide StarvedBehind, Known;
  }

  lemma RunsOut(draws: Stream, doubles: Doubles, f: Fixture, actual: Economic, start: nat, behind: nat, end: nat,
                tries: nat)
    requires doubles.observed != [] && start <= behind && GivesUp(draws, doubles, actual, behind, end, tries)
    requires Known(draws, doubles, f, start, behind, actual.multiplier)
    requires Known(draws, doubles, f, start, behind, actual.newMultiplier)
    ensures OutOfTries(draws, doubles, f, start, end, tries)
  {
    hide Known, Behind, Starved;
  }

  function IndexOf(category: Category): (k: nat)
    ensures k < |CATEGORIES| == 24 && CATEGORIES[k] == category
  {
    match category
    case Fresh => 0
    case StalePhase => 1
    case StaleMultiplier => 2
    case StaleNewMultiplier => 3
    case StaleTimestamp => 4
    case ImmediateUpdateStale => 5
    case PausedFresh => 6
    case MintInvalidFloat => 7
    case RequestInvalidFloat => 8
    case RequestInvalidPhase => 9
    case RequestUnknownAdapter => 10
    case RequestJupiterAdapterOnTransfer => 11
    case RequestBadVersion => 12
    case RequestBadLength => 13
    case MintKeyDiffers => 14
    case CommitmentMismatch => 15
    case MintWrongOwner => 16
    case MintNoExtensions => 17
    case MintDuplicateTlv => 18
    case MintUnknownTlv => 19
    case MintForbiddenCombination => 20
    case MintNotInitializedOrNotMint => 21
    case MintTruncated => 22
    case MintRandomByteFlips => 23
  }

  /** Every category is drawn by some stream. */
  lemma EveryCategoryIsDrawn(category: Category)
    ensures exists draws: Stream :: DrawnCategory(draws, 0, category)
  {
    hide Sum;
    var k := IndexOf(category);
    WeightsSumTo1000();
    SumPrefix(WEIGHTS, k);
    assert WEIGHTS[k] > 0;
    var r := Sum(WEIGHTS[..k]);
    assert Three(r, 0, 0)(0) % 1000 == r;
    assert DrawnCategory(Three(r, 0, 0), 0, category);
  }

  lemma SoundKey(f: Fixture)
    requires Sound(f)
    ensures IsKey(f.mint) && |KeyBytes(f.mint)| == 32
  {
  }

  lemma PreparedState(f: Fixture, mint: seq<byte>, actual: Economic)
    requires Prepared(f, mint, actual)
    ensures IsI64(actual.t) && ValidMultiplier(actual.multiplier) && ValidMultiplier(actual.newMultiplier)
    ensures DecodeProtectedState(TOKEN_2022, mint) == State(actual)
  {
  }

  lemma PlannedFlip(f: Fixture, stage: Stage, p: Plan, actual: Economic)
    requires Planned(f, stage, p, actual)
    ensures p.flip.Some? ==> p.flip.value.0 < 32 && p.flip.value.1 < 8
    ensures p.edit.Version? ==> p.edit.version != 2
    ensures stage == ByThePolicy ==> p.expected == None
  {
  }

  lemma PackedStart(r: RequestFields)
    ensures |Packed(r)| == 99 && Packed(r)[0] == 2
  {
  }

  lemma TransferSize(env: Env, f: Fixture, amount: nat)
    ensures |TransferOf(env, f.mint, amount, f.decimals).data| == 10
  {
  }

  /** Each stale category breaks its own field and no earlier one; a fresh request breaks none. */
  lemma PolicyLabels(fixtures: seq<Fixture>, o: Opening, honest: RequestFields, p: Plan, c: GuardCase)
    requires Honest(o, honest) && RequestFits(c.category, fixtures, o.f, o.actual, honest, p.request)
    requires DecidedByTheSpec(c.category) ==>
               c.expected == Exactly(SpecVerdict(OnFields(p.request), o.actual, o.clock))
    ensures PolicyLabelled(c)
  {
    hide U64Of, LE, KeyBytes;
  }
}
