/** The guard's economic policy: which signed expectation may execute against
    which mint state at which chain time. Multipliers are the 64-bit patterns
    of their eight stored bytes, so equality of patterns is byte equality. */
module Guard {
  import opened Bytes

  /** The program's error names, in the order of their codes 0..38. */
  datatype GuardError =
    | UnsupportedInstruction | InvalidInstructionLength | InvalidExpectedState
    | InvalidAccountCount | InvalidMintOwner | InvalidMintData
    | MissingScaledUiAmount | InvalidExtensionCombination | InvalidMultiplier
    | MultiplierChanged | NewMultiplierChanged | EffectiveTimestampChanged
    | ActivationPhaseChanged | InsideTransitionWindow | ArithmeticOverflow
    | ClockUnavailable | UnsupportedVersion | MintKeyMismatch
    | InvalidInstructionsSysvar | MissingDownstreamInstruction
    | UnsupportedDownstreamProgram | UnsupportedDownstreamInstruction
    | DownstreamMintMismatch | DownstreamCommitmentMismatch | UnsupportedAdapter
    | GuardNotTopLevel | GuardNotFirst | UnsupportedTransactionGrammar
    | InvalidComputeBudgetInstruction | InvalidAtaSetup | InvalidJupiterProgram
    | InvalidJupiterInstruction | InvalidJupiterDirection | InvalidCounterMint
    | InvalidTokenProgram | DestinationOverrideUnsupported | UnsupportedJupiterFee
    | NonCanonicalSourceAccount | NonCanonicalDestinationAccount

  datatype Verdict = Allow | Block(error: GuardError)
  {
    /** The next row of a table of ordered checks: the first that fails decides. */
    function BlockIf(fails: bool, e: GuardError): Verdict {
      if this != Allow then this else if fails then Block(e) else Allow
    }

    function Then(next: Verdict): Verdict {
      if this != Allow then this else next
    }
  }

  const PENDING: byte := 0
  const ACTIVATED: byte := 1

  /** The protected fields of a mint: the multiplier before `t` and the one from `t` on. */
  datatype Economic = Economic(multiplier: u64, newMultiplier: u64, t: int)

  /** What a signed guard instruction expects of the mint and the clock. */
  datatype Request = Request(expected: Economic, phase: byte, before: u32, after: u32)

  predicate HasScheduledChange(e: Economic) {
    e.multiplier != e.newMultiplier
  }

  function PhaseAt(e: Economic, now: int): byte {
    if now >= e.t then ACTIVATED else PENDING
  }

  /** The policy as the differential harness restates it: stored identity, then
      the refusal window with i64-bounded ends, then the phase. */
  function SpecVerdict(request: Request, actual: Economic, now: int): Verdict {
    if request.expected.multiplier != actual.multiplier then Block(MultiplierChanged)
    else if request.expected.newMultiplier != actual.newMultiplier then Block(NewMultiplierChanged)
    else if request.expected.t != actual.t then Block(EffectiveTimestampChanged)
    else if actual.multiplier == actual.newMultiplier then Allow
    else
      var start := actual.t - request.before;
      var end := actual.t + request.after;
      if start < I64_MIN || end > I64_MAX then Block(ArithmeticOverflow)
      else if start <= now <= end then Block(InsideTransitionWindow)
      else if PhaseAt(actual, now) == request.phase then Allow
      else Block(ActivationPhaseChanged)
  }

  // ------------------------------------------------- the program's own check

  datatype Checked = InRange(value: int) | Overflowed

  function CheckedI64(x: int): Checked {
    if IsI64(x) then InRange(x) else Overflowed
  }

  datatype Contains = Contains(inside: bool) | Overflow

  /** `ProtectionWindow::contains`: the two bounds are computed in i64, the lower first. */
  function WindowContains(before: u32, after: u32, activation: int, now: int): Contains {
    match CheckedI64(activation - before)
    case Overflowed => Overflow
    case InRange(start) =>
      match CheckedI64(activation + after)
      case Overflowed => Overflow
      case InRange(end) => Contains(start <= now && now <= end)
  }

  /** `guard::check` of the on-chain program. */
  function ProgramCheck(request: Request, actual: Economic, now: int): Verdict {
    if actual.multiplier != request.expected.multiplier then Block(MultiplierChanged)
    else if actual.newMultiplier != request.expected.newMultiplier then Block(NewMultiplierChanged)
    else if actual.t != request.expected.t then Block(EffectiveTimestampChanged)
    else if !HasScheduledChange(actual) then Allow
    else
      match WindowContains(request.before, request.after, actual.t, now)
      case Overflow => Block(ArithmeticOverflow)
      case Contains(inside) =>
        if inside then Block(InsideTransitionWindow)
        else if PhaseAt(actual, now) != request.phase then Block(ActivationPhaseChanged)
        else Allow
  }

  /** Checked i64 arithmetic and the unbounded restatement agree on every mint
      the chain can hold, whose activation time is an i64. */
  lemma ProgramRefinesSpec(request: Request, actual: Economic, now: int)
    requires IsI64(actual.t)
    ensures ProgramCheck(request, actual, now) == SpecVerdict(request, actual, now)
  {
    assert CheckedI64(actual.t - request.before).InRange? <==> actual.t - request.before >= I64_MIN;
    assert CheckedI64(actual.t + request.after).InRange? <==> actual.t + request.after <= I64_MAX;
  }

  // ------------------------------------------------------------ what it means

  predicate BoundsFit(request: Request) {
    request.expected.t - request.before >= I64_MIN && request.expected.t + request.after <= I64_MAX
  }

  /** The instants at which `request` can execute at all when a change is scheduled. */
  predicate OnItsSide(request: Request, now: int) {
    || (request.phase == PENDING && now < request.expected.t - request.before)
    || (request.phase == ACTIVATED && now > request.expected.t + request.after)
  }

  /** Acceptance, with no reference to the order of the checks. */
  lemma AcceptedExactly(request: Request, actual: Economic, now: int)
    ensures SpecVerdict(request, actual, now) == Allow <==>
            && actual == request.expected
            && (HasScheduledChange(actual) ==> BoundsFit(request) && OnItsSide(request, now))
  {
  }

  /** Every verdict, in the order of the checks: the first row that holds decides. */
  lemma VerdictInOrder(request: Request, actual: Economic, now: int)
    ensures var (e, scheduled) := (request.expected, actual.multiplier != actual.newMultiplier);
            var (opens, closes) := (actual.t - request.before, actual.t + request.after);
            SpecVerdict(request, actual, now) ==
            Allow
            .BlockIf(e.multiplier != actual.multiplier, MultiplierChanged)
            .BlockIf(e.newMultiplier != actual.newMultiplier, NewMultiplierChanged)
            .BlockIf(e.t != actual.t, EffectiveTimestampChanged)
            .BlockIf(scheduled && (opens < -0x8000_0000_0000_0000 || closes > 0x7fff_ffff_ffff_ffff),
                     ArithmeticOverflow)
            .BlockIf(scheduled && opens <= now && now <= closes, InsideTransitionWindow)
            .BlockIf(scheduled && request.phase != (if now < actual.t then 0 else 1), ActivationPhaseChanged)
  {
  }

  /** The life of a request under a zero-second window against a mint that may be
      rewritten: allowed on its own side of the activation and nowhere else, or always
      where no change is scheduled. */
  function Crossing(expected: Economic, phase: byte, actual: Economic, now: int): Verdict {
    if actual.multiplier != expected.multiplier then Block(MultiplierChanged)
    else if actual.newMultiplier != expected.newMultiplier then Block(NewMultiplierChanged)
    else if actual.t != expected.t then Block(EffectiveTimestampChanged)
    else if !HasScheduledChange(expected) then Allow
    else if now == expected.t then Block(InsideTransitionWindow)
    else if (phase == PENDING && now < expected.t) || (phase == ACTIVATED && now > expected.t) then Allow
    else Block(ActivationPhaseChanged)
  }

  lemma CrossesExactly(expected: Economic, phase: byte, actual: Economic, now: int)
    requires IsI64(expected.t)
    ensures SpecVerdict(Request(expected, phase, 0, 0), actual, now) == Crossing(expected, phase, actual, now)
  {
  }

  /** One mint state and the chain time at which it is looked at. */
  datatype Moment = Moment(state: Economic, now: int)

  ghost predicate ClockNeverRunsBack(run: seq<Moment>) {
    forall i, j :: 0 <= i <= j < |run| ==> run[i].now <= run[j].now
  }

  ghost predicate Accepted(request: Request, m: Moment) {
    SpecVerdict(request, m.state, m.now) == Allow
  }

  /** However the mint is rewritten between the moments of a run, a pending
      expectation is dead once its window has opened, and an activated one is
      dead until its window has closed. */
  lemma NoRewriteRevivesIt(request: Request, run: seq<Moment>, i: nat, j: nat)
    requires ClockNeverRunsBack(run)
    requires HasScheduledChange(request.expected)
    requires i <= j < |run|
    ensures request.phase == PENDING && run[i].now >= request.expected.t - request.before ==>
              !Accepted(request, run[j])
    ensures request.phase == ACTIVATED && run[j].now <= request.expected.t + request.after ==>
              !Accepted(request, run[i])
  {
    AcceptedExactly(request, run[j].state, run[j].now);
    AcceptedExactly(request, run[i].state, run[i].now);
  }

  /** No instant accepts an expectation under both phases. */
  lemma NeverBothPhases(expected: Economic, b0: u32, a0: u32, b1: u32, a1: u32, m: Moment)
    requires HasScheduledChange(expected)
    ensures !(&& Accepted(Request(expected, PENDING, b0, a0), m)
              && Accepted(Request(expected, ACTIVATED, b1, a1), m))
  {
    AcceptedExactly(Request(expected, PENDING, b0, a0), m.state, m.now);
    AcceptedExactly(Request(expected, ACTIVATED, b1, a1), m.state, m.now);
  }

  // ------------------------------------------------ verdicts along one clock

  ghost predicate NonDecreasing(clock: seq<int>) {
    forall i, j :: 0 <= i <= j < |clock| ==> clock[i] <= clock[j]
  }

  /** The first index whose reading is at or after `bound`. */
  function FirstAtOrAfter(clock: seq<int>, bound: int): (k: nat)
    ensures k <= |clock|
    ensures forall i :: 0 <= i < k ==> clock[i] < bound
    ensures k < |clock| ==> clock[k] >= bound
  {
    if clock == [] || clock[0] >= bound then 0
    else
      var k := FirstAtOrAfter(clock[1..], bound);
      assert forall i :: 1 <= i < k + 1 ==> clock[i] == clock[1..][i - 1];
      k + 1
  }

  lemma AfterFirst(clock: seq<int>, bound: int, i: nat)
    requires NonDecreasing(clock) && FirstAtOrAfter(clock, bound) <= i < |clock|
    ensures clock[i] >= bound
  {
    assert clock[FirstAtOrAfter(clock, bound)] <= clock[i];
  }

  function VerdictAt(request: Request, clock: seq<int>, i: nat): Verdict
    requires i < |clock|
  {
    SpecVerdict(request, request.expected, clock[i])
  }

  /** With fixed mint bytes the verdicts on a pending expectation run
      ok*, InsideTransitionWindow*, ActivationPhaseChanged*, and those on an
      activated one the other way round; the two cuts are where the clock
      enters and leaves the window. */
  lemma VerdictsRunInOrder(request: Request, clock: seq<int>, i: nat)
    requires NonDecreasing(clock) && i < |clock|
    requires HasScheduledChange(request.expected) && BoundsFit(request)
    requires request.phase == PENDING || request.phase == ACTIVATED
    ensures var enters := FirstAtOrAfter(clock, request.expected.t - request.before);
            var leaves := FirstAtOrAfter(clock, request.expected.t + request.after + 1);
            && enters <= leaves
            && VerdictAt(request, clock, i) ==
               if enters <= i < leaves then Block(InsideTransitionWindow)
               else if (i < enters) == (request.phase == PENDING) then Allow
               else Block(ActivationPhaseChanged)
  {
    var opens, closed := request.expected.t - request.before, request.expected.t + request.after + 1;
    var enters, leaves := FirstAtOrAfter(clock, opens), FirstAtOrAfter(clock, closed);
    if enters <= i {
      AfterFirst(clock, opens, i);
    }
    if leaves <= i {
      AfterFirst(clock, closed, i);
    }
  }
}
