/** The devnet flow across an activation: sign while pending, hold the signed
    bytes, and submit them only once the chain must refuse them. */
module Devnet {
  import opened Bytes
  import opened Guard
  import opened Commitment
  import opened SysvarView
  import opened Addresses
  import opened Abi
  import opened Mint
  import opened OnChain
  import W = WalletPrefix

  const MAX_SIGN_LEAD := 35
  const ATTEMPTS := 90

  /** One chain-consistent read of the mint and the clock. */
  datatype Snapshot = Snapshot(state: Economic, clock: int, scheduled: bool, phase: byte)

  datatype Scenario = Scenario(initial: u64, next: u64)

  datatype SignDecision = WaitToSign | Sign | Missed | SignMismatch
  datatype ReviewDecision = WaitToReview | Ready | ReviewMismatch
  datatype HeldDecision = KeepWaiting | Submit | Expired

  predicate ScheduledBytesMatch(s: Snapshot, scenario: Scenario, activation: int) {
    && s.state.multiplier == scenario.initial && s.state.newMultiplier == scenario.next
    && s.state.t == activation && s.scheduled && s.phase == PhaseAt(s.state, s.clock)
  }

  function PendingSignDecision(s: Snapshot, scenario: Scenario, activation: int): SignDecision {
    if !ScheduledBytesMatch(s, scenario, activation) then SignMismatch
    else if s.clock >= activation || s.phase != PENDING then Missed
    else if activation - s.clock > MAX_SIGN_LEAD then WaitToSign
    else Sign
  }

  /** The expectation a snapshot yields under the one-second window at T. */
  function RequestOf(s: Snapshot): Request {
    Request(s.state, s.phase, 0, 0)
  }

  function ActivatedReviewDecision(s: Snapshot, scenario: Scenario, activation: int): ReviewDecision {
    if !ScheduledBytesMatch(s, scenario, activation) then ReviewMismatch
    else if s.phase != ACTIVATED || s.clock <= activation then WaitToReview
    else if RequestOf(s).phase != ACTIVATED then ReviewMismatch
    else if SpecVerdict(RequestOf(s), s.state, s.clock) == Allow then Ready
    else WaitToReview
  }

  predicate ChainReadyForStaleSubmit(s: Snapshot, expectation: Request) {
    && expectation.phase == PENDING && expectation.before == 0 && expectation.after == 0
    && SpecVerdict(expectation, s.state, s.clock) == Block(ActivationPhaseChanged)
  }

  function HeldWaitDecision(blockHeight: nat, lastValid: nat, ready: bool): HeldDecision {
    if blockHeight > lastValid then Expired else if ready then Submit else KeepWaiting
  }

  // -------------------------------------------------- decisions along a clock

  /** What an honest read of `state` at `clock` is. */
  function ReadAt(state: Economic, clock: int): Snapshot {
    Snapshot(state, clock, HasScheduledChange(state), PhaseAt(state, clock))
  }

  predicate Scheduled(state: Economic, scenario: Scenario) {
    state.multiplier == scenario.initial && state.newMultiplier == scenario.next && HasScheduledChange(state)
  }

  /** Along a clock that never runs back, with the scheduled bytes in place, the three
      decisions run wait*, sign*, missed*; wait*, ready*; and false*, true*; each cut
      falls exactly where the clock reaches its bound. */
  lemma DecisionsRunInOrder(state: Economic, scenario: Scenario, clock: seq<int>, i: nat)
    requires NonDecreasing(clock) && i < |clock| && Scheduled(state, scenario) && IsI64(state.t)
    ensures var opens, at, after := FirstAtOrAfter(clock, state.t - 35), FirstAtOrAfter(clock, state.t),
                                    FirstAtOrAfter(clock, state.t + 1);
            && opens <= at <= after
            && PendingSignDecision(ReadAt(state, clock[i]), scenario, state.t) ==
               (if i < opens then WaitToSign else if i < at then Sign else Missed)
            && ActivatedReviewDecision(ReadAt(state, clock[i]), scenario, state.t) ==
               (if i < after then WaitToReview else Ready)
            && (ChainReadyForStaleSubmit(ReadAt(state, clock[i]), Request(state, PENDING, 0, 0)) <==> i >= after)
  {
    CutAt(clock, state.t - MAX_SIGN_LEAD, i);
    CutAt(clock, state.t, i);
    CutAt(clock, state.t + 1, i);
    CutsInOrder(clock, state.t - MAX_SIGN_LEAD, state.t);
    CutsInOrder(clock, state.t, state.t + 1);
  }

  /** The held bytes are stale when they were signed for exactly the chain's state, pending
      and under a zero-second window, and the clock has passed its activation. */
  lemma StaleExactly(s: Snapshot, expectation: Request)
    requires IsI64(s.state.t)
    ensures ChainReadyForStaleSubmit(s, expectation) <==>
            && expectation == Request(s.state, 0, 0, 0)
            && s.state.multiplier != s.state.newMultiplier && s.clock > s.state.t
  {
  }

  /** Pending signing is for the scheduled state, in the 35 seconds before its activation. */
  lemma SignableExactly(s: Snapshot, scenario: Scenario, activation: int)
    ensures PendingSignDecision(s, scenario, activation) == Sign <==>
            && s.state == Economic(scenario.initial, scenario.next, activation) && s.scheduled && s.phase == 0
            && activation - 35 <= s.clock && s.clock < activation
    ensures PendingSignDecision(s, scenario, activation) in {Sign, WaitToSign} <==>
            && s.state == Economic(scenario.initial, scenario.next, activation) && s.scheduled && s.phase == 0
            && s.clock < activation
  {
  }

  lemma CutAt(clock: seq<int>, bound: int, i: nat)
    requires NonDecreasing(clock) && i < |clock|
    ensures i < FirstAtOrAfter(clock, bound) <==> clock[i] < bound
  {
    if FirstAtOrAfter(clock, bound) <= i {
      AfterFirst(clock, bound, i);
    }
  }

  lemma CutsInOrder(clock: seq<int>, low: int, high: int)
    requires low <= high
    ensures FirstAtOrAfter(clock, low) <= FirstAtOrAfter(clock, high)
  {
    var k := FirstAtOrAfter(clock, high);
    if k < |clock| {
      assert clock[k] >= low;
    }
  }

  /** Bytes that are not the scheduled ones are never signable nor reviewable, at any time. */
  lemma OtherBytesAreMismatched(state: Economic, scenario: Scenario, activation: int, clock: int)
    requires !Scheduled(state, scenario) || state.t != activation
    ensures PendingSignDecision(ReadAt(state, clock), scenario, activation) == SignMismatch
    ensures ActivatedReviewDecision(ReadAt(state, clock), scenario, activation) == ReviewMismatch
  {
  }

  // ------------------------------------------------------- held signed bytes

  datatype Held = Held(signedBytes: array<byte>, sha256: Bytes32, lastValid: nat, signature: string,
                       guardIndex: nat, expectation: Request)

  /** `sealSignedTransaction`: a copy of the wallet's bytes and their digest. */
  method Seal(sha: Sha, wire: array<byte>, lastValid: nat, signature: string, guardIndex: nat, expectation: Request)
    returns (held: Held)
    ensures fresh(held.signedBytes) && held.signedBytes[..] == wire[..]
    ensures held.sha256 == sha(wire[..]) && held.lastValid == lastValid && held.expectation == expectation
    ensures held.signature == signature && held.guardIndex == guardIndex
  {
    var copied := new byte[wire.Length](i requires 0 <= i < wire.Length reads wire => wire[i]);
    assert copied[..] == wire[..];
    held := Held(copied, sha(copied[..]), lastValid, signature, guardIndex, expectation);
  }

  /** `assertSameSignedBytes`: length, digest, then byte by byte. */
  method SameSignedBytes(sha: Sha, held: Held, actual: array<byte>) returns (same: bool)
    ensures same <==> sha(actual[..]) == held.sha256 && actual[..] == held.signedBytes[..]
  {
    if actual.Length != held.signedBytes.Length || sha(actual[..]) != held.sha256 {
      return false;
    }
    for k := 0 to actual.Length
      invariant actual[..k] == held.signedBytes[..k]
    {
      if actual[k] != held.signedBytes[k] {
        return false;
      }
    }
    assert actual[..] == actual[..actual.Length] && held.signedBytes[..] == held.signedBytes[..actual.Length];
    return true;
  }

  datatype Prepared = Bytes(wire: array<byte>) | StaleExpired | BytesChanged

  /** `prepareHeldSubmission`: expiry and any change since sealing refuse before a send. */
  method PrepareHeldSubmission(sha: Sha, held: Held, blockHeight: nat) returns (prepared: Prepared)
    ensures prepared == StaleExpired <==> blockHeight > held.lastValid
    ensures prepared.Bytes? <==> blockHeight <= held.lastValid && sha(held.signedBytes[..]) == held.sha256
    ensures prepared.Bytes? ==> prepared.wire[..] == held.signedBytes[..] && sha(prepared.wire[..]) == held.sha256
  {
    if blockHeight > held.lastValid {
      return StaleExpired;
    }
    var copied := new byte[held.signedBytes.Length](i requires 0 <= i < held.signedBytes.Length reads held.signedBytes
                                                      => held.signedBytes[i]);
    assert copied[..] == held.signedBytes[..];
    var same := SameSignedBytes(sha, held, copied);
    if !same {
      return BytesChanged;
    }
    return Bytes(copied);
  }

  // ------------------------------------------------------------- the attempt

  /** The environment: what each successive read returns, the transfer to protect, how
      instructions are compiled, and how a signed wire is opened. */
  datatype World = World(snapshots: nat -> Snapshot, heights: nat -> nat, lastValid: nat,
                         program: string, feePayer: string, mint: string, transfer: Instruction,
                         compile: seq<Instruction> -> W.Message, open: seq<byte> -> Option<W.Signed>, sha: Sha)

  /** `buildClockCrossingTransfer` for a request. */
  function Built(w: World, r: Request): Option<seq<Instruction>>
    requires IsKey(w.mint)
  {
    var zeros := seq(32, _ => 0);
    BuildGuarded(w.sha, w.program, w.feePayer, w.mint, FieldsOf(Payload(zeros, r, 1, zeros)), w.transfer, [])
  }

  /** The mint and the transfer are addresses and a transaction's; compiling shows
      every account with its flags in the whole transaction and changes nothing else. */
  ghost predicate Sendable(w: World) {
    && IsKey(w.mint) && |w.transfer.accounts| < 0x1_0000_0000
    && forall r :: Built(w, r).Some? ==>
         View(W.PlainAll(w.compile(Built(w, r).value).instructions), w.feePayer) == View(Built(w, r).value, w.feePayer)
  }

  function PendingRequest(scenario: Scenario, activation: int): Request {
    Request(Economic(scenario.initial, scenario.next, activation), PENDING, 0, 0)
  }

  /** The wire opens to the built transfer behind what a wallet may add. */
  predicate Carries(w: World, r: Request, wire: seq<byte>, guardIndex: nat)
    requires IsKey(w.mint)
  {
    && Built(w, r).Some? && w.open(wire).Some?
    && var unsigned, signed := w.compile(Built(w, r).value).instructions, w.open(wire).value.message.instructions;
    && W.Extends(signed, unsigned) && guardIndex == |signed| - |unsigned| && W.AllowedPrefix(signed[..guardIndex])
  }

  /** What the program answers to the guard instruction inside a wire. */
  function Executed(w: World, ata: Ata, wire: seq<byte>, guardIndex: nat, account: Account, sysvar: Account, now: int)
    : Verdict
    requires w.open(wire).Some? && guardIndex < |w.open(wire).value.message.instructions|
  {
    var instructions := W.PlainAll(w.open(wire).value.message.instructions);
    Execute(w.sha, ata, w.program, [account, sysvar], instructions[guardIndex].data,
            View(instructions, w.feePayer), guardIndex, Some(now))
  }

  /** The program's answer to the wire, whatever its mint account holds by then and whenever it executes. */
  ghost predicate Crosses(w: World, r: Request, wire: seq<byte>, guardIndex: nat) {
    && w.open(wire).Some? && guardIndex < |w.open(wire).value.message.instructions|
    && forall ata: Ata, account: Account, sysvar: Account, now: int ::
         && account.key == w.mint && sysvar.key == INSTRUCTIONS_SYSVAR
         && DecodeProtectedState(account.owner, account.data).State?
         ==> Executed(w, ata, wire, guardIndex, account, sysvar, now) ==
             Crossing(r.expected, r.phase, DecodeProtectedState(account.owner, account.data).economic, now)
  }

  /** A request built into a transaction is one the client encoder accepted. */
  lemma BuiltIsAccepted(w: World, r: Request)
    requires IsKey(w.mint) && Built(w, r).Some?
    ensures var zeros := seq(32, _ => 0);
            ClientAccepts(FieldsOf(Payload(zeros, r, 1, zeros))) && Expected(FieldsOf(Payload(zeros, r, 1, zeros))) == r
  {
    hide BuildGuarded, ValidMultiplier, IsKey, KeyBytes, U64Of, LE;
    var zeros := seq(32, _ => 0);
    var p := Payload(zeros, r, 1, zeros);
    BuildsExactly(w.sha, w.program, w.feePayer, w.mint, FieldsOf(p), w.transfer, []);
    BitsRoundTrip(r.expected.multiplier);
    BitsRoundTrip(r.expected.newMultiplier);
    ExpectedOfFields(p);
  }

  /** Build, wallet and program together: a wire carrying a request is answered by the policy. */
  lemma CarriedIsThePolicy(w: World, ata: Ata, r: Request, wire: seq<byte>, guardIndex: nat,
                           account: Account, sysvar: Account, now: int)
    requires Sendable(w) && Carries(w, r, wire, guardIndex)
    requires account.key == w.mint && sysvar.key == INSTRUCTIONS_SYSVAR
    requires DecodeProtectedState(account.owner, account.data).State?
    ensures IsI64(r.expected.t) && guardIndex < |w.open(wire).value.message.instructions|
    ensures Executed(w, ata, wire, guardIndex, account, sysvar, now) ==
            SpecVerdict(r, DecodeProtectedState(account.owner, account.data).economic, now)
  {
    hide BuildGuarded, ValidMultiplier, IsKey, KeyBytes, U64Of, LE, View, DecodeProtectedState, SpecVerdict, Execute,
         W.Extends, W.AllowedPrefix, W.PlainAll, Expected;
    var zeros := seq(32, _ => 0);
    BuiltIsAccepted(w, r);
    SignedTransferExecutesThePolicy(
      w.sha, ata, w.program, w.feePayer, w.mint, FieldsOf(Payload(zeros, r, 1, zeros)), w.transfer, [],
      w.compile(Built(w, r).value), w.open(wire).value, account, sysvar,
      DecodeProtectedState(account.owner, account.data).economic, now);
  }

  lemma MintIsKey(w: World)
    requires Sendable(w)
    ensures IsKey(w.mint)
  {
  }

  lemma CarriedReaches(w: World, r: Request, wire: seq<byte>, guardIndex: nat)
    requires Sendable(w) && Carries(w, r, wire, guardIndex)
    ensures w.open(wire).Some? && guardIndex < |w.open(wire).value.message.instructions|
  {
    hide W.AllowedPrefix, IsKey, W.Same, View;
    var unsigned := w.compile(Built(w, r).value).instructions;
    assert |unsigned| == |View(W.PlainAll(unsigned), w.feePayer)| == |Built(w, r).value|;
  }

  /** A wire carrying the pending request crosses the activation from allowed to stale. */
  lemma CarriedCrosses(w: World, scenario: Scenario, activation: int, wire: seq<byte>, guardIndex: nat)
    requires Sendable(w) && Carries(w, PendingRequest(scenario, activation), wire, guardIndex)
    requires scenario.initial != scenario.next
    ensures Crosses(w, PendingRequest(scenario, activation), wire, guardIndex)
  {
    hide Sendable, Carries, Executed, SpecVerdict, Crossing, DecodeProtectedState;
    var r := PendingRequest(scenario, activation);
    CarriedReaches(w, r, wire, guardIndex);
    forall ata: Ata, account: Account, sysvar: Account, now: int |
      && account.key == w.mint && sysvar.key == INSTRUCTIONS_SYSVAR
      && DecodeProtectedState(account.owner, account.data).State?
      ensures Executed(w, ata, wire, guardIndex, account, sysvar, now) ==
              Crossing(r.expected, r.phase, DecodeProtectedState(account.owner, account.data).economic, now)
    {
      CarriedIsThePolicy(w, ata, r, wire, guardIndex, account, sysvar, now);
      CrossesExactly(r.expected, PENDING, DecodeProtectedState(account.owner, account.data).economic, now);
    }
  }

  lemma ReadyIsPast(s: Snapshot, scenario: Scenario, activation: int)
    requires ChainReadyForStaleSubmit(s, PendingRequest(scenario, activation))
    ensures scenario.initial != scenario.next && s.clock > activation
  {
  }

  datatype Attempt =
    | NotSigned
    | TimedOut(held: Held)
    | HeldExpired(held: Held, at: nat)
    | Changed(held: Held)
    | Sent(held: Held, wire: array<byte>, readyAt: nat)

  /** A pending transfer is signed: two reads before the wallet is asked, 35 seconds before
      the activation at most, one after it and still before it, a live blockhash, and a
      signature the client accepts. */
  predicate Signable(w: World, scenario: Scenario, activation: int, wallet: seq<byte>)
    requires IsKey(w.mint)
  {
    var state, r := Economic(scenario.initial, scenario.next, activation), PendingRequest(scenario, activation);
    && (forall k :: 0 <= k < 3 ==>
          && w.snapshots(k).state == state && w.snapshots(k).scheduled && w.snapshots(k).phase == 0
          && w.snapshots(k).clock < activation)
    && activation - 35 <= w.snapshots(0).clock && activation - 35 <= w.snapshots(1).clock
    && w.heights(0) <= w.lastValid && Built(w, r).Some? && w.open(wallet).Some?
    && W.Accepts(w.compile(Built(w, r).value), w.open(wallet).value)
  }

  /** `signPendingProtectedTransfer`: two reads before the wallet is asked, one after;
      anything but a transaction sealed while pending is refused. */
  method SignPending(w: World, scenario: Scenario, activation: int, wallet: array<byte>) returns (held: Option<Held>)
    requires IsKey(w.mint)
    ensures held.Some? ==>
              && fresh(held.value.signedBytes) && held.value.signedBytes[..] == wallet[..]
              && held.value.sha256 == w.sha(wallet[..]) && held.value.lastValid == w.lastValid
              && held.value.expectation == PendingRequest(scenario, activation)
              && activation - 35 <= w.snapshots(0).clock < activation
              && activation - 35 <= w.snapshots(1).clock < activation
              && w.snapshots(2).clock < activation && w.heights(0) <= w.lastValid
              && Carries(w, PendingRequest(scenario, activation), wallet[..], held.value.guardIndex)
    ensures held.Some? <==> Signable(w, scenario, activation, wallet[..])
  {
    hide W.AllowedPrefix, W.Extends, W.SameEnvelope, W.IsSigned, Built, IsKey;
    var first := w.snapshots(0);
    SignableExactly(first, scenario, activation);
    SignableExactly(w.snapshots(1), scenario, activation);
    SignableExactly(w.snapshots(2), scenario, activation);
    if PendingSignDecision(first, scenario, activation) != Sign {
      return None;
    }
    var expectation := RequestOf(first);
    if expectation.phase != PENDING {
      return None;
    }
    var built := Built(w, expectation);
    if built.None? {
      return None;
    }
    var unsigned := w.compile(built.value);
    if w.heights(0) > w.lastValid {
      return None;
    }
    var again := w.snapshots(1);
    if PendingSignDecision(again, scenario, activation) != Sign || again.state != first.state {
      return None;
    }
    var afterSign := w.snapshots(2);
    var decision := PendingSignDecision(afterSign, scenario, activation);
    if decision != Sign && decision != WaitToSign {
      return None;
    }
    var envelope := w.open(wallet[..]);
    if envelope.None? {
      return None;
    }
    var verified := W.VerifyWalletSigned(unsigned, envelope.value);
    if verified.Refused? {
      return None;
    }
    var sealed := Seal(w.sha, wallet, w.lastValid, verified.signature, verified.guardIndex, expectation);
    return Some(sealed);
  }

  /** `waitForActivation`: at most ninety reads, numbered from `from`. */
  method WaitForActivation(w: World, held: Held, from: nat) returns (decision: HeldDecision, at: nat)
    ensures from <= at <= from + 90 && (decision == KeepWaiting <==> at == from + 90)
    ensures forall k :: from <= k < at ==>
              w.heights(k) <= held.lastValid && !ChainReadyForStaleSubmit(w.snapshots(k), held.expectation)
    ensures decision == Expired <==> at < from + 90 && w.heights(at) > held.lastValid
    ensures decision == Submit <==> at < from + 90 && w.heights(at) <= held.lastValid
                                    && ChainReadyForStaleSubmit(w.snapshots(at), held.expectation)
  {
    hide ChainReadyForStaleSubmit;
    at := from;
    while at < from + ATTEMPTS
      invariant from <= at <= from + ATTEMPTS
      invariant forall k :: from <= k < at ==>
                  w.heights(k) <= held.lastValid && !ChainReadyForStaleSubmit(w.snapshots(k), held.expectation)
    {
      decision := HeldWaitDecision(w.heights(at), held.lastValid,
                                   ChainReadyForStaleSubmit(w.snapshots(at), held.expectation));
      if decision != KeepWaiting {
        return;
      }
      at := at + 1;
    }
    decision := KeepWaiting;
  }

  /** The stale leg from the first read to the send. What is sent is what the wallet
      returned, its blockhash is alive, it was sealed before T and sent after it; the
      program would have allowed those bytes until T, and from the send on refuses them
      whatever the mint account holds and whenever they execute: unchanged, exactly with
      ActivationPhaseChanged. */
  method StaleAttempt(w: World, scenario: Scenario, activation: int, wallet: array<byte>) returns (attempt: Attempt)
    requires Sendable(w)
    ensures attempt.Sent? ==>
              && attempt.wire[..] == wallet[..]
              && w.heights(attempt.readyAt + 1) <= w.lastValid
              && w.snapshots(2).clock < activation < w.snapshots(attempt.readyAt).clock
              && Crosses(w, PendingRequest(scenario, activation), attempt.wire[..], attempt.held.guardIndex)
    ensures attempt.NotSigned? <==> !Signable(w, scenario, activation, wallet[..])
    ensures attempt.Sent? ==>
              && 3 <= attempt.readyAt < 93
              && ChainReadyForStaleSubmit(w.snapshots(attempt.readyAt), PendingRequest(scenario, activation))
              && forall k :: 3 <= k < attempt.readyAt ==>
                   w.heights(k) <= w.lastValid
                   && !ChainReadyForStaleSubmit(w.snapshots(k), PendingRequest(scenario, activation))
    ensures attempt.HeldExpired? ==>
              && 3 <= attempt.at <= 93 && w.heights(attempt.at) > w.lastValid
              && forall k :: 3 <= k < attempt.at ==> w.heights(k) <= w.lastValid
    ensures attempt.TimedOut? ==>
              forall k :: 3 <= k < 93 ==>
                w.heights(k) <= w.lastValid
                && !ChainReadyForStaleSubmit(w.snapshots(k), PendingRequest(scenario, activation))
    ensures !attempt.Changed?
  {
    hide Sendable, Carries, Crosses, IsKey, Signable, ChainReadyForStaleSubmit;
    MintIsKey(w);
    var signed := SignPending(w, scenario, activation, wallet);
    if signed.None? {
      return NotSigned;
    }
    var held := signed.value;
    var decision, at := WaitForActivation(w, held, 3);
    if decision == KeepWaiting {
      return TimedOut(held);
    }
    if decision == Expired {
      return HeldExpired(held, at);
    }
    var prepared := PrepareHeldSubmission(w.sha, held, w.heights(at + 1));
    match prepared
    case StaleExpired => return HeldExpired(held, at + 1);
    case BytesChanged => return Changed(held);
    case Bytes(wire) =>
      ReadyIsPast(w.snapshots(at), scenario, activation);
      CarriedCrosses(w, scenario, activation, wire[..], held.guardIndex);
      return Sent(held, wire, at);
  }
}
