/** Crossing an activation with one held signature: build, attest, sign, hold,
    wait for the chain clock, re-attest, submit. Every party outside the
    function is an adversary whose next answer may depend on everything that
    has happened so far. */
module Activation {
  import opened Bytes

  datatype Clock = Clock(unixTimestamp: int, slot: nat)
  datatype Lifetime = Lifetime(valid: bool, height: nat, lastValidBlockHeight: nat)
  datatype PreSign = PreSign(proofId: string, messageSha256: string)
  datatype Receipt = Receipt(proofId: string, signedWireSha256: string, messageSha256: string)
  datatype Stage = AtPreSign | AtPreSubmission

  /** One answer a dependency gave, in the order the answers arrived. */
  datatype Event<+P> =
    | Built(prepared: P)
    | ClockRead(clock: Clock)
    | Simulated(preSign: PreSign)
    | Deployed(stage: Stage, digest: string)
    | Signed(wire: seq<byte>)
    | Received(receipt: Receipt)
    | Paused
    | Lived(lifetime: Lifetime)
    | Submitted(prepared: P, wire: seq<byte>, stale: bool)

  type Trace<+P> = seq<Event<P>>

  /** The dependencies. `None` is a rejected promise. `rewrite` is what the
      holder of a byte array that was handed out makes of it afterwards. */
  datatype Deps<!P(!new), !O(!new)> = Deps(
    build: Trace<P> -> Option<P>,
    clock: Trace<P> -> Option<Clock>,
    attestPreSign: (Trace<P>, P) -> Option<PreSign>,
    attestDeployment: (Trace<P>, Stage) -> Option<string>,
    sign: (Trace<P>, P) -> Option<seq<byte>>,
    attestSigned: (Trace<P>, string, seq<byte>) -> Option<Receipt>,
    lifetime: (Trace<P>, P) -> Option<Lifetime>,
    submit: (Trace<P>, P, seq<byte>, bool) -> Option<O>,
    rewrite: (Trace<P>, seq<byte>) -> seq<byte>)

  datatype Refusal =
    | DependencyFailed
    | PhaseNotReady
    | ActivationPassedDuringSimulation
    | SignatureReturnedAfterActivation
    | MessageMismatch
    | SignedBytesMismatch
    | ClockDidNotCross
    | BlockhashExpired
    | DeploymentChanged
    | BytesChanged

  datatype Report<+P, +O> = Report(
    prepared: P, beforeSimulation: Clock, atSimulation: Clock, atSigning: Clock,
    atSubmission: Clock, wire: seq<byte>, exactEquality: bool, outcome: O)

  datatype Run<+P, +O> = Completed(report: Report<P, O>) | Refused(why: Refusal)

  const MAX_POLLS := 240

  predicate EqualBytes(a: seq<byte>, b: seq<byte>)
    ensures EqualBytes(a, b) <==> a == b
  {
    |a| == |b| && forall i :: 0 <= i < |a| ==> a[i] == b[i]
  }

  // ----------------------------------------------------------- specification

  /** Every event is the answer its dependency gave to the events before it. */
  ghost predicate Answers<P(!new), O(!new)>(deps: Deps<P, O>, tr: Trace<P>, i: nat)
    requires i < |tr|
  {
    var soFar := tr[..i];
    match tr[i]
    case Built(p) => deps.build(soFar) == Some(p)
    case ClockRead(c) => deps.clock(soFar) == Some(c)
    case Simulated(a) => |tr| > 0 && tr[0].Built? && deps.attestPreSign(soFar, tr[0].prepared) == Some(a)
    case Deployed(stage, d) => deps.attestDeployment(soFar, stage) == Some(d)
    case Signed(w) => tr[0].Built? && deps.sign(soFar, tr[0].prepared) == Some(w)
    case Received(r) =>
      i >= 6 && tr[2].Simulated? && tr[5].Signed?
      && deps.attestSigned(soFar, tr[2].preSign.proofId, tr[5].wire) == Some(r)
    case Paused => true
    case Lived(l) => tr[0].Built? && deps.lifetime(soFar, tr[0].prepared) == Some(l)
    case Submitted(_, _, _) => true
  }

  ghost predicate Faithful<P(!new), O(!new)>(deps: Deps<P, O>, tr: Trace<P>) {
    forall i :: 0 <= i < |tr| ==> Answers(deps, tr, i)
  }

  /** The clock readings of a wait: a pause, then a reading, repeatedly. */
  predicate WaitsFrom<P(!new)>(tr: Trace<P>, polls: nat) {
    && |tr| >= 8 + 2 * polls
    && forall k :: 0 <= k < polls ==> tr[8 + 2 * k].Paused? && tr[9 + 2 * k].ClockRead?
  }

  /** The reading the loop last looked at after `polls` polls. */
  function Latest<P(!new)>(tr: Trace<P>, polls: nat): Clock
    requires |tr| >= 8 && tr[6].ClockRead? && WaitsFrom(tr, polls)
  {
    if polls == 0 then tr[6].clock
    else assert tr[9 + 2 * (polls - 1)].ClockRead?; tr[7 + 2 * polls].clock
  }

  /** Every reading before the last one was still at or before the activation. */
  ghost predicate Patient<P(!new)>(tr: Trace<P>, polls: nat, localT: int)
    requires |tr| >= 8 && tr[6].ClockRead? && WaitsFrom(tr, polls)
  {
    forall k: nat :: k < polls ==> Latest(tr, k).unixTimestamp <= localT
  }

  lemma LaterEventsKeepReadings<P(!new)>(before: Trace<P>, tr: Trace<P>, polls: nat, localT: int)
    requires before <= tr && |before| >= 8 && before[6].ClockRead?
    requires WaitsFrom(before, polls) && Patient(before, polls, localT)
    ensures WaitsFrom(tr, polls) && Patient(tr, polls, localT)
    ensures Latest(tr, polls) == Latest(before, polls)
  {
    assert forall i :: 0 <= i < |before| ==> tr[i] == before[i];
    forall k: nat | k < polls ensures Latest(tr, k).unixTimestamp <= localT {
      assert Latest(before, k).unixTimestamp <= localT;
    }
  }

  /** Up to the signature: one build, one simulation, one deployment reading. */
  ghost predicate SigningLeg<P(!new)>(tr: Trace<P>, localT: int, stale: bool) {
    && |tr| == 6
    && tr[0].Built? && tr[1].ClockRead? && tr[2].Simulated? && tr[3].ClockRead?
    && tr[4].Deployed? && tr[4].stage == AtPreSign && tr[5].Signed?
    && (if stale then tr[1].clock.unixTimestamp < localT && tr[3].clock.unixTimestamp < localT
        else tr[1].clock.unixTimestamp >= localT)
  }

  /** Up to the receipt: one build, one simulation, one deployment reading, one
      signature, each clock on the side of `localT` this leg needs. */
  ghost predicate SignedLeg<P(!new)>(tr: Trace<P>, hash: seq<byte> -> string, localT: int, stale: bool) {
    && |tr| >= 8
    && tr[0].Built? && tr[1].ClockRead? && tr[2].Simulated? && tr[3].ClockRead?
    && tr[4].Deployed? && tr[4].stage == AtPreSign
    && tr[5].Signed? && tr[6].ClockRead? && tr[7].Received?
    && (if stale then tr[1].clock.unixTimestamp < localT && tr[3].clock.unixTimestamp < localT
                      && tr[6].clock.unixTimestamp < localT
        else tr[1].clock.unixTimestamp >= localT)
    && tr[7].receipt.messageSha256 == tr[2].preSign.messageSha256
    && tr[7].receipt.signedWireSha256 == hash(tr[5].wire)
  }

  /** What must have happened, in this order and no other, when the last event
      is a submission after `polls` polls. */
  ghost predicate SubmittedAfter<P(!new)>(tr: Trace<P>, polls: nat, hash: seq<byte> -> string, localT: int,
                                          stale: bool) {
    && SignedLeg(tr, hash, localT, stale)
    && WaitsFrom(tr, polls) && polls <= MAX_POLLS && |tr| == 11 + 2 * polls
    && (stale ==> Latest(tr, polls).unixTimestamp > localT && Patient(tr, polls, localT))
    && (!stale ==> polls == 0)
    && var n := 8 + 2 * polls;
       && tr[n].Lived? && tr[n].lifetime.valid
       && tr[n].lifetime.height <= tr[n].lifetime.lastValidBlockHeight
       && tr[n + 1].Deployed? && tr[n + 1].stage == AtPreSubmission
       && tr[n + 1].digest == tr[4].digest
       && tr[n + 2] == Submitted(tr[0].prepared, tr[5].wire, stale)
  }

  /** No event of the trace is a second signature, a second build or a submission. */
  ghost predicate NothingSubmitted<P(!new)>(tr: Trace<P>) {
    forall i :: 0 <= i < |tr| ==>
      && !tr[i].Submitted?
      && (tr[i].Built? ==> i == 0)
      && (tr[i].Signed? ==> i == 5)
      && (tr[i].Lived? ==> i >= 8)
  }

  /** The dependency that is asked next rejects. */
  ghost predicate NextFailed<P(!new), O(!new)>(deps: Deps<P, O>, tr: Trace<P>) {
    if tr == [] then deps.build(tr) == None
    else if !tr[0].Built? then false
    else
      var p, last := tr[0].prepared, tr[|tr| - 1];
      if |tr| == 2 then deps.attestPreSign(tr, p) == None
      else if |tr| == 1 || |tr| == 3 || |tr| == 6 then deps.clock(tr) == None
      else if |tr| == 4 then deps.attestDeployment(tr, AtPreSign) == None
      else if |tr| == 5 then deps.sign(tr, p) == None
      else if |tr| == 7 then tr[2].Simulated? && tr[5].Signed?
                             && deps.attestSigned(tr, tr[2].preSign.proofId, tr[5].wire) == None
      else match last
           case Lived(_) => deps.attestDeployment(tr, AtPreSubmission) == None
           case Submitted(q, wire, stale) => deps.submit(tr[..|tr| - 1], q, wire, stale) == None
           case Paused => deps.clock(tr) == None
           case _ => deps.lifetime(tr, p) == None
  }

  /** Why a run that submitted nothing stopped where it did. */
  ghost predicate Justified<P(!new), O(!new)>(
      why: Refusal, deps: Deps<P, O>, tr: Trace<P>, polls: nat, hash: seq<byte> -> string, localT: int, stale: bool) {
    match why
    case DependencyFailed => NextFailed(deps, tr)
    case PhaseNotReady =>
      |tr| == 2 && tr[1].ClockRead? && (stale <==> tr[1].clock.unixTimestamp >= localT)
    case ActivationPassedDuringSimulation =>
      |tr| == 4 && tr[3].ClockRead? && stale && tr[3].clock.unixTimestamp >= localT
    case SignatureReturnedAfterActivation =>
      |tr| == 7 && tr[6].ClockRead? && stale && tr[6].clock.unixTimestamp >= localT
    case MessageMismatch =>
      |tr| == 8 && tr[2].Simulated? && tr[7].Received?
      && tr[7].receipt.messageSha256 != tr[2].preSign.messageSha256
    case SignedBytesMismatch =>
      |tr| == 8 && tr[5].Signed? && tr[7].Received? && tr[7].receipt.signedWireSha256 != hash(tr[5].wire)
    case ClockDidNotCross =>
      SignedLeg(tr, hash, localT, stale) && stale && polls == MAX_POLLS && WaitsFrom(tr, polls)
      && Latest(tr, polls).unixTimestamp <= localT
    case BlockhashExpired =>
      SignedLeg(tr, hash, localT, stale) && tr[|tr| - 1].Lived?
      && var l := tr[|tr| - 1].lifetime; !l.valid || l.height > l.lastValidBlockHeight
    case DeploymentChanged =>
      SignedLeg(tr, hash, localT, stale) && tr[|tr| - 1].Deployed? && tr[|tr| - 1].digest != tr[4].digest
    case BytesChanged => false
  }

  // ------------------------------------------------------------ the function

  /** As much of `b` as an array holding `a` has room for. */
  function Overwritten(a: seq<byte>, b: seq<byte>): (r: seq<byte>)
    ensures |r| == |a|
  {
    seq(|a|, i requires 0 <= i < |a| => if i < |b| then b[i] else a[i])
  }

  /** Whoever was handed an array may rewrite it at any later time. */
  method Rewrite(a: array<byte>, f: seq<byte> -> seq<byte>)
    modifies a
    ensures a[..] == Overwritten(old(a[..]), f(old(a[..])))
  {
    var now := f(a[..]);
    for i := 0 to a.Length
      invariant forall k :: 0 <= k < a.Length ==> a[k] == if k < i && k < |now| then now[k] else old(a[k])
    {
      if i < |now| {
        a[i] := now[i];
      }
    }
  }

  /** `Uint8Array.from`. */
  method Copy(a: array<byte>) returns (b: array<byte>)
    ensures fresh(b) && b[..] == a[..]
  {
    b := new byte[a.Length](i requires 0 <= i < a.Length reads a => a[i]);
    assert b[..] == a[..];
  }

  method FromBytes(s: seq<byte>) returns (b: array<byte>)
    ensures fresh(b) && b[..] == s
  {
    b := new byte[|s|](i requires 0 <= i < |s| => s[i]);
  }

  lemma FaithfulSnoc<P(!new), O(!new)>(deps: Deps<P, O>, tr: Trace<P>, e: Event<P>)
    requires Faithful(deps, tr) && Answers(deps, tr + [e], |tr|)
    ensures Faithful(deps, tr + [e])
  {
    forall i | 0 <= i < |tr + [e]| ensures Answers(deps, tr + [e], i) {
      if i < |tr| {
        assert Answers(deps, tr, i);
        assert (tr + [e])[..i] == tr[..i];
      }
    }
  }

  /** From the build to the wallet's signature. */
  method BuildAndSign<P(!new), O(!new)>(
      deps: Deps<P, O>, hash: seq<byte> -> string, localT: int, stale: bool)
    returns (refusal: Option<Refusal>, tr: Trace<P>)
    ensures Faithful(deps, tr) && NothingSubmitted(tr)
    ensures refusal.None? ==> SigningLeg(tr, localT, stale)
    ensures refusal.Some? ==> Justified(refusal.value, deps, tr, 0, hash, localT, stale)
  {
    tr := [];
    var built := deps.build(tr);
    if built.None? { return Some(DependencyFailed), tr; }
    var prepared := built.value;
    tr := [Built(prepared)];
    var c0 := deps.clock(tr);
    if c0.None? { return Some(DependencyFailed), tr; }
    FaithfulSnoc(deps, tr, ClockRead(c0.value));
    tr := tr + [ClockRead(c0.value)];
    if (if stale then c0.value.unixTimestamp >= localT else c0.value.unixTimestamp < localT) {
      return Some(PhaseNotReady), tr;
    }
    var simulated := deps.attestPreSign(tr, prepared);
    if simulated.None? { return Some(DependencyFailed), tr; }
    FaithfulSnoc(deps, tr, Simulated(simulated.value));
    tr := tr + [Simulated(simulated.value)];
    var c1 := deps.clock(tr);
    if c1.None? { return Some(DependencyFailed), tr; }
    FaithfulSnoc(deps, tr, ClockRead(c1.value));
    tr := tr + [ClockRead(c1.value)];
    if stale && c1.value.unixTimestamp >= localT {
      return Some(ActivationPassedDuringSimulation), tr;
    }
    var digest := deps.attestDeployment(tr, AtPreSign);
    if digest.None? { return Some(DependencyFailed), tr; }
    FaithfulSnoc(deps, tr, Deployed(AtPreSign, digest.value));
    tr := tr + [Deployed(AtPreSign, digest.value)];
    var signed := deps.sign(tr, prepared);
    if signed.None? { return Some(DependencyFailed), tr; }
    FaithfulSnoc(deps, tr, Signed(signed.value));
    tr := tr + [Signed(signed.value)];
    assert tr == [Built(prepared), ClockRead(c0.value), Simulated(simulated.value), ClockRead(c1.value),
                  Deployed(AtPreSign, digest.value), Signed(signed.value)];
    refusal := None;
  }

  /** Dates the signature and exchanges it for the coordinator's receipt. */
  method ObtainReceipt<P(!new), O(!new)>(
      deps: Deps<P, O>, hash: seq<byte> -> string, localT: int, stale: bool,
      before: Trace<P>, reference: array<byte>)
    returns (refusal: Option<Refusal>, tr: Trace<P>)
    requires Faithful(deps, before) && NothingSubmitted(before) && SigningLeg(before, localT, stale)
    requires reference[..] == before[5].wire
    ensures Faithful(deps, tr) && NothingSubmitted(tr) && before <= tr
    ensures refusal.None? ==> SignedLeg(tr, hash, localT, stale) && |tr| == 8
    ensures refusal.Some? ==> Justified(refusal.value, deps, tr, 0, hash, localT, stale)
  {
    tr := before;
    var c2 := deps.clock(tr);
    if c2.None? { return Some(DependencyFailed), tr; }
    FaithfulSnoc(deps, tr, ClockRead(c2.value));
    tr := tr + [ClockRead(c2.value)];
    if stale && c2.value.unixTimestamp >= localT {
      return Some(SignatureReturnedAfterActivation), tr;
    }
    var handedOver := Copy(reference);
    var receipt := deps.attestSigned(tr, tr[2].preSign.proofId, handedOver[..]);
    Rewrite(handedOver, now => deps.rewrite(before, now));
    if receipt.None? { return Some(DependencyFailed), tr; }
    FaithfulSnoc(deps, tr, Received(receipt.value));
    tr := tr + [Received(receipt.value)];
    if receipt.value.messageSha256 != tr[2].preSign.messageSha256 {
      return Some(MessageMismatch), tr;
    }
    if receipt.value.signedWireSha256 != hash(reference[..]) {
      return Some(SignedBytesMismatch), tr;
    }
    refusal := None;
  }

  /** Polls the chain clock until it is strictly past `localT`: the guard also
      refuses the activation second itself. */
  method AwaitActivation<P(!new), O(!new)>(
      deps: Deps<P, O>, hash: seq<byte> -> string, localT: int, before: Trace<P>)
    returns (refusal: Option<Refusal>, tr: Trace<P>, polls: nat)
    requires Faithful(deps, before) && NothingSubmitted(before)
    requires SignedLeg(before, hash, localT, true) && |before| == 8
    ensures Faithful(deps, tr) && NothingSubmitted(tr) && before <= tr && polls <= MAX_POLLS
    ensures SignedLeg(tr, hash, localT, true)
    ensures refusal.None? ==> WaitsFrom(tr, polls) && |tr| == 8 + 2 * polls
                              && Latest(tr, polls).unixTimestamp > localT && Patient(tr, polls, localT)
    ensures refusal.Some? ==> Justified(refusal.value, deps, tr, polls, hash, localT, true)
  {
    tr, polls := before, 0;
    var atSubmission := tr[6].clock;
    while atSubmission.unixTimestamp <= localT
      invariant Faithful(deps, tr) && polls <= MAX_POLLS && |tr| == 8 + 2 * polls && before <= tr
      invariant WaitsFrom(tr, polls) && NothingSubmitted(tr)
      invariant Latest(tr, polls) == atSubmission && Patient(tr, polls, localT)
      decreases MAX_POLLS - polls
    {
      if polls + 1 > MAX_POLLS {
        return Some(ClockDidNotCross), tr, polls;
      }
      ghost var shorter := tr;
      FaithfulSnoc(deps, tr, Paused);
      tr := tr + [Paused];
      var c := deps.clock(tr);
      if c.None? { return Some(DependencyFailed), tr, polls; }
      FaithfulSnoc(deps, tr, ClockRead(c.value));
      tr := tr + [ClockRead(c.value)];
      LaterEventsKeepReadings(shorter, tr, polls, localT);
      polls := polls + 1;
      atSubmission := c.value;
    }
    refusal := None;
  }

  lemma NothingSubmittedSnoc<P(!new)>(tr: Trace<P>, e: Event<P>)
    requires NothingSubmitted(tr) && |tr| >= 8 && !e.Submitted? && !e.Built? && !e.Signed?
    ensures NothingSubmitted(tr + [e])
  {
  }

  /** The submission itself; whoever it is handed to may rewrite the array afterwards. */
  method SubmitOnce<P(!new), O(!new)>(deps: Deps<P, O>, stale: bool, before: Trace<P>, held: array<byte>)
    returns (tr: Trace<P>, outcome: Option<O>)
    requires Faithful(deps, before) && before != [] && before[0].Built?
    modifies held
    ensures tr == before + [Submitted(before[0].prepared, old(held[..]), stale)] && Faithful(deps, tr)
    ensures tr[..|tr| - 1] == before && outcome == deps.submit(before, before[0].prepared, old(held[..]), stale)
    ensures held[..] == Overwritten(old(held[..]), deps.rewrite(tr, old(held[..])))
  {
    hide Overwritten, Faithful;
    var submission := Submitted(before[0].prepared, held[..], stale);
    outcome := deps.submit(before, before[0].prepared, held[..], stale);
    tr := before + [submission];
    FaithfulSnoc(deps, before, submission);
    var sent := tr;
    Rewrite(held, now => deps.rewrite(sent, now));
  }

  /** The last checks, and the one submission of the held bytes. */
  method SubmitHeld<P(!new), O(!new)>(
      deps: Deps<P, O>, hash: seq<byte> -> string, localT: int, stale: bool,
      before: Trace<P>, polls: nat, reference: array<byte>, held: array<byte>)
    returns (refusal: Option<Refusal>, tr: Trace<P>, outcome: Option<O>)
    requires Faithful(deps, before) && NothingSubmitted(before) && polls <= MAX_POLLS
    requires SignedLeg(before, hash, localT, stale) && WaitsFrom(before, polls) && |before| == 8 + 2 * polls
    requires if stale then Latest(before, polls).unixTimestamp > localT && Patient(before, polls, localT)
             else polls == 0
    requires reference[..] == held[..] == before[5].wire && reference != held
    modifies held
    ensures Faithful(deps, tr) && before <= tr
    ensures refusal.None? ==> SubmittedAfter(tr, polls, hash, localT, stale) && NothingSubmitted(tr[..|tr| - 1])
                              && outcome.Some?
                              && outcome == deps.submit(tr[..|tr| - 1], tr[0].prepared, tr[5].wire, stale)
                              && held[..] == Overwritten(tr[5].wire, deps.rewrite(tr, tr[5].wire))
    ensures refusal.Some? ==>
              && Justified(refusal.value, deps, tr, polls, hash, localT, stale)
              && (NothingSubmitted(tr) ||
                  (SubmittedAfter(tr, polls, hash, localT, stale) && NothingSubmitted(tr[..|tr| - 1])))
  {
    hide EqualBytes, Overwritten, Faithful, NothingSubmitted, Patient, Latest;
    tr, outcome := before, None;
    assert polls > 0 ==> tr[9 + 2 * (polls - 1)].ClockRead?;
    var life := deps.lifetime(tr, tr[0].prepared);
    if life.None? { return Some(DependencyFailed), tr, None; }
    FaithfulSnoc(deps, tr, Lived(life.value));
    NothingSubmittedSnoc(tr, Lived(life.value));
    tr := tr + [Lived(life.value)];
    if !life.value.valid || life.value.height > life.value.lastValidBlockHeight {
      return Some(BlockhashExpired), tr, None;
    }
    var digest := deps.attestDeployment(tr, AtPreSubmission);
    if digest.None? { return Some(DependencyFailed), tr, None; }
    FaithfulSnoc(deps, tr, Deployed(AtPreSubmission, digest.value));
    NothingSubmittedSnoc(tr, Deployed(AtPreSubmission, digest.value));
    tr := tr + [Deployed(AtPreSubmission, digest.value)];
    if digest.value != tr[4].digest {
      return Some(DeploymentChanged), tr, None;
    }
    if !EqualBytes(reference[..], held[..]) || hash(reference[..]) != hash(held[..]) {
      return Some(BytesChanged), tr, None;
    }
    tr, outcome := SubmitOnce(deps, stale, tr, held);
    if stale {
      LaterEventsKeepReadings(before, tr, polls, localT);
    }
    refusal := if outcome.None? then Some(DependencyFailed) else None;
  }

  lemma NoWait<P(!new)>(tr: Trace<P>)
    requires |tr| >= 8
    ensures WaitsFrom(tr, 0)
  {
  }

  /** One build, one signature, one immutable wire, at most one submission. The
      wallet keeps the array it returned and may rewrite it from then on. */
  method ExecuteAcrossActivation<P(!new), O(!new)>(
      deps: Deps<P, O>, hash: seq<byte> -> string, localT: int, stale: bool)
    returns (run: Run<P, O>, tr: Trace<P>, polls: nat)
    ensures Faithful(deps, tr) && polls <= MAX_POLLS
    ensures run.Completed? ==>
              && SubmittedAfter(tr, polls, hash, localT, stale) && NothingSubmitted(tr[..|tr| - 1])
              && run.report.prepared == tr[0].prepared && run.report.wire == tr[5].wire
              && run.report.beforeSimulation == tr[1].clock && run.report.atSimulation == tr[3].clock
              && run.report.atSigning == tr[6].clock && run.report.atSubmission == Latest(tr, polls)
              && (run.report.exactEquality <==>
                    Overwritten(tr[5].wire, deps.rewrite(tr, tr[5].wire)) == tr[5].wire)
              && deps.submit(tr[..|tr| - 1], tr[0].prepared, tr[5].wire, stale) == Some(run.report.outcome)
    ensures run.Refused? ==>
              && Justified(run.why, deps, tr, polls, hash, localT, stale)
              && (NothingSubmitted(tr) ||
                  (SubmittedAfter(tr, polls, hash, localT, stale) && NothingSubmitted(tr[..|tr| - 1])))
  {
    hide NothingSubmitted, Justified, Faithful, EqualBytes, Overwritten, Patient, WaitsFrom, Latest;
    polls := 0;
    var refusal;
    refusal, tr := BuildAndSign(deps, hash, localT, stale);
    if refusal.Some? { return Refused(refusal.value), tr, polls; }
    var returned := FromBytes(tr[5].wire);
    var reference := Copy(returned);
    var held := Copy(returned);
    var atReturn := tr;
    Rewrite(returned, now => deps.rewrite(atReturn, now));
    refusal, tr := ObtainReceipt(deps, hash, localT, stale, tr, reference);
    if refusal.Some? { return Refused(refusal.value), tr, polls; }
    if stale {
      refusal, tr, polls := AwaitActivation(deps, hash, localT, tr);
      if refusal.Some? { return Refused(refusal.value), tr, polls; }
    } else {
      NoWait(tr);
    }
    var outcome;
    refusal, tr, outcome := SubmitHeld(deps, hash, localT, stale, tr, polls, reference, held);
    if refusal.Some? { return Refused(refusal.value), tr, polls; }
    return Completed(Report(tr[0].prepared, tr[1].clock, tr[3].clock, tr[6].clock, Latest(tr, polls),
                            reference[..], EqualBytes(reference[..], held[..]), outcome.value)), tr, polls;
  }
}
