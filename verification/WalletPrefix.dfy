/** What the wallet may do to a transaction while signing it: put at most two
    compute-budget instructions in front, and nothing else. */
module WalletPrefix {
  import opened Bytes
  import opened Base58
  import opened Commitment
  import opened Addresses
  import opened SysvarView

  /** An instruction as the message decoder returns it: empty parts are absent. */
  datatype Decoded = Decoded(programAddress: string, accounts: Option<seq<Meta>>, data: Option<seq<byte>>)

  datatype Version = Legacy | V0

  datatype Message = Message(version: Version, staticAccounts: seq<string>, numSigners: nat, lifetimeToken: string,
                             instructions: seq<Decoded>)

  /** A decoded wire transaction: its signatures in signer order, absent where unsigned. */
  datatype Signed = Signed(message: Message, signatures: seq<Option<seq<byte>>>)

  datatype Refusal = WrongVersion | SignerOrLifetime | UnexpectedShape | UnsupportedPrefix | ChangedInstruction
                   | NotSigned
  datatype Outcome = Accepted(signature: string, guardIndex: nat) | Refused(why: Refusal)

  function AccountsOf(i: Decoded): seq<Meta> {
    match i.accounts case None => [] case Some(a) => a
  }

  /** Same program, same data, same accounts; an absent account list is an empty one. */
  predicate Same(a: Decoded, b: Decoded) {
    a.programAddress == b.programAddress && a.data == b.data && AccountsOf(a) == AccountsOf(b)
  }

  predicate IsBudget(i: Decoded) {
    && i.programAddress == COMPUTE_BUDGET && |AccountsOf(i)| == 0 && i.data.Some?
    && ((|i.data.value| == 5 && i.data.value[0] == 2) || (|i.data.value| == 9 && i.data.value[0] == 3))
  }

  function Tag(i: Decoded): Option<byte> {
    if i.data.Some? && |i.data.value| > 0 then Some(i.data.value[0]) else None
  }

  // ------------------------------------------------------------ as programs

  method SameBytes(left: Option<seq<byte>>, right: Option<seq<byte>>) returns (same: bool)
    ensures same <==> left == right
  {
    if left.None? || right.None? {
      return left.None? && right.None?;
    }
    if |left.value| != |right.value| {
      return false;
    }
    for k := 0 to |left.value|
      invariant left.value[..k] == right.value[..k]
    {
      if left.value[k] != right.value[k] {
        return false;
      }
    }
    assert left.value == left.value[..|left.value|] == right.value[..|left.value|] == right.value;
    return true;
  }

  method SameInstruction(left: Decoded, right: Decoded) returns (same: bool)
    ensures same <==> Same(left, right)
  {
    var sameData := SameBytes(left.data, right.data);
    if left.programAddress != right.programAddress || !sameData {
      return false;
    }
    var a, b := AccountsOf(left), AccountsOf(right);
    if |a| != |b| {
      return false;
    }
    for k := 0 to |a|
      invariant a[..k] == b[..k]
    {
      if a[k] != b[k] {
        return false;
      }
    }
    assert a == a[..|a|] == b[..|a|] == b;
    return true;
  }

  predicate Extends(signed: seq<Decoded>, unsigned: seq<Decoded>) {
    && |signed| >= |unsigned|
    && forall k :: 0 <= k < |unsigned| ==> Same(unsigned[k], signed[|signed| - |unsigned| + k])
  }

  predicate Blank(signature: seq<byte>) {
    forall k :: 0 <= k < |signature| ==> signature[k] == 0
  }

  function Signers(m: Message): seq<string> {
    m.staticAccounts[..if m.numSigners <= |m.staticAccounts| then m.numSigners else |m.staticAccounts|]
  }

  predicate SameEnvelope(a: Message, b: Message) {
    |Signers(a)| == 1 && Signers(a) == Signers(b) && a.lifetimeToken == b.lifetimeToken
  }

  /** At most one limit, five bytes with tag 2, and one price, nine bytes with tag 3, in
      either order and both without accounts. */
  predicate AllowedPrefix(prefix: seq<Decoded>) {
    && |prefix| <= 2
    && (forall k :: 0 <= k < |prefix| ==>
          && prefix[k].programAddress == COMPUTE_BUDGET && AccountsOf(prefix[k]) == [] && prefix[k].data.Some?
          && (|prefix[k].data.value| == 5 || |prefix[k].data.value| == 9)
          && prefix[k].data.value[0] == (if |prefix[k].data.value| == 5 then 2 else 3))
    && (|prefix| == 2 ==> |prefix[0].data.value| != |prefix[1].data.value|)
  }

  lemma TooLong(theirs: seq<Decoded>, n: int)
    requires n <= |theirs|
    ensures 2 < n ==> !AllowedPrefix(theirs[..n])
  {
  }

  lemma BudgetsByTag(prefix: seq<Decoded>)
    ensures AllowedPrefix(prefix) <==>
            && |prefix| <= 2
            && (forall k :: 0 <= k < |prefix| ==> IsBudget(prefix[k]))
            && (forall j, k :: 0 <= j < k < |prefix| ==> Tag(prefix[j]) != Tag(prefix[k]))
  {
    assert forall k :: 0 <= k < |prefix| && IsBudget(prefix[k]) ==>
        Tag(prefix[k]) == Some(if |prefix[k].data.value| == 5 then 2 else 3);
  }

  predicate IsSigned(signatures: seq<Option<seq<byte>>>) {
    signatures != [] && signatures[0].Some? && !Blank(signatures[0].value)
  }

  /** The same legacy message of one signer, behind an allowed prefix, and a first
      signature that is not all zeros. */
  predicate Accepts(unsigned: Message, signed: Signed) {
    var (theirs, ours) := (signed.message, unsigned);
    && ours.version == Legacy && theirs.version == Legacy && ours.lifetimeToken == theirs.lifetimeToken
    && OneSigner(ours) && OneSigner(theirs) && ours.staticAccounts[0] == theirs.staticAccounts[0]
    && |ours.instructions| <= |theirs.instructions|
    && var added := |theirs.instructions| - |ours.instructions|;
    && AllowedPrefix(theirs.instructions[..added])
    && (forall k :: 0 <= k < |ours.instructions| ==> Unchanged(ours.instructions[k], theirs.instructions[added + k]))
    && signed.signatures != [] && signed.signatures[0].Some?
    && exists k :: 0 <= k < |signed.signatures[0].value| && signed.signatures[0].value[k] != 0
  }

  /** One account signs: the message says so, or it has only one account. */
  predicate OneSigner(m: Message) {
    m.staticAccounts != [] && (m.numSigners == 1 || (m.numSigners > 1 && |m.staticAccounts| == 1))
  }

  /** Program, data and accounts with their flags; absent accounts are none. */
  predicate Unchanged(a: Decoded, b: Decoded) {
    && a.programAddress == b.programAddress && a.data == b.data
    && a.accounts.GetOr([]) == b.accounts.GetOr([])
  }

  lemma EnvelopeExactly(a: Message, b: Message)
    ensures SameEnvelope(a, b) <==>
            && OneSigner(a) && OneSigner(b) && a.staticAccounts[0] == b.staticAccounts[0]
            && a.lifetimeToken == b.lifetimeToken
  {
    if |Signers(a)| == 1 && |Signers(b)| == 1 {
      assert Signers(a) == [a.staticAccounts[0]] && Signers(b) == [b.staticAccounts[0]];
    }
  }

  /** That is what the checks of the signing client come to. */
  lemma AcceptsExactly(unsigned: Message, signed: Signed)
    ensures Accepts(unsigned, signed) <==>
            && unsigned.version == Legacy == signed.message.version
            && SameEnvelope(unsigned, signed.message)
            && Extends(signed.message.instructions, unsigned.instructions)
            && AllowedPrefix(signed.message.instructions[..|signed.message.instructions| - |unsigned.instructions|])
            && IsSigned(signed.signatures)
  {
    hide AllowedPrefix, SameEnvelope, OneSigner;
    EnvelopeExactly(unsigned, signed.message);
    assert forall a, b :: Same(a, b) <==> Unchanged(a, b);
  }

  function Distinct(tags: seq<Option<byte>>): set<Option<byte>> {
    set t | t in tags
  }

  lemma DistinctSnoc(init: seq<Option<byte>>, last: Option<byte>)
    ensures Distinct(init + [last]) == Distinct(init) + {last}
    ensures last in Distinct(init) <==> exists j :: 0 <= j < |init| && init[j] == last
  {
  }

  lemma {:induction false} DistinctByCount(tags: seq<Option<byte>>)
    ensures |Distinct(tags)| <= |tags|
    ensures |Distinct(tags)| == |tags| <==> forall j, k :: 0 <= j < k < |tags| ==> tags[j] != tags[k]
  {
    if tags != [] {
      hide Distinct;
      var init, last := tags[..|tags| - 1], tags[|tags| - 1];
      assert tags == init + [last];
      DistinctByCount(init);
      DistinctSnoc(init, last);
      if last in Distinct(init) {
        assert Distinct(tags) == Distinct(init);
        var j :| 0 <= j < |init| && init[j] == last;
        assert tags[j] == tags[|tags| - 1];
      }
    }
  }

  /** `verifyWalletSignedTransaction`, on decoded transactions. */
  method VerifyWalletSigned(unsigned: Message, signed: Signed) returns (outcome: Outcome)
    ensures outcome.Accepted? <==> Accepts(unsigned, signed)
    ensures var theirs, ours := signed.message.instructions, unsigned.instructions;
            (if outcome.Accepted? then None else Some(outcome.why)) ==
            None
            .OrIf(!(unsigned.version == Legacy == signed.message.version), WrongVersion)
            .OrIf(!SameEnvelope(unsigned, signed.message), SignerOrLifetime)
            .OrIf(!(|ours| <= |theirs| <= |ours| + 2), UnexpectedShape)
            .OrIf(|ours| <= |theirs| && !AllowedPrefix(theirs[..|theirs| - |ours|]), UnsupportedPrefix)
            .OrIf(!Extends(theirs, ours), ChangedInstruction)
            .OrIf(!IsSigned(signed.signatures), NotSigned)
    ensures outcome.Accepted? ==>
              && outcome.guardIndex == |signed.message.instructions| - |unsigned.instructions|
              && outcome.signature == Encode(signed.signatures[0].value)
  {
    AcceptsExactly(unsigned, signed);
    hide IsBudget, Same, Tag, Encode, AllowedPrefix, Accepts;
    if unsigned.version != Legacy || signed.message.version != Legacy {
      return Refused(WrongVersion);
    }
    var unsignedSigners, signedSigners := Signers(unsigned), Signers(signed.message);
    if |unsignedSigners| != 1 || |signedSigners| != 1 || unsignedSigners[0] != signedSigners[0]
       || unsigned.lifetimeToken != signed.message.lifetimeToken {
      return Refused(SignerOrLifetime);
    }
    var theirs, ours := signed.message.instructions, unsigned.instructions;
    var prefixLength := |theirs| - |ours|;
    if prefixLength < 0 || prefixLength > 2 {
      TooLong(theirs, prefixLength);
      return Refused(UnexpectedShape);
    }
    var prefix := theirs[..prefixLength];
    BudgetsByTag(prefix);
    var tags := seq(prefixLength, k requires 0 <= k < prefixLength => Tag(prefix[k]));
    DistinctByCount(tags);
    assert forall k :: 0 <= k < prefixLength ==> tags[k] == Tag(prefix[k]);
    if !(forall k :: 0 <= k < |prefix| ==> IsBudget(prefix[k])) || |Distinct(tags)| != |tags| {
      assert !AllowedPrefix(prefix);
      return Refused(UnsupportedPrefix);
    }
    assert AllowedPrefix(prefix);
    for k := 0 to |ours|
      invariant forall j :: 0 <= j < k ==> Same(ours[j], theirs[prefixLength + j])
    {
      var same := SameInstruction(ours[k], theirs[prefixLength + k]);
      if !same {
        return Refused(ChangedInstruction);
      }
    }
    if signed.signatures == [] || signed.signatures[0].None? || Blank(signed.signatures[0].value) {
      return Refused(NotSigned);
    }
    return Accepted(Encode(signed.signatures[0].value), prefixLength);
  }

  /** The length test repeats what the distinct tags already force. */
  lemma DistinctTagsBoundThePrefix(prefix: seq<Decoded>)
    requires forall k :: 0 <= k < |prefix| ==> IsBudget(prefix[k])
    requires forall j, k :: 0 <= j < k < |prefix| ==> Tag(prefix[j]) != Tag(prefix[k])
    ensures |prefix| <= 2
  {
    var tags := seq(|prefix|, k requires 0 <= k < |prefix| => Tag(prefix[k]));
    DistinctByCount(tags);
    assert Distinct(tags) <= {Some(2), Some(3)};
    SubsetIsSmaller(Distinct(tags), {Some(2), Some(3)});
  }

  lemma {:induction false} SubsetIsSmaller<T>(a: set<T>, b: set<T>)
    requires a <= b
    ensures |a| <= |b|
  {
    assert b == a + (b - a);
  }

  // --------------------------------------------------------- what it means

  function Plain(i: Decoded): Instruction {
    Instruction(i.programAddress, AccountsOf(i), match i.data case None => [] case Some(d) => d)
  }

  function PlainAll(instructions: seq<Decoded>): (r: seq<Instruction>)
    ensures |r| == |instructions|
    ensures forall k :: 0 <= k < |r| ==> r[k] == Plain(instructions[k])
  {
    seq(|instructions|, k requires 0 <= k < |instructions| => Plain(instructions[k]))
  }

  lemma PrefixAndRest(unsigned: Message, signed: Signed)
    requires Extends(signed.message.instructions, unsigned.instructions)
    requires AllowedPrefix(signed.message.instructions[..|signed.message.instructions| - |unsigned.instructions|])
    ensures var guardIndex := |signed.message.instructions| - |unsigned.instructions|;
            var ours, theirs := PlainAll(unsigned.instructions), PlainAll(signed.message.instructions);
            theirs[guardIndex..] == ours && Accountless(theirs[..guardIndex])
  {
    var guardIndex := |signed.message.instructions| - |unsigned.instructions|;
    var ours, theirs := PlainAll(unsigned.instructions), PlainAll(signed.message.instructions);
    forall k | 0 <= k < |ours| ensures theirs[guardIndex + k] == ours[k] {
      assert Same(unsigned.instructions[k], signed.message.instructions[guardIndex + k]);
    }
    forall k | 0 <= k < guardIndex ensures theirs[k].accounts == [] {
      assert AccountsOf(signed.message.instructions[..guardIndex][k]) == [];
    }
  }

  /** An accepted signature leaves everything behind the prefix as the
      instructions sysvar showed it before signing: same programs, accounts,
      flags and data, hence the same commitments, of one instruction or of all. */
  lemma AcceptedMeansUnchanged(unsigned: Message, signed: Signed, feePayer: string)
    requires Extends(signed.message.instructions, unsigned.instructions)
    requires AllowedPrefix(signed.message.instructions[..|signed.message.instructions| - |unsigned.instructions|])
    ensures var guardIndex := |signed.message.instructions| - |unsigned.instructions|;
            var ours, theirs := PlainAll(unsigned.instructions), PlainAll(signed.message.instructions);
            && theirs[guardIndex..] == ours
            && View(theirs, feePayer)[guardIndex..] == View(ours, feePayer)
  {
    hide View, AllowedPrefix, Same, Plain, IsBudget, Accountless, PlainAll;
    PrefixAndRest(unsigned, signed);
    UnseenBefore(PlainAll(signed.message.instructions), |signed.message.instructions| - |unsigned.instructions|,
                 feePayer);
  }
}
