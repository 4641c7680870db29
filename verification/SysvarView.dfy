/** Transaction-level account flags: an account is a signer, or writable, in
    every instruction as soon as one instruction says so, and the fee payer is
    both. What the commitments cover is the instructions seen this way. */
module SysvarView {
  import opened Commitment

  function SignersOf(accounts: seq<Meta>): set<string> {
    set m | m in accounts && m.isSigner :: m.pubkey
  }

  function WritablesOf(accounts: seq<Meta>): set<string> {
    set m | m in accounts && m.isWritable :: m.pubkey
  }

  function Signers(instructions: seq<Instruction>): set<string> {
    set i, m | i in instructions && m in i.accounts && m.isSigner :: m.pubkey
  }

  function Writables(instructions: seq<Instruction>): set<string> {
    set i, m | i in instructions && m in i.accounts && m.isWritable :: m.pubkey
  }

  function Flagged(accounts: seq<Meta>, signer: set<string>, writable: set<string>): (r: seq<Meta>)
    ensures |r| == |accounts|
  {
    seq(|accounts|, k requires 0 <= k < |accounts| =>
        Meta(accounts[k].pubkey, accounts[k].pubkey in signer, accounts[k].pubkey in writable))
  }

  /** One instruction as the sysvar of a transaction made of `instructions` shows it. */
  function Seen(i: Instruction, instructions: seq<Instruction>, feePayer: string): Instruction {
    Instruction(i.programId,
                Flagged(i.accounts, {feePayer} + Signers(instructions), {feePayer} + Writables(instructions)),
                i.data)
  }

  function View(instructions: seq<Instruction>, feePayer: string): (r: seq<Instruction>)
    ensures |r| == |instructions|
    ensures forall k :: 0 <= k < |r| ==> r[k] == Seen(instructions[k], instructions, feePayer)
  {
    seq(|instructions|, k requires 0 <= k < |instructions| => Seen(instructions[k], instructions, feePayer))
  }

  /** Some instruction of the transaction asks this of the account. */
  ghost predicate Asked(instructions: seq<Instruction>, address: string, signing: bool) {
    exists i, m ::
      i in instructions && m in i.accounts && m.pubkey == address && if signing then m.isSigner else m.isWritable
  }

  /** What the sysvar shows: every program, address and byte as it was, and a flag wherever
      any instruction sets it for that address, or the address is the fee payer's. */
  lemma ViewShows(instructions: seq<Instruction>, feePayer: string, k: nat, j: nat)
    requires k < |instructions| && j < |instructions[k].accounts|
    ensures var (was, seen) := (instructions[k], View(instructions, feePayer)[k]);
            && seen.programId == was.programId && seen.data == was.data && |seen.accounts| == |was.accounts|
            && var (m, shown) := (was.accounts[j], seen.accounts[j]);
            && shown.pubkey == m.pubkey
            && (shown.isSigner <==> m.pubkey == feePayer || Asked(instructions, m.pubkey, true))
            && (shown.isWritable <==> m.pubkey == feePayer || Asked(instructions, m.pubkey, false))
  {
  }

  // ------------------------------------------------------------ as programs

  lemma AccountsSnoc(accounts: seq<Meta>, m: Meta)
    ensures SignersOf(accounts + [m]) == SignersOf(accounts) + if m.isSigner then {m.pubkey} else {}
    ensures WritablesOf(accounts + [m]) == WritablesOf(accounts) + if m.isWritable then {m.pubkey} else {}
  {
    assert forall x :: x in accounts + [m] <==> x in accounts || x == m;
  }

  lemma InstructionsSnoc(instructions: seq<Instruction>, i: Instruction)
    ensures Signers(instructions + [i]) == Signers(instructions) + SignersOf(i.accounts)
    ensures Writables(instructions + [i]) == Writables(instructions) + WritablesOf(i.accounts)
  {
    assert forall x :: x in instructions + [i] <==> x in instructions || x == i;
  }

  /** `sysvar_view`: two sets grow over every account, then every instruction is rewritten. */
  method SysvarViewOf(instructions: seq<Instruction>, feePayer: string) returns (view: seq<Instruction>)
    ensures view == View(instructions, feePayer)
  {
    hide Signers, Writables, SignersOf, WritablesOf;
    var signer, writable := {feePayer}, {feePayer};
    NothingSigned();
    for i := 0 to |instructions|
      invariant signer == {feePayer} + Signers(instructions[..i])
      invariant writable == {feePayer} + Writables(instructions[..i])
    {
      var accounts := instructions[i].accounts;
      for j := 0 to |accounts|
        invariant signer == {feePayer} + Signers(instructions[..i]) + SignersOf(accounts[..j])
        invariant writable == {feePayer} + Writables(instructions[..i]) + WritablesOf(accounts[..j])
      {
        if accounts[j].isSigner {
          signer := signer + {accounts[j].pubkey};
        }
        if accounts[j].isWritable {
          writable := writable + {accounts[j].pubkey};
        }
        AccountsSnoc(accounts[..j], accounts[j]);
        assert accounts[..j + 1] == accounts[..j] + [accounts[j]];
      }
      assert accounts[..|accounts|] == accounts;
      InstructionsSnoc(instructions[..i], instructions[i]);
      assert instructions[..i + 1] == instructions[..i] + [instructions[i]];
    }
    assert instructions[..|instructions|] == instructions;
    view := [];
    for k := 0 to |instructions|
      invariant view == View(instructions, feePayer)[..k]
    {
      var i := instructions[k];
      view := view + [Instruction(i.programId, Flagged(i.accounts, signer, writable), i.data)];
    }
  }

  lemma NothingSigned()
    ensures Signers([]) == {} == Writables([])
    ensures SignersOf([]) == {} == WritablesOf([])
  {
  }

  /** The flags of one address, found by scanning the whole transaction for it. */
  method FlagsOf(address: string, instructions: seq<Instruction>, feePayer: string)
    returns (signer: bool, writable: bool)
    ensures signer <==> address in {feePayer} + Signers(instructions)
    ensures writable <==> address in {feePayer} + Writables(instructions)
  {
    hide Signers, Writables, SignersOf, WritablesOf;
    signer, writable := address == feePayer, address == feePayer;
    NothingSigned();
    for i := 0 to |instructions|
      invariant signer <==> address in {feePayer} + Signers(instructions[..i])
      invariant writable <==> address in {feePayer} + Writables(instructions[..i])
    {
      var accounts := instructions[i].accounts;
      for j := 0 to |accounts|
        invariant signer <==> address in {feePayer} + Signers(instructions[..i]) + SignersOf(accounts[..j])
        invariant writable <==> address in {feePayer} + Writables(instructions[..i]) + WritablesOf(accounts[..j])
      {
        AccountsSnoc(accounts[..j], accounts[j]);
        assert accounts[..j + 1] == accounts[..j] + [accounts[j]];
        if accounts[j].pubkey != address {
          continue;
        }
        signer := signer || accounts[j].isSigner;
        writable := writable || accounts[j].isWritable;
      }
      assert accounts[..|accounts|] == accounts;
      InstructionsSnoc(instructions[..i], instructions[i]);
      assert instructions[..i + 1] == instructions[..i] + [instructions[i]];
    }
    assert instructions[..|instructions|] == instructions;
  }

  /** `asCommittedInstruction`: the client's account-by-account computation is the
      entry the sysvar will hold. */
  method AsCommitted(target: Instruction, instructions: seq<Instruction>, feePayer: string)
    returns (committed: Instruction)
    ensures committed == Seen(target, instructions, feePayer)
  {
    hide Signers, Writables;
    var accounts: seq<Meta> := [];
    for k := 0 to |target.accounts|
      invariant accounts == Seen(target, instructions, feePayer).accounts[..k]
    {
      var signer, writable := FlagsOf(target.accounts[k].pubkey, instructions, feePayer);
      accounts := accounts + [Meta(target.accounts[k].pubkey, signer, writable)];
    }
    committed := Instruction(target.programId, accounts, target.data);
  }

  // ------------------------------------------------- what flags depend on

  /** Every account list of `s` that is not empty occurs in `t`. */
  ghost predicate Covers(s: seq<Instruction>, t: seq<Instruction>) {
    forall i :: 0 <= i < |s| && s[i].accounts != [] ==>
      exists j :: 0 <= j < |t| && t[j].accounts == s[i].accounts
  }

  lemma CoveredFlags(s: seq<Instruction>, t: seq<Instruction>)
    requires Covers(s, t)
    ensures Signers(s) <= Signers(t) && Writables(s) <= Writables(t)
  {
    forall i: Instruction | i in s && i.accounts != [] ensures exists j :: j in t && j.accounts == i.accounts {
      var k :| 0 <= k < |s| && s[k] == i;
      assert s[k].accounts != [];
      var j :| 0 <= j < |t| && t[j].accounts == s[k].accounts;
      assert t[j] in t;
    }
  }

  /** Programs, data, order and repetition never reach the flags: only the account lists do. */
  lemma SeenAlike(i: Instruction, s: seq<Instruction>, t: seq<Instruction>, feePayer: string)
    requires Covers(s, t) && Covers(t, s)
    ensures Seen(i, s, feePayer) == Seen(i, t, feePayer)
  {
    CoveredFlags(s, t);
    CoveredFlags(t, s);
    assert Signers(s) == Signers(t) && Writables(s) == Writables(t);
  }

  function Insert(suffix: seq<Instruction>, at: nat, i: Instruction): (r: seq<Instruction>)
    requires at <= |suffix|
    ensures |r| == |suffix| + 1
  {
    suffix[..at] + [i] + suffix[at..]
  }

  function Without(view: seq<Instruction>, at: nat): seq<Instruction>
    requires at < |view|
  {
    view[..at] + view[at + 1..]
  }

  lemma InsertionsCover(suffix: seq<Instruction>, a: Instruction, at: nat, b: Instruction, bt: nat)
    requires at <= |suffix| && bt <= |suffix| && a.accounts == b.accounts
    ensures Covers(Insert(suffix, at, a), Insert(suffix, bt, b))
  {
    var s, t := Insert(suffix, at, a), Insert(suffix, bt, b);
    forall i | 0 <= i < |s| ensures exists j :: 0 <= j < |t| && t[j].accounts == s[i].accounts {
      if i == at {
        assert t[bt] == b;
      } else {
        var k := if i < at then i else i - 1;
        assert s[i] == suffix[k];
        assert t[if k < bt then k else k + 1] == suffix[k];
      }
    }
  }

  /** The suffix seen beside a placeholder guard at the front is the suffix seen
      beside the finished guard, whatever its data and wherever it is put. */
  lemma GuardDataIsUnseen(suffix: seq<Instruction>, placeholder: Instruction, guard: Instruction,
                          at: nat, feePayer: string)
    requires at <= |suffix| && guard.accounts == placeholder.accounts
    ensures Without(View(Insert(suffix, at, guard), feePayer), at) == View([placeholder] + suffix, feePayer)[1..]
    ensures SuffixPreimage(KeyBytes, Without(View(Insert(suffix, at, guard), feePayer), at)) ==
            SuffixPreimage(KeyBytes, View([placeholder] + suffix, feePayer)[1..])
  {
    hide Seen, Covers, SuffixPreimage, Insert, Without, View;
    var built, final := Insert(suffix, 0, placeholder), Insert(suffix, at, guard);
    InsertAtFront(suffix, placeholder);
    InsertionsCover(suffix, placeholder, 0, guard, at);
    InsertionsCover(suffix, guard, at, placeholder, 0);
    var left, right := Without(View(final, feePayer), at), View(built, feePayer)[1..];
    InsertedView(suffix, guard, at, feePayer);
    InsertedView(suffix, placeholder, 0, feePayer);
    WithoutFirst(View(built, feePayer));
    forall k | 0 <= k < |suffix| ensures left[k] == right[k] {
      SeenAlike(suffix[k], final, built, feePayer);
    }
    assert left == right;
  }

  lemma InsertAtFront(suffix: seq<Instruction>, i: Instruction)
    ensures Insert(suffix, 0, i) == [i] + suffix
  {
  }

  lemma WithoutFirst(view: seq<Instruction>)
    requires view != []
    ensures Without(view, 0) == view[1..]
  {
  }

  lemma InsertedView(suffix: seq<Instruction>, i: Instruction, at: nat, feePayer: string)
    requires at <= |suffix|
    ensures |Without(View(Insert(suffix, at, i), feePayer), at)| == |suffix|
    ensures forall k :: 0 <= k < |suffix| ==>
              Without(View(Insert(suffix, at, i), feePayer), at)[k] == Seen(suffix[k], Insert(suffix, at, i), feePayer)
  {
    hide Seen;
    var whole := Insert(suffix, at, i);
    forall k | 0 <= k < |suffix| ensures whole[if k < at then k else k + 1] == suffix[k] {
    }
  }

  predicate Accountless(prefix: seq<Instruction>) {
    forall i :: 0 <= i < |prefix| ==> prefix[i].accounts == []
  }

  /** Instructions without accounts in front change nothing behind them. */
  lemma AccountlessPrefixIsUnseen(prefix: seq<Instruction>, instructions: seq<Instruction>, feePayer: string)
    requires Accountless(prefix)
    ensures View(prefix + instructions, feePayer)[|prefix|..] == View(instructions, feePayer)
  {
    hide Seen;
    var whole := prefix + instructions;
    forall i | 0 <= i < |whole| && whole[i].accounts != []
      ensures exists j :: 0 <= j < |instructions| && instructions[j].accounts == whole[i].accounts
    {
      assert whole[i] == instructions[i - |prefix|];
    }
    forall i | 0 <= i < |instructions| && instructions[i].accounts != []
      ensures exists j :: 0 <= j < |whole| && whole[j].accounts == instructions[i].accounts
    {
      assert whole[i + |prefix|] == instructions[i];
    }
    forall k | 0 <= k < |instructions|
      ensures Seen(instructions[k], whole, feePayer) == Seen(instructions[k], instructions, feePayer)
    {
      SeenAlike(instructions[k], whole, instructions, feePayer);
    }
    assert forall k :: 0 <= k < |instructions| ==> whole[|prefix| + k] == instructions[k];
  }

  lemma UnseenBefore(instructions: seq<Instruction>, from: nat, feePayer: string)
    requires from <= |instructions| && Accountless(instructions[..from])
    ensures View(instructions, feePayer)[from..] == View(instructions[from..], feePayer)
  {
    hide View, Accountless;
    assert instructions == instructions[..from] + instructions[from..];
    AccountlessPrefixIsUnseen(instructions[..from], instructions[from..], feePayer);
  }

  /** Looking twice shows nothing new. */
  lemma ViewIsIdempotent(instructions: seq<Instruction>, feePayer: string)
    ensures View(View(instructions, feePayer), feePayer) == View(instructions, feePayer)
  {
    var view := View(instructions, feePayer);
    var signer, writable := {feePayer} + Signers(instructions), {feePayer} + Writables(instructions);
    forall key | key in Signers(view) ensures key in signer {
      var i, m :| i in view && m in i.accounts && m.isSigner && m.pubkey == key;
    }
    forall key | key in Writables(view) ensures key in writable {
      var i, m :| i in view && m in i.accounts && m.isWritable && m.pubkey == key;
    }
    forall i, m | i in instructions && m in i.accounts ensures 
        (m.isSigner ==> m.pubkey in Signers(view)) && (m.isWritable ==> m.pubkey in Writables(view)) {
      var k :| 0 <= k < |instructions| && instructions[k] == i;
      var j :| 0 <= j < |i.accounts| && i.accounts[j] == m;
      assert view[k] in view && view[k].accounts[j] in view[k].accounts;
    }
    assert {feePayer} + Signers(view) == signer;
    assert {feePayer} + Writables(view) == writable;
    forall k | 0 <= k < |view| ensures Seen(view[k], view, feePayer) == view[k] {
      assert Flagged(view[k].accounts, signer, writable) == view[k].accounts;
    }
  }
}
