/** The suffix digest the demo recomputes from a recorded transaction: index by index
    through the runtime's key list and the header's flags. */
module DemoDigest {
  import opened Bytes
  import opened Base58
  import opened Guard
  import opened Commitment
  import opened SysvarView
  import opened Encoders
  import opened OnChain
  import G = Grammar
  import W = Wire

  /** What `resolved` looks indexes up in: the header, and the keys in runtime order. */
  datatype Runtime = Runtime(header: W.Header, statics: seq<string>, writable: seq<string>, readonly: seq<string>)

  /** A key past the end is undefined in the source, and no more decodable than an empty text. */
  function KeyAt(r: Runtime, i: nat): string {
    var keys := W.KeysOf(r.statics, r.writable, r.readonly);
    if i < |keys| then keys[i] else ""
  }

  function MetaAt(r: Runtime, i: nat): Meta {
    Meta(KeyAt(r, i), W.SignerFlag(r.header, i), W.WritableFlag(r.header, |r.statics|, |r.writable|, i))
  }

  function Resolved(r: Runtime, c: W.Compiled): Instruction {
    Instruction(KeyAt(r, c.programIdIndex),
                seq(|c.accounts|, j requires 0 <= j < |c.accounts| => MetaAt(r, c.accounts[j])),
                KeyBytes(c.data))
  }

  function ResolvedAll(r: Runtime, cs: seq<W.Compiled>): (s: seq<Instruction>)
    ensures |s| == |cs|
    ensures forall k :: 0 <= k < |s| ==> s[k] == Resolved(r, cs[k])
  {
    seq(|cs|, k requires 0 <= k < |cs| => Resolved(r, cs[k]))
  }

  /** What `key32`, `b58d` and `writeUInt32LE` accept of one instruction; they throw on anything else. */
  predicate Digestible(r: Runtime, c: W.Compiled) {
    InAlphabet(c.data) && Encodable(Resolved(r, c))
  }

  // ------------------------------------------------------------ as a program

  /** `key32`. */
  method Key32(address: string) returns (key: Option<seq<byte>>)
    ensures key == if IsKey(address) then Some(KeyBytes(address)) else None
  {
    hide Decode;
    var b := B58d(address);
    if b.None? || |b.value| != 32 {
      return None;
    }
    key := b;
  }

  /** The accounts of one instruction: a key, then its two flags. */
  method PushAccounts(parts: seq<seq<byte>>, r: Runtime, c: W.Compiled) returns (out: Option<seq<seq<byte>>>)
    ensures out.Some? <==> forall k :: 0 <= k < |c.accounts| ==> IsKey(KeyAt(r, c.accounts[k]))
    ensures out.Some? ==> Concat(out.value) == Concat(parts) + EncodeMetas(KeyBytes, Resolved(r, c).accounts)
  {
    hide Concat, EncodeMetas, IsKey, KeyBytes, KeyAt, W.SignerFlag, W.WritableFlag;
    ghost var metas := Resolved(r, c).accounts;
    var pushed := parts;
    NoMetas(KeyBytes);
    for k := 0 to |c.accounts|
      invariant forall j :: 0 <= j < k ==> IsKey(KeyAt(r, c.accounts[j]))
      invariant Concat(pushed) == Concat(parts) + EncodeMetas(KeyBytes, metas[..k])
    {
      var m := MetaAt(r, c.accounts[k]);
      var key := Key32(m.pubkey);
      if key.None? {
        return None;
      }
      assert metas[..k + 1] == metas[..k] + [m];
      MetasSnoc(KeyBytes, metas[..k], m);
      var flags := [Flag(m.isSigner), Flag(m.isWritable)];
      ConcatSnoc(pushed, key.value);
      ConcatSnoc(pushed + [key.value], flags);
      pushed := pushed + [key.value] + [flags];
    }
    assert metas[..|c.accounts|] == metas;
    out := Some(pushed);
  }

  method PushResolved(parts: seq<seq<byte>>, r: Runtime, c: W.Compiled) returns (out: Option<seq<seq<byte>>>)
    ensures out.Some? <==> Digestible(r, c)
    ensures out.Some? ==> Concat(out.value) == Concat(parts) + EncodeInstruction(KeyBytes, Resolved(r, c))
  {
    hide Concat, EncodeMetas, IsKey, KeyAt, Decode, MetaAt;
    var program := Key32(KeyAt(r, c.programIdIndex));
    if program.None? || |c.accounts| >= 0x1_0000_0000 {
      return None;
    }
    ConcatSnoc(parts, program.value);
    ConcatSnoc(parts + [program.value], U32(|c.accounts|));
    var pushed := PushAccounts(parts + [program.value] + [U32(|c.accounts|)], r, c);
    AccountKeys(r, c);
    if pushed.None? {
      return None;
    }
    var d := B58d(c.data);
    if d.None? || |d.value| >= 0x1_0000_0000 {
      return None;
    }
    ConcatSnoc(pushed.value, U32(|d.value|));
    ConcatSnoc(pushed.value + [U32(|d.value|)], d.value);
    out := Some(pushed.value + [U32(|d.value|)] + [d.value]);
  }

  lemma AccountKeys(r: Runtime, c: W.Compiled)
    ensures forall k :: 0 <= k < |c.accounts| ==> Resolved(r, c).accounts[k].pubkey == KeyAt(r, c.accounts[k])
  {
  }

  method PushSuffix(parts: seq<seq<byte>>, r: Runtime, suffix: seq<W.Compiled>) returns (out: Option<seq<seq<byte>>>)
    ensures out.Some? <==> forall k :: 0 <= k < |suffix| ==> Digestible(r, suffix[k])
    ensures out.Some? ==> Concat(out.value) == Concat(parts) + EncodeAll(KeyBytes, ResolvedAll(r, suffix))
  {
    hide Concat, Digestible, EncodeInstruction, Resolved, EncodeAll, KeyBytes;
    ghost var all := ResolvedAll(r, suffix);
    var pushed := parts;
    NothingEncoded();
    assert all[..0] == [];
    for k := 0 to |suffix|
      invariant forall j :: 0 <= j < k ==> Digestible(r, suffix[j])
      invariant Concat(pushed) == Concat(parts) + EncodeAll(KeyBytes, all[..k])
    {
      var more := PushResolved(pushed, r, suffix[k]);
      if more.None? {
        return None;
      }
      assert all[..k + 1] == all[..k] + [all[k]];
      AllSnoc(KeyBytes, all[..k], all[k]);
      pushed := more.value;
    }
    assert all[..|suffix|] == all;
    out := Some(pushed);
  }

  lemma NothingEncoded()
    ensures EncodeAll(KeyBytes, []) == []
  {
  }

  lemma DomainAndCount(count: seq<byte>)
    ensures Concat([Ascii(JUPITER_SUFFIX_DOMAIN), count]) == Ascii(JUPITER_SUFFIX_DOMAIN) + count
  {
    hide Concat, Ascii;
    var domain := Ascii(JUPITER_SUFFIX_DOMAIN);
    NoParts();
    ConcatSnoc([], domain);
    ConcatSnoc([domain], count);
    assert [] + [domain] == [domain] && [domain] + [count] == [domain, count];
  }

  /** `suffixCommitment`, over every instruction but the first. */
  method SuffixCommitment(sha: Sha, r: Runtime, instructions: seq<W.Compiled>) returns (digest: Option<Bytes32>)
    ensures var suffix := if instructions == [] then [] else instructions[1..];
            && (digest.Some? <==>
                  |suffix| < 0x1_0000_0000 && forall k :: 0 <= k < |suffix| ==> Digestible(r, suffix[k]))
            && (digest.Some? ==> digest.value == sha(SuffixPreimage(KeyBytes, ResolvedAll(r, suffix))))
  {
    hide Concat, Digestible, Resolved, EncodeAll, KeyBytes, Ascii, U32;
    var suffix := if instructions == [] then [] else instructions[1..];
    if |suffix| >= 0x1_0000_0000 {
      return None;
    }
    DomainAndCount(U32(|suffix|));
    var parts := PushSuffix([Ascii(JUPITER_SUFFIX_DOMAIN), U32(|suffix|)], r, suffix);
    if parts.None? {
      return None;
    }
    var joined := JoinParts(parts.value);
    digest := Some(sha(joined[..]));
  }

  // ---------------------------------------------- against the program's view

  /** The compiled instructions name the programs, accounts and data of `tx`. */
  predicate CompiledFrom(r: Runtime, cs: seq<W.Compiled>, tx: seq<Instruction>) {
    && |cs| == |tx|
    && forall k :: 0 <= k < |cs| ==>
         && KeyAt(r, cs[k].programIdIndex) == tx[k].programId && KeyBytes(cs[k].data) == tx[k].data
         && |cs[k].accounts| == |tx[k].accounts|
         && forall j :: 0 <= j < |cs[k].accounts| ==> KeyAt(r, cs[k].accounts[j]) == tx[k].accounts[j].pubkey
  }

  /** The header gives index `i` the flags the whole transaction gives its key. */
  predicate Merged(r: Runtime, tx: seq<Instruction>, feePayer: string, i: nat) {
    && (W.SignerFlag(r.header, i) <==> KeyAt(r, i) in {feePayer} + Signers(tx))
    && (W.WritableFlag(r.header, |r.statics|, |r.writable|, i) <==> KeyAt(r, i) in {feePayer} + Writables(tx))
  }

  lemma ResolvedSeenExactly(r: Runtime, c: W.Compiled, i: Instruction, tx: seq<Instruction>, feePayer: string)
    requires KeyAt(r, c.programIdIndex) == i.programId && KeyBytes(c.data) == i.data && |c.accounts| == |i.accounts|
    requires forall j :: 0 <= j < |c.accounts| ==> KeyAt(r, c.accounts[j]) == i.accounts[j].pubkey
    ensures Resolved(r, c) == Seen(i, tx, feePayer) <==>
            forall j :: 0 <= j < |c.accounts| ==> Merged(r, tx, feePayer, c.accounts[j])
  {
    hide KeyAt, W.SignerFlag, W.WritableFlag, KeyBytes, Signers, Writables;
    var left, right := Resolved(r, c), Seen(i, tx, feePayer);
    forall j | 0 <= j < |c.accounts|
      ensures left.accounts[j] == right.accounts[j] <==> Merged(r, tx, feePayer, c.accounts[j])
    {
    }
    if forall j :: 0 <= j < |c.accounts| ==> Merged(r, tx, feePayer, c.accounts[j]) {
      assert left.accounts == right.accounts;
    }
  }

  /** Resolving a compiled transaction shows what the instructions sysvar shows exactly
      when every index it uses has the merged flags of its key. */
  lemma ResolvedIsTheViewExactly(r: Runtime, cs: seq<W.Compiled>, tx: seq<Instruction>, feePayer: string)
    requires CompiledFrom(r, cs, tx)
    ensures ResolvedAll(r, cs) == View(tx, feePayer) <==>
            forall k, j :: 0 <= k < |cs| && 0 <= j < |cs[k].accounts| ==> Merged(r, tx, feePayer, cs[k].accounts[j])
  {
    hide KeyAt, Merged, Resolved, Seen, KeyBytes;
    var left, right := ResolvedAll(r, cs), View(tx, feePayer);
    forall k | 0 <= k < |cs|
      ensures left[k] == right[k] <==>
              forall j :: 0 <= j < |cs[k].accounts| ==> Merged(r, tx, feePayer, cs[k].accounts[j])
    {
      ResolvedSeenExactly(r, cs[k], tx[k], tx, feePayer);
    }
    if forall k, j :: 0 <= k < |cs| && 0 <= j < |cs[k].accounts| ==> Merged(r, tx, feePayer, cs[k].accounts[j]) {
      assert left == right;
    }
  }

  /** Keys in the compiler's order: writable signers, signers, writables, the rest; then
      the loaded writables and the loaded rest, none of which signs. */
  predicate Ordered(r: Runtime, tx: seq<Instruction>, feePayer: string) {
    var h, n := r.header, |r.statics|;
    var signers, writables := {feePayer} + Signers(tx), {feePayer} + Writables(tx);
    && h.readonlySigned <= h.signatures <= n && h.signatures + h.readonlyUnsigned <= n
    && (forall i :: 0 <= i < n ==> (i < h.signatures <==> r.statics[i] in signers))
    && (forall i :: 0 <= i < h.signatures ==> (i < h.signatures - h.readonlySigned <==> r.statics[i] in writables))
    && (forall i :: h.signatures <= i < n ==> (i < n - h.readonlyUnsigned <==> r.statics[i] in writables))
    && (forall i :: 0 <= i < |r.writable| ==> r.writable[i] !in signers && r.writable[i] in writables)
    && (forall i :: 0 <= i < |r.readonly| ==> r.readonly[i] !in signers && r.readonly[i] !in writables)
  }

  lemma OrderedKeysAreMerged(r: Runtime, tx: seq<Instruction>, feePayer: string, i: nat)
    requires Ordered(r, tx, feePayer) && i < |W.KeysOf(r.statics, r.writable, r.readonly)|
    ensures Merged(r, tx, feePayer, i)
  {
    hide Signers, Writables;
    var keys := W.KeysOf(r.statics, r.writable, r.readonly);
    var n, m := |r.statics|, |r.writable|;
    assert keys[i] == if i < n then r.statics[i] else if i < n + m then r.writable[i - n] else r.readonly[i - n - m];
  }

  /** So on a transaction compiled in that order the demo's digest is the one the program
      compares with the guard's: its suffix check is the rules and that one equality. */
  lemma DemoDigestIsTheProgramsOwn(sha: Sha, ata: Ata, r: Runtime, cs: seq<W.Compiled>, tx: seq<Instruction>,
                                   feePayer: string, role: G.Direction, commitment: Bytes32, mint: string)
    requires CompiledFrom(r, cs, tx) && Ordered(r, tx, feePayer) && cs != []
    requires forall k, j :: 0 <= k < |cs| && 0 <= j < |cs[k].accounts| ==>
               cs[k].accounts[j] < |W.KeysOf(r.statics, r.writable, r.readonly)|
    requires forall k :: 0 < k < |cs| ==> Digestible(r, cs[k])
    ensures ResolvedAll(r, cs[1..]) == View(tx, feePayer)[1..]
    ensures VerifyJupiterSuffix(sha, ata, View(tx, feePayer), 0, role, commitment, mint) == Allow <==>
            && CheckSuffix(ata, View(tx, feePayer)[1..], role, mint) == Allow
            && sha(SuffixPreimage(KeyBytes, ResolvedAll(r, cs[1..]))) == commitment
  {
    hide Ordered, Merged, CompiledFrom, Seen, SuffixPreimage, KeyBytes, CheckSuffix, Resolved, IsKey, InAlphabet;
    forall k, j | 0 <= k < |cs| && 0 <= j < |cs[k].accounts| ensures Merged(r, tx, feePayer, cs[k].accounts[j]) {
      OrderedKeysAreMerged(r, tx, feePayer, cs[k].accounts[j]);
    }
    ResolvedIsTheViewExactly(r, cs, tx, feePayer);
    var suffix := View(tx, feePayer)[1..];
    assert suffix == ResolvedAll(r, cs)[1..] == ResolvedAll(r, cs[1..]);
    forall k | 0 <= k < |suffix| ensures |suffix[k].accounts| < 0x1_0000_0000 && |suffix[k].data| < 0x1_0000_0000 {
      assert suffix[k] == Resolved(r, cs[k + 1]) && Digestible(r, cs[k + 1]);
    }
  }
}
