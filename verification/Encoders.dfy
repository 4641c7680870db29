/** The two encoders that build commitment preimages piece by piece, and where
    they part: the research encoder decodes addresses through hexadecimal. */
module Encoders {
  import opened Bytes
  import opened Base58
  import opened Commitment
  import opened Addresses

  function Concat(parts: seq<seq<byte>>): seq<byte> {
    if parts == [] then [] else Concat(parts[..|parts| - 1]) + parts[|parts| - 1]
  }

  lemma ConcatSnoc(parts: seq<seq<byte>>, part: seq<byte>)
    ensures Concat(parts + [part]) == Concat(parts) + part
  {
    assert (parts + [part])[..|parts|] == parts;
  }

  /** `new Uint8Array(total)` filled by `set(part, offset)`, part after part. */
  method JoinParts(parts: seq<seq<byte>>) returns (out: array<byte>)
    ensures fresh(out) && out[..] == Concat(parts)
  {
    var total := 0;
    for i := 0 to |parts|
      invariant total == |Concat(parts[..i])|
    {
      assert parts[..i + 1] == parts[..i] + [parts[i]];
      ConcatSnoc(parts[..i], parts[i]);
      total := total + |parts[i]|;
    }
    assert parts[..|parts|] == parts;
    out := new byte[total];
    var offset := 0;
    for i := 0 to |parts|
      invariant offset == |Concat(parts[..i])| <= total
      invariant out[..offset] == Concat(parts[..i])
    {
      assert parts[..i + 1] == parts[..i] + [parts[i]];
      ConcatSnoc(parts[..i], parts[i]);
      ConcatGrows(parts, i + 1);
      forall k | 0 <= k < |parts[i]| {
        out[offset + k] := parts[i][k];
      }
      offset := offset + |parts[i]|;
    }
    assert out[..] == out[..offset];
  }

  lemma {:induction false} ConcatGrows(parts: seq<seq<byte>>, i: nat)
    requires i <= |parts|
    ensures |Concat(parts[..i])| <= |Concat(parts)|
    decreases |parts| - i
  {
    if i < |parts| {
      assert parts[..i + 1] == parts[..i] + [parts[i]];
      ConcatSnoc(parts[..i], parts[i]);
      ConcatGrows(parts, i + 1);
    } else {
      assert parts[..i] == parts;
    }
  }

  // ------------------------------------------------- the reference encoder

  /** What `unb58` and `struct.pack("<I", ...)` accept. */
  predicate Packable(i: Instruction) {
    && InAlphabet(i.programId) && |i.accounts| < 0x1_0000_0000 && |i.data| < 0x1_0000_0000
    && forall k :: 0 <= k < |i.accounts| ==> InAlphabet(i.accounts[k].pubkey)
  }

  lemma MetasSnoc(key: string -> seq<byte>, accounts: seq<Meta>, m: Meta)
    ensures EncodeMetas(key, accounts + [m]) ==
            EncodeMetas(key, accounts) + (key(m.pubkey) + [Flag(m.isSigner), Flag(m.isWritable)])
  {
    if accounts == [] {
      assert accounts + [m] == [m] && [m][1..] == [];
    } else {
      assert (accounts + [m])[1..] == accounts[1..] + [m];
    }
  }

  lemma AllSnoc(key: string -> seq<byte>, suffix: seq<Instruction>, i: Instruction)
    ensures EncodeAll(key, suffix + [i]) == EncodeAll(key, suffix) + EncodeInstruction(key, i)
  {
    hide EncodeInstruction;
    if suffix == [] {
      assert suffix + [i] == [i] && [i][1..] == [];
    } else {
      assert (suffix + [i])[1..] == suffix[1..] + [i];
    }
  }

  /** `encode_instruction`: a growing byte array, refused when an address does not decode. */
  method EncodeOne(i: Instruction) returns (out: Option<seq<byte>>)
    ensures out.Some? <==>
            && InAlphabet(i.programId) && |i.accounts| <= 0xffff_ffff && |i.data| <= 0xffff_ffff
            && forall m :: m in i.accounts ==> InAlphabet(m.pubkey)
    ensures out == if Packable(i) then Some(EncodeInstruction(KeyBytes, i)) else None
  {
    hide Decode, EncodeMetas;
    NoMetas(KeyBytes);
    var program := Unb58(i.programId);
    if program.None? || |i.accounts| >= 0x1_0000_0000 {
      return None;
    }
    var bytes := program.value + U32(|i.accounts|);
    for k := 0 to |i.accounts|
      invariant forall j :: 0 <= j < k ==> InAlphabet(i.accounts[j].pubkey)
      invariant bytes == KeyBytes(i.programId) + U32(|i.accounts|) + EncodeMetas(KeyBytes, i.accounts[..k])
    {
      var account := Unb58(i.accounts[k].pubkey);
      if account.None? {
        return None;
      }
      assert i.accounts[..k + 1] == i.accounts[..k] + [i.accounts[k]];
      MetasSnoc(KeyBytes, i.accounts[..k], i.accounts[k]);
      bytes := bytes + account.value;
      bytes := bytes + [Flag(i.accounts[k].isSigner)];
      bytes := bytes + [Flag(i.accounts[k].isWritable)];
    }
    assert i.accounts[..|i.accounts|] == i.accounts;
    if |i.data| >= 0x1_0000_0000 {
      return None;
    }
    assert bytes + (U32(|i.data|) + i.data) == EncodeInstruction(KeyBytes, i);
    out := Some(bytes + (U32(|i.data|) + i.data));
  }

  // ---------------------------------------------------- the research encoder

  /** The bytes the research encoder writes for an address. */
  function HexKeyBytes(address: string): seq<byte> {
    match DecodeThroughHex(address) case Some(b) => b case None => []
  }

  /** The parts one instruction adds, in the order they are pushed. */
  method PushInstruction(parts: seq<seq<byte>>, i: Instruction) returns (out: Option<seq<seq<byte>>>)
    ensures out.Some? <==> Packable(i)
    ensures out.Some? ==> Concat(out.value) == Concat(parts) + EncodeInstruction(HexKeyBytes, i)
  {
    hide DecodeThroughHex, EncodeMetas, Concat;
    var program := Bs58Decode(i.programId);
    HexDecodes(i.programId);
    if program.None? || |i.accounts| >= 0x1_0000_0000 {
      return None;
    }
    var pushed := parts + [program.value];
    pushed := pushed + [U32(|i.accounts|)];
    ConcatSnoc(parts, program.value);
    ConcatSnoc(parts + [program.value], U32(|i.accounts|));
    ghost var head := Concat(pushed);
    NoMetas(HexKeyBytes);
    for k := 0 to |i.accounts|
      invariant forall j :: 0 <= j < k ==> InAlphabet(i.accounts[j].pubkey)
      invariant Concat(pushed) == head + EncodeMetas(HexKeyBytes, i.accounts[..k])
    {
      var m := i.accounts[k];
      var account := Bs58Decode(m.pubkey);
      HexDecodes(m.pubkey);
      if account.None? {
        return None;
      }
      assert i.accounts[..k + 1] == i.accounts[..k] + [m];
      MetasSnoc(HexKeyBytes, i.accounts[..k], m);
      var flags := [Flag(m.isSigner), Flag(m.isWritable)];
      ConcatSnoc(pushed, account.value);
      ConcatSnoc(pushed + [account.value], flags);
      pushed := pushed + [account.value] + [flags];
    }
    assert i.accounts[..|i.accounts|] == i.accounts;
    if |i.data| >= 0x1_0000_0000 {
      return None;
    }
    ConcatSnoc(pushed, U32(|i.data|));
    ConcatSnoc(pushed + [U32(|i.data|)], i.data);
    out := Some(pushed + [U32(|i.data|)] + [i.data]);
  }

  lemma NoMetas(key: string -> seq<byte>)
    ensures EncodeMetas(key, []) == []
  {
  }

  lemma HexDecodes(address: string)
    ensures DecodeThroughHex(address).Some? <==> InAlphabet(address)
    ensures InAlphabet(address) ==> HexKeyBytes(address) == DecodeThroughHex(address).value
  {
  }

  /** `suffixCommitmentPreimage`: parts are pushed, then joined. */
  method SuffixCommitmentPreimage(suffix: seq<Instruction>) returns (out: Option<seq<byte>>)
    ensures out.Some? <==> |suffix| < 0x1_0000_0000 && forall k :: 0 <= k < |suffix| ==> Packable(suffix[k])
    ensures out.Some? ==> out.value == SuffixPreimage(HexKeyBytes, suffix)
  {
    hide EncodeInstruction, Packable, Concat;
    if |suffix| >= 0x1_0000_0000 {
      return None;
    }
    var parts := [Ascii(JUPITER_SUFFIX_DOMAIN)];
    parts := parts + [U32(|suffix|)];
    NoParts();
    ConcatSnoc([], Ascii(JUPITER_SUFFIX_DOMAIN));
    ConcatSnoc([Ascii(JUPITER_SUFFIX_DOMAIN)], U32(|suffix|));
    assert [] + [Ascii(JUPITER_SUFFIX_DOMAIN)] == [Ascii(JUPITER_SUFFIX_DOMAIN)];
    ghost var head := Concat(parts);
    assert head == Ascii(JUPITER_SUFFIX_DOMAIN) + U32(|suffix|);
    for k := 0 to |suffix|
      invariant forall j :: 0 <= j < k ==> Packable(suffix[j])
      invariant Concat(parts) == head + EncodeAll(HexKeyBytes, suffix[..k])
    {
      var pushed := PushInstruction(parts, suffix[k]);
      if pushed.None? {
        return None;
      }
      assert suffix[..k + 1] == suffix[..k] + [suffix[k]];
      AllSnoc(HexKeyBytes, suffix[..k], suffix[k]);
      parts := pushed.value;
    }
    assert suffix[..|suffix|] == suffix;
    var joined := JoinParts(parts);
    out := Some(joined[..]);
  }

  lemma NoParts()
    ensures Concat([]) == []
  {
  }

  // ------------------------------------------------------- where they differ

  predicate AllOnes(address: string) {
    forall i :: 0 <= i < |address| ==> address[i] == '1'
  }

  function OnesInMetas(accounts: seq<Meta>): nat {
    if accounts == [] then 0
    else (if AllOnes(accounts[0].pubkey) then 1 else 0) + OnesInMetas(accounts[1..])
  }

  function OnesIn(suffix: seq<Instruction>): nat {
    if suffix == [] then 0
    else (if AllOnes(suffix[0].programId) then 1 else 0) + OnesInMetas(suffix[0].accounts) + OnesIn(suffix[1..])
  }

  lemma HexKey(address: string)
    requires InAlphabet(address)
    ensures !AllOnes(address) ==> HexKeyBytes(address) == KeyBytes(address)
    ensures AllOnes(address) ==> |HexKeyBytes(address)| == |KeyBytes(address)| + 1
  {
    HexDecoderAgreesExactly(address);
  }

  lemma {:induction false} HexMetas(accounts: seq<Meta>)
    requires forall k :: 0 <= k < |accounts| ==> InAlphabet(accounts[k].pubkey)
    ensures |EncodeMetas(HexKeyBytes, accounts)| == |EncodeMetas(KeyBytes, accounts)| + OnesInMetas(accounts)
    ensures OnesInMetas(accounts) == 0 ==> EncodeMetas(HexKeyBytes, accounts) == EncodeMetas(KeyBytes, accounts)
  {
    hide HexKeyBytes, KeyBytes, AllOnes, InAlphabet;
    if accounts != [] {
      HexKey(accounts[0].pubkey);
      HexMetas(accounts[1..]);
    }
  }

  lemma {:induction false} HexAll(suffix: seq<Instruction>)
    requires forall k :: 0 <= k < |suffix| ==> Packable(suffix[k])
    ensures |EncodeAll(HexKeyBytes, suffix)| == |EncodeAll(KeyBytes, suffix)| + OnesIn(suffix)
    ensures OnesIn(suffix) == 0 ==> EncodeAll(HexKeyBytes, suffix) == EncodeAll(KeyBytes, suffix)
  {
    hide HexKeyBytes, KeyBytes, AllOnes, InAlphabet, EncodeMetas, OnesInMetas;
    if suffix != [] {
      assert Packable(suffix[0]);
      HexKey(suffix[0].programId);
      HexMetas(suffix[0].accounts);
      HexAll(suffix[1..]);
    }
  }

  /** The two encoders write the same preimage exactly when no address of the
      suffix is written with `1`s alone. */
  lemma EncodersAgreeExactly(suffix: seq<Instruction>)
    requires forall k :: 0 <= k < |suffix| ==> Packable(suffix[k])
    ensures SuffixPreimage(HexKeyBytes, suffix) == SuffixPreimage(KeyBytes, suffix) <==> OnesIn(suffix) == 0
  {
    hide EncodeAll;
    HexAll(suffix);
  }

  lemma {:induction false} OneInMetas(accounts: seq<Meta>, j: nat)
    requires j < |accounts| && AllOnes(accounts[j].pubkey)
    ensures OnesInMetas(accounts) > 0
  {
    if j > 0 {
      OneInMetas(accounts[1..], j - 1);
    }
  }

  lemma {:induction false} OneInAll(suffix: seq<Instruction>, k: nat, j: nat)
    requires k < |suffix| && j < |suffix[k].accounts| && AllOnes(suffix[k].accounts[j].pubkey)
    ensures OnesIn(suffix) > 0
  {
    if k > 0 {
      OneInAll(suffix[1..], k - 1, j);
    } else {
      OneInMetas(suffix[0].accounts, j);
    }
  }

  /** So they part on every suffix that creates a token account, which names the system program. */
  lemma SetupSplitsTheEncoders(suffix: seq<Instruction>, k: nat, j: nat)
    requires forall i :: 0 <= i < |suffix| ==> Packable(suffix[i])
    requires k < |suffix| && j < |suffix[k].accounts| && suffix[k].accounts[j].pubkey == SYSTEM_PROGRAM
    ensures SuffixPreimage(HexKeyBytes, suffix) != SuffixPreimage(KeyBytes, suffix)
  {
    assert AllOnes(SYSTEM_PROGRAM);
    OneInAll(suffix, k, j);
    EncodersAgreeExactly(suffix);
  }
}
