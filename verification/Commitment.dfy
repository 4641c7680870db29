/** Instructions as the Instructions sysvar exposes them, and the two
    commitments over them: what the digests bind and what they do not see. */
module Commitment {
  import opened Bytes
  import opened Base58

  datatype Meta = Meta(pubkey: string, isSigner: bool, isWritable: bool)
  datatype Instruction = Instruction(programId: string, accounts: seq<Meta>, data: seq<byte>)

  const DOWNSTREAM_DOMAIN := "EQUITYGUARD_DOWNSTREAM_V2"
  const JUPITER_SUFFIX_DOMAIN := "EQUITYGUARD_JUPITER_SUFFIX_V1"

  function Ascii(s: string): (b: seq<byte>)
    ensures |b| == |s|
  {
    seq(|s|, i requires 0 <= i < |s| => s[i] as int % 256)
  }

  function U32(n: nat): seq<byte> {
    LE(n, 4)
  }

  function Flag(b: bool): byte {
    if b then 1 else 0
  }

  // ---------------------------------------------------------------- encoding

  /** The encoding of one instruction, given how keys are turned into bytes. */
  function EncodeMetas(key: string -> seq<byte>, accounts: seq<Meta>): seq<byte> {
    if accounts == [] then []
    else key(accounts[0].pubkey) + [Flag(accounts[0].isSigner), Flag(accounts[0].isWritable)]
         + EncodeMetas(key, accounts[1..])
  }

  function EncodeInstruction(key: string -> seq<byte>, i: Instruction): seq<byte> {
    key(i.programId) + U32(|i.accounts|) + EncodeMetas(key, i.accounts) + U32(|i.data|) + i.data
  }

  function EncodeAll(key: string -> seq<byte>, suffix: seq<Instruction>): seq<byte> {
    if suffix == [] then [] else EncodeInstruction(key, suffix[0]) + EncodeAll(key, suffix[1..])
  }

  function DownstreamPreimage(key: string -> seq<byte>, i: Instruction): seq<byte> {
    Ascii(DOWNSTREAM_DOMAIN) + EncodeInstruction(key, i)
  }

  function SuffixPreimage(key: string -> seq<byte>, suffix: seq<Instruction>): seq<byte> {
    Ascii(JUPITER_SUFFIX_DOMAIN) + U32(|suffix|) + EncodeAll(key, suffix)
  }

  /** The 32 bytes an address stands for. */
  function KeyBytes(address: string): seq<byte> {
    match Decode(address) case Some(b) => b case None => []
  }

  predicate IsKey(address: string) {
    InAlphabet(address) && |KeyBytes(address)| == 32
  }

  /** Addresses and 32-byte keys are the same thing written twice. */
  lemma EveryKeyHasItsAddress(key: Bytes32)
    ensures IsKey(Encode(key)) && KeyBytes(Encode(key)) == key
  {
    DecodeOfEncode(key);
  }

  /** Lengths `struct.pack("<I", ...)` accepts, and addresses that are addresses. */
  predicate Encodable(i: Instruction) {
    && IsKey(i.programId) && |i.accounts| < 0x1_0000_0000 && |i.data| < 0x1_0000_0000
    && forall k :: 0 <= k < |i.accounts| ==> IsKey(i.accounts[k].pubkey)
  }

  predicate EncodableAll(suffix: seq<Instruction>) {
    |suffix| < 0x1_0000_0000 && forall k :: 0 <= k < |suffix| ==> Encodable(suffix[k])
  }

  // ----------------------------------------------------------------- parsing

  datatype RawMeta = RawMeta(pubkey: seq<byte>, isSigner: bool, isWritable: bool)
  datatype RawInstruction = RawInstruction(programId: seq<byte>, accounts: seq<RawMeta>, data: seq<byte>)
  datatype Parsed<T> = Parsed(value: T, rest: seq<byte>) | Malformed

  function ParseMetas(b: seq<byte>, n: nat): Parsed<seq<RawMeta>> {
    if n == 0 then Parsed([], b)
    else if |b| < 34 then Malformed
    else
      match ParseMetas(b[34..], n - 1)
      case Malformed => Malformed
      case Parsed(metas, rest) => Parsed([RawMeta(b[..32], b[32] == 1, b[33] == 1)] + metas, rest)
  }

  function ParseInstruction(b: seq<byte>): Parsed<RawInstruction> {
    if |b| < 36 then Malformed
    else
      match ParseMetas(b[36..], FromLE(b[32..36]))
      case Malformed => Malformed
      case Parsed(metas, rest) =>
        if |rest| < 4 || |rest| - 4 < FromLE(rest[..4]) then Malformed
        else
          var n := FromLE(rest[..4]);
          Parsed(RawInstruction(b[..32], metas, rest[4..4 + n]), rest[4 + n..])
  }

  function ParseAll(b: seq<byte>, n: nat): Parsed<seq<RawInstruction>>
    decreases n
  {
    if n == 0 then Parsed([], b)
    else
      match ParseInstruction(b)
      case Malformed => Malformed
      case Parsed(first, rest) =>
        match ParseAll(rest, n - 1)
        case Malformed => Malformed
        case Parsed(others, end) => Parsed([first] + others, end)
  }

  function RawOfMeta(m: Meta): RawMeta {
    RawMeta(KeyBytes(m.pubkey), m.isSigner, m.isWritable)
  }

  function RawOfMetas(accounts: seq<Meta>): (r: seq<RawMeta>)
    ensures |r| == |accounts|
    ensures forall k :: 0 <= k < |r| ==> r[k] == RawOfMeta(accounts[k])
  {
    seq(|accounts|, k requires 0 <= k < |accounts| => RawOfMeta(accounts[k]))
  }

  function RawOf(i: Instruction): RawInstruction {
    RawInstruction(KeyBytes(i.programId), RawOfMetas(i.accounts), i.data)
  }

  function RawOfAll(suffix: seq<Instruction>): (r: seq<RawInstruction>)
    ensures |r| == |suffix|
    ensures forall k :: 0 <= k < |r| ==> r[k] == RawOf(suffix[k])
  {
    seq(|suffix|, k requires 0 <= k < |suffix| => RawOf(suffix[k]))
  }

  lemma U32RoundTrip(n: nat)
    requires n < 0x1_0000_0000
    ensures |U32(n)| == 4 && FromLE(U32(n)) == n
  {
    PowersOf256();
    LERoundTrip(n, 4);
  }

  lemma NothingToParse(b: seq<byte>)
    ensures ParseMetas(b, 0) == Parsed([], b) && ParseAll(b, 0) == Parsed([], b)
  {
  }

  lemma ParseAllStep(b: seq<byte>, n: nat)
    requires n > 0 && ParseInstruction(b).Parsed? && ParseAll(ParseInstruction(b).rest, n - 1).Parsed?
    ensures var others := ParseAll(ParseInstruction(b).rest, n - 1);
            ParseAll(b, n) == Parsed([ParseInstruction(b).value] + others.value, others.rest)
  {
  }

  lemma OneMetaIsSelfDelimiting(m: Meta, encoded: seq<byte>, n: nat)
    requires IsKey(m.pubkey) && n > 0 && ParseMetas(encoded, n - 1).Parsed?
    ensures var p := ParseMetas(encoded, n - 1);
            ParseMetas(KeyBytes(m.pubkey) + [Flag(m.isSigner), Flag(m.isWritable)] + encoded, n) ==
            Parsed([RawOfMeta(m)] + p.value, p.rest)
  {
    hide Decode;
    var b := KeyBytes(m.pubkey) + [Flag(m.isSigner), Flag(m.isWritable)] + encoded;
    assert b[34..] == encoded && b[..32] == KeyBytes(m.pubkey);
    assert b[32] == Flag(m.isSigner) && b[33] == Flag(m.isWritable);
  }

  lemma {:induction false} MetasAreSelfDelimiting(accounts: seq<Meta>, rest: seq<byte>)
    requires forall k :: 0 <= k < |accounts| ==> IsKey(accounts[k].pubkey)
    ensures ParseMetas(EncodeMetas(KeyBytes, accounts) + rest, |accounts|) == Parsed(RawOfMetas(accounts), rest)
  {
    hide KeyBytes, ParseMetas, RawOfMeta, IsKey;
    if accounts == [] {
      assert EncodeMetas(KeyBytes, accounts) + rest == rest;
      assert RawOfMetas(accounts) == [];
      NothingToParse(rest);
    } else {
      var m, tail := accounts[0], accounts[1..];
      var encoded := EncodeMetas(KeyBytes, tail) + rest;
      MetasAreSelfDelimiting(tail, rest);
      OneMetaIsSelfDelimiting(m, encoded, |accounts|);
      assert EncodeMetas(KeyBytes, accounts) + rest ==
             KeyBytes(m.pubkey) + [Flag(m.isSigner), Flag(m.isWritable)] + encoded;
      assert RawOfMetas(accounts) == [RawOfMeta(m)] + RawOfMetas(tail);
    }
  }

  /** The encoding says where it ends: whatever follows it is left over. */
  lemma InstructionIsSelfDelimiting(i: Instruction, rest: seq<byte>)
    requires Encodable(i)
    ensures ParseInstruction(EncodeInstruction(KeyBytes, i) + rest) == Parsed(RawOf(i), rest)
  {
    hide KeyBytes;
    var tail := U32(|i.data|) + i.data + rest;
    var b := EncodeInstruction(KeyBytes, i) + rest;
    assert b == KeyBytes(i.programId) + U32(|i.accounts|) + (EncodeMetas(KeyBytes, i.accounts) + tail);
    assert b[..32] == KeyBytes(i.programId) && b[32..36] == U32(|i.accounts|);
    assert b[36..] == EncodeMetas(KeyBytes, i.accounts) + tail;
    U32RoundTrip(|i.accounts|);
    U32RoundTrip(|i.data|);
    MetasAreSelfDelimiting(i.accounts, tail);
    assert tail[..4] == U32(|i.data|);
    assert tail[4..4 + |i.data|] == i.data && tail[4 + |i.data|..] == rest;
  }

  lemma {:induction false} AllAreSelfDelimiting(suffix: seq<Instruction>, rest: seq<byte>)
    requires forall k :: 0 <= k < |suffix| ==> Encodable(suffix[k])
    ensures ParseAll(EncodeAll(KeyBytes, suffix) + rest, |suffix|) == Parsed(RawOfAll(suffix), rest)
  {
    hide ParseAll, ParseInstruction, EncodeInstruction, KeyBytes, RawOf, Encodable;
    if suffix == [] {
      assert EncodeAll(KeyBytes, suffix) + rest == rest;
      assert RawOfAll(suffix) == [];
      NothingToParse(rest);
    } else {
      var first, others := suffix[0], suffix[1..];
      var encoded := EncodeAll(KeyBytes, others) + rest;
      assert EncodeAll(KeyBytes, suffix) + rest == EncodeInstruction(KeyBytes, first) + encoded;
      InstructionIsSelfDelimiting(first, encoded);
      AllAreSelfDelimiting(others, rest);
      ParseAllStep(EncodeInstruction(KeyBytes, first) + encoded, |suffix|);
      assert RawOfAll(suffix) == [RawOf(first)] + RawOfAll(others);
    }
  }

  lemma KeysAreInjective(a: string, b: string)
    requires IsKey(a) && IsKey(b) && KeyBytes(a) == KeyBytes(b)
    ensures a == b
  {
    DecodeInjective(a, b);
  }

  lemma RawInjective(a: Instruction, b: Instruction)
    requires Encodable(a) && Encodable(b) && RawOf(a) == RawOf(b)
    ensures a == b
  {
    KeysAreInjective(a.programId, b.programId);
    forall k | 0 <= k < |a.accounts| ensures |b.accounts| == |a.accounts| && a.accounts[k] == b.accounts[k] {
      assert RawOf(a).accounts[k] == RawOf(b).accounts[k];
      assert RawOfMeta(a.accounts[k]) == RawOfMeta(b.accounts[k]);
      KeysAreInjective(a.accounts[k].pubkey, b.accounts[k].pubkey);
    }
    assert |RawOf(a).accounts| == |RawOf(b).accounts|;
  }

  /** Kind 1: equal preimages come from equal instructions. */
  lemma DownstreamInjective(a: Instruction, b: Instruction)
    requires Encodable(a) && Encodable(b)
    requires DownstreamPreimage(KeyBytes, a) == DownstreamPreimage(KeyBytes, b)
    ensures a == b
  {
    hide EncodeInstruction, ParseInstruction;
    var d := |Ascii(DOWNSTREAM_DOMAIN)|;
    var x, y := EncodeInstruction(KeyBytes, a), EncodeInstruction(KeyBytes, b);
    assert x == DownstreamPreimage(KeyBytes, a)[d..] && y == DownstreamPreimage(KeyBytes, b)[d..];
    assert x + [] == x && y + [] == y;
    InstructionIsSelfDelimiting(a, []);
    InstructionIsSelfDelimiting(b, []);
    RawInjective(a, b);
  }

  /** Kinds 2 and 3: equal preimages come from equal suffixes. */
  lemma SuffixInjective(s: seq<Instruction>, t: seq<Instruction>)
    requires EncodableAll(s) && EncodableAll(t)
    requires SuffixPreimage(KeyBytes, s) == SuffixPreimage(KeyBytes, t)
    ensures s == t
  {
    hide EncodeAll, ParseAll;
    var d := |Ascii(JUPITER_SUFFIX_DOMAIN)|;
    var p, q := SuffixPreimage(KeyBytes, s), SuffixPreimage(KeyBytes, t);
    assert p[d..d + 4] == U32(|s|) && q[d..d + 4] == U32(|t|);
    U32RoundTrip(|s|);
    U32RoundTrip(|t|);
    var x, y := EncodeAll(KeyBytes, s), EncodeAll(KeyBytes, t);
    assert x == p[d + 4..] && y == q[d + 4..];
    assert x + [] == x && y + [] == y;
    AllAreSelfDelimiting(s, []);
    AllAreSelfDelimiting(t, []);
    forall k | 0 <= k < |s| ensures s[k] == t[k] {
      assert RawOfAll(s)[k] == RawOfAll(t)[k];
      RawInjective(s[k], t[k]);
    }
  }

  /** No kind 1 preimage is a kind 2 or 3 preimage: the domains part at their thirteenth byte. */
  lemma DomainsNeverMeet(i: Instruction, suffix: seq<Instruction>)
    ensures DownstreamPreimage(KeyBytes, i) != SuffixPreimage(KeyBytes, suffix)
  {
    hide EncodeInstruction, EncodeAll;
    assert Ascii(DOWNSTREAM_DOMAIN)[12] == 'D' as int;
    assert Ascii(JUPITER_SUFFIX_DOMAIN)[12] == 'J' as int;
    assert DownstreamPreimage(KeyBytes, i)[12] == 'D' as int;
    assert SuffixPreimage(KeyBytes, suffix)[12] == 'J' as int;
  }

  type Sha = seq<byte> -> Bytes32

  /** The two preimages differ and share a digest. */
  predicate Collide(sha: Sha, x: seq<byte>, y: seq<byte>) {
    x != y && sha(x) == sha(y)
  }

  /** The three commitment checks bind exactly the instructions they name, and no
      digest serves two kinds, unless the two preimages compared are a collision. */
  lemma CommitmentsBind(sha: Sha, a: Instruction, b: Instruction,
                        s: seq<Instruction>, t: seq<Instruction>)
    requires Encodable(a) && Encodable(b) && EncodableAll(s) && EncodableAll(t)
    ensures var x, y := DownstreamPreimage(KeyBytes, a), DownstreamPreimage(KeyBytes, b);
            sha(x) == sha(y) <==> a == b || Collide(sha, x, y)
    ensures var x, y := SuffixPreimage(KeyBytes, s), SuffixPreimage(KeyBytes, t);
            sha(x) == sha(y) <==> s == t || Collide(sha, x, y)
    ensures var x, y := DownstreamPreimage(KeyBytes, a), SuffixPreimage(KeyBytes, s);
            sha(x) == sha(y) <==> Collide(sha, x, y)
  {
    hide DownstreamPreimage, SuffixPreimage, Encodable, EncodableAll;
    if DownstreamPreimage(KeyBytes, a) == DownstreamPreimage(KeyBytes, b) {
      DownstreamInjective(a, b);
    }
    if SuffixPreimage(KeyBytes, s) == SuffixPreimage(KeyBytes, t) {
      SuffixInjective(s, t);
    }
    DomainsNeverMeet(a, s);
  }
}
