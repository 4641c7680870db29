/** Where every field of the encodings lies, by offset: an instruction under a
    commitment, a case record, the head of a wire message. */
module Layouts {
  import opened Bytes
  import opened Commitment
  import opened Encoders
  import opened Wire
  import R = CaseRecord

  /** A field of a byte string. */
  predicate Lies(b: seq<byte>, at: nat, field: seq<byte>) {
    at + |field| <= |b| && b[at..at + |field|] == field
  }

  lemma LiesIn(a: seq<byte>, field: seq<byte>, rest: seq<byte>)
    ensures Lies(a + field + rest, |a|, field)
  {
  }

  lemma LiesBehind(a: seq<byte>, b: seq<byte>, at: nat, field: seq<byte>)
    requires Lies(b, at, field)
    ensures Lies(a + b, |a| + at, field)
  {
    assert (a + b)[|a| + at..|a| + at + |field|] == b[at..at + |field|];
  }

  lemma LiesBefore(b: seq<byte>, rest: seq<byte>, at: nat, field: seq<byte>)
    requires Lies(b, at, field)
    ensures Lies(b + rest, at, field)
  {
    assert (b + rest)[at..at + |field|] == b[at..at + |field|];
  }

  /** Thirty-four bytes an account: its key, then 1 or 0 for signing and for being written. */
  function MetaAt(m: Meta): seq<byte> {
    KeyBytes(m.pubkey) + [if m.isSigner then 1 else 0] + [if m.isWritable then 1 else 0]
  }

  predicate KeysOf(accounts: seq<Meta>) {
    forall k :: 0 <= k < |accounts| ==> |KeyBytes(accounts[k].pubkey)| == 32
  }

  lemma FirstMeta(accounts: seq<Meta>)
    requires KeysOf(accounts) && accounts != []
    ensures EncodeMetas(KeyBytes, accounts) == MetaAt(accounts[0]) + EncodeMetas(KeyBytes, accounts[1..])
    ensures |MetaAt(accounts[0])| == 34
  {
    hide KeyBytes;
  }

  lemma {:induction false} MetasLie(accounts: seq<Meta>)
    requires KeysOf(accounts)
    ensures |EncodeMetas(KeyBytes, accounts)| == 34 * |accounts|
    ensures forall k :: 0 <= k < |accounts| ==> Lies(EncodeMetas(KeyBytes, accounts), 34 * k, MetaAt(accounts[k]))
  {
    hide KeyBytes, Lies, MetaAt;
    if accounts != [] {
      var first, rest := MetaAt(accounts[0]), EncodeMetas(KeyBytes, accounts[1..]);
      MetasLie(accounts[1..]);
      FirstMeta(accounts);
      forall k | 0 <= k < |accounts| ensures Lies(first + rest, 34 * k, MetaAt(accounts[k])) {
        if k == 0 {
          LiesIn([], first, rest);
          assert [] + first + rest == first + rest;
        } else {
          assert accounts[k] == accounts[1..][k - 1];
          LiesBehind(first, rest, 34 * (k - 1), MetaAt(accounts[k]));
        }
      }
    }
  }

  /** An instruction under a commitment: the program, the number of accounts in four bytes,
      thirty-four for each, the length of the data in four, the data. */
  lemma InstructionLies(i: Instruction)
    requires |KeyBytes(i.programId)| == 32 && KeysOf(i.accounts)
    ensures var b, d := EncodeInstruction(KeyBytes, i), 36 + 34 * |i.accounts|;
            && |b| == d + 4 + |i.data|
            && Lies(b, 0, KeyBytes(i.programId)) && Lies(b, 32, LE(|i.accounts|, 4))
            && (forall k :: 0 <= k < |i.accounts| ==> Lies(b, 36 + 34 * k, MetaAt(i.accounts[k])))
            && Lies(b, d, LE(|i.data|, 4)) && Lies(b, d + 4, i.data)
  {
    hide KeyBytes, LE, EncodeMetas, MetaAt;
    MetasLie(i.accounts);
    var key, n, metas := KeyBytes(i.programId), LE(|i.accounts|, 4), EncodeMetas(KeyBytes, i.accounts);
    var size := LE(|i.data|, 4);
    assert EncodeInstruction(KeyBytes, i) == key + n + metas + size + i.data;
    forall k | 0 <= k < |i.accounts|
      ensures Lies(EncodeInstruction(KeyBytes, i), 36 + 34 * k, MetaAt(i.accounts[k]))
    {
      LiesBehind(key + n, metas, 34 * k, MetaAt(i.accounts[k]));
      LiesBefore(key + n + metas, size, 36 + 34 * k, MetaAt(i.accounts[k]));
      LiesBefore(key + n + metas + size, i.data, 36 + 34 * k, MetaAt(i.accounts[k]));
    }
  }

  /** A case record: its length, the head of 73 bytes, the mint, the payload behind its
      length in one byte, the clock, the instructions behind their number in one byte, and
      the index of the current one. */
  lemma RecordLies(c: R.Case)
    requires R.KeysDecode(c)
    ensures var (b, m, g) := (R.Record(c), |c.mintData|, |c.guardData|);
            var list := R.InstructionRecords(c.instructions);
            && |b| == 77 + m + 1 + g + 9 + |list| + 2
            && Lies(b, 0, LE(|b| - 4, 4)) && Lies(b, 4, LE(c.index, 4))
            && b[8] == c.category % 256 && b[9] == c.expectKind % 256 && b[10] == c.expectCode % 256
            && Lies(b, 11, KeyBytes(c.mintKey)) && Lies(b, 43, KeyBytes(c.mintOwner))
            && Lies(b, 75, LE(m, 2)) && Lies(b, 77, c.mintData)
            && b[77 + m] == g % 256 && Lies(b, 78 + m, c.guardData)
            && Lies(b, 78 + m + g, LE(c.clock % TWO_64, 8))
            && b[86 + m + g] == |c.instructions| % 256 && Lies(b, 87 + m + g, list)
            && Lies(b, 87 + m + g + |list|, LE(c.currentIndex, 2))
  {
    hide KeyBytes, LE, R.InstructionRecords;
    var head, tail, body := R.Head(c), R.Tail(c), R.Body(c);
    HeadLies(c);
    TailLies(c);
  }

  lemma HeadLies(c: R.Case)
    requires R.KeysDecode(c)
    ensures var b := R.Head(c);
            && |b| == 73 && Lies(b, 0, LE(c.index, 4))
            && b[4] == c.category % 256 && b[5] == c.expectKind % 256 && b[6] == c.expectCode % 256
            && Lies(b, 7, KeyBytes(c.mintKey)) && Lies(b, 39, KeyBytes(c.mintOwner))
            && Lies(b, 71, LE(|c.mintData|, 2))
  {
    hide KeyBytes, LE;
    R.KeySizes(c.mintKey, c.mintOwner);
  }

  lemma TailLies(c: R.Case)
    ensures var (b, g, list) := (R.Tail(c), |c.guardData|, R.InstructionRecords(c.instructions));
            && |b| == 1 + g + 9 + |list| + 2 && b[0] == g % 256 && Lies(b, 1, c.guardData)
            && Lies(b, 1 + g, LE(c.clock % TWO_64, 8)) && b[9 + g] == |c.instructions| % 256
            && Lies(b, 10 + g, list) && Lies(b, 10 + g + |list|, LE(c.currentIndex, 2))
  {
    hide LE, R.InstructionRecords;
  }

  /** One instruction of it: the program, the number of accounts in one byte, thirty-four
      for each, the length of the data in two, the data. */
  lemma InstructionRecordLies(i: Instruction)
    requires |KeyBytes(i.programId)| == 32 && KeysOf(i.accounts)
    ensures var b, d := R.InstructionRecord(i), 33 + 34 * |i.accounts|;
            && |b| == d + 2 + |i.data| && Lies(b, 0, KeyBytes(i.programId)) && b[32] == |i.accounts| % 256
            && (forall k :: 0 <= k < |i.accounts| ==> Lies(b, 33 + 34 * k, MetaAt(i.accounts[k])))
            && Lies(b, d, LE(|i.data|, 2)) && Lies(b, d + 2, i.data)
  {
    hide KeyBytes, LE, EncodeMetas, MetaAt;
    MetasLie(i.accounts);
    var key, n, metas := KeyBytes(i.programId), [Low8(|i.accounts|)], EncodeMetas(KeyBytes, i.accounts);
    var size := LE(|i.data|, 2);
    assert R.InstructionRecord(i) == key + n + metas + size + i.data;
    forall k | 0 <= k < |i.accounts| ensures Lies(R.InstructionRecord(i), 33 + 34 * k, MetaAt(i.accounts[k])) {
      LiesBehind(key + n, metas, 34 * k, MetaAt(i.accounts[k]));
      LiesBefore(key + n + metas, size, 33 + 34 * k, MetaAt(i.accounts[k]));
      LiesBefore(key + n + metas + size, i.data, 33 + 34 * k, MetaAt(i.accounts[k]));
    }
  }

  /** A count in seven-bit groups, the low one first. */
  lemma CountLies(n: nat)
    requires n < 0x1_0000
    ensures Cu16(n) == if n < 0x80 then [n]
                       else if n < 0x4000 then [n % 0x80 + 0x80, n / 0x80]
                       else [n % 0x80 + 0x80, n / 0x80 % 0x80 + 0x80, n / 0x4000]
  {
    hide Cu16;
    OneGroup(n);
    OneGroup(n / 0x80);
    OneGroup(n / 0x4000);
    DivTwice7(n);
  }

  lemma OneGroup(n: nat)
    ensures Cu16(n) == if n < 0x80 then [n] else [n % 0x80 + 0x80] + Cu16(n / 0x80)
  {
  }

  lemma DivTwice7(n: nat)
    ensures n / 0x80 / 0x80 == n / 0x4000
  {
  }

  lemma {:induction false} KeysLie(keys: seq<string>)
    requires forall k :: 0 <= k < |keys| ==> |KeyBytes(keys[k])| == 32
    ensures |Each(KeyBytes, keys)| == 32 * |keys|
    ensures forall k :: 0 <= k < |keys| ==> Lies(Each(KeyBytes, keys), 32 * k, KeyBytes(keys[k]))
  {
    if keys != [] {
      hide KeyBytes, Lies;
      var first, rest := KeyBytes(keys[0]), Each(KeyBytes, keys[1..]);
      KeysLie(keys[1..]);
      assert Each(KeyBytes, keys) == first + rest;
      forall k | 0 <= k < |keys| ensures Lies(first + rest, 32 * k, KeyBytes(keys[k])) {
        if k == 0 {
          LiesIn([], first, rest);
          assert [] + first + rest == first + rest;
        } else {
          assert keys[k] == keys[1..][k - 1];
          LiesBehind(first, rest, 32 * (k - 1), KeyBytes(keys[k]));
        }
      }
    }
  }

  /** A message: the version, the three counts of its header, the keys behind their number,
      the blockhash. */
  lemma MessageLies(m: Message)
    requires |KeyBytes(m.recentBlockhash)| == 32
    requires forall k :: 0 <= k < |m.accountKeys| ==> |KeyBytes(m.accountKeys[k])| == 32
    ensures var b, n := MessageBytes(m), |Cu16(|m.accountKeys|)|;
            && |b| >= 4 + n + 32 * |m.accountKeys| + 32
            && b[0] == 0x80 && b[1] == m.header.signatures % 256
            && b[2] == m.header.readonlySigned % 256 && b[3] == m.header.readonlyUnsigned % 256
            && Lies(b, 4, Cu16(|m.accountKeys|))
            && (forall k :: 0 <= k < |m.accountKeys| ==> Lies(b, 4 + n + 32 * k, KeyBytes(m.accountKeys[k])))
            && Lies(b, 4 + n + 32 * |m.accountKeys|, KeyBytes(m.recentBlockhash))
  {
    hide KeyBytes, Cu16, Each;
    KeysLie(m.accountKeys);
    var head, count, keys := HeaderBytes(m.header), Cu16(|m.accountKeys|), Each(KeyBytes, m.accountKeys);
    var hash, rest := KeyBytes(m.recentBlockhash), Vec(CompiledBytes, m.instructions) + Vec(LookupBytes, m.lookups);
    assert MessageBytes(m) == head + count + keys + hash + rest;
    hide Lies, MessageBytes, Vec;
    assert head + count + keys + hash + rest == head + count + (keys + hash + rest);
    LiesIn(head, count, keys + hash + rest);
    LiesIn(head + count + keys, hash, rest);
    forall k | 0 <= k < |m.accountKeys|
      ensures Lies(MessageBytes(m), 4 + |count| + 32 * k, KeyBytes(m.accountKeys[k]))
    {
      LiesBehind(head + count, keys, 32 * k, KeyBytes(m.accountKeys[k]));
      LiesBefore(head + count + keys, hash, 4 + |count| + 32 * k, KeyBytes(m.accountKeys[k]));
      LiesBefore(head + count + keys + hash, rest, 4 + |count| + 32 * k, KeyBytes(m.accountKeys[k]));
    }
  }

  /** A compiled instruction: the index of its program, its account indexes and its data,
      both behind their number. */
  lemma CompiledLies(i: Compiled)
    ensures var (b, a, d) := (CompiledBytes(i), Cu16(|i.accounts|), KeyBytes(i.data));
            && b[0] == i.programIdIndex % 256 && Lies(b, 1, a)
            && |b| == 1 + |a| + |i.accounts| + |Cu16(|d|)| + |d|
            && (forall k :: 0 <= k < |i.accounts| ==> b[1 + |a| + k] == i.accounts[k] % 256)
            && Lies(b, 1 + |a| + |i.accounts|, Cu16(|d|)) && Lies(b, |b| - |d|, d)
  {
    hide Cu16, KeyBytes;
  }

  /** The two preimages: their domains as text, the number of instructions in four bytes
      for a suffix, and the instructions one after another. */
  lemma PreimagesLie(i: Instruction, suffix: seq<Instruction>)
    ensures var b := DownstreamPreimage(KeyBytes, i);
            b[..25] == Ascii("EQUITYGUARD_DOWNSTREAM_V2") && b[25..] == EncodeInstruction(KeyBytes, i)
    ensures var b := SuffixPreimage(KeyBytes, suffix);
            && b[..29] == Ascii("EQUITYGUARD_JUPITER_SUFFIX_V1") && b[29..33] == LE(|suffix|, 4)
            && b[33..] == Concat(Encoded(suffix))
  {
    hide EncodeInstruction, EncodeAll, Concat, LE;
    AllConcat(suffix);
    assert |DOWNSTREAM_DOMAIN| == 25 && |JUPITER_SUFFIX_DOMAIN| == 29;
  }

  ghost function Encoded(suffix: seq<Instruction>): (e: seq<seq<byte>>)
    ensures |e| == |suffix|
  {
    seq(|suffix|, k requires 0 <= k < |suffix| => EncodeInstruction(KeyBytes, suffix[k]))
  }

  lemma {:induction false} AllConcat(suffix: seq<Instruction>)
    ensures EncodeAll(KeyBytes, suffix) == Concat(Encoded(suffix))
  {
    hide EncodeInstruction;
    if suffix != [] {
      var init, last := suffix[..|suffix| - 1], suffix[|suffix| - 1];
      assert suffix == init + [last];
      AllConcat(init);
      AllSnoc(KeyBytes, init, last);
      assert Encoded(suffix) == Encoded(init) + [EncodeInstruction(KeyBytes, last)];
      ConcatSnoc(Encoded(init), EncodeInstruction(KeyBytes, last));
    }
  }
}
