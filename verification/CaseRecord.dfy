/** The binary record of one guard case: the TypeScript writer, the reader of the
    Rust evaluator, and exactly which cases survive the trip between them. */
module CaseRecord {
  import opened Bytes
  import opened Commitment
  import opened Encoders

  /** A case as the encoder is given it. */
  datatype Case = Case(
    index: nat, category: nat, expectKind: nat, expectCode: nat, mintKey: string, mintOwner: string,
    mintData: seq<byte>, guardData: seq<byte>, clock: int, instructions: seq<Instruction>, currentIndex: nat)

  /** A case as the evaluator reads it. */
  datatype Raw = Raw(
    index: nat, category: nat, expectKind: nat, expectCode: nat, mintKey: seq<byte>, mintOwner: seq<byte>,
    mintData: seq<byte>, guardData: seq<byte>, clock: int, instructions: seq<RawInstruction>, currentIndex: nat)

  // ----------------------------------------------------------------- layout

  function InstructionRecord(i: Instruction): seq<byte> {
    KeyBytes(i.programId) + [Low8(|i.accounts|)] + EncodeMetas(KeyBytes, i.accounts) + LE(|i.data|, 2) + i.data
  }

  function InstructionRecords(instructions: seq<Instruction>): seq<byte> {
    if instructions == [] then [] else InstructionRecord(instructions[0]) + InstructionRecords(instructions[1..])
  }

  function Head(c: Case): seq<byte> {
    LE(c.index, 4) + [Low8(c.category), Low8(c.expectKind), Low8(c.expectCode)]
    + KeyBytes(c.mintKey) + KeyBytes(c.mintOwner) + LE(|c.mintData|, 2)
  }

  function Tail(c: Case): seq<byte> {
    [Low8(|c.guardData|)] + c.guardData + I64ToLE(c.clock) + [Low8(|c.instructions|)]
    + InstructionRecords(c.instructions) + LE(c.currentIndex, 2)
  }

  function Body(c: Case): seq<byte> {
    Head(c) + c.mintData + Tail(c)
  }

  function Record(c: Case): seq<byte> {
    LE(|Body(c)|, 4) + Body(c)
  }

  predicate KeysDecode(c: Case) {
    && IsKey(c.mintKey) && IsKey(c.mintOwner)
    && forall i :: 0 <= i < |c.instructions| ==>
         && IsKey(c.instructions[i].programId)
         && forall j :: 0 <= j < |c.instructions[i].accounts| ==> IsKey(c.instructions[i].accounts[j].pubkey)
  }

  /** What `encodeCase` itself refuses. */
  predicate Accepted(c: Case) {
    KeysDecode(c) && |c.mintData| <= 0xffff && |c.guardData| <= 0xff && |c.instructions| <= 0xff
  }

  // ------------------------------------------------------------- the writer

  class Writer {
    var chunks: seq<seq<byte>>
    var length: nat

    ghost predicate Valid()
      reads this
    {
      length == |Contents()|
    }

    ghost function Contents(): seq<byte>
      reads this
    {
      Concat(chunks)
    }

    constructor ()
      ensures Valid() && Contents() == []
    {
      chunks, length := [], 0;
    }

    method Bytes(value: seq<byte>)
      requires Valid()
      modifies this
      ensures Valid() && Contents() == old(Contents()) + value
    {
      ConcatSnoc(chunks, value);
      chunks := chunks + [value];
      length := length + |value|;
    }

    method U8(value: nat)
      requires Valid()
      modifies this
      ensures Valid() && Contents() == old(Contents()) + [Low8(value)]
    {
      Bytes([Low8(value)]);
    }

    method U16(value: nat)
      requires Valid()
      modifies this
      ensures Valid() && Contents() == old(Contents()) + LE(value, 2)
    {
      Bytes(LE(value, 2));
    }

    method U32(value: nat)
      requires Valid()
      modifies this
      ensures Valid() && Contents() == old(Contents()) + LE(value, 4)
    {
      Bytes(LE(value, 4));
    }

    method I64(value: int)
      requires Valid()
      modifies this
      ensures Valid() && Contents() == old(Contents()) + I64ToLE(value)
    {
      Bytes(I64ToLE(value));
    }

    method Finish() returns (out: array<byte>)
      requires Valid()
      ensures fresh(out) && out.Length == length && out[..] == Contents()
    {
      out := JoinParts(chunks);
    }
  }

  lemma RecordsSnoc(instructions: seq<Instruction>, i: Instruction)
    ensures InstructionRecords(instructions + [i]) == InstructionRecords(instructions) + InstructionRecord(i)
  {
    hide InstructionRecord;
    if instructions == [] {
      assert instructions + [i] == [i] && [i][1..] == [];
    } else {
      assert (instructions + [i])[1..] == instructions[1..] + [i];
    }
  }

  lemma NoRecords()
    ensures InstructionRecords([]) == []
  {
  }

  method WriteInstruction(body: Writer, i: Instruction)
    requires body.Valid() && IsKey(i.programId)
    requires forall j :: 0 <= j < |i.accounts| ==> IsKey(i.accounts[j].pubkey)
    modifies body
    ensures body.Valid() && body.Contents() == old(body.Contents()) + InstructionRecord(i)
  {
    hide KeyBytes, EncodeMetas, IsKey, LE, Concat;
    ghost var start := body.Contents();
    body.Bytes(KeyBytes(i.programId));
    body.U8(|i.accounts|);
    NoMetas(KeyBytes);
    ghost var head := body.Contents();
    for j := 0 to |i.accounts|
      invariant body.Valid() && body.Contents() == head + EncodeMetas(KeyBytes, i.accounts[..j])
    {
      var m := i.accounts[j];
      assert i.accounts[..j + 1] == i.accounts[..j] + [m];
      MetasSnoc(KeyBytes, i.accounts[..j], m);
      body.Bytes(KeyBytes(m.pubkey));
      body.U8(if m.isSigner then 1 else 0);
      body.U8(if m.isWritable then 1 else 0);
    }
    assert i.accounts[..|i.accounts|] == i.accounts;
    body.U16(|i.data|);
    body.Bytes(i.data);
  }

  method WriteHead(body: Writer, c: Case)
    requires body.Valid() && body.Contents() == [] && KeysDecode(c)
    modifies body
    ensures body.Valid() && body.Contents() == Head(c)
  {
    hide KeyBytes, IsKey, LE, Concat;
    body.U32(c.index);
    body.U8(c.category);
    body.U8(c.expectKind);
    body.U8(c.expectCode);
    body.Bytes(KeyBytes(c.mintKey));
    body.Bytes(KeyBytes(c.mintOwner));
    body.U16(|c.mintData|);
  }

  method WriteTail(body: Writer, c: Case)
    requires body.Valid() && KeysDecode(c)
    modifies body
    ensures body.Valid() && body.Contents() == old(body.Contents()) + Tail(c)
  {
    hide KeyBytes, InstructionRecord, InstructionRecords, IsKey, LE, I64ToLE, Concat;
    body.U8(|c.guardData|);
    body.Bytes(c.guardData);
    body.I64(c.clock);
    body.U8(|c.instructions|);
    NoRecords();
    ghost var head := body.Contents();
    for k := 0 to |c.instructions|
      invariant body.Valid() && body.Contents() == head + InstructionRecords(c.instructions[..k])
    {
      assert c.instructions[..k + 1] == c.instructions[..k] + [c.instructions[k]];
      RecordsSnoc(c.instructions[..k], c.instructions[k]);
      WriteInstruction(body, c.instructions[k]);
    }
    assert c.instructions[..|c.instructions|] == c.instructions;
    body.U16(c.currentIndex);
  }

  lemma KeysAre(c: Case)
    ensures KeysDecode(c) <==>
            && IsKey(c.mintKey) && IsKey(c.mintOwner)
            && forall i :: i in c.instructions ==> IsKey(i.programId) && forall m :: m in i.accounts ==> IsKey(m.pubkey)
  {
    hide IsKey;
    if KeysDecode(c) {
      forall i | i in c.instructions ensures IsKey(i.programId) && forall m :: m in i.accounts ==> IsKey(m.pubkey) {
        var k :| 0 <= k < |c.instructions| && c.instructions[k] == i;
        assert IsKey(c.instructions[k].programId);
      }
    }
  }

  /** `encodeCase`. */
  method EncodeCase(c: Case) returns (out: Option<array<byte>>)
    ensures out.Some? <==> Accepted(c)
    ensures out.Some? <==>
            && IsKey(c.mintKey) && IsKey(c.mintOwner)
            && |c.mintData| <= 65_535 && |c.guardData| <= 255 && |c.instructions| <= 255
            && forall i :: i in c.instructions ==> IsKey(i.programId) && forall m :: m in i.accounts ==> IsKey(m.pubkey)
    ensures out.Some? ==> fresh(out.value) && out.value[..] == Record(c)
  {
    hide Head, Tail, LE, Concat, KeysDecode;
    KeysAre(c);
    if !KeysDecode(c) || |c.mintData| > 0xffff || |c.guardData| > 0xff || |c.instructions| > 0xff {
      return None;
    }
    var body := new Writer();
    WriteHead(body, c);
    body.Bytes(c.mintData);
    WriteTail(body, c);
    var record := body.Finish();
    var framed := new Writer();
    framed.U32(record.Length);
    framed.Bytes(record[..]);
    var done := framed.Finish();
    out := Some(done);
  }

  // ------------------------------------------------------------- the reader

  function ParseInstructionRecord(b: seq<byte>): Parsed<RawInstruction> {
    if |b| < 33 then Malformed
    else
      match ParseMetas(b[33..], b[32])
      case Malformed => Malformed
      case Parsed(metas, rest) =>
        if |rest| < 2 || |rest| - 2 < FromLE(rest[..2]) then Malformed
        else
          var n := FromLE(rest[..2]);
          Parsed(RawInstruction(b[..32], metas, rest[2..2 + n]), rest[2 + n..])
  }

  function ParseInstructionRecords(b: seq<byte>, n: nat): Parsed<seq<RawInstruction>>
    decreases n
  {
    if n == 0 then Parsed([], b)
    else
      match ParseInstructionRecord(b)
      case Malformed => Malformed
      case Parsed(first, rest) =>
        match ParseInstructionRecords(rest, n - 1)
        case Malformed => Malformed
        case Parsed(others, end) => Parsed([first] + others, end)
  }

  /** What stands after the mint bytes. */
  function ParseTail(head: Raw, b: seq<byte>): Parsed<Raw> {
    if |b| < 1 || |b| < b[0] as nat + 10 then Malformed
    else
      var g: nat := b[0];
      match ParseInstructionRecords(b[g + 10..], b[g + 9])
      case Malformed => Malformed
      case Parsed(list, end) =>
        if |end| < 2 then Malformed
        else
          Parsed(head.(guardData := b[1..g + 1], clock := I64FromLE(b[g + 1..g + 9]), instructions := list,
                       currentIndex := FromLE(end[..2])), end[2..])
  }

  /** `parse`: sequential reads; what is left over is returned. */
  function ParseBody(b: seq<byte>): Parsed<Raw> {
    if |b| < 73 || |b| - 73 < FromLE(b[71..73]) then Malformed
    else
      var n := FromLE(b[71..73]);
      ParseTail(Raw(FromLE(b[..4]), b[4], b[5], b[6], b[7..39], b[39..71], b[73..73 + n], [], 0, [], 0), b[73 + n..])
  }

  /** The length-prefixed stream, one record after another, each read to its end. */
  function ParseStream(b: seq<byte>): Option<seq<Raw>> {
    if b == [] then Some([])
    else if |b| < 4 || |b| - 4 < FromLE(b[..4]) then None
    else
      var n := FromLE(b[..4]);
      match ParseBody(b[4..4 + n])
      case Malformed => None
      case Parsed(c, left) =>
        if left != [] then None
        else match ParseStream(b[4 + n..]) case None => None case Some(others) => Some([c] + others)
  }

  // ------------------------------------------------------------- round trips

  function RawCase(c: Case): Raw {
    Raw(c.index, c.category, c.expectKind, c.expectCode, KeyBytes(c.mintKey), KeyBytes(c.mintOwner), c.mintData,
        c.guardData, c.clock, RawOfAll(c.instructions), c.currentIndex)
  }

  /** Every number fits the width it is written in; of these the encoder checks three. */
  predicate Fits(c: Case) {
    && c.index < 0x1_0000_0000 && c.category < 0x100 && c.expectKind < 0x100 && c.expectCode < 0x100
    && |c.mintData| < 0x1_0000 && |c.guardData| < 0x100 && IsI64(c.clock)
    && |c.instructions| < 0x100 && c.currentIndex < 0x1_0000
    && forall i :: 0 <= i < |c.instructions| ==>
         |c.instructions[i].accounts| < 0x100 && |c.instructions[i].data| < 0x1_0000
  }

  lemma U16RoundTrip(n: nat)
    requires n < 0x1_0000
    ensures |LE(n, 2)| == 2 && FromLE(LE(n, 2)) == n
  {
    PowersOf256();
    LERoundTrip(n, 2);
  }

  lemma InstructionRecordReads(i: Instruction, rest: seq<byte>)
    requires IsKey(i.programId) && |i.accounts| < 0x100 && |i.data| < 0x1_0000
    requires forall k :: 0 <= k < |i.accounts| ==> IsKey(i.accounts[k].pubkey)
    ensures ParseInstructionRecord(InstructionRecord(i) + rest) == Parsed(RawOf(i), rest)
  {
    hide KeyBytes, LE, FromLE, ParseMetas, EncodeMetas;
    var tail := LE(|i.data|, 2) + i.data + rest;
    var b := InstructionRecord(i) + rest;
    assert b == KeyBytes(i.programId) + [|i.accounts|] + (EncodeMetas(KeyBytes, i.accounts) + tail);
    assert b[..32] == KeyBytes(i.programId) && b[32] == |i.accounts|;
    assert b[33..] == EncodeMetas(KeyBytes, i.accounts) + tail;
    U16RoundTrip(|i.data|);
    MetasAreSelfDelimiting(i.accounts, tail);
    assert tail[..2] == LE(|i.data|, 2);
    assert tail[2..2 + |i.data|] == i.data && tail[2 + |i.data|..] == rest;
  }

  lemma RecordsStep(b: seq<byte>, n: nat)
    requires n > 0 && ParseInstructionRecord(b).Parsed?
    requires ParseInstructionRecords(ParseInstructionRecord(b).rest, n - 1).Parsed?
    ensures var others := ParseInstructionRecords(ParseInstructionRecord(b).rest, n - 1);
            ParseInstructionRecords(b, n) == Parsed([ParseInstructionRecord(b).value] + others.value, others.rest)
  {
  }

  lemma {:induction false} InstructionRecordsRead(instructions: seq<Instruction>, rest: seq<byte>)
    requires forall i :: 0 <= i < |instructions| ==>
               && IsKey(instructions[i].programId) && |instructions[i].accounts| < 0x100
               && |instructions[i].data| < 0x1_0000
               && forall j :: 0 <= j < |instructions[i].accounts| ==> IsKey(instructions[i].accounts[j].pubkey)
    ensures ParseInstructionRecords(InstructionRecords(instructions) + rest, |instructions|) ==
            Parsed(RawOfAll(instructions), rest)
  {
    hide ParseInstructionRecord, InstructionRecord, RawOf, IsKey, KeyBytes;
    if instructions == [] {
      assert InstructionRecords(instructions) + rest == rest;
      assert RawOfAll(instructions) == [];
    } else {
      hide ParseInstructionRecords;
      var first, others := instructions[0], instructions[1..];
      var encoded := InstructionRecords(others) + rest;
      assert InstructionRecords(instructions) + rest == InstructionRecord(first) + encoded;
      InstructionRecordReads(first, encoded);
      InstructionRecordsRead(others, rest);
      RecordsStep(InstructionRecord(first) + encoded, |instructions|);
      assert RawOfAll(instructions) == [RawOf(first)] + RawOfAll(others);
    }
  }

  lemma HeadReads(c: Case, rest: seq<byte>)
    requires KeysDecode(c) && Fits(c)
    ensures var b := Head(c) + c.mintData + rest;
            var base := RawCase(c).(guardData := [], clock := 0, instructions := [], currentIndex := 0);
            ParseBody(b) == ParseTail(base, rest)
  {
    hide KeyBytes, LE, FromLE, ParseTail, RawOfAll;
    KeySizes(c.mintKey, c.mintOwner);
    var b := Head(c) + c.mintData + rest;
    PowersOf256();
    LERoundTrip(c.index, 4);
    U16RoundTrip(|c.mintData|);
    assert b[..4] == LE(c.index, 4) && b[4] == c.category && b[5] == c.expectKind && b[6] == c.expectCode;
    assert b[7..39] == KeyBytes(c.mintKey) && b[39..71] == KeyBytes(c.mintOwner);
    assert b[71..73] == LE(|c.mintData|, 2);
    assert b[73..73 + |c.mintData|] == c.mintData && b[73 + |c.mintData|..] == rest;
  }

  lemma KeySizes(a: string, b: string)
    requires IsKey(a) && IsKey(b)
    ensures |KeyBytes(a)| == 32 == |KeyBytes(b)|
  {
  }

  lemma TailReads(c: Case, head: Raw)
    requires KeysDecode(c) && Fits(c)
    ensures ParseTail(head, Tail(c)) ==
            Parsed(head.(guardData := c.guardData, clock := c.clock, instructions := RawOfAll(c.instructions),
                         currentIndex := c.currentIndex), [])
  {
    hide KeyBytes, LE, FromLE, I64ToLE, I64FromLE, InstructionRecords, ParseInstructionRecords, RawOfAll, IsKey, Wrap64;
    var g := |c.guardData|;
    var records := InstructionRecords(c.instructions) + LE(c.currentIndex, 2);
    var b := Tail(c);
    assert b[0] == g && b[1..g + 1] == c.guardData && b[g + 1..g + 9] == I64ToLE(c.clock);
    assert b[g + 9] == |c.instructions| && b[g + 10..] == records;
    I64RoundTrip(c.clock);
    Unwrapped(c.clock);
    U16RoundTrip(c.currentIndex);
    InstructionRecordsRead(c.instructions, LE(c.currentIndex, 2));
    var end := LE(c.currentIndex, 2);
    assert end[..2] == end && end[2..] == [];
  }

  lemma Unwrapped(x: int)
    requires IsI64(x)
    ensures Wrap64(x) == x
  {
  }

  lemma BodyReads(c: Case)
    requires KeysDecode(c) && Fits(c)
    ensures ParseBody(Body(c)) == Parsed(RawCase(c), [])
  {
    hide Head, Tail, ParseBody, ParseTail, KeyBytes, IsKey, RawOfAll;
    HeadReads(c, Tail(c));
    TailReads(c, RawCase(c).(guardData := [], clock := 0, instructions := [], currentIndex := 0));
  }

  /** Whatever is read fits the widths it is read from. */
  predicate InRange(r: Raw) {
    && r.index < 0x1_0000_0000 && r.category < 0x100 && r.expectKind < 0x100 && r.expectCode < 0x100
    && |r.mintData| < 0x1_0000 && |r.guardData| < 0x100 && IsI64(r.clock)
    && |r.instructions| < 0x100 && r.currentIndex < 0x1_0000
    && forall i :: 0 <= i < |r.instructions| ==>
         |r.instructions[i].accounts| < 0x100 && |r.instructions[i].data| < 0x1_0000
  }

  lemma {:induction false} MetasRead(b: seq<byte>, n: nat)
    ensures ParseMetas(b, n).Parsed? ==> |ParseMetas(b, n).value| == n
  {
    if n > 0 && |b| >= 34 {
      MetasRead(b[34..], n - 1);
    }
  }

  lemma {:induction false} RecordsInRange(b: seq<byte>, n: nat)
    ensures ParseInstructionRecords(b, n).Parsed? ==>
              && |ParseInstructionRecords(b, n).value| == n
              && forall i :: 0 <= i < n ==>
                   && |ParseInstructionRecords(b, n).value[i].accounts| < 0x100
                   && |ParseInstructionRecords(b, n).value[i].data| < 0x1_0000
    decreases n
  {
    if n > 0 && ParseInstructionRecord(b).Parsed? {
      OneInRange(b);
      RecordsInRange(ParseInstructionRecord(b).rest, n - 1);
    }
  }

  lemma OneInRange(b: seq<byte>)
    requires ParseInstructionRecord(b).Parsed?
    ensures |ParseInstructionRecord(b).value.accounts| < 0x100 && |ParseInstructionRecord(b).value.data| < 0x1_0000
  {
    hide ParseMetas;
    MetasRead(b[33..], b[32]);
    PowersOf256();
    LEOfFromLE(ParseMetas(b[33..], b[32]).rest[..2]);
  }

  lemma BodyInRange(b: seq<byte>)
    requires ParseBody(b).Parsed?
    ensures InRange(ParseBody(b).value)
  {
    hide ParseInstructionRecords, LE, FromLE, I64FromLE, I64ToLE;
    PowersOf256();
    LEOfFromLE(b[..4]);
    LEOfFromLE(b[71..73]);
    var tail := b[73 + FromLE(b[71..73])..];
    var g: nat := tail[0];
    RecordsInRange(tail[g + 10..], tail[g + 9]);
    ReadIsI64(tail[g + 1..g + 9]);
    LEOfFromLE(ParseInstructionRecords(tail[g + 10..], tail[g + 9]).rest[..2]);
  }

  lemma ReadIsI64(b: Bytes8)
    ensures IsI64(I64FromLE(b))
  {
    LEOfFromLE(b);
    PowersOf256();
  }

  /** A case comes back as it was exactly when every number fits its width: account
      counts and data lengths too, which the encoder does not check. */
  lemma SurvivesExactly(c: Case)
    requires KeysDecode(c)
    ensures ParseBody(Body(c)) == Parsed(RawCase(c), []) <==> Fits(c)
  {
    hide ParseBody, Body, KeysDecode, RawOf;
    if Fits(c) {
      BodyReads(c);
    }
    if ParseBody(Body(c)) == Parsed(RawCase(c), []) {
      BodyInRange(Body(c));
      forall i | 0 <= i < |c.instructions|
        ensures |c.instructions[i].accounts| < 0x100 && |c.instructions[i].data| < 0x1_0000 {
        RawSizes(c.instructions[i]);
        assert RawCase(c).instructions[i] == RawOf(c.instructions[i]);
      }
    }
  }

  lemma RawSizes(i: Instruction)
    ensures |RawOf(i).accounts| == |i.accounts| && |RawOf(i).data| == |i.data|
  {
  }

  function Stream(cases: seq<Case>): seq<byte> {
    if cases == [] then [] else Record(cases[0]) + Stream(cases[1..])
  }

  function RawCases(cases: seq<Case>): (r: seq<Raw>)
    ensures |r| == |cases|
  {
    seq(|cases|, k requires 0 <= k < |cases| => RawCase(cases[k]))
  }

  /** Any concatenation of records parses back to exactly that list of cases. */
  lemma {:induction false} StreamRoundTrip(cases: seq<Case>)
    requires forall k :: 0 <= k < |cases| ==> KeysDecode(cases[k]) && Fits(cases[k]) && |Body(cases[k])| < 0x1_0000_0000
    ensures ParseStream(Stream(cases)) == Some(RawCases(cases))
  {
    hide Body, ParseBody, RawCase, KeysDecode, Fits, LE, FromLE;
    if cases == [] {
      assert RawCases(cases) == [];
    } else {
      var c, others := cases[0], cases[1..];
      var n := |Body(c)|;
      var b := Stream(cases);
      assert b == LE(n, 4) + Body(c) + Stream(others);
      PowersOf256();
      LERoundTrip(n, 4);
      assert b[..4] == LE(n, 4) && b[4..4 + n] == Body(c) && b[4 + n..] == Stream(others);
      BodyReads(c);
      StreamRoundTrip(others);
      assert RawCases(cases) == [RawCase(c)] + RawCases(others);
    }
  }
}
