/** The 99-byte guard payload: packed in place at fixed offsets, read back by a
    cursor on chain and by offset everywhere else. */
module Abi {
  import opened Bytes
  import opened Guard

  const VERSION_V2: byte := 2
  const LEN := 99

  // --------------------------------------------------- stored multipliers

  const MIN_POSITIVE_NORMAL: u64 := 0x0010_0000_0000_0000
  const MAX_FINITE: u64 := 0x7FEF_FFFF_FFFF_FFFF

  datatype Kind = NaN | Infinity | Zero | Subnormal | Normal
  datatype Class = Class(negative: bool, kind: Kind)

  /** The class of a binary64 bit pattern, from its sign, exponent and fraction fields. */
  function Classify(bits: u64): Class {
    var exponent := bits / 0x10_0000_0000_0000 % 0x800;
    var mantissa := bits % 0x10_0000_0000_0000;
    Class(bits / TWO_63 == 1,
          if exponent == 0x7FF then (if mantissa != 0 then NaN else Infinity)
          else if exponent == 0 then (if mantissa == 0 then Zero else Subnormal)
          else Normal)
  }

  predicate ValidMultiplier(bits: u64) {
    Classify(bits) == Class(false, Normal)
  }

  /** Positive normal numbers are one interval of bit patterns. */
  lemma ValidIsAnInterval(bits: u64)
    ensures ValidMultiplier(bits) <==> MIN_POSITIVE_NORMAL <= bits <= MAX_FINITE
  {
    var high := bits / 0x10_0000_0000_0000;
    assert bits / TWO_63 == high / 0x800;
    assert high < 0x1000;
    assert bits / TWO_63 == 0 <==> high < 0x800;
    assert bits <= MAX_FINITE <==> high <= 0x7FE;
    assert bits >= MIN_POSITIVE_NORMAL <==> high >= 1;
  }

  // --------------------------------------------------------------- packing

  /** Raw request fields, as the harness holds them before any validation. */
  datatype RequestFields = RequestFields(
    mint: Bytes32, multiplier: Bytes8, newMultiplier: Bytes8, t: int, phase: nat,
    beforeSecs: nat, afterSecs: nat, adapter: nat, commitment: Bytes32)

  /** The layout, field after field; numbers keep their low bits. */
  function Packed(r: RequestFields): (b: seq<byte>)
    ensures |b| == LEN
  {
    [VERSION_V2] + r.mint + r.multiplier + r.newMultiplier + I64ToLE(r.t) + [r.phase % 256]
    + LE(r.beforeSecs, 4) + LE(r.afterSecs, 4) + [r.adapter % 256] + r.commitment
  }

  /** `packV2`: ten writes at fixed offsets into a zeroed buffer. */
  method PackV2(r: RequestFields) returns (out: array<byte>)
    ensures fresh(out) && out[..] == Packed(r)
  {
    hide LE, I64ToLE;
    out := new byte[LEN](_ => 0);
    out[0] := VERSION_V2;
    assert out[..1] == [VERSION_V2];
    Set(out, r.mint, 1);
    ghost var head := [VERSION_V2] + r.mint;
    Set(out, r.multiplier, 33);
    head := head + r.multiplier;
    Set(out, r.newMultiplier, 41);
    head := head + r.newMultiplier;
    Set(out, I64ToLE(r.t), 49);
    head := head + I64ToLE(r.t);
    assert out[..57] == head;
    out[57] := r.phase % 256;
    head := head + [r.phase % 256];
    assert out[..58] == head;
    Set(out, LE(r.beforeSecs, 4), 58);
    head := head + LE(r.beforeSecs, 4);
    Set(out, LE(r.afterSecs, 4), 62);
    head := head + LE(r.afterSecs, 4);
    assert out[..66] == head;
    out[66] := r.adapter % 256;
    head := head + [r.adapter % 256];
    assert out[..67] == head;
    Set(out, r.commitment, 67);
    assert out[..] == out[..99];
  }

  // -------------------------------------------------------------- unpacking

  datatype Payload = Payload(mint: Bytes32, request: Request, adapter: byte, commitment: Bytes32)
  datatype Decoded = Ok(payload: Payload) | Err(error: GuardError)

  function U64Of(b: Bytes8): (n: u64)
    ensures LE(n, 8) == b
  {
    LEOfFromLE(b);
    PowersOf256();
    FromLE(b)
  }

  function U32Of(b: seq<byte>): (n: u32)
    requires |b| == 4
    ensures LE(n, 4) == b
  {
    LEOfFromLE(b);
    PowersOf256();
    FromLE(b)
  }

  /** The outcome of decoding, checks in the program's order, fields by offset. */
  function DecodePayload(data: seq<byte>): Decoded {
    if |data| == 0 then Err(UnsupportedInstruction)
    else if data[0] != VERSION_V2 then Err(UnsupportedVersion)
    else if |data| != LEN then Err(InvalidInstructionLength)
    else if !ValidMultiplier(U64Of(data[33..41])) || !ValidMultiplier(U64Of(data[41..49])) || data[57] > 1 then
      Err(InvalidExpectedState)
    else if data[66] == 0 || data[66] > 3 then Err(UnsupportedAdapter)
    else
      Ok(Payload(data[1..33],
                 Request(Economic(U64Of(data[33..41]), U64Of(data[41..49]), I64FromLE(data[49..57])),
                         data[57], U32Of(data[58..62]), U32Of(data[62..66])),
                 data[66], data[67..99]))
  }

  /** The program's cursor: each read takes the next bytes of `whole` or fails. */
  class Reader {
    var rest: seq<byte>
    ghost var whole: seq<byte>
    ghost var at: nat

    ghost predicate Valid()
      reads this
    {
      at <= |whole| && rest == whole[at..]
    }

    constructor (fields: seq<byte>, ghost whole: seq<byte>, ghost at: nat)
      requires at <= |whole| && fields == whole[at..]
      ensures Valid() && this.whole == whole && this.at == at
    {
      rest := fields;
      this.whole, this.at := whole, at;
    }

    method Take(n: nat) returns (taken: Option<seq<byte>>)
      requires Valid()
      modifies this
      ensures Valid() && whole == old(whole)
      ensures old(at) + n > |whole| ==> taken.None? && at == old(at)
      ensures old(at) + n <= |whole| ==> at == old(at) + n && taken == Some(whole[old(at)..at])
    {
      if |rest| < n {
        return None;
      }
      taken := Some(rest[..n]);
      assert rest[..n] == whole[at..at + n] && rest[n..] == whole[at + n..];
      rest := rest[n..];
      at := at + n;
    }
  }

  /** `AssertSafeExecutionV2::unpack`: ten sequential reads, then the checks. */
  method Unpack(data: seq<byte>) returns (decoded: Decoded)
    ensures decoded == DecodePayload(data)
  {
    hide ValidMultiplier, I64FromLE, U64Of, U32Of, LE, FromLE;
    if |data| == 0 {
      return Err(UnsupportedInstruction);
    }
    if data[0] != VERSION_V2 {
      return Err(UnsupportedVersion);
    }
    if |data| != LEN {
      return Err(InvalidInstructionLength);
    }
    var reader := new Reader(data[1..], data, 1);
    var mint := reader.Take(32);
    var multiplier := reader.Take(8);
    var newMultiplier := reader.Take(8);
    var t := reader.Take(8);
    var phase := reader.Take(1);
    var before := reader.Take(4);
    var after := reader.Take(4);
    var adapter := reader.Take(1);
    var commitment := reader.Take(32);
    if !ValidMultiplier(U64Of(multiplier.value)) || !ValidMultiplier(U64Of(newMultiplier.value))
       || phase.value[0] > 1 {
      return Err(InvalidExpectedState);
    }
    if adapter.value[0] == 0 || adapter.value[0] > 3 {
      return Err(UnsupportedAdapter);
    }
    decoded := Ok(Payload(mint.value,
                          Request(Economic(U64Of(multiplier.value), U64Of(newMultiplier.value), I64FromLE(t.value)),
                                  phase.value[0], U32Of(before.value), U32Of(after.value)),
                          adapter.value[0], commitment.value));
  }

  // ------------------------------------------------------------ round trips

  /** Every field of a packed request, at the offset its readers use. */
  lemma PackedFields(r: RequestFields)
    ensures var b := Packed(r);
            && b[0] == VERSION_V2 && b[1..33] == r.mint && b[33..41] == r.multiplier
            && b[41..49] == r.newMultiplier && b[49..57] == I64ToLE(r.t) && b[57] == r.phase % 256
            && b[58..62] == LE(r.beforeSecs, 4) && b[62..66] == LE(r.afterSecs, 4)
            && b[66] == r.adapter % 256 && b[67..99] == r.commitment
  {
  }

  /** What the fields mean once stored: the 64-bit, 32-bit and 8-bit values that survive. */
  function Meant(r: RequestFields): Request {
    Request(Economic(U64Of(r.multiplier), U64Of(r.newMultiplier), Wrap64(r.t)),
            r.phase % 256, r.beforeSecs % 0x1_0000_0000, r.afterSecs % 0x1_0000_0000)
  }

  lemma U32RoundTrip(n: nat)
    ensures U32Of(LE(n, 4)) == n % 0x1_0000_0000
  {
    FromLEOfLE(n, 4);
    PowersOf256();
  }

  lemma BitsRoundTrip(x: u64)
    ensures U64Of(LE(x, 8)) == x
  {
    PowersOf256();
    LERoundTrip(x, 8);
  }

  /** The exact outcome of decoding a packed request, whatever its fields. */
  lemma DecodeOfPacked(r: RequestFields)
    ensures DecodePayload(Packed(r)) ==
            if !ValidMultiplier(U64Of(r.multiplier)) || !ValidMultiplier(U64Of(r.newMultiplier)) || r.phase % 256 > 1
            then Err(InvalidExpectedState)
            else if !(1 <= r.adapter % 256 <= 3) then Err(UnsupportedAdapter)
            else Ok(Payload(r.mint, Meant(r), r.adapter % 256, r.commitment))
  {
    hide Packed, ValidMultiplier, I64FromLE, I64ToLE, Wrap64;
    PackedFields(r);
    I64RoundTrip(r.t);
    U32RoundTrip(r.beforeSecs);
    U32RoundTrip(r.afterSecs);
  }

  /** A payload decodes exactly when it has the length, the version, two positive
      normal multipliers, a known phase and a known adapter. */
  lemma DecodesExactly(data: seq<byte>)
    ensures DecodePayload(data).Ok? <==>
            && |data| == 99 && data[0] == 2
            && MIN_POSITIVE_NORMAL <= FromLE(data[33..41]) <= MAX_FINITE
            && MIN_POSITIVE_NORMAL <= FromLE(data[41..49]) <= MAX_FINITE
            && data[57] <= 1 && 1 <= data[66] <= 3
  {
    hide ValidMultiplier;
    if |data| == 99 {
      ValidIsAnInterval(U64Of(data[33..41]));
      ValidIsAnInterval(U64Of(data[41..49]));
    }
  }

  function FieldsOf(p: Payload): RequestFields {
    RequestFields(p.mint, LE(p.request.expected.multiplier, 8), LE(p.request.expected.newMultiplier, 8),
                  p.request.expected.t, p.request.phase, p.request.before, p.request.after, p.adapter, p.commitment)
  }

  lemma I64BytesRoundTrip(b: Bytes8)
    ensures IsI64(I64FromLE(b)) && I64ToLE(I64FromLE(b)) == b
  {
    LEOfFromLE(b);
    PowersOf256();
    hide LE, FromLE;
    var n := FromLE(b);
    assert n < TWO_64;
    assert I64FromLE(b) % TWO_64 == n;
  }

  /** The program's `pack` undoes its `unpack`: no two payloads decode alike. */
  lemma PackOfDecode(data: seq<byte>)
    requires DecodePayload(data).Ok?
    ensures Packed(FieldsOf(DecodePayload(data).payload)) == data
  {
    hide ValidMultiplier, I64FromLE, I64ToLE, LE;
    I64BytesRoundTrip(data[49..57]);
    var b := data;
    assert b == [b[0]] + b[1..33] + b[33..41] + b[41..49] + b[49..57] + [b[57]]
                + b[58..62] + b[62..66] + [b[66]] + b[67..99];
  }

  /** A request the client encoder lets through. */
  predicate ClientAccepts(r: RequestFields) {
    && ValidMultiplier(U64Of(r.multiplier)) && ValidMultiplier(U64Of(r.newMultiplier))
    && IsI64(r.t) && r.phase <= 1
    && r.beforeSecs < 0x1_0000_0000 && r.afterSecs < 0x1_0000_0000 && 1 <= r.adapter <= 3
  }

  /** `encodeAssertSafeExecutionV2`. */
  function ClientEncode(r: RequestFields): Option<seq<byte>> {
    if ClientAccepts(r) then Some(Packed(r)) else None
  }

  /** What the client encodes the program reads back, every field as it was given. */
  lemma ClientToProgram(r: RequestFields)
    requires ClientEncode(r).Some?
    ensures DecodePayload(ClientEncode(r).value) ==
            Ok(Payload(r.mint,
                       Request(Economic(U64Of(r.multiplier), U64Of(r.newMultiplier), r.t),
                               r.phase, r.beforeSecs, r.afterSecs),
                       r.adapter, r.commitment))
    ensures FieldsOf(DecodePayload(ClientEncode(r).value).payload) == r
  {
    hide Packed, ValidMultiplier;
    DecodeOfPacked(r);
  }

  // ------------------------------------------------- the demo's own reader

  /** `guardPayload`: refuses by length and version only, then reads by offset. */
  function GuardPayload(d: seq<byte>): Option<Payload> {
    if |d| != 99 || d[0] != 2 then None
    else
      Some(Payload(d[1..33],
                   Request(Economic(U64Of(d[33..41]), U64Of(d[41..49]), I64FromLE(d[49..57])),
                           if d[57] == 0 then PENDING else ACTIVATED, U32Of(d[58..62]), U32Of(d[62..66])),
                   d[66], d[67..99]))
  }

  /** It agrees with the program on everything the program accepts, and reads a
      packed request's own fields whenever the phase byte is a phase. */
  lemma DemoReaderAgrees(data: seq<byte>, r: RequestFields)
    ensures DecodePayload(data).Ok? ==> GuardPayload(data) == Some(DecodePayload(data).payload)
    ensures r.phase <= 1 ==>
              GuardPayload(Packed(r)) == Some(Payload(r.mint, Meant(r), r.adapter % 256, r.commitment))
  {
    hide Packed, ValidMultiplier, I64FromLE, I64ToLE, Wrap64;
    PackedFields(r);
    I64RoundTrip(r.t);
    U32RoundTrip(r.beforeSecs);
    U32RoundTrip(r.afterSecs);
  }
}
