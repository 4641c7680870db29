/** Mint accounts written entry by entry, as the differential suites build
    them: the reader gives back what the writer put in. */
module BuiltMint {
  import opened Bytes
  import opened Guard
  import opened Abi
  import opened Addresses
  import opened Mint

  datatype Extension = Extension(kind: nat, value: seq<byte>)

  function Tlv(e: Extension): (b: seq<byte>)
    ensures |b| == 4 + |e.value|
  {
    LE(e.kind, 2) + LE(|e.value|, 2) + e.value
  }

  function Tlvs(list: seq<Extension>): seq<byte> {
    if list == [] then [] else Tlv(list[0]) + Tlvs(list[1..])
  }

  function EntriesAt(list: seq<Extension>, offset: nat): seq<Entry> {
    if list == [] then []
    else [Entry(list[0].kind, |list[0].value|, offset + 4)] + EntriesAt(list[1..], offset + 4 + |list[0].value|)
  }

  /** Known kinds, none twice and none of those seen, values a length field can hold. */
  predicate Writable(list: seq<Extension>, seen: set<nat>) {
    && (forall k :: 0 <= k < |list| ==>
          1 <= list[k].kind <= MAX_KNOWN && list[k].kind !in seen && |list[k].value| < 0x1_0000)
    && (forall j, k :: 0 <= j < k < |list| ==> list[j].kind != list[k].kind)
  }

  lemma U16At(before: seq<byte>, n: nat, after: seq<byte>)
    requires n < 0x1_0000
    ensures U16(before + LE(n, 2) + after, |before|) == n
  {
    assert LE(n, 2) == [n % 256] + LE(n / 256, 1);
    assert LE(n / 256, 1) == [n / 256 % 256] + LE(n / 256 / 256, 0);
    var b := before + LE(n, 2) + after;
    assert b[|before|] == LE(n, 2)[0] && b[|before| + 1] == LE(n, 2)[1];
  }

  /** The strict walk reads back every area written entry by entry, to its end. */
  lemma {:induction false} WalkReadsTlvs(before: seq<byte>, list: seq<Extension>, seen: set<nat>)
    requires Writable(list, seen)
    ensures ReadFrom(before + Tlvs(list), |before|, seen) == Entries(EntriesAt(list, |before|))
    ensures EndOf(before + Tlvs(list), |before|) == |before + Tlvs(list)|
    decreases |list|
  {
    hide LE, U16, Tlv, ReadFrom, EndOf;
    if list == [] {
      WalkEnds(before);
      assert before + Tlvs(list) == before;
    } else {
      var e, rest := list[0], list[1..];
      WalkReadsTlvs(before + Tlv(e), rest, seen + {e.kind});
      WalkSteps(before, e, Tlvs(rest), seen);
      assert before + Tlvs(list) == before + Tlv(e) + Tlvs(rest);
      assert |before + Tlv(e)| == |before| + 4 + |e.value|;
    }
  }

  lemma WalkSteps(before: seq<byte>, e: Extension, rest: seq<byte>, seen: set<nat>)
    requires 1 <= e.kind <= MAX_KNOWN && e.kind !in seen && |e.value| < 0x1_0000
    ensures var data := before + Tlv(e) + rest;
            var next := |before| + 4 + |e.value|;
            && ReadFrom(data, |before|, seen)
               == After(Entry(e.kind, |e.value|, |before| + 4), ReadFrom(data, next, seen + {e.kind}))
            && EndOf(data, |before|) == EndOf(data, next)
  {
    hide LE, U16, Tlv, ReadFrom, EndOf;
    var data := before + Tlv(e) + rest;
    TlvAt(before, e, rest);
    StepsOver(data, |before|, seen);
  }

  lemma TlvAt(before: seq<byte>, e: Extension, rest: seq<byte>)
    requires e.kind < 0x1_0000 && |e.value| < 0x1_0000
    ensures U16(before + Tlv(e) + rest, |before|) == e.kind
    ensures U16(before + Tlv(e) + rest, |before| + 2) == |e.value|
  {
    hide LE, U16, Tlv;
    TlvParts(e);
    U16At(before, e.kind, LE(|e.value|, 2) + e.value + rest);
    U16At(before + LE(e.kind, 2), |e.value|, e.value + rest);
    TlvSplits(before, LE(e.kind, 2), LE(|e.value|, 2), e.value, rest);
  }

  lemma TlvSplits(before: seq<byte>, kind: seq<byte>, length: seq<byte>, value: seq<byte>, rest: seq<byte>)
    ensures before + (kind + length + value) + rest == before + kind + (length + value + rest)
    ensures before + (kind + length + value) + rest == before + kind + length + (value + rest)
  {
  }

  lemma TlvParts(e: Extension)
    ensures Tlv(e) == LE(e.kind, 2) + LE(|e.value|, 2) + e.value
  {
  }

  /** `base_mint_bytes`. */
  function BaseMint(): (b: seq<byte>)
    ensures |b| == BASE_MINT_LEN
  {
    LE(1, 4) + seq(32, _ => 0x55) + LE(1_000_000_000, 8) + [6, 1] + LE(0, 4) + seq(32, _ => 0)
  }

  /** `mint_with`. */
  function MintWith(extensions: seq<byte>): seq<byte> {
    BaseMint() + seq(83, _ => 0) + [1] + extensions
  }

  function ScaledUiValue(multiplier: Bytes8, t: int, newMultiplier: Bytes8): (b: seq<byte>)
    ensures |b| == CONFIG_LEN
  {
    seq(32, _ => 0x77) + multiplier + I64ToLE(t) + newMultiplier
  }

  lemma BuiltHeader(extensions: seq<byte>)
    requires |extensions| > 0 && TLV_START + |extensions| != MULTISIG_LEN
    ensures ValidHeader(MintWith(extensions)) && !BaseOnly(MintWith(extensions))
  {
    hide LE, FromLE;
    PowersOf256();
    LERoundTrip(1, 4);
    LERoundTrip(0, 4);
    var b := MintWith(extensions);
    assert b[0..4] == LE(1, 4) && b[46..50] == LE(0, 4) && b[45] == 1 && b[165] == 1;
  }

  /** A mint built around one scaled config decodes to the state put into it, or is
      refused for a multiplier: the decoder undoes the builder. */
  lemma BuiltMintDecodes(multiplier: Bytes8, t: int, newMultiplier: Bytes8)
    requires IsI64(t)
    ensures var e := Economic(U64Of(multiplier), U64Of(newMultiplier), t);
            var mint := MintWith(Tlv(Extension(SCALED_UI, ScaledUiValue(multiplier, t, newMultiplier))));
            DecodeProtectedState(TOKEN_2022, mint) ==
            if ValidMultiplier(e.multiplier) && ValidMultiplier(e.newMultiplier) then State(e)
            else Unreadable(InvalidMultiplier)
  {
    hide LE, FromLE, ValidHeader, BaseOnly, ReadFrom, ValidMultiplier, U64Of, I64FromLE, I64ToLE, BaseMint;
    var value := ScaledUiValue(multiplier, t, newMultiplier);
    var ext := Extension(SCALED_UI, value);
    var mint := MintWith(Tlv(ext));
    BuiltHeader(Tlv(ext));
    assert [ext][1..] == [];
    assert Tlvs([ext]) == Tlv(ext) + Tlvs([]) == Tlv(ext);
    var before := BaseMint() + seq(83, _ => 0) + [1];
    WalkReadsTlvs(before, [ext], {});
    var list := EntriesAt([ext], TLV_START);
    assert list == [Entry(SCALED_UI, CONFIG_LEN, 170)] + EntriesAt([], TLV_START + 60) ==
           [Entry(SCALED_UI, CONFIG_LEN, 170)];
    assert EntryOf(list, SCALED_UI) == Some(list[0]);
    assert KindsOf(list) == {SCALED_UI};
    assert mint[170..] == value;
    assert mint[202..210] == value[32..40] == multiplier;
    assert mint[210..218] == value[40..48] == I64ToLE(t);
    assert mint[218..226] == value[48..56] == newMultiplier;
    I64RoundTrip(t);
  }
}
