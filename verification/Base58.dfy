/** Positional digits in two bases, and base58 as the change of base that keeps
    leading zeros: the two directions are one function with its bases swapped. */
module Digits {
  import opened Bytes

  ghost predicate Within(ds: seq<nat>, base: nat) {
    forall i :: 0 <= i < |ds| ==> ds[i] < base
  }

  /** The value of big-endian digits. */
  function Value(base: nat, ds: seq<nat>): nat {
    if ds == [] then 0 else Value(base, ds[..|ds| - 1]) * base + ds[|ds| - 1]
  }

  lemma DivideShrinks(n: nat, base: nat)
    requires n > 0 && base >= 2
    ensures n / base < n
  {
    var q := n / base;
    assert n == q * base + n % base;
    assert q * base == q + (base - 1) * q;
    MulAtLeast(base - 1, q);
  }

  /** The digits of `n`, most significant first, none for zero. */
  function Minimal(base: nat, n: nat): (ds: seq<nat>)
    requires base >= 2
    ensures forall i :: 0 <= i < |ds| ==> ds[i] < base
    ensures |ds| == 0 <==> n == 0
    decreases n
  {
    if n == 0 then []
    else
      DivideShrinks(n, base);
      Minimal(base, n / base) + [n % base]
  }

  function Zeros(k: nat): (ds: seq<nat>)
    ensures |ds| == k
  {
    seq(k, _ => 0)
  }

  function Leading(ds: seq<nat>): (k: nat)
    ensures k <= |ds|
    ensures forall i :: 0 <= i < k ==> ds[i] == 0
    ensures k < |ds| ==> ds[k] != 0
  {
    if ds == [] || ds[0] != 0 then 0 else 1 + Leading(ds[1..])
  }

  lemma ValueSnoc(base: nat, ds: seq<nat>, d: nat)
    ensures Value(base, ds + [d]) == Value(base, ds) * base + d
  {
    assert (ds + [d])[..|ds|] == ds;
  }

  lemma {:induction false} ValueOfMinimal(base: nat, n: nat)
    requires base >= 2
    ensures Value(base, Minimal(base, n)) == n
    decreases n
  {
    if n > 0 {
      DivideShrinks(n, base);
      ValueOfMinimal(base, n / base);
      ValueSnoc(base, Minimal(base, n / base), n % base);
      DivModSplit(n, base);
    }
  }

  lemma {:induction false} MinimalHasNoLeadingZero(base: nat, n: nat)
    requires base >= 2 && n > 0
    ensures Minimal(base, n)[0] != 0
    decreases n
  {
    DivideShrinks(n, base);
    if n / base > 0 {
      MinimalHasNoLeadingZero(base, n / base);
    } else {
      DivModSplit(n, base);
    }
  }

  lemma {:induction false} MinimalOfValue(base: nat, ds: seq<nat>)
    requires base >= 2 && Within(ds, base) && (ds == [] || ds[0] != 0)
    ensures Minimal(base, Value(base, ds)) == ds
  {
    if ds != [] {
      var rest, d := ds[..|ds| - 1], ds[|ds| - 1];
      MinimalOfValue(base, rest);
      var n := Value(base, rest);
      DivModUnique(n * base + d, base, n, d);
      if rest != [] {
        assert n > 0;
        MulAtLeast(n, base);
      }
      assert ds == rest + [d];
    }
  }

  lemma {:induction false} LeadingZerosAddNothing(base: nat, k: nat, ds: seq<nat>)
    ensures Value(base, Zeros(k) + ds) == Value(base, ds)
  {
    if ds == [] {
      if k > 0 {
        LeadingZerosAddNothing(base, k - 1, []);
        assert Zeros(k) + [] == (Zeros(k - 1) + []) + [0];
        ValueSnoc(base, Zeros(k - 1) + [], 0);
      }
      assert k == 0 ==> Zeros(k) + ds == [];
    } else {
      var rest, d := ds[..|ds| - 1], ds[|ds| - 1];
      LeadingZerosAddNothing(base, k, rest);
      assert Zeros(k) + ds == (Zeros(k) + rest) + [d];
      ValueSnoc(base, Zeros(k) + rest, d);
    }
  }

  /** Digits in base `from` as digits in base `to`, leading zeros kept one for one. */
  function Recode(from: nat, to: nat, ds: seq<nat>): (r: seq<nat>)
    requires to >= 2
    ensures forall i :: 0 <= i < |r| ==> r[i] < to
  {
    Zeros(Leading(ds)) + Minimal(to, Value(from, ds))
  }

  lemma {:induction false} LeadingIs(ds: seq<nat>, k: nat)
    requires k <= |ds| && (forall i :: 0 <= i < k ==> ds[i] == 0) && (k < |ds| ==> ds[k] != 0)
    ensures Leading(ds) == k
  {
    if k > 0 {
      LeadingIs(ds[1..], k - 1);
    }
  }

  lemma LeadingOf(k: nat, ds: seq<nat>)
    requires ds == [] || ds[0] != 0
    ensures Leading(Zeros(k) + ds) == k
  {
    LeadingIs(Zeros(k) + ds, k);
  }

  lemma StripAndPad(ds: seq<nat>)
    ensures ds == Zeros(Leading(ds)) + ds[Leading(ds)..]
  {
  }

  /** Recoding back is the identity, for every digit sequence in the first base. */
  lemma RecodeRoundTrip(from: nat, to: nat, ds: seq<nat>)
    requires from >= 2 && to >= 2 && Within(ds, from)
    ensures Recode(to, from, Recode(from, to, ds)) == ds
  {
    var k, n := Leading(ds), Value(from, ds);
    var body := Minimal(to, n);
    if n > 0 {
      MinimalHasNoLeadingZero(to, n);
    }
    LeadingOf(k, body);
    LeadingZerosAddNothing(to, k, body);
    ValueOfMinimal(to, n);
    var stripped := ds[k..];
    StripAndPad(ds);
    LeadingZerosAddNothing(from, k, stripped);
    MinimalOfValue(from, stripped);
  }
}

module Base58 {
  import opened Bytes
  import opened Digits

  const ALPHABET := "123456789ABCDEFGHJKLMNPQRSTUVWXYZabcdefghijkmnopqrstuvwxyz"

  /** The alphabet is six runs of consecutive characters, in ascending order. */
  function CodeOf(d: nat): int {
    if d < 9 then '1' as int + d
    else if d < 17 then 'A' as int + d - 9
    else if d < 22 then 'J' as int + d - 17
    else if d < 33 then 'P' as int + d - 22
    else if d < 44 then 'a' as int + d - 33
    else 'm' as int + d - 44
  }

  lemma FirstCodes(d: nat)
    requires d < 44
    ensures |ALPHABET| == 58 && ALPHABET[d] as int == CodeOf(d)
  {
    var first := "123456789ABCDEFGHJKLMNPQRSTUVWXYZabcdefghijk";
    assert first <= ALPHABET;
    assert first[d] as int == CodeOf(d);
  }

  lemma LastCodes(d: nat)
    requires 44 <= d < 58
    ensures |ALPHABET| == 58 && ALPHABET[d] as int == CodeOf(d)
  {
    var last := "mnopqrstuvwxyz";
    assert ALPHABET[44..] == last;
    assert last[d - 44] == ALPHABET[44..][d - 44];
  }

  lemma AlphabetCodes(d: nat)
    requires d < 58
    ensures |ALPHABET| == 58 && ALPHABET[d] as int == CodeOf(d)
  {
    if d < 44 {
      FirstCodes(d);
    } else {
      LastCodes(d);
    }
  }

  function Letter(d: nat): (c: char)
    requires d < 58
    ensures c as int == CodeOf(d)
  {
    AlphabetCodes(d);
    ALPHABET[d]
  }

  /** `ALPHABET.indexOf`, from the character `i` on. */
  function IndexFrom(c: char, i: nat): (r: Option<nat>)
    requires i <= 58
    ensures r.Some? ==> i <= r.value < 58 && Letter(r.value) == c
    ensures r.None? ==> forall j :: i <= j < 58 ==> Letter(j) != c
    decreases 58 - i
  {
    if i == 58 then None
    else if Letter(i) == c then Some(i)
    else IndexFrom(c, i + 1)
  }

  function IndexOf(c: char): (r: Option<nat>)
    ensures r.Some? ==> r.value < 58 && Letter(r.value) == c
    ensures r.None? ==> forall j :: 0 <= j < 58 ==> Letter(j) != c
  {
    IndexFrom(c, 0)
  }

  lemma IndexOfDigit(d: nat)
    requires d < 58
    ensures IndexOf(Letter(d)) == Some(d)
  {
    hide IndexOf, Letter;
    var r := IndexOf(Letter(d));
    assert Letter(d) == Letter(r.value);
  }

  // ------------------------------------------------------------ as functions

  predicate InAlphabet(text: string) {
    forall i :: 0 <= i < |text| ==> IndexOf(text[i]).Some?
  }

  function DigitsOf(text: string): (ds: seq<nat>)
    requires InAlphabet(text)
    ensures |ds| == |text|
    ensures forall i :: 0 <= i < |ds| ==> ds[i] < 58 && Letter(ds[i]) == text[i]
  {
    seq(|text|, i requires 0 <= i < |text| => IndexOf(text[i]).value)
  }

  function TextOf(ds: seq<nat>): (text: string)
    requires Within(ds, 58)
    ensures |text| == |ds|
    ensures forall i :: 0 <= i < |ds| ==> text[i] == Letter(ds[i])
  {
    seq(|ds|, i requires 0 <= i < |ds| => Letter(ds[i]))
  }

  lemma TextHasDigits(ds: seq<nat>)
    requires Within(ds, 58)
    ensures InAlphabet(TextOf(ds)) && DigitsOf(TextOf(ds)) == ds
  {
    forall i | 0 <= i < |ds| ensures IndexOf(TextOf(ds)[i]) == Some(ds[i]) {
      IndexOfDigit(ds[i]);
    }
  }

  lemma TextPrepend(d: nat, ds: seq<nat>)
    requires d < 58 && Within(ds, 58)
    ensures TextOf([d] + ds) == [Letter(d)] + TextOf(ds)
  {
  }

  lemma TextOfZeros(k: nat, ds: seq<nat>)
    requires Within(ds, 58)
    ensures TextOf(Zeros(k) + ds) == seq(k, _ => '1') + TextOf(ds)
  {
  }

  /** Base58 of a byte string. */
  function Encode(raw: seq<byte>): string {
    TextOf(Recode(256, 58, raw))
  }

  /** The bytes a text stands for, or nothing when a character is not in the alphabet. */
  function Decode(text: string): (r: Option<seq<byte>>)
    ensures r.Some? <==> InAlphabet(text)
  {
    if InAlphabet(text) then Some(Recode(58, 256, DigitsOf(text))) else None
  }

  /** Every byte string, its leading zero bytes included, survives the round trip. */
  lemma DecodeOfEncode(raw: seq<byte>)
    ensures Decode(Encode(raw)) == Some(raw)
  {
    TextHasDigits(Recode(256, 58, raw));
    RecodeRoundTrip(256, 58, raw);
  }

  /** And so does every text over the alphabet, its leading `1`s included. */
  lemma EncodeOfDecode(text: string)
    requires InAlphabet(text)
    ensures Encode(Decode(text).value) == text
  {
    var ds := DigitsOf(text);
    RecodeRoundTrip(58, 256, ds);
    assert TextOf(ds) == text;
  }

  lemma DecodeInjective(a: string, b: string)
    requires InAlphabet(a) && Decode(a) == Decode(b)
    ensures a == b
  {
    EncodeOfDecode(a);
    EncodeOfDecode(b);
  }

  /** The number a text stands for. */
  function NumberOf(text: string): nat
    requires InAlphabet(text)
  {
    Value(58, DigitsOf(text))
  }

  /** What the decoder that goes through hexadecimal text makes of the same characters. */
  function DecodeThroughHex(text: string): Option<seq<byte>> {
    match Decode(text)
    case None => None
    case Some(b) => Some(if NumberOf(text) == 0 then b + [0] else b)
  }

  /** The two decoders agree exactly on the texts that are not all `1`s. */
  lemma HexDecoderAgreesExactly(text: string)
    requires InAlphabet(text)
    ensures DecodeThroughHex(text) == Decode(text) <==> exists i :: 0 <= i < |text| && text[i] != '1'
  {
    var ds := DigitsOf(text);
    forall i | 0 <= i < |text| ensures text[i] == '1' <==> ds[i] == 0 {
      IndexOfDigit(0);
    }
    StripAndPad(ds);
    LeadingZerosAddNothing(58, Leading(ds), ds[Leading(ds)..]);
    MinimalOfValue(58, ds[Leading(ds)..]);
    if Leading(ds) == |ds| {
      assert Value(58, ds) == 0;
    } else {
      assert text[Leading(ds)] != '1';
    }
  }

  /** The all-`1` texts are the zero bytes, one each, and to the other decoder one more. */
  lemma OnesAreZeros(n: nat)
    ensures var ones := seq(n, _ => '1');
            && InAlphabet(ones) && Decode(ones) == Some(seq(n, _ => 0))
            && DecodeThroughHex(ones) == Some(seq(n + 1, _ => 0))
  {
    var ones: string, zeros: seq<nat> := seq(n, _ => '1'), seq(n, _ => 0);
    assert Letter(0) == '1';
    assert TextOf(zeros) == ones;
    TextHasDigits(zeros);
    assert Leading(zeros) == n && zeros[n..] == [];
    LeadingZerosAddNothing(58, n, []);
    assert Zeros(n) + [] == zeros;
    assert Recode(58, 256, zeros) == seq(n, _ => 0);
    assert seq(n, _ => 0) + [0] == seq(n + 1, _ => 0);
  }

  // ------------------------------------------------------------- as programs

  lemma {:induction false} MinimalStep(base: nat, n: nat)
    requires base >= 2 && n > 0
    ensures Minimal(base, n) == Minimal(base, n / base) + [n % base]
  {
  }

  /** `len(raw) - len(raw.lstrip(b"\\0"))`. */
  method LeadingZeroBytes(raw: seq<byte>) returns (k: nat)
    ensures k == Leading(raw)
  {
    k := 0;
    while k < |raw| && raw[k] == 0
      invariant k <= |raw| && forall i :: 0 <= i < k ==> raw[i] == 0
    {
      k := k + 1;
    }
    LeadingIs(raw, k);
  }

  /** `b58`: repeated division, prepending, then one `1` per leading zero byte. */
  method B58(raw: seq<byte>) returns (text: string)
    ensures text == Encode(raw)
  {
    hide IndexOf, TextOf, Letter, Minimal, Value;
    var n := Value(256, raw);
    ghost var whole := Minimal(58, n);
    ghost var done: seq<nat> := [];
    text := "";
    assert whole == Minimal(58, n) + done;
    while n != 0
      invariant whole == Minimal(58, n) + done && Within(done, 58)
      invariant text == TextOf(done)
    {
      var rem := n % 58;
      MinimalStep(58, n);
      DivideShrinks(n, 58);
      TextPrepend(rem, done);
      assert whole == Minimal(58, n / 58) + ([rem] + done);
      done := [rem] + done;
      n := n / 58;
      text := [Letter(rem)] + text;
    }
    assert whole == done;
    var k := LeadingZeroBytes(raw);
    TextOfZeros(k, whole);
    text := seq(k, _ => '1') + text;
  }

  /** The accumulator loop every decoder starts with. */
  method ReadNumber(text: string) returns (n: Option<nat>)
    ensures n == if InAlphabet(text) then Some(NumberOf(text)) else None
  {
    var acc := 0;
    for i := 0 to |text|
      invariant InAlphabet(text[..i]) && acc == Value(58, DigitsOf(text[..i]))
    {
      var digit := IndexOf(text[i]);
      if digit.None? {
        return None;
      }
      assert DigitsOf(text[..i + 1]) == DigitsOf(text[..i]) + [digit.value];
      ValueSnoc(58, DigitsOf(text[..i]), digit.value);
      acc := acc * 58 + digit.value;
    }
    assert text[..|text|] == text;
    return Some(acc);
  }

  /** How many leading `1`s a text has. */
  method LeadingOnes(text: string) returns (k: nat)
    ensures InAlphabet(text) ==> k == Leading(DigitsOf(text))
  {
    k := 0;
    while k < |text| && text[k] == '1'
      invariant k <= |text| && forall i :: 0 <= i < k ==> text[i] == '1'
    {
      k := k + 1;
    }
    if InAlphabet(text) {
      ghost var ds := DigitsOf(text);
      forall i | 0 <= i < k ensures ds[i] == 0 {
        IndexOfDigit(0);
      }
      LeadingIs(ds, k);
    }
  }

  /** `int.to_bytes(k, "big")`. */
  function BigEndian(n: nat, k: nat): seq<nat> {
    if k == 0 then [] else BigEndian(n / 256, k - 1) + [n % 256]
  }

  function BitLength(n: nat): nat {
    if n == 0 then 0 else 1 + BitLength(n / 2)
  }

  lemma {:induction false} BigEndianIsMinimal(n: nat)
    ensures BigEndian(n, |Minimal(256, n)|) == Minimal(256, n)
    decreases n
  {
    if n > 0 {
      DivideShrinks(n, 256);
      BigEndianIsMinimal(n / 256);
    }
  }

  lemma {:induction false} EightBitsPerByte(n: nat)
    ensures (BitLength(n) + 7) / 8 == |Minimal(256, n)|
    decreases n
  {
    if n >= 256 {
      EightBitsPerByte(n / 256);
      TwoNibblesOfBits(n);
      assert Minimal(256, n) == Minimal(256, n / 256) + [n % 256];
    } else if n > 0 {
      SmallBitLength(n);
      assert n / 256 == 0 && Minimal(256, 0) == [];
      assert Minimal(256, n) == Minimal(256, n / 256) + [n % 256];
    }
  }

  lemma FourBits(n: nat)
    requires n >= 16
    ensures BitLength(n) == 4 + BitLength(n / 16)
  {
    var a, b, c := n / 2, n / 4, n / 8;
    assert BitLength(n) == 1 + BitLength(a) && BitLength(a) == 1 + BitLength(a / 2);
    assert a / 2 == b && b / 2 == c && c / 2 == n / 16;
    assert BitLength(b) == 1 + BitLength(c) && BitLength(c) == 1 + BitLength(c / 2);
  }

  lemma TwoNibblesOfBits(n: nat)
    requires n >= 256
    ensures BitLength(n) == 8 + BitLength(n / 256)
  {
    FourBits(n);
    FourBits(n / 16);
    assert n / 16 / 16 == n / 256;
  }

  lemma SmallBitLength(n: nat)
    requires 0 < n < 256
    ensures 1 <= BitLength(n) <= 8
  {
    if n >= 16 {
      FourBits(n);
    }
    var m := if n >= 16 then n / 16 else n;
    assert 0 < m < 16;
    assert BitLength(m) == 1 + BitLength(m / 2) && m / 2 < 8;
    assert m / 2 > 0 ==> BitLength(m / 2) == 1 + BitLength(m / 4) && m / 4 < 4;
    assert m / 4 > 0 ==> BitLength(m / 4) == 1 + BitLength(m / 8) && m / 8 < 2;
    assert m / 8 > 0 ==> BitLength(m / 8) == 1 + BitLength(0);
  }

  /** `unb58`: the number as the fewest big-endian bytes, after one zero byte per leading `1`. */
  method Unb58(text: string) returns (r: Option<seq<byte>>)
    ensures r == Decode(text)
  {
    var n := ReadNumber(text);
    if n.None? {
      return None;
    }
    EightBitsPerByte(n.value);
    BigEndianIsMinimal(n.value);
    var body := BigEndian(n.value, (BitLength(n.value) + 7) / 8);
    var k := LeadingOnes(text);
    r := Some(Zeros(k) + body);
  }

  /** `b58d`: shifts the bytes out of the number, then prepends the zeros. */
  method B58d(text: string) returns (r: Option<seq<byte>>)
    ensures r == Decode(text)
  {
    hide Minimal;
    var number := ReadNumber(text);
    if number.None? {
      return None;
    }
    var n := number.value;
    var out: seq<nat> := [];
    while n > 0
      invariant Minimal(256, number.value) == Minimal(256, n) + out
    {
      MinimalStep(256, n);
      DivideShrinks(n, 256);
      out := [n % 256] + out;
      n := n / 256;
    }
    assert [] + out == out;
    var k := LeadingOnes(text);
    out := Zeros(k) + out;
    assert out == Recode(58, 256, DigitsOf(text));
    r := Some(out);
  }

  /** `BigInt.toString(16)` as nibbles: zero is written `0`. */
  function HexOf(n: nat): (h: seq<nat>)
    ensures h != [] && Within(h, 16)
  {
    if n == 0 then [0] else Minimal(16, n)
  }

  /** `Buffer.from(hex, "hex")` of an even number of nibbles. */
  function Pairs(h: seq<nat>): (b: seq<nat>)
    requires |h| % 2 == 0
    ensures |b| == |h| / 2
  {
    if h == [] then [] else Pairs(h[..|h| - 2]) + [16 * h[|h| - 2] + h[|h| - 1]]
  }

  function Padded(h: seq<nat>): (p: seq<nat>)
    ensures |p| % 2 == 0
  {
    if |h| % 2 == 1 then [0] + h else h
  }

  lemma PaddedSnoc(h: seq<nat>, a: nat, b: nat)
    ensures Padded(h + [a, b]) == Padded(h) + [a, b]
  {
    assert [0] + (h + [a, b]) == ([0] + h) + [a, b];
  }

  lemma {:induction false} PairsStep(h: seq<nat>, a: nat, b: nat)
    requires |h| % 2 == 0
    ensures Pairs(h + [a, b]) == Pairs(h) + [16 * a + b]
  {
    var p := h + [a, b];
    assert p[..|p| - 2] == h && p[|p| - 2] == a && p[|p| - 1] == b;
  }

  lemma PairsSnoc(h: seq<nat>, a: nat, b: nat)
    ensures Pairs(Padded(h + [a, b])) == Pairs(Padded(h)) + [16 * a + b]
  {
    hide Pairs, Padded;
    PaddedSnoc(h, a, b);
    PairsStep(Padded(h), a, b);
  }

  lemma HexStep(n: nat)
    requires n >= 16
    ensures Minimal(16, n) == Minimal(16, n / 256) + [n / 16 % 16, n % 16]
    ensures 16 * (n / 16 % 16) + n % 16 == n % 256
  {
    assert n / 16 / 16 == n / 256;
    MinimalStep(16, n);
    MinimalStep(16, n / 16);
  }

  lemma PairOfOneDigit(n: nat)
    requires 0 < n < 16
    ensures Pairs(Padded(Minimal(16, n))) == Minimal(256, n)
  {
    MinimalStep(256, n);
    MinimalStep(16, n);
    hide Minimal;
    assert n / 16 == 0 && n / 256 == 0 && n % 16 == n == n % 256;
    NothingMinimal();
    assert Minimal(16, n) == [n];
    assert Padded([n]) == [0, n] && [0, n][..0] == [];
  }

  lemma NothingMinimal()
    ensures Minimal(16, 0) == [] == Minimal(256, 0)
  {
  }

  lemma {:induction false} PairsOfHex(n: nat)
    requires n > 0
    ensures Pairs(Padded(Minimal(16, n))) == Minimal(256, n)
    decreases n
  {
    if n < 16 {
      PairOfOneDigit(n);
    } else {
      hide Minimal, Padded, Pairs;
      MinimalStep(256, n);
      HexStep(n);
      PairsSnoc(Minimal(16, n / 256), n / 16 % 16, n % 16);
      if n / 256 > 0 {
        DivideShrinks(n, 256);
        PairsOfHex(n / 256);
      } else {
        NoDigits();
      }
    }
  }

  lemma NoDigits()
    ensures Pairs(Padded(Minimal(16, 0))) == Minimal(256, 0)
  {
  }

  /** `bs58Decode`: through hexadecimal text, which writes zero as one digit. */
  method Bs58Decode(text: string) returns (r: Option<seq<byte>>)
    ensures r == DecodeThroughHex(text)
  {
    var n := ReadNumber(text);
    if n.None? {
      return None;
    }
    var hex := Padded(HexOf(n.value));
    var body := Pairs(hex);
    if n.value > 0 {
      PairsOfHex(n.value);
    } else {
      assert hex == [0, 0] && hex[..0] == [];
      assert body == [0];
    }
    var zeros := LeadingOnes(text);
    assert n.value == 0 ==> Recode(58, 256, DigitsOf(text)) == Zeros(zeros) + [];
    assert Zeros(zeros) + body ==
           Recode(58, 256, DigitsOf(text)) + if n.value == 0 then [0] else [];
    r := Some(Zeros(zeros) + body);
  }
}
