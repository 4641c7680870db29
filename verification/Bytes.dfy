/** Bytes, fixed-width little-endian integers and two's complement, as the
    encoders and decoders of the repository read and write them. */
module Bytes {
  datatype Option<+T> = None | Some(value: T)
  {
    /** The next row of a table of ordered checks: the first that fails decides. */
    function OrIf(fails: bool, t: T): Option<T> {
      if Some? then this else if fails then Some(t) else None
    }

    function Or(other: Option<T>): Option<T> {
      if Some? then this else other
    }

    function GetOr(default: T): T {
      if Some? then value else default
    }
  }

  type byte = x: int | 0 <= x < 0x100
  type u32 = x: int | 0 <= x < 0x1_0000_0000
  type u64 = x: int | 0 <= x < 0x1_0000_0000_0000_0000

  type Bytes8 = b: seq<byte> | |b| == 8 witness [0, 0, 0, 0, 0, 0, 0, 0]
  type Bytes32 = b: seq<byte> | |b| == 32 witness seq(32, _ => 0)

  const TWO_63 := 0x8000_0000_0000_0000
  const TWO_64 := 0x1_0000_0000_0000_0000
  const I64_MIN := -TWO_63
  const I64_MAX := TWO_63 - 1

  predicate IsI64(x: int) {
    I64_MIN <= x <= I64_MAX
  }

  function Pow256(k: nat): (p: nat)
    ensures p > 0
  {
    if k == 0 then 1 else 256 * Pow256(k - 1)
  }

  /** The `k` low-order bytes of `n`, least significant first. */
  function LE(n: nat, k: nat): (b: seq<byte>)
    ensures |b| == k
  {
    if k == 0 then [] else [n % 256] + LE(n / 256, k - 1)
  }

  /** What a byte store keeps of a number. */
  function Low8(n: nat): byte {
    n % 256
  }

  function FromLE(b: seq<byte>): nat {
    if b == [] then 0 else b[0] + 256 * FromLE(b[1..])
  }

  lemma ModSplit(n: nat, p: nat)
    requires p > 0
    ensures n % 256 + 256 * (n / 256 % p) == n % (256 * p)
  {
    var q, r := n / 256 / p, n / 256 % p;
    assert n == 256 * (q * p + r) + n % 256;
    assert n == q * (256 * p) + (256 * r + n % 256);
    assert 0 <= 256 * r + n % 256 < 256 * p;
    DivModUnique(n, 256 * p, q, 256 * r + n % 256);
  }

  lemma DivModSplit(n: nat, d: nat)
    requires d > 0
    ensures n / d * d + n % d == n
  {
  }

  lemma MulAtLeast(m: int, d: int)
    requires m >= 1 && d >= 0
    ensures m * d >= d
  {
    assert m * d == d + (m - 1) * d;
    assert (m - 1) * d >= 0;
  }

  lemma DivModUnique(n: nat, d: nat, q: nat, r: nat)
    requires d > 0 && r < d && n == q * d + r
    ensures n / d == q && n % d == r
  {
    var q', r' := n / d, n % d;
    assert n == q' * d + r';
    assert (q - q') * d == r' - r && (q' - q) * d == r - r';
    if q' < q {
      MulAtLeast(q - q', d);
    } else if q < q' {
      MulAtLeast(q' - q, d);
    }
  }

  lemma {:induction false} FromLEOfLE(n: nat, k: nat)
    ensures FromLE(LE(n, k)) == n % Pow256(k)
  {
    if k > 0 {
      FromLEOfLE(n / 256, k - 1);
      ModSplit(n, Pow256(k - 1));
      assert LE(n, k)[1..] == LE(n / 256, k - 1);
    }
  }

  lemma DivTwice(n: nat, p: nat)
    requires p > 0
    ensures n / 256 / p == n / (256 * p)
  {
    var q, r := n / 256 / p, n / 256 % p;
    assert n == 256 * (q * p + r) + n % 256;
    assert n == q * (256 * p) + (256 * r + n % 256);
    DivModUnique(n, 256 * p, q, 256 * r + n % 256);
  }

  /** Least significant first: byte `i` is the digit of weight 256 to the `i`. */
  lemma {:induction false} LittleEndian(n: nat, k: nat, i: nat)
    requires i < k
    ensures LE(n, k)[i] == n / Pow256(i) % 256
  {
    if i > 0 {
      LittleEndian(n / 256, k - 1, i - 1);
      DivTwice(n, Pow256(i - 1));
    }
  }

  lemma NoBytes()
    ensures FromLE([]) == 0 && LE(0, 0) == [] && Pow256(0) == 1
  {
  }

  lemma OneByteMore(b: seq<byte>)
    requires b != []
    ensures FromLE(b) == b[0] + 256 * FromLE(b[1..]) && Pow256(|b|) == 256 * Pow256(|b| - 1)
    ensures LE(FromLE(b), |b|) == [FromLE(b) % 256] + LE(FromLE(b) / 256, |b| - 1)
  {
  }

  lemma {:induction false} LEOfFromLE(b: seq<byte>)
    ensures FromLE(b) < Pow256(|b|)
    ensures LE(FromLE(b), |b|) == b
  {
    if b != [] {
      hide LE, FromLE, Pow256;
      var first, rest := b[0], FromLE(b[1..]);
      LEOfFromLE(b[1..]);
      OneByteMore(b);
      assert (first + 256 * rest) % 256 == first && (first + 256 * rest) / 256 == rest;
      assert b == [first] + b[1..];
    } else {
      NoBytes();
    }
  }

  lemma PowersOf256()
    ensures Pow256(1) == 0x100
    ensures Pow256(2) == 0x1_0000
    ensures Pow256(4) == 0x1_0000_0000
    ensures Pow256(8) == TWO_64
  {
    assert Pow256(3) == 256 * Pow256(2) && Pow256(5) == 256 * Pow256(4);
    assert Pow256(6) == 256 * Pow256(5) && Pow256(7) == 256 * Pow256(6);
  }

  /** A value that fits its width is read back unchanged. */
  lemma LERoundTrip(n: nat, k: nat)
    requires n < Pow256(k)
    ensures FromLE(LE(n, k)) == n
  {
    FromLEOfLE(n, k);
  }

  /** `DataView.setBigInt64` keeps the low 64 bits of its argument. */
  function I64ToLE(x: int): (b: seq<byte>)
    ensures |b| == 8
  {
    LE(x % TWO_64, 8)
  }

  /** `DataView.getBigInt64`: two's complement. */
  function I64FromLE(b: seq<byte>): int {
    var n := FromLE(b);
    if n < TWO_63 then n else n - TWO_64
  }

  /** What a 64-bit store followed by a load makes of `x`. */
  function Wrap64(x: int): (w: int)
    ensures IsI64(w) && (x - w) % TWO_64 == 0
    ensures IsI64(x) ==> w == x
  {
    var n := x % TWO_64;
    if n < TWO_63 then n else n - TWO_64
  }

  lemma I64RoundTrip(x: int)
    ensures I64FromLE(I64ToLE(x)) == Wrap64(x)
  {
    PowersOf256();
    LERoundTrip(x % TWO_64, 8);
  }

  /** `out.set(part, offset)`. */
  method Set(out: array<byte>, part: seq<byte>, offset: nat)
    requires offset + |part| <= out.Length
    modifies out
    ensures out[..offset + |part|] == old(out[..offset]) + part
    ensures out[offset + |part|..] == old(out[offset + |part|..])
  {
    for k := 0 to |part|
      invariant out[..offset + k] == old(out[..offset]) + part[..k]
      invariant out[offset + k..] == old(out[offset + k..])
    {
      out[offset + k] := part[k];
    }
    assert part[..|part|] == part;
  }
}
