/** The seeded generator of guard cases, for every stream its random source could
    yield: what each kind of draw is bound to be. */
module Generator {
  import opened Bytes
  import opened Abi

  type Normal = x: u64 | ValidMultiplier(x) witness MIN_POSITIVE_NORMAL

  const U32_MAX := 0xffff_ffff
  const SIGN := TWO_63
  const EXPONENT_UNIT := 0x10_0000_0000_0000

  /** The positive decimal constants of the generator as stored doubles: those it
      observed, and `0.01 + k / 100000`. */
  datatype Doubles = Doubles(observed: seq<Normal>, small: nat -> Normal)

  const REAL_TIMESTAMPS: seq<int> := [1789432200, 1789430644, 1789173000, 1789344245, 1781137800, 1788344044,
                                      1781481300]
  const EXTREME_TIMESTAMPS: seq<int> :=
    [I64_MIN, I64_MIN + 1, I64_MAX - 1, I64_MAX, 0, -1, -1_000_000_000_000, 1_000_000_000_000_000]

  const WEIGHTS: seq<nat> := [260, 100, 60, 60, 50, 60, 30, 40, 30, 15, 20, 10]
                             + [20, 20, 20, 25, 20, 10, 15, 15, 15, 20, 30, 55]

  function Sum(w: seq<nat>): nat {
    if w == [] then 0 else Sum(w[..|w| - 1]) + w[|w| - 1]
  }

  lemma SumSnoc(w: seq<nat>, x: nat)
    ensures Sum(w + [x]) == Sum(w) + x
  {
    assert (w + [x])[..|w|] == w;
  }

  lemma {:induction false} SumSplit(a: seq<nat>, b: seq<nat>)
    ensures Sum(a + b) == Sum(a) + Sum(b)
  {
    if b == [] {
      assert a + b == a;
    } else {
      assert a + b == (a + b[..|b| - 1]) + [b[|b| - 1]];
      SumSnoc(a + b[..|b| - 1], b[|b| - 1]);
      SumSplit(a, b[..|b| - 1]);
    }
  }

  lemma {:induction false} SumPrefix(w: seq<nat>, i: nat)
    requires i < |w|
    ensures Sum(w[..i + 1]) == Sum(w[..i]) + w[i] && Sum(w[..i + 1]) <= Sum(w)
    decreases |w| - i
  {
    assert w[..i + 1] == w[..i] + [w[i]];
    SumSnoc(w[..i], w[i]);
    assert w == w[..i + 1] + w[i + 1..];
    SumSplit(w[..i + 1], w[i + 1..]);
  }

  /** The weights fill the range drawn from, so the fallback after the loop is never reached. */
  lemma WeightsSumTo1000()
    ensures |WEIGHTS| == 24 && Sum(WEIGHTS) == 1000
  {
    var a: seq<nat>, b: seq<nat> := [260, 100, 60, 60], [50, 60, 30, 40];
    var c: seq<nat>, d: seq<nat> := [30, 15, 20, 10], [20, 20, 20, 25];
    var e: seq<nat>, f: seq<nat> := [20, 10, 15, 15], [15, 20, 30, 55];
    FourTerms(260, 100, 60, 60);
    FourTerms(50, 60, 30, 40);
    FourTerms(30, 15, 20, 10);
    FourTerms(20, 20, 20, 25);
    FourTerms(20, 10, 15, 15);
    FourTerms(15, 20, 30, 55);
    assert WEIGHTS == a + (b + (c + (d + (e + f))));
    SumSplit(a, b + (c + (d + (e + f))));
    SumSplit(b, c + (d + (e + f)));
    SumSplit(c, d + (e + f));
    SumSplit(d, e + f);
    SumSplit(e, f);
  }

  lemma FourTerms(a: nat, b: nat, c: nat, d: nat)
    ensures Sum([a, b, c, d]) == a + b + c + d
  {
    assert [a, b, c, d] == (([] + [a]) + [b]) + [c] + [d];
    SumSnoc([], a);
    SumSnoc([] + [a], b);
    SumSnoc([] + [a] + [b], c);
    SumSnoc([] + [a] + [b] + [c], d);
  }

  // ------------------------------------------------------------ bit patterns

  lemma ExponentIsNormal(exponent: nat, mantissa: nat)
    requires 1 <= exponent <= 2046 && mantissa < EXPONENT_UNIT
    ensures exponent * EXPONENT_UNIT + mantissa < TWO_64
    ensures ValidMultiplier(exponent * EXPONENT_UNIT + mantissa)
  {
    ValidIsAnInterval(exponent * EXPONENT_UNIT + mantissa);
  }

  lemma InvalidPatterns(x: u64)
    ensures !ValidMultiplier(0) && !ValidMultiplier(SIGN)
    ensures var q := 0x7ff8_0000_0000_0000 + x % 0x8_0000_0000_0000; q < TWO_64 && !ValidMultiplier(q)
    ensures var m := x % EXPONENT_UNIT;
            var n := 0xfff0_0000_0000_0000 + (m - m % 2 + 1); n < TWO_64 && !ValidMultiplier(n)
    ensures !ValidMultiplier(0x7ff0_0000_0000_0000) && !ValidMultiplier(0xfff0_0000_0000_0000)
    ensures !ValidMultiplier(1 + x % 0xf_ffff_ffff_ffff)
  {
    ValidIsAnInterval(0);
    ValidIsAnInterval(SIGN);
    ValidIsAnInterval(0x7ff8_0000_0000_0000 + x % 0x8_0000_0000_0000);
    var m := x % EXPONENT_UNIT;
    ValidIsAnInterval(0xfff0_0000_0000_0000 + (m - m % 2 + 1));
    ValidIsAnInterval(0x7ff0_0000_0000_0000);
    ValidIsAnInterval(0xfff0_0000_0000_0000);
    ValidIsAnInterval(1 + x % 0xf_ffff_ffff_ffff);
  }

  lemma NegatedIsInvalid(x: Normal)
    ensures x + SIGN < TWO_64 && !ValidMultiplier(x + SIGN)
  {
    ValidIsAnInterval(x);
    ValidIsAnInterval(x + SIGN);
  }

  // --------------------------------------------------------------- the draws

  type Stream = nat -> u64

  /** A valid multiplier drawn at a position of the stream, and the position after it. */
  function Bits(draws: Stream, doubles: Doubles, at: nat): (drawn: (u64, nat))
    requires doubles.observed != []
    ensures drawn.1 > at
  {
    var r := draws(at) % 10;
    if r == 0 then (MIN_POSITIVE_NORMAL + draws(at + 1) % 4, at + 2)
    else if r == 1 then (MAX_FINITE - draws(at + 1) % 4, at + 2)
    else if r <= 3 then
      ExponentIsNormal(1 + draws(at + 1) % 2046, draws(at + 2) % EXPONENT_UNIT);
      ((1 + draws(at + 1) % 2046) * EXPONENT_UNIT + draws(at + 2) % EXPONENT_UNIT, at + 3)
    else if r == 4 then (doubles.small(draws(at + 1) % 1_000_000), at + 2)
    else (doubles.observed[draws(at + 1) % |doubles.observed|], at + 2)
  }

  /** One try for a different multiplier: a neighbour or another draw. */
  function Attempt(draws: Stream, doubles: Doubles, original: u64, at: nat): (tried: (u64, nat))
    requires doubles.observed != []
    ensures tried.1 > at
  {
    if draws(at) % 2 != 0 then Bits(draws, doubles, at + 1)
    else (if draws(at + 1) % 2 == 0 then (original + 1) % TWO_64 else (original - 1) % TWO_64, at + 2)
  }

  /** Where the stream stands after `k` tries. */
  function Behind(draws: Stream, doubles: Doubles, original: u64, at: nat, k: nat): (behind: nat)
    requires doubles.observed != []
    ensures behind >= at
  {
    if k == 0 then at else Attempt(draws, doubles, original, Behind(draws, doubles, original, at, k - 1)).1
  }

  function Candidate(draws: Stream, doubles: Doubles, original: u64, at: nat, k: nat): u64
    requires doubles.observed != []
  {
    Attempt(draws, doubles, original, Behind(draws, doubles, original, at, k)).0
  }

  predicate Acceptable(original: u64, candidate: u64) {
    candidate != original && MIN_POSITIVE_NORMAL <= candidate <= MAX_FINITE
  }

  /** None of the first `tries` tries at this position is acceptable. */
  predicate Starved(draws: Stream, doubles: Doubles, original: u64, at: nat, tries: nat)
    requires doubles.observed != []
  {
    forall k :: 0 <= k < tries ==> !Acceptable(original, Candidate(draws, doubles, original, at, k))
  }

  /** The first acceptable candidate at this position is `other`, found within `tries`,
      and the stream right behind it stands at `end`. */
  ghost predicate IsOther(draws: Stream, doubles: Doubles, original: u64, at: nat, tries: nat, other: u64, end: nat)
    requires doubles.observed != []
  {
    exists k: nat :: k < tries && FoundAfter(draws, doubles, original, at, k, other, end)
  }

  predicate FoundAfter(draws: Stream, doubles: Doubles, original: u64, at: nat, k: nat, other: u64, end: nat)
    requires doubles.observed != []
  {
    && Starved(draws, doubles, original, at, k) && Acceptable(original, other)
    && other == Candidate(draws, doubles, original, at, k) && end == Behind(draws, doubles, original, at, k + 1)
  }

  lemma FoundWithin(draws: Stream, doubles: Doubles, original: u64, at: nat, k: nat, tries: nat, other: u64, end: nat)
    requires doubles.observed != [] && k < tries && Starved(draws, doubles, original, at, k)
    requires Acceptable(original, other) && other == Candidate(draws, doubles, original, at, k)
    requires end == Behind(draws, doubles, original, at, k + 1)
    ensures IsOther(draws, doubles, original, at, tries, other, end)
  {
    hide Starved, Acceptable, Candidate, Behind;
    assert FoundAfter(draws, doubles, original, at, k, other, end);
  }

  /** A valid multiplier drawn in this stretch of the stream, or one tried in place of it. */
  ghost predicate Drawn(draws: Stream, doubles: Doubles, start: nat, end: nat, x: u64)
    requires doubles.observed != []
  {
    exists q :: start <= q < end && DrawnAt(draws, doubles, q, x)
  }

  ghost predicate DrawnAt(draws: Stream, doubles: Doubles, q: nat, x: u64)
    requires doubles.observed != []
  {
    var (m, at) := Bits(draws, doubles, q);
    x == m || exists k :: x == Candidate(draws, doubles, m, at, k)
  }

  /** An invalid multiplier drawn at a position of the stream, and the position after it. */
  function InvalidBits(draws: Stream, doubles: Doubles, at: nat): (drawn: (nat, nat)) {
    var r := draws(at) % 8;
    if r == 0 then (0, at + 1)
    else if r == 1 then (SIGN, at + 1)
    else if r == 2 then (0x7ff8_0000_0000_0000 + draws(at + 1) % 0x8_0000_0000_0000, at + 2)
    else if r == 3 then (0xfff0_0000_0000_0000 + Odd(draws(at + 1) % EXPONENT_UNIT), at + 2)
    else if r == 4 then (if draws(at + 1) % 2 == 0 then 0x7ff0_0000_0000_0000 else 0xfff0_0000_0000_0000, at + 2)
    else if r == 5 then (1 + draws(at + 1) % 0xf_ffff_ffff_ffff, at + 2)
    else (doubles.small(draws(at + 1) % 1_000_000) + SIGN, at + 2)
  }

  /** `x | 1`. */
  function Odd(x: nat): (o: nat)
    ensures x <= o && o % 2 == 1
  {
    x - x % 2 + 1
  }

  /** By the draw: zero, minus zero, a quiet NaN, an odd negative NaN, an infinity, a
      subnormal, or a given constant with its sign turned. */
  lemma InvalidsByDraw(draws: Stream, doubles: Doubles, at: nat)
    ensures var (r, bits) := (draws(at) % 8, InvalidBits(draws, doubles, at).0);
            && (r == 0 ==> bits == 0) && (r == 1 ==> bits == 0x8000_0000_0000_0000)
            && (r == 2 ==> 0x7ff8_0000_0000_0000 <= bits < 0x8000_0000_0000_0000)
            && (r == 3 ==> bits > 0xfff0_0000_0000_0000 && (bits - 0xfff0_0000_0000_0000) % 2 == 1)
            && (r == 4 ==> bits == 0x7ff0_0000_0000_0000 || bits == 0xfff0_0000_0000_0000)
            && (r == 5 ==> 1 <= bits < MIN_POSITIVE_NORMAL)
            && (r >= 6 ==> exists k: nat :: k < 1_000_000 && bits == doubles.small(k) + 0x8000_0000_0000_0000)
  {
    hide Odd;
    if draws(at) % 8 >= 6 {
      var k := draws(at + 1) % 1_000_000;
      assert InvalidBits(draws, doubles, at).0 == doubles.small(k) + 0x8000_0000_0000_0000;
    }
  }

  function TimestampOf(draws: Stream, at: nat): (drawn: (int, nat))
    ensures IsI64(drawn.0) && drawn.1 > at
  {
    var r := draws(at) % 20;
    if r < 10 then (REAL_TIMESTAMPS[draws(at + 1) % |REAL_TIMESTAMPS|], at + 2)
    else if r < 17 then (1_600_000_000 + draws(at + 1) % 500_000_000, at + 2)
    else (EXTREME_TIMESTAMPS[draws(at + 1) % |EXTREME_TIMESTAMPS|], at + 2)
  }

  /** A refusal window: `before` and `after` seconds, and the position after them. */
  function WindowOf(draws: Stream, at: nat): (drawn: ((u32, u32), nat))
    ensures drawn.1 > at
  {
    match draws(at) % 9
    case 0 => ((0, 0), at + 1)
    case 1 => ((900, 300), at + 1)
    case 2 => ((900, 300), at + 1)
    case 3 => ((1, 1), at + 1)
    case 4 => ((86_400, 86_400), at + 1)
    case 5 => ((U32_MAX, U32_MAX), at + 1)
    case 6 => (if draws(at + 1) % 2 == 0 then (U32_MAX, 0) else (0, U32_MAX), at + 2)
    case _ => ((draws(at + 1) % U32_MAX, draws(at + 2) % U32_MAX), at + 3)
  }

  /** On and around the window's bounds and `t` itself. */
  function Nearby(t: int, before: u32, after: u32): (c: seq<int>)
    ensures |c| == 11
  {
    [t - before - 1, t - before, t - before + 1, t - 1, t, t + 1,
     t + after - 1, t + after, t + after + 1, t - 60, t + 60]
  }

  function FarAway(t: int): (c: seq<int>)
    ensures |c| == 5
  {
    [I64_MIN, I64_MAX, 0, t + 10_000_000_000, t - 10_000_000_000]
  }

  /** A chain time for an activation and a window. */
  function ClockOf(draws: Stream, t: int, before: u32, after: u32, at: nat): (drawn: (int, nat))
    requires IsI64(t)
    ensures IsI64(drawn.0) && drawn.1 > at
  {
    var r := draws(at) % 6;
    var now :=
      if r <= 2 then Nearby(t, before, after)[draws(at + 1) % 11]
      else if r == 3 then t + draws(at + 1) % 4_000_000 - 2_000_000
      else if r == 4 then 1_780_000_000 + draws(at + 1) % 20_000_000
      else FarAway(t)[draws(at + 1) % 5];
    (if IsI64(now) then now else t, at + 2)
  }

  // ------------------------------------------------- what can be drawn at all

  /** A stream by its first three values. */
  function Three(a: u64, b: u64, c: u64): Stream {
    (k: nat) => if k == 0 then a else if k == 1 then b else c
  }

  /** The valid draws are exactly the positive normal patterns. */
  lemma ValidDrawsExactly(doubles: Doubles, x: u64)
    requires doubles.observed != []
    ensures (exists draws: Stream :: Bits(draws, doubles, 0).0 == x) <==> ValidMultiplier(x)
  {
    hide ValidMultiplier;
    ValidIsAnInterval(x);
    if ValidMultiplier(x) {
      var draws := Three(2, x / EXPONENT_UNIT - 1, x % EXPONENT_UNIT);
      assert Bits(draws, doubles, 0).0 == x;
    }
    forall draws: Stream ensures ValidMultiplier(Bits(draws, doubles, 0).0) {
      BitsAreValid(draws, doubles, 0);
    }
  }

  lemma BitsAreValid(draws: Stream, doubles: Doubles, at: nat)
    requires doubles.observed != []
    ensures ValidMultiplier(Bits(draws, doubles, at).0)
  {
    hide ValidMultiplier;
    ExponentIsNormal(1 + draws(at + 1) % 2046, draws(at + 2) % EXPONENT_UNIT);
    ValidIsAnInterval(Bits(draws, doubles, at).0);
  }

  /** A second on or around the window's bounds or the activation, one within 2,000,000
      seconds of it, one of some month of real time, or one of five far away. */
  predicate IsClock(t: int, before: u32, after: u32, now: int) {
    && IsI64(now)
    && (|| now in {t - before - 1, t - before, t - before + 1, t - 1, t, t + 1, t + after - 1, t + after,
                   t + after + 1, t - 60, t + 60}
        || t - 2_000_000 <= now < t + 2_000_000
        || 1_780_000_000 <= now < 1_800_000_000
        || now in {I64_MIN, I64_MAX, 0, t + 10_000_000_000, t - 10_000_000_000})
  }

  lemma NearbyIs(t: int, before: u32, after: u32, now: int)
    ensures now in Nearby(t, before, after) <==>
            now in {t - before - 1, t - before, t - before + 1, t - 1, t, t + 1, t + after - 1, t + after,
                    t + after + 1, t - 60, t + 60}
  {
  }

  lemma FarAwayIs(t: int, now: int)
    ensures now in FarAway(t) <==> now in {I64_MIN, I64_MAX, 0, t + 10_000_000_000, t - 10_000_000_000}
  {
  }

  lemma ClockIsDrawn(t: int, before: u32, after: u32, now: int)
    requires IsI64(t) && IsClock(t, before, after, now)
    ensures exists draws: Stream :: ClockOf(draws, t, before, after, 0).0 == now
  {
    hide Nearby, FarAway;
    NearbyIs(t, before, after, now);
    FarAwayIs(t, now);
    if now in Nearby(t, before, after) {
      var k: nat :| k < 11 && Nearby(t, before, after)[k] == now;
      assert ClockOf(Three(0, k, 0), t, before, after, 0).0 == now;
    } else if t - 2_000_000 <= now < t + 2_000_000 {
      assert ClockOf(Three(3, now - t + 2_000_000, 0), t, before, after, 0).0 == now;
    } else if 1_780_000_000 <= now < 1_800_000_000 {
      assert ClockOf(Three(4, now - 1_780_000_000, 0), t, before, after, 0).0 == now;
    } else {
      var k: nat :| k < 5 && FarAway(t)[k] == now;
      assert ClockOf(Three(5, k, 0), t, before, after, 0).0 == now;
    }
  }

  lemma DrawnIsClock(draws: Stream, t: int, before: u32, after: u32, at: nat)
    requires IsI64(t)
    ensures IsClock(t, before, after, ClockOf(draws, t, before, after, at).0)
  {
    hide Nearby, FarAway;
    var now := ClockOf(draws, t, before, after, at).0;
    NearbyIs(t, before, after, now);
    FarAwayIs(t, now);
  }

  /** The clock drawn for an activation and a window can be each of those, and nothing else. */
  lemma ClocksExactly(t: int, before: u32, after: u32, now: int)
    requires IsI64(t)
    ensures (exists draws: Stream :: ClockOf(draws, t, before, after, 0).0 == now) <==> IsClock(t, before, after, now)
  {
    hide ClockOf, IsClock;
    if IsClock(t, before, after, now) {
      ClockIsDrawn(t, before, after, now);
    }
    if draws: Stream :| ClockOf(draws, t, before, after, 0).0 == now {
      DrawnIsClock(draws, t, before, after, 0);
    }
  }

  /** A window is one of three extremes or any pair below the largest u32. */
  lemma WindowsExactly(before: u32, after: u32)
    ensures (exists draws: Stream :: WindowOf(draws, 0).0 == (before, after)) <==>
            || (before < U32_MAX && after < U32_MAX)
            || (before, after) in {(U32_MAX, U32_MAX), (U32_MAX, 0), (0, U32_MAX)}
  {
    if before < U32_MAX && after < U32_MAX {
      assert WindowOf(Three(7, before, after), 0).0 == (before, after);
    }
    assert WindowOf(Three(5, 0, 0), 0).0 == (U32_MAX, U32_MAX);
    assert WindowOf(Three(6, 0, 0), 0).0 == (U32_MAX, 0);
    assert WindowOf(Three(6, 1, 0), 0).0 == (0, U32_MAX);
  }

  predicate IsExtreme(t: int) {
    t in {I64_MIN, I64_MIN + 1, I64_MAX - 1, I64_MAX, 0, -1, -1_000_000_000_000, 1_000_000_000_000_000}
  }

  lemma ExtremesAre(t: int)
    ensures t in EXTREME_TIMESTAMPS <==> IsExtreme(t)
    ensures |EXTREME_TIMESTAMPS| == 8 && |REAL_TIMESTAMPS| == 7
  {
  }

  lemma PickedTimestamp(draws: Stream, r: u64, k: nat)
    requires draws(0) == r && draws(1) == k
    ensures r < 10 && k < 7 ==> TimestampOf(draws, 0).0 == REAL_TIMESTAMPS[k]
    ensures 10 <= r < 17 && k < 500_000_000 ==> TimestampOf(draws, 0).0 == 1_600_000_000 + k
    ensures 17 <= r < 20 && k < 8 ==> TimestampOf(draws, 0).0 == EXTREME_TIMESTAMPS[k]
  {
    ExtremesAre(0);
  }

  /** An activation is an observed one, any second of a stretch of years, or an extreme. */
  lemma TimestampsExactly(t: int)
    ensures (exists draws: Stream :: TimestampOf(draws, 0).0 == t) <==>
            t in REAL_TIMESTAMPS || 1_600_000_000 <= t < 2_100_000_000 || IsExtreme(t)
  {
    hide TimestampOf, IsExtreme;
    ExtremesAre(t);
    if t in REAL_TIMESTAMPS {
      var k: nat :| k < |REAL_TIMESTAMPS| && REAL_TIMESTAMPS[k] == t;
      PickedTimestamp(Three(0, k, 0), 0, k);
    } else if 1_600_000_000 <= t < 2_100_000_000 {
      PickedTimestamp(Three(10, t - 1_600_000_000, 0), 10, t - 1_600_000_000);
    } else if IsExtreme(t) {
      var k: nat :| k < |EXTREME_TIMESTAMPS| && EXTREME_TIMESTAMPS[k] == t;
      PickedTimestamp(Three(17, k, 0), 17, k);
    }
    if draws: Stream :| TimestampOf(draws, 0).0 == t {
      DrawnTimestamp(draws);
    }
  }

  lemma DrawnTimestamp(draws: Stream)
    ensures var t := TimestampOf(draws, 0).0;
            t in REAL_TIMESTAMPS || 1_600_000_000 <= t < 2_100_000_000 || t in EXTREME_TIMESTAMPS
  {
  }

  class Generator {
    const draws: Stream
    const doubles: Doubles
    var used: nat

    constructor (draws: Stream, doubles: Doubles)
      ensures this.draws == draws && this.doubles == doubles && used == 0
    {
      this.draws, this.doubles, used := draws, doubles, 0;
    }

    /** `nextU64`: the next value of the stream. */
    method NextU64() returns (x: u64)
      modifies this
      ensures x == draws(old(used)) && used == old(used) + 1
    {
      x := draws(used);
      used := used + 1;
    }

    method Below(bound: nat) returns (r: nat)
      requires bound > 0
      modifies this
      ensures r < bound && r == draws(old(used)) % bound && used == old(used) + 1
    {
      var x := NextU64();
      r := x % bound;
    }

    method Chance(oneIn: nat) returns (hit: bool)
      requires oneIn > 0
      modifies this
      ensures hit <==> draws(old(used)) % oneIn == 0
      ensures used == old(used) + 1
    {
      var r := Below(oneIn);
      hit := r == 0;
    }

    method Pick<T>(options: seq<T>) returns (choice: T)
      requires options != []
      modifies this
      ensures choice in options && choice == options[draws(old(used)) % |options|] && used == old(used) + 1
    {
      var i := Below(|options|);
      choice := options[i];
    }

    method ValidMultiplierBits() returns (bits: u64)
      requires doubles.observed != []
      modifies this
      ensures ValidMultiplier(bits) && (bits, used) == Bits(draws, doubles, old(used))
      ensures var r := draws(old(used)) % 10;
              && (r == 0 ==> MIN_POSITIVE_NORMAL <= bits < MIN_POSITIVE_NORMAL + 4)
              && (r == 1 ==> MAX_FINITE - 4 < bits <= MAX_FINITE)
              && (r == 4 ==> exists k: nat :: k < 1_000_000 && bits == doubles.small(k))
              && (r >= 5 ==> bits in doubles.observed)
    {
      hide ValidMultiplier;
      var r := Below(10);
      if r == 0 {
        var k := Below(4);
        bits := MIN_POSITIVE_NORMAL + k;
        ValidIsAnInterval(bits);
      } else if r == 1 {
        var k := Below(4);
        bits := MAX_FINITE - k;
        ValidIsAnInterval(bits);
      } else if r <= 3 {
        var e := Below(2046);
        var x := NextU64();
        ExponentIsNormal(1 + e, x % EXPONENT_UNIT);
        bits := (1 + e) * EXPONENT_UNIT + x % EXPONENT_UNIT;
      } else if r == 4 {
        var k := Below(1_000_000);
        bits := doubles.small(k);
      } else {
        bits := Pick(doubles.observed);
      }
    }

    /** The first acceptable candidate the stream offers, and the stream right behind it.
        The source retries until there is one; this gives up after `tries` tries, exactly
        when none of those is acceptable. */
    method OtherMultiplier(original: u64, tries: nat) returns (other: Option<u64>)
      requires doubles.observed != []
      modifies this
      ensures other.None? <==> Starved(draws, doubles, original, old(used), tries)
      ensures other.None? ==> used == Behind(draws, doubles, original, old(used), tries)
      ensures other.Some? ==>
                && other.value != original && ValidMultiplier(other.value)
                && IsOther(draws, doubles, original, old(used), tries, other.value, used)
    {
      hide ValidMultiplier, Bits, IsOther, FoundAfter;
      for i := 0 to tries
        invariant used == Behind(draws, doubles, original, old(used), i)
        invariant Starved(draws, doubles, original, old(used), i)
      {
        var candidate: u64;
        var adjacent := Chance(2);
        if adjacent {
          var up := Chance(2);
          candidate := if up then (original + 1) % TWO_64 else (original - 1) % TWO_64;
        } else {
          candidate := ValidMultiplierBits();
        }
        assert candidate == Candidate(draws, doubles, original, old(used), i);
        if candidate != original && MIN_POSITIVE_NORMAL <= candidate <= MAX_FINITE {
          ValidIsAnInterval(candidate);
          FoundWithin(draws, doubles, original, old(used), i, tries, candidate, used);
          return Some(candidate);
        }
      }
      return None;
    }

    method InvalidMultiplierBits() returns (bits: u64)
      modifies this
      ensures !ValidMultiplier(bits) && (bits, used) == InvalidBits(draws, doubles, old(used))
    {
      hide ValidMultiplier;
      var r := Below(8);
      InvalidPatterns(0);
      if r == 0 {
        bits := 0;
      } else if r == 1 {
        bits := SIGN;
      } else if r == 2 {
        var x := NextU64();
        InvalidPatterns(x);
        bits := 0x7ff8_0000_0000_0000 + x % 0x8_0000_0000_0000;
      } else if r == 3 {
        var x := NextU64();
        InvalidPatterns(x);
        bits := 0xfff0_0000_0000_0000 + Odd(x % EXPONENT_UNIT);
      } else if r == 4 {
        var positive := Chance(2);
        bits := if positive then 0x7ff0_0000_0000_0000 else 0xfff0_0000_0000_0000;
      } else if r == 5 {
        var x := NextU64();
        InvalidPatterns(x);
        bits := 1 + x % 0xf_ffff_ffff_ffff;
      } else {
        var k := Below(1_000_000);
        NegatedIsInvalid(doubles.small(k));
        bits := doubles.small(k) + SIGN;
      }
    }

    method Timestamp() returns (t: int)
      modifies this
      ensures IsI64(t) && (t, used) == TimestampOf(draws, old(used)) && used == old(used) + 2
      ensures var r := draws(old(used)) % 20;
              && (r < 10 ==> t in REAL_TIMESTAMPS) && (10 <= r < 17 ==> 1_600_000_000 <= t < 2_100_000_000)
              && (r >= 17 ==> t in EXTREME_TIMESTAMPS)
    {
      var r := Below(20);
      if r < 10 {
        t := Pick(REAL_TIMESTAMPS);
      } else if r < 17 {
        var k := Below(500_000_000);
        t := 1_600_000_000 + k;
      } else {
        t := Pick(EXTREME_TIMESTAMPS);
      }
    }

    method Window() returns (before: u32, after: u32)
      modifies this
      ensures ((before, after), used) == WindowOf(draws, old(used))
      ensures used - old(used) == (if draws(old(used)) % 9 < 6 then 1 else if draws(old(used)) % 9 == 6 then 2 else 3)
      ensures draws(old(used)) % 9 in {1, 2} ==> before == 900 && after == 300
      ensures draws(old(used)) % 9 == 0 ==> before == after == 0
      ensures draws(old(used)) % 9 == 3 ==> before == after == 1
      ensures draws(old(used)) % 9 == 4 ==> before == after == 86_400
    {
      var r := Below(9);
      if r == 0 {
        before, after := 0, 0;
      } else if r <= 2 {
        before, after := 900, 300;
      } else if r == 3 {
        before, after := 1, 1;
      } else if r == 4 {
        before, after := 86_400, 86_400;
      } else if r == 5 {
        before, after := U32_MAX, U32_MAX;
      } else if r == 6 {
        var first := Chance(2);
        before, after := if first then U32_MAX else 0, if first then 0 else U32_MAX;
      } else {
        var b := Below(U32_MAX);
        var a := Below(U32_MAX);
        before, after := b, a;
      }
    }

    /** A chain time near `t`, on and around the window bounds, or far away. */
    method ClockNear(t: int, before: u32, after: u32) returns (now: int)
      requires IsI64(t)
      modifies this
      ensures IsI64(now) && (now, used) == ClockOf(draws, t, before, after, old(used)) && used == old(used) + 2
      ensures var r := draws(old(used)) % 6;
              && (r < 3 ==> now == t || now in Nearby(t, before, after))
              && (r == 3 ==> t - 2_000_000 <= now < t + 2_000_000)
              && (r == 4 ==> 1_780_000_000 <= now < 1_800_000_000)
              && (r == 5 ==> now == t || now in FarAway(t))
    {
      var r := Below(6);
      if r <= 2 {
        now := Pick([t - before - 1, t - before, t - before + 1, t - 1, t, t + 1,
                     t + after - 1, t + after, t + after + 1, t - 60, t + 60]);
      } else if r == 3 {
        var k := Below(4_000_000);
        now := t + k - 2_000_000;
      } else if r == 4 {
        var k := Below(20_000_000);
        now := 1_780_000_000 + k;
      } else {
        now := Pick([I64_MIN, I64_MAX, 0, t + 10_000_000_000, t - 10_000_000_000]);
      }
      if !IsI64(now) {
        now := t;
      }
    }

    /** `pickCategory`: the index whose stretch of the cumulative weights holds the draw. */
    method PickCategory() returns (category: nat)
      modifies this
      ensures category < |WEIGHTS| && used == old(used) + 1
      ensures Sum(WEIGHTS[..category]) <= draws(old(used)) % 1000 < Sum(WEIGHTS[..category + 1])
    {
      hide Sum;
      WeightsSumTo1000();
      assert WEIGHTS[..|WEIGHTS|] == WEIGHTS;
      var r := Below(1000);
      var acc := 0;
      NoWeights();
      for i := 0 to |WEIGHTS|
        invariant acc == Sum(WEIGHTS[..i]) && acc <= r
        invariant used == old(used) + 1
      {
        SumPrefix(WEIGHTS, i);
        acc := acc + WEIGHTS[i];
        if r < acc {
          return i;
        }
      }
      assert false;
    }
  }

  lemma NoWeights()
    ensures Sum([]) == 0 && WEIGHTS[..0] == []
  {
  }
}
