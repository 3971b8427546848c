/** Marsaglia's xorshift32 generator behind `random_in_range`: a 32-bit state
    updated by three xor-shift sub-steps (left 13, right 17, left 5) and
    mapped linearly into a range. The state is a `bv32`, so the shifts drop
    the bits that leave the word exactly as `uint32_t` does. The mapping to a
    range is stated over `real` as the exact value the code approximates in
    `float`; the rounding of that conversion is modelled separately by
    `UnitAsWritten` below. */
module Xorshift {
  import opened Arith

  /** The initial value of the static `rng_state`. */
  const Seed: bv32 := 0xf2ee_c0de

  /** 2^32, the number of distinct states. */
  const TwoTo32: real := 4294967296.0

  // ---------------------------------------------------------------------
  // The three sub-steps and their inverses

  function ShiftLeft13(s: bv32): bv32 { s ^ (s << 13) }
  function ShiftRight17(s: bv32): bv32 { s ^ (s >> 17) }
  function ShiftLeft5(s: bv32): bv32 { s ^ (s << 5) }

  /** Undoes `ShiftLeft13`: the low 13 bits are unchanged by it, and each
      further block of 13 bits is recovered from the one below it. */
  function UnshiftLeft13(t: bv32): bv32 { t ^ (t << 13) ^ (t << 26) }

  /** Undoes `ShiftLeft5`, one 5-bit block at a time. */
  function UnshiftLeft5(t: bv32): bv32
  {
    t ^ (t << 5) ^ (t << 10) ^ (t << 15) ^ (t << 20) ^ (t << 25) ^ (t << 30)
  }

  lemma ShiftLeft13Inverse(s: bv32)
    ensures UnshiftLeft13(ShiftLeft13(s)) == s
    ensures ShiftLeft13(UnshiftLeft13(s)) == s
  {
  }

  /** The high 17 bits are unchanged by `ShiftRight17` and they alone
      determine the bits it changes, so applying it twice is the identity. */
  lemma ShiftRight17Involution(s: bv32)
    ensures ShiftRight17(ShiftRight17(s)) == s
  {
    ShiftRight17Distributes(s, s >> 17);
    ShiftRight17Twice(s);
    XorCancel1(s, s >> 17);
  }

  lemma ShiftLeft5Inverse(s: bv32)
    ensures UnshiftLeft5(ShiftLeft5(s)) == s
    ensures ShiftLeft5(UnshiftLeft5(s)) == s
  {
    UnshiftLeft5Shifted(s);
    ShiftLeft5Telescopes(s);
    XorCancel6(s, s << 5, s << 10, s << 15, s << 20, s << 25, s << 30);
  }

  /** Each shifted copy of `s ^ (s << 5)` is the xor of two neighbouring
      shifted copies of `s`, so the xor in `UnshiftLeft5` telescopes. */
  lemma ShiftLeft5Telescopes(s: bv32)
    ensures (s ^ (s << 5)) << 5 == (s << 5) ^ (s << 10)
    ensures (s ^ (s << 5)) << 10 == (s << 10) ^ (s << 15)
    ensures (s ^ (s << 5)) << 15 == (s << 15) ^ (s << 20)
    ensures (s ^ (s << 5)) << 20 == (s << 20) ^ (s << 25)
    ensures (s ^ (s << 5)) << 25 == (s << 25) ^ (s << 30)
    ensures (s ^ (s << 5)) << 30 == s << 30
  {
  }

  /** Shifting the six-fold xor of `UnshiftLeft5` by 5 shifts each term. */
  lemma UnshiftLeft5Shifted(t: bv32)
    ensures UnshiftLeft5(t) << 5
         == (t << 5) ^ (t << 10) ^ (t << 15) ^ (t << 20) ^ (t << 25) ^ (t << 30)
  {
    var a5 := t ^ (t << 5);
    var a10 := a5 ^ (t << 10);
    var a15 := a10 ^ (t << 15);
    var a20 := a15 ^ (t << 20);
    var a25 := a20 ^ (t << 25);
    ShiftLeft5Distributes(a25, t << 30);
    ShiftLeft5Distributes(a20, t << 25);
    ShiftLeft5Distributes(a15, t << 20);
    ShiftLeft5Distributes(a10, t << 15);
    ShiftLeft5Distributes(a5, t << 10);
    ShiftLeft5Distributes(t, t << 5);
    ShiftLeft5Twice(t);
  }

  lemma ShiftRight17Distributes(a: bv32, b: bv32)
    ensures (a ^ b) >> 17 == (a >> 17) ^ (b >> 17)
  {
  }

  lemma ShiftRight17Twice(a: bv32)
    ensures (a >> 17) >> 17 == 0
  {
  }

  lemma ShiftLeft5Distributes(a: bv32, b: bv32)
    ensures (a ^ b) << 5 == (a << 5) ^ (b << 5)
  {
  }

  lemma ShiftLeft5Twice(t: bv32)
    ensures (t << 5) << 5 == t << 10 && (t << 10) << 5 == t << 15
    ensures (t << 15) << 5 == t << 20 && (t << 20) << 5 == t << 25
    ensures (t << 25) << 5 == t << 30 && (t << 30) << 5 == 0
  {
  }

  lemma XorCancel1(t: bv32, a: bv32)
    ensures (t ^ a) ^ (a ^ 0) == t
  {
  }

  lemma XorCancel6(t: bv32, a: bv32, b: bv32, c: bv32, d: bv32, e: bv32, f: bv32)
    ensures (t ^ a ^ b ^ c ^ d ^ e ^ f) ^ (a ^ b ^ c ^ d ^ e ^ f) == t
  {
  }

  // ---------------------------------------------------------------------
  // One step of the generator

  /** One update of `rng_state`: `s ^= s << 13; s ^= s >> 17; s ^= s << 5`. */
  function Step(s: bv32): bv32
  {
    ShiftLeft5(ShiftRight17(ShiftLeft13(s)))
  }

  /** The inverse of `Step`: the sub-steps undone in reverse order. */
  function Unstep(t: bv32): bv32
  {
    UnshiftLeft13(ShiftRight17(UnshiftLeft5(t)))
  }

  /** `Step` is a bijection on 32-bit words: `Unstep` undoes it on both sides. */
  lemma StepBijective(s: bv32)
    ensures Unstep(Step(s)) == s
    ensures Step(Unstep(s)) == s
  {
    ShiftLeft13Inverse(s);
    ShiftRight17Involution(ShiftLeft13(s));
    ShiftLeft5Inverse(ShiftRight17(ShiftLeft13(s)));
    ShiftLeft5Inverse(s);
    ShiftRight17Involution(UnshiftLeft5(s));
    ShiftLeft13Inverse(ShiftRight17(UnshiftLeft5(s)));
  }

  /** Distinct states step to distinct states. */
  lemma StepInjective(a: bv32, b: bv32)
    ensures Step(a) == Step(b) <==> a == b
  {
    StepBijective(a);
    StepBijective(b);
  }

  /** Zero is the generator's only fixed point of interest: it steps to
      itself, and, `Step` being injective, no other state steps to it. */
  lemma StepZeroIffZero(s: bv32)
    ensures Step(s) == 0 <==> s == 0
  {
    StepInjective(s, 0);
  }

  // ---------------------------------------------------------------------
  // Sequences of states

  /** The state after `n` calls of `random_in_range`, starting from `s`. */
  function StepN(s: bv32, n: nat): bv32
  {
    if n == 0 then s else Step(StepN(s, n - 1))
  }

  /** Stepping `a` times and then `b` times is stepping `a + b` times: the
      state sequence depends only on the start state and the number of calls,
      however the calls are grouped. */
  lemma {:induction false} StepNAdd(s: bv32, a: nat, b: nat)
    ensures StepN(StepN(s, a), b) == StepN(s, a + b)
  {
    if b > 0 {
      StepNAdd(s, a, b - 1);
    }
  }

  /** A nonzero state never becomes zero, however many steps are taken. */
  lemma {:induction false} StepNNonzero(s: bv32, n: nat)
    ensures StepN(s, n) == 0 <==> s == 0
  {
    if n > 0 {
      StepNNonzero(s, n - 1);
      StepZeroIffZero(StepN(s, n - 1));
    }
  }

  /** Every state reached from the seed is nonzero. */
  lemma SeededStatesNonzero(n: nat)
    ensures StepN(Seed, n) != 0
  {
    StepNNonzero(Seed, n);
  }

  // ---------------------------------------------------------------------
  // Mapping a state into a range

  /** The exact value `rng_state / 2^32` that `random_0_to_1` approximates. */
  function Unit(s: bv32): (u: real)
    ensures 0.0 <= u < 1.0
    ensures s != 0 ==> 0.0 < u
  {
    (s as int) as real / TwoTo32
  }

  /** `min + (max - min) * random_0_to_1`, over reals. */
  function InRange(lo: real, hi: real, s: bv32): (r: real)
    ensures lo < hi ==> lo <= r < hi
    ensures lo == hi ==> r == lo
  {
    lo + ScaledWidth(hi - lo, Unit(s))
  }

  /** The width of a range scaled by a fraction in `[0, 1)`. */
  function ScaledWidth(w: real, u: real): (d: real)
    requires 0.0 <= u < 1.0
    ensures 0.0 < w ==> 0.0 <= d < w
    ensures w == 0.0 ==> d == 0.0
  {
    ScaledBelowWidth(w, u);
    w * u
  }

  /** A positive width times a fraction in `[0, 1)` falls short of the
      width by the positive amount `w * (1 - u)`. */
  lemma ScaledBelowWidth(w: real, u: real)
    requires 0.0 <= u < 1.0
    ensures 0.0 < w ==> 0.0 <= w * u < w
  {
    if 0.0 < w {
      assert w - w * u == w * (1.0 - u);
      assert 0.0 < w * (1.0 - u);
    }
  }

  /** The generator: the static `rng_state` of `random_in_range`, held as a
      field so that it can be seeded and threaded explicitly. */
  class Rng {
    var state: bv32

    /** A generator in the source's initial state. */
    constructor ()
      ensures state == Seed
    {
      state := Seed;
    }

    /** `random_in_range(min, max)`: advances the state by one step and maps
        the new state into `[lo, hi)`. */
    method RandomInRange(lo: real, hi: real) returns (r: real)
      modifies this
      ensures state == Step(old(state))
      ensures r == InRange(lo, hi, state)
      ensures lo < hi ==> lo <= r < hi
    {
      state := ShiftLeft13(state);
      state := ShiftRight17(state);
      state := ShiftLeft5(state);
      r := lo + ScaledWidth(hi - lo, Unit(state));
    }
  }

  // ---------------------------------------------------------------------
  // Successive calls

  /** The bounds `[lo, hi)` passed to one call of `random_in_range`. */
  datatype Range = Range(lo: real, hi: real)

  /** The results of successive calls of `random_in_range` from the state
      `s`, one call per range of `rs` in order: each call steps the state
      once and maps the new state into its range. */
  function Draws(s: bv32, rs: seq<Range>): (d: seq<real>)
    ensures |d| == |rs|
    decreases |rs|
  {
    if rs == [] then []
    else [InRange(rs[0].lo, rs[0].hi, Step(s))] + Draws(Step(s), rs[1..])
  }

  /** The `j`-th of successive draws maps the state after `j + 1` steps
      into the `j`-th range. */
  lemma {:induction false} DrawAt(s: bv32, rs: seq<Range>, j: nat)
    requires j < |rs|
    ensures Draws(s, rs)[j] == InRange(rs[j].lo, rs[j].hi, StepN(s, j + 1))
    decreases j
  {
    if j > 0 {
      DrawAt(Step(s), rs[1..], j - 1);
      StepNAdd(s, 1, j);
    }
  }

  // ---------------------------------------------------------------------
  // The conversion as written: `float(rng_state) * (1.0f/4294967296.0f)`

  /** A power of two. */
  predicate IsPow2(u: nat)
    decreases u
  {
    u == 1 || (2 <= u && u % 2 == 0 && IsPow2(u / 2))
  }

  /** The spacing of single-precision floats at `x`: the smallest power of
      two `u` with `x < 2^24 * u` (a float has 24 significant bits). Below
      `2^24` every integer is a float; above, `x` has its leading bit at
      `2^23 * u`. */
  function Ulp(x: nat): (u: nat)
    ensures IsPow2(u)
    ensures 1 <= u && x < 16777216 * u
    ensures x < 16777216 ==> u == 1
    ensures 16777216 <= x ==> 8388608 * u <= x
    decreases x
  {
    if x < 16777216 then 1
    else
      var h := Ulp(x / 2);
      assert 2 * h % 2 == 0 && 2 * h / 2 == h;
      2 * h
  }

  /** `float(x)` for a non-negative integer: `x` rounded to the spacing of
      floats at `x`. */
  function RoundToFloat(x: nat): (r: nat)
    ensures r % Ulp(x) == 0
    ensures 2 * x - Ulp(x) <= 2 * r <= 2 * x + Ulp(x)
  {
    RoundToMultiple(x, Ulp(x))
  }

  /** `x` rounded to the nearest multiple of `u`, ties to an even multiple
      (IEEE 754 round to nearest): `r` is one of the two multiples of `u`
      around `x`, at most half a spacing away, and on a tie the even one. */
  function RoundToMultiple(x: nat, u: nat): (r: nat)
    requires 1 <= u
    ensures r == x / u * u || r == (x / u + 1) * u
    ensures r % u == 0
    ensures 2 * x - u <= 2 * r <= 2 * x + u
    ensures 2 * (x % u) == u ==> (r / u) % 2 == 0
  {
    var q := x / u;
    var rem := x % u;
    assert q * u == x - rem;
    assert (q + 1) * u == x - rem + u;
    DivModUnique(q * u, u, q, 0);
    DivModUnique((q + 1) * u, u, q + 1, 0);
    if 2 * rem < u then q * u
    else if 2 * rem > u then (q + 1) * u
    else if q % 2 == 0 then q * u
    else (q + 1) * u
  }

  /** `random_0_to_1` as computed in single precision. Multiplying by
      `2^-32` is exact in `float`, so only the conversion rounds. */
  function UnitAsWritten(s: bv32): real
  {
    RoundToFloat(s as int) as real / TwoTo32
  }

  /** Two powers of two less than a factor of two apart are equal. */
  lemma {:induction false} Pow2Close(u: nat, v: nat)
    requires IsPow2(u) && IsPow2(v) && u < 2 * v && v < 2 * u
    ensures u == v
    decreases u
  {
    if u != 1 && v != 1 {
      Pow2Close(u / 2, v / 2);
    }
  }

  /** From `2^31` to `2^32` floats are `2^8` apart. */
  lemma UlpInTopBinade(x: nat)
    requires 2147483648 <= x < 4294967296
    ensures Ulp(x) == 256
  {
    var u := Ulp(x);
    assert 2147483648 < 16777216 * u;
    assert 8388608 * u < 4294967296;
    assert IsPow2(256) by {
      assert IsPow2(1) && IsPow2(2) && IsPow2(4) && IsPow2(8);
      assert IsPow2(16) && IsPow2(32) && IsPow2(64) && IsPow2(128);
    }
    Pow2Close(u, 256);
  }

  /** The single-precision `random_0_to_1` is exactly 1 for precisely the
      128 largest states. */
  lemma UnitAsWrittenIsOneIff(s: bv32)
    ensures UnitAsWritten(s) == 1.0 <==> 0xffff_ff80 <= s as int
  {
    var x := s as int;
    RoundsToTopIff(x);
    assert UnitAsWritten(s) == RoundToFloat(x) as real / 4294967296.0;
  }

  /** The rounding never takes `random_0_to_1` above 1, so for all other
      states it stays below 1. */
  lemma UnitAsWrittenAtMostOne(s: bv32)
    ensures 0.0 <= UnitAsWritten(s) <= 1.0
  {
    var x := s as int;
    RoundsToTopIff(x);
    assert UnitAsWritten(s) == RoundToFloat(x) as real / 4294967296.0;
  }

  /** Among 32-bit values, `float(x)` is `2^32` exactly from `0xffffff80`
      up, and never more. */
  lemma RoundsToTopIff(x: nat)
    requires x < 4294967296
    ensures RoundToFloat(x) == 0x1_0000_0000 <==> 0xffff_ff80 <= x
    ensures RoundToFloat(x) <= 4294967296
  {
    if 4294967168 <= x {
      TopIntegersRoundUp(x);
    } else {
      LowerIntegersRoundBelow(x);
    }
  }

  /** From `0xffffff80` up, `float(x)` is `2^32`: `0xffffff80` is a tie
      between `2^32 - 256` and `2^32`, broken towards the even multiple. */
  lemma TopIntegersRoundUp(x: nat)
    requires 4294967168 <= x < 4294967296
    ensures RoundToFloat(x) == 4294967296
  {
    UlpInTopBinade(x);
    DivModUnique(x, 256, 16777215, x - 4294967040);
    if x == 4294967168 {
      DivModUnique(4294967040, 256, 16777215, 0);
    }
  }

  /** Below `0xffffff80`, `float(x)` stays under `2^32`. */
  lemma LowerIntegersRoundBelow(x: nat)
    requires x < 4294967168
    ensures RoundToFloat(x) < 4294967296
  {
    if 2147483648 <= x {
      UlpInTopBinade(x);
    } else if 16777216 <= x {
      assert 8388608 * Ulp(x) < 2147483648;
    }
  }

  /** Below `2^24` the conversion is exact. */
  lemma SmallIntegersExact(x: nat)
    requires x < 16777216
    ensures RoundToFloat(x) == x
  {
    assert Ulp(x) == 1;
  }

  /** `random_in_range` as computed: the range mapping applied to the
      single-precision `random_0_to_1`. */
  function InRangeAsWritten(lo: real, hi: real, s: bv32): real
  {
    lo + (hi - lo) * UnitAsWritten(s)
  }

  /** For the 128 largest states, `random_in_range` as computed returns
      `max` itself, outside the half-open range `[min, max)`. */
  lemma InRangeAsWrittenReachesMax(lo: real, hi: real, s: bv32)
    requires 0xffff_ff80 <= s as int
    ensures InRangeAsWritten(lo, hi, s) == hi
    ensures lo < hi ==> InRange(lo, hi, s) < hi
  {
    UnitAsWrittenIsOneIff(s);
  }

  /** For the largest state the conversion rounds up to `2^32`, so the
      single-precision `random_0_to_1` is exactly 1 and `random_in_range`
      returns `max`, outside `[min, max)`; the exact `Unit` stays below 1. */
  lemma UnitAsWrittenReachesOne()
    ensures UnitAsWritten(0xffff_ffff) == 1.0
    ensures Unit(0xffff_ffff) < 1.0
  {
    UnitAsWrittenIsOneIff(0xffff_ffff);
  }
}
