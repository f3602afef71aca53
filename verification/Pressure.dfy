/** The disk pressure factor and the lifespan scaled by it.

    Floating point is an arbitrary monotone rounding that is exact on the integers a float64 holds exactly,
    so every result here holds for float64 arithmetic and for exact arithmetic alike. */
module Pressure {

  const EXACT_INTEGERS := 0x20_0000_0000_0000  // 2^53

  ghost predicate IsRounding(rnd: real -> real)
  {
    && (forall x, y :: x <= y ==> rnd(x) <= rnd(y))
    && (forall x :: 0.0 <= x <= EXACT_INTEGERS as real && x.Floor as real == x ==> rnd(x) == x)
  }

  type Rounding = real -> real

  datatype Factor = Ok(value: real) | HeadroomOutOfRange

  function Ceil(x: real): int
  {
    -(-x).Floor
  }

  /** Conversion of a float to an integer: towards zero. */
  function Trunc(x: real): int
  {
    if x >= 0.0 then x.Floor else Ceil(x)
  }

  /** The product before it is rounded. */
  function Times(x: real, y: real): real
  {
    x * y
  }

  function HeadroomSpace(rnd: Rounding, total: nat, headroom: real): int
  {
    Ceil(rnd(Times(rnd(total as real), headroom)))
  }

  /** How much of its lifespan a deleted volume may still use. */
  function PressureFactor(rnd: Rounding, total: nat, free: nat, headroom: real): Factor
  {
    if headroom < 0.0 || headroom > 1.0 then HeadroomOutOfRange
    else
      var space := HeadroomSpace(rnd, total, headroom);
      if free >= space then Ok(1.0) else Ok(FreeShare(rnd, space, free))
  }

  /** The complement of the used share of the headroom. */
  function FreeShare(rnd: Rounding, space: int, free: nat): real
    requires free < space
  {
    rnd(1.0 - rnd(Quotient(rnd((space - free) as real), rnd(space as real))))
  }

  /** The division of PressureFactor; `DivisorNonZero` shows that it never divides by zero. */
  function Quotient(x: real, y: real): real
  {
    if y == 0.0 then 0.0 else x / y
  }

  /** The factor of a prune round, with the default used when the headroom is rejected. */
  function RoundFactor(rnd: Rounding, total: nat, free: nat, headroom: real): real
  {
    match PressureFactor(rnd, total, free, headroom)
    case Ok(factor) => factor
    case HeadroomOutOfRange => rnd(0.1)
  }

  /** `time.Duration(float64(lifespan) * factor)`, in nanoseconds. */
  function Scaled(rnd: Rounding, lifespan: int, factor: real): int
  {
    Trunc(rnd(Times(rnd(lifespan as real), factor)))
  }

  /* ---------- the headroom ---------- */

  lemma Bracket(rnd: Rounding, x: real, lo: int, hi: int)
    requires IsRounding(rnd)
    requires 0 <= lo <= EXACT_INTEGERS && 0 <= hi <= EXACT_INTEGERS
    ensures lo as real <= x ==> lo as real <= rnd(x)
    ensures x <= hi as real ==> rnd(x) <= hi as real
  {
    assert rnd(lo as real) == lo as real;
    assert rnd(hi as real) == hi as real;
  }

  lemma Monotone(rnd: Rounding, x: real, y: real)
    requires IsRounding(rnd)
    requires x <= y
    ensures rnd(x) <= rnd(y)
  {
  }

  lemma ScaleMonotone(size: real, f0: real, f1: real)
    requires 0.0 <= size && 0.0 <= f0 <= f1
    ensures 0.0 <= Times(size, f0) <= Times(size, f1)
  {
  }

  lemma SignOfFactor(x: real, y: real)
    requires 0.0 < y && 0.0 <= x * y
    ensures 0.0 <= x
  {
  }

  /** The headroom never exceeds the disk, and grows with the headroom fraction. */
  lemma HeadroomWithinDisk(rnd: Rounding, total: nat, headroom: real)
    requires IsRounding(rnd)
    requires total <= EXACT_INTEGERS && 0.0 <= headroom <= 1.0
    ensures 0 <= HeadroomSpace(rnd, total, headroom) <= total
  {
    Bracket(rnd, total as real, total, total);
    ScaleMonotone(total as real, headroom, 1.0);
    Bracket(rnd, Times(total as real, headroom), 0, total);
  }

  lemma HeadroomMonotone(rnd: Rounding, total: nat, h0: real, h1: real)
    requires IsRounding(rnd)
    requires 0.0 <= h0 <= h1 <= 1.0
    ensures HeadroomSpace(rnd, total, h0) <= HeadroomSpace(rnd, total, h1)
  {
    Bracket(rnd, total as real, 0, 0);
    var size := rnd(total as real);
    ScaleMonotone(size, h0, h1);
    Monotone(rnd, Times(size, h0), Times(size, h1));
  }

  /* ---------- the factor ---------- */

  lemma QuotientInUnit(x: real, y: real)
    requires 0.0 <= x <= y && 0.0 < y
    ensures 0.0 <= Quotient(x, y) <= 1.0
  {
    assert x / y * y == x;
  }

  lemma QuotientMonotone(x0: real, y0: real, x1: real, y1: real)
    requires 0.0 < y0 && 0.0 < y1
    requires x0 * y1 <= x1 * y0
    ensures Quotient(x0, y0) <= Quotient(x1, y1)
  {
    var q0, q1 := x0 / y0, x1 / y1;
    assert x0 == q0 * y0 && x1 == q1 * y1;
    assert (q1 - q0) * (y0 * y1) == q1 * y1 * y0 - q0 * y0 * y1;
    SignOfFactor(q1 - q0, y0 * y1);
  }

  /** Whenever the factor is computed at all, the subtraction does not underflow and the divisor is not zero. */
  lemma DivisorNonZero(rnd: Rounding, total: nat, free: nat, headroom: real)
    requires IsRounding(rnd) && free < HeadroomSpace(rnd, total, headroom)
    ensures var space := HeadroomSpace(rnd, total, headroom);
            && rnd(space as real) >= 1.0
            && (total <= EXACT_INTEGERS && 0.0 <= headroom <= 1.0 ==> 0 < space - free <= total)
  {
    Bracket(rnd, HeadroomSpace(rnd, total, headroom) as real, 1, 1);
    if total <= EXACT_INTEGERS && 0.0 <= headroom <= 1.0 {
      HeadroomWithinDisk(rnd, total, headroom);
    }
  }

  lemma FreeShareInUnit(rnd: Rounding, space: int, free: nat)
    requires IsRounding(rnd) && free < space
    ensures 0.0 <= FreeShare(rnd, space, free) <= 1.0
  {
    var x, y := rnd((space - free) as real), rnd(space as real);
    assert 1.0 <= y by { Bracket(rnd, space as real, 1, 1); }
    assert 0.0 <= x by { Bracket(rnd, (space - free) as real, 0, 0); }
    assert x <= y by { Monotone(rnd, (space - free) as real, space as real); }
    QuotientInUnit(x, y);
    assert 0.0 <= rnd(Quotient(x, y)) <= 1.0 by { Bracket(rnd, Quotient(x, y), 0, 1); }
    Bracket(rnd, 1.0 - rnd(Quotient(x, y)), 0, 1);
  }

  /** The factor is rejected exactly for a headroom outside [0, 1]; otherwise it lies in [0, 1] for every disk. */
  lemma FactorInUnit(rnd: Rounding, total: nat, free: nat, headroom: real)
    requires IsRounding(rnd)
    ensures PressureFactor(rnd, total, free, headroom).Ok? <==> 0.0 <= headroom <= 1.0
    ensures PressureFactor(rnd, total, free, headroom).Ok? ==>
              0.0 <= PressureFactor(rnd, total, free, headroom).value <= 1.0
    ensures 0.0 <= RoundFactor(rnd, total, free, headroom) <= 1.0
  {
    if 0.0 <= headroom <= 1.0 {
      var space := HeadroomSpace(rnd, total, headroom);
      if free < space { FreeShareInUnit(rnd, space, free); }
    } else {
      Bracket(rnd, 0.1, 0, 1);
    }
  }

  /** More free space never shortens the lifespan that may be used. */
  lemma FactorMonotoneInFree(rnd: Rounding, total: nat, free0: nat, free1: nat, headroom: real)
    requires IsRounding(rnd)
    requires free0 <= free1
    ensures RoundFactor(rnd, total, free0, headroom) <= RoundFactor(rnd, total, free1, headroom)
  {
    FactorInUnit(rnd, total, free0, headroom);
    if 0.0 <= headroom <= 1.0 {
      var space := HeadroomSpace(rnd, total, headroom);
      if free1 < space { FreeShareGrows(rnd, space, free0, free1); }
    }
  }

  lemma FreeShareGrows(rnd: Rounding, space: int, free0: nat, free1: nat)
    requires IsRounding(rnd) && free0 <= free1 < space
    ensures FreeShare(rnd, space, free0) <= FreeShare(rnd, space, free1)
  {
    var x0, x1, y := rnd((space - free0) as real), rnd((space - free1) as real), rnd(space as real);
    assert 1.0 <= y by { Bracket(rnd, space as real, 1, 1); }
    assert x1 <= x0 by { Monotone(rnd, (space - free1) as real, (space - free0) as real); }
    assert x1 * y <= x0 * y by { LessTimes(x1, x0, y); }
    QuotientMonotone(x1, y, x0, y);
    Monotone(rnd, Quotient(x1, y), Quotient(x0, y));
    Monotone(rnd, 1.0 - rnd(Quotient(x0, y)), 1.0 - rnd(Quotient(x1, y)));
  }

  lemma LessTimes(x0: real, x1: real, y: real)
    requires x0 <= x1 && 0.0 <= y
    ensures x0 * y <= x1 * y
  {
  }

  /** Asking for more headroom never lengthens the lifespan that may be used. */
  lemma FactorAntitoneInHeadroom(rnd: Rounding, total: nat, free: nat, h0: real, h1: real)
    requires IsRounding(rnd)
    requires total <= EXACT_INTEGERS && 0.0 <= h0 <= h1 <= 1.0
    ensures RoundFactor(rnd, total, free, h1) <= RoundFactor(rnd, total, free, h0)
  {
    FactorInUnit(rnd, total, free, h1);
    HeadroomMonotone(rnd, total, h0, h1);
    HeadroomWithinDisk(rnd, total, h1);
    var s0, s1 := HeadroomSpace(rnd, total, h0), HeadroomSpace(rnd, total, h1);
    if free < s0 {
      FreeShareMonotone(rnd, s0, s1, free);
    }
  }

  lemma FreeShareMonotone(rnd: Rounding, s0: int, s1: int, free: nat)
    requires IsRounding(rnd)
    requires free < s0 <= s1 <= EXACT_INTEGERS
    ensures FreeShare(rnd, s1, free) <= FreeShare(rnd, s0, free)
  {
    Bracket(rnd, s0 as real, s0, s0);
    Bracket(rnd, s1 as real, s1, s1);
    Bracket(rnd, (s0 - free) as real, s0 - free, s0 - free);
    Bracket(rnd, (s1 - free) as real, s1 - free, s1 - free);
    UsedShareMonotone(s0 as real, s1 as real, free as real);
    var q0, q1 := Quotient((s0 - free) as real, s0 as real), Quotient((s1 - free) as real, s1 as real);
    Monotone(rnd, q0, q1);
    Monotone(rnd, 1.0 - rnd(q1), 1.0 - rnd(q0));
  }

  lemma UsedShareMonotone(s0: real, s1: real, free: real)
    requires 0.0 <= free < s0 <= s1
    ensures Quotient(s0 - free, s0) <= Quotient(s1 - free, s1)
  {
    assert free * s0 <= free * s1;
    assert (s0 - free) * s1 == s0 * s1 - free * s1 && (s1 - free) * s0 == s1 * s0 - free * s0;
    QuotientMonotone(s0 - free, s0, s1 - free, s1);
  }

  /** Arithmetic without rounding is a rounding. */
  function Exact(): (rnd: Rounding)
    ensures IsRounding(rnd)
  {
    (x: real) => x
  }

  lemma CeilBounds(x: real)
    ensures Ceil(x) as real - 1.0 < x <= Ceil(x) as real
  {
  }

  lemma TruncBounds(x: real)
    ensures 0.0 <= x ==> Trunc(x) as real <= x < Trunc(x) as real + 1.0
    ensures x <= 0.0 ==> Trunc(x) as real - 1.0 < x <= Trunc(x) as real
  {
  }

  /** Without rounding the headroom is the product rounded up to whole bytes. */
  lemma HeadroomExactly(total: nat, headroom: real, x: real)
    requires x == total as real * headroom
    ensures var s := HeadroomSpace(Exact(), total, headroom) as real; s - 1.0 < x <= s
  {
    assert x == Times(total as real, headroom);
    CeilBounds(x);
  }

  /** Rounding does not carry a number past the integers around it. */
  lemma NearlyInteger(rnd: Rounding, x: real)
    requires IsRounding(rnd) && 0.0 <= x <= EXACT_INTEGERS as real
    ensures x - 1.0 < Trunc(rnd(x)) as real < x + 1.0 && x - 1.0 < Ceil(rnd(x)) as real < x + 1.0
    ensures x.Floor as real == x ==> Trunc(rnd(x)) as real == x && Ceil(rnd(x)) as real == x
  {
    var lo, hi := x.Floor, Ceil(x);
    assert lo as real <= rnd(x) <= hi as real by { Bracket(rnd, x, lo, hi); }
    assert lo <= Trunc(rnd(x)) <= hi && lo <= Ceil(rnd(x)) <= hi;
  }

  lemma ExactWhole(rnd: Rounding, n: nat)
    requires IsRounding(rnd) && n <= EXACT_INTEGERS
    ensures rnd(n as real) == n as real
  {
  }

  lemma HeadroomOfProduct(rnd: Rounding, total: nat, headroom: real, x: real)
    requires IsRounding(rnd) && total <= EXACT_INTEGERS && 0.0 <= headroom <= 1.0 && x == Times(total as real, headroom)
    ensures HeadroomSpace(rnd, total, headroom) == Ceil(rnd(x)) && 0.0 <= x <= total as real
  {
    ExactWhole(rnd, total);
    ScaleMonotone(total as real, headroom, 1.0);
  }

  /** With rounding it is less than a byte away from the product, and equal to it if that is a whole number. */
  lemma HeadroomNearly(rnd: Rounding, total: nat, headroom: real, x: real)
    requires IsRounding(rnd) && total <= EXACT_INTEGERS && 0.0 <= headroom <= 1.0 && x == total as real * headroom
    ensures var s := HeadroomSpace(rnd, total, headroom) as real;
            x - 1.0 < s < x + 1.0 && (x.Floor as real == x ==> s == x)
  {
    HeadroomOfProduct(rnd, total, headroom, x);
    NearlyInteger(rnd, x);
  }

  /** A rejected headroom makes the factor a tenth. */
  lemma DefaultFactor(rnd: Rounding, total: nat, free: nat, headroom: real)
    requires headroom < 0.0 || 1.0 < headroom
    ensures RoundFactor(Exact(), total, free, headroom) == 0.1
    ensures RoundFactor(rnd, total, free, headroom) == rnd(0.1)
  {
  }

  /** In exact arithmetic the factor is the share of the headroom that is still free. */
  lemma FactorExactly(total: nat, free: nat, headroom: real, space: int)
    requires 0.0 <= headroom <= 1.0 && space == HeadroomSpace(Exact(), total, headroom)
    ensures space as real - 1.0 < total as real * headroom <= space as real
    ensures RoundFactor(Exact(), total, free, headroom) == 1.0 <==> free >= space
    ensures free < space ==> RoundFactor(Exact(), total, free, headroom) == free as real / space as real
  {
    HeadroomExactly(total, headroom, total as real * headroom);
    if free < space {
      FreeShareExactly(space, free);
    }
  }

  lemma FreeShareExactly(space: int, free: nat)
    requires free < space
    ensures FreeShare(Exact(), space, free) == free as real / space as real < 1.0
  {
    ShareComplement(free as real, space as real);
    assert (space - free) as real == space as real - free as real;
  }

  lemma ShareComplement(f: real, t: real)
    requires 0.0 <= f < t
    ensures 1.0 - (t - f) / t == f / t < 1.0
  {
    assert (t - f) / t == t / t - f / t;
    assert f / t * t == f;
  }

  /* ---------- the scaled lifespan ---------- */

  /** The scaled lifespan stays within the lifespan, and is monotone in the factor. */
  lemma ScaledWithinLifespan(rnd: Rounding, lifespan: int, factor: real)
    requires IsRounding(rnd)
    requires 0 <= lifespan <= EXACT_INTEGERS && 0.0 <= factor <= 1.0
    ensures 0 <= Scaled(rnd, lifespan, factor) <= lifespan
  {
    Bracket(rnd, lifespan as real, lifespan, lifespan);
    ScaleMonotone(lifespan as real, factor, 1.0);
    Bracket(rnd, Times(lifespan as real, factor), 0, lifespan);
  }

  lemma SignOfProduct(x: real, y: real)
    requires 0.0 <= y
    ensures 0.0 <= x ==> 0.0 <= Times(x, y)
    ensures x <= 0.0 ==> Times(x, y) <= 0.0
  {
  }

  /** Without rounding the scaled lifespan is the product, cut off towards zero. */
  lemma ScaledExactly(lifespan: int, factor: real, x: real)
    requires 0.0 <= factor && x == lifespan as real * factor
    ensures var d := Scaled(Exact(), lifespan, factor) as real;
            && (0 <= lifespan ==> d <= x < d + 1.0)
            && (lifespan <= 0 ==> d - 1.0 < x <= d)
  {
    assert x == Times(lifespan as real, factor);
    SignOfProduct(lifespan as real, factor);
    TruncBounds(x);
  }

  /** With rounding it is less than a nanosecond away from the product, and equal to it if that is a whole number. */
  lemma ScaledNearly(rnd: Rounding, lifespan: int, factor: real, x: real)
    requires IsRounding(rnd) && 0 <= lifespan <= EXACT_INTEGERS && 0.0 <= factor
    requires x == lifespan as real * factor && x <= EXACT_INTEGERS as real
    ensures var d := Scaled(rnd, lifespan, factor) as real;
            x - 1.0 < d < x + 1.0 && (x.Floor as real == x ==> d == x)
  {
    ScaledOfProduct(rnd, lifespan, factor, x);
    NearlyInteger(rnd, x);
  }

  lemma ScaledOfProduct(rnd: Rounding, lifespan: int, factor: real, x: real)
    requires IsRounding(rnd) && 0 <= lifespan <= EXACT_INTEGERS && 0.0 <= factor
    requires x == Times(lifespan as real, factor)
    ensures Scaled(rnd, lifespan, factor) == Trunc(rnd(x)) && 0.0 <= x
  {
    ExactWhole(rnd, lifespan);
    SignOfProduct(lifespan as real, factor);
  }

  lemma ScaledMonotone(rnd: Rounding, lifespan: int, f0: real, f1: real)
    requires IsRounding(rnd)
    requires 0 <= lifespan && 0.0 <= f0 <= f1
    ensures 0 <= Scaled(rnd, lifespan, f0) <= Scaled(rnd, lifespan, f1)
  {
    Bracket(rnd, lifespan as real, 0, 0);
    var size := rnd(lifespan as real);
    ScaleMonotone(size, f0, f1);
    Bracket(rnd, Times(size, f0), 0, 0);
    Monotone(rnd, Times(size, f0), Times(size, f1));
  }

  /** No disk pressure stretches a lifespan, and none makes it negative. */
  ghost predicate KeepsLifespans(rnd: Rounding)
  {
    forall lifespan: int, total: nat, free: nat, headroom: real ::
      0 <= lifespan <= EXACT_INTEGERS ==>
        0 <= Scaled(rnd, lifespan, RoundFactor(rnd, total, free, headroom)) <= lifespan
  }

  /** Whatever factor a round uses, the default included, a deadline is neither before the unpublish nor past the
      full lifespan. */
  lemma EveryRoundingKeepsLifespans(rnd: Rounding)
    requires IsRounding(rnd)
    ensures KeepsLifespans(rnd)
  {
    forall lifespan: int, total: nat, free: nat, headroom: real | 0 <= lifespan <= EXACT_INTEGERS
      ensures 0 <= Scaled(rnd, lifespan, RoundFactor(rnd, total, free, headroom)) <= lifespan
    {
      FactorInUnit(rnd, total, free, headroom);
      ScaledWithinLifespan(rnd, lifespan, RoundFactor(rnd, total, free, headroom));
    }
  }
}
