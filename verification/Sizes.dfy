/** The size of a contain resize, in the rounded arithmetic of 64-bit floats. */
module Sizes {
  import opened Text
  import opened Bits
  import opened Doubles
  import opened Stages

  function Max(x: real, y: real): real {
    if x < y then y else x
  }

  function Min(x: real, y: real): real {
    if x < y then x else y
  }

  /** A side of an image or a box: a positive signed 32-bit number. */
  type Side = n: nat | 0 < n < I32_LIMIT witness 1

  type Size = (Side, Side)

  /** One float division of two sides. */
  function Divided(a: Side, b: Side): (r: real)
    ensures r > 0.0
  {
    Ratio(a as real, b as real);
    Nearest(a as real / b as real)
  }

  lemma Ratio(a: real, b: real)
    requires a > 0.0 && b > 0.0
    ensures a / b > 0.0 && a / b * b == a
  {}

  /** The one shrink factor of both sides, as computed and as it is exactly. */
  function ShrinkFor(source: Size, target: Size): (shrink: real)
    ensures shrink >= 1.0
  {
    Max(Max(Divided(source.0, target.0), Divided(source.1, target.1)), 1.0)
  }

  function ExactShrink(source: Size, target: Size): (shrink: real)
    ensures shrink >= 1.0
  {
    Max(Max(source.0 as real / target.0 as real, source.1 as real / target.1 as real), 1.0)
  }

  /** The quotient that `reduced_side` rounds: the factor goes in as the reciprocal of a reciprocal. */
  function RoundedQuotient(length: Side, shrink: real): (q: real)
    requires shrink >= 1.0
    ensures q > 0.0
  {
    ThroughReciprocals(length as real, Min(shrink, length as real))
  }

  function ThroughReciprocals(length: real, factor: real): (q: real)
    requires length > 0.0 && factor > 0.0
    ensures q > 0.0
  {
    Ratio(1.0, factor);
    var inverse := Nearest(1.0 / factor);
    Ratio(1.0, inverse);
    var reduce := Nearest(1.0 / inverse);
    Ratio(length, reduce);
    Nearest(length / reduce)
  }

  /** `reduced_side`. */
  function ReducedSide(length: Side, shrink: real): (n: nat)
    requires shrink >= 1.0
  {
    Nearest(RoundedQuotient(length, shrink) + 0.5).Floor
  }

  /** The quotient without rounding; a factor beyond the length is clamped to it. */
  function ExactQuotient(length: Side, shrink: real): real
    requires shrink >= 1.0
  {
    length as real / Min(shrink, length as real)
  }

  /** The relative error that six rounded operations stay below. */
  const SLACK: real := 1.0 / 281474976710656.0

  lemma MaxNearest(x: real, y: real)
    requires x > 0.0 && y > 0.0
    ensures Max(Nearest(x), Nearest(y)) == Nearest(Max(x, y))
  {
    hide Nearest;
    if x <= y { NearestMonotone(x, y); } else { NearestMonotone(y, x); }
  }

  lemma MinNearest(x: real, y: real)
    requires x > 0.0 && y > 0.0
    ensures Min(Nearest(x), Nearest(y)) == Nearest(Min(x, y))
  {
    hide Nearest;
    if x <= y { NearestMonotone(x, y); } else { NearestMonotone(y, x); }
  }

  /** The factor is rounded once. */
  lemma ShrinkIsNearest(source: Size, target: Size)
    ensures ShrinkFor(source, target) == Nearest(ExactShrink(source, target))
  {
    hide Nearest, Max;
    var x, y := source.0 as real / target.0 as real, source.1 as real / target.1 as real;
    Ratio(source.0 as real, target.0 as real);
    Ratio(source.1 as real, target.1 as real);
    MaxNearest(x, y);
    NearestWhole(1);
    MaxIsPositive(x, y);
    MaxNearest(Max(x, y), 1.0);
  }

  lemma MaxIsPositive(x: real, y: real)
    requires x > 0.0
    ensures Max(x, y) > 0.0
  {}

  /** A rounded reciprocal doubles the error of its operand and adds one rounding. */
  lemma ReciprocalOff(x: real, exact: real, d: real, f: real)
    requires x > 0.0 && exact > 0.0 && Off(x, exact, d) && 0.0 <= d <= 0.25
    requires EPSILON + 2.0 * d + EPSILON * (2.0 * d) <= f
    ensures 1.0 / x > 0.0 && 1.0 / exact > 0.0 && Off(Nearest(1.0 / x), 1.0 / exact, f)
  {
    hide Nearest, Off;
    OffInverse(x, exact, d);
    NearestIsOff(1.0 / x);
    OffTwice(Nearest(1.0 / x), 1.0 / x, 1.0 / exact, EPSILON, 2.0 * d, f);
  }

  /** So does a rounded quotient. */
  lemma DivisionOff(length: real, x: real, exact: real, d: real, f: real)
    requires length > 0.0 && x > 0.0 && exact > 0.0 && Off(x, exact, d) && 0.0 <= d <= 0.25
    requires EPSILON + 2.0 * d + EPSILON * (2.0 * d) <= f
    ensures length / x > 0.0 && length / exact > 0.0 && Off(Nearest(length / x), length / exact, f)
  {
    hide Nearest, Off;
    OffInverse(x, exact, d);
    OffScaled(1.0 / x, 1.0 / exact, 2.0 * d, length);
    AsProduct(length, x);
    AsProduct(length, exact);
    Ratio(length, x);
    Ratio(length, exact);
    NearestIsOff(length / x);
    OffTwice(Nearest(length / x), length / x, length / exact, EPSILON, 2.0 * d, f);
  }

  /** Each operation adds one rounding, and each division doubles what came before. */
  lemma ReciprocalsOff(length: real, exact: real)
    requires length > 0.0 && exact > 0.0
    ensures length / exact > 0.0
    ensures Off(ThroughReciprocals(length, Nearest(exact)), length / exact, 24.0 * EPSILON)
  {
    hide Nearest, Off;
    FirstReciprocal(exact);
    var inverse := Nearest(1.0 / Nearest(exact));
    SecondReciprocal(inverse, exact);
    DivisionOff(length, Nearest(1.0 / inverse), exact, 10.0 * EPSILON, 24.0 * EPSILON);
  }

  lemma FirstReciprocal(exact: real)
    requires exact > 0.0
    ensures 1.0 / Nearest(exact) > 0.0 && 1.0 / exact > 0.0
    ensures Off(Nearest(1.0 / Nearest(exact)), 1.0 / exact, 4.0 * EPSILON)
  {
    hide Nearest, Off;
    NearestIsOff(exact);
    ReciprocalOff(Nearest(exact), exact, EPSILON, 4.0 * EPSILON);
  }

  lemma SecondReciprocal(inverse: real, exact: real)
    requires inverse > 0.0 && exact > 0.0 && Off(inverse, 1.0 / exact, 4.0 * EPSILON)
    ensures 1.0 / inverse > 0.0 && Off(Nearest(1.0 / inverse), exact, 10.0 * EPSILON)
  {
    hide Nearest, Off;
    TwiceInverted(exact);
    ReciprocalOff(inverse, 1.0 / exact, 4.0 * EPSILON, 10.0 * EPSILON);
  }

  lemma TwiceInverted(x: real)
    requires x > 0.0
    ensures 1.0 / x > 0.0 && 1.0 / (1.0 / x) == x
  {}

  lemma AsProduct(x: real, y: real)
    requires y > 0.0
    ensures x / y == Product(x, 1.0 / y)
  {}

  lemma QuotientOff(length: Side, exact: real)
    requires exact >= 1.0
    ensures Nearest(exact) >= 1.0
    ensures Off(RoundedQuotient(length, Nearest(exact)), ExactQuotient(length, exact), 24.0 * EPSILON)
  {
    hide Nearest, Off, ThroughReciprocals;
    NearestWhole(1);
    NearestMonotone(1.0, exact);
    NearestWhole(length);
    MinNearest(exact, length as real);
    ReciprocalsOff(length as real, Min(exact, length as real));
  }

  /** Within half a pixel of the exact quotient, up to the error of the rounding. */
  lemma SideNear(length: Side, exact: real)
    requires exact >= 1.0
    ensures Nearest(exact) >= 1.0
    ensures var r, q := ReducedSide(length, Nearest(exact)), ExactQuotient(length, exact);
      1.0 <= q <= length as real && r as real - 0.5 - SLACK * q <= q < r as real + 0.5 + SLACK * q
  {
    hide Nearest, RoundedQuotient, ExactQuotient;
    QuotientOff(length, exact);
    QuotientRange(length, exact);
    var q := RoundedQuotient(length, Nearest(exact));
    NearestIsOff(q + 0.5);
  }

  lemma QuotientRange(length: Side, exact: real)
    requires exact >= 1.0
    ensures 1.0 <= ExactQuotient(length, exact) <= length as real
  {
    var factor := Min(exact, length as real);
    DivideAtLeast(length as real, factor, 1.0);
    DivideAtMost(length as real, factor, length as real);
  }

  lemma DivideAtMost(x: real, y: real, bound: real)
    requires y > 0.0 && x <= bound * y
    ensures x / y <= bound
  {}

  lemma DivideAtLeast(x: real, y: real, bound: real)
    requires y > 0.0 && bound * y <= x
    ensures bound <= x / y
  {}

  /** Between one pixel and the source side. */
  lemma SideBounds(length: Side, exact: real)
    requires exact >= 1.0
    ensures Nearest(exact) >= 1.0 && 1 <= ReducedSide(length, Nearest(exact)) <= length
  {
    hide Nearest, ReducedSide, ExactQuotient;
    SideNear(length, exact);
  }

  lemma SideFits(length: Side, exact: real, target: Side)
    requires exact >= 1.0 && exact >= length as real / target as real
    ensures Nearest(exact) >= 1.0 && ReducedSide(length, Nearest(exact)) <= target
  {
    hide Nearest, ReducedSide, ExactQuotient;
    SideNear(length, exact);
    QuotientFits(length, exact, target);
  }

  lemma QuotientFits(length: Side, exact: real, target: Side)
    requires exact >= 1.0 && exact >= length as real / target as real
    ensures ExactQuotient(length, exact) <= target as real
  {
    var l, t, factor := length as real, target as real, Min(exact, length as real);
    Ratio(l, t);
    if factor == exact {
      Times(l / t, exact, t);
    } else {
      Times(1.0, t, l);
    }
    DivideAtMost(l, factor, t);
  }

  /** A whole quotient is not moved by rounding. */
  lemma WholeSide(length: Side, exact: real, n: Side)
    requires exact >= 1.0 && ExactQuotient(length, exact) == n as real
    ensures Nearest(exact) >= 1.0 && ReducedSide(length, Nearest(exact)) == n
  {
    hide Nearest, ReducedSide, ExactQuotient;
    SideNear(length, exact);
  }

  /** `contain_size`. */
  function ContainSize(source: Size, target: Size): (size: Size)
    ensures size.0 <= source.0 && size.1 <= source.1
    ensures size.0 <= target.0 && size.1 <= target.1
  {
    hide Nearest, ReducedSide, ShrinkFor;
    var exact := ExactShrink(source, target);
    ShrinkIsNearest(source, target);
    SideBounds(source.0, exact);
    SideBounds(source.1, exact);
    SideFits(source.0, exact, target.0);
    SideFits(source.1, exact, target.1);
    var shrink := ShrinkFor(source, target);
    (ReducedSide(source.0, shrink), ReducedSide(source.1, shrink))
  }

  /** Both sides are within half a pixel of one exact scaling, up to the error of the rounding. */
  lemma ContainScales(source: Size, target: Size)
    ensures var size, exact := ContainSize(source, target), ExactShrink(source, target);
      var q0, q1 := ExactQuotient(source.0, exact), ExactQuotient(source.1, exact);
      && size.0 as real - 0.5 - SLACK * q0 <= q0 < size.0 as real + 0.5 + SLACK * q0
      && size.1 as real - 0.5 - SLACK * q1 <= q1 < size.1 as real + 0.5 + SLACK * q1
  {
    hide ReducedSide, ShrinkFor, ExactShrink, ExactQuotient, Nearest;
    ShrinkIsNearest(source, target);
    SideNear(source.0, ExactShrink(source, target));
    SideNear(source.1, ExactShrink(source, target));
  }

  /**
    At an exact half the rounding decides: a width of 1820 at the factor 1400/725 is 942.5 pixels exactly, and
    comes out as 942.
   */
  lemma HalfTakenDown()
    ensures var exact := ExactShrink((1820, 1400), (1831, 725));
      ExactQuotient(1820, exact) == 942.5 && ContainSize((1820, 1400), (1831, 725)).0 == 942
  {
    hide Nearest, ReducedSide, ShrinkFor;
    ShrinkIsNearest((1820, 1400), (1831, 725));
    FactorOfHalf();
    QuotientOfHalf();
  }

  lemma FactorOfHalf()
    ensures ExactShrink((1820, 1400), (1831, 725)) == 1400.0 / 725.0
    ensures ExactQuotient(1820, 1400.0 / 725.0) == 942.5
    ensures 4503599627370496.0 * Nearest(1400.0 / 725.0) == 8696606176991303.0
  {
    hide Nearest, Pow2;
    LargePowers();
    QuotientIs(1400.0, 725.0, 52, 8696606176991303);
  }

  lemma QuotientOfHalf()
    requires 4503599627370496.0 * Nearest(1400.0 / 725.0) == 8696606176991303.0
    ensures Nearest(1400.0 / 725.0) >= 1.0 && ReducedSide(1820, Nearest(1400.0 / 725.0)) == 942
  {
    Reciprocals();
    HalfShort();
    hide Nearest;
    var factor := 8696606176991303.0 / 4503599627370496.0;
    assert Nearest(1400.0 / 725.0) == factor;
    assert ThroughReciprocals(1820.0, factor) == 8290317673431039.0 / 8796093022208.0;
    hide ThroughReciprocals;
    assert RoundedQuotient(1820, factor) == 8290317673431039.0 / 8796093022208.0;
  }

  lemma Reciprocals()
    ensures Nearest(1.0 / (8696606176991303.0 / 4503599627370496.0)) == 4664442471205156.0 / 9007199254740992.0
    ensures Nearest(1.0 / (4664442471205156.0 / 9007199254740992.0)) == 8696606176991304.0 / 4503599627370496.0
  {
    hide Nearest, Pow2;
    LargePowers();
    QuotientIs(1.0, 8696606176991303.0 / 4503599627370496.0, 53, 4664442471205156);
    QuotientIs(1.0, 4664442471205156.0 / 9007199254740992.0, 52, 8696606176991304);
  }

  lemma HalfShort()
    ensures Nearest(1820.0 / (8696606176991304.0 / 4503599627370496.0)) == 8290317673431039.0 / 8796093022208.0
    ensures Nearest(8290317673431039.0 / 8796093022208.0 + 0.5) == 8294715719942143.0 / 8796093022208.0
  {
    hide Nearest, Pow2;
    LargePowers();
    QuotientIs(1820.0, 8696606176991304.0 / 4503599627370496.0, 43, 8290317673431039);
    NearestIs(8290317673431039.0 / 8796093022208.0 + 0.5, 43, 8294715719942143);
  }

  /** The largest side that a request can ask for. */
  const MAX_TARGET: nat := 8192

  /**
   * Rounding decides nothing but exact halves: for a quotient `num / den`, the side reaches `k` when the quotient
   * is more than half a pixel above `k - 1`, and misses it when it is less.
   */
  lemma SideDecided(length: Side, exact: real, num: nat, den: Side, k: nat)
    requires exact >= 1.0 && 0 < k <= MAX_TARGET && ExactQuotient(length, exact) * den as real == num as real
    ensures Nearest(exact) >= 1.0
    ensures 2 * num > (2 * k - 1) * den ==> ReducedSide(length, Nearest(exact)) >= k
    ensures 2 * num < (2 * k - 1) * den ==> ReducedSide(length, Nearest(exact)) < k
  {
    hide Nearest, ReducedSide, ExactQuotient;
    SideNear(length, exact);
    var q := ExactQuotient(length, exact);
    if 2 * num > (2 * k - 1) * den {
      HalfApart(2 * num, 2 * k - 1, den, 2.0 * q);
    } else if 2 * num < (2 * k - 1) * den {
      HalfApart(-2 * num, -(2 * k - 1), den, -2.0 * q);
    }
  }

  /** A fraction above a whole number is above it by at least one over its denominator. */
  lemma HalfApart(num: int, n: int, den: Side, x: real)
    requires num > n * den && x * den as real == num as real
    ensures x >= n as real + 1.0 / 2147483648.0
  {
    var d := den as real;
    assert (n * den) as real == n as real * d;
    assert (x - n as real) * d >= 1.0;
    if x - n as real < 1.0 / 2147483648.0 {
      if x - n as real > 0.0 { Times(d, 2147483648.0, x - n as real); }
      else { Times(x - n as real, 0.0, d); }
    }
  }

  /** A larger factor never gives a larger quotient. */
  lemma QuotientMonotone(length: real, small: real, large: real)
    requires length > 0.0 && 0.0 < small <= large
    ensures ThroughReciprocals(length, large) <= ThroughReciprocals(length, small)
  {
    hide Nearest;
    Smaller(1.0, small, large);
    NearestMonotone(1.0 / large, 1.0 / small);
    var a, b := Nearest(1.0 / large), Nearest(1.0 / small);
    Smaller(1.0, a, b);
    NearestMonotone(1.0 / b, 1.0 / a);
    Smaller(length, Nearest(1.0 / b), Nearest(1.0 / a));
    NearestMonotone(length / Nearest(1.0 / a), length / Nearest(1.0 / b));
  }

  lemma Smaller(x: real, small: real, large: real)
    requires x > 0.0 && 0.0 < small <= large
    ensures 0.0 < x / large <= x / small
  {
    Ratio(x, small);
    Ratio(x, large);
    Times(small, large, x / small);
    DivideAtMost(x, large, x / small);
  }

  /** A larger factor never gives a larger side. */
  lemma SideMonotone(length: Side, small: real, large: real)
    requires 1.0 <= small <= large
    ensures ReducedSide(length, large) <= ReducedSide(length, small)
  {
    hide Nearest, ThroughReciprocals;
    QuotientMonotone(length as real, Min(small, length as real), Min(large, length as real));
    NearestMonotone(RoundedQuotient(length, large) + 0.5, RoundedQuotient(length, small) + 0.5);
  }

  lemma NoShrink(source: Size, target: Size)
    requires source.0 <= target.0 && source.1 <= target.1
    ensures ContainSize(source, target) == source
  {
    hide ReducedSide, ShrinkFor, Nearest;
    DivideAtMost(source.0 as real, target.0 as real, 1.0);
    DivideAtMost(source.1 as real, target.1 as real, 1.0);
    assert ExactShrink(source, target) == 1.0;
    ShrinkIsNearest(source, target);
    WholeSide(source.0, 1.0, source.0);
    WholeSide(source.1, 1.0, source.1);
  }

  /** A box that holds the source leaves it alone; any other box is filled exactly along one side. */
  lemma ContainTouches(source: Size, target: Size)
    ensures var size := ContainSize(source, target);
      if source.0 <= target.0 && source.1 <= target.1 then size == source
      else (source.0 > target.0 && size.0 == target.0) || (source.1 > target.1 && size.1 == target.1)
  {
    hide ReducedSide, ShrinkFor, Nearest, ExactQuotient;
    if source.0 <= target.0 && source.1 <= target.1 {
      NoShrink(source, target);
    } else {
      var exact := ExactShrink(source, target);
      ShrinkIsNearest(source, target);
      FactorIsARatio(source, target);
      if exact == source.0 as real / target.0 as real && source.0 > target.0 {
        SideReaches(source.0, target.0);
        WholeSide(source.0, exact, target.0);
      } else {
        SideReaches(source.1, target.1);
        WholeSide(source.1, exact, target.1);
      }
    }
  }

  lemma FactorIsARatio(source: Size, target: Size)
    requires source.0 > target.0 || source.1 > target.1
    ensures var exact := ExactShrink(source, target);
      || (exact == source.0 as real / target.0 as real && source.0 > target.0)
      || (exact == source.1 as real / target.1 as real && source.1 > target.1)
  {
    Above(source.0, target.0);
    Above(source.1, target.1);
  }

  lemma Above(length: Side, target: Side)
    ensures length as real / target as real > 1.0 <==> length > target
  {
    Ratio(length as real, target as real);
    if length > target {
      DivideAtLeast(length as real, target as real, 1.0);
    } else {
      DivideAtMost(length as real, target as real, 1.0);
    }
  }

  /** The side that sets the factor is the target itself. */
  lemma SideReaches(length: Side, target: Side)
    requires length > target
    ensures length as real / target as real >= 1.0
    ensures ExactQuotient(length, length as real / target as real) == target as real
  {
    var l, t := length as real, target as real;
    Above(length, target);
    Ratio(l, t);
    Times(1.0, t, l);
    DivideAtMost(l, t, l);
    DivideAtMost(l, l / t, t);
    DivideAtLeast(l, l / t, t);
  }

  /** Fitting a fitted size into the same box changes nothing. */
  lemma ContainIdempotent(source: Size, target: Size)
    ensures ContainSize(ContainSize(source, target), target) == ContainSize(source, target)
  {
    hide ShrinkFor, ReducedSide;
    NoShrink(ContainSize(source, target), target);
  }

  lemma ShrinkMonotone(source: Size, small: Size, large: Size)
    requires small.0 <= large.0 && small.1 <= large.1
    ensures ShrinkFor(source, large) <= ShrinkFor(source, small)
  {
    hide Nearest;
    Smaller(source.0 as real, small.0 as real, large.0 as real);
    Smaller(source.1 as real, small.1 as real, large.1 as real);
    NearestMonotone(source.0 as real / large.0 as real, source.0 as real / small.0 as real);
    NearestMonotone(source.1 as real / large.1 as real, source.1 as real / small.1 as real);
  }

  /** A larger box never gives a smaller image. */
  lemma ContainMonotone(source: Size, small: Size, large: Size)
    requires small.0 <= large.0 && small.1 <= large.1
    ensures ContainSize(source, small).0 <= ContainSize(source, large).0
    ensures ContainSize(source, small).1 <= ContainSize(source, large).1
  {
    hide ReducedSide, ShrinkFor, Nearest;
    ShrinkMonotone(source, small, large);
    SideMonotone(source.0, ShrinkFor(source, large), ShrinkFor(source, small));
    SideMonotone(source.1, ShrinkFor(source, large), ShrinkFor(source, small));
  }

  /** Turning source and box by a quarter turns the result. */
  lemma ContainTurned(source: Size, target: Size)
    ensures ContainSize((source.1, source.0), (target.1, target.0))
         == (ContainSize(source, target).1, ContainSize(source, target).0)
  {
    hide ReducedSide, Nearest, Divided;
    assert ShrinkFor((source.1, source.0), (target.1, target.0)) == ShrinkFor(source, target);
  }
}
