/** 32-bit floats, as the reals they stand for: rounding to 24 significant bits, down to the smallest subnormal. */
module Singles {
  import opened Bits

  /** Round to the nearest integer, an exact tie to the even one. */
  function RoundHalfEven(x: real): (n: nat)
    requires x >= 0.0
    ensures x - 0.5 <= n as real <= x + 0.5
  {
    var low := x.Floor;
    var rest := x - low as real;
    if rest < 0.5 || (rest == 0.5 && low % 2 == 0) then low else low + 1
  }

  lemma RoundBelow(x: real, n: nat)
    requires 0.0 <= x <= n as real
    ensures RoundHalfEven(x) <= n
  {
    if x.Floor == n {
      assert x == n as real;
    }
  }

  lemma RoundAbove(x: real, n: nat)
    requires n as real <= x
    ensures n <= RoundHalfEven(x)
  {}

  lemma RoundWhole(n: nat)
    ensures RoundHalfEven(n as real) == n
  {}

  /** A tie goes to the even neighbour. */
  lemma TiesToEven(n: nat)
    ensures RoundHalfEven(n as real + 0.5) == if n % 2 == 0 then n else n + 1
  {}

  /** No whole number is closer. */
  lemma RoundNearest(x: real, n: int)
    requires x >= 0.0
    ensures Distance(x, RoundHalfEven(x) as real) <= Distance(x, n as real)
  {
    hide RoundHalfEven;
    var r := RoundHalfEven(x);
    if n < r {
      assert n as real <= r as real - 1.0;
    } else if n > r {
      assert n as real >= r as real + 1.0;
    }
  }

  function Distance(x: real, y: real): real {
    if x < y then y - x else x - y
  }

  /** The significands of 24 bits lie from `SINGLE_LOW` up to `SINGLE_HIGH`. */
  const SINGLE_LOW: real := 8388608.0
  const SINGLE_HIGH: real := 16777216.0

  /** The smallest step is two to the power of minus 149. */
  const FINEST: nat := 149

  /** The largest finite value. */
  const F32_MAX: real := 340282346638528859811704183484516925440.0

  /** Rounding of a value that has been doubled `k` times already. */
  function NarrowAt(x: real, k: nat): (r: real)
    requires x >= 0.0 && k <= FINEST
    ensures r >= 0.0
    decreases if x >= SINGLE_HIGH then x.Floor else 0, FINEST - k
  {
    if x >= SINGLE_HIGH then 2.0 * NarrowAt(x / 2.0, k)
    else if x >= SINGLE_LOW || k == FINEST then RoundHalfEven(x) as real
    else NarrowAt(2.0 * x, k + 1) / 2.0
  }

  /** The 32-bit float nearest to a value in range, ties to the even significand. */
  function Narrow(x: real): (r: real)
    requires x >= 0.0
    ensures r >= 0.0
  {
    NarrowAt(x, 0)
  }

  predicate IsSingle(x: real) {
    x >= 0.0 && Narrow(x) == x
  }

  // ---------------------------------------------------------------------------
  // The grid
  // ---------------------------------------------------------------------------

  lemma {:induction false} NarrowFloor(x: real, k: nat)
    requires x >= SINGLE_LOW && k <= FINEST
    ensures NarrowAt(x, k) >= SINGLE_LOW && (x >= SINGLE_HIGH ==> NarrowAt(x, k) >= SINGLE_HIGH)
    decreases x.Floor
  {
    if x >= SINGLE_HIGH {
      NarrowFloor(x / 2.0, k);
    } else {
      RoundAbove(x, 8388608);
    }
  }

  lemma {:induction false} NarrowCeiling(x: real, k: nat)
    requires 0.0 <= x < SINGLE_HIGH && k <= FINEST
    ensures NarrowAt(x, k) <= SINGLE_HIGH && (x < SINGLE_LOW ==> NarrowAt(x, k) <= SINGLE_LOW)
    decreases FINEST - k
  {
    if x >= SINGLE_LOW {
      RoundBelow(x, 16777216);
    } else if k == FINEST {
      RoundBelow(x, 8388608);
    } else {
      NarrowCeiling(2.0 * x, k + 1);
    }
  }

  /** Small whole numbers are values of the type. */
  lemma {:induction false} NarrowWholeAt(n: nat, k: nat)
    requires n <= 16777216 && k <= FINEST
    ensures NarrowAt(n as real, k) == n as real
    decreases FINEST - k
  {
    if n == 16777216 {
      RoundWhole(8388608);
    } else if n >= 8388608 || k == FINEST {
      RoundWhole(n);
    } else {
      NarrowWholeAt(2 * n, k + 1);
      assert (2 * n) as real == 2.0 * n as real;
    }
  }

  lemma NarrowWhole(n: nat)
    requires n <= 16777216
    ensures IsSingle(n as real)
  {
    NarrowWholeAt(n, 0);
  }

  /** Rounding gives a value of the type. */
  lemma {:induction false} NarrowFixed(x: real, k: nat)
    requires x >= 0.0 && k <= FINEST
    ensures NarrowAt(NarrowAt(x, k), k) == NarrowAt(x, k)
    decreases if x >= SINGLE_HIGH then x.Floor else 0, FINEST - k
  {
    if x >= SINGLE_HIGH {
      NarrowFloor(x / 2.0, k);
      NarrowFixed(x / 2.0, k);
    } else if x >= SINGLE_LOW || k == FINEST {
      NarrowCeiling(x, k);
      NarrowWholeAt(RoundHalfEven(x), k);
    } else {
      NarrowCeiling(2.0 * x, k + 1);
      NarrowFixed(2.0 * x, k + 1);
      NarrowWholeAt(8388608, k);
    }
  }

  /** A value of the type that is large enough is whole. */
  lemma {:induction false} LargeIsWhole(f: real, k: nat) returns (n: nat)
    requires k <= FINEST && (f >= SINGLE_LOW || (k == FINEST && f >= 0.0)) && NarrowAt(f, k) == f
    ensures f == n as real
    decreases f.Floor
  {
    if f >= SINGLE_HIGH {
      var m := LargeIsWhole(f / 2.0, k);
      n := 2 * m;
    } else {
      n := RoundHalfEven(f);
    }
  }

  /** No value of the type is closer. */
  lemma {:induction false} NarrowNearest(x: real, k: nat, f: real)
    requires x >= 0.0 && f >= 0.0 && k <= FINEST && NarrowAt(f, k) == f
    ensures Distance(x, NarrowAt(x, k)) <= Distance(x, f)
    decreases if x >= SINGLE_HIGH then x.Floor else 0, FINEST - k
  {
    if x >= SINGLE_HIGH {
      var g := if f >= SINGLE_HIGH then f else SINGLE_HIGH;
      NarrowWholeAt(16777216, k);
      NarrowNearest(x / 2.0, k, g / 2.0);
    } else if x >= SINGLE_LOW || k == FINEST {
      if f >= SINGLE_LOW || k == FINEST {
        var n := LargeIsWhole(f, k);
        RoundNearest(x, n);
      } else {
        RoundNearest(x, 8388608);
      }
    } else {
      var g := if f < SINGLE_LOW then f else SINGLE_LOW;
      NarrowWholeAt(16777216, k + 1);
      NarrowNearest(2.0 * x, k + 1, 2.0 * g);
    }
  }

  function Multiple(x: real, p: nat): (r: real)
    ensures x >= 0.0 ==> r >= 0.0
  {
    x * p as real
  }

  lemma HalfMultiple(x: real, p: nat)
    ensures Multiple(x / 2.0, 2 * p) == Multiple(x, p)
    ensures Multiple(2.0 * x, p) == Multiple(x, 2 * p) == 2.0 * Multiple(x, p)
  {
    assert (2 * p) as real == 2.0 * p as real;
  }

  lemma WholeMultiple(n: nat, p: nat)
    ensures Multiple(n as real, p) == (n * p) as real
  {}

  /** Every value of the type is a multiple of the smallest step. */
  lemma {:induction false} NarrowSteps(x: real, k: nat) returns (m: nat)
    requires x >= 0.0 && k <= FINEST
    ensures Multiple(NarrowAt(x, k), Pow2(FINEST - k)) == m as real
    decreases if x >= SINGLE_HIGH then x.Floor else 0, FINEST - k
  {
    hide Multiple;
    if x >= SINGLE_HIGH {
      var half := NarrowSteps(x / 2.0, k);
      m := 2 * half;
      HalfMultiple(NarrowAt(x / 2.0, k), Pow2(FINEST - k));
    } else if x >= SINGLE_LOW || k == FINEST {
      m := RoundHalfEven(x) * Pow2(FINEST - k);
      WholeMultiple(RoundHalfEven(x), Pow2(FINEST - k));
    } else {
      m := NarrowSteps(2.0 * x, k + 1);
      HalfMultiple(NarrowAt(2.0 * x, k + 1), Pow2(FINEST - (k + 1)));
    }
  }

  /** Evaluates a rounding: `j` doublings bring the value to a significand, which rounds to `n`. */
  lemma {:induction false} NarrowIs(x: real, k: nat, j: nat, n: nat)
    requires x > 0.0 && j + k <= FINEST
    requires SINGLE_LOW <= Multiple(x, Pow2(j)) < SINGLE_HIGH && RoundHalfEven(Multiple(x, Pow2(j))) == n
    ensures Multiple(NarrowAt(x, k), Pow2(j)) == n as real
    decreases j
  {
    if j > 0 {
      var p := Pow2(j - 1);
      HalfMultiple(x, p);
      SmallEnough(p, x);
      hide Multiple;
      NarrowIs(2.0 * x, k + 1, j - 1, n);
      HalfMultiple(NarrowAt(2.0 * x, k + 1), p);
    }
  }

  lemma SmallEnough(p: nat, x: real)
    requires p >= 1 && x > 0.0 && Multiple(2.0 * x, p) < SINGLE_HIGH
    ensures x < SINGLE_LOW
  {
    assert Multiple(2.0 * x, p) >= 2.0 * x;
  }

  lemma {:induction false} NarrowShifted(n: nat, j: nat)
    requires 8388608 <= n < 16777216
    ensures Multiple(n as real, Pow2(j)) >= SINGLE_LOW && IsSingle(Multiple(n as real, Pow2(j)))
    decreases j
  {
    if j == 0 {
      NarrowWhole(n);
    } else {
      NarrowShifted(n, j - 1);
      HalfMultiple(n as real, Pow2(j - 1));
    }
  }

  /** The values from one up to two. */
  function Significand(n: nat): (x: real)
    requires 8388608 <= n < 16777216
    ensures x == n as real / 8388608.0 && IsSingle(x)
  {
    SignificandIs(n as real / 8388608.0, n);
    n as real / 8388608.0
  }

  lemma SignificandIs(x: real, n: nat)
    requires 8388608 <= n < 16777216 && x > 0.0 && n as real - 0.5 < 8388608.0 * x < n as real + 0.5
    requires SINGLE_LOW <= 8388608.0 * x < SINGLE_HIGH
    ensures Narrow(x) == n as real / 8388608.0
  {
    hide NarrowAt;
    Powers();
    hide Pow2;
    assert Multiple(x, Pow2(23)) == 8388608.0 * x;
    NarrowIs(x, 0, 23, n);
    assert Multiple(Narrow(x), Pow2(23)) == 8388608.0 * Narrow(x);
  }

  lemma {:induction false} Pow2Adds(a: nat, b: nat)
    ensures Pow2(a + b) == Pow2(a) * Pow2(b)
    decreases b
  {
    if b > 0 {
      Pow2Adds(a, b - 1);
      assert Pow2(a + b) == 2 * Pow2(a + (b - 1));
      assert Pow2(a) * (2 * Pow2(b - 1)) == 2 * (Pow2(a) * Pow2(b - 1));
    }
  }

  /** The largest value is one of the type. */
  lemma MaxIsSingle()
    ensures IsSingle(F32_MAX)
  {
    Powers();
    Pow2Adds(23, 3);
    assert Pow2(26) == 67108864;
    Pow2Adds(26, 26);
    Pow2Adds(52, 52);
    assert Pow2(52) == 4503599627370496;
    assert Pow2(104) == 20282409603651670423947251286016;
    NarrowShifted(16777215, 104);
  }

  lemma NarrowInRange(x: real)
    requires 0.0 <= x <= F32_MAX
    ensures IsSingle(Narrow(x)) && Narrow(x) <= F32_MAX
  {
    NarrowFixed(x, 0);
    MaxIsSingle();
    NarrowNearest(x, 0, F32_MAX);
  }

  // ---------------------------------------------------------------------------
  // Printing with one or two decimals
  // ---------------------------------------------------------------------------

  lemma {:induction false} NoFive(k: nat)
    ensures Pow2(k) % 5 != 0
  {
    if k > 0 { NoFive(k - 1); }
  }

  /** No two values of the type are exactly a tenth or a hundredth apart. */
  lemma NotApart(f: real, g: real, unit: nat)
    requires IsSingle(f) && IsSingle(g) && (unit == 10 || unit == 100)
    ensures Multiple(f - g, unit) != 1.0
  {
    var a := NarrowSteps(f, 0);
    var b := NarrowSteps(g, 0);
    NoFive(FINEST);
    hide Pow2, NarrowAt;
    if Multiple(f - g, unit) == 1.0 {
      StepsApart(f, g, unit, Pow2(FINEST), a, b);
    }
  }

  lemma StepsApart(f: real, g: real, unit: nat, p: nat, a: nat, b: nat)
    requires (unit == 10 || unit == 100) && Multiple(f, p) == a as real && Multiple(g, p) == b as real
    requires Multiple(f - g, unit) == 1.0
    ensures p % 5 == 0
  {
    MultipleOfDifference(f, g, p);
    SameMultiple(f - g, if unit == 10 then 0.1 else 0.01, unit);
    FiveDivides(p, a - b, unit);
  }

  lemma SameMultiple(x: real, y: real, unit: nat)
    requires (unit == 10 || unit == 100) && Multiple(x, unit) == 1.0 && y == if unit == 10 then 0.1 else 0.01
    ensures x == y
  {}

  lemma FiveDivides(p: nat, d: int, unit: nat)
    requires (unit == 10 || unit == 100) && Multiple(if unit == 10 then 0.1 else 0.01, p) == d as real
    ensures p % 5 == 0
  {
    assert if unit == 10 then p == 5 * (2 * d) else p == 5 * (20 * d);
  }

  lemma MultipleOfDifference(f: real, g: real, p: nat)
    ensures Multiple(f - g, p) == Multiple(f, p) - Multiple(g, p)
  {}

  /**
    Printing survives reading back: the decimal that a value prints as, read as the nearest value, prints the
    same. Where the type is finer than the print, the value read is close to the decimal; where it is coarser, it
    is the value that was printed; and no case lies between, because no tenth is a binary fraction.
   */
  lemma PrintedUnits(f: real, unit: nat, n: nat)
    requires IsSingle(f) && (unit == 10 || unit == 100) && RoundHalfEven(Multiple(f, unit)) == n
    ensures RoundHalfEven(Multiple(Narrow(n as real / unit as real), unit)) == n
  {
    var t := n as real / unit as real;
    assert Multiple(t, unit) == n as real;
    NarrowFixed(t, 0);
    NarrowNearest(t, 0, f);
    hide NarrowAt, RoundHalfEven, Multiple;
    if Narrow(t) != f {
      NotApart(f, Narrow(t), unit);
      NotApart(Narrow(t), f, unit);
      Closer(f, t, Narrow(t), unit, n);
    }
  }

  lemma Closer(f: real, t: real, y: real, unit: nat, n: nat)
    requires (unit == 10 || unit == 100) && Multiple(t, unit) == n as real && f >= 0.0 && y >= 0.0 && y != f
    requires RoundHalfEven(Multiple(f, unit)) == n && Distance(t, y) <= Distance(t, f)
    requires Multiple(f - y, unit) != 1.0 && Multiple(y - f, unit) != 1.0
    ensures RoundHalfEven(Multiple(y, unit)) == n
  {
    hide RoundHalfEven;
    assert Distance(n as real, Multiple(y, unit)) <= Distance(n as real, Multiple(f, unit)) by {
      assert unit == 10 || unit == 100;
    }
    CloserUnits(Multiple(f, unit), Multiple(y, unit), n);
  }

  lemma CloserUnits(a: real, b: real, n: nat)
    requires a >= 0.0 && b >= 0.0 && RoundHalfEven(a) == n && Distance(n as real, b) <= Distance(n as real, a)
    requires a != b && a - b != 1.0 && b - a != 1.0
    ensures RoundHalfEven(b) == n
  {}
}
