/**
  64-bit floats of the normal range, as the reals they stand for. A float operation on positive values is the
  exact operation followed by `Nearest`; the exponent range is never left by the sizes of images.
 */
module Doubles {
  import opened Bits
  import opened Singles
  import opened Numbers

  /** The significands of 53 bits lie from `LOW` up to `HIGH`. */
  const LOW: real := 4503599627370496.0
  const HIGH: real := 9007199254740992.0

  /** Half a unit in the last place, relative to the value. */
  const EPSILON: real := 1.0 / 9007199254740992.0

  /** Rounding to 53 significant bits, to nearest and ties to even. */
  function Nearest(x: real): (r: real)
    requires x > 0.0
    ensures r > 0.0 && -EPSILON * x <= r - x <= EPSILON * x
    decreases if x < LOW then (LOW / x).Floor else if x >= HIGH then x.Floor else 0
  {
    if x < LOW then
      Halved(x);
      Nearest(2.0 * x) / 2.0
    else if x >= HIGH then 2.0 * Nearest(x / 2.0)
    else RoundHalfEven(x) as real
  }

  lemma Halved(x: real)
    requires 0.0 < x < LOW
    ensures (LOW / x).Floor > (LOW / (2.0 * x)).Floor >= 0 && (LOW / x).Floor > 0
  {
    var q := LOW / x;
    assert q * x == LOW;
    assert q >= 1.0;
    assert LOW / (2.0 * x) == q / 2.0 by { assert q / 2.0 * (2.0 * x) == LOW; }
  }

  /** Rounding on both sides of zero. */
  function Rounded(x: real): real {
    if x > 0.0 then Nearest(x) else if x < 0.0 then -Nearest(-x) else 0.0
  }

  /** Doubling commutes with rounding. */
  lemma NearestDoubles(x: real)
    requires x > 0.0
    ensures Nearest(2.0 * x) == 2.0 * Nearest(x)
  {}

  lemma {:induction false} NearestBelow(x: real)
    requires 0.0 < x < HIGH
    ensures Nearest(x) <= HIGH && (x < LOW ==> Nearest(x) <= LOW)
    decreases (LOW / x).Floor
  {
    if x < LOW {
      Halved(x);
      NearestBelow(2.0 * x);
    } else {
      EvenBelow(x, 9007199254740992);
    }
  }

  lemma EvenBelow(x: real, n: nat)
    requires 0.0 <= x <= n as real
    ensures RoundHalfEven(x) <= n
  {
    RoundBelow(x, n);
  }

  lemma {:induction false} NearestAbove(x: real)
    requires x >= LOW
    ensures Nearest(x) >= LOW && (x >= HIGH ==> Nearest(x) >= HIGH)
    decreases x.Floor
  {
    if x >= HIGH {
      NearestAbove(x / 2.0);
    }
  }

  lemma EvenMonotone(x: real, y: real)
    requires 0.0 <= x <= y
    ensures RoundHalfEven(x) <= RoundHalfEven(y)
  {}

  lemma {:induction false} LowMonotone(x: real, y: real)
    requires 0.0 < x <= y < HIGH
    ensures Nearest(x) <= Nearest(y)
    decreases (LOW / x).Floor
  {
    if y < LOW {
      Halved(x);
      LowMonotone(2.0 * x, 2.0 * y);
    } else if x < LOW {
      NearestBelow(x);
      NearestAbove(y);
    } else {
      EvenMonotone(x, y);
    }
  }

  lemma {:induction false} HighMonotone(x: real, y: real)
    requires LOW <= x <= y
    ensures Nearest(x) <= Nearest(y)
    decreases y.Floor
  {
    if x >= HIGH {
      HighMonotone(x / 2.0, y / 2.0);
    } else if y >= HIGH {
      NearestBelow(x);
      NearestAbove(y);
    } else {
      EvenMonotone(x, y);
    }
  }

  /** Rounding keeps the order. */
  lemma NearestMonotone(x: real, y: real)
    requires 0.0 < x <= y
    ensures Nearest(x) <= Nearest(y)
  {
    if y < HIGH {
      LowMonotone(x, y);
    } else if x >= LOW {
      HighMonotone(x, y);
    } else {
      NearestBelow(x);
      NearestAbove(y);
    }
  }

  /** Whole numbers of up to 53 bits are exact. */
  lemma {:induction false} NearestWhole(n: nat)
    requires 0 < n <= 9007199254740992
    ensures Nearest(n as real) == n as real
    decreases 9007199254740992 - n
  {
    if n as real < LOW {
      NearestWhole(2 * n);
      assert (2 * n) as real == 2.0 * n as real;
    } else if n == 9007199254740992 {
      assert Nearest(LOW) == LOW;
    }
  }

  function Doubled(x: real, k: nat): real
    decreases k
  {
    if k == 0 then x else 2.0 * Doubled(x, k - 1)
  }

  lemma {:induction false} NearestScales(x: real, k: nat)
    requires x > 0.0
    ensures Doubled(x, k) > 0.0 && Nearest(Doubled(x, k)) == Doubled(Nearest(x), k)
    decreases k
  {
    hide Nearest;
    if k > 0 {
      NearestScales(x, k - 1);
      NearestDoubles(Doubled(x, k - 1));
    }
  }

  /** The rounding of a value, from the whole number that its scaled significand rounds to. */
  lemma NearestAt(x: real, k: nat, n: nat)
    requires x > 0.0 && LOW <= Doubled(x, k) < HIGH && RoundHalfEven(Doubled(x, k)) == n
    ensures Doubled(Nearest(x), k) == n as real
  {
    hide Doubled;
    NearestScales(x, k);
    NearestBase(Doubled(x, k));
  }

  lemma NearestBase(x: real)
    requires LOW <= x < HIGH
    ensures Nearest(x) == RoundHalfEven(x) as real
  {}

  lemma {:induction false} DoubledIs(x: real, k: nat)
    ensures Doubled(x, k) == Pow2(k) as real * x
    decreases k
  {
    if k > 0 {
      DoubledIs(x, k - 1);
      TwiceProduct(Pow2(k - 1), Pow2(k), x);
    }
  }

  lemma TwiceProduct(p: nat, q: nat, x: real)
    requires q == 2 * p
    ensures q as real * x == 2.0 * (p as real * x)
  {
    assert q as real == 2.0 * p as real;
  }

  lemma SixMore(k: nat)
    ensures Pow2(k + 6) == 64 * Pow2(k)
  {
    assert Pow2(k + 2) == 4 * Pow2(k);
    assert Pow2(k + 4) == 4 * Pow2(k + 2);
  }

  lemma LargePowers()
    ensures Pow2(47) == 0x8000_0000_0000 && Pow2(48) == 0x1_0000_0000_0000 && Pow2(50) == 0x4_0000_0000_0000
    ensures Pow2(43) == 0x800_0000_0000 && Pow2(52) == 0x10_0000_0000_0000 && Pow2(53) == 0x20_0000_0000_0000
  {
    Powers();
    SixMore(23);
    SixMore(29);
    SixMore(35);
    SixMore(41);
    SixMore(47);
    assert Pow2(50) == 4 * Pow2(48) && Pow2(52) == 4 * Pow2(50) && Pow2(43) == 4 * Pow2(41);
  }

  /** Evaluates a rounding: `k` doublings bring the value to a significand, which rounds to `n`. */
  lemma NearestIs(x: real, k: nat, n: nat)
    requires x > 0.0 && LOW <= Pow2(k) as real * x < HIGH && RoundHalfEven(Pow2(k) as real * x) == n
    ensures Pow2(k) as real * Nearest(x) == n as real
  {
    hide Nearest, Doubled, Pow2;
    DoubledIs(x, k);
    DoubledIs(Nearest(x), k);
    NearestAt(x, k, n);
  }

  /** Evaluates a rounded quotient. */
  lemma QuotientIs(a: real, b: real, k: nat, n: nat)
    requires a > 0.0 && b > 0.0 && LOW <= n as real < HIGH
    requires (n as real - 0.5) * b < Pow2(k) as real * a < (n as real + 0.5) * b
    requires LOW * b <= Pow2(k) as real * a < HIGH * b
    ensures a / b > 0.0 && Pow2(k) as real * Nearest(a / b) == n as real
  {
    hide Nearest, Pow2, RoundHalfEven;
    var y := Pow2(k) as real * (a / b);
    QuotientScaled(Pow2(k) as real, a, b);
    QuotientRounds(y, Pow2(k) as real * a, b, n);
    NearestFrom(a / b, k, y, n);
  }

  lemma NearestFrom(x: real, k: nat, y: real, n: nat)
    requires x > 0.0 && y == Pow2(k) as real * x && LOW <= y < HIGH && RoundHalfEven(y) == n
    ensures Pow2(k) as real * Nearest(x) == n as real
  {
    hide Nearest, Pow2;
    NearestIs(x, k, n);
  }

  lemma QuotientScaled(p: real, a: real, b: real)
    requires a > 0.0 && b > 0.0
    ensures a / b > 0.0 && p * (a / b) * b == p * a
  {
    var x := a / b;
    assert x * b == a;
    assert p * x * b == p * (x * b);
  }

  lemma QuotientRounds(y: real, z: real, b: real, n: nat)
    requires b > 0.0 && y * b == z && LOW <= n as real
    requires (n as real - 0.5) * b < z < (n as real + 0.5) * b && LOW * b <= z < HIGH * b
    ensures LOW <= y < HIGH && RoundHalfEven(y) == n
  {
    hide RoundHalfEven;
    CancelFrom(n as real - 0.5, y, z, b);
    CancelFrom(LOW, y, z, b);
    CancelTo(y, n as real + 0.5, z, b);
    CancelTo(y, HIGH, z, b);
    EvenNear(y, n);
  }

  lemma CancelFrom(x: real, y: real, z: real, b: real)
    requires b > 0.0 && y * b == z
    ensures x * b < z ==> x < y
    ensures x * b <= z ==> x <= y
  {
    if x >= y { Times(y, x, b); }
    if x > y { PositiveProduct(x - y, b); }
  }

  lemma CancelTo(x: real, y: real, z: real, b: real)
    requires b > 0.0 && x * b == z
    ensures z < y * b ==> x < y
  {
    if x >= y { Times(y, x, b); }
  }

  lemma PositiveProduct(x: real, y: real)
    requires x > 0.0 && y > 0.0
    ensures x * y > 0.0
  {}

  lemma EvenNear(x: real, n: nat)
    requires n as real - 0.5 < x < n as real + 0.5 && x >= 0.0
    ensures RoundHalfEven(x) == n
  {}

  // ---------------------------------------------------------------------------
  // Relative errors
  // ---------------------------------------------------------------------------

  /** `a` is within the relative error `d` of `b`. */
  predicate Off(a: real, b: real, d: real) {
    b - d * b <= a <= b + d * b
  }

  lemma NearestIsOff(x: real)
    requires x > 0.0
    ensures Off(Nearest(x), x, EPSILON)
  {}

  lemma Times(x: real, y: real, z: real)
    requires x <= y && z >= 0.0
    ensures x * z <= y * z
  {}

  /** Errors add up, with a little to spare for their product. */
  lemma OffTwice(a: real, b: real, c: real, d: real, e: real, f: real)
    requires c > 0.0 && 0.0 <= d && 0.0 <= e && d + e + d * e <= f
    requires Off(a, b, d) && Off(b, c, e)
    ensures Off(a, c, f)
  {
    var top, spread := c + e * c, (d + d * e) * c;
    Times(b, top, d);
    assert d * b <= spread by { assert top * d == spread && b * d == d * b; }
    Times(d + e + d * e, f, c);
    assert (d + e + d * e) * c == spread + e * c;
  }

  /** Turning a quotient over at most doubles its error. */
  lemma OffInverse(a: real, b: real, d: real)
    requires a > 0.0 && b > 0.0 && 0.0 <= d <= 0.5 && Off(a, b, d)
    ensures 1.0 / a > 0.0 && 1.0 / b > 0.0 && Off(1.0 / a, 1.0 / b, 2.0 * d)
  {
    Half(a, b, d);
    var x, y := 1.0 / a, 1.0 / b;
    Inverse(a);
    Inverse(b);
    Crosswise(x, y, a, b);
    Differences(x, y, a, b, d, x * y);
  }

  lemma Inverse(a: real)
    requires a > 0.0
    ensures 1.0 / a > 0.0 && 1.0 / a * a == 1.0
  {}

  lemma Half(a: real, b: real, d: real)
    requires d <= 0.5 && b > 0.0 && b - d * b <= a
    ensures b <= 2.0 * a
  {
    Times(d, 0.5, b);
  }

  lemma Crosswise(x: real, y: real, a: real, b: real)
    requires x > 0.0 && y > 0.0 && x * a == 1.0 && y * b == 1.0
    ensures x * y > 0.0 && b * (x * y) == x && a * (x * y) == y
  {
    assert b * (x * y) == x * (y * b);
    assert a * (x * y) == y * (x * a);
  }

  lemma Differences(x: real, y: real, a: real, b: real, d: real, z: real)
    requires z > 0.0 && b * z == x && a * z == y && 0.0 <= d && b <= 2.0 * a && Off(a, b, d)
    ensures Off(x, y, 2.0 * d)
  {
    Times(b, 2.0 * a, z);
    assert 2.0 * a * z == 2.0 * y;
    Times(b - a, d * b, z);
    Times(a - b, d * b, z);
    assert (b - a) * z == x - y;
    assert d * b * z == d * x;
    Times(x, 2.0 * y, d);
  }

  function Product(x: real, y: real): (z: real)
    ensures x > 0.0 && y > 0.0 ==> z > 0.0
  {
    x * y
  }

  lemma OffScaled(a: real, b: real, d: real, k: real)
    requires k >= 0.0 && Off(a, b, d)
    ensures Off(Product(k, a), Product(k, b), d)
  {
    Times(a, b + d * b, k);
    Times(b - d * b, a, k);
    assert d * b * k == d * (k * b);
  }
}
