/** The colour averages and the four planes that a hash is computed from, over exact reals. */
module Planes {
  import opened Text

  datatype Pixel = Pixel(r: U8, g: U8, b: U8, a: U8)

  /** `rgba.as_chunks::<4>()`. */
  function Pixels(rgba: seq<U8>): (pixels: seq<Pixel>)
    ensures |pixels| == |rgba| / 4
  {
    seq(|rgba| / 4, i requires 0 <= i < |rgba| / 4 =>
      Pixel(rgba[4 * i], rgba[4 * i + 1], rgba[4 * i + 2], rgba[4 * i + 3]))
  }

  function Alpha(px: Pixel): (alpha: real)
    ensures 0.0 <= alpha <= 1.0
  {
    px.a as real / 255.0
  }

  /** A colour value as the pixel's alpha weighs it. */
  function Weighed(px: Pixel, value: U8): (part: real)
    ensures 0.0 <= part <= Alpha(px)
  {
    var alpha, share := Alpha(px), value as real / 255.0;
    Scales(alpha, share);
    assert alpha / 255.0 * value as real == alpha * share;
    alpha / 255.0 * value as real
  }

  lemma Scales(x: real, share: real)
    requires 0.0 <= x && 0.0 <= share <= 1.0
    ensures 0.0 <= x * share <= x
  {}

  /** One real per colour, and one for alpha. */
  datatype Tint = Tint(r: real, g: real, b: real, a: real)

  function Totals(pixels: seq<Pixel>): Tint {
    if pixels == [] then Tint(0.0, 0.0, 0.0, 0.0)
    else
      var s, px := Totals(pixels[..|pixels| - 1]), pixels[|pixels| - 1];
      Tint(s.r + Weighed(px, px.r), s.g + Weighed(px, px.g), s.b + Weighed(px, px.b), s.a + Alpha(px))
  }

  /** A colour total per unit of alpha; nothing is divided when every pixel is transparent. */
  function Share(x: real, total: real): real {
    if total != 0.0 then x / total else x
  }

  /** The alpha-weighted average colour, with the total of alpha. */
  function Average(pixels: seq<Pixel>): Tint {
    var s := Totals(pixels);
    Tint(Share(s.r, s.a), Share(s.g, s.a), Share(s.b, s.a), s.a)
  }

  predicate HasAlpha(pixels: seq<Pixel>) {
    Average(pixels).a < |pixels| as real
  }

  /** A colour value blended over the average colour. */
  function Blend(px: Pixel, value: U8, average: real): real {
    average * (1.0 - Alpha(px)) + Weighed(px, value)
  }

  function LumaAt(px: Pixel, avg: Tint): real {
    (Blend(px, px.r, avg.r) + Blend(px, px.g, avg.g) + Blend(px, px.b, avg.b)) / 3.0
  }

  function YellowBlueAt(px: Pixel, avg: Tint): real {
    (Blend(px, px.r, avg.r) + Blend(px, px.g, avg.g)) / 2.0 - Blend(px, px.b, avg.b)
  }

  function RedGreenAt(px: Pixel, avg: Tint): real {
    Blend(px, px.r, avg.r) - Blend(px, px.g, avg.g)
  }

  /** The `l`, `p`, `q` and `a` vectors. */
  datatype PlaneSet = PlaneSet(l: seq<real>, p: seq<real>, q: seq<real>, a: seq<real>) {
    predicate Sized(n: nat) {
      |l| == |p| == |q| == |a| == n
    }
  }

  function PlanesOf(pixels: seq<Pixel>): (planes: PlaneSet)
    ensures planes.Sized(|pixels|)
  {
    PlanesOver(pixels, Average(pixels))
  }

  function PlanesOver(pixels: seq<Pixel>, avg: Tint): (planes: PlaneSet)
    ensures planes.Sized(|pixels|)
  {
    PlaneSet(seq(|pixels|, i requires 0 <= i < |pixels| => LumaAt(pixels[i], avg)),
             seq(|pixels|, i requires 0 <= i < |pixels| => YellowBlueAt(pixels[i], avg)),
             seq(|pixels|, i requires 0 <= i < |pixels| => RedGreenAt(pixels[i], avg)),
             seq(|pixels|, i requires 0 <= i < |pixels| => Alpha(pixels[i])))
  }

  /** The first loop of `encode` and the division after it. */
  method Averages(rgba: seq<U8>) returns (avg: Tint)
    requires |rgba| % 4 == 0
    ensures avg == Average(Pixels(rgba))
  {
    hide Weighed, Alpha;
    var pixels := Pixels(rgba);
    var avgR, avgG, avgB, avgA := 0.0, 0.0, 0.0, 0.0;
    for i := 0 to |rgba| / 4
      invariant Totals(pixels[..i]) == Tint(avgR, avgG, avgB, avgA)
    {
      assert pixels[..i + 1][..i] == pixels[..i];
      var px := Pixel(rgba[4 * i], rgba[4 * i + 1], rgba[4 * i + 2], rgba[4 * i + 3]);
      avgR := avgR + Weighed(px, px.r);
      avgG := avgG + Weighed(px, px.g);
      avgB := avgB + Weighed(px, px.b);
      avgA := avgA + Alpha(px);
    }
    assert pixels[..|pixels|] == pixels;
    assert Average(pixels) == Tint(Share(avgR, avgA), Share(avgG, avgA), Share(avgB, avgA), avgA);
    if avgA != 0.0 {
      avgR := avgR / avgA;
      avgG := avgG / avgA;
      avgB := avgB / avgA;
    }
    avg := Tint(avgR, avgG, avgB, avgA);
  }

  /** The second loop of `encode`. */
  method SplitPlanes(rgba: seq<U8>, avg: Tint) returns (planes: PlaneSet)
    requires |rgba| % 4 == 0 && avg == Average(Pixels(rgba))
    ensures planes == PlanesOf(Pixels(rgba))
  {
    hide Average, Blend, Alpha;
    ghost var pixels := Pixels(rgba);
    ghost var want := PlanesOf(pixels);
    var l, p, q, a := [], [], [], [];
    for i := 0 to |rgba| / 4
      invariant PlaneSet(l, p, q, a).Sized(i)
      invariant l == want.l[..i] && p == want.p[..i] && q == want.q[..i] && a == want.a[..i]
    {
      var px := Pixel(rgba[4 * i], rgba[4 * i + 1], rgba[4 * i + 2], rgba[4 * i + 3]);
      assert px == pixels[i];
      var r := Blend(px, px.r, avg.r);
      var g := Blend(px, px.g, avg.g);
      var b := Blend(px, px.b, avg.b);
      l := l + [(r + g + b) / 3.0];
      p := p + [(r + g) / 2.0 - b];
      q := q + [r - g];
      a := a + [Alpha(px)];
    }
    planes := PlaneSet(l, p, q, a);
  }

  predicate InUnit(x: real) {
    0.0 <= x <= 1.0
  }

  /** No total exceeds the total of alpha, and alpha adds up to at most one per pixel. */
  lemma {:induction false} TotalsBounded(pixels: seq<Pixel>)
    ensures var s := Totals(pixels);
      0.0 <= s.r <= s.a && 0.0 <= s.g <= s.a && 0.0 <= s.b <= s.a && s.a <= |pixels| as real
  {
    hide Alpha, Weighed;
    if pixels != [] {
      TotalsBounded(pixels[..|pixels| - 1]);
    }
  }

  lemma ShareInUnit(x: real, total: real)
    requires 0.0 <= x <= total
    ensures InUnit(Share(x, total)) && Share(x, total) * total == x
  {}

  lemma AverageInUnit(pixels: seq<Pixel>)
    ensures var avg := Average(pixels); InUnit(avg.r) && InUnit(avg.g) && InUnit(avg.b)
    ensures var avg, s := Average(pixels), Totals(pixels);
      avg.a == s.a && avg.r * s.a == s.r && avg.g * s.a == s.g && avg.b * s.a == s.b
  {
    hide Share, Totals;
    TotalsBounded(pixels);
    var s := Totals(pixels);
    ShareInUnit(s.r, s.a);
    ShareInUnit(s.g, s.a);
    ShareInUnit(s.b, s.a);
  }

  /** The flag is set exactly when some pixel is not opaque. */
  lemma {:induction false} HasAlphaIff(pixels: seq<Pixel>)
    ensures HasAlpha(pixels) <==> exists i :: 0 <= i < |pixels| && pixels[i].a < 255
  {
    hide Weighed, Share;
    TotalsBounded(pixels);
    if pixels != [] {
      var n := |pixels| - 1;
      var before := pixels[..n];
      HasAlphaIff(before);
      TotalsBounded(before);
      assert forall i :: 0 <= i < n ==> before[i] == pixels[i];
    }
  }

  lemma Convex(average: real, alpha: real, part: real)
    requires InUnit(average) && 0.0 <= part <= alpha <= 1.0
    ensures InUnit(average * (1.0 - alpha) + part)
  {
    Scales(1.0 - alpha, average);
    assert average * (1.0 - alpha) <= 1.0 - alpha;
  }

  lemma BlendInUnit(px: Pixel, value: U8, average: real)
    requires InUnit(average)
    ensures InUnit(Blend(px, value, average))
  {
    hide Alpha, Weighed;
    Convex(average, Alpha(px), Weighed(px, value));
  }

  /** Luminance and alpha stay in [0, 1], and both colour differences in [-1, 1]. */
  lemma PlanesBounded(pixels: seq<Pixel>, i: nat)
    requires i < |pixels|
    ensures var planes := PlanesOf(pixels);
      && InUnit(planes.l[i]) && InUnit(planes.a[i])
      && -1.0 <= planes.p[i] <= 1.0 && -1.0 <= planes.q[i] <= 1.0
  {
    hide Average, Blend, Alpha;
    AverageInUnit(pixels);
    var px, avg := pixels[i], Average(pixels);
    BlendInUnit(px, px.r, avg.r);
    BlendInUnit(px, px.g, avg.g);
    BlendInUnit(px, px.b, avg.b);
  }

  function Sum(values: seq<real>): real {
    if values == [] then 0.0 else Sum(values[..|values| - 1]) + values[|values| - 1]
  }

  function Mean(values: seq<real>): real
    requires values != []
  {
    Sum(values) / |values| as real
  }

  /** What blending adds up to over `n` pixels. */
  function BlendedTotal(total: real, alpha: real, n: real, average: real): real {
    average * (n - alpha) + total
  }

  lemma BlendedStep(total: real, alpha: real, n: real, average: real, px: Pixel, value: U8)
    ensures BlendedTotal(total + Weighed(px, value), alpha + Alpha(px), n + 1.0, average)
         == BlendedTotal(total, alpha, n, average) + Blend(px, value, average)
  {
    hide Alpha, Weighed;
    var x := Alpha(px);
    assert average * (n + 1.0 - (alpha + x)) == average * (n - alpha) + average * (1.0 - x);
  }

  lemma {:induction false} PlaneSums(pixels: seq<Pixel>, avg: Tint)
    ensures var planes, s, n := PlanesOver(pixels, avg), Totals(pixels), |pixels| as real;
      var r, g := BlendedTotal(s.r, s.a, n, avg.r), BlendedTotal(s.g, s.a, n, avg.g);
      var b := BlendedTotal(s.b, s.a, n, avg.b);
      && Sum(planes.l) == (r + g + b) / 3.0 && Sum(planes.p) == (r + g) / 2.0 - b
      && Sum(planes.q) == r - g && Sum(planes.a) == s.a
  {
    hide Blend, Weighed, Alpha;
    if pixels == [] {
    } else {
      hide BlendedTotal;
      var k := |pixels| - 1;
      var px, s := pixels[k], Totals(pixels[..k]);
      var planes, before := PlanesOver(pixels, avg), PlanesOver(pixels[..k], avg);
      PlaneSums(pixels[..k], avg);
      BlendedStep(s.r, s.a, k as real, avg.r, px, px.r);
      BlendedStep(s.g, s.a, k as real, avg.g, px, px.g);
      BlendedStep(s.b, s.a, k as real, avg.b, px, px.b);
      assert planes.l[..k] == before.l && planes.p[..k] == before.p
          && planes.q[..k] == before.q && planes.a[..k] == before.a;
    }
  }

  lemma WholeTotal(total: real, alpha: real, n: real, average: real)
    requires average * alpha == total
    ensures BlendedTotal(total, alpha, n, average) == average * n
  {
    assert average * (n - alpha) == average * n - average * alpha;
  }

  lemma DivideBack(x: real, n: real)
    requires n > 0.0
    ensures x * n / n == x
  {}

  /** Blending keeps the average: the mean of each plane is that plane's value of the average colour. */
  lemma MeansAreAverageColour(pixels: seq<Pixel>)
    requires pixels != []
    ensures var planes, avg := PlanesOf(pixels), Average(pixels);
      && Mean(planes.l) == (avg.r + avg.g + avg.b) / 3.0 && Mean(planes.p) == (avg.r + avg.g) / 2.0 - avg.b
      && Mean(planes.q) == avg.r - avg.g && Mean(planes.a) == avg.a / |pixels| as real
  {
    hide Sum, Average, Totals, PlanesOver, BlendedTotal;
    var s, avg, n := Totals(pixels), Average(pixels), |pixels| as real;
    AverageInUnit(pixels);
    PlaneSums(pixels, avg);
    WholeTotal(s.r, s.a, n, avg.r);
    WholeTotal(s.g, s.a, n, avg.g);
    WholeTotal(s.b, s.a, n, avg.b);
    assert (avg.r * n + avg.g * n + avg.b * n) / 3.0 == (avg.r + avg.g + avg.b) / 3.0 * n;
    assert (avg.r * n + avg.g * n) / 2.0 - avg.b * n == ((avg.r + avg.g) / 2.0 - avg.b) * n;
    assert avg.r * n - avg.g * n == (avg.r - avg.g) * n;
    DivideBack((avg.r + avg.g + avg.b) / 3.0, n);
    DivideBack((avg.r + avg.g) / 2.0 - avg.b, n);
    DivideBack(avg.r - avg.g, n);
  }

  // ---------------------------------------------------------------------------
  // The colours that the planes stand for
  // ---------------------------------------------------------------------------

  /** The colour behind one sample of each plane, as a ThumbHash decoder takes it back. */
  function RedOf(l: real, p: real, q: real): real {
    l + p / 3.0 + q / 2.0
  }

  function GreenOf(l: real, p: real, q: real): real {
    l + p / 3.0 - q / 2.0
  }

  function BlueOf(l: real, p: real, q: real): real {
    l - 2.0 * p / 3.0
  }

  /** A value laid over another one by an alpha. */
  function Over(below: real, alpha: real, value: real): real {
    below * (1.0 - alpha) + alpha * value
  }

  lemma BlendIs(px: Pixel, value: U8, average: real)
    ensures Blend(px, value, average) == Over(average, px.a as real / 255.0, value as real / 255.0)
  {}

  /** The planes lose no colour: they give back each byte of each pixel, laid over the average by its alpha. */
  lemma PlanesNameColours(rgba: seq<U8>, i: nat)
    requires 4 * i + 4 <= |rgba|
    ensures i < |Pixels(rgba)|
    ensures var planes, avg := PlanesOf(Pixels(rgba)), Average(Pixels(rgba));
      var l, p, q, a := planes.l[i], planes.p[i], planes.q[i], planes.a[i];
      && a == rgba[4 * i + 3] as real / 255.0
      && RedOf(l, p, q) == Over(avg.r, a, rgba[4 * i] as real / 255.0)
      && GreenOf(l, p, q) == Over(avg.g, a, rgba[4 * i + 1] as real / 255.0)
      && BlueOf(l, p, q) == Over(avg.b, a, rgba[4 * i + 2] as real / 255.0)
  {
    hide Average, Blend, RedOf, GreenOf, BlueOf, Over;
    var px, avg := Pixels(rgba)[i], Average(Pixels(rgba));
    BlendIs(px, px.r, avg.r);
    BlendIs(px, px.g, avg.g);
    BlendIs(px, px.b, avg.b);
    ColoursBack(Blend(px, px.r, avg.r), Blend(px, px.g, avg.g), Blend(px, px.b, avg.b));
  }

  lemma ColoursBack(r: real, g: real, b: real)
    ensures var l, p, q := (r + g + b) / 3.0, (r + g) / 2.0 - b, r - g;
      RedOf(l, p, q) == r && GreenOf(l, p, q) == g && BlueOf(l, p, q) == b
  {}

  /** An opaque image: the planes give back its bytes. */
  lemma OpaqueColours(rgba: seq<U8>, i: nat)
    requires 4 * i + 4 <= |rgba| && rgba[4 * i + 3] == 255
    ensures i < |Pixels(rgba)|
    ensures var planes := PlanesOf(Pixels(rgba));
      var l, p, q := planes.l[i], planes.p[i], planes.q[i];
      && 255.0 * RedOf(l, p, q) == rgba[4 * i] as real && 255.0 * GreenOf(l, p, q) == rgba[4 * i + 1] as real
      && 255.0 * BlueOf(l, p, q) == rgba[4 * i + 2] as real
  {
    PlanesNameColours(rgba, i);
    hide PlanesOf, Average, RedOf, GreenOf, BlueOf;
  }
}
