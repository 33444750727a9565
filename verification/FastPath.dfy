/** Exactly which requests the stages before the resize leave unchanged, against what the gate admits. */
module FastPath {
  import opened Text
  import opened Doubles
  import opened Numbers
  import opened Params
  import opened Rasters
  import opened Stages

  const NO_BORDER: FindTrim<nat> := (img: Raster<nat>, threshold: real) => None

  function Still<P>(img: Raster<P>): Loaded<P> {
    Loaded(img, img, None, None)
  }

  ghost predicate KeepsEveryImage(tp: TransformParams) {
    forall img: Raster<nat> :: img.Valid() ==> Prepared(Still(img), tp, false, NO_BORDER) == Some(img)
  }

  predicate Positive(v: Option<Finite>) {
    v.Some? && ValueOf(v.value) > 0.0
  }

  predicate TrimsPositive(tp: TransformParams) {
    Positive(tp.trimTop) || Positive(tp.trimRight) || Positive(tp.trimBottom) || Positive(tp.trimLeft)
  }

  /** No turn and no mirror, or the half turn and the two mirrors that cancel. */
  predicate StandsUpright(tp: TransformParams) {
    || ((tp.rotate.None? || tp.rotate.value.Deg0?) && tp.flip.None?)
    || (tp.rotate == Some(Deg180) && tp.flip == Some(Hv))
  }

  lemma NothingTrimmed(v: Option<Finite>, dim: nat)
    requires !Positive(v)
    ensures SidePixels(v, dim) == 0
  {
    if v.Some? {
      Downward(ValueOf(v.value), dim as real);
      NotUp(ValueOf(v.value));
      NotUp(Rounded(ValueOf(v.value) * dim as real));
    }
  }

  lemma NotUp(x: real)
    requires x <= 0.0
    ensures Round(x) <= 0
  {}

  lemma Downward(x: real, y: real)
    requires x <= 0.0 && y >= 0.0
    ensures x * y <= 0.0
  {}

  lemma UprightKeeps<P>(img: Raster<P>, tp: TransformParams)
    requires img.Valid() && StandsUpright(tp)
    ensures Mirror(Turn(img, tp.rotate), tp.flip) == img
  {
    HalfTurnMirrored(img);
  }

  lemma UntrimmedKeeps<P>(img: Raster<P>, tp: TransformParams)
    requires img.Valid() && !TrimsPositive(tp)
    ensures TrimSides(img, tp) == Some(img)
  {
    hide SidePixels, Positive;
    NothingTrimmed(tp.trimTop, img.Height());
    NothingTrimmed(tp.trimLeft, img.Width());
    NothingTrimmed(tp.trimRight, img.Width());
    NothingTrimmed(tp.trimBottom, img.Height());
    WholeWindow(img);
  }

  /** For some size, a positive trim takes at least one row or column. */
  lemma SomeSizeIsTrimmed(v: Option<Finite>) returns (n: nat)
    requires Positive(v)
    ensures n >= 2 && SidePixels(v, n) >= 1
  {
    hide FractionOf;
    n := EnoughFor(ValueOf(v.value));
  }

  lemma EnoughFor(value: real) returns (n: nat)
    requires value > 0.0
    ensures n >= 2 && FractionOf(value, n) >= 1.0
  {
    n := (1.0 / value).Floor + 2;
    ReachesOne(value, n as real);
    AtLeastOnePixel(value * n as real);
  }

  lemma AtLeastOnePixel(x: real)
    requires x >= 1.0
    ensures Rounded(x) >= 1.0
  {
    NearestWhole(1);
    NearestMonotone(1.0, x);
  }

  lemma ReachesOne(value: real, n: real)
    requires value > 0.0 && n >= 1.0 / value
    ensures value * n >= 1.0
  {
    assert value * (1.0 / value) == 1.0;
    assert value * (n - 1.0 / value) >= 0.0;
    assert value * (n - 1.0 / value) == value * n - value * (1.0 / value);
  }

  function Blank(n: nat): (img: Raster<nat>)
    requires n > 0
    ensures img.Valid() && img.Width() == n && img.Height() == n
  {
    Build(n, n, (x: nat, y: nat) => 0)
  }

  lemma TrimShrinks(tp: TransformParams, n: nat)
    requires n >= 2
    requires SidePixels(tp.trimTop, n) >= 1 || SidePixels(tp.trimRight, n) >= 1
          || SidePixels(tp.trimBottom, n) >= 1 || SidePixels(tp.trimLeft, n) >= 1
    ensures SetsASide(tp)
    ensures var out := TrimSides(Blank(n), tp);
      out.None? || out.value.Width() < n || out.value.Height() < n
  {
    hide Blank;
  }

  lemma TurnedSize<P>(img: Raster<P>, tp: TransformParams)
    requires img.Valid()
    ensures var out := Mirror(Turn(img, tp.rotate), tp.flip);
      || (out.Width() == img.Width() && out.Height() == img.Height())
      || (out.Width() == img.Height() && out.Height() == img.Width())
  {}

  lemma PositiveChanges(tp: TransformParams)
    requires tp.trim.None? && TrimsPositive(tp)
    ensures !KeepsEveryImage(tp)
  {
    hide SidePixels, Blank, TrimSides, Positive;
    var side := if Positive(tp.trimTop) then tp.trimTop else if Positive(tp.trimRight) then tp.trimRight
                else if Positive(tp.trimBottom) then tp.trimBottom else tp.trimLeft;
    var n := SomeSizeIsTrimmed(side);
    TrimShrinks(tp, n);
    var out := TrimSides(Blank(n), tp);
    if out.Some? {
      TurnedSize(out.value, tp);
    }
    assert Prepared(Still(Blank(n)), tp, false, NO_BORDER) != Some(Blank(n));
  }

  /** Four different pixels: every turn and mirror but the identity moves one of the upper two. */
  function FourPixels(): (img: Raster<nat>)
    ensures img.Valid() && img.Width() == 2 && img.Height() == 2
    ensures img.At(0, 0) == 0 && img.At(1, 0) == 1 && img.At(0, 1) == 2 && img.At(1, 1) == 3
  {
    Raster([[0, 1], [2, 3]])
  }

  predicate Corners(img: Raster<nat>, a: nat, b: nat, c: nat, d: nat) {
    && img.Valid() && img.Width() == 2 && img.Height() == 2
    && img.At(0, 0) == a && img.At(1, 0) == b && img.At(0, 1) == c && img.At(1, 1) == d
  }

  lemma CornersTurned(rotation: Option<Rotation>)
    ensures var out := Turn(FourPixels(), rotation);
      match rotation
      case None | Some(Deg0) => Corners(out, 0, 1, 2, 3)
      case Some(Deg90) => Corners(out, 2, 0, 3, 1)
      case Some(Deg180) => Corners(out, 3, 2, 1, 0)
      case Some(Deg270) => Corners(out, 1, 3, 0, 2)
  {
    hide FourPixels;
  }

  lemma CornersMirrored(img: Raster<nat>, flip: Option<FlipMode>, a: nat, b: nat, c: nat, d: nat)
    requires Corners(img, a, b, c, d)
    ensures match flip
      case None => Mirror(img, flip) == img
      case Some(H) => Corners(Mirror(img, flip), b, a, d, c)
      case Some(V) => Corners(Mirror(img, flip), c, d, a, b)
      case Some(Hv) => Corners(Mirror(img, flip), d, c, b, a)
  {}

  lemma TurnMoves(tp: TransformParams)
    requires !StandsUpright(tp)
    ensures Mirror(Turn(FourPixels(), tp.rotate), tp.flip) != FourPixels()
  {
    hide FourPixels, Turn, Mirror;
    CornersTurned(tp.rotate);
    var turned := Turn(FourPixels(), tp.rotate);
    CornersMirrored(turned, tp.flip, turned.At(0, 0), turned.At(1, 0), turned.At(0, 1), turned.At(1, 1));
  }

  /**
   * The stages leave every image as it is exactly when no side trim is positive and the turn and the
   * mirrors cancel. The border trim is left out: it depends on the pixels.
   */
  lemma StagesKeepExactly(tp: TransformParams)
    requires tp.trim.None?
    ensures KeepsEveryImage(tp) <==> !TrimsPositive(tp) && StandsUpright(tp)
  {
    hide TrimsPositive, StandsUpright, TrimSides, Turn, Mirror;
    if TrimsPositive(tp) {
      PositiveChanges(tp);
    } else if !StandsUpright(tp) {
      var img := FourPixels();
      UntrimmedKeeps(img, tp);
      TurnMoves(tp);
      assert Prepared(Still(img), tp, false, NO_BORDER) != Some(img);
    } else {
      forall img: Raster<nat> | img.Valid()
        ensures Prepared(Still(img), tp, false, NO_BORDER) == Some(img)
      {
        UntrimmedKeeps(img, tp);
        UprightKeeps(img, tp);
      }
    }
  }

  /** The gate is not complete: it turns away a half turn mirrored both ways, which changes no image. */
  lemma GateIsConservative(tp: TransformParams)
    requires tp == DEFAULTS.(rotate := Some(Deg180), flip := Some(Hv))
    ensures KeepsEveryImage(tp) && !ResizeReadsSource(tp, false)
  {
    StagesKeepExactly(tp);
  }
}
