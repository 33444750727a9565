/** Where each pixel comes from: what the stages before the resize do to the image, pixel by pixel. */
module StagePixels {
  import opened Text
  import opened Doubles
  import opened Numbers
  import opened Params
  import opened Rasters
  import opened Stages

  // ---------------------------------------------------------------------------
  // Turns and mirrors
  // ---------------------------------------------------------------------------

  /** The pixel of an image of `w` by `h` that a clockwise turn brings to (`x`, `y`). */
  function BeforeTurn(rotate: Option<Rotation>, w: int, h: int, x: int, y: int): (int, int) {
    match rotate
    case None | Some(Deg0) => (x, y)
    case Some(Deg90) => (y, h - 1 - x)
    case Some(Deg180) => (w - 1 - x, h - 1 - y)
    case Some(Deg270) => (w - 1 - y, x)
  }

  /** The pixel of an image of `w` by `h` that the mirrors bring to (`x`, `y`). */
  function BeforeMirror(flip: Option<FlipMode>, w: int, h: int, x: int, y: int): (int, int) {
    (if flip == Some(H) || flip == Some(Hv) then w - 1 - x else x,
     if flip == Some(V) || flip == Some(Hv) then h - 1 - y else y)
  }

  function TurnedSize(rotate: Option<Rotation>, w: int, h: int): (int, int) {
    if rotate == Some(Deg90) || rotate == Some(Deg270) then (h, w) else (w, h)
  }

  /** The pixel that a turn and then the mirrors bring to (`x`, `y`). */
  function Origin(tp: TransformParams, w: int, h: int, x: int, y: int): (int, int) {
    var (tw, th) := TurnedSize(tp.rotate, w, h);
    var (tx, ty) := BeforeMirror(tp.flip, tw, th, x, y);
    BeforeTurn(tp.rotate, w, h, tx, ty)
  }

  predicate Within<P>(img: Raster<P>, at: (int, int))
    requires img.Valid()
  {
    0 <= at.0 < img.Width() && 0 <= at.1 < img.Height()
  }

  lemma TurnedPixel<P>(img: Raster<P>, rotate: Option<Rotation>, x: nat, y: nat)
    requires img.Valid()
    ensures var out := Turn(img, rotate);
      && (out.Width(), out.Height()) == TurnedSize(rotate, img.Width(), img.Height())
      && (x < out.Width() && y < out.Height() ==>
            && Within(img, BeforeTurn(rotate, img.Width(), img.Height(), x, y))
            && var (sx, sy) := BeforeTurn(rotate, img.Width(), img.Height(), x, y);
               out.At(x, y) == img.At(sx, sy))
  {}

  lemma MirroredPixel<P>(img: Raster<P>, flip: Option<FlipMode>, x: nat, y: nat)
    requires img.Valid() && x < img.Width() && y < img.Height()
    ensures Within(img, BeforeMirror(flip, img.Width(), img.Height(), x, y))
    ensures var (sx, sy) := BeforeMirror(flip, img.Width(), img.Height(), x, y);
      Mirror(img, flip).At(x, y) == img.At(sx, sy)
  {}

  /** Both, in the order of the source: the turn first. */
  lemma UprightPixel<P>(img: Raster<P>, tp: TransformParams, x: nat, y: nat)
    requires img.Valid()
    ensures var out := Mirror(Turn(img, tp.rotate), tp.flip);
      && (out.Width(), out.Height()) == TurnedSize(tp.rotate, img.Width(), img.Height())
      && (x < out.Width() && y < out.Height() ==>
            && Within(img, Origin(tp, img.Width(), img.Height(), x, y))
            && var (sx, sy) := Origin(tp, img.Width(), img.Height(), x, y);
               out.At(x, y) == img.At(sx, sy))
  {
    hide Turn, Mirror, BeforeTurn, BeforeMirror, TurnedSize, Raster.At;
    var turned := Turn(img, tp.rotate);
    TurnedPixel(img, tp.rotate, 0, 0);
    if x < turned.Width() && y < turned.Height() {
      MirroredPixel(turned, tp.flip, x, y);
      var (tx, ty) := BeforeMirror(tp.flip, turned.Width(), turned.Height(), x, y);
      TurnedPixel(img, tp.rotate, tx, ty);
    }
  }

  /** Four quarter turns are none, two are the half turn, and three are the turn the other way. */
  lemma QuarterTurns<P>(img: Raster<P>)
    requires img.Valid()
    ensures Rotate(Rotate(img, Deg90), Deg90) == Rotate(img, Deg180)
    ensures Rotate(Rotate(img, Deg180), Deg90) == Rotate(img, Deg270)
    ensures Rotate(Rotate(img, Deg270), Deg90) == img
    ensures Rotate(img, Deg90).At(img.Height() - 1, 0) == img.At(0, 0)
  {
    SamePixels(Rotate(Rotate(img, Deg90), Deg90), Rotate(img, Deg180));
    SamePixels(Rotate(Rotate(img, Deg180), Deg90), Rotate(img, Deg270));
    SamePixels(Rotate(Rotate(img, Deg270), Deg90), img);
  }

  // ---------------------------------------------------------------------------
  // Trims
  // ---------------------------------------------------------------------------

  /** `out` is the window of `img` at (`left`, `top`) of this size. */
  ghost predicate Cut<P>(out: Raster<P>, img: Raster<P>, left: int, top: int, w: int, h: int)
    requires img.Valid()
  {
    && out.Valid() && out.Width() == w && out.Height() == h
    && 0 <= left && 0 <= top && left + w <= img.Width() && top + h <= img.Height()
    && forall x: nat, y: nat :: x < w && y < h ==> out.At(x, y) == img.At(left + x, top + y)
  }

  /** What a border trim leaves of an image: the window that the search found. */
  ghost predicate LeavesWindow<P>(out: Option<Raster<P>>, img: Raster<P>, found: Option<(int, int, int, int)>)
    requires img.Valid()
  {
    match found
    case None => out == None
    case Some((left, top, w, h)) =>
      if w <= 0 || h <= 0 then out == Some(img)
      else if left < 0 || top < 0 || left + w > img.Width() || top + h > img.Height() then out == None
      else out.Some? && Cut(out.value, img, left, top, w, h)
  }

  lemma BorderLeaves<P>(img: Raster<P>, threshold: real, findTrim: FindTrim<P>)
    requires img.Valid()
    ensures LeavesWindow(TrimBorder(img, threshold, findTrim), img, findTrim(img, threshold))
  {}

  predicate Untouched(tp: TransformParams) {
    (tp.rotate == None || tp.rotate == Some(Deg0)) && tp.flip == None
  }

  /** With only a border trim set, the stages leave of the first frame the window that the search found. */
  lemma BorderTrimmed<P>(src: Loaded<P>, tp: TransformParams, findTrim: FindTrim<P>)
    requires src.Valid() && tp.trim.Some? && tp.frame.None? && !SetsASide(tp) && Untouched(tp)
    ensures LeavesWindow(Prepared(src, tp, false, findTrim), src.first,
                         findTrim(src.first, ValueOf(tp.trim.value)))
  {
    BorderLeaves(src.first, ValueOf(tp.trim.value), findTrim);
    hide TrimBorder, LeavesWindow, TrimSides;
  }

  function SideLeft(tp: TransformParams, w: nat): nat { SidePixels(tp.trimLeft, w) }

  function SideTop(tp: TransformParams, h: nat): nat { SidePixels(tp.trimTop, h) }

  /** What the left and right trims leave of a width, and the top and bottom ones of a height: at least one pixel. */
  function SideWidth(tp: TransformParams, w: nat): int {
    AtLeastOne(w - SidePixels(tp.trimLeft, w) - SidePixels(tp.trimRight, w))
  }

  function SideHeight(tp: TransformParams, h: nat): int {
    AtLeastOne(h - SidePixels(tp.trimTop, h) - SidePixels(tp.trimBottom, h))
  }

  lemma SidesLeave<P>(img: Raster<P>, tp: TransformParams)
    requires img.Valid()
    ensures var out, w, h := TrimSides(img, tp), img.Width(), img.Height();
      if SideLeft(tp, w) < w && SideTop(tp, h) < h
      then out.Some? && Cut(out.value, img, SideLeft(tp, w), SideTop(tp, h), SideWidth(tp, w), SideHeight(tp, h))
      else out == None
  {
    hide SidePixels;
  }

  /** With only side trims set, the stages leave of the first frame what the four sides leave. */
  lemma SideTrimmed<P>(src: Loaded<P>, tp: TransformParams, findTrim: FindTrim<P>)
    requires src.Valid() && tp.trim.None? && tp.frame.None? && SetsASide(tp) && Untouched(tp)
    ensures var out, img := Prepared(src, tp, false, findTrim), src.first;
      var w, h := img.Width(), img.Height();
      if SideLeft(tp, w) < w && SideTop(tp, h) < h
      then out.Some? && Cut(out.value, img, SideLeft(tp, w), SideTop(tp, h), SideWidth(tp, w), SideHeight(tp, h))
      else out == None
  {
    SidesLeave(src.first, tp);
    hide TrimSides, SideLeft, SideTop, SideWidth, SideHeight, Cut;
  }

  /** A side trim in pixels: whole pixels from one on, a fraction of the side below, and never past the side. */
  lemma SidePixelsMean(v: Option<Finite>, dim: nat)
    requires dim < 0x8000_0000
    ensures v.None? ==> SidePixels(v, dim) == 0
    ensures v.Some? && ValueOf(v.value) <= 0.0 ==> SidePixels(v, dim) == 0
    ensures v.Some? && ValueOf(v.value) >= dim as real && dim > 0 ==> SidePixels(v, dim) == dim
    ensures v.Some? && 1.0 <= ValueOf(v.value) <= dim as real ==>
      -0.5 <= SidePixels(v, dim) as real - ValueOf(v.value) <= 0.5
    ensures v.Some? && 0.0 < ValueOf(v.value) < 1.0 ==>
      -0.51 <= SidePixels(v, dim) as real - ValueOf(v.value) * dim as real <= 0.51
  {
    hide FractionOf;
    if v.Some? && ValueOf(v.value) < 1.0 {
      FractionIs(ValueOf(v.value), dim);
    }
  }

  lemma FractionIs(value: real, dim: nat)
    requires value < 1.0 && dim < 0x8000_0000
    ensures value <= 0.0 ==> FractionOf(value, dim) <= 0.0
    ensures 0.0 < value ==>
      FractionOf(value, dim) >= 0.0 && -0.01 <= FractionOf(value, dim) - value * dim as real <= 0.01
  {
    hide Rounded;
    var x := value * dim as real;
    assert FractionOf(value, dim) == Rounded(x);
    FractionSize(value, dim as real);
    RoundedClose(x);
  }

  lemma FractionSize(value: real, dim: real)
    requires value < 1.0 && dim >= 0.0
    ensures value * dim <= dim && (value <= 0.0 ==> value * dim <= 0.0) && (value > 0.0 ==> value * dim >= 0.0)
  {}

  lemma RoundedClose(x: real)
    requires x <= 2147483648.0
    ensures x <= 0.0 ==> Rounded(x) <= 0.0
    ensures x >= 0.0 ==> Rounded(x) >= 0.0 && -0.01 <= Rounded(x) - x <= 0.01
  {
    hide Nearest;
  }

  // ---------------------------------------------------------------------------
  // All stages
  // ---------------------------------------------------------------------------

  /**
    The stages in their order, for a still image: the border window first, the side trims inside it, and the turn
    and mirrors of what is left.
   */
  lemma StillPixel<P>(src: Loaded<P>, tp: TransformParams, findTrim: FindTrim<P>, left: int, top: int, w: int, h: int,
                      x: nat, y: nat)
    requires src.Valid() && tp.frame.None? && tp.trim.Some? && SetsASide(tp)
    requires findTrim(src.first, ValueOf(tp.trim.value)) == Some((left, top, w, h))
    requires 0 <= left && 0 <= top && w > 0 && h > 0 && left + w <= src.first.Width() && top + h <= src.first.Height()
    requires SideLeft(tp, w) < w && SideTop(tp, h) < h
    ensures var out := Prepared(src, tp, false, findTrim);
      && out.Some?
      && (out.value.Width(), out.value.Height()) == TurnedSize(tp.rotate, SideWidth(tp, w), SideHeight(tp, h))
      && (x < out.value.Width() && y < out.value.Height() ==>
            var (sx, sy) := Origin(tp, SideWidth(tp, w), SideHeight(tp, h), x, y);
            && 0 <= left + SideLeft(tp, w) + sx < src.first.Width()
            && 0 <= top + SideTop(tp, h) + sy < src.first.Height()
            && out.value.At(x, y) == src.first.At(left + SideLeft(tp, w) + sx, top + SideTop(tp, h) + sy))
  {
    hide TrimBorder, TrimSides, Turn, Mirror, Origin, SideLeft, SideTop, SideWidth, SideHeight, TurnedSize, InBounds;
    BorderLeaves(src.first, ValueOf(tp.trim.value), findTrim);
    var bordered := TrimBorder(src.first, ValueOf(tp.trim.value), findTrim).value;
    SidesLeave(bordered, tp);
    var sided := TrimSides(bordered, tp).value;
    assert Prepared(src, tp, false, findTrim) == Some(Mirror(Turn(sided, tp.rotate), tp.flip));
    hide Prepared;
    UprightPixel(sided, tp, x, y);
    var out := Mirror(Turn(sided, tp.rotate), tp.flip);
    if x < out.Width() && y < out.Height() {
      var (sx, sy) := Origin(tp, SideWidth(tp, w), SideHeight(tp, h), x, y);
      CutTwice(sided, bordered, src.first, SideLeft(tp, w), SideTop(tp, h), SideWidth(tp, w), SideHeight(tp, h),
               left, top, w, h, sx, sy);
    }
  }

  /** A window of a window. */
  lemma CutTwice<P>(inner: Raster<P>, outer: Raster<P>, img: Raster<P>, l: int, t: int, iw: int, ih: int,
                    left: int, top: int, w: int, h: int, x: nat, y: nat)
    requires img.Valid() && Cut(outer, img, left, top, w, h) && Cut(inner, outer, l, t, iw, ih) && x < iw && y < ih
    ensures 0 <= left + l + x < img.Width() && 0 <= top + t + y < img.Height()
    ensures inner.At(x, y) == img.At(left + l + x, top + t + y)
  {
    hide Raster.At;
    assert inner.At(x, y) == outer.At(l + x, t + y);
    assert outer.At(l + x, t + y) == img.At(left + (l + x), top + (t + y));
  }

  /** Animated output keeps the whole stack, and no trim touches it. */
  lemma StackPixel<P>(src: Loaded<P>, tp: TransformParams, findTrim: FindTrim<P>, x: nat, y: nat)
    requires src.Valid() && tp.frame.None?
    ensures var out := Prepared(src, tp, true, findTrim);
      && out.Some?
      && (out.value.Width(), out.value.Height()) == TurnedSize(tp.rotate, src.stack.Width(), src.stack.Height())
      && (x < out.value.Width() && y < out.value.Height() ==>
            && Within(src.stack, Origin(tp, src.stack.Width(), src.stack.Height(), x, y))
            && var (sx, sy) := Origin(tp, src.stack.Width(), src.stack.Height(), x, y);
               out.value.At(x, y) == src.stack.At(sx, sy))
  {
    UprightPixel(src.stack, tp, x, y);
    hide Turn, Mirror, Origin, TurnedSize;
  }
}
