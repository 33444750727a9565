/** Images as pixel grids, and the grid operations of libvips that the pipeline calls. */
module Rasters {
  import opened Text
  import opened Params

  /** Rows of equal length; the pixels of `rows[y]` run from left to right. */
  datatype Raster<P> = Raster(rows: seq<seq<P>>) {
    predicate Valid() {
      && |rows| > 0 && |rows[0]| > 0
      && forall y :: 0 <= y < |rows| ==> |rows[y]| == |rows[0]|
    }

    function Height(): (h: nat)
      requires Valid()
      ensures h > 0
    {
      |rows|
    }

    function Width(): (w: nat)
      requires Valid()
      ensures w > 0
    {
      |rows[0]|
    }

    function At(x: nat, y: nat): P
      requires Valid() && x < Width() && y < Height()
    {
      rows[y][x]
    }
  }

  /** The raster of a size whose pixels a function gives. */
  function Build<P>(w: nat, h: nat, cell: (nat, nat) --> P): (img: Raster<P>)
    requires w > 0 && h > 0
    requires forall x: nat, y: nat :: x < w && y < h ==> cell.requires(x, y)
    ensures img.Valid() && img.Width() == w && img.Height() == h
    ensures forall x: nat, y: nat :: x < w && y < h ==> img.At(x, y) == cell(x, y)
  {
    Raster(seq(h, y requires 0 <= y < h => seq(w, x requires 0 <= x < w => cell(x, y))))
  }

  lemma SamePixels<P>(a: Raster<P>, b: Raster<P>)
    requires a.Valid() && b.Valid() && a.Width() == b.Width() && a.Height() == b.Height()
    requires forall x: nat, y: nat :: x < a.Width() && y < a.Height() ==> a.At(x, y) == b.At(x, y)
    ensures a == b
  {
    forall y | 0 <= y < |a.rows|
      ensures a.rows[y] == b.rows[y]
    {
      forall x | 0 <= x < |a.rows[y]|
        ensures a.rows[y][x] == b.rows[y][x]
      {
        assert a.At(x, y) == b.At(x, y);
      }
    }
  }

  /** `vips_extract_area`: an error unless the window is not empty and inside the image. */
  predicate InBounds<P>(img: Raster<P>, left: int, top: int, w: int, h: int)
    requires img.Valid()
  {
    left >= 0 && top >= 0 && w > 0 && h > 0 && left + w <= img.Width() && top + h <= img.Height()
  }

  function Window<P>(img: Raster<P>, left: int, top: int, w: int, h: int): (out: Raster<P>)
    requires img.Valid() && InBounds(img, left, top, w, h)
    ensures out.Valid() && out.Width() == w && out.Height() == h
    ensures forall x: nat, y: nat :: x < w && y < h ==> out.At(x, y) == img.At(left + x, top + y)
  {
    Build(w, h, (x: nat, y: nat) requires x < w && y < h => img.At(left + x, top + y))
  }

  function Extract<P>(img: Raster<P>, left: int, top: int, w: int, h: int): (out: Option<Raster<P>>)
    requires img.Valid()
    ensures out.Some? <==> InBounds(img, left, top, w, h)
    ensures out.Some? ==> out.value.Valid()
  {
    if InBounds(img, left, top, w, h) then Some(Window(img, left, top, w, h)) else None
  }

  lemma WholeWindow<P>(img: Raster<P>)
    requires img.Valid()
    ensures Extract(img, 0, 0, img.Width(), img.Height()) == Some(img)
  {
    SamePixels(Window(img, 0, 0, img.Width(), img.Height()), img);
  }

  /** `vips_rot`, clockwise. */
  function Rotate<P>(img: Raster<P>, angle: Rotation): (out: Raster<P>)
    requires img.Valid()
    ensures out.Valid()
    ensures if angle.Deg90? || angle.Deg270? then out.Width() == img.Height() && out.Height() == img.Width()
            else out.Width() == img.Width() && out.Height() == img.Height()
  {
    var w, h := img.Width(), img.Height();
    match angle
    case Deg0 => img
    case Deg90 => Build(h, w, (x: nat, y: nat) requires x < h && y < w => img.At(y, h - 1 - x))
    case Deg180 => Build(w, h, (x: nat, y: nat) requires x < w && y < h => img.At(w - 1 - x, h - 1 - y))
    case Deg270 => Build(h, w, (x: nat, y: nat) requires x < h && y < w => img.At(w - 1 - y, x))
  }

  /** `vips_flip`, left to right. */
  function FlipAcross<P>(img: Raster<P>): (out: Raster<P>)
    requires img.Valid()
    ensures out.Valid() && out.Width() == img.Width() && out.Height() == img.Height()
  {
    var w := img.Width();
    Build(w, img.Height(), (x: nat, y: nat) requires x < w && y < img.Height() => img.At(w - 1 - x, y))
  }

  /** `vips_flip`, top to bottom. */
  function FlipDown<P>(img: Raster<P>): (out: Raster<P>)
    requires img.Valid()
    ensures out.Valid() && out.Width() == img.Width() && out.Height() == img.Height()
  {
    var h := img.Height();
    Build(img.Width(), h, (x: nat, y: nat) requires x < img.Width() && y < h => img.At(x, h - 1 - y))
  }

  function Turn<P>(img: Raster<P>, rotation: Option<Rotation>): (out: Raster<P>)
    requires img.Valid()
    ensures out.Valid()
  {
    if rotation.Some? then Rotate(img, rotation.value) else img
  }

  function Mirror<P>(img: Raster<P>, flip: Option<FlipMode>): (out: Raster<P>)
    requires img.Valid()
    ensures out.Valid() && out.Width() == img.Width() && out.Height() == img.Height()
  {
    match flip
    case None => img
    case Some(H) => FlipAcross(img)
    case Some(V) => FlipDown(img)
    case Some(Hv) => FlipDown(FlipAcross(img))
  }

  /** A half turn and both mirrors cancel. */
  lemma HalfTurnMirrored<P>(img: Raster<P>)
    requires img.Valid()
    ensures Mirror(Turn(img, Some(Deg180)), Some(Hv)) == img
  {
    SamePixels(Mirror(Turn(img, Some(Deg180)), Some(Hv)), img);
  }
}
