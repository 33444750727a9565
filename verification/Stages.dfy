/** The stages before the resize, and when the resize may decode the source bytes again. */
module Stages {
  import opened Text
  import opened Doubles
  import opened Numbers
  import opened Params
  import opened Rasters

  const I32_LIMIT: int := 0x8000_0000

  /** `n as i32` for an unsigned 32-bit number. */
  function ToI32(n: U32): int {
    if n < I32_LIMIT then n else n - U32_LIMIT
  }

  /** What libvips loads: the first frame, all frames stacked, and the page metadata. */
  datatype Loaded<P> = Loaded(first: Raster<P>, stack: Raster<P>, pages: Option<nat>, pageHeight: Option<nat>) {
    predicate Valid() {
      first.Valid() && stack.Valid()
    }

    predicate Animated() {
      pages.Some? && pages.value > 1
    }
  }

  /** The requested frame of a stack; an index past the end takes the last frame. */
  function ExtractFrame<P>(stack: Raster<P>, frame: U32, pages: nat, pageHeight: Option<nat>): (out: Option<Raster<P>>)
    requires stack.Valid()
    ensures out.Some? ==> out.value.Valid()
  {
    var height := if pageHeight.Some? then pageHeight.value else stack.Height();
    var index := if ToI32(frame) >= pages then pages - 1 else ToI32(frame);
    Extract(stack, 0, index * height, stack.Width(), height)
  }

  /** `vips_find_trim`: left, top, width and height of what is not border, or an error. */
  type FindTrim<!P> = (Raster<P>, real) -> Option<(int, int, int, int)>

  function TrimBorder<P>(img: Raster<P>, threshold: real, findTrim: FindTrim<P>): (out: Option<Raster<P>>)
    requires img.Valid()
    ensures out.Some? ==> out.value.Valid()
  {
    match findTrim(img, threshold)
    case None => None
    case Some((left, top, w, h)) => if w > 0 && h > 0 then Extract(img, left, top, w, h) else Some(img)
  }

  function ValueOf(f: Finite): real {
    if f.negative then -f.magnitude else f.magnitude
  }

  /** `round`: halves away from zero. */
  function Round(x: real): int {
    if x < 0.0 then -((-x + 0.5).Floor) else (x + 0.5).Floor
  }

  function Clamp(x: int, low: int, high: int): int {
    if x < low then low else if x > high then high else x
  }

  /** `x as i32` for a whole float. */
  function SaturateI32(x: int): int {
    Clamp(x, -I32_LIMIT, I32_LIMIT - 1)
  }

  function FractionOf(value: real, dim: nat): real {
    Rounded(value * dim as real)
  }

  /** A per-side trim in pixels: below one it is a fraction of the side. */
  function SidePixels(v: Option<Finite>, dim: nat): (n: nat)
    ensures n <= dim
  {
    if v.None? then 0
    else
      var value := ValueOf(v.value);
      Clamp(SaturateI32(Round(if value < 1.0 then FractionOf(value, dim) else value)), 0, dim)
  }

  function AtLeastOne(n: int): int {
    if n < 1 then 1 else n
  }

  function TrimSides<P>(img: Raster<P>, tp: TransformParams): (out: Option<Raster<P>>)
    requires img.Valid()
    ensures out.Some? ==> out.value.Valid()
  {
    var w, h := img.Width(), img.Height();
    var top, left := SidePixels(tp.trimTop, h), SidePixels(tp.trimLeft, w);
    var right, bottom := SidePixels(tp.trimRight, w), SidePixels(tp.trimBottom, h);
    Extract(img, left, top, AtLeastOne(w - left - right), AtLeastOne(h - top - bottom))
  }

  predicate SetsASide(tp: TransformParams) {
    tp.trimTop.Some? || tp.trimRight.Some? || tp.trimBottom.Some? || tp.trimLeft.Some?
  }

  /** The image the resize stage is given; `None` when libvips refuses a stage. */
  function Prepared<P>(src: Loaded<P>, tp: TransformParams, animatedOutput: bool, findTrim: FindTrim<P>)
    : (out: Option<Raster<P>>)
    requires src.Valid()
    ensures out.Some? ==> out.value.Valid()
  {
    var loaded := if animatedOutput then src.stack else src.first;
    var framed :=
      if tp.frame.Some? && src.Animated()
      then ExtractFrame(src.stack, tp.frame.value, src.pages.value, src.pageHeight) else Some(loaded);
    if framed.None? then None
    else
      var bordered :=
        if tp.trim.Some? && !animatedOutput then TrimBorder(framed.value, ValueOf(tp.trim.value), findTrim) else framed;
      if bordered.None? then None
      else
        var trimmed := if !animatedOutput && SetsASide(tp) then TrimSides(bordered.value, tp) else bordered;
        if trimmed.None? then None else Some(Mirror(Turn(trimmed.value, tp.rotate), tp.flip))
  }

  lemma NoTurn<P>(img: Raster<P>)
    requires img.Valid()
    ensures Rotate(img, Deg0) == img
  {}

  /** The stages of `transform` from the frame extract to the flip. */
  method Prepare<P>(src: Loaded<P>, tp: TransformParams, animatedOutput: bool, findTrim: FindTrim<P>)
    returns (out: Option<Raster<P>>)
    requires src.Valid()
    ensures out == Prepared(src, tp, animatedOutput, findTrim)
  {
    hide Extract, TrimSides, TrimBorder, ExtractFrame, Rotate, FlipAcross, FlipDown, Raster.Valid, ValueOf;
    var current := if animatedOutput then src.stack else src.first;
    if tp.frame.Some? && src.Animated() {
      var frame := ExtractFrame(src.stack, tp.frame.value, src.pages.value, src.pageHeight);
      if frame.None? { return None; }
      current := frame.value;
    }
    if tp.trim.Some? && !animatedOutput {
      var bordered := TrimBorder(current, ValueOf(tp.trim.value), findTrim);
      if bordered.None? { return None; }
      current := bordered.value;
    }
    if !animatedOutput && SetsASide(tp) {
      var trimmed := TrimSides(current, tp);
      if trimmed.None? { return None; }
      current := trimmed.value;
    }
    NoTurn(current);
    if tp.rotate.Some? && tp.rotate.value != Deg0 {
      current := Rotate(current, tp.rotate.value);
    }
    if tp.flip.Some? {
      if tp.flip.value.H? || tp.flip.value.Hv? {
        current := FlipAcross(current);
      }
      if tp.flip.value.V? || tp.flip.value.Hv? {
        current := FlipDown(current);
      }
    }
    out := Some(current);
  }

  predicate Removes(v: Option<Finite>) {
    v.Some? && ValueOf(v.value) != 0.0
  }

  predicate TrimsASide(tp: TransformParams) {
    Removes(tp.trimTop) || Removes(tp.trimRight) || Removes(tp.trimBottom) || Removes(tp.trimLeft)
  }

  predicate CropsByContent(tp: TransformParams) {
    (tp.fit.Cover? || tp.fit.Crop? || tp.fit.AspectCrop?) && (tp.gravity.Smart? || tp.gravity.Attention?)
  }

  /** `resize_reads_source`. */
  predicate ResizeReadsSource(tp: TransformParams, animatedOutput: bool) {
    && tp.format != Some(Thumbhash) && !animatedOutput && tp.frame.None? && tp.trim.None? && !TrimsASide(tp)
    && (tp.rotate.None? || tp.rotate.value.Deg0?) && tp.flip.None? && !CropsByContent(tp)
  }

  /** A window from a side trim is inside the image exactly when left and top leave a pixel. */
  lemma SideTrimInBounds<P>(img: Raster<P>, tp: TransformParams)
    requires img.Valid()
    ensures TrimSides(img, tp).Some? <==>
      SidePixels(tp.trimLeft, img.Width()) < img.Width() && SidePixels(tp.trimTop, img.Height()) < img.Height()
  {
    hide SidePixels;
  }

  /** `trim.left=100` on an image 100 wide asks for a window past its right edge, and the transform fails. */
  lemma WholeWidthTrimmed<P>(img: Raster<P>, tp: TransformParams)
    requires img.Valid() && img.Width() == 100 && tp.trimLeft == Some(Whole(100))
    ensures TrimSides(img, tp) == None
  {
    SideTrimInBounds(img, tp);
    assert SidePixels(tp.trimLeft, 100) == 100;
  }

  /** A frame is inside a stack of whole pages exactly when its index is not negative as a signed number. */
  lemma FrameInBounds<P>(stack: Raster<P>, frame: U32, pages: nat, height: nat)
    requires stack.Valid() && pages > 0 && height > 0 && stack.Height() == pages * height
    ensures ExtractFrame(stack, frame, pages, Some(height)).Some? <==> frame < I32_LIMIT
    ensures frame < I32_LIMIT ==>
      var index := if frame >= pages then pages - 1 else frame;
      InBounds(stack, 0, index * height, stack.Width(), height)
      && ExtractFrame(stack, frame, pages, Some(height))
         == Some(Window(stack, 0, index * height, stack.Width(), height))
  {
    hide Window;
    var index := if ToI32(frame) >= pages then pages - 1 else ToI32(frame);
    if index >= 0 {
      assert 0 <= index * height;
      assert (index + 1) * height <= pages * height;
    } else {
      assert index * height < 0;
    }
  }

  lemma NothingRemoved(v: Option<Finite>, dim: nat)
    requires !Removes(v)
    ensures SidePixels(v, dim) == 0
  {}

  /** The gate is sound: where it holds, every stage leaves every image as it is. */
  lemma FastPathSound<P>(src: Loaded<P>, tp: TransformParams, findTrim: FindTrim<P>)
    requires src.Valid() && ResizeReadsSource(tp, false)
    ensures Prepared(src, tp, false, findTrim) == Some(src.first)
  {
    hide SidePixels, Removes;
    var img := src.first;
    NothingRemoved(tp.trimTop, img.Height());
    NothingRemoved(tp.trimLeft, img.Width());
    NothingRemoved(tp.trimRight, img.Width());
    NothingRemoved(tp.trimBottom, img.Height());
    WholeWindow(img);
  }

  /** The gate keeps out what must be decoded at full size: hashes, animations, and crops placed by the content. */
  lemma GateKeepsOut(tp: TransformParams, animatedOutput: bool)
    ensures ResizeReadsSource(tp, animatedOutput) ==>
      && !animatedOutput && tp.format != Some(Thumbhash)
      && !((tp.fit == Cover || tp.fit == Crop || tp.fit == AspectCrop)
           && (tp.gravity == Smart || tp.gravity == Attention))
    ensures var plain := DEFAULTS.(width := tp.width, height := tp.height, fit := tp.fit, format := tp.format);
      !animatedOutput && tp == plain && tp.format != Some(Thumbhash) ==> ResizeReadsSource(tp, animatedOutput)
  {}

  predicate NoTrim(v: Option<Finite>) {
    v.Some? ==> ValueOf(v.value) == 0.0
  }

  /** Options that leave the image as it is do not close the gate: `rotate=0` and side trims of zero. */
  lemma GateIgnoresNoOps(tp: TransformParams, animatedOutput: bool)
    requires tp.rotate == None || tp.rotate == Some(Deg0)
    requires NoTrim(tp.trimTop) && NoTrim(tp.trimRight) && NoTrim(tp.trimBottom) && NoTrim(tp.trimLeft)
    ensures ResizeReadsSource(tp, animatedOutput)
        <==> ResizeReadsSource(tp.(rotate := None, trimTop := None, trimRight := None, trimBottom := None,
                                   trimLeft := None), animatedOutput)
  {
    hide ValueOf;
  }
}
