/** The resize stage: its box, its two decode paths, the pad canvas and the aspect-crop window. */
module Resizing {
  import opened Text
  import opened Bits
  import opened Doubles
  import opened Singles
  import opened Numbers
  import opened Params
  import opened Sizes
  import opened Stages

  datatype SizeMode = DownOnly | UpOnly | Force

  datatype Interest = Centre | Entropy | AttentionPoint

  datatype ThumbOptions = ThumbOptions(height: Option<Side>, crop: Option<Interest>, size: Option<SizeMode>)

  function InterestOf(gravity: Gravity): Interest {
    match gravity
    case Smart => Entropy
    case Attention => AttentionPoint
    case _ => Centre
  }

  /** `build_thumbnail_options`. */
  function OptionsFor(fit: FitMode, gravity: Gravity, height: Option<Side>): ThumbOptions {
    match fit
    case Contain | Pad | Inside => ThumbOptions(height, None, Some(DownOnly))
    case Cover => ThumbOptions(height, Some(InterestOf(gravity)), None)
    case Fill => ThumbOptions(height, None, Some(Force))
    case Outside => ThumbOptions(height, None, Some(UpOnly))
    case Crop | AspectCrop => ThumbOptions(height, Some(InterestOf(gravity)), Some(DownOnly))
  }

  /** What decides a crop window: the content for `smart` and `attention`, each in its own way, else the middle. */
  lemma CropWindows(fit: FitMode, gravity: Gravity, height: Option<Side>)
    ensures var crop := OptionsFor(fit, gravity, height).crop;
      && (crop.Some? <==> fit == Cover || fit == Crop || fit == AspectCrop)
      && (crop.Some? ==> (crop == Some(Entropy) <==> gravity == Smart))
      && (crop.Some? ==> (crop == Some(AttentionPoint) <==> gravity == Attention))
    ensures OptionsFor(fit, gravity, height).height == height
  {}

  /** `full_decode_size`. */
  function FullDecodeSize(oriented: Size, width: Side, opts: ThumbOptions): Option<Size> {
    if opts.crop.Some? || opts.size != Some(DownOnly) || opts.height.None? then None
    else Some(ContainSize(oriented, (width, opts.height.value)))
  }

  /** A decoder's resize, by the size it gives for a width and options. */
  type Thumbnail = (Side, ThumbOptions) -> Size

  /** A forced resize gives exactly the size asked for. */
  ghost predicate Forces(thumb: Thumbnail) {
    forall w: Side, h: Side, crop: Option<Interest> :: crop.None? ==>
      thumb(w, ThumbOptions(Some(h), crop, Some(Force))) == (w, h)
  }

  /** A downward resize of the full decode fits the box as libvips scales. */
  ghost predicate Contains(thumb: Thumbnail, oriented: Size) {
    forall w: Side, h: Side, crop: Option<Interest> :: crop.None? ==>
      thumb(w, ThumbOptions(Some(h), crop, Some(DownOnly))) == ContainSize(oriented, (w, h))
  }

  /** The size that a crop ends at: its box or, when the resize may only shrink, what the image fills of it. */
  function CropSize(oriented: Size, box: Size, size: Option<SizeMode>): Size {
    if size == Some(DownOnly)
    then (if oriented.0 < box.0 then oriented.0 else box.0, if oriented.1 < box.1 then oriented.1 else box.1)
    else box
  }

  /** A crop ends at its box, on every decode of an image of this size. */
  ghost predicate Crops(thumb: Thumbnail, oriented: Size) {
    forall w: Side, h: Side, interest: Interest, size: Option<SizeMode> :: size == None || size == Some(DownOnly) ==>
      thumb(w, ThumbOptions(Some(h), Some(interest), size)) == CropSize(oriented, (w, h), size)
  }

  /** An upward resize never decodes at a reduced size. */
  ghost predicate Grows(full: Thumbnail, reduced: Thumbnail) {
    forall w: Side, h: Side, crop: Option<Interest> :: crop.None? ==>
      full(w, ThumbOptions(Some(h), crop, Some(UpOnly))) == reduced(w, ThumbOptions(Some(h), crop, Some(UpOnly)))
  }

  function Resized(full: Thumbnail, reduced: Option<Thumbnail>, oriented: Option<Size>, width: Side, opts: ThumbOptions)
    : (Size, bool)
  {
    if reduced.None? then (full(width, opts), false)
    else
      var first := reduced.value(width, opts);
      var wanted := if oriented.Some? then FullDecodeSize(oriented.value, width, opts) else None;
      if wanted.Some? && first != wanted.value
      then (reduced.value(wanted.value.0, opts.(height := Some(wanted.value.1), size := Some(Force))), true)
      else (first, true)
  }

  /**
   * `resize`: `reduced` is the decode of the source bytes, when the gate allows one. A contain request ends at the
   * size of the full decode, and a fill or crop request at its box, whether or not there is a reduced decode, and
   * whatever size that decode gives at first.
   */
  method Resize(full: Thumbnail, reduced: Option<Thumbnail>, oriented: Option<Size>, width: Side, opts: ThumbOptions)
    returns (size: Size, atReducedSize: bool)
    ensures (size, atReducedSize) == Resized(full, reduced, oriented, width, opts)
    ensures atReducedSize == reduced.Some?
    ensures
      && oriented.Some? && opts.height.Some? && opts.crop.None? && opts.size == Some(DownOnly)
      && Contains(full, oriented.value) && (reduced.Some? ==> Forces(reduced.value))
      ==> size == ContainSize(oriented.value, (width, opts.height.value))
    ensures
      && opts.height.Some? && opts.crop.None? && opts.size == Some(Force)
      && Forces(full) && (reduced.Some? ==> Forces(reduced.value))
      ==> size == (width, opts.height.value)
    ensures
      && oriented.Some? && opts.height.Some? && opts.crop.Some? && (opts.size == None || opts.size == Some(DownOnly))
      && Crops(if reduced.Some? then reduced.value else full, oriented.value)
      ==> size == CropSize(oriented.value, (width, opts.height.value), opts.size)
  {
    hide ContainSize;
    if reduced.None? {
      size := full(width, opts);
      atReducedSize := false;
    } else {
      size := reduced.value(width, opts);
      if oriented.Some? {
        var wanted := FullDecodeSize(oriented.value, width, opts);
        if wanted.Some? && size != wanted.value {
          size := reduced.value(wanted.value.0, opts.(height := Some(wanted.value.1), size := Some(Force)));
        }
      }
      atReducedSize := true;
    }
  }

  /**
   * Both decode paths end at the same size, for every fit. A contain request does whatever size the first reduced
   * decode gives.
   */
  lemma SizeSameOnBothPaths(full: Thumbnail, reduced: Thumbnail, oriented: Size, fit: FitMode, gravity: Gravity,
                            w: Side, h: Side)
    requires Forces(reduced) && Forces(full) && Contains(full, oriented)
    requires Crops(full, oriented) && Crops(reduced, oriented) && Grows(full, reduced)
    ensures var opts := OptionsFor(fit, gravity, Some(h));
      Resized(full, Some(reduced), Some(oriented), w, opts).0 == Resized(full, None, Some(oriented), w, opts).0
    ensures var opts := OptionsFor(fit, gravity, Some(h));
      && ((fit.Contain? || fit.Inside? || fit.Pad?) ==>
            Resized(full, None, Some(oriented), w, opts).0 == ContainSize(oriented, (w, h)))
      && ((fit.Fill? || fit.Cover?) ==> Resized(full, None, Some(oriented), w, opts).0 == (w, h))
      && ((fit.Crop? || fit.AspectCrop?) ==>
            Resized(full, None, Some(oriented), w, opts).0 == CropSize(oriented, (w, h), Some(DownOnly)))
  {
    hide ContainSize;
    var opts := OptionsFor(fit, gravity, Some(h));
    var size := ContainSize(oriented, (w, h));
    if fit.Contain? || fit.Inside? || fit.Pad? {
      assert full(w, opts) == size;
      assert reduced(size.0, ThumbOptions(Some(size.1), None, Some(Force))) == size;
    } else if fit.Fill? {
      assert full(w, opts) == (w, h) && reduced(w, opts) == (w, h);
    } else if !fit.Outside? {
      var crop := ThumbOptions(Some(h), Some(InterestOf(gravity)), opts.size);
      assert full(w, crop) == CropSize(oriented, (w, h), opts.size);
      assert reduced(w, crop) == CropSize(oriented, (w, h), opts.size);
    } else {
      assert full(w, opts) == reduced(w, opts);
    }
  }

  // ---------------------------------------------------------------------------
  // The box, and when it gives a side that was asked for alone
  // ---------------------------------------------------------------------------

  /** A whole number of pixels between one and the largest side. */
  function InBox(n: int): (side: Side) {
    Clamp(n, 1, MAX_TARGET)
  }

  /** A side scaled by the rounded ratio of two others. */
  function Scaled(side: Side, num: Side, den: Side): (x: real)
    ensures x > 0.0
  {
    Nearest(Product(side as real, Divided(num, den)))
  }

  function ExactScaled(side: Side, num: Side, den: Side): (x: real)
    ensures x > 0.0
  {
    Ratio(num as real, den as real);
    Product(side as real, num as real / den as real)
  }

  /** The box width: the width asked for, or the height scaled by the aspect ratio and cut to whole pixels. */
  function BoxWidth(w: Option<Side>, h: Option<Side>, oriented: Size): Side
    requires w.Some? || h.Some?
  {
    if w.Some? then w.value else CutToBox(Scaled(h.value, oriented.0, oriented.1))
  }

  /** `(x.min(8192.0) as i32).max(1)`. */
  function CutToBox(x: real): Side {
    InBox(Min(x, MAX_TARGET as real).Floor)
  }

  /** The box height: the height asked for, or the width scaled and rounded, for the fits without a target box. */
  function BoxHeight(w: Option<Side>, h: Option<Side>, fit: FitMode, oriented: Size): Option<Side>
    requires w.Some? || h.Some?
  {
    if h.None? && !(fit.Cover? || fit.Fill? || fit.Crop? || fit.AspectCrop?)
    then Some(CutToBox(Round(Scaled(BoxWidth(w, h, oriented), oriented.1, oriented.0)) as real))
    else h
  }

  /** A side asked for is the side of the box; a missing height stays missing exactly for the fits with a target box. */
  lemma SidesOfBox(w: Option<Side>, h: Option<Side>, fit: FitMode, oriented: Size)
    requires w.Some? || h.Some?
    ensures w.Some? ==> BoxWidth(w, h, oriented) == w.value
    ensures h.Some? ==> BoxHeight(w, h, fit, oriented) == h
    ensures h.None? ==>
      (BoxHeight(w, h, fit, oriented) == None <==> fit in {Cover, Fill, Crop, AspectCrop})
    ensures h.None? && fit !in {Cover, Fill, Crop, AspectCrop} ==>
      BoxHeight(w, h, fit, oriented) == BoxHeight(w, h, Contain, oriented)
  {}

  /** The size a contain request ends at. */
  function ContainedSize(w: Option<Side>, h: Option<Side>, oriented: Size): (size: Size)
    requires w.Some? || h.Some?
    ensures w.Some? ==> size.0 <= w.value
    ensures h.Some? ==> size.1 <= h.value
  {
    hide ContainSize, CutToBox, Scaled;
    ContainSize(oriented, (BoxWidth(w, h, oriented), BoxHeight(w, h, Contain, oriented).value))
  }

  /** Where the resized image is embedded: offsets and canvas, or `None` for no embed. */
  function PadCanvas(size: Size, w: Option<Side>, h: Option<Side>): Option<(int, int, int, int)> {
    var targetW, targetH := if w.Some? then w.value else size.0, if h.Some? then h.value else size.1;
    if size.0 < targetW || size.1 < targetH
    then Some(((targetW - size.0) / 2, (targetH - size.1) / 2, targetW, targetH))
    else None
  }

  /** The output size of `fit=pad`. */
  function PaddedSize(size: Size, w: Option<Side>, h: Option<Side>): (int, int) {
    match PadCanvas(size, w, h)
    case Some((x, y, canvasW, canvasH)) => (canvasW, canvasH)
    case None => size
  }

  /** Pad lands exactly on every side asked for, with the image whole, inside the canvas and centred. */
  lemma PadLandsOnTarget(w: Option<Side>, h: Option<Side>, oriented: Size)
    requires w.Some? || h.Some?
    ensures var size := ContainedSize(w, h, oriented);
      PaddedSize(size, w, h) == (if w.Some? then w.value else size.0, if h.Some? then h.value else size.1)
    ensures var size := ContainedSize(w, h, oriented);
      match PadCanvas(size, w, h)
      case None => true
      case Some((x, y, canvasW, canvasH)) =>
        && 0 <= x && 0 <= y && x + size.0 <= canvasW && y + size.1 <= canvasH
        && 0 <= canvasW - size.0 - 2 * x <= 1 && 0 <= canvasH - size.1 - 2 * y <= 1
  {
    hide ContainedSize;
  }

  /** Comparing two ratios is comparing their cross products. */
  lemma CrossCompare(a: real, b: real, c: real, d: real)
    requires b > 0.0 && d > 0.0
    ensures a / b <= c / d <==> a * d <= c * b
  {
    var x, y := a / b, c / d;
    assert x * b == a && y * d == c;
    assert a * d == x * (b * d) && c * b == y * (b * d);
    if x <= y {
      assert (y - x) * (b * d) >= 0.0;
    } else {
      assert (x - y) * (b * d) > 0.0;
    }
  }

  /** The exact quotient of the width: by which side sets the factor, and whether it is clamped. */
  predicate WidthRule(q: real, sw: real, sh: real, rw: real, rh: real) {
    if sh * rw <= sw * rh then q == rw else if sh <= sw * rh then q * sh == sw * rh else q == 1.0
  }

  /** The width sets the factor: the quotient is the width asked for. */
  lemma WideFactor(sw: real, sh: real, rw: real, rh: real)
    requires 1.0 <= rw <= sw && sh > 0.0 && rh > 0.0 && sh * rw <= sw * rh
    ensures Max(Max(sw / rw, sh / rh), 1.0) == sw / rw && 1.0 <= sw / rw <= sw && sw / (sw / rw) == rw
  {
    CrossCompare(sh, rh, sw, rw);
    DivideAtLeast(sw, rw, 1.0);
    DivideAtMost(sw, rw, sw);
    DivideTwice(sw, rw);
  }

  lemma DivideTwice(a: real, b: real)
    requires a > 0.0 && b > 0.0
    ensures a / b > 0.0 && a / (a / b) == b
  {
    var x := a / b;
    assert x * b == a;
    DivideAtMost(a, x, b);
    DivideAtLeast(a, x, b);
  }

  /** The height sets the factor, clamped to one pixel when it exceeds the source width. */
  lemma TallFactor(sw: real, sh: real, rw: real, rh: real)
    requires 1.0 <= rw <= sw && sh > 0.0 && rh > 0.0 && sh * rw > sw * rh
    ensures Max(Max(sw / rw, sh / rh), 1.0) == sh / rh
    ensures sh / rh <= sw <==> sh <= sw * rh
    ensures sw / (sh / rh) * sh == sw * rh
  {
    CrossCompare(sh, rh, sw, rw);
    DivideAtLeast(sw, rw, 1.0);
    CrossCompare(sh, rh, sw, 1.0);
    TallQuotient(sw, sh, rh);
  }

  lemma TallQuotient(sw: real, sh: real, rh: real)
    requires sw > 0.0 && sh > 0.0 && rh > 0.0
    ensures sw / (sh / rh) * sh == sw * rh
  {
    var y := sh / rh;
    assert y * rh == sh && y > 0.0;
    var q := sw / y;
    assert q * y == sw;
    assert q * (y * rh) == q * y * rh;
  }

  lemma WidthRuleHolds(sw: real, sh: real, rw: real, rh: real)
    requires 1.0 <= rw <= sw && sh > 0.0 && rh > 0.0
    ensures var factor := Min(Max(Max(sw / rw, sh / rh), 1.0), sw);
      factor > 0.0 && WidthRule(sw / factor, sw, sh, rw, rh)
    ensures sh * rw > sw * rh ==> Max(Max(sw / rw, sh / rh), 1.0) == sh / rh
  {
    hide Max;
    if sh * rw <= sw * rh {
      WideFactor(sw, sh, rw, rh);
    } else {
      TallFactor(sw, sh, rw, rh);
      Ratio(sw, sw);
    }
  }

  lemma WidthQuotient(source: Size, w: Side, h: Side)
    requires w <= source.0
    ensures var sw, sh, rw, rh := source.0 as real, source.1 as real, w as real, h as real;
      && WidthRule(ExactQuotient(source.0, ExactShrink(source, (w, h))), sw, sh, rw, rh)
      && (sh * rw > sw * rh ==> ExactShrink(source, (w, h)) == sh / rh)
  {
    hide Max, Min, WidthRule;
    WidthRuleHolds(source.0 as real, source.1 as real, w as real, h as real);
  }

  /** Where the exact quotient is half a pixel short of `w`, rounding decides. */
  predicate TieUp(source: Size, w: Side, h: Side) {
    var shrink := Divided(source.1, h);
    shrink >= 1.0 && Nearest(RoundedQuotient(source.0, shrink) + 0.5) >= w as real
  }

  lemma Crossed(a: int, b: int)
    ensures (a * b) as real == a as real * b as real
  {}

  /** When a box still gives its full width. */
  lemma WidthReached(source: Size, w: Side, h: Side)
    requires w <= MAX_TARGET
    ensures ContainSize(source, (w, h)).0 == w <==>
      && w <= source.0
      && (w == 1 || 2 * (source.0 * h) > (2 * w - 1) * source.1
          || (2 * (source.0 * h) == (2 * w - 1) * source.1 && TieUp(source, w, h)))
  {
    hide ReducedSide, ShrinkFor, ExactShrink, ExactQuotient, Nearest, Divided, TieUp, WidthRule;
    if w <= source.0 {
      var exact := ExactShrink(source, (w, h));
      ShrinkIsNearest(source, (w, h));
      assert ContainSize(source, (w, h)).0 == ReducedSide(source.0, Nearest(exact));
      WidthQuotient(source, w, h);
      InReals(source, w, h);
      if source.1 * w <= source.0 * h {
        WidthSetsFactor(source, w, h, exact);
      } else if source.1 <= source.0 * h {
        HeightSetsFactor(source, w, h, exact);
      } else {
        HeightClamps(source, w, h, exact);
      }
    }
  }

  lemma InReals(source: Size, w: Side, h: Side)
    ensures source.1 as real * w as real <= source.0 as real * h as real <==> source.1 * w <= source.0 * h
    ensures source.1 as real <= source.0 as real * h as real <==> source.1 <= source.0 * h
    ensures (source.0 * h) as real == source.0 as real * h as real
  {
    Crossed(source.1, w);
    Crossed(source.0, h);
  }

  lemma WidthSetsFactor(source: Size, w: Side, h: Side, exact: real)
    requires exact >= 1.0 && source.1 * w <= source.0 * h
    requires WidthRule(ExactQuotient(source.0, exact), source.0 as real, source.1 as real, w as real, h as real)
    ensures Nearest(exact) >= 1.0 && ReducedSide(source.0, Nearest(exact)) == w
    ensures 2 * (source.0 * h) > (2 * w - 1) * source.1
  {
    hide ReducedSide, ExactQuotient, Nearest;
    InReals(source, w, h);
    WholeSide(source.0, exact, w);
    assert (2 * w - 1) * source.1 == 2 * (source.1 * w) - source.1;
  }

  lemma HeightSetsFactor(source: Size, w: Side, h: Side, exact: real)
    requires exact >= 1.0 && source.1 * w > source.0 * h && source.1 <= source.0 * h && w <= MAX_TARGET
    requires WidthRule(ExactQuotient(source.0, exact), source.0 as real, source.1 as real, w as real, h as real)
    requires exact == source.1 as real / h as real
    ensures Nearest(exact) >= 1.0
    ensures ReducedSide(source.0, Nearest(exact)) >= w <==>
      || w == 1 || 2 * (source.0 * h) > (2 * w - 1) * source.1
      || (2 * (source.0 * h) == (2 * w - 1) * source.1 && TieUp(source, w, h))
  {
    hide ExactQuotient, Nearest, ReducedSide, TieUp;
    SideBounds(source.0, exact);
    ProductOf(source, w, h, ExactQuotient(source.0, exact));
    SideDecided(source.0, exact, source.0 * h, source.1, w);
    TieDecides(source, w, h);
    assert Divided(source.1, h) == Nearest(exact);
  }

  lemma ProductOf(source: Size, w: Side, h: Side, q: real)
    requires WidthRule(q, source.0 as real, source.1 as real, w as real, h as real)
    requires source.1 * w > source.0 * h && source.1 <= source.0 * h
    ensures q * source.1 as real == (source.0 * h) as real
  {
    InReals(source, w, h);
  }

  lemma TieDecides(source: Size, w: Side, h: Side)
    ensures var shrink := Divided(source.1, h);
      shrink >= 1.0 ==> (ReducedSide(source.0, shrink) >= w <==> TieUp(source, w, h))
  {
    hide Nearest, RoundedQuotient, Divided;
  }

  lemma ClampsTo(source: Size, w: Side, h: Side, q: real)
    requires WidthRule(q, source.0 as real, source.1 as real, w as real, h as real)
    requires source.1 * w > source.0 * h && source.1 > source.0 * h
    ensures q == 1.0
  {
    InReals(source, w, h);
  }

  lemma HeightClamps(source: Size, w: Side, h: Side, exact: real)
    requires exact >= 1.0 && source.1 * w > source.0 * h && source.1 > source.0 * h
    requires WidthRule(ExactQuotient(source.0, exact), source.0 as real, source.1 as real, w as real, h as real)
    ensures Nearest(exact) >= 1.0 && ReducedSide(source.0, Nearest(exact)) == 1
    ensures w > 1 ==> 2 * (source.0 * h) < (2 * w - 1) * source.1
  {
    hide ReducedSide, ExactQuotient, Nearest, WidthRule;
    ClampsTo(source, w, h, ExactQuotient(source.0, exact));
    WholeSide(source.0, exact, 1);
    if w > 1 { Triple(w, source.1); }
  }

  lemma Triple(w: nat, sh: nat)
    requires w > 1
    ensures (2 * w - 1) * sh >= 3 * sh
  {}

  // ---------------------------------------------------------------------------
  // The derived side
  // ---------------------------------------------------------------------------

  /** A scaled side carries two roundings. */
  lemma ScaledOff(side: Side, num: Side, den: Side)
    ensures Off(Scaled(side, num, den), ExactScaled(side, num, den), 4.0 * EPSILON)
  {
    hide Nearest, Off, Product;
    var ratio, s := num as real / den as real, side as real;
    Ratio(num as real, den as real);
    NearestIsOff(ratio);
    OffScaled(Divided(num, den), ratio, EPSILON, s);
    var y := Product(s, Divided(num, den));
    NearestIsOff(y);
    OffTwice(Nearest(y), y, ExactScaled(side, num, den), EPSILON, EPSILON, 4.0 * EPSILON);
  }

  lemma ExactScaledIs(side: Side, num: Side, den: Side)
    ensures ExactScaled(side, num, den) * den as real == (side * num) as real
  {
    Crossed(side, num);
    Regroup(side as real, num as real, den as real);
  }

  lemma Regroup(s: real, num: real, den: real)
    requires den > 0.0
    ensures s * (num / den) * den == s * num
  {
    assert num / den * den == num;
  }

  /** Cutting a value close to `num / den`: only a whole quotient can be missed, and then by one. */
  lemma CutDecided(d: real, num: nat, den: int, x: real)
    requires 0 < den <= 2 * I32_LIMIT && x * den as real == num as real
    requires -1.0 / 8589934592.0 <= d - x <= 1.0 / 8589934592.0
    ensures d.Floor == if num % den != 0 || d >= (num / den) as real then num / den else num / den - 1
  {
    var n, rest := num / den, num % den;
    assert num == n * den + rest;
    Crossed(n, den);
    assert (x - n as real) * den as real == rest as real;
    Apart(x - n as real, den, rest);
  }

  lemma Apart(x: real, den: int, rest: int)
    requires 0 < den <= 2 * I32_LIMIT && 0 <= rest < den && x * den as real == rest as real
    ensures if rest == 0 then x == 0.0 else 1.0 / 4294967296.0 <= x <= 1.0 - 1.0 / 4294967296.0
  {
    var d, u := den as real, 1.0 / 4294967296.0;
    if rest > 0 {
      Times(d, 4294967296.0, u);
      DivideAtLeast(rest as real, d, u);
      Times(u, 1.0, d);
      DivideAtMost(rest as real, d, 1.0 - u);
      assert rest as real / d == x;
    }
  }

  /** `x.min(8192.0) as i32).max(1)` from the whole part. */
  lemma CutIs(x: real)
    requires x > 0.0
    ensures CutToBox(x) == InBox(x.Floor)
  {}

  /**
   * The width derived from a height: the exact quotient cut to whole pixels. Where the quotient is whole already,
   * rounding can take one pixel off.
   */
  lemma DerivedWidth(h: Side, oriented: Size)
    requires h <= MAX_TARGET
    ensures var num := h * oriented.0;
      var kept := num % oriented.1 != 0 || Scaled(h, oriented.0, oriented.1) >= (num / oriented.1) as real;
      BoxWidth(None, Some(h), oriented) == InBox(if kept then num / oriented.1 else num / oriented.1 - 1)
  {
    hide Scaled, ExactScaled, Off, InBox, CutToBox;
    var num, x, d := h * oriented.0, ExactScaled(h, oriented.0, oriented.1), Scaled(h, oriented.0, oriented.1);
    ScaledOff(h, oriented.0, oriented.1);
    ExactScaledIs(h, oriented.0, oriented.1);
    CutIs(d);
    if x < 16384.0 {
      CloseBy(d, x);
      CutDecided(d, num, oriented.1, x);
    } else {
      FarAbove(d, x);
      WholePart(num, oriented.1, x, 16384);
      BothFull(d.Floor, num / oriented.1);
    }
  }

  lemma BothFull(m: int, n: int)
    requires m > MAX_TARGET && n > MAX_TARGET
    ensures InBox(m) == InBox(n) == InBox(n - 1)
  {}

  lemma CloseBy(d: real, x: real)
    requires 0.0 < x < 16384.0 && Off(d, x, 4.0 * EPSILON)
    ensures -1.0 / 8589934592.0 <= d - x <= 1.0 / 8589934592.0
  {}

  lemma FarAbove(d: real, x: real)
    requires x >= 16384.0 && Off(d, x, 4.0 * EPSILON)
    ensures d >= 16383.0
  {}

  lemma WholePart(num: nat, den: int, x: real, n: int)
    requires den > 0 && x * den as real == num as real && x >= n as real
    ensures num / den >= n
  {
    Crossed(n, den);
    Times(n as real, x, den as real);
    Quotients(num, den, n);
  }

  lemma Quotients(num: nat, den: int, n: int)
    requires den > 0 && n * den <= num
    ensures num / den >= n
  {
    var q := num / den;
    assert num < (q + 1) * den;
    assert q + 1 <= n ==> (q + 1) * den <= n * den;
  }

  /**
   * The height derived from a width: the exact quotient rounded to whole pixels. Where the quotient is an exact
   * half, rounding decides.
   */
  lemma DerivedHeight(w: Side, oriented: Size)
    requires w <= MAX_TARGET
    ensures var num, den := 2 * (w * oriented.1) + oriented.0, 2 * oriented.0;
      var kept := num % den != 0 || Scaled(w, oriented.1, oriented.0) + 0.5 >= (num / den) as real;
      BoxHeight(Some(w), None, Contain, oriented) == Some(InBox(if kept then num / den else num / den - 1))
  {
    hide Scaled, ExactScaled, Off, InBox, CutToBox, Round;
    var num, den := 2 * (w * oriented.1) + oriented.0, 2 * oriented.0;
    var x, d := ExactScaled(w, oriented.1, oriented.0), Scaled(w, oriented.1, oriented.0);
    ScaledOff(w, oriented.1, oriented.0);
    ExactScaledIs(w, oriented.1, oriented.0);
    HalfMore(x, oriented.0, w * oriented.1);
    RoundedCut(d);
    if x < 16384.0 {
      CloseBy(d, x);
      CutDecided(d + 0.5, num, den, x + 0.5);
    } else {
      FarAbove(d, x);
      WholePart(num, den, x + 0.5, 16384);
      BothFull((d + 0.5).Floor, num / den);
    }
  }

  lemma HalfMore(x: real, den: Side, num: nat)
    requires x * den as real == num as real
    ensures (x + 0.5) * (2 * den) as real == (2 * num + den) as real
  {
    assert (2 * den) as real == 2.0 * den as real;
  }

  lemma RoundedCut(x: real)
    requires x > 0.0
    ensures CutToBox(Round(x) as real) == InBox((x + 0.5).Floor)
  {}

  /**
   * A height alone is missed often, because the derived width is cut to whole pixels. The height is reached exactly
   * when the image is that high and the cut width leaves room for it to within half a pixel; rounding decides only
   * where the room is exactly half a pixel short.
   */
  lemma HeightAloneReached(h: Side, oriented: Size)
    requires h <= MAX_TARGET
    ensures var w, turned := BoxWidth(None, Some(h), oriented), (oriented.1, oriented.0);
      ContainedSize(None, Some(h), oriented).1 == h <==>
        && h <= oriented.1
        && (h == 1 || 2 * (oriented.1 * w) > (2 * h - 1) * oriented.0
            || (2 * (oriented.1 * w) == (2 * h - 1) * oriented.0 && TieUp(turned, h, w)))
  {
    hide ContainSize, CutToBox, Scaled, TieUp;
    var w := BoxWidth(None, Some(h), oriented);
    ContainTurned(oriented, (w, h));
    WidthReached((oriented.1, oriented.0), h, w);
  }

  /** A width alone, likewise: the derived height is rounded to whole pixels, and one rounded down can be too tight. */
  lemma WidthAloneReached(w: Side, oriented: Size)
    requires w <= MAX_TARGET
    ensures var h := BoxHeight(Some(w), None, Contain, oriented).value;
      ContainedSize(Some(w), None, oriented).0 == w <==>
        && w <= oriented.0
        && (w == 1 || 2 * (oriented.0 * h) > (2 * w - 1) * oriented.1
            || (2 * (oriented.0 * h) == (2 * w - 1) * oriented.1 && TieUp(oriented, w, h)))
  {
    hide ContainSize, CutToBox, Scaled, TieUp;
    WidthReached(oriented, w, BoxHeight(Some(w), None, Contain, oriented).value);
  }

  /**
   * The condition on the request and the image alone, where no rounding can matter: the exact width is not whole,
   * and the room is not exactly half a pixel short.
   */
  lemma HeightAloneClosed(h: Side, oriented: Size)
    requires h <= MAX_TARGET && h * oriented.0 % oriented.1 != 0
    requires 2 * (oriented.1 * InBox(h * oriented.0 / oriented.1)) != (2 * h - 1) * oriented.0
    ensures ContainedSize(None, Some(h), oriented).1 == h <==>
      && h <= oriented.1
      && (h == 1 || 2 * (oriented.1 * InBox(h * oriented.0 / oriented.1)) > (2 * h - 1) * oriented.0)
  {
    hide ContainedSize, BoxWidth, TieUp, InBox;
    DerivedWidth(h, oriented);
    HeightAloneReached(h, oriented);
  }

  lemma WidthAloneClosed(w: Side, oriented: Size)
    requires w <= MAX_TARGET && (2 * (w * oriented.1) + oriented.0) % (2 * oriented.0) != 0
    requires 2 * (oriented.0 * InBox((2 * (w * oriented.1) + oriented.0) / (2 * oriented.0)))
          != (2 * w - 1) * oriented.1
    ensures ContainedSize(Some(w), None, oriented).0 == w <==>
      && w <= oriented.0
      && (w == 1
          || 2 * (oriented.0 * InBox((2 * (w * oriented.1) + oriented.0) / (2 * oriented.0)))
             > (2 * w - 1) * oriented.1)
  {
    hide ContainedSize, BoxHeight, TieUp, InBox;
    DerivedHeight(w, oriented);
    WidthAloneReached(w, oriented);
  }

  /** A whole derived width that rounding keeps always gives the height, on an image that high. */
  lemma HeightAloneWhole(h: Side, oriented: Size)
    requires h <= MAX_TARGET && h * oriented.0 % oriented.1 == 0 && h * oriented.0 / oriented.1 <= MAX_TARGET
    requires Scaled(h, oriented.0, oriented.1) >= (h * oriented.0 / oriented.1) as real
    ensures ContainedSize(None, Some(h), oriented).1 == h <==> h <= oriented.1
  {
    hide ContainedSize, BoxWidth, TieUp, Scaled;
    DerivedWidth(h, oriented);
    HeightAloneReached(h, oriented);
    var n := h * oriented.0 / oriented.1;
    WholeQuotient(h * oriented.0, oriented.1);
    assert (2 * h - 1) * oriented.0 == 2 * (h * oriented.0) - oriented.0;
    assert n > 0;
  }

  lemma WholeQuotient(num: nat, den: nat)
    requires den > 0 && num > 0 && num % den == 0
    ensures num / den > 0 && den * (num / den) == num
  {}

  // ---------------------------------------------------------------------------
  // Requests that miss their side
  // ---------------------------------------------------------------------------

  /** The size of a box whose height is the tighter side, where the width is not half a pixel short. */
  lemma SizeByHeight(source: Size, target: Size, n: Side)
    requires source.1 > target.1 && target.0 <= source.0 && n < MAX_TARGET
    requires source.1 * target.0 > source.0 * target.1 && source.1 <= source.0 * target.1
    requires (2 * n - 1) * source.1 < 2 * (source.0 * target.1) < (2 * n + 1) * source.1
    ensures ContainSize(source, target) == (n, target.1)
  {
    hide ReducedSide, ShrinkFor, ExactShrink, ExactQuotient, Nearest, Divided, WidthRule;
    var exact := ExactShrink(source, target);
    ShrinkIsNearest(source, target);
    InReals(source, target.0, target.1);
    WidthQuotient(source, target.0, target.1);
    ProductOf(source, target.0, target.1, ExactQuotient(source.0, exact));
    SideDecided(source.0, exact, source.0 * target.1, source.1, n);
    SideDecided(source.0, exact, source.0 * target.1, source.1, n + 1);
    SideReaches(source.1, target.1);
    WholeSide(source.1, exact, target.1);
  }

  /** A 100 by 3 image asked for a width of 48 comes out 33 wide. */
  lemma WidthAloneLost()
    ensures ContainedSize(Some(48), None, (100, 3)) == (33, 1)
  {
    hide ContainSize, BoxHeight;
    DerivedHeight(48, (100, 3));
    SizeByHeight((100, 3), (48, 1), 33);
  }

  /** A 1080 by 1920 image asked for a height of 200 comes out 199 high. */
  lemma HeightAloneLost()
    ensures ContainedSize(None, Some(200), (1080, 1920)) == (112, 199)
  {
    hide ContainSize, BoxWidth;
    DerivedWidth(200, (1080, 1920));
    SizeByHeight((1920, 1080), (200, 112), 199);
    ContainTurned((1080, 1920), (112, 200));
  }

  /**
   * Rounding takes the whole width 29 of a 29 by 50 image down to 28, so that asking for its own height of 50 gives
   * 48: the ratio is 5224175567749775 / 2^53, and 50 times it rounds to 29 - 2^-48.
   */
  lemma OwnHeightLost()
    ensures ContainedSize(None, Some(50), (29, 50)) == (28, 48)
  {
    hide ContainSize, BoxWidth, Nearest, Pow2, RoundHalfEven;
    LargePowers();
    ScaledHeight();
    DerivedWidth(50, (29, 50));
    SizeByHeight((50, 29), (50, 28), 48);
    ContainTurned((29, 50), (28, 50));
  }

  lemma ScaledHeight()
    ensures 281474976710656.0 * Scaled(50, 29, 50) == 8162774324609023.0
  {
    hide Nearest, Pow2;
    LargePowers();
    NearestIs(29.0 / 50.0, 53, 5224175567749775);
    NearestIs(Product(50.0, Divided(29, 50)), 48, 8162774324609023);
  }

  /** Likewise 7.5 is taken below a half: a 22 by 15 image asked for a width of 11 comes out 10 by 7. */
  lemma HalfWidthLost()
    ensures ContainedSize(Some(11), None, (22, 15)) == (10, 7)
  {
    hide ContainSize, BoxHeight, Nearest, Pow2, RoundHalfEven;
    LargePowers();
    ScaledWidth();
    DerivedHeight(11, (22, 15));
    SizeByHeight((22, 15), (11, 7), 10);
  }

  lemma ScaledWidth()
    ensures 1125899906842624.0 * Scaled(11, 15, 22) == 8444249301319679.0
  {
    hide Nearest, Pow2;
    LargePowers();
    NearestIs(15.0 / 22.0, 53, 6141272219141585);
    NearestIs(Product(11.0, Divided(15, 22)), 50, 8444249301319679);
  }

  // ---------------------------------------------------------------------------
  // The direct crop of aspect-crop
  // ---------------------------------------------------------------------------

  /** Whether the crop cuts the width, the side it cuts, and the exact length of that side. */
  predicate CutsWidth(oriented: Size, target: Size) {
    Divided(oriented.0, oriented.1) > Divided(target.0, target.1)
  }

  function CutSide(oriented: Size, target: Size): (cut: real)
    ensures cut > 0.0
  {
    if CutsWidth(oriented, target) then Scaled(oriented.1, target.0, target.1)
    else
      Ratio(oriented.0 as real, Divided(target.0, target.1));
      Nearest(oriented.0 as real / Divided(target.0, target.1))
  }

  function ExactCut(oriented: Size, target: Size): (cut: real)
    ensures cut > 0.0
  {
    if CutsWidth(oriented, target) then ExactScaled(oriented.1, target.0, target.1)
    else
      Ratio(target.0 as real, target.1 as real);
      Ratio(oriented.0 as real, target.0 as real / target.1 as real);
      oriented.0 as real / (target.0 as real / target.1 as real)
  }

  /** The direct crop: left, top, width and height. */
  function AspectWindow(oriented: Size, target: Size): (int, int, int, int) {
    var cut := Round(CutSide(oriented, target));
    var w := if CutsWidth(oriented, target) then AtLeastOne(AtMost(cut, oriented.0)) else oriented.0;
    var h := if CutsWidth(oriented, target) then oriented.1 else AtLeastOne(AtMost(cut, oriented.1));
    ((oriented.0 - w) / 2, (oriented.1 - h) / 2, w, h)
  }

  function AtMost(n: int, high: int): int {
    if high < n then high else n
  }

  /** Half a pixel, and what rounding can add to it. */
  const HALF: real := 0.5 + 1.0 / 65536.0

  predicate Close(n: int, x: real) {
    n as real - HALF <= x <= n as real + HALF
  }

  lemma CutOff(oriented: Size, target: Size)
    ensures Off(CutSide(oriented, target), ExactCut(oriented, target), 4.0 * EPSILON)
  {
    hide Nearest, Off, Scaled, ExactScaled;
    if CutsWidth(oriented, target) {
      ScaledOff(oriented.1, target.0, target.1);
    } else {
      var ratio := target.0 as real / target.1 as real;
      Ratio(target.0 as real, target.1 as real);
      NearestIsOff(ratio);
      DivisionOff(oriented.0 as real, Divided(target.0, target.1), ratio, EPSILON, 4.0 * EPSILON);
    }
  }

  /** The side cut is no longer than the image side, but for the error of the rounding. */
  lemma CutBelow(oriented: Size, target: Size)
    ensures ExactCut(oriented, target)
         <= (if CutsWidth(oriented, target) then oriented.0 else oriented.1) as real + 1.0 / 131072.0
  {
    hide Nearest, Off, Product;
    var ow, oh := oriented.0 as real, oriented.1 as real;
    var sr, tr := ow / oh, target.0 as real / target.1 as real;
    Ratio(ow, oh);
    Ratio(target.0 as real, target.1 as real);
    if CutsWidth(oriented, target) {
      if sr <= tr { NearestMonotone(sr, tr); }
      WiderCut(ow, oh, sr, tr);
    } else {
      NearestIsOff(sr);
      NearestIsOff(tr);
      TallerCut(ow, oh, sr, tr, Divided(oriented.0, oriented.1), Divided(target.0, target.1));
    }
  }

  lemma WiderCut(ow: real, oh: real, sr: real, tr: real)
    requires oh > 0.0 && sr * oh == ow && tr <= sr
    ensures Product(oh, tr) <= ow
  {
    Times(tr, sr, oh);
  }

  lemma TallerCut(ow: real, oh: real, sr: real, tr: real, a: real, b: real)
    requires 0.0 < oh < 2147483648.0 && sr > 0.0 && tr > 0.0 && sr * oh == ow && a <= b
    requires Off(a, sr, EPSILON) && Off(b, tr, EPSILON)
    ensures ow / tr <= oh + 1.0 / 131072.0
  {
    assert sr <= (1.0 + 4.0 * EPSILON) * tr;
    Times(sr, (1.0 + 4.0 * EPSILON) * tr, oh);
    DivideAtMost(ow, tr, (1.0 + 4.0 * EPSILON) * oh);
  }

  lemma RoundedSide(x: real, exact: real, high: Side)
    requires 0.0 < exact <= high as real + 1.0 / 131072.0 && Off(x, exact, 4.0 * EPSILON)
    ensures 1 <= AtLeastOne(AtMost(Round(x), high)) <= high
    ensures var n := AtLeastOne(AtMost(Round(x), high)); Close(n, exact) || (n == 1 && exact < HALF)
  {
    assert -1.0 / 131072.0 <= x - exact <= 1.0 / 131072.0;
  }

  /**
   * The direct crop is inside the upright image, keeps one full side, is centred, and puts the other side within
   * half a pixel of the target ratio, up to the error of the rounding, or at one pixel when even that is too wide.
   */
  lemma AspectCropFits(oriented: Size, target: Size)
    ensures var (left, top, w, h) := AspectWindow(oriented, target);
      && 0 <= left && 0 <= top && 1 <= w && 1 <= h && left + w <= oriented.0 && top + h <= oriented.1
      && 0 <= oriented.0 - w - 2 * left <= 1 && 0 <= oriented.1 - h - 2 * top <= 1
    ensures var (left, top, w, h) := AspectWindow(oriented, target);
      var cut := ExactCut(oriented, target);
      if CutsWidth(oriented, target)
      then h == oriented.1 && (Close(w, cut) || (w == 1 && cut < HALF))
      else w == oriented.0 && (Close(h, cut) || (h == 1 && cut < HALF))
  {
    hide Close, AtLeastOne, AtMost, Round, CutSide, ExactCut, CutsWidth;
    CutOff(oriented, target);
    CutBelow(oriented, target);
    RoundedSide(CutSide(oriented, target), ExactCut(oriented, target),
                if CutsWidth(oriented, target) then oriented.0 else oriented.1);
  }
}
