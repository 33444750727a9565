/** Field-by-field reasoning about the option record: what a key sets, and what it leaves alone. */
module ParamsFields {
  import opened Text
  import opened Numbers
  import opened Params

  /** The two records agree on the field of `k`. */
  predicate Same(p: TransformParams, q: TransformParams, k: Key) {
    match k
    case WidthKey => p.width == q.width
    case HeightKey => p.height == q.height
    case QualityKey => p.quality == q.quality
    case FormatKey => p.format == q.format
    case FitKey => p.fit == q.fit
    case GravityKey => p.gravity == q.gravity
    case SharpenKey => p.sharpen == q.sharpen
    case BlurKey => p.blur == q.blur
    case DprKey => p.dpr == q.dpr
    case RotateKey => p.rotate == q.rotate
    case FlipKey => p.flip == q.flip
    case BrightnessKey => p.brightness == q.brightness
    case ContrastKey => p.contrast == q.contrast
    case SaturationKey => p.saturation == q.saturation
    case GammaKey => p.gamma == q.gamma
    case BackgroundKey => p.background == q.background
    case MetadataKey => p.metadata == q.metadata
    case TrimKey => p.trim == q.trim
    case AnimKey => p.anim == q.anim
    case FrameKey => p.frame == q.frame
    case TrimTopKey => p.trimTop == q.trimTop
    case TrimRightKey => p.trimRight == q.trimRight
    case TrimBottomKey => p.trimBottom == q.trimBottom
    case TrimLeftKey => p.trimLeft == q.trimLeft
    case OnErrorKey => p.onerror == q.onerror
    case CompressionKey => p.compression == q.compression
    case ScqKey => p.scq == q.scq
    case BorderKey => p.borderWidth == q.borderWidth
    case BorderColorKey => p.borderColor == q.borderColor
    case BorderTopKey => p.borderTop == q.borderTop
    case BorderRightKey => p.borderRight == q.borderRight
    case BorderBottomKey => p.borderBottom == q.borderBottom
    case BorderLeftKey => p.borderLeft == q.borderLeft
  }

  predicate SameDraw(d: DrawOverlay, e: DrawOverlay, k: DrawKey) {
    match k
    case DrawUrl => d.url == e.url
    case DrawWidth => d.width == e.width
    case DrawHeight => d.height == e.height
    case DrawTop => d.top == e.top
    case DrawLeft => d.left == e.left
    case DrawBottom => d.bottom == e.bottom
    case DrawRight => d.right == e.right
    case DrawOpacity => d.opacity == e.opacity
    case DrawRepeatKey => d.repeat == e.repeat
    case DrawBackground => d.background == e.background
    case DrawRotate => d.rotate == e.rotate
    case DrawFit => d.fit == e.fit
    case DrawGravity => d.gravity == e.gravity
  }

  predicate SameSize(p: TransformParams, q: TransformParams) {
    p.width == q.width && p.height == q.height && p.quality == q.quality && p.format == q.format
    && p.fit == q.fit && p.gravity == q.gravity && p.sharpen == q.sharpen && p.blur == q.blur
    && p.dpr == q.dpr
  }

  predicate SameLook(p: TransformParams, q: TransformParams) {
    p.rotate == q.rotate && p.flip == q.flip && p.brightness == q.brightness && p.contrast == q.contrast
    && p.saturation == q.saturation && p.gamma == q.gamma && p.background == q.background
    && p.metadata == q.metadata
  }

  predicate SamePage(p: TransformParams, q: TransformParams) {
    p.trim == q.trim && p.anim == q.anim && p.frame == q.frame && p.trimTop == q.trimTop
    && p.trimRight == q.trimRight && p.trimBottom == q.trimBottom && p.trimLeft == q.trimLeft
    && p.onerror == q.onerror
  }

  predicate SameFrame(p: TransformParams, q: TransformParams) {
    p.compression == q.compression && p.scq == q.scq && p.borderWidth == q.borderWidth
    && p.borderColor == q.borderColor && p.borderTop == q.borderTop && p.borderRight == q.borderRight
    && p.borderBottom == q.borderBottom && p.borderLeft == q.borderLeft
  }

  lemma SizeDifference(p: TransformParams, q: TransformParams) returns (k: Key)
    requires !SameSize(p, q)
    ensures !Same(p, q, k)
  {
    if p.width != q.width { return WidthKey; }
    if p.height != q.height { return HeightKey; }
    if p.quality != q.quality { return QualityKey; }
    if p.format != q.format { return FormatKey; }
    if p.fit != q.fit { return FitKey; }
    if p.gravity != q.gravity { return GravityKey; }
    if p.sharpen != q.sharpen { return SharpenKey; }
    if p.blur != q.blur { return BlurKey; }
    return DprKey;
  }

  lemma LookDifference(p: TransformParams, q: TransformParams) returns (k: Key)
    requires !SameLook(p, q)
    ensures !Same(p, q, k)
  {
    if p.rotate != q.rotate { return RotateKey; }
    if p.flip != q.flip { return FlipKey; }
    if p.brightness != q.brightness { return BrightnessKey; }
    if p.contrast != q.contrast { return ContrastKey; }
    if p.saturation != q.saturation { return SaturationKey; }
    if p.gamma != q.gamma { return GammaKey; }
    if p.background != q.background { return BackgroundKey; }
    return MetadataKey;
  }

  lemma PageDifference(p: TransformParams, q: TransformParams) returns (k: Key)
    requires !SamePage(p, q)
    ensures !Same(p, q, k)
  {
    if p.trim != q.trim { return TrimKey; }
    if p.anim != q.anim { return AnimKey; }
    if p.frame != q.frame { return FrameKey; }
    if p.trimTop != q.trimTop { return TrimTopKey; }
    if p.trimRight != q.trimRight { return TrimRightKey; }
    if p.trimBottom != q.trimBottom { return TrimBottomKey; }
    if p.trimLeft != q.trimLeft { return TrimLeftKey; }
    return OnErrorKey;
  }

  lemma FrameDifference(p: TransformParams, q: TransformParams) returns (k: Key)
    requires !SameFrame(p, q)
    ensures !Same(p, q, k)
  {
    if p.compression != q.compression { return CompressionKey; }
    if p.scq != q.scq { return ScqKey; }
    if p.borderWidth != q.borderWidth { return BorderKey; }
    if p.borderColor != q.borderColor { return BorderColorKey; }
    if p.borderTop != q.borderTop { return BorderTopKey; }
    if p.borderRight != q.borderRight { return BorderRightKey; }
    if p.borderBottom != q.borderBottom { return BorderBottomKey; }
    return BorderLeftKey;
  }

  /** Two different records disagree on some field. */
  lemma Difference(p: TransformParams, q: TransformParams) returns (k: Key)
    requires p != q && p.draw == q.draw
    ensures !Same(p, q, k)
  {
    hide Same;
    if !SameSize(p, q) {
      k := SizeDifference(p, q);
    } else if !SameLook(p, q) {
      k := LookDifference(p, q);
    } else if !SamePage(p, q) {
      k := PageDifference(p, q);
    } else {
      k := FrameDifference(p, q);
    }
  }

  lemma DrawDifference(d: DrawOverlay, e: DrawOverlay) returns (k: DrawKey)
    requires d != e
    ensures !SameDraw(d, e, k)
  {
    if d.url != e.url { return DrawUrl; }
    if d.width != e.width { return DrawWidth; }
    if d.height != e.height { return DrawHeight; }
    if d.top != e.top { return DrawTop; }
    if d.left != e.left { return DrawLeft; }
    if d.bottom != e.bottom { return DrawBottom; }
    if d.right != e.right { return DrawRight; }
    if d.opacity != e.opacity { return DrawOpacity; }
    if d.repeat != e.repeat { return DrawRepeatKey; }
    if d.background != e.background { return DrawBackground; }
    if d.rotate != e.rotate { return DrawRotate; }
    if d.fit != e.fit { return DrawFit; }
    return DrawGravity;
  }

  /** Records that agree on every field are equal. */
  lemma SameEverywhere(p: TransformParams, q: TransformParams)
    requires forall k: Key :: Same(p, q, k)
    requires p.draw == q.draw
    ensures p == q
  {
    hide Same;
    if p != q {
      var _ := Difference(p, q);
    }
  }

  lemma SameDrawEverywhere(d: DrawOverlay, e: DrawOverlay)
    requires forall k: DrawKey :: SameDraw(d, e, k)
    ensures d == e
  {
    hide SameDraw;
    if d != e {
      var _ := DrawDifference(d, e);
    }
  }

  predicate SizeKey(k: Key) {
    k.WidthKey? || k.HeightKey? || k.QualityKey? || k.FormatKey? || k.FitKey? || k.GravityKey? || k.SharpenKey?
    || k.BlurKey? || k.DprKey? || k.RotateKey? || k.FlipKey?
  }

  predicate LookKey(k: Key) {
    k.BrightnessKey? || k.ContrastKey? || k.SaturationKey? || k.GammaKey? || k.BackgroundKey? || k.MetadataKey?
  }

  predicate FrameKeys(k: Key) {
    k.TrimKey? || k.AnimKey? || k.FrameKey? || k.TrimTopKey? || k.TrimRightKey? || k.TrimBottomKey? || k.TrimLeftKey?
  }

  lemma SetSizeFrame(p: TransformParams, k: Key, value: string, j: Key)
    requires SizeKey(k) && SetField(p, k, value).Ok?
    ensures SetField(p, k, value).value.draw == p.draw
    ensures j != k ==> Same(SetField(p, k, value).value, p, j)
  {
    hide OutputFormat.Parse, FitMode.Parse, Gravity.Parse, Rotation.Parse, FlipMode.Parse;
    hide MetadataMode.Parse, AnimMode.Parse;
    hide ParseQuality, ReadU32, ReadFinite, ReadColor;
  }

  lemma SetLookFrame(p: TransformParams, k: Key, value: string, j: Key)
    requires LookKey(k) && SetField(p, k, value).Ok?
    ensures SetField(p, k, value).value.draw == p.draw
    ensures j != k ==> Same(SetField(p, k, value).value, p, j)
  {
    hide OutputFormat.Parse, FitMode.Parse, Gravity.Parse, Rotation.Parse, FlipMode.Parse;
    hide MetadataMode.Parse, AnimMode.Parse;
    hide ParseQuality, ReadU32, ReadFinite, ReadColor;
  }

  lemma SetPageFrame(p: TransformParams, k: Key, value: string, j: Key)
    requires FrameKeys(k) && SetField(p, k, value).Ok?
    ensures SetField(p, k, value).value.draw == p.draw
    ensures j != k ==> Same(SetField(p, k, value).value, p, j)
  {
    hide OutputFormat.Parse, FitMode.Parse, Gravity.Parse, Rotation.Parse, FlipMode.Parse;
    hide MetadataMode.Parse, AnimMode.Parse;
    hide ParseQuality, ReadU32, ReadFinite, ReadColor;
  }

  lemma SetEdgeFrame(p: TransformParams, k: Key, value: string, j: Key)
    requires !SizeKey(k) && !LookKey(k) && !FrameKeys(k) && SetField(p, k, value).Ok?
    ensures SetField(p, k, value).value.draw == p.draw
    ensures j != k ==> Same(SetField(p, k, value).value, p, j)
  {
    hide OutputFormat.Parse, FitMode.Parse, Gravity.Parse, Rotation.Parse, FlipMode.Parse;
    hide MetadataMode.Parse, AnimMode.Parse;
    hide ParseQuality, ReadU32, ReadFinite, ReadColor;
  }

  /** A key changes its own field, and nothing else. */
  lemma SetFieldFrame(p: TransformParams, k: Key, value: string, j: Key)
    requires SetField(p, k, value).Ok?
    ensures SetField(p, k, value).value.draw == p.draw
    ensures j != k ==> Same(SetField(p, k, value).value, p, j)
  {
    hide SetField, Same, SizeKey, LookKey, FrameKeys;
    if SizeKey(k) { SetSizeFrame(p, k, value, j); }
    else if LookKey(k) { SetLookFrame(p, k, value, j); }
    else if FrameKeys(k) { SetPageFrame(p, k, value, j); }
    else { SetEdgeFrame(p, k, value, j); }
  }

  lemma SetSizeLocal(p: TransformParams, q: TransformParams, k: Key, value: string)
    requires SizeKey(k)
    ensures SetField(p, k, value).Ok? <==> SetField(q, k, value).Ok?
    ensures SetField(p, k, value).Ok? ==> Same(SetField(p, k, value).value, SetField(q, k, value).value, k)
  {
    hide OutputFormat.Parse, FitMode.Parse, Gravity.Parse, Rotation.Parse, FlipMode.Parse;
    hide MetadataMode.Parse, AnimMode.Parse;
    hide ParseQuality, ReadU32, ReadFinite, ReadColor;
  }

  lemma SetOtherLocal(p: TransformParams, q: TransformParams, k: Key, value: string)
    requires !SizeKey(k)
    ensures SetField(p, k, value).Ok? <==> SetField(q, k, value).Ok?
    ensures SetField(p, k, value).Ok? ==> Same(SetField(p, k, value).value, SetField(q, k, value).value, k)
  {
    hide OutputFormat.Parse, FitMode.Parse, Gravity.Parse, Rotation.Parse, FlipMode.Parse;
    hide MetadataMode.Parse, AnimMode.Parse;
    hide ParseQuality, ReadU32, ReadFinite, ReadColor;
  }

  /** What a key sets depends on its text alone, not on the options read before. */
  lemma SetFieldLocal(p: TransformParams, q: TransformParams, k: Key, value: string)
    ensures SetField(p, k, value).Ok? <==> SetField(q, k, value).Ok?
    ensures SetField(p, k, value).Ok? ==> Same(SetField(p, k, value).value, SetField(q, k, value).value, k)
  {
    hide SetField, Same, SizeKey;
    if SizeKey(k) { SetSizeLocal(p, q, k, value); } else { SetOtherLocal(p, q, k, value); }
  }

  lemma SetDrawFieldFrame(d: DrawOverlay, k: DrawKey, value: string, j: DrawKey)
    requires SetDrawField(d, k, value).Ok?
    ensures j != k ==> SameDraw(SetDrawField(d, k, value).value, d, j)
    ensures SetDrawField(d, k, value).value != DEFAULT_DRAW
  {
    hide ReadFinite, ReadColor;
  }

  lemma SetDrawFieldLocal(d: DrawOverlay, e: DrawOverlay, k: DrawKey, value: string)
    ensures SetDrawField(d, k, value).Ok? <==> SetDrawField(e, k, value).Ok?
    ensures SetDrawField(d, k, value).Ok? ==>
      SameDraw(SetDrawField(d, k, value).value, SetDrawField(e, k, value).value, k)
  {
    hide ReadFinite, ReadColor;
  }
}
