/** The canonical text of the options, part by part. */
module KeyText {
  import opened Text
  import opened Singles
  import opened Numbers
  import opened Params
  import opened ParamsRoundTrip

  /** The sides, the quality, the format, the fit and the gravity. */
  function SizeParts(p: TransformParams): seq<string> {
    Part("w", DecimalText(p.width))
    + Part("h", DecimalText(p.height))
    + Part("q", Some(Decimal(p.quality)))
    + Part("f", if p.format.Some? then Some(p.format.value.Name()) else None)
    + Part("fit", Some(p.fit.Name()))
    + Part("g", Some(p.gravity.Name()))
  }

  /** The filters, the pixel ratio, the turn and the mirrors. */
  function LookParts(p: TransformParams): seq<string> {
    Part("sharpen", FixedText(p.sharpen, 2))
    + Part("blur", FixedText(p.blur, 2))
    + Part("dpr", Some(FormatFixed(p.dpr, 1)))
    + Part("rotate", if p.rotate.Some? then Some(p.rotate.value.Name()) else None)
    + Part("flip", if p.flip.Some? then Some(p.flip.value.Name()) else None)
    + Part("brightness", FixedText(p.brightness, 2))
  }

  /** The colours, the metadata and the border trim. */
  function ColourParts(p: TransformParams): seq<string> {
    Part("contrast", FixedText(p.contrast, 2))
    + Part("saturation", FixedText(p.saturation, 2))
    + Part("gamma", FixedText(p.gamma, 2))
    + Part("bg", ColorText(p.background))
    + Part("metadata", if p.metadata != Strip then Some(p.metadata.Name()) else None)
    + Part("trim", FixedText(p.trim, 1))
  }

  /** The frames and the side trims. */
  function FrameParts(p: TransformParams): seq<string> {
    Part("anim", if p.anim != AnimAuto then Some(p.anim.Name()) else None)
    + Part("frame", DecimalText(p.frame))
    + Part("trim.top", FixedText(p.trimTop, 1))
    + Part("trim.right", FixedText(p.trimRight, 1))
    + Part("trim.bottom", FixedText(p.trimBottom, 1))
    + Part("trim.left", FixedText(p.trimLeft, 1))
  }

  /** The compression and the border. */
  function BorderParts(p: TransformParams): seq<string> {
    Part("compression", if p.compression.Some? then Some("fast") else None)
    + Part("border", DecimalText(p.borderWidth))
    + Part("border.color", ColorText(p.borderColor))
    + Part("border.top", DecimalText(p.borderTop))
    + Part("border.right", DecimalText(p.borderRight))
    + Part("border.bottom", DecimalText(p.borderBottom))
  }

  /** The address and the size of an overlay. */
  function OverlayPlaceParts(d: DrawOverlay, index: nat): seq<string> {
    Part(OverlayField(index, "url"), d.url)
    + Part(OverlayField(index, "width"), FixedText(d.width, 2))
    + Part(OverlayField(index, "height"), FixedText(d.height, 2))
  }

  /** Its place. */
  function OverlaySideParts(d: DrawOverlay, index: nat): seq<string> {
    Part(OverlayField(index, "top"), FixedText(d.top, 2))
    + Part(OverlayField(index, "left"), FixedText(d.left, 2))
    + Part(OverlayField(index, "bottom"), FixedText(d.bottom, 2))
  }

  /** Its right side, opacity and repetition. */
  function OverlayBlendParts(d: DrawOverlay, index: nat): seq<string> {
    Part(OverlayField(index, "right"), FixedText(d.right, 2))
    + Part(OverlayField(index, "opacity"), FixedText(d.opacity, 2))
    + Part(OverlayField(index, "repeat"), if d.repeat.Some? then Some(d.repeat.value.Name()) else None)
  }

  /** Its background, turn and fit. */
  function OverlayLookParts(d: DrawOverlay, index: nat): seq<string> {
    Part(OverlayField(index, "background"), ColorText(d.background))
    + Part(OverlayField(index, "rotate"), if d.rotate.Some? then Some(d.rotate.value.Name()) else None)
    + Part(OverlayField(index, "fit"), if d.fit.Some? then Some(d.fit.value.Name()) else None)
  }

  function OverlayField(index: nat, field: string): string {
    "draw." + Decimal(index) + ['.'] + field
  }

  function OverlayParts(d: DrawOverlay, index: nat): seq<string> {
    OverlayPlaceParts(d, index) + OverlaySideParts(d, index) + OverlayBlendParts(d, index)
    + OverlayLookParts(d, index)
    + Part(OverlayField(index, "gravity"), if d.gravity.Some? then Some(d.gravity.value.Name()) else None)
  }

  /** The overlays by index. */
  function AllOverlayParts(draw: seq<DrawOverlay>): seq<string> {
    if draw == [] then []
    else AllOverlayParts(draw[..|draw| - 1]) + OverlayParts(draw[|draw| - 1], |draw| - 1)
  }

  lemma {:induction false} FieldPartsSplit(p: TransformParams, a: seq<Key>, b: seq<Key>)
    ensures FieldParts(p, a + b) == FieldParts(p, a) + FieldParts(p, b)
    decreases |b|
  {
    hide FieldText, KeyName, Part;
    if b == [] {
      assert a + b == a;
    } else {
      var n := |b| - 1;
      FieldPartsSplit(p, a, b[..n]);
      assert (a + b)[..|a + b| - 1] == a + b[..n];
    }
  }

  lemma OneField(p: TransformParams, k: Key)
    ensures FieldParts(p, [k]) == Part(KeyName(k), FieldText(p, k))
  {
    hide FieldText, KeyName, Part;
    assert [k][..0] == [];
  }

  lemma ThreeFields(p: TransformParams, a: Key, b: Key, c: Key)
    ensures FieldParts(p, [a, b, c])
         == Part(KeyName(a), FieldText(p, a)) + Part(KeyName(b), FieldText(p, b)) + Part(KeyName(c), FieldText(p, c))
  {
    OneField(p, a);
    OneField(p, b);
    OneField(p, c);
    FieldPartsSplit(p, [a], [b]);
    FieldPartsSplit(p, [a] + [b], [c]);
    hide FieldParts, FieldText, KeyName, Part;
    assert [a] + [b] + [c] == [a, b, c];
  }

  lemma SixFields(p: TransformParams, a: Key, b: Key, c: Key, d: Key, e: Key, f: Key)
    ensures FieldParts(p, [a, b, c, d, e, f])
         == Part(KeyName(a), FieldText(p, a)) + Part(KeyName(b), FieldText(p, b)) + Part(KeyName(c), FieldText(p, c))
          + Part(KeyName(d), FieldText(p, d)) + Part(KeyName(e), FieldText(p, e)) + Part(KeyName(f), FieldText(p, f))
  {
    ThreeFields(p, a, b, c);
    ThreeFields(p, d, e, f);
    FieldPartsSplit(p, [a, b, c], [d, e, f]);
    hide FieldParts, FieldText, KeyName, Part;
    assert [a, b, c] + [d, e, f] == [a, b, c, d, e, f];
  }

  lemma SizePartsListed(p: TransformParams)
    ensures FieldParts(p, [WidthKey, HeightKey, QualityKey, FormatKey, FitKey, GravityKey]) == SizeParts(p)
  {
    SixFields(p, WidthKey, HeightKey, QualityKey, FormatKey, FitKey, GravityKey);
    hide FieldParts, Part, FixedText, DecimalText, ColorText, Decimal, FormatFixed;
  }

  lemma LookPartsListed(p: TransformParams)
    ensures FieldParts(p, [SharpenKey, BlurKey, DprKey, RotateKey, FlipKey, BrightnessKey]) == LookParts(p)
  {
    SixFields(p, SharpenKey, BlurKey, DprKey, RotateKey, FlipKey, BrightnessKey);
    hide FieldParts, Part, FixedText, DecimalText, ColorText, Decimal, FormatFixed;
  }

  lemma ColourPartsListed(p: TransformParams)
    ensures FieldParts(p, [ContrastKey, SaturationKey, GammaKey, BackgroundKey, MetadataKey, TrimKey]) == ColourParts(p)
  {
    SixFields(p, ContrastKey, SaturationKey, GammaKey, BackgroundKey, MetadataKey, TrimKey);
    hide FieldParts, Part, FixedText, DecimalText, ColorText, Decimal, FormatFixed;
  }

  lemma FramePartsListed(p: TransformParams)
    ensures FieldParts(p, [AnimKey, FrameKey, TrimTopKey, TrimRightKey, TrimBottomKey, TrimLeftKey]) == FrameParts(p)
  {
    SixFields(p, AnimKey, FrameKey, TrimTopKey, TrimRightKey, TrimBottomKey, TrimLeftKey);
    hide FieldParts, Part, FixedText, DecimalText, ColorText, Decimal, FormatFixed;
  }

  lemma BorderPartsListed(p: TransformParams)
    ensures FieldParts(p, [CompressionKey, BorderKey, BorderColorKey, BorderTopKey, BorderRightKey, BorderBottomKey])
         == BorderParts(p)
  {
    SixFields(p, CompressionKey, BorderKey, BorderColorKey, BorderTopKey, BorderRightKey, BorderBottomKey);
    hide FieldParts, Part, FixedText, DecimalText, ColorText, Decimal, FormatFixed;
  }

  lemma {:induction false} EntryPartsSplit(d: DrawOverlay, index: nat, a: seq<DrawKey>, b: seq<DrawKey>)
    ensures EntryParts(d, index, a + b) == EntryParts(d, index, a) + EntryParts(d, index, b)
    decreases |b|
  {
    hide DrawText, DrawPartName, Part;
    if b == [] {
      assert a + b == a;
    } else {
      var n := |b| - 1;
      EntryPartsSplit(d, index, a, b[..n]);
      assert (a + b)[..|a + b| - 1] == a + b[..n];
    }
  }

  function EntryPart(d: DrawOverlay, index: nat, k: DrawKey): seq<string> {
    Part(DrawPartName(index, k), DrawText(d, k))
  }

  lemma OneEntry(d: DrawOverlay, index: nat, k: DrawKey)
    ensures EntryParts(d, index, [k]) == EntryPart(d, index, k)
  {
    hide DrawText, DrawPartName, Part;
    assert [k][..0] == [];
  }

  lemma ThreeEntries(d: DrawOverlay, index: nat, a: DrawKey, b: DrawKey, c: DrawKey)
    ensures EntryParts(d, index, [a, b, c])
         == EntryPart(d, index, a) + EntryPart(d, index, b) + EntryPart(d, index, c)
  {
    OneEntry(d, index, a);
    OneEntry(d, index, b);
    OneEntry(d, index, c);
    EntryPartsSplit(d, index, [a], [b]);
    EntryPartsSplit(d, index, [a] + [b], [c]);
    hide EntryParts, EntryPart;
    assert [a] + [b] + [c] == [a, b, c];
  }

  lemma PartNamed(index: nat, k: DrawKey, field: string)
    requires DrawName(k) == field
    ensures DrawPartName(index, k) == OverlayField(index, field)
  {
    hide DrawName, Decimal;
    assert DRAW_PREFIX == "draw.";
  }

  lemma OverlayPlaceListed(d: DrawOverlay, index: nat)
    ensures EntryParts(d, index, [DrawUrl, DrawWidth, DrawHeight]) == OverlayPlaceParts(d, index)
  {
    hide EntryParts, Part, DrawPartName, OverlayField, FixedText, ColorText;
    ThreeEntries(d, index, DrawUrl, DrawWidth, DrawHeight);
    PartNamed(index, DrawUrl, "url");
    PartNamed(index, DrawWidth, "width");
    PartNamed(index, DrawHeight, "height");
  }

  lemma OverlaySideListed(d: DrawOverlay, index: nat)
    ensures EntryParts(d, index, [DrawTop, DrawLeft, DrawBottom]) == OverlaySideParts(d, index)
  {
    hide EntryParts, Part, DrawPartName, OverlayField, FixedText, ColorText;
    ThreeEntries(d, index, DrawTop, DrawLeft, DrawBottom);
    PartNamed(index, DrawTop, "top");
    PartNamed(index, DrawLeft, "left");
    PartNamed(index, DrawBottom, "bottom");
  }

  lemma OverlayBlendListed(d: DrawOverlay, index: nat)
    ensures EntryParts(d, index, [DrawRight, DrawOpacity, DrawRepeatKey]) == OverlayBlendParts(d, index)
  {
    hide EntryParts, Part, DrawPartName, OverlayField, FixedText, ColorText;
    ThreeEntries(d, index, DrawRight, DrawOpacity, DrawRepeatKey);
    PartNamed(index, DrawRight, "right");
    PartNamed(index, DrawOpacity, "opacity");
    PartNamed(index, DrawRepeatKey, "repeat");
  }

  lemma OverlayLookListed(d: DrawOverlay, index: nat)
    ensures EntryParts(d, index, [DrawBackground, DrawRotate, DrawFit]) == OverlayLookParts(d, index)
  {
    hide EntryParts, Part, DrawPartName, OverlayField, FixedText, ColorText;
    ThreeEntries(d, index, DrawBackground, DrawRotate, DrawFit);
    PartNamed(index, DrawBackground, "background");
    PartNamed(index, DrawRotate, "rotate");
    PartNamed(index, DrawFit, "fit");
  }

  const PLACE_KEYS: seq<DrawKey> := [DrawUrl, DrawWidth, DrawHeight]
  const SIDE_KEYS: seq<DrawKey> := [DrawTop, DrawLeft, DrawBottom]
  const BLEND_KEYS: seq<DrawKey> := [DrawRight, DrawOpacity, DrawRepeatKey]
  const STYLE_KEYS: seq<DrawKey> := [DrawBackground, DrawRotate, DrawFit]

  lemma OverlayOrder()
    ensures DRAW_ORDER == PLACE_KEYS + SIDE_KEYS + BLEND_KEYS + STYLE_KEYS + [DrawGravity]
  {}

  lemma OverlayGroups(d: DrawOverlay, index: nat)
    ensures EntryParts(d, index, PLACE_KEYS) == OverlayPlaceParts(d, index)
    ensures EntryParts(d, index, SIDE_KEYS) == OverlaySideParts(d, index)
    ensures EntryParts(d, index, BLEND_KEYS) == OverlayBlendParts(d, index)
    ensures EntryParts(d, index, STYLE_KEYS) == OverlayLookParts(d, index)
    ensures EntryParts(d, index, [DrawGravity])
         == Part(OverlayField(index, "gravity"), if d.gravity.Some? then Some(d.gravity.value.Name()) else None)
  {
    hide EntryParts, OverlayPlaceParts, OverlaySideParts, OverlayBlendParts, OverlayLookParts, Part;
    hide DrawPartName, OverlayField;
    OverlayPlaceListed(d, index);
    OverlaySideListed(d, index);
    OverlayBlendListed(d, index);
    OverlayLookListed(d, index);
    OneEntry(d, index, DrawGravity);
    PartNamed(index, DrawGravity, "gravity");
  }

  lemma OverlayListed(d: DrawOverlay, index: nat)
    ensures EntryParts(d, index, DRAW_ORDER) == OverlayParts(d, index)
  {
    OverlayGroups(d, index);
    OverlayOrder();
    hide EntryParts, OverlayPlaceParts, OverlaySideParts, OverlayBlendParts, OverlayLookParts, Part, OverlayField;
    hide DRAW_ORDER, PLACE_KEYS, SIDE_KEYS, BLEND_KEYS, STYLE_KEYS;
    EntryPartsSplit(d, index, PLACE_KEYS, SIDE_KEYS);
    EntryPartsSplit(d, index, PLACE_KEYS + SIDE_KEYS, BLEND_KEYS);
    EntryPartsSplit(d, index, PLACE_KEYS + SIDE_KEYS + BLEND_KEYS, STYLE_KEYS);
    EntryPartsSplit(d, index, PLACE_KEYS + SIDE_KEYS + BLEND_KEYS + STYLE_KEYS, [DrawGravity]);
  }

  lemma {:induction false} OverlaysListed(draw: seq<DrawOverlay>)
    ensures DrawParts(draw) == AllOverlayParts(draw)
    decreases |draw|
  {
    hide EntryParts, OverlayParts;
    if draw != [] {
      OverlaysListed(draw[..|draw| - 1]);
      OverlayListed(draw[|draw| - 1], |draw| - 1);
    }
  }

  /**
    The canonical text: every set option under its name, in this order and with these decimals, and then the
    overlays. `onerror` and `scq` are left out.
   */
  lemma KeyTextListed(p: TransformParams)
    ensures CacheKey(p)
         == Join(SizeParts(p) + LookParts(p) + ColourParts(p) + FrameParts(p) + BorderParts(p)
                 + Part("border.left", DecimalText(p.borderLeft)) + AllOverlayParts(p.draw), ',')
  {
    FieldsListed(p);
    OverlaysListed(p.draw);
    hide FieldParts, SizeParts, LookParts, ColourParts, FrameParts, BorderParts, DrawParts, AllOverlayParts, KEY_ORDER;
  }

  const SIZE_KEYS: seq<Key> := [WidthKey, HeightKey, QualityKey, FormatKey, FitKey, GravityKey]
  const LOOK_KEYS: seq<Key> := [SharpenKey, BlurKey, DprKey, RotateKey, FlipKey, BrightnessKey]
  const COLOUR_KEYS: seq<Key> := [ContrastKey, SaturationKey, GammaKey, BackgroundKey, MetadataKey, TrimKey]
  const FRAME_KEYS: seq<Key> := [AnimKey, FrameKey, TrimTopKey, TrimRightKey, TrimBottomKey, TrimLeftKey]
  const BORDER_KEYS: seq<Key> :=
    [CompressionKey, BorderKey, BorderColorKey, BorderTopKey, BorderRightKey, BorderBottomKey]

  lemma OrderListed()
    ensures KEY_ORDER == SIZE_KEYS + LOOK_KEYS + COLOUR_KEYS + FRAME_KEYS + BORDER_KEYS + [BorderLeftKey]
  {}

  lemma GroupsListed(p: TransformParams)
    ensures FieldParts(p, SIZE_KEYS) == SizeParts(p) && FieldParts(p, LOOK_KEYS) == LookParts(p)
    ensures FieldParts(p, COLOUR_KEYS) == ColourParts(p) && FieldParts(p, FRAME_KEYS) == FrameParts(p)
    ensures FieldParts(p, BORDER_KEYS) == BorderParts(p)
    ensures FieldParts(p, [BorderLeftKey]) == Part("border.left", DecimalText(p.borderLeft))
  {
    hide FieldParts, SizeParts, LookParts, ColourParts, FrameParts, BorderParts, Part, DecimalText;
    SizePartsListed(p);
    LookPartsListed(p);
    ColourPartsListed(p);
    FramePartsListed(p);
    BorderPartsListed(p);
    OneField(p, BorderLeftKey);
  }

  lemma FieldsListed(p: TransformParams)
    ensures FieldParts(p, KEY_ORDER)
         == SizeParts(p) + LookParts(p) + ColourParts(p) + FrameParts(p) + BorderParts(p)
          + Part("border.left", DecimalText(p.borderLeft))
  {
    hide *;
    GroupsListed(p);
    OrderListed();
    FieldPartsSplit(p, SIZE_KEYS, LOOK_KEYS);
    FieldPartsSplit(p, SIZE_KEYS + LOOK_KEYS, COLOUR_KEYS);
    FieldPartsSplit(p, SIZE_KEYS + LOOK_KEYS + COLOUR_KEYS, FRAME_KEYS);
    FieldPartsSplit(p, SIZE_KEYS + LOOK_KEYS + COLOUR_KEYS + FRAME_KEYS, BORDER_KEYS);
    FieldPartsSplit(p, SIZE_KEYS + LOOK_KEYS + COLOUR_KEYS + FRAME_KEYS + BORDER_KEYS, [BorderLeftKey]);
  }

  /** The text of the defaults. */
  lemma DefaultText()
    ensures CacheKey(DEFAULTS) == "q=80,fit=contain,g=center,dpr=1.0"
  {
    KeyTextListed(DEFAULTS);
    DefaultParts();
    hide CacheKey, SizeParts, LookParts, ColourParts, FrameParts, BorderParts, Part, Join;
    FourJoined("q=80", "fit=contain", "g=center", "dpr=1.0");
    assert DEFAULTS.draw == [] && AllOverlayParts(DEFAULTS.draw) == [];
    assert "q=80" + [','] + "fit=contain" + [','] + "g=center" + [','] + "dpr=1.0"
        == "q=80,fit=contain,g=center,dpr=1.0";
    var parts := SizeParts(DEFAULTS) + LookParts(DEFAULTS) + ColourParts(DEFAULTS) + FrameParts(DEFAULTS)
               + BorderParts(DEFAULTS) + Part("border.left", DecimalText(DEFAULTS.borderLeft))
               + AllOverlayParts(DEFAULTS.draw);
    assert parts == ["q=80", "fit=contain", "g=center", "dpr=1.0"];
    assert CacheKey(DEFAULTS) == Join(parts, ',');
  }

  lemma FourJoined(a: string, b: string, c: string, d: string)
    ensures Join([a, b, c, d], ',') == a + [','] + b + [','] + c + [','] + d
  {
    assert [a, b, c, d][1..] == [b, c, d] && [b, c, d][1..] == [c, d] && [c, d][1..] == [d];
    assert Join([c, d], ',') == c + [','] + d;
    assert Join([b, c, d], ',') == b + [','] + Join([c, d], ',');
  }

  lemma DefaultParts()
    ensures SizeParts(DEFAULTS) == ["q=80", "fit=contain", "g=center"] && LookParts(DEFAULTS) == ["dpr=1.0"]
    ensures ColourParts(DEFAULTS) == [] && FrameParts(DEFAULTS) == [] && BorderParts(DEFAULTS) == []
    ensures Part("border.left", DecimalText(DEFAULTS.borderLeft)) == []
  {
    DefaultNumbers();
    hide FormatFixed, Decimal;
    assert "q" + ['='] + "80" == "q=80" && "fit" + ['='] + "contain" == "fit=contain";
    assert "g" + ['='] + "center" == "g=center" && "dpr" + ['='] + "1.0" == "dpr=1.0";
  }

  lemma DefaultNumbers()
    ensures Decimal(80) == "80" && FormatFixed(ONE, 1) == "1.0"
  {
    hide IsSingle, Narrow;
    assert Multiple(1.0, 10) == 10.0;
    assert Units(ONE, 1) == 10;
    assert WholeDigits(10, 1) == "1" && FractionDigits(10, 1) == "0";
  }
}
