/** What each option means on its own text: which field its name sets, and which values it takes. */
module OptionMeaning {
  import opened Text
  import opened Singles
  import opened Numbers
  import opened Params
  import opened ParamsRoundTrip

  /** The options of a string with one pair. */
  function Sole(name: string, value: string): Result<TransformParams, ParseError> {
    Parsed(name + ['='] + value)
  }

  /** A value that stays in its pair. */
  predicate Readable(value: string) {
    value != [] && ',' !in value
  }

  /** A name of a scalar option, with or without an alias. */
  predicate PlainName(name: string) {
    name != [] && ',' !in name && '=' !in name && !(DRAW_PREFIX <= name)
  }

  lemma NotDraw(name: string)
    requires name != [] && name[0] != 'd'
    ensures !(DRAW_PREFIX <= name)
  {
    assert DRAW_PREFIX[0] == 'd';
  }

  lemma SolePair(name: string, value: string)
    requires ',' !in name && Readable(value)
    ensures Sole(name, value) == ApplyPair(DEFAULTS, name + ['='] + value)
  {
    hide ApplyPair;
    var pair := name + ['='] + value;
    SplitSingle(pair, ',');
    hide Split;
    assert [pair][1..] == [];
    assert ApplyPairs(DEFAULTS, [pair]) == ApplyPair(DEFAULTS, pair);
  }

  lemma SoleIs(name: string, value: string)
    requires PlainName(name) && Readable(value)
    ensures Sole(name, value) == match KeyOf(name) {
        case None => Err(InvalidParameter)
        case Some(k) => SetField(DEFAULTS, k, value)
      }
  {
    hide KeyOf, SetField, SetDraw, Sole;
    SolePair(name, value);
    IndexOfKey(name, value, '=');
    var pair := name + ['='] + value;
    assert pair[..|name|] == name && pair[|name| + 1..] == value;
  }

  /** Without a pair every option has its default. */
  lemma DefaultOptions()
    ensures Parsed("") == Ok(DEFAULTS)
    ensures DEFAULTS.quality == 80 && DEFAULTS.fit == Contain && DEFAULTS.gravity == Center
    ensures DEFAULTS.dpr == Float(false, 1.0) && DEFAULTS.metadata == Strip && DEFAULTS.anim == AnimAuto
    ensures DEFAULTS == DEFAULTS.(width := None, height := None, format := None, sharpen := None, blur := None,
                                  rotate := None, flip := None, brightness := None, contrast := None)
    ensures DEFAULTS == DEFAULTS.(saturation := None, gamma := None, background := None, trim := None, frame := None,
                                  trimTop := None, trimRight := None, trimBottom := None, trimLeft := None)
    ensures DEFAULTS == DEFAULTS.(onerror := None, compression := None, scq := None, borderWidth := None,
                                  borderColor := None, borderTop := None, borderRight := None,
                                  borderBottom := None, borderLeft := None, draw := [])
  {
    assert Split("", ',') == [[]];
    var empty: seq<string> := [[]];
    assert empty[1..] == [] && ApplyPair(DEFAULTS, []) == Ok(DEFAULTS);
    assert ApplyPairs(DEFAULTS, empty) == Ok(DEFAULTS);
  }

  // ---------------------------------------------------------------------------
  // Numbers
  // ---------------------------------------------------------------------------

  lemma WidthName(name: string)
    requires name == "w" || name == "width"
    ensures PlainName(name) && KeyOf(name) == Some(WidthKey)
  {
    NotDraw(name);
  }

  lemma WidthOption(name: string, value: string)
    requires (name == "w" || name == "width") && Readable(value)
    ensures Sole(name, value) == match ParseUnsigned(value, U32_LIMIT) {
        case Some(n) => Ok(DEFAULTS.(width := Some(n)))
        case None => Err(InvalidWidth)
      }
  {
    hide Sole, KeyOf, PlainName, ParseUnsigned;
    WidthName(name);
    SoleIs(name, value);
  }

  lemma HeightName(name: string)
    requires name == "h" || name == "height"
    ensures PlainName(name) && KeyOf(name) == Some(HeightKey)
  {
    NotDraw(name);
  }

  lemma HeightOption(name: string, value: string)
    requires (name == "h" || name == "height") && Readable(value)
    ensures Sole(name, value) == match ParseUnsigned(value, U32_LIMIT) {
        case Some(n) => Ok(DEFAULTS.(height := Some(n)))
        case None => Err(InvalidHeight)
      }
  {
    hide Sole, KeyOf, PlainName, ParseUnsigned;
    HeightName(name);
    SoleIs(name, value);
  }

  lemma FrameName()
    ensures PlainName("frame") && KeyOf("frame") == Some(FrameKey)
  {
    NotDraw("frame");
  }

  lemma FrameOption(value: string)
    requires Readable(value)
    ensures Sole("frame", value) == match ParseUnsigned(value, U32_LIMIT) {
        case Some(n) => Ok(DEFAULTS.(frame := Some(n)))
        case None => Err(InvalidFrame)
      }
  {
    hide Sole, KeyOf, PlainName, ParseUnsigned;
    FrameName();
    SoleIs("frame", value);
  }

  lemma BorderName()
    ensures PlainName("border") && KeyOf("border") == Some(BorderKey)
  {
    NotDraw("border");
  }

  lemma BorderOption(value: string)
    requires Readable(value)
    ensures Sole("border", value) == match ParseUnsigned(value, U32_LIMIT) {
        case Some(n) => Ok(DEFAULTS.(borderWidth := Some(n)))
        case None => Err(InvalidBorder)
      }
  {
    hide Sole, KeyOf, PlainName, ParseUnsigned;
    BorderName();
    SoleIs("border", value);
  }

  lemma BorderTopName()
    ensures PlainName("border.top") && KeyOf("border.top") == Some(BorderTopKey)
  {
    NotDraw("border.top");
  }

  lemma BorderTopOption(value: string)
    requires Readable(value)
    ensures Sole("border.top", value) == match ParseUnsigned(value, U32_LIMIT) {
        case Some(n) => Ok(DEFAULTS.(borderTop := Some(n)))
        case None => Err(InvalidBorder)
      }
  {
    hide Sole, KeyOf, PlainName, ParseUnsigned;
    BorderTopName();
    SoleIs("border.top", value);
  }

  lemma BorderRightName()
    ensures PlainName("border.right") && KeyOf("border.right") == Some(BorderRightKey)
  {
    NotDraw("border.right");
  }

  lemma BorderRightOption(value: string)
    requires Readable(value)
    ensures Sole("border.right", value) == match ParseUnsigned(value, U32_LIMIT) {
        case Some(n) => Ok(DEFAULTS.(borderRight := Some(n)))
        case None => Err(InvalidBorder)
      }
  {
    hide Sole, KeyOf, PlainName, ParseUnsigned;
    BorderRightName();
    SoleIs("border.right", value);
  }

  lemma BorderBottomName()
    ensures PlainName("border.bottom") && KeyOf("border.bottom") == Some(BorderBottomKey)
  {
    NotDraw("border.bottom");
  }

  lemma BorderBottomOption(value: string)
    requires Readable(value)
    ensures Sole("border.bottom", value) == match ParseUnsigned(value, U32_LIMIT) {
        case Some(n) => Ok(DEFAULTS.(borderBottom := Some(n)))
        case None => Err(InvalidBorder)
      }
  {
    hide Sole, KeyOf, PlainName, ParseUnsigned;
    BorderBottomName();
    SoleIs("border.bottom", value);
  }

  lemma BorderLeftName()
    ensures PlainName("border.left") && KeyOf("border.left") == Some(BorderLeftKey)
  {
    NotDraw("border.left");
  }

  lemma BorderLeftOption(value: string)
    requires Readable(value)
    ensures Sole("border.left", value) == match ParseUnsigned(value, U32_LIMIT) {
        case Some(n) => Ok(DEFAULTS.(borderLeft := Some(n)))
        case None => Err(InvalidBorder)
      }
  {
    hide Sole, KeyOf, PlainName, ParseUnsigned;
    BorderLeftName();
    SoleIs("border.left", value);
  }

  /** So `w=300` sets the width to 300, and every other number likewise. */
  lemma SizesRead(n: U32)
    ensures Sole("w", Decimal(n)) == Sole("width", Decimal(n)) == Ok(DEFAULTS.(width := Some(n)))
    ensures Sole("h", Decimal(n)) == Sole("height", Decimal(n)) == Ok(DEFAULTS.(height := Some(n)))
    ensures Sole("frame", Decimal(n)) == Ok(DEFAULTS.(frame := Some(n)))
  {
    hide Sole, ParseUnsigned;
    ReadDecimal(n, InvalidWidth);
    UnsignedRoundTrip(n, U32_LIMIT);
    WidthOption("w", Decimal(n));
    WidthOption("width", Decimal(n));
    HeightOption("h", Decimal(n));
    HeightOption("height", Decimal(n));
    FrameOption(Decimal(n));
  }

  lemma BordersRead(n: U32)
    ensures Sole("border", Decimal(n)) == Ok(DEFAULTS.(borderWidth := Some(n)))
    ensures Sole("border.top", Decimal(n)) == Ok(DEFAULTS.(borderTop := Some(n)))
    ensures Sole("border.right", Decimal(n)) == Ok(DEFAULTS.(borderRight := Some(n)))
    ensures Sole("border.bottom", Decimal(n)) == Ok(DEFAULTS.(borderBottom := Some(n)))
    ensures Sole("border.left", Decimal(n)) == Ok(DEFAULTS.(borderLeft := Some(n)))
  {
    hide Sole, ParseUnsigned;
    ReadDecimal(n, InvalidBorder);
    UnsignedRoundTrip(n, U32_LIMIT);
    BorderOption(Decimal(n));
    BorderTopOption(Decimal(n));
    BorderRightOption(Decimal(n));
    BorderBottomOption(Decimal(n));
    BorderLeftOption(Decimal(n));
  }

  // ---------------------------------------------------------------------------
  // Qualities
  // ---------------------------------------------------------------------------

  /** A quality is one of four names, or a number below 256. */
  function Quality(value: string): Option<U8> {
    if value == "high" then Some(90)
    else if value == "medium-high" then Some(80)
    else if value == "medium-low" then Some(60)
    else if value == "low" then Some(40)
    else
      match ParseUnsigned(value, U32_LIMIT)
      case Some(n) => if n < 256 then Some(n) else None
      case None => None
  }

  lemma QualityRead(value: string)
    ensures ParseQuality(value) == match Quality(value) { case Some(q) => Ok(q) case None => Err(InvalidQuality) }
  {}

  lemma QualityName(name: string)
    requires name == "q" || name == "quality"
    ensures PlainName(name) && KeyOf(name) == Some(QualityKey)
  {
    NotDraw(name);
  }

  lemma QualityOption(name: string, value: string)
    requires (name == "q" || name == "quality") && Readable(value)
    ensures Sole(name, value) == match Quality(value) {
        case Some(q) => Ok(DEFAULTS.(quality := q))
        case None => Err(InvalidQuality)
      }
  {
    hide Sole, KeyOf, PlainName, ParseQuality, Quality;
    QualityName(name);
    SoleIs(name, value);
    QualityRead(value);
  }

  lemma SlowQualityName(name: string)
    requires name == "scq" || name == "slow-connection-quality"
    ensures PlainName(name) && KeyOf(name) == Some(ScqKey)
  {
    NotDraw(name);
  }

  lemma SlowQualityOption(name: string, value: string)
    requires (name == "scq" || name == "slow-connection-quality") && Readable(value)
    ensures Sole(name, value) == match Quality(value) {
        case Some(q) => Ok(DEFAULTS.(scq := Some(q)))
        case None => Err(InvalidQuality)
      }
  {
    hide Sole, KeyOf, PlainName, ParseQuality, Quality;
    SlowQualityName(name);
    SoleIs(name, value);
    QualityRead(value);
  }

  // ---------------------------------------------------------------------------
  // Floats and colours
  // ---------------------------------------------------------------------------

  lemma SharpenName()
    ensures PlainName("sharpen") && KeyOf("sharpen") == Some(SharpenKey)
  {
    NotDraw("sharpen");
  }

  lemma SharpenOption(value: string)
    requires Readable(value)
    ensures Sole("sharpen", value) == match ParseFinite(value) {
        case Some(v) => Ok(DEFAULTS.(sharpen := Some(v)))
        case None => Err(InvalidSharpen)
      }
  {
    hide Sole, KeyOf, PlainName, ParseFinite;
    SharpenName();
    SoleIs("sharpen", value);
  }

  lemma BlurName()
    ensures PlainName("blur") && KeyOf("blur") == Some(BlurKey)
  {
    NotDraw("blur");
  }

  lemma BlurOption(value: string)
    requires Readable(value)
    ensures Sole("blur", value) == match ParseFinite(value) {
        case Some(v) => Ok(DEFAULTS.(blur := Some(v)))
        case None => Err(InvalidBlur)
      }
  {
    hide Sole, KeyOf, PlainName, ParseFinite;
    BlurName();
    SoleIs("blur", value);
  }

  lemma DprName()
    ensures PlainName("dpr") && KeyOf("dpr") == Some(DprKey)
  {}

  lemma DprOption(value: string)
    requires Readable(value)
    ensures Sole("dpr", value) == match ParseFinite(value) {
        case Some(v) => Ok(DEFAULTS.(dpr := v))
        case None => Err(InvalidDpr)
      }
  {
    hide Sole, KeyOf, PlainName, ParseFinite;
    DprName();
    SoleIs("dpr", value);
  }

  lemma BrightnessName()
    ensures PlainName("brightness") && KeyOf("brightness") == Some(BrightnessKey)
  {
    NotDraw("brightness");
  }

  lemma BrightnessOption(value: string)
    requires Readable(value)
    ensures Sole("brightness", value) == match ParseFinite(value) {
        case Some(v) => Ok(DEFAULTS.(brightness := Some(v)))
        case None => Err(InvalidBrightness)
      }
  {
    hide Sole, KeyOf, PlainName, ParseFinite;
    BrightnessName();
    SoleIs("brightness", value);
  }

  lemma ContrastName()
    ensures PlainName("contrast") && KeyOf("contrast") == Some(ContrastKey)
  {
    NotDraw("contrast");
  }

  lemma ContrastOption(value: string)
    requires Readable(value)
    ensures Sole("contrast", value) == match ParseFinite(value) {
        case Some(v) => Ok(DEFAULTS.(contrast := Some(v)))
        case None => Err(InvalidContrast)
      }
  {
    hide Sole, KeyOf, PlainName, ParseFinite;
    ContrastName();
    SoleIs("contrast", value);
  }

  lemma SaturationName()
    ensures PlainName("saturation") && KeyOf("saturation") == Some(SaturationKey)
  {
    NotDraw("saturation");
  }

  lemma SaturationOption(value: string)
    requires Readable(value)
    ensures Sole("saturation", value) == match ParseFinite(value) {
        case Some(v) => Ok(DEFAULTS.(saturation := Some(v)))
        case None => Err(InvalidSaturation)
      }
  {
    hide Sole, KeyOf, PlainName, ParseFinite;
    SaturationName();
    SoleIs("saturation", value);
  }

  lemma GammaName()
    ensures PlainName("gamma") && KeyOf("gamma") == Some(GammaKey)
  {
    NotDraw("gamma");
  }

  lemma GammaOption(value: string)
    requires Readable(value)
    ensures Sole("gamma", value) == match ParseFinite(value) {
        case Some(v) => Ok(DEFAULTS.(gamma := Some(v)))
        case None => Err(InvalidGamma)
      }
  {
    hide Sole, KeyOf, PlainName, ParseFinite;
    GammaName();
    SoleIs("gamma", value);
  }

  lemma TrimName()
    ensures PlainName("trim") && KeyOf("trim") == Some(TrimKey)
  {
    NotDraw("trim");
  }

  lemma TrimOption(value: string)
    requires Readable(value)
    ensures Sole("trim", value) == match ParseFinite(value) {
        case Some(v) => Ok(DEFAULTS.(trim := Some(v)))
        case None => Err(InvalidTrim)
      }
  {
    hide Sole, KeyOf, PlainName, ParseFinite;
    TrimName();
    SoleIs("trim", value);
  }

  lemma TrimTopName()
    ensures PlainName("trim.top") && KeyOf("trim.top") == Some(TrimTopKey)
  {
    NotDraw("trim.top");
  }

  lemma TrimTopOption(value: string)
    requires Readable(value)
    ensures Sole("trim.top", value) == match ParseFinite(value) {
        case Some(v) => Ok(DEFAULTS.(trimTop := Some(v)))
        case None => Err(InvalidTrim)
      }
  {
    hide Sole, KeyOf, PlainName, ParseFinite;
    TrimTopName();
    SoleIs("trim.top", value);
  }

  lemma TrimRightName()
    ensures PlainName("trim.right") && KeyOf("trim.right") == Some(TrimRightKey)
  {
    NotDraw("trim.right");
  }

  lemma TrimRightOption(value: string)
    requires Readable(value)
    ensures Sole("trim.right", value) == match ParseFinite(value) {
        case Some(v) => Ok(DEFAULTS.(trimRight := Some(v)))
        case None => Err(InvalidTrim)
      }
  {
    hide Sole, KeyOf, PlainName, ParseFinite;
    TrimRightName();
    SoleIs("trim.right", value);
  }

  lemma TrimBottomName()
    ensures PlainName("trim.bottom") && KeyOf("trim.bottom") == Some(TrimBottomKey)
  {
    NotDraw("trim.bottom");
  }

  lemma TrimBottomOption(value: string)
    requires Readable(value)
    ensures Sole("trim.bottom", value) == match ParseFinite(value) {
        case Some(v) => Ok(DEFAULTS.(trimBottom := Some(v)))
        case None => Err(InvalidTrim)
      }
  {
    hide Sole, KeyOf, PlainName, ParseFinite;
    TrimBottomName();
    SoleIs("trim.bottom", value);
  }

  lemma TrimLeftName()
    ensures PlainName("trim.left") && KeyOf("trim.left") == Some(TrimLeftKey)
  {
    NotDraw("trim.left");
  }

  lemma TrimLeftOption(value: string)
    requires Readable(value)
    ensures Sole("trim.left", value) == match ParseFinite(value) {
        case Some(v) => Ok(DEFAULTS.(trimLeft := Some(v)))
        case None => Err(InvalidTrim)
      }
  {
    hide Sole, KeyOf, PlainName, ParseFinite;
    TrimLeftName();
    SoleIs("trim.left", value);
  }

  /** The value of a digit of either case. */
  lemma HexDigits(d: nat)
    requires d < 16
    ensures HexDigit("0123456789ABCDEF"[d]) == HexDigit("0123456789abcdef"[d]) == Some(d)
    ensures HexChar(d) == "0123456789ABCDEF"[d]
  {}

  /** A colour is three pairs of hexadecimal digits: red, green and blue. */
  lemma ColorsRead(a: nat, b: nat, c: nat, d: nat, e: nat, f: nat)
    requires a < 16 && b < 16 && c < 16 && d < 16 && e < 16 && f < 16
    ensures ParseHexColor([HexChar(a), HexChar(b), HexChar(c), HexChar(d), HexChar(e), HexChar(f)])
         == Some(Color(16 * a + b, 16 * c + d, 16 * e + f))
  {
    HexValue(a);
    HexValue(b);
    HexValue(c);
    HexValue(d);
    HexValue(e);
    HexValue(f);
    hide HexDigit, HexChar;
  }

  lemma HexValue(d: nat)
    requires d < 16
    ensures HexDigit(HexChar(d)) == Some(d)
  {}

  lemma BackgroundName(name: string)
    requires name == "bg" || name == "background"
    ensures PlainName(name) && KeyOf(name) == Some(BackgroundKey)
  {
    NotDraw(name);
  }

  lemma BackgroundOption(name: string, value: string)
    requires (name == "bg" || name == "background") && Readable(value)
    ensures Sole(name, value) == match ParseHexColor(value) {
        case Some(v) => Ok(DEFAULTS.(background := Some(v)))
        case None => Err(InvalidBackground)
      }
  {
    hide Sole, KeyOf, PlainName, ParseHexColor;
    BackgroundName(name);
    SoleIs(name, value);
  }

  lemma BorderColorName()
    ensures PlainName("border.color") && KeyOf("border.color") == Some(BorderColorKey)
  {
    NotDraw("border.color");
  }

  lemma BorderColorOption(value: string)
    requires Readable(value)
    ensures Sole("border.color", value) == match ParseHexColor(value) {
        case Some(v) => Ok(DEFAULTS.(borderColor := Some(v)))
        case None => Err(InvalidBorder)
      }
  {
    hide Sole, KeyOf, PlainName, ParseHexColor;
    BorderColorName();
    SoleIs("border.color", value);
  }

  // ---------------------------------------------------------------------------
  // Enumerated values
  // ---------------------------------------------------------------------------

  lemma FormatName(name: string)
    requires name == "format" || name == "fmt" || name == "f"
    ensures PlainName(name) && KeyOf(name) == Some(FormatKey)
  {
    NotDraw(name);
  }

  const FORMAT_TEXTS: seq<string> := [
    "jpeg", "jpg", "png", "webp", "avif", "gif", "baseline-jpeg", "json", "thumbhash", "auto"]

  lemma FormatValues(value: string)
    ensures value == "jpeg" || value == "jpg" ==> OutputFormat.Parse(value) == Ok(Jpeg)
    ensures value == "png" ==> OutputFormat.Parse(value) == Ok(Png)
    ensures value == "webp" ==> OutputFormat.Parse(value) == Ok(Webp)
    ensures value == "avif" ==> OutputFormat.Parse(value) == Ok(Avif)
    ensures value == "gif" ==> OutputFormat.Parse(value) == Ok(Gif)
    ensures value == "baseline-jpeg" ==> OutputFormat.Parse(value) == Ok(BaselineJpeg)
    ensures value == "json" ==> OutputFormat.Parse(value) == Ok(Json)
    ensures value == "thumbhash" ==> OutputFormat.Parse(value) == Ok(Thumbhash)
    ensures value == "auto" ==> OutputFormat.Parse(value) == Ok(Auto)
  {}

  lemma FormatOthers(value: string)
    requires value !in FORMAT_TEXTS
    ensures OutputFormat.Parse(value) == Err(InvalidFormat)
  {}

  lemma FormatOption(name: string, value: string)
    requires (name == "format" || name == "fmt" || name == "f") && Readable(value)
    ensures value == "jpeg" || value == "jpg" ==> Sole(name, value) == Ok(DEFAULTS.(format := Some(Jpeg)))
    ensures value == "png" ==> Sole(name, value) == Ok(DEFAULTS.(format := Some(Png)))
    ensures value == "webp" ==> Sole(name, value) == Ok(DEFAULTS.(format := Some(Webp)))
    ensures value == "avif" ==> Sole(name, value) == Ok(DEFAULTS.(format := Some(Avif)))
    ensures value == "gif" ==> Sole(name, value) == Ok(DEFAULTS.(format := Some(Gif)))
    ensures value == "baseline-jpeg" ==> Sole(name, value) == Ok(DEFAULTS.(format := Some(BaselineJpeg)))
    ensures value == "json" ==> Sole(name, value) == Ok(DEFAULTS.(format := Some(Json)))
    ensures value == "thumbhash" ==> Sole(name, value) == Ok(DEFAULTS.(format := Some(Thumbhash)))
    ensures value == "auto" ==> Sole(name, value) == Ok(DEFAULTS.(format := Some(Auto)))
    ensures value !in FORMAT_TEXTS ==> Sole(name, value) == Err(InvalidFormat)
  {
    hide Sole, KeyOf, PlainName, OutputFormat.Parse, FORMAT_TEXTS;
    FormatName(name);
    FormatValues(value);
    if value !in FORMAT_TEXTS { FormatOthers(value); }
    SoleIs(name, value);
  }

  lemma FitName()
    ensures PlainName("fit") && KeyOf("fit") == Some(FitKey)
  {
    NotDraw("fit");
  }

  const FIT_TEXTS: seq<string> := [
    "contain", "scale-down", "cover", "fill", "squeeze", "inside", "outside", "scale-up", "pad", "crop", "aspect-crop"]

  lemma FitValues(value: string)
    ensures value == "contain" || value == "scale-down" ==> FitMode.Parse(value) == Ok(Contain)
    ensures value == "cover" ==> FitMode.Parse(value) == Ok(Cover)
    ensures value == "fill" || value == "squeeze" ==> FitMode.Parse(value) == Ok(Fill)
    ensures value == "inside" ==> FitMode.Parse(value) == Ok(Inside)
    ensures value == "outside" || value == "scale-up" ==> FitMode.Parse(value) == Ok(Outside)
    ensures value == "pad" ==> FitMode.Parse(value) == Ok(Pad)
    ensures value == "crop" ==> FitMode.Parse(value) == Ok(Crop)
    ensures value == "aspect-crop" ==> FitMode.Parse(value) == Ok(AspectCrop)
  {}

  lemma FitOthers(value: string)
    requires value !in FIT_TEXTS
    ensures FitMode.Parse(value) == Err(InvalidFitMode)
  {}

  lemma FitOption(value: string)
    requires Readable(value)
    ensures value == "contain" || value == "scale-down" ==> Sole("fit", value) == Ok(DEFAULTS.(fit := Contain))
    ensures value == "cover" ==> Sole("fit", value) == Ok(DEFAULTS.(fit := Cover))
    ensures value == "fill" || value == "squeeze" ==> Sole("fit", value) == Ok(DEFAULTS.(fit := Fill))
    ensures value == "inside" ==> Sole("fit", value) == Ok(DEFAULTS.(fit := Inside))
    ensures value == "outside" || value == "scale-up" ==> Sole("fit", value) == Ok(DEFAULTS.(fit := Outside))
    ensures value == "pad" ==> Sole("fit", value) == Ok(DEFAULTS.(fit := Pad))
    ensures value == "crop" ==> Sole("fit", value) == Ok(DEFAULTS.(fit := Crop))
    ensures value == "aspect-crop" ==> Sole("fit", value) == Ok(DEFAULTS.(fit := AspectCrop))
    ensures value !in FIT_TEXTS ==> Sole("fit", value) == Err(InvalidFitMode)
  {
    hide Sole, KeyOf, PlainName, FitMode.Parse, FIT_TEXTS;
    FitName();
    FitValues(value);
    if value !in FIT_TEXTS { FitOthers(value); }
    SoleIs("fit", value);
  }

  lemma GravityName(name: string)
    requires name == "gravity" || name == "g"
    ensures PlainName(name) && KeyOf(name) == Some(GravityKey)
  {
    NotDraw(name);
  }

  const GRAVITY_TEXTS: seq<string> := [
    "center", "centre", "north", "n", "top", "south", "s", "bottom", "east", "e", "right", "west", "w", "left",
    "northeast", "ne", "northwest", "nw", "southeast", "se", "southwest", "sw", "smart", "auto", "attention", "att"]

  lemma GravityValues(value: string)
    ensures value == "center" || value == "centre" ==> Gravity.Parse(value) == Ok(Center)
    ensures value == "north" || value == "n" || value == "top" ==> Gravity.Parse(value) == Ok(North)
    ensures value == "south" || value == "s" || value == "bottom" ==> Gravity.Parse(value) == Ok(South)
    ensures value == "east" || value == "e" || value == "right" ==> Gravity.Parse(value) == Ok(East)
    ensures value == "west" || value == "w" || value == "left" ==> Gravity.Parse(value) == Ok(West)
    ensures value == "northeast" || value == "ne" ==> Gravity.Parse(value) == Ok(Northeast)
    ensures value == "northwest" || value == "nw" ==> Gravity.Parse(value) == Ok(Northwest)
    ensures value == "southeast" || value == "se" ==> Gravity.Parse(value) == Ok(Southeast)
    ensures value == "southwest" || value == "sw" ==> Gravity.Parse(value) == Ok(Southwest)
    ensures value == "smart" || value == "auto" ==> Gravity.Parse(value) == Ok(Smart)
    ensures value == "attention" || value == "att" ==> Gravity.Parse(value) == Ok(Attention)
  {
    SideGravities(value);
    OtherGravities(value);
    hide Gravity.Parse;
  }

  lemma SideGravities(value: string)
    ensures value == "center" || value == "centre" ==> Gravity.Parse(value) == Ok(Center)
    ensures value == "north" || value == "n" || value == "top" ==> Gravity.Parse(value) == Ok(North)
    ensures value == "south" || value == "s" || value == "bottom" ==> Gravity.Parse(value) == Ok(South)
    ensures value == "east" || value == "e" || value == "right" ==> Gravity.Parse(value) == Ok(East)
    ensures value == "west" || value == "w" || value == "left" ==> Gravity.Parse(value) == Ok(West)
  {}

  lemma OtherGravities(value: string)
    ensures value == "northeast" || value == "ne" ==> Gravity.Parse(value) == Ok(Northeast)
    ensures value == "northwest" || value == "nw" ==> Gravity.Parse(value) == Ok(Northwest)
    ensures value == "southeast" || value == "se" ==> Gravity.Parse(value) == Ok(Southeast)
    ensures value == "southwest" || value == "sw" ==> Gravity.Parse(value) == Ok(Southwest)
    ensures value == "smart" || value == "auto" ==> Gravity.Parse(value) == Ok(Smart)
    ensures value == "attention" || value == "att" ==> Gravity.Parse(value) == Ok(Attention)
  {}

  lemma GravityOthers(value: string)
    requires value !in GRAVITY_TEXTS
    ensures Gravity.Parse(value) == Err(InvalidGravity)
  {}

  lemma GravityOption(name: string, value: string)
    requires (name == "gravity" || name == "g") && Readable(value)
    ensures value == "center" || value == "centre" ==> Sole(name, value) == Ok(DEFAULTS.(gravity := Center))
    ensures value == "north" || value == "n" || value == "top" ==> Sole(name, value) == Ok(DEFAULTS.(gravity := North))
    ensures value == "south" || value == "s" || value == "bottom" ==>
      Sole(name, value) == Ok(DEFAULTS.(gravity := South))
    ensures value == "east" || value == "e" || value == "right" ==> Sole(name, value) == Ok(DEFAULTS.(gravity := East))
    ensures value == "west" || value == "w" || value == "left" ==> Sole(name, value) == Ok(DEFAULTS.(gravity := West))
    ensures value == "northeast" || value == "ne" ==> Sole(name, value) == Ok(DEFAULTS.(gravity := Northeast))
    ensures value == "northwest" || value == "nw" ==> Sole(name, value) == Ok(DEFAULTS.(gravity := Northwest))
    ensures value == "southeast" || value == "se" ==> Sole(name, value) == Ok(DEFAULTS.(gravity := Southeast))
    ensures value == "southwest" || value == "sw" ==> Sole(name, value) == Ok(DEFAULTS.(gravity := Southwest))
    ensures value == "smart" || value == "auto" ==> Sole(name, value) == Ok(DEFAULTS.(gravity := Smart))
    ensures value == "attention" || value == "att" ==> Sole(name, value) == Ok(DEFAULTS.(gravity := Attention))
    ensures value !in GRAVITY_TEXTS ==> Sole(name, value) == Err(InvalidGravity)
  {
    hide Sole, KeyOf, PlainName, Gravity.Parse, GRAVITY_TEXTS;
    GravityName(name);
    GravityValues(value);
    if value !in GRAVITY_TEXTS { GravityOthers(value); }
    SoleIs(name, value);
  }

  lemma RotateName()
    ensures PlainName("rotate") && KeyOf("rotate") == Some(RotateKey)
  {
    NotDraw("rotate");
  }

  const ROTATE_TEXTS: seq<string> := [
    "0", "90", "180", "270"]

  lemma RotateValues(value: string)
    ensures value == "0" ==> Rotation.Parse(value) == Ok(Deg0)
    ensures value == "90" ==> Rotation.Parse(value) == Ok(Deg90)
    ensures value == "180" ==> Rotation.Parse(value) == Ok(Deg180)
    ensures value == "270" ==> Rotation.Parse(value) == Ok(Deg270)
  {}

  lemma RotateOthers(value: string)
    requires value !in ROTATE_TEXTS
    ensures Rotation.Parse(value) == Err(InvalidRotation)
  {}

  lemma RotateOption(value: string)
    requires Readable(value)
    ensures value == "0" ==> Sole("rotate", value) == Ok(DEFAULTS.(rotate := Some(Deg0)))
    ensures value == "90" ==> Sole("rotate", value) == Ok(DEFAULTS.(rotate := Some(Deg90)))
    ensures value == "180" ==> Sole("rotate", value) == Ok(DEFAULTS.(rotate := Some(Deg180)))
    ensures value == "270" ==> Sole("rotate", value) == Ok(DEFAULTS.(rotate := Some(Deg270)))
    ensures value !in ROTATE_TEXTS ==> Sole("rotate", value) == Err(InvalidRotation)
  {
    hide Sole, KeyOf, PlainName, Rotation.Parse, ROTATE_TEXTS;
    RotateName();
    RotateValues(value);
    if value !in ROTATE_TEXTS { RotateOthers(value); }
    SoleIs("rotate", value);
  }

  lemma FlipName()
    ensures PlainName("flip") && KeyOf("flip") == Some(FlipKey)
  {
    NotDraw("flip");
  }

  const FLIP_TEXTS: seq<string> := [
    "h", "v", "hv", "vh"]

  lemma FlipValues(value: string)
    ensures value == "h" ==> FlipMode.Parse(value) == Ok(H)
    ensures value == "v" ==> FlipMode.Parse(value) == Ok(V)
    ensures value == "hv" || value == "vh" ==> FlipMode.Parse(value) == Ok(Hv)
  {}

  lemma FlipOthers(value: string)
    requires value !in FLIP_TEXTS
    ensures FlipMode.Parse(value) == Err(InvalidFlip)
  {}

  lemma FlipOption(value: string)
    requires Readable(value)
    ensures value == "h" ==> Sole("flip", value) == Ok(DEFAULTS.(flip := Some(H)))
    ensures value == "v" ==> Sole("flip", value) == Ok(DEFAULTS.(flip := Some(V)))
    ensures value == "hv" || value == "vh" ==> Sole("flip", value) == Ok(DEFAULTS.(flip := Some(Hv)))
    ensures value !in FLIP_TEXTS ==> Sole("flip", value) == Err(InvalidFlip)
  {
    hide Sole, KeyOf, PlainName, FlipMode.Parse, FLIP_TEXTS;
    FlipName();
    FlipValues(value);
    if value !in FLIP_TEXTS { FlipOthers(value); }
    SoleIs("flip", value);
  }

  lemma MetadataName()
    ensures PlainName("metadata") && KeyOf("metadata") == Some(MetadataKey)
  {
    NotDraw("metadata");
  }

  const METADATA_TEXTS: seq<string> := [
    "strip", "none", "keep", "all", "copyright"]

  lemma MetadataValues(value: string)
    ensures value == "strip" || value == "none" ==> MetadataMode.Parse(value) == Ok(Strip)
    ensures value == "keep" || value == "all" ==> MetadataMode.Parse(value) == Ok(Keep)
    ensures value == "copyright" ==> MetadataMode.Parse(value) == Ok(Copyright)
  {}

  lemma MetadataOthers(value: string)
    requires value !in METADATA_TEXTS
    ensures MetadataMode.Parse(value) == Err(InvalidMetadata)
  {}

  lemma MetadataOption(value: string)
    requires Readable(value)
    ensures value == "strip" || value == "none" ==> Sole("metadata", value) == Ok(DEFAULTS.(metadata := Strip))
    ensures value == "keep" || value == "all" ==> Sole("metadata", value) == Ok(DEFAULTS.(metadata := Keep))
    ensures value == "copyright" ==> Sole("metadata", value) == Ok(DEFAULTS.(metadata := Copyright))
    ensures value !in METADATA_TEXTS ==> Sole("metadata", value) == Err(InvalidMetadata)
  {
    hide Sole, KeyOf, PlainName, MetadataMode.Parse, METADATA_TEXTS;
    MetadataName();
    MetadataValues(value);
    if value !in METADATA_TEXTS { MetadataOthers(value); }
    SoleIs("metadata", value);
  }

  lemma AnimName()
    ensures PlainName("anim") && KeyOf("anim") == Some(AnimKey)
  {
    NotDraw("anim");
  }

  const ANIM_TEXTS: seq<string> := [
    "auto", "true", "static", "false", "animate"]

  lemma AnimValues(value: string)
    ensures value == "auto" || value == "true" ==> AnimMode.Parse(value) == Ok(AnimAuto)
    ensures value == "static" || value == "false" ==> AnimMode.Parse(value) == Ok(Static)
    ensures value == "animate" ==> AnimMode.Parse(value) == Ok(Animate)
  {}

  lemma AnimOthers(value: string)
    requires value !in ANIM_TEXTS
    ensures AnimMode.Parse(value) == Err(InvalidAnim)
  {}

  lemma AnimOption(value: string)
    requires Readable(value)
    ensures value == "auto" || value == "true" ==> Sole("anim", value) == Ok(DEFAULTS.(anim := AnimAuto))
    ensures value == "static" || value == "false" ==> Sole("anim", value) == Ok(DEFAULTS.(anim := Static))
    ensures value == "animate" ==> Sole("anim", value) == Ok(DEFAULTS.(anim := Animate))
    ensures value !in ANIM_TEXTS ==> Sole("anim", value) == Err(InvalidAnim)
  {
    hide Sole, KeyOf, PlainName, AnimMode.Parse, ANIM_TEXTS;
    AnimName();
    AnimValues(value);
    if value !in ANIM_TEXTS { AnimOthers(value); }
    SoleIs("anim", value);
  }

  lemma OnErrorName()
    ensures PlainName("onerror") && KeyOf("onerror") == Some(OnErrorKey)
  {
    NotDraw("onerror");
  }

  const ONERROR_TEXTS: seq<string> := [
    "redirect"]

  lemma OnErrorValues(value: string)
    ensures value == "redirect" ==> OnErrorMode.Parse(value) == Ok(Redirect)
  {}

  lemma OnErrorOthers(value: string)
    requires value !in ONERROR_TEXTS
    ensures OnErrorMode.Parse(value) == Err(InvalidOnError)
  {}

  lemma OnErrorOption(value: string)
    requires Readable(value)
    ensures value == "redirect" ==> Sole("onerror", value) == Ok(DEFAULTS.(onerror := Some(Redirect)))
    ensures value !in ONERROR_TEXTS ==> Sole("onerror", value) == Err(InvalidOnError)
  {
    hide Sole, KeyOf, PlainName, OnErrorMode.Parse, ONERROR_TEXTS;
    OnErrorName();
    OnErrorValues(value);
    if value !in ONERROR_TEXTS { OnErrorOthers(value); }
    SoleIs("onerror", value);
  }

  lemma CompressionName()
    ensures PlainName("compression") && KeyOf("compression") == Some(CompressionKey)
  {
    NotDraw("compression");
  }

  const COMPRESSION_TEXTS: seq<string> := [
    "fast"]

  lemma CompressionValues(value: string)
    ensures value == "fast" ==> CompressionMode.Parse(value) == Ok(Fast)
  {}

  lemma CompressionOthers(value: string)
    requires value !in COMPRESSION_TEXTS
    ensures CompressionMode.Parse(value) == Err(InvalidCompression)
  {}

  lemma CompressionOption(value: string)
    requires Readable(value)
    ensures value == "fast" ==> Sole("compression", value) == Ok(DEFAULTS.(compression := Some(Fast)))
    ensures value !in COMPRESSION_TEXTS ==> Sole("compression", value) == Err(InvalidCompression)
  {
    hide Sole, KeyOf, PlainName, CompressionMode.Parse, COMPRESSION_TEXTS;
    CompressionName();
    CompressionValues(value);
    if value !in COMPRESSION_TEXTS { CompressionOthers(value); }
    SoleIs("compression", value);
  }

  // ---------------------------------------------------------------------------
  // Names
  // ---------------------------------------------------------------------------

  const NAMES: seq<string> := [
    "w", "width", "h", "height", "q", "quality", "format", "fmt", "f", "fit", "gravity", "g", "sharpen", "blur", "dpr",
    "rotate", "flip", "brightness", "contrast", "saturation", "gamma", "bg", "background", "metadata", "trim", "anim",
    "frame", "trim.top", "trim.right", "trim.bottom", "trim.left", "onerror", "compression", "scq",
    "slow-connection-quality", "border", "border.color", "border.top", "border.right", "border.bottom", "border.left"]

  lemma OnlyNames(name: string)
    ensures name !in NAMES ==> KeyOf(name) == None
  {}

  /** Every other name is refused, but for those of overlays. */
  lemma OtherNames(name: string, value: string)
    requires PlainName(name) && name !in NAMES && Readable(value)
    ensures Sole(name, value) == Err(InvalidParameter)
  {
    OnlyNames(name);
    hide KeyOf, NAMES, PlainName, Sole;
    SoleIs(name, value);
  }

  // ---------------------------------------------------------------------------
  // Overlays
  // ---------------------------------------------------------------------------

  function OverlayName(index: nat, field: string): string {
    "draw." + Decimal(index) + ['.'] + field
  }

  /** The options whose overlay of this index is the given one, with nothing set in the ones before it. */
  function WithOverlay(index: nat, d: DrawOverlay): TransformParams {
    DEFAULTS.(draw := seq(index, i => DEFAULT_DRAW) + [d])
  }

  lemma OverlayPair(index: nat, field: string, value: string)
    requires ',' !in field && '=' !in field && Readable(value)
    ensures Sole(OverlayName(index, field), value)
         == match SetDraw([], Decimal(index) + ['.'] + field, value) {
              case Ok(draw) => Ok(DEFAULTS.(draw := draw))
              case Err(e) => Err(e)
            }
  {
    var name, rest := OverlayName(index, field), Decimal(index) + ['.'] + field;
    assert DRAW_PREFIX == "draw." && name == DRAW_PREFIX + rest;
    NameChars(index, field);
    hide KeyOf, SetField, SetDraw, Sole, Decimal, OverlayName;
    SolePair(name, value);
    IndexOfKey(name, value, '=');
    var pair := name + ['='] + value;
    assert pair[..|name|] == name && pair[|name| + 1..] == value;
    assert name[|DRAW_PREFIX|..] == rest;
  }

  lemma NameChars(index: nat, field: string)
    requires ',' !in field && '=' !in field
    ensures ',' !in OverlayName(index, field) && '=' !in OverlayName(index, field)
  {
    hide Decimal;
    assert forall c :: c in Decimal(index) ==> IsDigit(c);
  }

  /** One overlay pair on its own: an index from 64 on is refused, and so is an unknown field. */
  lemma OverlayIs(index: nat, field: string, value: string)
    requires index < USIZE_LIMIT && ',' !in field && '=' !in field && Readable(value)
    ensures Sole(OverlayName(index, field), value)
         == if index >= 64 then Err(InvalidDraw)
            else match DrawKeyOf(field) {
              case None => Err(InvalidParameter)
              case Some(k) =>
                match SetDrawField(DEFAULT_DRAW, k, value) {
                  case Ok(d) => Ok(WithOverlay(index, d))
                  case Err(e) => Err(e)
                }
            }
  {
    hide DrawKeyOf, SetDrawField, Decimal, ParseUnsigned, Sole, SetDraw, OverlayName;
    OverlayPair(index, field, value);
    OverlaySet(index, field, value);
    assert forall d :: DEFAULTS.(draw := WithOverlay(index, d).draw) == WithOverlay(index, d);
  }

  /** The overlays when the one of this index is set, with nothing set in the ones before it. */
  function SetAt(index: nat, d: Result<DrawOverlay, ParseError>): Result<seq<DrawOverlay>, ParseError> {
    match d
    case Ok(overlay) => Ok(WithOverlay(index, overlay).draw)
    case Err(e) => Err(e)
  }

  function FieldSet(field: string, value: string): Result<DrawOverlay, ParseError> {
    match DrawKeyOf(field)
    case None => Err(InvalidParameter)
    case Some(k) => SetDrawField(DEFAULT_DRAW, k, value)
  }

  lemma OverlaySet(index: nat, field: string, value: string)
    requires index < USIZE_LIMIT
    ensures SetDraw([], Decimal(index) + ['.'] + field, value)
         == if index >= 64 then Err(InvalidDraw) else SetAt(index, FieldSet(field, value))
  {
    hide DrawKeyOf, SetDrawField, Decimal, ParseUnsigned, Grown, WithOverlay;
    var rest := Decimal(index) + ['.'] + field;
    NoDot(index);
    IndexOfKey(Decimal(index), field, '.');
    UnsignedRoundTrip(index, USIZE_LIMIT);
    assert rest[..|Decimal(index)|] == Decimal(index) && rest[|Decimal(index)| + 1..] == field;
    if index < 64 {
      OnlyLast(index);
      assert Grown([], index + 1)[index] == DEFAULT_DRAW;
    }
  }

  lemma NoDot(index: nat)
    ensures '.' !in Decimal(index)
  {
    assert forall c :: c in Decimal(index) ==> IsDigit(c);
  }

  lemma OnlyLast(index: nat)
    ensures forall d :: Grown([], index + 1)[index := d] == WithOverlay(index, d).draw
  {
    var grown := Grown([], index + 1);
    forall d ensures grown[index := d] == WithOverlay(index, d).draw {
      assert forall i :: 0 <= i < index ==> grown[i] == DEFAULT_DRAW;
    }
  }

  lemma SideFields()
    ensures DrawKeyOf("width") == Some(DrawWidth) && ',' !in "width" && '=' !in "width"
    ensures DrawKeyOf("height") == Some(DrawHeight) && ',' !in "height" && '=' !in "height"
    ensures DrawKeyOf("top") == Some(DrawTop) && ',' !in "top" && '=' !in "top"
    ensures DrawKeyOf("left") == Some(DrawLeft) && ',' !in "left" && '=' !in "left"
    ensures DrawKeyOf("bottom") == Some(DrawBottom) && ',' !in "bottom" && '=' !in "bottom"
    ensures DrawKeyOf("right") == Some(DrawRight) && ',' !in "right" && '=' !in "right"
    ensures DrawKeyOf("opacity") == Some(DrawOpacity) && ',' !in "opacity" && '=' !in "opacity"
  {}

  lemma LookFields()
    ensures DrawKeyOf("url") == Some(DrawUrl) && ',' !in "url" && '=' !in "url"
    ensures DrawKeyOf("repeat") == Some(DrawRepeatKey) && ',' !in "repeat" && '=' !in "repeat"
    ensures DrawKeyOf("background") == Some(DrawBackground) && ',' !in "background" && '=' !in "background"
    ensures DrawKeyOf("rotate") == Some(DrawRotate) && ',' !in "rotate" && '=' !in "rotate"
    ensures DrawKeyOf("fit") == Some(DrawFit) && ',' !in "fit" && '=' !in "fit"
    ensures DrawKeyOf("gravity") == Some(DrawGravity) && ',' !in "gravity" && '=' !in "gravity"
  {}

  /** The sides and the opacity of an overlay. */
  lemma OverlayFloats(index: nat, value: string, v: Finite)
    requires index < 64 && Readable(value) && ParseFinite(value) == Some(v)
    ensures Sole(OverlayName(index, "width"), value) == Ok(WithOverlay(index, DEFAULT_DRAW.(width := Some(v))))
    ensures Sole(OverlayName(index, "height"), value) == Ok(WithOverlay(index, DEFAULT_DRAW.(height := Some(v))))
    ensures Sole(OverlayName(index, "top"), value) == Ok(WithOverlay(index, DEFAULT_DRAW.(top := Some(v))))
    ensures Sole(OverlayName(index, "left"), value) == Ok(WithOverlay(index, DEFAULT_DRAW.(left := Some(v))))
    ensures Sole(OverlayName(index, "bottom"), value) == Ok(WithOverlay(index, DEFAULT_DRAW.(bottom := Some(v))))
    ensures Sole(OverlayName(index, "right"), value) == Ok(WithOverlay(index, DEFAULT_DRAW.(right := Some(v))))
    ensures Sole(OverlayName(index, "opacity"), value) == Ok(WithOverlay(index, DEFAULT_DRAW.(opacity := Some(v))))
  {
    hide Sole, OverlayName, WithOverlay, DrawKeyOf, ParseFinite;
    SideFields();
    OverlayIs(index, "width", value);
    OverlayIs(index, "height", value);
    OverlayIs(index, "top", value);
    OverlayIs(index, "left", value);
    OverlayIs(index, "bottom", value);
    OverlayIs(index, "right", value);
    OverlayIs(index, "opacity", value);
  }

  /** Its address, background, turn, fit, gravity and repetition. */
  lemma OverlayLooks(index: nat, value: string)
    requires index < 64 && Readable(value)
    ensures Sole(OverlayName(index, "url"), value) == Ok(WithOverlay(index, DEFAULT_DRAW.(url := Some(value))))
    ensures Sole(OverlayName(index, "background"), value) == match ParseHexColor(value) {
        case Some(v) => Ok(WithOverlay(index, DEFAULT_DRAW.(background := Some(v))))
        case None => Err(InvalidDraw)
      }
    ensures Sole(OverlayName(index, "rotate"), value) == match Rotation.Parse(value) {
        case Ok(v) => Ok(WithOverlay(index, DEFAULT_DRAW.(rotate := Some(v))))
        case Err(e) => Err(e)
      }
    ensures Sole(OverlayName(index, "fit"), value) == match FitMode.Parse(value) {
        case Ok(v) => Ok(WithOverlay(index, DEFAULT_DRAW.(fit := Some(v))))
        case Err(e) => Err(e)
      }
    ensures Sole(OverlayName(index, "gravity"), value) == match Gravity.Parse(value) {
        case Ok(v) => Ok(WithOverlay(index, DEFAULT_DRAW.(gravity := Some(v))))
        case Err(e) => Err(e)
      }
    ensures value == "true" ==>
      Sole(OverlayName(index, "repeat"), value) == Ok(WithOverlay(index, DEFAULT_DRAW.(repeat := Some(Both))))
    ensures value == "x" ==>
      Sole(OverlayName(index, "repeat"), value) == Ok(WithOverlay(index, DEFAULT_DRAW.(repeat := Some(AlongX))))
    ensures value == "y" ==>
      Sole(OverlayName(index, "repeat"), value) == Ok(WithOverlay(index, DEFAULT_DRAW.(repeat := Some(AlongY))))
    ensures value != "true" && value != "x" && value != "y" ==>
      Sole(OverlayName(index, "repeat"), value) == Err(InvalidDraw)
  {
    hide Sole, OverlayName, WithOverlay, DrawKeyOf, ParseHexColor, Rotation.Parse, FitMode.Parse, Gravity.Parse;
    LookFields();
    OverlayIs(index, "url", value);
    OverlayIs(index, "background", value);
    OverlayIs(index, "rotate", value);
    OverlayIs(index, "fit", value);
    OverlayIs(index, "gravity", value);
    OverlayIs(index, "repeat", value);
  }
}
