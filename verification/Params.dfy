/** The transform options: their text grammar and the canonical cache-key text. */
module Params {
  import opened Text
  import opened Numbers

  type U32 = n: nat | n < U32_LIMIT

  const MAX_DRAW_ENTRIES: nat := 64

  datatype ParseError =
    | InvalidWidth | InvalidHeight | InvalidFormat | InvalidQuality | InvalidFitMode | InvalidGravity
    | InvalidSharpen | InvalidBlur | InvalidDpr | InvalidRotation | InvalidFlip | InvalidBrightness
    | InvalidContrast | InvalidSaturation | InvalidGamma | InvalidBackground | InvalidMetadata | InvalidTrim
    | InvalidAnim | InvalidFrame | InvalidParameter | EmptyValue | InvalidOnError | InvalidCompression
    | InvalidBorder | InvalidDraw

  // ---------------------------------------------------------------------------
  // Enumerated values
  // ---------------------------------------------------------------------------

  datatype OutputFormat = Auto | Jpeg | Png | Webp | Avif | Gif | BaselineJpeg | Json | Thumbhash {
    static function Parse(s: string): Result<OutputFormat, ParseError> {
      match s
      case "jpeg" | "jpg" => Ok(Jpeg)
      case "png" => Ok(Png)
      case "webp" => Ok(Webp)
      case "avif" => Ok(Avif)
      case "gif" => Ok(Gif)
      case "baseline-jpeg" => Ok(BaselineJpeg)
      case "json" => Ok(Json)
      case "thumbhash" => Ok(Thumbhash)
      case "auto" => Ok(Auto)
      case _ => Err(InvalidFormat)
    }

    function Name(): string {
      match this
      case Jpeg => "jpeg"
      case Png => "png"
      case Webp => "webp"
      case Avif => "avif"
      case Gif => "gif"
      case BaselineJpeg => "baseline-jpeg"
      case Json => "json"
      case Thumbhash => "thumbhash"
      case Auto => "auto"
    }

    function ContentType(): string {
      match this
      case Jpeg | BaselineJpeg => "image/jpeg"
      case Png => "image/png"
      case Webp => "image/webp"
      case Avif => "image/avif"
      case Gif => "image/gif"
      case Json => "application/json"
      case Thumbhash => "text/plain; charset=utf-8"
      case Auto => "application/octet-stream"
    }

    predicate SupportsAnimation() {
      Gif? || Webp?
    }
  }

  datatype Rotation = Deg0 | Deg90 | Deg180 | Deg270 {
    static function Parse(s: string): Result<Rotation, ParseError> {
      match s
      case "0" => Ok(Deg0)
      case "90" => Ok(Deg90)
      case "180" => Ok(Deg180)
      case "270" => Ok(Deg270)
      case _ => Err(InvalidRotation)
    }

    function Name(): string {
      match this
      case Deg0 => "0"
      case Deg90 => "90"
      case Deg180 => "180"
      case Deg270 => "270"
    }
  }

  datatype FlipMode = H | V | Hv {
    static function Parse(s: string): Result<FlipMode, ParseError> {
      match s
      case "h" => Ok(H)
      case "v" => Ok(V)
      case "hv" | "vh" => Ok(Hv)
      case _ => Err(InvalidFlip)
    }

    function Name(): string {
      match this
      case H => "h"
      case V => "v"
      case Hv => "hv"
    }
  }

  datatype MetadataMode = Strip | Keep | Copyright {
    static function Parse(s: string): Result<MetadataMode, ParseError> {
      match s
      case "strip" | "none" => Ok(Strip)
      case "keep" | "all" => Ok(Keep)
      case "copyright" => Ok(Copyright)
      case _ => Err(InvalidMetadata)
    }

    function Name(): string {
      match this
      case Strip => "strip"
      case Keep => "keep"
      case Copyright => "copyright"
    }
  }

  datatype OnErrorMode = Redirect {
    static function Parse(s: string): Result<OnErrorMode, ParseError> {
      if s == "redirect" then Ok(Redirect) else Err(InvalidOnError)
    }
  }

  datatype CompressionMode = Fast {
    static function Parse(s: string): Result<CompressionMode, ParseError> {
      if s == "fast" then Ok(Fast) else Err(InvalidCompression)
    }

    function Name(): string { "fast" }
  }

  datatype DrawRepeat = Both | AlongX | AlongY {
    static function Parse(s: string): Result<DrawRepeat, ParseError> {
      match s
      case "true" => Ok(Both)
      case "x" => Ok(AlongX)
      case "y" => Ok(AlongY)
      case _ => Err(InvalidDraw)
    }

    function Name(): string {
      match this
      case Both => "true"
      case AlongX => "x"
      case AlongY => "y"
    }
  }

  datatype AnimMode = AnimAuto | Static | Animate {
    static function Parse(s: string): Result<AnimMode, ParseError> {
      match s
      case "auto" | "true" => Ok(AnimAuto)
      case "static" | "false" => Ok(Static)
      case "animate" => Ok(Animate)
      case _ => Err(InvalidAnim)
    }

    function Name(): string {
      match this
      case AnimAuto => "auto"
      case Static => "static"
      case Animate => "animate"
    }
  }

  datatype FitMode = Contain | Cover | Fill | Inside | Outside | Pad | Crop | AspectCrop {
    static function Parse(s: string): Result<FitMode, ParseError> {
      match s
      case "contain" | "scale-down" => Ok(Contain)
      case "cover" => Ok(Cover)
      case "fill" | "squeeze" => Ok(Fill)
      case "inside" => Ok(Inside)
      case "outside" | "scale-up" => Ok(Outside)
      case "pad" => Ok(Pad)
      case "crop" => Ok(Crop)
      case "aspect-crop" => Ok(AspectCrop)
      case _ => Err(InvalidFitMode)
    }

    function Name(): string {
      match this
      case Contain => "contain"
      case Cover => "cover"
      case Fill => "fill"
      case Inside => "inside"
      case Outside => "outside"
      case Pad => "pad"
      case Crop => "crop"
      case AspectCrop => "aspect-crop"
    }
  }

  datatype Gravity =
    | Center | North | South | East | West | Northeast | Northwest | Southeast | Southwest | Smart | Attention
  {
    static function Parse(s: string): Result<Gravity, ParseError> {
      match s
      case "center" | "centre" => Ok(Center)
      case "north" | "n" | "top" => Ok(North)
      case "south" | "s" | "bottom" => Ok(South)
      case "east" | "e" | "right" => Ok(East)
      case "west" | "w" | "left" => Ok(West)
      case "northeast" | "ne" => Ok(Northeast)
      case "northwest" | "nw" => Ok(Northwest)
      case "southeast" | "se" => Ok(Southeast)
      case "southwest" | "sw" => Ok(Southwest)
      case "smart" | "auto" => Ok(Smart)
      case "attention" | "att" => Ok(Attention)
      case _ => Err(InvalidGravity)
    }

    function Name(): string {
      match this
      case Center => "center"
      case North => "north"
      case South => "south"
      case East => "east"
      case West => "west"
      case Northeast => "northeast"
      case Northwest => "northwest"
      case Southeast => "southeast"
      case Southwest => "southwest"
      case Smart => "smart"
      case Attention => "attention"
    }
  }

  // ---------------------------------------------------------------------------
  // Colours and quality
  // ---------------------------------------------------------------------------

  datatype Color = Color(r: U8, g: U8, b: U8)

  function HexChar(d: nat): char
    requires d < 16
  {
    if d < 10 then '0' + d as char else 'A' + (d - 10) as char
  }

  function HexDigit(c: char): Option<nat> {
    if '0' <= c <= '9' then Some((c - '0') as int)
    else if 'A' <= c <= 'F' then Some((c - 'A') as int + 10)
    else if 'a' <= c <= 'f' then Some((c - 'a') as int + 10)
    else None
  }

  function HexByte(n: U8): string {
    [HexChar(n / 16), HexChar(n % 16)]
  }

  /** `u8::from_str_radix(_, 16)` on two characters: a plus sign may stand for the first digit. */
  function ParseHexByte(hi: char, lo: char): (n: Option<U8>) {
    match (HexDigit(hi), HexDigit(lo))
    case (Some(h), Some(l)) =>
      HexDigitBound(hi);
      HexDigitBound(lo);
      Some(16 * h + l)
    case (None, Some(l)) =>
      HexDigitBound(lo);
      if hi == '+' then Some(l) else None
    case _ => None
  }

  lemma HexDigitBound(c: char)
    ensures HexDigit(c).Some? ==> HexDigit(c).value < 16
  {}

  function HexColor(c: Color): string {
    HexByte(c.r) + HexByte(c.g) + HexByte(c.b)
  }

  function ParseHexColor(s: string): Option<Color> {
    if |s| != 6 then None
    else
      match (ParseHexByte(s[0], s[1]), ParseHexByte(s[2], s[3]), ParseHexByte(s[4], s[5]))
      case (Some(r), Some(g), Some(b)) => Some(Color(r, g, b))
      case _ => None
  }

  function ParseQuality(s: string): Result<U8, ParseError> {
    match s
    case "high" => Ok(90)
    case "medium-high" => Ok(80)
    case "medium-low" => Ok(60)
    case "low" => Ok(40)
    case _ =>
      match ParseUnsigned(s, U32_LIMIT)
      case None => Err(InvalidQuality)
      case Some(q) => if q > 255 then Err(InvalidQuality) else Ok(q)
  }

  // ---------------------------------------------------------------------------
  // Draw overlays
  // ---------------------------------------------------------------------------

  datatype DrawOverlay = DrawOverlay(
    url: Option<string>,
    width: Option<Finite>,
    height: Option<Finite>,
    top: Option<Finite>,
    left: Option<Finite>,
    bottom: Option<Finite>,
    right: Option<Finite>,
    opacity: Option<Finite>,
    repeat: Option<DrawRepeat>,
    background: Option<Color>,
    rotate: Option<Rotation>,
    fit: Option<FitMode>,
    gravity: Option<Gravity>)

  const DEFAULT_DRAW: DrawOverlay :=
    DrawOverlay(None, None, None, None, None, None, None, None, None, None, None, None, None)

  datatype DrawKey =
    | DrawUrl | DrawWidth | DrawHeight | DrawTop | DrawLeft | DrawBottom | DrawRight | DrawOpacity
    | DrawRepeatKey | DrawBackground | DrawRotate | DrawFit | DrawGravity

  function DrawName(k: DrawKey): string {
    match k
    case DrawUrl => "url"
    case DrawWidth => "width"
    case DrawHeight => "height"
    case DrawTop => "top"
    case DrawLeft => "left"
    case DrawBottom => "bottom"
    case DrawRight => "right"
    case DrawOpacity => "opacity"
    case DrawRepeatKey => "repeat"
    case DrawBackground => "background"
    case DrawRotate => "rotate"
    case DrawFit => "fit"
    case DrawGravity => "gravity"
  }

  function DrawKeyOf(field: string): Option<DrawKey> {
    match field
    case "url" => Some(DrawUrl)
    case "width" => Some(DrawWidth)
    case "height" => Some(DrawHeight)
    case "top" => Some(DrawTop)
    case "left" => Some(DrawLeft)
    case "bottom" => Some(DrawBottom)
    case "right" => Some(DrawRight)
    case "opacity" => Some(DrawOpacity)
    case "repeat" => Some(DrawRepeatKey)
    case "background" => Some(DrawBackground)
    case "rotate" => Some(DrawRotate)
    case "fit" => Some(DrawFit)
    case "gravity" => Some(DrawGravity)
    case _ => None
  }

  function ReadFinite(value: string, error: ParseError): Result<Finite, ParseError> {
    OrErr(ParseFinite(value), error)
  }

  function ReadU32(value: string, error: ParseError): Result<U32, ParseError> {
    match ParseUnsigned(value, U32_LIMIT)
    case Some(n) => Ok(n)
    case None => Err(error)
  }

  function ReadColor(value: string, error: ParseError): Result<Color, ParseError> {
    OrErr(ParseHexColor(value), error)
  }

  function SetDrawField(d: DrawOverlay, k: DrawKey, value: string): Result<DrawOverlay, ParseError> {
    match k
    case DrawUrl => Ok(d.(url := Some(value)))
    case DrawWidth => var v :- ReadFinite(value, InvalidDraw); Ok(d.(width := Some(v)))
    case DrawHeight => var v :- ReadFinite(value, InvalidDraw); Ok(d.(height := Some(v)))
    case DrawTop => var v :- ReadFinite(value, InvalidDraw); Ok(d.(top := Some(v)))
    case DrawLeft => var v :- ReadFinite(value, InvalidDraw); Ok(d.(left := Some(v)))
    case DrawBottom => var v :- ReadFinite(value, InvalidDraw); Ok(d.(bottom := Some(v)))
    case DrawRight => var v :- ReadFinite(value, InvalidDraw); Ok(d.(right := Some(v)))
    case DrawOpacity => var v :- ReadFinite(value, InvalidDraw); Ok(d.(opacity := Some(v)))
    case DrawRepeatKey => var v :- DrawRepeat.Parse(value); Ok(d.(repeat := Some(v)))
    case DrawBackground => var v :- ReadColor(value, InvalidDraw); Ok(d.(background := Some(v)))
    case DrawRotate => var v :- Rotation.Parse(value); Ok(d.(rotate := Some(v)))
    case DrawFit => var v :- FitMode.Parse(value); Ok(d.(fit := Some(v)))
    case DrawGravity => var v :- Gravity.Parse(value); Ok(d.(gravity := Some(v)))
  }

  /** `while draw.len() < n { draw.push(default) }`. */
  function Grown(draw: seq<DrawOverlay>, n: nat): (grown: seq<DrawOverlay>)
    ensures |grown| == if |draw| < n then n else |draw|
    ensures draw <= grown
    ensures forall i :: |draw| <= i < |grown| ==> grown[i] == DEFAULT_DRAW
    decreases n - |draw|
  {
    if |draw| < n then Grown(draw + [DEFAULT_DRAW], n) else draw
  }

  /** One `draw.<index>.<field>=<value>` pair; `rest` is the text after `draw.`. */
  function SetDraw(draw: seq<DrawOverlay>, rest: string, value: string): Result<seq<DrawOverlay>, ParseError> {
    var dot :- OrErr(IndexOf(rest, '.'), InvalidParameter);
    var index :- OrErr(ParseUnsigned(rest[..dot], USIZE_LIMIT), InvalidParameter);
    if index >= MAX_DRAW_ENTRIES then Err(InvalidDraw)
    else
      var grown := Grown(draw, index + 1);
      var key :- OrErr(DrawKeyOf(rest[dot + 1..]), InvalidParameter);
      var entry :- SetDrawField(grown[index], key, value);
      Ok(grown[index := entry])
  }

  // ---------------------------------------------------------------------------
  // The option record
  // ---------------------------------------------------------------------------

  datatype TransformParams = TransformParams(
    width: Option<U32>,
    height: Option<U32>,
    quality: U8,
    format: Option<OutputFormat>,
    fit: FitMode,
    gravity: Gravity,
    sharpen: Option<Finite>,
    blur: Option<Finite>,
    dpr: Finite,
    rotate: Option<Rotation>,
    flip: Option<FlipMode>,
    brightness: Option<Finite>,
    contrast: Option<Finite>,
    saturation: Option<Finite>,
    gamma: Option<Finite>,
    background: Option<Color>,
    metadata: MetadataMode,
    trim: Option<Finite>,
    anim: AnimMode,
    frame: Option<U32>,
    trimTop: Option<Finite>,
    trimRight: Option<Finite>,
    trimBottom: Option<Finite>,
    trimLeft: Option<Finite>,
    onerror: Option<OnErrorMode>,
    compression: Option<CompressionMode>,
    scq: Option<U8>,
    borderWidth: Option<U32>,
    borderColor: Option<Color>,
    borderTop: Option<U32>,
    borderRight: Option<U32>,
    borderBottom: Option<U32>,
    borderLeft: Option<U32>,
    draw: seq<DrawOverlay>)

  const DEFAULTS: TransformParams :=
    TransformParams(None, None, 80, None, Contain, Center, None, None, ONE, None, None, None, None, None, None,
                    None, Strip, None, AnimAuto, None, None, None, None, None, None, None, None, None, None,
                    None, None, None, None, [])

  /** One key per field that an option string can set, aliases folded together; `draw` entries are apart. */
  datatype Key =
    | WidthKey | HeightKey | QualityKey | FormatKey | FitKey | GravityKey | SharpenKey | BlurKey | DprKey
    | RotateKey | FlipKey | BrightnessKey | ContrastKey | SaturationKey | GammaKey | BackgroundKey
    | MetadataKey | TrimKey | AnimKey | FrameKey | TrimTopKey | TrimRightKey | TrimBottomKey | TrimLeftKey
    | OnErrorKey | CompressionKey | ScqKey | BorderKey | BorderColorKey | BorderTopKey | BorderRightKey
    | BorderBottomKey | BorderLeftKey

  function KeyOf(key: string): Option<Key> {
    match key
    case "w" | "width" => Some(WidthKey)
    case "h" | "height" => Some(HeightKey)
    case "q" | "quality" => Some(QualityKey)
    case "format" | "fmt" | "f" => Some(FormatKey)
    case "fit" => Some(FitKey)
    case "gravity" | "g" => Some(GravityKey)
    case "sharpen" => Some(SharpenKey)
    case "blur" => Some(BlurKey)
    case "dpr" => Some(DprKey)
    case "rotate" => Some(RotateKey)
    case "flip" => Some(FlipKey)
    case "brightness" => Some(BrightnessKey)
    case "contrast" => Some(ContrastKey)
    case "saturation" => Some(SaturationKey)
    case "gamma" => Some(GammaKey)
    case "bg" | "background" => Some(BackgroundKey)
    case "metadata" => Some(MetadataKey)
    case "trim" => Some(TrimKey)
    case "anim" => Some(AnimKey)
    case "frame" => Some(FrameKey)
    case "trim.top" => Some(TrimTopKey)
    case "trim.right" => Some(TrimRightKey)
    case "trim.bottom" => Some(TrimBottomKey)
    case "trim.left" => Some(TrimLeftKey)
    case "onerror" => Some(OnErrorKey)
    case "compression" => Some(CompressionKey)
    case "scq" | "slow-connection-quality" => Some(ScqKey)
    case "border" => Some(BorderKey)
    case "border.color" => Some(BorderColorKey)
    case "border.top" => Some(BorderTopKey)
    case "border.right" => Some(BorderRightKey)
    case "border.bottom" => Some(BorderBottomKey)
    case "border.left" => Some(BorderLeftKey)
    case _ => None
  }

  /** Reads `value` into the field of `k`. */
  function SetField(p: TransformParams, k: Key, value: string): Result<TransformParams, ParseError> {
    match k
    case WidthKey => var v :- ReadU32(value, InvalidWidth); Ok(p.(width := Some(v)))
    case HeightKey => var v :- ReadU32(value, InvalidHeight); Ok(p.(height := Some(v)))
    case QualityKey => var v :- ParseQuality(value); Ok(p.(quality := v))
    case FormatKey => var v :- OutputFormat.Parse(value); Ok(p.(format := Some(v)))
    case FitKey => var v :- FitMode.Parse(value); Ok(p.(fit := v))
    case GravityKey => var v :- Gravity.Parse(value); Ok(p.(gravity := v))
    case SharpenKey => var v :- ReadFinite(value, InvalidSharpen); Ok(p.(sharpen := Some(v)))
    case BlurKey => var v :- ReadFinite(value, InvalidBlur); Ok(p.(blur := Some(v)))
    case DprKey => var v :- ReadFinite(value, InvalidDpr); Ok(p.(dpr := v))
    case RotateKey => var v :- Rotation.Parse(value); Ok(p.(rotate := Some(v)))
    case FlipKey => var v :- FlipMode.Parse(value); Ok(p.(flip := Some(v)))
    case BrightnessKey => var v :- ReadFinite(value, InvalidBrightness); Ok(p.(brightness := Some(v)))
    case ContrastKey => var v :- ReadFinite(value, InvalidContrast); Ok(p.(contrast := Some(v)))
    case SaturationKey => var v :- ReadFinite(value, InvalidSaturation); Ok(p.(saturation := Some(v)))
    case GammaKey => var v :- ReadFinite(value, InvalidGamma); Ok(p.(gamma := Some(v)))
    case BackgroundKey => var v :- ReadColor(value, InvalidBackground); Ok(p.(background := Some(v)))
    case MetadataKey => var v :- MetadataMode.Parse(value); Ok(p.(metadata := v))
    case TrimKey => var v :- ReadFinite(value, InvalidTrim); Ok(p.(trim := Some(v)))
    case AnimKey => var v :- AnimMode.Parse(value); Ok(p.(anim := v))
    case FrameKey => var v :- ReadU32(value, InvalidFrame); Ok(p.(frame := Some(v)))
    case TrimTopKey => var v :- ReadFinite(value, InvalidTrim); Ok(p.(trimTop := Some(v)))
    case TrimRightKey => var v :- ReadFinite(value, InvalidTrim); Ok(p.(trimRight := Some(v)))
    case TrimBottomKey => var v :- ReadFinite(value, InvalidTrim); Ok(p.(trimBottom := Some(v)))
    case TrimLeftKey => var v :- ReadFinite(value, InvalidTrim); Ok(p.(trimLeft := Some(v)))
    case OnErrorKey => var v :- OnErrorMode.Parse(value); Ok(p.(onerror := Some(v)))
    case CompressionKey => var v :- CompressionMode.Parse(value); Ok(p.(compression := Some(v)))
    case ScqKey => var v :- ParseQuality(value); Ok(p.(scq := Some(v)))
    case BorderKey => var v :- ReadU32(value, InvalidBorder); Ok(p.(borderWidth := Some(v)))
    case BorderColorKey => var v :- ReadColor(value, InvalidBorder); Ok(p.(borderColor := Some(v)))
    case BorderTopKey => var v :- ReadU32(value, InvalidBorder); Ok(p.(borderTop := Some(v)))
    case BorderRightKey => var v :- ReadU32(value, InvalidBorder); Ok(p.(borderRight := Some(v)))
    case BorderBottomKey => var v :- ReadU32(value, InvalidBorder); Ok(p.(borderBottom := Some(v)))
    case BorderLeftKey => var v :- ReadU32(value, InvalidBorder); Ok(p.(borderLeft := Some(v)))
  }

  const DRAW_PREFIX: string := "draw."

  /** The effect of one comma-separated pair on the options read so far. */
  function ApplyPair(p: TransformParams, pair: string): Result<TransformParams, ParseError> {
    if pair == [] then Ok(p)
    else
      var eq :- OrErr(IndexOf(pair, '='), InvalidParameter);
      var key, value := pair[..eq], pair[eq + 1..];
      if value == [] then Err(EmptyValue)
      else if DRAW_PREFIX <= key then
        var draw :- SetDraw(p.draw, key[|DRAW_PREFIX|..], value);
        Ok(p.(draw := draw))
      else
        var k :- OrErr(KeyOf(key), InvalidParameter);
        SetField(p, k, value)
  }

  /** The pairs applied from left to right, up to the first error. */
  function ApplyPairs(p: TransformParams, pairs: seq<string>): Result<TransformParams, ParseError>
    decreases |pairs|
  {
    if pairs == [] then Ok(p)
    else
      var q :- ApplyPair(p, pairs[0]);
      ApplyPairs(q, pairs[1..])
  }

  /** The meaning of an option string. */
  function Parsed(input: string): Result<TransformParams, ParseError> {
    ApplyPairs(DEFAULTS, Split(input, ','))
  }

  lemma {:induction false} ApplyPairsAppend(p: TransformParams, a: seq<string>, b: seq<string>)
    ensures ApplyPairs(p, a + b) ==
            match ApplyPairs(p, a) { case Ok(q) => ApplyPairs(q, b) case Err(e) => Err(e) }
    decreases |a|
  {
    hide ApplyPair;
    if a == [] {
      assert a + b == b;
    } else {
      assert (a + b)[0] == a[0] && (a + b)[1..] == a[1..] + b;
      match ApplyPair(p, a[0])
      case Ok(q) => ApplyPairsAppend(q, a[1..], b);
      case Err(_) =>
    }
  }

  method Parse(input: string) returns (r: Result<TransformParams, ParseError>)
    ensures r == Parsed(input)
  {
    var params := DEFAULTS;
    var pairs := Split(input, ',');
    if input == [] {
      return Ok(params);
    }
    for i := 0 to |pairs|
      invariant Parsed(input) == ApplyPairs(params, pairs[i..])
    {
      var next := ApplyPair(params, pairs[i]);
      assert pairs[i..][1..] == pairs[i + 1..];
      match next
      case Err(e) => return Err(e);
      case Ok(q) => params := q;
    }
    r := Ok(params);
  }

  // ---------------------------------------------------------------------------
  // The cache-key text
  // ---------------------------------------------------------------------------

  /** The fields that the key can hold, in the order it writes them. */
  const KEY_ORDER: seq<Key> := [
    WidthKey, HeightKey, QualityKey, FormatKey, FitKey, GravityKey, SharpenKey, BlurKey, DprKey, RotateKey,
    FlipKey, BrightnessKey, ContrastKey, SaturationKey, GammaKey, BackgroundKey, MetadataKey, TrimKey,
    AnimKey, FrameKey, TrimTopKey, TrimRightKey, TrimBottomKey, TrimLeftKey, CompressionKey, BorderKey,
    BorderColorKey, BorderTopKey, BorderRightKey, BorderBottomKey, BorderLeftKey]

  const DRAW_ORDER: seq<DrawKey> := [
    DrawUrl, DrawWidth, DrawHeight, DrawTop, DrawLeft, DrawBottom, DrawRight, DrawOpacity, DrawRepeatKey,
    DrawBackground, DrawRotate, DrawFit, DrawGravity]

  /** The name that the key writes for a field. */
  function KeyName(k: Key): string {
    match k
    case WidthKey => "w"
    case HeightKey => "h"
    case QualityKey => "q"
    case FormatKey => "f"
    case FitKey => "fit"
    case GravityKey => "g"
    case SharpenKey => "sharpen"
    case BlurKey => "blur"
    case DprKey => "dpr"
    case RotateKey => "rotate"
    case FlipKey => "flip"
    case BrightnessKey => "brightness"
    case ContrastKey => "contrast"
    case SaturationKey => "saturation"
    case GammaKey => "gamma"
    case BackgroundKey => "bg"
    case MetadataKey => "metadata"
    case TrimKey => "trim"
    case AnimKey => "anim"
    case FrameKey => "frame"
    case TrimTopKey => "trim.top"
    case TrimRightKey => "trim.right"
    case TrimBottomKey => "trim.bottom"
    case TrimLeftKey => "trim.left"
    case OnErrorKey => "onerror"
    case CompressionKey => "compression"
    case ScqKey => "scq"
    case BorderKey => "border"
    case BorderColorKey => "border.color"
    case BorderTopKey => "border.top"
    case BorderRightKey => "border.right"
    case BorderBottomKey => "border.bottom"
    case BorderLeftKey => "border.left"
  }

  function FixedText(v: Option<Finite>, places: nat): Option<string>
    requires 1 <= places <= 2
  {
    if v.Some? then Some(FormatFixed(v.value, places)) else None
  }

  function DecimalText(v: Option<U32>): Option<string> {
    if v.Some? then Some(Decimal(v.value)) else None
  }

  function ColorText(v: Option<Color>): Option<string> {
    if v.Some? then Some(HexColor(v.value)) else None
  }

  /** The text that the key writes for a field, `None` when it leaves the field out. */
  function FieldText(p: TransformParams, k: Key): Option<string> {
    match k
    case WidthKey => DecimalText(p.width)
    case HeightKey => DecimalText(p.height)
    case QualityKey => Some(Decimal(p.quality))
    case FormatKey => if p.format.Some? then Some(p.format.value.Name()) else None
    case FitKey => Some(p.fit.Name())
    case GravityKey => Some(p.gravity.Name())
    case SharpenKey => FixedText(p.sharpen, 2)
    case BlurKey => FixedText(p.blur, 2)
    case DprKey => Some(FormatFixed(p.dpr, 1))
    case RotateKey => if p.rotate.Some? then Some(p.rotate.value.Name()) else None
    case FlipKey => if p.flip.Some? then Some(p.flip.value.Name()) else None
    case BrightnessKey => FixedText(p.brightness, 2)
    case ContrastKey => FixedText(p.contrast, 2)
    case SaturationKey => FixedText(p.saturation, 2)
    case GammaKey => FixedText(p.gamma, 2)
    case BackgroundKey => ColorText(p.background)
    case MetadataKey => if p.metadata != Strip then Some(p.metadata.Name()) else None
    case TrimKey => FixedText(p.trim, 1)
    case AnimKey => if p.anim != AnimAuto then Some(p.anim.Name()) else None
    case FrameKey => DecimalText(p.frame)
    case TrimTopKey => FixedText(p.trimTop, 1)
    case TrimRightKey => FixedText(p.trimRight, 1)
    case TrimBottomKey => FixedText(p.trimBottom, 1)
    case TrimLeftKey => FixedText(p.trimLeft, 1)
    case OnErrorKey => None
    case CompressionKey => if p.compression.Some? then Some(p.compression.value.Name()) else None
    case ScqKey => None
    case BorderKey => DecimalText(p.borderWidth)
    case BorderColorKey => ColorText(p.borderColor)
    case BorderTopKey => DecimalText(p.borderTop)
    case BorderRightKey => DecimalText(p.borderRight)
    case BorderBottomKey => DecimalText(p.borderBottom)
    case BorderLeftKey => DecimalText(p.borderLeft)
  }

  function DrawText(d: DrawOverlay, k: DrawKey): Option<string> {
    match k
    case DrawUrl => d.url
    case DrawWidth => FixedText(d.width, 2)
    case DrawHeight => FixedText(d.height, 2)
    case DrawTop => FixedText(d.top, 2)
    case DrawLeft => FixedText(d.left, 2)
    case DrawBottom => FixedText(d.bottom, 2)
    case DrawRight => FixedText(d.right, 2)
    case DrawOpacity => FixedText(d.opacity, 2)
    case DrawRepeatKey => if d.repeat.Some? then Some(d.repeat.value.Name()) else None
    case DrawBackground => ColorText(d.background)
    case DrawRotate => if d.rotate.Some? then Some(d.rotate.value.Name()) else None
    case DrawFit => if d.fit.Some? then Some(d.fit.value.Name()) else None
    case DrawGravity => if d.gravity.Some? then Some(d.gravity.value.Name()) else None
  }

  /** `name=value`, or nothing. */
  function Part(name: string, value: Option<string>): seq<string> {
    if value.Some? then [name + ['='] + value.value] else []
  }

  function DrawPartName(index: nat, k: DrawKey): string {
    DRAW_PREFIX + Decimal(index) + ['.'] + DrawName(k)
  }

  /** The parts of the given fields, in order. */
  function FieldParts(p: TransformParams, order: seq<Key>): seq<string> {
    if order == [] then []
    else
      var last := |order| - 1;
      FieldParts(p, order[..last]) + Part(KeyName(order[last]), FieldText(p, order[last]))
  }

  /** The parts of the given fields of one overlay, in order. */
  function EntryParts(d: DrawOverlay, index: nat, order: seq<DrawKey>): seq<string> {
    if order == [] then []
    else
      var last := |order| - 1;
      EntryParts(d, index, order[..last]) + Part(DrawPartName(index, order[last]), DrawText(d, order[last]))
  }

  function DrawParts(draw: seq<DrawOverlay>): seq<string> {
    if draw == [] then []
    else
      var last := |draw| - 1;
      DrawParts(draw[..last]) + EntryParts(draw[last], last, DRAW_ORDER)
  }

  function KeyParts(p: TransformParams): seq<string> {
    FieldParts(p, KEY_ORDER) + DrawParts(p.draw)
  }

  /** The canonical text of the options. */
  function CacheKey(p: TransformParams): string {
    Join(KeyParts(p), ',')
  }

  method FieldPartList(p: TransformParams, order: seq<Key>) returns (parts: seq<string>)
    ensures parts == FieldParts(p, order)
  {
    hide FieldText, KeyName;
    parts := [];
    for n := 0 to |order|
      invariant parts == FieldParts(p, order[..n])
    {
      parts := parts + Part(KeyName(order[n]), FieldText(p, order[n]));
      assert order[..n + 1][..n] == order[..n];
    }
    assert order[..|order|] == order;
  }

  method DrawPartList(draw: seq<DrawOverlay>, order: seq<DrawKey>) returns (parts: seq<string>)
    requires order == DRAW_ORDER
    ensures parts == DrawParts(draw)
  {
    hide DrawText, DrawPartName, Part, EntryParts, DrawParts, DRAW_ORDER;
    parts := [];
    NoOverlays();
    for i := 0 to |draw|
      invariant parts == DrawParts(draw[..i])
    {
      ghost var before := parts;
      NoEntryParts(draw[i], i);
      for n := 0 to |order|
        invariant parts == before + EntryParts(draw[i], i, order[..n])
      {
        EntryPartsStep(draw[i], i, order, n);
        parts := parts + Part(DrawPartName(i, order[n]), DrawText(draw[i], order[n]));
      }
      assert order[..|order|] == order;
      DrawPartsStep(draw, i);
    }
    assert draw[..|draw|] == draw;
  }

  lemma NoOverlays()
    ensures DrawParts([]) == []
  {}

  lemma NoEntryParts(d: DrawOverlay, index: nat)
    ensures EntryParts(d, index, []) == []
  {}

  lemma EntryPartsStep(d: DrawOverlay, index: nat, order: seq<DrawKey>, n: nat)
    requires n < |order|
    ensures EntryParts(d, index, order[..n + 1])
         == EntryParts(d, index, order[..n]) + Part(DrawPartName(index, order[n]), DrawText(d, order[n]))
  {
    hide DrawText, DrawPartName;
    assert order[..n + 1][..n] == order[..n];
  }

  lemma DrawPartsStep(draw: seq<DrawOverlay>, i: nat)
    requires i < |draw|
    ensures DrawParts(draw[..i + 1]) == DrawParts(draw[..i]) + EntryParts(draw[i], i, DRAW_ORDER)
  {
    hide EntryParts;
    assert draw[..i + 1][..i] == draw[..i];
  }

  /** `to_cache_key`: one part per field that is set, in a fixed order, then the overlays by index. */
  method ToCacheKey(p: TransformParams) returns (key: string)
    ensures key == CacheKey(p)
  {
    var parts := FieldPartList(p, KEY_ORDER);
    var drawParts := DrawPartList(p.draw, DRAW_ORDER);
    key := Join(parts + drawParts, ',');
  }
}
