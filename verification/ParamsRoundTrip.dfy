/** The option parser and the cache-key printer undo each other. */
module ParamsRoundTrip {
  import opened Text
  import opened Numbers
  import opened Params
  import opened ParamsFields

  // ---------------------------------------------------------------------------
  // Canonical options
  // ---------------------------------------------------------------------------

  function Quantized(v: Option<Finite>, places: nat): Option<Finite>
    requires 1 <= places <= 2
  {
    if v.Some? then Some(Quantize(v.value, places)) else None
  }

  function CanonicalDraw(d: DrawOverlay): DrawOverlay {
    d.(width := Quantized(d.width, 2), height := Quantized(d.height, 2), top := Quantized(d.top, 2),
       left := Quantized(d.left, 2), bottom := Quantized(d.bottom, 2), right := Quantized(d.right, 2),
       opacity := Quantized(d.opacity, 2))
  }

  function CanonicalDraws(draw: seq<DrawOverlay>): (r: seq<DrawOverlay>)
    ensures |r| == |draw|
    ensures forall i :: 0 <= i < |draw| ==> r[i] == CanonicalDraw(draw[i])
  {
    seq(|draw|, i requires 0 <= i < |draw| => CanonicalDraw(draw[i]))
  }

  /** The options with every float at its printed precision, and without the two fields the key leaves out. */
  function Canonical(p: TransformParams): TransformParams {
    p.(sharpen := Quantized(p.sharpen, 2), blur := Quantized(p.blur, 2), dpr := Quantize(p.dpr, 1),
       brightness := Quantized(p.brightness, 2), contrast := Quantized(p.contrast, 2),
       saturation := Quantized(p.saturation, 2), gamma := Quantized(p.gamma, 2), trim := Quantized(p.trim, 1),
       trimTop := Quantized(p.trimTop, 1), trimRight := Quantized(p.trimRight, 1),
       trimBottom := Quantized(p.trimBottom, 1), trimLeft := Quantized(p.trimLeft, 1), onerror := None,
       scq := None, draw := CanonicalDraws(p.draw))
  }

  /** What the parser guarantees about the overlay list: at most 64 entries, the last one set, URLs comma-free. */
  predicate Producible(p: TransformParams) {
    && |p.draw| <= MAX_DRAW_ENTRIES
    && (p.draw != [] ==> p.draw[|p.draw| - 1] != DEFAULT_DRAW)
    && forall i :: 0 <= i < |p.draw| && p.draw[i].url.Some? ==> p.draw[i].url.value != [] && ',' !in p.draw[i].url.value
  }

  // ---------------------------------------------------------------------------
  // Values
  // ---------------------------------------------------------------------------

  /** The separators of options, key segments and paths. */
  predicate Separator(c: char) {
    c == ',' || c == '|' || c == '/'
  }

  /** A non-empty text without separators. */
  predicate Atom(s: string) {
    s != [] && ',' !in s && '|' !in s && '/' !in s
  }

  lemma ReadFixed(v: Finite, places: nat, error: ParseError)
    requires 1 <= places <= 2
    ensures ReadFinite(FormatFixed(v, places), error) == Ok(Quantize(v, places))
    ensures Atom(FormatFixed(v, places))
  {
    FloatRoundTrip(v, places);
  }

  lemma ReadDecimal(n: U32, error: ParseError)
    ensures ReadU32(Decimal(n), error) == Ok(n)
    ensures Atom(Decimal(n))
  {
    UnsignedRoundTrip(n, U32_LIMIT);
  }

  lemma ReadQuality(q: U8)
    ensures ParseQuality(Decimal(q)) == Ok(q)
    ensures Atom(Decimal(q))
  {
    UnsignedRoundTrip(q, U32_LIMIT);
    assert IsDigit(Decimal(q)[0]);
    assert !IsDigit("high"[0]) && !IsDigit("medium-high"[0]) && !IsDigit("medium-low"[0]) && !IsDigit("low"[0]);
  }

  predicate IsHexChar(c: char) {
    '0' <= c <= '9' || 'A' <= c <= 'F'
  }

  lemma ReadHexByte(n: U8)
    ensures ParseHexByte(HexChar(n / 16), HexChar(n % 16)) == Some(n)
    ensures IsHexChar(HexChar(n / 16)) && IsHexChar(HexChar(n % 16))
  {
    assert HexDigit(HexChar(n / 16)) == Some(n / 16);
    assert HexDigit(HexChar(n % 16)) == Some(n % 16);
  }

  lemma ReadHex(c: Color, error: ParseError)
    ensures ReadColor(HexColor(c), error) == Ok(c)
    ensures Atom(HexColor(c))
  {
    ReadHexByte(c.r);
    ReadHexByte(c.g);
    ReadHexByte(c.b);
    hide ParseHexByte, HexChar;
    var s := HexColor(c);
    assert s == [HexChar(c.r / 16), HexChar(c.r % 16), HexChar(c.g / 16), HexChar(c.g % 16),
                 HexChar(c.b / 16), HexChar(c.b % 16)];
  }

  lemma ReadFormat(f: OutputFormat)
    ensures OutputFormat.Parse(f.Name()) == Ok(f) && Atom(f.Name())
  {}

  lemma ReadRotation(r: Rotation)
    ensures Rotation.Parse(r.Name()) == Ok(r) && Atom(r.Name())
  {}

  lemma ReadFlip(f: FlipMode)
    ensures FlipMode.Parse(f.Name()) == Ok(f) && Atom(f.Name())
  {}

  lemma ReadMetadata(m: MetadataMode)
    ensures MetadataMode.Parse(m.Name()) == Ok(m) && Atom(m.Name())
  {}

  lemma ReadRepeat(d: DrawRepeat)
    ensures DrawRepeat.Parse(d.Name()) == Ok(d) && Atom(d.Name())
  {}

  lemma ReadAnim(a: AnimMode)
    ensures AnimMode.Parse(a.Name()) == Ok(a) && Atom(a.Name())
  {}

  lemma ReadFit(f: FitMode)
    ensures FitMode.Parse(f.Name()) == Ok(f) && Atom(f.Name())
  {}

  lemma ReadGravity(g: Gravity)
    ensures Gravity.Parse(g.Name()) == Ok(g) && Atom(g.Name())
  {}

  /** A printed field reads back as its canonical value; a field left out has the default value. */
  predicate ReadsBack(p: TransformParams, k: Key, st: TransformParams) {
    match FieldText(p, k)
    case None => Same(Canonical(p), DEFAULTS, k)
    case Some(text) =>
      Atom(text) && SetField(st, k, text).Ok? && Same(SetField(st, k, text).value, Canonical(p), k)
  }

  lemma FloatReadsBack(p: TransformParams, k: Key, st: TransformParams)
    requires k.SharpenKey? || k.BlurKey? || k.DprKey? || k.BrightnessKey? || k.ContrastKey? || k.SaturationKey?
          || k.GammaKey? || k.TrimKey? || k.TrimTopKey? || k.TrimRightKey? || k.TrimBottomKey? || k.TrimLeftKey?
    ensures ReadsBack(p, k, st)
  {
    hide ReadFinite, FormatFixed, Quantize, Atom;
    match k {
      case SharpenKey => if p.sharpen.Some? { ReadFixed(p.sharpen.value, 2, InvalidSharpen); }
      case BlurKey => if p.blur.Some? { ReadFixed(p.blur.value, 2, InvalidBlur); }
      case DprKey => ReadFixed(p.dpr, 1, InvalidDpr);
      case BrightnessKey => if p.brightness.Some? { ReadFixed(p.brightness.value, 2, InvalidBrightness); }
      case ContrastKey => if p.contrast.Some? { ReadFixed(p.contrast.value, 2, InvalidContrast); }
      case SaturationKey => if p.saturation.Some? { ReadFixed(p.saturation.value, 2, InvalidSaturation); }
      case GammaKey => if p.gamma.Some? { ReadFixed(p.gamma.value, 2, InvalidGamma); }
      case TrimKey => if p.trim.Some? { ReadFixed(p.trim.value, 1, InvalidTrim); }
      case TrimTopKey => if p.trimTop.Some? { ReadFixed(p.trimTop.value, 1, InvalidTrim); }
      case TrimRightKey => if p.trimRight.Some? { ReadFixed(p.trimRight.value, 1, InvalidTrim); }
      case TrimBottomKey => if p.trimBottom.Some? { ReadFixed(p.trimBottom.value, 1, InvalidTrim); }
      case TrimLeftKey => if p.trimLeft.Some? { ReadFixed(p.trimLeft.value, 1, InvalidTrim); }
    }
  }

  lemma CountReadsBack(p: TransformParams, k: Key, st: TransformParams)
    requires k.WidthKey? || k.HeightKey? || k.QualityKey? || k.FrameKey? || k.BorderKey? || k.BorderTopKey?
          || k.BorderRightKey? || k.BorderBottomKey? || k.BorderLeftKey?
    ensures ReadsBack(p, k, st)
  {
    hide ParseQuality, ReadU32, Quantize, Atom;
    match k {
      case WidthKey => if p.width.Some? { ReadDecimal(p.width.value, InvalidWidth); }
      case HeightKey => if p.height.Some? { ReadDecimal(p.height.value, InvalidHeight); }
      case QualityKey => ReadQuality(p.quality);
      case FrameKey => if p.frame.Some? { ReadDecimal(p.frame.value, InvalidFrame); }
      case BorderKey => if p.borderWidth.Some? { ReadDecimal(p.borderWidth.value, InvalidBorder); }
      case BorderTopKey => if p.borderTop.Some? { ReadDecimal(p.borderTop.value, InvalidBorder); }
      case BorderRightKey => if p.borderRight.Some? { ReadDecimal(p.borderRight.value, InvalidBorder); }
      case BorderBottomKey => if p.borderBottom.Some? { ReadDecimal(p.borderBottom.value, InvalidBorder); }
      case BorderLeftKey => if p.borderLeft.Some? { ReadDecimal(p.borderLeft.value, InvalidBorder); }
    }
  }

  lemma NameReadsBack(p: TransformParams, k: Key, st: TransformParams)
    requires k.FormatKey? || k.FitKey? || k.GravityKey? || k.RotateKey? || k.FlipKey? || k.BackgroundKey?
          || k.MetadataKey? || k.AnimKey? || k.OnErrorKey? || k.CompressionKey? || k.ScqKey? || k.BorderColorKey?
    ensures ReadsBack(p, k, st)
  {
    hide ReadColor, HexColor, Quantize, Atom;
    hide OutputFormat.Parse, OutputFormat.Name, Rotation.Parse, Rotation.Name, FlipMode.Parse, FlipMode.Name;
    hide MetadataMode.Parse, MetadataMode.Name, AnimMode.Parse, AnimMode.Name, FitMode.Parse, FitMode.Name;
    hide Gravity.Parse, Gravity.Name, CompressionMode.Parse;
    match k {
      case FormatKey => if p.format.Some? { ReadFormat(p.format.value); }
      case FitKey => ReadFit(p.fit);
      case GravityKey => ReadGravity(p.gravity);
      case RotateKey => if p.rotate.Some? { ReadRotation(p.rotate.value); }
      case FlipKey => if p.flip.Some? { ReadFlip(p.flip.value); }
      case BackgroundKey => if p.background.Some? { ReadHex(p.background.value, InvalidBackground); }
      case MetadataKey => ReadMetadata(p.metadata);
      case AnimKey => ReadAnim(p.anim);
      case OnErrorKey =>
      case CompressionKey => if p.compression.Some? { ReadCompression(p.compression.value); }
      case ScqKey =>
      case BorderColorKey => if p.borderColor.Some? { ReadHex(p.borderColor.value, InvalidBorder); }
    }
  }

  lemma FieldReadsBack(p: TransformParams, k: Key, st: TransformParams)
    ensures ReadsBack(p, k, st)
  {
    hide ReadsBack;
    match k
    case SharpenKey | BlurKey | DprKey | BrightnessKey | ContrastKey | SaturationKey | GammaKey | TrimKey
       | TrimTopKey | TrimRightKey | TrimBottomKey | TrimLeftKey => FloatReadsBack(p, k, st);
    case WidthKey | HeightKey | QualityKey | FrameKey | BorderKey | BorderTopKey | BorderRightKey
       | BorderBottomKey | BorderLeftKey => CountReadsBack(p, k, st);
    case FormatKey | FitKey | GravityKey | RotateKey | FlipKey | BackgroundKey | MetadataKey | AnimKey
       | OnErrorKey | CompressionKey | ScqKey | BorderColorKey => NameReadsBack(p, k, st);
  }

  lemma ReadCompression(c: CompressionMode)
    ensures CompressionMode.Parse(c.Name()) == Ok(c) && Atom(c.Name())
  {}

  predicate DrawReadsBack(d: DrawOverlay, k: DrawKey, e: DrawOverlay) {
    match DrawText(d, k)
    case None => SameDraw(CanonicalDraw(d), DEFAULT_DRAW, k)
    case Some(text) => SetDrawField(e, k, text).Ok? && SameDraw(SetDrawField(e, k, text).value, CanonicalDraw(d), k)
  }

  lemma DrawFieldReadsBack(d: DrawOverlay, k: DrawKey, e: DrawOverlay)
    ensures DrawReadsBack(d, k, e)
    ensures k != DrawUrl && DrawText(d, k).Some? ==> Atom(DrawText(d, k).value)
  {
    hide ReadFinite, ReadColor, FormatFixed, HexColor, Quantize, Atom;
    hide DrawRepeat.Parse, DrawRepeat.Name, Rotation.Parse, Rotation.Name, FitMode.Parse, FitMode.Name;
    hide Gravity.Parse, Gravity.Name;
    match k {
      case DrawUrl =>
      case DrawWidth => if d.width.Some? { ReadFixed(d.width.value, 2, InvalidDraw); }
      case DrawHeight => if d.height.Some? { ReadFixed(d.height.value, 2, InvalidDraw); }
      case DrawTop => if d.top.Some? { ReadFixed(d.top.value, 2, InvalidDraw); }
      case DrawLeft => if d.left.Some? { ReadFixed(d.left.value, 2, InvalidDraw); }
      case DrawBottom => if d.bottom.Some? { ReadFixed(d.bottom.value, 2, InvalidDraw); }
      case DrawRight => if d.right.Some? { ReadFixed(d.right.value, 2, InvalidDraw); }
      case DrawOpacity => if d.opacity.Some? { ReadFixed(d.opacity.value, 2, InvalidDraw); }
      case DrawRepeatKey => if d.repeat.Some? { ReadRepeat(d.repeat.value); }
      case DrawBackground => if d.background.Some? { ReadHex(d.background.value, InvalidDraw); }
      case DrawRotate => if d.rotate.Some? { ReadRotation(d.rotate.value); }
      case DrawFit => if d.fit.Some? { ReadFit(d.fit.value); }
      case DrawGravity => if d.gravity.Some? { ReadGravity(d.gravity.value); }
    }
  }

  // ---------------------------------------------------------------------------
  // Pairs
  // ---------------------------------------------------------------------------

  /** The names that the key writes are names that the parser reads, as the same field. */
  lemma KeyNames(k: Key)
    ensures KeyOf(KeyName(k)) == Some(k)
  {}

  /** The delimiters that a key name must not hold. */
  predicate Delimiter(c: char) {
    c == '=' || c == ',' || c == '|' || c == '/'
  }

  lemma SizeNamePlain(k: Key, i: nat)
    requires SizeKey(k) && i < |KeyName(k)|
    ensures !Delimiter(KeyName(k)[i])
  {}

  lemma LookNamePlain(k: Key, i: nat)
    requires LookKey(k) && i < |KeyName(k)|
    ensures !Delimiter(KeyName(k)[i])
  {}

  lemma EdgeNamePlain(k: Key, i: nat)
    requires !SizeKey(k) && !LookKey(k) && i < |KeyName(k)|
    ensures !Delimiter(KeyName(k)[i])
  {}

  lemma KeyNamePlain(k: Key)
    ensures forall i :: 0 <= i < |KeyName(k)| ==> !Delimiter(KeyName(k)[i])
  {
    hide KeyName, SizeKey, LookKey, Delimiter;
    forall i | 0 <= i < |KeyName(k)| ensures !Delimiter(KeyName(k)[i]) {
      if SizeKey(k) { SizeNamePlain(k, i); } else if LookKey(k) { LookNamePlain(k, i); } else { EdgeNamePlain(k, i); }
    }
  }

  lemma KeyNameShape(k: Key)
    ensures '=' !in KeyName(k) && ',' !in KeyName(k)
  {
    hide KeyName;
    KeyNamePlain(k);
  }

  lemma KeyNameIsPlain(k: Key)
    ensures '|' !in KeyName(k) && '/' !in KeyName(k)
  {
    hide KeyName;
    KeyNamePlain(k);
  }

  lemma KeyNameIsNoDraw(k: Key)
    ensures !(DRAW_PREFIX <= KeyName(k))
  {
    assert DRAW_PREFIX[0] == 'd' && DRAW_PREFIX[1] == 'r';
    assert k.DprKey? ==> KeyName(k)[1] == 'p';
    assert !k.DprKey? ==> KeyName(k)[0] != 'd';
  }

  lemma DrawNames(k: DrawKey)
    ensures DrawKeyOf(DrawName(k)) == Some(k)
    ensures '=' !in DrawName(k) && ',' !in DrawName(k) && '|' !in DrawName(k) && '/' !in DrawName(k)
  {}

  lemma PairOfField(st: TransformParams, k: Key, text: string)
    requires text != []
    ensures ApplyPair(st, KeyName(k) + ['='] + text) == SetField(st, k, text)
  {
    KeyNames(k);
    KeyNameShape(k);
    KeyNameIsNoDraw(k);
    IndexOfKey(KeyName(k), text, '=');
    hide KeyName, KeyOf, SetField, SetDraw;
    var pair := KeyName(k) + ['='] + text;
    assert pair[..|KeyName(k)|] == KeyName(k) && pair[|KeyName(k)| + 1..] == text;
  }

  lemma DrawPartNameShape(index: nat, k: DrawKey)
    ensures '=' !in DrawPartName(index, k)
    ensures forall c :: Separator(c) ==> c !in DrawPartName(index, k)
    ensures DRAW_PREFIX <= DrawPartName(index, k)
    ensures DrawPartName(index, k)[|DRAW_PREFIX|..] == Decimal(index) + ['.'] + DrawName(k)
  {
    hide DrawName, DrawKeyOf;
    DrawNames(k);
    assert DRAW_PREFIX == ['d', 'r', 'a', 'w', '.'];
    var rest := Decimal(index) + ['.'] + DrawName(k);
    assert DrawPartName(index, k) == DRAW_PREFIX + rest;
    assert forall c :: c in rest ==> c in Decimal(index) || c == '.' || c in DrawName(k);
    assert forall c :: c in DrawPartName(index, k) ==> c in DRAW_PREFIX || c in rest;
  }

  lemma PairOfDraw(st: TransformParams, index: nat, k: DrawKey, text: string)
    requires text != []
    ensures ApplyPair(st, DrawPartName(index, k) + ['='] + text) ==
            match SetDraw(st.draw, Decimal(index) + ['.'] + DrawName(k), text)
            { case Ok(draw) => Ok(st.(draw := draw)) case Err(e) => Err(e) }
  {
    var name := DrawPartName(index, k);
    DrawPartNameShape(index, k);
    IndexOfKey(name, text, '=');
    hide KeyOf, SetField, SetDraw, DrawPartName;
    var pair := name + ['='] + text;
    assert pair[..|name|] == name && pair[|name| + 1..] == text;
  }

  // ---------------------------------------------------------------------------
  // The scalar fields
  // ---------------------------------------------------------------------------

  /** Where the key writes a field; the two fields it leaves out come after all others. */
  function Position(k: Key): (n: nat)
    ensures n < |KEY_ORDER| ==> KEY_ORDER[n] == k
  {
    match k
    case WidthKey => 0
    case HeightKey => 1
    case QualityKey => 2
    case FormatKey => 3
    case FitKey => 4
    case GravityKey => 5
    case SharpenKey => 6
    case BlurKey => 7
    case DprKey => 8
    case RotateKey => 9
    case FlipKey => 10
    case BrightnessKey => 11
    case ContrastKey => 12
    case SaturationKey => 13
    case GammaKey => 14
    case BackgroundKey => 15
    case MetadataKey => 16
    case TrimKey => 17
    case AnimKey => 18
    case FrameKey => 19
    case TrimTopKey => 20
    case TrimRightKey => 21
    case TrimBottomKey => 22
    case TrimLeftKey => 23
    case CompressionKey => 24
    case BorderKey => 25
    case BorderColorKey => 26
    case BorderTopKey => 27
    case BorderRightKey => 28
    case BorderBottomKey => 29
    case BorderLeftKey => 30
    case OnErrorKey => 31
    case ScqKey => 31
  }

  /** The fields in `done` are canonical, and all others still have their defaults. */
  ghost predicate Progress(st: TransformParams, p: TransformParams, done: seq<Key>) {
    && st.draw == []
    && forall k: Key :: Same(st, if k in done then Canonical(p) else DEFAULTS, k)
  }

  lemma ProgressStep(st: TransformParams, p: TransformParams, k: Key, done: seq<Key>)
    returns (next: TransformParams)
    requires Progress(st, p, done)
    ensures ApplyPairs(st, Part(KeyName(k), FieldText(p, k))) == Ok(next)
    ensures Progress(next, p, done + [k])
  {
    FieldReadsBack(p, k, st);
    hide Same, SetField, FieldText, KeyName, Canonical, ApplyPair;
    match FieldText(p, k)
    case None =>
      next := st;
      if k !in done {
        SameTrans(st, DEFAULTS, Canonical(p), k);
      }
    case Some(text) =>
      PairOfField(st, k, text);
      next := SetField(st, k, text).value;
      SetFieldFrame(st, k, text, k);
      forall j: Key | j != k ensures Same(next, if j in done then Canonical(p) else DEFAULTS, j) {
        SetFieldFrame(st, k, text, j);
        SameTrans(next, st, if j in done then Canonical(p) else DEFAULTS, j);
      }
  }

  lemma SameTrans(p: TransformParams, q: TransformParams, r: TransformParams, k: Key)
    requires Same(p, q, k)
    ensures Same(q, p, k)
    ensures Same(q, r, k) ==> Same(p, r, k)
    ensures Same(r, q, k) ==> Same(p, r, k)
  {}

  lemma {:induction false} FieldsReadBack(p: TransformParams, order: seq<Key>) returns (st: TransformParams)
    ensures ApplyPairs(DEFAULTS, FieldParts(p, order)) == Ok(st)
    ensures Progress(st, p, order)
  {
    hide Same, FieldText, KeyName, Canonical, ApplyPair, Part;
    if order == [] {
      st := DEFAULTS;
      forall k: Key ensures Same(st, DEFAULTS, k) { SameRefl(st, k); }
    } else {
      var last := |order| - 1;
      var before := FieldsReadBack(p, order[..last]);
      st := ProgressStep(before, p, order[last], order[..last]);
      ApplyPairsAppend(DEFAULTS, FieldParts(p, order[..last]), Part(KeyName(order[last]), FieldText(p, order[last])));
      assert order == order[..last] + [order[last]];
    }
  }

  lemma SameRefl(p: TransformParams, k: Key)
    ensures Same(p, p, k)
  {}

  /** The scalar parts alone read back as the canonical scalar fields. */
  lemma ScalarsReadBack(p: TransformParams)
    ensures ApplyPairs(DEFAULTS, FieldParts(p, KEY_ORDER)) == Ok(Canonical(p).(draw := []))
  {
    var st := FieldsReadBack(p, KEY_ORDER);
    var c := Canonical(p).(draw := []);
    forall k: Key ensures Same(st, c, k) {
      assert Same(st, if k in KEY_ORDER then Canonical(p) else DEFAULTS, k);
      if Position(k) < |KEY_ORDER| {
        assert KEY_ORDER[Position(k)] == k;
      }
    }
    SameEverywhere(st, c);
  }

  // ---------------------------------------------------------------------------
  // The overlays
  // ---------------------------------------------------------------------------

  /** The list without the unset entries at its end: what the parser has built so far. */
  function Trimmed(draw: seq<DrawOverlay>): (r: seq<DrawOverlay>)
    ensures r <= draw
    ensures forall i :: |r| <= i < |draw| ==> draw[i] == DEFAULT_DRAW
    ensures draw != [] && draw[|draw| - 1] != DEFAULT_DRAW ==> r == draw
  {
    if draw != [] && draw[|draw| - 1] == DEFAULT_DRAW then Trimmed(draw[..|draw| - 1]) else draw
  }

  lemma GrownTrimmed(draw: seq<DrawOverlay>)
    ensures Grown(Trimmed(draw), |draw|) == draw
  {
    var grown := Grown(Trimmed(draw), |draw|);
    forall i | 0 <= i < |draw| ensures grown[i] == draw[i] {
      if i < |Trimmed(draw)| {
        assert grown[i] == Trimmed(draw)[i];
      }
    }
  }

  ghost predicate DrawProgress(e: DrawOverlay, d: DrawOverlay, done: seq<DrawKey>) {
    forall k: DrawKey :: SameDraw(e, if k in done then CanonicalDraw(d) else DEFAULT_DRAW, k)
  }

  lemma DrawRestSplits(index: nat, k: DrawKey)
    requires index < USIZE_LIMIT
    ensures var rest := Decimal(index) + ['.'] + DrawName(k);
      && IndexOf(rest, '.') == Some(|Decimal(index)|)
      && ParseUnsigned(rest[..|Decimal(index)|], USIZE_LIMIT) == Some(index)
      && DrawKeyOf(rest[|Decimal(index)| + 1..]) == Some(k)
  {
    IndexOfKey(Decimal(index), DrawName(k), '.');
    UnsignedRoundTrip(index, USIZE_LIMIT);
    DrawNames(k);
    hide DrawName, DrawKeyOf, ParseUnsigned, IndexOf, Decimal;
    var rest := Decimal(index) + ['.'] + DrawName(k);
    assert rest[..|Decimal(index)|] == Decimal(index) && rest[|Decimal(index)| + 1..] == DrawName(k);
  }

  lemma SetDrawAt(draw: seq<DrawOverlay>, rest: string, dot: nat, done: seq<DrawOverlay>, e: DrawOverlay, k: DrawKey,
                  text: string)
    requires IndexOf(rest, '.') == Some(dot) && dot < |rest|
    requires ParseUnsigned(rest[..dot], USIZE_LIMIT) == Some(|done|) && |done| < MAX_DRAW_ENTRIES
    requires DrawKeyOf(rest[dot + 1..]) == Some(k) && SetDrawField(e, k, text).Ok?
    requires Grown(draw, |done| + 1) == done + [e]
    ensures SetDraw(draw, rest, text) == Ok(done + [SetDrawField(e, k, text).value])
  {
    hide SetDrawField, DrawKeyOf, ParseUnsigned, Grown, IndexOf;
    assert (done + [e])[|done| := SetDrawField(e, k, text).value] == done + [SetDrawField(e, k, text).value];
  }

  /** Setting one field of the last entry, when the entries before it may be gaps that were never written. */
  lemma SetLastEntry(done: seq<DrawOverlay>, e: DrawOverlay, k: DrawKey, text: string)
    requires |done| < MAX_DRAW_ENTRIES && SetDrawField(e, k, text).Ok?
    ensures SetDraw(Trimmed(done + [e]), Decimal(|done|) + ['.'] + DrawName(k), text)
         == Ok(done + [SetDrawField(e, k, text).value])
  {
    hide SetDraw, SetDrawField, DrawName, DrawKeyOf, ParseUnsigned, Grown, IndexOf, Trimmed, Decimal;
    DrawRestSplits(|done|, k);
    GrownTrimmed(done + [e]);
    assert |done + [e]| == |done| + 1;
    SetDrawAt(Trimmed(done + [e]), Decimal(|done|) + ['.'] + DrawName(k), |Decimal(|done|)|, done, e, k, text);
  }

  lemma DrawFieldSet(st: TransformParams, before: seq<DrawOverlay>, e: DrawOverlay, d: DrawOverlay, k: DrawKey,
                     done: seq<DrawKey>, text: string)
    returns (next: DrawOverlay)
    requires |before| < MAX_DRAW_ENTRIES && DrawProgress(e, d, done)
    requires DrawText(d, k) == Some(text) && text != []
    ensures ApplyPair(st.(draw := Trimmed(before + [e])), DrawPartName(|before|, k) + ['='] + text)
         == Ok(st.(draw := Trimmed(before + [next])))
    ensures DrawProgress(next, d, done + [k])
  {
    DrawFieldReadsBack(d, k, e);
    hide SameDraw, CanonicalDraw, ApplyPair, DrawText, SetDrawField, DrawPartName, SetDraw, DrawName, Decimal;
    next := SetDrawField(e, k, text).value;
    SetLastEntry(before, e, k, text);
    SetDrawFieldFrame(e, k, text, k);
    PairOfDraw(st.(draw := Trimmed(before + [e])), |before|, k, text);
    assert (before + [next])[|before|] != DEFAULT_DRAW;
    forall j: DrawKey | j != k ensures SameDraw(next, if j in done then CanonicalDraw(d) else DEFAULT_DRAW, j) {
      SetDrawFieldFrame(e, k, text, j);
      SameDrawTrans(next, e, if j in done then CanonicalDraw(d) else DEFAULT_DRAW, j);
    }
  }

  lemma DrawFieldUnset(e: DrawOverlay, d: DrawOverlay, k: DrawKey, done: seq<DrawKey>)
    requires DrawProgress(e, d, done) && DrawText(d, k).None?
    ensures DrawProgress(e, d, done + [k])
  {
    DrawFieldReadsBack(d, k, e);
    hide SameDraw, CanonicalDraw, DrawText;
    if k !in done {
      SameDrawTrans(e, DEFAULT_DRAW, CanonicalDraw(d), k);
    }
  }

  lemma DrawProgressStep(st: TransformParams, before: seq<DrawOverlay>, e: DrawOverlay, d: DrawOverlay,
                         k: DrawKey, done: seq<DrawKey>)
    returns (next: DrawOverlay)
    requires |before| < MAX_DRAW_ENTRIES && DrawProgress(e, d, done)
    requires d.url.Some? ==> d.url.value != []
    ensures ApplyPairs(st.(draw := Trimmed(before + [e])), Part(DrawPartName(|before|, k), DrawText(d, k)))
         == Ok(st.(draw := Trimmed(before + [next])))
    ensures DrawProgress(next, d, done + [k])
  {
    DrawFieldReadsBack(d, k, e);
    hide ApplyPair, DrawPartName, SetDraw, DrawProgress, DrawReadsBack;
    match DrawText(d, k)
    case None =>
      next := e;
      DrawFieldUnset(e, d, k, done);
    case Some(text) =>
      assert text != [];
      next := DrawFieldSet(st, before, e, d, k, done, text);
  }

  lemma SameDrawTrans(d: DrawOverlay, e: DrawOverlay, f: DrawOverlay, k: DrawKey)
    requires SameDraw(d, e, k)
    ensures SameDraw(e, f, k) ==> SameDraw(d, f, k)
    ensures SameDraw(f, e, k) ==> SameDraw(d, f, k)
  {}

  lemma SameDrawRefl(d: DrawOverlay, k: DrawKey)
    ensures SameDraw(d, d, k)
  {}

  lemma {:induction false} EntryReadsBack(st: TransformParams, before: seq<DrawOverlay>, d: DrawOverlay,
                                          order: seq<DrawKey>)
    returns (e: DrawOverlay)
    requires |before| < MAX_DRAW_ENTRIES
    requires d.url.Some? ==> d.url.value != []
    ensures ApplyPairs(st.(draw := Trimmed(before)), EntryParts(d, |before|, order))
         == Ok(st.(draw := Trimmed(before + [e])))
    ensures DrawProgress(e, d, order)
    decreases |order|
  {
    hide SameDraw, CanonicalDraw, ApplyPair, DrawText, DrawPartName, Part;
    if order == [] {
      e := DEFAULT_DRAW;
      assert (before + [e])[..|before|] == before;
      forall k: DrawKey ensures SameDraw(e, DEFAULT_DRAW, k) { SameDrawRefl(e, k); }
    } else {
      var last := |order| - 1;
      var k := order[last];
      var prior := EntryReadsBack(st, before, d, order[..last]);
      e := DrawProgressStep(st, before, prior, d, k, order[..last]);
      ApplyPairsAppend(st.(draw := Trimmed(before)), EntryParts(d, |before|, order[..last]),
                       Part(DrawPartName(|before|, k), DrawText(d, k)));
      assert order == order[..last] + [k];
    }
  }

  lemma InDrawOrder(k: DrawKey)
    ensures k in DRAW_ORDER
  {
    assert DRAW_ORDER[match k
                      case DrawUrl => 0 case DrawWidth => 1 case DrawHeight => 2 case DrawTop => 3
                      case DrawLeft => 4 case DrawBottom => 5 case DrawRight => 6 case DrawOpacity => 7
                      case DrawRepeatKey => 8 case DrawBackground => 9 case DrawRotate => 10 case DrawFit => 11
                      case DrawGravity => 12] == k;
  }

  /** The parts of one overlay read back as its canonical form. */
  lemma WholeEntryReadsBack(st: TransformParams, before: seq<DrawOverlay>, d: DrawOverlay)
    requires |before| < MAX_DRAW_ENTRIES
    requires d.url.Some? ==> d.url.value != []
    ensures ApplyPairs(st.(draw := Trimmed(before)), EntryParts(d, |before|, DRAW_ORDER))
         == Ok(st.(draw := Trimmed(before + [CanonicalDraw(d)])))
  {
    var e := EntryReadsBack(st, before, d, DRAW_ORDER);
    hide SameDraw, CanonicalDraw, ApplyPair, EntryParts;
    forall k: DrawKey ensures SameDraw(e, CanonicalDraw(d), k) {
      InDrawOrder(k);
    }
    SameDrawEverywhere(e, CanonicalDraw(d));
  }

  lemma {:induction false} DrawsReadBack(st: TransformParams, draw: seq<DrawOverlay>)
    requires |draw| <= MAX_DRAW_ENTRIES
    requires forall i :: 0 <= i < |draw| && draw[i].url.Some? ==> draw[i].url.value != []
    ensures ApplyPairs(st.(draw := []), DrawParts(draw)) == Ok(st.(draw := Trimmed(CanonicalDraws(draw))))
    decreases |draw|
  {
    hide CanonicalDraw, ApplyPair, EntryParts;
    if draw != [] {
      var last := |draw| - 1;
      var before := CanonicalDraws(draw[..last]);
      DrawsReadBack(st, draw[..last]);
      WholeEntryReadsBack(st, before, draw[last]);
      ApplyPairsAppend(st.(draw := []), DrawParts(draw[..last]), EntryParts(draw[last], last, DRAW_ORDER));
      assert CanonicalDraws(draw) == before + [CanonicalDraw(draw[last])];
    }
  }

  lemma CanonicalKeepsUnset(d: DrawOverlay)
    ensures CanonicalDraw(d) == DEFAULT_DRAW <==> d == DEFAULT_DRAW
  {
    hide Quantize;
  }

  // ---------------------------------------------------------------------------
  // The key text
  // ---------------------------------------------------------------------------

  lemma {:induction false} FieldPartsFree(p: TransformParams, order: seq<Key>, c: char)
    requires Separator(c)
    ensures forall part :: part in FieldParts(p, order) ==> c !in part
    decreases |order|
  {
    hide FieldText, KeyName;
    if order != [] {
      var k := order[|order| - 1];
      FieldPartsFree(p, order[..|order| - 1], c);
      FieldReadsBack(p, k, p);
      KeyNameShape(k);
      KeyNameIsPlain(k);
    }
  }

  lemma {:induction false} EntryPartsFree(d: DrawOverlay, index: nat, order: seq<DrawKey>, c: char)
    requires Separator(c) && (d.url.Some? ==> c !in d.url.value)
    ensures forall part :: part in EntryParts(d, index, order) ==> c !in part
    decreases |order|
  {
    hide DrawPartName;
    if order != [] {
      var k := order[|order| - 1];
      EntryPartsFree(d, index, order[..|order| - 1], c);
      DrawFieldReadsBack(d, k, d);
      DrawPartNameShape(index, k);
    }
  }

  /** No overlay URL holds the character. */
  predicate UrlsFree(draw: seq<DrawOverlay>, c: char) {
    forall i :: 0 <= i < |draw| && draw[i].url.Some? ==> c !in draw[i].url.value
  }

  lemma {:induction false} DrawPartsFree(draw: seq<DrawOverlay>, c: char)
    requires Separator(c) && UrlsFree(draw, c)
    ensures forall part :: part in DrawParts(draw) ==> c !in part
    decreases |draw|
  {
    hide EntryParts;
    if draw != [] {
      DrawPartsFree(draw[..|draw| - 1], c);
      EntryPartsFree(draw[|draw| - 1], |draw| - 1, DRAW_ORDER, c);
    }
  }

  lemma QualityPart(p: TransformParams)
    ensures FieldParts(p, KEY_ORDER) != []
  {
    FieldPartsMention(p, KEY_ORDER, 2);
  }

  lemma {:induction false} FieldPartsMention(p: TransformParams, order: seq<Key>, n: nat)
    requires n < |order| && FieldText(p, order[n]).Some?
    ensures KeyName(order[n]) + ['='] + FieldText(p, order[n]).value in FieldParts(p, order)
    decreases |order|
  {
    hide FieldText, KeyName;
    if n < |order| - 1 {
      FieldPartsMention(p, order[..|order| - 1], n);
    }
  }

  lemma KeySplits(p: TransformParams)
    requires Producible(p)
    ensures Split(CacheKey(p), ',') == KeyParts(p)
  {
    hide FieldParts, DrawParts;
    QualityPart(p);
    FieldPartsFree(p, KEY_ORDER, ',');
    DrawPartsFree(p.draw, ',');
    SplitJoin(KeyParts(p), ',');
  }

  /**
    The round trip: the cache key of any options that the parser can produce is an option string, and it
    denotes the same options, floats at printed precision, with `onerror` and `scq` unset.
   */
  lemma KeyRoundTrip(p: TransformParams)
    requires Producible(p)
    ensures Parsed(CacheKey(p)) == Ok(Canonical(p))
  {
    KeySplits(p);
    ScalarsReadBack(p);
    var scalars := Canonical(p).(draw := []);
    ApplyPairsAppend(DEFAULTS, FieldParts(p, KEY_ORDER), DrawParts(p.draw));
    DrawsReadBack(scalars, p.draw);
    if p.draw != [] {
      CanonicalKeepsUnset(p.draw[|p.draw| - 1]);
    }
    hide FieldParts, DrawParts, ApplyPair, ApplyPairs, CanonicalDraw, Quantize;
    assert Trimmed(CanonicalDraws(p.draw)) == CanonicalDraws(p.draw);
  }

  // ---------------------------------------------------------------------------
  // What the parser produces, and when two keys agree
  // ---------------------------------------------------------------------------

  lemma SetDrawProduces(p: TransformParams, rest: string, value: string)
    requires Producible(p) && value != [] && ',' !in value
    requires SetDraw(p.draw, rest, value).Ok?
    ensures Producible(p.(draw := SetDraw(p.draw, rest, value).value))
  {
    hide IndexOf, ParseUnsigned, DrawKeyOf;
    var dot := IndexOf(rest, '.').value;
    var index := ParseUnsigned(rest[..dot], USIZE_LIMIT).value;
    var k := DrawKeyOf(rest[dot + 1..]).value;
    var grown := Grown(p.draw, index + 1);
    SetDrawFieldFrame(grown[index], k, value, DrawUrl);
    var entry := SetDrawField(grown[index], k, value).value;
    assert entry.url == if k == DrawUrl then Some(value) else grown[index].url;
    hide SetDrawField, Grown;
    assert SetDraw(p.draw, rest, value) == Ok(grown[index := entry]);
  }

  lemma PairProduces(p: TransformParams, pair: string)
    requires Producible(p) && ',' !in pair && ApplyPair(p, pair).Ok?
    ensures Producible(ApplyPair(p, pair).value)
  {
    hide SetField, KeyOf, SetDraw, IndexOf;
    if pair != [] {
      var eq := IndexOf(pair, '=').value;
      var key, value := pair[..eq], pair[eq + 1..];
      if DRAW_PREFIX <= key {
        SetDrawProduces(p, key[|DRAW_PREFIX|..], value);
      } else {
        SetFieldFrame(p, KeyOf(key).value, value, WidthKey);
      }
    }
  }

  lemma {:induction false} PairsProduce(p: TransformParams, pairs: seq<string>)
    requires Producible(p) && ApplyPairs(p, pairs).Ok?
    requires forall pair :: pair in pairs ==> ',' !in pair
    ensures Producible(ApplyPairs(p, pairs).value)
    decreases |pairs|
  {
    hide ApplyPair, Producible;
    if pairs != [] {
      PairProduces(p, pairs[0]);
      PairsProduce(ApplyPair(p, pairs[0]).value, pairs[1..]);
    }
  }

  /** Everything that the parser accepts is in the domain of the round trip. */
  lemma ParserProduces(input: string)
    requires Parsed(input).Ok?
    ensures Producible(Parsed(input).value)
  {
    hide ApplyPairs, Split;
    PairsProduce(DEFAULTS, Split(input, ','));
  }

  lemma SetDrawKeepsFree(draw: seq<DrawOverlay>, rest: string, value: string, c: char)
    requires UrlsFree(draw, c) && c !in value && SetDraw(draw, rest, value).Ok?
    ensures UrlsFree(SetDraw(draw, rest, value).value, c)
  {
    hide IndexOf, ParseUnsigned, DrawKeyOf;
    var dot := IndexOf(rest, '.').value;
    var index := ParseUnsigned(rest[..dot], USIZE_LIMIT).value;
    var k := DrawKeyOf(rest[dot + 1..]).value;
    var grown := Grown(draw, index + 1);
    SetDrawFieldFrame(grown[index], k, value, DrawUrl);
    var entry := SetDrawField(grown[index], k, value).value;
    assert entry.url == if k == DrawUrl then Some(value) else grown[index].url;
    hide SetDrawField, Grown;
    assert SetDraw(draw, rest, value) == Ok(grown[index := entry]);
  }

  lemma {:induction false} PairsKeepFree(p: TransformParams, pairs: seq<string>, c: char)
    requires UrlsFree(p.draw, c) && ApplyPairs(p, pairs).Ok?
    requires forall pair :: pair in pairs ==> c !in pair
    ensures UrlsFree(ApplyPairs(p, pairs).value.draw, c)
    decreases |pairs|
  {
    if pairs != [] {
      PairKeepsFree(p, pairs[0], c);
      hide ApplyPair, UrlsFree;
      PairsKeepFree(ApplyPair(p, pairs[0]).value, pairs[1..], c);
    }
  }

  lemma PairKeepsFree(p: TransformParams, pair: string, c: char)
    requires UrlsFree(p.draw, c) && c !in pair && ApplyPair(p, pair).Ok?
    ensures UrlsFree(ApplyPair(p, pair).value.draw, c)
  {
    hide SetField, KeyOf, SetDraw, IndexOf, UrlsFree;
    if pair != [] {
      var eq := IndexOf(pair, '=').value;
      var key, value := pair[..eq], pair[eq + 1..];
      if DRAW_PREFIX <= key {
        SetDrawKeepsFree(p.draw, key[|DRAW_PREFIX|..], value, c);
      } else {
        SetFieldFrame(p, KeyOf(key).value, value, WidthKey);
      }
    }
  }

  /** A character that the option string does not hold is in no overlay URL. */
  lemma ParsedUrlsFree(input: string, c: char)
    requires c !in input && Parsed(input).Ok?
    ensures UrlsFree(Parsed(input).value.draw, c)
  {
    var pairs := Split(input, ',');
    forall pair | pair in pairs ensures c !in pair {
      var i :| 0 <= i < |pairs| && pairs[i] == pair;
      SplitPartChars(input, ',', i, c);
    }
    hide ApplyPairs, Split;
    PairsKeepFree(DEFAULTS, pairs, c);
  }

  lemma QuantizedText(v: Finite, places: nat)
    requires 1 <= places <= 2
    ensures FormatFixed(Quantize(v, places), places) == FormatFixed(v, places)
  {
    PrintedAgain(v, places);
  }

  lemma QuantizedOptionText(v: Option<Finite>, places: nat)
    requires 1 <= places <= 2
    ensures FixedText(Quantized(v, places), places) == FixedText(v, places)
  {
    if v.Some? { QuantizedText(v.value, places); }
  }

  lemma CanonicalLookText(p: TransformParams, k: Key)
    requires k.SharpenKey? || k.BlurKey? || k.DprKey? || k.BrightnessKey? || k.ContrastKey? || k.SaturationKey?
          || k.GammaKey?
    ensures FieldText(Canonical(p), k) == FieldText(p, k)
  {
    hide FixedText, Quantized, Quantize, FormatFixed;
    match k {
      case SharpenKey => QuantizedOptionText(p.sharpen, 2);
      case BlurKey => QuantizedOptionText(p.blur, 2);
      case DprKey => QuantizedText(p.dpr, 1);
      case BrightnessKey => QuantizedOptionText(p.brightness, 2);
      case ContrastKey => QuantizedOptionText(p.contrast, 2);
      case SaturationKey => QuantizedOptionText(p.saturation, 2);
      case GammaKey => QuantizedOptionText(p.gamma, 2);
    }
  }

  lemma CanonicalText(p: TransformParams, k: Key)
    ensures FieldText(Canonical(p), k) == FieldText(p, k)
  {
    hide FixedText, Quantized, Quantize, FormatFixed;
    match k {
      case SharpenKey | BlurKey | DprKey | BrightnessKey | ContrastKey | SaturationKey | GammaKey =>
        CanonicalLookText(p, k);
      case TrimKey => QuantizedOptionText(p.trim, 1);
      case TrimTopKey => QuantizedOptionText(p.trimTop, 1);
      case TrimRightKey => QuantizedOptionText(p.trimRight, 1);
      case TrimBottomKey => QuantizedOptionText(p.trimBottom, 1);
      case TrimLeftKey => QuantizedOptionText(p.trimLeft, 1);
      case _ =>
    }
  }

  lemma CanonicalDrawText(d: DrawOverlay, k: DrawKey)
    ensures DrawText(CanonicalDraw(d), k) == DrawText(d, k)
  {
    match k {
      case DrawWidth => QuantizedOptionText(d.width, 2);
      case DrawHeight => QuantizedOptionText(d.height, 2);
      case DrawTop => QuantizedOptionText(d.top, 2);
      case DrawLeft => QuantizedOptionText(d.left, 2);
      case DrawBottom => QuantizedOptionText(d.bottom, 2);
      case DrawRight => QuantizedOptionText(d.right, 2);
      case DrawOpacity => QuantizedOptionText(d.opacity, 2);
      case _ =>
    }
    hide FixedText, Quantized, Quantize, FormatFixed;
  }

  lemma {:induction false} CanonicalFieldParts(p: TransformParams, order: seq<Key>)
    ensures FieldParts(Canonical(p), order) == FieldParts(p, order)
    decreases |order|
  {
    hide FieldText, KeyName, Canonical;
    if order != [] {
      CanonicalFieldParts(p, order[..|order| - 1]);
      CanonicalText(p, order[|order| - 1]);
    }
  }

  lemma {:induction false} CanonicalEntryParts(d: DrawOverlay, index: nat, order: seq<DrawKey>)
    ensures EntryParts(CanonicalDraw(d), index, order) == EntryParts(d, index, order)
    decreases |order|
  {
    hide DrawText, DrawPartName, CanonicalDraw;
    if order != [] {
      CanonicalEntryParts(d, index, order[..|order| - 1]);
      CanonicalDrawText(d, order[|order| - 1]);
    }
  }

  lemma {:induction false} CanonicalDrawParts(draw: seq<DrawOverlay>)
    ensures DrawParts(CanonicalDraws(draw)) == DrawParts(draw)
    decreases |draw|
  {
    hide EntryParts, CanonicalDraw;
    if draw != [] {
      var last := |draw| - 1;
      CanonicalDrawParts(draw[..last]);
      CanonicalEntryParts(draw[last], last, DRAW_ORDER);
      assert CanonicalDraws(draw)[..last] == CanonicalDraws(draw[..last]);
    }
  }

  /** The key does not see what canonicalisation drops. */
  lemma CanonicalKey(p: TransformParams)
    ensures CacheKey(Canonical(p)) == CacheKey(p)
  {
    CanonicalFieldParts(p, KEY_ORDER);
    CanonicalDrawParts(p.draw);
    hide FieldParts, DrawParts, CanonicalDraw, Quantized, Quantize;
  }

  /** Two keys are equal exactly when the options are equal up to printed precision, `onerror` and `scq`. */
  lemma KeysAgree(p: TransformParams, q: TransformParams)
    requires Producible(p) && Producible(q)
    ensures CacheKey(p) == CacheKey(q) <==> Canonical(p) == Canonical(q)
  {
    KeyRoundTrip(p);
    KeyRoundTrip(q);
    CanonicalKey(p);
    CanonicalKey(q);
    hide Parsed, CacheKey, Canonical;
  }
}
