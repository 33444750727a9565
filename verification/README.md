# imgx: a model of the parts that decide bytes, sizes and cache identity

imgx is an image proxy: it parses options out of a URL, fetches a source image, transforms it with libvips, and
keeps the result in a two-level cache. This project models the code between the URL and the cache in Dafny and
proves what it keeps: the option grammar and its canonical key, format negotiation, routing, both caches and the
request life cycle as a transition system, the ThumbHash encoder, and the geometry of the transform pipeline.
libvips, HTTP and S3 are parameters with stated contracts. `dafny verify dfyconfig.toml` checks everything.

## How it is laid out

| part | modules |
|---|---|
| strings, numbers, bits | `Text`, `Bits`, `Singles` (rounding to 32-bit floats), `Numbers` (number texts), `Doubles` (rounding to 64-bit floats) |
| options and their key | `Params`, `OptionMeaning` (what each option sets), `KeyText` (the key part by part), `HexColors`, `ParamsFields`, `ParamsRoundTrip`, `ParamsOrder` |
| negotiation and routing | `Negotiate`, `Router` |
| cache keys | `CacheKeys` (the request key), `ObjectKeys` (its rewriting for the object store) |
| caches and requests | `MemoryCache`, `TieredCache`, `Server`, `Answers` (what follows a transform), `Transparency` |
| ThumbHash | `Planes` (averages), `Cosines`, `CosineTerms`, `CosineBounds`, `TermCounts`, `HashBytes`, `ThumbHash`, `ThumbHashFacts`, `HashValues`, `Base64` |
| pipeline, in rounded arithmetic | `Rasters` (pixel grids), `Stages`, `StagePixels`, `FastPath`, `Sizes`, `Resizing`, `Animation`, `CoverFacts` |

Code that changes state keeps that form: the two caches and the GIF image are classes, and the loops of the parser,
the key writer, the Accept reader, the key sanitiser, the traversal scan, the ThumbHash passes, the cosine
transform, the nibble packing, base64 and the animated cover are methods with invariants. Each such method is
proved equal to a specification function or relation, and the properties below are proved about that.

## What the proofs say about the code

Where the code does not meet a promise, the model follows the code, gives the input, and proves the exact condition.

- **Animated `fit=cover`.** INV-2 says frames are never corrupted and that the page height divides the stack. When
  the resized page is exactly one row taller than the target, `(resized_page_h - th) / 2` is 0, the code takes the
  horizontal-only crop and keeps the extra row, yet sets `page-height` to the target. For frames `sw` by `ph` that
  always happens when `th*sw < ph*tw < (th+1)*sw`; on the edges of that range the rounding of `page_h * scale`
  decides, and elsewhere it never happens (`CoverFacts.CoverBoxCovers`, `CoverFacts.AnimatedCoverIntact`). Frames of
  100x101 covering 50x50 break it whatever rounding does; 100x100 covering 55x55 break it by rounding alone, because
  100 times the float nearest to 0.55 rounds to a little more than 55 (`CoverFacts.OneRowOverByRounding`).
- **GIFs of a covered stack.** A stack with a row too many is saved as one still page, or as more pages than there were
  frames when the target height divides the page count. The page count in the metadata stays that of the source, so
  it is wrong as soon as `max_frames` leaves frames unread: 150 frames under the default limit of 100 give 100 pages
  that claim to be 150 (`CoverFacts.UnreadFramesClaimed`). `CoverFacts.ClaimsMatch` says exactly when it is right.
- **The limit of 256 frames.** INV-2 limits the frames to 256; only the path that cuts each frame does
  (`CoverFacts.FramesLimited`; 300 frames of the target height are all kept, `CoverFacts.LimitMissed`).
- **One side alone.** `w=` without `h=` does not always give that width, because the derived height is rounded to whole
  pixels and can become the tighter side: 100x3 with `w=48` gives 33x1. `h=` without `w=` is missed more often, because
  the derived width is cut instead of rounded: 1080x1920 with `h=200` gives 112x199. Float rounding adds more: a 29x50
  image asked for its own height of 50 comes out 28x48, and 22x15 with `w=11` gives 10x7.
  `Resizing.WidthAloneReached` and `Resizing.HeightAloneReached` give the exact conditions on the derived side,
  `Resizing.DerivedHeight` and `Resizing.DerivedWidth` say where rounding moves that side, and
  `Resizing.HeightAloneClosed`, `Resizing.WidthAloneClosed` and `Resizing.HeightAloneWhole` are conditions on the
  request and the image alone.
- **Object keys.** `sanitize_key` reads `|` as `/` and merges slashes, so different paths can share an object, and so can
  overlay URLs that hold bars (`draw.0.url=x|y` and `draw.0.url=x||y`). `ObjectKeys.KeysConfused` says exactly which,
  and `Server.TransparentExactly` that the two-level cache is transparent for a class of requests exactly when
  requests that reach each other's keys have one rendition. A key that holds `..`, from a name such as
  `holiday..final.jpg`, is refused by the store and lives in memory only; the theorem covers it.
- **Key precision.** The key prints floats with one or two decimals, so `dpr=1.24` and `dpr=1.2` share an entry although
  they ask for 496 and 480 pixels at `w=400` (`Transparency.RatioIsBlurred`), and the second request can be answered
  with the image of the first (`Transparency.BlurredRatioIsServed`).
- **Refused formats.** `q=0` is there to switch a format off, but a wildcard counts for WebP all the same:
  `image/webp;q=0,*/*` gets WebP (`Negotiate.RefusedWebpChosen`), where section 12.5.1 of RFC 9110 lets the more
  specific range decide. `Negotiate.RefusedFormatChosen` and `Negotiate.RefusedAnimationChosen` say exactly when a
  refused format is chosen.
- **Colours.** `parse_hex_color` counts bytes and slices at bytes, so a character of several bytes across a slice stops
  it with a panic: `1é234` does (`HexColors.SplitCharacter`). `HexColors.ColorReadExactly` names all such texts.
  Whether the HTTP layer lets them through is not part of this model.
- **`format=json`.** Its body reports a codec negotiated from the Accept header, but its key does not depend on that header
  (`Negotiate.JsonSegmentIsBlind`, and `Negotiate.SegmentSoundExactly` for every other format).
- **Embedded absolute paths.** INV-4 says `//...` inside a path is refused. Of the paths with nothing else to refuse,
  exactly those that start with two slashes are (`Router.DoubleSlashRefused`); `image//x` resolves
  (`Router.EmbeddedAbsolutePath`).
- **Per-side trim.** A left or top trim of the whole side is refused by libvips rather than clamped
  (`Stages.SideTrimInBounds`; `trim.left=100` on an image 100 wide, `Stages.WholeWidthTrimmed`).
- **The fast-path gate is sound but not complete**: `rotate=180,flip=hv` changes no image and still blocks it
  (`FastPath.GateIsConservative`).

## Model

| member | source | states |
|---|---|---|
| Numbers.UnsignedRoundTrip | crates/imgx/src/transform/params.rs:1005-1007 | Reading the decimal text of an integer below the type's limit gives it back. |
| Numbers.FloatRoundTrip | crates/imgx/src/transform/params.rs:1033-1040 | Reading a 32-bit float printed with one or two decimals gives the float nearest to the printed decimal, the sign of zero included. |
| Singles.NarrowNearest | crates/imgx/src/transform/params.rs:1033-1040 | Rounding to a 32-bit float gives the nearest one, subnormals included: no float is closer. |
| Numbers.PrintedAgain | crates/imgx/src/transform/params.rs:776-825 | Reading a printed float can change the float, but never what it prints, for every float and both precisions. |
| Numbers.FixedTextsAgree | crates/imgx/src/transform/params.rs:776-825 | Two printed floats are the same text exactly when reading them gives the same float. |
| Numbers.KnownFloats | crates/imgx/src/transform/params.rs:1033-1040 | Known texts: exponents of either sign, a digit missing on either side of the point, overflow, and texts that are no number. |
| Numbers.KnownNumbers | crates/imgx/src/transform/params.rs:1005-1007 | The digits of a number run from the highest down. |
| Singles.TiesToEven | crates/imgx/src/transform/params.rs:776-825 | A tie in rounding goes to the even neighbour. |
| Text.SplitJoin | crates/imgx/src/transform/params.rs:913-916 | Splitting joined parts gives the parts back, for parts without the separator. |
| Params.Parse | crates/imgx/src/transform/params.rs:906-1003 | The parsing loop computes the specified fold of pairs, with the first error in order; `OptionMeaning` says what each pair means. |
| OptionMeaning.SizesRead | crates/imgx/src/transform/params.rs:932-964 | `w=300` sets the width to 300: for every number, `w` and `width`, `h` and `height`, and `frame` set their own field and nothing else. |
| OptionMeaning.BordersRead | crates/imgx/src/transform/params.rs:980-997 | The border options set their own fields, for every number. |
| OptionMeaning.WidthOption | crates/imgx/src/transform/params.rs:932 | For every text behind `w=` or `width=`: the width of the number it reads as, or the error for widths. |
| OptionMeaning.QualityOption | crates/imgx/src/transform/params.rs:936-938 | `q` and `quality` take four names for 90, 80, 60 and 40, or a number below 256. |
| OptionMeaning.SlowQualityOption | crates/imgx/src/transform/params.rs:977-979 | `scq` and `slow-connection-quality` take the same values and set their own field. |
| OptionMeaning.DprOption | crates/imgx/src/transform/params.rs:944 | `dpr` sets the pixel ratio to the float its text reads as. |
| OptionMeaning.SharpenOption | crates/imgx/src/transform/params.rs:942 | `sharpen` sets the sharpening to the float its text reads as, or gives its error. |
| OptionMeaning.BlurOption | crates/imgx/src/transform/params.rs:943 | `blur` sets the blur to the float its text reads as, or gives its error. |
| OptionMeaning.BrightnessOption | crates/imgx/src/transform/params.rs:947-949 | `brightness` sets the brightness to the float its text reads as, or gives its error. |
| OptionMeaning.ContrastOption | crates/imgx/src/transform/params.rs:950-952 | `contrast` sets the contrast to the float its text reads as, or gives its error. |
| OptionMeaning.SaturationOption | crates/imgx/src/transform/params.rs:953-955 | `saturation` sets the saturation to the float its text reads as, or gives its error. |
| OptionMeaning.GammaOption | crates/imgx/src/transform/params.rs:956 | `gamma` sets the gamma to the float its text reads as, or gives its error. |
| OptionMeaning.TrimOption | crates/imgx/src/transform/params.rs:962 | `trim` sets the border trim to the float its text reads as, or gives its error. |
| OptionMeaning.TrimTopOption | crates/imgx/src/transform/params.rs:965 | `trim.top` sets the top trim to the float its text reads as, or gives its error. |
| OptionMeaning.TrimRightOption | crates/imgx/src/transform/params.rs:966-968 | `trim.right` sets the right trim to the float its text reads as, or gives its error. |
| OptionMeaning.TrimBottomOption | crates/imgx/src/transform/params.rs:969-971 | `trim.bottom` sets the bottom trim to the float its text reads as, or gives its error. |
| OptionMeaning.TrimLeftOption | crates/imgx/src/transform/params.rs:972-974 | `trim.left` sets the left trim, likewise. |
| OptionMeaning.BackgroundOption | crates/imgx/src/transform/params.rs:957-960 | `bg` and `background` set the background to the colour their text reads as. |
| OptionMeaning.BorderColorOption | crates/imgx/src/transform/params.rs:983-985 | `border.color` sets the border colour, likewise. |
| OptionMeaning.HexDigits | crates/imgx/src/transform/params.rs:1110-1112 | The sixteen digits in both cases, and the digit that the key writes for each value. |
| OptionMeaning.ColorsRead | crates/imgx/src/transform/params.rs:1106-1114 | Six hexadecimal digits are red, green and blue, in this order, high digit first. |
| OptionMeaning.FormatOption | crates/imgx/src/transform/params.rs:939 | The ten format names under all three option names, and the error for any other text. |
| OptionMeaning.FitOption | crates/imgx/src/transform/params.rs:940 | The eleven fit names, and the error for any other text. |
| OptionMeaning.GravityOption | crates/imgx/src/transform/params.rs:941 | The twenty-six gravity names under both option names, and the error for any other text. |
| OptionMeaning.RotateOption | crates/imgx/src/transform/params.rs:945 | The four turns, and the error for any other text. |
| OptionMeaning.FlipOption | crates/imgx/src/transform/params.rs:946 | The mirrors, `hv` and `vh` alike, and the error for any other text. |
| OptionMeaning.MetadataOption | crates/imgx/src/transform/params.rs:961 | The three metadata modes with their other names, and the error for any other text. |
| OptionMeaning.AnimOption | crates/imgx/src/transform/params.rs:963 | The three animation modes with their other names, and the error for any other text. |
| OptionMeaning.OnErrorOption | crates/imgx/src/transform/params.rs:975 | `onerror=redirect`, and the error for any other text. |
| OptionMeaning.CompressionOption | crates/imgx/src/transform/params.rs:976 | `compression=fast`, and the error for any other text. |
| OptionMeaning.OverlayIs | crates/imgx/src/transform/params.rs:1045-1080 | One `draw.<index>.<field>` pair on its own sets that field of that overlay, with default overlays before it; indices from 64 and unknown fields are refused. |
| OptionMeaning.OverlayFloats | crates/imgx/src/transform/params.rs:1063-1069 | The sides and the opacity of an overlay, each under its name. |
| OptionMeaning.OverlayLooks | crates/imgx/src/transform/params.rs:1062-1076 | The address, background, turn, fit, gravity and repetition of an overlay, each under its name. |
| OptionMeaning.OtherNames | crates/imgx/src/transform/params.rs:998 | Every other name is an unknown parameter. |
| OptionMeaning.DefaultOptions | crates/imgx/src/transform/params.rs:906-911 | The options of the empty text, field by field. |
| Params.ToCacheKey | crates/imgx/src/transform/params.rs:760-901 | The key writer produces the specified canonical text: set fields in fixed order, then overlays by index. |
| KeyText.KeyTextListed | crates/imgx/src/transform/params.rs:760-901 | The canonical text listed: every set option under its name, in the source's order and with its decimals, and then the overlays by index. |
| KeyText.DefaultText | crates/imgx/src/transform/params.rs:760-901 | The text of the defaults is `q=80,fit=contain,g=center,dpr=1.0`. |
| HexColors.ColorReadExactly | crates/imgx/src/transform/params.rs:1106-1114 | On every text the colour reader answers as the model's reader on characters, or panics, exactly when a character of several bytes lies across a slice that is reached. |
| HexColors.PlainColors | crates/imgx/src/transform/params.rs:1106-1114 | On ASCII texts the colour reader always answers. |
| HexColors.SplitCharacter | crates/imgx/src/transform/params.rs:1106-1114 | A two-byte character behind the first digit panics; in front of it, it is refused. |
| ParamsFields.SetFieldFrame | crates/imgx/src/transform/params.rs:931-999 | An accepted pair changes its own field and no other field, and leaves the overlays alone. |
| ParamsRoundTrip.FieldReadsBack | crates/imgx/src/transform/params.rs:760-860 | The text written for any scalar field is read back as that field's canonical value, floats rounded to 24 bits. |
| ParamsRoundTrip.DrawsReadBack | crates/imgx/src/transform/params.rs:1045-1080 | The texts written for a sparse overlay array rebuild it, gaps filled with defaults. |
| ParamsRoundTrip.KeyRoundTrip | crates/imgx/src/transform/params.rs:760-901 | For everything the parser can produce, parsing the key succeeds and gives the same options at printed precision, with `onerror` and `scq` unset. |
| ParamsRoundTrip.ParserProduces | crates/imgx/src/transform/params.rs:906-1003 | Everything the parser accepts is in the domain of the round trip. |
| ParamsRoundTrip.KeysAgree | crates/imgx/src/transform/params.rs:760-901 | Two keys are equal exactly when the options are equal up to printed precision, `onerror` and `scq`. |
| ParamsOrder.PairsCommute | crates/imgx/src/transform/params.rs:906-1003 | Two pairs that set different fields, aliases folded, can be swapped without changing acceptance or the options. |
| ParamsOrder.PairsPermute | crates/imgx/src/transform/params.rs:906-1003 | So can any permutation of pairs that set each field once, overlays in any index order included. |
| ParamsOrder.OrderDoesNotMatter | crates/imgx/src/transform/params.rs:906-1003 | Option strings that permute such pairs both fail, or give equal options and the same cache key. |
| Negotiate.ParseAcceptHeader | crates/imgx/src/transform/negotiate.rs:42-88 | The loop grants a format exactly when some entry names it without a zero weight. |
| Negotiate.HeaderIsASet | crates/imgx/src/transform/negotiate.rs:42-88 | Reordering or repeating Accept entries changes neither the formats granted nor the key segment. |
| Negotiate.FirstCandidate | crates/imgx/src/transform/negotiate.rs:93-134 | Without an explicit format a static image gets the first allowed candidate: AVIF, WebP, PNG, JPEG with alpha and AVIF, WebP, JPEG, PNG without, and JPEG when none is allowed. |
| Negotiate.FirstAnimatedCandidate | crates/imgx/src/transform/negotiate.rs:136-159 | An animated image gets WebP, or else GIF, when the header allows it, and stays static otherwise. |
| Negotiate.ExplicitFormat | crates/imgx/src/transform/negotiate.rs:93-150 | An explicit format is the format, and animates exactly for WebP and GIF. |
| Negotiate.FastCodec | crates/imgx/src/transform/negotiate.rs:198-213 | `compression=fast` turns AVIF and WebP into JPEG on static images and changes nothing else. |
| Negotiate.JsonResult | crates/imgx/src/transform/pipeline.rs:573-600 | A `json` result is typed as such and reports the codec of the same still image without a format. |
| Negotiate.AnimatedResult | crates/imgx/src/transform/pipeline.rs:176-187 | An animation keeps its animated format, also with `compression=fast`. |
| Negotiate.TypeNamesFormat | crates/imgx/src/transform/params.rs:92-102 | The content type of a format is the media type by which an Accept header names it. |
| Negotiate.MediaTypes | crates/imgx/src/transform/negotiate.rs:76-84 | Each media type alone allows its own format and no other, and each wildcard the wildcard. |
| Negotiate.WeightedType | crates/imgx/src/transform/negotiate.rs:58-74 | A weight switches its type off exactly when it reads as zero; a malformed one does not. |
| Negotiate.RefusedFormatChosen | crates/imgx/src/transform/negotiate.rs:93-134 | The static format is one that the header names with a weight of zero exactly in two cases: WebP by a wildcard, or JPEG as the last resort. |
| Negotiate.RefusedAnimationChosen | crates/imgx/src/transform/negotiate.rs:136-159 | The animated format is a refused one exactly when a wildcard brings WebP back. |
| Negotiate.RefusedWebpChosen | crates/imgx/src/transform/negotiate.rs:42-159 | A header that names WebP with a weight of zero and then allows everything gets WebP, static and animated. |
| Negotiate.SegmentMeaning | crates/imgx/src/transform/negotiate.rs:179-196 | Two key segments are equal exactly for the same explicit format, or for no explicit format and equal support. |
| Negotiate.SegmentDecidesCodec | crates/imgx/src/transform/negotiate.rs:93-213 | Equal segments give equal static and animated codecs for every source, also with `compression=fast`, unless `json` is asked for. |
| Negotiate.SegmentSoundExactly | crates/imgx/src/transform/negotiate.rs:179-196 | A format's segment decides the body for all headers and sources exactly when the format is not `json`. |
| Negotiate.JsonSegmentIsBlind | crates/imgx/src/transform/pipeline.rs:573-600 | Two `json` requests with one segment whose bodies report WebP and JPEG. |
| Router.ContainsEncodedTraversal | crates/imgx/src/router.rs:167-186 | The scan finds a percent-encoded dot, slash or null byte exactly when one occurs. |
| Router.TraversalIsComponent | crates/imgx/src/router.rs:160-165 | The four textual checks hold exactly when some component is `..`. |
| Router.ResolvesExactly | crates/imgx/src/router.rs:60-141 | A path resolves to an image request exactly when it is clean and is the rendering of that request, so prefix, options and image path reassemble it. |
| Router.EscapesDecode | crates/imgx/src/router.rs:167-186 | In the decoding that the traversal check guards against, a percent sign and two digits stand for one character, and any other character for itself. |
| Router.WellKnown | crates/imgx/src/router.rs:60-76 | The health, metrics and readiness routes belong to exactly their paths, with or without the leading slash. |
| Router.RefusedFor | crates/imgx/src/router.rs:121-141 | Why a path is refused: invalid, empty or traversal, each exactly. |
| Router.DecodeKeepsGuarded | crates/imgx/src/router.rs:167-186 | One percent-decoding pass over a clean path neither adds nor removes a dot, a slash or a null byte. |
| Router.DecodeSplits | crates/imgx/src/router.rs:167-186 | Decoding a clean path works component by component. |
| Router.ImagePathStaysInside | crates/imgx/src/router.rs:60-186 | The image path of a resolved request has no `..` component and no null byte, before or after one decoding pass. |
| Router.DoubleSlashRefused | crates/imgx/src/router.rs:121-141 | Of the paths without null byte, `..` component or encoded triplet, exactly those that start with two slashes are invalid, and every other non-empty one passes. |
| Router.EmbeddedAbsolutePath | crates/imgx/src/router.rs:121-141 | Every text after `image//` without null byte, `..` component or encoded triplet resolves to an image path that starts with a slash. |
| CacheKeys.KeyInjective | crates/imgx/src/cache/mod.rs:41-43 | With bar-free transform and format segments the key is injective, whatever the path holds. |
| CacheKeys.KeyIsNoTail | crates/imgx/src/cache/mod.rs:41-43 | No key text is the tail of another after a bar, even when overlay URLs hold bars. |
| CacheKeys.KeyIdentifiesRequest | crates/imgx/src/server.rs:375-381 | Two requests share a key exactly when path, canonical options and format segment agree, with no assumption on paths or overlay URLs. |
| ObjectKeys.SanitizeKey | crates/imgx/src/cache/r2.rs:156-168 | The loop computes the specified rewriting, and refuses keys that hold `..`. |
| ObjectKeys.SanitizeIdempotent | crates/imgx/src/cache/r2.rs:156-168 | An accepted key is rewritten to one without bars, doubled slashes or `..`, and rewriting it again changes nothing. |
| ObjectKeys.KeysConfused | crates/imgx/src/cache/r2.rs:156-168 | For all options the parser can produce, two keys are rewritten alike exactly when their format segments agree and their paths, and their option texts, agree after the same rewriting; overlay URLs may hold bars. |
| ObjectKeys.ObjectKeyInjective | crates/imgx/src/cache/r2.rs:156-168 | On paths and option texts without a bar, a doubled slash or a slash at the end, the object key decides path, canonical options and format segment. |
| ObjectKeys.SegmentsConfused | crates/imgx/src/cache/r2.rs:156-168 | Outside those texts it does not: three families of pairs that share an object key. |
| ObjectKeys.OverlaysConfused | crates/imgx/src/cache/r2.rs:156-168 | Options that differ in one overlay URL are rewritten alike exactly when the URLs are. |
| ObjectKeys.BarsInUrl | crates/imgx/src/cache/r2.rs:156-168 | Two overlay URLs that differ only in a doubled bar have different cache keys and one object key. |
| MemoryCache.MemoryCache.Get | crates/imgx/src/cache/memory.rs:50-58 | A read returns the entry and makes it the most recently used one. |
| MemoryCache.MemoryCache.Put | crates/imgx/src/cache/memory.rs:60-90 | The eviction loop ends, never subtracts below zero, and leaves the specified slots; an oversize entry empties the cache. |
| MemoryCache.MemoryCache.Delete | crates/imgx/src/cache/memory.rs:92-101 | A delete removes exactly its entry, keeps the byte count, and reports whether it was there. |
| MemoryCache.EvictedIsLongestSuffix | crates/imgx/src/cache/memory.rs:68-80 | Eviction keeps the longest most-recently-used suffix that leaves enough room. |
| MemoryCache.StoredFacts | crates/imgx/src/cache/memory.rs:60-90 | A write keeps the keys distinct and the budget, stores an entry exactly when it fits, and adds nothing else. |
| MemoryCache.RunKeepsBudget | crates/imgx/src/cache/memory.rs:50-112 | Over every run of operations the keys stay distinct and the stored sizes stay within the maximum. |
| MemoryCache.RunKeepsBytes | crates/imgx/src/cache/memory.rs:50-112 | Over every run the bytes of data and content types held stay within the maximum. |
| MemoryCache.RunHoldsLastPut | crates/imgx/src/cache/memory.rs:50-112 | Over every run, what a key holds is what was last written there and not deleted since. |
| MemoryCache.RunOrderedByUse | crates/imgx/src/cache/memory.rs:50-112 | Over every run the entries stand in the order of their last use. |
| TieredCache.TieredCache.Get | crates/imgx/src/cache/tiered.rs:48-61 | A memory hit is touched; a miss asks the store and promotes what it finds. |
| TieredCache.TieredCache.Put | crates/imgx/src/cache/tiered.rs:63-68 | A write reaches memory at once and leaves one pending store write. |
| TieredCache.TieredCache.FinishWrite | crates/imgx/src/cache/tiered.rs:34-40 | A pending write lands or is lost, in any order. |
| TieredCache.TieredCache.Delete | crates/imgx/src/cache/tiered.rs:70-75 | Both levels are asked, and pending writes are not stopped. |
| TieredCache.StoredReadsBack | crates/imgx/src/cache/r2.rs:40-100 | A stored object is read back under every key with its object key, a deleted one under none, and no other read changes. |
| TieredCache.SignaturesNameTypes | crates/imgx/src/cache/r2.rs:110-147 | The signatures of WebP, AVIF and HEIF, PNG, GIF and JPEG name their types, and any other start names none. |
| TieredCache.BoxesNameTypes | crates/imgx/src/cache/r2.rs:118-128 | So do the box types of AVIF and HEIF, still and animated. |
| Server.RunKeepsPermits | crates/imgx/src/server.rs:461-489 | Over every run of concurrent requests, free permits plus running tasks equal the capacity, abandoned requests included. |
| Server.RunIsSound | crates/imgx/src/server.rs:383-523 | Over every interleaving, what a store object, a memory entry, a pending write or a cached answer holds comes from a successful transform of a request that reaches that key. |
| Server.OnlySuccessIsKept | crates/imgx/src/server.rs:491-523 | While no transform has succeeded, both levels and the pending writes stay empty. |
| Answers.FailureAnswered | crates/imgx/src/server.rs:545-649 | Over every run, the answer to a request whose transform failed: a redirect, the origin's bytes or the envelope, each exactly under its condition on mode, format, `onerror` and origin, and 422 or 500 by the failure. |
| Answers.RedirectGiven | crates/imgx/src/server.rs:590-625 | A run in which a failed request gets the redirect it asked for. |
| Answers.SuccessAnswered | crates/imgx/src/server.rs:491-523 | Over every run, a request whose transform succeeded is answered with its own rendition. |
| Answers.RenditionFormat | crates/imgx/src/server.rs:491-523 | The content type of a still rendition is that of the explicit or negotiated format, and JPEG for `compression=fast` in place of AVIF and WebP. |
| Answers.MissContinues | crates/imgx/src/server.rs:420-489 | A miss waits for its origin, is refused as busy exactly when no permit is free, and runs otherwise. |
| Answers.TaskReleases | crates/imgx/src/server.rs:461-489 | After any run, a task that ends gives its permit back, whether its client still waits or has gone away. |
| Answers.PromotedIsHeld | crates/imgx/src/server.rs:383-420 | After any run, a promoted store hit is in memory when it fits. |
| Answers.KeptIsHeld | crates/imgx/src/server.rs:491-523 | After any run, a kept result is in memory when it fits, and one store write of it is under way. |
| Answers.HitIsMostRecent | crates/imgx/src/cache/memory.rs:50-58 | After any run, a memory hit becomes the most recently used entry. |
| Answers.DeletedIsGone | crates/imgx/src/cache/tiered.rs:70-80 | After any run, a key deleted in a level is gone there, and a clear empties the memory. |
| Server.TransparentExactly | crates/imgx/src/server.rs:383-505 | For every class of requests, every cached answer over every run is the fresh one if and only if requests that reach each other's keys have one rendition, keys that the store refuses included; the server has at least one permit. |
| Server.ConfusedRun | crates/imgx/src/server.rs:383-505 | For two requests of which one reaches the key of the other, by store or by memory, a run that answers the second with the rendition of the first. |
| Transparency.SoundRequestsAgree | crates/imgx/src/server.rs:375-381 | Requests that pass a local check and share an object key agree on all that a transform reads. |
| Transparency.CachedAnswersAreFresh | crates/imgx/src/server.rs:383-505 | End to end, from option text to store: every cached answer to such requests is the fresh one, content type included. |
| Transparency.RoutedOptions | crates/imgx/src/server.rs:287-345 | The options of every routed and parsed request are in the domain of the key theorems. |
| Transparency.RatiosConfused | crates/imgx/src/transform/params.rs:781 | Two pixel ratios share a key exactly when they round to the same tenth. |
| Transparency.RatioIsBlurred | crates/imgx/src/transform/params.rs:596-607 | Two ratios that share a key and ask for 496 and 480 pixels. |
| Transparency.EffectiveAtOne | crates/imgx/src/transform/params.rs:596-607 | At a ratio of one the width asked for is kept, up to 8192. |
| Transparency.RatiosRead | crates/imgx/src/transform/params.rs:1033-1040 | The two ratios are the 32-bit floats that the texts `1.24` and `1.2` are read as. |
| Transparency.BlurredRatioIsServed | crates/imgx/src/server.rs:383-505 | A run in which the request at ratio 1.2 gets the rendition made for 1.24, whenever that is kept at all. |
| Planes.Averages | crates/imgx/src/transform/thumbhash.rs:45-60 | The first pass computes the alpha-weighted average colour, undivided when every pixel is transparent. |
| Planes.AverageInUnit | crates/imgx/src/transform/thumbhash.rs:45-60 | Each average is in [0, 1] and, times the total alpha, is the colour total. |
| Planes.HasAlphaIff | crates/imgx/src/transform/thumbhash.rs:62 | The alpha flag is set exactly when some pixel is not opaque. |
| Planes.SplitPlanes | crates/imgx/src/transform/thumbhash.rs:68-81 | The second pass computes the four planes of the specification. |
| Planes.PlanesBounded | crates/imgx/src/transform/thumbhash.rs:72-81 | Luminance and alpha stay in [0, 1], and both colour differences in [-1, 1], for every pixel. |
| Planes.MeansAreAverageColour | crates/imgx/src/transform/thumbhash.rs:45-81 | Blending keeps the average: the mean of each plane is that plane's value of the average colour. |
| Planes.PlanesNameColours | crates/imgx/src/transform/thumbhash.rs:68-81 | The planes lose no colour: the decoder's formulas give back each byte of each pixel, laid over the average by its alpha. |
| Planes.OpaqueColours | crates/imgx/src/transform/thumbhash.rs:68-81 | For an opaque pixel they give back its red, green and blue bytes. |
| Cosines.EncodeChannel | crates/imgx/src/transform/thumbhash.rs:214-248 | The nested loops visit the specified terms in order and end, with their DC, AC and scale values; `CosineTerms` says what each term is. |
| CosineTerms.TermLinear | crates/imgx/src/transform/thumbhash.rs:219-232 | Every term is linear in the samples of the grid. |
| CosineTerms.SingleTerm | crates/imgx/src/transform/thumbhash.rs:219-232 | The term of a grid with one sample is the sample times the cosines of its column and of its row, over the number of samples; with linearity this is every term of every grid. |
| CosineBounds.DcIsMean | crates/imgx/src/transform/thumbhash.rs:219-238 | The DC term is the mean of the samples, for every cosine that is 1 at coefficient 0. |
| CosineBounds.TermSmall | crates/imgx/src/transform/thumbhash.rs:222-232 | No term of samples in [-1, 1] leaves [-1, 1]. |
| CosineBounds.ScaleIsLeastBound | crates/imgx/src/transform/thumbhash.rs:233-236 | The scale bounds every magnitude and some term reaches it. |
| CosineBounds.NormalisedFits | crates/imgx/src/transform/thumbhash.rs:242-246 | Every normalised value is in [0, 1], and the scale gives the term back, a zero scale included. |
| TermCounts.TermsAreLattice | crates/imgx/src/transform/thumbhash.rs:219-241 | The visited terms are exactly the lattice points under the diagonal, each once. |
| TermCounts.TermsInOrder | crates/imgx/src/transform/thumbhash.rs:219-241 | They are visited row by row, from left to right. |
| TermCounts.CountSymmetric | crates/imgx/src/transform/thumbhash.rs:219-241 | Turning the box keeps the number of terms. |
| TermCounts.CountMonotone | crates/imgx/src/transform/thumbhash.rs:219-241 | A larger box never has fewer terms. |
| HashBytes.Header24Adds | crates/imgx/src/transform/thumbhash.rs:89-93 | No two or-ed fields of the first header word overlap. |
| HashBytes.Header16Adds | crates/imgx/src/transform/thumbhash.rs:94-97 | No two or-ed fields of the second header word overlap. |
| HashBytes.FieldsReadBack | crates/imgx/src/transform/thumbhash.rs:99-112 | Reading a header by position gives every field back, whatever bytes follow. |
| HashBytes.NibblesReadBack | crates/imgx/src/transform/thumbhash.rs:114-128 | Reading the nibble stream low first gives every term in order, and a zero for an unused last nibble. |
| ThumbHash.AppendTerms | crates/imgx/src/transform/thumbhash.rs:114-128 | The packing loop never indexes out of range and appends the packed terms of the channels in order. |
| ThumbHash.Encode | crates/imgx/src/transform/thumbhash.rs:32-130 | The encoder computes the specified hash, and each error exactly for its inputs. |
| ThumbHash.RgbaFromBands | crates/imgx/src/transform/thumbhash.rs:141-175 | Samples of one to four bands expand pixel by pixel, with each error exactly for its inputs. |
| ThumbHash.ExpandedBytes | crates/imgx/src/transform/thumbhash.rs:132-175 | Which byte of its sample each component of a pixel is, for one to four bands. |
| ThumbHashFacts.ChannelsFit | crates/imgx/src/transform/thumbhash.rs:83-86 | Every DC is the mean of its plane, and every DC, scale and AC value keeps its range. |
| ThumbHashFacts.FieldsFit | crates/imgx/src/transform/thumbhash.rs:88-112 | Every rounded value fits the bits of its field, for every image with sides 1 to 100 and every cosine in [-1, 1]. |
| ThumbHashFacts.SidesBounded | crates/imgx/src/transform/thumbhash.rs:62-66 | The longest side gets exactly the limit of terms, and no side gets more, or none. |
| ThumbHashFacts.SideProportional | crates/imgx/src/transform/thumbhash.rs:62-66 | The terms along a side are in proportion to it, rounded to the nearest count and halves up, and at least one. |
| ThumbHashFacts.HashReadsBack | crates/imgx/src/transform/thumbhash.rs:83-129 | A reader that takes the term counts from the header alone gets back every field and every term of every channel. |
| ThumbHashFacts.HashLength | crates/imgx/src/transform/thumbhash.rs:83-128 | The exact length; 17 to 24 bytes when opaque and 23 to 25 with alpha, with both bounds reached. |
| ThumbHashFacts.HeaderIsAverageColour | crates/imgx/src/transform/thumbhash.rs:88-91 | The header names the alpha-weighted average colour to within half a step of each field. |
| HashValues.ScalesNameLargest | crates/imgx/src/transform/thumbhash.rs:88-112 | Each scale field names the largest term of its own plane to within half a step, and the alpha field the mean of the alpha plane. |
| HashValues.TermsNameValues | crates/imgx/src/transform/thumbhash.rs:114-128 | Every written term names its own cosine term to within a fifteenth of the scale of its channel. |
| HashValues.LuminanceBox | crates/imgx/src/transform/thumbhash.rs:62-86 | The luminance has the most terms along the longer side, across when that is the width. |
| ThumbHashFacts.ThumbhashBody | crates/imgx/src/transform/pipeline.rs:607-611 | The body succeeds exactly for 8-bit rasters of the announced size, is 24 to 36 characters, and decodes to the hash. |
| Base64.ToBase64 | crates/imgx/src/transform/thumbhash.rs:178-200 | The loop over chunks computes the specified text. |
| Base64.FromBase64 | crates/imgx/src/transform/thumbhash.rs:280-295 | The bit-accumulating decoder computes the specified decoding, and fails on a character outside the alphabet. |
| Base64.RoundTrip | crates/imgx/src/transform/thumbhash.rs:178-200 | Decoding an encoded byte string gives it back, for every byte string. |
| Base64.KnownTexts | crates/imgx/src/transform/thumbhash.rs:178-200 | The examples of section 10 of RFC 4648. |
| Base64.Shape | crates/imgx/src/transform/thumbhash.rs:178-200 | The length is four characters per three bytes begun, with exactly 0, 2 or 1 pads at the end and only alphabet characters before. |
| Stages.Prepare | crates/imgx/src/transform/pipeline.rs:206-280 | The stages from frame extract to flip, one after the other, give the specified image or the first refusal; `StagePixels` says which pixels those are. |
| StagePixels.BorderTrimmed | crates/imgx/src/transform/pipeline.rs:226-234 | With only a border trim, the output is pixel by pixel the window that the search found, the image itself for an empty window, and nothing when the search fails or the window is outside. |
| StagePixels.SideTrimmed | crates/imgx/src/transform/pipeline.rs:242-264 | With only side trims, the output is pixel by pixel what the four sides leave. |
| StagePixels.SidePixelsMean | crates/imgx/src/transform/pipeline.rs:251-258 | A side trim is a number of pixels from one on, and a fraction of the side below. |
| StagePixels.UprightPixel | crates/imgx/src/transform/pipeline.rs:266-280 | Which pixel a turn and then the mirrors bring to each place, and the size that comes out. |
| StagePixels.QuarterTurns | crates/imgx/src/transform/pipeline.rs:266-280 | Two quarter turns are the half turn, three the turn the other way, four none, and a quarter turn brings the upper left pixel to the upper right. |
| StagePixels.StillPixel | crates/imgx/src/transform/pipeline.rs:206-280 | All stages of a still image together: which source pixel each output pixel is. |
| StagePixels.StackPixel | crates/imgx/src/transform/pipeline.rs:206-280 | Animated output keeps the whole stack, turned and mirrored, and no trim touches it. |
| Stages.FrameInBounds | crates/imgx/src/transform/pipeline.rs:210-224 | On a stack of whole pages the frame window is inside, and is the requested or the last frame, exactly for indices that stay non-negative as signed numbers. |
| Stages.SideTrimInBounds | crates/imgx/src/transform/pipeline.rs:242-264 | The per-side trim window is inside exactly when left and top leave a pixel. |
| Stages.WholeWidthTrimmed | crates/imgx/src/transform/pipeline.rs:242-264 | `trim.left=100` on an image 100 wide is refused. |
| Stages.FastPathSound | crates/imgx/src/transform/pipeline.rs:758-767 | Where the gate holds, the stages before the resize return the decoded first frame itself, for every source. |
| Stages.GateKeepsOut | crates/imgx/src/transform/pipeline.rs:758-767 | The gate keeps out hashes, animations and crops placed by the content, and lets a plain resize through. |
| Stages.GateIgnoresNoOps | crates/imgx/src/transform/pipeline.rs:758-767 | `rotate=0` and side trims of zero do not close the gate. |
| FastPath.StagesKeepExactly | crates/imgx/src/transform/pipeline.rs:206-280 | The stages leave every image unchanged exactly when no side trim is positive and turn and mirrors cancel. |
| FastPath.GateIsConservative | crates/imgx/src/transform/pipeline.rs:758-767 | A half turn mirrored both ways changes no image and is turned away. |
| Sizes.ContainSize | crates/imgx/src/transform/pipeline.rs:796-810 | In rounded 64-bit arithmetic, the size is at least 1 by 1 and exceeds neither the box nor the source, for all positive 32-bit sides. |
| Sizes.ContainScales | crates/imgx/src/transform/pipeline.rs:796-810 | Each side is within half a pixel of exact scaling by one common factor, up to a relative 2^-48 for the six roundings. |
| Doubles.NearestMonotone | crates/imgx/src/transform/pipeline.rs:796-810 | Rounding to 53 bits keeps the order of values. |
| Sizes.SideDecided | crates/imgx/src/transform/pipeline.rs:796-810 | Away from exact halves, rounding decides nothing: the side is the exact quotient rounded. |
| Sizes.HalfTakenDown | crates/imgx/src/transform/pipeline.rs:796-810 | 1820 by 1400 in a box of 1831 by 725 is 942 wide, where the exact quotient is 942.5. |
| Sizes.ContainTouches | crates/imgx/src/transform/pipeline.rs:796-810 | A box that holds the source leaves it alone, and any other box is met exactly along one side. |
| Sizes.ContainIdempotent | crates/imgx/src/transform/pipeline.rs:796-810 | Fitting a fitted size again changes nothing. |
| Sizes.ContainMonotone | crates/imgx/src/transform/pipeline.rs:796-810 | A larger box never gives a smaller image. |
| Resizing.Resize | crates/imgx/src/transform/pipeline.rs:842-867 | With libvips as assumed, a contain request ends at the size of the full decode, a fill request at its box and a crop request at what the image fills of its box, with and without a reduced decode. |
| Resizing.SizeSameOnBothPaths | crates/imgx/src/transform/pipeline.rs:842-867 | Both decode paths end at the same size for every fit: `contain_size` for contain, inside and pad, the box for fill and cover, what the image fills of it for crop and aspect-crop. |
| Resizing.CropWindows | crates/imgx/src/transform/pipeline.rs:870-920 | Which fits crop, and that `smart` and `attention` place the window by the content, each in its own way. |
| Resizing.SidesOfBox | crates/imgx/src/transform/pipeline.rs:306-343 | A side asked for is the side of the box, and a missing height is derived exactly for the fits without a target box. |
| Resizing.PadLandsOnTarget | crates/imgx/src/transform/pipeline.rs:466-478 | Pad lands exactly on each side asked for, with the image whole, inside the canvas and centred. |
| Resizing.WidthAloneReached | crates/imgx/src/transform/pipeline.rs:306-343 | A width without a height is reached exactly when the image is that wide and the derived height leaves room for it to within half a pixel; at exactly half a pixel the rounding decides. |
| Resizing.WidthAloneLost | crates/imgx/src/transform/pipeline.rs:306-343 | A 100 by 3 image asked for a width of 48 comes out 33 by 1. |
| Resizing.HeightAloneReached | crates/imgx/src/transform/pipeline.rs:306-343 | A height without a width is reached exactly when the image is that high and the derived width leaves room for it to within half a pixel; at exactly half a pixel the rounding decides. |
| Resizing.HeightAloneLost | crates/imgx/src/transform/pipeline.rs:306-343 | A 1080 by 1920 image asked for a height of 200 comes out 112 by 199. |
| Resizing.DerivedWidth | crates/imgx/src/transform/pipeline.rs:306-343 | The derived width is the exact quotient cut to whole pixels, and one less only where the quotient is whole and the rounded product falls below it. |
| Resizing.DerivedHeight | crates/imgx/src/transform/pipeline.rs:306-343 | The derived height is the exact quotient rounded, and one less only where the quotient is an exact half and the rounded product falls below it. |
| Resizing.HeightAloneClosed | crates/imgx/src/transform/pipeline.rs:306-343 | Where no rounding can matter, the condition in integers of the request and the image alone. |
| Resizing.WidthAloneClosed | crates/imgx/src/transform/pipeline.rs:306-343 | The same for a width. |
| Resizing.HeightAloneWhole | crates/imgx/src/transform/pipeline.rs:306-343 | A whole derived width that rounding keeps gives the height exactly when the image is that high. |
| Resizing.OwnHeightLost | crates/imgx/src/transform/pipeline.rs:306-343 | A 29 by 50 image asked for its own height of 50 comes out 28 by 48. |
| Resizing.HalfWidthLost | crates/imgx/src/transform/pipeline.rs:306-343 | A 22 by 15 image asked for a width of 11 comes out 10 by 7. |
| Resizing.AspectCropFits | crates/imgx/src/transform/pipeline.rs:411-431 | The direct crop is inside, keeps one full side, is centred, and is within half a pixel of the target ratio, up to 2^-16 for the rounding, unless clamped to one pixel. |
| Animation.CoverCrop | crates/imgx/src/transform/pipeline.rs:372-393 | The second cover step: unchanged, one horizontal crop, or the joined windows of the first 256 frames at most. |
| Animation.JoinedPage | crates/imgx-vips/src/image.rs:758-776 | The pages of frames joined downwards are the frames. |
| Animation.SavedImage.GuardPages | crates/imgx/src/transform/pipeline.rs:1125-1134 | After the check the page height is absent or cuts the image evenly; good metadata is kept, the rest becomes one page. |
| CoverFacts.CoverKeepsFrames | crates/imgx/src/transform/pipeline.rs:372-395 | For every stack of whole pages at least as large as the target, output page i is one fixed centred window of frame i, for all frames kept, exactly when a page is not one row taller than the target. |
| CoverFacts.FramesLimited | crates/imgx/src/transform/pipeline.rs:380-393 | At most 256 frames are kept exactly when no more are read or rows are cut off each frame. |
| CoverFacts.LimitMissed | crates/imgx/src/transform/pipeline.rs:380-393 | 300 frames of the target height are all kept; with two rows more, 256 of them. |
| CoverFacts.CoverBoxCovers | crates/imgx/src/transform/pipeline.rs:355-361 | The box asked of the resize covers the target, and leaves one row over exactly under the stated condition on the sides, in rounded arithmetic. |
| CoverFacts.SideDecides | crates/imgx/src/transform/pipeline.rs:355-361 | Each box side is the exact product rounded up, except that an exactly whole product is taken one up where the rounded one exceeds it. |
| CoverFacts.AnimatedCoverIntact | crates/imgx/src/transform/pipeline.rs:349-395 | If the resize returns the stack asked for, all frames are intact exactly when that condition does not hold. |
| CoverFacts.PagesDrift | crates/imgx/src/transform/pipeline.rs:380-395 | Otherwise output page i starts inside frame i - 1, one row earlier for each page. |
| CoverFacts.PageHeightDivides | crates/imgx/src/transform/pipeline.rs:372-395 | The page height divides the output exactly when frames are intact or it divides the page count. |
| CoverFacts.SaveCovered | crates/imgx/src/transform/pipeline.rs:1125-1134 | The pages a GIF of a covered stack is saved with and the count its metadata claims, for a source with frames left unread. |
| CoverFacts.ClaimsMatch | crates/imgx/src/transform/pipeline.rs:1125-1134 | The claimed count is the saved one exactly for intact stacks that were read and kept whole, for drifted stacks that end as a still page, and for those whose extra pages make up the frames left unread. |
| CoverFacts.ClaimsFollowLimit | crates/imgx/src/transform/pipeline.rs:165-203 | For intact stacks and a limit of at most 256 the counts agree exactly when the source has no more frames than the limit. |
| CoverFacts.UnreadFramesClaimed | crates/imgx/src/transform/pipeline.rs:165-203 | 150 frames under the limit of 100 are saved as 100 pages that claim to be 150. |
| CoverFacts.OneRowOverHappens | crates/imgx/src/transform/pipeline.rs:355-361 | Frames of 100 by 101 covering 50 by 50 leave one row over whatever the rounding. |
| CoverFacts.OneRowOverByRounding | crates/imgx/src/transform/pipeline.rs:355-361 | Frames of 100 by 100 covering 55 by 55 leave one row over by rounding: the scale, the product and the box of 56 by 56. |

## Left out

- ThumbHash.Encode: 64-bit floats are reals and the cosine is any function in [-1, 1] that is 1 at coefficient 0, so equality with the JavaScript bytes and rounding ties are not captured.
- ThumbHashFacts.HashReadsBack: the reader is the inverse that the byte layout implies; the repository has no decoder for hashes.
- Doubles.NearestMonotone: 64-bit floats have 53 significant bits and no bounds on the exponent; no size of an image comes near those bounds.
- Resizing.SizeSameOnBothPaths: that a forced resize is exact, that a full decode follows `contain_size`, and that a crop ends at its box are contracts on libvips; for `outside`, that an upward resize never decodes at reduced size is one too, and gives the equality itself.
- CoverFacts.AnimatedCoverIntact: that the inner thumbnail returns the stack asked for is a hypothesis on libvips; `CoverFacts.CoverKeepsFrames` holds for any stack of whole pages. Targets are at most 8192, as `validate` and the derived sides keep them; the product `resized_page_h * pages` is not cut to 32 bits.
- Params.ToCacheKey: written as a loop over the field order instead of one statement per field.
- MemoryCache.MemoryCache.Put: sizes are unbounded integers, and the lock is the atomicity of each method.
- Server.RunIsSound: asynchronous code is a transition system whose steps are the code between two awaits; a transform is a function of the request.
- Stages.Prepare: the border search is a parameter, and the probe, the pixel budget and the animated reload come before the model.
- Pixel effects, resampling, colour, metadata bytes and encoders: decided inside libvips.
- Overlay compositing, borders, background and the text of JSON bodies: no cache identity and little geometry beyond what is modelled.
- Range checks of `validate`, connection hints and operator limits: each is settled by one reading.
- Origin fetchers, the S3 client, redirects and address guards: network clients.
- ETags, timestamps, metrics, logging and configuration: opaque or never compared.
