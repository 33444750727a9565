/** Content negotiation: the Accept header, the output format it selects, and the format part of a cache key. */
module Negotiate {
  import opened Text
  import opened Singles
  import opened Numbers
  import opened Params

  /** What one accepted entry of the header allows. */
  datatype Grant = GrantAvif | GrantWebp | GrantJpeg | GrantPng | GrantGif | GrantAny

  datatype AcceptResult = AcceptResult(avif: bool, webp: bool, jpeg: bool, png: bool, gif: bool, wildcard: bool) {
    /** A wildcard counts for every format but AVIF. */
    predicate Supports(f: OutputFormat) {
      match f
      case Avif => avif
      case Webp => webp || wildcard
      case Jpeg | BaselineJpeg => jpeg || wildcard
      case Png => png || wildcard
      case Gif => gif || wildcard
      case Auto | Json | Thumbhash => true
    }

    function With(g: Grant): AcceptResult {
      match g
      case GrantAvif => this.(avif := true)
      case GrantWebp => this.(webp := true)
      case GrantJpeg => this.(jpeg := true)
      case GrantPng => this.(png := true)
      case GrantGif => this.(gif := true)
      case GrantAny => this.(wildcard := true)
    }

    predicate Has(g: Grant) {
      match g
      case GrantAvif => avif
      case GrantWebp => webp
      case GrantJpeg => jpeg
      case GrantPng => png
      case GrantGif => gif
      case GrantAny => wildcard
    }
  }

  const NOTHING: AcceptResult := AcceptResult(false, false, false, false, false, false)

  function MediaGrant(media: string): Option<Grant> {
    match media
    case "*/*" | "image/*" => Some(GrantAny)
    case "image/avif" => Some(GrantAvif)
    case "image/webp" => Some(GrantWebp)
    case "image/jpeg" | "image/jpg" => Some(GrantJpeg)
    case "image/png" => Some(GrantPng)
    case "image/gif" => Some(GrantGif)
    case _ => None
  }

  /** Whether a `q` text is a number equal to zero; a malformed or infinite weight is not. */
  predicate IsZeroWeight(text: string) {
    match ParseFinite(text)
    case Some(q) => q.magnitude == 0.0
    case None => false
  }

  /** Whether the entry is disabled after its parameters are read: the last `q` counts. */
  function Disabled(parameters: seq<string>): bool {
    if parameters == [] then false
    else
      var last := Trim(parameters[|parameters| - 1]);
      if "q=" <= last || "Q=" <= last then IsZeroWeight(last[2..])
      else Disabled(parameters[..|parameters| - 1])
  }

  /** What one comma-separated entry contributes. */
  function EntryGrant(raw: string): Option<Grant> {
    var entry := Trim(raw);
    if entry == [] then None
    else
      var parts := Split(entry, ';');
      if Disabled(parts[1..]) then None else MediaGrant(Trim(parts[0]))
  }

  /** Whether some entry of the header contributes `g`. */
  predicate Granted(accept: string, g: Grant) {
    exists i :: 0 <= i < |Split(accept, ',')| && EntryGrant(Split(accept, ',')[i]) == Some(g)
  }

  /** The formats that a header allows: those that one of its entries contributes. */
  function AcceptOf(accept: string): AcceptResult {
    AcceptResult(Granted(accept, GrantAvif), Granted(accept, GrantWebp), Granted(accept, GrantJpeg),
                 Granted(accept, GrantPng), Granted(accept, GrantGif), Granted(accept, GrantAny))
  }

  /** Reads the parameters of one entry from left to right. */
  method ReadDisabled(parameters: seq<string>) returns (disabled: bool)
    ensures disabled == Disabled(parameters)
  {
    hide IsZeroWeight, Trim;
    disabled := false;
    for i := 0 to |parameters|
      invariant disabled == Disabled(parameters[..i])
    {
      var parameter := Trim(parameters[i]);
      if "q=" <= parameter || "Q=" <= parameter {
        disabled := IsZeroWeight(parameter[2..]);
      }
      assert parameters[..i + 1][..i] == parameters[..i];
    }
    assert parameters[..|parameters|] == parameters;
  }

  /** What the entries before `n` contribute. */
  ghost predicate Collected(entries: seq<string>, n: nat, result: AcceptResult)
    requires n <= |entries|
  {
    forall g: Grant :: result.Has(g) <==> exists i :: 0 <= i < n && EntryGrant(entries[i]) == Some(g)
  }

  lemma CollectedStep(entries: seq<string>, n: nat, was: AcceptResult, now: AcceptResult)
    requires n < |entries| && Collected(entries, n, was)
    requires now == if EntryGrant(entries[n]).Some? then was.With(EntryGrant(entries[n]).value) else was
    ensures Collected(entries, n + 1, now)
  {
    hide EntryGrant;
  }

  lemma NothingCollected(entries: seq<string>)
    ensures Collected(entries, 0, NOTHING)
  {}

  lemma CollectedIsAccept(accept: string, result: AcceptResult)
    requires Collected(Split(accept, ','), |Split(accept, ',')|, result)
    ensures result == AcceptOf(accept)
  {
    hide EntryGrant, Split;
    assert forall g: Grant :: result.Has(g) <==> Granted(accept, g);
    assert result.Has(GrantAvif) == result.avif && result.Has(GrantWebp) == result.webp;
    assert result.Has(GrantJpeg) == result.jpeg && result.Has(GrantPng) == result.png;
    assert result.Has(GrantGif) == result.gif && result.Has(GrantAny) == result.wildcard;
  }

  method ParseAcceptHeader(accept: string) returns (result: AcceptResult)
    ensures result == AcceptOf(accept)
  {
    hide Trim, Disabled, Split, MediaGrant, Collected;
    result := NOTHING;
    var entries := Split(accept, ',');
    NothingCollected(entries);
    for n := 0 to |entries|
      invariant Collected(entries, n, result)
    {
      CollectedStep(entries, n, result,
                    if EntryGrant(entries[n]).Some? then result.With(EntryGrant(entries[n]).value) else result);
      var entry := Trim(entries[n]);
      if entry == [] {
        assert EntryGrant(entries[n]) == None;
        continue;
      }
      var parts := Split(entry, ';');
      var disabled := ReadDisabled(parts[1..]);
      if disabled {
        assert EntryGrant(entries[n]) == None;
        continue;
      }
      var media := Trim(parts[0]);
      assert EntryGrant(entries[n]) == MediaGrant(media);
      if MediaGrant(media).Some? {
        result := result.With(MediaGrant(media).value);
      }
    }
    CollectedIsAccept(accept, result);
  }

  function Accepted(header: Option<string>): AcceptResult {
    if header.Some? then AcceptOf(header.value) else NOTHING
  }

  predicate IsExplicit(requested: Option<OutputFormat>) {
    requested.Some? && requested.value != Auto
  }

  /** The format of a static image. */
  function NegotiateFormat(header: Option<string>, hasAlpha: bool, requested: Option<OutputFormat>): OutputFormat {
    if IsExplicit(requested) then requested.value
    else
      var accept := Accepted(header);
      if accept.Supports(Avif) then Avif
      else if accept.Supports(Webp) then Webp
      else if hasAlpha then (if accept.Supports(Png) then Png else Jpeg)
      else if accept.Supports(Jpeg) then Jpeg
      else if accept.Supports(Png) then Png
      else Jpeg
  }

  /** The format of an animated image, `None` when it is served as a static one. */
  function NegotiateAnimatedFormat(header: Option<string>, requested: Option<OutputFormat>): Option<OutputFormat> {
    if IsExplicit(requested) then
      (if requested.value.SupportsAnimation() then requested else None)
    else
      var accept := Accepted(header);
      if accept.Supports(Webp) then Some(Webp)
      else if accept.Supports(Gif) then Some(Gif)
      else None
  }

  const NEGOTIABLE: seq<OutputFormat> := [Avif, Webp, Jpeg, Png, Gif]

  function SupportedNames(accept: AcceptResult, formats: seq<OutputFormat>): seq<string> {
    if formats == [] then []
    else (if accept.Supports(formats[0]) then [formats[0].Name()] else []) + SupportedNames(accept, formats[1..])
  }

  const AUTO_PREFIX: string := "auto:"

  /** The third segment of a cache key. */
  function CacheFormatSegment(header: Option<string>, requested: Option<OutputFormat>): string {
    if IsExplicit(requested) then requested.value.Name()
    else AUTO_PREFIX + Join(SupportedNames(Accepted(header), NEGOTIABLE), '+')
  }

  function ApplyCompressionFast(format: OutputFormat, fast: bool): OutputFormat {
    if fast && (format == Avif || format == Webp) then Jpeg else format
  }

  /** The facts about one source that decide its output format, whatever the request says. */
  datatype Source = Source(hasAlpha: bool, animatable: bool)

  /**
    The codec that decides the bytes of a response. A `json` request answers with text, but the text states
    the size of an encoding that is negotiated again, as if no format had been requested.
   */
  function BodyCodec(header: Option<string>, requested: Option<OutputFormat>, source: Source, fast: bool)
    : OutputFormat
  {
    if requested == Some(Json) then ApplyCompressionFast(NegotiateFormat(header, source.hasAlpha, None), fast)
    else
      var animated := if source.animatable then NegotiateAnimatedFormat(header, requested) else None;
      match animated
      case Some(f) => f
      case None => ApplyCompressionFast(NegotiateFormat(header, source.hasAlpha, requested), fast)
  }

  /** The format that the result of a transform carries, and so its content type. */
  function ResultFormat(header: Option<string>, requested: Option<OutputFormat>, source: Source, fast: bool)
    : OutputFormat
  {
    if requested == Some(Json) then Json
    else BodyCodec(header, requested, source, fast)
  }

  // ---------------------------------------------------------------------------
  // The header is a set of entries
  // ---------------------------------------------------------------------------

  lemma GrantedMonotone(a: string, b: string, g: Grant)
    requires forall e :: e in Split(a, ',') ==> e in Split(b, ',')
    ensures Granted(a, g) ==> Granted(b, g)
  {
    hide EntryGrant, Split;
    if Granted(a, g) {
      var i :| 0 <= i < |Split(a, ',')| && EntryGrant(Split(a, ',')[i]) == Some(g);
      assert Split(a, ',')[i] in Split(b, ',');
    }
  }

  /** Reordering or repeating entries changes nothing: neither the formats allowed nor the cache segment. */
  lemma HeaderIsASet(a: string, b: string, requested: Option<OutputFormat>)
    requires forall e :: e in Split(a, ',') <==> e in Split(b, ',')
    ensures AcceptOf(a) == AcceptOf(b)
    ensures CacheFormatSegment(Some(a), requested) == CacheFormatSegment(Some(b), requested)
  {
    forall g: Grant ensures Granted(a, g) == Granted(b, g) {
      GrantedMonotone(a, b, g);
      GrantedMonotone(b, a, g);
    }
    hide Granted, Split;
  }

  // ---------------------------------------------------------------------------
  // The segment decides the format
  // ---------------------------------------------------------------------------

  lemma FormatNames(f: OutputFormat, g: OutputFormat)
    ensures f.Name() == g.Name() ==> f == g
    ensures f.Name() != [] && '+' !in f.Name() && ':' !in f.Name() && '|' !in f.Name() && '/' !in f.Name()
  {
    FormatNamePlain(f);
  }

  lemma FormatNamePlain(f: OutputFormat)
    ensures f.Name() != [] && '+' !in f.Name() && ':' !in f.Name() && '|' !in f.Name() && '/' !in f.Name()
  {}

  lemma {:induction false} SupportedNamesMean(accept: AcceptResult, formats: seq<OutputFormat>)
    ensures forall f: OutputFormat ::
      f.Name() in SupportedNames(accept, formats) <==> f in formats && accept.Supports(f)
    ensures forall name :: name in SupportedNames(accept, formats) ==> name != [] && '+' !in name
    decreases |formats|
  {
    if formats != [] {
      SupportedNamesMean(accept, formats[1..]);
      FormatNames(formats[0], formats[0]);
      forall f: OutputFormat
        ensures f.Name() in SupportedNames(accept, formats) <==> f in formats && accept.Supports(f)
      {
        FormatNames(f, formats[0]);
        hide OutputFormat.Name, AcceptResult.Supports;
        assert formats == [formats[0]] + formats[1..];
      }
    }
  }

  predicate SameSupport(a: AcceptResult, b: AcceptResult) {
    forall f :: f in NEGOTIABLE ==> a.Supports(f) == b.Supports(f)
  }

  lemma SegmentOfSupport(a: AcceptResult, b: AcceptResult)
    requires Join(SupportedNames(a, NEGOTIABLE), '+') == Join(SupportedNames(b, NEGOTIABLE), '+')
    ensures SameSupport(a, b)
  {
    SupportedNamesMean(a, NEGOTIABLE);
    SupportedNamesMean(b, NEGOTIABLE);
    hide SupportedNames, AcceptResult.Supports;
    JoinInjective(SupportedNames(a, NEGOTIABLE), SupportedNames(b, NEGOTIABLE), '+');
    forall f | f in NEGOTIABLE ensures a.Supports(f) == b.Supports(f) {
      assert f.Name() in SupportedNames(a, NEGOTIABLE) <==> f.Name() in SupportedNames(b, NEGOTIABLE);
    }
  }

  /**
    Two requests share a segment exactly when they ask for the same explicit format, or both ask for none
    and their headers support the same negotiable formats.
   */
  lemma SegmentMeaning(h: Option<string>, f: Option<OutputFormat>, i: Option<string>, g: Option<OutputFormat>)
    ensures CacheFormatSegment(h, f) == CacheFormatSegment(i, g) <==>
      if IsExplicit(f) then f == g else !IsExplicit(g) && SameSupport(Accepted(h), Accepted(i))
  {
    hide AcceptOf;
    if IsExplicit(f) && IsExplicit(g) {
      FormatNames(f.value, g.value);
    } else if IsExplicit(f) {
      FormatNames(f.value, f.value);
      hide SupportedNames, OutputFormat.Name;
      assert CacheFormatSegment(i, g)[4] == ':';
    } else if IsExplicit(g) {
      FormatNames(g.value, g.value);
      hide SupportedNames, OutputFormat.Name;
      assert CacheFormatSegment(h, f)[4] == ':';
    } else {
      var a, b := SupportedNames(Accepted(h), NEGOTIABLE), SupportedNames(Accepted(i), NEGOTIABLE);
      if CacheFormatSegment(h, f) == CacheFormatSegment(i, g) {
        hide SupportedNames;
        assert Join(a, '+') == CacheFormatSegment(h, f)[5..];
        assert Join(b, '+') == CacheFormatSegment(i, g)[5..];
        SegmentOfSupport(Accepted(h), Accepted(i));
      }
      if SameSupport(Accepted(h), Accepted(i)) {
        SupportOfSegment(Accepted(h), Accepted(i), NEGOTIABLE);
      }
    }
  }

  lemma {:induction false} SupportOfSegment(a: AcceptResult, b: AcceptResult, formats: seq<OutputFormat>)
    requires forall f :: f in formats ==> a.Supports(f) == b.Supports(f)
    ensures SupportedNames(a, formats) == SupportedNames(b, formats)
    decreases |formats|
  {
    if formats != [] {
      SupportOfSegment(a, b, formats[1..]);
    }
  }

  lemma SupportDecides(h: Option<string>, f: Option<OutputFormat>, i: Option<string>, g: Option<OutputFormat>,
                       alpha: bool)
    requires if IsExplicit(f) then f == g else !IsExplicit(g) && SameSupport(Accepted(h), Accepted(i))
    ensures NegotiateFormat(h, alpha, f) == NegotiateFormat(i, alpha, g)
    ensures NegotiateAnimatedFormat(h, f) == NegotiateAnimatedFormat(i, g)
  {
    hide AcceptOf;
    var a, b := Accepted(h), Accepted(i);
    if !IsExplicit(f) {
      assert NEGOTIABLE[0] == Avif && NEGOTIABLE[1] == Webp && NEGOTIABLE[2] == Jpeg;
      assert NEGOTIABLE[3] == Png && NEGOTIABLE[4] == Gif;
      assert a.Supports(Avif) == b.Supports(Avif) && a.Supports(Webp) == b.Supports(Webp);
      assert a.Supports(Jpeg) == b.Supports(Jpeg) && a.Supports(Png) == b.Supports(Png);
      assert a.Supports(Gif) == b.Supports(Gif);
    }
  }

  /**
    Format-segment soundness: requests that share a segment get the same codec from every source, whether it
    is animated or has alpha, with and without `compression=fast`, unless they ask for `json`.
   */
  lemma SegmentDecidesCodec(h: Option<string>, f: Option<OutputFormat>, i: Option<string>, g: Option<OutputFormat>,
                            source: Source, fast: bool)
    requires CacheFormatSegment(h, f) == CacheFormatSegment(i, g)
    ensures f != Some(Json) ==> BodyCodec(h, f, source, fast) == BodyCodec(i, g, source, fast)
    ensures ResultFormat(h, f, source, fast) == ResultFormat(i, g, source, fast)
  {
    hide CacheFormatSegment, NegotiateFormat, NegotiateAnimatedFormat, SameSupport, Accepted;
    SegmentMeaning(h, f, i, g);
    SupportDecides(h, f, i, g, source.hasAlpha);
  }

  /** An entry with neither parameters nor white space. */
  lemma PlainEntry(entry: string)
    requires entry != [] && ';' !in entry && !IsSpace(entry[0]) && !IsSpace(entry[|entry| - 1])
    ensures EntryGrant(entry) == MediaGrant(entry)
  {
    assert Trim(entry) == entry;
    SplitSingle(entry, ';');
    hide Trim, MediaGrant, Split;
  }

  lemma SingleEntry(accept: string, g: Grant)
    requires ',' !in accept
    ensures Granted(accept, g) <==> EntryGrant(accept) == Some(g)
  {
    SplitSingle(accept, ',');
    hide Split, EntryGrant;
    assert Split(accept, ',')[0] == accept;
  }

  /** A header of one accepted entry allows exactly what the entry contributes. */
  lemma SingleGrant(accept: string, g: Grant)
    requires ',' !in accept && EntryGrant(accept) == Some(g)
    ensures AcceptOf(accept) == NOTHING.With(g)
  {
    forall k: Grant ensures Granted(accept, k) <==> k == g {
      SingleEntry(accept, k);
    }
    hide Granted, EntryGrant;
  }

  lemma WebpGrant(header: string)
    requires header == "image/webp"
    ensures MediaGrant(header) == Some(GrantWebp)
    ensures header != [] && ';' !in header && ',' !in header
    ensures !IsSpace(header[0]) && !IsSpace(header[|header| - 1])
  {}

  lemma JsonBodies(header: string)
    requires AcceptOf(header) == NOTHING.With(GrantWebp)
    ensures CacheFormatSegment(Some(header), Some(Json)) == CacheFormatSegment(None, Some(Json))
    ensures BodyCodec(Some(header), Some(Json), Source(false, false), false) == Webp
    ensures BodyCodec(None, Some(Json), Source(false, false), false) == Jpeg
  {
    hide AcceptOf;
  }

  /** The segment of a `json` request does not decide its body: the header still does. */
  lemma JsonSegmentIsBlind(header: string)
    requires header == "image/webp"
    ensures CacheFormatSegment(Some(header), Some(Json)) == CacheFormatSegment(None, Some(Json))
    ensures BodyCodec(Some(header), Some(Json), Source(false, false), false) == Webp
    ensures BodyCodec(None, Some(Json), Source(false, false), false) == Jpeg
  {
    WebpGrant(header);
    PlainEntry(header);
    hide *;
    SingleGrant(header, GrantWebp);
    JsonBodies(header);
  }

  /** Requests for one format: its segment decides the codec for all headers and sources iff it is not `json`. */
  lemma SegmentSoundExactly(f: Option<OutputFormat>)
    ensures (forall h, i, source, fast :: CacheFormatSegment(h, f) == CacheFormatSegment(i, f) ==>
               BodyCodec(h, f, source, fast) == BodyCodec(i, f, source, fast))
            <==> f != Some(Json)
  {
    if f != Some(Json) {
      forall h, i, source, fast | CacheFormatSegment(h, f) == CacheFormatSegment(i, f)
        ensures BodyCodec(h, f, source, fast) == BodyCodec(i, f, source, fast)
      {
        SegmentDecidesCodec(h, f, i, f, source, fast);
      }
    } else {
      var header := "image/webp";
      JsonSegmentIsBlind(header);
      hide CacheFormatSegment, BodyCodec;
      assert BodyCodec(Some(header), f, Source(false, false), false) != BodyCodec(None, f, Source(false, false), false);
    }
  }

  /** Negotiation always ends in a concrete format, so no response is typed as an octet stream. */
  lemma FormatIsConcrete(h: Option<string>, f: Option<OutputFormat>, source: Source, fast: bool)
    ensures ResultFormat(h, f, source, fast) != Auto
    ensures ResultFormat(h, f, source, fast).ContentType() != Auto.ContentType()
  {
    hide Accepted;
    assert ResultFormat(h, f, source, fast) != Auto;
    hide ResultFormat;
    match ResultFormat(h, f, source, fast)
    case Jpeg => case Png => case Webp => case Avif => case Gif => case BaselineJpeg => case Json =>
    case Thumbhash =>
  }

  /** AVIF needs an entry that names it with a weight above zero; no wildcard grants it. */
  lemma AvifIsExplicit(header: string, alpha: bool)
    ensures NegotiateFormat(Some(header), alpha, None) == Avif <==> Granted(header, GrantAvif)
  {
    hide Granted;
  }

  // ---------------------------------------------------------------------------
  // The order of preference
  // ---------------------------------------------------------------------------

  /** Whether the header allows a format: by its name or, but for AVIF, by a wildcard. */
  predicate Allows(header: Option<string>, f: OutputFormat) {
    && header.Some?
    && (  (GrantOf(f).Some? && Granted(header.value, GrantOf(f).value))
       || (f != Avif && Granted(header.value, GrantAny)))
  }

  /** The candidates for a static image, best first. */
  function Candidates(hasAlpha: bool): seq<OutputFormat> {
    if hasAlpha then [Avif, Webp, Png, Jpeg] else [Avif, Webp, Jpeg, Png]
  }

  lemma SupportsIsAllows(header: Option<string>, f: OutputFormat)
    requires GrantOf(f).Some?
    ensures Accepted(header).Supports(f) <==> Allows(header, f)
  {
    hide Granted;
  }

  /**
    Without an explicit format a static image gets the first candidate that the header allows, and JPEG when it
    allows none: so an image with alpha gets JPEG only when the header allows none of AVIF, WebP and PNG.
   */
  lemma FirstCandidate(header: Option<string>, hasAlpha: bool, requested: Option<OutputFormat>)
    requires requested == None || requested == Some(Auto)
    ensures var f, candidates := NegotiateFormat(header, hasAlpha, requested), Candidates(hasAlpha);
      && f in candidates
      && (forall g :: g in candidates && Allows(header, g) ==> Allows(header, f))
      && (forall i, j :: 0 <= i < j < |candidates| && candidates[j] == f && Allows(header, f) ==>
            !Allows(header, candidates[i]))
      && (!Allows(header, f) ==> f == Jpeg)
    ensures hasAlpha && NegotiateFormat(header, hasAlpha, requested) == Jpeg ==>
      !Allows(header, Avif) && !Allows(header, Webp) && !Allows(header, Png)
  {
    hide Granted, AcceptResult.Supports, Allows, Accepted;
    SupportsIsAllows(header, Avif);
    SupportsIsAllows(header, Webp);
    SupportsIsAllows(header, Png);
    SupportsIsAllows(header, Jpeg);
  }

  /** An animated image likewise, among WebP and GIF, and stays static when the header allows neither. */
  lemma FirstAnimatedCandidate(header: Option<string>, requested: Option<OutputFormat>)
    requires requested == None || requested == Some(Auto)
    ensures match NegotiateAnimatedFormat(header, requested)
      case Some(f) => Allows(header, f) && (f == Webp || (f == Gif && !Allows(header, Webp)))
      case None => !Allows(header, Webp) && !Allows(header, Gif)
  {
    hide Granted, AcceptResult.Supports, Allows, Accepted;
    SupportsIsAllows(header, Webp);
    SupportsIsAllows(header, Gif);
  }

  /** An explicit format is the format; it animates exactly for WebP and GIF. */
  lemma ExplicitFormat(header: Option<string>, hasAlpha: bool, f: OutputFormat)
    requires f != Auto
    ensures NegotiateFormat(header, hasAlpha, Some(f)) == f
    ensures NegotiateAnimatedFormat(header, Some(f)) == if f == Webp || f == Gif then Some(f) else None
  {}

  /** `compression=fast` replaces AVIF and WebP by JPEG on static images, and changes nothing else. */
  lemma FastCodec(header: Option<string>, requested: Option<OutputFormat>, source: Source)
    ensures var slow, fast := BodyCodec(header, requested, source, false), BodyCodec(header, requested, source, true);
      var animated := source.animatable && requested != Some(Json) && NegotiateAnimatedFormat(header, requested).Some?;
      fast == if !animated && (slow == Avif || slow == Webp) then Jpeg else slow
  {
    hide NegotiateFormat, NegotiateAnimatedFormat;
  }

  /** A `json` result is typed as such, and reports the codec of the same still image without a format. */
  lemma JsonResult(header: Option<string>, source: Source, fast: bool)
    ensures ResultFormat(header, Some(Json), source, fast) == Json
    ensures BodyCodec(header, Some(Json), source, fast) == BodyCodec(header, None, source.(animatable := false), fast)
  {
    hide NegotiateFormat, NegotiateAnimatedFormat;
  }

  /** An animation keeps its animated format, whatever else is asked for. */
  lemma AnimatedResult(header: Option<string>, requested: Option<OutputFormat>, source: Source, fast: bool)
    requires source.animatable && requested != Some(Json) && NegotiateAnimatedFormat(header, requested).Some?
    ensures ResultFormat(header, requested, source, fast) == NegotiateAnimatedFormat(header, requested).value
  {
    hide NegotiateAnimatedFormat;
  }

  /** The media types that name a format, alone in a header. */
  lemma MediaTypes(header: string)
    ensures header == "image/avif" ==> AcceptOf(header) == NOTHING.(avif := true)
    ensures header == "image/webp" ==> AcceptOf(header) == NOTHING.(webp := true)
    ensures header == "image/jpeg" || header == "image/jpg" ==> AcceptOf(header) == NOTHING.(jpeg := true)
    ensures header == "image/png" ==> AcceptOf(header) == NOTHING.(png := true)
    ensures header == "image/gif" ==> AcceptOf(header) == NOTHING.(gif := true)
    ensures header == "image/*" || header == "*/*" ==> AcceptOf(header) == NOTHING.(wildcard := true)
  {
    hide MediaGrant, EntryGrant, AcceptOf;
    MediaNames(header);
    if MediaGrant(header).Some? {
      SoleType(header, MediaGrant(header).value);
    }
  }

  lemma SoleType(header: string, g: Grant)
    requires MediaGrant(header) == Some(g)
    ensures AcceptOf(header) == NOTHING.With(g)
  {
    hide MediaGrant, EntryGrant, AcceptOf;
    MediaNames(header);
    PlainEntry(header);
    SingleGrant(header, g);
  }

  /** The type of a response is the one by which an Accept header names its format. */
  lemma TypeNamesFormat(f: OutputFormat)
    ensures GrantOf(f).Some? ==> MediaGrant(f.ContentType()) == GrantOf(f)
    ensures Json.ContentType() == "application/json" && Thumbhash.ContentType() == "text/plain; charset=utf-8"
  {}

  lemma MediaNames(header: string)
    ensures header == "image/avif" ==> MediaGrant(header) == Some(GrantAvif)
    ensures header == "image/webp" ==> MediaGrant(header) == Some(GrantWebp)
    ensures header == "image/jpeg" || header == "image/jpg" ==> MediaGrant(header) == Some(GrantJpeg)
    ensures header == "image/png" ==> MediaGrant(header) == Some(GrantPng)
    ensures header == "image/gif" ==> MediaGrant(header) == Some(GrantGif)
    ensures header == "image/*" || header == "*/*" ==> MediaGrant(header) == Some(GrantAny)
    ensures MediaGrant(header).Some? ==>
      header != [] && ';' !in header && ',' !in header && !IsSpace(header[0]) && !IsSpace(header[|header| - 1])
  {}

  /** A weight switches its type off exactly when it reads as zero; a malformed one does not. */
  lemma WeightedType(media: string, weight: string)
    requires MediaGrant(media).Some? && weight != [] && ';' !in weight && !IsSpace(weight[|weight| - 1])
    ensures EntryGrant(media + [';'] + "q=" + weight)
         == if ParseFinite(weight).Some? && ParseFinite(weight).value.magnitude == 0.0 then None else MediaGrant(media)
  {
    hide MediaGrant, Split, ParseFinite, Trim;
    MediaNames(media);
    var parameter := "q=" + weight;
    var entry := media + [';'] + parameter;
    assert media + [';'] + "q=" + weight == entry;
    TrimKeeps(media);
    TrimKeeps(parameter);
    TrimKeeps(entry);
    SplitHead(media, parameter, ';');
    SplitSingle(parameter, ';');
    assert Split(entry, ';')[1..] == [parameter];
    assert parameter[2..] == weight;
    assert Disabled([parameter]) == IsZeroWeight(weight);
  }

  lemma TrimKeeps(s: string)
    requires s != [] && !IsSpace(s[0]) && !IsSpace(s[|s| - 1])
    ensures Trim(s) == s
  {}

  // ---------------------------------------------------------------------------
  // Formats that the header refuses
  // ---------------------------------------------------------------------------

  /** The type that one entry names with a weight of zero. */
  function EntryRefusal(raw: string): Option<Grant> {
    var entry := Trim(raw);
    if entry == [] then None
    else
      var parts := Split(entry, ';');
      if Disabled(parts[1..]) then MediaGrant(Trim(parts[0])) else None
  }

  /** Whether the header names `g` with a weight of zero, and nowhere with another one. */
  predicate Refused(accept: string, g: Grant) {
    && !Granted(accept, g)
    && exists i :: 0 <= i < |Split(accept, ',')| && EntryRefusal(Split(accept, ',')[i]) == Some(g)
  }

  function GrantOf(f: OutputFormat): Option<Grant> {
    match f
    case Avif => Some(GrantAvif)
    case Webp => Some(GrantWebp)
    case Jpeg | BaselineJpeg => Some(GrantJpeg)
    case Png => Some(GrantPng)
    case Gif => Some(GrantGif)
    case _ => None
  }

  predicate RefusesFormat(accept: string, f: OutputFormat) {
    GrantOf(f).Some? && Refused(accept, GrantOf(f).value)
  }

  lemma AcceptedBy(header: string)
    ensures var accept := AcceptOf(header);
      forall g: Grant :: accept.Has(g) == Granted(header, g)
  {
    hide Granted;
  }

  lemma RefusedIsNotGranted(header: string)
    ensures forall g :: Refused(header, g) ==> !Granted(header, g)
  {
    hide Granted, EntryRefusal, Split;
  }

  /**
    When the negotiated format is one that the header names with a weight of zero. In section 12.5.1 of RFC 9110
    the more specific range decides; here a wildcard counts for WebP all the same, and JPEG is the last resort.
   */
  lemma RefusedFormatChosen(header: string, alpha: bool)
    ensures RefusesFormat(header, NegotiateFormat(Some(header), alpha, None)) <==>
      && !Granted(header, GrantAvif)
      && if Granted(header, GrantAny) then Refused(header, GrantWebp)
         else !Granted(header, GrantWebp) && !Granted(header, GrantPng) && Refused(header, GrantJpeg)
  {
    hide Granted, Refused, AcceptOf;
    AvifIsExplicit(header, alpha);
    AcceptedBy(header);
    RefusedIsNotGranted(header);
  }

  /** For an animated image only the wildcard can bring a refused format back. */
  lemma RefusedAnimationChosen(header: string)
    ensures var animated := NegotiateAnimatedFormat(Some(header), None);
      (animated.Some? && RefusesFormat(header, animated.value)) <==>
        Granted(header, GrantAny) && Refused(header, GrantWebp)
  {
    hide Granted, Refused, AcceptOf;
    AcceptedBy(header);
    RefusedIsNotGranted(header);
  }

  lemma ZeroWeight()
    ensures IsZeroWeight("0")
  {
    NarrowWhole(0);
    hide NarrowAt;
    assert ParseMantissa("0") == Some((0, 0));
    assert ParseMagnitude("0") == Some(0.0);
  }

  lemma WebpRefusal(entry: string)
    requires entry == "image/webp;q=0"
    ensures EntryRefusal(entry) == Some(GrantWebp) && EntryGrant(entry) == None && ',' !in entry
  {
    hide IsZeroWeight, MediaGrant, Split;
    var media, weight := "image/webp", "q=0";
    assert Trim(weight) == weight && Trim(media) == media && Trim(entry) == entry;
    hide Trim;
    ZeroWeight();
    WebpGrant(media);
    assert entry == media + [';'] + weight;
    SplitHead(media, weight, ';');
    SplitSingle(weight, ';');
    assert weight[2..] == "0";
    assert Split(entry, ';')[1..] == [weight];
    assert Disabled([weight]);
  }

  lemma AnyGrant(entry: string)
    requires entry == "*/*"
    ensures EntryGrant(entry) == Some(GrantAny) && ',' !in entry
  {
    PlainEntry(entry);
    hide EntryGrant;
  }

  lemma RefusedThenAny(header: string)
    requires header == "image/webp;q=0,*/*"
    ensures Split(header, ',') == ["image/webp;q=0", "*/*"]
    ensures EntryRefusal("image/webp;q=0") == Some(GrantWebp)
    ensures EntryGrant("image/webp;q=0") == None && EntryGrant("*/*") == Some(GrantAny)
  {
    hide *;
    var webp, any := "image/webp;q=0", "*/*";
    WebpRefusal(webp);
    AnyGrant(any);
    SplitHead(webp, any, ',');
    SplitSingle(any, ',');
    assert header == webp + [','] + any;
  }

  lemma WildcardGivesWebp(header: string, alpha: bool)
    requires Granted(header, GrantAny) && !Granted(header, GrantAvif)
    ensures NegotiateFormat(Some(header), alpha, None) == Webp
    ensures NegotiateAnimatedFormat(Some(header), None) == Some(Webp)
  {
    hide Granted, AcceptOf;
    AcceptedBy(header);
    assert AcceptOf(header).Has(GrantAny) && !AcceptOf(header).Has(GrantAvif);
  }

  /** A header that names WebP with a weight of zero and then allows everything gets WebP. */
  lemma RefusedWebpChosen(header: string, alpha: bool)
    requires header == "image/webp;q=0,*/*"
    ensures Refused(header, GrantWebp) && NegotiateFormat(Some(header), alpha, None) == Webp
    ensures NegotiateAnimatedFormat(Some(header), None) == Some(Webp)
  {
    RefusedThenAny(header);
    hide EntryGrant, EntryRefusal, Split, NegotiateFormat, NegotiateAnimatedFormat;
    var entries := Split(header, ',');
    assert EntryRefusal(entries[0]) == Some(GrantWebp);
    assert EntryGrant(entries[1]) == Some(GrantAny);
    assert forall g :: Granted(header, g) <==> g == GrantAny;
    hide Granted;
    WildcardGivesWebp(header, alpha);
  }
}
