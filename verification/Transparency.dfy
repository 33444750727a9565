/** From the request to the cached answer: which requests are safe to share, and which the key confuses. */
module Transparency {
  import opened Bits
  import opened Text
  import opened Singles
  import opened Numbers
  import opened Params
  import opened ParamsRoundTrip
  import opened Negotiate
  import opened Router
  import opened CacheKeys
  import opened ObjectKeys
  import opened Server

  /** Every float is at the precision that the key prints. */
  predicate AtPrecision(p: TransformParams) {
    Canonical(p) == p.(onerror := None, scq := None)
  }

  /** What a caller can check about one request so that no other one can be taken for it. */
  predicate Sound(r: Request) {
    && Producible(r.params) && AtPrecision(r.params)
    && UrlsFree(r.params.draw, '|') && UrlsFree(r.params.draw, '/')
    && r.params.format != Some(Json)
    && Normal(r.path)
  }

  predicate SameOptions(p: TransformParams, q: TransformParams) {
    p.(onerror := None, scq := None) == q.(onerror := None, scq := None)
  }

  ghost predicate SameCodecs(r: Request, q: Request) {
    forall source, fast :: BodyCodec(r.header, r.params.format, source, fast)
                        == BodyCodec(q.header, q.params.format, source, fast)
  }

  /**
    A transform reads of the request the image path, the options but `onerror` and `scq`, and of the Accept
    header only the codec that negotiation picks; and what it finds out about its source depends on no more.
   */
  ghost predicate Fair(c: Config) {
    forall r: Request, q: Request :: r.path == q.path && SameOptions(r.params, q.params) && SameCodecs(r, q) ==>
      c.data(r) == c.data(q) && c.source(r) == c.source(q)
  }

  /** The content type needs no such assumption: it is the negotiated one. */
  lemma FairRenders(c: Config, r: Request, q: Request)
    requires Fair(c) && r.path == q.path && SameOptions(r.params, q.params) && SameCodecs(r, q)
    ensures c.Render(r) == c.Render(q)
  {
    hide BodyCodec;
    var source, fast := c.source(r), r.params.compression == Some(Fast);
    assert BodyCodec(r.header, r.params.format, source, fast) == BodyCodec(q.header, q.params.format, source, fast);
  }

  predicate SameObjectKey(r: Request, q: Request) {
    Collapse(RequestKey(r)) == Collapse(RequestKey(q))
  }

  lemma ReachesOneObject(c: Config, r: Request, q: Request)
    requires Reaches(c, r, RequestKey(q))
    ensures SameObjectKey(r, q)
  {
    hide RequestKey, Collapse, Contains;
  }

  lemma KeyTextNormal(p: TransformParams)
    requires UrlsFree(p.draw, '|') && UrlsFree(p.draw, '/')
    ensures Normal(CacheKey(p))
  {
    KeyTextIsPlain(p, '|');
    KeyTextIsPlain(p, '/');
  }

  /** Sound requests with one object key agree on everything that a transform reads. */
  lemma SoundRequestsAgree(r: Request, q: Request)
    requires Sound(r) && Sound(q) && SameObjectKey(r, q)
    ensures r.path == q.path && SameOptions(r.params, q.params) && SameCodecs(r, q)
  {
    KeyTextNormal(r.params);
    KeyTextNormal(q.params);
    SegmentIsPlain(r.header, r.params.format);
    SegmentIsPlain(q.header, q.params.format);
    hide CacheKey, Canonical, CacheFormatSegment, Collapse, Producible, UrlsFree, ComputeCacheKey, Normal;
    ObjectKeyInjective(r.path, r.params, CacheFormatSegment(r.header, r.params.format),
                       q.path, q.params, CacheFormatSegment(q.header, q.params.format));
    forall source, fast
      ensures BodyCodec(r.header, r.params.format, source, fast) == BodyCodec(q.header, q.params.format, source, fast)
    {
      SegmentDecidesCodec(r.header, r.params.format, q.header, q.params.format, source, fast);
    }
  }

  lemma SoundKeysDecide(c: Config)
    requires Fair(c)
    ensures KeysDecide(c, r => Sound(r))
  {
    hide Sound, SameObjectKey, Reaches, Fresh, RequestKey;
    forall r, q | Sound(r) && Sound(q) && Reaches(c, r, RequestKey(q)) ensures Fresh(c, r) == Fresh(c, q) {
      ReachesOneObject(c, r, q);
      SoundRequestsAgree(r, q);
      FairRenders(c, r, q);
      SameRenditionIsFresh(c, r, q);
    }
  }

  lemma SameRenditionIsFresh(c: Config, r: Request, q: Request)
    requires c.Render(r) == c.Render(q)
    ensures Fresh(c, r) == Fresh(c, q)
  {}

  /**
    End to end: over every run of sound requests, under every interleaving of lookups, promotions, transforms,
    failures, pending store writes, evictions and deletes, each answer from the cache is the fresh one.
   */
  lemma CachedAnswersAreFresh(c: Config, steps: seq<Step>)
    requires Fair(c) && Admits(steps, r => Sound(r))
    ensures HitsFresh(c, Run(c, steps))
  {
    hide Sound, Run, KeysDecide, HitsFresh;
    SoundKeysDecide(c);
    HitsAreFresh(c, steps, r => Sound(r));
  }

  // ---------------------------------------------------------------------------
  // Where a request comes from
  // ---------------------------------------------------------------------------

  function OptionsText(req: ImageRequest): string {
    match req.transformString
    case Some(options) => options
    case None => []
  }

  /** The options of a routed request are in the domain of the key lemmas, and no overlay URL holds a slash. */
  lemma RoutedOptions(path: string, req: ImageRequest)
    requires Resolve(path) == Image(req) && Parsed(OptionsText(req)).Ok?
    ensures Producible(Parsed(OptionsText(req)).value) && UrlsFree(Parsed(OptionsText(req)).value.draw, '/')
  {
    ResolvesExactly(path, req);
    hide Parsed, Producible, UrlsFree, Resolve, SanitizePath;
    ParserProduces(OptionsText(req));
    ParsedUrlsFree(OptionsText(req), '/');
  }

  // ---------------------------------------------------------------------------
  // What the key blurs
  // ---------------------------------------------------------------------------

  /** `effective_width`: the width times the pixel ratio, cut to whole pixels and to the largest side. */
  function EffectiveSide(side: Option<U32>, dpr: Finite): Option<nat>
    requires !dpr.negative
  {
    match side
    case None => None
    case Some(n) =>
      assert IsSingle(dpr.magnitude);
      var scaled := Narrow(Narrow(n as real) * dpr.magnitude);
      Some(if scaled > 8192.0 then 8192 else scaled.Floor)
  }

  /** The floats nearest to 1.24 and to 1.2. */
  const RATIO: Finite := Float(false, Significand(10401874))
  const PRINTED_RATIO: Finite := Float(false, Significand(10066330))

  lemma RatiosRead()
    ensures ParseFinite("1.24") == Some(RATIO) && ParseFinite("1.2") == Some(PRINTED_RATIO)
  {
    RatioTexts();
    hide Narrow, IsSingle, FixedBody, ParseFinite;
    SignificandIs(1.24, 10401874);
    SignificandIs(1.2, 10066330);
    RatioRead("1.24", 124, 2, 1.24);
    RatioRead("1.2", 12, 1, 1.2);
  }

  lemma RatioTexts()
    ensures FixedBody(124, 2) == "1.24" && FixedBody(12, 1) == "1.2"
  {}

  lemma RatioRead(s: string, n: nat, places: nat, x: real)
    requires 1 <= places <= 2 && s == FixedBody(n, places) && x == UnitsValue(n, places) <= 2.0
    ensures ParseFinite(s) == Some(Float(false, Narrow(x)))
  {
    hide Narrow, IsSingle, FixedBody;
    MagnitudeOfFixed(n, places);
    NarrowInRange(x);
    assert SignBody(s) == s;
  }

  /** At a ratio of one the side is the one asked for, up to the largest. */
  lemma EffectiveAtOne(n: U32)
    requires n <= 16777216
    ensures EffectiveSide(Some(n), ONE) == Some(if n < 8192 then n else 8192)
    ensures EffectiveSide(None, ONE) == None
  {
    NarrowWhole(n);
    hide Narrow;
    assert n as real * 1.0 == n as real;
  }

  lemma CanonicalRatio(p: TransformParams, a: Finite, b: Finite)
    ensures Canonical(p.(dpr := a)) == Canonical(p.(dpr := b)) <==> Quantize(a, 1) == Quantize(b, 1)
  {
    hide Quantize, Quantized, CanonicalDraws;
  }

  /** Which pixel ratios the key cannot tell apart: those that round to the same tenth. */
  lemma RatiosConfused(p: TransformParams, a: Finite, b: Finite)
    requires Producible(p)
    ensures CacheKey(p.(dpr := a)) == CacheKey(p.(dpr := b)) <==> Quantize(a, 1) == Quantize(b, 1)
  {
    CanonicalRatio(p, a, b);
    hide Canonical, CacheKey, Quantize;
    KeysAgree(p.(dpr := a), p.(dpr := b));
  }

  lemma PrintedRatio()
    ensures Quantize(RATIO, 1) == Quantize(PRINTED_RATIO, 1)
  {
    hide Narrow, IsSingle;
    assert Units(RATIO, 1) == 12;
    assert Units(PRINTED_RATIO, 1) == 12;
  }

  /** Scaled widths are rounded once more: 496.0000038 gives 496, and 480.0000191 gives 480.00003. */
  lemma ScaledWidths()
    ensures Narrow(400.0 * RATIO.magnitude) == 496.0
    ensures Narrow(400.0 * PRINTED_RATIO.magnitude) == 15728641.0 / 32768.0
  {
    Powers();
    hide Pow2, NarrowAt, IsSingle;
    NarrowIs(400.0 * RATIO.magnitude, 0, 15, 16252928);
    NarrowIs(400.0 * PRINTED_RATIO.magnitude, 0, 15, 15728641);
  }

  /**
    The key is coarser than the options: `w=400,dpr=1.24` and `w=400,dpr=1.2` share their key, while the first
    asks for 496 pixels and the second one for 480.
   */
  lemma RatioIsBlurred(p: TransformParams, q: TransformParams)
    requires p == DEFAULTS.(width := Some(400), dpr := RATIO)
    requires q == DEFAULTS.(width := Some(400), dpr := PRINTED_RATIO)
    ensures CacheKey(p) == CacheKey(q)
    ensures EffectiveSide(p.width, p.dpr) == Some(496) && EffectiveSide(q.width, q.dpr) == Some(480)
  {
    hide CacheKey, Quantize, Narrow;
    PrintedRatio();
    NarrowWhole(400);
    ScaledWidths();
    RatiosConfused(DEFAULTS.(width := Some(400)), RATIO, PRINTED_RATIO);
  }

  /** So the answer to one of the two is the rendition of the other, whatever the two are, if it is kept at all. */
  lemma BlurredRatioIsServed(c: Config, r: Request, q: Request)
    requires c.permits > 0 && r.path == q.path && r.header == q.header
    requires r.params == DEFAULTS.(width := Some(400), dpr := RATIO)
    requires q.params == DEFAULTS.(width := Some(400), dpr := PRINTED_RATIO)
    requires Sanitized(RequestKey(r)).Some? || Entry(c, r, 0).Size() <= c.l1Max
    ensures var s := Run(c, Confusion(c, r, q));
      At(s, 1, Answered(Fresh(c, r))) && s.requests[1] == q
  {
    RatioIsBlurred(r.params, q.params);
    hide CacheKey, Sanitized, Run, Confusion, Fresh, Entry;
    assert RequestKey(r) == RequestKey(q);
    ConfusedRun(c, r, q);
  }
}
