/** What every hash satisfies: its values fit their fields, it reads back, and its length is bounded. */
module ThumbHashFacts {
  import opened Text
  import opened Planes
  import opened Cosines
  import opened CosineBounds
  import opened TermCounts
  import opened HashBytes
  import opened ThumbHash
  import Base64

  lemma GridFits(img: Image, values: seq<real>)
    requires img.Valid() && |values| == |img.pixels|
    ensures values != [] && Grid(values, img.w, img.h).Valid()
  {
    Cells(Grid(values, img.w, img.h));
  }

  /** The DC values are the means of the planes, and every DC, scale and AC value keeps its range. */
  lemma ChannelsFit(img: Image, cos: Cosine)
    requires img.Valid() && CosineLike(cos)
    ensures var c := ChannelsOf(img, cos);
      && InUnit(c.l.dc) && -1.0 <= c.p.dc <= 1.0 && -1.0 <= c.q.dc <= 1.0
      && InUnit(c.l.scale) && InUnit(c.p.scale) && InUnit(c.q.scale)
      && Within(c.l.ac, 0.0, 1.0) && Within(c.p.ac, 0.0, 1.0) && Within(c.q.ac, 0.0, 1.0)
      && (c.a.Some? ==> InUnit(c.a.value.dc) && InUnit(c.a.value.scale) && Within(c.a.value.ac, 0.0, 1.0))
    ensures var c, planes := ChannelsOf(img, cos), PlanesOf(img.pixels);
      && img.pixels != [] && c.l.dc == Mean(planes.l) && c.p.dc == Mean(planes.p) && c.q.dc == Mean(planes.q)
      && (c.a.Some? ==> c.a.value.dc == Mean(planes.a))
  {
    hide ChannelOf, PlanesOf, Mean, TermSide, HasAlpha;
    var planes := PlanesOf(img.pixels);
    var lx, ly := TermSide(img.Limit(), img.w, img.Longest()), TermSide(img.Limit(), img.h, img.Longest());
    forall i | 0 <= i < |img.pixels|
      ensures InUnit(planes.l[i]) && InUnit(planes.a[i])
      ensures -1.0 <= planes.p[i] <= 1.0 && -1.0 <= planes.q[i] <= 1.0
    {
      PlanesBounded(img.pixels, i);
    }
    GridFits(img, planes.l);
    ChannelFits(Grid(planes.l, img.w, img.h), cos, AtLeast(3, lx), AtLeast(3, ly));
    ChannelFits(Grid(planes.p, img.w, img.h), cos, 3, 3);
    ChannelFits(Grid(planes.q, img.w, img.h), cos, 3, 3);
    ChannelFits(Grid(planes.a, img.w, img.h), cos, 5, 5);
    MeanBetween(planes.l, 0.0, 1.0);
    MeanBetween(planes.p, -1.0, 1.0);
    MeanBetween(planes.q, -1.0, 1.0);
    MeanBetween(planes.a, 0.0, 1.0);
  }

  /** The longest side keeps all the terms allowed, and no side keeps more or none. */
  lemma SidesBounded(limit: nat, side: nat, longest: nat)
    requires 0 < side <= longest && 1 <= limit <= 7
    ensures 1 <= TermSide(limit, side, longest) <= limit
    ensures side == longest ==> TermSide(limit, side, longest) == limit
  {
    hide RoundToU32, ShareOf;
    var share := ShareOf(limit as real, side as real, longest as real);
    Shares(limit as real, side as real, longest as real);
    RoundFits(share, limit);
    RoundExact(limit, share);
  }

  /** The terms along a side are in proportion to it, rounded to the nearest count and halves up, and at least one. */
  lemma SideProportional(limit: nat, side: nat, longest: nat)
    requires 0 < side <= longest && 1 <= limit <= 7
    ensures var n := TermSide(limit, side, longest);
      && 2 * (limit * side) < (2 * n + 1) * longest
      && (n > 1 ==> (2 * n - 1) * longest <= 2 * (limit * side))
  {
    hide ShareOf, RoundToU32;
    var share := ShareOf(limit as real, side as real, longest as real);
    Shares(limit as real, side as real, longest as real);
    ShareTimes(limit, side, longest);
    var n := RoundToU32(share);
    RoundedQuotient(share, limit * side, longest, n);
    if n == 0 { Doubled(n, longest); }
  }

  lemma Doubled(n: nat, den: nat)
    ensures (2 * n + 1) * den <= (2 * n + 3) * den
  {}

  function Times(x: real, den: nat): real {
    x * den as real
  }

  /** A quotient rounded to `n`, in whole numbers. */
  lemma RoundedQuotient(x: real, num: nat, den: nat, n: nat)
    requires den > 0 && Times(x, den) == num as real && n as real - 0.5 <= x < n as real + 0.5
    ensures 2 * num < (2 * n + 1) * den && (2 * n - 1) * den <= 2 * num
  {
    var low, high := n as real - 0.5, n as real + 0.5;
    Scaled(x, high, den);
    Scaled(low, x, den);
    TwiceOf(high, 2 * n + 1, den);
    TwiceOf(low, 2 * n - 1, den);
    hide Times;
    var above, below := (2 * n + 1) * den, (2 * n - 1) * den;
    assert 2.0 * Times(x, den) < 2.0 * Times(high, den) && above as real == 2.0 * Times(high, den);
    assert 2.0 * Times(low, den) <= 2.0 * Times(x, den) && below as real == 2.0 * Times(low, den);
    assert (2 * num) as real == 2.0 * Times(x, den);
  }

  lemma TwiceOf(x: real, k: int, den: nat)
    requires 2.0 * x == k as real
    ensures 2.0 * Times(x, den) == (k * den) as real
  {
    assert (k * den) as real == k as real * den as real;
  }

  lemma Scaled(x: real, y: real, den: nat)
    requires den > 0
    ensures x < y ==> Times(x, den) < Times(y, den)
    ensures x <= y ==> Times(x, den) <= Times(y, den)
  {}

  lemma ShareTimes(limit: nat, side: nat, longest: nat)
    requires longest > 0
    ensures Times(ShareOf(limit as real, side as real, longest as real), longest) == (limit * side) as real
  {}

  lemma RoundExact(n: nat, x: real)
    requires n <= U32_MAX
    ensures x == n as real ==> RoundToU32(x) == n
  {}

  lemma Shares(limit: real, side: real, longest: real)
    requires 0.0 < side <= longest && limit >= 0.0
    ensures 0.0 <= ShareOf(limit, side, longest) <= limit
    ensures side == longest ==> ShareOf(limit, side, longest) == limit
  {
    assert limit * side <= limit * longest;
    DivideBetween(0.0, limit, limit * side, longest);
  }

  lemma NibblesFit(ac: seq<real>)
    requires Within(ac, 0.0, 1.0)
    ensures forall i :: 0 <= i < |ac| ==> Nibbles(ac)[i] < 16
  {
    forall i | 0 <= i < |ac|
      ensures Nibbles(ac)[i] < 16
    {
      RoundFits(15.0 * ac[i], 15);
    }
  }

  /** Every rounded value fits the bits of its field, for every image and every cosine. */
  lemma FieldsFit(img: Image, cos: Cosine)
    requires img.Valid() && CosineLike(cos)
    ensures FieldsOfImage(img, cos).Fit()
  {
    hide ChannelsOf, TermSide, RoundToU32;
    ChannelsFit(img, cos);
    var c := ChannelsOf(img, cos);
    RoundFits(63.0 * c.l.dc, 63);
    RoundFits(31.5 + 31.5 * c.p.dc, 63);
    RoundFits(31.5 + 31.5 * c.q.dc, 63);
    RoundFits(31.0 * c.l.scale, 31);
    RoundFits(63.0 * c.p.scale, 63);
    RoundFits(63.0 * c.q.scale, 63);
    if c.a.Some? {
      RoundFits(15.0 * c.a.value.dc, 15);
      RoundFits(15.0 * c.a.value.scale, 15);
    }
    SidesBounded(img.Limit(), if img.Landscape() then img.h else img.w, img.Longest());
  }

  /** A hash read back: its fields, and the terms of each channel. */
  datatype Reading = Reading(fields: Fields, l: seq<nat>, p: seq<nat>, q: seq<nat>, a: seq<nat>)

  /** The luminance box a reader rebuilds from the header alone. */
  function LumaBox(f: Fields): (nat, nat) {
    var limit := if f.alpha.Some? then 5 else 7;
    (AtLeast(3, if f.landscape then limit else f.shorter), AtLeast(3, if f.landscape then f.shorter else limit))
  }

  function TermCount(box: (nat, nat)): nat {
    AtLeast(1, |Terms(box.0, box.1)|) - 1
  }

  /** The reader that the header calls for: it cuts the nibble stream by the counts the fields imply. */
  function ReadHash(bytes: seq<U8>): Option<Reading> {
    if |bytes| <= 5 then None
    else
      var f := ReadFields(bytes);
      var terms := Unpacked(bytes[if f.alpha.Some? then 6 else 5..]);
      var nl, np, na := TermCount(LumaBox(f)), TermCount((3, 3)), if f.alpha.Some? then TermCount((5, 5)) else 0;
      if |terms| < nl + np + np + na then None
      else
        Some(Reading(f, terms[..nl], terms[nl..nl + np], terms[nl + np..nl + np + np],
                     terms[nl + np + np..nl + np + np + na]))
  }

  function ReadingOf(img: Image, cos: Cosine): Reading
    requires img.Valid()
  {
    var c := ChannelsOf(img, cos);
    Reading(FieldsOfImage(img, cos), Nibbles(c.l.ac), Nibbles(c.p.ac), Nibbles(c.q.ac),
            if c.a.Some? then Nibbles(c.a.value.ac) else [])
  }

  function Stream(r: Reading): seq<nat> {
    r.l + r.p + r.q + r.a
  }

  lemma StreamInOrder(c: Channels)
    ensures AllNibbles(c.InOrder())
         == Nibbles(c.l.ac) + Nibbles(c.p.ac) + Nibbles(c.q.ac) + if c.a.Some? then Nibbles(c.a.value.ac) else []
  {
    hide Nibbles;
    var three := [c.l, c.p, c.q];
    assert three[..2] == [c.l, c.p] && [c.l, c.p][..1] == [c.l] && [c.l][..0] == [];
    assert AllNibbles([c.l]) == Nibbles(c.l.ac);
    assert AllNibbles([c.l, c.p]) == Nibbles(c.l.ac) + Nibbles(c.p.ac);
    assert AllNibbles(three) == Nibbles(c.l.ac) + Nibbles(c.p.ac) + Nibbles(c.q.ac);
    if c.a.Some? {
      assert c.InOrder()[..3] == three;
      assert AllNibbles(c.InOrder()) == AllNibbles(three) + Nibbles(c.a.value.ac);
    } else {
      assert c.InOrder() == three;
    }
  }

  /** The box of the encoder is the box of the reader. */
  lemma BoxReadsBack(img: Image, cos: Cosine)
    requires img.Valid()
    ensures var lx, ly := TermSide(img.Limit(), img.w, img.Longest()), TermSide(img.Limit(), img.h, img.Longest());
      LumaBox(FieldsOfImage(img, cos)) == (AtLeast(3, lx), AtLeast(3, ly))
  {
    hide ChannelOf, PlanesOf, TermSide, RoundToU32;
    SidesBounded(img.Limit(), img.Longest(), img.Longest());
  }

  /** The terms of each channel are as many as the fields imply. */
  predicate Counted(r: Reading) {
    && |r.l| == TermCount(LumaBox(r.fields)) && |r.p| == |r.q| == TermCount((3, 3))
    && |r.a| == if r.fields.alpha.Some? then TermCount((5, 5)) else 0
  }

  lemma ReadingCounts(img: Image, cos: Cosine)
    requires img.Valid()
    ensures Counted(ReadingOf(img, cos))
  {
    hide PlanesOf, TermSide, RoundToU32, Values, Scale, Squeeze, TermAt, TermsBelow;
    BoxReadsBack(img, cos);
    var box := LumaBox(FieldsOfImage(img, cos));
    TermsStart(box.0, box.1, box.1);
    TermsStart(3, 3, 3);
    TermsStart(5, 5, 5);
  }

  lemma StreamFits(img: Image, cos: Cosine)
    requires img.Valid() && CosineLike(cos)
    ensures var terms := Stream(ReadingOf(img, cos)); forall i :: 0 <= i < |terms| ==> terms[i] < 16
  {
    hide ChannelsOf, Nibbles, FieldsOfImage;
    ChannelsFit(img, cos);
    var c := ChannelsOf(img, cos);
    NibblesFit(c.l.ac);
    NibblesFit(c.p.ac);
    NibblesFit(c.q.ac);
    if c.a.Some? { NibblesFit(c.a.value.ac); }
  }

  /** The luminance terms: few along a thin image, most for a square one. */
  lemma LumaCount(img: Image, cos: Cosine)
    requires img.Valid()
    ensures var f := FieldsOfImage(img, cos);
      var n := TermCount(LumaBox(f));
      if f.alpha.Some? then 10 <= n <= 14 else 14 <= n <= 27
    ensures var f := FieldsOfImage(img, cos);
      img.w == img.h ==> TermCount(LumaBox(f)) == if f.alpha.Some? then 14 else 27
    ensures var f := FieldsOfImage(img, cos);
      TermSide(img.Limit(), img.Shortest(), img.Longest()) <= 3 ==>
        TermCount(LumaBox(f)) == if f.alpha.Some? then 10 else 14
  {
    hide ChannelOf, PlanesOf, TermSide, Terms, RoundToU32;
    var limit, longest := img.Limit(), img.Longest();
    BoxReadsBack(img, cos);
    SidesBounded(limit, img.w, longest);
    SidesBounded(limit, img.h, longest);
    var other := AtLeast(3, TermSide(limit, img.Shortest(), longest));
    CountMonotone(limit, 3, limit, other);
    CountMonotone(limit, other, limit, limit);
    CountSymmetric(limit, other);
    Counts();
  }

  lemma CutUp(r: Reading, pad: seq<nat>)
    ensures var terms, nl, np, na := Stream(r) + pad, |r.l|, |r.p|, |r.a|;
      |r.q| == np ==>
        && terms[..nl] == r.l && terms[nl..nl + np] == r.p && terms[nl + np..nl + np + np] == r.q
        && terms[nl + np + np..nl + np + np + na] == r.a
  {}

  lemma ReadsBack(r: Reading)
    requires r.fields.Fit() && Counted(r)
    requires forall i :: 0 <= i < |Stream(r)| ==> Stream(r)[i] < 16
    ensures ReadHash(HeaderBytes(r.fields) + Packed(Stream(r))) == Some(r)
  {
    hide LumaBox, TermCount, Packed, Unpacked, HeaderBytes, ReadFields, Stream;
    var header, terms := HeaderBytes(r.fields), Stream(r);
    var bytes := header + Packed(terms);
    Boxes();
    StreamSize(r);
    FieldsReadBack(r.fields, Packed(terms));
    assert bytes[|header|..] == Packed(terms);
    NibblesReadBack(terms);
    CutUp(r, if |terms| % 2 == 1 then [0] else []);
  }

  lemma StreamSize(r: Reading)
    ensures |Stream(r)| == |r.l| + |r.p| + |r.q| + |r.a|
  {}

  /** A reader gets back every field and every term the encoder quantised, from the bytes alone. */
  lemma HashReadsBack(img: Image, cos: Cosine)
    requires img.Valid() && CosineLike(cos)
    ensures ReadHash(HashOf(img, cos)) == Some(ReadingOf(img, cos))
  {
    hide ChannelsOf, FieldsOfImage, LumaBox, TermCount, Packed, HeaderBytes, ReadHash, Nibbles, AllNibbles;
    FieldsFit(img, cos);
    ReadingCounts(img, cos);
    StreamInOrder(ChannelsOf(img, cos));
    StreamFits(img, cos);
    ReadsBack(ReadingOf(img, cos));
  }

  lemma AlphaAgrees(img: Image, cos: Cosine)
    requires img.Valid()
    ensures FieldsOfImage(img, cos).alpha.Some? <==> ChannelsOf(img, cos).a.Some?
    ensures FieldsOfImage(img, cos).alpha.Some? <==> HasAlpha(img.pixels)
  {
    hide ChannelOf, PlanesOf, TermSide, RoundToU32, HasAlpha;
  }

  lemma Boxes()
    ensures TermCount((3, 3)) == 5 && TermCount((5, 5)) == 14
  {
    hide Terms;
    Counts();
  }

  /**
   * The exact length, and its bounds: 17 to 24 bytes when opaque and 23 to 25 with alpha. Thin images
   * reach the lower bounds and square ones the upper.
   */
  lemma HashLength(img: Image, cos: Cosine)
    requires img.Valid()
    ensures var n, hash := TermCount(LumaBox(FieldsOfImage(img, cos))), HashOf(img, cos);
      |hash| == if HasAlpha(img.pixels) then 6 + (n + 25) / 2 else 5 + (n + 11) / 2
    ensures if HasAlpha(img.pixels) then 23 <= |HashOf(img, cos)| <= 25 else 17 <= |HashOf(img, cos)| <= 24
    ensures img.w == img.h ==> |HashOf(img, cos)| == if HasAlpha(img.pixels) then 25 else 24
    ensures TermSide(img.Limit(), img.Shortest(), img.Longest()) <= 3 ==>
      |HashOf(img, cos)| == if HasAlpha(img.pixels) then 23 else 17
  {
    hide ChannelsOf, FieldsOfImage, LumaBox, TermCount, TermSide, Packed, HeaderBytes, Nibbles, HasAlpha;
    var r := ReadingOf(img, cos);
    ReadingCounts(img, cos);
    LumaCount(img, cos);
    Boxes();
    AlphaAgrees(img, cos);
    StreamInOrder(ChannelsOf(img, cos));
    assert HashOf(img, cos) == HeaderBytes(r.fields) + Packed(Stream(r));
  }

  /** The base64 body of a hash is 24 to 36 characters, and decodes to the hash. */
  lemma BodyLength(img: Image, cos: Cosine)
    requires img.Valid()
    ensures var body := Base64.Encoded(HashOf(img, cos));
      24 <= |body| <= 36 && Base64.Decoded(body) == Some(HashOf(img, cos))
  {
    hide *;
    HashLength(img, cos);
    Base64.Shape(HashOf(img, cos));
    Base64.RoundTrip(HashOf(img, cos));
  }

  /** The text body of `format=thumbhash` for the raster that libvips writes out. */
  method ThumbhashBody(bytes: seq<U8>, width: nat, height: nat, bands: nat, cos: Cosine)
    returns (r: Result<string, ThumbhashError>)
    requires |bytes| < U64_LIMIT
    ensures r.Ok? <==>
      1 <= bands <= 4 && |bytes| == width * height * bands && 1 <= width <= MAX_SIDE && 1 <= height <= MAX_SIDE
    ensures r.Ok? ==> 24 <= |r.value| <= 36
    ensures r.Ok? ==> exists rgba: seq<U8> ::
      && ExpandsTo(bytes, bands, rgba, width * height) && |rgba| == 4 * (width * height)
      && Base64.Decoded(r.value) == Some(HashOf(Image(width, height, Pixels(rgba)), cos))
  {
    hide *;
    var rgba := RgbaFromBands(bytes, width, height, bands);
    if rgba.Err? {
      return Err(rgba.error);
    }
    ExpandedSize(bytes, bands, rgba.value, width * height);
    var hash := Encode(width, height, rgba.value, cos);
    if hash.Err? {
      return Err(hash.error);
    }
    ghost var img := Image(width, height, Pixels(rgba.value));
    ImageIsValid(img);
    BodyLength(img, cos);
    var body := Base64.ToBase64(hash.value);
    r := Ok(body);
  }

  lemma ExpandedSize(bytes: seq<U8>, bands: nat, rgba: seq<U8>, n: nat)
    requires 1 <= bands <= 4 && |bytes| >= n * bands && ExpandsTo(bytes, bands, rgba, n)
    ensures |rgba| == 4 * n && |Pixels(rgba)| == n
  {}

  lemma ImageIsValid(img: Image)
    requires 1 <= img.w <= MAX_SIDE && 1 <= img.h <= MAX_SIDE && |img.pixels| == img.w * img.h
    ensures img.Valid()
  {}

  /** The colour a header stands for, in luminance and the two colour differences. */
  datatype Colour = Colour(l: real, p: real, q: real)

  function HeaderColour(f: Fields): Colour {
    Colour(f.lDc as real / 63.0, (f.pDc as real - 31.5) / 31.5, (f.qDc as real - 31.5) / 31.5)
  }

  predicate Near(x: real, y: real, gap: real) {
    -gap <= x - y <= gap
  }

  /** The header names the image's alpha-weighted average colour to within half a step of each field. */
  lemma HeaderIsAverageColour(img: Image, cos: Cosine)
    requires img.Valid() && CosineLike(cos)
    ensures var avg, colour := Average(img.pixels), HeaderColour(FieldsOfImage(img, cos));
      && Near(colour.l, (avg.r + avg.g + avg.b) / 3.0, 1.0 / 126.0)
      && Near(colour.p, (avg.r + avg.g) / 2.0 - avg.b, 1.0 / 63.0)
      && Near(colour.q, avg.r - avg.g, 1.0 / 63.0)
  {
    hide ChannelsOf, TermSide, RoundToU32, Average, Mean, PlanesOf;
    ChannelsFit(img, cos);
    MeansAreAverageColour(img.pixels);
    var c := ChannelsOf(img, cos);
    var l, p, q := 63.0 * c.l.dc, 31.5 + 31.5 * c.p.dc, 31.5 + 31.5 * c.q.dc;
    assert RoundToU32(l) as real - 0.5 <= l < RoundToU32(l) as real + 0.5;
    assert RoundToU32(p) as real - 0.5 <= p < RoundToU32(p) as real + 0.5;
    assert RoundToU32(q) as real - 0.5 <= q < RoundToU32(q) as real + 0.5;
  }
}
