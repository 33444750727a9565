/** The ThumbHash encoder: pixels to header fields, terms and bytes. */
module ThumbHash {
  import opened Text
  import opened Planes
  import opened Cosines
  import opened HashBytes

  const MAX_SIDE: nat := 100

  datatype ThumbhashError =
    | InvalidDimensions(width: nat, height: nat)
    | BufferLengthMismatch(expected: nat, actual: nat)
    | UnsupportedBands(bands: nat)

  /** An image whose pixels fill its sides. */
  datatype Image = Image(w: nat, h: nat, pixels: seq<Pixel>) {
    predicate Valid() {
      1 <= w <= MAX_SIDE && 1 <= h <= MAX_SIDE && |pixels| == w * h
    }

    predicate Landscape() {
      w > h
    }

    function Longest(): nat {
      if w < h then h else w
    }

    function Shortest(): nat {
      if w < h then w else h
    }

    /** The most luminance terms along a side. */
    function Limit(): nat {
      if HasAlpha(pixels) then 5 else 7
    }
  }

  /** `lx` and `ly`: the terms along a side, in proportion to the longest side. */
  function TermSide(limit: nat, side: nat, longest: nat): nat
    requires longest > 0
  {
    AtLeast(1, RoundToU32(ShareOf(limit as real, side as real, longest as real)))
  }

  function ShareOf(limit: real, side: real, longest: real): real
    requires longest != 0.0
  {
    limit * side / longest
  }

  function AtLeast(low: nat, n: nat): nat {
    if n < low then low else n
  }

  datatype Channels = Channels(l: Channel, p: Channel, q: Channel, a: Option<Channel>) {
    /** The channels in the order their terms are written. */
    function InOrder(): seq<Channel> {
      [l, p, q] + if a.Some? then [a.value] else []
    }
  }

  function ChannelsOf(img: Image, cos: Cosine): Channels
    requires img.Valid()
  {
    var planes := PlanesOf(img.pixels);
    var lx, ly := TermSide(img.Limit(), img.w, img.Longest()), TermSide(img.Limit(), img.h, img.Longest());
    Channels(ChannelOf(Grid(planes.l, img.w, img.h), cos, AtLeast(3, lx), AtLeast(3, ly)),
             ChannelOf(Grid(planes.p, img.w, img.h), cos, 3, 3),
             ChannelOf(Grid(planes.q, img.w, img.h), cos, 3, 3),
             if HasAlpha(img.pixels) then Some(ChannelOf(Grid(planes.a, img.w, img.h), cos, 5, 5)) else None)
  }

  function FieldsFrom(c: Channels, shorter: nat, landscape: bool): Fields {
    Fields(RoundToU32(63.0 * c.l.dc), RoundToU32(31.5 + 31.5 * c.p.dc), RoundToU32(31.5 + 31.5 * c.q.dc),
           RoundToU32(31.0 * c.l.scale), shorter, RoundToU32(63.0 * c.p.scale), RoundToU32(63.0 * c.q.scale), landscape,
           if c.a.Some? then Some((RoundToU32(15.0 * c.a.value.dc), RoundToU32(15.0 * c.a.value.scale))) else None)
  }

  function Nibble(f: real): nat {
    RoundToU32(15.0 * f)
  }

  function Nibbles(ac: seq<real>): (terms: seq<nat>)
    ensures |terms| == |ac|
  {
    seq(|ac|, i requires 0 <= i < |ac| => Nibble(ac[i]))
  }

  function AllNibbles(channels: seq<Channel>): seq<nat> {
    if channels == [] then []
    else AllNibbles(channels[..|channels| - 1]) + Nibbles(channels[|channels| - 1].ac)
  }

  function FieldsOfImage(img: Image, cos: Cosine): Fields
    requires img.Valid()
  {
    FieldsFrom(ChannelsOf(img, cos), TermSide(img.Limit(), if img.Landscape() then img.h else img.w, img.Longest()),
               img.Landscape())
  }

  function HashOf(img: Image, cos: Cosine): seq<U8>
    requires img.Valid()
  {
    HeaderBytes(FieldsOfImage(img, cos)) + Packed(AllNibbles(ChannelsOf(img, cos).InOrder()))
  }

  /** The last loop of `encode`: it grows the hash by a byte for every second term. */
  method AppendTerms(header: seq<U8>, channels: seq<Channel>) returns (hash: seq<U8>)
    ensures hash == header + Packed(AllNibbles(channels))
  {
    hide Nibble, WithNibble, Packed;
    NothingPacked();
    hash := header;
    var acStart := |hash|;
    var acIndex := 0;
    ghost var done: seq<nat> := [];
    for i := 0 to |channels|
      invariant done == AllNibbles(channels[..i])
      invariant acIndex == |done| && hash == header + Packed(done)
    {
      var ac := channels[i].ac;
      ghost var before := done;
      for j := 0 to |ac|
        invariant done == before + Nibbles(ac)[..j]
        invariant acIndex == |done| && hash == header + Packed(done)
      {
        var position := acStart + acIndex / 2;
        if position >= |hash| {
          hash := hash + [0];
        }
        PackedNext(header, done, Nibble(ac[j]));
        hash := hash[position := WithNibble(hash[position], Nibble(ac[j]), acIndex % 2 == 1)];
        acIndex := acIndex + 1;
        done := done + [Nibble(ac[j])];
      }
      assert channels[..i + 1][..i] == channels[..i];
      assert Nibbles(ac)[..|ac|] == Nibbles(ac);
    }
    assert channels[..|channels|] == channels;
  }

  lemma PackedNext(header: seq<U8>, done: seq<nat>, v: nat)
    ensures var k := |done| / 2;
      var grown := header + Packed(done) + if |done| % 2 == 0 then [0] else [];
      && (|done| % 2 == 0 <==> |header| + k >= |header + Packed(done)|) && |grown| == |header| + k + 1
      && grown[|header| + k := WithNibble(grown[|header| + k], v, |done| % 2 == 1)] == header + Packed(done + [v])
  {
    hide WithNibble;
    assert (done + [v])[..|done|] == done;
  }

  /** `encode`. */
  method Encode(width: nat, height: nat, rgba: seq<U8>, cos: Cosine) returns (r: Result<seq<U8>, ThumbhashError>)
    ensures !(1 <= width <= MAX_SIDE && 1 <= height <= MAX_SIDE) ==> r == Err(InvalidDimensions(width, height))
    ensures 1 <= width <= MAX_SIDE && 1 <= height <= MAX_SIDE && |rgba| != 4 * (width * height) ==>
      r == Err(BufferLengthMismatch(4 * (width * height), |rgba|))
    ensures 1 <= width <= MAX_SIDE && 1 <= height <= MAX_SIDE && |rgba| == 4 * (width * height) ==>
      r == Ok(HashOf(Image(width, height, Pixels(rgba)), cos))
  {
    hide ChannelOf, PlanesOf, Average, Packed, HeaderBytes, TermSide;
    if !(1 <= width <= MAX_SIDE) || !(1 <= height <= MAX_SIDE) {
      return Err(InvalidDimensions(width, height));
    }
    var pixelCount := width * height;
    if |rgba| != 4 * pixelCount {
      return Err(BufferLengthMismatch(4 * pixelCount, |rgba|));
    }
    ghost var img := Image(width, height, Pixels(rgba));
    var avg := Averages(rgba);
    var hasAlpha := avg.a < pixelCount as real;
    var limit := if hasAlpha then 5 else 7;
    var longest := if width < height then height else width;
    var lx, ly := TermSide(limit, width, longest), TermSide(limit, height, longest);
    var planes := SplitPlanes(rgba, avg);
    var l := EncodeChannel(Grid(planes.l, width, height), cos, AtLeast(3, lx), AtLeast(3, ly));
    var p := EncodeChannel(Grid(planes.p, width, height), cos, 3, 3);
    var q := EncodeChannel(Grid(planes.q, width, height), cos, 3, 3);
    var a: Option<Channel> := None;
    if hasAlpha {
      var alpha := EncodeChannel(Grid(planes.a, width, height), cos, 5, 5);
      a := Some(alpha);
    }
    var channels := Channels(l, p, q, a);
    var landscape := width > height;
    assert channels == ChannelsOf(img, cos);
    var fields := FieldsFrom(channels, if landscape then ly else lx, landscape);
    var hash := AppendTerms(HeaderBytes(fields), channels.InOrder());
    r := Ok(hash);
  }

  const U64_LIMIT: nat := 0x1_0000_0000_0000_0000

  /** One sample as a pixel: gray or colour, opaque unless the sample has an alpha band. */
  function Expanded(sample: seq<U8>): Pixel
    requires 1 <= |sample| <= 4
  {
    match |sample|
    case 1 => Pixel(sample[0], sample[0], sample[0], 255)
    case 2 => Pixel(sample[0], sample[0], sample[0], sample[1])
    case 3 => Pixel(sample[0], sample[1], sample[2], 255)
    case _ => Pixel(sample[0], sample[1], sample[2], sample[3])
  }

  lemma SampleInside(n: nat, bands: nat, i: nat)
    requires i < n
    ensures 0 <= i * bands <= i * bands + bands <= n * bands
  {
    assert (i + 1) * bands <= n * bands;
  }

  /** Every pixel is its own sample, expanded. */
  ghost predicate ExpandsTo(bytes: seq<U8>, bands: nat, rgba: seq<U8>, n: nat)
    requires 1 <= bands <= 4 && |bytes| >= n * bands
  {
    && |rgba| == 4 * n
    && forall i: nat :: i < n ==>
      (SampleInside(n, bands, i); Pixels(rgba)[i] == Expanded(bytes[i * bands..i * bands + bands]))
  }

  /** Which byte of its sample each component of a pixel is, by the number of bands. */
  lemma ExpandedBytes(bytes: seq<U8>, bands: nat, rgba: seq<U8>, n: nat, i: nat)
    requires 1 <= bands <= 4 && |bytes| >= n * bands && ExpandsTo(bytes, bands, rgba, n) && i < n
    ensures 0 <= i * bands <= i * bands + bands <= |bytes| && |rgba| == 4 * n
    ensures bands == 1 ==> rgba[4 * i..4 * i + 4] == [bytes[i], bytes[i], bytes[i], 255]
    ensures bands == 2 ==> rgba[4 * i..4 * i + 4] == [bytes[2 * i], bytes[2 * i], bytes[2 * i], bytes[2 * i + 1]]
    ensures bands == 3 ==> rgba[4 * i..4 * i + 4] == [bytes[3 * i], bytes[3 * i + 1], bytes[3 * i + 2], 255]
    ensures bands == 4 ==> rgba[4 * i..4 * i + 4] == bytes[4 * i..4 * i + 4]
  {
    SampleInside(n, bands, i);
    var px := Pixels(rgba)[i];
    assert px == Expanded(bytes[i * bands..i * bands + bands]);
    assert rgba[4 * i..4 * i + 4] == [px.r, px.g, px.b, px.a];
  }

  lemma NextSample(i: nat, bands: nat)
    ensures i * bands + bands == (i + 1) * bands
  {}

  lemma NothingExpanded(bytes: seq<U8>, bands: nat)
    requires 1 <= bands <= 4
    ensures ExpandsTo(bytes, bands, [], 0)
  {}

  /** Four bands already are pixels. */
  lemma FourBands(bytes: seq<U8>, n: nat)
    requires |bytes| == n * 4
    ensures ExpandsTo(bytes, 4, bytes, n)
  {
    forall i: nat | i < n
      ensures (SampleInside(n, 4, i); Pixels(bytes)[i] == Expanded(bytes[i * 4..i * 4 + 4]))
    {
      var sample := bytes[4 * i..4 * i + 4];
      assert sample[0] == bytes[4 * i] && sample[3] == bytes[4 * i + 3];
    }
  }

  lemma ExpandStep(bytes: seq<U8>, bands: nat, rgba: seq<U8>, i: nat)
    requires 1 <= bands <= 4 && |bytes| >= i * bands + bands && i * bands + bands == (i + 1) * bands
    requires ExpandsTo(bytes, bands, rgba, i)
    ensures var px := Expanded(bytes[i * bands..i * bands + bands]);
      ExpandsTo(bytes, bands, rgba + [px.r, px.g, px.b, px.a], i + 1)
  {
    hide Expanded;
    var px := Expanded(bytes[i * bands..i * bands + bands]);
    var now := rgba + [px.r, px.g, px.b, px.a];
    assert Pixels(now)[i] == px;
    assert Pixels(now)[..i] == Pixels(rgba);
    forall j: nat | j < i + 1
      ensures (SampleInside(i + 1, bands, j); Pixels(now)[j] == Expanded(bytes[j * bands..j * bands + bands]))
    {
      if j < i {
        SampleInside(i, bands, j);
        assert Pixels(now)[j] == Pixels(now)[..i][j];
      }
    }
  }

  /** `rgba_from_bands`. */
  method RgbaFromBands(bytes: seq<U8>, width: nat, height: nat, bands: nat) returns (r: Result<seq<U8>, ThumbhashError>)
    ensures !(1 <= bands <= 4) ==> r == Err(UnsupportedBands(bands))
    ensures 1 <= bands <= 4 && |bytes| < U64_LIMIT && |bytes| != width * height * bands ==>
      var expected := if width * height * bands < U64_LIMIT then width * height * bands else U64_LIMIT - 1;
      r == Err(BufferLengthMismatch(expected, |bytes|))
    ensures 1 <= bands <= 4 && |bytes| < U64_LIMIT && |bytes| == width * height * bands ==>
      r.Ok? && ExpandsTo(bytes, bands, r.value, width * height)
  {
    hide ExpandsTo, Expanded;
    if !(1 <= bands <= 4) {
      return Err(UnsupportedBands(bands));
    }
    var pixelCount := width * height;
    var length := pixelCount * bands;
    if length >= U64_LIMIT {
      return Err(BufferLengthMismatch(U64_LIMIT - 1, |bytes|));
    }
    if length != |bytes| {
      return Err(BufferLengthMismatch(length, |bytes|));
    }
    if bands == 4 {
      FourBands(bytes, pixelCount);
      return Ok(bytes);
    }
    var rgba: seq<U8> := [];
    NothingExpanded(bytes, bands);
    for i := 0 to pixelCount
      invariant |bytes| >= i * bands && ExpandsTo(bytes, bands, rgba, i)
    {
      SampleInside(pixelCount, bands, i);
      NextSample(i, bands);
      ExpandStep(bytes, bands, rgba, i);
      var px := Expanded(bytes[i * bands..i * bands + bands]);
      rgba := rgba + [px.r, px.g, px.b, px.a];
    }
    r := Ok(rgba);
  }
}
