/** What the fields of a hash say about the planes of its image. */
module HashValues {
  import opened Text
  import opened Planes
  import opened Cosines
  import opened CosineBounds
  import opened HashBytes
  import opened ThumbHash
  import opened ThumbHashFacts

  /** A field that counts steps up to the largest magnitude of the terms of a grid, the mean left out. */
  ghost predicate NamesLargest(field: nat, steps: nat, g: Grid, cos: Cosine, nx: nat, ny: nat)
    requires g.Valid() && nx > 0 && ny > 0 && steps > 0
  {
    var terms := Terms(nx, ny)[1..];
    && (forall i :: 0 <= i < |terms| ==>
          Abs(TermAt(g, cos, terms[i].0, terms[i].1)) < (field as real + 0.5) / steps as real)
    && (field > 0 ==>
          exists i :: 0 <= i < |terms| &&
            Abs(TermAt(g, cos, terms[i].0, terms[i].1)) >= (field as real - 0.5) / steps as real)
  }

  lemma StepBounds(field: nat, steps: nat, scale: real)
    requires steps > 0 && field as real - 0.5 <= steps as real * scale < field as real + 0.5
    ensures (field as real - 0.5) / steps as real <= scale < (field as real + 0.5) / steps as real
  {
    var n := steps as real;
    var low, high := (field as real - 0.5) / n, (field as real + 0.5) / n;
    assert low * n == field as real - 0.5 && high * n == field as real + 0.5;
    Larger(scale, low, n);
    Larger(high, scale, n);
    Larger(scale, high, n);
  }

  lemma Larger(x: real, y: real, n: real)
    requires n > 0.0
    ensures x < y <==> x * n < y * n
  {}

  lemma ScaleNames(field: nat, steps: nat, g: Grid, cos: Cosine, nx: nat, ny: nat)
    requires g.Valid() && CosineLike(cos) && Within(g.samples, -1.0, 1.0) && nx > 0 && ny > 0 && 0 < steps <= 63
    requires field == RoundToU32(steps as real * ChannelOf(g, cos, nx, ny).scale)
    ensures NamesLargest(field, steps, g, cos, nx, ny)
  {
    hide TermAt, Scale, Normalised, RoundToU32, TermsBelow;
    TermsStart(nx, ny, ny);
    ChannelFits(g, cos, nx, ny);
    var terms := Terms(nx, ny)[1..];
    var raw := Values(g, cos, terms);
    var scale := Scale(raw);
    assert ChannelOf(g, cos, nx, ny).scale == scale;
    InRange(steps, scale);
    StepBounds(field, steps, scale);
    ScaleIsLeastBound(raw);
    forall i | 0 <= i < |terms|
      ensures Abs(TermAt(g, cos, terms[i].0, terms[i].1)) < (field as real + 0.5) / steps as real
    {
      assert raw[i] == TermAt(g, cos, terms[i].0, terms[i].1);
    }
    if field > 0 {
      PositiveStep(field, steps);
      var i :| 0 <= i < |raw| && Abs(raw[i]) == scale;
      assert raw[i] == TermAt(g, cos, terms[i].0, terms[i].1);
    }
  }

  lemma InRange(steps: nat, scale: real)
    requires 0 < steps <= 63 && 0.0 <= scale <= 1.0
    ensures 0.0 <= steps as real * scale <= U32_MAX as real
  {
    assert steps as real * scale <= steps as real * 1.0;
  }

  lemma PositiveStep(field: nat, steps: nat)
    requires field > 0 && steps > 0
    ensures (field as real - 0.5) / steps as real > 0.0
  {}

  /** Each scale field of the header names the largest term of its own plane to within half a step. */
  lemma ScalesNameLargest(img: Image, cos: Cosine)
    requires img.Valid() && CosineLike(cos)
    ensures var planes, f := PlanesOf(img.pixels), FieldsOfImage(img, cos);
      var l, p, q := Grid(planes.l, img.w, img.h), Grid(planes.p, img.w, img.h), Grid(planes.q, img.w, img.h);
      var lx, ly := TermSide(img.Limit(), img.w, img.Longest()), TermSide(img.Limit(), img.h, img.Longest());
      && l.Valid() && p.Valid() && q.Valid()
      && NamesLargest(f.lScale, 31, l, cos, AtLeast(3, lx), AtLeast(3, ly))
      && NamesLargest(f.pScale, 63, p, cos, 3, 3) && NamesLargest(f.qScale, 63, q, cos, 3, 3)
    ensures var planes, f := PlanesOf(img.pixels), FieldsOfImage(img, cos);
      f.alpha.Some? ==>
        && Grid(planes.a, img.w, img.h).Valid()
        && NamesLargest(f.alpha.value.1, 15, Grid(planes.a, img.w, img.h), cos, 5, 5)
        && Near(f.alpha.value.0 as real / 15.0, Mean(planes.a), 1.0 / 30.0)
  {
    hide ChannelOf, PlanesOf, TermSide, HasAlpha, RoundToU32, NamesLargest, Mean;
    var planes := PlanesOf(img.pixels);
    var lx, ly := TermSide(img.Limit(), img.w, img.Longest()), TermSide(img.Limit(), img.h, img.Longest());
    PlanesFit(img);
    GridFits(img, planes.l);
    ChannelsFit(img, cos);
    var f := FieldsOfImage(img, cos);
    ScaleNames(f.lScale, 31, Grid(planes.l, img.w, img.h), cos, AtLeast(3, lx), AtLeast(3, ly));
    ScaleNames(f.pScale, 63, Grid(planes.p, img.w, img.h), cos, 3, 3);
    ScaleNames(f.qScale, 63, Grid(planes.q, img.w, img.h), cos, 3, 3);
    if f.alpha.Some? {
      ScaleNames(f.alpha.value.1, 15, Grid(planes.a, img.w, img.h), cos, 5, 5);
      InRange(15, Mean(planes.a));
    }
  }

  lemma PlanesFit(img: Image)
    requires img.Valid()
    ensures var planes := PlanesOf(img.pixels);
      && Within(planes.l, -1.0, 1.0) && Within(planes.p, -1.0, 1.0) && Within(planes.q, -1.0, 1.0)
      && Within(planes.a, -1.0, 1.0)
  {
    hide PlanesOf;
    forall i | 0 <= i < |img.pixels|
      ensures var planes := PlanesOf(img.pixels);
        && InUnit(planes.l[i]) && InUnit(planes.a[i])
        && -1.0 <= planes.p[i] <= 1.0 && -1.0 <= planes.q[i] <= 1.0
    {
      PlanesBounded(img.pixels, i);
    }
  }

  /** The luminance box of an image: its longer side has the most terms, across when it is the width. */
  lemma LuminanceBox(img: Image, cos: Cosine)
    requires img.Valid()
    ensures var l, limit := Grid(PlanesOf(img.pixels).l, img.w, img.h), if HasAlpha(img.pixels) then 5 else 7;
      && l.Valid()
      && (img.w >= img.h ==> exists ny :: 3 <= ny <= limit && ChannelsOf(img, cos).l == ChannelOf(l, cos, limit, ny))
      && (img.w <= img.h ==> exists nx :: 3 <= nx <= limit && ChannelsOf(img, cos).l == ChannelOf(l, cos, nx, limit))
  {
    hide ChannelOf, PlanesOf, TermSide, HasAlpha;
    var limit, lx := img.Limit(), TermSide(img.Limit(), img.w, img.Longest());
    var ly := TermSide(img.Limit(), img.h, img.Longest());
    GridFits(img, PlanesOf(img.pixels).l);
    SidesBounded(limit, img.w, img.Longest());
    SidesBounded(limit, img.h, img.Longest());
    var l := Grid(PlanesOf(img.pixels).l, img.w, img.h);
    assert ChannelsOf(img, cos).l == ChannelOf(l, cos, AtLeast(3, lx), AtLeast(3, ly));
    assert img.w >= img.h ==> AtLeast(3, lx) == limit;
    assert img.w <= img.h ==> AtLeast(3, ly) == limit;
    assert 3 <= AtLeast(3, lx) <= limit && 3 <= AtLeast(3, ly) <= limit;
  }

  /** What a reader makes of a four-bit term: a value around zero, as large as the scale at most. */
  function TermOf(nibble: nat, scale: real): real {
    2.0 * scale * (nibble as real / 15.0 - 0.5)
  }

  lemma StepApart(nibble: nat, value: real, scale: real)
    requires scale >= 0.0 && -1.0 / 30.0 <= nibble as real / 15.0 - value <= 1.0 / 30.0
    ensures -scale / 15.0 <= TermOf(nibble, scale) - 2.0 * scale * (value - 0.5) <= scale / 15.0
  {
    var gap, twice := nibble as real / 15.0 - value, 2.0 * scale;
    assert TermOf(nibble, scale) - twice * (value - 0.5) == twice * gap;
    BoundedBy(gap, 1.0 / 30.0, twice);
  }

  lemma BoundedBy(x: real, bound: real, y: real)
    requires -bound <= x <= bound && y >= 0.0
    ensures -(bound * y) <= y * x <= bound * y
  {}

  lemma NibbleNear(value: real)
    requires 0.0 <= value <= 1.0
    ensures -1.0 / 30.0 <= Nibble(value) as real / 15.0 - value <= 1.0 / 30.0
  {}

  /** Every written term names its own cosine term to within a fifteenth of the scale of its channel. */
  lemma TermsNameValues(g: Grid, cos: Cosine, nx: nat, ny: nat, i: nat)
    requires g.Valid() && nx > 0 && ny > 0 && i < |ChannelOf(g, cos, nx, ny).ac|
    ensures |Terms(nx, ny)| == |ChannelOf(g, cos, nx, ny).ac| + 1
    ensures var c, term := ChannelOf(g, cos, nx, ny), Terms(nx, ny)[i + 1];
      Near(TermOf(Nibbles(c.ac)[i], c.scale), TermAt(g, cos, term.0, term.1), c.scale / 15.0)
  {
    hide TermAt, Scale, Normalised, TermsBelow, Nibble, TermOf;
    TermsStart(nx, ny, ny);
    var raw := Values(g, cos, Terms(nx, ny)[1..]);
    ScaleIsLeastBound(raw);
    NormalisedFits(raw, i);
    NibbleNear(Normalised(raw)[i]);
    StepApart(Nibble(Normalised(raw)[i]), Normalised(raw)[i], Scale(raw));
    assert raw[i] == TermAt(g, cos, Terms(nx, ny)[i + 1].0, Terms(nx, ny)[i + 1].1);
  }
}
