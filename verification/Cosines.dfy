/** One encoded channel: which cosine terms it keeps, and their DC, AC and scale values. */
module Cosines {
  import opened Planes

  /** `cos(pi / size * coefficient * (position + 0.5))`, by size, coefficient and position. */
  type Cosine = (nat, nat, nat) -> real

  /** All that is used of the cosine: it stays in [-1, 1], and it is 1 at coefficient 0. */
  ghost predicate CosineLike(cos: Cosine) {
    forall size: nat, k: nat, at: nat :: -1.0 <= cos(size, k, at) <= 1.0 && cos(size, 0, at) == 1.0
  }

  datatype Grid = Grid(samples: seq<real>, w: nat, h: nat) {
    predicate Valid() {
      w > 0 && h > 0 && |samples| == w * h
    }
  }

  /** Where the sample of column `x` and row `y` is stored. */
  function Cell(g: Grid, x: nat, y: nat): (i: nat)
    requires g.Valid() && x < g.w && y < g.h
    ensures i < |g.samples|
  {
    assert (y + 1) * g.w <= g.h * g.w;
    x + y * g.w
  }

  function Weighted(sample: real, across: real, down: real): real {
    sample * across * down
  }

  /** The first `x` samples of row `y`, weighed. */
  function RowSum(g: Grid, cos: Cosine, cx: nat, cy: nat, y: nat, x: nat): real
    requires g.Valid() && x <= g.w && y < g.h
  {
    if x == 0 then 0.0
    else
      RowSum(g, cos, cx, cy, y, x - 1)
      + Weighted(g.samples[Cell(g, x - 1, y)], cos(g.w, cx, x - 1), cos(g.h, cy, y))
  }

  /** The first `y` rows, weighed. */
  function GridSum(g: Grid, cos: Cosine, cx: nat, cy: nat, y: nat): real
    requires g.Valid() && y <= g.h
  {
    if y == 0 then 0.0 else GridSum(g, cos, cx, cy, y - 1) + RowSum(g, cos, cx, cy, y - 1, g.w)
  }

  lemma Cells(g: Grid)
    requires g.Valid()
    ensures g.w * g.h > 0
  {}

  function TermAt(g: Grid, cos: Cosine, cx: nat, cy: nat): real
    requires g.Valid()
  {
    Cells(g);
    GridSum(g, cos, cx, cy, g.h) / (g.w * g.h) as real
  }

  /** How many terms row `cy` of the triangle holds: the `cx` with `cx * ny < nx * (ny - cy)`. */
  function RowLength(nx: nat, ny: nat, cy: nat): (n: nat)
    requires cy < ny
    ensures forall cx: nat :: cx * ny < nx * (ny - cy) <==> cx < n
  {
    hide Ceiling;
    forall cx: nat
      ensures cx * ny < nx * (ny - cy) <==> cx < Ceiling(nx * (ny - cy), ny)
    {
      CeilingCounts(cx, ny, nx * (ny - cy));
    }
    Ceiling(nx * (ny - cy), ny)
  }

  /** `top / ny`, rounded up. */
  function Ceiling(top: nat, ny: nat): nat
    requires ny > 0
  {
    (top + ny - 1) / ny
  }

  lemma CeilingCounts(cx: nat, ny: nat, top: nat)
    requires ny > 0
    ensures cx * ny < top <==> cx < Ceiling(top, ny)
  {
    var n := Ceiling(top, ny);
    assert n * ny <= top + ny - 1 < n * ny + ny;
    if cx < n {
      assert (cx + 1) * ny <= n * ny;
    } else {
      assert cx * ny >= n * ny;
    }
  }

  function Row(cy: nat, n: nat): seq<(nat, nat)> {
    seq(n, cx => (cx, cy))
  }

  /** The terms of the rows below `cy`, in the order the loops visit them. */
  function TermsBelow(nx: nat, ny: nat, cy: nat): seq<(nat, nat)>
    requires cy <= ny
  {
    if cy == 0 then [] else TermsBelow(nx, ny, cy - 1) + Row(cy - 1, RowLength(nx, ny, cy - 1))
  }

  function Terms(nx: nat, ny: nat): seq<(nat, nat)> {
    TermsBelow(nx, ny, ny)
  }

  function Values(g: Grid, cos: Cosine, terms: seq<(nat, nat)>): (values: seq<real>)
    requires g.Valid()
    ensures |values| == |terms|
  {
    seq(|terms|, i requires 0 <= i < |terms| => TermAt(g, cos, terms[i].0, terms[i].1))
  }

  function Abs(x: real): real {
    if x < 0.0 then -x else x
  }

  function Max(x: real, y: real): real {
    if x < y then y else x
  }

  /** The largest magnitude, zero for no value. */
  function Scale(values: seq<real>): real {
    if values == [] then 0.0 else Max(Scale(values[..|values| - 1]), Abs(values[|values| - 1]))
  }

  /** A value moved from [-scale, scale] to [0, 1]. */
  function Squeeze(value: real, scale: real): real
    requires scale != 0.0
  {
    0.5 + 0.5 / scale * value
  }

  function Normalised(values: seq<real>): (ac: seq<real>)
    ensures |ac| == |values|
  {
    var scale := Scale(values);
    if scale != 0.0 then seq(|values|, i requires 0 <= i < |values| => Squeeze(values[i], scale)) else values
  }

  datatype Channel = Channel(dc: real, ac: seq<real>, scale: real)

  function ChannelOf(g: Grid, cos: Cosine, nx: nat, ny: nat): Channel
    requires g.Valid() && nx > 0 && ny > 0
  {
    var ac := Values(g, cos, Terms(nx, ny)[1..]);
    Channel(TermAt(g, cos, 0, 0), Normalised(ac), Scale(ac))
  }

  lemma {:induction false} TermsStart(nx: nat, ny: nat, cy: nat)
    requires nx > 0 && 0 < cy <= ny
    ensures TermsBelow(nx, ny, cy) != [] && TermsBelow(nx, ny, cy)[0] == (0, 0)
  {
    if cy == 1 {
      assert 0 * ny < nx * ny;
    } else {
      TermsStart(nx, ny, cy - 1);
    }
  }

  /** One pass over all samples: the inner loops of `encode_channel`. */
  method Transform(g: Grid, cos: Cosine, cx: nat, cy: nat) returns (f: real)
    requires g.Valid()
    ensures f == TermAt(g, cos, cx, cy)
  {
    hide Weighted, Cell;
    f := 0.0;
    var fx := new real[g.w];
    for x := 0 to g.w
      invariant forall i :: 0 <= i < x ==> fx[i] == cos(g.w, cx, i)
    {
      fx[x] := cos(g.w, cx, x);
    }
    for y := 0 to g.h
      invariant f == GridSum(g, cos, cx, cy, y)
      invariant forall i :: 0 <= i < g.w ==> fx[i] == cos(g.w, cx, i)
    {
      var fy := cos(g.h, cy, y);
      for x := 0 to g.w
        invariant f == GridSum(g, cos, cx, cy, y) + RowSum(g, cos, cx, cy, y, x)
      {
        f := f + Weighted(g.samples[Cell(g, x, y)], fx[x], fy);
      }
    }
    Cells(g);
    f := f / (g.w * g.h) as real;
  }

  /** The last loop of `encode_channel`. */
  method Normalise(values: seq<real>, scale: real) returns (ac: seq<real>)
    requires scale == Scale(values)
    ensures ac == Normalised(values)
  {
    hide Squeeze, Scale;
    ac := values;
    if scale != 0.0 {
      for i := 0 to |ac|
        invariant |ac| == |values|
        invariant forall j :: 0 <= j < |ac| ==> ac[j] == if j < i then Squeeze(values[j], scale) else values[j]
      {
        ac := ac[i := Squeeze(ac[i], scale)];
      }
    }
  }

  /** The loop variables of `encode_channel` after the terms `seen`. */
  ghost predicate Progress(g: Grid, cos: Cosine, seen: seq<(nat, nat)>, channel: Channel)
    requires g.Valid()
  {
    && (seen == [] ==> channel.ac == [])
    && (seen != [] ==> channel.dc == TermAt(g, cos, 0, 0) && channel.ac == Values(g, cos, seen[1..]))
    && channel.scale == Scale(channel.ac)
  }

  lemma ProgressStep(g: Grid, cos: Cosine, seen: seq<(nat, nat)>, cx: nat, cy: nat, was: Channel, now: Channel)
    requires g.Valid() && Progress(g, cos, seen, was)
    requires seen == [] <==> cx == 0 && cy == 0
    requires var f := TermAt(g, cos, cx, cy);
      now == if seen == [] then was.(dc := f) else Channel(was.dc, was.ac + [f], Max(was.scale, Abs(f)))
    ensures Progress(g, cos, seen + [(cx, cy)], now)
  {
    hide TermAt;
    if seen != [] {
      assert (seen + [(cx, cy)])[1..] == seen[1..] + [(cx, cy)];
      assert now.ac[..|was.ac|] == was.ac;
    }
  }

  lemma Started(g: Grid, cos: Cosine)
    requires g.Valid()
    ensures Progress(g, cos, [], Channel(0.0, [], 0.0))
  {}

  lemma Finished(g: Grid, cos: Cosine, nx: nat, ny: nat, channel: Channel)
    requires g.Valid() && nx > 0 && ny > 0 && Progress(g, cos, Terms(nx, ny), channel)
    ensures channel.scale == Scale(channel.ac)
    ensures ChannelOf(g, cos, nx, ny) == channel.(ac := Normalised(channel.ac))
  {
    hide TermAt, Normalised;
    TermsStart(nx, ny, ny);
  }

  /** `encode_channel`. */
  method EncodeChannel(g: Grid, cos: Cosine, nx: nat, ny: nat) returns (channel: Channel)
    requires g.Valid() && nx > 0 && ny > 0
    ensures channel == ChannelOf(g, cos, nx, ny)
  {
    hide TermAt, Progress, RowLength;
    var dc, scale := 0.0, 0.0;
    var ac: seq<real> := [];
    ghost var seen: seq<(nat, nat)> := [];
    assert Progress(g, cos, seen, Channel(dc, ac, scale)) by { Started(g, cos); }
    for cy := 0 to ny
      invariant seen == TermsBelow(nx, ny, cy) && (seen == [] <==> cy == 0)
      invariant Progress(g, cos, seen, Channel(dc, ac, scale))
    {
      ghost var n := RowLength(nx, ny, cy);
      ghost var before := seen;
      var cx := 0;
      while cx * ny < nx * (ny - cy)
        invariant cx <= n
        invariant seen == before + Row(cy, cx) && (seen == [] <==> cx == 0 && cy == 0)
        invariant Progress(g, cos, seen, Channel(dc, ac, scale))
        decreases n - cx
      {
        ghost var was := Channel(dc, ac, scale);
        var f := Transform(g, cos, cx, cy);
        if cx > 0 || cy > 0 {
          ac := ac + [f];
          scale := Max(scale, Abs(f));
        } else {
          dc := f;
        }
        ProgressStep(g, cos, seen, cx, cy, was, Channel(dc, ac, scale));
        assert Row(cy, cx + 1) == Row(cy, cx) + [(cx, cy)];
        seen := seen + [(cx, cy)];
        cx := cx + 1;
      }
      TermsStart(nx, ny, cy + 1);
    }
    Finished(g, cos, nx, ny, Channel(dc, ac, scale));
    ac := Normalise(ac, scale);
    channel := Channel(dc, ac, scale);
  }
}
