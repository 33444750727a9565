/** What the terms of a channel can be: the DC term is the mean, and no term exceeds one. */
module CosineBounds {
  import opened Planes
  import opened Cosines

  ghost predicate Within(values: seq<real>, low: real, high: real) {
    forall i :: 0 <= i < |values| ==> low <= values[i] <= high
  }

  lemma {:induction false} SumBetween(values: seq<real>, low: real, high: real)
    requires Within(values, low, high)
    ensures low * |values| as real <= Sum(values) <= high * |values| as real
  {
    if values != [] {
      var n := |values| - 1;
      SumBetween(values[..n], low, high);
      Distribute(low, n);
      Distribute(high, n);
    }
  }

  lemma Distribute(x: real, n: nat)
    ensures x * (n + 1) as real == x * n as real + x
  {}

  lemma DivideBetween(low: real, high: real, sum: real, n: real)
    requires n > 0.0 && low * n <= sum <= high * n
    ensures low <= sum / n <= high
  {}

  lemma MeanBetween(values: seq<real>, low: real, high: real)
    requires values != [] && Within(values, low, high)
    ensures low <= Mean(values) <= high
  {
    SumBetween(values, low, high);
    DivideBetween(low, high, Sum(values), |values| as real);
  }

  lemma {:induction false} SumSplits(a: seq<real>, b: seq<real>)
    ensures Sum(a + b) == Sum(a) + Sum(b)
  {
    if b == [] {
      assert a + b == a;
    } else {
      SumSplits(a, b[..|b| - 1]);
      assert (a + b)[..|a + b| - 1] == a + b[..|b| - 1];
    }
  }

  lemma RowStart(g: Grid, y: nat)
    requires g.Valid() && y <= g.h
    ensures 0 <= y * g.w <= |g.samples|
    ensures y < g.h ==> y * g.w + g.w == (y + 1) * g.w <= |g.samples|
  {
    assert y * g.w <= g.h * g.w;
    if y < g.h {
      assert (y + 1) * g.w <= g.h * g.w;
    }
  }

  /** With both coefficients zero a row adds up its plain samples. */
  lemma {:induction false} RowIsSum(g: Grid, cos: Cosine, y: nat, x: nat)
    requires g.Valid() && CosineLike(cos) && y < g.h && x <= g.w
    ensures var start := y * g.w;
      0 <= start && start + x <= |g.samples| && RowSum(g, cos, 0, 0, y, x) == Sum(g.samples[start..start + x])
  {
    RowStart(g, y);
    var start := y * g.w;
    if x > 0 {
      RowIsSum(g, cos, y, x - 1);
      var part := g.samples[start..start + x];
      assert part[..x - 1] == g.samples[start..start + (x - 1)];
      assert Weighted(g.samples[Cell(g, x - 1, y)], 1.0, 1.0) == part[x - 1];
    }
  }

  lemma NoSum(values: seq<real>)
    requires values == []
    ensures Sum(values) == 0.0
  {}

  lemma Joined(values: seq<real>, start: nat, n: nat)
    requires start + n <= |values|
    ensures Sum(values[..start]) + Sum(values[start..start + n]) == Sum(values[..start + n])
  {
    SumSplits(values[..start], values[start..start + n]);
    assert values[..start] + values[start..start + n] == values[..start + n];
  }

  lemma {:induction false} GridIsSum(g: Grid, cos: Cosine, y: nat)
    requires g.Valid() && CosineLike(cos) && y <= g.h
    ensures 0 <= y * g.w <= |g.samples| && GridSum(g, cos, 0, 0, y) == Sum(g.samples[..y * g.w])
  {
    hide RowSum, Sum;
    RowStart(g, y);
    if y == 0 {
      NoSum(g.samples[..0]);
    } else {
      RowStart(g, y - 1);
      GridIsSum(g, cos, y - 1);
      RowIsSum(g, cos, y - 1, g.w);
      var start := (y - 1) * g.w;
      assert y * g.w == start + g.w;
      Joined(g.samples, start, g.w);
    }
  }

  /** The DC term is the mean of the samples. */
  lemma DcIsMean(g: Grid, cos: Cosine)
    requires g.Valid() && CosineLike(cos)
    ensures g.samples != [] && TermAt(g, cos, 0, 0) == Mean(g.samples)
  {
    hide Sum, GridSum;
    Cells(g);
    GridIsSum(g, cos, g.h);
    assert g.h * g.w == |g.samples|;
    assert g.samples[..|g.samples|] == g.samples;
  }

  lemma Shrinks(x: real, y: real)
    requires 0.0 <= x && -1.0 <= y <= 1.0
    ensures -x <= x * y <= x
  {}

  lemma ProductSmall(x: real, y: real)
    requires -1.0 <= x <= 1.0 && -1.0 <= y <= 1.0
    ensures -1.0 <= x * y <= 1.0
  {
    if x >= 0.0 {
      Shrinks(x, y);
    } else {
      Shrinks(-x, y);
      assert -x * y == -(x * y);
    }
  }

  lemma WeightedSmall(sample: real, across: real, down: real)
    requires -1.0 <= sample <= 1.0 && -1.0 <= across <= 1.0 && -1.0 <= down <= 1.0
    ensures -1.0 <= Weighted(sample, across, down) <= 1.0
  {
    ProductSmall(sample, across);
    ProductSmall(sample * across, down);
  }

  lemma {:induction false} RowSmall(g: Grid, cos: Cosine, cx: nat, cy: nat, y: nat, x: nat)
    requires g.Valid() && CosineLike(cos) && Within(g.samples, -1.0, 1.0) && y < g.h && x <= g.w
    ensures -(x as real) <= RowSum(g, cos, cx, cy, y, x) <= x as real
  {
    hide Cell, Weighted;
    if x > 0 {
      RowSmall(g, cos, cx, cy, y, x - 1);
      WeightedSmall(g.samples[Cell(g, x - 1, y)], cos(g.w, cx, x - 1), cos(g.h, cy, y));
    }
  }

  lemma {:induction false} GridSmall(g: Grid, cos: Cosine, cx: nat, cy: nat, y: nat)
    requires g.Valid() && CosineLike(cos) && Within(g.samples, -1.0, 1.0) && y <= g.h
    ensures -((y * g.w) as real) <= GridSum(g, cos, cx, cy, y) <= (y * g.w) as real
  {
    hide RowSum;
    if y > 0 {
      GridSmall(g, cos, cx, cy, y - 1);
      RowSmall(g, cos, cx, cy, y - 1, g.w);
      assert y * g.w == (y - 1) * g.w + g.w;
    }
  }

  /** No term of samples in [-1, 1] leaves [-1, 1]. */
  lemma TermSmall(g: Grid, cos: Cosine, cx: nat, cy: nat)
    requires g.Valid() && CosineLike(cos) && Within(g.samples, -1.0, 1.0)
    ensures -1.0 <= TermAt(g, cos, cx, cy) <= 1.0
  {
    hide GridSum;
    Cells(g);
    GridSmall(g, cos, cx, cy, g.h);
    var n := (g.w * g.h) as real;
    assert g.h * g.w == g.w * g.h;
    DivideBetween(-1.0, 1.0, GridSum(g, cos, cx, cy, g.h), n);
  }

  /** The scale is the least bound on the magnitudes: none exceeds it, and one reaches it. */
  lemma {:induction false} ScaleIsLeastBound(values: seq<real>)
    ensures Scale(values) >= 0.0 && Within(values, -Scale(values), Scale(values))
    ensures Scale(values) > 0.0 ==> exists i :: 0 <= i < |values| && Abs(values[i]) == Scale(values)
  {
    if values != [] {
      var n := |values| - 1;
      ScaleIsLeastBound(values[..n]);
      if Scale(values) > 0.0 {
        if Abs(values[n]) == Scale(values) {
        } else {
          var i :| 0 <= i < n && Abs(values[..n][i]) == Scale(values[..n]);
          assert values[i] == values[..n][i];
        }
      }
      assert forall i :: 0 <= i < n ==> values[i] == values[..n][i];
    }
  }

  lemma SqueezeFits(value: real, scale: real)
    requires scale > 0.0 && -scale <= value <= scale
    ensures InUnit(Squeeze(value, scale)) && 2.0 * scale * (Squeeze(value, scale) - 0.5) == value
  {
    var share := value / scale;
    assert share * scale == value;
    DivideBetween(-1.0, 1.0, value, scale);
    assert 0.5 / scale * value == 0.5 * share;
    assert 2.0 * scale * (0.5 * share) == share * scale;
  }

  /** Every normalised value fits [0, 1], and the scale gives the value itself back. */
  lemma NormalisedFits(values: seq<real>, i: nat)
    requires i < |values|
    ensures InUnit(Normalised(values)[i])
    ensures values[i] == if Scale(values) == 0.0 then 0.0 else 2.0 * Scale(values) * (Normalised(values)[i] - 0.5)
  {
    hide Scale, Squeeze;
    ScaleIsLeastBound(values);
    if Scale(values) != 0.0 {
      SqueezeFits(values[i], Scale(values));
    }
  }

  lemma {:induction false} ScaleSmall(values: seq<real>)
    requires Within(values, -1.0, 1.0)
    ensures 0.0 <= Scale(values) <= 1.0
  {
    if values != [] {
      ScaleSmall(values[..|values| - 1]);
    }
  }

  /** The whole channel of samples in [-1, 1]: the scale and every AC value fit [0, 1]. */
  lemma ChannelFits(g: Grid, cos: Cosine, nx: nat, ny: nat)
    requires g.Valid() && CosineLike(cos) && Within(g.samples, -1.0, 1.0) && nx > 0 && ny > 0
    ensures var c := ChannelOf(g, cos, nx, ny);
      c.dc == Mean(g.samples) && InUnit(c.scale) && Within(c.ac, 0.0, 1.0)
  {
    hide Scale, Normalised, TermAt, Mean, TermsBelow;
    TermsStart(nx, ny, ny);
    var terms := Terms(nx, ny)[1..];
    var raw := Values(g, cos, terms);
    forall i | 0 <= i < |raw|
      ensures -1.0 <= raw[i] <= 1.0
      ensures InUnit(Normalised(raw)[i])
    {
      TermSmall(g, cos, terms[i].0, terms[i].1);
      NormalisedFits(raw, i);
    }
    ScaleSmall(raw);
    DcIsMean(g, cos);
  }
}
