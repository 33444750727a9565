/** What a term of a channel is, on every grid: linear in the samples, and known for a single one. */
module CosineTerms {
  import opened Planes
  import opened Cosines

  predicate SameSize(g: Grid, k: Grid) {
    g.Valid() && k.Valid() && g.w == k.w && g.h == k.h
  }

  function Combined(a: real, x: real, b: real, y: real): real {
    a * x + b * y
  }

  /** `a` times one grid and `b` times another, sample by sample. */
  function Mixed(a: real, g: Grid, b: real, k: Grid): (m: Grid)
    requires SameSize(g, k)
    ensures SameSize(m, g)
  {
    Grid(seq(|g.samples|, i requires 0 <= i < |g.samples| => Combined(a, g.samples[i], b, k.samples[i])), g.w, g.h)
  }

  lemma WeightedIs(s: real, across: real, down: real)
    ensures Weighted(s, across, down) == s * (across * down)
  {}

  lemma WeightedLinear(a: real, s: real, b: real, t: real, across: real, down: real)
    ensures Weighted(Combined(a, s, b, t), across, down)
         == Combined(a, Weighted(s, across, down), b, Weighted(t, across, down))
  {
    var weight := across * down;
    WeightedIs(Combined(a, s, b, t), across, down);
    WeightedIs(s, across, down);
    WeightedIs(t, across, down);
    assert (a * s + b * t) * weight == a * (s * weight) + b * (t * weight);
  }

  lemma CombinedAdds(a: real, x: real, x': real, b: real, y: real, y': real)
    ensures Combined(a, x + x', b, y + y') == Combined(a, x, b, y) + Combined(a, x', b, y')
  {}

  lemma CombinedZero(a: real, b: real)
    ensures Combined(a, 0.0, b, 0.0) == 0.0
  {}

  lemma {:induction false} RowLinear(a: real, g: Grid, b: real, k: Grid, cos: Cosine, cx: nat, cy: nat, y: nat, x: nat)
    requires SameSize(g, k) && y < g.h && x <= g.w
    ensures RowSum(Mixed(a, g, b, k), cos, cx, cy, y, x)
         == Combined(a, RowSum(g, cos, cx, cy, y, x), b, RowSum(k, cos, cx, cy, y, x))
  {
    hide Weighted, Combined;
    if x > 0 {
      RowLinear(a, g, b, k, cos, cx, cy, y, x - 1);
      var at, across, down := Cell(g, x - 1, y), cos(g.w, cx, x - 1), cos(g.h, cy, y);
      WeightedLinear(a, g.samples[at], b, k.samples[at], across, down);
      CombinedAdds(a, RowSum(g, cos, cx, cy, y, x - 1), Weighted(g.samples[at], across, down),
                   b, RowSum(k, cos, cx, cy, y, x - 1), Weighted(k.samples[at], across, down));
    } else {
      CombinedZero(a, b);
    }
  }

  lemma {:induction false} GridLinear(a: real, g: Grid, b: real, k: Grid, cos: Cosine, cx: nat, cy: nat, y: nat)
    requires SameSize(g, k) && y <= g.h
    ensures GridSum(Mixed(a, g, b, k), cos, cx, cy, y)
         == Combined(a, GridSum(g, cos, cx, cy, y), b, GridSum(k, cos, cx, cy, y))
  {
    hide RowSum, Mixed, Combined;
    if y > 0 {
      GridLinear(a, g, b, k, cos, cx, cy, y - 1);
      RowLinear(a, g, b, k, cos, cx, cy, y - 1, g.w);
      CombinedAdds(a, GridSum(g, cos, cx, cy, y - 1), RowSum(g, cos, cx, cy, y - 1, g.w),
                   b, GridSum(k, cos, cx, cy, y - 1), RowSum(k, cos, cx, cy, y - 1, k.w));
    } else {
      CombinedZero(a, b);
    }
  }

  lemma DivideLinear(a: real, x: real, b: real, y: real, n: real)
    requires n != 0.0
    ensures Combined(a, x, b, y) / n == Combined(a, x / n, b, y / n)
  {
    var p, q := x / n, y / n;
    assert p * n == x && q * n == y;
    assert (a * p + b * q) * n == a * (p * n) + b * (q * n);
  }

  /** Every term is linear in the samples. */
  lemma TermLinear(a: real, g: Grid, b: real, k: Grid, cos: Cosine, cx: nat, cy: nat)
    requires SameSize(g, k)
    ensures TermAt(Mixed(a, g, b, k), cos, cx, cy) == a * TermAt(g, cos, cx, cy) + b * TermAt(k, cos, cx, cy)
  {
    Cells(g);
    GridLinear(a, g, b, k, cos, cx, cy, g.h);
    DivideLinear(a, GridSum(g, cos, cx, cy, g.h), b, GridSum(k, cos, cx, cy, g.h), (g.w * g.h) as real);
    assert Combined(a, TermAt(g, cos, cx, cy), b, TermAt(k, cos, cx, cy))
        == a * TermAt(g, cos, cx, cy) + b * TermAt(k, cos, cx, cy);
    hide GridSum, Mixed, Combined;
  }

  /** All samples are zero but the one in column `x` and row `y`. */
  predicate Single(g: Grid, x: nat, y: nat) {
    && g.Valid() && x < g.w && y < g.h
    && forall i :: 0 <= i < |g.samples| && i != x + y * g.w ==> g.samples[i] == 0.0
  }

  lemma OneCell(w: nat, x: nat, y: nat, x': nat, y': nat)
    requires x < w && x' < w
    ensures x + y * w == x' + y' * w <==> x == x' && y == y'
  {
    if y < y' {
      assert (y + 1) * w <= y' * w;
    } else if y' < y {
      assert (y' + 1) * w <= y * w;
    }
  }

  lemma NoWeight(across: real, down: real)
    ensures Weighted(0.0, across, down) == 0.0
  {}

  lemma {:induction false} SingleRow(g: Grid, cos: Cosine, cx: nat, cy: nat, x: nat, y: nat, row: nat, n: nat)
    requires Single(g, x, y) && row < g.h && n <= g.w
    ensures 0 <= x + y * g.w < |g.samples|
    ensures RowSum(g, cos, cx, cy, row, n)
         == if row == y && x < n then Weighted(g.samples[x + y * g.w], cos(g.w, cx, x), cos(g.h, cy, y)) else 0.0
  {
    hide Weighted;
    assert Cell(g, x, y) == x + y * g.w;
    if n > 0 {
      SingleRow(g, cos, cx, cy, x, y, row, n - 1);
      OneCell(g.w, x, y, n - 1, row);
      NoWeight(cos(g.w, cx, n - 1), cos(g.h, cy, row));
    }
  }

  lemma {:induction false} SingleGrid(g: Grid, cos: Cosine, cx: nat, cy: nat, x: nat, y: nat, n: nat)
    requires Single(g, x, y) && n <= g.h
    ensures 0 <= x + y * g.w < |g.samples|
    ensures GridSum(g, cos, cx, cy, n)
         == if y < n then Weighted(g.samples[x + y * g.w], cos(g.w, cx, x), cos(g.h, cy, y)) else 0.0
  {
    hide Weighted, RowSum;
    assert Cell(g, x, y) == x + y * g.w;
    if n > 0 {
      SingleGrid(g, cos, cx, cy, x, y, n - 1);
      SingleRow(g, cos, cx, cy, x, y, n - 1, g.w);
    }
  }

  /**
    The term of a grid with one sample: the sample times the cosine of its column and the cosine of its row, over
    the number of samples. With linearity this is every term of every grid.
   */
  lemma SingleTerm(g: Grid, cos: Cosine, cx: nat, cy: nat, x: nat, y: nat)
    requires Single(g, x, y)
    ensures 0 <= x + y * g.w < |g.samples| && g.w * g.h != 0
    ensures TermAt(g, cos, cx, cy)
         == g.samples[x + y * g.w] * cos(g.w, cx, x) * cos(g.h, cy, y) / (g.w * g.h) as real
  {
    Cells(g);
    SingleGrid(g, cos, cx, cy, x, y, g.h);
    hide GridSum;
  }
}
