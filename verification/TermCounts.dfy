/** How many terms a channel keeps: the lattice points under the diagonal of an `nx` by `ny` box. */
module TermCounts {
  import opened Cosines

  predicate UnderDiagonal(nx: nat, ny: nat, p: (nat, nat)) {
    p.0 < nx && p.1 < ny && p.0 * ny + p.1 * nx < nx * ny
  }

  ghost function Lattice(nx: nat, ny: nat): set<(nat, nat)> {
    set cx: nat, cy: nat | cx < nx && cy < ny && UnderDiagonal(nx, ny, (cx, cy)) :: (cx, cy)
  }

  ghost predicate Distinct<T>(s: seq<T>) {
    forall i, j :: 0 <= i < j < |s| ==> s[i] != s[j]
  }

  ghost function Elements<T>(s: seq<T>): set<T> {
    set x | x in s
  }

  lemma {:induction false} DistinctCount<T>(s: seq<T>)
    requires Distinct(s)
    ensures |Elements(s)| == |s|
  {
    if s != [] {
      var n := |s| - 1;
      DistinctCount(s[..n]);
      assert Elements(s) == Elements(s[..n]) + {s[n]};
    }
  }

  /** The loop guard of a row is the diagonal, and it also keeps `cx` below `nx`. */
  lemma GuardIsDiagonal(nx: nat, ny: nat, cx: nat, cy: nat)
    requires cy < ny
    ensures cx * ny < nx * (ny - cy) <==> UnderDiagonal(nx, ny, (cx, cy))
  {
    assert nx * (ny - cy) == nx * ny - cy * nx;
    assert cx >= nx ==> cx * ny >= nx * ny;
  }

  lemma {:induction false} TermsBelowAre(nx: nat, ny: nat, cy: nat, p: (nat, nat))
    requires cy <= ny
    ensures p in TermsBelow(nx, ny, cy) <==> p.1 < cy && UnderDiagonal(nx, ny, p)
  {
    hide UnderDiagonal;
    if cy > 0 {
      TermsBelowAre(nx, ny, cy - 1, p);
      var n := RowLength(nx, ny, cy - 1);
      assert p in Row(cy - 1, n) <==> p.1 == cy - 1 && p.0 < n by {
        if p.1 == cy - 1 && p.0 < n { assert Row(cy - 1, n)[p.0] == p; }
      }
      if p.1 == cy - 1 {
        GuardIsDiagonal(nx, ny, p.0, p.1);
      }
    }
  }

  lemma {:induction false} TermsDistinct(nx: nat, ny: nat, cy: nat)
    requires cy <= ny
    ensures Distinct(TermsBelow(nx, ny, cy))
    ensures forall p :: p in TermsBelow(nx, ny, cy) ==> p.1 < cy
  {
    hide RowLength;
    if cy > 0 {
      TermsDistinct(nx, ny, cy - 1);
    }
  }

  /** The terms are exactly the lattice points under the diagonal, each visited once. */
  lemma TermsAreLattice(nx: nat, ny: nat)
    ensures Elements(Terms(nx, ny)) == Lattice(nx, ny) && Distinct(Terms(nx, ny))
    ensures |Terms(nx, ny)| == |Lattice(nx, ny)|
  {
    hide UnderDiagonal, TermsBelow;
    TermsDistinct(nx, ny, ny);
    DistinctCount(Terms(nx, ny));
    forall p: (nat, nat)
      ensures p in Elements(Terms(nx, ny)) <==> p in Lattice(nx, ny)
    {
      TermsBelowAre(nx, ny, ny, p);
      if UnderDiagonal(nx, ny, p) { Inside(nx, ny, p); }
    }
  }

  /** Row by row, and from left to right in each. */
  predicate Before(p: (nat, nat), q: (nat, nat)) {
    p.1 < q.1 || (p.1 == q.1 && p.0 < q.0)
  }

  lemma {:induction false} TermsBelowInOrder(nx: nat, ny: nat, cy: nat)
    requires cy <= ny
    ensures forall i, j :: 0 <= i < j < |TermsBelow(nx, ny, cy)| ==>
      Before(TermsBelow(nx, ny, cy)[i], TermsBelow(nx, ny, cy)[j])
  {
    hide RowLength;
    if cy > 0 {
      TermsBelowInOrder(nx, ny, cy - 1);
      TermsDistinct(nx, ny, cy - 1);
      var before := TermsBelow(nx, ny, cy - 1);
      assert forall i :: 0 <= i < |before| ==> before[i] in before;
    }
  }

  /** The order in which the terms are written. */
  lemma TermsInOrder(nx: nat, ny: nat, i: nat, j: nat)
    requires i < j < |Terms(nx, ny)|
    ensures Before(Terms(nx, ny)[i], Terms(nx, ny)[j])
  {
    TermsBelowInOrder(nx, ny, ny);
  }

  lemma Inside(nx: nat, ny: nat, p: (nat, nat))
    requires UnderDiagonal(nx, ny, p)
    ensures p.0 < nx && p.1 < ny && p in Lattice(nx, ny)
  {}

  ghost function Flip(terms: seq<(nat, nat)>): (turned: seq<(nat, nat)>)
    ensures |turned| == |terms| && forall i :: 0 <= i < |terms| ==> turned[i] == (terms[i].1, terms[i].0)
  {
    seq(|terms|, i requires 0 <= i < |terms| => (terms[i].1, terms[i].0))
  }

  lemma FlipHas(terms: seq<(nat, nat)>, p: (nat, nat))
    ensures p in Elements(Flip(terms)) <==> (p.1, p.0) in Elements(terms)
  {
    if i :| 0 <= i < |terms| && terms[i] == (p.1, p.0) {
      assert Flip(terms)[i] == p;
    }
  }

  /** Turning the box on its side keeps the number of terms. */
  lemma CountSymmetric(nx: nat, ny: nat)
    ensures |Terms(nx, ny)| == |Terms(ny, nx)|
  {
    hide Terms, UnderDiagonal, Lattice, Flip;
    TermsAreLattice(nx, ny);
    TermsAreLattice(ny, nx);
    var terms := Terms(nx, ny);
    forall p: (nat, nat)
      ensures p in Elements(Flip(terms)) <==> p in Lattice(ny, nx)
    {
      Turned(nx, ny, p);
      FlipHas(terms, p);
    }
    assert Elements(Flip(terms)) == Lattice(ny, nx);
    DistinctCount(Flip(terms));
  }

  lemma Turned(nx: nat, ny: nat, p: (nat, nat))
    ensures p in Lattice(ny, nx) <==> (p.1, p.0) in Lattice(nx, ny)
  {}

  lemma WiderStep(nx: nat, ny: nat, p: (nat, nat))
    requires UnderDiagonal(nx, ny, p)
    ensures UnderDiagonal(nx + 1, ny, p)
  {
    assert p.1 * (nx + 1) == p.1 * nx + p.1 && (nx + 1) * ny == nx * ny + ny;
  }

  lemma {:induction false} Wider(nx: nat, wide: nat, ny: nat, p: (nat, nat))
    requires UnderDiagonal(nx, ny, p) && nx <= wide
    ensures UnderDiagonal(wide, ny, p)
    decreases wide - nx
  {
    hide UnderDiagonal;
    if nx < wide {
      WiderStep(nx, ny, p);
      Wider(nx + 1, wide, ny, p);
    }
  }

  lemma CountWider(nx: nat, wide: nat, ny: nat)
    requires nx <= wide
    ensures |Terms(nx, ny)| <= |Terms(wide, ny)|
  {
    hide TermsBelow, UnderDiagonal, Terms;
    TermsAreLattice(nx, ny);
    TermsAreLattice(wide, ny);
    var small, large := Lattice(nx, ny), Lattice(wide, ny);
    forall p | p in small
      ensures p in large
    {
      Wider(nx, wide, ny, p);
      Inside(wide, ny, p);
    }
    assert large == small + (large - small);
  }

  /** A larger box never keeps fewer terms. */
  lemma CountMonotone(nx: nat, ny: nat, wide: nat, high: nat)
    requires nx <= wide && ny <= high
    ensures |Terms(nx, ny)| <= |Terms(wide, high)|
  {
    hide Terms;
    CountWider(nx, wide, ny);
    CountSymmetric(wide, ny);
    CountWider(ny, high, wide);
    CountSymmetric(high, wide);
  }

  /** The boxes the encoder uses. */
  lemma Counts()
    ensures |Terms(3, 3)| == 6 && |Terms(5, 5)| == 15 && |Terms(7, 7)| == 28
    ensures |Terms(7, 3)| == 15 && |Terms(5, 3)| == 11
  {
    CountSquare(3, 3);
    CountSquare(5, 5);
    CountSquare(7, 7);
    var s, t := 7, 5;
    assert RowLength(s, 3, 0) == 7 && RowLength(s, 3, 1) == 5 && RowLength(s, 3, 2) == 3;
    assert |TermsBelow(s, 3, 1)| == 7 && |TermsBelow(s, 3, 2)| == 12;
    assert RowLength(t, 3, 0) == 5 && RowLength(t, 3, 1) == 4 && RowLength(t, 3, 2) == 2;
    assert |TermsBelow(t, 3, 1)| == 5 && |TermsBelow(t, 3, 2)| == 9;
  }

  /** A square box keeps a triangle of rows. */
  lemma {:induction false} CountSquare(n: nat, cy: nat)
    requires cy <= n
    ensures 2 * |TermsBelow(n, n, cy)| == cy * (2 * n - cy + 1)
  {
    hide RowLength;
    if cy > 0 {
      CountSquare(n, cy - 1);
      RowOfSquare(n, cy - 1);
      TriangleStep(n, cy);
    }
  }

  lemma TriangleStep(n: int, cy: int)
    ensures cy * (2 * n - cy + 1) == (cy - 1) * (2 * n - (cy - 1) + 1) + 2 * (n - (cy - 1))
  {}

  lemma RowOfSquare(n: nat, cy: nat)
    requires cy < n
    ensures RowLength(n, n, cy) == n - cy
  {
    var k := RowLength(n, n, cy);
    assert !((n - cy) * n < n * (n - cy));
    assert k < n - cy ==> k * n < n * (n - cy);
  }
}
