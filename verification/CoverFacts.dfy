/** When the animated cover resize keeps every frame whole, and what a GIF encoder is then given. */
module CoverFacts {
  import opened Text
  import opened Bits
  import opened Doubles
  import opened Singles
  import opened Numbers
  import opened Rasters
  import opened Sizes
  import opened Stages
  import opened Animation
  import opened Resizing

  /** How many frames are kept: the per-frame path stops at 256, the other one does not. */
  function FramesKept(pages: nat, pageHeight: nat, th: nat): nat {
    if pageHeight >= th + 2 && pages > MAX_JOINED then MAX_JOINED else pages
  }

  /** The limit on frames is kept exactly on the per-frame path and for stacks that are within it anyway. */
  lemma FramesLimited(pages: nat, pageHeight: nat, th: nat)
    ensures FramesKept(pages, pageHeight, th) <= 256 <==> pages <= 256 || pageHeight >= th + 2
  {}

  /** 300 frames of exactly the target height are all kept, with rows to cut off only 256 of them. */
  lemma LimitMissed()
    ensures FramesKept(300, 50, 50) == 300 && FramesKept(300, 52, 50) == 256
  {}

  /** Every output page is the same centred window of the resized frame with its number. */
  ghost predicate FramesIntact<P>(out: Raster<P>, resized: Raster<P>, pageHeight: nat, tw: nat, th: nat, n: nat)
    requires out.Valid() && resized.Valid() && tw <= resized.Width() && th <= pageHeight
  {
    var left, top := (resized.Width() - tw) / 2, (pageHeight - th) / 2;
    && out.Width() == tw && out.Height() == n * th
    && forall i: nat :: i < n ==>
      && FrameWindow(resized, pageHeight, left, top, tw, th, i).Some?
      && Page(out, th, i) == FrameWindow(resized, pageHeight, left, top, tw, th, i)
  }

  lemma FrameInside<P>(resized: Raster<P>, pages: nat, pageHeight: nat, tw: nat, th: nat, i: nat)
    requires resized.Valid() && resized.Height() == pages * pageHeight && i < pages
    requires 0 < tw <= resized.Width() && 0 < th <= pageHeight
    ensures FrameWindow(resized, pageHeight, (resized.Width() - tw) / 2, (pageHeight - th) / 2, tw, th, i).Some?
  {
    hide Window;
    PageInside(i, pages, pageHeight);
  }

  /** A window of a window is a window. */
  lemma WindowOfWindow<P>(img: Raster<P>, left: nat, w: nat, y: nat, h: nat)
    requires img.Valid() && w > 0 && h > 0 && left + w <= img.Width() && y + h <= img.Height()
    ensures Extract(Window(img, left, 0, w, img.Height()), 0, y, w, h) == Extract(img, left, y, w, h)
  {
    SamePixels(Window(Window(img, left, 0, w, img.Height()), 0, y, w, h), Window(img, left, y, w, h));
  }

  lemma WholePages(pages: nat, pageHeight: nat)
    requires pages > 0
    ensures pages * pageHeight / pages == pageHeight
  {
    var q := pages * pageHeight / pages;
    assert q * pages <= pages * pageHeight < q * pages + pages;
    assert q < pageHeight ==> (q + 1) * pages <= pageHeight * pages;
    assert q > pageHeight ==> (pageHeight + 1) * pages <= q * pages;
  }

  /** The path without a vertical crop, when no row is to be removed. */
  lemma HorizontalKeeps<P>(out: Raster<P>, resized: Raster<P>, pages: nat, tw: nat, th: nat)
    requires resized.Valid() && out.Valid() && pages > 0 && resized.Height() == pages * th
    requires 0 < tw <= resized.Width() && th > 0
    requires out == if resized.Width() == tw then resized
                    else Window(resized, (resized.Width() - tw) / 2, 0, tw, resized.Height())
    ensures FramesIntact(out, resized, th, tw, th, pages)
  {
    var left := (resized.Width() - tw) / 2;
    forall i: nat | i < pages
      ensures FrameWindow(resized, th, left, 0, tw, th, i).Some?
      ensures Page(out, th, i) == FrameWindow(resized, th, left, 0, tw, th, i)
    {
      FrameInside(resized, pages, th, tw, th, i);
      PageInside(i, pages, th);
      WindowOfWindow(resized, left, tw, i * th, th);
    }
  }

  /**
   * For a stack of whole pages at least as large as the target, the output is `n` intact frames exactly
   * when a page is not one row taller than the target. One row halves to a crop offset of zero, which
   * takes the path that removes no row.
   */
  lemma CoverKeepsFrames<P>(resized: Raster<P>, pages: nat, pageHeight: nat, tw: nat, th: nat)
    requires resized.Valid() && pages > 0 && resized.Height() == pages * pageHeight
    requires 0 < tw <= resized.Width() && 0 < th <= pageHeight
    ensures var out := CoverCropped(resized, pages, tw, th);
      && out.Some?
      && (FramesIntact(out.value, resized, pageHeight, tw, th, FramesKept(pages, pageHeight, th))
          <==> pageHeight != th + 1)
      && (pageHeight == th + 1 ==> out == Some(Window(resized, (resized.Width() - tw) / 2, 0, tw, resized.Height())))
  {
    hide FramesIntact, Window, Page, FrameWindow, FramesOf, JoinDown;
    WholePages(pages, pageHeight);
    var out := CoverCropped(resized, pages, tw, th);
    if pageHeight == th {
      HorizontalKeeps(out.value, resized, pages, tw, th);
    } else if pageHeight == th + 1 {
      TooTall(out.value, resized, pages, tw, th);
    } else {
      PerFrameKeeps(resized, pages, pageHeight, tw, th);
    }
  }

  lemma TooTall<P>(out: Raster<P>, resized: Raster<P>, pages: nat, tw: nat, th: nat)
    requires out.Valid() && resized.Valid() && tw <= resized.Width() && pages > 0 && out.Height() == pages * (th + 1)
    ensures !FramesIntact(out, resized, th + 1, tw, th, pages)
  {
    assert pages * (th + 1) == pages * th + pages;
  }

  lemma PerFrameKeeps<P>(resized: Raster<P>, pages: nat, pageHeight: nat, tw: nat, th: nat)
    requires resized.Valid() && pages > 0 && resized.Height() == pages * pageHeight
    requires 0 < tw <= resized.Width() && 0 < th && th + 2 <= pageHeight
    ensures var left, top, n := (resized.Width() - tw) / 2, (pageHeight - th) / 2, FramesKept(pages, pageHeight, th);
      var frames := FramesOf(resized, pageHeight, left, top, tw, th, n);
      frames.Some? && FramesIntact(JoinDown(frames.value, tw, th), resized, pageHeight, tw, th, n)
  {
    hide FrameWindow, Page, JoinDown, Uniform;
    var left, top, n := (resized.Width() - tw) / 2, (pageHeight - th) / 2, FramesKept(pages, pageHeight, th);
    forall i: nat | i < n
      ensures FrameWindow(resized, pageHeight, left, top, tw, th, i).Some?
    {
      FrameInside(resized, pages, pageHeight, tw, th, i);
    }
    var frames := FramesOf(resized, pageHeight, left, top, tw, th, n);
    forall i: nat | i < n
      ensures Page(JoinDown(frames.value, tw, th), th, i) == Some(frames.value[i])
    {
      JoinedPage(frames.value, tw, th, i);
    }
  }

  /** On the drifting path page `i` starts inside frame `i - 1`: each page begins one row earlier than the last. */
  lemma PagesDrift<P>(resized: Raster<P>, pages: nat, tw: nat, th: nat, i: nat, x: nat)
    requires resized.Valid() && 0 < tw <= resized.Width() && 0 < th && resized.Height() == pages * (th + 1)
    requires 0 < i < pages && i <= th + 1 && x < tw
    ensures var left := (resized.Width() - tw) / 2;
      var out := Window(resized, left, 0, tw, resized.Height());
      && 0 <= i * th < out.Height() && (i - 1) * (th + 1) + (th + 1 - i) < resized.Height()
      && out.At(x, i * th) == resized.At(left + x, (i - 1) * (th + 1) + (th + 1 - i))
  {
    assert (i - 1) * (th + 1) + (th + 1 - i) == i * th;
    assert i * th <= pages * th;
    assert pages * (th + 1) == pages * th + pages;
  }

  /** The page height, set to the target, divides the stack exactly when frames are intact or it divides the drift. */
  lemma PageHeightDivides<P>(resized: Raster<P>, pages: nat, pageHeight: nat, tw: nat, th: nat)
    requires resized.Valid() && pages > 0 && resized.Height() == pages * pageHeight
    requires 0 < tw <= resized.Width() && 0 < th <= pageHeight
    ensures var out := CoverCropped(resized, pages, tw, th);
      && out.Some? && out.value.Height() == CoveredHeight(pages, pageHeight, th)
      && (out.value.Height() % th == 0 <==> pageHeight != th + 1 || pages % th == 0)
  {
    hide CoverCropped, Window, FrameWindow, Page;
    CoverKeepsFrames(resized, pages, pageHeight, tw, th);
    HeightDivides(pages, pageHeight, th);
  }

  /** The height of the stack after the crop. */
  function CoveredHeight(pages: nat, pageHeight: nat, th: nat): nat {
    if pageHeight == th + 1 then pages * pageHeight else FramesKept(pages, pageHeight, th) * th
  }

  lemma HeightDivides(pages: nat, pageHeight: nat, th: nat)
    requires 0 < th <= pageHeight
    ensures CoveredHeight(pages, pageHeight, th) % th == 0 <==> pageHeight != th + 1 || pages % th == 0
    ensures pageHeight != th + 1 ==> CoveredHeight(pages, pageHeight, th) / th == FramesKept(pages, pageHeight, th)
    ensures pageHeight == th + 1 ==> CoveredHeight(pages, pageHeight, th) / th == pages + pages / th
  {
    hide FramesKept;
    if pageHeight == th + 1 {
      assert pages * pageHeight == pages * th + pages;
      WholeShare(pages, th, pages);
    } else {
      WholeShare(FramesKept(pages, pageHeight, th), th, 0);
    }
  }

  lemma WholeShare(n: nat, th: nat, rest: nat)
    requires th > 0
    ensures (n * th + rest) % th == rest % th && (n * th + rest) / th == n + rest / th
  {
    var q, m := rest / th, rest % th;
    Sum(n, q, th);
    assert n * th + rest == (n + q) * th + m;
    Remainder(n + q, th, m);
  }

  lemma Sum(n: nat, q: nat, th: nat)
    ensures (n + q) * th == n * th + q * th
  {}

  lemma Remainder(k: nat, th: nat, m: nat)
    requires m < th
    ensures (k * th + m) % th == m && (k * th + m) / th == k
  {
    var q := (k * th + m) / th;
    assert q * th <= k * th + m < q * th + th;
    assert q < k ==> (q + 1) * th <= k * th;
    assert q > k ==> (k + 1) * th <= q * th;
  }

  // ---------------------------------------------------------------------------
  // The first step: the stack that is asked of the resize
  // ---------------------------------------------------------------------------

  function Ceil(x: real): int {
    -((-x).Floor)
  }

  /** The scale at which each frame covers the target. */
  function CoverScale(source: Size, target: Size): real {
    Max(Divided(target.0, source.0), Divided(target.1, source.1))
  }

  /** The width and the page height asked of the resize, for frames of the size `source`. */
  function CoverBox(source: Size, target: Size): Size {
    var scale := CoverScale(source, target);
    (BoxSide(source.0, scale), BoxSide(source.1, scale))
  }

  /** `((side as f64 * scale).ceil() as i32).max(1)`. */
  function BoxSide(length: Side, scale: real): Side {
    AtLeastOne(SaturateI32(Ceil(if scale > 0.0 then Nearest(Product(length as real, scale)) else 0.0)))
  }

  /** The scale is that of the side that needs more of it. */
  lemma ScaleIs(source: Size, target: Size)
    ensures CoverScale(source, target)
         == if target.1 * source.0 < source.1 * target.0 then Divided(target.0, source.0)
            else Divided(target.1, source.1)
  {
    hide Nearest;
    var a, b := target.0 as real / source.0 as real, target.1 as real / source.1 as real;
    Ratio(target.0 as real, source.0 as real);
    Ratio(target.1 as real, source.1 as real);
    CrossCompare(target.0 as real, source.0 as real, target.1 as real, source.1 as real);
    Crossed(target.0, source.1);
    Crossed(target.1, source.0);
    if a <= b { NearestMonotone(a, b); } else { NearestMonotone(b, a); }
  }

  lemma BoxSideIs(side: Side, num: Side, den: Side)
    ensures BoxSide(side, Divided(num, den)) == AtLeastOne(SaturateI32(Ceil(Scaled(side, num, den))))
  {
    hide Nearest;
  }

  /** Rounding decides nothing but whole sides: a side that is exactly `k` can be taken one row over. */
  lemma SideDecides(side: Side, num: Side, den: Side, k: nat)
    requires 0 < k <= MAX_TARGET + 2
    ensures var n := BoxSide(side, Divided(num, den));
      && ((k - 1) * den < side * num ==> n >= k)
      && (side * num < k * den ==> n <= k)
      && (side * num == k * den ==> n == if Scaled(side, num, den) <= k as real then k else k + 1)
  {
    hide BoxSide, Scaled, ExactScaled, Off, Divided, SaturateI32, AtLeastOne, Ceil;
    BoxSideIs(side, num, den);
    ScaledOff(side, num, den);
    ExactScaledIs(side, num, den);
    CeilDecides(Scaled(side, num, den), ExactScaled(side, num, den), side * num, den, k);
  }

  lemma CeilDecides(d: real, x: real, num: nat, den: Side, k: nat)
    requires 0 < k <= MAX_TARGET + 2 && d > 0.0 && x > 0.0 && Off(d, x, 4.0 * EPSILON) && x * den as real == num as real
    ensures var n := AtLeastOne(SaturateI32(Ceil(d)));
      && ((k - 1) * den < num ==> n >= k)
      && (num < k * den ==> n <= k)
      && (num == k * den ==> n == if d <= k as real then k else k + 1)
  {
    hide Off, SaturateI32, AtLeastOne, Ceil;
    if x < 16384.0 {
      CloseBy(d, x);
      if (k - 1) * den < num {
        HalfApart(num, k - 1, den, x);
        CeilAbove(d, k);
      }
      if num < k * den {
        NegatedProduct(x, den);
        HalfApart(0 - num as int, 0 - k as int, den, -x);
        CeilBelow(d, k);
      }
      if num == k * den {
        SameQuotient(x, k, den);
        CeilBeside(d, k);
      }
    } else {
      FarAbove(d, x);
      Beyond(x, k, den, num);
      CeilAbove(d, k);
    }
  }

  lemma NegatedProduct(x: real, den: Side)
    ensures -x * den as real == -(x * den as real)
  {}

  lemma CeilAbove(d: real, k: nat)
    requires 0 < k <= MAX_TARGET + 2 && d > (k - 1) as real
    ensures AtLeastOne(SaturateI32(Ceil(d))) >= k
  {}

  lemma CeilBelow(d: real, k: nat)
    requires 0 < k && 0.0 < d <= k as real
    ensures AtLeastOne(SaturateI32(Ceil(d))) <= k
  {}

  lemma CeilBeside(d: real, k: nat)
    requires 0 < k <= MAX_TARGET + 2 && (k - 1) as real < d <= (k + 1) as real
    ensures AtLeastOne(SaturateI32(Ceil(d))) == if d <= k as real then k else k + 1
  {}

  lemma SameQuotient(x: real, k: nat, den: Side)
    requires x * den as real == (k * den) as real
    ensures x == k as real
  {
    Crossed(k, den);
    var gap := x - k as real;
    assert gap * den as real == 0.0;
    NoZero(gap, den as real);
  }

  lemma NoZero(x: real, y: real)
    requires y > 0.0
    ensures x * y == 0.0 ==> x == 0.0
  {}

  lemma Beyond(x: real, k: nat, den: Side, num: nat)
    requires x >= 16384.0 && k < 16384 && x * den as real == num as real
    ensures num > k * den
  {
    Crossed(k, den);
    GreaterProduct(k as real, x, den as real);
  }

  lemma GreaterProduct(x: real, y: real, z: real)
    requires x < y && z > 0.0
    ensures x * z < y * z
  {}

  /**
   * Frames that leave one row over, for frames of the size `source`. Strictly between `th` and `th + 1` rows they
   * always do. A page of exactly `th + 1` rows does unless rounding takes it further, and where the height sets the
   * scale a page is exactly `th` rows and does when rounding takes it over.
   */
  predicate OneRowOver(source: Size, target: Size) {
    var rows := source.1 * target.0;
    if target.1 * source.0 < rows
    then rows < (target.1 + 1) * source.0
         || (rows == (target.1 + 1) * source.0 && Scaled(source.1, target.0, source.0) <= (target.1 + 1) as real)
    else Scaled(source.1, target.1, source.1) > target.1 as real
  }

  /** The box covers the target, and its page height is one row over exactly for the frames that the predicate names. */
  lemma CoverBoxCovers(source: Size, target: Size)
    requires target.0 <= MAX_TARGET && target.1 <= MAX_TARGET
    ensures var (w, h) := CoverBox(source, target);
      target.0 <= w && target.1 <= h && (h == target.1 + 1 <==> OneRowOver(source, target))
  {
    hide BoxSide, CoverScale, Scaled, Divided;
    ScaleIs(source, target);
    if target.1 * source.0 < source.1 * target.0 {
      SideDecides(source.0, target.0, source.0, target.0);
      SideDecides(source.1, target.0, source.0, target.1 + 1);
      SideDecides(source.1, target.0, source.0, target.1 + 2);
    } else {
      SideDecides(source.1, target.1, source.1, target.1);
      OneLess(target.0, source.1, source.0 * target.1);
      SideDecides(source.0, target.1, source.1, target.0);
    }
  }

  lemma OneLess(k: nat, den: Side, num: nat)
    requires 0 < k && k * den <= num
    ensures (k - 1) * den < num
  {
    assert (k - 1) * den == k * den - den;
  }

  /**
   * The whole animated cover resize, when the first step returns the stack it was asked for: frames stay
   * intact exactly when the target does not leave one row over.
   */
  lemma AnimatedCoverIntact<P>(resized: Raster<P>, pages: nat, frame: Size, target: Size)
    requires resized.Valid() && pages > 0 && target.0 <= MAX_TARGET && target.1 <= MAX_TARGET
    requires resized.Width() == CoverBox(frame, target).0 && resized.Height() == pages * CoverBox(frame, target).1
    ensures var h, out := CoverBox(frame, target).1, CoverCropped(resized, pages, target.0, target.1);
      && target.0 <= CoverBox(frame, target).0 && target.1 <= h && out.Some?
      && (FramesIntact(out.value, resized, h, target.0, target.1, FramesKept(pages, h, target.1))
          <==> !OneRowOver(frame, target))
  {
    hide CoverBox, CoverCropped, FramesIntact, OneRowOver;
    CoverBoxCovers(frame, target);
    CoverKeepsFrames(resized, pages, CoverBox(frame, target).1, target.0, target.1);
  }

  /** Frames of 100 by 101 covering 50 by 50 leave one row over, whatever rounding does. */
  lemma OneRowOverHappens()
    ensures OneRowOver((100, 101), (50, 50)) && CoverBox((100, 101), (50, 50)).1 == 51
  {
    hide CoverBox;
    CoverBoxCovers((100, 101), (50, 50));
  }

  /**
   * Frames of 100 by 100 covering 55 by 55 leave one row over by rounding alone: the scale is
   * 4953959590107546 / 2^53, and 100 times it rounds to 55 + 2^-47.
   */
  lemma OneRowOverByRounding()
    ensures 9007199254740992.0 * Divided(55, 100) == 4953959590107546.0
    ensures Scaled(100, 55, 100) == 55.0 + 1.0 / 140737488355328.0
    ensures OneRowOver((100, 100), (55, 55)) && CoverBox((100, 100), (55, 55)) == (56, 56)
  {
    hide Nearest, Pow2, RoundHalfEven, CoverBox;
    ScaledRow();
    CoverBoxCovers((100, 100), (55, 55));
    SquareBox(100, 55);
  }

  lemma SquareBox(side: Side, target: Side)
    ensures CoverBox((side, side), (target, target)).0 == CoverBox((side, side), (target, target)).1
  {
    hide BoxSide, CoverScale;
  }

  lemma ScaledRow()
    ensures 9007199254740992.0 * Divided(55, 100) == 4953959590107546.0
    ensures Scaled(100, 55, 100) == 55.0 + 1.0 / 140737488355328.0
  {
    hide Nearest, Pow2;
    LargePowers();
    NearestIs(55.0 / 100.0, 53, 4953959590107546);
    NearestIs(Product(100.0, Divided(55, 100)), 47, 7740561859543041);
  }

  // ---------------------------------------------------------------------------
  // What a GIF encoder is given
  // ---------------------------------------------------------------------------

  /** The pages that a GIF is read back with, by its height and page height. */
  function SavedPages(pages: nat, pageHeight: nat, th: nat): (n: nat)
    requires th > 0
  {
    if pageHeight != th + 1 then FramesKept(pages, pageHeight, th)
    else if pages % th == 0 then pages + pages / th else 1
  }

  /** The page count that its metadata claims. A load of fewer pages leaves the source's count `listed` there. */
  function ClaimedPages(listed: nat, pages: nat, pageHeight: nat, th: nat): (n: nat)
    requires th > 0
  {
    if pageHeight != th + 1 || pages % th == 0 then listed else 1
  }

  /**
   * A GIF of a covered stack of `pages` frames, of the `listed` ones in the source. Intact frames are saved as they
   * are. Frames one row too tall end as a single still page or, when the target height divides the page count, as
   * more pages than there were frames.
   */
  method SaveCovered<P>(resized: Raster<P>, listed: nat, pages: nat, pageHeight: nat, tw: nat, th: nat)
    returns (saved: int, claimed: int)
    requires resized.Valid() && 0 < pages <= listed && resized.Height() == pages * pageHeight
    requires 0 < tw <= resized.Width() && 0 < th <= pageHeight
    ensures saved == SavedPages(pages, pageHeight, th) && claimed == ClaimedPages(listed, pages, pageHeight, th)
  {
    hide CoverCropped;
    PageHeightDivides(resized, pages, pageHeight, tw, th);
    HeightDivides(pages, pageHeight, th);
    var covered := CoverCrop(resized, pages, tw, th);
    var height := covered.value.Height();
    var image := new SavedImage(height, Some(th), Some(listed));
    var panicked := image.GuardPages();
    if height < th {
      Larger(height, th);
    }
    saved := height / image.pageHeight.value;
    claimed := image.pages.value;
  }

  lemma Larger(height: nat, th: nat)
    requires th > height > 0
    ensures height % th != 0
  {}

  /**
   * When the claimed count is the saved one: for drifted stacks that end as a still page, or whose extra pages
   * happen to make up for the frames left unread; and for intact stacks that were read and kept whole.
   */
  lemma ClaimsMatch(listed: nat, pages: nat, pageHeight: nat, th: nat)
    requires 0 < pages <= listed && 0 < th <= pageHeight
    ensures SavedPages(pages, pageHeight, th) == ClaimedPages(listed, pages, pageHeight, th) <==>
      if pageHeight == th + 1 then pages % th != 0 || pages + pages / th == listed
      else pages == listed && (pageHeight < th + 2 || pages <= MAX_JOINED)
  {}

  /** `effective_pages`: how many of the frames are read. */
  function PagesRead(listed: nat, maxFrames: nat): nat {
    if listed < maxFrames then listed else maxFrames
  }

  /** A GIF of 150 frames under the limit of 100: pages of 52 rows for a target of 50 give 100 pages and claim 150. */
  lemma UnreadFramesClaimed()
    ensures PagesRead(150, 100) == 100
    ensures SavedPages(PagesRead(150, 100), 52, 50) == 100 && ClaimedPages(150, PagesRead(150, 100), 52, 50) == 150
  {}

  /** Intact stacks within 256 pages: the counts agree exactly when the limit on frames leaves none unread. */
  lemma ClaimsFollowLimit(listed: nat, maxFrames: nat, pageHeight: nat, th: nat)
    requires 0 < listed && 0 < maxFrames <= 256 && 0 < th <= pageHeight && pageHeight != th + 1
    ensures var pages := PagesRead(listed, maxFrames);
      SavedPages(pages, pageHeight, th) == ClaimedPages(listed, pages, pageHeight, th) <==> listed <= maxFrames
  {
    ClaimsMatch(listed, PagesRead(listed, maxFrames), pageHeight, th);
  }
}
