/** The animated cover resize, frame by frame, and the page metadata a GIF is saved with. */
module Animation {
  import opened Text
  import opened Rasters

  const MAX_JOINED: nat := 256

  /** `x / 2`, towards zero. */
  function HalfOf(x: int): int {
    if x < 0 then -(-x / 2) else x / 2
  }

  ghost predicate Uniform<P>(frames: seq<Raster<P>>, w: nat, h: nat) {
    forall i :: 0 <= i < |frames| ==> frames[i].Valid() && frames[i].Width() == w && frames[i].Height() == h
  }

  function AllRows<P>(frames: seq<Raster<P>>): seq<seq<P>> {
    if frames == [] then [] else AllRows(frames[..|frames| - 1]) + frames[|frames| - 1].rows
  }

  lemma PageInside(i: nat, n: nat, h: nat)
    requires i < n
    ensures 0 <= i * h <= i * h + h <= n * h
  {
    assert (i + 1) * h <= n * h;
  }

  lemma {:induction false} RowsOfFrame<P>(frames: seq<Raster<P>>, w: nat, h: nat, i: nat)
    requires Uniform(frames, w, h) && i < |frames|
    ensures |AllRows(frames)| == |frames| * h && 0 <= i * h <= i * h + h <= |frames| * h
    ensures AllRows(frames)[i * h..i * h + h] == frames[i].rows
  {
    PageInside(i, |frames|, h);
    RowsUniform(frames, w, h);
    var n := |frames| - 1;
    RowsUniform(frames[..n], w, h);
    if i < n {
      RowsOfFrame(frames[..n], w, h, i);
      SliceBefore(AllRows(frames[..n]), frames[n].rows, i * h, i * h + h);
    } else {
      SliceAfter(AllRows(frames[..n]), frames[n].rows, i * h, i * h + h);
    }
  }

  lemma SliceBefore<T>(a: seq<T>, b: seq<T>, low: nat, high: nat)
    requires low <= high <= |a|
    ensures (a + b)[low..high] == a[low..high]
  {}

  lemma SliceAfter<T>(a: seq<T>, b: seq<T>, low: nat, high: nat)
    requires low == |a| && high == |a| + |b|
    ensures (a + b)[low..high] == b
  {}

  lemma {:induction false} RowsUniform<P>(frames: seq<Raster<P>>, w: nat, h: nat)
    requires Uniform(frames, w, h)
    ensures |AllRows(frames)| == |frames| * h
    ensures forall y :: 0 <= y < |AllRows(frames)| ==> |AllRows(frames)[y]| == w
  {
    if frames != [] {
      var n := |frames| - 1;
      RowsUniform(frames[..n], w, h);
      OneMore(n, h);
      var before, last := AllRows(frames[..n]), frames[n].rows;
      forall y | 0 <= y < |before + last|
        ensures |(before + last)[y]| == w
      {
        if y >= |before| { assert |last[y - |before|]| == w; }
      }
    }
  }

  lemma OneMore(n: nat, h: nat)
    ensures n * h + h == (n + 1) * h
  {}

  /** `vips_arrayjoin` with one image a row, for frames of one size. */
  function JoinDown<P>(frames: seq<Raster<P>>, w: nat, h: nat): (out: Raster<P>)
    requires w > 0 && h > 0 && frames != [] && Uniform(frames, w, h)
    ensures out.Valid() && out.Width() == w && out.Height() == |frames| * h
  {
    RowsUniform(frames, w, h);
    PageInside(0, |frames|, h);
    Raster(AllRows(frames))
  }

  /** Page `i` of a stack. */
  function Page<P>(stack: Raster<P>, height: nat, i: nat): Option<Raster<P>>
    requires stack.Valid()
  {
    Extract(stack, 0, i * height, stack.Width(), height)
  }

  /** The window of frame `i` that a per-frame crop takes. */
  function FrameWindow<P>(resized: Raster<P>, pageHeight: nat, left: int, top: int, w: nat, h: nat, i: nat)
    : Option<Raster<P>>
    requires resized.Valid()
  {
    Extract(resized, left, i * pageHeight + top, w, h)
  }

  predicate NeedsCrop<P>(resized: Raster<P>, pageHeight: nat, tw: nat, th: nat)
    requires resized.Valid()
  {
    pageHeight > th || resized.Width() > tw
  }

  /** The pages of joined frames are the frames. */
  lemma JoinedPage<P>(frames: seq<Raster<P>>, w: nat, h: nat, i: nat)
    requires w > 0 && h > 0 && Uniform(frames, w, h) && i < |frames|
    ensures Page(JoinDown(frames, w, h), h, i) == Some(frames[i])
  {
    hide AllRows;
    var out := JoinDown(frames, w, h);
    RowsOfFrame(frames, w, h, i);
    var page := Window(out, 0, i * h, w, h);
    forall x: nat, y: nat | x < w && y < h
      ensures page.At(x, y) == frames[i].At(x, y)
    {
      assert AllRows(frames)[i * h..i * h + h][y] == out.rows[i * h + y];
    }
    SamePixels(page, frames[i]);
  }

  /** The windows of the first `n` frames, or an error if one of them is outside. */
  function FramesOf<P>(resized: Raster<P>, pageHeight: nat, left: int, top: int, w: nat, h: nat, n: nat)
    : (frames: Option<seq<Raster<P>>>)
    requires resized.Valid()
    ensures frames.Some? ==> |frames.value| == n && Uniform(frames.value, w, h)
    ensures frames.Some? ==> forall i: nat :: i < n ==>
      FrameWindow(resized, pageHeight, left, top, w, h, i) == Some(frames.value[i])
    ensures frames.None? ==> exists i: nat :: i < n && FrameWindow(resized, pageHeight, left, top, w, h, i).None?
  {
    if n == 0 then Some([])
    else
      var before := FramesOf(resized, pageHeight, left, top, w, h, n - 1);
      var last := FrameWindow(resized, pageHeight, left, top, w, h, n - 1);
      if before.Some? && last.Some? then Some(before.value + [last.value]) else None
  }

  /** What the second step of the animated cover resize gives for a resized stack. */
  function CoverCropped<P>(resized: Raster<P>, pages: nat, tw: nat, th: nat): (out: Option<Raster<P>>)
    requires resized.Valid() && pages > 0 && tw > 0 && th > 0
    ensures out.Some? ==> out.value.Valid()
  {
    hide FrameWindow, FramesOf, JoinDown, Window, Uniform;
    var pageHeight := resized.Height() / pages;
    var left, top := HalfOf(resized.Width() - tw), HalfOf(pageHeight - th);
    if !NeedsCrop(resized, pageHeight, tw, th) then Some(resized)
    else if top == 0 then Extract(resized, left, 0, tw, resized.Height())
    else
      var frames := FramesOf(resized, pageHeight, left, top, tw, th, if pages < MAX_JOINED then pages else MAX_JOINED);
      if frames.Some? then Some(JoinDown(frames.value, tw, th)) else None
  }

  /** The second step of the animated cover resize: crop the resized stack to the target, when it is larger. */
  method CoverCrop<P>(resized: Raster<P>, pages: nat, tw: nat, th: nat) returns (out: Option<Raster<P>>)
    requires resized.Valid() && pages > 0 && tw > 0 && th > 0
    ensures out == CoverCropped(resized, pages, tw, th)
  {
    hide FrameWindow, Extract, JoinDown, Uniform;
    var pageHeight := resized.Height() / pages;
    if !NeedsCrop(resized, pageHeight, tw, th) {
      return Some(resized);
    }
    var left, top := HalfOf(resized.Width() - tw), HalfOf(pageHeight - th);
    if top == 0 {
      return Extract(resized, left, 0, tw, resized.Height());
    }
    var count := if pages < MAX_JOINED then pages else MAX_JOINED;
    var frames: seq<Raster<P>> := [];
    for i := 0 to count
      invariant FramesOf(resized, pageHeight, left, top, tw, th, i) == Some(frames)
    {
      var frame := FrameWindow(resized, pageHeight, left, top, tw, th, i);
      if frame.None? {
        assert FramesOf(resized, pageHeight, left, top, tw, th, count).None?;
        return None;
      }
      frames := frames + [frame.value];
    }
    out := Some(JoinDown(frames, tw, th));
  }

  /** Whether a page height cuts a stack into whole pages. */
  predicate CutsEvenly(height: nat, pageHeight: int)
    requires pageHeight != 0
  {
    pageHeight <= height && height % pageHeight == 0
  }

  /** The image handed to the GIF encoder: its height, and the page metadata that libvips keeps with it. */
  class SavedImage {
    const height: nat
    var pageHeight: Option<int>
    var pages: Option<int>

    constructor (height: nat, pageHeight: Option<int>, pages: Option<int>)
      ensures this.height == height && this.pageHeight == pageHeight && this.pages == pages
    {
      this.height, this.pageHeight, this.pages := height, pageHeight, pages;
    }

    /** The check of `encode_gif` before it saves; a page height of zero stops it with a division by zero. */
    method GuardPages() returns (panicked: bool)
      modifies this
      ensures panicked <==> old(pageHeight) == Some(0)
      ensures panicked ==> pageHeight == old(pageHeight) && pages == old(pages)
      ensures !panicked && (old(pageHeight).None? || CutsEvenly(height, old(pageHeight).value)) ==>
        pageHeight == old(pageHeight) && pages == old(pages)
      ensures !panicked && old(pageHeight).Some? && !CutsEvenly(height, old(pageHeight).value) ==>
        pageHeight == Some(height) && pages == Some(1)
      ensures !panicked && height > 0 && pageHeight.Some? ==>
        pageHeight.value != 0 && CutsEvenly(height, pageHeight.value)
    {
      panicked := false;
      if pageHeight.Some? {
        if pageHeight.value > height {
          pageHeight, pages := Some(height), Some(1);
        } else if pageHeight.value == 0 {
          panicked := true;
        } else if height % pageHeight.value != 0 {
          pageHeight, pages := Some(height), Some(1);
        }
      }
    }
  }
}
