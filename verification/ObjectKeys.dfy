/** The rewriting of a cache key into an object key, and which keys it confuses. */
module ObjectKeys {
  import opened Text
  import opened Params
  import opened ParamsRoundTrip
  import opened CacheKeys

  function Slashed(c: char): char {
    if c == '|' then '/' else c
  }

  predicate EndsInSlash(s: string) {
    s != [] && s[|s| - 1] == '/'
  }

  /** No bar, and no two slashes in a row. */
  predicate Tidy(s: string) {
    && '|' !in s
    && forall i :: 0 < i < |s| ==> !(s[i - 1] == '/' && s[i] == '/')
  }

  /** Bars become slashes, and runs of slashes become one. */
  function Collapse(s: string): (r: string)
    ensures Tidy(r)
    ensures EndsInSlash(r) <==> s != [] && Slashed(s[|s| - 1]) == '/'
  {
    if s == [] then []
    else
      var r := Collapse(s[..|s| - 1]);
      var c := Slashed(s[|s| - 1]);
      if c == '/' && EndsInSlash(r) then r else r + [c]
  }

  /** The object key, or nothing when it would hold two dots in a row. */
  function Sanitized(key: string): Option<string> {
    if Contains(Collapse(key), "..") then None else Some(Collapse(key))
  }

  method SanitizeKey(key: string) returns (r: Option<string>)
    ensures r == Sanitized(key)
  {
    var out := [];
    var prevSlash := false;
    for i := 0 to |key|
      invariant out == Collapse(key[..i])
      invariant prevSlash == EndsInSlash(out)
    {
      assert key[..i + 1][..i] == key[..i];
      var ch := if key[i] == '|' then '/' else key[i];
      if ch == '/' && prevSlash {
        continue;
      }
      out := out + [ch];
      prevSlash := ch == '/';
    }
    assert key[..|key|] == key;
    if Contains(out, "..") {
      r := None;
    } else {
      r := Some(out);
    }
  }

  lemma {:induction false} CollapseTidy(s: string)
    requires Tidy(s)
    ensures Collapse(s) == s
  {
    if s != [] {
      CollapseTidy(s[..|s| - 1]);
      assert s == s[..|s| - 1] + [s[|s| - 1]];
    }
  }

  /** Sanitising an object key again changes nothing. */
  lemma SanitizeIdempotent(key: string)
    requires Sanitized(key).Some?
    ensures Sanitized(Sanitized(key).value) == Sanitized(key)
    ensures Tidy(Sanitized(key).value) && !Contains(Sanitized(key).value, "..")
  {
    CollapseTidy(Collapse(key));
  }

  predicate Plain(s: string) {
    s != [] && '|' !in s && '/' !in s
  }

  /** Two texts are rewritten apart, unless a slash at the end of the first meets one at the start of the second. */
  lemma {:induction false} CollapseAppend(a: string, b: string)
    requires b == [] || !Divider(b[0]) || !EndsInSlash(Collapse(a))
    ensures Collapse(a + b) == Collapse(a) + Collapse(b)
    decreases |b|
  {
    if b == [] {
      assert a + b == a;
    } else {
      var last := |b| - 1;
      CollapseAppend(a, b[..last]);
      assert (a + b)[..|a + b| - 1] == a + b[..last];
      assert (a + b)[|a + b| - 1] == b[last];
    }
  }

  lemma PlainCollapses(s: string)
    requires Plain(s)
    ensures Collapse(s) == s
  {
    CollapseTidy(s);
  }

  /** What a segment of the key and the bar after it contribute to the object key. */
  function SegmentPart(segment: string): (part: string)
    ensures EndsInSlash(part)
  {
    Collapse(segment + ['|'])
  }

  lemma ObjectKeyShape(path: string, transform: string, format: string)
    requires transform != [] && !Divider(transform[0]) && Plain(format)
    ensures Collapse(ComputeCacheKey(path, transform, format)) == SegmentPart(path) + SegmentPart(transform) + format
  {
    PlainCollapses(format);
    var a, b := path + ['|'], transform + ['|'];
    CollapseAppend(a, b);
    CollapseAppend(a + b, format);
    assert a + b + format == ComputeCacheKey(path, transform, format);
  }

  lemma {:induction false} CollapseChars(s: string)
    ensures (exists i :: 0 <= i < |Collapse(s)| && Divider(Collapse(s)[i])) ==>
      exists i :: 0 <= i < |s| && Divider(s[i])
  {
    if s != [] {
      var last := |s| - 1;
      CollapseChars(s[..last]);
      if exists i :: 0 <= i < |Collapse(s[..last])| && Divider(Collapse(s[..last])[i]) {
        var i :| 0 <= i < last && Divider(s[..last][i]);
        assert Divider(s[i]);
      } else if Divider(Slashed(s[last])) {
        assert Divider(s[last]);
      }
    }
  }

  /** One more character that is no fit behind a comma changes neither. */
  lemma ShapeGrows(s: string, c: char)
    requires c == 'f' ==> s == [] || s[|s| - 1] != ','
    ensures HoldsFit(s + [c]) <==> HoldsFit(s)
    ensures FitBeforeDividers(s + [c]) <==> FitBeforeDividers(s)
  {
    var t := s + [c];
    forall i ensures FitAt(t, i) <==> FitAt(s, i) {
      if 0 <= i < |s| - 1 { assert t[i] == s[i] && t[i + 1] == s[i + 1]; }
    }
    assert forall i :: 0 <= i < |s| ==> t[i] == s[i];
  }

  /** A fit at the end: it stands before the dividers when nothing before it is one. */
  lemma FitGrows(s: string)
    requires s != [] && s[|s| - 1] == ','
    ensures HoldsFit(s + ['f'])
    ensures FitBeforeDividers(s + ['f']) <==> forall i :: 0 <= i < |s| ==> !Divider(s[i])
  {
    var t := s + ['f'];
    assert FitAt(t, |s| - 1);
    assert forall i :: 0 <= i < |s| ==> t[i] == s[i];
  }

  /** The rewriting keeps the fit, and keeps it before the bars and slashes. */
  lemma {:induction false} CollapseKeepsShape(s: string)
    ensures HoldsFit(s) ==> HoldsFit(Collapse(s))
    ensures FitBeforeDividers(s) ==> FitBeforeDividers(Collapse(s))
  {
    if s != [] {
      var last := |s| - 1;
      var front, c := s[..last], s[last];
      assert s == front + [c];
      CollapseKeepsShape(front);
      CollapseChars(front);
      CollapseEnd(front);
      hide HoldsFit, FitBeforeDividers;
      if c == 'f' && front != [] && front[last - 1] == ',' {
        FitGrows(front);
        FitGrows(Collapse(front));
      } else {
        ShapeGrows(front, c);
        ShapeGrows(Collapse(front), Slashed(c));
      }
    }
  }

  lemma CollapseEnd(s: string)
    ensures s != [] && Slashed(s[|s| - 1]) != '/' ==> Collapse(s) != [] && Collapse(s)[|Collapse(s)| - 1] == s[|s| - 1]
    ensures Collapse(s) != [] ==> s != [] && Collapse(s)[|Collapse(s)| - 1] == Slashed(s[|s| - 1])
  {}

  lemma BarKeepsShape(s: string)
    requires HoldsFit(s) && FitBeforeDividers(s)
    ensures HoldsFit(s + ['|']) && FitBeforeDividers(s + ['|'])
    ensures s != [] && !Divider(s[0])
  {
    var t := s + ['|'];
    var i :| FitAt(s, i);
    assert FitAt(t, i);
    assert i == 0 ==> s[0] == ',';
    forall i, j | 0 <= i < j && FitAt(t, j) ensures !Divider(t[i]) {
      assert t[j + 1] == s[j + 1];
      assert FitAt(s, j);
    }
  }

  lemma TextPartShape(p: TransformParams)
    requires Producible(p)
    ensures HoldsFit(SegmentPart(CacheKey(p))) && FitBeforeDividers(SegmentPart(CacheKey(p)))
    ensures CacheKey(p) != [] && !Divider(CacheKey(p)[0])
  {
    hide HoldsFit, FitBeforeDividers, Producible, CacheKey, Collapse;
    KeyTextShape(p);
    BarKeepsShape(CacheKey(p));
    CollapseKeepsShape(CacheKey(p) + ['|']);
  }

  lemma BehindFront(front: string, rest: string, i: nat)
    requires i < |front + rest|
    ensures i >= |front| ==> (front + rest)[i] in rest
  {
    assert i >= |front| ==> (front + rest)[i] == rest[i - |front|];
  }

  lemma SameEnd(a: string, x: string, b: string, y: string)
    requires EndsInSlash(a) && EndsInSlash(b) && '/' !in x && '/' !in y && a + x == b + y
    ensures a == b && x == y
  {
    var s := a + x;
    assert s[|a| - 1] == '/' && s[|b| - 1] == '/';
    BehindFront(a, x, |b| - 1);
    BehindFront(b, y, |a| - 1);
    assert s[..|a|] == a && s[..|b|] == b && s[|a|..] == x && s[|b|..] == y;
  }

  lemma LongerFront(a: string, x: string, b: string, y: string) returns (front: string)
    requires |a| < |b| && EndsInSlash(b) && a + x == b + y
    ensures x == front + ['/'] + y
  {
    front := b[|a|..|b| - 1];
    var s := a + x;
    assert s[|a|..] == x && s[|a|..] == b[|a|..] + y;
    assert b[|a|..] == front + ['/'];
  }

  /**
    Which cache keys the rewriting confuses: those with the same format segment whose paths, and whose option
    texts, agree after bars are read as slashes, runs of slashes as one, and a slash at the end is dropped.
    No option text can lend its overlays to the path, because each of them writes its fit before them.
   */
  lemma KeysConfused(path: string, p: TransformParams, format: string,
                     path': string, q: TransformParams, format': string)
    requires Producible(p) && Producible(q) && Plain(format) && Plain(format')
    ensures Collapse(ComputeCacheKey(path, CacheKey(p), format))
         == Collapse(ComputeCacheKey(path', CacheKey(q), format'))
      <==> SegmentPart(path) == SegmentPart(path') && SegmentPart(CacheKey(p)) == SegmentPart(CacheKey(q))
           && format == format'
  {
    TextPartShape(p);
    TextPartShape(q);
    ObjectKeyShape(path, CacheKey(p), format);
    ObjectKeyShape(path', CacheKey(q), format');
    hide CacheKey, Producible, Collapse, ComputeCacheKey, SegmentPart, HoldsFit, FitBeforeDividers;
    PartsConfused(SegmentPart(path), SegmentPart(CacheKey(p)), format,
                  SegmentPart(path'), SegmentPart(CacheKey(q)), format');
  }

  lemma PartsConfused(x: string, t: string, format: string, x': string, t': string, format': string)
    requires EndsInSlash(x) && EndsInSlash(x') && EndsInSlash(t) && EndsInSlash(t') && Plain(format) && Plain(format')
    requires HoldsFit(t) && FitBeforeDividers(t) && HoldsFit(t') && FitBeforeDividers(t')
    ensures x + t + format == x' + t' + format' <==> x == x' && t == t' && format == format'
  {
    hide HoldsFit, FitBeforeDividers;
    if x + t + format == x' + t' + format' {
      SameEnd(x + t, format, x' + t', format');
      if |x| < |x'| {
        var front := LongerFront(x, t, x', t');
        NoTail(t, front, '/', t');
        assert false;
      } else if |x'| < |x| {
        var front := LongerFront(x', t', x, t);
        NoTail(t', front, '/', t);
        assert false;
      } else {
        assert (x + t)[..|x|] == x && (x' + t')[..|x'|] == x';
        assert (x + t)[|x|..] == t && (x' + t')[|x'|..] == t';
      }
    }
  }

  /** A text that the rewriting leaves as it is. */
  predicate Normal(s: string) {
    Tidy(s) && !EndsInSlash(s)
  }

  lemma NormalPart(s: string)
    requires Normal(s)
    ensures SegmentPart(s) == s + ['/']
  {
    CollapseTidy(s);
    assert (s + ['|'])[..|s|] == s;
  }

  lemma NormalParts(s: string, t: string)
    requires Normal(s) && Normal(t) && SegmentPart(s) == SegmentPart(t)
    ensures s == t
  {
    NormalPart(s);
    NormalPart(t);
    assert (s + ['/'])[..|s|] == s && (t + ['/'])[..|t|] == t;
  }

  /** On normal paths and option texts the whole way from request to object key is injective. */
  lemma ObjectKeyInjective(path: string, p: TransformParams, format: string,
                           path': string, q: TransformParams, format': string)
    requires Producible(p) && Producible(q) && Plain(format) && Plain(format')
    requires Normal(path) && Normal(path') && Normal(CacheKey(p)) && Normal(CacheKey(q))
    requires Collapse(ComputeCacheKey(path, CacheKey(p), format))
          == Collapse(ComputeCacheKey(path', CacheKey(q), format'))
    ensures path == path' && Canonical(p) == Canonical(q) && format == format'
  {
    hide Normal, SegmentPart, Collapse, ComputeCacheKey, CacheKey, Canonical, Producible;
    KeysConfused(path, p, format, path', q, format');
    NormalParts(path, path');
    NormalParts(CacheKey(p), CacheKey(q));
    KeysAgree(p, q);
  }

  /** Outside normal texts it is not: these three families of paths or option texts share their object keys. */
  lemma SegmentsConfused(a: string, b: string)
    ensures SegmentPart(a + ['|'] + b) == SegmentPart(a + ['/'] + b)
    ensures SegmentPart(a + ['/', '/'] + b) == SegmentPart(a + ['/'] + b)
    ensures SegmentPart(a + ['/']) == SegmentPart(a)
  {
    CollapseSame(a + ['|'], a + ['/'], b + ['|']);
    assert a + ['|'] + b + ['|'] == a + ['|'] + (b + ['|']);
    assert a + ['/'] + b + ['|'] == a + ['/'] + (b + ['|']);
    assert (a + ['/', '/'])[..|a| + 1] == a + ['/'];
    CollapseSame(a + ['/', '/'], a + ['/'], b + ['|']);
    assert a + ['/', '/'] + b + ['|'] == a + ['/', '/'] + (b + ['|']);
    assert (a + ['/'] + ['|'])[..|a| + 1] == a + ['/'];
    assert (a + ['/'])[..|a|] == a && (a + ['|'])[..|a|] == a;
  }

  lemma {:induction false} CollapseSame(a: string, b: string, c: string)
    requires Collapse(a) == Collapse(b)
    ensures Collapse(a + c) == Collapse(b + c)
    decreases |c|
  {
    if c == [] {
      assert a + c == a && b + c == b;
    } else {
      var last := |c| - 1;
      CollapseSame(a, b, c[..last]);
      assert (a + c)[..|a + c| - 1] == a + c[..last];
      assert (b + c)[..|b + c| - 1] == b + c[..last];
    }
  }

  // ---------------------------------------------------------------------------
  // Overlay URLs that hold bars
  // ---------------------------------------------------------------------------

  /** The options with one overlay that sets nothing but its URL. */
  function Overlaid(p: TransformParams, url: string): TransformParams {
    p.(draw := [DEFAULT_DRAW.(url := Some(url))])
  }

  lemma {:induction false} FieldPartsIgnoreDraw(p: TransformParams, draw: seq<DrawOverlay>, order: seq<Key>)
    ensures FieldParts(p.(draw := draw), order) == FieldParts(p, order)
    decreases |order|
  {
    if order != [] {
      FieldPartsIgnoreDraw(p, draw, order[..|order| - 1]);
      hide KeyName;
      assert FieldText(p.(draw := draw), order[|order| - 1]) == FieldText(p, order[|order| - 1]);
    }
  }

  lemma {:induction false} UrlParts(url: string, n: nat)
    requires 1 <= n <= |DRAW_ORDER|
    ensures EntryParts(DEFAULT_DRAW.(url := Some(url)), 0, DRAW_ORDER[..n]) == [DrawPartName(0, DrawUrl) + ['='] + url]
  {
    hide DrawPartName;
    assert DRAW_ORDER[..n][..n - 1] == DRAW_ORDER[..n - 1];
    if n > 1 {
      UrlParts(url, n - 1);
      assert DRAW_ORDER[n - 1] != DrawUrl;
    }
  }

  lemma OverlaidText(p: TransformParams, url: string)
    ensures CacheKey(Overlaid(p, url))
      == Join(FieldParts(p, KEY_ORDER), ',') + [','] + DrawPartName(0, DrawUrl) + ['='] + url
  {
    hide FieldParts, DrawParts, DrawPartName, KEY_ORDER;
    var draw := Overlaid(p, url).draw;
    FieldPartsIgnoreDraw(p, draw, KEY_ORDER);
    OneDrawPart(url);
    QualityPart(p);
    JoinAppend(FieldParts(p, KEY_ORDER), [DrawPartName(0, DrawUrl) + ['='] + url], ',');
  }

  lemma OneDrawPart(url: string)
    ensures DrawParts([DEFAULT_DRAW.(url := Some(url))]) == [DrawPartName(0, DrawUrl) + ['='] + url]
  {
    UrlParts(url, |DRAW_ORDER|);
    assert DRAW_ORDER[..|DRAW_ORDER|] == DRAW_ORDER;
    hide EntryParts, DrawPartName, DRAW_ORDER;
    var draw := [DEFAULT_DRAW.(url := Some(url))];
    assert draw[..0] == [];
  }

  /** Two such options are rewritten alike exactly when their URLs are. */
  lemma OverlaysConfused(p: TransformParams, url: string, url': string)
    ensures SegmentPart(CacheKey(Overlaid(p, url))) == SegmentPart(CacheKey(Overlaid(p, url')))
      <==> SegmentPart(url) == SegmentPart(url')
  {
    OverlaidText(p, url);
    OverlaidText(p, url');
    hide CacheKey, FieldParts, DrawPartName;
    SamePrefix(Join(FieldParts(p, KEY_ORDER), ',') + [','] + DrawPartName(0, DrawUrl) + ['='], url, url');
  }

  lemma SamePrefix(front: string, url: string, url': string)
    requires front != [] && !Divider(front[|front| - 1])
    ensures SegmentPart(front + url) == SegmentPart(front + url') <==> SegmentPart(url) == SegmentPart(url')
  {
    assert !EndsInSlash(Collapse(front));
    CollapseAppend(front, url + ['|']);
    CollapseAppend(front, url' + ['|']);
    assert front + url + ['|'] == front + (url + ['|']);
    assert front + url' + ['|'] == front + (url' + ['|']);
    hide Collapse;
    var x, y, z := Collapse(front), SegmentPart(url), SegmentPart(url');
    assert (x + y)[|x|..] == y && (x + z)[|x|..] == z;
  }

  /** `draw.0.url=x|y` and `draw.0.url=x||y` are different options with different cache keys and one object key. */
  lemma BarsInUrl(path: string, format: string)
    requires Plain(format)
    ensures var p, q := Overlaid(DEFAULTS, "x|y"), Overlaid(DEFAULTS, "x||y");
      && ComputeCacheKey(path, CacheKey(p), format) != ComputeCacheKey(path, CacheKey(q), format)
      && Collapse(ComputeCacheKey(path, CacheKey(p), format)) == Collapse(ComputeCacheKey(path, CacheKey(q), format))
  {
    var p, q := Overlaid(DEFAULTS, "x|y"), Overlaid(DEFAULTS, "x||y");
    assert Producible(p) && Producible(q);
    hide Collapse, CacheKey, Producible;
    OverlaidText(DEFAULTS, "x|y");
    OverlaidText(DEFAULTS, "x||y");
    LongerUrl();
    OverlaysConfused(DEFAULTS, "x|y", "x||y");
    KeysConfused(path, p, format, path, q, format);
    hide Overlaid, DrawPartName, Join, FieldParts, KEY_ORDER;
    assert |CacheKey(p)| + 1 == |CacheKey(q)|;
  }

  lemma LongerUrl()
    ensures SegmentPart("x|y") == SegmentPart("x||y")
  {
    hide Collapse;
    SegmentsConfused("x", "y");
    SegmentsConfused("x", "|y");
    assert "x" + ['|'] + "y" == "x|y" && "x" + ['/'] + "|y" == "x/|y" && "x" + ['|'] + "|y" == "x||y";
    CollapseSame("x/|", "x/", "y|") by { DoubleDivider(); }
    assert "x/|" + "y|" == "x/|y" + ['|'] && "x/" + "y|" == "x/y" + ['|'] && "x" + ['/'] + "y" == "x/y";
  }

  lemma DoubleDivider()
    ensures Collapse("x/|") == Collapse("x/")
  {
    assert "x/|"[..2] == "x/";
  }
}
