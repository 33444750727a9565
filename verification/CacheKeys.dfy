/** The cache key of a request and its rewriting into an object key. */
module CacheKeys {
  import opened Text
  import opened Params
  import opened ParamsRoundTrip
  import opened Negotiate

  /** `<path>|<transforms>|<format>`. */
  function ComputeCacheKey(path: string, transform: string, format: string): string {
    path + ['|'] + transform + ['|'] + format
  }

  // ---------------------------------------------------------------------------
  // Which requests share a key
  // ---------------------------------------------------------------------------

  lemma KeySegments(path: string, transform: string, format: string)
    requires '|' !in transform && '|' !in format
    ensures Split(ComputeCacheKey(path, transform, format), '|') == Split(path, '|') + [transform] + [format]
  {
    SplitAround(path + ['|'] + transform, format, '|');
    SplitAround(path, transform, '|');
    SplitSingle(transform, '|');
    SplitSingle(format, '|');
    hide Split;
  }

  /** With plain segments the key is injective, whatever the path holds. */
  lemma KeyInjective(path: string, transform: string, format: string,
                     path': string, transform': string, format': string)
    requires '|' !in transform && '|' !in format && '|' !in transform' && '|' !in format'
    requires ComputeCacheKey(path, transform, format) == ComputeCacheKey(path', transform', format')
    ensures path == path' && transform == transform' && format == format'
  {
    KeySegments(path, transform, format);
    KeySegments(path', transform', format');
    hide Split;
    LastTwo(Split(path, '|'), transform, format, Split(path', '|'), transform', format');
    assert Join(Split(path, '|'), '|') == path && Join(Split(path', '|'), '|') == path';
  }

  lemma LastTwo(a: seq<string>, x: string, y: string, b: seq<string>, x': string, y': string)
    requires a + [x] + [y] == b + [x'] + [y']
    ensures a == b && x == x' && y == y'
  {
    var s, t := a + [x] + [y], b + [x'] + [y'];
    assert |a| == |b|;
    assert s[|a|] == x && t[|a|] == x' && s[|a| + 1] == y && t[|a| + 1] == y';
    assert s[..|a|] == a && t[..|a|] == b;
  }

  lemma ExplicitSegment(header: Option<string>, requested: Option<OutputFormat>)
    requires IsExplicit(requested)
    ensures CacheFormatSegment(header, requested) == requested.value.Name()
  {}

  lemma SegmentIsPlain(header: Option<string>, requested: Option<OutputFormat>)
    ensures var f := CacheFormatSegment(header, requested);
      f != [] && '|' !in f && '/' !in f
  {
    hide AcceptOf, SupportedNames, Join, Accepted;
    if IsExplicit(requested) {
      hide CacheFormatSegment;
      ExplicitSegment(header, requested);
      FormatNames(requested.value, requested.value);
    } else {
      var names := SupportedNames(Accepted(header), NEGOTIABLE);
      var f := CacheFormatSegment(header, requested);
      forall c | c in f ensures c != '|' && c != '/' {
        if c in Join(names, '+') {
          JoinChars(names, '+', c);
          if c != '+' {
            var i :| 0 <= i < |names| && c in names[i];
            SupportedNamesPlain(Accepted(header), NEGOTIABLE, i);
          }
        }
      }
    }
  }

  lemma {:induction false} SupportedNamesPlain(accept: AcceptResult, formats: seq<OutputFormat>, i: nat)
    requires i < |SupportedNames(accept, formats)|
    ensures '|' !in SupportedNames(accept, formats)[i] && '/' !in SupportedNames(accept, formats)[i]
    decreases |formats|
  {
    FormatNames(formats[0], formats[0]);
    hide OutputFormat.Name, AcceptResult.Supports;
    var head := if accept.Supports(formats[0]) then 1 else 0;
    if i >= head {
      SupportedNamesPlain(accept, formats[1..], i - head);
    }
  }

  // ---------------------------------------------------------------------------
  // Transform segments that hold a bar
  // ---------------------------------------------------------------------------

  lemma {:induction false} EntryPartsStart(d: DrawOverlay, index: nat, order: seq<DrawKey>)
    ensures forall part :: part in EntryParts(d, index, order) ==> DRAW_PREFIX <= part
    decreases |order|
  {
    hide DrawText, DrawPartName;
    if order != [] {
      EntryPartsStart(d, index, order[..|order| - 1]);
      DrawPartNameShape(index, order[|order| - 1]);
    }
  }

  lemma {:induction false} DrawPartsStart(draw: seq<DrawOverlay>)
    ensures forall part :: part in DrawParts(draw) ==> DRAW_PREFIX <= part
    decreases |draw|
  {
    hide EntryParts;
    if draw != [] {
      DrawPartsStart(draw[..|draw| - 1]);
      EntryPartsStart(draw[|draw| - 1], |draw| - 1, DRAW_ORDER);
    }
  }

  /** The part that writes the fit is never the first one. */
  lemma FitPart(p: TransformParams) returns (n: nat)
    ensures 1 <= n < |FieldParts(p, KEY_ORDER)|
    ensures "f" <= FieldParts(p, KEY_ORDER)[n]
  {
    var before, parts := FieldParts(p, KEY_ORDER[..4]), FieldParts(p, KEY_ORDER[..5]);
    FieldPartsPrefix(p, KEY_ORDER, 5);
    FieldPartsMention(p, KEY_ORDER[..4], 2);
    assert KEY_ORDER[..5][..4] == KEY_ORDER[..4] && KEY_ORDER[..5][4] == FitKey;
    hide FieldText;
    n := |before|;
    var part := parts[n];
    assert part[0] == 'f';
  }

  lemma {:induction false} FieldPartsPrefix(p: TransformParams, order: seq<Key>, n: nat)
    requires n <= |order|
    ensures FieldParts(p, order[..n]) <= FieldParts(p, order)
    decreases |order|
  {
    hide FieldText, KeyName;
    if n < |order| {
      var last := |order| - 1;
      FieldPartsPrefix(p, order[..last], n);
      assert order[..last][..n] == order[..n];
    } else {
      assert order[..n] == order;
    }
  }

  predicate Divider(c: char) {
    c == '|' || c == '/'
  }

  predicate FitAt(s: string, i: int) {
    0 <= i < |s| - 1 && s[i] == ',' && s[i + 1] == 'f'
  }

  ghost predicate HoldsFit(s: string) {
    exists i :: FitAt(s, i)
  }

  /** Only overlay parts hold a bar or a slash, and they come last. */
  ghost predicate FitBeforeDividers(s: string) {
    forall i, j :: 0 <= i < j && FitAt(s, j) ==> !Divider(s[i])
  }

  lemma FitShifts(front: string, c: char, rest: string, k: nat)
    ensures FitAt(front + [c] + rest, |front| + 1 + k) == FitAt(rest, k)
  {
    var text := front + [c] + rest;
    assert forall i :: 0 <= i < |rest| ==> text[|front| + 1 + i] == rest[i];
  }

  lemma {:induction false} OverlayText(draws: seq<string>)
    requires forall part :: part in draws ==> "d" <= part && ',' !in part
    ensures draws != [] ==> "d" <= Join(draws, ',')
    ensures !HoldsFit(Join(draws, ','))
  {
    if |draws| > 1 {
      assert forall part :: part in draws[1..] ==> part in draws;
      OverlayText(draws[1..]);
      var first, rest := draws[0], Join(draws[1..], ',');
      NoFitBetween(first, rest);
    } else if |draws| == 1 {
      assert draws[0] in draws;
    }
  }

  lemma NoFitBetween(first: string, rest: string)
    requires ',' !in first && "d" <= rest && !HoldsFit(rest)
    ensures !HoldsFit(first + [','] + rest)
  {
    var text := first + [','] + rest;
    forall i ensures !FitAt(text, i) {
      if i > |first| {
        FitShifts(first, ',', rest, i - |first| - 1);
      } else if i == |first| {
        assert text[i + 1] == rest[0];
      } else if i >= 0 {
        assert text[i] == first[i] && text[i] in first;
      }
    }
  }

  lemma FitInText(parts: seq<string>, n: nat)
    requires 1 <= n < |parts| && "f" <= parts[n]
    ensures HoldsFit(Join(parts, ','))
  {
    assert parts == parts[..n] + parts[n..];
    JoinAppend(parts[..n], parts[n..], ',');
    var before, rest := Join(parts[..n], ','), Join(parts[n..], ',');
    assert "f" <= rest;
    assert FitAt(before + [','] + rest, |before|);
  }

  lemma DividersLast(scalars: seq<string>, draws: seq<string>)
    requires scalars != []
    requires forall part :: part in scalars ==> '|' !in part && '/' !in part
    requires forall part :: part in draws ==> "d" <= part && ',' !in part
    ensures FitBeforeDividers(Join(scalars + draws, ','))
  {
    var front, text := Join(scalars, ','), Join(scalars + draws, ',');
    forall i | 0 <= i < |front| ensures !Divider(front[i]) {
      if Divider(front[i]) { JoinChars(scalars, ',', front[i]); }
    }
    if draws == [] {
      assert scalars + draws == scalars;
    } else {
      JoinAppend(scalars, draws, ',');
      OverlayText(draws);
      var rest := Join(draws, ',');
      forall i, j | 0 <= i < j && FitAt(text, j) ensures !Divider(text[i]) {
        assert j <= |front| by { NoFitAfter(front, rest, j); }
      }
    }
  }

  lemma NoFitAfter(front: string, rest: string, j: int)
    requires !HoldsFit(rest)
    ensures FitAt(front + [','] + rest, j) ==> j <= |front|
  {
    if j > |front| { FitShifts(front, ',', rest, j - |front| - 1); }
  }

  /** In the canonical text the fit is written, and before the first bar or slash. */
  lemma KeyTextShape(p: TransformParams)
    requires Producible(p)
    ensures HoldsFit(CacheKey(p)) && FitBeforeDividers(CacheKey(p))
  {
    hide FieldParts, DrawParts;
    KeySplits(p);
    var scalars, draws := FieldParts(p, KEY_ORDER), DrawParts(p.draw);
    FieldPartsFree(p, KEY_ORDER, '|');
    FieldPartsFree(p, KEY_ORDER, '/');
    DrawPartsStart(p.draw);
    var n := FitPart(p);
    forall part | part in draws ensures "d" <= part && ',' !in part {
      assert part in scalars + draws;
    }
    assert (scalars + draws)[n] == scalars[n];
    hide Producible, Split, FitBeforeDividers, HoldsFit, Join, KEY_ORDER, DRAW_PREFIX;
    FitInText(scalars + draws, n);
    DividersLast(scalars, draws);
  }

  /** A text that holds the fit cannot stand behind a bar or slash of a text that has it before them. */
  lemma NoTail(s: string, front: string, c: char, tail: string)
    requires s == front + [c] + tail && Divider(c) && HoldsFit(tail)
    ensures !FitBeforeDividers(s)
  {
    var i :| FitAt(tail, i);
    FitShifts(front, c, tail, i);
    assert s[|front|] == c;
  }

  /** A cache-key text cannot be the tail of another one after a bar. */
  lemma KeyIsNoTail(p: TransformParams, q: TransformParams, front: string)
    requires Producible(p) && Producible(q)
    ensures CacheKey(p) != front + ['|'] + CacheKey(q)
  {
    hide CacheKey, Producible, HoldsFit, FitBeforeDividers;
    KeyTextShape(p);
    KeyTextShape(q);
    if CacheKey(p) == front + ['|'] + CacheKey(q) {
      NoTail(CacheKey(p), front, '|', CacheKey(q));
    }
  }

  /**
    Key soundness: two requests whose options come from the parser share a cache key exactly when they have
    the same image path, the same options up to `onerror`, `scq` and printed precision, and the same format
    segment. No assumption is made on the paths or on the overlay URLs, which may themselves hold a bar.
   */
  lemma KeyIdentifiesRequest(path: string, p: TransformParams, format: string,
                             path': string, q: TransformParams, format': string)
    requires Producible(p) && Producible(q) && '|' !in format && '|' !in format'
    ensures ComputeCacheKey(path, CacheKey(p), format) == ComputeCacheKey(path', CacheKey(q), format')
      <==> path == path' && Canonical(p) == Canonical(q) && format == format'
  {
    KeysAgree(p, q);
    hide Producible, CacheKey, Canonical;
    if ComputeCacheKey(path, CacheKey(p), format) == ComputeCacheKey(path', CacheKey(q), format') {
      var s, t := path + ['|'] + CacheKey(p), path' + ['|'] + CacheKey(q);
      SameTail(s, format, t, format');
      if |path| < |path'| {
        KeyIsNoTail(p, q, TailFront(path, CacheKey(p), path', CacheKey(q)));
        assert false;
      } else if |path'| < |path| {
        KeyIsNoTail(q, p, TailFront(path', CacheKey(q), path, CacheKey(p)));
        assert false;
      } else {
        assert s[..|path|] == path && t[..|path|] == path';
        assert s[|path| + 1..] == CacheKey(p) && t[|path| + 1..] == CacheKey(q);
      }
    }
  }

  lemma SameTail(s: string, x: string, t: string, y: string)
    requires '|' !in x && '|' !in y && s + ['|'] + x == t + ['|'] + y
    ensures s == t && x == y
  {
    SplitAround(s, x, '|');
    SplitAround(t, y, '|');
    SplitSingle(x, '|');
    SplitSingle(y, '|');
    var a, b := Split(s, '|'), Split(t, '|');
    assert (a + [x])[..|a|] == a && (b + [y])[..|b|] == b;
    assert (a + [x])[|a|] == x && (b + [y])[|b|] == y;
    assert Join(a, '|') == s && Join(b, '|') == t;
  }

  /** What stands before the bar inside the longer transform text when one path is shorter. */
  function TailFront(path: string, x: string, path': string, y: string): (front: string)
    requires path + ['|'] + x == path' + ['|'] + y && |path| < |path'|
    ensures x == front + ['|'] + y
  {
    var s := path + ['|'] + x;
    assert s[|path| + 1..] == x;
    var front := path'[|path| + 1..];
    assert s == path' + ['|'] + y;
    assert s[|path| + 1..] == front + ['|'] + y;
    front
  }

  /** The canonical options text has no bar and no slash when the overlay URLs have none. */
  lemma KeyTextIsPlain(p: TransformParams, c: char)
    requires (c == '|' || c == '/') && UrlsFree(p.draw, c)
    ensures c !in CacheKey(p) && CacheKey(p) != []
  {
    FieldPartsFree(p, KEY_ORDER, c);
    DrawPartsFree(p.draw, c);
    QualityPart(p);
    hide FieldParts, DrawParts;
    assert forall i :: 0 <= i < |KeyParts(p)| ==> c !in KeyParts(p)[i];
    if c in CacheKey(p) {
      JoinChars(KeyParts(p), ',', c);
    }
    KeyNotEmpty(p);
  }

  lemma KeyNotEmpty(p: TransformParams)
    ensures CacheKey(p) != []
  {
    var n := FitPart(p);
    hide FieldParts, DrawParts;
    assert |KeyParts(p)| >= 2;
  }
}
