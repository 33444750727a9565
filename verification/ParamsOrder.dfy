/** Parsing does not depend on the order of pairs that set different fields. */
module ParamsOrder {
  import opened Text
  import opened Numbers
  import opened Params
  import opened ParamsFields

  /** The field that a pair sets: a scalar field, or one field of one overlay. Aliases give the same target. */
  datatype Target = FieldTarget(k: Key) | DrawTarget(index: nat, field: DrawKey)

  function TargetOf(pair: string): Option<Target> {
    match IndexOf(pair, '=')
    case None => None
    case Some(eq) =>
      var key := pair[..eq];
      if eq + 1 == |pair| then None
      else if DRAW_PREFIX <= key then DrawTargetOf(key[|DRAW_PREFIX|..])
      else
        match KeyOf(key)
        case Some(k) => Some(FieldTarget(k))
        case None => None
  }

  function DrawTargetOf(rest: string): Option<Target> {
    match IndexOf(rest, '.')
    case None => None
    case Some(dot) =>
      match (ParseUnsigned(rest[..dot], USIZE_LIMIT), DrawKeyOf(rest[dot + 1..]))
      case (Some(index), Some(k)) => if index < MAX_DRAW_ENTRIES then Some(DrawTarget(index, k)) else None
      case _ => None
  }

  function ValueOf(pair: string): string {
    match IndexOf(pair, '=')
    case None => []
    case Some(eq) => pair[eq + 1..]
  }

  /** No field is set by both pairs. */
  predicate Independent(x: string, y: string) {
    TargetOf(x).None? || TargetOf(x) != TargetOf(y)
  }

  /** No field is set twice. */
  predicate SetsEachFieldOnce(pairs: seq<string>) {
    forall i, j :: 0 <= i < j < |pairs| ==> Independent(pairs[i], pairs[j])
  }

  /** Both fail, or both give the same options. */
  predicate Alike(r: Result<TransformParams, ParseError>, s: Result<TransformParams, ParseError>) {
    (r.Err? && s.Err?) || r == s
  }

  // ---------------------------------------------------------------------------
  // The effect of a pair, by target
  // ---------------------------------------------------------------------------

  function PutDraw(draw: seq<DrawOverlay>, index: nat, k: DrawKey, value: string)
    : Result<seq<DrawOverlay>, ParseError>
  {
    var grown := Grown(draw, index + 1);
    match SetDrawField(grown[index], k, value)
    case Ok(entry) => Ok(grown[index := entry])
    case Err(e) => Err(e)
  }

  /** What a pair does to the options, read off its target. */
  function Effect(p: TransformParams, target: Target, value: string): Result<TransformParams, ParseError> {
    match target
    case FieldTarget(k) => SetField(p, k, value)
    case DrawTarget(index, k) =>
      match PutDraw(p.draw, index, k, value)
      case Ok(draw) => Ok(p.(draw := draw))
      case Err(e) => Err(e)
  }

  lemma PairEffect(p: TransformParams, pair: string)
    ensures TargetOf(pair).Some? ==> ApplyPair(p, pair) == Effect(p, TargetOf(pair).value, ValueOf(pair))
    ensures TargetOf(pair).None? && pair != [] ==> ApplyPair(p, pair).Err?
  {
    hide SetField, KeyOf, SetDrawField, DrawKeyOf, Grown, ParseUnsigned, IndexOf;
  }

  lemma SetFieldIgnoresDraw(p: TransformParams, k: Key, value: string, draw: seq<DrawOverlay>)
    ensures SetField(p.(draw := draw), k, value) ==
            match SetField(p, k, value) { case Ok(q) => Ok(q.(draw := draw)) case Err(e) => Err(e) }
  {
    hide ParseQuality, ReadU32, ReadFinite, ReadColor;
  }

  lemma FieldsCommute(p: TransformParams, j: Key, a: string, k: Key, b: string)
    requires j != k && SetField(p, j, a).Ok? && SetField(p, k, b).Ok?
    ensures SetField(SetField(p, j, a).value, k, b).Ok? && SetField(SetField(p, k, b).value, j, a).Ok?
    ensures SetField(SetField(p, j, a).value, k, b) == SetField(SetField(p, k, b).value, j, a)
  {
    var pj, pk := SetField(p, j, a).value, SetField(p, k, b).value;
    SetFieldLocal(p, pj, k, b);
    SetFieldLocal(p, pk, j, a);
    hide SetField, Same;
    var pjk, pkj := SetField(pj, k, b).value, SetField(pk, j, a).value;
    forall i: Key ensures Same(pjk, pkj, i) {
      SetFieldFrame(p, j, a, i);
      SetFieldFrame(p, k, b, i);
      SetFieldFrame(pj, k, b, i);
      SetFieldFrame(pk, j, a, i);
      SameChain(pjk, pj, p, pk, pkj, i);
    }
    SetFieldFrame(p, j, a, j);
    SetFieldFrame(p, k, b, k);
    SetFieldFrame(pj, k, b, j);
    SetFieldFrame(pk, j, a, j);
    SameEverywhere(pjk, pkj);
  }

  /** Agreement carried along one of the three ways a field can reach both ends. */
  lemma SameChain(a: TransformParams, b: TransformParams, c: TransformParams, d: TransformParams,
                  e: TransformParams, i: Key)
    ensures Same(a, b, i) && Same(b, c, i) && Same(d, c, i) && Same(e, d, i) ==> Same(a, e, i)
    ensures Same(a, b, i) && Same(b, e, i) ==> Same(a, e, i)
    ensures Same(d, a, i) && Same(e, d, i) ==> Same(a, e, i)
  {}

  lemma DrawFieldsCommute(d: DrawOverlay, j: DrawKey, a: string, k: DrawKey, b: string)
    requires j != k && SetDrawField(d, j, a).Ok? && SetDrawField(d, k, b).Ok?
    ensures SetDrawField(SetDrawField(d, j, a).value, k, b).Ok?
    ensures SetDrawField(SetDrawField(d, j, a).value, k, b) == SetDrawField(SetDrawField(d, k, b).value, j, a)
  {
    hide ReadFinite, ReadColor;
  }

  function EntryAt(draw: seq<DrawOverlay>, n: nat): DrawOverlay {
    if n < |draw| then draw[n] else DEFAULT_DRAW
  }

  /** Where one overlay field lands, entry by entry. */
  lemma PutDrawAt(draw: seq<DrawOverlay>, i: nat, k: DrawKey, value: string)
    ensures PutDraw(draw, i, k, value).Ok? <==> SetDrawField(EntryAt(draw, i), k, value).Ok?
    ensures PutDraw(draw, i, k, value).Ok? ==>
      var r := PutDraw(draw, i, k, value).value;
      && |r| == (if |draw| < i + 1 then i + 1 else |draw|)
      && forall n: nat :: EntryAt(r, n) ==
           if n == i then SetDrawField(EntryAt(draw, i), k, value).value else EntryAt(draw, n)
  {
    hide SetDrawField, Grown;
    var grown := Grown(draw, i + 1);
    assert forall n :: 0 <= n < |grown| ==> grown[n] == EntryAt(draw, n);
  }

  lemma PutDrawsCommute(draw: seq<DrawOverlay>, i: nat, j: DrawKey, a: string, l: nat, k: DrawKey, b: string)
    requires (i, j) != (l, k) && PutDraw(draw, i, j, a).Ok? && PutDraw(draw, l, k, b).Ok?
    ensures PutDraw(PutDraw(draw, i, j, a).value, l, k, b).Ok?
    ensures PutDraw(PutDraw(draw, i, j, a).value, l, k, b) == PutDraw(PutDraw(draw, l, k, b).value, i, j, a)
  {
    PutDrawAt(draw, i, j, a);
    PutDrawAt(draw, l, k, b);
    if i == l {
      DrawFieldsCommute(EntryAt(draw, i), j, a, k, b);
    }
    hide PutDraw, SetDrawField;
    var di, dl := PutDraw(draw, i, j, a).value, PutDraw(draw, l, k, b).value;
    PutDrawAt(di, l, k, b);
    PutDrawAt(dl, i, j, a);
    SameEntries(PutDraw(di, l, k, b).value, PutDraw(dl, i, j, a).value);
  }

  lemma SameEntries(r: seq<DrawOverlay>, s: seq<DrawOverlay>)
    requires |r| == |s| && forall n: nat :: EntryAt(r, n) == EntryAt(s, n)
    ensures r == s
  {
    forall n | 0 <= n < |r| ensures r[n] == s[n] {
      assert EntryAt(r, n) == EntryAt(s, n);
    }
  }

  // ---------------------------------------------------------------------------
  // Swapping, moving, permuting
  // ---------------------------------------------------------------------------

  /** Whether a pair is accepted does not depend on the options read before it. */
  lemma EffectLocal(p: TransformParams, q: TransformParams, t: Target, value: string)
    ensures Effect(p, t, value).Ok? <==> Effect(q, t, value).Ok?
  {
    match t
    case FieldTarget(k) => SetFieldLocal(p, q, k, value);
    case DrawTarget(i, k) => SetDrawFieldLocal(Grown(p.draw, i + 1)[i], Grown(q.draw, i + 1)[i], k, value);
  }

  lemma EffectsCommute(p: TransformParams, t: Target, a: string, u: Target, b: string)
    requires t != u && Effect(p, t, a).Ok? && Effect(p, u, b).Ok?
    ensures Effect(Effect(p, t, a).value, u, b) == Effect(Effect(p, u, b).value, t, a)
  {
    var pt, pu := Effect(p, t, a).value, Effect(p, u, b).value;
    match (t, u)
    case (FieldTarget(j), FieldTarget(k)) =>
      FieldsCommute(p, j, a, k, b);
    case (FieldTarget(j), DrawTarget(l, k)) =>
      SetFieldFrame(p, j, a, j);
      SetFieldIgnoresDraw(p, j, a, pu.draw);
      hide SetField, PutDraw;
    case (DrawTarget(i, j), FieldTarget(k)) =>
      SetFieldFrame(p, k, b, k);
      SetFieldIgnoresDraw(p, k, b, pt.draw);
      hide SetField, PutDraw;
    case (DrawTarget(i, j), DrawTarget(l, k)) =>
      PutDrawsCommute(p.draw, i, j, a, l, k, b);
      hide SetField, PutDraw;
  }

  lemma PairsCommute(p: TransformParams, x: string, y: string)
    requires Independent(x, y)
    ensures Alike(ApplyPairs(p, [x, y]), ApplyPairs(p, [y, x]))
  {
    PairsOfTwo(p, x, y);
    PairsOfTwo(p, y, x);
    PairEffect(p, x);
    PairEffect(p, y);
    if x == [] || y == [] || (ApplyPair(p, x).Err? && ApplyPair(p, y).Err?) {
    } else if TargetOf(x).None? || TargetOf(y).None? {
      hide Effect, TargetOf;
      if ApplyPair(p, x).Ok? { PairEffect(ApplyPair(p, x).value, y); }
      if ApplyPair(p, y).Ok? { PairEffect(ApplyPair(p, y).value, x); }
    } else {
      var t, u, a, b := TargetOf(x).value, TargetOf(y).value, ValueOf(x), ValueOf(y);
      hide Effect, TargetOf, ApplyPair, ValueOf;
      if ApplyPair(p, x).Ok? {
        PairEffect(ApplyPair(p, x).value, y);
        EffectLocal(p, ApplyPair(p, x).value, u, b);
      }
      if ApplyPair(p, y).Ok? {
        PairEffect(ApplyPair(p, y).value, x);
        EffectLocal(p, ApplyPair(p, y).value, t, a);
      }
      if ApplyPair(p, x).Ok? && ApplyPair(p, y).Ok? {
        EffectsCommute(p, t, a, u, b);
      }
    }
  }

  lemma PairsOfTwo(p: TransformParams, x: string, y: string)
    ensures ApplyPairs(p, [x, y]) ==
            match ApplyPair(p, x) { case Ok(q) => ApplyPair(q, y) case Err(e) => Err(e) }
  {
    hide ApplyPair;
    assert [x, y][1..] == [y];
    match ApplyPair(p, x)
    case Err(_) =>
    case Ok(q) =>
      assert [y][1..] == [];
      match ApplyPair(q, y)
      case Err(_) =>
      case Ok(r) => assert ApplyPairs(r, []) == Ok(r);
  }

  lemma {:induction false} MoveToFront(p: TransformParams, before: seq<string>, x: string, after: seq<string>)
    requires forall y :: y in before ==> Independent(y, x)
    ensures Alike(ApplyPairs(p, before + [x] + after), ApplyPairs(p, [x] + before + after))
    decreases |before|
  {
    hide ApplyPairs, Independent;
    if before == [] {
      assert before + [x] + after == [x] + before + after;
    } else {
      var last := |before| - 1;
      var start, y := before[..last], before[last];
      MoveToFront(p, start, x, [y] + after);
      assert [x] + start + ([y] + after) == [x] + before + after;
      ApplyPairsAppend(p, start, [y, x] + after);
      ApplyPairsAppend(p, start, [x, y] + after);
      assert before + [x] + after == start + ([y, x] + after);
      assert start + [x] + ([y] + after) == start + ([x, y] + after);
      match ApplyPairs(p, start)
      case Err(_) =>
      case Ok(q) =>
        ApplyPairsAppend(q, [y, x], after);
        ApplyPairsAppend(q, [x, y], after);
        PairsCommute(q, y, x);
    }
  }

  /** Where the first element of one list stands in a permutation of it. */
  lemma Occurrence(a: seq<string>, b: seq<string>) returns (before: seq<string>, after: seq<string>)
    requires a != [] && multiset(a) == multiset(b)
    ensures b == before + [a[0]] + after
    ensures multiset(a[1..]) == multiset(before + after)
    ensures forall y :: y in before ==> y in a[1..]
  {
    assert a[0] in multiset(b);
    var n :| 0 <= n < |b| && b[n] == a[0];
    before, after := b[..n], b[n + 1..];
    assert b == before + [a[0]] + after;
    assert a == [a[0]] + a[1..];
    assert multiset(before + after) == multiset(b) - multiset{a[0]};
    forall y | y in before ensures y in a[1..] {
      assert y in multiset(before + after);
      assert y in multiset(a[1..]);
    }
  }

  /** Permuting pairs that set different fields changes neither acceptance nor the options read. */
  lemma {:induction false} PairsPermute(p: TransformParams, a: seq<string>, b: seq<string>)
    requires multiset(a) == multiset(b)
    requires SetsEachFieldOnce(a)
    ensures Alike(ApplyPairs(p, a), ApplyPairs(p, b))
    decreases |a|
  {
    hide Independent, ApplyPairs;
    if a == [] {
      assert |multiset(b)| == 0;
      assert b == [];
    } else {
      var x, rest := a[0], a[1..];
      var before, after := Occurrence(a, b);
      forall y | y in before ensures Independent(y, x) {
        var n :| 0 <= n < |rest| && rest[n] == y;
        assert a[n + 1] == y;
        IndependentSymmetric(x, y);
      }
      MoveToFront(p, before, x, after);
      assert a == [x] + rest && [x] + before + after == [x] + (before + after);
      ApplyPairsAppend(p, [x], rest);
      ApplyPairsAppend(p, [x], before + after);
      if ApplyPairs(p, [x]).Ok? {
        PairsPermute(ApplyPairs(p, [x]).value, rest, before + after);
      }
    }
  }

  lemma IndependentSymmetric(x: string, y: string)
    requires Independent(x, y)
    ensures Independent(y, x)
  {
    hide TargetOf;
  }

  /**
    Two option strings made of the same pairs in another order, no two of which set the same field, either
    both fail to parse or denote the same options and so share their cache key.
   */
  lemma OrderDoesNotMatter(s: string, t: string)
    requires multiset(Split(s, ',')) == multiset(Split(t, ','))
    requires SetsEachFieldOnce(Split(s, ','))
    ensures Parsed(s).Ok? <==> Parsed(t).Ok?
    ensures Parsed(s).Ok? ==> Parsed(s) == Parsed(t) && CacheKey(Parsed(s).value) == CacheKey(Parsed(t).value)
  {
    hide ApplyPairs, Split, CacheKey;
    PairsPermute(DEFAULTS, Split(s, ','), Split(t, ','));
  }
}
