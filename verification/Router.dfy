/** Request paths: which ones name an image, and what a path that passes can still contain. */
module Router {
  import opened Text
  import opened Params

  datatype RouterError = PathTraversal | InvalidPath | EmptyPath

  datatype ImageRequest = ImageRequest(imagePath: string, transformString: Option<string>)

  datatype Route = Image(request: ImageRequest) | Health | Metrics | Ready | NotFound

  const IMAGE_PREFIX: string := "image/"

  const NUL: char := '\0'

  /** A `..` component: exact, leading, trailing or between two slashes. */
  predicate ContainsTraversal(path: string) {
    path == ".." || StartsWith(path, "../") || EndsWith(path, "/..") || Contains(path, "/../")
  }

  predicate EncodedAt(path: string, i: int) {
    && 0 <= i && i + 2 < |path| && path[i] == '%'
    && (  (path[i + 1] == '2' && (path[i + 2] == 'e' || path[i + 2] == 'E' || path[i + 2] == 'f' || path[i + 2] == 'F'))
       || (path[i + 1] == '0' && path[i + 2] == '0'))
  }

  /** A percent-encoded dot, slash or null byte somewhere in the path. */
  predicate EncodedTraversal(path: string) {
    exists i | 0 <= i < |path| :: EncodedAt(path, i)
  }

  method ContainsEncodedTraversal(path: string) returns (found: bool)
    ensures found == EncodedTraversal(path)
  {
    var i := 0;
    while i < |path|
      invariant forall j :: j < i ==> !EncodedAt(path, j)
    {
      if path[i] != '%' || i + 2 >= |path| {
        i := i + 1;
        continue;
      }
      var hi, lo := path[i + 1], path[i + 2];
      if hi == '2' && (lo == 'e' || lo == 'E' || lo == 'f' || lo == 'F') {
        assert EncodedAt(path, i);
        return true;
      }
      if hi == '0' && lo == '0' {
        assert EncodedAt(path, i);
        return true;
      }
      i := i + 1;
    }
    found := false;
  }

  function Stripped(path: string): string {
    if path != [] && path[0] == '/' then path[1..] else path
  }

  /** The path without its leading slash, or the reason it is refused. */
  function SanitizePath(path: string): Result<string, RouterError> {
    var stripped := Stripped(path);
    if NUL in path then Err(InvalidPath)
    else if stripped == [] then Err(EmptyPath)
    else if stripped[0] == '/' then Err(InvalidPath)
    else if ContainsTraversal(stripped) || EncodedTraversal(stripped) then Err(PathTraversal)
    else Ok(stripped)
  }

  /** The split of what follows the prefix: options first when the first segment holds a `=`. */
  function Request(rest: string): Route {
    match IndexOf(rest, '/')
    case Some(sep) =>
      var first, remainder := rest[..sep], rest[sep + 1..];
      if '=' in first then
        (if remainder == [] then NotFound else Image(ImageRequest(remainder, Some(first))))
      else Image(ImageRequest(rest, None))
    case None =>
      if '=' in rest then NotFound else Image(ImageRequest(rest, None))
  }

  function Resolve(path: string): Route {
    match SanitizePath(path)
    case Err(_) => NotFound
    case Ok(clean) =>
      if clean == "health" then Health
      else if clean == "metrics" then Metrics
      else if clean == "ready" then Ready
      else if !(IMAGE_PREFIX <= clean) || clean == IMAGE_PREFIX then NotFound
      else Request(clean[|IMAGE_PREFIX|..])
  }

  // ---------------------------------------------------------------------------
  // Traversal is a matter of components
  // ---------------------------------------------------------------------------

  /** A `..` component starts at `a`. */
  predicate DotsAt(path: string, a: int) {
    && 0 <= a && a + 2 <= |path| && path[a] == '.' && path[a + 1] == '.'
    && (a == 0 || path[a - 1] == '/')
    && (a + 2 == |path| || path[a + 2] == '/')
  }

  lemma TraversalMakesDots(path: string) returns (a: int)
    requires ContainsTraversal(path)
    ensures DotsAt(path, a)
  {
    if path == ".." {
      a := 0;
    } else if StartsWith(path, "../") {
      a := 0;
      assert path[2] == "../"[2];
    } else if EndsWith(path, "/..") {
      var tail := path[|path| - 3..];
      assert tail[0] == '/' && tail[1] == '.' && tail[2] == '.';
      a := |path| - 2;
    } else {
      var i :| 0 <= i <= |path| && OccursAt(path, "/../", i);
      var part := path[i..i + |"/../"|];
      assert part[0] == '/' && part[1] == '.' && part[2] == '.' && part[3] == '/';
      a := i + 1;
    }
  }

  lemma DotsAreTraversal(path: string)
    ensures ContainsTraversal(path) <==> exists a :: DotsAt(path, a)
  {
    if ContainsTraversal(path) {
      var _ := TraversalMakesDots(path);
    }
    hide ContainsTraversal;
    forall a | DotsAt(path, a) ensures ContainsTraversal(path) {
      DotsMakeTraversal(path, a);
    }
  }

  lemma DotsMakeTraversal(path: string, a: int)
    requires DotsAt(path, a)
    ensures ContainsTraversal(path)
  {
    if a == 0 {
      if |path| == 2 {
        assert path == "..";
      } else {
        assert path[..3] == "../";
      }
    } else if a + 2 == |path| {
      assert path[|path| - 3..] == "/..";
    } else {
      assert path[a - 1..a - 1 + 4] == "/../";
      assert OccursAt(path, "/../", a - 1);
    }
  }

  lemma {:induction false} SplitFirst(path: string)
    ensures Split(path, '/')[0] == match IndexOf(path, '/') { case None => path case Some(k) => path[..k] }
  {
    if path != [] && path[0] != '/' {
      SplitFirst(path[1..]);
      match IndexOf(path[1..], '/')
      case None => assert path == [path[0]] + path[1..];
      case Some(k) => assert path[..k + 1] == [path[0]] + path[1..][..k];
    }
  }

  lemma FirstIsDots(path: string)
    ensures Split(path, '/')[0] == ".." <==> DotsAt(path, 0)
  {
    SplitFirst(path);
    hide Split;
    match IndexOf(path, '/')
    case None =>
    case Some(k) =>
      if path[..k] == ".." {
        assert path[0] == path[..k][0] && path[1] == path[..k][1];
      }
      assert forall n :: 0 <= n < k ==> path[..k][n] == path[n];
  }

  lemma {:induction false} LaterDots(path: string)
    ensures ".." in Split(path, '/')[1..] <==> exists a :: a >= 1 && DotsAt(path, a)
  {
    if path != [] {
      var tail := path[1..];
      LaterDots(tail);
      FirstIsDots(tail);
      var rest := Split(tail, '/');
      hide DotsAt;
      assert rest == [rest[0]] + rest[1..];
      if path[0] == '/' {
        assert Split(path, '/')[1..] == rest;
        DotsShift(path);
        assert ".." in rest <==> DotsAt(tail, 0) || exists a :: a >= 1 && DotsAt(tail, a);
        if a :| a >= 1 && DotsAt(path, a) { assert DotsAt(tail, a - 1); }
        if a :| a >= 1 && DotsAt(tail, a) { assert DotsAt(path, a + 1); }
        if DotsAt(tail, 0) { assert DotsAt(path, 1); }
      } else {
        assert Split(path, '/')[1..] == rest[1..];
        DotsShift(path);
        if a :| a >= 1 && DotsAt(path, a) { assert DotsAt(tail, a - 1); }
        if a :| a >= 1 && DotsAt(tail, a) { assert DotsAt(path, a + 1); }
      }
    }
  }

  /** How components move when the first character goes. */
  lemma DotsShift(path: string)
    requires path != []
    ensures forall a :: a >= 2 ==> (DotsAt(path, a) <==> DotsAt(path[1..], a - 1))
    ensures forall a :: a >= 1 ==> (DotsAt(path[1..], a) <==> DotsAt(path, a + 1))
    ensures path[0] == '/' ==> (DotsAt(path, 1) <==> DotsAt(path[1..], 0)) && !DotsAt(path, 0)
    ensures path[0] != '/' ==> !DotsAt(path, 1)
  {}

  /** The four-way text check is exactly the question whether some component is `..`. */
  lemma TraversalIsComponent(path: string)
    ensures ContainsTraversal(path) <==> ".." in Split(path, '/')
  {
    DotsAreTraversal(path);
    FirstIsDots(path);
    LaterDots(path);
    hide Split, DotsAt, ContainsTraversal;
    assert Split(path, '/') == [Split(path, '/')[0]] + Split(path, '/')[1..];
    if a :| DotsAt(path, a) {
      assert a == 0 || a >= 1 || a < 0;
      DotsPosition(path, a);
    }
  }

  lemma DotsPosition(path: string, a: int)
    requires DotsAt(path, a)
    ensures a >= 0
  {}

  // ---------------------------------------------------------------------------
  // What resolves, exactly
  // ---------------------------------------------------------------------------

  /** The clean path that a request stands for. */
  function Render(req: ImageRequest): string {
    match req.transformString
    case Some(options) => IMAGE_PREFIX + options + ['/'] + req.imagePath
    case None => IMAGE_PREFIX + req.imagePath
  }

  /** The shape of every request: options hold a `=` and no slash; without options the first segment has none. */
  predicate WellFormed(req: ImageRequest) {
    && req.imagePath != []
    && match req.transformString
       case Some(options) => '=' in options && '/' !in options
       case None => '=' !in Split(req.imagePath, '/')[0]
  }

  lemma RequestRenders(rest: string, req: ImageRequest)
    requires rest != [] && Request(rest) == Image(req)
    ensures WellFormed(req)
    ensures rest == match req.transformString { case Some(o) => o + ['/'] + req.imagePath case None => req.imagePath }
  {
    SplitFirst(rest);
    hide Split;
    match IndexOf(rest, '/')
    case Some(sep) => assert rest == rest[..sep] + ['/'] + rest[sep + 1..];
    case None =>
  }

  lemma RenderedRequests(req: ImageRequest)
    requires WellFormed(req)
    ensures req.transformString.Some? ==> Request(req.transformString.value + ['/'] + req.imagePath) == Image(req)
    ensures req.transformString.None? ==> Request(req.imagePath) == Image(req)
  {
    SplitFirst(req.imagePath);
    hide Split;
    match req.transformString
    case Some(options) =>
      IndexOfKey(options, req.imagePath, '/');
      var rest := options + ['/'] + req.imagePath;
      assert rest[..|options|] == options && rest[|options| + 1..] == req.imagePath;
    case None =>
  }

  /**
    A path resolves to an image request exactly when it passes the sanitiser and, without its leading slash,
    is the rendering of that request. So prefix, options and image path put together give the clean path
    back, and each well-formed request is reached.
   */
  lemma ResolvesExactly(path: string, req: ImageRequest)
    ensures Resolve(path) == Image(req) <==>
      SanitizePath(path).Ok? && WellFormed(req) && Stripped(path) == Render(req)
  {
    if SanitizePath(path).Ok? {
      var clean := Stripped(path);
      assert SanitizePath(path) == Ok(clean);
      ResolveClean(path, clean, req);
    }
  }

  lemma ResolveClean(path: string, clean: string, req: ImageRequest)
    requires SanitizePath(path) == Ok(clean)
    ensures Resolve(path) == Image(req) <==> WellFormed(req) && clean == Render(req)
  {
    hide SanitizePath, WellFormed, Request;
    if Resolve(path) == Image(req) {
      RequestRenders(clean[|IMAGE_PREFIX|..], req);
      assert clean == IMAGE_PREFIX + clean[|IMAGE_PREFIX|..];
      if req.transformString.Some? {
        assert clean == IMAGE_PREFIX + req.transformString.value + ['/'] + req.imagePath;
      }
    }
    if WellFormed(req) && clean == Render(req) {
      RenderedRequests(req);
      var rest := clean[|IMAGE_PREFIX|..];
      PrefixNotWellKnown(clean);
      assert req.imagePath != [] by { NonEmptyImage(req); }
      if req.transformString.Some? {
        assert clean == IMAGE_PREFIX + (req.transformString.value + ['/'] + req.imagePath);
      }
      assert rest == match req.transformString
        case Some(o) => o + ['/'] + req.imagePath
        case None => req.imagePath;
    }
  }

  lemma NonEmptyImage(req: ImageRequest)
    requires WellFormed(req)
    ensures req.imagePath != []
  {}

  lemma PrefixNotWellKnown(clean: string)
    requires IMAGE_PREFIX <= clean
    ensures clean != "health" && clean != "metrics" && clean != "ready"
  {
    assert clean[0] == IMAGE_PREFIX[0];
  }

  // ---------------------------------------------------------------------------
  // Percent-decoding
  // ---------------------------------------------------------------------------

  /** One decoding pass in the sense of section 2.1 of RFC 3986. */
  function PercentDecode(s: string): string {
    if s == [] then []
    else if TripletAt(s) then [TripletChar(s)] + PercentDecode(s[3..])
    else [s[0]] + PercentDecode(s[1..])
  }

  predicate TripletAt(s: string) {
    |s| >= 3 && s[0] == '%' && HexDigit(s[1]).Some? && HexDigit(s[2]).Some?
  }

  function TripletChar(s: string): char
    requires TripletAt(s)
  {
    HexDigitBound(s[1]);
    HexDigitBound(s[2]);
    (16 * HexDigit(s[1]).value + HexDigit(s[2]).value) as char
  }

  /** A percent sign and two digits stand for one character, and any other character for itself. */
  lemma EscapesDecode(d: nat, e: nat, c: char, rest: string)
    requires d < 16 && e < 16 && c != '%'
    ensures PercentDecode(['%', HexChar(d), HexChar(e)] + rest) == [(16 * d + e) as char] + PercentDecode(rest)
    ensures PercentDecode([c] + rest) == [c] + PercentDecode(rest) && PercentDecode("") == ""
  {
    var s, t := ['%', HexChar(d), HexChar(e)] + rest, [c] + rest;
    HexCharReads(d);
    HexCharReads(e);
    hide HexDigit, HexChar;
    assert s[3..] == rest && t[1..] == rest;
  }

  lemma HexCharReads(d: nat)
    requires d < 16
    ensures HexDigit(HexChar(d)) == Some(d)
  {}

  /** The characters that a decoded path must not gain. */
  predicate Guarded(c: char) {
    c == '.' || c == '/' || c == NUL
  }

  lemma TripletIsHarmless(s: string)
    requires TripletAt(s) && !EncodedTraversal(s)
    ensures !Guarded(TripletChar(s))
    ensures !Guarded(s[0]) && !Guarded(s[1]) && !Guarded(s[2])
  {
    assert !EncodedAt(s, 0);
    HexDigitBound(s[1]);
    HexDigitBound(s[2]);
  }

  lemma EncodedSuffix(s: string, n: nat)
    requires n <= |s| && !EncodedTraversal(s)
    ensures !EncodedTraversal(s[n..])
  {
    if EncodedTraversal(s[n..]) {
      var i :| 0 <= i < |s[n..]| && EncodedAt(s[n..], i);
      assert EncodedAt(s, n + i);
    }
  }

  lemma DecodeStep(s: string)
    requires s != []
    ensures TripletAt(s) ==> |s| >= 3 && PercentDecode(s) == [TripletChar(s)] + PercentDecode(s[3..])
    ensures !TripletAt(s) ==> PercentDecode(s) == [s[0]] + PercentDecode(s[1..])
  {}

  lemma TripletLength(s: string)
    requires TripletAt(s)
    ensures |s| >= 3
  {}

  lemma CountAfter(head: string, tail: string, c: char)
    ensures multiset(head + tail)[c] == multiset(head)[c] + multiset(tail)[c]
  {}

  lemma TripletCount(s: string, c: char)
    requires TripletAt(s) && !EncodedTraversal(s) && Guarded(c) && |s| >= 3
    requires multiset(PercentDecode(s[3..]))[c] == multiset(s[3..])[c]
    ensures multiset(PercentDecode(s))[c] == multiset(s)[c]
  {
    hide EncodedTraversal, TripletAt, TripletChar, PercentDecode;
    DecodeStep(s);
    TripletIsHarmless(s);
    CountAfter([TripletChar(s)], PercentDecode(s[3..]), c);
    assert s == [s[0], s[1], s[2]] + s[3..];
    CountAfter([s[0], s[1], s[2]], s[3..], c);
  }

  lemma PlainCount(s: string, c: char)
    requires s != [] && !TripletAt(s) && multiset(PercentDecode(s[1..]))[c] == multiset(s[1..])[c]
    ensures multiset(PercentDecode(s))[c] == multiset(s)[c]
  {
    hide TripletAt, TripletChar, PercentDecode;
    DecodeStep(s);
    CountAfter([s[0]], PercentDecode(s[1..]), c);
    assert s == [s[0]] + s[1..];
    CountAfter([s[0]], s[1..], c);
  }

  /** Decoding a path that passes the check neither adds nor removes a dot, a slash or a null byte. */
  lemma {:induction false} DecodeKeepsGuarded(s: string, c: char)
    requires !EncodedTraversal(s) && Guarded(c)
    ensures multiset(PercentDecode(s))[c] == multiset(s)[c]
    decreases |s|
  {
    if s != [] {
      hide EncodedTraversal, TripletAt, TripletChar;
      if TripletAt(s) {
        TripletLength(s);
        EncodedSuffix(s, 3);
        DecodeKeepsGuarded(s[3..], c);
        TripletCount(s, c);
      } else {
        EncodedSuffix(s, 1);
        DecodeKeepsGuarded(s[1..], c);
        PlainCount(s, c);
      }
    }
  }

  lemma DecodedFirst(s: string, c: char)
    requires !EncodedTraversal(s) && Guarded(c) && PercentDecode(s) != [] && PercentDecode(s)[0] == c
    ensures s[0] == c && PercentDecode(s)[1..] == PercentDecode(s[1..])
  {
    if TripletAt(s) {
      TripletIsHarmless(s);
    }
  }

  /** A component that decodes to `..` was `..` already. */
  lemma DecodedDots(s: string)
    requires !EncodedTraversal(s) && PercentDecode(s) == ".."
    ensures s == ".."
  {
    DecodedFirst(s, '.');
    EncodedSuffix(s, 1);
    DecodedFirst(s[1..], '.');
    assert PercentDecode(s[1..][1..]) == [];
    assert s == [s[0]] + s[1..] && s[1..] == [s[1..][0]] + s[1..][1..];
  }

  lemma TripletSplits(s: string)
    requires TripletAt(s) && !EncodedTraversal(s)
    requires |Split(PercentDecode(s[3..]), '/')| == |Split(s[3..], '/')|
    requires forall i :: 0 <= i < |Split(s[3..], '/')| ==>
      Split(PercentDecode(s[3..]), '/')[i] == PercentDecode(Split(s[3..], '/')[i])
    ensures |Split(PercentDecode(s), '/')| == |Split(s, '/')|
    ensures forall i :: 0 <= i < |Split(s, '/')| ==>
      Split(PercentDecode(s), '/')[i] == PercentDecode(Split(s, '/')[i])
  {
    hide EncodedTraversal, TripletChar, Split, PercentDecode;
    TripletIsHarmless(s);
    SplitTriplet(s);
    DecodeStep(s);
    DecodeStep(Split(s, '/')[0]);
    assert PercentDecode(s)[1..] == PercentDecode(s[3..]);
    SplitNext(PercentDecode(s));
  }

  /** Decoding works component by component, because no slash appears or vanishes. */
  lemma {:induction false} DecodeSplits(s: string)
    requires !EncodedTraversal(s)
    ensures |Split(PercentDecode(s), '/')| == |Split(s, '/')|
    ensures forall i :: 0 <= i < |Split(s, '/')| ==>
      Split(PercentDecode(s), '/')[i] == PercentDecode(Split(s, '/')[i])
    decreases |s|
  {
    if s != [] {
      if TripletAt(s) {
        EncodedSuffix(s, 3);
        DecodeSplits(s[3..]);
        TripletSplits(s);
      } else {
        hide EncodedTraversal, TripletChar;
        EncodedSuffix(s, 1);
        DecodeSplits(s[1..]);
        assert PercentDecode(s)[1..] == PercentDecode(s[1..]);
        SplitPlain(s);
      }
    }
  }

  lemma SplitNext(s: string)
    requires s != [] && s[0] != '/'
    ensures Split(s, '/') == [[s[0]] + Split(s[1..], '/')[0]] + Split(s[1..], '/')[1..]
  {}

  lemma SplitTriplet(s: string)
    requires TripletAt(s) && !Guarded(s[0]) && !Guarded(s[1]) && !Guarded(s[2])
    ensures var first := s[..3] + Split(s[3..], '/')[0];
      && Split(s, '/') == [first] + Split(s[3..], '/')[1..]
      && TripletAt(first) && TripletChar(first) == TripletChar(s) && first[3..] == Split(s[3..], '/')[0]
  {
    hide TripletChar, Split;
    var a, b, c := s[1..], s[1..][1..], s[1..][1..][1..];
    assert c == s[3..];
    SplitNext(b);
    SplitNext(a);
    SplitNext(s);
    var first := s[..3] + Split(c, '/')[0];
    assert first == [s[0]] + ([s[1]] + ([s[2]] + Split(c, '/')[0]));
    assert first[1] == s[1] && first[2] == s[2];
    TripletOfSame(first, s);
  }

  lemma TripletOfSame(s: string, t: string)
    requires TripletAt(s) && TripletAt(t) && s[1] == t[1] && s[2] == t[2]
    ensures TripletChar(s) == TripletChar(t)
  {}

  lemma SplitPlain(s: string)
    requires s != [] && !TripletAt(s)
    ensures s[0] == '/' ==> Split(s, '/') == [[]] + Split(s[1..], '/')
    ensures s[0] != '/' ==>
      var first := [s[0]] + Split(s[1..], '/')[0];
      && Split(s, '/') == [first] + Split(s[1..], '/')[1..]
      && PercentDecode(first) == [s[0]] + PercentDecode(Split(s[1..], '/')[0])
  {
    if s[0] != '/' {
      var head := Split(s[1..], '/')[0];
      var first := [s[0]] + head;
      SplitFirst(s[1..]);
      assert head <= s[1..];
      assert first <= s;
      assert !TripletAt(first);
      assert first[1..] == head;
    }
  }

  /**
    Traversal stays refused after one decoding pass: the image path of a resolved request has no `..`
    component and no null byte, neither as it stands nor percent-decoded once.
   */
  lemma ImagePathStaysInside(path: string, req: ImageRequest)
    requires Resolve(path) == Image(req)
    ensures !ContainsTraversal(req.imagePath) && !ContainsTraversal(PercentDecode(req.imagePath))
    ensures NUL !in req.imagePath && NUL !in PercentDecode(req.imagePath)
  {
    ResolvesExactly(path, req);
    var clean := Stripped(path);
    var n := |clean| - |req.imagePath|;
    assert clean[n..] == req.imagePath;
    assert n > 0 && clean[n - 1] == '/' by {
      assert IMAGE_PREFIX[5] == '/';
    }
    assert NUL !in clean;
    hide Resolve, Render, WellFormed;
    TraversalOfSuffix(clean, n);
    EncodedSuffix(clean, n);
    DecodedStaysInside(req.imagePath);
  }

  lemma TraversalOfSuffix(s: string, n: nat)
    requires 0 < n <= |s| && s[n - 1] == '/' && !ContainsTraversal(s)
    ensures !ContainsTraversal(s[n..])
  {
    DotsAreTraversal(s);
    DotsAreTraversal(s[n..]);
    hide ContainsTraversal;
    forall a ensures !DotsAt(s[n..], a) {
      assert !DotsAt(s, n + a);
    }
  }

  lemma DecodedStaysInside(s: string)
    requires !ContainsTraversal(s) && !EncodedTraversal(s) && NUL !in s
    ensures !ContainsTraversal(PercentDecode(s)) && NUL !in PercentDecode(s)
  {
    TraversalIsComponent(s);
    TraversalIsComponent(PercentDecode(s));
    DecodeSplits(s);
    DecodeKeepsGuarded(s, NUL);
    hide ContainsTraversal, PercentDecode, Split;
    if ".." in Split(PercentDecode(s), '/') {
      var i :| 0 <= i < |Split(PercentDecode(s), '/')| && Split(PercentDecode(s), '/')[i] == "..";
      EncodedComponent(s, i);
      DecodedDots(Split(s, '/')[i]);
    }
  }

  /** A component of a path that passes the check passes it too. */
  lemma {:induction false} EncodedComponent(s: string, i: nat)
    requires !EncodedTraversal(s) && i < |Split(s, '/')|
    ensures !EncodedTraversal(Split(s, '/')[i])
    decreases |s|
  {
    SplitFirst(s);
    var first := Split(s, '/')[0];
    if i == 0 {
      if EncodedTraversal(first) {
        var j :| 0 <= j < |first| && EncodedAt(first, j);
        assert EncodedAt(s, j);
      }
    } else {
      var k := IndexOf(s, '/').value;
      assert s == s[..k] + ['/'] + s[k + 1..];
      SplitHead(s[..k], s[k + 1..], '/');
      EncodedSuffix(s, k + 1);
      EncodedComponent(s[k + 1..], i - 1);
    }
  }

  /** No component is `..`, and nothing in the path is a null byte or an encoded dot, slash or null byte. */
  predicate Harmless(path: string) {
    NUL !in path && ".." !in Split(path, '/') && !EncodedTraversal(path)
  }

  lemma StrippedHarmless(path: string)
    requires Harmless(path)
    ensures !ContainsTraversal(Stripped(path)) && !EncodedTraversal(Stripped(path))
  {
    TraversalIsComponent(path);
    hide Split, ContainsTraversal, EncodedTraversal;
    if path != [] && path[0] == '/' {
      TraversalOfSuffix(path, 1);
      EncodedSuffix(path, 1);
    }
  }

  /**
    When a doubled slash is refused: of the paths with nothing else to refuse, exactly those that start with two
    slashes are invalid. Every other one passes, wherever else it holds a doubled slash.
   */
  lemma DoubleSlashRefused(path: string)
    requires Harmless(path)
    ensures SanitizePath(path) == Err(InvalidPath) <==> "//" <= path
    ensures SanitizePath(path) == Err(EmptyPath) <==> path == "" || path == "/"
    ensures SanitizePath(path) == Ok(Stripped(path)) <==> path != "" && path != "/" && !("//" <= path)
  {
    StrippedHarmless(path);
    hide ContainsTraversal, EncodedTraversal, Split;
  }

  lemma EncodedBehind(front: string, rest: string)
    requires '%' !in front && !EncodedTraversal(rest)
    ensures !EncodedTraversal(front + rest)
  {
    var s := front + rest;
    forall i | 0 <= i < |s| ensures !EncodedAt(s, i) {
      if i < |front| {
        assert s[i] == front[i];
      } else {
        assert s[i..] == rest[i - |front|..];
        assert !EncodedAt(rest, i - |front|);
      }
    }
  }

  lemma HarmlessBehindPrefix(rest: string)
    requires Harmless(rest)
    ensures Harmless(IMAGE_PREFIX + ['/'] + rest)
  {
    var front := IMAGE_PREFIX + ['/'];
    assert '%' !in front && NUL !in front;
    EncodedBehind(front, rest);
    PrefixComponents(rest);
    hide EncodedTraversal, Split;
  }

  lemma PrefixComponents(rest: string)
    ensures Split(IMAGE_PREFIX + ['/'] + rest, '/') == ["image", ""] + Split(rest, '/')
  {
    SplitHead("", rest, '/');
    SplitHead("image", ['/'] + rest, '/');
    hide Split;
    assert "" + ['/'] + rest == ['/'] + rest;
    assert IMAGE_PREFIX + ['/'] + rest == "image" + ['/'] + (['/'] + rest);
  }

  /**
    An absolute path inside a request is not refused: every harmless text after `image//` resolves to an image
    path that starts with a slash.
   */
  lemma EmbeddedAbsolutePath(rest: string)
    requires Harmless(rest)
    ensures Resolve(IMAGE_PREFIX + ['/'] + rest) == Image(ImageRequest(['/'] + rest, None))
  {
    hide SanitizePath, Split, Harmless, WellFormed, Resolve;
    var path := IMAGE_PREFIX + ['/'] + rest;
    assert path[0] == 'i';
    HarmlessBehindPrefix(rest);
    DoubleSlashRefused(path);
    AbsoluteIsWellFormed(rest);
    var req := ImageRequest(['/'] + rest, None);
    assert Render(req) == path;
    ResolvesExactly(path, req);
  }

  lemma AbsoluteIsWellFormed(rest: string)
    ensures WellFormed(ImageRequest(['/'] + rest, None))
  {
    assert Split(['/'] + rest, '/')[0] == [];
  }

  // ---------------------------------------------------------------------------
  // The other routes
  // ---------------------------------------------------------------------------

  /** The three well-known paths, with or without the leading slash, and no other path has their routes. */
  lemma WellKnown(path: string)
    ensures Resolve(path) == Health <==> path == "health" || path == "/health"
    ensures Resolve(path) == Metrics <==> path == "metrics" || path == "/metrics"
    ensures Resolve(path) == Ready <==> path == "ready" || path == "/ready"
  {
    hide SanitizePath, Request;
    RequestIsNoService(path);
    if path == "health" || path == "/health" { ServicePath(path, "health"); }
    if path == "metrics" || path == "/metrics" { ServicePath(path, "metrics"); }
    if path == "ready" || path == "/ready" { ServicePath(path, "ready"); }
    CleanIsStripped(path);
    hide Resolve;
    if path != [] && path[0] == '/' { assert path == "/" + Stripped(path); }
  }

  lemma CleanIsStripped(path: string)
    ensures SanitizePath(path).Ok? ==> SanitizePath(path).value == Stripped(path)
  {
    hide ContainsTraversal, EncodedTraversal;
  }

  lemma RequestIsNoService(path: string)
    ensures forall rest :: Request(rest).NotFound? || Request(rest).Image?
  {}

  lemma ServicePath(path: string, name: string)
    requires name == "health" || name == "metrics" || name == "ready"
    requires path == name || path == "/" + name
    ensures SanitizePath(path) == Ok(name)
  {
    assert Stripped(path) == name;
    assert '.' !in name && '%' !in name && NUL !in name && name[0] != '/';
    DotsAreTraversal(name);
    hide ContainsTraversal;
    forall a ensures !DotsAt(name, a) {}
  }

  /** Why a path is refused, in the order of the checks. */
  lemma RefusedFor(path: string)
    ensures SanitizePath(path) == Err(InvalidPath) <==> NUL in path || "//" <= path
    ensures SanitizePath(path) == Err(EmptyPath) <==> path == "" || path == "/"
    ensures SanitizePath(path) == Err(PathTraversal) <==>
      && NUL !in path && path != "" && path != "/" && !("//" <= path)
      && (".." in Split(Stripped(path), '/') || EncodedTraversal(Stripped(path)))
  {
    TraversalIsComponent(Stripped(path));
    hide ContainsTraversal, EncodedTraversal, Split;
  }
}
