/** Strings as the source splits, joins and searches them, the two result types it returns, and bytes. */
module Text {
  type U8 = n: nat | n < 256

  datatype Option<+T> = None | Some(value: T)

  datatype Result<+T, +E> = Ok(value: T) | Err(error: E) {
    predicate IsFailure() {
      Err?
    }

    function PropagateFailure<U>(): Result<U, E>
      requires Err?
    {
      Err(error)
    }

    function Extract(): T
      requires Ok?
    {
      value
    }
  }

  /** `ok_or(error)`. */
  function OrErr<T, E>(v: Option<T>, error: E): Result<T, E> {
    match v
    case Some(x) => Ok(x)
    case None => Err(error)
  }

  /** `s.split(sep)`: always at least one part, and no part holds the separator. */
  function Split(s: string, sep: char): (parts: seq<string>)
    ensures |parts| >= 1
    ensures forall p :: p in parts ==> sep !in p
    ensures Join(parts, sep) == s
  {
    if s == [] then [[]]
    else
      var rest := Split(s[1..], sep);
      if s[0] == sep then
        assert s == [] + [sep] + Join(rest, sep);
        [[]] + rest
      else
        var parts := [[s[0]] + rest[0]] + rest[1..];
        assert parts[1..] == rest[1..];
        parts
  }

  /** `parts.join(sep)`. */
  function Join(parts: seq<string>, sep: char): string {
    if parts == [] then []
    else if |parts| == 1 then parts[0]
    else parts[0] + [sep] + Join(parts[1..], sep)
  }

  /** `s.find(c)`: the position of the first occurrence. */
  function IndexOf(s: string, c: char): (pos: Option<nat>)
    ensures pos.None? <==> c !in s
    ensures pos.Some? ==> pos.value < |s| && s[pos.value] == c && c !in s[..pos.value]
  {
    if s == [] then None
    else if s[0] == c then Some(0)
    else
      match IndexOf(s[1..], c)
      case None => None
      case Some(k) => assert s[..k + 1] == [s[0]] + s[1..][..k]; Some(k + 1)
  }

  /** Whether `pat` occurs in `s` as a contiguous substring. */
  predicate Contains(s: string, pat: string) {
    exists i | 0 <= i <= |s| :: OccursAt(s, pat, i)
  }

  predicate OccursAt(s: string, pat: string, i: int) {
    0 <= i <= |s| - |pat| && s[i..i + |pat|] == pat
  }

  predicate StartsWith(s: string, pat: string) {
    pat <= s
  }

  predicate EndsWith(s: string, pat: string) {
    |pat| <= |s| && s[|s| - |pat|..] == pat
  }

  /** The white space that a header value can hold around a token. */
  predicate IsSpace(c: char) {
    c == ' ' || c == '\t' || c == '\n' || c == '\r'
  }

  function TrimStart(s: string): string {
    if s != [] && IsSpace(s[0]) then TrimStart(s[1..]) else s
  }

  function TrimEnd(s: string): string {
    if s != [] && IsSpace(s[|s| - 1]) then TrimEnd(s[..|s| - 1]) else s
  }

  function Trim(s: string): string {
    TrimEnd(TrimStart(s))
  }

  lemma {:induction false} SplitHead(head: string, tail: string, sep: char)
    requires sep !in head
    ensures Split(head + [sep] + tail, sep) == [head] + Split(tail, sep)
  {
    var s := head + [sep] + tail;
    if head == [] {
      assert s[1..] == tail;
    } else {
      assert s[1..] == head[1..] + [sep] + tail;
      SplitHead(head[1..], tail, sep);
      assert head == [head[0]] + head[1..];
    }
  }

  /** Splitting a concatenation around one separator. */
  lemma {:induction false} SplitAround(a: string, b: string, sep: char)
    ensures Split(a + [sep] + b, sep) == Split(a, sep) + Split(b, sep)
  {
    var s := a + [sep] + b;
    if a == [] {
      assert s[1..] == b;
    } else {
      assert s[1..] == a[1..] + [sep] + b;
      SplitAround(a[1..], b, sep);
    }
  }

  lemma SplitStep(s: string, sep: char)
    requires s != []
    ensures s[0] == sep ==> Split(s, sep) == [[]] + Split(s[1..], sep)
    ensures s[0] != sep ==> Split(s, sep) == [[s[0]] + Split(s[1..], sep)[0]] + Split(s[1..], sep)[1..]
  {}

  lemma {:induction false} SplitSingle(s: string, sep: char)
    requires sep !in s
    ensures Split(s, sep) == [s]
  {
    if s != [] {
      SplitSingle(s[1..], sep);
      assert s == [s[0]] + s[1..];
    }
  }

  /** Splitting undoes joining: the parts come back one by one. */
  lemma {:induction false} SplitJoin(parts: seq<string>, sep: char)
    requires parts != []
    requires forall p :: p in parts ==> sep !in p
    ensures Split(Join(parts, sep), sep) == parts
  {
    if |parts| == 1 {
      SplitSingle(parts[0], sep);
    } else {
      SplitJoin(parts[1..], sep);
      SplitHead(parts[0], Join(parts[1..], sep), sep);
      assert parts == [parts[0]] + parts[1..];
    }
  }

  /** Joining is injective on lists of separator-free, non-empty strings. */
  lemma JoinInjective(a: seq<string>, b: seq<string>, sep: char)
    requires forall p :: p in a + b ==> sep !in p && p != []
    requires Join(a, sep) == Join(b, sep)
    ensures a == b
  {
    assert forall i :: 0 <= i < |a| ==> a[i] in a + b;
    assert forall i :: 0 <= i < |b| ==> b[i] in a + b;
    if a != [] && b != [] {
      SplitJoin(a, sep);
      SplitJoin(b, sep);
    }
  }

  lemma {:induction false} JoinAppend(a: seq<string>, b: seq<string>, sep: char)
    requires a != [] && b != []
    ensures Join(a + b, sep) == Join(a, sep) + [sep] + Join(b, sep)
  {
    if |a| == 1 {
      assert (a + b)[1..] == b;
    } else {
      assert (a + b)[1..] == a[1..] + b;
      JoinAppend(a[1..], b, sep);
    }
  }

  /** Every character of a part is in the text. */
  lemma {:induction false} SplitPartChars(s: string, sep: char, i: nat, c: char)
    requires i < |Split(s, sep)| && c !in s
    ensures c !in Split(s, sep)[i]
  {
    if s != [] {
      SplitStep(s, sep);
      hide Split;
      var rest := Split(s[1..], sep);
      if s[0] == sep {
        if i > 0 { SplitPartChars(s[1..], sep, i - 1, c); }
      } else {
        SplitPartChars(s[1..], sep, i, c);
      }
    }
  }

  /** Every character of a joined string is the separator or comes from a part. */
  lemma {:induction false} JoinChars(parts: seq<string>, sep: char, c: char)
    requires c in Join(parts, sep)
    ensures c == sep || exists i :: 0 <= i < |parts| && c in parts[i]
  {
    if |parts| == 1 {
      assert c in parts[0];
    } else if |parts| > 1 {
      if c in parts[0] {
      } else if c != sep {
        JoinChars(parts[1..], sep, c);
        var i :| 0 <= i < |parts[1..]| && c in parts[1..][i];
        assert c in parts[i + 1];
      }
    }
  }

  /** The first '=' of `key + "=" + value` ends the key. */
  lemma IndexOfKey(key: string, value: string, c: char)
    requires c !in key
    ensures IndexOf(key + [c] + value, c) == Some(|key|)
  {
    var s := key + [c] + value;
    assert s[|key|] == c;
    assert forall k :: 0 <= k < |key| ==> s[k] == key[k];
    assert forall k :: |key| < k <= |s| ==> s[..k][|key|] == c;
  }
}
