/** The colour reader on texts of any characters: where its byte positions fall inside one. */
module HexColors {
  import opened Text
  import opened Params

  /** The bytes of a character in UTF-8, by section 3 of RFC 3629. */
  function Width(c: char): (n: nat)
    ensures 1 <= n <= 4
  {
    if c < '\U{80}' then 1 else if c < '\U{800}' then 2 else if c < '\U{10000}' then 3 else 4
  }

  /** `s.len()`. */
  function ByteLength(s: string): nat {
    if s == [] then 0 else Width(s[0]) + ByteLength(s[1..])
  }

  /** The two slices of a text at a byte position, or nothing when the position is inside a character. */
  function SliceAt(s: string, at: nat): (halves: Option<(string, string)>)
    requires at <= ByteLength(s)
    ensures halves.Some? ==> s == halves.value.0 + halves.value.1 && ByteLength(halves.value.0) == at
  {
    if at == 0 then Some(([], s))
    else if Width(s[0]) > at then None
    else
      match SliceAt(s[1..], at - Width(s[0]))
      case None => None
      case Some((a, b)) => Some(([s[0]] + a, b))
  }

  /** What a reader does: an answer, or the panic of a slice. */
  datatype Reading<T> = Answered(value: T) | Panicked

  /** `u8::from_str_radix(_, 16)` on a text of two bytes. */
  function ReadHexPair(s: string): Option<U8> {
    if |s| == 2 then ParseHexByte(s[0], s[1]) else None
  }

  /** `parse_hex_color`, slice by slice. */
  function ReadHexColor(s: string): Reading<Option<Color>> {
    if ByteLength(s) != 6 then Answered(None)
    else
      match SliceAt(s, 2)
      case None => Panicked
      case Some((first, rest)) =>
        LengthAppend(first, rest);
        var red := ReadHexPair(first);
        if red.None? then Answered(None)
        else
          match SliceAt(rest, 2)
          case None => Panicked
          case Some((second, third)) =>
            var green, blue := ReadHexPair(second), ReadHexPair(third);
            if green.None? || blue.None? then Answered(None)
            else Answered(Some(Color(red.value, green.value, blue.value)))
  }

  /** Whether byte position 2 is inside a character. */
  predicate Straddles(s: string) {
    s != [] && (Width(s[0]) > 2 || (Width(s[0]) == 1 && |s| > 1 && Width(s[1]) > 1))
  }

  /**
    The texts that stop the reader: six bytes, and a character across the second byte position or, behind two
    digits that read as the red part, across the fourth.
   */
  predicate HexColorPanics(s: string) {
    && ByteLength(s) == 6
    && (Straddles(s) || (|s| >= 2 && ParseHexByte(s[0], s[1]).Some? && Straddles(s[2..])))
  }

  lemma {:induction false} LengthAppend(a: string, b: string)
    ensures ByteLength(a + b) == ByteLength(a) + ByteLength(b)
  {
    if a == [] {
      assert a + b == b;
    } else {
      assert (a + b)[1..] == a[1..] + b;
      LengthAppend(a[1..], b);
    }
  }

  lemma HexPairWidth(hi: char, lo: char)
    requires ParseHexByte(hi, lo).Some?
    ensures Width(hi) == 1 && Width(lo) == 1
  {}

  lemma SliceStep(s: string, at: nat)
    requires s != [] && 0 < at <= ByteLength(s)
    ensures Width(s[0]) > at ==> SliceAt(s, at).None?
    ensures Width(s[0]) <= at ==>
      SliceAt(s, at) == match SliceAt(s[1..], at - Width(s[0])) {
        case None => None
        case Some((a, b)) => Some(([s[0]] + a, b))
      }
  {}

  lemma SliceStart(s: string)
    ensures SliceAt(s, 0) == Some(([], s))
  {}

  /** The first two bytes: two characters, one of two bytes, or the start of a longer one. */
  lemma FirstSlice(s: string)
    requires s != [] && ByteLength(s) >= 2
    ensures SliceAt(s, 2).None? <==> Straddles(s)
    ensures !Straddles(s) && Width(s[0]) == 1 ==> |s| >= 2 && SliceAt(s, 2) == Some((s[..2], s[2..]))
    ensures !Straddles(s) && Width(s[0]) != 1 ==> SliceAt(s, 2) == Some((s[..1], s[1..]))
  {
    hide SliceAt, ByteLength;
    SliceStep(s, 2);
    if Width(s[0]) == 1 {
      SecondCharacter(s);
    } else if Width(s[0]) == 2 {
      SliceStart(s[1..]);
      assert [s[0]] + [] == s[..1];
    }
  }

  lemma SecondCharacter(s: string)
    requires s != [] && Width(s[0]) == 1 && ByteLength(s) >= 2
    ensures |s| >= 2 && ByteLength(s[1..]) >= 1
    ensures SliceAt(s[1..], 1) == if Width(s[1]) > 1 then None else Some(([s[1]], s[2..]))
    ensures [s[0]] + [s[1]] == s[..2]
  {
    hide SliceAt;
    var tail := s[1..];
    assert tail != [] && tail[0] == s[1] && tail[1..] == s[2..];
    hide ByteLength;
    SliceStep(tail, 1);
    SliceStart(tail[1..]);
    assert [s[1]] + [] == [s[1]];
  }

  /** The first pair and what is left of the text, when it reads as a number. */
  lemma FirstPair(s: string)
    requires ByteLength(s) >= 2
    ensures var slice := SliceAt(s, 2);
      (slice.Some? && ReadHexPair(slice.value.0).Some?) <==> |s| >= 2 && ParseHexByte(s[0], s[1]).Some?
    ensures |s| >= 2 && ParseHexByte(s[0], s[1]).Some? ==>
      && SliceAt(s, 2) == Some((s[..2], s[2..])) && ReadHexPair(s[..2]) == ParseHexByte(s[0], s[1])
      && ByteLength(s[2..]) == ByteLength(s) - 2
  {
    FirstSlice(s);
    if |s| >= 2 && ParseHexByte(s[0], s[1]).Some? {
      HexPairWidth(s[0], s[1]);
      assert s[1..][1..] == s[2..];
    }
    hide SliceAt, ParseHexByte, ByteLength;
  }

  lemma ColorLength(s: string)
    requires ParseHexColor(s).Some?
    ensures ByteLength(s) == 6
  {
    HexPairWidth(s[0], s[1]);
    HexPairWidth(s[2], s[3]);
    HexPairWidth(s[4], s[5]);
    hide ParseHexColor;
    SixWide(s, 6);
  }

  lemma {:induction false} SixWide(s: string, n: nat)
    requires |s| == n && forall i :: 0 <= i < n ==> Width(s[i]) == 1
    ensures ByteLength(s) == n
  {
    if n > 0 { SixWide(s[1..], n - 1); }
  }

  lemma BothPairs(s: string)
    requires ParseHexColor(s).Some?
    ensures |s| == 6 && ParseHexByte(s[0], s[1]).Some?
  {}

  /** The second slice, and the two pairs behind it. */
  lemma RestReads(rest: string)
    requires ByteLength(rest) == 4
    ensures SliceAt(rest, 2).None? <==> Straddles(rest)
    ensures var slice := SliceAt(rest, 2);
      slice.Some? ==>
        ((ReadHexPair(slice.value.0).Some? && ReadHexPair(slice.value.1).Some?)
         <==> |rest| == 4 && ParseHexByte(rest[0], rest[1]).Some? && ParseHexByte(rest[2], rest[3]).Some?)
    ensures var slice := SliceAt(rest, 2);
      (slice.Some? && ReadHexPair(slice.value.0).Some? && ReadHexPair(slice.value.1).Some?) ==>
        && ReadHexPair(slice.value.0) == ParseHexByte(rest[0], rest[1])
        && ReadHexPair(slice.value.1) == ParseHexByte(rest[2], rest[3])
  {
    FirstSlice(rest);
    FirstPair(rest);
    hide SliceAt, ParseHexByte, ByteLength, Straddles;
    if |rest| >= 2 {
      assert |rest[2..]| == |rest| - 2;
    }
  }

  /** The reader answers as on plain characters, or panics, exactly on the texts that the predicate names. */
  lemma ColorReadExactly(s: string)
    ensures ReadHexColor(s) == if HexColorPanics(s) then Panicked else Answered(ParseHexColor(s))
  {
    if ParseHexColor(s).Some? {
      ColorLength(s);
      BothPairs(s);
    }
    if ByteLength(s) == 6 {
      FirstSlice(s);
      FirstPair(s);
      if |s| >= 2 && ParseHexByte(s[0], s[1]).Some? {
        PastRed(s);
      } else {
        hide SliceAt, ParseHexByte, ByteLength, ReadHexPair, Straddles, ParseHexColor;
      }
    }
  }

  lemma PastRed(s: string)
    requires ByteLength(s) == 6 && |s| >= 2 && ParseHexByte(s[0], s[1]).Some?
    ensures ReadHexColor(s) == if HexColorPanics(s) then Panicked else Answered(ParseHexColor(s))
  {
    FirstSlice(s);
    FirstPair(s);
    HexPairWidth(s[0], s[1]);
    var rest := s[2..];
    RestReads(rest);
    assert !Straddles(s);
    hide SliceAt, ParseHexByte, ByteLength, ReadHexPair, Straddles;
    assert |s| == 6 ==> rest[0] == s[2] && rest[1] == s[3] && rest[2] == s[4] && rest[3] == s[5];
  }

  /** On plain characters the reader never panics. */
  lemma PlainColors(s: string)
    requires forall i :: 0 <= i < |s| ==> s[i] < '\U{80}'
    ensures ReadHexColor(s) == Answered(ParseHexColor(s))
  {
    ColorReadExactly(s);
    hide ReadHexColor, ByteLength, ParseHexColor;
  }

  /** A six-byte text with a two-byte character behind its first digit panics, and one without that digit does not. */
  lemma SplitCharacter(s: string, t: string)
    requires s == "1\U{E9}234" && t == "\U{E9}1234"
    ensures ReadHexColor(s) == Panicked && ReadHexColor(t) == Answered(None)
  {
    ColorReadExactly(s);
    ColorReadExactly(t);
    SplitLengths(s, t);
    hide ReadHexColor, ByteLength;
  }

  lemma SplitLengths(s: string, t: string)
    requires s == "1\U{E9}234" && t == "\U{E9}1234"
    ensures ByteLength(s) == 6 && ByteLength(t) == 6
  {
    var tail := "234";
    SixWide(tail, 3);
    assert s == "1\U{E9}" + tail && t == "\U{E9}1" + tail;
    LengthAppend("1\U{E9}", tail);
    LengthAppend("\U{E9}1", tail);
    assert "1\U{E9}"[1..] == "\U{E9}" && "\U{E9}1"[1..] == "1";
  }
}
