/** The base64 text of a hash, in the standard alphabet of section 4 of RFC 4648. */
module Base64 {
  import opened Text
  import opened Bits

  const ALPHABET: string := "ABCDEFGHIJKLMNOPQRSTUVWXYZabcdefghijklmnopqrstuvwxyz0123456789+/"

  const PAD: char := '='

  lemma AlphabetSize()
    ensures |ALPHABET| == 64
  {}

  /** The character of a six-bit value. */
  function Digit(v: nat): (c: char)
    requires v < 64
    ensures c != PAD && Sextet(c) == Some(v)
  {
    AlphabetSize();
    DigitReads(v);
    ALPHABET[v]
  }

  /** The six-bit value of a character of the alphabet. */
  function Sextet(c: char): (v: Option<nat>)
    ensures v.Some? ==> v.value < 64
  {
    if 'A' <= c <= 'Z' then Some((c - 'A') as int)
    else if 'a' <= c <= 'z' then Some((c - 'a') as int + 26)
    else if '0' <= c <= '9' then Some((c - '0') as int + 52)
    else if c == '+' then Some(62)
    else if c == '/' then Some(63)
    else None
  }

  lemma UpperDigits(v: nat)
    requires v < 26
    ensures |ALPHABET| == 64 && ALPHABET[v] == 'A' + v as char
  {
    var upper := "ABCDEFGHIJKLMNOPQRSTUVWXYZ";
    assert ALPHABET[v] == upper[v];
    assert upper[v] == 'A' + v as char;
  }

  lemma LowerDigits(v: nat)
    requires 26 <= v < 52
    ensures |ALPHABET| == 64 && ALPHABET[v] == 'a' + (v - 26) as char
  {}

  lemma LastDigits(v: nat)
    requires 52 <= v < 64
    ensures |ALPHABET| == 64
    ensures ALPHABET[v] == if v < 62 then '0' + (v - 52) as char else if v == 62 then '+' else '/'
  {}

  lemma DigitReads(v: nat)
    requires v < 64
    ensures |ALPHABET| == 64 && ALPHABET[v] != PAD && Sextet(ALPHABET[v]) == Some(v)
  {
    if v < 26 { UpperDigits(v); } else if v < 52 { LowerDigits(v); } else { LastDigits(v); }
  }

  /** Three bytes as one 24-bit number. */
  function Group(b0: U8, b1: U8, b2: U8): (g: nat)
    ensures g == 0x1_0000 * b0 + 0x100 * b1 + b2
  {
    Powers();
    OrDisjoint(Shl(b1, 8), b0, 16);
    assert Shl(b0, 16) + Shl(b1, 8) == Shl(0x100 * b0 + b1, 8);
    OrDisjoint(b2, 0x100 * b0 + b1, 8);
    Or(Or(Shl(b0, 16), Shl(b1, 8)), b2)
  }

  /** The six bits of a group that start at bit `shift`. */
  function SixBits(group: nat, shift: nat): (v: nat)
    ensures v < 64
  {
    Powers();
    Low(Shr(group, shift), 6)
  }

  /** The four characters of one chunk of at most three bytes; missing bytes read as zero. */
  function Quad(chunk: seq<U8>): (text: string)
    requires 1 <= |chunk| <= 3
    ensures |text| == 4
    ensures forall i :: 0 <= i < 4 ==>
      if i <= |chunk| then text[i] != PAD && Sextet(text[i]).Some? else text[i] == PAD
  {
    hide Digit, SixBits, Group, Sextet;
    var group := Group(chunk[0], if |chunk| > 1 then chunk[1] else 0, if |chunk| > 2 then chunk[2] else 0);
    [Digit(SixBits(group, 18)), Digit(SixBits(group, 12)),
     if |chunk| > 1 then Digit(SixBits(group, 6)) else PAD,
     if |chunk| > 2 then Digit(SixBits(group, 0)) else PAD]
  }

  function Encoded(bytes: seq<U8>): (text: string) {
    if bytes == [] then []
    else
      var n := if |bytes| < 3 then |bytes| else 3;
      Quad(bytes[..n]) + Encoded(bytes[n..])
  }

  /** `to_base64`. */
  method ToBase64(bytes: seq<U8>) returns (out: string)
    ensures out == Encoded(bytes)
  {
    hide Quad;
    out := [];
    var at := 0;
    while at < |bytes|
      invariant 0 <= at <= |bytes|
      invariant out + Encoded(bytes[at..]) == Encoded(bytes)
    {
      var end := if at + 3 < |bytes| then at + 3 else |bytes|;
      var chunk := bytes[at..end];
      assert chunk == bytes[at..][..end - at] && bytes[end..] == bytes[at..][end - at..];
      assert Encoded(bytes[at..]) == Quad(chunk) + Encoded(bytes[end..]);
      assert out + (Quad(chunk) + Encoded(bytes[end..])) == out + Quad(chunk) + Encoded(bytes[end..]);
      out := out + Quad(chunk);
      at := end;
    }
  }

  /** What the decoder holds: the bytes so far and the bits not yet emitted. */
  datatype Reader = Reader(out: seq<U8>, acc: nat, bits: nat)

  function Push(r: Reader, v: nat): Reader {
    var acc := Or(Shl(r.acc, 6), v);
    var bits := r.bits + 6;
    if bits < 8 then Reader(r.out, acc, bits)
    else
      Powers();
      Reader(r.out + [Low(Shr(acc, bits - 8), 8)], Low(acc, bits - 8), bits - 8)
  }

  /** Reads up to the first pad; `None` where the source stops on a character outside the alphabet. */
  function DecodedFrom(text: string, r: Reader): Option<seq<U8>> {
    if text == [] || text[0] == PAD then Some(r.out)
    else match Sextet(text[0])
      case None => None
      case Some(v) => DecodedFrom(text[1..], Push(r, v))
  }

  function Decoded(text: string): Option<seq<U8>> {
    DecodedFrom(text, Reader([], 0, 0))
  }

  /** `base64_decode`. */
  method FromBase64(text: string) returns (out: Option<seq<U8>>)
    ensures out == Decoded(text)
  {
    var r := Reader([], 0, 0);
    var i := 0;
    while i < |text| && text[i] != PAD
      invariant 0 <= i <= |text|
      invariant DecodedFrom(text[i..], r) == Decoded(text)
    {
      var v := Sextet(text[i]);
      if v.None? { return None; }
      r := Push(r, v.value);
      assert text[i..][1..] == text[i + 1..];
      i := i + 1;
    }
    out := Some(r.out);
  }

  lemma FirstDigits(b0: U8, b1: U8, b2: U8, g: nat)
    requires g == 0x1_0000 * b0 + 0x100 * b1 + b2
    ensures g / 0x4_0000 % 64 == b0 / 4 && g / 0x1000 % 64 == b0 % 4 * 16 + b1 / 16
  {
    assert g / 0x1000 == b0 * 16 + b1 / 16;
  }

  lemma SecondDigits(b0: U8, b1: U8, b2: U8, g: nat)
    requires g == 0x1_0000 * b0 + 0x100 * b1 + b2
    ensures g / 64 % 64 == b1 % 16 * 4 + b2 / 64 && g % 64 == b2 % 64
  {
    assert g / 64 == b0 * 1024 + b1 * 4 + b2 / 64;
  }

  lemma GroupDigits(b0: U8, b1: U8, b2: U8)
    ensures var g := Group(b0, b1, b2);
      && SixBits(g, 18) == b0 / 4 && SixBits(g, 12) == b0 % 4 * 16 + b1 / 16
      && SixBits(g, 6) == b1 % 16 * 4 + b2 / 64 && SixBits(g, 0) == b2 % 64
  {
    hide Group, Pow2;
    Powers();
    FirstDigits(b0, b1, b2, Group(b0, b1, b2));
    SecondDigits(b0, b1, b2, Group(b0, b1, b2));
  }

  lemma PushFirst(out: seq<U8>, v: nat)
    requires v < 64
    ensures Push(Reader(out, 0, 0), v) == Reader(out, v, 6)
  {
    hide Pow2, Or;
    Powers();
    OrDisjoint(v, 0, 6);
  }

  /** A byte cut at bit `p`, its low part followed by `low`, put together again. */
  lemma Completes(byte: U8, p: nat, q: nat, low: nat)
    requires (p == 4 && q == 16) || (p == 16 && q == 4) || (p == 64 && q == 1)
    requires low < q
    ensures var v := byte % p * q + low;
      v < 64 && (byte / p * 64 + v) / q == byte && (byte / p * 64 + v) % q == low
  {
    if p == 4 {
      assert byte / 4 * 64 + (byte % 4 * 16 + low) == byte * 16 + low;
    } else if p == 16 {
      assert byte / 16 * 64 + (byte % 16 * 4 + low) == byte * 4 + low;
    }
  }

  /** A later digit completes a byte from the bits held and its own high bits. */
  lemma PushNext(out: seq<U8>, byte: U8, high: nat, bits: nat, low: nat)
    requires bits == 6 || bits == 4 || bits == 2
    requires low < Pow2(bits - 2) && byte / Pow2(8 - bits) == high
    ensures var v := byte % Pow2(8 - bits) * Pow2(bits - 2) + low;
      Push(Reader(out, high, bits), v) == Reader(out + [byte], low, bits - 2)
  {
    hide Pow2, Or;
    Powers();
    var p, q := Pow2(8 - bits), Pow2(bits - 2);
    var v := byte % p * q + low;
    Completes(byte, p, q, low);
    OrDisjoint(v, high, 6);
    assert Low(byte, 8) == byte;
  }

  lemma ReadDigit(v: nat, rest: string, r: Reader)
    requires v < 64
    ensures DecodedFrom([Digit(v)] + rest, r) == DecodedFrom(rest, Push(r, v))
  {
    hide Digit, Sextet, Push;
    assert ([Digit(v)] + rest)[1..] == rest;
  }

  /** Reading back the characters of one chunk gives its bytes and leaves no bit behind. */
  lemma QuadReads(chunk: seq<U8>, rest: string, out: seq<U8>)
    requires 1 <= |chunk| <= 3
    ensures |chunk| == 3 ==>
      DecodedFrom(Quad(chunk) + rest, Reader(out, 0, 0)) == DecodedFrom(rest, Reader(out + chunk, 0, 0))
    ensures |chunk| < 3 ==> DecodedFrom(Quad(chunk) + rest, Reader(out, 0, 0)) == Some(out + chunk)
  {
    hide Digit, SixBits, Group, Sextet, Push, Pow2, DecodedFrom;
    Powers();
    var b0, b1, b2 := chunk[0], if |chunk| > 1 then chunk[1] else 0, if |chunk| > 2 then chunk[2] else 0;
    GroupDigits(b0, b1, b2);
    var text := Quad(chunk) + rest;
    var d0, d1 := b0 / 4, b0 % 4 * 16 + b1 / 16;
    assert text == [Digit(d0)] + ([Digit(d1)] + text[2..]);
    ReadDigit(d0, [Digit(d1)] + text[2..], Reader(out, 0, 0));
    PushFirst(out, d0);
    ReadDigit(d1, text[2..], Reader(out, d0, 6));
    PushNext(out, b0, d0, 6, b1 / 16);
    if |chunk| > 1 {
      var d2 := b1 % 16 * 4 + b2 / 64;
      assert text[2..] == [Digit(d2)] + text[3..];
      ReadDigit(d2, text[3..], Reader(out + [b0], b1 / 16, 4));
      PushNext(out + [b0], b1, b1 / 16, 4, b2 / 64);
      if |chunk| > 2 {
        assert text[3..] == [Digit(b2 % 64)] + rest;
        ReadDigit(b2 % 64, rest, Reader(out + [b0] + [b1], b2 / 64, 2));
        PushNext(out + [b0] + [b1], b2, b2 / 64, 2, 0);
        assert out + chunk == out + [b0] + [b1] + [b2];
      } else {
        PadStops(text[3..], Reader(out + [b0] + [b1], b2 / 64, 2));
        assert out + chunk == out + [b0] + [b1];
      }
    } else {
      PadStops(text[2..], Reader(out + [b0], b1 / 16, 4));
      assert out + chunk == out + [b0];
    }
  }

  lemma PadStops(text: string, r: Reader)
    requires text != [] && text[0] == PAD
    ensures DecodedFrom(text, r) == Some(r.out)
  {}

  lemma {:induction false} RoundTripFrom(bytes: seq<U8>, out: seq<U8>)
    ensures DecodedFrom(Encoded(bytes), Reader(out, 0, 0)) == Some(out + bytes)
  {
    hide Quad, Push, Sextet;
    if bytes == [] {
      assert out + bytes == out;
    } else {
      var n := if |bytes| < 3 then |bytes| else 3;
      QuadReads(bytes[..n], Encoded(bytes[n..]), out);
      if n == 3 {
        RoundTripFrom(bytes[3..], out + bytes[..3]);
      }
      assert out + bytes[..n] + bytes[n..] == out + bytes;
      assert n < 3 ==> bytes[..n] == bytes;
    }
  }

  /** Decoding undoes encoding, for every byte string. */
  lemma RoundTrip(bytes: seq<U8>)
    ensures Decoded(Encoded(bytes)) == Some(bytes)
  {
    RoundTripFrom(bytes, []);
    assert [] + bytes == bytes;
  }

  /** How many of the last characters are padding. */
  function PadCount(n: nat): nat {
    if n % 3 == 0 then 0 else 3 - n % 3
  }

  /** Characters of the alphabet, then exactly `pads` pads. */
  predicate WellPadded(text: string, pads: nat) {
    && pads <= |text|
    && forall i :: 0 <= i < |text| ==> if i < |text| - pads then Sextet(text[i]).Some? else text[i] == PAD
  }

  lemma NoPads()
    ensures WellPadded([], 0)
  {}

  lemma QuadShape(chunk: seq<U8>)
    requires 1 <= |chunk| <= 3
    ensures WellPadded(Quad(chunk), 3 - |chunk|)
  {
    hide Sextet;
  }

  lemma WellPaddedAfter(first: string, rest: string, pads: nat)
    requires WellPadded(first, 0) && WellPadded(rest, pads)
    ensures WellPadded(first + rest, pads)
  {
    hide Sextet;
  }

  /** The length is `4 * ceil(n / 3)`, and the padding is exactly the last 0, 2 or 1 characters. */
  lemma {:induction false} Shape(bytes: seq<U8>)
    ensures |Encoded(bytes)| == (|bytes| + 2) / 3 * 4
    ensures WellPadded(Encoded(bytes), PadCount(|bytes|))
  {
    hide Quad, Sextet, WellPadded, Encoded;
    EncodedStep(bytes);
    if bytes == [] {
      NoPads();
    } else if |bytes| < 3 {
      QuadShape(bytes);
    } else {
      QuadShape(bytes[..3]);
      Shape(bytes[3..]);
      WellPaddedAfter(Quad(bytes[..3]), Encoded(bytes[3..]), PadCount(|bytes|));
    }
  }

  lemma EncodedStep(bytes: seq<U8>)
    ensures bytes == [] ==> Encoded(bytes) == []
    ensures 1 <= |bytes| < 3 ==> Encoded(bytes) == Quad(bytes)
    ensures |bytes| >= 3 ==> Encoded(bytes) == Quad(bytes[..3]) + Encoded(bytes[3..])
  {
    hide Quad;
    if 1 <= |bytes| < 3 {
      assert bytes[..|bytes|] == bytes && bytes[|bytes|..] == [];
      assert Encoded([]) == [];
    }
  }

  // ---------------------------------------------------------------------------
  // The examples of section 10 of RFC 4648
  // ---------------------------------------------------------------------------

  lemma DigitIs(v: nat)
    requires v < 64
    ensures Digit(v) == if v < 26 then 'A' + v as char else if v < 52 then 'a' + (v - 26) as char
                        else if v < 62 then '0' + (v - 52) as char else if v == 62 then '+' else '/'
  {
    if v < 26 { UpperDigits(v); } else if v < 52 { LowerDigits(v); } else { LastDigits(v); }
    hide ALPHABET;
  }

  /** The four digits of a chunk, by its bytes. */
  lemma QuadDigits(b0: U8, b1: U8, b2: U8)
    ensures Quad([b0, b1, b2])
         == [Digit(b0 / 4), Digit(b0 % 4 * 16 + b1 / 16), Digit(b1 % 16 * 4 + b2 / 64), Digit(b2 % 64)]
    ensures Quad([b0, b1])
         == [Digit(b0 / 4), Digit(b0 % 4 * 16 + b1 / 16), Digit(b1 % 16 * 4), PAD]
    ensures Quad([b0]) == [Digit(b0 / 4), Digit(b0 % 4 * 16), PAD, PAD]
  {
    hide Digit, Sextet, SixBits, Group;
    GroupDigits(b0, b1, b2);
    GroupDigits(b0, b1, 0);
    GroupDigits(b0, 0, 0);
  }

  lemma OneQuad(bytes: seq<U8>)
    requires 1 <= |bytes| <= 3
    ensures Encoded(bytes) == Quad(bytes)
  {
    hide Quad;
    assert bytes[..|bytes|] == bytes && bytes[|bytes|..] == [];
    assert Encoded([]) == [];
  }

  lemma TwoQuads(a: seq<U8>, b: seq<U8>)
    requires |a| == 3 && 1 <= |b| <= 3
    ensures Encoded(a + b) == Quad(a) + Quad(b)
  {
    OneQuad(b);
    hide Quad;
    assert (a + b)[..3] == a && (a + b)[3..] == b;
  }

  lemma KnownTexts()
    ensures Encoded([]) == "" && Encoded([0x66]) == "Zg==" && Encoded([0x66, 0x6F]) == "Zm8="
    ensures Encoded([0x66, 0x6F, 0x6F]) == "Zm9v" && Encoded([0x66, 0x6F, 0x6F, 0x62]) == "Zm9vYg=="
    ensures Encoded([0x66, 0x6F, 0x6F, 0x62, 0x61]) == "Zm9vYmE="
    ensures Encoded([0x66, 0x6F, 0x6F, 0x62, 0x61, 0x72]) == "Zm9vYmFy"
  {
    assert Encoded([]) == "";
    hide Quad, Encoded;
    FirstQuads();
    OneQuad([0x66]);
    OneQuad([0x66, 0x6F]);
    OneQuad([0x66, 0x6F, 0x6F]);
    LongTexts();
  }

  lemma LongTexts()
    ensures Encoded([0x66, 0x6F, 0x6F, 0x62]) == "Zm9vYg==" && Encoded([0x66, 0x6F, 0x6F, 0x62, 0x61]) == "Zm9vYmE="
    ensures Encoded([0x66, 0x6F, 0x6F, 0x62, 0x61, 0x72]) == "Zm9vYmFy"
  {
    hide Quad, Encoded;
    var foo: seq<U8> := [0x66, 0x6F, 0x6F];
    FirstQuads();
    SecondQuads();
    TwoQuads(foo, [0x62]);
    TwoQuads(foo, [0x62, 0x61]);
    TwoQuads(foo, [0x62, 0x61, 0x72]);
    assert foo + [0x62] == [0x66, 0x6F, 0x6F, 0x62] && foo + [0x62, 0x61] == [0x66, 0x6F, 0x6F, 0x62, 0x61];
    assert foo + [0x62, 0x61, 0x72] == [0x66, 0x6F, 0x6F, 0x62, 0x61, 0x72];
    assert "Zm9v" + "Yg==" == "Zm9vYg==" && "Zm9v" + "YmE=" == "Zm9vYmE=" && "Zm9v" + "YmFy" == "Zm9vYmFy";
  }

  lemma FirstQuads()
    ensures Quad([0x66]) == "Zg==" && Quad([0x66, 0x6F]) == "Zm8=" && Quad([0x66, 0x6F, 0x6F]) == "Zm9v"
  {
    hide Quad, Digit, Sextet, ALPHABET;
    QuadDigits(0x66, 0x6F, 0x6F);
    DigitIs(25);
    DigitIs(32);
    DigitIs(38);
    DigitIs(60);
    DigitIs(61);
    DigitIs(47);
  }

  lemma SecondQuads()
    ensures Quad([0x62]) == "Yg==" && Quad([0x62, 0x61]) == "YmE=" && Quad([0x62, 0x61, 0x72]) == "YmFy"
  {
    hide Quad, Digit, Sextet, ALPHABET;
    QuadDigits(0x62, 0x61, 0x72);
    DigitIs(24);
    DigitIs(32);
    DigitIs(38);
    DigitIs(4);
    DigitIs(5);
    DigitIs(50);
  }
}
