/** The bytes of a hash: or-ed header fields, and a stream of four-bit terms. */
module HashBytes {
  import opened Text
  import opened Bits

  const U32_MAX: nat := 0xFFFF_FFFF

  /** `value.round() as u32`: halves away from zero, saturating at both ends. */
  function RoundToU32(value: real): (n: nat)
    ensures 0.0 <= value <= U32_MAX as real ==> n as real - 0.5 <= value < n as real + 0.5
    ensures n <= U32_MAX
  {
    if value < 0.0 then 0
    else if value >= U32_MAX as real then U32_MAX
    else (value + 0.5).Floor
  }

  /** A rounded value fits its field when the value does. */
  lemma RoundFits(value: real, high: nat)
    requires 0.0 <= value <= high as real && high <= U32_MAX
    ensures RoundToU32(value) <= high
  {}

  /** The header fields; `shorter` counts the luminance terms along the shorter side. */
  datatype Fields = Fields(lDc: nat, pDc: nat, qDc: nat, lScale: nat, shorter: nat, pScale: nat, qScale: nat,
                           landscape: bool, alpha: Option<(nat, nat)>) {
    /** Each value fits the width its field has. */
    predicate Fit() {
      && lDc < 64 && pDc < 64 && qDc < 64 && lScale < 32
      && shorter < 8 && pScale < 64 && qScale < 64
      && (alpha.Some? ==> alpha.value.0 < 16 && alpha.value.1 < 16)
    }
  }

  function Flag(b: bool): nat {
    if b then 1 else 0
  }

  function Header24(f: Fields): nat {
    Or(Or(Or(Or(f.lDc, Shl(f.pDc, 6)), Shl(f.qDc, 12)), Shl(f.lScale, 18)), Shl(Flag(f.alpha.Some?), 23))
  }

  function Header16(f: Fields): nat {
    Or(Or(Or(f.shorter, Shl(f.pScale, 3)), Shl(f.qScale, 9)), Shl(Flag(f.landscape), 15))
  }

  /** A value cast to a byte. */
  function AsByte(v: nat): U8 {
    Powers();
    Low(v, 8)
  }

  lemma {:induction false} OrBelow(a: nat, b: nat, k: nat)
    requires a < Pow2(k) && b < Pow2(k)
    ensures Or(a, b) < Pow2(k)
  {
    if k == 0 {
      assert Or(0, 0) == 0;
    } else {
      OrBelow(a / 2, b / 2, k - 1);
    }
  }

  /** The or of two bytes. */
  function OrByte(a: U8, b: U8): U8 {
    Powers();
    OrBelow(a, b, 8);
    Or(a, b)
  }

  function AlphaByte(dc: nat, scale: nat): U8 {
    OrByte(AsByte(dc), AsByte(Shl(AsByte(scale), 4)))
  }

  function HeaderBytes(f: Fields): (bytes: seq<U8>)
    ensures |bytes| == if f.alpha.Some? then 6 else 5
  {
    var h24, h16 := Header24(f), Header16(f);
    [AsByte(h24), AsByte(Shr(h24, 8)), AsByte(Shr(h24, 16)), AsByte(h16), AsByte(Shr(h16, 8))]
    + if f.alpha.Some? then [AlphaByte(f.alpha.value.0, f.alpha.value.1)] else []
  }

  /** The fields of two header words and an alpha byte, read by position. */
  function FieldsOf(h24: nat, h16: nat, alphaByte: nat): Fields {
    Fields(h24 % 64, h24 / 64 % 64, h24 / 4096 % 64, h24 / 0x4_0000 % 32, h16 % 8, h16 / 8 % 64, h16 / 512 % 64,
           h16 / 0x8000 == 1, if h24 / 0x80_0000 == 1 then Some((alphaByte % 16, alphaByte / 16)) else None)
  }

  function Word24(bytes: seq<U8>): nat
    requires |bytes| >= 5
  {
    bytes[0] as nat + 0x100 * bytes[1] as nat + 0x1_0000 * bytes[2] as nat
  }

  function Word16(bytes: seq<U8>): nat
    requires |bytes| >= 5
  {
    bytes[3] as nat + 0x100 * bytes[4] as nat
  }

  /** The fields a header holds. */
  function ReadFields(bytes: seq<U8>): Fields
    requires |bytes| > 5
  {
    FieldsOf(Word24(bytes), Word16(bytes), bytes[5])
  }

  /** No two fields of the first header word overlap. */
  lemma Header24Adds(f: Fields)
    requires f.Fit()
    ensures Header24(f)
         == f.lDc + 64 * f.pDc + 4096 * f.qDc + 0x4_0000 * f.lScale + 0x80_0000 * Flag(f.alpha.Some?)
  {
    hide Or, Pow2;
    Powers();
    OrDisjoint(f.lDc, f.pDc, 6);
    var two := f.lDc + 64 * f.pDc;
    OrDisjoint(two, f.qDc, 12);
    var three := two + 4096 * f.qDc;
    OrDisjoint(three, f.lScale, 18);
    OrDisjoint(three + 0x4_0000 * f.lScale, Flag(f.alpha.Some?), 23);
  }

  /** Nor do two fields of the second. */
  lemma Header16Adds(f: Fields)
    requires f.Fit()
    ensures Header16(f) == f.shorter + 8 * f.pScale + 512 * f.qScale + 0x8000 * Flag(f.landscape)
  {
    hide Or, Pow2;
    Powers();
    OrDisjoint(f.shorter, f.pScale, 3);
    OrDisjoint(f.shorter + 8 * f.pScale, f.qScale, 9);
    OrDisjoint(f.shorter + 8 * f.pScale + 512 * f.qScale, Flag(f.landscape), 15);
  }

  lemma AlphaByteAdds(dc: nat, scale: nat)
    requires dc < 16 && scale < 16
    ensures AlphaByte(dc, scale) == dc + 16 * scale
  {
    hide Or, Pow2;
    Powers();
    OrDisjoint(dc, scale, 4);
  }

  lemma SplitsTo24(h: nat)
    requires h < 0x100_0000
    ensures AsByte(h) + 0x100 * AsByte(Shr(h, 8)) + 0x1_0000 * AsByte(Shr(h, 16)) == h
  {
    hide Pow2;
    Powers();
  }

  lemma SplitsTo16(h: nat)
    requires h < 0x1_0000
    ensures AsByte(h) + 0x100 * AsByte(Shr(h, 8)) == h
  {
    hide Pow2;
    Powers();
  }

  lemma Digits24(a: nat, b: nat, c: nat, d: nat, e: nat)
    requires a < 64 && b < 64 && c < 64 && d < 32 && e < 2
    ensures var h := a + 64 * b + 4096 * c + 0x4_0000 * d + 0x80_0000 * e;
      && h < 0x100_0000 && h % 64 == a && h / 64 % 64 == b && h / 4096 % 64 == c
      && h / 0x4_0000 % 32 == d && h / 0x80_0000 == e
  {
    var h := a + 64 * b + 4096 * c + 0x4_0000 * d + 0x80_0000 * e;
    assert h / 64 == b + 64 * c + 4096 * d + 0x2_0000 * e;
    assert h / 4096 == c + 64 * d + 2048 * e;
    assert h / 0x4_0000 == d + 32 * e;
  }

  lemma Digits16(a: nat, b: nat, c: nat, e: nat)
    requires a < 8 && b < 64 && c < 64 && e < 2
    ensures var h := a + 8 * b + 512 * c + 0x8000 * e;
      h < 0x1_0000 && h % 8 == a && h / 8 % 64 == b && h / 512 % 64 == c && h / 0x8000 == e
  {
    var h := a + 8 * b + 512 * c + 0x8000 * e;
    assert h / 8 == b + 64 * c + 4096 * e;
    assert h / 512 == c + 64 * e;
  }

  lemma WordsReadBack(f: Fields, rest: seq<U8>)
    requires f.Fit()
    ensures var bytes := HeaderBytes(f) + rest;
      Word24(bytes) == Header24(f) && Word16(bytes) == Header16(f)
  {
    hide Header24, Header16, AsByte, AlphaByte, Shr;
    Header24Adds(f);
    Header16Adds(f);
    Digits24(f.lDc, f.pDc, f.qDc, f.lScale, Flag(f.alpha.Some?));
    Digits16(f.shorter, f.pScale, f.qScale, Flag(f.landscape));
    SplitsTo24(Header24(f));
    SplitsTo16(Header16(f));
  }

  lemma FieldsOfWords(f: Fields, alphaByte: nat)
    requires f.Fit()
    requires f.alpha.Some? ==> alphaByte == f.alpha.value.0 + 16 * f.alpha.value.1
    ensures FieldsOf(Header24(f), Header16(f), alphaByte) == f
  {
    hide Header24, Header16;
    Header24Adds(f);
    Header16Adds(f);
    Digits24(f.lDc, f.pDc, f.qDc, f.lScale, Flag(f.alpha.Some?));
    Digits16(f.shorter, f.pScale, f.qScale, Flag(f.landscape));
  }

  /** Reading a header gives back every field that fit, whatever follows. */
  lemma FieldsReadBack(f: Fields, rest: seq<U8>)
    requires f.Fit() && (f.alpha.Some? || rest != [])
    ensures ReadFields(HeaderBytes(f) + rest) == f
  {
    hide Header24, Header16, AsByte, AlphaByte, Shr, FieldsOf, Word24, Word16;
    var bytes := HeaderBytes(f) + rest;
    WordsReadBack(f, rest);
    if f.alpha.Some? {
      AlphaByteAdds(f.alpha.value.0, f.alpha.value.1);
      assert bytes[5] == AlphaByte(f.alpha.value.0, f.alpha.value.1);
    }
    FieldsOfWords(f, bytes[5]);
  }

  /** The step of the packing loop: `byte |= (v as u8) << shift`, low nibble first. */
  function WithNibble(byte: U8, v: nat, high: bool): U8 {
    OrByte(byte, AsByte(Shl(AsByte(v), if high then 4 else 0)))
  }

  /** Four-bit terms two to a byte, low nibble first. */
  function Packed(terms: seq<nat>): (bytes: seq<U8>)
    ensures |bytes| == (|terms| + 1) / 2
  {
    if terms == [] then []
    else
      var n := |terms| - 1;
      var before := Packed(terms[..n]);
      if n % 2 == 0 then before + [WithNibble(0, terms[n], false)]
      else before[n / 2 := WithNibble(before[n / 2], terms[n], true)]
  }

  function Unpacked(bytes: seq<U8>): (terms: seq<nat>)
    ensures |terms| == 2 * |bytes|
  {
    if bytes == [] then []
    else
      var n := |bytes| - 1;
      Unpacked(bytes[..n]) + [bytes[n] % 16, bytes[n] / 16]
  }

  lemma LowNibble(v: nat)
    requires v < 16
    ensures WithNibble(0, v, false) == v
  {
    hide Or, Pow2;
    Powers();
    OrDisjoint(0, v, 0);
  }

  lemma HighNibble(low: U8, v: nat)
    requires low < 16 && v < 16
    ensures WithNibble(low, v, true) == low + 16 * v
  {
    hide Or, Pow2;
    Powers();
    OrDisjoint(low, v, 4);
  }

  lemma LowStep(bytes: seq<U8>, v: nat)
    requires v < 16
    ensures Unpacked(bytes + [WithNibble(0, v, false)]) == Unpacked(bytes) + [v, 0]
  {
    hide WithNibble;
    LowNibble(v);
    assert (bytes + [v])[..|bytes|] == bytes;
  }

  lemma HighStep(bytes: seq<U8>, terms: seq<nat>, v: nat)
    requires v < 16 && bytes != [] && Unpacked(bytes) == terms + [0]
    ensures Unpacked(bytes[|bytes| - 1 := WithNibble(bytes[|bytes| - 1], v, true)]) == terms + [v]
  {
    hide WithNibble;
    var k := |bytes| - 1;
    var low := bytes[k];
    var all, most := terms + [0], Unpacked(bytes[..k]);
    assert all == most + [low % 16, low / 16];
    assert all[..|terms|] == terms && all[..|terms|] == most + [low % 16];
    assert all[|terms|] == low / 16;
    HighNibble(low, v);
    assert bytes[k := low + 16 * v][..k] == bytes[..k];
  }

  /** Reading the nibbles back gives the terms, and a zero for an unused last nibble. */
  lemma {:induction false} NibblesReadBack(terms: seq<nat>)
    requires forall i :: 0 <= i < |terms| ==> terms[i] < 16
    ensures Unpacked(Packed(terms)) == terms + if |terms| % 2 == 1 then [0] else []
  {
    hide WithNibble, Unpacked;
    if terms == [] {
      NothingPacked();
    } else {
      var n := |terms| - 1;
      var before, v := Packed(terms[..n]), terms[n];
      NibblesReadBack(terms[..n]);
      assert terms == terms[..n] + [v];
      if n % 2 == 0 {
        LowStep(before, v);
      } else {
        HighStep(before, terms[..n], v);
      }
    }
  }

  lemma NothingPacked()
    ensures Packed([]) == [] && Unpacked([]) == []
  {}
}
