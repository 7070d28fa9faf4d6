/** The text of every append of the compressor, in the words of the decompressor. */
module ShoxTexts {
  import opened Bitwise
  import opened ShoxTables
  import opened ShoxBits
  import opened ShoxDecoder
  import opened ShoxCodes
  import opened ShoxEncoder
  import opened ShoxChars

  predicate InAlphabet(c: char) {
    ' ' <= c <= '~' || c == '\t' || c == '\n' || c == '\r'
  }

  lemma ShrNine(code: nat)
    ensures Shr(code, 9) == code / 512
  {
    assert Shr(code, 9) == Shr(code / 8, 6) == Shr(code / 64, 3);
  }

  /** A code outside 14336 .. 14847 is written whole in both modes. */
  lemma Unstripped(code: nat, clen: nat, set2: bool)
    requires clen <= 16 && (set2 ==> code / 512 != 0x1C)
    ensures CodeBits(code, clen, set2) == TopBits(code, clen)
  {
    ShrNine(code);
  }

  /** A left-justified number is its own text. */
  lemma RawText(x: nat, n: nat)
    requires n <= 16
    ensures TopBits(Shl(x, 16 - n), n) == Digits(x, n)
  {
    hide Shl, Shr;
    JoinText(x, n, 0, 0);
    assert Shr(0, n) == 0 by { ShrBound(0, n); }
    assert Digits(x, n) + TopBits(0, 0) == Digits(x, n);
  }

  // ----- marks -----

  lemma MarkTexts(set2: bool)
    ensures CodeBits(8192, 4, set2) == SetWord(SET1)
    ensures CodeBits(8704, 8, set2) == SetWord(SET1) + SetWord(SET1)
    ensures CodeBits(14336, 7, false) == SetWord(SET2)
  {
    hide Shl, Shr, CodeBits, TopBits, Digits, SetWord;
    Unstripped(8192, 4, set2);
    Unstripped(8704, 8, set2);
    Unstripped(14336, 7, false);
    SetMarks();
    SetText(0);
    SetText(3);
    RawText(2, 4);
    RawText(28, 7);
    JoinText(2, 4, 8192, 4);
    Halves(8192);
  }

  // ----- characters outside the tables -----

  lemma FixedTexts(set2: bool)
    ensures CodeBits(13824, 9, set2) == CharWord(false, SET1B, 6)
    ensures CodeBits(13952, 9, set2) == CharWord(false, SET1B, 7)
    ensures CodeBits(9064, 13, set2) == CharWord(true, SET1B, 7)
    ensures CodeBits(9216, 7, set2) == CharWord(true, SET1, 1)
    ensures CodeBits(14208, 10, set2) == CharWord(false, SET1B, 9)
    ensures CodeBits(15232, 11, set2) == CharWord(false, 4, 6)
  {
    hide CodeBits, TopBits, CharWord;
    Unstripped(13824, 9, set2);
    Unstripped(13952, 9, set2);
    Unstripped(9064, 13, set2);
    Unstripped(9216, 7, set2);
    Unstripped(14208, 10, set2);
    Unstripped(15232, 11, set2);
    CharText(false, SET1B, 6);
    CharText(false, SET1B, 7);
    CharText(true, SET1B, 7);
    CharText(true, SET1, 1);
    CharText(false, SET1B, 9);
    CharText(false, 4, 6);
  }

  /** The code of a back-reference is the code 8 of set 1B and one more bit. */
  lemma BackText()
    ensures CodeBits(14144, 10, false) == CharWord(false, SET1B, 8) + [true]
  {
    hide CodeBits, TopBits, CharWord, Shl, Shr, Digits, Bit;
    Unstripped(14144, 10, false);
    CharText(false, SET1B, 8);
    assert CharCode(false, SET1B, 8) == 0x3700 && CharLen(false, SET1B, 8) == 9;
    assert Shl(110, 7) == 0x3700 && Shr(0x8000, 9) == 64 by { BackNumbers(); }
    RawText(110, 9);
    JoinText(110, 9, 0x8000, 1);
    assert TopBits(0x8000, 1) == [true] by { TopOne(); }
  }

  lemma BackNumbers()
    ensures Shl(110, 7) == 0x3700 && Shr(0x8000, 9) == 64
  {
    ShrNine(0x8000);
  }

  lemma TopOne()
    ensures TopBits(0x8000, 1) == [true]
  {
    BitOfHighByte(0x8000, 7);
    assert Bit(128, 7);
  }

  lemma {:induction false} CutTop(code: nat, n: nat, k: nat)
    requires k <= n <= 16
    ensures TopBits(code, k) == TopBits(code, n)[..k]
  {
  }

  /** The filling of the last byte. */
  lemma PaddingText(n: nat)
    ensures var k := |Padding(n)|; k < 8 && k <= |CharWord(false, SET1B, 10)| && Padding(n) == CharWord(false, SET1B, 10)[..k]
  {
    hide CodeBits, TopBits, CharWord;
    CharText(false, SET1B, 10);
    if n % 8 != 0 {
      Unstripped(14272, 8 - n % 8, false);
      CutTop(14272, 10, 8 - n % 8);
    }
    assert TopBits(14272, 10) == CharWord(false, SET1B, 10);
    assert |TopBits(14272, 10)| == 10 by { TopLength(14272, 10); }
  }

  lemma TopLength(code: nat, n: nat)
    requires n <= 16
    ensures |TopBits(code, n)| == n
  {
  }

  // ----- printable characters -----

  /** In the first mode the code of a printable character is its word. */
  lemma PlainText(c: char)
    requires ' ' <= c <= '~'
    ensures var (h, v) := PlaceOf(c);
      h < 7 && v < 11 && CodeBits(C95(c as nat - 32), L95(c as nat - 32), false) == CharWord(IsUpper(c), h, v)
  {
    hide TopBits, CharWord, C95, L95, PlaceOf, CharCode, CharLen;
    PlaceAgrees(c);
    var (h, v) := PlaceOf(c);
    Unstripped(C95(c as nat - 32), L95(c as nat - 32), false);
    CharText(IsUpper(c), h, v);
  }

  /** In the digit mode a digit loses the mark of its set ... */
  lemma DigitText(c: char)
    requires IsDigit(c)
    ensures var (h, v) := PlaceOf(c);
      v < 11 && CodeBits(C95(c as nat - 32), L95(c as nat - 32), true) == VWord(v)
  {
    hide C95, L95, PlaceOf, CodeBits, TopBits, SetWord, VWord, Bit;
    PlaceAgrees(c);
    var (h, v) := PlaceOf(c);
    var code, clen := C95(c as nat - 32), L95(c as nat - 32);
    assert code / 512 == 0x1C && clen == 7 + V_LEN[v];
    ShrNine(code);
    CodeDigits(code, clen, true);
    CharText(false, SET2, v);
    VText(v);
    SetText(SET2);
    StripText(code, clen, SetWord(SET2), VWord(v), CodeBits(code, clen, true));
  }

  lemma StripText(code: nat, clen: nat, u: seq<bool>, v: seq<bool>, t: seq<bool>)
    requires 7 <= clen <= 16 && TopBits(code, clen) == u + v && |u| == 7
    requires |t| == clen - 7 && forall k | 0 <= k < |t| :: t[k] == Bit(code, 8 - k)
    ensures t == v
  {
    hide Bit;
    forall k | 0 <= k < |t| ensures t[k] == v[k] {
      assert TopBits(code, clen)[7 + k] == Bit(code, 15 - (7 + k)) == (u + v)[7 + k];
    }
  }

  /** ... and everything else that stays in it is written as in the first mode. */
  lemma OtherText(c: char)
    requires ' ' < c <= '~' && !IsUpper(c) && !IsLower(c) && !IsDigit(c)
    ensures var (h, v) := PlaceOf(c);
      4 <= h < 7 && v < 11 && CodeBits(C95(c as nat - 32), L95(c as nat - 32), true) == CharWord(false, h, v)
  {
    hide C95, L95, PlaceOf, CodeBits, TopBits, CharWord;
    PlaceAgrees(c);
    var (h, v) := PlaceOf(c);
    Unstripped(C95(c as nat - 32), L95(c as nat - 32), true);
    CharText(false, h, v);
  }
}
