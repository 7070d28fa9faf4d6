/** How one turn of the decompressor reads the words that the compressor writes. */
module ShoxReading {
  import opened Bitwise
  import opened ShoxTables
  import opened ShoxBits
  import opened ShoxDecoder
  import opened ShoxCodes
  import opened ShoxEncoder
  import opened ShoxChars

  lemma ReadV(v: nat, bits: seq<bool>, p: nat)
    requires v < 11 && At(bits, p, VWord(v))
    ensures Code(VCODE, bits, p) == (v, p + |VWord(v)|)
    ensures |VWord(v)| > 0
  {
    hide Code, Word;
    VEntry(v);
    ReadsWord(VCODE, V_AT[v], bits, p);
  }

  lemma ReadH(h: nat, bits: seq<bool>, p: nat)
    requires h < 7 && At(bits, p, HWord(h))
    ensures Code(HCODE, bits, p) == (h, p + |HWord(h)|)
  {
    hide Code, Word;
    HEntry(h);
    ReadsWord(HCODE, H_AT[h], bits, p);
  }

  /** A mark is the vertical code 0 and the horizontal code of the set. */
  lemma ReadMark(h: nat, bits: seq<bool>, p: nat)
    requires h < 7 && At(bits, p, SetWord(h))
    ensures var (v, q) := Code(VCODE, bits, p);
      v == 0 && Code(HCODE, bits, q) == (h, p + |SetWord(h)|)
    ensures |SetWord(h)| > 0 && p < |bits|
  {
    hide Code, VWord, HWord;
    AtSplit(bits, p, VWord(0), HWord(h));
    ReadV(0, bits, p);
    ReadH(h, bits, p + |VWord(0)|);
  }

  // ----- changes of mode -----

  lemma ReadsOutOfDigits(bits: seq<bool>, m: Mode)
    requires m.dset == SET2 && At(bits, m.pos, SetWord(SET1))
    ensures m.pos < |bits| && Step(bits, m) == Next(m.(pos := m.pos + |SetWord(SET1)|, dset := SET1))
  {
    hide Code, SetWord;
    ReadMark(SET1, bits, m.pos);
  }

  lemma ReadsCapsOff(bits: seq<bool>, m: Mode)
    requires m.dset == SET1 && m.upper && At(bits, m.pos, SetWord(SET1))
    ensures m.pos < |bits| && Step(bits, m) == Next(m.(pos := m.pos + |SetWord(SET1)|, upper := false))
  {
    hide Code, SetWord;
    ReadMark(SET1, bits, m.pos);
  }

  lemma ReadsCapsOn(bits: seq<bool>, m: Mode)
    requires m.dset == SET1 && !m.upper && At(bits, m.pos, SetWord(SET1) + SetWord(SET1))
    ensures m.pos < |bits| && Step(bits, m) == Next(m.(pos := m.pos + 2 * |SetWord(SET1)|, upper := true))
  {
    hide Code, SetWord;
    AtSplit(bits, m.pos, SetWord(SET1), SetWord(SET1));
    ReadMark(SET1, bits, m.pos);
    ReadMark(SET1, bits, m.pos + |SetWord(SET1)|);
  }

  lemma ReadsIntoDigits(bits: seq<bool>, m: Mode)
    requires m.dset == SET1 && At(bits, m.pos, SetWord(SET2))
    ensures m.pos < |bits| && Step(bits, m) == Next(m.(pos := m.pos + |SetWord(SET2)|, dset := SET2))
  {
    hide Code, SetWord;
    ReadMark(SET2, bits, m.pos);
  }

  // ----- characters -----

  /** The word of a vertical code alone: a character of the current set. */
  lemma ReadsPlain(bits: seq<bool>, m: Mode, v: nat)
    requires InSet(m) && 0 < v < 11 && At(bits, m.pos, VWord(v))
    ensures m.pos < |bits| && ReadHead(bits, m) == Symbol(m.pos + |VWord(v)|, m.dset, v, m.upper)
  {
    hide Code, VWord;
    ReadV(v, bits, m.pos);
  }

  /** A character of another set. */
  lemma ReadsSelected(bits: seq<bool>, m: Mode, h: nat, v: nat)
    requires InSet(m) && h < 7 && h != SET1 && h != SET2 && v < 11
    requires At(bits, m.pos, SetWord(h) + VWord(v))
    ensures m.pos < |bits| && ReadHead(bits, m) == Symbol(m.pos + |SetWord(h)| + |VWord(v)|, h, v, m.upper)
  {
    hide Code, VWord, SetWord;
    AtSplit(bits, m.pos, SetWord(h), VWord(v));
    ReadMark(h, bits, m.pos);
    ReadV(v, bits, m.pos + |SetWord(h)|);
  }

  /** One capital, or the other reading of a code that the capital mark gives. */
  lemma ReadsCapital(bits: seq<bool>, m: Mode, h: nat, v: nat)
    requires m.dset == SET1 && !m.upper && h < 7 && h != SET2 && v < 11 && (h == SET1 ==> v != 0)
    requires At(bits, m.pos, CharWord(true, h, v))
    ensures m.pos < |bits| && ReadHead(bits, m) == Symbol(m.pos + |CharWord(true, h, v)|, h, v, true)
  {
    hide Code, VWord, SetWord;
    var mark, rest := SetWord(SET1), (if h == SET1 then [] else SetWord(h)) + VWord(v);
    AtSplit(bits, m.pos, mark, rest);
    ReadMark(SET1, bits, m.pos);
    var p := m.pos + |mark|;
    if h == SET1 {
      assert rest == VWord(v);
      ReadV(v, bits, p);
    } else {
      AtSplit(bits, p, SetWord(h), VWord(v));
      ReadMark(h, bits, p);
      ReadV(v, bits, p + |SetWord(h)|);
    }
  }

  // ----- an incomplete code at the end -----

  /** A proper beginning of a word at the end of the input is no code. */
  lemma CutWord(table: seq<nat>, c: nat, k: nat, bits: seq<bool>, p: nat)
    requires EntryAt(table, c) && k < table[c] % 8
    requires p + k == |bits| && At(bits, p, Word(table, c)[..k])
    ensures Code(table, bits, p).0 == NO_CODE
  {
    CutFrom(table, c, k, bits, p, 0);
  }

  lemma {:induction false} CutFrom(table: seq<nat>, c: nat, k: nat, bits: seq<bool>, p: nat, i: nat)
    requires EntryAt(table, c) && k < table[c] % 8 && i <= k
    requires p + k == |bits| && At(bits, p, Word(table, c)[..k])
    ensures Low(c, i) < Shl(1, i) && CodeFrom(table, bits, p + i, Low(c, i), i).0 == NO_CODE
    decreases k - i
  {
    hide Shl, Low;
    LowBound(c, i);
    if i < k {
      LowTop(c, i + 1);
      assert bits[p + i] == Word(table, c)[..k][i] == Bit(c, i);
      NoEarlyWord(table, c, i + 1);
      var weight := WeightBound(i);
      CutFrom(table, c, k, bits, p, i + 1);
    }
  }

  lemma CutV(v: nat, k: nat, bits: seq<bool>, p: nat)
    requires v < 11 && k < |VWord(v)| && p + k == |bits| && At(bits, p, VWord(v)[..k])
    ensures Code(VCODE, bits, p).0 == NO_CODE
  {
    hide Code, Word;
    VEntry(v);
    CutWord(VCODE, V_AT[v], k, bits, p);
  }

  lemma CutH(h: nat, k: nat, bits: seq<bool>, p: nat)
    requires h < 7 && k < |HWord(h)| && p + k == |bits| && At(bits, p, HWord(h)[..k])
    ensures Code(HCODE, bits, p).0 == NO_CODE
  {
    hide Code, Word;
    HEntry(h);
    CutWord(HCODE, H_AT[h], k, bits, p);
  }

  lemma AtCut(bits: seq<bool>, p: nat, u: seq<bool>, v: seq<bool>, k: nat)
    requires k <= |u| + |v| && At(bits, p, (u + v)[..k])
    ensures k <= |u| ==> At(bits, p, u[..k])
    ensures k >= |u| ==> At(bits, p, u) && At(bits, p + |u|, v[..k - |u|])
  {
    if k <= |u| {
      assert (u + v)[..k] == u[..k];
    } else {
      assert (u + v)[..k] == u + v[..k - |u|];
    }
    if k >= |u| {
      assert (u + v)[..k] == u + v[..k - |u|];
      AtSplit(bits, p, u, v[..k - |u|]);
    }
  }

  /** The filling of the last byte, a beginning of the mark of set 1B and the code 10,
      never completes a code, so nothing is written for it. */
  lemma CutPadding(k: nat, bits: seq<bool>, m: Mode)
    requires InSet(m) && k < 8 && m.pos + k == |bits| && At(bits, m.pos, CharWord(false, SET1B, 10)[..k])
    ensures Run(bits, m) == Text(m.out)
  {
    if k > 0 {
      CutHead(k, bits, m);
    }
  }

  lemma CutHead(k: nat, bits: seq<bool>, m: Mode)
    requires InSet(m) && 0 < k < 8 && m.pos + k == |bits| && At(bits, m.pos, CharWord(false, SET1B, 10)[..k])
    ensures ReadHead(bits, m).Halt?
  {
    hide Code, VWord, HWord;
    var z, hw, v := VWord(0), HWord(SET1B), VWord(10);
    assert |z| == 2 && |hw| == 3 && |v| == 5 by { MarkLengths(); }
    assert CharWord(false, SET1B, 10) == z + hw + v;
    AtCut(bits, m.pos, z + hw, v, k);
    if k < 2 {
      AtCut(bits, m.pos, z, hw, k);
      CutV(0, k, bits, m.pos);
    } else if k < 5 {
      AtCut(bits, m.pos, z, hw, k);
      ReadV(0, bits, m.pos);
      CutH(SET1B, k - 2, bits, m.pos + 2);
    } else {
      AtSplit(bits, m.pos, z, hw);
      ReadV(0, bits, m.pos);
      ReadH(SET1B, bits, m.pos + 2);
      CutV(10, k - 5, bits, m.pos + 5);
    }
  }

  lemma MarkLengths()
    ensures |VWord(0)| == 2 && |HWord(SET1B)| == 3 && |VWord(10)| == 5
  {
    assert VCODE[0] % 8 == 2 && VCODE[31] % 8 == 5 && HCODE[3] % 8 == 3;
  }
}
