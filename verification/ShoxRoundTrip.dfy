/** Decompression undoes compression.

    Every turn of the compressor is matched by the turns of the decompressor that read its
    bits (TurnRead), whatever the decompressor has written so far.  What it then writes is
    Chunk: for a run and a back-reference that depends on its own output.  So the text that
    comes out is Replay, and it is the text that went in exactly if no run is taken up
    after a back-reference with a character that is not the last one (StaleFrom). */
module ShoxRoundTrip {
  import opened Bitwise
  import opened ShoxTables
  import opened ShoxBits
  import opened ShoxDecoder
  import opened ShoxCodes
  import opened ShoxEncoder
  import opened ShoxChars
  import opened ShoxReading
  import opened ShoxTexts

  /** A text the codec is for: its alphabet, and no longer than its counts reach. */
  predicate Encodable(s: string) {
    |s| < COUNT_LIMIT && forall i | 0 <= i < |s| :: InAlphabet(s[i])
  }

  /** The two modes of the compressor and of the decompressor agree. */
  predicate Matches(m: Mode, e: Place) {
    && m.dset == (if e.set2 then SET2 else SET1)
    && m.upper == e.caps
    && !(e.set2 && e.caps)
  }

  function Moved(m: Mode, n: nat, e: Place, more: string): Mode {
    Mode(m.pos + n, if e.set2 then SET2 else SET1, e.caps, m.out + more)
  }

  // ----- mode changes -----

  lemma UpperNotInSet2(c: char)
    requires IsUpper(c) || IsLower(c)
    ensures !InSet2(c)
  {
  }

  lemma InSet2Kinds()
    ensures InSet2(' ')
  {
  }

  /** The modes for a character suit it. */
  lemma ModesSuit(s: string, e: Place)
    requires e.l < |s| && !(e.set2 && e.caps)
    ensures var r := ModesFor(s, e);
      && !(r.set2 && r.caps)
      && (r.caps ==> IsUpper(s[e.l])) && (IsDigit(s[e.l]) ==> r.set2)
      && (r.set2 ==> InSet2(s[e.l]) || IsDigit(s[e.l]))
  {
    hide InSet2;
    InSet2Kinds();
    if IsUpper(s[e.l]) { UpperNotInSet2(s[e.l]); }
  }

  lemma OneTurn(bits: seq<bool>, m: Mode, m': Mode)
    requires m.pos < |bits| && InSet(m) && Step(bits, m) == Next(m')
    ensures InSet(m') && Run(bits, m) == Run(bits, m')
  {
    hide Step;
  }

  /** The four mode changes one by one, each of them if the compressor makes it. */
  lemma OutOfDigits(bits: seq<bool>, m: Mode, on: bool)
    requires var w := if on then CodeBits(8192, 4, false) else [];
      InSet(m) && (on ==> m.dset == SET2) && At(bits, m.pos, w)
    ensures var m' := m.(pos := m.pos + if on then |CodeBits(8192, 4, false)| else 0, dset := if on then SET1 else m.dset);
      InSet(m') && Run(bits, m) == Run(bits, m')
  {
    hide Step, Run, CodeBits, SetWord, At;
    if on {
      MarkTexts(false);
      ReadsOutOfDigits(bits, m);
      OneTurn(bits, m, m.(pos := m.pos + |SetWord(SET1)|, dset := SET1));
    }
  }

  lemma CapsOff(bits: seq<bool>, m: Mode, on: bool, set2: bool)
    requires var w := if on then CodeBits(8192, 4, set2) else [];
      InSet(m) && (on ==> m.dset == SET1 && m.upper) && At(bits, m.pos, w)
    ensures var m' := m.(pos := m.pos + if on then |CodeBits(8192, 4, set2)| else 0, upper := m.upper && !on);
      InSet(m') && Run(bits, m) == Run(bits, m')
  {
    hide Step, Run, CodeBits, SetWord, At;
    if on {
      MarkTexts(set2);
      ReadsCapsOff(bits, m);
      OneTurn(bits, m, m.(pos := m.pos + |SetWord(SET1)|, upper := false));
    }
  }

  lemma CapsOn(bits: seq<bool>, m: Mode, on: bool, set2: bool)
    requires var w := if on then CodeBits(8704, 8, set2) else [];
      InSet(m) && (on ==> m.dset == SET1 && !m.upper) && At(bits, m.pos, w)
    ensures var m' := m.(pos := m.pos + if on then |CodeBits(8704, 8, set2)| else 0, upper := m.upper || on);
      InSet(m') && Run(bits, m) == Run(bits, m')
  {
    hide Step, Run, CodeBits, SetWord, At;
    if on {
      MarkTexts(set2);
      ReadsCapsOn(bits, m);
      OneTurn(bits, m, m.(pos := m.pos + 2 * |SetWord(SET1)|, upper := true));
    }
  }

  lemma IntoDigits(bits: seq<bool>, m: Mode, on: bool)
    requires var w := if on then CodeBits(14336, 7, false) else [];
      InSet(m) && (on ==> m.dset == SET1) && At(bits, m.pos, w)
    ensures var m' := m.(pos := m.pos + if on then |CodeBits(14336, 7, false)| else 0, dset := if on then SET2 else m.dset);
      Run(bits, m) == Run(bits, m')
  {
    hide Step, Run, CodeBits, SetWord, At;
    if on {
      MarkTexts(false);
      ReadsIntoDigits(bits, m);
      OneTurn(bits, m, m.(pos := m.pos + |SetWord(SET2)|, dset := SET2));
    }
  }

  /** The decompressor follows the mode changes of one turn and writes nothing. */
  lemma ModesRead(bits: seq<bool>, m: Mode, s: string, e: Place)
    requires e.l < |s| && Matches(m, e) && At(bits, m.pos, ModeBits(s, e))
    ensures Run(bits, m) == Run(bits, Moved(m, |ModeBits(s, e)|, ModesFor(s, e), ""))
  {
    hide Step, Run, CodeBits, At, InSet2, StaysDigits, CapsAhead;
    var c := s[e.l];
    var stays := e.set2 && StaysDigits(s, e.l);
    var leaves, off := e.set2 && !stays, !IsUpper(c) && e.caps;
    var on, digits := IsUpper(c) && !e.caps && CapsAhead(s, e.l), !stays && IsDigit(c);
    var w1 := if leaves then CodeBits(8192, 4, false) else [];
    var w2 := if off then CodeBits(8192, 4, stays) else [];
    var w3 := if on then CodeBits(8704, 8, stays) else [];
    var w4 := if digits then CodeBits(14336, 7, false) else [];
    assert ModeBits(s, e) == w1 + w2 + w3 + w4;
    AtSplit(bits, m.pos, w1 + w2 + w3, w4);
    AtSplit(bits, m.pos, w1 + w2, w3);
    AtSplit(bits, m.pos, w1, w2);
    ModesSuit(s, e);
    UpperLeaves(s, e.l);
    OutOfDigits(bits, m, leaves);
    var m1 := m.(pos := m.pos + |w1|, dset := if stays then SET2 else SET1);
    CapsOff(bits, m1, off, stays);
    var m2 := m1.(pos := m1.pos + |w2|, upper := e.caps && IsUpper(c));
    CapsOn(bits, m2, on, stays);
    var m3 := m2.(pos := m2.pos + |w3|, upper := m2.upper || on);
    IntoDigits(bits, m3, digits);
    var m4 := m3.(pos := m3.pos + |w4|, dset := if stays || IsDigit(c) then SET2 else SET1);
    assert m4 == Moved(m, |ModeBits(s, e)|, ModesFor(s, e), "");
  }

  lemma UpperLeaves(s: string, l: nat)
    requires l < |s|
    ensures IsUpper(s[l]) ==> !StaysDigits(s, l)
  {
    hide InSet2;
    if IsUpper(s[l]) { UpperNotInSet2(s[l]); }
  }

  // ----- characters -----

  lemma SymbolTurn(bits: seq<bool>, m: Mode, q: nat, h: nat, v: nat, up: bool, more: string)
    requires m.pos < |bits| && InSet(m) && h < 7 && v < 11
    requires ReadHead(bits, m) == Symbol(q, h, v, up)
    requires Emit(bits, m, q, h, v, up) == Next(m.(pos := q, out := m.out + more))
    ensures Run(bits, m) == Run(bits, m.(pos := q, out := m.out + more))
  {
    hide ReadHead, Emit;
  }

  /** A letter: the set says which, the mode or the mark whether it is a capital. */
  lemma EmitLetter(bits: seq<bool>, m: Mode, p: nat, h: nat, v: nat, up: bool)
    requires h < 7 && v < 11 && InSet(m) && IsLower(SETS[h][v])
    ensures Emit(bits, m, p, h, v, up)
         == Next(m.(pos := p, out := m.out + [if up then SETS[h][v] - 32 as char else SETS[h][v]]))
  {
  }

  lemma EmitOther(bits: seq<bool>, m: Mode, p: nat, h: nat, v: nat)
    requires h < 7 && v < 11 && InSet(m) && !IsLower(SETS[h][v]) && (h == SET1B ==> v < 6)
    ensures Emit(bits, m, p, h, v, false) == Next(m.(pos := p, out := m.out + [SETS[h][v]]))
  {
  }

  lemma EmitSpecial(bits: seq<bool>, m: Mode, p: nat)
    requires InSet(m)
    ensures Emit(bits, m, p, SET1B, 6, false) == Next(m.(pos := p, out := m.out + "\r\n"))
    ensures Emit(bits, m, p, SET1B, 7, false) == Next(m.(pos := p, out := m.out + "\n"))
    ensures Emit(bits, m, p, SET1B, 7, true) == Next(m.(pos := p, out := m.out + "\r"))
    ensures m.dset == SET1 ==> Emit(bits, m, p, SET1, 1, true) == Next(m.(pos := p, out := m.out + "\t"))
  {
    assert SETS[SET1B][6] == ' ' && SETS[SET1B][7] == ' ' && SETS[SET1][1] == ' ';
  }

  /** The word of a character without the capital mark. */
  lemma WordRead(bits: seq<bool>, m: Mode, h: nat, v: nat, w: seq<bool>)
    requires InSet(m) && h < 7 && v < 11
    requires if h == m.dset then v != 0 && w == VWord(v) else h != SET1 && h != SET2 && w == SetWord(h) + VWord(v)
    requires At(bits, m.pos, w)
    ensures m.pos < |bits| && ReadHead(bits, m) == Symbol(m.pos + |w|, h, v, m.upper)
  {
    hide ReadHead, SetWord, VWord, At;
    if h == m.dset { ReadsPlain(bits, m, v); } else { ReadsSelected(bits, m, h, v); }
  }

  lemma LetterRead(bits: seq<bool>, m: Mode, c: char)
    requires m.dset == SET1 && ((IsLower(c) && !m.upper) || IsUpper(c))
    requires var low := if m.upper then c + 32 as char else c;
      At(bits, m.pos, CodeBits(C95(low as nat - 32), L95(low as nat - 32), false))
    ensures var low := if m.upper then c + 32 as char else c;
      var w := CodeBits(C95(low as nat - 32), L95(low as nat - 32), false);
      Run(bits, m) == Run(bits, m.(pos := m.pos + |w|, out := m.out + [c]))
  {
    hide ReadHead, Emit, Run, CodeBits, C95, L95, PlaceOf, SetWord, VWord, At, CharCode, CharLen;
    var low := if m.upper then c + 32 as char else c;
    PlainText(low);
    PlaceAgrees(low);
    var (h, v) := PlaceOf(low);
    var w := CodeBits(C95(low as nat - 32), L95(low as nat - 32), false);
    var up := IsUpper(c);
    if m.upper || !up {
      assert w == CharWord(false, h, v);
      if h == SET1 { assert w == VWord(v); } else { assert w == SetWord(h) + VWord(v); }
      WordRead(bits, m, h, v, w);
    } else {
      ReadsCapital(bits, m, h, v);
    }
    EmitLetter(bits, m, m.pos + |w|, h, v, up);
    SymbolTurn(bits, m, m.pos + |w|, h, v, up, [c]);
  }

  lemma SignRead(bits: seq<bool>, m: Mode, c: char)
    requires InSet(m) && !m.upper && ' ' <= c <= '~' && !IsUpper(c) && !IsLower(c)
    requires IsDigit(c) ==> m.dset == SET2
    requires c == ' ' ==> m.dset == SET1
    requires At(bits, m.pos, CodeBits(C95(c as nat - 32), L95(c as nat - 32), m.dset == SET2))
    ensures var w := CodeBits(C95(c as nat - 32), L95(c as nat - 32), m.dset == SET2);
      Run(bits, m) == Run(bits, m.(pos := m.pos + |w|, out := m.out + [c]))
  {
    hide ReadHead, Emit, Run, CodeBits, C95, L95, PlaceOf, SetWord, VWord, At, CharCode, CharLen;
    PlaceAgrees(c);
    var (h, v) := PlaceOf(c);
    var w := CodeBits(C95(c as nat - 32), L95(c as nat - 32), m.dset == SET2);
    if IsDigit(c) {
      DigitText(c);
      assert SETS[SET2][0] == ' ';
    } else if m.dset == SET2 {
      OtherText(c);
    } else {
      PlainText(c);
    }
    assert h == m.dset || h == SET1 || w == SetWord(h) + VWord(v);
    WordRead(bits, m, h, v, w);
    EmitOther(bits, m, m.pos + |w|, h, v);
    SymbolTurn(bits, m, m.pos + |w|, h, v, false, [c]);
  }

  /** A space in the digit mode. */
  lemma SpaceRead(bits: seq<bool>, m: Mode)
    requires m.dset == SET2 && !m.upper && At(bits, m.pos, CodeBits(15232, 11, true))
    ensures Run(bits, m) == Run(bits, m.(pos := m.pos + |CodeBits(15232, 11, true)|, out := m.out + " "))
  {
    hide ReadHead, Emit, Run, CodeBits, SetWord, VWord, At;
    FixedTexts(true);
    var w := CodeBits(15232, 11, true);
    assert w == SetWord(4) + VWord(6);
    WordRead(bits, m, 4, 6, w);
    assert SETS[4][6] == ' ';
    EmitOther(bits, m, m.pos + |w|, 4, 6);
    SymbolTurn(bits, m, m.pos + |w|, 4, 6, false, " ");
  }

  /** Line ends and tabs. */
  lemma ControlRead(bits: seq<bool>, m: Mode, code: nat, clen: nat, more: string)
    requires m.dset == SET1 && !m.upper
    requires (code, clen, more) in {(13824, 9, "\r\n"), (13952, 9, "\n"), (9064, 13, "\r"), (9216, 7, "\t")}
    requires At(bits, m.pos, CodeBits(code, clen, false))
    ensures Run(bits, m) == Run(bits, m.(pos := m.pos + |CodeBits(code, clen, false)|, out := m.out + more))
  {
    hide ReadHead, Emit, Run, CodeBits, SetWord, VWord, At;
    FixedTexts(false);
    var w := CodeBits(code, clen, false);
    EmitSpecial(bits, m, m.pos + |w|);
    if code == 13824 {
      assert w == SetWord(SET1B) + VWord(6);
      WordRead(bits, m, SET1B, 6, w);
      SymbolTurn(bits, m, m.pos + |w|, SET1B, 6, false, more);
    } else if code == 13952 {
      assert w == SetWord(SET1B) + VWord(7);
      WordRead(bits, m, SET1B, 7, w);
      SymbolTurn(bits, m, m.pos + |w|, SET1B, 7, false, more);
    } else if code == 9064 {
      ReadsCapital(bits, m, SET1B, 7);
      SymbolTurn(bits, m, m.pos + |w|, SET1B, 7, true, more);
    } else {
      ReadsCapital(bits, m, SET1, 1);
      SymbolTurn(bits, m, m.pos + |w|, SET1, 1, true, more);
    }
  }

  /** What a literal turn takes from the text. */
  function Taken(s: string, l: nat): string
    requires l < |s|
  {
    if CrLfAt(s, l) then "\r\n" else [s[l]]
  }

  lemma CharRead(bits: seq<bool>, m: Mode, s: string, e: Place)
    requires e.l < |s| && InAlphabet(s[e.l]) && !(e.set2 && e.caps)
    requires Matches(m, ModesFor(s, e)) && At(bits, m.pos, CharBits(s, ModesFor(s, e)))
    ensures Run(bits, m) == Run(bits, Moved(m, |CharBits(s, ModesFor(s, e))|, ModesFor(s, e), Taken(s, e.l)))
  {
    hide Run, CodeBits, C95, L95, At, ModesFor, InSet2;
    var r, c := ModesFor(s, e), s[e.l];
    ModesSuit(s, e);
    if IsUpper(c) || IsLower(c) {
      UpperNotInSet2(c);
      LetterRead(bits, m, c);
    } else if c == ' ' && r.set2 {
      SpaceRead(bits, m);
    } else if ' ' <= c <= '~' {
      SignRead(bits, m, c);
    } else {
      assert !InSet2(c) by { ControlNotInSet2(c); }
      if CrLfAt(s, e.l) { ControlRead(bits, m, 13824, 9, "\r\n"); }
      else if c == '\n' { ControlRead(bits, m, 13952, 9, "\n"); }
      else if c == '\r' { ControlRead(bits, m, 9064, 13, "\r"); }
      else { ControlRead(bits, m, 9216, 7, "\t"); }
    }
  }

  lemma ControlNotInSet2(c: char)
    requires c < ' '
    ensures !InSet2(c)
  {
  }

  /** A literal turn is read back as what it took from the text. */
  lemma LiteralRead(bits: seq<bool>, m: Mode, s: string, e: Place)
    requires e.l < |s| && InAlphabet(s[e.l]) && Matches(m, e) && At(bits, m.pos, Literal(s, e).0)
    ensures Run(bits, m) == Run(bits, Moved(m, |Literal(s, e).0|, Literal(s, e).1, Taken(s, e.l)))
    ensures !(Literal(s, e).1.set2 && Literal(s, e).1.caps)
  {
    hide Run, At, ModeBits, CharBits, ModesFor;
    var r := ModesFor(s, e);
    ModesSuit(s, e);
    AtSplit(bits, m.pos, ModeBits(s, e), CharBits(s, r));
    ModesRead(bits, m, s, e);
    var m1 := Moved(m, |ModeBits(s, e)|, r, "");
    CharRead(bits, m1, s, e);
    assert m1.out + Taken(s, e.l) == m.out + Taken(s, e.l);
  }

  // ----- runs and back-references -----

  /** A run of any length, read in any mode: the last character the output has. */
  lemma RunRead(bits: seq<bool>, m: Mode, n: nat)
    requires InSet(m) && n < COUNT_LIMIT && m.out != ""
    requires At(bits, m.pos, CodeBits(14208, 10, false) + CountWord(n))
    ensures var w := CodeBits(14208, 10, false) + CountWord(n);
      Run(bits, m) == Run(bits, m.(pos := m.pos + |w|, out := m.out + Repeat(m.out[|m.out| - 1], n + 4)))
  {
    hide Run, CodeBits, At, SetWord, VWord, ReadHead, ReadCount, CountWord;
    var code := CodeBits(14208, 10, false);
    FixedTexts(false);
    AtSplit(bits, m.pos, code, CountWord(n));
    assert code == SetWord(SET1B) + VWord(9);
    WordRead(bits, m, SET1B, 9, code);
    ReadCountInverts(n, bits, m.pos + |code|);
    var q := m.pos + |code| + |CountWord(n)|;
    var more := Repeat(m.out[|m.out| - 1], n + 4);
    assert SETS[SET1B][9] == ' ';
    assert RepeatLast(bits, m, m.pos + |code|) == Next(m.(pos := q, out := m.out + more));
    EmitRepeat(bits, m, m.pos + |code|);
    OneTurn(bits, m, m.(pos := q, out := m.out + more));
  }

  lemma EmitRepeat(bits: seq<bool>, m: Mode, p: nat)
    requires InSet(m)
    ensures Emit(bits, m, p, SET1B, 9, m.upper) == RepeatLast(bits, m, p)
    ensures Emit(bits, m, p, SET1B, 8, m.upper) == CopyBack(bits, m, p)
  {
    hide RepeatLast, CopyBack;
    assert SETS[SET1B][9] == ' ' && SETS[SET1B][8] == ' ';
  }

  /** A back-reference, read in any mode: n characters from place j of the output. */
  lemma BackRead(bits: seq<bool>, m: Mode, j: nat, n: nat)
    requires InSet(m) && NICE_LEN_FOR_PRIOR <= n && j + n <= |m.out| < COUNT_LIMIT
    requires At(bits, m.pos, BackBits(|m.out|, j, n))
    ensures Run(bits, m)
         == Run(bits, m.(pos := m.pos + |BackBits(|m.out|, j, n)|, out := m.out + m.out[j..j + n]))
  {
    hide Run, CodeBits, At, SetWord, VWord, ReadHead, ReadCount, CountWord;
    var l := |m.out|;
    var code, len, dist := CharWord(false, SET1B, 8), CountWord(n - NICE_LEN_FOR_PRIOR), CountWord(l - j - NICE_LEN_FOR_PRIOR + 1);
    BackText();
    AtSplit(bits, m.pos, CodeBits(14144, 10, false) + len, dist);
    AtSplit(bits, m.pos, CodeBits(14144, 10, false), len);
    AtSplit(bits, m.pos, code, [true]);
    var p := m.pos + |code|;
    assert p < |bits| && bits[p] by { AtOne(bits, p); }
    assert code == SetWord(SET1B) + VWord(8);
    WordRead(bits, m, SET1B, 8, code);
    ReadCountInverts(n - NICE_LEN_FOR_PRIOR, bits, p + 1);
    ReadCountInverts(l - j - NICE_LEN_FOR_PRIOR + 1, bits, p + 1 + |len|);
    var m' := m.(pos := p + 1 + |len| + |dist|, out := m.out + m.out[j..j + n]);
    assert CopyBack(bits, m, p) == Copied(m, m'.pos, n, l - j) == Next(m');
    EmitRepeat(bits, m, p);
    OneTurn(bits, m, m');
  }

  lemma AtOne(bits: seq<bool>, p: nat)
    requires At(bits, p, [true])
    ensures p < |bits| && bits[p]
  {
    var one := [true];
    assert bits[p + 0] == one[0];
  }

  // ----- one turn -----

  /** What the decompressor adds for one turn, from the text it has written so far. */
  function Chunk(s: string, e: Place, within: bool, out: string): string
    requires e.l < |s| && |out| == e.l
  {
    if RunAt(s, e) then
      if e.l == 0 then "" else Repeat(out[e.l - 1], RunEnd(s, s[e.l], e.l + 4) - e.l)
    else
      match Lookback(s, e.l, within)
      case Match(j, n) => out[j..j + n]
      case NoMatch => Taken(s, e.l)
  }

  /** The character taken for the last one is one the text can hold, from the second on. */
  predicate Started(e: Place) {
    e.l == 0 ==> e.prev == '\0'
  }

  /** The simulation: the bits of one turn of the compressor, read by the decompressor in
      the matching modes with any output of the right length. */
  lemma TurnRead(bits: seq<bool>, m: Mode, s: string, e: Place, within: bool)
    requires Encodable(s) && e.l < |s| && Started(e) && Matches(m, e) && |m.out| == e.l
    requires At(bits, m.pos, TurnOf(s, e, within).0)
    ensures var (w, e') := TurnOf(s, e, within);
      var m' := Moved(m, |w|, e', Chunk(s, e, within, m.out));
      Run(bits, m) == Run(bits, m') && Matches(m', e') && |m'.out| == e'.l && Started(e')
  {
    hide Run, CodeBits, At, CountWord, BackBits, Literal, Lookback, RunEnd;
    if RunAt(s, e) {
      var n := RunEnd(s, s[e.l], e.l + 4) - e.l - 4;
      assert e.l > 0;
      RunRead(bits, m, n);
    } else if Lookback(s, e.l, within).Match? {
      var Match(j, n) := Lookback(s, e.l, within);
      BackRead(bits, m, j, n);
    } else {
      LiteralRead(bits, m, s, e);
      LiteralPlace(s, e);
    }
  }

  lemma LiteralPlace(s: string, e: Place)
    requires e.l < |s|
    ensures Literal(s, e).1.l == e.l + |Taken(s, e.l)|
  {
  }

  // ----- the whole text -----

  lemma ChunkLength(s: string, e: Place, within: bool, out: string)
    requires Encodable(s) && e.l < |s| && Started(e) && |out| == e.l
    ensures var e' := TurnOf(s, e, within).1;
      |out + Chunk(s, e, within, out)| == e'.l && Started(e')
  {
    hide CodeBits, CountWord, BackBits, Literal, Lookback, RunEnd;
    LiteralPlace(s, e);
  }

  /** What the decompressor makes of the text from e on. */
  function Replay(s: string, e: Place, within: bool, out: string): (r: string)
    requires Encodable(s) && Started(e) && |out| == e.l
    ensures out <= r
    decreases |s| - e.l
  {
    if e.l >= |s| then out
    else
      ChunkLength(s, e, within, out);
      Replay(s, TurnOf(s, e, within).1, within, out + Chunk(s, e, within, out))
  }

  /** A run is taken up although the last character is another one.  The compressor
      compares with the character it remembers, the decompressor repeats the one it wrote. */
  predicate StaleAt(s: string, e: Place) {
    0 < e.l < |s| && RunAt(s, e) && s[e.l] != s[e.l - 1]
  }

  predicate StaleFrom(s: string, e: Place, within: bool)
    decreases |s| - e.l
  {
    e.l < |s| && (StaleAt(s, e) || StaleFrom(s, TurnOf(s, e, within).1, within))
  }

  /** The bits of all turns from e on and the filling of the last byte are read as Replay:
      the decompressor reaches the end of the text and never leaves its buffers. */
  lemma {:induction false} AllTurnsRead(bits: seq<bool>, m: Mode, s: string, e: Place, within: bool)
    requires Encodable(s) && Started(e) && Matches(m, e) && |m.out| == e.l <= |s|
    requires var w := EncodeFrom(s, e, within);
      At(bits, m.pos, w + Padding(m.pos + |w|)) && |bits| == m.pos + |w| + |Padding(m.pos + |w|)|
    ensures Run(bits, m) == Text(Replay(s, e, within, m.out))
    decreases |s| - e.l
  {
    hide Run, At, TurnOf, Padding, Chunk;
    var w := EncodeFrom(s, e, within);
    var pad := Padding(m.pos + |w|);
    AtSplit(bits, m.pos, w, pad);
    if e.l >= |s| {
      PaddingText(m.pos);
      CutPadding(|pad|, bits, m);
    } else {
      var (u, e') := TurnOf(s, e, within);
      var rest := EncodeFrom(s, e', within);
      AtSplit(bits, m.pos, u, rest);
      TurnRead(bits, m, s, e, within);
      var m' := Moved(m, |u|, e', Chunk(s, e, within, m.out));
      AtSplit(bits, m'.pos, rest, pad);
      AllTurnsRead(bits, m', s, e', within);
    }
  }

  predicate GivesBack(s: string, e: Place, within: bool)
    requires e.l < |s|
  {
    s[..e.l] + Chunk(s, e, within, s[..e.l]) == s[..TurnOf(s, e, within).1.l]
  }

  lemma RunGivesBack(s: string, e: Place, within: bool)
    requires e.l < |s| && Started(e) && InAlphabet(s[e.l]) && RunAt(s, e)
    ensures if StaleAt(s, e) then
        var more := Chunk(s, e, within, s[..e.l]);
        more != "" && more[0] != s[e.l]
      else GivesBack(s, e, within)
  {
    hide CodeBits, CountWord, BackBits, Lookback, Literal, RunEnd;
    RunFaithful(s, e);
  }

  lemma CopyGivesBack(s: string, e: Place, within: bool)
    requires e.l < |s| && !RunAt(s, e) && Lookback(s, e.l, within).Match?
    ensures GivesBack(s, e, within)
  {
    hide CodeBits, CountWord, BackBits, Lookback, Literal, RunEnd, RunAt;
    var Match(j, n) := Lookback(s, e.l, within);
    CopyFaithful(s, e.l, j, n);
  }

  lemma LiteralGivesBack(s: string, e: Place, within: bool)
    requires e.l < |s| && !RunAt(s, e) && Lookback(s, e.l, within).NoMatch?
    ensures GivesBack(s, e, within)
  {
    hide CodeBits, CountWord, BackBits, Lookback, Literal, RunEnd, RunAt, Taken;
    LiteralPlace(s, e);
    TakenFaithful(s, e.l);
  }

  /** One turn gives back what it took from the text, unless it takes up a stale run. */
  lemma ChunkFaithful(s: string, e: Place, within: bool)
    requires Encodable(s) && e.l < |s| && Started(e)
    ensures var more := Chunk(s, e, within, s[..e.l]);
      if StaleAt(s, e) then more != "" && more[0] != s[e.l]
      else s[..e.l] + more == s[..TurnOf(s, e, within).1.l]
  {
    hide TurnOf, Chunk, RunAt, Lookback, InAlphabet;
    if RunAt(s, e) {
      RunGivesBack(s, e, within);
    } else if Lookback(s, e.l, within).Match? {
      CopyGivesBack(s, e, within);
    } else {
      LiteralGivesBack(s, e, within);
    }
  }

  lemma CopyFaithful(s: string, l: nat, j: nat, n: nat)
    requires j + n <= l && l + n <= |s| && s[j..j + n] == s[l..l + n]
    ensures s[..l] + s[..l][j..j + n] == s[..l + n]
  {
    assert s[..l][j..j + n] == s[j..j + n];
  }

  lemma RunFaithful(s: string, e: Place)
    requires e.l < |s| && RunAt(s, e) && e.l > 0
    ensures var end := RunEnd(s, s[e.l], e.l + 4);
      var more := Repeat(s[e.l - 1], end - e.l);
      more != "" && more[0] == s[e.l - 1]
      && (s[e.l] == s[e.l - 1] ==> s[..e.l] + more == s[..end])
  {
    var end := RunEnd(s, s[e.l], e.l + 4);
    forall i | e.l <= i < end ensures s[i] == s[e.l] {
      assert i == e.l || i == e.l + 1 || i == e.l + 2 || i == e.l + 3 || e.l + 4 <= i;
    }
  }

  lemma TakenFaithful(s: string, l: nat)
    requires l < |s|
    ensures l + |Taken(s, l)| <= |s| && s[..l] + Taken(s, l) == s[..l + |Taken(s, l)|]
  {
  }

  /** What comes out is what went in, exactly if no stale run is taken up. */
  lemma {:induction false} ReplayIsText(s: string, e: Place, within: bool)
    requires Encodable(s) && Started(e) && e.l <= |s|
    ensures Replay(s, e, within, s[..e.l]) == s <==> !StaleFrom(s, e, within)
    decreases |s| - e.l
  {
    hide TurnOf, Chunk, StaleAt, RunAt;
    if e.l >= |s| {
      assert s[..e.l] == s;
    } else {
      var out, e' := s[..e.l], TurnOf(s, e, within).1;
      var more := Chunk(s, e, within, out);
      ChunkLength(s, e, within, out);
      ChunkFaithful(s, e, within);
      if StaleAt(s, e) {
        assert (out + more)[e.l] == more[0];
        assert Replay(s, e, within, out)[e.l] == more[0];
      } else {
        ReplayIsText(s, e', within);
      }
    }
  }

  /** Decompressing the compressed bytes reads no byte that is not there, and gives back the
      text if and only if the compressor takes up no stale run. */
  lemma RoundTrip(s: string, within: bool, b: seq<Byte>)
    requires Encodable(s) && BitsOf(b) == Encode(s, within)
    ensures Decode(BitsOf(b)).Text?
    ensures Decode(BitsOf(b)) == Text(s) <==> !StaleFrom(s, START, within)
  {
    hide Run, EncodeFrom, Padding, BitsOf, StaleFrom, Replay;
    var m := Mode(0, SET1, false, "");
    var w := EncodeFrom(s, START, within);
    var bits := Encode(s, within);
    assert At(bits, 0, bits);
    AllTurnsRead(bits, m, s, START, within);
    assert s[..0] == "";
    ReplayIsText(s, START, within);
  }

  // ----- when a run is stale -----

  /** The character remembered is the last one taken. */
  predicate Remembers(s: string, e: Place) {
    e.l <= |s| && (e.l > 0 ==> e.prev == s[e.l - 1])
  }

  /** Every turn but a back-reference remembers the last character it took. */
  lemma TurnRemembers(s: string, e: Place, within: bool)
    requires e.l < |s| && Remembers(s, e)
    requires RunAt(s, e) || Lookback(s, e.l, within).NoMatch?
    ensures Remembers(s, TurnOf(s, e, within).1)
  {
    hide CodeBits, CountWord, BackBits, ModeBits, CharBits, Lookback;
  }

  lemma {:induction false} NeverStale(s: string, e: Place)
    requires Remembers(s, e)
    ensures !StaleFrom(s, e, false)
    decreases |s| - e.l
  {
    hide TurnOf;
    if e.l < |s| {
      TurnRemembers(s, e, false);
      NeverStale(s, TurnOf(s, e, false).1);
    }
  }

  /** The law of the codec with the search for repeats switched off: for every text of its
      alphabet decompression gives back the text, and nothing for the filling bits. */
  lemma RoundTripWithoutRepeats(s: string, b: seq<Byte>)
    requires Encodable(s) && BitsOf(b) == Encode(s, false)
    ensures Decode(BitsOf(b)) == Text(s)
  {
    hide Decode, Encode, BitsOf, StaleFrom;
    RoundTrip(s, false, b);
    NeverStale(s, START);
  }

  /** With repeats on, a text without four equal characters in a row is safe too. */
  lemma {:induction false} NoRunNoStale(s: string, e: Place, within: bool)
    requires forall i | 0 <= i < |s| - 3 :: !(s[i] == s[i + 1] == s[i + 2] == s[i + 3])
    ensures !StaleFrom(s, e, within)
    decreases |s| - e.l
  {
    hide TurnOf;
    if e.l < |s| {
      NoRunNoStale(s, TurnOf(s, e, within).1, within);
    }
  }

  const STALE_TEXT: string := "abcdefyQ" + "abcdefy" + "fffff"

  /** A text that does not come back with the repeats on, as they are in the source: seven
      characters are copied from the beginning, and the run of f after them is compared
      with the f before the last y but read back as a run of y. */
  lemma StaleExample(b: seq<Byte>)
    requires BitsOf(b) == Encode(STALE_TEXT, true)
    ensures Encodable(STALE_TEXT)
    ensures Decode(BitsOf(b)).Text? && Decode(BitsOf(b)) != Text(STALE_TEXT)
  {
    hide Decode, Encode, BitsOf, StaleFrom, InAlphabet;
    assert Encodable(STALE_TEXT) by { StaleTextEncodable(); }
    StaleTextShape();
    CopyThenStale(STALE_TEXT, START);
    RoundTrip(STALE_TEXT, true, b);
  }

  lemma StaleTextEncodable()
    ensures Encodable(STALE_TEXT)
  {
  }

  /** Seven characters, another one, the seven again and five times the last but one. */
  predicate CopyShape(s: string) {
    && |s| == 20 && s[..7] == s[8..15]
    && (forall i | 0 <= i < 9 :: s[i] != s[i + 1] && s[i] != '\r') && s[7] != s[0] && s[7] != s[15]
    && s[13] == s[15] == s[16] == s[17] == s[18] && s[14] != s[15]
  }

  lemma StaleTextShape()
    ensures CopyShape(STALE_TEXT)
  {
    var s := STALE_TEXT;
    forall i | 0 <= i < 9 ensures s[i] != s[i + 1] && s[i] != '\r' {
      assert i == 0 || i == 1 || i == 2 || i == 3 || i == 4 || i == 5 || i == 6 || i == 7 || i == 8;
    }
  }

  lemma NoCopyYet(s: string, l: nat)
    requires CopyShape(s) && l < 8
    ensures Lookback(s, l, true).NoMatch?
  {
    hide FindMatch;
    MatchFirst(s, l, true);
  }

  lemma MatchFirst(s: string, l: nat, within: bool)
    requires l < |s|
    ensures var m := Lookback(s, l, within);
      m.Match? ==> m.j < |s| && s[l] == s[m.j]
  {
    hide FindMatch;
    var m := Lookback(s, l, within);
    if m.Match? {
      assert s[l..l + m.n][0] == s[m.j..m.j + m.n][0];
    }
  }

  lemma FirstCopy(s: string)
    requires CopyShape(s)
    ensures Lookback(s, 8, true) == Match(0, 7)
  {
    assert forall i | 0 <= i < 7 :: s[i] == s[..7][i] == s[8..15][i] == s[8 + i];
    MatchEndIs(s, 8, 0, 0, 7);
  }

  /** Every text of this shape is affected. */
  lemma {:induction false} CopyThenStale(s: string, e: Place)
    requires CopyShape(s) && e.l <= 8
    ensures StaleFrom(s, e, true)
    decreases 8 - e.l
  {
    hide CodeBits, CountWord, BackBits, ModeBits, CharBits, Lookback;
    if e.l < 8 {
      NoCopyYet(s, e.l);
      CopyThenStale(s, TurnOf(s, e, true).1);
    } else {
      FirstCopy(s);
      var e' := TurnOf(s, e, true).1;
      assert e'.l == 15 && e'.prev == s[13];
      assert StaleAt(s, e');
    }
  }

  lemma {:induction false} MatchEndIs(s: string, l: nat, j: nat, k: nat, r: nat)
    requires j <= k <= r < l && l + (r - j) < |s|
    requires forall i | k <= i < r :: s[i] == s[l + (i - j)]
    requires s[r] != s[l + (r - j)]
    ensures MatchEnd(s, l, j, k) == r
    decreases r - k
  {
    if k < r { MatchEndIs(s, l, j, k + 1, r); }
  }
}
