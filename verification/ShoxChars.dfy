/** Every code the compressor writes, spelled in the words of the decompressor's tables.

    A character has a place (h, v) in SETS.  Its code is the mark of a capital if it is
    one, then the mark of the set h unless that is the first set, then the word of v. */
module ShoxChars {
  import opened Bitwise
  import opened ShoxTables
  import opened ShoxBits
  import opened ShoxDecoder
  import opened ShoxCodes
  import opened ShoxEncoder

  function VWord(v: nat): seq<bool>
    requires v < 11
  {
    Word(VCODE, V_AT[v])
  }

  function HWord(h: nat): seq<bool>
    requires h < 7
  {
    Word(HCODE, H_AT[h])
  }

  /** The mark of the set h. */
  function SetWord(h: nat): seq<bool>
    requires h < 7
  {
    VWord(0) + HWord(h)
  }

  /** The text of the character at place (h, v). */
  function CharWord(up: bool, h: nat, v: nat): seq<bool>
    requires h < 7 && v < 11
  {
    (if up then SetWord(SET1) else []) + ((if h == SET1 then [] else SetWord(h)) + VWord(v))
  }

  // ----- the same text as a left-justified 16-bit number -----

  const V_CODE: seq<nat> := [0x0000, 0x4000, 0x6000, 0x8000, 0xA000, 0xB000] + [0xC000, 0xD000, 0xE000, 0xF000, 0xF800]
  const V_LEN: seq<nat> := [2, 3, 3, 3, 4, 4] + [4, 4, 4, 5, 5]
  const SET_LEN: seq<nat> := [4, 3, 5, 7, 7, 7, 7]
  const SET_RAW: seq<nat> := [2, 0, 6, 28, 29, 30, 31]

  function TailCode(h: nat, v: nat): nat
    requires h < 7 && v < 11
  {
    match h
    case 0 => V_CODE[v]
    case 1 => V_CODE[v] / 8
    case 2 => 0x3000 + V_CODE[v] / 32
    case 3 => 0x3800 + V_CODE[v] / 128
    case 4 => 0x3A00 + V_CODE[v] / 128
    case 5 => 0x3C00 + V_CODE[v] / 128
    case 6 => 0x3E00 + V_CODE[v] / 128
  }

  function CharCode(up: bool, h: nat, v: nat): nat
    requires h < 7 && v < 11
  {
    if up then 0x2000 + TailCode(h, v) / 16 else TailCode(h, v)
  }

  function CharLen(up: bool, h: nat, v: nat): nat
    requires h < 7 && v < 11
  {
    (if up then 4 else 0) + (if h == 0 then 0 else SET_LEN[h]) + V_LEN[v]
  }

  /** The tables of the compressor and of the decompressor say the same of c. */
  predicate Entry(c: char, h: nat, v: nat)
    requires ' ' <= c <= '~' && h < 7 && v < 11
  {
    && C95(c as nat - 32) == CharCode(IsUpper(c), h, v)
    && L95(c as nat - 32) == CharLen(IsUpper(c), h, v)
    && SETS[h][v] == if IsUpper(c) then c + 32 as char else c
  }

  /** The place of the character with code 32 + i in SETS, in rows of eight; a capital has
      that of its small letter. */
  const H_OF: seq<seq<nat>> := [
    [0, 6, 5, 6, 4, 4, 5, 6],
    [4, 4, 5, 4, 4, 4, 4, 4],
    [3, 3, 3, 3, 3, 3, 3, 3],
    [3, 3, 5, 5, 5, 4, 5, 6],
    [6, 0, 1, 1, 1, 0, 1, 1],
    [1, 0, 2, 2, 0, 1, 0, 0],
    [1, 2, 0, 0, 0, 1, 2, 1],
    [2, 1, 2, 5, 6, 5, 6, 6],
    [6, 0, 1, 1, 1, 0, 1, 1],
    [1, 0, 2, 2, 0, 1, 0, 0],
    [1, 2, 0, 0, 0, 1, 2, 1],
    [2, 1, 2, 5, 6, 5, 6]]
  const V_OF: seq<seq<nat>> := [
    [1, 6, 6, 4, 9, 10, 0, 2],
    [7, 8, 5, 5, 1, 2, 0, 3],
    [2, 3, 4, 5, 6, 7, 8, 9],
    [10, 1, 2, 1, 3, 4, 4, 1],
    [0, 4, 6, 0, 1, 2, 9, 7],
    [2, 6, 3, 1, 10, 5, 7, 5],
    [4, 2, 9, 8, 3, 3, 0, 8],
    [4, 10, 5, 9, 7, 10, 3, 5],
    [10, 4, 6, 0, 1, 2, 9, 7],
    [2, 6, 3, 1, 10, 5, 7, 5],
    [4, 2, 9, 8, 3, 3, 0, 8],
    [4, 10, 5, 7, 8, 8, 9]]

  function PlaceOf(c: char): (nat, nat)
    requires ' ' <= c <= '~'
  {
    var i := c as nat - 32;
    (H_OF[i / 8][i % 8], V_OF[i / 8][i % 8])
  }

  predicate Agrees(c: char)
    requires ' ' <= c <= '~'
  {
    var (h, v) := PlaceOf(c);
    && h < 7 && v < 11 && Entry(c, h, v)
    && (h == 0 ==> v != 0) && (h == SET1B ==> v < 6)
    && (h == SET2 <==> IsDigit(c)) && (h < 3 <==> IsUpper(c) || IsLower(c) || c == ' ')
  }

  lemma Agree0A()
    ensures Agrees(' ') && Agrees('!') && Agrees('"') && Agrees('#')
  {
  }

  lemma Agree0B()
    ensures Agrees('$') && Agrees('%') && Agrees('&') && Agrees('\'')
  {
  }

  lemma Agree1A()
    ensures Agrees('(') && Agrees(')') && Agrees('*') && Agrees('+')
  {
  }

  lemma Agree1B()
    ensures Agrees(',') && Agrees('-') && Agrees('.') && Agrees('/')
  {
  }

  lemma Agree2A()
    ensures Agrees('0') && Agrees('1') && Agrees('2') && Agrees('3')
  {
  }

  lemma Agree2B()
    ensures Agrees('4') && Agrees('5') && Agrees('6') && Agrees('7')
  {
  }

  lemma Agree3A()
    ensures Agrees('8') && Agrees('9') && Agrees(':') && Agrees(';')
  {
  }

  lemma Agree3B()
    ensures Agrees('<') && Agrees('=') && Agrees('>') && Agrees('?')
  {
  }

  lemma Agree4A()
    ensures Agrees('@') && Agrees('A') && Agrees('B') && Agrees('C')
  {
  }

  lemma Agree4B()
    ensures Agrees('D') && Agrees('E') && Agrees('F') && Agrees('G')
  {
  }

  lemma Agree5A()
    ensures Agrees('H') && Agrees('I') && Agrees('J') && Agrees('K')
  {
  }

  lemma Agree5B()
    ensures Agrees('L') && Agrees('M') && Agrees('N') && Agrees('O')
  {
  }

  lemma Agree6A()
    ensures Agrees('P') && Agrees('Q') && Agrees('R') && Agrees('S')
  {
  }

  lemma Agree6B()
    ensures Agrees('T') && Agrees('U') && Agrees('V') && Agrees('W')
  {
  }

  lemma Agree7A()
    ensures Agrees('X') && Agrees('Y') && Agrees('Z') && Agrees('[')
  {
  }

  lemma Agree7B()
    ensures Agrees('\\') && Agrees(']') && Agrees('^') && Agrees('_')
  {
  }

  lemma Agree8A()
    ensures Agrees('`') && Agrees('a') && Agrees('b') && Agrees('c')
  {
  }

  lemma Agree8B()
    ensures Agrees('d') && Agrees('e') && Agrees('f') && Agrees('g')
  {
  }

  lemma Agree9A()
    ensures Agrees('h') && Agrees('i') && Agrees('j') && Agrees('k')
  {
  }

  lemma Agree9B()
    ensures Agrees('l') && Agrees('m') && Agrees('n') && Agrees('o')
  {
  }

  lemma Agree10A()
    ensures Agrees('p') && Agrees('q') && Agrees('r') && Agrees('s')
  {
  }

  lemma Agree10B()
    ensures Agrees('t') && Agrees('u') && Agrees('v') && Agrees('w')
  {
  }

  lemma Agree11A()
    ensures Agrees('x') && Agrees('y') && Agrees('z') && Agrees('{')
  {
  }

  lemma Agree11B()
    ensures Agrees('|') && Agrees('}') && Agrees('~')
  {
  }

  /** Every printable character has a place where the two sides agree. */
  lemma PlaceAgrees(c: char)
    requires ' ' <= c <= '~'
    ensures Agrees(c)
  {
    hide Agrees;
    if c <= '\'' {
      Agree0A();
      Agree0B();
      assert c == ' ' || c == '!' || c == '"' || c == '#' || c == '$' || c == '%' || c == '&' || c == '\'';
    } else if c <= '/' {
      Agree1A();
      Agree1B();
      assert c == '(' || c == ')' || c == '*' || c == '+' || c == ',' || c == '-' || c == '.' || c == '/';
    } else if c <= '7' {
      Agree2A();
      Agree2B();
      assert c == '0' || c == '1' || c == '2' || c == '3' || c == '4' || c == '5' || c == '6' || c == '7';
    } else if c <= '?' {
      Agree3A();
      Agree3B();
      assert c == '8' || c == '9' || c == ':' || c == ';' || c == '<' || c == '=' || c == '>' || c == '?';
    } else if c <= 'G' {
      Agree4A();
      Agree4B();
      assert c == '@' || c == 'A' || c == 'B' || c == 'C' || c == 'D' || c == 'E' || c == 'F' || c == 'G';
    } else if c <= 'O' {
      Agree5A();
      Agree5B();
      assert c == 'H' || c == 'I' || c == 'J' || c == 'K' || c == 'L' || c == 'M' || c == 'N' || c == 'O';
    } else if c <= 'W' {
      Agree6A();
      Agree6B();
      assert c == 'P' || c == 'Q' || c == 'R' || c == 'S' || c == 'T' || c == 'U' || c == 'V' || c == 'W';
    } else if c <= '_' {
      Agree7A();
      Agree7B();
      assert c == 'X' || c == 'Y' || c == 'Z' || c == '[' || c == '\\' || c == ']' || c == '^' || c == '_';
    } else if c <= 'g' {
      Agree8A();
      Agree8B();
      assert c == '`' || c == 'a' || c == 'b' || c == 'c' || c == 'd' || c == 'e' || c == 'f' || c == 'g';
    } else if c <= 'o' {
      Agree9A();
      Agree9B();
      assert c == 'h' || c == 'i' || c == 'j' || c == 'k' || c == 'l' || c == 'm' || c == 'n' || c == 'o';
    } else if c <= 'w' {
      Agree10A();
      Agree10B();
      assert c == 'p' || c == 'q' || c == 'r' || c == 's' || c == 't' || c == 'u' || c == 'v' || c == 'w';
    } else {
      Agree11A();
      Agree11B();
      assert c == 'x' || c == 'y' || c == 'z' || c == '{' || c == '|' || c == '}' || c == '~';
    }
  }

  // ----- numbers and words -----

  lemma VDigit(v: nat, k: nat)
    requires v < 11 && k < V_LEN[v]
    ensures Bit(V_CODE[v] / 256, 7 - k) == Bit(V_AT[v], k)
  {
    match v
    case 0 => assert Bit(0, 7) == Bit(0, 0) && Bit(0, 6) == Bit(0, 1);
    case 1 => assert Bit(64, 7) == Bit(2, 0) && Bit(64, 6) == Bit(2, 1) && Bit(64, 5) == Bit(2, 2);
    case 2 => assert Bit(96, 7) == Bit(6, 0) && Bit(96, 6) == Bit(6, 1) && Bit(96, 5) == Bit(6, 2);
    case 3 => assert Bit(128, 7) == Bit(1, 0) && Bit(128, 6) == Bit(1, 1) && Bit(128, 5) == Bit(1, 2);
    case 4 => assert Bit(160, 7) == Bit(5, 0) && Bit(160, 6) == Bit(5, 1) && Bit(160, 5) == Bit(5, 2) && Bit(160, 4) == Bit(5, 3);
    case 5 => assert Bit(176, 7) == Bit(13, 0) && Bit(176, 6) == Bit(13, 1) && Bit(176, 5) == Bit(13, 2) && Bit(176, 4) == Bit(13, 3);
    case 6 => assert Bit(192, 7) == Bit(3, 0) && Bit(192, 6) == Bit(3, 1) && Bit(192, 5) == Bit(3, 2) && Bit(192, 4) == Bit(3, 3);
    case 7 => assert Bit(208, 7) == Bit(11, 0) && Bit(208, 6) == Bit(11, 1) && Bit(208, 5) == Bit(11, 2) && Bit(208, 4) == Bit(11, 3);
    case 8 => assert Bit(224, 7) == Bit(7, 0) && Bit(224, 6) == Bit(7, 1) && Bit(224, 5) == Bit(7, 2) && Bit(224, 4) == Bit(7, 3);
    case 9 => assert Bit(240, 7) == Bit(15, 0) && Bit(240, 6) == Bit(15, 1) && Bit(240, 5) == Bit(15, 2) && Bit(240, 4) == Bit(15, 3) && Bit(240, 3) == Bit(15, 4);
    case 10 => assert Bit(248, 7) == Bit(31, 0) && Bit(248, 6) == Bit(31, 1) && Bit(248, 5) == Bit(31, 2) && Bit(248, 4) == Bit(31, 3) && Bit(248, 3) == Bit(31, 4);
  }

  lemma Lengths()
    ensures forall v | 0 <= v < 11 :: V_LEN[v] == VCODE[V_AT[v]] % 8
    ensures forall h | 0 <= h < 7 :: SET_LEN[h] == 2 + HCODE[H_AT[h]] % 8
  {
    assert VCODE[0] % 8 == 2 && VCODE[2] % 8 == 3 && VCODE[6] % 8 == 3 && VCODE[1] % 8 == 3 && VCODE[5] % 8 == 4 && VCODE[13] % 8 == 4;
    assert VCODE[3] % 8 == 4 && VCODE[11] % 8 == 4 && VCODE[7] % 8 == 4 && VCODE[15] % 8 == 5 && VCODE[31] % 8 == 5;
    assert HCODE[1] % 8 == 2 && HCODE[0] % 8 == 1 && HCODE[3] % 8 == 3;
    assert HCODE[7] % 8 == 5 && HCODE[23] % 8 == 5 && HCODE[15] % 8 == 5 && HCODE[31] % 8 == 5;
  }

  lemma SetDigit(h: nat, k: nat)
    requires h < 7 && k < SET_LEN[h]
    ensures Bit(SET_RAW[h], SET_LEN[h] - 1 - k) == (k >= 2 && Bit(H_AT[h], k - 2))
  {
    match h
    case 0 => assert !Bit(2, 3) && !Bit(2, 2) && Bit(2, 1) == Bit(1, 0) && Bit(2, 0) == Bit(1, 1);
    case 1 => assert !Bit(0, 2) && !Bit(0, 1) && Bit(0, 0) == Bit(0, 0);
    case 2 => assert !Bit(6, 4) && !Bit(6, 3) && Bit(6, 2) == Bit(3, 0) && Bit(6, 1) == Bit(3, 1) && Bit(6, 0) == Bit(3, 2);
    case 3 => assert !Bit(28, 6) && !Bit(28, 5) && Bit(28, 4) == Bit(7, 0) && Bit(28, 3) == Bit(7, 1) && Bit(28, 2) == Bit(7, 2) && Bit(28, 1) == Bit(7, 3) && Bit(28, 0) == Bit(7, 4);
    case 4 => assert !Bit(29, 6) && !Bit(29, 5) && Bit(29, 4) == Bit(23, 0) && Bit(29, 3) == Bit(23, 1) && Bit(29, 2) == Bit(23, 2) && Bit(29, 1) == Bit(23, 3) && Bit(29, 0) == Bit(23, 4);
    case 5 => assert !Bit(30, 6) && !Bit(30, 5) && Bit(30, 4) == Bit(15, 0) && Bit(30, 3) == Bit(15, 1) && Bit(30, 2) == Bit(15, 2) && Bit(30, 1) == Bit(15, 3) && Bit(30, 0) == Bit(15, 4);
    case 6 => assert !Bit(31, 6) && !Bit(31, 5) && Bit(31, 4) == Bit(31, 0) && Bit(31, 3) == Bit(31, 1) && Bit(31, 2) == Bit(31, 2) && Bit(31, 1) == Bit(31, 3) && Bit(31, 0) == Bit(31, 4);
  }

  lemma VText(v: nat)
    requires v < 11
    ensures V_LEN[v] <= 5 && TopBits(V_CODE[v], V_LEN[v]) == VWord(v)
  {
    hide Bit;
    Lengths();
    var t := TopBits(V_CODE[v], V_LEN[v]);
    forall k | 0 <= k < V_LEN[v] ensures t[k] == VWord(v)[k] {
      BitOfHighByte(V_CODE[v], 7 - k);
      VDigit(v, k);
    }
  }

  lemma SetText(h: nat)
    requires h < 7
    ensures Digits(SET_RAW[h], SET_LEN[h]) == SetWord(h)
  {
    hide Bit;
    Lengths();
    var t, w := Digits(SET_RAW[h], SET_LEN[h]), SetWord(h);
    VText(0);
    assert VWord(0) == [false, false] by { BitOfZero(0); BitOfZero(1); }
    forall k | 0 <= k < SET_LEN[h] ensures t[k] == w[k] {
      SetDigit(h, k);
      if k >= 2 { assert w[k] == HWord(h)[k - 2]; }
    }
  }

  /** Two texts side by side in one number. */
  lemma JoinText(x: nat, n: nat, y: nat, m: nat)
    requires n + m <= 16 && y < 0x10000
    ensures TopBits(Shl(x, 16 - n) + Shr(y, n), n + m) == Digits(x, n) + TopBits(y, m)
  {
    hide Bit, Shl, Shr;
    var t, w := TopBits(Shl(x, 16 - n) + Shr(y, n), n + m), Digits(x, n) + TopBits(y, m);
    assert Shl(1, 16) == 0x10000 by { ShlSixteen(); }
    ShrLess(y, n, 16 - n);
    forall k | 0 <= k < n + m ensures t[k] == w[k] {
      assert t[k] == Bit(Shl(x, 16 - n) + Shr(y, n), 15 - k);
      BitJoin(x, 16 - n, Shr(y, n), 15 - k);
      if k < n {
        assert 15 - k - (16 - n) == n - 1 - k && w[k] == Digits(x, n)[k];
      } else {
        BitShr(y, n, 15 - k);
        assert 15 - k + n == 15 - (k - n) && w[k] == TopBits(y, m)[k - n];
      }
    }
  }

  lemma ShlSixteen()
    ensures Shl(1, 16) == 0x10000
  {
    ShlSplit(8, 8);
    assert Shl(1, 8) == 256 && Shl(256, 8) == 0x10000;
  }

  lemma Halves(x: nat)
    ensures Shr(x, 3) == x / 8 && Shr(x, 4) == x / 16 && Shr(x, 5) == x / 32 && Shr(x, 7) == x / 128
  {
    assert Shr(x, 3) == Shr(x / 8, 0);
    assert Shr(x, 4) == Shr(x / 8, 1);
    assert Shr(x, 5) == Shr(x / 8, 2);
    assert Shr(x, 7) == Shr(x / 8, 4) == Shr(x / 64, 1);
  }

  lemma SetMarks()
    ensures Shl(2, 12) == 0x2000 && Shl(0, 13) == 0 && Shl(6, 11) == 0x3000
    ensures Shl(28, 9) == 0x3800 && Shl(29, 9) == 0x3A00 && Shl(30, 9) == 0x3C00 && Shl(31, 9) == 0x3E00
  {
    assert Shl(2, 12) == Shl(512, 4) && Shl(0, 13) == Shl(0, 5) && Shl(6, 11) == Shl(6 * 256, 3);
    assert Shl(28, 9) == Shl(28 * 256, 1) && Shl(29, 9) == Shl(29 * 256, 1);
    assert Shl(30, 9) == Shl(30 * 256, 1) && Shl(31, 9) == Shl(31 * 256, 1);
  }

  lemma TailText(h: nat, v: nat)
    requires h < 7 && v < 11
    ensures TailCode(h, v) < 0x4000 + V_CODE[v] && CharLen(false, h, v) <= 12
    ensures TopBits(TailCode(h, v), CharLen(false, h, v)) == CharWord(false, h, v)
  {
    hide Shl, Shr, Bit, SetWord, VWord;
    VText(v);
    if h != 0 {
      Halves(V_CODE[v]);
      SetMarks();
      SetText(h);
      JoinText(SET_RAW[h], SET_LEN[h], V_CODE[v], V_LEN[v]);
    }
  }

  /** The number that spells a character is its text. */
  lemma CharText(up: bool, h: nat, v: nat)
    requires h < 7 && v < 11 && CharLen(up, h, v) <= 16
    ensures TopBits(CharCode(up, h, v), CharLen(up, h, v)) == CharWord(up, h, v)
  {
    hide Shl, Shr, Bit, SetWord, VWord;
    TailText(h, v);
    if up {
      Halves(TailCode(h, v));
      SetMarks();
      SetText(0);
      JoinText(SET_RAW[0], SET_LEN[0], TailCode(h, v), CharLen(false, h, v));
    }
  }
}
