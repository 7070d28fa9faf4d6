/** The two sides of the code tables agree.

    A table of the decompressor gives the word of a code value c: the digits of c from the
    least significant on, as many as the entry says.  If no shorter prefix of a word is
    itself an entry, the word is read back wherever it stands (ReadsWord).  Every entry of
    C_95 / L_95 spells the words that lead the decompressor to the same character. */
module ShoxCodes {
  import opened Bitwise
  import opened ShoxTables
  import opened ShoxBits
  import opened ShoxDecoder

  /** The bits w stand in bits from place p on. */
  predicate At(bits: seq<bool>, p: nat, w: seq<bool>) {
    p + |w| <= |bits| && forall k | 0 <= k < |w| :: bits[p + k] == w[k]
  }

  lemma AtSplit(bits: seq<bool>, p: nat, u: seq<bool>, v: seq<bool>)
    ensures At(bits, p, u + v) == (At(bits, p, u) && At(bits, p + |u|, v))
  {
    var w := u + v;
    if At(bits, p, w) {
      forall k | 0 <= k < |u| ensures bits[p + k] == u[k] { assert w[k] == u[k]; }
      forall k | 0 <= k < |v| ensures bits[p + |u| + k] == v[k] { assert w[|u| + k] == v[k] && bits[p + (|u| + k)] == w[|u| + k]; }
    }
    if At(bits, p, u) && At(bits, p + |u|, v) {
      forall k | 0 <= k < |w| ensures bits[p + k] == w[k] {
        if k >= |u| { assert bits[p + |u| + (k - |u|)] == v[k - |u|]; }
      }
    }
  }

  // ----- one code table -----

  /** The word of the entry at c. */
  function Word(table: seq<nat>, c: nat): (w: seq<bool>)
    requires c < |table|
    ensures |w| == table[c] % 8
  {
    seq(table[c] % 8, k requires 0 <= k < table[c] % 8 => Bit(c, k))
  }

  /** The entry at c is met by its own word and not before the word ends. */
  predicate EntryAt(table: seq<nat>, c: nat) {
    && |table| == 32 && c < 32
    && 1 <= table[c] % 8 <= 5 && c < Shl(1, table[c] % 8)
    && (1 < table[c] % 8 ==> table[c % 2] % 8 != 1)
    && (2 < table[c] % 8 ==> table[c % 4] % 8 != 2)
    && (3 < table[c] % 8 ==> table[c % 8] % 8 != 3)
    && (4 < table[c] % 8 ==> table[c % 16] % 8 != 4)
  }

  lemma LowIsMod(c: nat)
    ensures Low(c, 1) == c % 2 && Low(c, 2) == c % 4 && Low(c, 3) == c % 8 && Low(c, 4) == c % 16
  {
    hide Low;
    LowMod2(c);
    LowMod4(c);
    LowMod8(c);
    LowSucc(c, 3);
    LowMod8(c / 2);
    Mod16(c);
  }

  lemma Mod16(c: nat)
    ensures c % 16 == 2 * (c / 2 % 8) + c % 2
  {
    var h, b := c / 2, c % 2;
    var q, r := h / 8, h % 8;
    assert c == 2 * h + b;
    assert h == 8 * q + r;
    assert c == 16 * q + (2 * r + b);
  }

  lemma Mod8(c: nat)
    ensures c % 8 == 2 * (c / 2 % 4) + c % 2
  {
    var h, b := c / 2, c % 2;
    var q, r := h / 4, h % 4;
    assert c == 2 * h + b;
    assert h == 4 * q + r;
    assert c == 8 * q + (2 * r + b);
  }

  lemma LowMod2(c: nat)
    ensures Low(c, 1) == c % 2
  {
  }

  lemma LowMod4(c: nat)
    ensures Low(c, 2) == c % 4
  {
    hide Low;
    LowSucc(c, 1);
    LowMod2(c / 2);
  }

  lemma LowMod8(c: nat)
    ensures Low(c, 3) == c % 8
  {
    hide Low;
    LowSucc(c, 2);
    LowMod4(c / 2);
    Mod8(c);
  }

  lemma LowSucc(x: nat, k: nat)
    ensures Low(x, k + 1) == 2 * Low(x / 2, k) + x % 2
  {
  }

  lemma NoEarlyWord(table: seq<nat>, c: nat, k: nat)
    requires EntryAt(table, c) && 0 < k < table[c] % 8
    ensures Low(c, k) < 32 && table[Low(c, k)] % 8 != k
  {
    hide Low;
    LowIsMod(c);
  }

  /** Prefix codes: a word is read back whatever comes after it. */
  lemma ReadsWord(table: seq<nat>, c: nat, bits: seq<bool>, p: nat)
    requires EntryAt(table, c) && At(bits, p, Word(table, c))
    ensures Code(table, bits, p) == (table[c] / 8, p + table[c] % 8)
  {
    ReadsFrom(table, c, bits, p, 0);
  }

  lemma {:induction false} ReadsFrom(table: seq<nat>, c: nat, bits: seq<bool>, p: nat, k: nat)
    requires EntryAt(table, c) && At(bits, p, Word(table, c)) && k < table[c] % 8
    ensures Low(c, k) < Shl(1, k)
    ensures CodeFrom(table, bits, p + k, Low(c, k), k) == (table[c] / 8, p + table[c] % 8)
    decreases 5 - k
  {
    hide Shl, Low;
    LowBound(c, k);
    LowTop(c, k + 1);
    if k > 0 { NoEarlyWord(table, c, k); }
    if k + 1 < table[c] % 8 { NoEarlyWord(table, c, k + 1); }
    assert bits[p + k] == Word(table, c)[k] == Bit(c, k);
    var weight := WeightBound(k);
    if k + 1 == table[c] % 8 {
      LowIdentity(c, k + 1);
    } else {
      ReadsFrom(table, c, bits, p, k + 1);
    }
  }

  /** The entry of index v in VCODE, and that of index h in HCODE. */
  const V_AT: seq<nat> := [0, 2, 6, 1, 5, 13, 3, 11, 7, 15, 31]
  const H_AT: seq<nat> := [1, 0, 3, 7, 23, 15, 31]

  lemma Weights()
    ensures Shl(1, 1) == 2 && Shl(1, 2) == 4 && Shl(1, 3) == 8 && Shl(1, 4) == 16 && Shl(1, 5) == 32
  {
  }

  lemma VEntry(v: nat)
    requires v < 11
    ensures EntryAt(VCODE, V_AT[v]) && VCODE[V_AT[v]] / 8 == v
  {
    hide Shl;
    Weights();
  }

  lemma HEntry(h: nat)
    requires h < 7
    ensures EntryAt(HCODE, H_AT[h]) && HCODE[H_AT[h]] / 8 == h
  {
    hide Shl;
    Weights();
  }

  // ----- counts -----

  /** The HCODE index of the prefix of a count class. */
  const READ_INDEX: seq<nat> := [1, 0, 2, 3, 4, 5]

  lemma CountPrefixWord(i: nat)
    requires i < 6
    ensures CountPrefix(i) == Word(HCODE, H_AT[READ_INDEX[i]])
  {
    var x := COUNT_CODE[i] - COUNT_CODE[i] % 8;
    var w, c := Word(HCODE, H_AT[READ_INDEX[i]]), H_AT[READ_INDEX[i]];
    forall k | 0 <= k < COUNT_CODE[i] % 8 ensures k < |w| && CountPrefix(i)[k] == w[k] {
      assert Bit(x * 256, 15 - k) == Bit(x, 7 - k) by { BitOfHighByte(x * 256, 7 - k); }
      PrefixDigit(i, k);
    }
  }

  lemma PrefixDigit(i: nat, k: nat)
    requires i < 6 && k < COUNT_CODE[i] % 8
    ensures COUNT_CODE[i] % 8 == HCODE[H_AT[READ_INDEX[i]]] % 8
    ensures Bit(COUNT_CODE[i] - COUNT_CODE[i] % 8, 7 - k) == Bit(H_AT[READ_INDEX[i]], k)
  {
    assert Bit(0x80, 7) && !Bit(0x80, 6) && Bit(0xC0, 7) && Bit(0xC0, 6) && !Bit(0xC0, 5);
    assert !Bit(0, 7) && !Bit(0, 0) && Bit(1, 0) && !Bit(1, 1) && Bit(3, 0) && Bit(3, 1) && !Bit(3, 2);
    assert Bit(0xE0, 7) && Bit(0xE0, 6) && Bit(0xE0, 5) && !Bit(0xE0, 4) && !Bit(0xE0, 3);
    assert Bit(0xE8, 7) && Bit(0xE8, 6) && Bit(0xE8, 5) && !Bit(0xE8, 4) && Bit(0xE8, 3);
    assert Bit(0xF0, 7) && Bit(0xF0, 6) && Bit(0xF0, 5) && Bit(0xF0, 4) && !Bit(0xF0, 3);
    assert Bit(7, 0) && Bit(7, 1) && Bit(7, 2) && !Bit(7, 3) && !Bit(7, 4);
    assert Bit(23, 0) && Bit(23, 1) && Bit(23, 2) && !Bit(23, 3) && Bit(23, 4);
    assert Bit(15, 0) && Bit(15, 1) && Bit(15, 2) && Bit(15, 3) && !Bit(15, 4);
  }

  /** The n low digits of x, the most significant first. */
  function Digits(x: nat, n: nat): seq<bool> {
    seq(n, k requires 0 <= k < n => Bit(x, n - 1 - k))
  }

  /** getNumFromBits gives back the number whose n digits it reads. */
  lemma {:induction false} NumOfDigits(bits: seq<bool>, q: nat, x: nat, n: nat)
    requires At(bits, q, Digits(x, n))
    ensures Num(bits, q, n) == Low(x, n)
    decreases n
  {
    hide Bit, Shl;
    if n > 0 {
      LowTop(x, n);
      DigitsFirst(x, n);
      var top := [Bit(x, n - 1)];
      AtSplit(bits, q, top, Digits(x, n - 1));
      assert bits[q + 0] == top[0];
      NumOfDigits(bits, q + 1, x, n - 1);
    }
  }

  lemma DigitsFirst(x: nat, n: nat)
    requires n > 0
    ensures Digits(x, n) == [Bit(x, n - 1)] + Digits(x, n - 1)
  {
    hide Bit;
    var u, rest := [Bit(x, n - 1)] + Digits(x, n - 1), Digits(x, n - 1);
    forall k | 0 <= k < n ensures Digits(x, n)[k] == u[k] {
      assert Digits(x, n)[k] == Bit(x, n - 1 - k);
      if k > 0 {
        assert u[k] == rest[k - 1] == Bit(x, n - 1 - 1 - (k - 1));
        assert n - 1 - 1 - (k - 1) == n - 1 - k;
      }
    }
  }

  lemma CountDigitsBack(x: nat, n: nat, bits: seq<bool>, q: nat)
    requires n <= 16 && x < Shl(1, n) && At(bits, q, CountDigits(x, n))
    ensures q + n <= |bits| && Num(bits, q, n) == x
  {
    hide Bit, Shl, Num;
    var w := CountDigits(x, n);
    forall k | 0 <= k < n ensures w[k] == Digits(x, n)[k] {
      assert w[k] == Bit(Shl(x, 16 - n), 15 - k);
      BitShl(x, 16 - n, 15 - k);
    }
    assert w == Digits(x, n);
    NumOfDigits(bits, q, x, n);
    LowIdentity(x, n);
  }

  /** readCount inverts encodeCount, for every count that has a code, wherever it stands. */
  lemma ReadCountInverts(n: nat, bits: seq<bool>, p: nat)
    requires n < COUNT_LIMIT && At(bits, p, CountWord(n))
    ensures ReadCount(bits, p) == Count(n, p + |CountWord(n)|)
  {
    hide Shl, Num, Code;
    var i := CountClass(n);
    AtSplit(bits, p, CountPrefix(i), CountDigits(n - COUNT_BASE[i], COUNT_BITS[i]));
    CountPrefixBack(i, bits, p);
    CountDigitsBack(n - COUNT_BASE[i], COUNT_BITS[i], bits, p + |CountPrefix(i)|);
  }

  lemma CountPrefixBack(i: nat, bits: seq<bool>, p: nat)
    requires i < 6 && At(bits, p, CountPrefix(i))
    ensures Code(HCODE, bits, p) == (READ_INDEX[i], p + |CountPrefix(i)|)
    ensures READ_INDEX[i] < 6 && READ_BITS[READ_INDEX[i]] == COUNT_BITS[i] && READ_BASE[READ_INDEX[i]] == COUNT_BASE[i]
  {
    hide Code, CountPrefix;
    CountPrefixWord(i);
    HEntry(READ_INDEX[i]);
    ReadsWord(HCODE, H_AT[READ_INDEX[i]], bits, p);
  }
}
