/** The bit writer of the Shox96 compressor: append_bits and encodeCount.

    A byte buffer is read as the sequence of its bits, most significant first.  Holds
    says that a buffer starts with the bits w and that what is left of the last byte
    begun is zero, which is what lets the next append OR its bits into that byte. */
module ShoxBits {
  import opened Bitwise
  import opened ShoxTables

  /** Digit i of a byte, counted from the most significant. */
  predicate Digit(b: Byte, i: nat)
    requires i < 8
  {
    Bit(b, 7 - i)
  }

  function BitsOf(s: seq<Byte>): seq<bool> {
    seq(8 * |s|, p requires 0 <= p < 8 * |s| => Digit(s[p / 8], p % 8))
  }

  ghost predicate Holds(s: seq<Byte>, w: seq<bool>) {
    && |w| <= 8 * |s|
    && forall j, i | 0 <= j < |s| && 8 * j < |w| && 0 <= i < 8 ::
         Digit(s[j], i) == (8 * j + i < |w| && w[8 * j + i])
  }

  /** The n topmost of the 16 low digits of code. */
  function TopBits(code: nat, n: nat): seq<bool>
    requires n <= 16
  {
    seq(n, k requires 0 <= k < n => Bit(code, 15 - k))
  }

  /** What one append is to write: in the digit mode a code that starts with the switch
      to that mode (0x1C in its seven topmost digits) loses this prefix. */
  function CodeBits(code: nat, clen: nat, set2: bool): (w: seq<bool>)
    requires clen <= 16
    ensures |w| <= clen && (!set2 ==> |w| == clen)
  {
    if set2 && Shr(code, 9) == 0x1C then
      if clen > 7 then TopBits(Shl(code, 7), clen - 7) else []
    else
      TopBits(code, clen)
  }

  lemma MaskBit(b: nat, q: nat)
    requires 1 <= b <= 8 && q < 8
    ensures Bit(MASK[b - 1], 15 - q) == (q < b)
  {
    BitOfHighByte(MASK[b - 1], 7 - q);
    assert MASK[b - 1] / 256 == Shl(Shl(1, b) - 1, 8 - b) by { MaskHighByte(b); }
    BitShl(Shl(1, b) - 1, 8 - b, 7 - q);
    if 8 - b <= 7 - q { BitOnes(b, 7 - q - (8 - b)); }
  }

  lemma MaskHighByte(b: nat)
    requires 1 <= b <= 8
    ensures Shl(1, b) >= 1 && MASK[b - 1] / 256 == Shl(Shl(1, b) - 1, 8 - b)
  {
    BitOnes(b, 0);
    match b
    case 1 => assert Shl(1, 1) == 2 && Shl(1, 7) == 0x80;
    case 2 => assert Shl(1, 2) == 4 && Shl(3, 6) == 0xC0;
    case 3 => assert Shl(1, 3) == 8 && Shl(7, 5) == 0xE0;
    case 4 => assert Shl(1, 4) == 16 && Shl(15, 4) == 0xF0;
    case 5 => assert Shl(1, 5) == 32 && Shl(31, 3) == 0xF8;
    case 6 => assert Shl(1, 6) == 64 && Shl(63, 2) == 0xFC;
    case 7 => assert Shl(1, 7) == 128 && Shl(127, 1) == 0xFE;
    case 8 => assert Shl(1, 8) == 256 && Shl(255, 0) == 0xFF;
  }

  /** The byte one turn of the loop writes: digit i (from the top) is digit i - cur of
      what is left of the code, for the blen digits from cur on, and zero elsewhere. */
  lemma ByteDigit(code: nat, blen: nat, cur: nat, i: nat)
    requires 1 <= blen <= 8 && cur < 8 && i < 8
    ensures Bit(Shr(Low(Shr(And(code, MASK[blen - 1]), 8), 8), cur), 7 - i)
         == (cur <= i < cur + blen && Bit(code, 15 - (i - cur)))
  {
    var masked := And(code, MASK[blen - 1]);
    BitShr(Low(Shr(masked, 8), 8), cur, 7 - i);
    BitLow(Shr(masked, 8), 8, 7 - i + cur);
    if cur <= i {
      BitShr(masked, 8, 7 - i + cur);
      BitAnd(code, MASK[blen - 1], 15 - (i - cur));
      MaskBit(blen, i - cur);
    }
  }

  /** Writing byte j keeps the text w that reached digit cur of it and adds more to it. */
  lemma HoldsStep(s: seq<Byte>, w: seq<bool>, j: nat, cur: nat, b: Byte, more: seq<bool>)
    requires Holds(s, w) && j < |s| && |w| == 8 * j + cur
    requires 1 <= |more| && cur + |more| <= 8
    requires forall i | 0 <= i < 8 ::
      Digit(b, i) == ((cur > 0 && Digit(s[j], i)) || (cur <= i < cur + |more| && more[i - cur]))
    ensures Holds(s[j := b], w + more)
  {
    var t, all := s[j := b], w + more;
    forall k, i | 0 <= k < |t| && 8 * k < |all| && 0 <= i < 8
      ensures Digit(t[k], i) == (8 * k + i < |all| && all[8 * k + i])
    {
      if k < j {
        assert Digit(s[k], i) == w[8 * k + i];
      } else if i < cur {
        assert Digit(s[j], i) == w[8 * j + i];
      } else if cur > 0 {
        assert !Digit(s[j], i);
      }
    }
  }

  /** The byte that one turn of the loop puts on the digits from cur on. */
  method CutByte(code: nat, blen: nat, cur: nat) returns (b: Byte)
    requires 1 <= blen <= 8 && cur < 8
    ensures forall i | 0 <= i < 8 :: Digit(b, i) == (cur <= i < cur + blen && Bit(code, 15 - (i - cur)))
  {
    var masked := Low(Shr(And(code, MASK[blen - 1]), 8), 8);
    LowBound(Shr(And(code, MASK[blen - 1]), 8), 8);
    ShrBound(masked, cur);
    assert Shl(1, 8) == 256;
    b := Shr(masked, cur);
    forall i | 0 <= i < 8 ensures Digit(b, i) == (cur <= i < cur + blen && Bit(code, 15 - (i - cur))) {
      ByteDigit(code, blen, cur, i);
    }
  }

  method OrByte(x: Byte, y: Byte) returns (b: Byte)
    ensures forall i | 0 <= i < 8 :: Digit(b, i) == (Digit(x, i) || Digit(y, i))
  {
    assert Shl(1, 8) == 256;
    OrBound(x, y, 8);
    b := Or(x, y);
    forall i | 0 <= i < 8 ensures Digit(b, i) == (Digit(x, i) || Digit(y, i)) {
      BitOr(x, y, 7 - i);
    }
  }

  /** code <<= k on a 32-bit unsigned, as far as its 16 low digits go. */
  method ShiftOut(code: nat, k: nat) returns (c: nat)
    ensures forall q | k <= q < 32 :: Bit(c, q) == Bit(code, q - k)
  {
    forall q | k <= q < 32 ensures Bit(Low(Shl(code, k), 32), q) == Bit(code, q - k) {
      ShiftedDigit(code, k, q);
    }
    c := Low(Shl(code, k), 32);
  }

  lemma ShiftedDigit(code: nat, k: nat, q: nat)
    requires k <= q < 32
    ensures Bit(Low(Shl(code, k), 32), q) == Bit(code, q - k)
  {
    BitLow(Shl(code, k), 32, q);
    BitShl(code, k, q);
  }

  /** The text of an append, digit by digit. */
  lemma CodeDigits(code: nat, clen: nat, set2: bool)
    requires clen <= 16
    ensures var total := CodeBits(code, clen, set2);
      if set2 && Shr(code, 9) == 0x1C then
        |total| == (if clen > 7 then clen - 7 else 0)
        && forall k | 0 <= k < |total| :: total[k] == Bit(code, 8 - k)
      else
        |total| == clen && forall k | 0 <= k < clen :: total[k] == Bit(code, 15 - k)
  {
    if clen > 7 {
      var stripped := TopBits(Shl(code, 7), clen - 7);
      forall k | 0 <= k < clen - 7 ensures stripped[k] == Bit(code, 8 - k) {
        BitShl(code, 7, 15 - k);
      }
    }
  }

  /** The n topmost of 16 digits of a code are the bits that remain to be written. */
  ghost predicate Remains(code: nat, n: int, rest: seq<bool>) {
    && n <= 16 && |rest| == (if n > 0 then n else 0)
    && forall q | 16 - |rest| <= q < 16 :: Bit(code, q) == rest[15 - q]
  }

  /** One turn of the loop of append_bits: as many bits as fit into the current byte. */
  method AppendTurn(out: array<Byte>, ol: nat, code: nat, n: nat, ghost w: seq<bool>, ghost rest: seq<bool>)
    returns (r: nat, c: nat, blen: nat)
    requires n > 0 && Remains(code, n, rest)
    requires ol == |w| && Holds(out[..], w) && ol + n <= 8 * out.Length
    modifies out
    ensures 1 <= blen <= n && r == ol + blen
    ensures Holds(out[..], w + rest[..blen])
    ensures Remains(c, n - blen, rest[blen..])
  {
    var cur := ol % 8;
    blen := if n > 8 then 8 else n;
    var aByte := CutByte(code, blen, cur);
    if blen + cur > 8 {
      blen := 8 - cur;
    }
    ghost var before := out[..];
    if cur != 0 {
      aByte := OrByte(out[ol / 8], aByte);
    }
    HoldsStep(before, w, ol / 8, cur, aByte, rest[..blen]);
    out[ol / 8] := aByte;
    assert out[..] == before[ol / 8 := aByte];
    c := ShiftOut(code, blen);
    r := ol + blen;
  }

  /** The loop of append_bits. */
  method AppendDigits(out: array<Byte>, ol: nat, code: nat, clen: int, ghost w: seq<bool>, ghost total: seq<bool>)
    returns (r: nat)
    requires Remains(code, clen, total)
    requires ol == |w| && Holds(out[..], w) && ol + |total| <= 8 * out.Length
    modifies out
    ensures r == ol + |total|
    ensures Holds(out[..], w + total)
  {
    var c, n := code, clen;
    r := ol;
    ghost var written, rest := [], total;
    assert w + written == w;
    while n > 0
      invariant Remains(c, n, rest) && written + rest == total
      invariant r == ol + |written|
      invariant Holds(out[..], w + written)
    {
      var blen;
      r, c, blen := AppendTurn(out, r, c, n, w + written, rest);
      assert w + written + rest[..blen] == w + (written + rest[..blen]);
      written, rest := written + rest[..blen], rest[blen..];
      n := n - blen;
    }
    assert written == total;
  }

  /** append_bits. */
  method AppendBits(out: array<Byte>, ol: nat, code: nat, clen: nat, set2: bool, ghost w: seq<bool>)
    returns (r: nat)
    requires clen <= 16
    requires ol == |w| && Holds(out[..], w)
    requires ol + |CodeBits(code, clen, set2)| <= 8 * out.Length
    modifies out
    ensures r == ol + |CodeBits(code, clen, set2)|
    ensures Holds(out[..], w + CodeBits(code, clen, set2))
  {
    ghost var total := CodeBits(code, clen, set2);
    CodeDigits(code, clen, set2);
    if set2 && Shr(code, 9) == 0x1C {
      var c := ShiftOut(code, 7);
      r := AppendDigits(out, ol, c, clen - 7, w, total);
    } else {
      r := AppendDigits(out, ol, code, clen, w, total);
    }
  }

  /** The size class of a count. */
  function CountClass(n: nat): (i: nat)
    requires n < COUNT_LIMIT
    ensures i < 6 && COUNT_BASE[i] <= n && n - COUNT_BASE[i] < Shl(1, COUNT_BITS[i])
  {
    assert Shl(1, 2) == 4 && Shl(1, 5) == 32 && Shl(1, 7) == 128 && Shl(1, 9) == 512 && Shl(1, 12) == 4096;
    assert Shl(1, 16) == 65536 by { ShlSplit(8, 8); assert Shl(1, 8) == 256 && Shl(256, 8) == 65536; }
    if n < 4 then 0 else if n < 36 then 1 else if n < 164 then 2
    else if n < 676 then 3 else if n < 4772 then 4 else 5
  }

  lemma {:induction false} ShlSplit(a: nat, b: nat)
    ensures Shl(1, a + b) == Shl(Shl(1, a), b)
    decreases a
  {
    if a > 0 {
      ShlSplit(a - 1, b);
      ShlDouble(1, a - 1);
      ShlDouble(1, a + b - 1);
      ShlDouble(Shl(1, a - 1), b);
    }
  }

  function CountPrefix(i: nat): seq<bool>
    requires i < 6
  {
    CodeBits((COUNT_CODE[i] - COUNT_CODE[i] % 8) * 256, COUNT_CODE[i] % 8, false)
  }

  function CountDigits(x: nat, b: nat): seq<bool>
    requires b <= 16
  {
    CodeBits(Shl(x, 16 - b), b, false)
  }

  /** The text of a count; nothing at all is written for one without a class. */
  function CountWord(n: nat): seq<bool> {
    if n >= COUNT_LIMIT then []
    else
      var i := CountClass(n);
      CountPrefix(i) + CountDigits(n - COUNT_BASE[i], COUNT_BITS[i])
  }

  /** The two appends of encodeCount, for a count of class i. */
  method EncodeInClass(out: array<Byte>, ol: nat, count: nat, i: nat, ghost w: seq<bool>) returns (r: nat)
    requires count < COUNT_LIMIT && i == CountClass(count)
    requires ol == |w| && Holds(out[..], w)
    requires ol + |CountWord(count)| <= 8 * out.Length
    modifies out
    ensures r == ol + |CountWord(count)|
    ensures Holds(out[..], w + CountWord(count))
  {
    hide Holds, CodeBits, Shl;
    ghost var prefix, digits := CountPrefix(i), CountDigits(count - COUNT_BASE[i], COUNT_BITS[i]);
    assert w + prefix + digits == w + CountWord(count);
    r := AppendBits(out, ol, (COUNT_CODE[i] - COUNT_CODE[i] % 8) * 256, COUNT_CODE[i] % 8, false, w);
    r := AppendBits(out, r, Shl(count - COUNT_BASE[i], 16 - COUNT_BITS[i]), COUNT_BITS[i], false, w + prefix);
  }

  /** encodeCount. */
  method EncodeCount(out: array<Byte>, ol: nat, count: nat, ghost w: seq<bool>) returns (r: nat)
    requires ol == |w| && Holds(out[..], w)
    requires ol + |CountWord(count)| <= 8 * out.Length
    modifies out
    ensures r == ol + |CountWord(count)|
    ensures Holds(out[..], w + CountWord(count))
  {
    var till := 0;
    r := ol;
    assert w + [] == w;
    for i := 0 to 6
      invariant till == ClassStart(i) && till <= count
      invariant r == ol && Holds(out[..], w)
    {
      till := till + Shl(1, COUNT_BITS[i]);
      TillIs(i);
      if count < till {
        r := EncodeInClass(out, r, count, i, w);
        return;
      }
    }
  }

  ghost function ClassStart(i: nat): nat
    requires i <= 6
  {
    if i < 6 then COUNT_BASE[i] else COUNT_LIMIT
  }

  /** The sum that the loop keeps in till is where the next class starts. */
  lemma TillIs(i: nat)
    requires i < 6
    ensures ClassStart(i) + Shl(1, COUNT_BITS[i]) == ClassStart(i + 1) <= COUNT_LIMIT
    ensures forall n | ClassStart(i) <= n < ClassStart(i + 1) :: CountClass(n) == i
  {
    assert Shl(1, 2) == 4 && Shl(1, 5) == 32 && Shl(1, 7) == 128 && Shl(1, 9) == 512 && Shl(1, 12) == 4096;
    assert Shl(1, 16) == 65536 by { ShlSplit(8, 8); assert Shl(1, 8) == 256 && Shl(256, 8) == 65536; }
  }
}
