/** C's operators on unsigned integers, written out on natural numbers.

    A number is read through its binary digits: Bit(x, i) is digit i, digit 0 the
    least significant.  Every operator is defined digit by digit, so that its law is a
    statement about digits and no proof needs a product of two variables. */
module Bitwise {
  type Byte = x: nat | x < 256

  type Bytes = seq<Byte>

  function Power256(k: nat): (r: nat)
    ensures r > 0
  {
    if k == 0 then 1 else 256 * Power256(k - 1)
  }

  predicate Bit(x: nat, i: nat) {
    if i == 0 then x % 2 == 1 else Bit(x / 2, i - 1)
  }

  function Shl(x: nat, k: nat): nat
    decreases k
  {
    if k == 0 then x else Shl(2 * x, k - 1)
  }

  function Shr(x: nat, k: nat): nat
    decreases k
  {
    if k == 0 then x else Shr(x / 2, k - 1)
  }

  function And(x: nat, y: nat): nat {
    if x == 0 || y == 0 then 0
    else 2 * And(x / 2, y / 2) + (if x % 2 == 1 && y % 2 == 1 then 1 else 0)
  }

  function Or(x: nat, y: nat): nat {
    if x == 0 then y else if y == 0 then x
    else 2 * Or(x / 2, y / 2) + (if x % 2 == 1 || y % 2 == 1 then 1 else 0)
  }

  /** The k low digits of x: conversion to a k-bit unsigned type. */
  function Low(x: nat, k: nat): nat {
    if k == 0 then 0 else 2 * Low(x / 2, k - 1) + x % 2
  }

  lemma {:induction false} BitOfZero(i: nat)
    ensures !Bit(0, i)
  {
    if i > 0 { BitOfZero(i - 1); }
  }

  lemma {:induction false} BitShl(x: nat, k: nat, i: nat)
    ensures Bit(Shl(x, k), i) == (k <= i && Bit(x, i - k))
    decreases k
  {
    if k > 0 {
      BitShl(2 * x, k - 1, i);
    }
  }

  lemma {:induction false} BitShr(x: nat, k: nat, i: nat)
    ensures Bit(Shr(x, k), i) == Bit(x, i + k)
    decreases k
  {
    if k > 0 {
      BitShr(x / 2, k - 1, i);
    }
  }

  lemma {:induction false} BitAnd(x: nat, y: nat, i: nat)
    ensures Bit(And(x, y), i) == (Bit(x, i) && Bit(y, i))
    decreases i
  {
    BitOfZero(i);
    if x != 0 && y != 0 && i > 0 {
      assert And(x, y) / 2 == And(x / 2, y / 2);
      BitAnd(x / 2, y / 2, i - 1);
    }
  }

  lemma {:induction false} BitOr(x: nat, y: nat, i: nat)
    ensures Bit(Or(x, y), i) == (Bit(x, i) || Bit(y, i))
    decreases i
  {
    BitOfZero(i);
    if x != 0 && y != 0 && i > 0 {
      assert Or(x, y) / 2 == Or(x / 2, y / 2);
      BitOr(x / 2, y / 2, i - 1);
    }
  }

  lemma {:induction false} BitLow(x: nat, k: nat, i: nat)
    ensures Bit(Low(x, k), i) == (i < k && Bit(x, i))
    decreases i
  {
    if k == 0 {
      BitOfZero(i);
    } else {
      assert Low(x, k) % 2 == x % 2 && Low(x, k) / 2 == Low(x / 2, k - 1);
      if i > 0 { BitLow(x / 2, k - 1, i - 1); }
    }
  }

  lemma {:induction false} LowBound(x: nat, k: nat)
    ensures Low(x, k) < Shl(1, k)
    decreases k
  {
    ShlDouble(1, k);
    if k > 0 {
      ShlDouble(1, k - 1);
      LowBound(x / 2, k - 1);
    }
  }

  lemma {:induction false} ShlDouble(x: nat, k: nat)
    ensures Shl(2 * x, k) == 2 * Shl(x, k)
    decreases k
  {
    if k > 0 { ShlDouble(2 * x, k - 1); }
  }

  /** A number below 2^k is its own k-bit conversion. */
  lemma {:induction false} LowIdentity(x: nat, k: nat)
    requires x < Shl(1, k)
    ensures Low(x, k) == x
    decreases k
  {
    if k > 0 {
      ShlDouble(1, k - 1);
      LowIdentity(x / 2, k - 1);
    }
  }

  /** The topmost of k digits carries weight 2^(k-1). */
  lemma {:induction false} LowTop(x: nat, k: nat)
    requires k > 0
    ensures Low(x, k) == (if Bit(x, k - 1) then Shl(1, k - 1) else 0) + Low(x, k - 1)
    decreases k
  {
    if k > 1 {
      LowTop(x / 2, k - 1);
      ShlDouble(1, k - 2);
    }
  }

  lemma {:induction false} ShrBound(x: nat, k: nat)
    ensures Shr(x, k) <= x
    decreases k
  {
    if k > 0 { ShrBound(x / 2, k - 1); }
  }

  lemma {:induction false} OrBound(x: nat, y: nat, k: nat)
    requires x < Shl(1, k) && y < Shl(1, k)
    ensures Or(x, y) < Shl(1, k)
    decreases k
  {
    if x != 0 && y != 0 && k > 0 {
      ShlDouble(1, k - 1);
      OrBound(x / 2, y / 2, k - 1);
    }
  }

  /** 2^k - 1 has exactly its k low digits set. */
  lemma {:induction false} BitOnes(k: nat, i: nat)
    ensures Shl(1, k) >= 1
    ensures Bit(Shl(1, k) - 1, i) == (i < k)
    decreases k
  {
    if k == 0 {
      BitOfZero(i);
    } else {
      BitOnes(k - 1, if i == 0 then 0 else i - 1);
      ShlDouble(1, k - 1);
    }
  }

  /** Masking with a single digit tests that digit. */
  lemma {:induction false} AndDigit(x: nat, i: nat)
    ensures (And(x, Shl(1, i)) != 0) == Bit(x, i)
    decreases i
  {
    BitOnes(i, 0);
    BitOfZero(i);
    if i > 0 {
      ShlDouble(1, i - 1);
      BitOnes(i - 1, 0);
      AndDigit(x / 2, i - 1);
    }
  }

  /** Digit 8 + i of a number is digit i of its next byte. */
  lemma BitOfHighByte(x: nat, i: nat)
    ensures Bit(x, i + 8) == Bit(x / 256, i)
  {
    assert Shr(x, 8) == x / 256;
    BitShr(x, 8, i);
  }

  /** Adding below the zeros of a shifted number puts its digits side by side. */
  lemma {:induction false} BitJoin(x: nat, k: nat, y: nat, i: nat)
    requires y < Shl(1, k)
    ensures Bit(Shl(x, k) + y, i) == if i < k then Bit(y, i) else Bit(x, i - k)
    decreases k
  {
    if k > 0 {
      ShlDouble(1, k - 1);
      ShlDouble(x, k - 1);
      assert (Shl(x, k) + y) / 2 == Shl(x, k - 1) + y / 2 && (Shl(x, k) + y) % 2 == y % 2;
      if i > 0 { BitJoin(x, k - 1, y / 2, i - 1); }
    }
  }

  lemma {:induction false} ShrLess(y: nat, n: nat, k: nat)
    requires y < Shl(1, n + k)
    ensures Shr(y, n) < Shl(1, k)
    decreases n
  {
    if n > 0 {
      ShlDouble(1, n - 1 + k);
      ShrLess(y / 2, n - 1, k);
    }
  }
}
