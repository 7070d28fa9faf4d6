/** SHA-256 as FIPS 180-4 defines it: a function of one whole message. */
module Sha256Standard {
  import opened Bitwise

  type Octet = bv8
  type Word = bv32

  const BLOCK_SIZE: nat := 64
  const DIGEST_SIZE: nat := 32

  // ----- section 4.1.2: functions -----

  function Xor3(x: Word, y: Word, z: Word): Word { x ^ y ^ z }

  function BigSigma0(x: Word): Word { Xor3(x.RotateRight(2), x.RotateRight(13), x.RotateRight(22)) }

  function BigSigma1(x: Word): Word { Xor3(x.RotateRight(6), x.RotateRight(11), x.RotateRight(25)) }

  function SmallSigma0(x: Word): Word { Xor3(x.RotateRight(7), x.RotateRight(18), x >> 3) }

  function SmallSigma1(x: Word): Word { Xor3(x.RotateRight(17), x.RotateRight(19), x >> 10) }

  function Choose(x: Word, y: Word, z: Word): Word { (x & y) ^ (!x & z) }

  function Majority(x: Word, y: Word, z: Word): Word { Xor3(x & y, x & z, y & z) }

  /** Sums are modulo 2^32. */
  function Sum(x: Word, y: Word): Word { x + y }

  // ----- sections 4.2.2 and 5.3.3: constants -----

  const K0: seq<nat> := [0x428A2F98, 0x71374491, 0xB5C0FBCF, 0xE9B5DBA5, 0x3956C25B, 0x59F111F1, 0x923F82A4, 0xAB1C5ED5]
  const K1: seq<nat> := [0xD807AA98, 0x12835B01, 0x243185BE, 0x550C7DC3, 0x72BE5D74, 0x80DEB1FE, 0x9BDC06A7, 0xC19BF174]
  const K2: seq<nat> := [0xE49B69C1, 0xEFBE4786, 0x0FC19DC6, 0x240CA1CC, 0x2DE92C6F, 0x4A7484AA, 0x5CB0A9DC, 0x76F988DA]
  const K3: seq<nat> := [0x983E5152, 0xA831C66D, 0xB00327C8, 0xBF597FC7, 0xC6E00BF3, 0xD5A79147, 0x06CA6351, 0x14292967]
  const K4: seq<nat> := [0x27B70A85, 0x2E1B2138, 0x4D2C6DFC, 0x53380D13, 0x650A7354, 0x766A0ABB, 0x81C2C92E, 0x92722C85]
  const K5: seq<nat> := [0xA2BFE8A1, 0xA81A664B, 0xC24B8B70, 0xC76C51A3, 0xD192E819, 0xD6990624, 0xF40E3585, 0x106AA070]
  const K6: seq<nat> := [0x19A4C116, 0x1E376C08, 0x2748774C, 0x34B0BCB5, 0x391C0CB3, 0x4ED8AA4A, 0x5B9CCA4F, 0x682E6FF3]
  const K7: seq<nat> := [0x748F82EE, 0x78A5636F, 0x84C87814, 0x8CC70208, 0x90BEFFFA, 0xA4506CEB, 0xBEF9A3F7, 0xC67178F2]

  const ROUND_CONSTANTS: seq<seq<nat>> := [K0, K1, K2, K3, K4, K5, K6, K7]

  function RoundConstant(t: nat): Word
    requires t < 64
  {
    ROUND_CONSTANTS[t / 8][t % 8] as Word
  }

  /** c is the first 32 bits of the fraction of the cube root of p, whose whole part is n. */
  predicate IsCubeRootFraction(c: nat, p: nat, n: nat) {
    var x := n * 0x1_0000_0000 + c;
    x * x * x <= p * 0x1_0000_0000_0000_0000_0000_0000 < (x + 1) * (x + 1) * (x + 1)
  }

  predicate IsSquareRootFraction(c: nat, p: nat, n: nat) {
    var x := n * 0x1_0000_0000 + c;
    x * x <= p * 0x1_0000_0000_0000_0000 < (x + 1) * (x + 1)
  }

  datatype Hash = Hash(a: Word, b: Word, c: Word, d: Word, e: Word, f: Word, g: Word, h: Word)

  const INITIAL := Hash(0x6A09E667, 0xBB67AE85, 0x3C6EF372, 0xA54FF53A,
                        0x510E527F, 0x9B05688C, 0x1F83D9AB, 0x5BE0CD19)

  /** Section 5.3.3: the initial hash value, from the first eight primes. */
  lemma InitialHashValue()
    ensures IsSquareRootFraction(INITIAL.a as nat, 2, 1)
    ensures IsSquareRootFraction(INITIAL.b as nat, 3, 1)
    ensures IsSquareRootFraction(INITIAL.c as nat, 5, 2)
    ensures IsSquareRootFraction(INITIAL.d as nat, 7, 2)
    ensures IsSquareRootFraction(INITIAL.e as nat, 11, 3)
    ensures IsSquareRootFraction(INITIAL.f as nat, 13, 3)
    ensures IsSquareRootFraction(INITIAL.g as nat, 17, 4)
    ensures IsSquareRootFraction(INITIAL.h as nat, 19, 4)
  {
  }

  // Section 4.2.2: the round constants, from the first sixty-four primes.

  const P0: seq<nat> := [2, 3, 5, 7, 11, 13, 17, 19]
  const P1: seq<nat> := [23, 29, 31, 37, 41, 43, 47, 53]
  const P2: seq<nat> := [59, 61, 67, 71, 73, 79, 83, 89]
  const P3: seq<nat> := [97, 101, 103, 107, 109, 113, 127, 131]
  const P4: seq<nat> := [137, 139, 149, 151, 157, 163, 167, 173]
  const P5: seq<nat> := [179, 181, 191, 193, 197, 199, 211, 223]
  const P6: seq<nat> := [227, 229, 233, 239, 241, 251, 257, 263]
  const P7: seq<nat> := [269, 271, 277, 281, 283, 293, 307, 311]

  const PRIMES: seq<seq<nat>> := [P0, P1, P2, P3, P4, P5, P6, P7]

  predicate IsCubeRoot(c: nat, p: nat) {
    IsCubeRootFraction(c, p, if p < 8 then 1 else if p < 27 then 2 else if p < 64 then 3 else if p < 125 then 4
                             else if p < 216 then 5 else 6)
  }

  predicate RowOfRoots(k: seq<nat>, p: seq<nat>)
    requires |k| == |p| == 8
  {
    && IsCubeRoot(k[0], p[0]) && IsCubeRoot(k[1], p[1]) && IsCubeRoot(k[2], p[2]) && IsCubeRoot(k[3], p[3])
    && IsCubeRoot(k[4], p[4]) && IsCubeRoot(k[5], p[5]) && IsCubeRoot(k[6], p[6]) && IsCubeRoot(k[7], p[7])
  }

  lemma Roots0()
    ensures RowOfRoots(K0, P0)
  {
  }

  lemma Roots1()
    ensures RowOfRoots(K1, P1)
  {
  }

  lemma Roots2()
    ensures RowOfRoots(K2, P2)
  {
  }

  lemma Roots3()
    ensures RowOfRoots(K3, P3)
  {
  }

  lemma Roots4()
    ensures RowOfRoots(K4, P4)
  {
  }

  lemma Roots5()
    ensures RowOfRoots(K5, P5)
  {
  }

  lemma Roots6()
    ensures RowOfRoots(K6, P6)
  {
  }

  lemma Roots7()
    ensures RowOfRoots(K7, P7)
  {
  }

  /** Every round constant is the fraction of the cube root of its prime. */
  lemma RoundConstantsAreRoots(t: nat)
    requires t < 64
    ensures |ROUND_CONSTANTS[t / 8]| == |PRIMES[t / 8]| == 8
    ensures IsCubeRoot(ROUND_CONSTANTS[t / 8][t % 8], PRIMES[t / 8][t % 8])
  {
    hide IsCubeRoot;
    Roots0();
    Roots1();
    Roots2();
    Roots3();
    Roots4();
    Roots5();
    Roots6();
    Roots7();
    var r, i := t / 8, t % 8;
    assert r == 0 || r == 1 || r == 2 || r == 3 || r == 4 || r == 5 || r == 6 || r == 7;
    assert RowOfRoots(ROUND_CONSTANTS[r], PRIMES[r]);
    assert i == 0 || i == 1 || i == 2 || i == 3 || i == 4 || i == 5 || i == 6 || i == 7;
  }

  // ----- sections 3.1 and 6.2.2: words and blocks -----

  /** The t-th word of a block, its first octet the most significant. */
  function WordAt(block: seq<Octet>, t: nat): Word
    requires 4 * t + 3 < |block|
  {
    ((block[4 * t] as Word) << 24) | ((block[4 * t + 1] as Word) << 16)
      | ((block[4 * t + 2] as Word) << 8) | (block[4 * t + 3] as Word)
  }

  function WordOctets(w: Word): (r: seq<Octet>)
    ensures |r| == 4
  {
    [((w >> 24) & 0xFF) as Octet, ((w >> 16) & 0xFF) as Octet, ((w >> 8) & 0xFF) as Octet, (w & 0xFF) as Octet]
  }

  /** The message schedule.  The four terms of a sum stand in the order of the source. */
  function Schedule(block: seq<Octet>, t: nat): Word
    requires |block| == BLOCK_SIZE && t < 64
  {
    if t < 16 then WordAt(block, t)
    else
      Sum(Sum(Sum(Schedule(block, t - 16), SmallSigma0(Schedule(block, t - 15))), Schedule(block, t - 7)),
          SmallSigma1(Schedule(block, t - 2)))
  }

  function Temporary1(e: Word, f: Word, g: Word, h: Word, k: Word, w: Word): Word {
    Sum(Sum(Sum(Sum(h, BigSigma1(e)), Choose(e, f, g)), k), w)
  }

  function Temporary2(a: Word, b: Word, c: Word): Word { Sum(BigSigma0(a), Majority(a, b, c)) }

  function Round(v: Hash, k: Word, w: Word): Hash {
    var t1 := Temporary1(v.e, v.f, v.g, v.h, k, w);
    Hash(Sum(t1, Temporary2(v.a, v.b, v.c)), v.a, v.b, v.c, Sum(v.d, t1), v.e, v.f, v.g)
  }

  /** The working variables after n rounds. */
  function Rounds(v: Hash, block: seq<Octet>, n: nat): Hash
    requires |block| == BLOCK_SIZE && n <= 64
  {
    if n == 0 then v else Round(Rounds(v, block, n - 1), RoundConstant(n - 1), Schedule(block, n - 1))
  }

  function Plus(x: Hash, y: Hash): Hash {
    Hash(Sum(x.a, y.a), Sum(x.b, y.b), Sum(x.c, y.c), Sum(x.d, y.d),
         Sum(x.e, y.e), Sum(x.f, y.f), Sum(x.g, y.g), Sum(x.h, y.h))
  }

  function Compress(v: Hash, block: seq<Octet>): Hash
    requires |block| == BLOCK_SIZE
  {
    Plus(Rounds(v, block, 64), v)
  }

  /** The hash value after the first n blocks of a message. */
  function HashAfter(m: seq<Octet>, n: nat): Hash
    requires BLOCK_SIZE * n <= |m|
  {
    if n == 0 then INITIAL
    else Compress(HashAfter(m, n - 1), m[BLOCK_SIZE * (n - 1)..BLOCK_SIZE * n])
  }

  // ----- section 5.1.1: padding -----

  function BigEndian(n: nat, k: nat): (r: seq<Byte>)
    ensures |r| == k
  {
    if k == 0 then [] else BigEndian(n / 256, k - 1) + [n % 256]
  }

  function Octets(xs: seq<Byte>): (r: seq<Octet>)
    ensures |r| == |xs|
  {
    seq(|xs|, i requires 0 <= i < |xs| => xs[i] as Octet)
  }

  function Zeros(k: nat): (r: seq<Octet>)
    ensures |r| == k
  {
    seq(k, _ => 0)
  }

  /** The number of zero octets that bring a message of this length, the octet 0x80 and
      the eight octets of its length to whole blocks. */
  function ZeroCount(length: nat): nat {
    (119 - length % 64) % 64
  }

  function Padded(m: seq<Octet>): (r: seq<Octet>)
    requires |m| < 0x2000_0000_0000_0000
  {
    m + [0x80] + Zeros(ZeroCount(|m|)) + Octets(BigEndian(8 * |m|, 8))
  }

  function Digest(m: seq<Octet>): (r: seq<Octet>)
    requires |m| < 0x2000_0000_0000_0000
  {
    HashOctets(HashAfter(Padded(m), |Padded(m)| / BLOCK_SIZE))
  }

  function HashOctets(v: Hash): (r: seq<Octet>)
    ensures |r| == DIGEST_SIZE
  {
    WordOctets(v.a) + WordOctets(v.b) + WordOctets(v.c) + WordOctets(v.d)
      + WordOctets(v.e) + WordOctets(v.f) + WordOctets(v.g) + WordOctets(v.h)
  }

  /** Padding gives whole blocks, with the least number of zeros that does. */
  lemma PaddingIsLeast(m: seq<Octet>, k: nat)
    requires |m| < 0x2000_0000_0000_0000
    ensures |Padded(m)| % BLOCK_SIZE == 0
    ensures (|m| + 1 + k + 8) % BLOCK_SIZE == 0 ==> ZeroCount(|m|) <= k
  {
    hide BigEndian, Octets, Zeros;
    ZeroCountIsLeast(|m|, k);
  }

  lemma ZeroCountIsLeast(n: nat, k: nat)
    ensures (n + 1 + ZeroCount(n) + 8) % 64 == 0
    ensures (n + 1 + k + 8) % 64 == 0 ==> ZeroCount(n) <= k
  {
    var q, r, z := n / 64, n % 64, ZeroCount(n);
    assert n == 64 * q + r;
    assert z == if r <= 55 then 55 - r else 119 - r;
    assert n + 9 + z == 64 * (q + if r <= 55 then 1 else 2);
    if (n + 1 + k + 8) % 64 == 0 {
      var p := (n + 9 + k) / 64;
      assert n + 9 + k == 64 * p;
      assert k - z == 64 * (p - q - if r <= 55 then 1 else 2);
    }
  }

  function Value(xs: seq<Byte>): nat {
    if xs == [] then 0 else 256 * Value(xs[..|xs| - 1]) + xs[|xs| - 1]
  }

  /** The eight octets of the length stand for it. */
  lemma {:induction false} BigEndianValue(n: nat, k: nat)
    requires n < Power256(k)
    ensures Value(BigEndian(n, k)) == n
  {
    if k > 0 {
      assert n / 256 < Power256(k - 1);
      BigEndianValue(n / 256, k - 1);
      assert BigEndian(n, k)[..k - 1] == BigEndian(n / 256, k - 1);
    }
  }

  lemma {:induction false} BigEndianAt(n: nat, k: nat, i: nat)
    requires i < k
    ensures BigEndian(n, k)[i] == Shr(n, 8 * (k - 1 - i)) % 256
  {
    if i < k - 1 {
      BigEndianAt(n / 256, k - 1, i);
      ShrByte(n, 8 * (k - 2 - i));
    }
  }

  lemma ShrByte(n: nat, j: nat)
    ensures Shr(n, 8 + j) == Shr(n / 256, j)
  {
    assert Shr(n, 8 + j) == Shr(n / 2, 7 + j) == Shr(n / 2 / 2, 6 + j) == Shr(n / 2 / 2 / 2, 5 + j);
    assert Shr(n / 2 / 2 / 2, 5 + j) == Shr(n / 2 / 2 / 2 / 2, 4 + j) == Shr(n / 2 / 2 / 2 / 2 / 2, 3 + j);
    var x := n / 2 / 2 / 2 / 2 / 2;
    assert Shr(x, 3 + j) == Shr(x / 2, 2 + j) == Shr(x / 2 / 2, 1 + j) == Shr(x / 2 / 2 / 2, j);
    assert n / 256 == x / 2 / 2 / 2;
  }

  /** The first n blocks decide the hash value after them. */
  lemma {:induction false} HashAfterPrefix(m: seq<Octet>, more: seq<Octet>, n: nat)
    requires BLOCK_SIZE * n <= |m|
    ensures HashAfter(m + more, n) == HashAfter(m, n)
  {
    hide Compress;
    if n > 0 {
      HashAfterPrefix(m, more, n - 1);
      assert (m + more)[BLOCK_SIZE * (n - 1)..BLOCK_SIZE * n] == m[BLOCK_SIZE * (n - 1)..BLOCK_SIZE * n];
    }
  }
}
