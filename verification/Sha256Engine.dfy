/** The hash as the key store holds it: eight words of state, one block and two counters,
    updated in place. */
module Sha256Engine {
  import opened Bitwise
  import opened Common
  import opened Sha256Standard
  import opened Sha256Stream

  /** rotate_right: two shifts, joined. */
  function RotateRight(value: Word, bits: nat): Word
    requires 0 < bits < 32
  {
    (value >> bits) | (value << (32 - bits))
  }

  /** For the distances the hash uses, the two shifts are the rotation of the standard. */
  lemma BigSigmasByShifts(x: Word)
    ensures Xor3(RotateRight(x, 2), RotateRight(x, 13), RotateRight(x, 22)) == BigSigma0(x)
    ensures Xor3(RotateRight(x, 6), RotateRight(x, 11), RotateRight(x, 25)) == BigSigma1(x)
  {
  }

  lemma SmallSigmasByShifts(x: Word)
    ensures Xor3(RotateRight(x, 7), RotateRight(x, 18), x >> 3) == SmallSigma0(x)
    ensures Xor3(RotateRight(x, 17), RotateRight(x, 19), x >> 10) == SmallSigma1(x)
  {
  }

  class Sha256 {
    const state: array<Word>
    const block: array<Octet>
    var pending: nat
    var total: nat

    ghost predicate Valid()
      reads this
    {
      state.Length == 8 && block.Length == BLOCK_SIZE && pending < BLOCK_SIZE
    }

    ghost function StateOf(): Hash
      requires state.Length == 8
      reads state
    {
      Hash(state[0], state[1], state[2], state[3], state[4], state[5], state[6], state[7])
    }

    ghost function Contents(): Stream
      requires Valid()
      reads this, state, block
    {
      Stream(StateOf(), block[..pending], total)
    }

    constructor ()
      ensures Valid() && fresh(state) && fresh(block) && Contents() == FRESH
    {
      state := new Word[8];
      block := new Octet[64](_ => 0);
      pending, total := 0, 0;
      new;
      state[0], state[1], state[2], state[3] := 0x6A09E667, 0xBB67AE85, 0x3C6EF372, 0xA54FF53A;
      state[4], state[5], state[6], state[7] := 0x510E527F, 0x9B05688C, 0x1F83D9AB, 0x5BE0CD19;
    }

    /** The message schedule of the block. */
    method Expand(w: array<Word>)
      requires w.Length == 64 && block.Length == BLOCK_SIZE
      modifies w
      ensures forall t | 0 <= t < 64 :: w[t] == Schedule(block[..], t)
    {
      hide SmallSigma0, SmallSigma1, Sum;
      ghost var octets := block[..];
      var i := 0;
      while i < 16
        invariant 0 <= i <= 16
        invariant forall t | 0 <= t < i :: w[t] == Schedule(octets, t)
      {
        w[i] := ((block[i * 4] as Word) << 24) | ((block[i * 4 + 1] as Word) << 16)
              | ((block[i * 4 + 2] as Word) << 8) | (block[i * 4 + 3] as Word);
        assert w[i] == WordAt(octets, i);
        i := i + 1;
      }
      while i < 64
        invariant 16 <= i <= 64
        invariant forall t | 0 <= t < i :: w[t] == Schedule(octets, t)
      {
        var s0, s1 := Expansion(w[i - 15], w[i - 2]);
        w[i] := Sum(Sum(Sum(w[i - 16], s0), w[i - 7]), s1);
        i := i + 1;
      }
    }

    /** The sixty-four rounds over the working variables. */
    method RunRounds(w: array<Word>) returns (v: Hash)
      requires state.Length == 8 && block.Length == BLOCK_SIZE && w.Length == 64
      requires forall t | 0 <= t < 64 :: w[t] == Schedule(block[..], t)
      ensures v == Rounds(StateOf(), block[..], 64)
    {
      hide Schedule, Temporary1, Temporary2, RoundConstant, Sum;
      var a, b, c, d := state[0], state[1], state[2], state[3];
      var e, f, g, h := state[4], state[5], state[6], state[7];
      for i := 0 to 64
        invariant Hash(a, b, c, d, e, f, g, h) == Rounds(StateOf(), block[..], i)
      {
        var t1, t2 := Temporaries(a, b, c, e, f, g, h, RoundConstant(i), w[i]);
        h, g, f, e := g, f, e, Sum(d, t1);
        d, c, b, a := c, b, a, Sum(t1, t2);
      }
      v := Hash(a, b, c, d, e, f, g, h);
    }

    /** sha256_compress. */
    method CompressBlock()
      requires state.Length == 8 && block.Length == BLOCK_SIZE
      modifies state
      ensures StateOf() == Compress(old(StateOf()), block[..])
    {
      hide Schedule, Rounds, Sum;
      var w := new Word[64];
      Expand(w);
      var v := RunRounds(w);
      ghost var before := StateOf();
      state[0], state[1], state[2], state[3] :=
        Sum(state[0], v.a), Sum(state[1], v.b), Sum(state[2], v.c), Sum(state[3], v.d);
      state[4], state[5], state[6], state[7] :=
        Sum(state[4], v.e), Sum(state[5], v.f), Sum(state[6], v.g), Sum(state[7], v.h);
      SumCommutes(before, v);
    }

    /** sha256_update. */
    method Absorb(data: seq<Octet>)
      requires Valid()
      modifies this, state, block
      ensures Valid() && Contents() == Update(old(Contents()), data)
    {
      hide Compress, StateOf;
      total := (total + |data|) % UINT64;
      ghost var start := Contents();
      assert data[..0] == [];
      for i := 0 to |data|
        invariant Valid()
        invariant Contents() == PushAll(start, data[..i])
      {
        assert data[..i + 1][..i] == data[..i];
        ghost var before := block[..pending];
        block[pending] := data[i];
        pending := pending + 1;
        assert block[..pending] == before + [data[i]];
        if pending == BLOCK_SIZE {
          assert block[..] == block[..pending];
          CompressBlock();
          pending := 0;
        }
      }
      assert data[..|data|] == data;
    }

    /** sha256_finish: the digest goes to the first 32 octets of the buffer. */
    method Finalize(digest: array<Octet>)
      requires Valid() && digest.Length >= DIGEST_SIZE && digest != block
      modifies this, state, block, digest
      ensures digest[..DIGEST_SIZE] == Finish(old(Contents()))
      ensures digest[DIGEST_SIZE..] == old(digest[DIGEST_SIZE..])
    {
      hide Compress, StateOf, Update, FillZeros, LengthOctets;
      ghost var start := Contents();
      var bits := total * 8 % UINT64;
      Pad();
      ghost var last := Contents();
      assert last == FillZeros(Update(start, [0x80]));
      WriteLength(bits);
      CompressBlock();
      assert StateOf() == Compress(last.hash, last.pending + LengthOctets(bits));
      WriteDigest(digest);
    }

    method Pad()
      requires Valid()
      modifies this, state, block
      ensures Valid() && Contents() == FillZeros(Update(old(Contents()), [0x80]))
      ensures pending == BLOCK_SIZE - 8
    {
      hide Compress, StateOf, Update;
      Absorb([0x80]);
      ghost var goal := FillZeros(Contents());
      while pending != BLOCK_SIZE - 8
        invariant Valid() && FillZeros(Contents()) == goal
        decreases Missing(pending)
      {
        Absorb([0]);
      }
    }

    method WriteLength(bits: nat)
      requires Valid() && pending == BLOCK_SIZE - 8
      modifies block
      ensures block[..] == old(block[..pending]) + LengthOctets(bits)
    {
      ghost var front := block[..pending];
      for i := 0 to 8
        invariant block[..pending] == front
        invariant forall j | 0 <= j < i :: block[BLOCK_SIZE - 8 + j] == (Shr(bits, 56 - 8 * j) % 256) as Octet
      {
        block[BLOCK_SIZE - 8 + i] := (Shr(bits, 56 - 8 * i) % 256) as Octet;
      }
      ghost var r := front + LengthOctets(bits);
      forall k | 0 <= k < BLOCK_SIZE ensures block[k] == r[k] {
        if k < pending { assert block[k] == block[..pending][k]; }
      }
    }

    method WriteDigest(digest: array<Octet>)
      requires state.Length == 8 && digest.Length >= DIGEST_SIZE
      modifies digest
      ensures digest[..DIGEST_SIZE] == HashOctets(StateOf())
      ensures digest[DIGEST_SIZE..] == old(digest[DIGEST_SIZE..])
    {
      hide WordOctets;
      ghost var rest := digest[DIGEST_SIZE..];
      for i := 0 to 8
        invariant digest[..4 * i] == FirstWords(state[..], i)
        invariant digest[DIGEST_SIZE..] == rest
      {
        ghost var front, back := digest[..4 * i], digest[4 * i + 4..];
        WriteWord(digest, 4 * i, state[i]);
        ghost var r := digest[..];
        assert digest[..4 * (i + 1)] == front + r[4 * i..4 * i + 4];
        assert digest[DIGEST_SIZE..] == back[DIGEST_SIZE - 4 * i - 4..];
      }
      AllWords(state[..]);
    }
  }

  method WriteWord(a: array<Octet>, at: nat, w: Word)
    requires at + 4 <= a.Length
    modifies a
    ensures a[..] == old(a[..at]) + WordOctets(w) + old(a[at + 4..])
  {
    ghost var was := a[..];
    a[at] := ((w >> 24) & 0xFF) as Octet;
    a[at + 1] := ((w >> 16) & 0xFF) as Octet;
    a[at + 2] := ((w >> 8) & 0xFF) as Octet;
    a[at + 3] := (w & 0xFF) as Octet;
    ghost var o := WordOctets(w);
    assert a[at] == o[0] && a[at + 1] == o[1] && a[at + 2] == o[2] && a[at + 3] == o[3];
    hide WordOctets;
    ghost var r := was[..at] + o + was[at + 4..];
    assert forall k | 0 <= k < a.Length :: a[k] == r[k];
  }

  ghost function FirstWords(s: seq<Word>, n: nat): (r: seq<Octet>)
    requires n <= |s|
    ensures |r| == 4 * n
  {
    if n == 0 then [] else FirstWords(s, n - 1) + WordOctets(s[n - 1])
  }

  lemma AllWords(s: seq<Word>)
    requires |s| == 8
    ensures FirstWords(s, 8) == HashOctets(Hash(s[0], s[1], s[2], s[3], s[4], s[5], s[6], s[7]))
  {
    hide WordOctets;
    assert FirstWords(s, 4) == WordOctets(s[0]) + WordOctets(s[1]) + WordOctets(s[2]) + WordOctets(s[3]) by {
      assert FirstWords(s, 2) == WordOctets(s[0]) + WordOctets(s[1]);
    }
    assert FirstWords(s, 6) == FirstWords(s, 4) + WordOctets(s[4]) + WordOctets(s[5]);
  }

  method Expansion(x: Word, y: Word) returns (s0: Word, s1: Word)
    ensures s0 == SmallSigma0(x) && s1 == SmallSigma1(y)
  {
    hide RotateRight, Xor3, SmallSigma0, SmallSigma1;
    s0 := Xor3(RotateRight(x, 7), RotateRight(x, 18), x >> 3);
    s1 := Xor3(RotateRight(y, 17), RotateRight(y, 19), y >> 10);
    SmallSigmasByShifts(x);
    SmallSigmasByShifts(y);
  }

  method Temporaries(a: Word, b: Word, c: Word, e: Word, f: Word, g: Word, h: Word, k: Word, w: Word)
    returns (t1: Word, t2: Word)
    ensures t1 == Temporary1(e, f, g, h, k, w) && t2 == Temporary2(a, b, c)
  {
    hide RotateRight, Xor3, Sum, BigSigma0, BigSigma1, Choose, Majority;
    var sigma1 := Xor3(RotateRight(e, 6), RotateRight(e, 11), RotateRight(e, 25));
    t1 := Sum(Sum(Sum(Sum(h, sigma1), Choose(e, f, g)), k), w);
    var sigma0 := Xor3(RotateRight(a, 2), RotateRight(a, 13), RotateRight(a, 22));
    t2 := Sum(sigma0, Majority(a, b, c));
    BigSigmasByShifts(e);
    BigSigmasByShifts(a);
  }

  lemma SumCommutes(x: Hash, y: Hash)
    ensures Plus(x, y) == Plus(y, x)
  {
  }
}
