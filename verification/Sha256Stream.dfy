/** SHA-256 as the key store computes it: octets come in pieces, a block is compressed as
    soon as it is full, and the padding goes in the same way.  Whatever the pieces, the
    result is the digest of the whole message. */
module Sha256Stream {
  import opened Bitwise
  import opened Common
  import opened Sha256Standard

  /** `total` is the source's 64-bit count of octets. */
  datatype Stream = Stream(hash: Hash, pending: seq<Octet>, total: nat)

  const FRESH := Stream(INITIAL, [], 0)

  /** One octet: a block that it fills is compressed at once. */
  function Push(s: Stream, b: Octet): (r: Stream)
    requires |s.pending| < BLOCK_SIZE
    ensures |r.pending| < BLOCK_SIZE && r.total == s.total
  {
    if |s.pending| < BLOCK_SIZE - 1 then s.(pending := s.pending + [b])
    else s.(hash := Compress(s.hash, s.pending + [b]), pending := [])
  }

  function PushAll(s: Stream, data: seq<Octet>): (r: Stream)
    requires |s.pending| < BLOCK_SIZE
    ensures |r.pending| < BLOCK_SIZE && r.total == s.total
    ensures |data| == 1 ==> r == Push(s, data[0])
  {
    if data == [] then s else Push(PushAll(s, data[..|data| - 1]), data[|data| - 1])
  }

  /** sha256_update. */
  function Update(s: Stream, data: seq<Octet>): (r: Stream)
    requires |s.pending| < BLOCK_SIZE
    ensures |r.pending| < BLOCK_SIZE
    ensures |data| == 1 ==> |r.pending| == if |s.pending| == BLOCK_SIZE - 1 then 0 else |s.pending| + 1
  {
    PushAll(s.(total := (s.total + |data|) % UINT64), data)
  }

  /** The zeros that FillZeros adds. */
  function Missing(pending: nat): nat
    requires pending < BLOCK_SIZE
  {
    if pending <= BLOCK_SIZE - 8 then BLOCK_SIZE - 8 - pending else 2 * BLOCK_SIZE - 8 - pending
  }

  /** The padding loop of sha256_finish. */
  function FillZeros(s: Stream): (r: Stream)
    requires |s.pending| < BLOCK_SIZE
    ensures |r.pending| == BLOCK_SIZE - 8
    decreases Missing(|s.pending|)
  {
    if |s.pending| == BLOCK_SIZE - 8 then s else FillZeros(Update(s, [0]))
  }

  /** The eight octets that end the last block. */
  function LengthOctets(bits: nat): (r: seq<Octet>)
    ensures |r| == 8
  {
    seq(8, i requires 0 <= i < 8 => (Shr(bits, 56 - 8 * i) % 256) as Octet)
  }

  /** sha256_finish. */
  function Finish(s: Stream): (r: seq<Octet>)
    requires |s.pending| < BLOCK_SIZE
    ensures |r| == DIGEST_SIZE
  {
    var last := FillZeros(Update(s, [0x80]));
    HashOctets(Compress(last.hash, last.pending + LengthOctets(s.total * 8 % UINT64)))
  }

  // ----- a stream stands for the message it has been given -----

  /** The hash of all whole blocks, and the octets after them. */
  predicate Holds(s: Stream, m: seq<Octet>) {
    var n := |m| / BLOCK_SIZE;
    s.hash == HashAfter(m, n) && s.pending == m[BLOCK_SIZE * n..]
  }

  predicate Represents(s: Stream, m: seq<Octet>) {
    Holds(s, m) && s.total == |m| % UINT64
  }

  lemma PushHolds(s: Stream, m: seq<Octet>, b: Octet)
    requires Holds(s, m) && |s.pending| < BLOCK_SIZE
    ensures Holds(Push(s, b), m + [b])
  {
    hide Compress;
    var n := |m| / BLOCK_SIZE;
    HashAfterPrefix(m, [b], n);
    if |s.pending| == BLOCK_SIZE - 1 {
      assert (m + [b])[BLOCK_SIZE * n..BLOCK_SIZE * (n + 1)] == s.pending + [b];
      assert |m + [b]| / BLOCK_SIZE == n + 1;
    } else {
      assert (m + [b])[BLOCK_SIZE * n..] == s.pending + [b];
      assert |m + [b]| / BLOCK_SIZE == n;
    }
  }

  lemma {:induction false} PushAllHolds(s: Stream, m: seq<Octet>, data: seq<Octet>)
    requires Holds(s, m) && |s.pending| < BLOCK_SIZE
    ensures Holds(PushAll(s, data), m + data)
    decreases |data|
  {
    hide Holds, Push;
    if data == [] {
      assert m + data == m;
    } else {
      var front := data[..|data| - 1];
      PushAllHolds(s, m, front);
      PushHolds(PushAll(s, front), m + front, data[|data| - 1]);
      assert m + front + [data[|data| - 1]] == m + data;
    }
  }

  lemma UpdateRepresents(s: Stream, m: seq<Octet>, data: seq<Octet>)
    requires Represents(s, m) && |s.pending| < BLOCK_SIZE
    ensures Represents(Update(s, data), m + data)
  {
    hide HashAfter, Compress;
    var t := s.(total := (s.total + |data|) % UINT64);
    assert Holds(t, m);
    PushAllHolds(t, m, data);
    hide Holds;
    TotalOf(|m|, |data|);
  }

  lemma TotalOf(a: nat, b: nat)
    ensures (a % UINT64 + b) % UINT64 == (a + b) % UINT64
  {
    var q := a / UINT64;
    assert a == UINT64 * q + a % UINT64;
    assert a + b == UINT64 * q + (a % UINT64 + b);
  }

  // ----- any chunking -----

  function Feed(s: Stream, chunks: seq<seq<Octet>>): (r: Stream)
    requires |s.pending| < BLOCK_SIZE
    ensures |r.pending| < BLOCK_SIZE
    decreases |chunks|
  {
    if chunks == [] then s else Feed(Update(s, chunks[0]), chunks[1..])
  }

  function Joined(chunks: seq<seq<Octet>>): seq<Octet> {
    if chunks == [] then [] else chunks[0] + Joined(chunks[1..])
  }

  lemma {:induction false} FeedRepresents(s: Stream, m: seq<Octet>, chunks: seq<seq<Octet>>)
    requires Represents(s, m) && |s.pending| < BLOCK_SIZE
    ensures Represents(Feed(s, chunks), m + Joined(chunks))
    decreases |chunks|
  {
    hide Represents, Update;
    if chunks == [] {
      assert m + [] == m;
    } else {
      UpdateRepresents(s, m, chunks[0]);
      FeedRepresents(Update(s, chunks[0]), m + chunks[0], chunks[1..]);
      assert m + chunks[0] + Joined(chunks[1..]) == m + Joined(chunks);
    }
  }

  // ----- the padding -----

  lemma {:induction false} FillZerosHolds(s: Stream, m: seq<Octet>)
    requires Holds(s, m) && |s.pending| < BLOCK_SIZE
    ensures Holds(FillZeros(s), m + Zeros(Missing(|s.pending|)))
    decreases Missing(|s.pending|)
  {
    hide Holds;
    var k := Missing(|s.pending|);
    if |s.pending| == BLOCK_SIZE - 8 {
      assert m + Zeros(k) == m;
    } else {
      var t := Update(s, [0]);
      UpdateZero(s, m);
      FillZerosHolds(t, m + [0]);
      assert Zeros(k) == [0] + Zeros(k - 1);
      assert m + [0] + Zeros(k - 1) == m + Zeros(k);
    }
  }

  lemma UpdateZero(s: Stream, m: seq<Octet>)
    requires Holds(s, m) && |s.pending| < BLOCK_SIZE
    ensures Holds(Update(s, [0]), m + [0])
    ensures |Update(s, [0]).pending| == if |s.pending| == BLOCK_SIZE - 1 then 0 else |s.pending| + 1
  {
    hide HashAfter, Compress;
    var t := s.(total := (s.total + 1) % UINT64);
    assert Holds(t, m);
    PushHolds(t, m, 0);
  }

  lemma LengthIsBigEndian(bits: nat)
    ensures LengthOctets(bits) == Octets(BigEndian(bits, 8))
  {
    var x, y := LengthOctets(bits), Octets(BigEndian(bits, 8));
    forall i | 0 <= i < 8 ensures x[i] == y[i] {
      BigEndianAt(bits, 8, i);
    }
  }

  lemma PaddingHolds(s: Stream, m: seq<Octet>)
    requires Holds(s, m) && |s.pending| < BLOCK_SIZE
    ensures var last := FillZeros(Update(s, [0x80]));
      Holds(last, m + [0x80] + Zeros(ZeroCount(|m|)))
  {
    hide HashAfter, Compress, FillZeros, Push;
    var t := s.(total := (s.total + 1) % UINT64);
    assert Holds(t, m);
    PushHolds(t, m, 0x80);
    hide Holds;
    var u := Update(s, [0x80]);
    FillZerosHolds(u, m + [0x80]);
    PendingOf(s, m);
  }

  lemma PendingOf(s: Stream, m: seq<Octet>)
    requires Holds(s, m) && |s.pending| < BLOCK_SIZE
    ensures ZeroCount(|m|) == Missing(if |s.pending| == BLOCK_SIZE - 1 then 0 else |s.pending| + 1)
  {
    hide HashAfter;
    var r := |m| % 64;
    assert |s.pending| == r;
    assert ZeroCount(|m|) == if r <= 55 then 55 - r else 119 - r;
  }

  /** sha256_finish gives the digest of everything the stream has been given. */
  lemma FinishIsDigest(s: Stream, m: seq<Octet>)
    requires Represents(s, m) && |s.pending| < BLOCK_SIZE && |m| < 0x2000_0000_0000_0000
    ensures Finish(s) == Digest(m)
  {
    hide HashAfter, Compress, FillZeros, Update, HashOctets, Octets, BigEndian, LengthOctets;
    var z := m + [0x80] + Zeros(ZeroCount(|m|));
    var last := FillZeros(Update(s, [0x80]));
    PaddingHolds(s, m);
    assert s.total * 8 % UINT64 == 8 * |m|;
    LengthIsBigEndian(8 * |m|);
    LastBlock(last, z, LengthOctets(8 * |m|));
  }

  lemma LastBlock(s: Stream, m: seq<Octet>, end: seq<Octet>)
    requires Holds(s, m) && |s.pending| == BLOCK_SIZE - 8 && |end| == 8
    ensures HashAfter(m + end, |m + end| / BLOCK_SIZE) == Compress(s.hash, s.pending + end)
  {
    hide Compress;
    var n := |m| / BLOCK_SIZE;
    assert |m| == BLOCK_SIZE * n + (BLOCK_SIZE - 8);
    assert |m + end| / BLOCK_SIZE == n + 1;
    assert (m + end)[BLOCK_SIZE * n..BLOCK_SIZE * (n + 1)] == s.pending + end;
    HashAfterPrefix(m, end, n);
  }

  /** Whatever the split into sha256_update calls, sha256_finish yields the digest of the
      joined pieces. */
  lemma StreamingIsDigest(chunks: seq<seq<Octet>>)
    requires |Joined(chunks)| < 0x2000_0000_0000_0000
    ensures Finish(Feed(FRESH, chunks)) == Digest(Joined(chunks))
  {
    hide Finish, Digest, Feed;
    FeedRepresents(FRESH, [], chunks);
    assert [] + Joined(chunks) == Joined(chunks);
    FinishIsDigest(Feed(FRESH, chunks), Joined(chunks));
  }
}
