/** HMAC (RFC 2104), PBKDF2 (RFC 8018) and the key L that the hub derives with them. */
module DongleKeyStore {
  import opened Bitwise
  import opened Sha256Standard
  import opened Sha256Stream
  import opened Sha256Engine

  const MAX_MESSAGE: nat := 0x2000_0000_0000_0000

  // ----- RFC 2104, section 2 -----

  /** The key, hashed if it is longer than a block, filled up with zeros. */
  function KeyBlock(key: seq<Octet>): (r: seq<Octet>)
    requires |key| < MAX_MESSAGE
    ensures |r| == BLOCK_SIZE
  {
    if |key| > BLOCK_SIZE then Digest(key) + Zeros(BLOCK_SIZE - DIGEST_SIZE)
    else key + Zeros(BLOCK_SIZE - |key|)
  }

  function Masked(block: seq<Octet>, mask: Octet): (r: seq<Octet>)
    ensures |r| == |block|
  {
    seq(|block|, i requires 0 <= i < |block| => block[i] ^ mask)
  }

  predicate Hashable(key: seq<Octet>, text: seq<Octet>) {
    |key| < MAX_MESSAGE && BLOCK_SIZE + |text| < MAX_MESSAGE
  }

  function Hmac(key: seq<Octet>, text: seq<Octet>): (r: seq<Octet>)
    requires Hashable(key, text)
    ensures |r| == DIGEST_SIZE
  {
    Digest(Masked(KeyBlock(key), 0x5C) + Digest(Masked(KeyBlock(key), 0x36) + text))
  }

  /** A key longer than a block stands for its digest, a shorter one for itself with zeros
      after it. */
  lemma KeysThatAgree(key: seq<Octet>, text: seq<Octet>, k: nat)
    requires Hashable(key, text)
    ensures |key| > BLOCK_SIZE ==> Hmac(key, text) == Hmac(Digest(key), text)
    ensures |key| + k <= BLOCK_SIZE ==> Hmac(key, text) == Hmac(key + Zeros(k), text)
  {
    hide Digest, Masked;
    if |key| > BLOCK_SIZE {
      assert KeyBlock(key) == KeyBlock(Digest(key));
    } else if |key| + k <= BLOCK_SIZE {
      assert Zeros(k) + Zeros(BLOCK_SIZE - |key| - k) == Zeros(BLOCK_SIZE - |key|);
      assert KeyBlock(key) == KeyBlock(key + Zeros(k));
    }
  }

  // ----- RFC 8018, section 5.2 -----

  function XorAll(x: seq<Octet>, y: seq<Octet>): (r: seq<Octet>)
    requires |x| == |y|
    ensures |r| == |x|
  {
    seq(|x|, i requires 0 <= i < |x| => x[i] ^ y[i])
  }

  /** U_j of block i. */
  function Iterate(password: seq<Octet>, salt: seq<Octet>, i: nat, j: nat): (r: seq<Octet>)
    requires |password| < MAX_MESSAGE && |salt| <= 64 && j >= 1
    ensures |r| == DIGEST_SIZE
  {
    if j == 1 then Hmac(password, salt + Octets(BigEndian(i, 4)))
    else Hmac(password, Iterate(password, salt, i, j - 1))
  }

  /** T_i: the exclusive or of the first c iterates. */
  function Block(password: seq<Octet>, salt: seq<Octet>, c: nat, i: nat): (r: seq<Octet>)
    requires |password| < MAX_MESSAGE && |salt| <= 64 && c >= 1
    ensures |r| == DIGEST_SIZE
  {
    if c == 1 then Iterate(password, salt, i, 1)
    else XorAll(Block(password, salt, c - 1, i), Iterate(password, salt, i, c))
  }

  /** T_1 to T_l, one after the other. */
  function Blocks(password: seq<Octet>, salt: seq<Octet>, c: nat, l: nat): (r: seq<Octet>)
    requires |password| < MAX_MESSAGE && |salt| <= 64 && c >= 1
    ensures |r| == DIGEST_SIZE * l
  {
    if l == 0 then [] else Blocks(password, salt, c, l - 1) + Block(password, salt, c, l)
  }

  /** PBKDF2: as many blocks as the length needs, cut to it. */
  function Pbkdf2(password: seq<Octet>, salt: seq<Octet>, c: nat, length: nat): (r: seq<Octet>)
    requires |password| < MAX_MESSAGE && |salt| <= 64 && c >= 1
    ensures |r| == length
  {
    Blocks(password, salt, c, (length + DIGEST_SIZE - 1) / DIGEST_SIZE)[..length]
  }

  /** A key of at most one digest is the front of T_1. */
  lemma OneBlockIsEnough(password: seq<Octet>, salt: seq<Octet>, c: nat, length: nat)
    requires |password| < MAX_MESSAGE && |salt| <= 64 && c >= 1 && length <= DIGEST_SIZE
    ensures Pbkdf2(password, salt, c, length) == Block(password, salt, c, 1)[..length]
  {
    hide Block;
    if length > 0 {
      assert (length + DIGEST_SIZE - 1) / DIGEST_SIZE == 1;
      var none, one := Blocks(password, salt, c, 0), Blocks(password, salt, c, 1);
      assert one == none + Block(password, salt, c, 1);
    }
  }

  // ----- as computed -----

  /** A fresh stream that has been given two pieces ends in the digest of both. */
  lemma TwoPieces(x: seq<Octet>, y: seq<Octet>)
    requires |x| + |y| < MAX_MESSAGE
    ensures Finish(Update(Update(FRESH, x), y)) == Digest(x + y)
  {
    hide Update, Finish, Digest;
    var chunks, tail := [x, y], [y];
    assert chunks[1..] == tail && tail[1..] == [];
    assert Joined(tail) == y + Joined(tail[1..]) == y;
    assert Joined(chunks) == x + y;
    assert Feed(Update(FRESH, x), tail) == Feed(Update(Update(FRESH, x), y), tail[1..]);
    StreamingIsDigest(chunks);
  }

  lemma OnePiece(x: seq<Octet>)
    requires |x| < MAX_MESSAGE
    ensures Finish(Update(FRESH, x)) == Digest(x)
  {
    hide Update, Finish, Digest;
    var chunks := [x];
    assert chunks[1..] == [];
    assert Joined(chunks) == x;
    assert Feed(FRESH, chunks) == Update(FRESH, x);
    StreamingIsDigest(chunks);
  }

  /** Two pieces hashed by a fresh engine. */
  method HashPair(x: seq<Octet>, y: seq<Octet>, digest: array<Octet>)
    requires |x| + |y| < MAX_MESSAGE && digest.Length >= DIGEST_SIZE
    modifies digest
    ensures digest[..DIGEST_SIZE] == Digest(x + y)
    ensures digest[DIGEST_SIZE..] == old(digest[DIGEST_SIZE..])
  {
    hide Update, Finish, Digest;
    var sha := new Sha256();
    sha.Absorb(x);
    sha.Absorb(y);
    sha.Finalize(digest);
    TwoPieces(x, y);
  }

  method PadKey(key: seq<Octet>) returns (padded: array<Octet>)
    requires |key| < MAX_MESSAGE
    ensures fresh(padded) && padded[..] == KeyBlock(key)
  {
    hide Update, Finish, Digest;
    padded := new Octet[64](_ => 0);
    if |key| > BLOCK_SIZE {
      var shrink := new Sha256();
      shrink.Absorb(key);
      assert padded[DIGEST_SIZE..] == Zeros(BLOCK_SIZE - DIGEST_SIZE);
      shrink.Finalize(padded);
      OnePiece(key);
      assert padded[..] == padded[..DIGEST_SIZE] + padded[DIGEST_SIZE..];
    } else {
      forall i | 0 <= i < |key| { padded[i] := key[i]; }
    }
  }

  method Mask(block: array<Octet>, mask: Octet) returns (pad: array<Octet>)
    ensures fresh(pad) && pad[..] == Masked(block[..], mask)
  {
    pad := new Octet[block.Length];
    for i := 0 to block.Length
      invariant forall j | 0 <= j < i :: pad[j] == block[j] ^ mask
    {
      pad[i] := block[i] ^ mask;
    }
  }

  /** hmac_sha256 is the HMAC of RFC 2104, for every length of key. */
  method HmacSha256(key: seq<Octet>, message: seq<Octet>, digest: array<Octet>)
    requires Hashable(key, message) && digest.Length >= DIGEST_SIZE
    modifies digest
    ensures digest[..DIGEST_SIZE] == Hmac(key, message)
    ensures digest[DIGEST_SIZE..] == old(digest[DIGEST_SIZE..])
  {
    hide Digest, Masked;
    var padded := PadKey(key);
    var pad := Mask(padded, 0x36);
    var inner := new Octet[32];
    HashPair(pad[..], message, inner);
    pad := Mask(padded, 0x5C);
    assert inner[..] == inner[..DIGEST_SIZE];
    HashPair(pad[..], inner[..], digest);
  }

  /** pbkdf2_hmac_sha256 for keys of at most one digest.  An iteration count of zero is
      taken as one. */
  method Pbkdf2HmacSha256(password: seq<Octet>, salt: seq<Octet>, iterations: nat, key: array<Octet>)
    requires |password| < MAX_MESSAGE && |salt| <= 64 && key.Length <= DIGEST_SIZE
    modifies key
    ensures key[..] == Pbkdf2(password, salt, if iterations == 0 then 1 else iterations, key.Length)
  {
    hide Hmac;
    var u := new Octet[32];
    IndexOne();
    HmacSha256(password, salt + [0, 0, 0, 1], u);
    assert u[..] == u[..DIGEST_SIZE];
    var accumulated := new Octet[32](i requires 0 <= i < 32 reads u => u[i]);
    assert accumulated[..] == u[..];
    var i := 1;
    while i < iterations
      invariant 1 <= i && (i <= iterations || i == 1)
      invariant fresh(u) && u.Length == 32 && accumulated != u
      invariant u[..] == Iterate(password, salt, 1, i)
      invariant accumulated[..] == Block(password, salt, i, 1)
    {
      var next := new Octet[32];
      HmacSha256(password, u[..], next);
      assert next[..] == next[..DIGEST_SIZE];
      u := next;
      Accumulate(accumulated, u);
      i := i + 1;
    }
    OneBlockIsEnough(password, salt, i, key.Length);
    forall j | 0 <= j < key.Length { key[j] := accumulated[j]; }
    assert key[..] == accumulated[..][..key.Length];
  }

  lemma IndexOne()
    ensures Octets(BigEndian(1, 4)) == [0, 0, 0, 1]
  {
    assert BigEndian(0, 1) == [0];
    assert BigEndian(0, 2) == BigEndian(0, 1) + [0];
    assert BigEndian(0, 3) == [0, 0, 0];
    assert BigEndian(1, 4) == [0, 0, 0, 1];
  }

  method Accumulate(x: array<Octet>, y: array<Octet>)
    requires x.Length == y.Length && x != y
    modifies x
    ensures x[..] == XorAll(old(x[..]), y[..])
  {
    ghost var was := x[..];
    for j := 0 to x.Length
      invariant forall k | 0 <= k < j :: x[k] == was[k] ^ y[k]
      invariant forall k | j <= k < x.Length :: x[k] == was[k]
    {
      x[j] := x[j] ^ y[j];
    }
  }

  // ----- the key of the hub -----

  const KEY_LENGTH: nat := 16
  const VERIFY_LENGTH: nat := 8
  const ITERATIONS: nat := 200000

  function Ascii(s: string): (r: seq<Octet>)
    requires forall i | 0 <= i < |s| :: s[i] as nat < 128
    ensures |r| == |s|
  {
    seq(|s|, i requires 0 <= i < |s| => (s[i] as nat) as Octet)
  }

  /** deriveKeyL. */
  method DeriveKeyL(password: seq<Octet>, key: array<Octet>)
    requires |password| < MAX_MESSAGE && key.Length == KEY_LENGTH
    modifies key
    ensures key[..] == Pbkdf2(password, Ascii("bally-kdf-salt-1"), ITERATIONS, KEY_LENGTH)
  {
    hide Pbkdf2;
    Pbkdf2HmacSha256(password, Ascii("bally-kdf-salt-1"), ITERATIONS, key);
  }

  /** verifyTagL: the front of the HMAC of the label; the working digest is wiped. */
  method VerifyTagL(key: seq<Octet>, tag: array<Octet>)
    requires |key| == KEY_LENGTH && tag.Length == VERIFY_LENGTH
    modifies tag
    ensures tag[..] == Hmac(key, Ascii("bally-canal-c"))[..VERIFY_LENGTH]
  {
    hide Hmac;
    var digest := new Octet[32];
    HmacSha256(key, Ascii("bally-canal-c"), digest);
    assert digest[..] == digest[..DIGEST_SIZE];
    forall i | 0 <= i < VERIFY_LENGTH { tag[i] := digest[i]; }
    forall i | 0 <= i < digest.Length { digest[i] := 0; }
  }
}
