/** The transmit side of the cable: a frame pump over a port that takes as many bytes as it
    likes, zero included.

    The byte stuffing (COBS) belongs to the protocol library; `encode` stands for it, and
    Stuffing is its contract. */
module SerialWire {
  import opened Bitwise
  import opened SerialQueues

  const MAX_BLOCK: nat := 2100
  const MAX_IMMEDIATE_WRITES: nat := 4

  /** The output has no zero, is not empty, and is at most one byte in 254 longer, and one. */
  ghost predicate Stuffing(encode: Frame -> Bytes) {
    forall f: Frame :: 0 !in encode(f) && encode(f) != [] && |encode(f)| <= |f| + |f| / 254 + 1
  }

  /** A frame on the wire: delimited by a zero on either side. */
  function Block(encode: Frame -> Bytes, f: Frame): Bytes {
    if f == [] then [] else [0] + encode(f) + [0]
  }

  function Blocks(encode: Frame -> Bytes, fs: seq<Frame>): Bytes {
    if fs == [] then [] else Blocks(encode, fs[..|fs| - 1]) + Block(encode, fs[|fs| - 1])
  }

  lemma BlockFits(encode: Frame -> Bytes, f: Frame)
    requires Stuffing(encode) && |f| <= 2088
    ensures |encode(f)| <= MAX_BLOCK
  {
    assert |f| / 254 <= 8;
  }

  // ----- what a receiver makes of the stream -----

  /** Blocks seen so far, and the bytes since the last zero. */
  datatype Received = Received(blocks: seq<Bytes>, open: Bytes)

  function Receive(r: Received, stream: Bytes): Received {
    if stream == [] then r
    else
      var s, b := Receive(r, stream[..|stream| - 1]), stream[|stream| - 1];
      if b != 0 then s.(open := s.open + [b])
      else if s.open == [] then s
      else Received(s.blocks + [s.open], [])
  }

  lemma {:induction false} ReceiveJoin(r: Received, x: Bytes, y: Bytes)
    ensures Receive(r, x + y) == Receive(Receive(r, x), y)
    decreases |y|
  {
    if y == [] {
      assert x + y == x;
    } else {
      ReceiveJoin(r, x, y[..|y| - 1]);
      assert (x + y)[..|x + y| - 1] == x + y[..|y| - 1];
    }
  }

  lemma {:induction false} ReceivePlain(r: Received, x: Bytes)
    requires 0 !in x
    ensures Receive(r, x) == r.(open := r.open + x)
  {
    if x != [] {
      var front := x[..|x| - 1];
      assert forall b | b in front :: b in x;
      ReceivePlain(r, front);
      assert front + [x[|x| - 1]] == x;
      assert r.open + front + [x[|x| - 1]] == r.open + x;
      assert x[|x| - 1] in x;
    } else {
      assert r.open + x == r.open;
    }
  }

  /** Blocks closed by a zero: an open one is closed as it stands. */
  function Closed(r: Received): seq<Bytes> {
    if r.open == [] then r.blocks else r.blocks + [r.open]
  }

  lemma ReceiveZero(r: Received)
    ensures Receive(r, [0]) == Received(Closed(r), [])
  {
    var z: Bytes := [0];
    assert z[..0] == [];
    assert Receive(r, z[..0]) == r;
  }

  /** A delimited block arrives whole, whatever came before it. */
  lemma ReceiveBlock(encode: Frame -> Bytes, r: Received, f: Frame)
    requires Stuffing(encode) && f != []
    ensures Receive(r, Block(encode, f)) == Received(Closed(r) + [encode(f)], [])
  {
    hide Receive;
    var e := encode(f);
    ReceiveZero(r);
    var s := Received(Closed(r), []);
    ReceivePlain(s, e);
    assert s.open + e == e;
    var t := Received(Closed(r), e);
    ReceiveZero(t);
    ReceiveJoin(r, [0], e);
    ReceiveJoin(r, [0] + e, [0]);
  }

  function Encodings(encode: Frame -> Bytes, fs: seq<Frame>): seq<Bytes> {
    if fs == [] then []
    else
      var front, last := Encodings(encode, fs[..|fs| - 1]), fs[|fs| - 1];
      if last == [] then front else front + [encode(last)]
  }

  lemma {:induction false} ReceiveBlocks(encode: Frame -> Bytes, fs: seq<Frame>)
    requires Stuffing(encode)
    ensures Receive(Received([], []), Blocks(encode, fs)) == Received(Encodings(encode, fs), [])
  {
    hide Receive, Stuffing;
    if fs == [] {
      assert Receive(Received([], []), []) == Received([], []) by { ReceiveNothing(); }
    } else {
      var front, last := fs[..|fs| - 1], fs[|fs| - 1];
      ReceiveBlocks(encode, front);
      ReceiveJoin(Received([], []), Blocks(encode, front), Block(encode, last));
      if last == [] {
        assert Blocks(encode, fs) == Blocks(encode, front) + [] == Blocks(encode, front);
      } else {
        ReceiveBlock(encode, Received(Encodings(encode, front), []), last);
      }
    }
  }

  lemma ReceiveNothing()
    ensures Receive(Received([], []), []) == Received([], [])
  {
  }

  /** The bytes of a session: whole blocks of the frames begun, in order, and so much of the
      last one as the port has taken. */
  predicate Stream(encode: Frame -> Bytes, begun: seq<Frame>, wire: Bytes, offset: nat, stream: Bytes) {
    if offset < |wire| then
      && begun != [] && wire == Block(encode, begun[|begun| - 1])
      && stream == Blocks(encode, begun[..|begun| - 1]) + wire[..offset]
    else offset == 0 && wire == [] && stream == Blocks(encode, begun)
  }

  /** What the desktop has when a session stops anywhere: every frame sent whole, in the
      order in which they were dequeued, and a front of the one that was being sent. */
  lemma StreamReceived(encode: Frame -> Bytes, begun: seq<Frame>, wire: Bytes, offset: nat, stream: Bytes)
    requires Stuffing(encode) && Stream(encode, begun, wire, offset, stream)
    ensures var r := Receive(Received([], []), stream);
      if offset < |wire| then
        && r.blocks == Encodings(encode, begun[..|begun| - 1])
        && r.open == encode(begun[|begun| - 1])[..if offset == 0 then 0 else offset - 1]
      else r == Received(Encodings(encode, begun), [])
  {
    hide Receive;
    if offset < |wire| {
      var front, last := begun[..|begun| - 1], begun[|begun| - 1];
      ReceiveBlocks(encode, front);
      ReceiveJoin(Received([], []), Blocks(encode, front), wire[..offset]);
      ReceivePartial(encode, Received(Encodings(encode, front), []), last, offset);
    } else {
      ReceiveBlocks(encode, begun);
    }
  }

  lemma ReceivePartial(encode: Frame -> Bytes, r: Received, f: Frame, n: nat)
    requires Stuffing(encode) && f != [] && n < |Block(encode, f)| && r.open == []
    ensures Receive(r, Block(encode, f)[..n]) == r.(open := encode(f)[..if n == 0 then 0 else n - 1])
  {
    var b, e := Block(encode, f), encode(f);
    if n == 0 {
      assert b[..0] == [];
    } else {
      hide Receive;
      assert b[..n] == [0] + e[..n - 1];
      ReceiveJoin(r, [0], e[..n - 1]);
      ReceiveZero(r);
      assert forall x | x in e[..n - 1] :: x in e;
      ReceivePlain(r, e[..n - 1]);
      assert r.open + e[..n - 1] == e[..n - 1];
    }
  }

  /** A session-ending reply that the port takes whole is a block of its own, also when it is
      written over a frame that was half sent: that one is cut short and closed, and no frame
      before it is touched. */
  lemma ReplyStandsAlone(encode: Frame -> Bytes, begun: seq<Frame>, wire: Bytes, offset: nat, stream: Bytes, reply: Frame)
    requires Stuffing(encode) && Stream(encode, begun, wire, offset, stream) && reply != []
    ensures var r := Receive(Received([], []), stream + Block(encode, reply));
      && r.open == []
      && r.blocks == Closed(Receive(Received([], []), stream)) + [encode(reply)]
      && Encodings(encode, if offset < |wire| then begun[..|begun| - 1] else begun) <= r.blocks
  {
    hide Receive;
    StreamReceived(encode, begun, wire, offset, stream);
    var r := Receive(Received([], []), stream);
    ReceiveJoin(Received([], []), stream, Block(encode, reply));
    ReceiveBlock(encode, r, reply);
  }
}
