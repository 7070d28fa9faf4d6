/** The transmitter of the cable as the source has it: the queues, the one frame on the
    wire with its cursor, and the bounded immediate write of a closing session. */
module SerialTransmitter {
  import opened Bitwise
  import opened SerialQueues
  import opened SerialWire

  function Min(a: nat, b: nat): nat { if a < b then a else b }

  /** A port that reports for its k-th write whatever `claims` says; it takes that many bytes,
      but never more than it is offered. */
  class Port {
    const claims: nat -> nat
    var calls: nat
    ghost var accepted: Bytes

    constructor (claims: nat -> nat)
      ensures this.claims == claims && calls == 0 && accepted == []
    {
      this.claims := claims;
      calls := 0;
      accepted := [];
    }

    method Write(data: Bytes) returns (sent: nat)
      modifies this
      ensures sent == claims(old(calls)) && calls == old(calls) + 1
      ensures accepted == old(accepted) + data[..Min(sent, |data|)]
    {
      sent := claims(calls);
      calls := calls + 1;
      accepted := accepted + data[..Min(sent, |data|)];
    }
  }

  datatype PumpResult = Idle | Pending | Completed

  class Transmitter {
    const encode: Frame -> Bytes
    const port: Port
    const queues: TxQueues
    var wire: Bytes
    var offset: nat
    var stalledCounted: bool
    var framesTx: nat
    var framesStalled: nat
    /** Where the session began in the port's bytes, and the frames begun since. */
    ghost var start: nat
    ghost var begun: seq<Frame>

    ghost predicate Valid()
      reads this, port, queues, queues.items
    {
      && queues.Valid() && start <= |port.accepted|
      && Stuffing(encode) && Stream(encode, begun, wire, offset, port.accepted[start..])
    }

    constructor (encode: Frame -> Bytes, claims: nat -> nat)
      requires Stuffing(encode)
      ensures Valid() && this.encode == encode && port.claims == claims && port.accepted == [] && begun == []
      ensures fresh(port) && fresh(queues) && fresh(queues.items) && fresh(queues.dropped)
    {
      this.encode := encode;
      port := new Port(claims);
      queues := new TxQueues();
      wire, offset, stalledCounted := [], 0, false;
      framesTx, framesStalled := 0, 0;
      start, begun := 0, [];
    }

    /** What the desktop has made of the bytes of this session. */
    ghost function Desktop(): Received
      requires start <= |port.accepted|
      reads this, port
    {
      Receive(Received([], []), port.accepted[start..])
    }

    /** At any moment the desktop has every frame that was sent whole, in the order in which
        they were dequeued, and a front of the one on the wire. */
    lemma Delivered()
      requires Valid()
      ensures if HasPending() then
          begun != [] && Desktop().blocks == Encodings(encode, begun[..|begun| - 1])
          && Desktop().open == encode(begun[|begun| - 1])[..if offset == 0 then 0 else offset - 1]
        else Desktop() == Received(Encodings(encode, begun), [])
    {
      hide Receive, Encodings;
      StreamReceived(encode, begun, wire, offset, port.accepted[start..]);
    }

    predicate HasPending()
      reads this
    {
      offset < |wire|
    }

    /** pumpPendingWireFrame: at most one write, and the cursor follows what was taken. */
    method Pump() returns (result: PumpResult)
      requires Valid()
      modifies this`wire, this`offset, this`stalledCounted, this`framesTx, this`framesStalled, port
      ensures Valid() && port.calls <= old(port.calls) + 1 && old(port.accepted) <= port.accepted
      ensures result.Idle? <==> !old(HasPending())
      ensures result.Pending? <==> HasPending()
      ensures result.Completed? ==> framesTx == old(framesTx) + 1
      ensures !result.Completed? ==> framesTx == old(framesTx)
    {
      hide Blocks, Block, Stuffing;
      if !HasPending() { return Idle; }
      var remaining := |wire| - offset;
      ghost var before := port.accepted[start..];
      var sent := port.Write(wire[offset..]);
      var n := Min(sent, remaining);
      assert port.accepted[start..] == before + wire[offset..][..n];
      assert wire[..offset] + wire[offset..][..n] == wire[..offset + n];
      if sent == 0 {
        if !stalledCounted {
          framesStalled := framesStalled + 1;
          stalledCounted := true;
        }
        assert before + wire[offset..][..n] == before;
        return Pending;
      }
      ghost var front := Blocks(encode, begun[..|begun| - 1]);
      assert port.accepted[start..] == front + wire[..offset + n];
      offset := offset + n;
      if HasPending() { return Pending; }
      framesTx := framesTx + 1;
      assert wire[..offset] == wire;
      assert Blocks(encode, begun) == front + wire by { LastBlock(encode, begun); }
      wire, offset, stalledCounted := [], 0, false;
      result := Completed;
    }

    /** stageFrameCobs: only onto an empty wire. */
    method Stage(f: Frame) returns (staged: bool)
      requires Valid() && |f| <= 2088 && !HasPending()
      modifies this`wire, this`offset, this`stalledCounted, this`begun
      ensures Valid() && begun == old(begun) + [f] && staged == (f != [])
      ensures staged <==> HasPending()
    {
      hide Blocks, Stuffing;
      ghost var was := begun;
      begun := begun + [f];
      assert begun[..|begun| - 1] == was;
      if f == [] {
        assert Blocks(encode, begun) == Blocks(encode, was) by { LastBlock(encode, begun); }
        return false;
      }
      var encoded := encode(f);
      BlockFits(encode, f);
      if |encoded| > MAX_BLOCK {
        assert false; // the buffer is large enough for every frame
      }
      wire := [0] + encoded + [0];
      offset, stalledCounted := 0, false;
      assert wire[..0] == [];
      staged := true;
    }

    /** drainQueueClass: n is the number of frames dequeued. */
    method DrainClass(c: nat, max: nat) returns (more: bool, ghost n: nat)
      requires Valid() && c < CLASS_COUNT && !HasPending() && Small()
      modifies this`wire, this`offset, this`stalledCounted, this`framesTx, this`framesStalled, this`begun, port,
        queues.items
      ensures Valid() && Small() && old(port.accepted) <= port.accepted
      ensures n <= max && n <= |old(queues.items[c])|
      ensures queues.items[..] == old(queues.items[..])[c := old(queues.items[c])[n..]]
      ensures begun == old(begun) + old(queues.items[c])[..n]
      ensures more ==> !HasPending() && (n == max || queues.items[c] == [])
    {
      hide Stream, Stuffing;
      ghost var was, items, taken := begun, queues.items[..], queues.items[c];
      n := 0;
      var drained := 0;
      assert was + taken[..0] == was && items[c := taken[0..]] == items;
      while drained < max && |queues.items[c]| > 0
        invariant Valid() && Small() && !HasPending() && old(port.accepted) <= port.accepted
        invariant n == drained <= max && n <= |taken|
        invariant queues.items[..] == items[c := taken[n..]]
        invariant begun == was + taken[..n]
      {
        var f, some := queues.Dequeue(c);
        assert taken[n..][1..] == taken[n + 1..] && taken[..n] + [taken[n]] == taken[..n + 1];
        assert items[c := taken[n..]][c := taken[n + 1..]] == items[c := taken[n + 1..]];
        n := n + 1;
        var staged := Stage(f);
        assert begun == was + taken[..n];
        if !staged {
          framesStalled := framesStalled + 1;
          more := false;
          return;
        }
        drained := drained + 1;
        var result := Pump();
        if !result.Completed? {
          more := false;
          return;
        }
      }
      more := true;
    }

    /** drainTx: the rest of the frame on the wire first, then the classes in strict order,
        each up to its share; n says how many frames of each were begun. */
    method DrainTx() returns (ghost n: seq<nat>)
      requires Valid() && Small()
      modifies this`wire, this`offset, this`stalledCounted, this`framesTx, this`framesStalled, this`begun, port,
        queues.items
      ensures Valid() && Small() && old(port.accepted) <= port.accepted
      ensures |n| == CLASS_COUNT && forall c | 0 <= c < CLASS_COUNT :: n[c] <= |old(queues.items[c])|
      ensures forall c | 0 <= c < CLASS_COUNT :: queues.items[c] == old(queues.items[c])[n[c]..]
      ensures begun == old(begun) + Firsts(old(queues.items[..]), n, CLASS_COUNT)
      ensures InStrictOrder(n, queues.items[..])
    {
      hide Stream, Stuffing, Firsts, InStrictOrder;
      ghost var was, items := begun, queues.items[..];
      NothingSent([0, 0, 0, 0], items);
      n := [0, 0, 0, 0];
      NoFirsts(items, n, CLASS_COUNT);
      assert was + [] == was;
      if HasPending() {
        var result := Pump();
        if !result.Completed? { return; }
      }
      var more;
      more, n := DrainNext(SESSION, 8, was, items, n);
      if !more { return; }
      more, n := DrainNext(TERMINAL, 4, was, items, n);
      if !more { return; }
      more, n := DrainNext(LOG_STATUS, 4, was, items, n);
      if !more { return; }
      more, n := DrainNext(TELEMETRY, 4, was, items, n);
    }

    /** One class of drainTx, after those before it. */
    method DrainNext(c: nat, max: nat, ghost was: seq<Frame>, ghost items: seq<seq<Frame>>, ghost n: seq<nat>)
      returns (more: bool, ghost m: seq<nat>)
      requires Valid() && Small() && !HasPending() && c < CLASS_COUNT && max == SHARE[c]
      requires |items| == |n| == CLASS_COUNT && Progress(items, n, queues.items[..])
      requires (forall d | c <= d < CLASS_COUNT :: n[d] == 0) && begun == was + Firsts(items, n, CLASS_COUNT)
      requires forall d | 0 <= d < c :: n[d] == SHARE[d] || queues.items[d] == []
      requires InStrictOrder(n, queues.items[..])
      modifies this`wire, this`offset, this`stalledCounted, this`framesTx, this`framesStalled, this`begun, port,
        queues.items
      ensures Valid() && Small() && old(port.accepted) <= port.accepted
      ensures |m| == CLASS_COUNT && Progress(items, m, queues.items[..])
      ensures (forall d | c < d < CLASS_COUNT :: m[d] == 0) && begun == was + Firsts(items, m, CLASS_COUNT)
      ensures InStrictOrder(m, queues.items[..])
      ensures more ==> !HasPending() && forall d | 0 <= d <= c :: m[d] == SHARE[d] || queues.items[d] == []
    {
      hide Stream, Stuffing, Firsts;
      ghost var k;
      more, k := DrainClass(c, max);
      m := n[c := k];
      MoreFirsts(items, n, c, k, CLASS_COUNT);
      assert items[c][0..] == items[c];
      assert was + Firsts(items, n, CLASS_COUNT) + items[c][..k] == was + (Firsts(items, n, CLASS_COUNT) + items[c][..k]);
    }

    /** writeAll: at most four writes, none after one that took nothing. */
    method WriteAll(data: Bytes) returns (all: bool)
      modifies port
      ensures port.calls <= old(port.calls) + MAX_IMMEDIATE_WRITES
      ensures all ==> port.accepted == old(port.accepted) + data
      ensures !all ==> exists k :: 0 <= k < |data| && port.accepted == old(port.accepted) + data[..k]
    {
      ghost var was := port.accepted;
      var cursor, call := 0, 0;
      assert was + data[..0] == was;
      while cursor < |data| && call < MAX_IMMEDIATE_WRITES
        invariant cursor <= |data| && call <= MAX_IMMEDIATE_WRITES && port.calls == old(port.calls) + call
        invariant port.accepted == was + data[..cursor]
      {
        var sent := port.Write(data[cursor..]);
        call := call + 1;
        var n := Min(sent, |data| - cursor);
        assert data[..cursor] + data[cursor..][..n] == data[..cursor + n];
        if sent == 0 { return false; }
        cursor := cursor + n;
      }
      all := cursor == |data|;
      assert all ==> data[..cursor] == data;
    }

    /** writeFrameCobs: a closing session's reply, written over whatever is on the wire; it is
        counted as sent exactly if the port took all of it. */
    method WriteFrame(reply: Frame) returns (ghost sent: Bytes)
      requires Valid() && reply != []
      modifies port, this`framesTx, this`framesStalled
      ensures sent <= Block(encode, reply) && port.accepted == old(port.accepted) + sent
      ensures sent == Block(encode, reply) ==>
        Desktop() == Received(Closed(old(Desktop())) + [encode(reply)], [])
      ensures framesTx == old(framesTx) + (if sent == Block(encode, reply) then 1 else 0)
      ensures framesStalled == old(framesStalled) + if sent == Block(encode, reply) then 0 else 1
    {
      ghost var was := port.accepted;
      var block := [0] + encode(reply) + [0];
      var all := WriteAll(block);
      if all {
        framesTx := framesTx + 1;
        sent := block;
        hide Receive, Stream, Stuffing;
        assert port.accepted[start..] == was[start..] + block;
        ReceiveJoin(Received([], []), was[start..], block);
        ReceiveBlock(encode, Receive(Received([], []), was[start..]), reply);
      } else {
        framesStalled := framesStalled + 1;
        ghost var k :| 0 <= k < |block| && port.accepted == was + block[..k];
        sent := block[..k];
      }
    }

    /** writeConsoleText. */
    method WriteText(text: Bytes) returns (ghost sent: Bytes)
      modifies port
      ensures sent <= text && port.accepted == old(port.accepted) + sent
    {
      ghost var was := port.accepted;
      var all := WriteAll(text);
      sent := text;
      if !all {
        ghost var k :| 0 <= k < |text| && port.accepted == was + text[..k];
        sent := text[..k];
      }
    }

    /** Nothing is on the wire. */
    ghost predicate WireIdle()
      reads this, queues, queues.items
    {
      queues.Valid() && Stuffing(encode) && wire == [] && offset == 0
    }

    /** resetQueues. */
    method ResetQueues()
      requires queues.Valid() && Stuffing(encode)
      modifies this`wire, this`offset, this`stalledCounted, queues.items
      ensures WireIdle() && Small() && forall c | 0 <= c < CLASS_COUNT :: queues.items[c] == []
    {
      wire, offset, stalledCounted := [], 0, false;
      queues.Reset();
    }

    /** A session begins with the next byte; what is queued already will be part of it. */
    method Open()
      requires WireIdle()
      modifies this`start, this`begun
      ensures Valid() && begun == [] && start == |port.accepted|
    {
      start, begun := |port.accepted|, [];
    }

    /** enqueueFrameBytes, whoever calls it and whenever. */
    method Enqueue(c: nat, f: Frame) returns (taken: bool)
      requires queues.Valid() && Small() && c < CLASS_COUNT
      modifies queues.items, queues.dropped
      ensures queues.Valid() && Small() && (old(Valid()) ==> Valid()) && (old(WireIdle()) ==> WireIdle())
      ensures var o := Offered(old(queues.items[c]), c, f);
        queues.items[..] == old(queues.items[..])[c := o.items] && taken == o.taken
    {
      hide Stream, Stuffing;
      taken := queues.Enqueue(c, f);
    }

    /** Every queued frame is within its class. */
    ghost predicate Small()
      reads queues, queues.items
    {
      queues.items.Length == CLASS_COUNT
      && forall c, k | 0 <= c < CLASS_COUNT && 0 <= k < |queues.items[c]| :: |queues.items[c][k]| <= 2088
    }
  }

  /** The share of each class in one call. */
  const SHARE: seq<nat> := [8, 4, 4, 4]

  predicate Progress(items: seq<seq<Frame>>, n: seq<nat>, after: seq<seq<Frame>>) {
    |items| == |n| == |after| == CLASS_COUNT
    && forall c | 0 <= c < CLASS_COUNT :: n[c] <= |items[c]| && after[c] == items[c][n[c]..]
  }

  /** No class goes over its share, and none starts before those above it are empty or have
      had theirs. */
  predicate InStrictOrder(n: seq<nat>, after: seq<seq<Frame>>)
    requires |n| == |after| == CLASS_COUNT
  {
    && (forall c | 0 <= c < CLASS_COUNT :: n[c] <= SHARE[c])
    && (forall b, c | 0 <= b < c < CLASS_COUNT && n[c] > 0 :: n[b] == SHARE[b] || after[b] == [])
  }

  lemma NothingSent(n: seq<nat>, after: seq<seq<Frame>>)
    requires n == [0, 0, 0, 0] && |after| == CLASS_COUNT
    ensures InStrictOrder(n, after)
  {
  }

  lemma {:induction false} NoFirsts(items: seq<seq<Frame>>, n: seq<nat>, k: nat)
    requires |items| == |n| == CLASS_COUNT && k <= CLASS_COUNT && forall c | 0 <= c < CLASS_COUNT :: n[c] == 0
    ensures Firsts(items, n, k) == []
  {
    if k > 0 { NoFirsts(items, n, k - 1); }
  }

  lemma {:induction false} MoreFirsts(items: seq<seq<Frame>>, n: seq<nat>, c: nat, m: nat, k: nat)
    requires |items| == |n| == CLASS_COUNT && c < CLASS_COUNT && k <= CLASS_COUNT && m <= |items[c]|
    requires (forall d | 0 <= d < CLASS_COUNT :: n[d] <= |items[d]|) && forall d | c <= d < CLASS_COUNT :: n[d] == 0
    ensures Firsts(items, n[c := m], k) == Firsts(items, n, k) + if c < k then items[c][..m] else []
  {
    if k > 0 {
      MoreFirsts(items, n, c, m, k - 1);
      if k - 1 > c { assert Firsts(items, n, k - 1) + items[c][..m] + [] == Firsts(items, n, k - 1) + [] + items[c][..m]; }
    }
  }

  lemma LastBlock(encode: Frame -> Bytes, fs: seq<Frame>)
    requires fs != []
    ensures Blocks(encode, fs) == Blocks(encode, fs[..|fs| - 1]) + Block(encode, fs[|fs| - 1])
  {
  }
}
