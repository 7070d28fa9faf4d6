/** The four transmit queues of the cable and their two overflow policies. */
module SerialQueues {
  import opened Bitwise

  type Frame = seq<Byte>

  const SESSION: nat := 0
  const TERMINAL: nat := 1
  const LOG_STATUS: nat := 2
  const TELEMETRY: nat := 3
  const CLASS_COUNT: nat := 4

  const DEPTH: seq<nat> := [4, 3, 6, 16]
  const FRAME_CAP: seq<nat> := [2088, 2088, 2088, 768]

  predicate Lossy(c: nat) { c == TELEMETRY || c == LOG_STATUS }

  /** What offering a frame to a queue does: the queue after it, whether the frame was
      taken, and how many drops are counted. */
  datatype Offer = Offer(items: seq<Frame>, taken: bool, drops: nat)

  function Offered(items: seq<Frame>, c: nat, f: Frame): Offer
    requires c < CLASS_COUNT
  {
    if |f| > FRAME_CAP[c] then Offer(items, false, 0)
    else if |items| < DEPTH[c] then Offer(items + [f], true, 0)
    else if Lossy(c) then Offer(items[1..] + [f], true, 1)
    else Offer(items, false, 1)
  }

  /** The first n[c] frames of every class below k, class by class. */
  function Firsts(items: seq<seq<Frame>>, n: seq<nat>, k: nat): seq<Frame>
    requires |items| == |n| == CLASS_COUNT && k <= CLASS_COUNT
  {
    if k == 0 then []
    else Firsts(items, n, k - 1) + if n[k - 1] <= |items[k - 1]| then items[k - 1][..n[k - 1]] else items[k - 1]
  }

  // ----- the history of one queue since it was last reset -----

  /** `offered` are the frames offered that are not oversized, `accepted` those of them that
      were taken, `sent` the ones dequeued; `places` says which offer each frame of
      sent + items came from. */
  datatype History = History(items: seq<Frame>, offered: seq<Frame>, accepted: seq<Frame>, sent: seq<Frame>,
                             drops: nat, places: seq<nat>)

  const EMPTY := History([], [], [], [], 0, [])

  datatype Op = Put(frame: Frame) | Take

  function AfterPut(h: History, c: nat, f: Frame): History
    requires c < CLASS_COUNT
  {
    var o := Offered(h.items, c, f);
    if |f| > FRAME_CAP[c] then h
    else if !o.taken then h.(offered := h.offered + [f], drops := h.drops + o.drops)
    else
      var evicted := o.drops == 1 && |h.sent| < |h.places|;
      var kept := if evicted then h.places[..|h.sent|] + h.places[|h.sent| + 1..] else h.places;
      History(o.items, h.offered + [f], h.accepted + [f], h.sent, h.drops + o.drops, kept + [|h.offered|])
  }

  function AfterTake(h: History): History {
    if h.items == [] then h else h.(items := h.items[1..], sent := h.sent + [h.items[0]])
  }

  function AfterOp(h: History, c: nat, op: Op): History
    requires c < CLASS_COUNT
  {
    match op
    case Put(f) => AfterPut(h, c, f)
    case Take => AfterTake(h)
  }

  function AfterOps(c: nat, ops: seq<Op>): History
    requires c < CLASS_COUNT
  {
    if ops == [] then EMPTY else AfterOp(AfterOps(c, ops[..|ops| - 1]), c, ops[|ops| - 1])
  }

  /** Frames leave in the order in which they were offered. */
  predicate Ordered(h: History) {
    && |h.places| == |h.sent + h.items|
    && (forall k | 0 <= k < |h.places| :: h.places[k] < |h.offered| && h.offered[h.places[k]] == (h.sent + h.items)[k])
    && (forall j, k | 0 <= j < k < |h.places| :: h.places[j] < h.places[k])
  }

  predicate Kept(h: History, c: nat)
    requires c < CLASS_COUNT
  {
    && |h.items| <= DEPTH[c]
    && Ordered(h)
    && |h.offered| == |h.sent| + |h.items| + h.drops
    && (!Lossy(c) ==> h.accepted == h.sent + h.items)
  }

  lemma PutKeeps(h: History, c: nat, f: Frame)
    requires c < CLASS_COUNT && Kept(h, c)
    ensures Kept(AfterPut(h, c, f), c)
  {
    hide Ordered;
    if |f| <= FRAME_CAP[c] && Offered(h.items, c, f).taken {
      if |h.items| < DEPTH[c] { PutOrdered(h, c, f); } else { EvictOrdered(h, c, f); }
    } else {
      assert Ordered(AfterPut(h, c, f)) by { RefusedOrdered(h, c, f); }
    }
  }

  lemma RefusedOrdered(h: History, c: nat, f: Frame)
    requires c < CLASS_COUNT && Ordered(h) && !(|f| <= FRAME_CAP[c] && Offered(h.items, c, f).taken)
    ensures Ordered(AfterPut(h, c, f))
  {
  }

  lemma PutOrdered(h: History, c: nat, f: Frame)
    requires c < CLASS_COUNT && Ordered(h) && |f| <= FRAME_CAP[c] && |h.items| < DEPTH[c]
    ensures Ordered(AfterPut(h, c, f))
  {
    assert h.sent + (h.items + [f]) == h.sent + h.items + [f];
  }

  lemma EvictOrdered(h: History, c: nat, f: Frame)
    requires c < CLASS_COUNT && Ordered(h) && |f| <= FRAME_CAP[c] && |h.items| == DEPTH[c] && Lossy(c)
    ensures Ordered(AfterPut(h, c, f))
  {
    var h', n := AfterPut(h, c, f), |h.sent|;
    var all, all' := h.sent + h.items, h'.sent + h'.items;
    forall k | 0 <= k < |h'.places|
      ensures h'.places[k] < |h'.offered| && h'.offered[h'.places[k]] == all'[k]
      ensures k < |h'.places| - 1 ==> h'.places[k] == h.places[if k < n then k else k + 1]
    {
      if k < n { assert all'[k] == all[k]; }
      else if k < |h'.places| - 1 { assert all'[k] == all[k + 1]; }
    }
  }

  lemma TakeKeeps(h: History, c: nat)
    requires c < CLASS_COUNT && Kept(h, c)
    ensures Kept(AfterTake(h), c)
  {
    if h.items != [] {
      assert AfterTake(h).sent + AfterTake(h).items == h.sent + h.items;
    }
  }

  lemma {:induction false} OpsKeep(c: nat, ops: seq<Op>)
    requires c < CLASS_COUNT
    ensures Kept(AfterOps(c, ops), c)
  {
    hide Kept, AfterPut, AfterTake;
    if ops == [] {
      assert Kept(EMPTY, c) by { EmptyKept(c); }
    } else {
      var front := ops[..|ops| - 1];
      OpsKeep(c, front);
      match ops[|ops| - 1]
      case Put(f) => PutKeeps(AfterOps(c, front), c, f);
      case Take => TakeKeeps(AfterOps(c, front), c);
    }
  }

  lemma EmptyKept(c: nat)
    requires c < CLASS_COUNT
    ensures Kept(EMPTY, c)
  {
  }

  /** Over any run between two resets, for every class: the frames sent are frames offered,
      in the order offered; those offered are the ones sent, the ones waiting and the drops
      counted; a session or terminal frame that was taken is sent or waiting; and a log or
      telemetry frame is always taken, as the newest. */
  lemma NothingElseIsLost(c: nat, ops: seq<Op>, f: Frame)
    requires c < CLASS_COUNT
    ensures var h := AfterOps(c, ops);
      && Ordered(h) && |h.items| <= DEPTH[c]
      && |h.offered| == |h.sent| + |h.items| + h.drops
      && (!Lossy(c) ==> h.sent + h.items == h.accepted)
      && (Lossy(c) && |f| <= FRAME_CAP[c] ==>
            AfterPut(h, c, f).accepted == h.accepted + [f]
            && AfterPut(h, c, f).items != [] && AfterPut(h, c, f).items[|AfterPut(h, c, f).items| - 1] == f)
  {
    hide Ordered;
    OpsKeep(c, ops);
  }

  // ----- the queues -----

  class TxQueues {
    const items: array<seq<Frame>>
    const dropped: array<nat>

    ghost predicate Valid()
      reads this, items
    {
      items.Length == CLASS_COUNT && dropped.Length == CLASS_COUNT
      && forall c | 0 <= c < CLASS_COUNT :: |items[c]| <= DEPTH[c]
    }

    constructor ()
      ensures Valid() && fresh(items) && fresh(dropped)
      ensures forall c | 0 <= c < CLASS_COUNT :: items[c] == [] && dropped[c] == 0
    {
      items := new seq<Frame>[4](_ => []);
      dropped := new nat[4](_ => 0);
    }

    /** enqueueFrameBytes. */
    method Enqueue(c: nat, f: Frame) returns (taken: bool)
      requires Valid() && c < CLASS_COUNT
      modifies items, dropped
      ensures Valid()
      ensures var o := Offered(old(items[c]), c, f);
        items[..] == old(items[..])[c := o.items] && taken == o.taken
        && dropped[..] == old(dropped[..])[c := old(dropped[c]) + o.drops]
    {
      if |f| > FRAME_CAP[c] { return false; }
      if |items[c]| < DEPTH[c] {
        items[c] := items[c] + [f];
        return true;
      }
      if Lossy(c) {
        items[c] := items[c][1..];
        if |items[c]| < DEPTH[c] {
          items[c] := items[c] + [f];
          dropped[c] := dropped[c] + 1;
          return true;
        }
      }
      dropped[c] := dropped[c] + 1;
      taken := false;
    }

    method Dequeue(c: nat) returns (f: Frame, some: bool)
      requires Valid() && c < CLASS_COUNT
      modifies items
      ensures Valid()
      ensures some == (old(items[c]) != [])
      ensures some ==> f == old(items[c])[0] && items[..] == old(items[..])[c := old(items[c])[1..]]
      ensures !some ==> items[..] == old(items[..])
    {
      f, some := [], items[c] != [];
      if some {
        f := items[c][0];
        items[c] := items[c][1..];
      }
    }

    /** The queue part of resetQueues. */
    method Reset()
      requires Valid()
      modifies items
      ensures Valid() && forall c | 0 <= c < CLASS_COUNT :: items[c] == []
    {
      for c := 0 to CLASS_COUNT
        invariant Valid() && forall d | 0 <= d < c :: items[d] == []
      {
        items[c] := [];
      }
    }
  }
}
