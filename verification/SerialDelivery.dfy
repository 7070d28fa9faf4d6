/** From the producers to the desktop: what a session delivers, over every run of both tasks.

    Traffic is a history of a run: what was done to each queue since the cleanup that last
    emptied it, and of which class each frame was that this session has begun to send. */
module SerialDelivery {
  import opened Bitwise
  import opened SerialQueues
  import opened SerialWire
  import opened SerialSession
  import opened SerialRaces

  type OpsByClass = o: seq<seq<Op>> | |o| == CLASS_COUNT witness [[], [], [], []]

  datatype Traffic = Traffic(ops: OpsByClass, classes: seq<nat>)

  const NO_TRAFFIC := Traffic([[], [], [], []], [])

  function Added(ops: OpsByClass, c: nat, op: Op): OpsByClass
    requires c < CLASS_COUNT
  {
    ops[c := ops[c] + [op]]
  }

  function AllPut(ops: OpsByClass, o: Output): OpsByClass
    requires Queueable(o)
  {
    if o == [] then ops else Added(AllPut(ops, o[..|o| - 1]), o[|o| - 1].0, Put(o[|o| - 1].1))
  }

  /** What one step adds to the history. */
  function Recorded(t: Traffic, s: State, a: Action): Traffic
    requires Enabled(s, a)
  {
    match a
    case Enter => if OwnerOf(s.mux) == Console then t.(classes := []) else t
    case CleanUp => t.(ops := NO_TRAFFIC.ops)
    case TakeFrame(rx) =>
      if rx.event == HelloAccepted || rx.event == Request then t.(ops := AllPut(t.ops, rx.queued)) else t
    case Queue(c, f) => t.(ops := Added(t.ops, c, Put(f)))
    case Enqueue(_, c, f) => t.(ops := Added(t.ops, c, Put(f)))
    case Dequeue(c) => Traffic(Added(t.ops, c, Take), t.classes + [c])
    case _ => t
  }

  ghost function TrafficOf(run: seq<Action>): Traffic
    requires Run(INIT, run)
    decreases |run|
  {
    if run == [] then NO_TRAFFIC
    else
      var front := run[..|run| - 1];
      Recorded(TrafficOf(front), AfterRun(INIT, front), run[|run| - 1])
  }

  /** The frames of one class among those begun. */
  function Of(fs: seq<Frame>, classes: seq<nat>, c: nat): seq<Frame>
    requires |fs| == |classes|
  {
    if fs == [] then []
    else
      var n := |fs| - 1;
      Of(fs[..n], classes[..n], c) + if classes[n] == c then [fs[n]] else []
  }

  lemma {:induction false} OfFront(fs: seq<Frame>, classes: seq<nat>, c: nat, m: nat)
    requires |fs| == |classes| && m <= |fs|
    ensures Of(fs[..m], classes[..m], c) <= Of(fs, classes, c)
    ensures |Of(fs, classes, c)| <= |Of(fs[..m], classes[..m], c)| + |fs| - m
    decreases |fs|
  {
    if m == |fs| {
      assert fs[..m] == fs && classes[..m] == classes;
    } else {
      var n := |fs| - 1;
      OfFront(fs[..n], classes[..n], c, m);
      assert fs[..n][..m] == fs[..m] && classes[..n][..m] == classes[..m];
    }
  }

  lemma OfOneMore(fs: seq<Frame>, classes: seq<nat>, f: Frame, d: nat, c: nat)
    requires |fs| == |classes|
    ensures Of(fs + [f], classes + [d], c) == Of(fs, classes, c) + if d == c then [f] else []
  {
    assert (fs + [f])[..|fs|] == fs && (classes + [d])[..|fs|] == classes;
  }

  // ----- the queues follow from the history -----

  predicate QueuesFollow(q: Queues, ops: OpsByClass) {
    forall c | 0 <= c < CLASS_COUNT :: q[c] == AfterOps(c, ops[c]).items
  }

  predicate SameSent(ops: OpsByClass, ops': OpsByClass) {
    forall c | 0 <= c < CLASS_COUNT :: AfterOps(c, ops'[c]).sent == AfterOps(c, ops[c]).sent
  }

  lemma OneMoreOp(c: nat, ops: seq<Op>, op: Op)
    requires c < CLASS_COUNT
    ensures AfterOps(c, ops + [op]) == AfterOp(AfterOps(c, ops), c, op)
  {
    assert (ops + [op])[..|ops|] == ops;
  }

  lemma PutFollows(q: Queues, ops: OpsByClass, c: nat, f: Frame)
    requires QueuesFollow(q, ops) && c < CLASS_COUNT
    ensures QueuesFollow(Queued(q, c, f), Added(ops, c, Put(f))) && SameSent(ops, Added(ops, c, Put(f)))
  {
    hide AfterOps;
    OneMoreOp(c, ops[c], Put(f));
  }

  lemma {:induction false} AllPutFollows(q: Queues, ops: OpsByClass, o: Output)
    requires QueuesFollow(q, ops) && Queueable(o)
    ensures QueuesFollow(QueuedAll(q, o), AllPut(ops, o)) && SameSent(ops, AllPut(ops, o))
    decreases |o|
  {
    hide QueuesFollow, Queued, Added, AfterOps;
    if o != [] {
      var front, last := o[..|o| - 1], o[|o| - 1];
      AllPutFollows(q, ops, front);
      PutFollows(QueuedAll(q, front), AllPut(ops, front), last.0, last.1);
    }
  }

  lemma TakeFollows(q: Queues, ops: OpsByClass, c: nat)
    requires QueuesFollow(q, ops) && c < CLASS_COUNT && q[c] != []
    ensures QueuesFollow(q[c := q[c][1..]], Added(ops, c, Take))
    ensures forall d | 0 <= d < CLASS_COUNT ::
      AfterOps(d, Added(ops, c, Take)[d]).sent == AfterOps(d, ops[d]).sent + if d == c then [q[c][0]] else []
  {
    hide AfterOps;
    OneMoreOp(c, ops[c], Take);
  }

  // ----- the invariant -----

  /** The queues follow from the history; in a session, so do the frames it has begun, class
      by class; and between two sessions no frame has left. */
  predicate Told(s: State, t: Traffic) {
    && QueuesFollow(s.mux.queues, t.ops)
    && (if Running(s) == 1 then
          && |t.classes| == |s.mux.wired|
          && forall c | 0 <= c < CLASS_COUNT :: Of(s.mux.wired, t.classes, c) == AfterOps(c, t.ops[c]).sent
        else forall c | 0 <= c < CLASS_COUNT :: AfterOps(c, t.ops[c]).sent == [])
  }

  lemma Unmoved(s: State, s': State, t: Traffic, t': Traffic)
    requires Told(s, t) && QueuesFollow(s'.mux.queues, t'.ops) && SameSent(t.ops, t'.ops)
    requires Running(s') == Running(s) && s'.mux.wired == s.mux.wired && t'.classes == t.classes
    ensures Told(s', t')
  {
    hide Of, AfterOps, QueuesFollow;
  }

  lemma StepTold(s: State, t: Traffic, a: Action)
    requires Balanced(s) && Told(s, t) && Enabled(s, a)
    ensures Told(Next(s, a), Recorded(t, s, a))
  {
    hide Queued, QueuedAll, Added, AllPut, AfterOps, Of, SameSent, QueuesFollow;
    var s', t' := Next(s, a), Recorded(t, s, a);
    match a
    case Enter =>
      assert SameSent(t.ops, t.ops) by { NoChange(t.ops); }
      if OwnerOf(s.mux) == Console { NothingYet(s', t'); } else { Unmoved(s, s', t, t'); }
    case CleanUp => EmptyFollows(s', t');
    case TakeFrame(rx) =>
      AllPutFollows(s.mux.queues, t.ops, rx.queued);
      NoChange(t.ops);
      Unmoved(s, s', t, t');
    case Queue(c, f) =>
      PutFollows(s.mux.queues, t.ops, c, f);
      Unmoved(s, s', t, t');
    case Enqueue(_, c, f) =>
      PutFollows(s.mux.queues, t.ops, c, f);
      Unmoved(s, s', t, t');
    case Dequeue(c) =>
      TakeFollows(s.mux.queues, t.ops, c);
      var f := s.mux.queues[c][0];
      forall d | 0 <= d < CLASS_COUNT
        ensures Of(s'.mux.wired, t'.classes, d) == Of(s.mux.wired, t.classes, d) + if d == c then [f] else []
      {
        OfOneMore(s.mux.wired, t.classes, f, c, d);
      }
    case _ =>
      NoChange(t.ops);
      Unmoved(s, s', t, t');
  }

  lemma NoChange(ops: OpsByClass)
    ensures SameSent(ops, ops)
  {
  }

  lemma NothingYet(s: State, t: Traffic)
    requires QueuesFollow(s.mux.queues, t.ops) && s.mux.wired == [] && t.classes == []
    requires forall c | 0 <= c < CLASS_COUNT :: AfterOps(c, t.ops[c]).sent == []
    ensures Told(s, t)
  {
    hide QueuesFollow, AfterOps;
  }

  lemma EmptyFollows(s: State, t: Traffic)
    requires s.mux.queues == EMPTY_QUEUES && t.ops == NO_TRAFFIC.ops && Running(s) == 0
    ensures Told(s, t)
  {
    hide Running;
    assert forall c | 0 <= c < CLASS_COUNT :: t.ops[c] == [];
  }

  lemma {:induction false} RunTold(run: seq<Action>)
    requires Run(INIT, run)
    ensures Told(AfterRun(INIT, run), TrafficOf(run))
    decreases |run|
  {
    hide Next, Enabled, Told, Inv;
    if run == [] {
      EmptyFollows(INIT, NO_TRAFFIC);
    } else {
      var front := run[..|run| - 1];
      RunTold(front);
      InitHolds();
      RunKeeps(INIT, front);
      assert Balanced(AfterRun(INIT, front)) by { InvIsBalanced(AfterRun(INIT, front)); }
      StepTold(AfterRun(INIT, front), TrafficOf(front), run[|run| - 1]);
    }
  }

  lemma InvIsBalanced(s: State)
    requires Inv(s)
    ensures Balanced(s)
  {
  }

  // ----- what the desktop has -----

  /** The frames x are the ones at these places of y, from front to back. */
  predicate At(x: seq<Frame>, y: seq<Frame>, places: seq<nat>) {
    && |places| == |x|
    && (forall k | 0 <= k < |x| :: places[k] < |y| && y[places[k]] == x[k])
    && (forall j, k | 0 <= j < k < |x| :: places[j] < places[k])
  }

  lemma SentAt(c: nat, ops: seq<Op>, x: seq<Frame>)
    requires c < CLASS_COUNT && x <= AfterOps(c, ops).sent
    ensures var h := AfterOps(c, ops); |x| <= |h.places| && At(x, h.offered, h.places[..|x|])
  {
    hide AfterOps;
    NothingElseIsLost(c, ops, []);
    var h := AfterOps(c, ops);
    assert forall k | 0 <= k < |x| :: x[k] == (h.sent + h.items)[k];
  }

  /** Over every run of both tasks, while a session has the port: what the desktop has received
      of it are the frames begun, but for the one on the wire; those of each class are frames
      offered to that class since the last cleanup, in the order in which they were offered;
      and every other frame so offered is on the wire, waiting, or counted as dropped. */
  lemma DesktopInOrder(encode: Frame -> Bytes, run: seq<Action>, wire: Bytes, offset: nat, stream: Bytes, c: nat)
    requires Run(INIT, run) && OwnerOf(AfterRun(INIT, run).mux) != Console && c < CLASS_COUNT
    requires Stuffing(encode) && Stream(encode, AfterRun(INIT, run).mux.wired, wire, offset, stream)
    ensures var m, t := AfterRun(INIT, run).mux, TrafficOf(run);
      var h := AfterOps(c, t.ops[c]);
      var whole := if offset < |wire| then |m.wired| - 1 else |m.wired|;
      && Receive(Received([], []), stream).blocks == Encodings(encode, m.wired[..whole])
      && |t.classes| == |m.wired|
      && var got := Of(m.wired[..whole], t.classes[..whole], c);
         && |got| <= |h.places| && At(got, h.offered, h.places[..|got|])
         && |got| + |m.queues[c]| + h.drops <= |h.offered|
         && |h.offered| <= |got| + (|m.wired| - whole) + |m.queues[c]| + h.drops
  {
    hide *;
    RunTold(run);
    var m, t := AfterRun(INIT, run).mux, TrafficOf(run);
    TheySay(AfterRun(INIT, run), t, c);
    StreamReceived(encode, m.wired, wire, offset, stream);
    StreamShape(encode, m.wired, wire, offset, stream);
    var whole := if offset < |wire| then |m.wired| - 1 else |m.wired|;
    assert m.wired[..|m.wired|] == m.wired;
    OfFront(m.wired, t.classes, c, whole);
    SentAt(c, t.ops[c], Of(m.wired[..whole], t.classes[..whole], c));
    NothingElseIsLost(c, t.ops[c], []);
  }

  lemma TheySay(s: State, t: Traffic, c: nat)
    requires Told(s, t) && OwnerOf(s.mux) != Console && c < CLASS_COUNT
    ensures |t.classes| == |s.mux.wired| && Of(s.mux.wired, t.classes, c) == AfterOps(c, t.ops[c]).sent
    ensures s.mux.queues[c] == AfterOps(c, t.ops[c]).items
  {
  }

  lemma StreamShape(encode: Frame -> Bytes, wired: seq<Frame>, wire: Bytes, offset: nat, stream: Bytes)
    requires Stream(encode, wired, wire, offset, stream)
    ensures offset < |wire| ==> wired != []
  {
  }
}
