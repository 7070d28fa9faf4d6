/** The multiplexer of the cable: the session, the transmitter and the work of one session
    that has to go when it ends.

    The methods are the main loop's; MayRelay and QueueRelayed are the two halves of relayUp,
    which another task calls.  SerialRaces says what happens when they come between. */
module SerialMux {
  import opened Bitwise
  import opened SerialQueues
  import opened SerialWire
  import opened SerialTransmitter
  import opened SerialSession

  class SerialMux {
    const tx: Transmitter
    var node: Node
    var timeoutLatched: bool
    var decoderBusy: bool
    var terminalBusy: bool
    ghost var busy: bool
    ghost var begun: nat
    ghost var cleanups: nat

    ghost function View(): Mux
      requires tx.queues.items.Length == CLASS_COUNT
      reads this, tx, tx.queues, tx.queues.items
    {
      Mux(node, timeoutLatched, busy, tx.queues.items[..], tx.begun, begun, cleanups)
    }

    /** No frame is half sent, and neither a block nor a line is half received. */
    ghost predicate Clean()
      reads this, tx, tx.queues, tx.queues.items
    {
      tx.WireIdle() && !decoderBusy && !terminalBusy
    }

    ghost predicate Valid()
      reads this, tx, tx.port, tx.queues, tx.queues.items
    {
      && tx.queues.Valid() && tx.Small()
      && if Owner() == Console then !busy && Clean() else tx.Valid()
    }

    /** Session::state. */
    function Owner(): (r: Owner)
      reads this
      ensures tx.queues.items.Length == CLASS_COUNT ==> r == OwnerOf(View())
    {
      if timeoutLatched then Protocolled
      else match node
        case NodeIdle => Console
        case AwaitingHello => Negotiating
        case Active => Protocolled
    }

    constructor (encode: Frame -> Bytes, claims: nat -> nat)
      requires Stuffing(encode)
      ensures Valid() && View() == START
    {
      tx := new Transmitter(encode, claims);
      node, timeoutLatched, decoderBusy, terminalBusy := NodeIdle, false, false, false;
      busy, begun, cleanups := false, 0, 0;
      new;
      tx.ResetQueues();
    }

    /** tryEnterFromConsoleLine and enterFromCommand: the READY line, then a negotiation. */
    method Enter(ready: Bytes) returns (entered: bool)
      requires Valid()
      modifies this, tx, tx.port
      ensures Valid() && View() == Entered(old(View()))
      ensures entered <==> old(Owner()) == Console
    {
      if Owner() != Console { return false; }
      var all := tx.WriteAll(ready);
      timeoutLatched, node := false, AwaitingHello;
      decoderBusy := false;
      begun := begun + 1;
      tx.Open();
      entered := true;
    }

    /** finalizeToConsole: the last reply at once, then everything of the session goes.  A reply
        that the port takes whole reaches the desktop as a block of its own. */
    method FinalizeToConsole(reply: Frame, line: Bytes) returns (ghost sent: Bytes, ghost text: Bytes)
      requires tx.Valid()
      modifies this`decoderBusy, this`terminalBusy, this`busy, this`cleanups, tx, tx.port, tx.queues.items
      ensures Clean() && tx.Small() && View() == Cleaned(old(View()))
      ensures sent <= Block(tx.encode, reply) && text <= line
      ensures tx.port.accepted == old(tx.port.accepted) + sent + text
      ensures reply != [] && sent == Block(tx.encode, reply) ==>
        Receive(Received([], []), old(tx.port.accepted[tx.start..]) + sent)
          == Received(Closed(old(tx.Desktop())) + [tx.encode(reply)], [])
    {
      hide Stream, Receive;
      ghost var was := tx.port.accepted;
      sent := [];
      if reply != [] { sent := tx.WriteFrame(reply); }
      assert tx.port.accepted == was + sent;
      assert tx.port.accepted[tx.start..] == was[tx.start..] + sent;
      cleanups := cleanups + 1;
      tx.ResetQueues();
      text := tx.WriteText(line);
      decoderBusy, terminalBusy, busy := false, false, false;
    }

    /** Everything one step of the session queues. */
    method QueueAll(o: Output)
      requires tx.Valid() && tx.Small() && Queueable(o)
      modifies tx.queues.items, tx.queues.dropped
      ensures tx.Valid() && tx.Small() && tx.queues.items[..] == QueuedAll(old(tx.queues.items[..]), o)
    {
      hide Stream, Stuffing, Offered;
      ghost var was := tx.queues.items[..];
      assert o[..0] == [];
      for i := 0 to |o|
        invariant tx.Valid() && tx.Small() && tx.queues.items[..] == QueuedAll(was, o[..i])
      {
        assert o[..i + 1][..i] == o[..i];
        var taken := tx.Enqueue(o[i].0, o[i].1);
      }
      assert o[..|o|] == o;
    }

    /** dispatchFrame. */
    method Dispatch(rx: Rx, line: Bytes)
      requires Valid() && Owner() != Console && Possible(node, rx.event) && Queueable(rx.queued)
      requires Latch(View())
      modifies this, tx, tx.port, tx.queues.items, tx.queues.dropped
      ensures Valid() && Latch(View()) && View() == Dispatched(old(View()), rx)
    {
      hide Stream, Stuffing, Feasible, Pumped, QueuedAll;
      node, busy := After(node, rx.event), true;
      match rx.event {
        case Nothing =>
        case TimedOut => timeoutLatched := true;
        case HelloAccepted =>
          QueueAll(rx.queued);
          terminalBusy := false;
        case HelloRejected => var sent, text := FinalizeToConsole(rx.reply, line);
        case SessionClosed => var sent, text := FinalizeToConsole(rx.reply, line);
        case Request =>
          terminalBusy := true;
          QueueAll(rx.queued);
      }
    }

    /** pumpRx. */
    method PumpRx(rx: seq<Rx>, line: Bytes)
      requires Valid() && Owner() != Console && Latch(View()) && Feasible(View(), rx)
      modifies this, tx, tx.port, tx.queues.items, tx.queues.dropped
      ensures Valid() && View() == Pumped(old(View()), rx) && Latch(View())
    {
      hide Stream, Stuffing, QueuedAll;
      ghost var goal := Pumped(View(), rx);
      var i := 0;
      assert rx[0..] == rx;
      while i < |rx|
        invariant i <= |rx| && Valid() && Owner() != Console && Latch(View())
        invariant Feasible(View(), rx[i..]) && Pumped(View(), rx[i..]) == goal
      {
        assert rx[i..][1..] == rx[i + 1..];
        Dispatch(rx[i], line);
        i := i + 1;
        if Owner() == Console { return; }
      }
    }

    /** tick; n says how many frames of each class it begins to send. */
    method Tick(rx: seq<Rx>, expired: bool, own: Output, line: Bytes) returns (ghost n: seq<nat>)
      requires Valid() && Latch(View()) && Feasible(View().(busy := true), rx) && Queueable(own)
      modifies this, tx, tx.port, tx.queues.items, tx.queues.dropped
      ensures |n| == CLASS_COUNT
      ensures Valid() && View() == Ticked(old(View()), rx, expired, own, n)
    {
      n := [0, 0, 0, 0];
      if Owner() == Console { return; }
      busy, decoderBusy := true, true;
      PumpRx(rx, line);
      if Owner() == Console { return; }
      hide Feasible, Pumped, Drained, QueuedAll;
      Poll(expired, line);
      if Owner() == Protocolled { n := Produce(own); }
    }

    method Poll(expired: bool, line: Bytes)
      requires Valid() && Owner() != Console && Latch(View())
      modifies this, tx, tx.port, tx.queues.items, tx.queues.dropped
      ensures Valid()
      ensures var (q, timedOut) := Polled(old(View()), expired);
        View() == if timedOut then Cleaned(q) else q
    {
      var timedOut := PollTimeout(expired);
      if timedOut { var sent, text := FinalizeToConsole([], line); }
    }

    /** The hub's own output of one tick, and as much of everything as the port takes. */
    method Produce(own: Output) returns (ghost n: seq<nat>)
      requires tx.Valid() && tx.Small() && Queueable(own)
      modifies this`terminalBusy, tx, tx.port, tx.queues.items, tx.queues.dropped
      ensures tx.Valid() && tx.Small() && |n| == CLASS_COUNT
      ensures var q := QueuedAll(old(tx.queues.items[..]), own);
        tx.queues.items[..] == Drained(q, n) && tx.begun == old(tx.begun) + Firsts(q, n, CLASS_COUNT)
    {
      hide Stream, Stuffing, QueuedAll, Drained, Firsts, InStrictOrder;
      terminalBusy := true;
      QueueAll(own);
      ghost var full: Queues := tx.queues.items[..];
      n := tx.DrainTx();
      WhatIsDrained(full, n, tx.queues.items[..]);
    }

    /** pollTimeout: a latched timeout first. */
    method PollTimeout(expired: bool) returns (timedOut: bool)
      requires tx.queues.items.Length == CLASS_COUNT
      modifies this`node, this`timeoutLatched
      ensures (View(), timedOut) == Polled(old(View()), expired)
    {
      if timeoutLatched {
        timeoutLatched := false;
        return true;
      }
      if expired && !node.NodeIdle? {
        node := NodeIdle;
        return true;
      }
      timedOut := false;
    }

    /** onTransportLost. */
    method TransportLost()
      requires Valid() && !timeoutLatched
      modifies this, tx, tx.queues.items
      ensures Valid() && View() == Lost(old(View()))
    {
      hide Stream, Stuffing;
      var abandoned := !node.NodeIdle?;
      timeoutLatched, node := false, NodeIdle;
      if !abandoned { return; }
      cleanups := cleanups + 1;
      tx.ResetQueues();
      decoderBusy, terminalBusy, busy := false, false, false;
    }

    /** The test of relayUp and forwardRelay. */
    method MayRelay() returns (ok: bool)
      ensures ok == (Owner() == Protocolled)
    {
      ok := Owner() == Protocolled;
    }

    /** Their enqueue, in whatever state the main loop has come to since the test. */
    method QueueRelayed(c: nat, f: Frame) returns (taken: bool)
      requires Valid() && c < CLASS_COUNT
      modifies tx.queues.items, tx.queues.dropped
      ensures Valid() && View() == old(View()).(queues := Queued(old(View()).queues, c, f))
      ensures taken == Offered(old(tx.queues.items[c]), c, f).taken
    {
      hide Offered;
      taken := tx.Enqueue(c, f);
    }
  }

  lemma WhatIsDrained(q: Queues, n: seq<nat>, after: seq<seq<Frame>>)
    requires |n| == |after| == CLASS_COUNT
    requires forall c | 0 <= c < CLASS_COUNT :: n[c] <= |q[c]| && after[c] == q[c][n[c]..]
    ensures after == Drained(q, n)
  {
  }
}
