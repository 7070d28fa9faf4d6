/** The radio ingress over every run: what datagrams cause, where relayed frames come from, and
    why a peer is believed. */
module IngressRuns {
  import opened Bitwise
  import opened Common
  import opened RelayTable
  import opened PeerTable
  import opened RadioIngress
  import opened IngressSafety

  // ----- one step -----

  lemma ReceiveAgrees(lib: Library, s: State, a: Action)
    requires Inv(lib, s) && Enabled(lib, s, a) && a.Receive?
    ensures WellHeld(lib, Next(lib, s, a).pending) && Agreement(lib, Next(lib, s, a).pending, a.router)
  {
    hide Retained, MayConsume, Judged, WellHeld, Agreement, AgreementBut, Submitted, Believed;
    var rx := a.rx;
    var after := Processed(lib, s.pending, rx, a.outcome).0;
    assert Next(lib, s, a).pending == after;
    if lib.decode(rx.raw).Some? {
      var d := lib.decode(rx.raw).value;
      var h := d.header;
      if MayConsume(h.kind, h.objectId) {
        RetainedKeeps(lib, s.pending, d, rx.raw, rx.now, s.router);
        CandidateAgrees(lib, s, a, d);
      } else if !rx.protocolled {
        OtherwiseAgrees(lib, s.pending, d, s.router, a.outcome, a.router);
      }
    }
  }

  lemma CandidateAgrees(lib: Library, s: State, a: Action, d: Message)
    requires a.Receive? && Enabled(lib, s, a) && lib.decode(a.rx.raw) == Some(d)
    requires MayConsume(d.header.kind, d.header.objectId)
    requires var (u, ok) := Retained(s.pending, d.header, a.rx.raw, a.rx.now);
      && WellHeld(lib, u)
      && (if ok && d.header.fragmented then AgreementBut(lib, u, s.router, d.header.id, d.header.index)
          else Agreement(lib, u, s.router))
    ensures var after := Processed(lib, s.pending, a.rx, a.outcome).0;
      WellHeld(lib, after) && Agreement(lib, after, a.router)
  {
    hide Retained, MayConsume, WellHeld, Agreement, AgreementBut, Submitted;
    var h := d.header;
    var (u, ok) := Retained(s.pending, h, a.rx.raw, a.rx.now);
    var after := Processed(lib, s.pending, a.rx, a.outcome).0;
    if ok {
      RetainedAdds(lib, s.pending, h, a.rx.raw, a.rx.now);
      var rest := if a.outcome.DroppedReassembly? then u - {h.id} else u;
      if h.fragmented {
        SubmittedAgrees(lib, u, d, a.rx.raw, s.router, a.outcome, a.router);
      } else {
        OtherwiseAgrees(lib, u, d, s.router, a.outcome, a.router);
        PartKeeps(lib, u, rest, a.router);
      }
      PartKeeps(lib, u, rest, a.router);
      assert Part(after, rest);
      PartKeeps(lib, rest, after, a.router);
    }
  }

  lemma ReceiveSize(lib: Library, s: State, a: Action)
    requires Inv(lib, s) && Enabled(lib, s, a) && a.Receive?
    ensures |Next(lib, s, a).pending| <= SLOT_COUNT
  {
    hide Retained, MayConsume, WellHeld, Agreement, Submitted, Believed, Consumes, Taken;
    var rx := a.rx;
    if lib.decode(rx.raw).Some? {
      var h := lib.decode(rx.raw).value.header;
      var u := Retained(s.pending, h, rx.raw, rx.now).0;
      RetainedSize(s.pending, h, rx.raw, rx.now);
      var after := Processed(lib, s.pending, rx, a.outcome).0;
      if MayConsume(h.kind, h.objectId) { SmallerTable(after, u); }
    }
  }

  lemma BelievedRows(rows: Rows, ps: seq<Peer>)
    requires |rows| == CAPACITY && OneRowEach(rows) && |ps| <= 1
    ensures OneRowEach(Believed(rows, ps))
  {
    if ps != [] {
      var p := ps[0];
      if p.source != 0 && p.boot != 0 { RememberedPeer(rows, p, p.mac + 1); }
      LinkNotedKeeps(Remembered(rows, p), p.mac, true, 0);
    }
  }

  lemma StepKeeps(lib: Library, s: State, a: Action)
    requires Inv(lib, s) && Enabled(lib, s, a)
    ensures Inv(lib, Next(lib, s, a))
  {
    hide Processed, WellHeld, Agreement, Submitted, Believed, Remembered, LinkNoted, OneRowEach, Submits;
    match a
    case Heartbeat(mac, ok) => LinkNotedKeeps(s.rows, mac, ok, 0);
    case Receive(rx, outcome, router) =>
      ReceiveAgrees(lib, s, a);
      ReceiveSize(lib, s, a);
      FewBelieved(lib, s.pending, rx, outcome);
      BelievedRows(s.rows, Processed(lib, s.pending, rx, outcome).1.believed);
  }

  // ----- runs -----

  ghost predicate Possible(lib: Library, run: seq<Action>)
    decreases |run|, 0
  {
    run == [] || (Possible(lib, Front(run)) && Enabled(lib, After(lib, Front(run)), run[|run| - 1]))
  }

  /** The state after a run. */
  ghost function After(lib: Library, run: seq<Action>): State
    requires Possible(lib, run)
    decreases |run|, 1
  {
    if run == [] then START else Next(lib, After(lib, Front(run)), run[|run| - 1])
  }

  function Front(run: seq<Action>): (r: seq<Action>)
    requires run != []
    ensures |r| == |run| - 1
  {
    run[..|run| - 1]
  }

  lemma {:induction false} RunKeeps(lib: Library, run: seq<Action>)
    requires Possible(lib, run)
    ensures Inv(lib, After(lib, run))
    decreases |run|
  {
    hide Inv, Enabled, Next;
    if run == [] {
      StartHolds(lib);
    } else {
      RunKeeps(lib, Front(run));
      StepKeeps(lib, After(lib, Front(run)), run[|run| - 1]);
    }
  }

  lemma StartHolds(lib: Library)
    ensures Inv(lib, START)
  {
  }

  // ----- where a frame comes from -----

  /** This very datagram was received in the run. */
  predicate ReceivedIn(run: seq<Action>, raw: Bytes) {
    exists j :: 0 <= j < |run| && run[j].Receive? && run[j].rx.raw == raw
  }

  lemma ReceivedLater(run: seq<Action>, a: Action, raw: Bytes)
    ensures ReceivedIn(run, raw) ==> ReceivedIn(run + [a], raw)
    ensures a.Receive? ==> ReceivedIn(run + [a], a.rx.raw)
  {
    if ReceivedIn(run, raw) {
      var j :| 0 <= j < |run| && run[j].Receive? && run[j].rx.raw == raw;
      assert (run + [a])[j] == run[j];
    }
    assert (run + [a])[|run|] == a;
  }

  /** A frame held after a datagram was held before it or is the datagram. */
  lemma HeldStep(lib: Library, pending: Table, rx: Rx, outcome: Outcome, id: Id, i: nat)
    ensures var after := Processed(lib, pending, rx, outcome).0;
      id in after && i in after[id].frames ==>
        after[id].frames[i] == rx.raw || (id in pending && i in pending[id].frames
                                          && pending[id].frames[i] == after[id].frames[i])
  {
    hide Retained, MayConsume, Consumes, Reference, Taken;
    var d := lib.decode(rx.raw);
    if d.Some? {
      var h := d.value.header;
      RetainedAdds(lib, pending, h, rx.raw, rx.now);
      var (u, ok) := Retained(pending, h, rx.raw, rx.now);
      if id != h.id && ok && h.fragmented && id in u { assert id in u - {h.id}; }
    }
  }

  lemma {:induction false} HeldWasReceived(lib: Library, run: seq<Action>, id: Id, i: nat)
    requires Possible(lib, run)
    requires id in After(lib, run).pending && i in After(lib, run).pending[id].frames
    ensures ReceivedIn(run, After(lib, run).pending[id].frames[i])
    decreases |run|
  {
    hide Enabled, Processed, ReceivedIn;
    if run != [] {
      var front, a := Front(run), run[|run| - 1];
      var s := After(lib, front);
      var frame := After(lib, run).pending[id].frames[i];
      assert run == front + [a];
      ReceivedLater(front, a, frame);
      if a.Receive? { HeldStep(lib, s.pending, a.rx, a.outcome, id, i); }
      if !(a.Receive? && frame == a.rx.raw) { HeldWasReceived(lib, front, id, i); }
    }
  }

  /** What a datagram relays is itself or was held. */
  lemma RelayedStep(lib: Library, pending: Table, rx: Rx, outcome: Outcome, x: Bytes)
    requires x in Processed(lib, pending, rx, outcome).1.relayed
    ensures x == rx.raw || exists id, i :: id in pending && i in pending[id].frames && pending[id].frames[i] == x
  {
    hide Retained, MayConsume, Consumes, Reference;
    var h := lib.decode(rx.raw).value.header;
    if x != rx.raw {
      var m := outcome.message;
      var u := Retained(pending, h, rx.raw, rx.now).0;
      var frames := Taken(u, m.header.id).value;
      var i :| 0 <= i < |frames| && frames[i] == x;
      assert u[m.header.id].frames[i] == x;
      RetainedAdds(lib, pending, h, rx.raw, rx.now);
      if m.header.id != h.id { assert m.header.id in u - {h.id}; }
    }
  }

  lemma RelayedWasReceived(lib: Library, run: seq<Action>, a: Action, x: Bytes)
    requires Possible(lib, run) && a.Receive?
    requires x in Processed(lib, After(lib, run).pending, a.rx, a.outcome).1.relayed
    ensures ReceivedIn(run + [a], x)
  {
    hide Processed, ReceivedIn, Possible, After;
    var s := After(lib, run);
    ReceivedLater(run, a, x);
    RelayedStep(lib, s.pending, a.rx, a.outcome, x);
    if x != a.rx.raw {
      var id, i :| id in s.pending && i in s.pending[id].frames && s.pending[id].frames[i] == x;
      HeldWasReceived(lib, run, id, i);
    }
  }

  // ----- why a peer is believed -----

  /** Step j received, from this address, the datagram that completed a candidate message of
      this source and boot, and the message opened under key L. */
  ghost predicate WitnessAt(lib: Library, run: seq<Action>, j: nat, p: Peer) {
    && j < |run| && run[j].Receive? && run[j].outcome.Routed? && Possible(lib, run[..j])
    && Submits(lib, After(lib, run[..j]).pending, run[j].rx)
    && var d, m := lib.decode(run[j].rx.raw).value, run[j].outcome.message;
       && MayConsume(d.header.kind, d.header.objectId) && Opens(lib, m)
       && p.mac == run[j].rx.mac && p.source == m.header.id.source && p.boot == m.header.id.boot
  }

  /** A row after a step was there with the same identity, or the step believed it. */
  lemma RowStep(lib: Library, s: State, a: Action, i: nat)
    requires |s.rows| == CAPACITY && Enabled(lib, s, a) && i < CAPACITY
    ensures |Next(lib, s, a).rows| == CAPACITY
    ensures Next(lib, s, a).rows[i].Some? ==>
      var p := Next(lib, s, a).rows[i].value;
      || (s.rows[i].Some? && Identity(s.rows[i].value) == Identity(p))
      || (a.Receive? && var ps := Processed(lib, s.pending, a.rx, a.outcome).1.believed;
                        ps != [] && Identity(ps[0]) == Identity(p))
  {
    hide Processed, Submitted, Submits;
    if a.Receive? { FewBelieved(lib, s.pending, a.rx, a.outcome); }
  }

  lemma {:induction false} RowsHaveWitnesses(lib: Library, run: seq<Action>, i: nat) returns (j: nat)
    requires Possible(lib, run) && i < CAPACITY && |After(lib, run).rows| == CAPACITY && After(lib, run).rows[i].Some?
    ensures WitnessAt(lib, run, j, After(lib, run).rows[i].value)
    decreases |run|
  {
    hide Enabled, Next, Proper, WitnessAt;
    assert run != [] by { StartIsEmpty(lib, run, i); }
    var front, a := Front(run), run[|run| - 1];
    var s := After(lib, front);
    var p := After(lib, run).rows[i].value;
    RunKeeps(lib, front);
    RowStep(lib, s, a, i);
    if s.rows[i].Some? && Identity(s.rows[i].value) == Identity(p) {
      j := RowsHaveWitnesses(lib, front, i);
      WitnessStays(lib, run, j, s.rows[i].value, p);
    } else {
      j := |run| - 1;
      ReceiveProper(lib, s, a);
      WitnessNow(lib, run, p);
    }
  }

  lemma StartIsEmpty(lib: Library, run: seq<Action>, i: nat)
    requires Possible(lib, run) && i < CAPACITY && |After(lib, run).rows| == CAPACITY && After(lib, run).rows[i].Some?
    ensures run != []
  {
  }

  lemma WitnessStays(lib: Library, run: seq<Action>, j: nat, q: Peer, p: Peer)
    requires run != [] && WitnessAt(lib, Front(run), j, q) && Identity(p) == Identity(q)
    ensures WitnessAt(lib, run, j, p)
  {
    hide Possible, After, Submits, MayConsume, Opens;
    assert Front(run)[..j] == run[..j];
  }

  lemma WitnessNow(lib: Library, run: seq<Action>, p: Peer)
    requires run != [] && Possible(lib, run)
    requires var a, s := run[|run| - 1], After(lib, Front(run));
      && a.Receive? && Proper(lib, s, a.rx, a.outcome)
      && var ps := Processed(lib, s.pending, a.rx, a.outcome).1.believed;
         ps != [] && Identity(ps[0]) == Identity(p)
    ensures WitnessAt(lib, run, |run| - 1, p)
  {
    hide After, Processed, Submits, MayConsume, Opens, Consumes, Reference, WholeMessage;
  }

  /** After any run: the next datagram has a proper effect, everything it relays is a datagram
      received in the run, byte for byte, and every row of the peer table has the identity of
      a message that was received from its address and opened under key L. */
  lemma IngressIsSafe(lib: Library, run: seq<Action>, a: Action)
    requires Possible(lib, run)
    ensures var s := After(lib, run);
      && |s.rows| == CAPACITY && OneRowEach(s.rows) && |s.pending| <= SLOT_COUNT
      && (forall i | 0 <= i < CAPACITY && s.rows[i].Some? :: exists j :: WitnessAt(lib, run, j, s.rows[i].value))
      && (a.Receive? && Enabled(lib, s, a) ==>
            && Proper(lib, s, a.rx, a.outcome)
            && forall x | x in Processed(lib, s.pending, a.rx, a.outcome).1.relayed :: ReceivedIn(run + [a], x))
  {
    hide Enabled, Next, WellHeld, Agreement, Proper, OneRowEach, WitnessAt, Possible, After, Processed, ReceivedIn;
    RunKeeps(lib, run);
    var s := After(lib, run);
    forall i | 0 <= i < CAPACITY && s.rows[i].Some? ensures exists j :: WitnessAt(lib, run, j, s.rows[i].value) {
      var j := RowsHaveWitnesses(lib, run, i);
    }
    if a.Receive? && Enabled(lib, s, a) {
      ReceiveProper(lib, s, a);
      forall x | x in Processed(lib, s.pending, a.rx, a.outcome).1.relayed ensures ReceivedIn(run + [a], x) {
        RelayedWasReceived(lib, run, a, x);
      }
    }
  }
}
