/** What every datagram can cause, in every run of the radio ingress. */
module IngressSafety {
  import opened Bitwise
  import opened Common
  import opened RelayTable
  import opened PeerTable
  import opened RadioIngress

  /** A datagram that is fragment i of n of this candidate message. */
  predicate IsFragment(lib: Library, raw: Bytes, id: Id, i: nat, n: nat) {
    var d := lib.decode(raw);
    d.Some? && d.value.header.id == id && d.value.header.fragmented && d.value.header.index == i < n
    && d.value.header.count == n && MayConsume(d.value.header.kind, d.value.header.objectId)
  }

  /** Every frame held is the fragment it is held as. */
  predicate WellHeld(lib: Library, t: Table) {
    forall id, i | id in t && i in t[id].frames :: IsFragment(lib, t[id].frames[i], id, i, t[id].count)
  }

  predicate Same(lib: Library, t: Table, r: Router, id: Id, i: nat)
    requires id in t && id in r && i in t[id].frames && i in r[id].parts
  {
    lib.decode(t[id].frames[i]).Some? && lib.decode(t[id].frames[i]).value.payload == r[id].parts[i]
  }

  /** Where side table and reassembler both hold a part of a candidate, they hold the same. */
  predicate Agreement(lib: Library, t: Table, r: Router) {
    forall id, i | id in t && id in r && i in t[id].frames && i in r[id].parts
      && MayConsume(r[id].kind, r[id].objectId) :: Same(lib, t, r, id, i)
  }

  /** The same, but for one part of one message. */
  predicate AgreementBut(lib: Library, t: Table, r: Router, k: Id, n: nat) {
    forall id, i | id in t && id in r && i in t[id].frames && i in r[id].parts
      && MayConsume(r[id].kind, r[id].objectId) && !(id == k && i == n) :: Same(lib, t, r, id, i)
  }

  function Identity(p: Peer): (nat, nat, nat) { (p.mac, p.source, p.boot) }

  ghost predicate Inv(lib: Library, s: State) {
    && |s.rows| == CAPACITY
    && WellHeld(lib, s.pending) && Agreement(lib, s.pending, s.router)
    && |s.pending| <= SLOT_COUNT
    && OneRowEach(s.rows)
  }

  // ----- the side table -----

  predicate Part(t': Table, t: Table) {
    forall id | id in t' :: id in t && t'[id] == t[id]
  }

  lemma PartKeeps(lib: Library, t: Table, t': Table, r: Router)
    requires Part(t', t)
    ensures WellHeld(lib, t) ==> WellHeld(lib, t')
    ensures Agreement(lib, t, r) ==> Agreement(lib, t', r)
  {
    hide IsFragment;
    if Agreement(lib, t, r) {
      forall id, i | id in t' && id in r && i in t'[id].frames && i in r[id].parts
        && MayConsume(r[id].kind, r[id].objectId) ensures Same(lib, t', r, id, i) {
        assert Same(lib, t, r, id, i);
      }
    }
  }

  /** Retaining a datagram adds at most itself. */
  lemma RetainedAdds(lib: Library, t: Table, h: Header, raw: Bytes, now: nat)
    ensures var (u, ok) := Retained(t, h, raw, now);
      if ok && h.fragmented then
        && Part(u - {h.id}, t) && h.id in u && u[h.id].count == h.count && h.index < h.count
        && h.index in u[h.id].frames && u[h.id].frames[h.index] == raw
        && (forall i | i in u[h.id].frames && i != h.index ::
              h.id in t && t[h.id].count == h.count && i in t[h.id].frames && t[h.id].frames[i] == u[h.id].frames[i])
      else Part(u, t)
  {
    hide Fresh;
  }

  lemma RetainedSize(t: Table, h: Header, raw: Bytes, now: nat)
    requires |t| <= SLOT_COUNT
    ensures |Retained(t, h, raw, now).0| <= SLOT_COUNT
  {
    hide Expired;
    var e := Expired(t, now);
    ExpiredSize(t, now);
    if h.id in e {
      SmallerTable(e - {h.id}, e);
      InsertSize(e, h.id, Entry(h.count, now, e[h.id].frames[h.index := raw]));
    } else {
      InsertSize(e, h.id, Entry(h.count, now, map[h.index := raw]));
    }
  }

  lemma ExpiredSize(t: Table, now: nat)
    ensures |Expired(t, now)| <= |t|
  {
    hide Fresh;
    SmallerTable(Expired(t, now), t);
  }

  lemma InsertSize(t: Table, id: Id, e: Entry)
    ensures |t[id := e]| == |t| + if id in t then 0 else 1
  {
    assert t[id := e].Keys == t.Keys + {id};
    assert |t[id := e]| == |t[id := e].Keys| && |t| == |t.Keys|;
  }

  lemma SmallerTable(u: Table, t: Table)
    requires u.Keys <= t.Keys
    ensures |u| <= |t|
  {
    SmallerSet(u.Keys, t.Keys);
    assert |u| == |u.Keys| && |t| == |t.Keys|;
  }

  lemma SmallerSet<T>(x: set<T>, y: set<T>)
    requires x <= y
    ensures |x| <= |y|
  {
    assert y == x + (y - x);
  }

  lemma RetainedKeeps(lib: Library, t: Table, d: Message, raw: Bytes, now: nat, r: Router)
    requires WellHeld(lib, t) && Agreement(lib, t, r)
    requires lib.decode(raw) == Some(d) && MayConsume(d.header.kind, d.header.objectId)
    ensures var (u, ok) := Retained(t, d.header, raw, now);
      && WellHeld(lib, u)
      && (if ok && d.header.fragmented then AgreementBut(lib, u, r, d.header.id, d.header.index)
          else Agreement(lib, u, r))
  {
    hide Retained, MayConsume;
    var h := d.header;
    var (u, ok) := Retained(t, h, raw, now);
    RetainedAdds(lib, t, h, raw, now);
    if ok && h.fragmented {
      FragmentHeld(lib, t, u, d, raw);
      FragmentAgrees(lib, t, u, h, r);
    } else {
      PartKeeps(lib, t, u, r);
    }
  }

  lemma FragmentHeld(lib: Library, t: Table, u: Table, d: Message, raw: Bytes)
    requires WellHeld(lib, t) && lib.decode(raw) == Some(d) && MayConsume(d.header.kind, d.header.objectId)
    requires var h := d.header;
      && Part(u - {h.id}, t) && h.id in u && u[h.id].count == h.count && h.index < h.count
      && h.index in u[h.id].frames && u[h.id].frames[h.index] == raw && h.fragmented
      && (forall i | i in u[h.id].frames && i != h.index ::
            h.id in t && t[h.id].count == h.count && i in t[h.id].frames && t[h.id].frames[i] == u[h.id].frames[i])
    ensures WellHeld(lib, u)
  {
    hide MayConsume;
    var h := d.header;
    assert IsFragment(lib, raw, h.id, h.index, h.count);
    hide IsFragment;
    forall id, i | id in u && i in u[id].frames ensures IsFragment(lib, u[id].frames[i], id, i, u[id].count) {
      if id != h.id { assert id in u - {h.id}; }
      assert (id == h.id && i == h.index) || IsFragment(lib, t[id].frames[i], id, i, t[id].count);
    }
  }

  lemma FragmentAgrees(lib: Library, t: Table, u: Table, h: Header, r: Router)
    requires Agreement(lib, t, r)
    requires Part(u - {h.id}, t) && h.id in u
    requires forall i | i in u[h.id].frames && i != h.index ::
      h.id in t && i in t[h.id].frames && t[h.id].frames[i] == u[h.id].frames[i]
    ensures AgreementBut(lib, u, r, h.id, h.index)
  {
    hide MayConsume;
    forall id, i | id in u && id in r && i in u[id].frames && i in r[id].parts
      && MayConsume(r[id].kind, r[id].objectId) && !(id == h.id && i == h.index) ensures Same(lib, u, r, id, i) {
      if id != h.id { assert id in u - {h.id}; }
      assert Same(lib, t, r, id, i);
    }
  }

  // ----- the reassembler -----

  lemma SubmittedAgrees(lib: Library, u: Table, d: Message, raw: Bytes, r: Router, outcome: Outcome, r': Router)
    requires Submitted(r, d, outcome, r') && lib.decode(raw) == Some(d) && d.header.fragmented
    requires AgreementBut(lib, u, r, d.header.id, d.header.index)
    requires d.header.id in u && d.header.index in u[d.header.id].frames && u[d.header.id].frames[d.header.index] == raw
    ensures Agreement(lib, if outcome.DroppedReassembly? then u - {d.header.id} else u, r')
  {
    hide MayConsume;
    var h := d.header;
    var t' := if outcome.DroppedReassembly? then u - {h.id} else u;
    forall id, i | id in t' && id in r' && i in t'[id].frames && i in r'[id].parts
      && MayConsume(r'[id].kind, r'[id].objectId) ensures Same(lib, t', r', id, i) {
      if id != h.id {
        assert r'[id] == r[id] && Same(lib, u, r, id, i);
      } else if i != h.index {
        assert id in r && i in r[id].parts && r'[id].parts[i] == r[id].parts[i];
        assert Same(lib, u, r, id, i);
      }
    }
  }

  lemma OtherwiseAgrees(lib: Library, u: Table, d: Message, r: Router, outcome: Outcome, r': Router)
    requires Submitted(r, d, outcome, r') && Agreement(lib, u, r)
    requires !d.header.fragmented || !MayConsume(d.header.kind, d.header.objectId)
    ensures Agreement(lib, u, r')
  {
    hide MayConsume;
    var h := d.header;
    forall id, i | id in u && id in r' && i in u[id].frames && i in r'[id].parts
      && MayConsume(r'[id].kind, r'[id].objectId) ensures Same(lib, u, r', id, i) {
      assert id in r && r'[id] == r[id];
      assert Same(lib, u, r, id, i);
    }
  }

  // ----- relaying -----

  function Payload(lib: Library, raw: Bytes): Bytes {
    var d := lib.decode(raw);
    if d.Some? then d.value.payload else []
  }

  function JoinPayloads(lib: Library, frames: seq<Bytes>): Bytes {
    if frames == [] then []
    else JoinPayloads(lib, frames[..|frames| - 1]) + Payload(lib, frames[|frames| - 1])
  }

  /** These frames are all fragments of the message in index order, and carry it. */
  predicate WholeMessage(lib: Library, frames: seq<Bytes>, m: Message) {
    && (forall i | 0 <= i < |frames| :: IsFragment(lib, frames[i], m.header.id, i, |frames|))
    && JoinPayloads(lib, frames) == m.payload
  }

  lemma {:induction false} JoinIsPayloads(lib: Library, frames: seq<Bytes>, parts: map<nat, Bytes>)
    requires forall i | 0 <= i < |frames| :: i in parts && Payload(lib, frames[i]) == parts[i]
    ensures JoinPayloads(lib, frames) == Join(parts, |frames|)
  {
    hide Payload;
    if frames != [] {
      var front := frames[..|frames| - 1];
      assert forall i | 0 <= i < |front| :: front[i] == frames[i];
      JoinIsPayloads(lib, front, parts);
    }
  }

  lemma RelayedWhole(lib: Library, u: Table, d: Message, raw: Bytes, r: Router, m: Message, r': Router)
    requires WellHeld(lib, u) && AgreementBut(lib, u, r, d.header.id, d.header.index)
    requires Submitted(r, d, Routed(m), r') && lib.decode(raw) == Some(d) && d.header.fragmented
    requires MayConsume(d.header.kind, d.header.objectId) && d.header.id in u && u[d.header.id].count == d.header.count
    requires d.header.index in u[d.header.id].frames && u[d.header.id].frames[d.header.index] == raw
    ensures m.header.id == d.header.id
    ensures Taken(u, m.header.id).Some? ==> WholeMessage(lib, Taken(u, m.header.id).value, m)
  {
    hide MayConsume, Base, Join;
    var h := d.header;
    if Taken(u, h.id).Some? {
      var frames := Taken(u, h.id).value;
      var parts :| Base(r, h, parts) && h.index !in parts && AllParts(parts[h.index := d.payload], h.count)
        && m.payload == Join(parts[h.index := d.payload], h.count);
      forall i | 0 <= i < |frames|
        ensures IsFragment(lib, frames[i], h.id, i, |frames|)
        ensures Payload(lib, frames[i]) == parts[h.index := d.payload][i]
      {
        assert IsFragment(lib, u[h.id].frames[i], h.id, i, u[h.id].count);
        assert i in parts[h.index := d.payload];
        if i != h.index { OldPart(lib, u, r, h, parts, i); }
      }
      JoinIsPayloads(lib, frames, parts[h.index := d.payload]);
    }
  }

  lemma OldPart(lib: Library, u: Table, r: Router, h: Header, parts: map<nat, Bytes>, i: nat)
    requires AgreementBut(lib, u, r, h.id, h.index) && Base(r, h, parts) && i in parts && i != h.index
    requires MayConsume(h.kind, h.objectId) && h.id in u && i in u[h.id].frames
    ensures Payload(lib, u[h.id].frames[i]) == parts[i]
  {
    hide MayConsume;
    assert Same(lib, u, r, h.id, i);
  }

  // ----- what one datagram causes -----

  predicate Opens(lib: Library, m: Message) { |m.payload| >= TAG_SIZE && lib.open(m).Some? }

  /** A candidate is dispatched exactly if its message is complete, opens under key L and is
      the hub's by its own plaintext; it is relayed only if its message is complete and does
      not open, and then whole and as it came. */
  ghost predicate CandidateProper(lib: Library, rx: Rx, d: Message, outcome: Outcome, submits: bool, e: Effect) {
    && (e.dispatched != [] <==>
          submits && outcome.Routed? && Opens(lib, outcome.message)
          && var h, plaintext := outcome.message.header, lib.open(outcome.message).value;
             Consumes(h.kind, h.objectId, Reference(h, plaintext), rx.self))
    && (e.dispatched != [] ==> e.dispatched == [Message(outcome.message.header, lib.open(outcome.message).value)])
    && (e.relayed != [] ==>
          submits && outcome.Routed? && !Opens(lib, outcome.message) && rx.protocolled
          && if d.header.fragmented then WholeMessage(lib, e.relayed, outcome.message)
             else e.relayed == [rx.raw] && outcome.message == d)
    && (e.believed != [] <==> submits && outcome.Routed? && Opens(lib, outcome.message))
    && (e.believed != [] ==>
          |e.believed| == 1
          && Identity(e.believed[0]) == (rx.mac, outcome.message.header.id.source, outcome.message.header.id.boot))
  }

  ghost predicate Proper(lib: Library, s: State, rx: Rx, outcome: Outcome) {
    var e := Processed(lib, s.pending, rx, outcome).1;
    var d := lib.decode(rx.raw);
    && (e.relayed == [] || e.dispatched == []) && |e.dispatched| <= 1
    && match d
       case None => e == NOTHING
       case Some(d) =>
         if MayConsume(d.header.kind, d.header.objectId)
         then CandidateProper(lib, rx, d, outcome, Submits(lib, s.pending, rx), e)
         else e.believed == [] && e.relayed == (if rx.protocolled then [rx.raw] else [])
  }

  lemma JudgedProper(lib: Library, u: Table, d: Message, rx: Rx, r: Router, m: Message, r': Router)
    requires Submitted(r, d, Routed(m), r') && lib.decode(rx.raw) == Some(d)
    requires MayConsume(d.header.kind, d.header.objectId)
    requires d.header.fragmented ==>
      && WellHeld(lib, u) && AgreementBut(lib, u, r, d.header.id, d.header.index)
      && d.header.id in u && u[d.header.id].count == d.header.count
      && d.header.index in u[d.header.id].frames && u[d.header.id].frames[d.header.index] == rx.raw
    ensures CandidateProper(lib, rx, d, Routed(m), true, Judged(lib, u, rx, d.header, m).1)
    ensures Part(Judged(lib, u, rx, d.header, m).0, u)
  {
    hide MayConsume, Consumes, Reference, WholeMessage, Taken, WellHeld, AgreementBut, IsFragment;
    if d.header.fragmented {
      RelayedWhole(lib, u, d, rx.raw, r, m, r');
    } else {
      assert m == d;
    }
    hide Submitted;
  }

  /** Every datagram, in every state a run can reach, has a proper effect. */
  lemma ReceiveProper(lib: Library, s: State, a: Action)
    requires Inv(lib, s) && Enabled(lib, s, a) && a.Receive?
    ensures Proper(lib, s, a.rx, a.outcome)
  {
    hide Retained, MayConsume, Judged, WellHeld, Agreement, AgreementBut, Submitted;
    var rx := a.rx;
    match lib.decode(rx.raw)
    case None =>
    case Some(d) =>
      if MayConsume(d.header.kind, d.header.objectId) && Submits(lib, s.pending, rx) && a.outcome.Routed? {
        var u := Retained(s.pending, d.header, rx.raw, rx.now).0;
        RetainedKeeps(lib, s.pending, d, rx.raw, rx.now, s.router);
        RetainedAdds(lib, s.pending, d.header, rx.raw, rx.now);
        JudgedProper(lib, u, d, rx, s.router, a.outcome.message, a.router);
        hide CandidateProper;
        JudgedExclusive(lib, u, rx, d.header, a.outcome.message);
      }
  }

  lemma JudgedExclusive(lib: Library, u: Table, rx: Rx, h: Header, m: Message)
    ensures var e := Judged(lib, u, rx, h, m).1;
      (e.relayed == [] || e.dispatched == []) && |e.dispatched| <= 1 && |e.believed| <= 1
  {
  }

  predicate HeldWhole(t: Table, id: Id) { id in t && Complete(t[id]) }

  /** A candidate that is relayed in fragments or has opened is forgotten with the same
      datagram; one that does not open while a desktop is there is relayed exactly if it is a
      single frame or the side table holds all of it. */
  lemma DecidedOnce(lib: Library, s: State, rx: Rx, outcome: Outcome, router: Router)
    requires Enabled(lib, s, Receive(rx, outcome, router)) && Submits(lib, s.pending, rx) && outcome.Routed?
    requires MayConsume(lib.decode(rx.raw).value.header.kind, lib.decode(rx.raw).value.header.objectId)
    ensures var (after, e) := Processed(lib, s.pending, rx, outcome);
      var h := lib.decode(rx.raw).value.header;
      var u := Retained(s.pending, h, rx.raw, rx.now).0;
      && (Opens(lib, outcome.message) || (h.fragmented && e.relayed != []) ==> h.id !in after)
      && (!Opens(lib, outcome.message) && rx.protocolled ==>
            (e.relayed != [] <==> !h.fragmented || HeldWhole(u, h.id)))
  {
    hide Retained, MayConsume, Consumes, Reference;
    var h := lib.decode(rx.raw).value.header;
    RetainedAdds(lib, s.pending, h, rx.raw, rx.now);
    assert outcome.message.header.id == h.id;
  }
}
