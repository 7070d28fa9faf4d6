/** What the hub does with a datagram from the radio.

    A candidate (a command, a manifest or a status) is held until its message is complete
    and has been tried under key L.  If it opens it is the hub's business or nobody's; if it
    does not, its fragments go up the cable as they came.  Decoding, opening and reassembly
    belong to the protocol library: `lib` stands for the first two, whatever they are, and
    Submitted is the contract of the third. */
module RadioIngress {
  import opened Bitwise
  import opened Common
  import opened LittleEndian
  import opened RelayTable
  import opened PeerTable

  const COMMAND_REQUEST: nat := 0x0001
  const COMMAND_RESULT: nat := 0x0002
  const MANIFEST_DATA: nat := 0x0004
  const STATUS: nat := 0x0009
  const TAG_SIZE: nat := 16

  datatype Message = Message(header: Header, payload: Bytes)

  datatype Library = Library(decode: Bytes -> Option<Message>, open: Message -> Option<Bytes>)

  datatype Outcome = Routed(message: Message) | FragmentAccepted | DuplicateFragment | DroppedReassembly

  datatype Rx = Rx(mac: nat, raw: Bytes, rssi: int, now: nat, protocolled: bool, self: nat)

  /** What one datagram causes: frames sent up, messages handled here, identities believed. */
  datatype Effect = Effect(relayed: seq<Bytes>, dispatched: seq<Message>, believed: seq<Peer>)

  const NOTHING := Effect([], [], [])

  // ----- whose business a message is -----

  predicate MayConsume(kind: Kind, objectId: nat) {
    || (kind == Control && objectId == STATUS)
    || (kind == Command && (objectId == COMMAND_REQUEST || objectId == COMMAND_RESULT))
    || (kind == Control && objectId == MANIFEST_DATA)
  }

  predicate HasReference(h: Header) {
    || (h.kind == Command && (h.objectId == COMMAND_REQUEST || h.objectId == COMMAND_RESULT))
    || (h.kind == Control && h.objectId == MANIFEST_DATA)
  }

  function Reference(h: Header, plaintext: Bytes): nat {
    if HasReference(h) && |plaintext| >= 4 then FromLe(plaintext[..4]) else 0
  }

  predicate Consumes(kind: Kind, objectId: nat, reference: nat, self: nat) {
    || (kind == Control && objectId == STATUS)
    || (((kind == Command && (objectId == COMMAND_REQUEST || objectId == COMMAND_RESULT))
         || (kind == Control && objectId == MANIFEST_DATA))
        && reference == self && self != 0)
  }

  /** Nothing is consumed that was not a candidate, and a candidate that names somebody else
      is consumed only if it is a status. */
  lemma ConsumesOnlyCandidates(h: Header, plaintext: Bytes, self: nat)
    ensures Consumes(h.kind, h.objectId, Reference(h, plaintext), self) ==> MayConsume(h.kind, h.objectId)
    ensures Consumes(h.kind, h.objectId, Reference(h, plaintext), self) <==>
      MayConsume(h.kind, h.objectId)
      && (HasReference(h) ==> self != 0 && |plaintext| >= 4 && FromLe(plaintext[..4]) == self)
  {
  }

  // ----- one datagram -----

  /** A complete candidate message: tried under key L, then relayed, handled or dropped. */
  function Judged(lib: Library, pending: Table, rx: Rx, h: Header, m: Message): (Table, Effect) {
    var plain := if |m.payload| >= TAG_SIZE then lib.open(m) else None;
    match plain
    case None =>
      if !rx.protocolled then (pending, NOTHING)
      else if !h.fragmented then (pending, Effect([rx.raw], [], []))
      else
        var frames := Taken(pending, m.header.id);
        (pending - {m.header.id}, if frames.Some? then Effect(frames.value, [], []) else NOTHING)
    case Some(plaintext) =>
      var p := Peer(rx.mac, m.header.id.source, m.header.id.boot, rx.now, rx.rssi, true);
      var mine := Consumes(m.header.kind, m.header.objectId, Reference(m.header, plaintext), rx.self);
      (pending - {m.header.id}, Effect([], if mine then [Message(m.header, plaintext)] else [], [p]))
  }

  /** processRxDatagramInternal.  The outcome is used only where the reassembler is asked. */
  function Processed(lib: Library, pending: Table, rx: Rx, outcome: Outcome): (Table, Effect) {
    match lib.decode(rx.raw)
    case None => (pending, NOTHING)
    case Some(d) =>
      var h := d.header;
      if !MayConsume(h.kind, h.objectId) then
        if rx.protocolled then (pending, Effect([rx.raw], [], []))
        else (pending, if outcome.Routed? then Effect([], [outcome.message], []) else NOTHING)
      else
        var retained := Retained(pending, h, rx.raw, rx.now);
        if !retained.1 then (retained.0, NOTHING)
        else
          match outcome
          case DroppedReassembly => (retained.0 - {h.id}, NOTHING)
          case Routed(m) => Judged(lib, retained.0, rx, h, m)
          case _ => (retained.0, NOTHING)
  }

  /** Whether a datagram reaches the reassembler. */
  predicate Submits(lib: Library, pending: Table, rx: Rx) {
    var d := lib.decode(rx.raw);
    && d.Some?
    && var h := d.value.header;
       if MayConsume(h.kind, h.objectId) then Retained(pending, h, rx.raw, rx.now).1 else !rx.protocolled
  }

  // ----- the reassembler, as a contract -----

  datatype Partial = Partial(kind: Kind, objectId: nat, count: nat, parts: map<nat, Bytes>)

  type Router = map<Id, Partial>

  function Join(parts: map<nat, Bytes>, n: nat): Bytes
    requires forall i | 0 <= i < n :: i in parts
  {
    if n == 0 then [] else Join(parts, n - 1) + parts[n - 1]
  }

  predicate Agrees(p: Partial, h: Header) {
    p.kind == h.kind && p.objectId == h.objectId && p.count == h.count
  }

  /** The parts a fragment may be added to: those held for its message, if they agree with
      it, or none (a partial message can have timed out at any time). */
  predicate Base(r: Router, h: Header, parts: map<nat, Bytes>) {
    parts == map[] || (h.id in r && Agrees(r[h.id], h) && parts == r[h.id].parts)
  }

  /** Other partial messages stay as they are or are given up. */
  predicate OthersKept(r: Router, r': Router, id: Id) {
    forall k | k in r' && k != id :: k in r && r'[k] == r[k]
  }

  predicate Unchanged(r: Router, r': Router, id: Id) {
    id in r' ==> id in r && r'[id] == r[id]
  }

  predicate AllParts(parts: map<nat, Bytes>, n: nat) {
    forall i | 0 <= i < n :: i in parts
  }

  /** A single frame is routed as it is; a message is routed with the fragment that makes it
      complete, joined from fragments that agree; a fragment that conflicts is reported. */
  ghost predicate Submitted(r: Router, d: Message, outcome: Outcome, r': Router) {
    var h := d.header;
    && OthersKept(r, r', h.id)
    && match outcome
       case DroppedReassembly => Unchanged(r, r', h.id)
       case DuplicateFragment =>
         h.fragmented && Unchanged(r, r', h.id)
         && h.id in r && Agrees(r[h.id], h) && h.index in r[h.id].parts && r[h.id].parts[h.index] == d.payload
       case FragmentAccepted =>
         h.fragmented && exists parts ::
           Base(r, h, parts) && h.index !in parts
           && (h.id in r' ==> r'[h.id] == Partial(h.kind, h.objectId, h.count, parts[h.index := d.payload]))
       case Routed(m) =>
         if !h.fragmented then m == d && Unchanged(r, r', h.id)
         else
           && h.id !in r'
           && m.header.kind == h.kind && m.header.objectId == h.objectId && m.header.id == h.id
           && exists parts ::
                Base(r, h, parts) && h.index !in parts && AllParts(parts[h.index := d.payload], h.count)
                && m.payload == Join(parts[h.index := d.payload], h.count)
  }

  // ----- the hub -----

  datatype State = State(pending: Table, router: Router, rows: Rows)

  datatype Action =
    | Receive(rx: Rx, outcome: Outcome, router: Router)
    | Heartbeat(mac: nat, ok: bool)

  const NO_ROWS: Rows := [None, None, None, None, None, None, None, None] + [None, None, None, None, None, None, None, None]

  const START := State(map[], map[], NO_ROWS)

  ghost predicate Enabled(lib: Library, s: State, a: Action) {
    && |s.rows| == CAPACITY
    && (a.Receive? ==>
          if Submits(lib, s.pending, a.rx) then Submitted(s.router, lib.decode(a.rx.raw).value, a.outcome, a.router)
          else a.router == s.router)
  }

  function Believed(rows: Rows, ps: seq<Peer>): (r: Rows)
    requires |rows| == CAPACITY && |ps| <= 1
    ensures |r| == CAPACITY
  {
    if ps == [] then rows else LinkNoted(Remembered(rows, ps[0]), ps[0].mac, true)
  }

  lemma FewBelieved(lib: Library, pending: Table, rx: Rx, outcome: Outcome)
    ensures |Processed(lib, pending, rx, outcome).1.believed| <= 1
  {
  }

  ghost function Next(lib: Library, s: State, a: Action): State
    requires Enabled(lib, s, a)
  {
    match a
    case Receive(rx, outcome, router) =>
      FewBelieved(lib, s.pending, rx, outcome);
      var (pending, effect) := Processed(lib, s.pending, rx, outcome);
      State(pending, router, Believed(s.rows, effect.believed))
    case Heartbeat(mac, ok) => s.(rows := LinkNoted(s.rows, mac, ok))
  }

  /** The hub's tables, and the handling of one datagram in the order of the source. */
  class Ingress {
    const relays: PendingRelays
    const peers: Peers

    ghost predicate Valid()
      reads this, relays, relays.slots, peers, peers.rows
    {
      relays.Valid() && peers.rows.Length == CAPACITY && (relays.slots as object) != peers.rows
    }

    constructor ()
      ensures Valid() && fresh(relays) && fresh(relays.slots) && fresh(peers) && fresh(peers.rows)
      ensures relays.contents == map[] && forall i | 0 <= i < CAPACITY :: peers.rows[i] == None
    {
      relays := new PendingRelays();
      peers := new Peers();
    }

    method Process(lib: Library, rx: Rx, outcome: Outcome) returns (effect: Effect)
      requires Valid()
      modifies relays, relays.slots, peers.rows
      ensures Valid() && (relays.contents, effect) == Processed(lib, old(relays.contents), rx, outcome)
      ensures |effect.believed| <= 1 && peers.rows[..] == Believed(old(peers.rows[..]), effect.believed)
    {
      hide Retained, MayConsume, Judged;
      effect := NOTHING;
      var d := lib.decode(rx.raw);
      if d.None? { return; }
      var h := d.value.header;
      var may := MayConsume(h.kind, h.objectId);
      if !may && rx.protocolled {
        effect := Effect([rx.raw], [], []);
        return;
      }
      if may {
        var ok := relays.Retain(h, rx.raw, rx.now);
        if !ok { return; }
      }
      match outcome {
        case DroppedReassembly => if may { relays.Clear(h.id); }
        case FragmentAccepted =>
        case DuplicateFragment =>
        case Routed(m) =>
          if may { effect := Judge(lib, rx, h, m); } else { effect := Effect([], [m], []); }
      }
    }

    method Judge(lib: Library, rx: Rx, h: Header, m: Message) returns (effect: Effect)
      requires Valid()
      modifies relays, relays.slots, peers.rows
      ensures Valid() && (relays.contents, effect) == Judged(lib, old(relays.contents), rx, h, m)
      ensures |effect.believed| <= 1 && peers.rows[..] == Believed(old(peers.rows[..]), effect.believed)
    {
      hide Represents, Consumes, Reference, Taken, Remembered, LinkNoted;
      effect := NOTHING;
      var plain := if |m.payload| >= TAG_SIZE then lib.open(m) else None;
      if plain.None? {
        if rx.protocolled {
          if h.fragmented {
            var frames := relays.RelayUp(m.header.id);
            if frames.Some? { effect := Effect(frames.value, [], []); }
          } else {
            effect := Effect([rx.raw], [], []);
          }
        }
        return;
      }
      var p := Peer(rx.mac, m.header.id.source, m.header.id.boot, rx.now, rx.rssi, true);
      peers.Remember(p);
      peers.NoteLink(rx.mac, true);
      var mine := Consumes(m.header.kind, m.header.objectId, Reference(m.header, plain.value), rx.self);
      relays.Clear(m.header.id);
      effect := Effect([], if mine then [Message(m.header, plain.value)] else [], [p]);
    }
  }
}
