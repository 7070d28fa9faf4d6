/** The three topics of the hub itself: their field tables, and the payloads packed for them. */
module HubTopics {
  import opened Bitwise
  import opened Common
  import opened LittleEndian
  import opened TopicRecords
  import opened PackedSchema

  const MAX_PEERS: nat := 16
  const RECORDS_CAPACITY: nat := 2048

  type U64 = x: nat | x < 0x1_0000_0000_0000_0000

  function Ascii(s: string): (r: Text)
    requires |s| < 0x1_0000
    ensures |r| == |s|
  {
    seq(|s|, i requires 0 <= i < |s| => s[i] as nat % 256)
  }

  const LINK_FIELDS: seq<Field> := [
    Field(1, 0, Ascii("datagrams"), TYPE_UINT32, Ascii("1"), 1, 0, 0),
    Field(2, 1, Ascii("fragments_accepted"), TYPE_UINT32, Ascii("1"), 1, 0, 0),
    Field(3, 2, Ascii("routed_telemetry"), TYPE_UINT32, Ascii("1"), 1, 0, 0),
    Field(4, 3, Ascii("routed_log"), TYPE_UINT32, Ascii("1"), 1, 0, 0),
    Field(5, 4, Ascii("routed_command"), TYPE_UINT32, Ascii("1"), 1, 0, 0),
    Field(6, 5, Ascii("routed_control"), TYPE_UINT32, Ascii("1"), 1, 0, 0),
    Field(7, 6, Ascii("routed_terminal"), TYPE_UINT32, Ascii("1"), 1, 0, 0),
    Field(8, 7, Ascii("dropped_rx"), TYPE_UINT32, Ascii("1"), 1, 0, 0),
    Field(9, 8, Ascii("dropped_decode"), TYPE_UINT32, Ascii("1"), 1, 0, 0),
    Field(10, 9, Ascii("dropped_crc"), TYPE_UINT32, Ascii("1"), 1, 0, 0),
    Field(11, 10, Ascii("dropped_reassembly"), TYPE_UINT32, Ascii("1"), 1, 0, 0),
    Field(12, 11, Ascii("dropped_queue_full"), TYPE_UINT32, Ascii("1"), 1, 0, 0)]

  const USB_FIELDS: seq<Field> := [
    Field(1, 0, Ascii("frames_rx"), TYPE_UINT64, Ascii("1"), 1, 0, 0),
    Field(2, 1, Ascii("frames_tx"), TYPE_UINT64, Ascii("1"), 1, 0, 0),
    Field(3, 2, Ascii("crc_errors"), TYPE_UINT64, Ascii("1"), 1, 0, 0),
    Field(4, 3, Ascii("decode_errors"), TYPE_UINT64, Ascii("1"), 1, 0, 0),
    Field(5, 4, Ascii("reassembly_rejected"), TYPE_UINT64, Ascii("1"), 1, 0, 0),
    Field(6, 5, Ascii("telemetry_dropped"), TYPE_UINT64, Ascii("1"), 1, 0, 0),
    Field(7, 6, Ascii("dropped_by_class"), TYPE_UINT64, Ascii("1"), 4, 0, 0),
    Field(8, 7, Ascii("relay_down_ok"), TYPE_UINT64, Ascii("1"), 1, 0, 0),
    Field(9, 8, Ascii("relay_down_unbound"), TYPE_UINT64, Ascii("1"), 1, 0, 0),
    Field(10, 9, Ascii("relay_down_no_peer"), TYPE_UINT64, Ascii("1"), 1, 0, 0),
    Field(11, 10, Ascii("relay_down_oversized"), TYPE_UINT64, Ascii("1"), 1, 0, 0),
    Field(12, 11, Ascii("relay_down_send_failed"), TYPE_UINT64, Ascii("1"), 1, 0, 0)]

  const PEERS_FIELDS: seq<Field> := [
    Field(1, 0, Ascii("channel"), TYPE_UINT8, Ascii("1"), 0, 16, VARIABLE_COUNT),
    Field(2, 1, Ascii("source_id"), TYPE_UINT32, Ascii("1"), 0, 16, VARIABLE_COUNT),
    Field(3, 2, Ascii("boot_id"), TYPE_UINT32, Ascii("1"), 0, 16, VARIABLE_COUNT),
    Field(4, 3, Ascii("mac"), TYPE_UINT8, Ascii("1"), 0, 96, VARIABLE_COUNT),
    Field(5, 4, Ascii("last_seen_ms"), TYPE_UINT32, Ascii("ms"), 0, 16, VARIABLE_COUNT),
    Field(6, 5, Ascii("online"), TYPE_UINT8, Ascii("1"), 0, 16, VARIABLE_COUNT),
    Field(7, 6, Ascii("rssi"), TYPE_INT8, Ascii("dBm"), 0, 16, VARIABLE_COUNT),
    Field(8, 7, Ascii("rtt_ms"), TYPE_UINT32, Ascii("ms"), 0, 16, VARIABLE_COUNT)]

  const HUB_TOPICS: seq<Topic> := [
    Topic(0x0F01, Ascii("hub.link"), 5000, LINK_FIELDS),
    Topic(0x0F02, Ascii("hub.usb"), 5000, USB_FIELDS),
    Topic(0x0F03, Ascii("hub.peers"), 2000, PEERS_FIELDS)]

  datatype LinkCounters = LinkCounters(
    datagrams: U32, fragmentsAccepted: U32, routedTelemetry: U32, routedLog: U32,
    routedCommand: U32, routedControl: U32, routedTerminal: U32, droppedRx: U32,
    droppedDecode: U32, droppedCrc: U32, droppedReassembly: U32, droppedQueueFull: U32)

  datatype UsbCounters = UsbCounters(
    framesRx: U64, framesTx: U64, crcErrors: U64, decodeErrors: U64, reassemblyRejected: U64, telemetryDropped: U64,
    droppedByClass: seq<U64>,
    relayDownOk: U64, relayDownUnbound: U64, relayDownNoPeer: U64, relayDownOversized: U64, relayDownSendFailed: U64)

  datatype PeerRecord = PeerRecord(sourceId: U32, bootId: U32, mac: seq<Byte>, lastSeenMs: U32, online: bool,
                                   rssi: int, rttMs: U32)

  predicate ValidPeer(p: PeerRecord) { |p.mac| == 6 && -128 <= p.rssi < 128 }

  // ----- hub.link -----

  function LinkValues(c: LinkCounters): (r: seq<U32>)
    ensures |r| == 12
  {
    [c.datagrams, c.fragmentsAccepted, c.routedTelemetry, c.routedLog, c.routedCommand, c.routedControl,
     c.routedTerminal, c.droppedRx, c.droppedDecode, c.droppedCrc, c.droppedReassembly, c.droppedQueueFull]
  }

  /** One value per field, in the order of the table. */
  function Scalars(vs: seq<int>): (r: seq<seq<int>>)
    ensures |r| == |vs|
  {
    seq(|vs|, i requires 0 <= i < |vs| => [vs[i]])
  }

  function LinkColumns(c: LinkCounters): (r: seq<seq<int>>)
    ensures |r| == 12
  {
    Scalars(LinkValues(c))
  }

  lemma LinkTable()
    ensures |LINK_FIELDS| == 12 && forall i | 0 <= i < 12 :: Single(LINK_FIELDS[i], 4)
    ensures forall i | 0 <= i < 12 :: LINK_FIELDS[i].kind == TYPE_UINT32
  {
  }

  lemma LinkTyped(c: LinkCounters)
    ensures AllTyped(LINK_FIELDS, LinkColumns(c))
  {
    hide LinkValues, LINK_FIELDS;
    LinkTable();
    Powers();
  }

  /** packLink writes what the table says, in its order: a reader of the table recovers every
      counter, and the payload has its fixed size. */
  lemma LinkDecodes(c: LinkCounters)
    ensures AllTyped(LINK_FIELDS, LinkColumns(c))
    ensures Decode(LINK_FIELDS, Encode(LINK_FIELDS, LinkColumns(c))) == Some(LinkColumns(c))
    ensures |Encode(LINK_FIELDS, LinkColumns(c))| == 50
    ensures Concat([Le(SCHEMA_VERSION, 2)] + Quads(LinkValues(c))) == Encode(LINK_FIELDS, LinkColumns(c))
  {
    hide LinkValues, LINK_FIELDS, AllTyped, Single, DecodeFrom;
    var vs := LinkValues(c);
    LinkTyped(c);
    LinkTable();
    SchemaRoundTrip(LINK_FIELDS, LinkColumns(c));
    SinglesEncode(LINK_FIELDS, LinkColumns(c), Quads(vs), 0, 12, 4);
    ConcatJoin([Le(SCHEMA_VERSION, 2)], Quads(vs));
    ConcatOne(Le(SCHEMA_VERSION, 2));
  }

  function Quads(vs: seq<U32>): (r: seq<Bytes>)
    ensures |r| == |vs|
  {
    seq(|vs|, i requires 0 <= i < |vs| => Le(vs[i], 4))
  }

  lemma LinkParts(c: LinkCounters, parts: seq<Bytes>)
    requires parts == [Le(SCHEMA_VERSION, 2), Le(c.datagrams, 4), Le(c.fragmentsAccepted, 4), Le(c.routedTelemetry, 4),
      Le(c.routedLog, 4), Le(c.routedCommand, 4), Le(c.routedControl, 4), Le(c.routedTerminal, 4), Le(c.droppedRx, 4),
      Le(c.droppedDecode, 4), Le(c.droppedCrc, 4), Le(c.droppedReassembly, 4), Le(c.droppedQueueFull, 4)]
    ensures parts == [Le(SCHEMA_VERSION, 2)] + Quads(LinkValues(c))
  {
    hide Le;
  }

  /** packLink. */
  method PackLink(c: LinkCounters, output: array<Byte>) returns (size: nat)
    modifies output
    ensures output.Length < 50 ==> size == 0
    ensures output.Length >= 50 ==> size == 50 && Decode(LINK_FIELDS, output[..size]) == Some(LinkColumns(c))
  {
    if output.Length < 50 { return 0; }
    hide LINK_FIELDS, Decode, Encode, LinkColumns, Concat, Le, AllTyped, LinkValues, Quads;
    var w := new Writer(output);
    var parts := [Le(SCHEMA_VERSION, 2), Le(c.datagrams, 4), Le(c.fragmentsAccepted, 4), Le(c.routedTelemetry, 4),
      Le(c.routedLog, 4), Le(c.routedCommand, 4), Le(c.routedControl, 4), Le(c.routedTerminal, 4), Le(c.droppedRx, 4),
      Le(c.droppedDecode, 4), Le(c.droppedCrc, 4), Le(c.droppedReassembly, 4), Le(c.droppedQueueFull, 4)];
    LinkParts(c, parts);
    LinkDecodes(c);
    var ok := w.All(parts);
    size := w.pos;
    assert output[..size] == Encode(LINK_FIELDS, LinkColumns(c));
  }

  // ----- hub.usb -----

  function UsbColumns(c: UsbCounters): (r: seq<seq<int>>)
    ensures |r| == 12
  {
    [[c.framesRx], [c.framesTx], [c.crcErrors], [c.decodeErrors], [c.reassemblyRejected], [c.telemetryDropped],
     c.droppedByClass,
     [c.relayDownOk], [c.relayDownUnbound], [c.relayDownNoPeer], [c.relayDownOversized], [c.relayDownSendFailed]]
  }

  lemma UsbTable()
    ensures |USB_FIELDS| == 12 && forall i | 0 <= i < 12 && i != 6 :: Single(USB_FIELDS[i], 8)
    ensures forall i | 0 <= i < 12 :: USB_FIELDS[i].kind == TYPE_UINT64
    ensures USB_FIELDS[6].count == 4 && USB_FIELDS[6].flags == 0
  {
  }

  lemma UsbTyped(c: UsbCounters)
    requires |c.droppedByClass| == 4
    ensures AllTyped(USB_FIELDS, UsbColumns(c))
  {
    hide USB_FIELDS;
    UsbTable();
    Powers();
    var columns := UsbColumns(c);
    forall i, k | 0 <= i < 12 && 0 <= k < |columns[i]| ensures Holds(USB_FIELDS[i].kind, columns[i][k]) {
      assert 0 <= columns[i][k] < 0x1_0000_0000_0000_0000;
    }
  }

  function Octs(vs: seq<U64>): (r: seq<Bytes>)
    ensures |r| == |vs|
  {
    seq(|vs|, i requires 0 <= i < |vs| => Le(vs[i], 8))
  }

  function UsbHead(c: UsbCounters): seq<U64> {
    [c.framesRx, c.framesTx, c.crcErrors, c.decodeErrors, c.reassemblyRejected, c.telemetryDropped]
  }

  function UsbTail(c: UsbCounters): seq<U64> {
    [c.relayDownOk, c.relayDownUnbound, c.relayDownNoPeer, c.relayDownOversized, c.relayDownSendFailed]
  }

  /** packUsb writes what the table says, in its order: a reader of the table recovers every
      counter, and the payload has its fixed size. */
  lemma UsbDecodes(c: UsbCounters)
    requires |c.droppedByClass| == 4
    ensures AllTyped(USB_FIELDS, UsbColumns(c))
    ensures Decode(USB_FIELDS, Encode(USB_FIELDS, UsbColumns(c))) == Some(UsbColumns(c))
    ensures |Encode(USB_FIELDS, UsbColumns(c))| == 122
    ensures Le(SCHEMA_VERSION, 2) + Concat(Octs(UsbHead(c))) + Concat(Octs(c.droppedByClass)) + Concat(Octs(UsbTail(c)))
         == Encode(USB_FIELDS, UsbColumns(c))
  {
    hide *;
    UsbTyped(c);
    var columns := UsbColumns(c);
    SchemaRoundTrip(USB_FIELDS, columns);
    EncodeIs(USB_FIELDS, columns);
    UsbTable();
    UsbSingles(c);
    EncodeStep(USB_FIELDS, columns, 6);
    UsbDrops(c);
  }

  lemma UsbSingles(c: UsbCounters)
    requires |c.droppedByClass| == 4 && AllTyped(USB_FIELDS, UsbColumns(c))
    ensures |USB_FIELDS| == 12
    ensures var columns := UsbColumns(c);
      && EncodeFrom(USB_FIELDS, columns, 0) == Concat(Octs(UsbHead(c))) + EncodeFrom(USB_FIELDS, columns, 6)
      && EncodeFrom(USB_FIELDS, columns, 7) == Concat(Octs(UsbTail(c)))
      && |EncodeFrom(USB_FIELDS, columns, 0)| == 48 + |EncodeFrom(USB_FIELDS, columns, 6)|
      && |EncodeFrom(USB_FIELDS, columns, 7)| == 40
  {
    UsbFirst(c);
    UsbLast(c);
  }

  lemma UsbFirst(c: UsbCounters)
    requires |c.droppedByClass| == 4 && AllTyped(USB_FIELDS, UsbColumns(c))
    ensures |USB_FIELDS| == 12
    ensures var columns := UsbColumns(c);
      && EncodeFrom(USB_FIELDS, columns, 0) == Concat(Octs(UsbHead(c))) + EncodeFrom(USB_FIELDS, columns, 6)
      && |EncodeFrom(USB_FIELDS, columns, 0)| == 48 + |EncodeFrom(USB_FIELDS, columns, 6)|
  {
    hide USB_FIELDS, AllTyped, Single, Concat, Le, EncodeFrom;
    UsbTable();
    SinglesEncode(USB_FIELDS, UsbColumns(c), Octs(UsbHead(c)), 0, 6, 8);
  }

  lemma UsbLast(c: UsbCounters)
    requires |c.droppedByClass| == 4 && AllTyped(USB_FIELDS, UsbColumns(c))
    ensures |USB_FIELDS| == 12
    ensures EncodeFrom(USB_FIELDS, UsbColumns(c), 7) == Concat(Octs(UsbTail(c)))
    ensures |EncodeFrom(USB_FIELDS, UsbColumns(c), 7)| == 40
  {
    hide USB_FIELDS, AllTyped, Single, Concat, Le;
    UsbTable();
    SinglesEncode(USB_FIELDS, UsbColumns(c), Octs(UsbTail(c)), 7, 12, 8);
  }

  lemma UsbDrops(c: UsbCounters)
    requires |c.droppedByClass| == 4 && AllTyped(USB_FIELDS, UsbColumns(c))
    ensures |USB_FIELDS| == 12 && UsbColumns(c)[6] == c.droppedByClass && Typed(USB_FIELDS[6], c.droppedByClass)
    ensures EncodeField(USB_FIELDS[6], c.droppedByClass) == Concat(Octs(c.droppedByClass))
    ensures |EncodeField(USB_FIELDS[6], c.droppedByClass)| == 32
  {
    hide USB_FIELDS, Concat, Le;
    UsbTable();
    assert Typed(USB_FIELDS[6], UsbColumns(c)[6]);
    ValueWrites(TYPE_UINT64, c.droppedByClass, Octs(c.droppedByClass));
  }

  /** The loop over the drop counters. */
  method WriteDrops(w: Writer, vs: seq<U64>) returns (ok: bool)
    requires w.Valid() && w.pos + |Concat(Octs(vs))| <= w.out.Length
    modifies w`pos, w.out
    ensures w.Valid() && ok && w.Contents() == old(w.Contents()) + Concat(Octs(vs))
  {
    hide Concat, Le;
    ghost var front, parts := w.Contents(), Octs(vs);
    ok := true;
    ConcatNone(parts[..0]);
    assert front + [] == front;
    for i := 0 to |vs|
      invariant w.Valid() && ok && w.Contents() == front + Concat(parts[..i])
    {
      DropPart(vs, i);
      ConcatGrows(parts, i + 1);
      ok := w.Raw(Le(vs[i], 8));
    }
    assert parts[..|vs|] == parts;
  }

  /** packUsb. */
  method PackUsb(c: UsbCounters, output: array<Byte>) returns (size: nat)
    requires |c.droppedByClass| == 4
    modifies output
    ensures output.Length < 122 ==> size == 0
    ensures output.Length >= 122 ==> size == 122 && Decode(USB_FIELDS, output[..size]) == Some(UsbColumns(c))
  {
    if output.Length < 122 { return 0; }
    hide *;
    UsbDecodes(c);
    var w := new Writer(output);
    var head := [Le(SCHEMA_VERSION, 2), Le(c.framesRx, 8), Le(c.framesTx, 8), Le(c.crcErrors, 8), Le(c.decodeErrors, 8),
      Le(c.reassemblyRejected, 8), Le(c.telemetryDropped, 8)];
    var tail := [Le(c.relayDownOk, 8), Le(c.relayDownUnbound, 8), Le(c.relayDownNoPeer, 8),
      Le(c.relayDownOversized, 8), Le(c.relayDownSendFailed, 8)];
    UsbParts(c, head);
    TailParts(c, tail);
    size := WriteThree(w, head, c.droppedByClass, tail);
    assert output[..size] == Encode(USB_FIELDS, UsbColumns(c));
  }

  method WriteThree(w: Writer, head: seq<Bytes>, drops: seq<U64>, tail: seq<Bytes>) returns (size: nat)
    requires w.Valid() && w.pos == 0
    requires |Concat(head) + Concat(Octs(drops)) + Concat(tail)| <= w.out.Length
    modifies w`pos, w.out
    ensures size <= w.out.Length && w.out[..size] == Concat(head) + Concat(Octs(drops)) + Concat(tail)
  {
    hide Concat, Octs;
    var ok := w.All(head);
    ok := WriteDrops(w, drops);
    ok := w.All(tail);
    size := w.pos;
  }

  lemma DropPart(vs: seq<U64>, i: nat)
    requires i < |vs|
    ensures Concat(Octs(vs)[..i + 1]) == Concat(Octs(vs)[..i]) + Le(vs[i], 8)
  {
    hide Le;
    assert Octs(vs)[..i + 1][..i] == Octs(vs)[..i];
  }

  lemma UsbParts(c: UsbCounters, head: seq<Bytes>)
    requires head == [Le(SCHEMA_VERSION, 2), Le(c.framesRx, 8), Le(c.framesTx, 8), Le(c.crcErrors, 8),
      Le(c.decodeErrors, 8), Le(c.reassemblyRejected, 8), Le(c.telemetryDropped, 8)]
    ensures Concat(head) == Le(SCHEMA_VERSION, 2) + Concat(Octs(UsbHead(c)))
  {
    hide Le, Concat;
    assert head == [Le(SCHEMA_VERSION, 2)] + Octs(UsbHead(c));
    ConcatJoin([Le(SCHEMA_VERSION, 2)], Octs(UsbHead(c)));
    ConcatOne(Le(SCHEMA_VERSION, 2));
  }

  lemma TailParts(c: UsbCounters, tail: seq<Bytes>)
    requires tail == [Le(c.relayDownOk, 8), Le(c.relayDownUnbound, 8), Le(c.relayDownNoPeer, 8),
      Le(c.relayDownOversized, 8), Le(c.relayDownSendFailed, 8)]
    ensures tail == Octs(UsbTail(c))
  {
    hide Le;
  }

  // ----- hub.peers -----

  predicate Listable(ps: seq<PeerRecord>) { |ps| <= MAX_PEERS && forall i | 0 <= i < |ps| :: ValidPeer(ps[i]) }

  /** One array per column; peer i is element i of each, and 6i to 6i + 5 of the addresses. */
  function PeerColumns(ps: seq<PeerRecord>): (r: seq<seq<int>>)
    requires Listable(ps)
    ensures |r| == 8
  {
    var n := |ps|;
    [seq(n, i => i),
     seq(n, i requires 0 <= i < n => ps[i].sourceId),
     seq(n, i requires 0 <= i < n => ps[i].bootId),
     seq(6 * n, k requires 0 <= k < 6 * n => ps[k / 6].mac[k % 6]),
     seq(n, i requires 0 <= i < n => ps[i].lastSeenMs),
     seq(n, i requires 0 <= i < n => if ps[i].online then 1 else 0),
     seq(n, i requires 0 <= i < n => ps[i].rssi),
     seq(n, i requires 0 <= i < n => ps[i].rttMs)]
  }

  const PEER_WIDTHS: seq<nat> := [1, 4, 4, 1, 4, 1, 1, 4]

  lemma PeersTable()
    ensures |PEERS_FIELDS| == 8 && forall i | 0 <= i < 8 :: PEERS_FIELDS[i].flags == VARIABLE_COUNT
    ensures forall i | 0 <= i < 8 :: Width(PEERS_FIELDS[i].kind) == PEER_WIDTHS[i]
    ensures forall i | 0 <= i < 8 :: PEERS_FIELDS[i].maxCount == if i == 3 then 96 else 16
    ensures forall i | 0 <= i < 8 :: PEERS_FIELDS[i].kind == TYPE_INT8 <==> i == 6
  {
  }

  lemma PeerColumnTyped(ps: seq<PeerRecord>, i: nat)
    requires Listable(ps) && i < 8
    ensures |PEERS_FIELDS| == 8 && Typed(PEERS_FIELDS[i], PeerColumns(ps)[i])
    ensures |PeerColumns(ps)[i]| == if i == 3 then 6 * |ps| else |ps|
  {
    hide PEERS_FIELDS;
    PeersTable();
    Powers();
    var column := PeerColumns(ps)[i];
    forall k | 0 <= k < |column| ensures Holds(PEERS_FIELDS[i].kind, column[k]) {
      if i == 3 { assert ValidPeer(ps[k / 6]); } else { assert ValidPeer(ps[k]); }
    }
  }

  lemma PeersTyped(ps: seq<PeerRecord>)
    requires Listable(ps)
    ensures |PEERS_FIELDS| == 8 && AllTyped(PEERS_FIELDS, PeerColumns(ps))
  {
    hide PEERS_FIELDS, PeerColumns, Typed;
    PeersTable();
    forall i | 0 <= i < 8 ensures Typed(PEERS_FIELDS[i], PeerColumns(ps)[i]) { PeerColumnTyped(ps, i); }
  }

  lemma ColumnSize(f: Field, vs: seq<int>)
    requires f.flags == VARIABLE_COUNT && Typed(f, vs)
    ensures |EncodeField(f, vs)| == 2 + Width(f.kind) * |vs|
  {
  }

  /** A reader of the table recovers every column, whatever the number of peers, and the
      payload is 18 octets and 25 for every peer. */
  lemma PeersDecode(ps: seq<PeerRecord>)
    requires Listable(ps)
    ensures AllTyped(PEERS_FIELDS, PeerColumns(ps))
    ensures Decode(PEERS_FIELDS, Encode(PEERS_FIELDS, PeerColumns(ps))) == Some(PeerColumns(ps))
    ensures |Encode(PEERS_FIELDS, PeerColumns(ps))| == 18 + 25 * |ps|
  {
    hide *;
    PeersTyped(ps);
    SchemaRoundTrip(PEERS_FIELDS, PeerColumns(ps));
    EncodeIs(PEERS_FIELDS, PeerColumns(ps));
    PeersSize(ps);
  }

  function SizeFrom(n: nat, i: nat): nat
    decreases 8 - i
  {
    if i >= 8 then 0 else 2 + PEER_WIDTHS[i] * (if i == 3 then 6 * n else n) + SizeFrom(n, i + 1)
  }

  lemma {:induction false} PeersSizeFrom(ps: seq<PeerRecord>, i: nat)
    requires Listable(ps) && i <= 8 && |PEERS_FIELDS| == 8 && AllTyped(PEERS_FIELDS, PeerColumns(ps))
    ensures |EncodeFrom(PEERS_FIELDS, PeerColumns(ps), i)| == SizeFrom(|ps|, i)
    decreases 8 - i
  {
    hide PEERS_FIELDS, PeerColumns, AllTyped, EncodeField, PEER_WIDTHS;
    if i < 8 {
      PeersTable();
      EncodeStep(PEERS_FIELDS, PeerColumns(ps), i);
      PeerColumnTyped(ps, i);
      ColumnSize(PEERS_FIELDS[i], PeerColumns(ps)[i]);
      PeersSizeFrom(ps, i + 1);
    }
  }

  lemma PeersSize(ps: seq<PeerRecord>)
    requires Listable(ps) && |PEERS_FIELDS| == 8 && AllTyped(PEERS_FIELDS, PeerColumns(ps))
    ensures |EncodeFrom(PEERS_FIELDS, PeerColumns(ps), 0)| == 16 + 25 * |ps|
  {
    hide PEERS_FIELDS, PeerColumns, AllTyped, EncodeFrom;
    PeersSizeFrom(ps, 0);
    var n := |ps|;
    SizeUnrolled(n);
  }

  lemma SizeUnrolled(n: nat)
    ensures SizeFrom(n, 0) == 16 + 25 * n
  {
    assert SizeFrom(n, 7) == 2 + 4 * n;
    assert SizeFrom(n, 6) == 2 + n + SizeFrom(n, 7);
    assert SizeFrom(n, 5) == 2 + n + SizeFrom(n, 6);
    assert SizeFrom(n, 4) == 2 + 4 * n + SizeFrom(n, 5);
    assert SizeFrom(n, 3) == 2 + 6 * n + SizeFrom(n, 4);
    assert SizeFrom(n, 2) == 2 + 4 * n + SizeFrom(n, 3);
    assert SizeFrom(n, 1) == 2 + 4 * n + SizeFrom(n, 2);
    assert SizeFrom(n, 0) == 2 + n + SizeFrom(n, 1);
  }

  /** One column: its count, and a loop over its values. */
  method WriteColumn(w: Writer, raws: seq<nat>, width: nat, ghost i: nat, ghost ps: seq<PeerRecord>, ghost whole: Bytes)
    returns (ok: bool)
    requires w.Valid() && i < 8 && Listable(ps) && |PEERS_FIELDS| == 8 && AllTyped(PEERS_FIELDS, PeerColumns(ps))
    requires |whole| <= w.out.Length && w.Contents() + EncodeFrom(PEERS_FIELDS, PeerColumns(ps), i) == whole
    requires width == PEER_WIDTHS[i] && |raws| == |PeerColumns(ps)[i]|
    requires forall k | 0 <= k < |raws| :: raws[k] == PeerColumns(ps)[i][k] + if PeerColumns(ps)[i][k] < 0 then 256 else 0
    modifies w`pos, w.out
    ensures w.Valid() && ok && w.Contents() + EncodeFrom(PEERS_FIELDS, PeerColumns(ps), i + 1) == whole
  {
    hide *;
    var parts := Parts(raws, width);
    ColumnParts(raws, width, i, ps, parts);
    EncodeStep(PEERS_FIELDS, PeerColumns(ps), i);
    ok := Append(w, [Le(|raws|, 2)] + parts, whole, EncodeFrom(PEERS_FIELDS, PeerColumns(ps), i + 1));
  }

  /** Writes that fit go in whole. */
  method Append(w: Writer, parts: seq<Bytes>, ghost whole: Bytes, ghost rest: Bytes) returns (ok: bool)
    requires w.Valid() && |whole| <= w.out.Length && w.Contents() + (Concat(parts) + rest) == whole
    modifies w`pos, w.out
    ensures w.Valid() && ok && w.Contents() + rest == whole
  {
    hide Concat;
    ok := w.All(parts);
  }

  function Parts(raws: seq<nat>, width: nat): (r: seq<Bytes>)
    ensures |r| == |raws|
  {
    seq(|raws|, k requires 0 <= k < |raws| => Le(raws[k], width))
  }

  lemma ColumnParts(raws: seq<nat>, width: nat, i: nat, ps: seq<PeerRecord>, parts: seq<Bytes>)
    requires i < 8 && Listable(ps) && |PEERS_FIELDS| == 8 && AllTyped(PEERS_FIELDS, PeerColumns(ps))
    requires width == PEER_WIDTHS[i] && |raws| == |PeerColumns(ps)[i]| && parts == Parts(raws, width)
    requires forall k | 0 <= k < |raws| :: raws[k] == PeerColumns(ps)[i][k] + if PeerColumns(ps)[i][k] < 0 then 256 else 0
    ensures Typed(PEERS_FIELDS[i], PeerColumns(ps)[i])
    ensures Concat([Le(|raws|, 2)] + parts) == EncodeField(PEERS_FIELDS[i], PeerColumns(ps)[i])
  {
    hide PEERS_FIELDS, PeerColumns, Concat, Le;
    var f, vs := PEERS_FIELDS[i], PeerColumns(ps)[i];
    PeersTable();
    assert Typed(f, vs);
    ValueWrites(f.kind, vs, parts);
    ConcatJoin([Le(|raws|, 2)], parts);
    ConcatOne(Le(|raws|, 2));
  }

  /** packPeers: at most sixteen, and nothing if they do not fit. */
  method PackPeers(peers: seq<PeerRecord>, output: array<Byte>) returns (size: nat)
    requires forall i | 0 <= i < |peers| :: ValidPeer(peers[i])
    modifies output
    ensures var ps := if |peers| > MAX_PEERS then peers[..MAX_PEERS] else peers;
      if output.Length < 18 + 25 * |ps| then size == 0
      else size == 18 + 25 * |ps| && Listable(ps) && Decode(PEERS_FIELDS, output[..size]) == Some(PeerColumns(ps))
  {
    var ps := if |peers| > MAX_PEERS then peers[..MAX_PEERS] else peers;
    var n := |ps|;
    if output.Length < 18 + 25 * n { return 0; }
    assert Listable(ps);
    var w := new Writer(output);
    size := WritePeers(w, ps);
    PeersDecode(ps);
  }

  method WritePeers(w: Writer, ps: seq<PeerRecord>) returns (size: nat)
    requires w.Valid() && w.pos == 0 && Listable(ps) && 18 + 25 * |ps| <= w.out.Length
    modifies w`pos, w.out
    ensures AllTyped(PEERS_FIELDS, PeerColumns(ps)) && size <= w.out.Length
    ensures w.out[..size] == Encode(PEERS_FIELDS, PeerColumns(ps))
  {
    hide Decode, Encode, EncodeFrom, AllTyped, PEERS_FIELDS, Le, Concat, PeerColumns, Listable;
    PeersTyped(ps);
    PeersDecode(ps);
    ghost var whole := Encode(PEERS_FIELDS, PeerColumns(ps));
    EncodeIs(PEERS_FIELDS, PeerColumns(ps));
    ConcatOne(Le(SCHEMA_VERSION, 2));
    var ok := Append(w, [Le(SCHEMA_VERSION, 2)], whole, EncodeFrom(PEERS_FIELDS, PeerColumns(ps), 0));
    WriteIdentities(w, ps, whole);
    WriteHealth(w, ps, whole);
    size := w.pos;
    NothingFrom(ps);
  }

  /** Channel, source, boot and address. */
  method WriteIdentities(w: Writer, ps: seq<PeerRecord>, ghost whole: Bytes)
    requires w.Valid() && Listable(ps) && |PEERS_FIELDS| == 8 && AllTyped(PEERS_FIELDS, PeerColumns(ps))
    requires |whole| <= w.out.Length && w.Contents() + EncodeFrom(PEERS_FIELDS, PeerColumns(ps), 0) == whole
    modifies w`pos, w.out
    ensures w.Valid() && w.Contents() + EncodeFrom(PEERS_FIELDS, PeerColumns(ps), 4) == whole
  {
    hide EncodeFrom, AllTyped, PEERS_FIELDS;
    var n := |ps|;
    var ok := WriteColumn(w, seq(n, i => i), 1, 0, ps, whole);
    ok := WriteColumn(w, seq(n, i requires 0 <= i < n => ps[i].sourceId as nat), 4, 1, ps, whole);
    ok := WriteColumn(w, seq(n, i requires 0 <= i < n => ps[i].bootId as nat), 4, 2, ps, whole);
    ok := WriteColumn(w, seq(6 * n, k requires 0 <= k < 6 * n => ps[k / 6].mac[k % 6] as nat), 1, 3, ps, whole);
  }

  /** Age, online, signal and round trip; the signal is cast to an octet. */
  method WriteHealth(w: Writer, ps: seq<PeerRecord>, ghost whole: Bytes)
    requires w.Valid() && Listable(ps) && |PEERS_FIELDS| == 8 && AllTyped(PEERS_FIELDS, PeerColumns(ps))
    requires |whole| <= w.out.Length && w.Contents() + EncodeFrom(PEERS_FIELDS, PeerColumns(ps), 4) == whole
    modifies w`pos, w.out
    ensures w.Valid() && w.Contents() + EncodeFrom(PEERS_FIELDS, PeerColumns(ps), 8) == whole
  {
    hide EncodeFrom, AllTyped, PEERS_FIELDS;
    var n := |ps|;
    var ok := WriteColumn(w, seq(n, i requires 0 <= i < n => ps[i].lastSeenMs as nat), 4, 4, ps, whole);
    ok := WriteColumn(w, seq(n, i requires 0 <= i < n => if ps[i].online then 1 else 0), 1, 5, ps, whole);
    ok := WriteColumn(w, seq(n, i requires 0 <= i < n => (ps[i].rssi + 256) % 256), 1, 6, ps, whole);
    ok := WriteColumn(w, seq(n, i requires 0 <= i < n => ps[i].rttMs as nat), 4, 7, ps, whole);
  }

  lemma NothingFrom(ps: seq<PeerRecord>)
    requires Listable(ps) && |PEERS_FIELDS| == 8 && AllTyped(PEERS_FIELDS, PeerColumns(ps))
    ensures EncodeFrom(PEERS_FIELDS, PeerColumns(ps), 8) == []
  {
    hide PEERS_FIELDS, PeerColumns, AllTyped;
  }

  // ----- the records of all three topics -----

  lemma FieldSize(f: Field)
    ensures |Framed(Concat(FieldParts(f)))| == 38 + |f.name| + |f.unit|
  {
    hide Le;
    var p := FieldParts(f);
    assert p[..12] == p && p[..12][..11] == p[..11] && p[..11][..10] == p[..10] && p[..10][..9] == p[..9];
    assert p[..9][..8] == p[..8] && p[..8][..7] == p[..7] && p[..7][..6] == p[..6];
    SixParts(p);
    assert Concat(p[..7]) == Concat(p[..6]) + p[6] && Concat(p[..8]) == Concat(p[..7]) + p[7];
    assert Concat(p[..9]) == Concat(p[..8]) + p[8] && Concat(p[..10]) == Concat(p[..9]) + p[9];
    assert Concat(p[..11]) == Concat(p[..10]) + p[10] && Concat(p[..12]) == Concat(p[..11]) + p[11];
  }

  function SizeTo(fields: seq<Field>, k: nat): nat
    requires k <= |fields|
  {
    if k == 0 then 0 else SizeTo(fields, k - 1) + 38 + |fields[k - 1].name| + |fields[k - 1].unit|
  }

  lemma {:induction false} FieldRecordsSize(fields: seq<Field>, k: nat)
    requires k <= |fields|
    ensures |FieldRecords(fields[..k])| == SizeTo(fields, k)
  {
    hide Framed, Concat, FieldParts;
    if k > 0 {
      FieldRecordsSize(fields, k - 1);
      FieldSize(fields[k - 1]);
      assert fields[..k][..k - 1] == fields[..k - 1];
    }
  }

  lemma TopicSize(t: Topic)
    ensures |Framed(TopicContent(t))| == 20 + |t.name| + SizeTo(t.fields, |t.fields|)
  {
    hide Le, FieldRecords, SizeTo;
    var p := HeadParts(t);
    assert p[..8] == p && p[..8][..7] == p[..7] && p[..7][..6] == p[..6];
    SixParts(p);
    assert |Concat(p)| == 12 + (2 + |t.name|) + 2;
    FieldRecordsSize(t.fields, |t.fields|);
    assert t.fields[..|t.fields|] == t.fields;
  }

  lemma LinkSize()
    ensures |LINK_FIELDS| == 12 && SizeTo(LINK_FIELDS, 12) == 635
  {
    assert SizeTo(LINK_FIELDS, 1) == 48 && SizeTo(LINK_FIELDS, 2) == 105;
    assert SizeTo(LINK_FIELDS, 3) == 160 && SizeTo(LINK_FIELDS, 4) == 209;
    assert SizeTo(LINK_FIELDS, 5) == 262 && SizeTo(LINK_FIELDS, 6) == 315;
    assert SizeTo(LINK_FIELDS, 7) == 369 && SizeTo(LINK_FIELDS, 8) == 418;
    assert SizeTo(LINK_FIELDS, 9) == 471 && SizeTo(LINK_FIELDS, 10) == 521;
    assert SizeTo(LINK_FIELDS, 11) == 578;
  }

  lemma UsbSize()
    ensures |USB_FIELDS| == 12 && SizeTo(USB_FIELDS, 12) == 652
  {
    assert SizeTo(USB_FIELDS, 1) == 48 && SizeTo(USB_FIELDS, 2) == 96;
    assert SizeTo(USB_FIELDS, 3) == 145 && SizeTo(USB_FIELDS, 4) == 197;
    assert SizeTo(USB_FIELDS, 5) == 255 && SizeTo(USB_FIELDS, 6) == 311;
    assert SizeTo(USB_FIELDS, 7) == 366 && SizeTo(USB_FIELDS, 8) == 418;
    assert SizeTo(USB_FIELDS, 9) == 475 && SizeTo(USB_FIELDS, 10) == 532;
    assert SizeTo(USB_FIELDS, 11) == 591;
  }

  lemma PeerSize()
    ensures |PEERS_FIELDS| == 8 && SizeTo(PEERS_FIELDS, 8) == 370
  {
    assert SizeTo(PEERS_FIELDS, 1) == 46 && SizeTo(PEERS_FIELDS, 2) == 94;
    assert SizeTo(PEERS_FIELDS, 3) == 140 && SizeTo(PEERS_FIELDS, 4) == 182;
    assert SizeTo(PEERS_FIELDS, 5) == 234 && SizeTo(PEERS_FIELDS, 6) == 279;
    assert SizeTo(PEERS_FIELDS, 7) == 324;
  }

  /** The buffer of topicRecords holds the records of all three topics, so none is left out. */
  lemma AllTopicsFit()
    ensures |HUB_TOPICS| == 3 && |RecordsOf(HUB_TOPICS)| == 1741 <= RECORDS_CAPACITY
  {
    hide Framed, TopicContent, SizeTo, LINK_FIELDS, USB_FIELDS, PEERS_FIELDS;
    var ts := HUB_TOPICS;
    LinkSize();
    UsbSize();
    PeerSize();
    TopicSize(ts[0]);
    TopicSize(ts[1]);
    TopicSize(ts[2]);
    var t1 := ts[1..];
    var t2 := t1[1..];
    assert t2[1..] == [];
    assert t1[0] == ts[1] && t2[0] == ts[2];
    assert RecordsOf(t2) == Framed(TopicContent(ts[2])) + RecordsOf(t2[1..]);
    assert RecordsOf(t1) == Framed(TopicContent(ts[1])) + RecordsOf(t2);
    assert RecordsOf(ts) == Framed(TopicContent(ts[0])) + RecordsOf(t1);
  }
}
