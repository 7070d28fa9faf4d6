/** The identities the hub has authenticated: one row per radio address, sixteen rows. */
module PeerTable {
  import opened Common
  import opened RelayTable

  const CAPACITY: nat := 16

  datatype Peer = Peer(mac: nat, source: nat, boot: nat, lastAuthenticated: nat, rssi: int, linkOk: bool)

  type Rows = seq<Option<Peer>>

  predicate IsRowOf(row: Option<Peer>, mac: nat) {
    row.Some? && row.value.mac == mac
  }

  /** The first row of this address, or |rows|. */
  function RowOf(rows: Rows, mac: nat, from: nat): (r: nat)
    requires from <= |rows|
    ensures from <= r <= |rows| && (forall i | from <= i < r :: !IsRowOf(rows[i], mac))
    ensures r < |rows| ==> IsRowOf(rows[r], mac)
    decreases |rows| - from
  {
    if from == |rows| || IsRowOf(rows[from], mac) then from else RowOf(rows, mac, from + 1)
  }

  function FreeRow(rows: Rows, from: nat): (r: nat)
    requires from <= |rows|
    ensures from <= r <= |rows| && (forall i | from <= i < r :: rows[i].Some?) && (r < |rows| ==> rows[r].None?)
    decreases |rows| - from
  {
    if from == |rows| || rows[from].None? then from else FreeRow(rows, from + 1)
  }

  /** rememberAuthenticatedPeer: a full table gives up its first row. */
  function Remembered(rows: Rows, p: Peer): (r: Rows)
    requires |rows| == CAPACITY
    ensures |r| == CAPACITY
  {
    if p.source == 0 || p.boot == 0 then rows
    else
      var i := RowOf(rows, p.mac, 0);
      if i < CAPACITY then rows[i := Some(p.(linkOk := rows[i].value.linkOk))]
      else
        var j := FreeRow(rows, 0);
        rows[if j < CAPACITY then j else 0 := Some(p.(linkOk := false))]
  }

  /** notePeerLinkResult. */
  function LinkNoted(rows: Rows, mac: nat, ok: bool): (r: Rows)
    requires |rows| == CAPACITY
    ensures |r| == CAPACITY
  {
    var i := RowOf(rows, mac, 0);
    if i < CAPACITY then rows[i := Some(rows[i].value.(linkOk := ok))] else rows
  }

  /** lookupPeer. */
  function Lookup(rows: Rows, mac: nat): Option<(nat, nat)> {
    var i := RowOf(rows, mac, 0);
    if i < |rows| then Some((rows[i].value.source, rows[i].value.boot)) else None
  }

  predicate OneRowEach(rows: Rows) {
    forall i, j | 0 <= i < j < |rows| && rows[i].Some? && rows[j].Some? :: rows[i].value.mac != rows[j].value.mac
  }

  /** Remembering keeps one row per address; the address is found with its new identity, and
      every other address that is still found is found as before.  Only a table without a
      row to spare forgets anybody, and then only the first row. */
  lemma RememberedPeer(rows: Rows, p: Peer, other: nat)
    requires |rows| == CAPACITY && OneRowEach(rows) && p.source != 0 && p.boot != 0 && other != p.mac
    ensures var after := Remembered(rows, p);
      && OneRowEach(after)
      && Lookup(after, p.mac) == Some((p.source, p.boot))
      && (Lookup(after, other) == Lookup(rows, other)
          || (IsRowOf(rows[0], other) && forall i | 0 <= i < CAPACITY :: rows[i].Some? && !IsRowOf(rows[i], p.mac)))
  {
    var after := Remembered(rows, p);
    var i, j := RowOf(rows, p.mac, 0), FreeRow(rows, 0);
    var k := if i < CAPACITY then i else if j < CAPACITY then j else 0;
    assert after[k].Some? && after[k].value.mac == p.mac;
    FoundAt(after, k, p.mac);
    var a, b := RowOf(rows, other, 0), RowOf(after, other, 0);
    if a < CAPACITY && a != k { FoundAt(after, a, other); }
    if b < CAPACITY { FoundAt(rows, b, other); }
  }

  lemma FoundAt(rows: Rows, k: nat, mac: nat)
    requires OneRowEach(rows) && k < |rows| && IsRowOf(rows[k], mac)
    ensures RowOf(rows, mac, 0) == k
  {
  }

  lemma LinkNotedKeeps(rows: Rows, mac: nat, ok: bool, other: nat)
    requires |rows| == CAPACITY && OneRowEach(rows)
    ensures OneRowEach(LinkNoted(rows, mac, ok))
    ensures Lookup(LinkNoted(rows, mac, ok), other) == Lookup(rows, other)
  {
    var after := LinkNoted(rows, mac, ok);
    var a, b := RowOf(rows, other, 0), RowOf(after, other, 0);
    if a < CAPACITY { FoundAt(after, a, other); }
    if b < CAPACITY { FoundAt(rows, b, other); }
  }

  class Peers {
    const rows: array<Option<Peer>>

    constructor ()
      ensures rows.Length == CAPACITY && fresh(rows) && forall i | 0 <= i < CAPACITY :: rows[i] == None
    {
      rows := new Option<Peer>[16](_ => None);
    }

    method Remember(p: Peer)
      requires rows.Length == CAPACITY
      modifies rows
      ensures rows[..] == Remembered(old(rows[..]), p)
    {
      if p.source == 0 || p.boot == 0 { return; }
      ghost var was := rows[..];
      for i := 0 to rows.Length
        invariant rows[..] == was && RowOf(was, p.mac, 0) == RowOf(was, p.mac, i)
      {
        if rows[i].Some? && rows[i].value.mac == p.mac {
          rows[i] := Some(p.(linkOk := rows[i].value.linkOk));
          return;
        }
      }
      for i := 0 to rows.Length
        invariant rows[..] == was && FreeRow(was, 0) == FreeRow(was, i)
      {
        if rows[i].None? {
          rows[i] := Some(p.(linkOk := false));
          return;
        }
      }
      rows[0] := Some(p.(linkOk := false));
    }

    method NoteLink(mac: nat, ok: bool)
      requires rows.Length == CAPACITY
      modifies rows
      ensures rows[..] == LinkNoted(old(rows[..]), mac, ok)
    {
      ghost var was := rows[..];
      for i := 0 to rows.Length
        invariant rows[..] == was && RowOf(was, mac, 0) == RowOf(was, mac, i)
      {
        if rows[i].Some? && rows[i].value.mac == mac {
          rows[i] := Some(rows[i].value.(linkOk := ok));
          return;
        }
      }
    }
  }
}
