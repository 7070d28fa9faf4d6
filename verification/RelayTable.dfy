/** The side table of the radio ingress: raw fragments of messages that may be the hub's own
    business, kept until it is known whether they are.

    Retained, Expired and Taken say what the table does, on a map from message identities;
    the class does it on four slots. */
module RelayTable {
  import opened Bitwise
  import opened Common

  const SLOT_COUNT: nat := 4
  const MAX_FRAGMENTS: nat := 10
  const MAX_FRAME_SIZE: nat := 250
  const TIMEOUT_MS: nat := 4000

  datatype Kind = Telemetry | Log | Command | Control | Terminal

  datatype Id = Id(source: nat, boot: nat, sequence: nat)

  /** The part of a frame header the ingress looks at. */
  datatype Header = Header(kind: Kind, objectId: nat, id: Id, fragmented: bool, index: nat, count: nat)

  /** What is held of one message: the datagrams by fragment index. */
  datatype Entry = Entry(count: nat, last: nat, frames: map<nat, Bytes>)

  type Table = map<Id, Entry>

  predicate Fresh(e: Entry, now: nat) {
    (now + UINT32 - e.last % UINT32) % UINT32 < TIMEOUT_MS
  }

  /** expirePendingRelays. */
  function Expired(t: Table, now: nat): Table {
    map id | id in t && Fresh(t[id], now) :: t[id]
  }

  predicate Storable(h: Header, raw: Bytes) {
    |raw| <= MAX_FRAME_SIZE && 0 < h.count <= MAX_FRAGMENTS && h.index < h.count
  }

  /** retainPendingRelay: the table after it, and whether the datagram may go on. */
  function Retained(t: Table, h: Header, raw: Bytes, now: nat): (Table, bool) {
    if !h.fragmented then (t, true)
    else if !Storable(h, raw) then (t, false)
    else
      var u := Expired(t, now);
      if h.id in u then
        if u[h.id].count != h.count then (u - {h.id}, false)
        else (u[h.id := Entry(h.count, now, u[h.id].frames[h.index := raw])], true)
      else if |u| >= SLOT_COUNT then (u, false)
      else (u[h.id := Entry(h.count, now, map[h.index := raw])], true)
  }

  predicate Complete(e: Entry) {
    forall i | 0 <= i < e.count :: i in e.frames
  }

  function InOrder(e: Entry): (r: seq<Bytes>)
    requires Complete(e)
    ensures |r| == e.count && forall i | 0 <= i < e.count :: r[i] == e.frames[i]
  {
    seq(e.count, i requires 0 <= i < e.count => e.frames[i])
  }

  /** relayPendingUp: all fragments in index order, or None if one is missing. */
  function Taken(t: Table, id: Id): Option<seq<Bytes>> {
    if id in t && Complete(t[id]) then Some(InOrder(t[id])) else None
  }

  // ----- the slots -----

  datatype Slot = Free | Held(id: Id, entry: Entry)

  /** The slots hold exactly the entries of the table, each once. */
  predicate Represents(s: seq<Slot>, t: Table) {
    && (forall i | 0 <= i < |s| && s[i].Held? :: s[i].id in t && t[s[i].id] == s[i].entry)
    && (forall i, j | 0 <= i < j < |s| && s[i].Held? && s[j].Held? :: s[i].id != s[j].id)
    && (forall id | id in t :: exists i :: 0 <= i < |s| && s[i].Held? && s[i].id == id)
  }

  function HeldCount(s: seq<Slot>): nat {
    if s == [] then 0 else HeldCount(s[..|s| - 1]) + if s[|s| - 1].Held? then 1 else 0
  }

  lemma {:induction false} HeldCountFull(s: seq<Slot>)
    ensures HeldCount(s) <= |s| && (HeldCount(s) == |s| <==> forall i | 0 <= i < |s| :: s[i].Held?)
  {
    if s != [] {
      var front := s[..|s| - 1];
      HeldCountFull(front);
      assert forall i | 0 <= i < |front| :: s[i] == front[i];
    }
  }

  lemma {:induction false} SizeIsHeldCount(s: seq<Slot>, t: Table)
    requires Represents(s, t)
    ensures |t| == HeldCount(s)
  {
    hide Represents;
    if s == [] {
      EmptyTable(t);
    } else {
      var front, last := s[..|s| - 1], s[|s| - 1];
      FrontRepresents(s, t);
      if last.Held? {
        SizeWithout(t, last.id);
        SizeIsHeldCount(front, t - {last.id});
      } else {
        SizeIsHeldCount(front, t);
      }
    }
  }

  lemma SizeWithout(t: Table, id: Id)
    requires id in t
    ensures |t| == |t - {id}| + 1
  {
    assert t.Keys == (t - {id}).Keys + {id};
  }

  lemma EmptyTable(t: Table)
    requires Represents([], t)
    ensures t == map[]
  {
  }

  lemma FrontRepresents(s: seq<Slot>, t: Table)
    requires Represents(s, t) && s != []
    ensures var last := s[|s| - 1];
      Represents(s[..|s| - 1], if last.Held? then t - {last.id} else t) && (last.Held? ==> last.id in t)
  {
    var front, last := s[..|s| - 1], s[|s| - 1];
    var u := if last.Held? then t - {last.id} else t;
    forall id | id in u ensures exists i :: 0 <= i < |front| && front[i].Held? && front[i].id == id {
      var i :| 0 <= i < |s| && s[i].Held? && s[i].id == id;
      assert front[i] == s[i];
    }
  }

  lemma SetSlot(s: seq<Slot>, t: Table, i: nat, id: Id, e: Entry)
    requires Represents(s, t) && i < |s|
    requires if s[i].Held? then s[i].id == id else id !in t
    ensures Represents(s[i := Held(id, e)], t[id := e])
  {
    var s', t' := s[i := Held(id, e)], t[id := e];
    forall k | k in t' ensures exists j :: 0 <= j < |s'| && s'[j].Held? && s'[j].id == k {
      if k == id { assert s'[i].id == k; } else {
        var j :| 0 <= j < |s| && s[j].Held? && s[j].id == k;
        assert s'[j] == s[j];
      }
    }
  }

  lemma FreeSlot(s: seq<Slot>, t: Table, i: nat)
    requires Represents(s, t) && i < |s| && s[i].Held?
    ensures Represents(s[i := Free], t - {s[i].id})
  {
    var s', t' := s[i := Free], t - {s[i].id};
    forall k | k in t' ensures exists j :: 0 <= j < |s'| && s'[j].Held? && s'[j].id == k {
      var j :| 0 <= j < |s| && s[j].Held? && s[j].id == k;
      assert s'[j] == s[j];
    }
  }

  class PendingRelays {
    const slots: array<Slot>
    ghost var contents: Table

    ghost predicate Valid()
      reads this, slots
    {
      slots.Length == SLOT_COUNT && Represents(slots[..], contents)
    }

    constructor ()
      ensures Valid() && fresh(slots) && contents == map[]
    {
      slots := new Slot[4](_ => Free);
      contents := map[];
    }

    method Discard(i: nat)
      requires Valid() && i < slots.Length && slots[i].Held?
      modifies this, slots
      ensures Valid() && slots[..] == old(slots[..])[i := Free]
      ensures old(slots[i].id in contents && contents[slots[i].id] == slots[i].entry)
      ensures contents == old(contents) - {old(slots[i].id)}
    {
      ghost var s := slots[..];
      SlotEntry(i);
      FreeSlot(s, contents, i);
      contents := contents - {slots[i].id};
      slots[i] := Free;
      assert slots[..] == s[i := Free];
    }

    /** clearPendingRelay. */
    method Clear(id: Id)
      requires Valid()
      modifies this, slots
      ensures Valid() && contents == old(contents) - {id}
    {
      for i := 0 to slots.Length
        invariant Valid() && contents == old(contents)
        invariant forall j | 0 <= j < i :: slots[j].Held? ==> slots[j].id != id
      {
        if slots[i].Held? && slots[i].id == id {
          Discard(i);
          return;
        }
      }
      Absent(id);
    }

    lemma Absent(id: Id)
      requires Valid()
      requires forall j | 0 <= j < slots.Length :: slots[j].Held? ==> slots[j].id != id
      ensures id !in contents && contents - {id} == contents
    {
      assert forall j | 0 <= j < |slots[..]| :: slots[..][j] == slots[j];
    }

    /** expirePendingRelays. */
    method Expire(now: nat)
      requires Valid()
      modifies this, slots
      ensures Valid() && contents == Expired(old(contents), now)
    {
      hide Fresh, Represents;
      ghost var goal := Expired(contents, now);
      for i := 0 to slots.Length
        invariant Valid() && Expired(contents, now) == goal
        invariant forall j | 0 <= j < i :: slots[j].Held? ==> Fresh(slots[j].entry, now)
      {
        if slots[i].Held? && !Fresh(slots[i].entry, now) {
          Discard(i);
        }
      }
      AllFresh(now);
    }

    lemma AllFresh(now: nat)
      requires Valid() && forall j | 0 <= j < slots.Length :: slots[j].Held? ==> Fresh(slots[j].entry, now)
      ensures Expired(contents, now) == contents
    {
      hide Fresh;
      assert forall j | 0 <= j < |slots[..]| :: slots[..][j] == slots[j];
    }

    /** The slot of this message, or else a free one. */
    method Find(id: Id) returns (found: Option<nat>)
      requires Valid()
      ensures found.Some? ==> found.value < slots.Length
      ensures found.Some? ==> slots[found.value] == if id in contents then Held(id, contents[id]) else Free
      ensures found.None? ==> id !in contents && forall j | 0 <= j < slots.Length :: slots[j].Held?
    {
      found := None;
      for i := 0 to slots.Length
        invariant forall j | 0 <= j < i :: slots[j].Held? ==> slots[j].id != id
        invariant found.None? ==> forall j | 0 <= j < i :: slots[j].Held?
        invariant found.Some? ==> found.value < i && slots[found.value].Free?
      {
        if slots[i].Held? && slots[i].id == id {
          SlotEntry(i);
          found := Some(i);
          return;
        }
        if slots[i].Free? && found.None? { found := Some(i); }
      }
      Absent(id);
    }

    /** retainPendingRelay. */
    method Retain(h: Header, raw: Bytes, now: nat) returns (ok: bool)
      requires Valid()
      modifies this, slots
      ensures Valid() && (contents, ok) == Retained(old(contents), h, raw, now)
    {
      hide Represents, Expired;
      if !h.fragmented { return true; }
      if !Storable(h, raw) { return false; }
      Expire(now);
      var found := Find(h.id);
      ghost var s := slots[..];
      SizeIsHeldCount(s, contents);
      HeldCountFull(s);
      if found.None? {
        assert forall j | 0 <= j < |s| :: s[j].Held?;
        return false;
      }
      var i := found.value;
      if slots[i].Held? && slots[i].entry.count != h.count {
        Discard(i);
        return false;
      }
      var frames := if slots[i].Held? then slots[i].entry.frames else map[];
      var e := Entry(h.count, now, frames[h.index := raw]);
      SetSlot(s, contents, i, h.id, e);
      contents := contents[h.id := e];
      slots[i] := Held(h.id, e);
      assert slots[..] == s[i := Held(h.id, e)];
      ok := true;
    }

    lemma SlotEntry(i: nat)
      requires Valid() && i < slots.Length
      ensures slots[i].Held? ==> slots[i].id in contents && contents[slots[i].id] == slots[i].entry
    {
      assert slots[..][i] == slots[i];
    }

    /** relayPendingUp: the fragments it sends on, and the entry is gone either way. */
    method RelayUp(id: Id) returns (relayed: Option<seq<Bytes>>)
      requires Valid()
      modifies this, slots
      ensures Valid() && contents == old(contents) - {id} && relayed == Taken(old(contents), id)
    {
      for i := 0 to slots.Length
        invariant Valid() && contents == old(contents)
        invariant forall j | 0 <= j < i :: slots[j].Held? ==> slots[j].id != id
      {
        if slots[i].Held? && slots[i].id == id {
          SlotEntry(i);
          relayed := Ordered(slots[i].entry);
          Discard(i);
          return;
        }
      }
      Absent(id);
      relayed := None;
    }
  }

  method Ordered(e: Entry) returns (r: Option<seq<Bytes>>)
    ensures r == if Complete(e) then Some(InOrder(e)) else None
  {
    var complete := true;
    for i := 0 to e.count
      invariant complete <==> forall j | 0 <= j < i :: j in e.frames
    {
      complete := complete && i in e.frames;
    }
    if !complete { return None; }
    var out: seq<Bytes> := [];
    for i := 0 to e.count
      invariant |out| == i && forall j | 0 <= j < i :: out[j] == e.frames[j]
    {
      out := out + [e.frames[i]];
    }
    assert out == InOrder(e);
    r := Some(out);
  }
}
