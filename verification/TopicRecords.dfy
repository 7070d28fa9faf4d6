/** Topic records: the publisher frames them, the manifest cache of another hub walks them. */
module TopicRecords {
  import opened Bitwise
  import opened Common
  import opened LittleEndian

  type U16 = x: nat | x < 0x1_0000
  type U32 = x: nat | x < UINT32
  type Text = s: Bytes | |s| < 0x1_0000

  datatype Field = Field(id: U16, order: U16, name: Text, kind: Byte, unit: Text, count: U16, maxCount: U16, flags: Byte)

  datatype Topic = Topic(id: U16, name: Text, maxRate: U32, fields: seq<Field>)

  const SCHEMA_VERSION: nat := 4
  const ENCODING_PACKED_LE: Byte := 5
  const SUBSCRIBABLE: Byte := 1
  const F64_ONE: Bytes := [0, 0, 0, 0, 0, 0, 0xF0, 0x3F]
  const F64_ZERO: Bytes := [0, 0, 0, 0, 0, 0, 0, 0]

  function Utf8(t: Text): Bytes { Le(|t|, 2) + t }

  /** A record: its size in four octets, and its content. */
  function Framed(content: Bytes): Bytes { Le(|content|, 4) + content }

  function FieldParts(f: Field): seq<Bytes> {
    [Le(f.id, 2), Le(f.order, 2), [f.kind], [f.flags], Le(f.count, 2), Le(f.maxCount, 2), F64_ONE, F64_ZERO, Le(0, 2),
     Utf8(f.name), Utf8(f.unit), Utf8([])]
  }

  function FieldRecords(fields: seq<Field>): Bytes {
    if fields == [] then []
    else FieldRecords(fields[..|fields| - 1]) + Framed(Concat(FieldParts(fields[|fields| - 1])))
  }

  function HeadParts(t: Topic): seq<Bytes> {
    [Le(t.id, 2), Le(SCHEMA_VERSION, 2), [ENCODING_PACKED_LE], [SUBSCRIBABLE], Le(|t.fields|, 2), Le(t.maxRate, 4),
     Utf8(t.name), Utf8([])]
  }

  function TopicContent(t: Topic): Bytes { Concat(HeadParts(t)) + FieldRecords(t.fields) }

  function RecordsOf(topics: seq<Topic>): Bytes {
    if topics == [] then [] else Framed(TopicContent(topics[0])) + RecordsOf(topics[1..])
  }

  // ----- writing -----

  /** The content of a record goes in after four octets that are patched with its size. */
  method WriteFieldRecord(w: Writer, f: Field) returns (ok: bool)
    requires w.Valid() && w.out.Length < UINT32
    modifies w`pos, w.out
    ensures w.Valid() && old(w.Contents()) <= w.Contents()
    ensures ok == (old(w.pos) + |Framed(Concat(FieldParts(f)))| <= w.out.Length)
    ensures ok ==> w.Contents() == old(w.Contents()) + Framed(Concat(FieldParts(f)))
  {
    hide Concat, FieldParts, Le;
    ghost var was := w.Contents();
    var at := w.pos;
    ok := w.Raw(Le(0, 4));
    if !ok { return; }
    var start := w.pos;
    ghost var head := w.Contents();
    ok := w.All(FieldParts(f));
    if !ok { return; }
    ghost var content := Concat(FieldParts(f));
    assert w.Contents() == was + Le(0, 4) + content;
    w.Patch(at, w.pos - start);
    assert w.Contents() == was + Le(|content|, 4) + content;
  }

  method WriteFields(w: Writer, fields: seq<Field>) returns (ok: bool)
    requires w.Valid() && w.out.Length < UINT32
    modifies w`pos, w.out
    ensures w.Valid() && old(w.Contents()) <= w.Contents()
    ensures ok == (old(w.pos) + |FieldRecords(fields)| <= w.out.Length)
    ensures ok ==> w.Contents() == old(w.Contents()) + FieldRecords(fields)
  {
    hide Concat, FieldParts, Framed;
    ghost var was := w.Contents();
    assert was + [] == was;
    for i := 0 to |fields|
      invariant w.Valid() && w.Contents() == was + FieldRecords(fields[..i])
    {
      assert fields[..i + 1][..i] == fields[..i];
      ok := WriteFieldRecord(w, fields[i]);
      if !ok {
        FieldRecordsGrow(fields, i + 1);
        return;
      }
    }
    assert fields[..|fields|] == fields;
    ok := true;
  }

  method WriteTopicRecord(w: Writer, t: Topic) returns (ok: bool)
    requires w.Valid() && w.out.Length < UINT32
    modifies w`pos, w.out
    ensures w.Valid() && old(w.Contents()) <= w.Contents()
    ensures ok == (old(w.pos) + |Framed(TopicContent(t))| <= w.out.Length)
    ensures ok ==> w.Contents() == old(w.Contents()) + Framed(TopicContent(t))
  {
    hide Concat, HeadParts, FieldRecords, Le;
    ghost var was := w.Contents();
    var at := w.pos;
    ok := w.Raw(Le(0, 4));
    if !ok { return; }
    var start := w.pos;
    ok := w.All(HeadParts(t));
    if !ok { return; }
    ok := WriteFields(w, t.fields);
    if !ok { return; }
    ghost var content := TopicContent(t);
    assert w.Contents() == was + Le(0, 4) + content;
    w.Patch(at, w.pos - start);
    assert w.Contents() == was + Le(|content|, 4) + content;
  }

  lemma {:induction false} FieldRecordsGrow(fields: seq<Field>, i: nat)
    requires i <= |fields|
    ensures |FieldRecords(fields[..i])| <= |FieldRecords(fields)|
    decreases |fields| - i
  {
    hide Concat, FieldParts, Framed;
    if i == |fields| {
      assert fields[..i] == fields;
    } else {
      FieldRecordsGrow(fields, i + 1);
      assert fields[..i + 1][..i] == fields[..i];
    }
  }

  /** topicRecords, over all topics that fit whole. */
  method WriteTopicRecords(w: Writer, topics: seq<Topic>) returns (written: nat)
    requires w.Valid() && w.pos == 0 && w.out.Length < UINT32
    modifies w`pos, w.out
    ensures w.Valid() && written <= |topics| && RecordsOf(topics[..written]) <= w.Contents()
    ensures |RecordsOf(topics)| <= w.out.Length ==> written == |topics| && w.Contents() == RecordsOf(topics)
    ensures written < |topics| ==> |RecordsOf(topics[..written + 1])| > w.out.Length
  {
    hide TopicContent, Framed;
    written := 0;
    while written < |topics|
      invariant w.Valid() && written <= |topics| && w.Contents() == RecordsOf(topics[..written])
    {
      RecordsAppend(topics, written);
      RecordsGrow(topics, written + 1);
      var ok := WriteTopicRecord(w, topics[written]);
      if !ok { return; }
      written := written + 1;
    }
    assert topics[..|topics|] == topics;
  }

  lemma {:induction false} RecordsAppend(topics: seq<Topic>, i: nat)
    requires i < |topics|
    ensures RecordsOf(topics[..i + 1]) == RecordsOf(topics[..i]) + Framed(TopicContent(topics[i]))
    decreases i
  {
    hide TopicContent, Framed;
    if i == 0 {
      assert topics[..1][1..] == [];
      assert topics[..0] == [];
    } else {
      RecordsAppend(topics[1..], i - 1);
      assert topics[..i + 1][1..] == topics[1..][..i] && topics[..i][1..] == topics[1..][..i - 1];
    }
  }

  lemma {:induction false} RecordsGrow(topics: seq<Topic>, i: nat)
    requires i <= |topics|
    ensures |RecordsOf(topics[..i])| <= |RecordsOf(topics)|
    decreases |topics| - i
  {
    hide TopicContent, Framed;
    if i == |topics| {
      assert topics[..i] == topics;
    } else {
      RecordsGrow(topics, i + 1);
      RecordsAppend(topics, i);
    }
  }

  // ----- walking -----

  /** The walk of lookupTopicMaxRateMillihz over `left` records from `pos` on. */
  function Walk(records: Bytes, left: nat, id: nat, pos: nat): Option<nat> {
    if left == 0 || pos + 4 > |records| then None
    else
      var size := FromLe(records[pos..pos + 4]);
      if pos + 4 + size > |records| || size < 12 then None
      else if FromLe(records[pos + 4..pos + 6]) == id then Some(FromLe(records[pos + 12..pos + 16]))
      else Walk(records, left - 1, id, pos + 4 + size)
  }

  method Lookup(records: Bytes, topicCount: nat, id: nat) returns (rate: Option<nat>)
    ensures rate == if id == 0 || id > 0xFFFF then None else Walk(records, topicCount, id, 0)
  {
    if id == 0 || id > 0xFFFF { return None; }
    var pos: nat := 0;
    for i := 0 to topicCount
      invariant Walk(records, topicCount - i, id, pos) == Walk(records, topicCount, id, 0)
    {
      if pos + 4 > |records| { return None; }
      var size := FromLe(records[pos..pos + 4]);
      if pos + 4 + size > |records| || size < 12 { return None; }
      if FromLe(records[pos + 4..pos + 6]) == id { return Some(FromLe(records[pos + 12..pos + 16])); }
      pos := pos + 4 + size;
    }
    rate := None;
  }

  /** The declared rate of the first topic of this id. */
  function FirstRate(topics: seq<Topic>, id: nat): Option<nat> {
    if topics == [] then None
    else if topics[0].id == id then Some(topics[0].maxRate)
    else FirstRate(topics[1..], id)
  }

  /** What the walk reads off the front of one record. */
  lemma RecordFront(t: Topic)
    ensures var c := TopicContent(t);
      |c| >= 12 && c[0..2] == Le(t.id, 2) && c[8..12] == Le(t.maxRate, 4)
  {
    hide Le, FieldRecords;
    var p := HeadParts(t);
    var head := Le(t.id, 2) + Le(SCHEMA_VERSION, 2) + [ENCODING_PACKED_LE] + [SUBSCRIBABLE] + Le(|t.fields|, 2)
      + Le(t.maxRate, 4);
    assert Concat(p[..6]) == head by { SixParts(p); }
    assert p[..8] == p && p[..8][..7] == p[..7] && p[..7][..6] == p[..6];
    assert Concat(p) == Concat(p[..7]) + p[7] && Concat(p[..7]) == Concat(p[..6]) + p[6];
    var c := TopicContent(t);
    assert c == head + (p[6] + p[7] + FieldRecords(t.fields));
    assert c[..12] == head;
    assert head[0..2] == Le(t.id, 2) && head[8..12] == Le(t.maxRate, 4);
  }

  lemma SixParts(p: seq<Bytes>)
    requires |p| >= 6
    ensures Concat(p[..6]) == p[0] + p[1] + p[2] + p[3] + p[4] + p[5]
  {
    assert p[..1][..0] == [] && Concat(p[..1]) == p[0];
    assert p[..2][..1] == p[..1] && p[..3][..2] == p[..2] && p[..4][..3] == p[..3];
    assert p[..5][..4] == p[..4] && p[..6][..5] == p[..5];
    assert Concat(p[..2]) == p[0] + p[1];
    assert Concat(p[..3]) == p[0] + p[1] + p[2];
    assert Concat(p[..4]) == p[0] + p[1] + p[2] + p[3];
  }

  /** Each record is delimited by its size, and the walk over records written by the publisher
      finds the declared rate of the first matching topic, or none if there is none, whatever
      comes after them. */
  lemma {:induction false} WalkFindsFirst(records: Bytes, pos: nat, topics: seq<Topic>, id: U16, rest: Bytes)
    requires pos <= |records| && records[pos..] == RecordsOf(topics) + rest && |RecordsOf(topics)| < UINT32
    ensures Walk(records, |topics|, id, pos) == FirstRate(topics, id)
    decreases |topics|
  {
    hide Le, FromLe, TopicContent;
    if topics != [] {
      var t := topics[0];
      var c := TopicContent(t);
      var more := RecordsOf(topics[1..]) + rest;
      assert records[pos..] == Le(|c|, 4) + c + more;
      RecordRead(records, pos, t, more);
      WalkFindsFirst(records, pos + 4 + |c|, topics[1..], id, rest);
    }
  }

  /** The three fields that the walk reads of a record, and where the next one is. */
  lemma RecordRead(records: Bytes, pos: nat, t: Topic, more: Bytes)
    requires pos <= |records| && |TopicContent(t)| < UINT32
    requires records[pos..] == Le(|TopicContent(t)|, 4) + TopicContent(t) + more
    ensures var n := |TopicContent(t)|;
      && n >= 12 && pos + 4 + n <= |records| && records[pos + 4 + n..] == more
      && FromLe(records[pos..pos + 4]) == n && FromLe(records[pos + 4..pos + 6]) == t.id
      && FromLe(records[pos + 12..pos + 16]) == t.maxRate
  {
    hide Le, FromLe, TopicContent;
    var c := TopicContent(t);
    RecordFront(t);
    Powers();
    assert records[pos..pos + 4] == records[pos..][..4] == Le(|c|, 4);
    assert records[pos + 4..pos + 6] == records[pos..][4..6] == c[0..2];
    assert records[pos + 12..pos + 16] == records[pos..][12..16] == c[8..12];
    assert records[pos + 4 + |c|..] == records[pos..][4 + |c|..] == more;
    LeRoundTrip(|c|, 4);
    LeRoundTrip(t.id, 2);
    LeRoundTrip(t.maxRate, 4);
  }

  /** The publisher's own lookup in its tables, which answers for the hub itself, agrees with
      the walk over the records it sends to others. */
  method LookupOwn(topics: seq<Topic>, id: nat) returns (rate: Option<nat>)
    ensures rate == FirstRate(topics, id)
    ensures |RecordsOf(topics)| < UINT32 && 0 < id <= 0xFFFF ==>
      rate == Walk(RecordsOf(topics), |topics|, id, 0)
  {
    rate := None;
    assert topics[0..] == topics;
    for i := 0 to |topics|
      invariant FirstRate(topics, id) == FirstRate(topics[i..], id)
    {
      if topics[i].id == id {
        rate := Some(topics[i].maxRate);
        break;
      }
      assert topics[i..][1..] == topics[i + 1..];
    }
    if |RecordsOf(topics)| < UINT32 && 0 < id <= 0xFFFF {
      assert RecordsOf(topics)[0..] == RecordsOf(topics) + [];
      WalkFindsFirst(RecordsOf(topics), 0, topics, id, []);
    }
  }
}
