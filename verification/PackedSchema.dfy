/** PACKED_LE payloads, read and written by nothing but a table of fields. */
module PackedSchema {
  import opened Bitwise
  import opened Common
  import opened LittleEndian
  import opened TopicRecords

  const TYPE_UINT8: Byte := 1
  const TYPE_UINT32: Byte := 3
  const TYPE_UINT64: Byte := 4
  const TYPE_INT8: Byte := 5
  const VARIABLE_COUNT: Byte := 2

  function Width(kind: Byte): nat {
    if kind == TYPE_UINT32 then 4 else if kind == TYPE_UINT64 then 8 else 1
  }

  /** Values a field of this type can hold. */
  predicate Holds(kind: Byte, v: int) {
    if kind == TYPE_INT8 then -128 <= v < 128 else 0 <= v < Power256(Width(kind))
  }

  function Raw(kind: Byte, v: int): (r: nat)
    requires Holds(kind, v)
  {
    if v < 0 then v + 256 else v
  }

  function Value(kind: Byte, raw: nat): int {
    if kind == TYPE_INT8 && raw >= 128 then raw - 256 else raw
  }

  function EncodeValues(kind: Byte, vs: seq<int>): (r: Bytes)
    requires forall i | 0 <= i < |vs| :: Holds(kind, vs[i])
    ensures |r| == Width(kind) * |vs|
  {
    if vs == [] then [] else Le(Raw(kind, vs[0]), Width(kind)) + EncodeValues(kind, vs[1..])
  }

  /** A variable array carries its count, a fixed one does not. */
  function EncodeField(f: Field, vs: seq<int>): Bytes
    requires Typed(f, vs)
  {
    (if f.flags == VARIABLE_COUNT then Le(|vs|, 2) else []) + EncodeValues(f.kind, vs)
  }

  predicate Typed(f: Field, vs: seq<int>) {
    && (forall i | 0 <= i < |vs| :: Holds(f.kind, vs[i]))
    && (if f.flags == VARIABLE_COUNT then |vs| <= f.maxCount else |vs| == f.count)
  }

  predicate AllTyped(fields: seq<Field>, columns: seq<seq<int>>) {
    |columns| == |fields| && forall i | 0 <= i < |fields| :: Typed(fields[i], columns[i])
  }

  function EncodeFrom(fields: seq<Field>, columns: seq<seq<int>>, i: nat): Bytes
    requires AllTyped(fields, columns) && i <= |fields|
    decreases |fields| - i
  {
    if i == |fields| then [] else EncodeField(fields[i], columns[i]) + EncodeFrom(fields, columns, i + 1)
  }

  function DecodeValues(kind: Byte, b: Bytes, n: nat): seq<int>
    requires |b| >= Width(kind) * n
    decreases n
  {
    if n == 0 then []
    else [Value(kind, FromLe(b[..Width(kind)]))] + DecodeValues(kind, b[Width(kind)..], n - 1)
  }

  /** The values of one field, and the octets after it. */
  function DecodeField(f: Field, b: Bytes): Option<(seq<int>, Bytes)> {
    if f.flags == VARIABLE_COUNT then
      if |b| < 2 || FromLe(b[..2]) > f.maxCount || |b| - 2 < Width(f.kind) * FromLe(b[..2]) then None
      else
        var n := FromLe(b[..2]);
        Some((DecodeValues(f.kind, b[2..], n), b[2 + Width(f.kind) * n..]))
    else if |b| < Width(f.kind) * f.count then None
    else Some((DecodeValues(f.kind, b, f.count), b[Width(f.kind) * f.count..]))
  }

  function DecodeFrom(fields: seq<Field>, b: Bytes, i: nat): Option<seq<seq<int>>>
    requires i <= |fields|
    decreases |fields| - i
  {
    if i == |fields| then if b == [] then Some([]) else None
    else
      match DecodeField(fields[i], b)
      case None => None
      case Some(first) =>
        match DecodeFrom(fields, first.1, i + 1)
        case None => None
        case Some(rest) => Some([first.0] + rest)
  }

  /** A payload: the schema version, then the fields in order. */
  function Decode(fields: seq<Field>, payload: Bytes): Option<seq<seq<int>>> {
    if |payload| < 2 || FromLe(payload[..2]) != SCHEMA_VERSION then None else DecodeFrom(fields, payload[2..], 0)
  }

  function Encode(fields: seq<Field>, columns: seq<seq<int>>): Bytes
    requires AllTyped(fields, columns)
  {
    Le(SCHEMA_VERSION, 2) + EncodeFrom(fields, columns, 0)
  }

  lemma ValueRoundTrip(kind: Byte, v: int)
    requires Holds(kind, v)
    ensures Value(kind, FromLe(Le(Raw(kind, v), Width(kind)))) == v
  {
    Powers();
    LeRoundTrip(Raw(kind, v), Width(kind));
  }

  lemma {:induction false} ValuesRoundTrip(kind: Byte, vs: seq<int>, rest: Bytes)
    requires forall i | 0 <= i < |vs| :: Holds(kind, vs[i])
    ensures DecodeValues(kind, EncodeValues(kind, vs) + rest, |vs|) == vs
    decreases |vs|
  {
    hide Holds, Width, Le, FromLe, Raw, Value;
    if vs != [] {
      var w := Width(kind);
      var head, tail := Le(Raw(kind, vs[0]), w), EncodeValues(kind, vs[1..]);
      var b := EncodeValues(kind, vs) + rest;
      assert b == head + (tail + rest);
      assert b[..w] == head && b[w..] == tail + rest;
      ValueRoundTrip(kind, vs[0]);
      ValuesRoundTrip(kind, vs[1..], rest);
      assert [vs[0]] + vs[1..] == vs;
    }
  }

  lemma FieldRoundTrip(f: Field, vs: seq<int>, rest: Bytes)
    requires Typed(f, vs)
    ensures DecodeField(f, EncodeField(f, vs) + rest) == Some((vs, rest))
  {
    hide Holds, Width, Le, FromLe, EncodeValues, DecodeValues;
    var body := EncodeValues(f.kind, vs);
    var b := EncodeField(f, vs) + rest;
    ValuesRoundTrip(f.kind, vs, rest);
    if f.flags == VARIABLE_COUNT {
      Powers();
      LeRoundTrip(|vs|, 2);
      assert b == Le(|vs|, 2) + (body + rest);
      assert b[..2] == Le(|vs|, 2) && b[2..] == body + rest;
      assert b[2 + |body|..] == rest;
    } else {
      assert b == body + rest && b[|body|..] == rest;
    }
  }

  lemma {:induction false} FromRoundTrip(fields: seq<Field>, columns: seq<seq<int>>, i: nat)
    requires AllTyped(fields, columns) && i <= |fields|
    ensures DecodeFrom(fields, EncodeFrom(fields, columns, i), i) == Some(columns[i..])
    decreases |fields| - i
  {
    hide EncodeField, DecodeField, Typed;
    if i < |fields| {
      FieldRoundTrip(fields[i], columns[i], EncodeFrom(fields, columns, i + 1));
      FromRoundTrip(fields, columns, i + 1);
      assert [columns[i]] + columns[i + 1..] == columns[i..];
    } else {
      assert columns[i..] == [];
    }
  }

  /** A reader that knows only the table recovers every value. */
  lemma SchemaRoundTrip(fields: seq<Field>, columns: seq<seq<int>>)
    requires AllTyped(fields, columns)
    ensures Decode(fields, Encode(fields, columns)) == Some(columns)
  {
    hide DecodeFrom, EncodeFrom, AllTyped;
    FromRoundTrip(fields, columns, 0);
    var p := Encode(fields, columns);
    assert p[..2] == Le(SCHEMA_VERSION, 2) && p[2..] == EncodeFrom(fields, columns, 0);
    Powers();
    LeRoundTrip(SCHEMA_VERSION, 2);
    assert columns[0..] == columns;
  }

  lemma EncodeIs(fields: seq<Field>, columns: seq<seq<int>>)
    requires AllTyped(fields, columns)
    ensures Encode(fields, columns) == Le(SCHEMA_VERSION, 2) + EncodeFrom(fields, columns, 0)
  {
  }

  lemma EncodeStep(fields: seq<Field>, columns: seq<seq<int>>, i: nat)
    requires AllTyped(fields, columns) && i < |fields|
    ensures Typed(fields[i], columns[i])
    ensures EncodeFrom(fields, columns, i) == EncodeField(fields[i], columns[i]) + EncodeFrom(fields, columns, i + 1)
  {
  }

  // ----- a chain of writes that follows the table -----

  lemma ConcatLast(parts: seq<Bytes>, last: Bytes)
    ensures Concat(parts + [last]) == Concat(parts) + last
  {
    assert (parts + [last])[..|parts|] == parts;
  }

  lemma {:induction false} ConcatJoin(x: seq<Bytes>, y: seq<Bytes>)
    ensures Concat(x + y) == Concat(x) + Concat(y)
    decreases |y|
  {
    hide Concat;
    if y == [] {
      assert x + y == x;
      ConcatNone(y);
    } else {
      var front, last := y[..|y| - 1], y[|y| - 1];
      ConcatJoin(x, front);
      assert y == front + [last] && x + y == (x + front) + [last];
      ConcatLast(front, last);
      ConcatLast(x + front, last);
      assert Concat(x) + Concat(front) + last == Concat(x) + (Concat(front) + last);
    }
  }

  lemma ConcatOne(x: Bytes)
    ensures Concat([x]) == x
  {
    assert [x][..0] == [];
  }

  /** The writes for one value after another. */
  lemma {:induction false} ValueWrites(kind: Byte, vs: seq<int>, parts: seq<Bytes>)
    requires |parts| == |vs| && forall i | 0 <= i < |vs| :: Holds(kind, vs[i])
    requires forall i | 0 <= i < |vs| :: parts[i] == Le(Raw(kind, vs[i]), Width(kind))
    ensures Concat(parts) == EncodeValues(kind, vs)
    decreases |vs|
  {
    hide Holds, Width, Le, Raw;
    if vs != [] {
      ValueWrites(kind, vs[1..], parts[1..]);
      assert parts == [parts[0]] + parts[1..];
      ConcatJoin([parts[0]], parts[1..]);
      ConcatOne(parts[0]);
    }
  }

  predicate Single(f: Field, w: nat) { f.flags != VARIABLE_COUNT && f.count == 1 && Width(f.kind) == w && f.kind != TYPE_INT8 }

  lemma SingleField(f: Field, vs: seq<int>, w: nat)
    requires Single(f, w) && Typed(f, vs)
    ensures |vs| == 1 && vs[0] >= 0 && EncodeField(f, vs) == Le(vs[0], w)
  {
    hide Power256;
    var vs' := vs[1..];
    assert vs' == [];
    assert EncodeValues(f.kind, vs) == Le(vs[0], w) + EncodeValues(f.kind, vs');
  }

  predicate Singles(fields: seq<Field>, columns: seq<seq<int>>, parts: seq<Bytes>, i: nat, j: nat, w: nat)
    requires |fields| == |columns|
  {
    i <= j <= |fields| && |parts| == j - i
    && forall k | i <= k < j :: Single(fields[k], w) && columns[k] != [] && columns[k][0] >= 0
                               && parts[k - i] == Le(columns[k][0], w)
  }

  lemma SinglesTail(fields: seq<Field>, columns: seq<seq<int>>, parts: seq<Bytes>, i: nat, j: nat, w: nat)
    requires |fields| == |columns| && i < j && Singles(fields, columns, parts, i, j, w)
    ensures Singles(fields, columns, parts[1..], i + 1, j, w)
  {
    hide Single, Le;
    forall k | i + 1 <= k < j ensures parts[1..][k - (i + 1)] == Le(columns[k][0], w) {
      assert parts[1..][k - (i + 1)] == parts[k - i];
    }
  }

  /** One field in front of the others. */
  lemma SinglesStep(fields: seq<Field>, columns: seq<seq<int>>, parts: seq<Bytes>, i: nat, j: nat, w: nat)
    requires AllTyped(fields, columns) && i < j && Singles(fields, columns, parts, i, j, w)
    ensures EncodeFrom(fields, columns, i) == parts[0] + EncodeFrom(fields, columns, i + 1) && |parts[0]| == w
  {
    hide Single, EncodeField, Typed, Le, EncodeFrom;
    EncodeStep(fields, columns, i);
    SingleField(fields[i], columns[i], w);
  }

  lemma ConcatFirst(parts: seq<Bytes>)
    requires parts != []
    ensures Concat(parts) == parts[0] + Concat(parts[1..])
  {
    hide Concat;
    assert parts == [parts[0]] + parts[1..];
    ConcatJoin([parts[0]], parts[1..]);
    ConcatOne(parts[0]);
  }

  lemma {:induction false} SinglesText(fields: seq<Field>, columns: seq<seq<int>>, parts: seq<Bytes>, i: nat, j: nat, w: nat)
    requires AllTyped(fields, columns) && Singles(fields, columns, parts, i, j, w)
    ensures EncodeFrom(fields, columns, i) == Concat(parts) + EncodeFrom(fields, columns, j)
    decreases j - i
  {
    hide Singles, Typed, EncodeFrom, Concat;
    SinglesShape(fields, columns, parts, i, j, w);
    if i < j {
      SinglesStep(fields, columns, parts, i, j, w);
      SinglesTail(fields, columns, parts, i, j, w);
      SinglesText(fields, columns, parts[1..], i + 1, j, w);
      ConcatFirst(parts);
    } else {
      ConcatNone(parts);
    }
  }

  lemma SinglesShape(fields: seq<Field>, columns: seq<seq<int>>, parts: seq<Bytes>, i: nat, j: nat, w: nat)
    requires |fields| == |columns| && Singles(fields, columns, parts, i, j, w)
    ensures i <= j <= |fields| && |parts| == j - i
  {
  }

  lemma {:induction false} SinglesLength(fields: seq<Field>, columns: seq<seq<int>>, parts: seq<Bytes>, i: nat, j: nat, w: nat)
    requires AllTyped(fields, columns) && Singles(fields, columns, parts, i, j, w)
    ensures |EncodeFrom(fields, columns, i)| == w * (j - i) + |EncodeFrom(fields, columns, j)|
    decreases j - i
  {
    hide Singles, Typed, EncodeFrom;
    SinglesShape(fields, columns, parts, i, j, w);
    if i < j {
      SinglesStep(fields, columns, parts, i, j, w);
      SinglesTail(fields, columns, parts, i, j, w);
      SinglesLength(fields, columns, parts[1..], i + 1, j, w);
      Product(w, j - i);
    }
  }

  /** Single-valued fields i to j, all of one width: what they encode to, and how long it is. */
  lemma SinglesEncode(fields: seq<Field>, columns: seq<seq<int>>, parts: seq<Bytes>, i: nat, j: nat, w: nat)
    requires AllTyped(fields, columns) && i <= j <= |fields| && |parts| == j - i
    requires forall k | i <= k < j :: Single(fields[k], w) && columns[k] != [] && columns[k][0] >= 0
    requires forall k | i <= k < j :: parts[k - i] == Le(columns[k][0], w)
    ensures EncodeFrom(fields, columns, i) == Concat(parts) + EncodeFrom(fields, columns, j)
    ensures |EncodeFrom(fields, columns, i)| == w * (j - i) + |EncodeFrom(fields, columns, j)|
  {
    hide EncodeFrom, Concat, Single, Le, Typed;
    SinglesText(fields, columns, parts, i, j, w);
    SinglesLength(fields, columns, parts, i, j, w);
  }

  lemma ConcatNone(parts: seq<Bytes>)
    requires parts == []
    ensures Concat(parts) == []
  {
  }

  lemma Product(w: nat, n: nat)
    requires n > 0
    ensures w * n == w + w * (n - 1)
  {
  }
}
