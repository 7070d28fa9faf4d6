/** The manifests the hub keeps of the sources it has heard from: eight entries, refreshed in
    place, and the responses that enumerate them.

    The layout of a manifest belongs to the protocol library; Manifest is what its reader
    hands over.  The reference is a map from sources to the last message accepted from each
    and the last full one: every entry is Rendered from those two and from nothing else. */
module ManifestCache {
  import opened Bitwise
  import opened Common
  import opened TopicRecords

  const CAPACITY: nat := 8
  const MAX_RECORDS: nat := 2048
  const MAX_NAME: nat := 64
  const MAX_INFO: nat := 512
  const EMPTY_INFO: Bytes := [0, 0]

  datatype Manifest = Manifest(
    readable: bool, success: bool, notModified: bool,
    source: nat, boot: nat, uuid: Bytes, role: nat, online: bool, revision: nat,
    name: Bytes, info: Bytes, topicCount: nat, actionCount: nat, topics: Bytes, actions: Bytes)

  datatype Entry = Entry(
    source: nat, boot: nat, uuid: Bytes, role: nat, online: bool, revision: nat, lastSeen: nat, info: Bytes,
    name: Bytes, topicCount: nat, actionCount: nat, records: Bytes, topicRecordsSize: nat)

  type Rows = s: seq<Option<Entry>> | |s| == CAPACITY witness seq(8, _ => None)

  predicate IsRowOf(row: Option<Entry>, source: nat) { row.Some? && row.value.source == source }

  /** findEntry: the first entry of this source, or CAPACITY. */
  function RowOf(rows: Rows, source: nat, from: nat): (r: nat)
    requires from <= CAPACITY
    ensures from <= r <= CAPACITY && (forall i | from <= i < r :: !IsRowOf(rows[i], source))
    ensures r < CAPACITY ==> IsRowOf(rows[r], source)
    decreases CAPACITY - from
  {
    if from == CAPACITY || IsRowOf(rows[from], source) then from else RowOf(rows, source, from + 1)
  }

  predicate LeastSeen(rows: Rows, oldest: nat, n: nat)
    requires oldest < CAPACITY && n <= CAPACITY
  {
    forall i | 0 <= i < n :: rows[oldest].Some? && rows[i].Some? && rows[oldest].value.lastSeen <= rows[i].value.lastSeen
  }

  lemma StillLeast(rows: Rows, oldest: nat, n: nat)
    requires oldest < CAPACITY && n < CAPACITY
    ensures LeastSeen(rows, oldest, 0)
    ensures LeastSeen(rows, oldest, n) && rows[n].Some? && (n == 0 || rows[oldest].Some?) ==>
      LeastSeen(rows, if n == 0 || rows[n].value.lastSeen < rows[oldest].value.lastSeen then n else oldest, n + 1)
  {
  }

  /** The row for a new source: the first free one, or, if there is none, the first of those
      seen longest ago. */
  function SpareRow(rows: Rows, from: nat, oldest: nat): (r: nat)
    requires from <= CAPACITY && oldest < CAPACITY && (if from == 0 then oldest == 0 else rows[oldest].Some?)
    requires LeastSeen(rows, oldest, from)
    ensures r < CAPACITY
    ensures rows[r].Some? ==> LeastSeen(rows, r, CAPACITY)
    decreases CAPACITY - from
  {
    if from == CAPACITY then oldest
    else if rows[from].None? then from
    else SpareRow(rows, from + 1,
      if from == 0 || rows[from].value.lastSeen < rows[oldest].value.lastSeen then from else oldest)
  }

  /** What ingestManifestData asks of a message, whatever is in the table. */
  predicate Acceptable(m: Manifest) {
    && m.readable && m.success && m.source != 0 && m.boot != 0
    && |m.info| <= MAX_INFO
    && (m.notModified ==> m.topicCount == 0 && m.actionCount == 0)
    && (!m.notModified ==> |m.topics| + |m.actions| <= MAX_RECORDS)
  }

  function Info(m: Manifest): Bytes { if |m.info| >= 2 then m.info else EMPTY_INFO }

  function Name(m: Manifest): Bytes { if |m.name| < MAX_NAME then m.name else m.name[..MAX_NAME] }

  /** The entry that a source's last message and its last full message make. */
  function Rendered(last: Manifest, full: Manifest, seen: nat): Entry {
    Entry(last.source, last.boot, last.uuid, last.role, last.online, last.revision, seen, Info(last),
          Name(full), full.topicCount, full.actionCount, full.topics + full.actions, |full.topics|)
  }

  datatype Ingest = Refused | Ingested(row: nat, entry: Entry, changed: bool)

  /** ingestManifestData: which row becomes what, and whether the catalog has changed. */
  function Ingestion(rows: Rows, m: Manifest, now: nat): Ingest {
    if !Acceptable(m) then Refused
    else
      var i := RowOf(rows, m.source, 0);
      if i == CAPACITY then
        if m.notModified then Refused else Ingested(SpareRow(rows, 0, 0), Rendered(m, m, now), true)
      else
        var e := rows[i].value;
        var head := Entry(m.source, m.boot, m.uuid, m.role, m.online, m.revision, now, Info(m),
                          e.name, e.topicCount, e.actionCount, e.records, e.topicRecordsSize);
        Ingested(i, if m.notModified then head else Rendered(m, m, now), e.boot != m.boot || e.revision != m.revision)
  }

  // ----- the reference -----

  datatype Heard = Heard(last: Manifest, full: Manifest, seen: nat)

  datatype State = State(rows: Rows, catalogRevision: nat, heard: map<nat, Heard>)

  const START := State(seq(8, _ => None), 1, map[])

  datatype Action = Message(m: Manifest, now: nat)

  function Next(s: State, a: Action): State {
    match Ingestion(s.rows, a.m, a.now)
    case Refused => s
    case Ingested(row, entry, changed) =>
      var full := if a.m.notModified && a.m.source in s.heard then s.heard[a.m.source].full else a.m;
      var kept := if s.rows[row].Some? then s.heard - {s.rows[row].value.source} else s.heard;
      State(s.rows[row := Some(entry)], if changed then (s.catalogRevision + 1) % UINT32 else s.catalogRevision,
            kept[a.m.source := Heard(a.m, full, a.now)])
  }

  predicate OneRowEach(rows: Rows) {
    forall i, j | 0 <= i < j < CAPACITY && rows[i].Some? && rows[j].Some? :: rows[i].value.source != rows[j].value.source
  }

  predicate Made(rows: Rows, heard: map<nat, Heard>) {
    forall i | 0 <= i < CAPACITY && rows[i].Some? ::
      var e := rows[i].value;
      e.source in heard && e == Rendered(heard[e.source].last, heard[e.source].full, heard[e.source].seen)
  }

  predicate Listed(rows: Rows, heard: map<nat, Heard>) {
    forall k | k in heard :: exists i :: 0 <= i < CAPACITY && IsRowOf(rows[i], k)
  }

  predicate Sound(heard: map<nat, Heard>) {
    forall k | k in heard ::
      Acceptable(heard[k].last) && heard[k].last.source == k
      && Acceptable(heard[k].full) && heard[k].full.source == k && !heard[k].full.notModified
  }

  /** The table and the reference say the same. */
  predicate Refines(s: State) {
    OneRowEach(s.rows) && Made(s.rows, s.heard) && Listed(s.rows, s.heard) && Sound(s.heard)
  }

  lemma OnlyRow(rows: Rows, i: nat, source: nat)
    requires OneRowEach(rows) && i < CAPACITY && IsRowOf(rows[i], source)
    ensures RowOf(rows, source, 0) == i
  {
  }

  lemma HeardHasRow(s: State, k: nat)
    requires Refines(s)
    ensures k in s.heard <==> RowOf(s.rows, k, 0) < CAPACITY
    ensures k in s.heard ==> s.rows[RowOf(s.rows, k, 0)].value.lastSeen == s.heard[k].seen
  {
    hide Acceptable;
    assert Listed(s.rows, s.heard);
    var i := RowOf(s.rows, k, 0);
    assert i < CAPACITY ==> IsRowOf(s.rows[i], k);
  }

  function RowsPut(s: State, row: nat, h: Heard): Rows
    requires row < CAPACITY
  {
    s.rows[row := Some(Rendered(h.last, h.full, h.seen))]
  }

  function HeardPut(s: State, row: nat, h: Heard): map<nat, Heard>
    requires row < CAPACITY
  {
    (if s.rows[row].Some? then s.heard - {s.rows[row].value.source} else s.heard)[h.last.source := h]
  }

  predicate Puttable(s: State, row: nat, h: Heard) {
    && row < CAPACITY && (RowOf(s.rows, h.last.source, 0) < CAPACITY ==> row == RowOf(s.rows, h.last.source, 0))
    && Acceptable(h.last) && Acceptable(h.full) && h.full.source == h.last.source && !h.full.notModified
  }

  lemma PutDistinct(s: State, row: nat, h: Heard)
    requires OneRowEach(s.rows) && Puttable(s, row, h)
    ensures OneRowEach(RowsPut(s, row, h))
  {
    hide Acceptable, Info, Name;
    var rows := RowsPut(s, row, h);
    forall i | 0 <= i < CAPACITY && i != row && rows[i].Some? ensures rows[i].value.source != h.last.source {
      if rows[i].value.source == h.last.source { OnlyRow(s.rows, i, h.last.source); }
    }
  }

  lemma PutListed(s: State, row: nat, h: Heard)
    requires Listed(s.rows, s.heard) && Puttable(s, row, h)
    ensures Listed(RowsPut(s, row, h), HeardPut(s, row, h))
  {
    hide Acceptable, Info, Name;
    var rows, heard := RowsPut(s, row, h), HeardPut(s, row, h);
    forall k | k in heard ensures exists i :: 0 <= i < CAPACITY && IsRowOf(rows[i], k) {
      if k == h.last.source {
        assert IsRowOf(rows[row], k);
      } else {
        var i :| 0 <= i < CAPACITY && IsRowOf(s.rows[i], k);
        assert i != row;
        assert IsRowOf(rows[i], k);
      }
    }
  }

  lemma PutMade(s: State, row: nat, h: Heard)
    requires OneRowEach(s.rows) && Made(s.rows, s.heard) && Sound(s.heard) && Puttable(s, row, h)
    ensures Made(RowsPut(s, row, h), HeardPut(s, row, h)) && Sound(HeardPut(s, row, h))
  {
    hide Acceptable, Info, Name;
    PutDistinct(s, row, h);
  }

  lemma NextRefines(s: State, a: Action)
    requires Refines(s)
    ensures Refines(Next(s, a))
  {
    hide Acceptable, SpareRow, LeastSeen, OneRowEach, Listed, Info, Name;
    match Ingestion(s.rows, a.m, a.now)
    case Refused =>
    case Ingested(row, entry, _) =>
      HeardHasRow(s, a.m.source);
      var full := if a.m.notModified && a.m.source in s.heard then s.heard[a.m.source].full else a.m;
      var h := Heard(a.m, full, a.now);
      assert Puttable(s, row, h) && entry == Rendered(a.m, full, a.now);
      PutDistinct(s, row, h);
      PutListed(s, row, h);
      PutMade(s, row, h);
      hide Made, Sound;
      assert Next(s, a).rows == RowsPut(s, row, h) && Next(s, a).heard == HeardPut(s, row, h);
  }

  /** A message only ever costs another source its entry when every row is taken and none of
      them is its own, and then a source seen longest ago; all others keep theirs. */
  lemma OnlyTheOldestGoes(s: State, a: Action, k: nat)
    requires Refines(s) && k in s.heard && k != a.m.source
    ensures k in Next(s, a).heard ==> Next(s, a).heard[k] == s.heard[k]
    ensures k !in Next(s, a).heard ==>
      && Ingestion(s.rows, a.m, a.now).Ingested? && a.m.source !in s.heard && !a.m.notModified
      && (forall i | 0 <= i < CAPACITY :: s.rows[i].Some?)
      && (forall other | other in s.heard :: s.heard[k].seen <= s.heard[other].seen)
  {
    hide Acceptable, SpareRow, Made, Listed, Sound, Rendered;
    HeardHasRow(s, a.m.source);
    if k !in Next(s, a).heard {
      var row := Ingestion(s.rows, a.m, a.now).row;
      OnlyRow(s.rows, row, k);
      HeardHasRow(s, k);
      assert LeastSeen(s.rows, row, CAPACITY);
      forall other | other in s.heard ensures s.heard[k].seen <= s.heard[other].seen {
        HeardHasRow(s, other);
        assert s.rows[RowOf(s.rows, other, 0)].Some?;
      }
    }
  }

  // ----- the reference, from the messages alone -----

  /** What one message does to what has been heard, with no table in sight: the last message
      and, if it is full, the last full one of its source; a new source needs a full message,
      and if as many are known as the table has rows, one seen longest ago is forgotten. */
  predicate HeardStep(h: map<nat, Heard>, m: Manifest, now: nat, h': map<nat, Heard>) {
    if !Acceptable(m) then h' == h
    else if m.source in h then h' == h[m.source := Heard(m, if m.notModified then h[m.source].full else m, now)]
    else if m.notModified then h' == h
    else if |h| < CAPACITY then h' == h[m.source := Heard(m, m, now)]
    else exists k :: k in h && (forall other | other in h :: h[k].seen <= h[other].seen)
                     && h' == (h - {k})[m.source := Heard(m, m, now)]
  }

  function Sources(rows: Rows, n: nat): set<nat>
    requires n <= CAPACITY
  {
    set i | 0 <= i < n && rows[i].Some? :: rows[i].value.source
  }

  /** No more sources than rows, and as many as rows only if every row is taken. */
  lemma {:induction false} SourcesCount(rows: Rows, n: nat)
    requires n <= CAPACITY && OneRowEach(rows)
    ensures |Sources(rows, n)| <= n
    ensures |Sources(rows, n)| == n <==> forall i | 0 <= i < n :: rows[i].Some?
  {
    if n > 0 {
      SourcesCount(rows, n - 1);
      var i := n - 1;
      if rows[i].Some? {
        assert Sources(rows, n) == Sources(rows, i) + {rows[i].value.source};
        assert rows[i].value.source !in Sources(rows, i);
      } else {
        assert Sources(rows, n) == Sources(rows, i);
      }
    }
  }

  lemma HeardIsSources(s: State)
    requires Refines(s)
    ensures |s.heard| <= CAPACITY
    ensures |s.heard| == CAPACITY <==> forall i | 0 <= i < CAPACITY :: s.rows[i].Some?
  {
    hide Made, Listed, Sound, Sources;
    SourcesCount(s.rows, CAPACITY);
    KnownAreHeard(s);
    assert |s.heard| == |s.heard.Keys|;
  }

  lemma KnownAreHeard(s: State)
    requires Refines(s)
    ensures s.heard.Keys == Sources(s.rows, CAPACITY)
  {
    hide Acceptable, Rendered, Sound;
    forall k ensures k in s.heard.Keys <==> k in Sources(s.rows, CAPACITY) {
      if k in s.heard {
        var i :| 0 <= i < CAPACITY && IsRowOf(s.rows[i], k);
        assert s.rows[i].value.source == k;
      }
    }
  }

  /** The table does to its sources what the reference says of the message. */
  lemma NextIsHeardStep(s: State, a: Action)
    requires Refines(s)
    ensures HeardStep(s.heard, a.m, a.now, Next(s, a).heard)
  {
    hide Acceptable, Made, Listed, Sound, Rendered, SpareRow, LeastSeen;
    HeardHasRow(s, a.m.source);
    HeardIsSources(s);
    var g := Ingestion(s.rows, a.m, a.now);
    if g.Ingested? {
      if a.m.source in s.heard {
        assert s.rows[g.row].value.source == a.m.source;
        assert Next(s, a).heard == s.heard[a.m.source := Heard(a.m,
          if a.m.notModified then s.heard[a.m.source].full else a.m, a.now)];
      } else if s.rows[g.row].Some? {
        var k := s.rows[g.row].value.source;
        OnlyRow(s.rows, g.row, k);
        HeardHasRow(s, k);
        OnlyTheOldestGoes(s, a, k);
      }
    }
  }

  /** A history of what has been heard, one entry for each message of the run and one before. */
  ghost predicate Reference(run: seq<Action>, hs: seq<map<nat, Heard>>) {
    |hs| == |run| + 1 && hs[0] == map[]
    && forall i | 0 <= i < |run| :: HeardStep(hs[i], run[i].m, run[i].now, hs[i + 1])
  }

  function After(s: State, run: seq<Action>): State
    decreases |run|
  {
    if run == [] then s else Next(After(s, run[..|run| - 1]), run[|run| - 1])
  }

  lemma StartRefines()
    ensures Refines(START)
  {
  }

  /** After any run the table is a rendering of a reference that follows from the messages
      alone: one entry per source heard, made of the last message accepted from it and the
      last full one, with nothing left over from anybody else. */
  lemma {:induction false} CacheRefines(run: seq<Action>) returns (hs: seq<map<nat, Heard>>)
    ensures Refines(After(START, run))
    ensures Reference(run, hs) && hs[|run|] == After(START, run).heard
    decreases |run|
  {
    hide Refines, Next, HeardStep;
    if run == [] {
      StartRefines();
      hs := [map[]];
    } else {
      var front, a := run[..|run| - 1], run[|run| - 1];
      var gs := CacheRefines(front);
      var s := After(START, front);
      NextRefines(s, a);
      NextIsHeardStep(s, a);
      hs := gs + [Next(s, a).heard];
      forall i | 0 <= i < |run| ensures HeardStep(hs[i], run[i].m, run[i].now, hs[i + 1]) {
        if i < |front| { assert run[i] == front[i] && hs[i + 1] == gs[i + 1]; }
      }
    }
  }

  /** The catalog revision moves exactly when a source appears, restarts or reconfigures. */
  lemma CatalogRevisionMoves(s: State, a: Action)
    requires Refines(s) && s.catalogRevision < UINT32
    ensures Next(s, a).catalogRevision != s.catalogRevision <==>
      Ingestion(s.rows, a.m, a.now).Ingested?
      && !(a.m.source in s.heard && s.heard[a.m.source].last.boot == a.m.boot
           && s.heard[a.m.source].last.revision == a.m.revision)
  {
    hide Acceptable, SpareRow;
    HeardHasRow(s, a.m.source);
    var i := RowOf(s.rows, a.m.source, 0);
    if i < CAPACITY { assert s.rows[i].Some?; }
  }

  /** The rate the hub answers for a topic of a source it has heard from: what the source's
      publisher declared for its first topic of that id, and nothing for other ids. */
  lemma CachedRate(s: State, i: nat, topics: seq<Topic>, id: U16)
    requires Refines(s) && i < CAPACITY && s.rows[i].Some?
    requires var full := s.heard[s.rows[i].value.source].full;
      full.topics == RecordsOf(topics) && full.topicCount == |topics|
    ensures var e := s.rows[i].value;
      Walk(e.records, e.topicCount, id, 0) == FirstRate(topics, id)
  {
    hide RecordsOf, Walk, FirstRate, Listed, OneRowEach, Info, Name;
    var e := s.rows[i].value;
    var full := s.heard[e.source].full;
    assert e.records[0..] == RecordsOf(topics) + full.actions;
    WalkFindsFirst(e.records, 0, topics, id, full.actions);
  }

  // ----- the table -----

  const NO_ENTRY := Entry(0, 0, [], 0, false, 0, 0, [], [], 0, 0, [], 0)

  class Cache {
    const rows: array<Option<Entry>>
    var catalogRevision: nat

    constructor ()
      ensures rows.Length == CAPACITY && fresh(rows) && rows[..] == START.rows && catalogRevision == 1
    {
      rows := new Option<Entry>[8](_ => None);
      catalogRevision := 1;
    }

    method Find(source: nat) returns (i: nat)
      requires rows.Length == CAPACITY
      ensures i == RowOf(rows[..], source, 0)
    {
      ghost var was: Rows := rows[..];
      i := 0;
      while i < CAPACITY && !IsRowOf(rows[i], source)
        invariant i <= CAPACITY && RowOf(was, source, 0) == RowOf(was, source, i)
      {
        i := i + 1;
      }
    }

    /** The part of findOrAllocateEntry for a source that has no entry. */
    method Allocate() returns (r: nat)
      requires rows.Length == CAPACITY
      ensures r < CAPACITY && r == SpareRow(rows[..], 0, 0)
    {
      hide LeastSeen;
      ghost var was: Rows := rows[..];
      var oldest := 0;
      StillLeast(was, 0, 0);
      for i := 0 to CAPACITY
        invariant oldest < CAPACITY && (if i == 0 then oldest == 0 else was[oldest].Some?) && LeastSeen(was, oldest, i)
        invariant SpareRow(was, 0, 0) == SpareRow(was, i, oldest)
      {
        if rows[i].None? { return i; }
        StillLeast(was, oldest, i);
        if i == 0 || rows[i].value.lastSeen < rows[oldest].value.lastSeen { oldest := i; }
      }
      r := oldest;
    }

    /** ingestManifestData.  The entry of an evicted source is written over field by field. */
    method Ingest(m: Manifest, now: nat) returns (ok: bool)
      requires rows.Length == CAPACITY
      modifies this`catalogRevision, rows
      ensures match Ingestion(old(rows[..]), m, now)
        case Refused => !ok && rows[..] == old(rows[..]) && catalogRevision == old(catalogRevision)
        case Ingested(row, entry, changed) =>
          ok && rows[..] == old(rows[..])[row := Some(entry)]
          && catalogRevision == if changed then (old(catalogRevision) + 1) % UINT32 else old(catalogRevision)
    {
      hide SpareRow, RowOf;
      if !Acceptable(m) { return false; }
      var row := Find(m.source);
      var isNew := row == CAPACITY;
      if isNew {
        if m.notModified { return false; }
        row := Allocate();
      }
      var e := if rows[row].Some? then rows[row].value else NO_ENTRY;
      var changed := isNew || e.boot != m.boot || e.revision != m.revision;
      e := e.(source := m.source, boot := m.boot, uuid := m.uuid, role := m.role, online := m.online,
              revision := m.revision, lastSeen := now, info := Info(m));
      if !m.notModified {
        e := e.(name := Name(m), topicCount := m.topicCount, actionCount := m.actionCount,
                records := m.topics + m.actions, topicRecordsSize := |m.topics|);
      }
      rows[row] := Some(e);
      if changed { catalogRevision := (catalogRevision + 1) % UINT32; }
      ok := true;
    }

    /** lookupTopicMaxRateMillihz for any source but the hub itself. */
    method LookupRate(source: nat, id: nat) returns (rate: Option<nat>)
      requires rows.Length == CAPACITY
      ensures var i := RowOf(rows[..], source, 0);
        rate == if i == CAPACITY || id == 0 || id > 0xFFFF then None
                else Walk(rows[i].value.records, rows[i].value.topicCount, id, 0)
    {
      if id == 0 || id > 0xFFFF { return None; }
      var i := Find(source);
      if i == CAPACITY { return None; }
      rate := Lookup(rows[i].value.records, rows[i].value.topicCount, id);
    }

    /** collectSortedEntries: the used rows, sorted in place by source. */
    method Collect() returns (out: array<nat>, count: nat)
      requires rows.Length == CAPACITY && OneRowEach(rows[..])
      ensures fresh(out) && count <= out.Length && InOrder(rows[..], out[..count])
    {
      hide OneRowEach, InOrder, Permutes, Indices, Used, Ascending;
      ghost var was: Rows := rows[..];
      out, count := CollectUsed();
      UsedRows(was, CAPACITY);
      ghost var all := out[..count];
      Itself(was, all);
      var i := 1;
      while i < count
        invariant rows[..] == was && 1 <= i && (count > 0 ==> i <= count)
        invariant Indices(was, out[..count]) && Permutes(out[..count], all)
        invariant Ascending(was, out[..count], if i <= count then i else count)
      {
        InsertAt(out, count, i, all);
        i := i + 1;
      }
      SortedIsInOrder(was, out[..count], all);
    }

    method CollectUsed() returns (out: array<nat>, count: nat)
      requires rows.Length == CAPACITY
      ensures fresh(out) && count <= out.Length && out[..count] == Used(rows[..], CAPACITY)
    {
      ghost var was: Rows := rows[..];
      out := new nat[8];
      count := 0;
      for i := 0 to CAPACITY
        invariant count <= i && out[..count] == Used(was, i)
      {
        if rows[i].Some? {
          out[count] := i;
          count := count + 1;
          assert out[..count] == Used(was, i) + [i];
        }
      }
    }

    /** One round of the insertion sort: the key moves down past greater sources. */
    method InsertAt(out: array<nat>, count: nat, i: nat, ghost all: seq<nat>)
      requires rows.Length == CAPACITY && 0 < i < count <= out.Length
      requires Indices(rows[..], out[..count]) && Permutes(out[..count], all)
      requires Ascending(rows[..], out[..count], i)
      modifies out
      ensures Indices(rows[..], out[..count]) && Permutes(out[..count], all)
      ensures Ascending(rows[..], out[..count], i + 1)
    {
      hide Hole, Ascending, Permutes;
      ghost var was: Rows := rows[..];
      var key: nat := out[i];
      var j := i;
      ghost var xs: seq<nat> := out[..count];
      assert xs[i := key] == xs;
      HoleOpens(was, xs, i);
      while j > 0 && rows[out[j - 1]].value.source > rows[key].value.source
        invariant j <= i && xs == out[..count] && Indices(was, xs) && key < CAPACITY && was[key].Some?
        invariant Permutes(xs[j := key], all) && Hole(was, xs, i, j, key)
      {
        HoleMoves(was, xs, i, j, key);
        SwapKeeps(xs, j, key, all);
        out[j] := out[j - 1];
        xs := xs[j := xs[j - 1]];
        j := j - 1;
      }
      HoleCloses(was, xs, i, j, key);
      out[j] := key;
      assert out[..count] == xs[j := key];
    }

    /** enumerationCount: the hub itself and every entry. */
    method Count() returns (count: nat)
      requires rows.Length == CAPACITY
      ensures count == 1 + UsedCount(rows[..], CAPACITY)
    {
      ghost var was: Rows := rows[..];
      count := 1;
      for i := 0 to CAPACITY
        invariant count == 1 + UsedCount(was, i)
      {
        if rows[i].Some? { count := count + 1; }
      }
    }

    /** buildEnumerationResponse, if nobody changes the table meanwhile: the hub itself, then
        the entries by source. */
    method Enumerate(index: nat) returns (response: Option<Described>)
      requires rows.Length == CAPACITY && OneRowEach(rows[..])
      ensures exists order ::
        InOrder(rows[..], order)
        && response == Answer(1 + UsedCount(rows[..], CAPACITY), rows[..], order, index)
        && response == if index > |order| then None
             else Some(Described(if index == 0 then None else rows[order[index - 1]], index == |order|))
    {
      hide OneRowEach, Rises, Sources;
      var total := Count();
      var complete := index + 1 == total;
      var out, count := Collect();
      ghost var order := out[..count];
      assert InOrder(rows[..], order);
      OrderCounts(rows[..], order);
      if index >= total { return None; }
      if index == 0 { return Some(Described(None, complete)); }
      if index - 1 >= count { return None; }
      response := Some(Described(rows[out[index - 1]], complete));
    }
  }

  /** One response of an enumeration: the entry (None is the hub itself), and the flag that
      says the catalog is complete. */
  datatype Described = Described(entry: Option<Entry>, complete: bool)

  /** The response for one index, from a count and an order that need not fit together. */
  function Answer(total: nat, rows: Rows, order: seq<nat>, index: nat): Option<Described>
    requires Indices(rows, order)
  {
    if index >= total then None
    else if index == 0 then Some(Described(None, index + 1 == total))
    else if index - 1 >= |order| then None
    else Some(Described(rows[order[index - 1]], index + 1 == total))
  }

  function UsedCount(rows: Rows, n: nat): nat
    requires n <= CAPACITY
  {
    if n == 0 then 0 else UsedCount(rows, n - 1) + if rows[n - 1].Some? then 1 else 0
  }

  function Used(rows: Rows, n: nat): seq<nat>
    requires n <= CAPACITY
  {
    if n == 0 then [] else Used(rows, n - 1) + if rows[n - 1].Some? then [n - 1] else []
  }

  predicate Indices(rows: Rows, xs: seq<nat>) {
    forall k | 0 <= k < |xs| :: xs[k] < CAPACITY && rows[xs[k]].Some?
  }

  predicate Ascending(rows: Rows, xs: seq<nat>, n: nat)
    requires Indices(rows, xs) && n <= |xs|
  {
    forall a, b | 0 <= a < b < n :: rows[xs[a]].value.source <= rows[xs[b]].value.source
  }

  /** All but place j ascends up to place i, and what is above j is no less than the key. */
  predicate Hole(rows: Rows, xs: seq<nat>, i: nat, j: nat, key: nat)
    requires Indices(rows, xs) && j <= i < |xs| && key < CAPACITY && rows[key].Some?
  {
    && (forall a, b | 0 <= a < b <= i && a != j && b != j :: rows[xs[a]].value.source <= rows[xs[b]].value.source)
    && (forall b | j < b <= i :: rows[key].value.source <= rows[xs[b]].value.source)
  }

  lemma HoleOpens(rows: Rows, xs: seq<nat>, i: nat)
    requires Indices(rows, xs) && i < |xs| && Ascending(rows, xs, i)
    ensures Hole(rows, xs, i, i, xs[i])
  {
  }

  lemma HoleMoves(rows: Rows, xs: seq<nat>, i: nat, j: nat, key: nat)
    requires Indices(rows, xs) && 0 < j <= i < |xs| && key < CAPACITY && rows[key].Some? && Hole(rows, xs, i, j, key)
    requires rows[xs[j - 1]].value.source > rows[key].value.source
    ensures Indices(rows, xs[j := xs[j - 1]]) && Hole(rows, xs[j := xs[j - 1]], i, j - 1, key)
  {
  }

  lemma HoleCloses(rows: Rows, xs: seq<nat>, i: nat, j: nat, key: nat)
    requires Indices(rows, xs) && j <= i < |xs| && key < CAPACITY && rows[key].Some? && Hole(rows, xs, i, j, key)
    requires j > 0 ==> rows[xs[j - 1]].value.source <= rows[key].value.source
    ensures Indices(rows, xs[j := key]) && Ascending(rows, xs[j := key], i + 1)
  {
    var ys := xs[j := key];
    forall a, b | 0 <= a < b < i + 1 ensures rows[ys[a]].value.source <= rows[ys[b]].value.source {
      if b == j && a < j - 1 { assert rows[xs[a]].value.source <= rows[xs[j - 1]].value.source; }
    }
  }

  /** Every used row once, in strictly increasing order of source. */
  predicate InOrder(rows: Rows, order: seq<nat>) {
    && Indices(rows, order)
    && (forall i | 0 <= i < CAPACITY && rows[i].Some? :: i in order)
    && Rises(rows, order)
  }

  lemma {:induction false} CountIsSources(rows: Rows, n: nat)
    requires n <= CAPACITY && OneRowEach(rows)
    ensures UsedCount(rows, n) == |Sources(rows, n)|
  {
    if n > 0 {
      CountIsSources(rows, n - 1);
      var i := n - 1;
      if rows[i].Some? {
        assert Sources(rows, n) == Sources(rows, i) + {rows[i].value.source};
        assert rows[i].value.source !in Sources(rows, i);
      } else {
        assert Sources(rows, n) == Sources(rows, i);
      }
    }
  }

  /** The sources of the first n rows of an order: one each. */
  function FirstSources(rows: Rows, order: seq<nat>, n: nat): set<nat>
    requires Indices(rows, order) && n <= |order|
  {
    set k | 0 <= k < n :: rows[order[k]].value.source
  }

  predicate Rises(rows: Rows, order: seq<nat>)
    requires Indices(rows, order)
  {
    forall a, b | 0 <= a < b < |order| :: rows[order[a]].value.source < rows[order[b]].value.source
  }

  lemma {:induction false} FirstCount(rows: Rows, order: seq<nat>, n: nat)
    requires Indices(rows, order) && Rises(rows, order) && n <= |order|
    ensures |FirstSources(rows, order, n)| == n
    ensures FirstSources(rows, order, n) <= Sources(rows, CAPACITY)
  {
    if n > 0 {
      FirstCount(rows, order, n - 1);
      var k := rows[order[n - 1]].value.source;
      assert FirstSources(rows, order, n) == FirstSources(rows, order, n - 1) + {k};
      assert k !in FirstSources(rows, order, n - 1);
    }
  }

  lemma OrderCounts(rows: Rows, order: seq<nat>)
    requires OneRowEach(rows) && InOrder(rows, order)
    ensures |order| == UsedCount(rows, CAPACITY) == |Sources(rows, CAPACITY)|
  {
    CountIsSources(rows, CAPACITY);
    FirstCount(rows, order, |order|);
    forall x | x in Sources(rows, CAPACITY) ensures x in FirstSources(rows, order, |order|) {
      var i :| 0 <= i < CAPACITY && rows[i].Some? && rows[i].value.source == x;
      assert i in order;
    }
    assert Sources(rows, CAPACITY) == FirstSources(rows, order, |order|);
  }

  lemma {:induction false} UsedRows(rows: Rows, n: nat)
    requires n <= CAPACITY
    ensures Indices(rows, Used(rows, n)) && |Used(rows, n)| <= n
    ensures forall a | 0 <= a < |Used(rows, n)| :: Used(rows, n)[a] < n
  {
    if n > 0 { UsedRows(rows, n - 1); }
  }

  lemma {:induction false} UsedCovers(rows: Rows, n: nat, i: nat)
    requires i < n <= CAPACITY && rows[i].Some?
    ensures i in Used(rows, n)
  {
    if i < n - 1 { UsedCovers(rows, n - 1, i); }
  }

  lemma {:induction false} UsedAscends(rows: Rows, n: nat, a: nat, b: nat)
    requires n <= CAPACITY && a < b < |Used(rows, n)|
    ensures Used(rows, n)[a] < Used(rows, n)[b]
  {
    UsedRows(rows, n - 1);
    if b < |Used(rows, n - 1)| { UsedAscends(rows, n - 1, a, b); }
  }

  lemma Itself(rows: Rows, xs: seq<nat>)
    ensures Permutes(xs, xs)
    ensures Indices(rows, xs) ==> Ascending(rows, xs, if |xs| == 0 then 0 else 1)
  {
  }

  predicate Permutes(xs: seq<nat>, all: seq<nat>) { multiset(xs) == multiset(all) }

  lemma SwapKeeps(xs: seq<nat>, j: nat, key: nat, all: seq<nat>)
    requires 0 < j < |xs| && Permutes(xs[j := key], all)
    ensures Permutes(xs[j := xs[j - 1]][j - 1 := key], all)
  {
    var x: seq<nat> := xs[j := key];
    assert xs[j := xs[j - 1]][j - 1 := key] == x[j := x[j - 1]][j - 1 := key];
  }

  lemma SortedIsInOrder(rows: Rows, xs: seq<nat>, all: seq<nat>)
    requires OneRowEach(rows) && all == Used(rows, CAPACITY)
    requires Indices(rows, xs) && Permutes(xs, all) && Ascending(rows, xs, |xs|)
    ensures InOrder(rows, xs)
  {
    forall i | 0 <= i < CAPACITY && rows[i].Some? ensures i in xs {
      UsedCovers(rows, CAPACITY, i);
      assert i in multiset(all);
      assert i in multiset(xs);
    }
    forall a, b | 0 <= a < b < |xs| ensures rows[xs[a]].value.source < rows[xs[b]].value.source {
      if xs[a] == xs[b] {
        var c, d := TwiceInAll(xs, all, a, b);
        UsedAscends(rows, CAPACITY, c, d);
      }
    }
  }

  lemma TwiceInAll(xs: seq<nat>, all: seq<nat>, a: nat, b: nat) returns (c: nat, d: nat)
    requires a < b < |xs| && xs[a] == xs[b] && Permutes(xs, all)
    ensures c < d < |all| && all[c] == all[d]
  {
    var x := xs[a];
    assert xs == xs[..a] + [x] + xs[a + 1..b] + [x] + xs[b + 1..];
    assert multiset(xs)[x] >= 2;
    Duplicate(all, x);
    c, d :| 0 <= c < d < |all| && all[c] == all[d] == x;
  }

  lemma {:induction false} Duplicate(all: seq<nat>, x: nat)
    requires multiset(all)[x] >= 2
    ensures exists c, d :: 0 <= c < d < |all| && all[c] == all[d] == x
  {
    var front, last := all[..|all| - 1], all[|all| - 1];
    assert all == front + [last];
    if last == x {
      assert x in multiset(front);
      var c :| 0 <= c < |front| && front[c] == x;
      assert all[c] == all[|all| - 1] == x;
    } else {
      Duplicate(front, x);
      var c, d :| 0 <= c < d < |front| && front[c] == front[d] == x;
      assert all[c] == all[d] == x;
    }
  }

  /** There is only one such order, so the responses that find the same table belong together.
      ManifestEnumeration says what they make when it changes in between. */
  lemma OneOrder(rows: Rows, x: seq<nat>, y: seq<nat>)
    requires InOrder(rows, x) && InOrder(rows, y)
    ensures x == y
  {
    SameUpTo(rows, x, y, |x|);
    SameUpTo(rows, y, x, |y|);
  }

  lemma {:induction false} SameUpTo(rows: Rows, x: seq<nat>, y: seq<nat>, n: nat)
    requires InOrder(rows, x) && InOrder(rows, y) && n <= |x|
    ensures n <= |y| && forall k | 0 <= k < n :: x[k] == y[k]
  {
    hide InOrder;
    if n > 0 {
      SameUpTo(rows, x, y, n - 1);
      FoundNext(rows, x, y, n - 1);
      FoundNext(rows, y, x, n - 1);
    }
  }

  lemma FoundNext(rows: Rows, x: seq<nat>, y: seq<nat>, m: nat)
    requires InOrder(rows, x) && InOrder(rows, y) && m < |x| && m <= |y|
    requires forall k | 0 <= k < m :: x[k] == y[k]
    ensures m < |y| && x[m] < CAPACITY && y[m] < CAPACITY && rows[x[m]].Some? && rows[y[m]].Some?
    ensures rows[y[m]].value.source <= rows[x[m]].value.source
    ensures rows[y[m]].value.source == rows[x[m]].value.source ==> x[m] == y[m]
  {
    assert forall q | 0 <= q < m :: x[q] != x[m];
    assert x[m] in y;
    var k :| 0 <= k < |y| && y[k] == x[m];
  }
}
