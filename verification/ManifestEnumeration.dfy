/** The enumeration of the catalog while messages come in.

    The main loop fixes the number of responses and then builds them one by one; the task that
    receives from the radio ingests messages between any two of its steps.  Every response
    counts the entries again and then sorts them again, and no lock is held over any of it. */
module ManifestEnumeration {
  import opened Common
  import opened ManifestCache

  /** The cache; how many responses the main loop will ask for and which one is next; what the
      response under way has counted; and the responses given. */
  datatype Main =
    Main(cache: ManifestCache.State, asked: nat, index: nat, counted: Option<nat>, listing: seq<Described>)

  datatype Step =
    | Ingest(m: Manifest, now: nat)
    | Begin
    | Count
    | Respond(order: seq<nat>)

  const IDLE := Main(ManifestCache.START, 0, 0, None, [])

  ghost predicate Enabled(s: Main, a: Step) {
    match a
    case Ingest(_, _) => true
    case Begin => s.index == s.asked
    case Count => s.index < s.asked && s.counted.None?
    case Respond(order) => s.counted.Some? && InOrder(s.cache.rows, order)
  }

  function Total(s: Main): nat { 1 + UsedCount(s.cache.rows, CAPACITY) }

  ghost function Then(s: Main, a: Step): Main
    requires Enabled(s, a)
  {
    match a
    case Ingest(m, now) => s.(cache := ManifestCache.Next(s.cache, Message(m, now)))
    case Begin => Main(s.cache, Total(s), 0, None, [])
    case Count => s.(counted := Some(Total(s)))
    case Respond(order) =>
      var d := Answer(s.counted.value, s.cache.rows, order, s.index);
      s.(index := s.index + 1, counted := None, listing := s.listing + if d.Some? then [d.value] else [])
  }

  ghost predicate Run(s: Main, run: seq<Step>)
    decreases |run|, 0
  {
    run == [] || (Run(s, run[..|run| - 1]) && Enabled(AfterRun(s, run[..|run| - 1]), run[|run| - 1]))
  }

  ghost function AfterRun(s: Main, run: seq<Step>): Main
    requires Run(s, run)
    decreases |run|, 1
  {
    if run == [] then s else Then(AfterRun(s, run[..|run| - 1]), run[|run| - 1])
  }

  lemma NoStep(s: Main)
    ensures Run(s, []) && AfterRun(s, []) == s
  {
  }

  lemma OneMore(s: Main, run: seq<Step>, a: Step)
    requires Run(s, run) && Enabled(AfterRun(s, run), a)
    ensures Run(s, run + [a]) && AfterRun(s, run + [a]) == Then(AfterRun(s, run), a)
  {
    hide Enabled, Then;
    assert (run + [a])[..|run|] == run;
  }

  // ----- ranks -----

  function Known(s: Main): set<nat> { Sources(s.cache.rows, CAPACITY) }

  function UpTo(ks: set<nat>, k: nat): set<nat> { set x | x in ks && x <= k }

  /** How many of these sources are no greater than k. */
  function AtMost(ks: set<nat>, k: nat): nat { |UpTo(ks, k)| }

  lemma Smaller(a: set<nat>, b: set<nat>)
    requires a <= b
    ensures |a| <= |b| && (|a| == |b| ==> a == b)
  {
    assert b == a + (b - a);
  }

  /** The row at place p of the order holds the source that has p sources below it. */
  lemma PlaceIsRank(rows: Rows, order: seq<nat>, p: nat, k: nat)
    requires InOrder(rows, order) && p < |order|
    ensures AtMost(Sources(rows, CAPACITY), k) <= p <==> k < rows[order[p]].value.source
  {
    hide Sources;
    var low := UpTo(Sources(rows, CAPACITY), k);
    if k < rows[order[p]].value.source {
      FirstCount(rows, order, p);
      forall x | x in low ensures x in FirstSources(rows, order, p) { Placed(rows, order, p, x); }
      Smaller(low, FirstSources(rows, order, p));
    } else {
      FirstCount(rows, order, p + 1);
      Smaller(FirstSources(rows, order, p + 1), low);
    }
  }

  lemma Placed(rows: Rows, order: seq<nat>, p: nat, x: nat)
    requires InOrder(rows, order) && p < |order| && x in Sources(rows, CAPACITY) && x < rows[order[p]].value.source
    ensures x in FirstSources(rows, order, p)
  {
    var i :| 0 <= i < CAPACITY && rows[i].Some? && rows[i].value.source == x;
    assert i in order;
    var q :| 0 <= q < |order| && order[q] == i;
  }

  lemma OwnRank(rows: Rows, order: seq<nat>, p: nat)
    requires OneRowEach(rows) && InOrder(rows, order) && p < |order|
    ensures AtMost(Sources(rows, CAPACITY), rows[order[p]].value.source) == p + 1
  {
    hide Sources, OneRowEach;
    var k := rows[order[p]].value.source;
    PlaceIsRank(rows, order, p, k);
    if p + 1 < |order| {
      PlaceIsRank(rows, order, p + 1, k);
    } else {
      OrderCounts(rows, order);
      Smaller(UpTo(Sources(rows, CAPACITY), k), Sources(rows, CAPACITY));
    }
  }

  predicate Rising(ks: seq<nat>) { forall a, b | 0 <= a < b < |ks| :: ks[a] < ks[b] }

  /** As many rising sources as there are: they are the order. */
  lemma OrderFrom(rows: Rows, ks: seq<nat>) returns (order: seq<nat>)
    requires OneRowEach(rows) && Rising(ks) && |ks| == |Sources(rows, CAPACITY)|
    requires forall k | k in ks :: k in Sources(rows, CAPACITY)
    ensures InOrder(rows, order) && |order| == |ks|
    ensures forall p | 0 <= p < |ks| :: rows[order[p]].value.source == ks[p]
  {
    order := seq(|ks|, p requires 0 <= p < |ks| => RowOf(rows, ks[p], 0));
    forall p | 0 <= p < |ks| ensures order[p] < CAPACITY && IsRowOf(rows[order[p]], ks[p]) {
      assert ks[p] in ks;
      var i :| 0 <= i < CAPACITY && rows[i].Some? && rows[i].value.source == ks[p];
      assert IsRowOf(rows[i], ks[p]);
    }
    assert Indices(rows, order) && Rises(rows, order);
    FirstCount(rows, order, |order|);
    Smaller(FirstSources(rows, order, |order|), Sources(rows, CAPACITY));
    forall i | 0 <= i < CAPACITY && rows[i].Some? ensures i in order { RowIsPlaced(rows, order, i); }
  }

  lemma RowIsPlaced(rows: Rows, order: seq<nat>, i: nat)
    requires OneRowEach(rows) && Indices(rows, order) && i < CAPACITY && rows[i].Some?
    requires FirstSources(rows, order, |order|) == Sources(rows, CAPACITY)
    ensures i in order
  {
    assert rows[i].value.source in Sources(rows, CAPACITY);
    var p :| 0 <= p < |order| && rows[order[p]].value.source == rows[i].value.source;
    assert order[p] == i;
  }

  // ----- what a message does to the sources known -----

  /** A message accepted from a source that had no entry. */
  predicate NewSource(s: Main, a: Step) {
    a.Ingest? && Ingestion(s.cache.rows, a.m, a.now).Ingested? && a.m.source !in Known(s)
  }

  lemma KeysOfPut(h: map<nat, Heard>, k: nat, v: Heard)
    ensures h[k := v].Keys == h.Keys + {k}
  {
  }

  lemma KeysOfSwap(h: map<nat, Heard>, gone: nat, k: nat, v: Heard)
    requires gone in h && k !in h
    ensures |(h - {gone})[k := v].Keys| == |h.Keys|
  {
    assert (h - {gone})[k := v].Keys == h.Keys - {gone} + {k};
  }

  lemma HeardGrows(h: map<nat, Heard>, m: Manifest, now: nat, h': map<nat, Heard>)
    requires HeardStep(h, m, now, h') && |h.Keys| <= CAPACITY
    ensures m.source in h || h' == h ==> h'.Keys == h.Keys
    ensures m.source !in h && h' != h ==>
      |h'.Keys| == (if |h.Keys| < CAPACITY then |h.Keys| + 1 else |h.Keys|) && m.source in h'.Keys
    ensures m.source !in h && h' != h && |h.Keys| < CAPACITY ==> h'.Keys == h.Keys + {m.source}
  {
    hide Acceptable;
    assert |h| == |h.Keys|;
    if m.source in h {
      KeysOfPut(h, m.source, Heard(m, if m.notModified then h[m.source].full else m, now));
      assert h.Keys + {m.source} == h.Keys;
    } else if h' != h {
      if |h| < CAPACITY {
        KeysOfPut(h, m.source, Heard(m, m, now));
      } else {
        var k :| k in h && h' == (h - {k})[m.source := Heard(m, m, now)];
        KeysOfSwap(h, k, m.source, Heard(m, m, now));
      }
    }
  }

  lemma IngestKnows(s: Main, a: Step)
    requires Refines(s.cache) && a.Ingest?
    ensures Refines(Then(s, a).cache)
    ensures !NewSource(s, a) ==> Known(Then(s, a)) == Known(s)
    ensures NewSource(s, a) && |Known(s)| < CAPACITY ==> Known(Then(s, a)) == Known(s) + {a.m.source}
    ensures |Known(s)| <= |Known(Then(s, a))| <= CAPACITY
  {
    hide Refines, HeardStep, Sources, Acceptable, RowOf, SpareRow, Rendered;
    var b := Message(a.m, a.now);
    NextRefines(s.cache, b);
    NextIsHeardStep(s.cache, b);
    KnownAreHeard(s.cache);
    KnownAreHeard(Next(s.cache, b));
    HeardIsSources(s.cache);
    HeardIsSources(Next(s.cache, b));
    HeardGrows(s.cache.heard, a.m, a.now, Next(s.cache, b).heard);
    assert |s.cache.heard| == |s.cache.heard.Keys|;
    assert |Next(s.cache, b).heard| == |Next(s.cache, b).heard.Keys|;
    if NewSource(s, a) { assert a.m.source in Next(s.cache, b).heard; }
  }

  lemma TotalIsKnown(s: Main)
    requires Refines(s.cache)
    ensures Total(s) == 1 + |Known(s)| && OneRowEach(s.cache.rows)
  {
    hide Made, Listed, Sound, Sources;
    CountIsSources(s.cache.rows, CAPACITY);
  }

  // ----- an enumeration under way -----

  function SourceAt(listing: seq<Described>, i: nat): nat
    requires i < |listing|
  {
    if listing[i].entry.Some? then listing[i].entry.value.source else 0
  }

  /** What every moment of an enumeration keeps: a response for every index so far, the hub's
      own first; the count never falls; and if it is still what it was, the flags are right. */
  predicate Underway(s: Main, n: nat) {
    && Refines(s.cache) && s.asked == n <= Total(s) && s.index == |s.listing| <= n
    && (s.counted.Some? ==> s.index < n <= s.counted.value <= Total(s))
    && (forall i | 0 <= i < |s.listing| :: s.listing[i].entry.None? <==> i == 0)
    && (Total(s) == n ==> forall i | 0 <= i < |s.listing| :: s.listing[i].complete <==> i + 1 == n)
  }

  lemma RespondUnderway(s: Main, n: nat, order: seq<nat>)
    requires Underway(s, n) && Enabled(s, Respond(order))
    ensures Underway(Then(s, Respond(order)), n)
    ensures var e := Then(s, Respond(order));
      |order| == Total(s) - 1 && |e.listing| == s.index + 1 && e.listing[..s.index] == s.listing
      && e.listing[s.index].complete == (s.index + 1 == s.counted.value)
      && (s.index > 0 ==> e.listing[s.index].entry == s.cache.rows[order[s.index - 1]])
  {
    hide Refines, Sources, OneRowEach, Rises;
    TotalIsKnown(s);
    OrderCounts(s.cache.rows, order);
  }

  lemma StepUnderway(s: Main, n: nat, a: Step)
    requires Underway(s, n) && Enabled(s, a) && !a.Begin?
    ensures Underway(Then(s, a), n)
  {
    hide Refines, Sources, Rises, InOrder, UsedCount, Answer;
    match a
    case Ingest(_, _) =>
      IngestKnows(s, a);
      TotalIsKnown(s);
      TotalIsKnown(Then(s, a));
    case Count =>
    case Respond(order) => RespondUnderway(s, n, order);
  }

  predicate NoBegin(run: seq<Step>) { forall i | 0 <= i < |run| :: !run[i].Begin? }

  lemma {:induction false} RunUnderway(s: Main, run: seq<Step>)
    requires Underway(s, s.asked) && Run(s, run) && NoBegin(run)
    ensures Underway(AfterRun(s, run), s.asked)
    decreases |run|
  {
    hide Underway, Enabled, Then;
    if run != [] {
      RunUnderway(s, run[..|run| - 1]);
      StepUnderway(AfterRun(s, run[..|run| - 1]), s.asked, run[|run| - 1]);
    }
  }

  lemma BeginUnderway(s: Main)
    requires Refines(s.cache) && Enabled(s, Begin)
    ensures Underway(Then(s, Begin), Total(s))
  {
    hide Refines, UsedCount;
  }

  lemma {:induction false} RunRefines(s: Main, run: seq<Step>)
    requires Refines(s.cache) && Run(s, run)
    ensures Refines(AfterRun(s, run).cache)
    decreases |run|
  {
    hide Refines, Next, Enabled;
    if run != [] {
      var t := AfterRun(s, run[..|run| - 1]);
      RunRefines(s, run[..|run| - 1]);
      if run[|run| - 1].Ingest? { NextRefines(t.cache, Message(run[|run| - 1].m, run[|run| - 1].now)); }
    }
  }

  // ----- the exact condition -----

  /** The listing of a table: the hub itself, then every source once, in increasing order, and
      the flag that says so on the last response and on no other. */
  ghost predicate Whole(s: Main) { exists order :: WholeBy(s, order) }

  predicate WholeBy(s: Main, order: seq<nat>) {
    && InOrder(s.cache.rows, order) && |s.listing| == |order| + 1 && s.listing[0].entry.None?
    && (forall i | 0 < i < |s.listing| ::
          s.listing[i].entry.Some? && SourceAt(s.listing, i) == s.cache.rows[order[i - 1]].value.source)
    && (forall i | 0 <= i < |s.listing| :: s.listing[i].complete <==> i == |order|)
  }

  /** The response about to be built finds no more sources up to the one listed last than
      have been listed. */
  predicate NoneCrept(s: Main) {
    s.index >= 2 && s.index == |s.listing| ==> AtMost(Known(s), SourceAt(s.listing, s.index - 1)) < s.index
  }

  ghost predicate NoneCreptIn(s: Main, run: seq<Step>)
    requires Run(s, run)
  {
    forall j | 0 <= j < |run| && run[j].Respond? && Run(s, run[..j]) :: NoneCrept(AfterRun(s, run[..j]))
  }

  /** As many sources are known as at the start; no response found one more at or below the
      last one listed; and none that was listed is gone. */
  ghost predicate Undisturbed(s: Main, run: seq<Step>)
    requires Run(s, run)
  {
    var e := AfterRun(s, run);
    && Total(e) == s.asked
    && NoneCreptIn(s, run)
    && (forall i | 0 < i < |e.listing| :: SourceAt(e.listing, i) in Known(e))
  }

  predicate Ascends(listing: seq<Described>) {
    forall a, b | 0 < a < b < |listing| :: SourceAt(listing, a) < SourceAt(listing, b)
  }

  lemma RespondAscends(s: Main, n: nat, order: seq<nat>)
    requires Underway(s, n) && Enabled(s, Respond(order))
    ensures Ascends(Then(s, Respond(order)).listing) <==> Ascends(s.listing) && NoneCrept(s)
  {
    hide Refines, Sources, OneRowEach, Rises, AtMost, UsedCount, Answer;
    RespondUnderway(s, n, order);
    var e := Then(s, Respond(order));
    var i := s.index;
    assert forall a | 0 <= a < i :: e.listing[a] == s.listing[a];
    if i >= 2 {
      PlaceIsRank(s.cache.rows, order, i - 1, SourceAt(s.listing, i - 1));
      assert NoneCrept(s) <==> SourceAt(e.listing, i - 1) < SourceAt(e.listing, i);
      if Ascends(s.listing) && NoneCrept(s) {
        forall a, b | 0 < a < b < |e.listing| ensures SourceAt(e.listing, a) < SourceAt(e.listing, b) {
          var c := if b == i then i - 1 else b;
          if a < c { assert SourceAt(s.listing, a) < SourceAt(s.listing, c); }
        }
      }
      if Ascends(e.listing) {
        forall a, b | 0 < a < b < |s.listing| ensures SourceAt(s.listing, a) < SourceAt(s.listing, b) {
          assert SourceAt(e.listing, a) < SourceAt(e.listing, b);
        }
      }
    }
  }

  lemma NoneCreptStep(s: Main, run: seq<Step>)
    requires run != [] && Run(s, run)
    ensures var front := run[..|run| - 1];
      NoneCreptIn(s, run) <==>
        NoneCreptIn(s, front) && (run[|run| - 1].Respond? ==> NoneCrept(AfterRun(s, front)))
  {
    hide NoneCrept, Enabled, Then;
    var front := run[..|run| - 1];
    forall j | 0 <= j < |front| ensures front[..j] == run[..j] && front[j] == run[j] {
    }
  }

  lemma {:induction false} AscendsExactly(s: Main, run: seq<Step>)
    requires Underway(s, s.asked) && s.listing == [] && Run(s, run) && NoBegin(run)
    ensures Ascends(AfterRun(s, run).listing) <==> NoneCreptIn(s, run)
    decreases |run|
  {
    hide Underway, Enabled, NoneCrept, NoneCreptIn, Answer;
    if run == [] {
      assert NoneCreptIn(s, []) by { NothingCrept(s); }
    } else {
      var front, a := run[..|run| - 1], run[|run| - 1];
      AscendsExactly(s, front);
      NoneCreptStep(s, run);
      RunUnderway(s, front);
      if a.Respond? {
        RespondAscends(AfterRun(s, front), s.asked, a.order);
      } else {
        assert AfterRun(s, run).listing == AfterRun(s, front).listing;
      }
    }
  }

  lemma NothingCrept(s: Main)
    ensures Run(s, []) && NoneCreptIn(s, [])
  {
  }

  /** A finished listing is whole exactly if the count is what it was, the sources ascend, and
      all of them are still known. */
  lemma WholeExactly(s: Main)
    requires Underway(s, s.asked) && s.index == s.asked
    ensures Whole(s) <==>
      Total(s) == s.asked && Ascends(s.listing)
      && forall i | 0 < i < |s.listing| :: SourceAt(s.listing, i) in Known(s)
  {
    hide WholeBy, Underway, UsedCount;
    if Whole(s) {
      var order :| WholeBy(s, order);
      WholeMeans(s, order);
    }
    if Total(s) == s.asked && Ascends(s.listing)
       && forall i | 0 < i < |s.listing| :: SourceAt(s.listing, i) in Known(s) {
      var order := MakesWhole(s);
    }
  }

  lemma MakesWhole(s: Main) returns (order: seq<nat>)
    requires Underway(s, s.asked) && s.index == s.asked == Total(s) && Ascends(s.listing)
    requires forall i | 0 < i < |s.listing| :: SourceAt(s.listing, i) in Known(s)
    ensures WholeBy(s, order)
  {
    hide Refines, UsedCount, Sources, OneRowEach, Rises;
    TotalIsKnown(s);
    var ks := seq(|s.listing| - 1, p requires 0 <= p < |s.listing| - 1 => SourceAt(s.listing, p + 1));
    assert Rising(ks);
    order := OrderFrom(s.cache.rows, ks);
    forall i | 0 < i < |s.listing| ensures SourceAt(s.listing, i) == s.cache.rows[order[i - 1]].value.source {
      assert ks[i - 1] == SourceAt(s.listing, i);
    }
  }

  lemma WholeMeans(s: Main, order: seq<nat>)
    requires Underway(s, s.asked) && s.index == s.asked && WholeBy(s, order)
    ensures Total(s) == s.asked && Ascends(s.listing)
    ensures forall i | 0 < i < |s.listing| :: SourceAt(s.listing, i) in Known(s)
  {
    hide Refines;
    TotalIsKnown(s);
    OrderCounts(s.cache.rows, order);
    hide UsedCount, OneRowEach;
  }

  /** Whatever came before, and whatever messages come while the main loop lists: once every
      response is given, the listing is whole if and only if nothing has disturbed it. */
  lemma ListingIsExact(before: seq<Step>, during: seq<Step>)
    requires Run(IDLE, before) && Enabled(AfterRun(IDLE, before), Begin)
    requires var s := Then(AfterRun(IDLE, before), Begin);
      Run(s, during) && NoBegin(during) && AfterRun(s, during).index == s.asked
    ensures var s := Then(AfterRun(IDLE, before), Begin);
      Whole(AfterRun(s, during)) <==> Undisturbed(s, during)
  {
    hide *;
    var s := Started(before);
    RunUnderway(s, during);
    AscendsExactly(s, during);
    DisturbedMeans(s, during);
    WholeExactly(AfterRun(s, during));
  }

  lemma Started(before: seq<Step>) returns (s: Main)
    requires Run(IDLE, before) && Enabled(AfterRun(IDLE, before), Begin)
    ensures s == Then(AfterRun(IDLE, before), Begin)
    ensures Underway(s, s.asked) && s.listing == [] && s.asked == Total(s) && s.index == 0
  {
    hide Refines, UsedCount;
    assert Refines(IDLE.cache) by { StartRefines(); }
    RunRefines(IDLE, before);
    s := Then(AfterRun(IDLE, before), Begin);
    BeginUnderway(AfterRun(IDLE, before));
  }

  lemma DisturbedMeans(s: Main, run: seq<Step>)
    requires Run(s, run) && NoBegin(run)
    ensures AfterRun(s, run).asked == s.asked
    ensures Undisturbed(s, run) <==>
      Total(AfterRun(s, run)) == s.asked && NoneCreptIn(s, run)
      && forall i | 0 < i < |AfterRun(s, run).listing| :: SourceAt(AfterRun(s, run).listing, i) in Known(AfterRun(s, run))
  {
    hide NoneCreptIn, Enabled;
    SameAsked(s, run);
  }

  lemma {:induction false} SameAsked(s: Main, run: seq<Step>)
    requires Run(s, run) && NoBegin(run)
    ensures AfterRun(s, run).asked == s.asked
    decreases |run|
  {
    hide Enabled;
    if run != [] { SameAsked(s, run[..|run| - 1]); }
  }

  // ----- what a caller can rely on -----

  /** No message of a new source is accepted. */
  ghost predicate NoNewSource(s: Main, run: seq<Step>)
    requires Run(s, run)
  {
    forall j | 0 <= j < |run| && Run(s, run[..j]) :: !NewSource(AfterRun(s, run[..j]), run[j])
  }

  /** Every source listed has the place that it has now. */
  predicate Ranked(s: Main) {
    forall i | 0 < i < |s.listing| ::
      SourceAt(s.listing, i) in Known(s) && AtMost(Known(s), SourceAt(s.listing, i)) == i
  }

  lemma StepRanked(s: Main, n: nat, a: Step)
    requires Underway(s, n) && Ranked(s) && Enabled(s, a) && !a.Begin? && !NewSource(s, a)
    ensures Ranked(Then(s, a)) && Known(Then(s, a)) == Known(s)
  {
    hide Refines, UsedCount, Answer, AtMost, NewSource, Ingestion, OneRowEach, Rises;
    match a
    case Ingest(_, _) => IngestKnows(s, a);
    case Count =>
    case Respond(order) =>
      RespondUnderway(s, n, order);
      TotalIsKnown(s);
      var e := Then(s, a);
      if s.index > 0 { OwnRank(s.cache.rows, order, s.index - 1); }
      forall i | 0 < i < |e.listing|
        ensures SourceAt(e.listing, i) in Known(e) && AtMost(Known(e), SourceAt(e.listing, i)) == i
      {
        if i < s.index { assert e.listing[i] == s.listing[i] && SourceAt(s.listing, i) in Known(s); }
      }
  }

  lemma RankedAscends(s: Main)
    requires Ranked(s)
    ensures Ascends(s.listing)
  {
    hide Sources;
    forall a, b | 0 < a < b < |s.listing| ensures SourceAt(s.listing, a) < SourceAt(s.listing, b) {
      if SourceAt(s.listing, b) <= SourceAt(s.listing, a) {
        Smaller(UpTo(Known(s), SourceAt(s.listing, b)), UpTo(Known(s), SourceAt(s.listing, a)));
      }
    }
  }

  lemma NewSourceStep(s: Main, run: seq<Step>)
    requires run != [] && Run(s, run)
    ensures var front := run[..|run| - 1];
      NoNewSource(s, run) <==> NoNewSource(s, front) && !NewSource(AfterRun(s, front), run[|run| - 1])
  {
    hide NewSource, Enabled, Then;
    var front := run[..|run| - 1];
    forall j | 0 <= j < |front| ensures front[..j] == run[..j] && front[j] == run[j] {
    }
  }

  lemma StepNeverForgets(s: Main, a: Step)
    requires Refines(s.cache) && Enabled(s, a)
    ensures |Known(s)| <= |Known(Then(s, a))|
    ensures NewSource(s, a) && |Known(s)| < CAPACITY ==> |Known(s)| < |Known(Then(s, a))|
  {
    hide Refines, Sources, Ingestion, InOrder, UsedCount, Answer;
    if a.Ingest? {
      IngestKnows(s, a);
      if NewSource(s, a) && |Known(s)| < CAPACITY { assert |Known(s) + {a.m.source}| == |Known(s)| + 1; }
    }
  }

  lemma {:induction false} QuietOrMore(s: Main, run: seq<Step>)
    requires Underway(s, s.asked) && s.listing == [] && Run(s, run) && NoBegin(run)
    ensures var e := AfterRun(s, run);
      && |Known(s)| <= |Known(e)|
      && (NoNewSource(s, run) ==> Ranked(e) && Known(e) == Known(s))
      && (!NoNewSource(s, run) && |Known(s)| < CAPACITY ==> |Known(s)| < |Known(e)|)
    decreases |run|
  {
    hide Underway, Ranked, Enabled, Then, NewSource, NoNewSource, Sources;
    if run == [] {
      assert NoNewSource(s, []) by { NothingNew(s); }
      assert Ranked(s) by { NothingRanked(s); }
    } else {
      var front, a := run[..|run| - 1], run[|run| - 1];
      QuietOrMore(s, front);
      NewSourceStep(s, run);
      RunUnderway(s, front);
      var t := AfterRun(s, front);
      assert Refines(t.cache) by { StillRefines(t, s.asked); }
      StepNeverForgets(t, a);
      if NoNewSource(s, run) { StepRanked(t, s.asked, a); }
    }
  }

  lemma StillRefines(s: Main, n: nat)
    requires Underway(s, n)
    ensures Refines(s.cache) && s.asked == n <= Total(s)
  {
  }

  lemma NothingNew(s: Main)
    ensures Run(s, []) && NoNewSource(s, [])
  {
  }

  lemma NothingRanked(s: Main)
    requires s.listing == []
    ensures Ranked(s)
  {
  }

  /** The listing is whole if no message of a new source is accepted between its count and its
      last response; and if a row was free at the start, only then. */
  lemma QuietListingIsWhole(before: seq<Step>, during: seq<Step>)
    requires Run(IDLE, before) && Enabled(AfterRun(IDLE, before), Begin)
    requires var s := Then(AfterRun(IDLE, before), Begin);
      Run(s, during) && NoBegin(during) && AfterRun(s, during).index == s.asked
    ensures var s := Then(AfterRun(IDLE, before), Begin);
      && (NoNewSource(s, during) ==> Whole(AfterRun(s, during)))
      && (Total(s) <= CAPACITY && Whole(AfterRun(s, during)) ==> NoNewSource(s, during))
  {
    hide *;
    var s := Started(before);
    var e := AfterRun(s, during);
    RunUnderway(s, during);
    SameAsked(s, during);
    QuietOrMore(s, during);
    StillRefines(s, s.asked);
    StillRefines(e, e.asked);
    TotalIsKnown(s);
    TotalIsKnown(e);
    WholeExactly(e);
    if NoNewSource(s, during) {
      RankedAscends(e);
      RankedKnown(e);
    }
  }

  lemma RankedKnown(s: Main)
    requires Ranked(s)
    ensures forall i | 0 < i < |s.listing| :: SourceAt(s.listing, i) in Known(s)
  {
  }

  // ----- how it fails -----

  /** A full message from a source below the one listed last, while a row is free: the next
      response lists that one again, and does not say complete. */
  lemma LateSourceDoubles(z: Main, before: seq<Step>, s: Main, m: Manifest, now: nat) returns (run: seq<Step>)
    requires Run(z, before) && s == AfterRun(z, before) && Underway(s, s.asked) && Ranked(s)
    requires s.counted.None? && 2 <= s.index < s.asked == Total(s) <= CAPACITY
    requires Acceptable(m) && !m.notModified && m.source !in Known(s) && m.source < SourceAt(s.listing, s.index - 1)
    ensures Run(z, run)
    ensures var e := AfterRun(z, run);
      && e.cache == Then(s, Ingest(m, now)).cache && Known(e) == Known(s) + {m.source}
      && e.asked == s.asked && e.index == |e.listing| == s.index + 1 && e.listing[..s.index] == s.listing
      && SourceAt(e.listing, s.index) == SourceAt(s.listing, s.index - 1) && !e.listing[s.index].complete
  {
    hide Refines, UsedCount, Answer, AtMost, Sources, Rises, Run, AfterRun, OneRowEach, Acceptable, Ingestion;
    var a := Ingest(m, now);
    IsNew(s, m, now);
    IngestKnows(s, a);
    StepUnderway(s, s.asked, a);
    TotalIsKnown(s);
    OneMore(z, before, a);
    var t := Then(s, a);
    TotalIsKnown(t);
    assert |Known(s) + {m.source}| == |Known(s)| + 1;
    var order := SomeOrder(t.cache.rows);
    OneMore(z, before + [a], Count);
    var u := Then(t, Count);
    StepUnderway(t, s.asked, Count);
    OneMore(z, before + [a] + [Count], Respond(order));
    run := before + [a] + [Count] + [Respond(order)];
    RespondUnderway(u, s.asked, order);
    var k := SourceAt(s.listing, s.index - 1);
    RankedKnownAt(s, s.index - 1);
    OneMoreBelow(Known(s), m.source, k);
    PlaceOf(u.cache.rows, order, k, s.index - 1);
  }

  lemma IsNew(s: Main, m: Manifest, now: nat)
    requires Refines(s.cache) && Acceptable(m) && !m.notModified && m.source !in Known(s)
    ensures NewSource(s, Ingest(m, now))
  {
    hide Acceptable;
  }

  lemma OneMoreBelow(ks: set<nat>, x: nat, k: nat)
    requires x !in ks && x < k
    ensures AtMost(ks + {x}, k) == AtMost(ks, k) + 1
  {
    assert UpTo(ks + {x}, k) == UpTo(ks, k) + {x};
  }

  /** A source with p sources below it is at place p. */
  lemma PlaceOf(rows: Rows, order: seq<nat>, k: nat, p: nat)
    requires OneRowEach(rows) && InOrder(rows, order) && p < |order|
    requires k in Sources(rows, CAPACITY) && AtMost(Sources(rows, CAPACITY), k) == p + 1
    ensures rows[order[p]].value.source == k
  {
    hide OneRowEach, AtMost, Rises;
    var i :| 0 <= i < CAPACITY && rows[i].Some? && rows[i].value.source == k;
    assert i in order;
    var q :| 0 <= q < |order| && order[q] == i;
    OwnRank(rows, order, q);
  }

  lemma {:induction false} Greatest(ks: set<nat>) returns (top: nat)
    requires ks != {}
    ensures top in ks && forall k | k in ks :: k <= top
    decreases |ks|
  {
    var k :| k in ks;
    top := k;
    if ks != {k} {
      assert ks - {k} != {};
      var other := Greatest(ks - {k});
      if k < other { top := other; }
      assert forall x | x in ks :: x == k || x in ks - {k};
    }
  }

  lemma {:induction false} Sorted(ks: set<nat>) returns (q: seq<nat>)
    ensures Rising(q) && |q| == |ks| && forall k :: k in q <==> k in ks
    decreases |ks|
  {
    q := [];
    if ks != {} {
      var top := Greatest(ks);
      var front := Sorted(ks - {top});
      q := front + [top];
      forall a | 0 <= a < |front| ensures front[a] < top { assert front[a] in front; }
      forall k ensures k in q <==> k in ks { assert k in q <==> k in front || k in [top]; }
      assert |ks - {top}| == |ks| - 1;
    }
  }

  /** A response can always be built. */
  lemma SomeOrder(rows: Rows) returns (order: seq<nat>)
    requires OneRowEach(rows)
    ensures InOrder(rows, order)
  {
    hide OneRowEach, InOrder, Sources;
    var ks := Sorted(Sources(rows, CAPACITY));
    order := OrderFrom(rows, ks);
  }

  /** Two steps that give the next response. */
  lemma NextResponse(z: Main, before: seq<Step>, s: Main) returns (run: seq<Step>)
    requires Run(z, before) && s == AfterRun(z, before) && Underway(s, s.asked) && Ranked(s)
    requires s.index < s.asked && s.counted.None?
    ensures Run(z, run)
    ensures var e := AfterRun(z, run);
      && Underway(e, s.asked) && e.asked == s.asked && Ranked(e) && e.counted.None? && e.index == s.index + 1
      && e.cache == s.cache && e.listing[..s.index] == s.listing
      && e.listing[s.index].complete == (s.index + 1 == Total(s))
  {
    hide Refines, UsedCount, Answer, Sources, Run, AfterRun, InOrder, Ranked;
    OneMore(z, before, Count);
    run := before + [Count];
    StepUnderway(s, s.asked, Count);
    var t := Then(s, Count);
    assert Ranked(t) by { RankedSame(s, t); }
    TotalIsKnown(t);
    var order := SomeOrder(t.cache.rows);
    OneMore(z, run, Respond(order));
    run := run + [Respond(order)];
    RespondUnderway(t, s.asked, order);
    StepRanked(t, s.asked, Respond(order));
  }

  lemma RankedSame(s: Main, t: Main)
    requires Ranked(s) && t.listing == s.listing && t.cache == s.cache
    ensures Ranked(t)
  {
  }

  /** From every resting state with two sources or more and a free row: the hub and the least
      source are listed, a full message comes from a source below it, and the next response is
      the same source again.  None of them says complete. */
  lemma ListedTwice(s: Main, m: Manifest, now: nat) returns (run: seq<Step>)
    requires Refines(s.cache) && s.index == s.asked && 2 <= |Known(s)| < CAPACITY
    requires Acceptable(m) && !m.notModified && forall k | k in Known(s) :: m.source < k
    ensures Run(s, run)
    ensures var e := AfterRun(s, run);
      && e.asked == 1 + |Known(s)| && e.index == |e.listing| == 3
      && e.listing[0].entry.None? && e.listing[1].entry.Some? && SourceAt(e.listing, 2) == SourceAt(e.listing, 1)
      && SourceAt(e.listing, 1) in Known(s) && (forall k | k in Known(s) :: SourceAt(e.listing, 1) <= k)
      && !e.listing[0].complete && !e.listing[1].complete && !e.listing[2].complete
      && Known(e) == Known(s) + {m.source}
  {
    hide Refines, UsedCount, Answer, Sources, Run, AfterRun, InOrder, Ranked, Acceptable, AtMost, Ingestion;
    NoStep(s);
    OneMore(s, [], Begin);
    run := [] + [Begin];
    BeginUnderway(s);
    TotalIsKnown(s);
    var s1 := Then(s, Begin);
    assert Ranked(s1) by { NothingRanked(s1); }
    run := NextResponse(s, run, s1);
    var s2 := AfterRun(s, run);
    run := NextResponse(s, run, s2);
    var s3 := AfterRun(s, run);
    assert s3.listing[0] == s2.listing[0];
    RankedKnownAt(s3, 1);
    FirstIsLeast(Known(s), SourceAt(s3.listing, 1));
    run := LateSourceDoubles(s, run, s3, m, now);
    assert AfterRun(s, run).listing[0] == s3.listing[0] && AfterRun(s, run).listing[1] == s3.listing[1];
  }

  lemma RankedKnownAt(s: Main, i: nat)
    requires Ranked(s) && 0 < i < |s.listing|
    ensures SourceAt(s.listing, i) in Known(s) && AtMost(Known(s), SourceAt(s.listing, i)) == i
  {
  }

  lemma FirstIsLeast(ks: set<nat>, x: nat)
    requires x in ks && AtMost(ks, x) == 1
    ensures forall k | k in ks :: x <= k
  {
    forall k | k in ks ensures x <= k {
      if k < x { Smaller({k, x}, UpTo(ks, x)); }
    }
  }

  function Full(k: nat): Manifest {
    Manifest(true, true, false, k, 1, [], 0, true, 1, [], [], 0, 0, [], [])
  }

  /** Such states are reached: two sources are heard, and while the hub lists them a third. */
  lemma ListedTwiceReached() returns (before: seq<Step>, run: seq<Step>)
    ensures Run(IDLE, before) && Run(AfterRun(IDLE, before), run)
    ensures var e := AfterRun(AfterRun(IDLE, before), run);
      && Known(e) == {5, 10, 20} && e.index == e.asked == |e.listing| == 3
      && SourceAt(e.listing, 1) == SourceAt(e.listing, 2) == 10 && !Whole(e)
      && forall i | 0 <= i < 3 :: !e.listing[i].complete
  {
    hide Refines, UsedCount, Answer, Run, AfterRun, InOrder, Ingestion, Sources;
    NoStep(IDLE);
    assert Refines(IDLE.cache) by { StartRefines(); }
    assert Known(IDLE) == {} by { NobodyKnown(); }
    var a, b := Ingest(Full(10), 0), Ingest(Full(20), 0);
    OneMore(IDLE, [], a);
    IsNew(IDLE, Full(10), 0);
    IngestKnows(IDLE, a);
    var s1 := Then(IDLE, a);
    OneMore(IDLE, [] + [a], b);
    IsNew(s1, Full(20), 0);
    IngestKnows(s1, b);
    before := [] + [a] + [b];
    var s2 := Then(s1, b);
    assert Known(s2) == {10, 20};
    run := ListedTwice(s2, Full(5), 0);
  }

  lemma NobodyKnown()
    ensures Known(IDLE) == {}
  {
  }
}
