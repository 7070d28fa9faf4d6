/** How often the hub asks a source for its manifest.

    A slot per source remembers when it was last asked and how many times, in 32-bit clock
    time.  Runs are in real time: a call at t sees the clock t modulo 2^32. */
module ManifestThrottle {
  import opened Common

  const CAPACITY: nat := 8
  const FAST_COOLDOWN_MS: nat := 1000
  const COOLDOWN_MS: nat := 3000
  const FAST_ATTEMPTS: nat := 3

  datatype Asked = Asked(source: nat, boot: nat, last: nat, attempts: nat)

  type Slots = s: seq<Option<Asked>> | |s| == CAPACITY witness seq(8, _ => None)

  function SlotOf(s: Slots, source: nat, from: nat): (r: nat)
    requires from <= CAPACITY
    ensures from <= r <= CAPACITY && (forall i | from <= i < r && s[i].Some? :: s[i].value.source != source)
    ensures r < CAPACITY ==> s[r].Some? && s[r].value.source == source
    decreases CAPACITY - from
  {
    if from == CAPACITY || (s[from].Some? && s[from].value.source == source) then from else SlotOf(s, source, from + 1)
  }

  /** All slots below n are taken, and none of them was asked before this one. */
  predicate LongestAgo(s: Slots, oldest: nat, n: nat)
    requires oldest < CAPACITY && n <= CAPACITY
  {
    forall i | 0 <= i < n :: s[oldest].Some? && s[i].Some? && s[oldest].value.last <= s[i].value.last
  }

  lemma StillLongest(s: Slots, oldest: nat, n: nat)
    requires oldest < CAPACITY && n < CAPACITY
    ensures LongestAgo(s, oldest, 0)
    ensures LongestAgo(s, oldest, n) && s[n].Some? && (n == 0 || s[oldest].Some?) ==>
      LongestAgo(s, if n == 0 || s[n].value.last < s[oldest].value.last then n else oldest, n + 1)
  {
  }

  /** The slot for a source that has none: the first free one, or, if all are taken, the first
      of those asked longest ago by the raw clock. */
  function Spare(s: Slots, from: nat, oldest: nat): (r: nat)
    requires from <= CAPACITY && oldest < CAPACITY && (if from == 0 then oldest == 0 else s[oldest].Some?)
    requires LongestAgo(s, oldest, from)
    ensures r < CAPACITY
    ensures s[r].Some? ==> LongestAgo(s, r, CAPACITY)
    decreases CAPACITY - from
  {
    if from == CAPACITY then oldest
    else if s[from].None? then from
    else Spare(s, from + 1, if from == 0 || s[from].value.last < s[oldest].value.last then from else oldest)
  }

  function Cooldown(attempts: nat): nat { if attempts <= FAST_ATTEMPTS then FAST_COOLDOWN_MS else COOLDOWN_MS }

  function Elapsed(now: nat, last: nat): nat { (now + UINT32 - last % UINT32) % UINT32 }

  /** shouldRequestManifest: the slots after it, and whether a request goes out. */
  function Requested(s: Slots, source: nat, boot: nat, now: nat, cachedBoot: Option<nat>): (Slots, bool) {
    if source == 0 || boot == 0 || cachedBoot == Some(boot) then (s, false)
    else
      var i := SlotOf(s, source, 0);
      if i < CAPACITY then
        if Elapsed(now, s[i].value.last) < Cooldown(s[i].value.attempts) then (s, false)
        else (s[i := Some(Asked(source, boot, now, (s[i].value.attempts + 1) % UINT32))], true)
      else (s[Spare(s, 0, 0) := Some(Asked(source, boot, now, 1))], true)
  }

  /** The end of an accepted manifest: the slot of its source is free again. */
  function Answered(s: Slots, source: nat): Slots {
    var i := SlotOf(s, source, 0);
    if i < CAPACITY then s[i := None] else s
  }

  // ----- runs in real time -----

  /** The requests sent to a source since it got its slot: how many, and when the first and
      the last went out. */
  datatype Chase = Chase(count: nat, first: nat, last: nat)

  datatype State = State(slots: Slots, now: nat, chases: map<nat, Chase>)

  datatype Action = Request(source: nat, boot: nat, at: nat, cachedBoot: Option<nat>) | Answer(source: nat, at: nat)

  const START := State(seq(8, _ => None), 0, map[])

  predicate Enabled(s: State, a: Action) { s.now <= a.at }

  function Next(s: State, a: Action): State
    requires Enabled(s, a)
  {
    match a
    case Answer(source, at) => s.(slots := Answered(s.slots, source), now := at)
    case Request(source, boot, at, cachedBoot) =>
      var (slots, sent) := Requested(s.slots, source, boot, at % UINT32, cachedBoot);
      if !sent then s.(now := at)
      else
        var more := SlotOf(s.slots, source, 0) < CAPACITY && source in s.chases;
        var c := if more then Chase(s.chases[source].count + 1, s.chases[source].first, at) else Chase(1, at, at);
        State(slots, at, s.chases[source := c])
  }

  /** The least time that k requests in a row take. */
  function Span(k: nat): nat {
    FAST_COOLDOWN_MS * (if k <= 1 then 0 else if k <= 4 then k - 1 else 3) + COOLDOWN_MS * (if k <= 4 then 0 else k - 4)
  }

  predicate Paced(s: State, i: nat)
    requires i < CAPACITY
  {
    s.slots[i].Some? ==>
      var p := s.slots[i].value;
      && p.source in s.chases
      && var c := s.chases[p.source];
         && c.first <= c.last <= s.now && c.last % UINT32 == p.last && c.count >= 1
         && (c.count < UINT32 ==> p.attempts == c.count && c.last - c.first >= Span(c.count))
  }

  predicate OneSlotEach(s: Slots) {
    forall i, j | 0 <= i < j < CAPACITY && s[i].Some? && s[j].Some? :: s[i].value.source != s[j].value.source
  }

  predicate Inv(s: State) {
    OneSlotEach(s.slots) && forall i | 0 <= i < CAPACITY :: Paced(s, i)
  }

  /** The 32-bit clock never shows more time than has passed. */
  lemma ElapsedIsReal(now: nat, last: nat)
    requires last <= now
    ensures Elapsed(now % UINT32, last % UINT32) <= now - last
  {
    var d := now - last;
    var a, b := now / UINT32, last / UINT32;
    var x, y := now % UINT32, last % UINT32;
    assert now == UINT32 * a + x && last == UINT32 * b + y;
    assert y % UINT32 == y;
    if x >= y {
      assert x + UINT32 - y == UINT32 + (x - y);
      assert (x + UINT32 - y) % UINT32 == x - y;
    } else {
      assert (x + UINT32 - y) % UINT32 == x + UINT32 - y;
      assert a > b;
    }
  }

  lemma SpanGrows(k: nat)
    requires k >= 1
    ensures Span(k + 1) == Span(k) + Cooldown(k)
  {
  }

  lemma RequestKeeps(s: State, a: Action)
    requires Inv(s) && Enabled(s, a) && a.Request?
    ensures Inv(Next(s, a))
  {
    hide Elapsed, Cooldown, Span;
    var s' := Next(s, a);
    var i := SlotOf(s.slots, a.source, 0);
    if Requested(s.slots, a.source, a.boot, a.at % UINT32, a.cachedBoot).1 {
      if i < CAPACITY {
        assert Paced(s, i);
        AgainPaced(s.slots[i].value, s.chases[a.source], a.at);
      } else {
        assert Span(1) == 0 by { FirstSpan(); }
      }
    }
    forall k | 0 <= k < CAPACITY ensures Paced(s', k) {
      assert Paced(s, k);
    }
  }

  lemma FirstSpan()
    ensures Span(1) == 0
  {
  }

  lemma AgainPaced(p: Asked, c: Chase, at: nat)
    requires c.first <= c.last <= at && c.last % UINT32 == p.last && c.count >= 1
    requires c.count < UINT32 ==> p.attempts == c.count && c.last - c.first >= Span(c.count)
    requires Elapsed(at % UINT32, p.last) >= Cooldown(p.attempts)
    ensures c.count + 1 < UINT32 ==>
      (p.attempts + 1) % UINT32 == c.count + 1 && at - c.first >= Span(c.count + 1)
  {
    hide Elapsed, Cooldown, Span;
    ElapsedIsReal(at, c.last);
    SpanGrows(c.count);
  }

  lemma AnswerKeeps(s: State, a: Action)
    requires Inv(s) && Enabled(s, a) && a.Answer?
    ensures Inv(Next(s, a))
  {
    forall k | 0 <= k < CAPACITY ensures Paced(Next(s, a), k) { assert Paced(s, k); }
  }

  ghost predicate Run(s: State, run: seq<Action>)
    decreases |run|
  {
    run == [] || (Enabled(s, run[0]) && Run(Next(s, run[0]), run[1..]))
  }

  function After(s: State, run: seq<Action>): State
    requires Run(s, run)
    decreases |run|
  {
    if run == [] then s else After(Next(s, run[0]), run[1..])
  }

  lemma {:induction false} RunKeeps(s: State, run: seq<Action>)
    requires Inv(s) && Run(s, run)
    ensures Inv(After(s, run))
    decreases |run|
  {
    hide Inv, Next, Enabled;
    if run != [] {
      if run[0].Request? { RequestKeeps(s, run[0]); } else { AnswerKeeps(s, run[0]); }
      RunKeeps(Next(s, run[0]), run[1..]);
    }
  }

  lemma StartHolds()
    ensures Inv(START)
  {
  }

  /** After any run, whatever the boot ids and however often the clock has wrapped: the k
      requests sent to a source since it got the slot it has took at least Span(k)
      milliseconds of real time (k below 2^32, where the counter itself wraps). */
  lemma RequestsArePaced(run: seq<Action>, i: nat)
    requires Run(START, run) && i < CAPACITY
    ensures var s := After(START, run);
      s.slots[i].Some? ==>
        && s.slots[i].value.source in s.chases
        && var c := s.chases[s.slots[i].value.source];
           c.first <= c.last <= s.now && (c.count < UINT32 ==> c.last - c.first >= Span(c.count))
  {
    hide Run, After, Next, Span;
    StartHolds();
    RunKeeps(START, run);
    assert Paced(After(START, run), i);
  }

  // ----- the table -----

  class PendingTable {
    const slots: array<Option<Asked>>

    constructor ()
      ensures slots.Length == CAPACITY && fresh(slots) && forall i | 0 <= i < CAPACITY :: slots[i] == None
    {
      slots := new Option<Asked>[8](_ => None);
    }

    method ShouldRequest(source: nat, boot: nat, now: nat, cachedBoot: Option<nat>) returns (send: bool)
      requires slots.Length == CAPACITY
      modifies slots
      ensures (slots[..], send) == Requested(old(slots[..]), source, boot, now, cachedBoot)
    {
      if source == 0 || boot == 0 || cachedBoot == Some(boot) { return false; }
      hide Elapsed, Cooldown, Spare;
      ghost var was: Slots := slots[..];
      for i := 0 to slots.Length
        invariant slots[..] == was && SlotOf(was, source, 0) == SlotOf(was, source, i)
      {
        if slots[i].Some? && slots[i].value.source == source {
          var p := slots[i].value;
          if Elapsed(now, p.last) < Cooldown(p.attempts) { return false; }
          slots[i] := Some(Asked(source, boot, now, (p.attempts + 1) % UINT32));
          return true;
        }
      }
      var spare := FindSpare();
      slots[spare] := Some(Asked(source, boot, now, 1));
      send := true;
    }

    method FindSpare() returns (r: nat)
      requires slots.Length == CAPACITY
      ensures r < CAPACITY && r == Spare(slots[..], 0, 0)
    {
      hide LongestAgo;
      ghost var was: Slots := slots[..];
      var oldest := 0;
      StillLongest(was, 0, 0);
      for i := 0 to slots.Length
        invariant slots[..] == was && oldest < CAPACITY && (if i == 0 then oldest == 0 else was[oldest].Some?)
        invariant LongestAgo(was, oldest, i)
        invariant Spare(was, 0, 0) == Spare(was, i, oldest)
      {
        if slots[i].None? { return i; }
        StillLongest(was, oldest, i);
        if i == 0 || slots[i].value.last < slots[oldest].value.last { oldest := i; }
      }
      r := oldest;
    }

    method Answer(source: nat)
      requires slots.Length == CAPACITY
      modifies slots
      ensures slots[..] == Answered(old(slots[..]), source)
    {
      ghost var was: Slots := slots[..];
      for i := 0 to slots.Length
        invariant slots[..] == was && SlotOf(was, source, 0) == SlotOf(was, source, i)
      {
        if slots[i].Some? && slots[i].value.source == source {
          slots[i] := None;
          return;
        }
      }
    }
  }
}
