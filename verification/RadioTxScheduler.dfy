/** The weighted choice between the three radio queues.

    A fixed pattern of seven turns gives the classes Critical, Control and Data four, two
    and one of them; an empty class is skipped.  The share and the waiting bounds proved
    here hold whatever the other two classes do. */
module RadioTxScheduler {

  const CRITICAL: nat := 0
  const CONTROL: nat := 1
  const DATA: nat := 2
  const CLASSES: nat := 3

  const SCHEDULE_LENGTH: nat := 7
  const PATTERN: seq<nat> := [CRITICAL, CRITICAL, CONTROL, CRITICAL, CONTROL, CRITICAL, DATA]

  datatype Selection = Selection(found: bool, priority: nat, nextCursor: nat)

  type Available = s: seq<bool> | |s| == 3 witness [false, false, false]

  /** The first turn from the cursor on, among so many, whose class is available. */
  function ChooseFrom(available: Available, cursor: nat, attempts: nat): (r: Selection)
    requires cursor < SCHEDULE_LENGTH
    ensures r.nextCursor < SCHEDULE_LENGTH && r.priority < CLASSES
    ensures r.found ==> available[r.priority]
    decreases attempts
  {
    if attempts == 0 then Selection(false, CRITICAL, cursor)
    else
      var next := (cursor + 1) % SCHEDULE_LENGTH;
      if available[PATTERN[cursor]] then Selection(true, PATTERN[cursor], next)
      else ChooseFrom(available, next, attempts - 1)
  }

  function Choice(available: Available, cursor: nat): Selection {
    ChooseFrom(available, cursor % SCHEDULE_LENGTH, SCHEDULE_LENGTH)
  }

  /** choose. */
  method Choose(available: array?<bool>, cursor: nat) returns (r: Selection)
    requires available != null ==> available.Length == CLASSES
    ensures available == null ==> r == Selection(false, CRITICAL, 0)
    ensures available != null ==> r == Choice(available[..], cursor)
  {
    if available == null {
      return Selection(false, CRITICAL, 0);
    }
    var c := cursor % SCHEDULE_LENGTH;
    ghost var av: Available := available[..];
    for attempt := 0 to SCHEDULE_LENGTH
      invariant 0 <= c < SCHEDULE_LENGTH && av == available[..]
      invariant ChooseFrom(av, c, SCHEDULE_LENGTH - attempt) == Choice(av, cursor)
    {
      var candidate := PATTERN[c];
      c := (c + 1) % SCHEDULE_LENGTH;
      assert candidate < CLASSES;
      if available[candidate] {
        return Selection(true, candidate, c);
      }
    }
    return Selection(false, CRITICAL, c);
  }

  // ----- turns of a class in a stretch of the pattern, unrolled without end -----

  function Hit(k: nat, x: nat): nat {
    if PATTERN[x % SCHEDULE_LENGTH] == k then 1 else 0
  }

  /** How many of the d turns from x on belong to class k. */
  function Turns(k: nat, x: nat, d: nat): nat
    decreases d
  {
    if d == 0 then 0 else Hit(k, x) + Turns(k, x + 1, d - 1)
  }

  lemma {:induction false} TurnsAdd(k: nat, x: nat, d: nat, e: nat)
    ensures Turns(k, x, d + e) == Turns(k, x, d) + Turns(k, x + d, e)
    decreases d
  {
    if d > 0 {
      TurnsAdd(k, x + 1, d - 1, e);
    }
  }

  function Weight(k: nat): nat
    requires k < CLASSES
  {
    if k == CRITICAL then 4 else if k == CONTROL then 2 else 1
  }

  /** The longest stretch of the pattern without a turn of class k, plus one. */
  function Gap(k: nat): nat
    requires k < CLASSES
  {
    if k == CRITICAL then 2 else if k == CONTROL then 5 else 7
  }

  lemma RoundMod(x: nat)
    ensures (x + SCHEDULE_LENGTH) % SCHEDULE_LENGTH == x % SCHEDULE_LENGTH
  {
  }

  lemma {:induction false} TurnsPeriodic(k: nat, x: nat, d: nat)
    ensures Turns(k, x + SCHEDULE_LENGTH, d) == Turns(k, x, d)
    decreases d
  {
    if d > 0 {
      RoundMod(x);
      TurnsPeriodic(k, x + 1, d - 1);
    }
  }

  lemma {:induction false} TurnsFromCursor(k: nat, x: nat, d: nat)
    ensures Turns(k, x, d) == Turns(k, x % SCHEDULE_LENGTH, d)
    decreases x
  {
    if x >= SCHEDULE_LENGTH {
      RoundMod(x - SCHEDULE_LENGTH);
      TurnsPeriodic(k, x - SCHEDULE_LENGTH, d);
      TurnsFromCursor(k, x - SCHEDULE_LENGTH, d);
    }
  }

  /** A full round holds the weight of a class, a gap at least one of its turns. */
  lemma RoundAndGap(k: nat, x: nat)
    requires k < CLASSES
    ensures Turns(k, x, SCHEDULE_LENGTH) == Weight(k)
    ensures Turns(k, x, Gap(k)) >= 1
  {
    hide Turns;
    TurnsFromCursor(k, x, SCHEDULE_LENGTH);
    TurnsFromCursor(k, x, Gap(k));
    RoundFrom(k, x % SCHEDULE_LENGTH);
  }

  lemma RoundFrom(k: nat, c: nat)
    requires k < CLASSES && c < SCHEDULE_LENGTH
    ensures Turns(k, c, SCHEDULE_LENGTH) == Weight(k)
    ensures Turns(k, c, Gap(k)) >= 1
  {
    hide Turns;
    UnrollTurns(k, c);
    assert c == 0 || c == 1 || c == 2 || c == 3 || c == 4 || c == 5 || c == 6;
  }

  lemma UnrollTurns(k: nat, c: nat)
    ensures Turns(k, c, 2) == Hit(k, c) + Hit(k, c + 1)
    ensures Turns(k, c, 5) == Hit(k, c) + Hit(k, c + 1) + Hit(k, c + 2) + Hit(k, c + 3) + Hit(k, c + 4)
    ensures Turns(k, c, 7) == Hit(k, c) + Hit(k, c + 1) + Hit(k, c + 2) + Hit(k, c + 3) + Hit(k, c + 4)
                              + Hit(k, c + 5) + Hit(k, c + 6)
  {
    hide Hit;
    assert Turns(k, c + 5, 2) == Hit(k, c + 5) + Turns(k, c + 6, 1);
    assert Turns(k, c + 3, 4) == Hit(k, c + 3) + Turns(k, c + 4, 3);
    assert Turns(k, c + 3, 2) == Hit(k, c + 3) + Turns(k, c + 4, 1);
    assert Turns(k, c + 1, 4) == Hit(k, c + 1) + Turns(k, c + 2, 3);
    assert Turns(k, c + 1, 6) == Hit(k, c + 1) + Turns(k, c + 2, 5);
  }

  // ----- what one choice does to the cursor -----

  /** A choice moves over d turns.  Of every available class it moves over no turn but, if
      that class is chosen, its last one. */
  lemma {:induction false} ChooseAdvances(available: Available, x: nat, n: nat) returns (d: nat)
    ensures var r := ChooseFrom(available, x % SCHEDULE_LENGTH, n);
      if r.found then
        1 <= d <= n && r.nextCursor == (x + d) % SCHEDULE_LENGTH
        && forall k | 0 <= k < CLASSES && available[k] :: Turns(k, x, d) == if r.priority == k then 1 else 0
      else
        forall k | 0 <= k < CLASSES && available[k] :: Turns(k, x, n) == 0
    decreases n
  {
    d := 0;
    if n > 0 {
      if available[PATTERN[x % SCHEDULE_LENGTH]] {
        d := 1;
        assert forall k | 0 <= k < CLASSES :: Turns(k, x, 1) == Hit(k, x);
      } else {
        var rest := ChooseAdvances(available, x + 1, n - 1);
        d := rest + 1;
      }
    }
  }

  lemma ChoiceAdvances(available: Available, x: nat, k: nat) returns (d: nat)
    requires k < CLASSES && available[k]
    ensures var r := Choice(available, x % SCHEDULE_LENGTH);
      r.found && 1 <= d <= SCHEDULE_LENGTH && r.nextCursor == (x + d) % SCHEDULE_LENGTH
      && Turns(k, x, d) == if r.priority == k then 1 else 0
  {
    hide Turns, ChooseFrom;
    RoundAndGap(k, x);
    d := ChooseAdvances(available, x, SCHEDULE_LENGTH);
  }

  // ----- weighted share -----

  /** The choices made one after the other for the given availabilities. */
  function Choices(avs: seq<Available>, cursor: nat): (r: seq<Selection>)
    ensures |r| == |avs|
  {
    if avs == [] then []
    else
      var first := Choice(avs[0], cursor);
      [first] + Choices(avs[1..], first.nextCursor)
  }

  function Count(sel: seq<Selection>, k: nat): nat {
    if sel == [] then 0 else (if sel[0].found && sel[0].priority == k then 1 else 0) + Count(sel[1..], k)
  }

  lemma {:induction false} ChoicesCover(avs: seq<Available>, x: nat, k: nat) returns (d: nat)
    requires k < CLASSES && forall i | 0 <= i < |avs| :: avs[i][k]
    ensures d >= |avs| && Count(Choices(avs, x % SCHEDULE_LENGTH), k) == Turns(k, x, d)
  {
    hide Turns, Choice;
    d := 0;
    if avs == [] {
      assert Turns(k, x, 0) == 0 by { NoTurns(k, x); }
    } else {
      var first := ChoiceAdvances(avs[0], x, k);
      var rest := ChoicesCover(avs[1..], x + first, k);
      TurnsAdd(k, x, first, rest);
      d := first + rest;
    }
  }

  lemma NoTurns(k: nat, x: nat)
    ensures Turns(k, x, 0) == 0
  {
  }

  lemma {:induction false} TurnsInRounds(k: nat, x: nat, d: nat)
    requires k < CLASSES
    ensures Turns(k, x, d) >= d / SCHEDULE_LENGTH * Weight(k)
    decreases d
  {
    hide Turns;
    if d >= SCHEDULE_LENGTH {
      TurnsAdd(k, x, SCHEDULE_LENGTH, d - SCHEDULE_LENGTH);
      RoundAndGap(k, x);
      TurnsInRounds(k, x + SCHEDULE_LENGTH, d - SCHEDULE_LENGTH);
      assert d / SCHEDULE_LENGTH == (d - SCHEDULE_LENGTH) / SCHEDULE_LENGTH + 1;
    } else {
      assert d / SCHEDULE_LENGTH == 0;
    }
  }

  lemma {:induction false} TurnsMonotone(k: nat, x: nat, d: nat, e: nat)
    requires d <= e
    ensures Turns(k, x, d) <= Turns(k, x, e)
  {
    TurnsAdd(k, x, d, e - d);
  }

  /** In any run of choices through which a class is never empty, it is chosen at least four,
      two or one times in every full seven, whatever the other classes do. */
  lemma WeightedShare(avs: seq<Available>, cursor: nat, k: nat)
    requires k < CLASSES && cursor < SCHEDULE_LENGTH && forall i | 0 <= i < |avs| :: avs[i][k]
    ensures Count(Choices(avs, cursor), k) >= |avs| / SCHEDULE_LENGTH * Weight(k)
  {
    hide Turns, Choices, Count;
    var d := ChoicesCover(avs, cursor, k);
    TurnsInRounds(k, cursor, |avs|);
    TurnsMonotone(k, cursor, |avs|, d);
  }

  // ----- bounded waiting -----

  /** A queue as everything ever offered to it and how much of that has been dequeued. */
  datatype Lane<T> = Lane(all: seq<T>, head: nat) {
    predicate Valid() { head <= |all| }
    function Waiting(): seq<T> requires Valid() { all[head..] }
  }

  datatype Queues<T> = Queues(lanes: seq<Lane<T>>, cursor: nat) {
    predicate Valid() {
      |lanes| == CLASSES && (forall k | 0 <= k < CLASSES :: lanes[k].Valid()) && cursor < SCHEDULE_LENGTH
    }

    function Ready(): Available
      requires Valid()
    {
      [lanes[0].head < |lanes[0].all|, lanes[1].head < |lanes[1].all|, lanes[2].head < |lanes[2].all|]
    }
  }

  datatype Event<T> = Offer(k: nat, item: T) | Take

  /** An accepted frame goes to the end of its queue; a dequeue takes the first frame of the
      class chosen, and moves only the cursor if all queues are empty. */
  function After<T>(q: Queues<T>, e: Event<T>): (r: Queues<T>)
    requires q.Valid() && (e.Offer? ==> e.k < CLASSES)
    ensures r.Valid()
  {
    match e
    case Offer(k, item) => q.(lanes := q.lanes[k := q.lanes[k].(all := q.lanes[k].all + [item])])
    case Take =>
      var s := Choice(q.Ready(), q.cursor);
      if s.found then
        var lane := q.lanes[s.priority];
        ChoiceIsReady(q.Ready(), q.cursor);
        Queues(q.lanes[s.priority := lane.(head := lane.head + 1)], s.nextCursor)
      else q.(cursor := s.nextCursor)
  }

  lemma ChoiceIsReady(available: Available, cursor: nat)
    ensures var s := Choice(available, cursor);
      s.found ==> available[s.priority]
  {
  }

  predicate Legal<T>(events: seq<Event<T>>) {
    forall i | 0 <= i < |events| :: events[i].Offer? ==> events[i].k < CLASSES
  }

  function AfterAll<T>(q: Queues<T>, events: seq<Event<T>>): (r: Queues<T>)
    requires q.Valid() && Legal(events)
    ensures r.Valid()
    decreases |events|
  {
    if events == [] then q else AfterAll(After(q, events[0]), events[1..])
  }

  function Takes<T>(events: seq<Event<T>>): nat {
    if events == [] then 0 else (if events[0].Take? then 1 else 0) + Takes(events[1..])
  }

  /** Queues keep what they hold: nothing is lost, changed or put back. */
  lemma {:induction false} LanesGrow<T>(q: Queues<T>, events: seq<Event<T>>, k: nat)
    requires q.Valid() && Legal(events) && k < CLASSES
    ensures var r := AfterAll(q, events);
      q.lanes[k].all <= r.lanes[k].all && q.lanes[k].head <= r.lanes[k].head
    decreases |events|
  {
    hide Choice;
    if events != [] {
      LanesGrow(After(q, events[0]), events[1..], k);
    }
  }

  /** Either the head of the lane has passed the target, or it has moved as often as class k
      has a turn in a stretch of the pattern no shorter than the number of dequeues. */
  lemma {:induction false} HeadMoves<T>(q: Queues<T>, events: seq<Event<T>>, k: nat, target: nat, x: nat) returns (d: nat)
    requires q.Valid() && Legal(events) && k < CLASSES && q.cursor == x % SCHEDULE_LENGTH
    requires target <= |q.lanes[k].all|
    ensures var r := AfterAll(q, events);
      r.lanes[k].head >= target || (d >= Takes(events) && r.lanes[k].head == q.lanes[k].head + Turns(k, x, d))
    decreases |events|
  {
    hide Turns, Choice;
    d := 0;
    if events == [] {
      NoTurns(k, x);
    } else {
      var q' := After(q, events[0]);
      if events[0].Offer? {
        d := HeadMoves(q', events[1..], k, target, x);
      } else if q.lanes[k].head >= target {
        LanesGrow(q, events, k);
      } else {
        assert q.Ready()[k];
        var first := ChoiceAdvances(q.Ready(), x, k);
        var rest := HeadMoves(q', events[1..], k, target, x + first);
        TurnsAdd(k, x, first, rest);
        d := first + rest;
      }
    }
  }

  lemma {:induction false} TurnsInGaps(k: nat, x: nat, n: nat)
    requires k < CLASSES
    ensures Turns(k, x, Gap(k) * n) >= n
    decreases n
  {
    hide Turns;
    if n > 0 {
      RoundAndGap(k, x);
      TurnsInGaps(k, x + Gap(k), n - 1);
      TurnsAdd(k, x, Gap(k), Gap(k) * (n - 1));
      assert Gap(k) * n == Gap(k) + Gap(k) * (n - 1);
    }
  }

  /** A frame with p frames before it in its queue leaves within 2(p+1), 5(p+1) or 7(p+1)
      dequeues, whatever is offered to whichever queue in between. */
  lemma BoundedWaiting<T>(q: Queues<T>, events: seq<Event<T>>, k: nat, p: nat)
    requires q.Valid() && Legal(events) && k < CLASSES
    requires p < |q.lanes[k].Waiting()|
    requires Takes(events) >= Gap(k) * (p + 1)
    ensures AfterAll(q, events).lanes[k].head > q.lanes[k].head + p
  {
    hide Turns, AfterAll, Gap;
    var d := HeadMoves(q, events, k, q.lanes[k].head + p + 1, q.cursor);
    if d >= Takes(events) {
      TurnsInGaps(k, q.cursor, p + 1);
      TurnsMonotone(k, q.cursor, Gap(k) * (p + 1), d);
    }
  }
}
