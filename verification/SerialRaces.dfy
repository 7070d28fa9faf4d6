/** The session on the cable with the other task in between.

    tick, enter and transport loss run on the main loop; relayUp runs on the task that receives
    from the radio.  It tests whether a session has the port and puts its frame into a queue
    later, with no lock over both, so the main loop can end the session between the two.  The
    main loop is taken in steps as well, down to the single frame that it queues or begins to
    send: a producer can come between any two of them.

    `passed`, `queuedAt` and `pending` are a history of the producers, each named by a ticket:
    how many cleanups had run when it passed its test and when it queued its frame, and which
    of them are between the two. */
module SerialRaces {
  import opened SerialQueues
  import opened SerialSession

  datatype Phase = Resting | Receiving | Ending | Polling | Sending

  datatype State = State(mux: Mux, phase: Phase, passed: map<nat, nat>, pending: set<nat>, queuedAt: map<nat, nat>)

  datatype Action =
    | Enter
    | TickBegins
    | TakeFrame(rx: Rx)
    | PumpEnds
    | Poll(expired: bool)
    | CleanUp
    | Queue(c: nat, f: Frame)
    | Dequeue(c: nat)
    | TickEnds
    | TransportLost
    | Check(t: nat)
    | Enqueue(t: nat, c: nat, f: Frame)
    | Abandon(t: nat)

  const INIT := State(START, Resting, map[], {}, map[])

  predicate Enabled(s: State, a: Action) {
    match a
    case Enter => s.phase == Resting
    case TickBegins => s.phase == Resting
    case TransportLost => s.phase == Resting
    case TakeFrame(rx) => s.phase == Receiving && Possible(s.mux.node, rx.event) && Queueable(rx.queued)
    case PumpEnds => s.phase == Receiving
    case Poll(_) => s.phase == Polling
    case CleanUp => s.phase == Ending
    case Queue(c, _) => (s.phase == Receiving || s.phase == Sending) && OwnerOf(s.mux) == Protocolled && c < CLASS_COUNT
    case Dequeue(c) => s.phase == Sending && OwnerOf(s.mux) == Protocolled && c < CLASS_COUNT && s.mux.queues[c] != []
    case TickEnds => s.phase == Sending
    case Check(t) => t !in s.passed
    case Enqueue(t, c, f) => t in s.pending && c < CLASS_COUNT && |f| <= FRAME_CAP[c]
    case Abandon(t) => t in s.pending
  }

  function Next(s: State, a: Action): State
    requires Enabled(s, a)
  {
    var m := s.mux;
    match a
    case Enter => s.(mux := Entered(m))
    case TickBegins => if OwnerOf(m) == Console then s else s.(mux := m.(busy := true), phase := Receiving)
    case TakeFrame(rx) => s.(mux := Moved(m, rx), phase := if EndsSession(rx.event) then Ending else Receiving)
    case PumpEnds => s.(phase := Polling)
    case Poll(expired) =>
      var (q, timedOut) := Polled(m, expired);
      s.(mux := q, phase := if timedOut then Ending else Sending)
    case CleanUp => s.(mux := Cleaned(m), phase := Resting)
    case Queue(c, f) => s.(mux := m.(queues := Queued(m.queues, c, f)))
    case Dequeue(c) =>
      s.(mux := m.(queues := m.queues[c := m.queues[c][1..]], wired := m.wired + [m.queues[c][0]]))
    case TickEnds => s.(phase := Resting)
    case TransportLost =>
      s.(mux := m.(latched := false, node := NodeIdle), phase := if m.node.NodeIdle? then Resting else Ending)
    case Check(t) =>
      if OwnerOf(m) == Protocolled then s.(passed := s.passed[t := m.cleanups], pending := s.pending + {t}) else s
    case Enqueue(t, c, f) =>
      s.(mux := m.(queues := Queued(m.queues, c, f)), pending := s.pending - {t},
         queuedAt := s.queuedAt[t := m.cleanups])
    case Abandon(t) => s.(pending := s.pending - {t})
  }

  // ----- one cleanup for every session -----

  /** A session that runs, or one that has ended and is still to be cleaned up after. */
  function Running(s: State): nat { if OwnerOf(s.mux) != Console || s.phase == Ending then 1 else 0 }

  predicate Balanced(s: State) {
    && s.mux.begun == s.mux.cleanups + Running(s)
    && (s.mux.latched ==> s.mux.node.NodeIdle? && (s.phase == Receiving || s.phase == Polling))
    && (s.phase == Ending ==> OwnerOf(s.mux) == Console)
    && (s.phase == Receiving || s.phase == Polling || s.phase == Sending ==> OwnerOf(s.mux) != Console)
    && (Running(s) == 0 ==> !s.mux.busy)
  }

  /** Every step of either task: no latch outlives the tick, the cleanup runs for a session
      that has ended and for no other, and the port goes to the console idle. */
  lemma StepBalanced(s: State, a: Action)
    requires Balanced(s) && Enabled(s, a)
    ensures Balanced(Next(s, a))
    ensures Next(s, a).mux.cleanups == s.mux.cleanups + if a.CleanUp? then 1 else 0
    ensures a.CleanUp? ==> Running(s) == 1 && Running(Next(s, a)) == 0
    ensures Running(s) == 1 && Running(Next(s, a)) == 0 ==> a.CleanUp?
  {
    hide Queued, QueuedAll, Drained;
  }

  // ----- what the console finds in the queues -----

  /** A producer passed its test before the last cleanup and queued its frame after it. */
  predicate Late(s: State) {
    exists t :: t in s.passed && t in s.queuedAt && s.passed[t] < s.mux.cleanups == s.queuedAt[t]
  }

  predicate Tickets(s: State) {
    && s.pending <= s.passed.Keys && s.queuedAt.Keys <= s.passed.Keys && s.pending !! s.queuedAt.Keys
    && (forall t | t in s.passed :: s.passed[t] <= s.mux.cleanups)
    && (forall t | t in s.queuedAt :: s.passed[t] <= s.queuedAt[t] <= s.mux.cleanups)
  }

  predicate LeftOver(s: State) {
    Running(s) == 0 ==>
      && (forall t | t in s.pending :: t in s.passed && s.passed[t] < s.mux.cleanups)
      && (s.mux.queues == EMPTY_QUEUES <==> !Late(s))
  }

  predicate Inv(s: State) { Balanced(s) && Tickets(s) && LeftOver(s) }

  lemma PutIsThere(q: Queues, c: nat, f: Frame)
    requires c < CLASS_COUNT && |f| <= FRAME_CAP[c]
    ensures Queued(q, c, f) != EMPTY_QUEUES
  {
    assert Queued(q, c, f)[c] != [];
  }

  lemma StepTickets(s: State, a: Action)
    requires Balanced(s) && Tickets(s) && Enabled(s, a)
    ensures Tickets(Next(s, a))
  {
    hide Queued, QueuedAll, Drained;
  }

  lemma StepLeftOver(s: State, a: Action)
    requires Inv(s) && Enabled(s, a)
    ensures LeftOver(Next(s, a))
  {
    hide Queued, QueuedAll, Drained, Late;
    var s' := Next(s, a);
    StepBalanced(s, a);
    if Running(s') == 0 {
      match a
      case CleanUp => NobodyYet(s, s');
      case Enqueue(t, c, f) =>
        PutIsThere(s.mux.queues, c, f);
        assert Late(s') by { NowLate(s, s', t); }
      case _ => SameLate(s, s');
    }
  }

  lemma NobodyYet(s: State, s': State)
    requires Tickets(s) && s'.mux.cleanups == s.mux.cleanups + 1 && s'.queuedAt == s.queuedAt && s'.passed == s.passed
    ensures !Late(s')
  {
  }

  lemma NowLate(s: State, s': State, t: nat)
    requires t in s.passed && s.passed[t] < s.mux.cleanups == s'.mux.cleanups && s'.passed == s.passed
    requires s'.queuedAt == s.queuedAt[t := s.mux.cleanups]
    ensures Late(s')
  {
    assert t in s'.passed && t in s'.queuedAt;
  }

  lemma SameLate(s: State, s': State)
    requires s'.passed == s.passed && s'.queuedAt == s.queuedAt && s'.mux.cleanups == s.mux.cleanups
    ensures Late(s') <==> Late(s)
  {
  }

  lemma StepKeeps(s: State, a: Action)
    requires Inv(s) && Enabled(s, a)
    ensures Inv(Next(s, a))
  {
    hide Balanced, Tickets, LeftOver, Next;
    StepBalanced(s, a);
    StepTickets(s, a);
    StepLeftOver(s, a);
  }

  // ----- runs -----

  ghost predicate Run(s: State, run: seq<Action>)
    decreases |run|, 0
  {
    run == [] || (Run(s, run[..|run| - 1]) && Enabled(AfterRun(s, run[..|run| - 1]), run[|run| - 1]))
  }

  ghost function AfterRun(s: State, run: seq<Action>): State
    requires Run(s, run)
    decreases |run|, 1
  {
    if run == [] then s else Next(AfterRun(s, run[..|run| - 1]), run[|run| - 1])
  }

  lemma {:induction false} RunKeeps(s: State, run: seq<Action>)
    requires Inv(s) && Run(s, run)
    ensures Inv(AfterRun(s, run))
    decreases |run|
  {
    hide Inv, Next, Enabled;
    if run != [] {
      RunKeeps(s, run[..|run| - 1]);
      StepKeeps(AfterRun(s, run[..|run| - 1]), run[|run| - 1]);
    }
  }

  lemma InitHolds()
    ensures Inv(INIT)
  {
  }

  /** Over every run of both tasks: the cleanup has run exactly once for every session that has
      ended, and once it has, no frame is half sent, no block and no line half received. */
  lemma ExactlyOnce(run: seq<Action>)
    requires Run(INIT, run)
    ensures var s := AfterRun(INIT, run);
      && s.mux.begun == s.mux.cleanups + (if OwnerOf(s.mux) != Console || s.phase == Ending then 1 else 0)
      && (s.phase == Resting ==> !s.mux.latched && (OwnerOf(s.mux) == Console ==> !s.mux.busy))
  {
    hide *;
    InitHolds();
    RunKeeps(INIT, run);
    InvMeans(AfterRun(INIT, run));
  }

  lemma InvMeans(s: State)
    requires Inv(s)
    ensures s.mux.begun == s.mux.cleanups + if OwnerOf(s.mux) != Console || s.phase == Ending then 1 else 0
    ensures s.phase == Resting ==> !s.mux.latched && (OwnerOf(s.mux) == Console ==> !s.mux.busy)
    ensures s.phase == Resting && OwnerOf(s.mux) == Console ==> (s.mux.queues == EMPTY_QUEUES <==> !Late(s))
  {
  }

  // ----- when the console is clean -----

  /** Step i of the run is a test that a producer passes. */
  ghost predicate PassesAt(run: seq<Action>, i: nat, t: nat) {
    i < |run| && run[i] == Check(t) && Run(INIT, run[..i])
    && t !in AfterRun(INIT, run[..i]).passed && OwnerOf(AfterRun(INIT, run[..i]).mux) == Protocolled
  }

  /** Step k puts the frame of a producer into a queue. */
  ghost predicate QueuesAt(run: seq<Action>, k: nat, t: nat) {
    k < |run| && run[k].Enqueue? && run[k].t == t
  }

  function Cleanups(run: seq<Action>): nat {
    if run == [] then 0 else Cleanups(run[..|run| - 1]) + if run[|run| - 1].CleanUp? then 1 else 0
  }

  /** A producer passes its test before the last cleanup of the run and queues its frame after
      it. */
  ghost predicate LateIn(run: seq<Action>) {
    exists i: nat, k: nat, t: nat ::
      PassesAt(run, i, t) && QueuesAt(run, k, t) && Cleanups(run[..i]) < Cleanups(run) == Cleanups(run[..k])
  }

  lemma StepCounts(s: State, a: Action)
    requires Enabled(s, a)
    ensures Next(s, a).mux.cleanups == s.mux.cleanups + if a.CleanUp? then 1 else 0
  {
    hide Queued, QueuedAll, Drained;
  }

  lemma {:induction false} RunCounts(run: seq<Action>)
    requires Run(INIT, run)
    ensures AfterRun(INIT, run).mux.cleanups == Cleanups(run)
    decreases |run|
  {
    hide Enabled, Next;
    if run != [] {
      RunCounts(run[..|run| - 1]);
      StepCounts(AfterRun(INIT, run[..|run| - 1]), run[|run| - 1]);
    }
  }

  /** What the history has on record stays there. */
  predicate Extends(s: State, s': State) {
    && (forall t | t in s.passed :: t in s'.passed && s'.passed[t] == s.passed[t])
    && (forall t | t in s.queuedAt :: t in s'.queuedAt && s'.queuedAt[t] == s.queuedAt[t])
  }

  lemma StepExtends(s: State, a: Action)
    requires Tickets(s) && Enabled(s, a)
    ensures Extends(s, Next(s, a))
  {
    hide Queued, QueuedAll, Drained;
  }

  lemma {:induction false} PrefixExtends(run: seq<Action>, i: nat)
    requires Run(INIT, run) && i <= |run|
    ensures Run(INIT, run[..i]) && Extends(AfterRun(INIT, run[..i]), AfterRun(INIT, run))
    decreases |run|
  {
    hide Next, Enabled, Balanced, LeftOver, Tickets;
    if i == |run| {
      assert run[..i] == run;
    } else {
      var front := run[..|run| - 1];
      assert front[..i] == run[..i];
      PrefixExtends(front, i);
      InitHolds();
      RunKeeps(INIT, front);
      StepExtends(AfterRun(INIT, front), run[|run| - 1]);
    }
  }

  lemma StepIn(run: seq<Action>, i: nat)
    requires Run(INIT, run) && i < |run|
    ensures Run(INIT, run[..i]) && Enabled(AfterRun(INIT, run[..i]), run[i])
    ensures Run(INIT, run[..i + 1]) && AfterRun(INIT, run[..i + 1]) == Next(AfterRun(INIT, run[..i]), run[i])
  {
    hide Next, Enabled, Extends;
    PrefixExtends(run, i + 1);
    assert run[..i + 1][..i] == run[..i];
  }

  lemma PassIsRecorded(run: seq<Action>, i: nat, t: nat)
    requires Run(INIT, run) && PassesAt(run, i, t)
    ensures t in AfterRun(INIT, run).passed && AfterRun(INIT, run).passed[t] == Cleanups(run[..i])
  {
    hide Run, AfterRun, Cleanups, Enabled, Queued, QueuedAll, Drained;
    StepIn(run, i);
    RunCounts(run[..i]);
    PrefixExtends(run, i + 1);
  }

  lemma QueueIsRecorded(run: seq<Action>, k: nat, t: nat)
    requires Run(INIT, run) && QueuesAt(run, k, t)
    ensures t in AfterRun(INIT, run).queuedAt && AfterRun(INIT, run).queuedAt[t] == Cleanups(run[..k])
  {
    hide Run, AfterRun, Cleanups, Enabled, Queued, QueuedAll, Drained;
    StepIn(run, k);
    RunCounts(run[..k]);
    PrefixExtends(run, k + 1);
  }

  lemma {:induction false} RecordedPass(run: seq<Action>, t: nat) returns (i: nat)
    requires Run(INIT, run) && t in AfterRun(INIT, run).passed
    ensures PassesAt(run, i, t)
    decreases |run|
  {
    hide Enabled, Queued, QueuedAll, Drained, Cleanups;
    var front := run[..|run| - 1];
    if t in AfterRun(INIT, front).passed {
      i := RecordedPass(front, t);
      assert front[..i] == run[..i];
    } else {
      i := |run| - 1;
    }
  }

  lemma {:induction false} RecordedQueue(run: seq<Action>, t: nat) returns (k: nat)
    requires Run(INIT, run) && t in AfterRun(INIT, run).queuedAt
    ensures QueuesAt(run, k, t)
    decreases |run|
  {
    hide Enabled, Queued, QueuedAll, Drained, Cleanups;
    var front := run[..|run| - 1];
    if t in AfterRun(INIT, front).queuedAt {
      k := RecordedQueue(front, t);
    } else {
      k := |run| - 1;
    }
  }

  lemma LateIsLateIn(run: seq<Action>)
    requires Run(INIT, run)
    ensures Late(AfterRun(INIT, run)) <==> LateIn(run)
  {
    hide Run, AfterRun, Cleanups;
    var s := AfterRun(INIT, run);
    RunCounts(run);
    if Late(s) {
      var t :| t in s.passed && t in s.queuedAt && s.passed[t] < s.mux.cleanups == s.queuedAt[t];
      var i := RecordedPass(run, t);
      var k := RecordedQueue(run, t);
      PassIsRecorded(run, i, t);
      QueueIsRecorded(run, k, t);
      assert PassesAt(run, i, t) && QueuesAt(run, k, t);
    }
    if LateIn(run) {
      var i: nat, k: nat, t: nat :|
        PassesAt(run, i, t) && QueuesAt(run, k, t) && Cleanups(run[..i]) < Cleanups(run) == Cleanups(run[..k]);
      PassIsRecorded(run, i, t);
      QueueIsRecorded(run, k, t);
      assert t in s.passed && t in s.queuedAt;
    }
  }

  /** After any run, the console finds the queues empty exactly if no producer that passed its
      test before the last cleanup has queued its frame after it. */
  lemma CleanConsole(run: seq<Action>)
    requires Run(INIT, run)
    ensures var s := AfterRun(INIT, run);
      s.phase == Resting && OwnerOf(s.mux) == Console ==> (s.mux.queues == EMPTY_QUEUES <==> !LateIn(run))
  {
    hide *;
    InitHolds();
    RunKeeps(INIT, run);
    InvMeans(AfterRun(INIT, run));
    LateIsLateIn(run);
  }

  // ----- a run in which it is not -----

  /** One more step at the end of a run. */
  lemma Then(s: State, run: seq<Action>, a: Action)
    requires Run(s, run) && Enabled(AfterRun(s, run), a)
    ensures Run(s, run + [a]) && AfterRun(s, run + [a]) == Next(AfterRun(s, run), a)
  {
    hide Enabled, Next;
    assert (run + [a])[..|run|] == run;
  }

  /** From every state in which a session rests: a producer passes its test, the desktop closes
      the session, the cleanup empties the queues, and then the frame is queued.  Entering again
      leaves it there, so it is sent to the desktop as part of the next session. */
  lemma LateFrameCrosses(s: State, t: nat, c: nat, f: Frame) returns (run: seq<Action>)
    requires s.phase == Resting && s.mux.node.Active? && !s.mux.latched
    requires t !in s.passed && c < CLASS_COUNT && |f| <= FRAME_CAP[c]
    ensures Run(s, run) && AfterRun(s, run).phase == Resting && OwnerOf(AfterRun(s, run).mux) == Negotiating
    ensures AfterRun(s, run).mux.queues == EMPTY_QUEUES[c := [f]]
    ensures AfterRun(s, run).mux.begun == s.mux.begun + 1 && AfterRun(s, run).mux.cleanups == s.mux.cleanups + 1
  {
    hide Run, AfterRun;
    var close := TakeFrame(Rx(SessionClosed, [], []));
    NoStep(s);
    Then(s, [], Check(t));
    var s1 := s.(passed := s.passed[t := s.mux.cleanups], pending := s.pending + {t});
    run := [] + [Check(t)];
    Then(s, run, TickBegins);
    run := run + [TickBegins];
    Then(s, run, close);
    run := run + [close];
    Then(s, run, CleanUp);
    run := run + [CleanUp];
    var s4 := s1.(mux := Mux(NodeIdle, false, false, EMPTY_QUEUES, s.mux.wired, s.mux.begun, s.mux.cleanups + 1));
    assert AfterRun(s, run) == s4;
    Then(s, run, Enqueue(t, c, f));
    run := run + [Enqueue(t, c, f)];
    assert Queued(EMPTY_QUEUES, c, f) == EMPTY_QUEUES[c := [f]] by { assert EMPTY_QUEUES[c] + [f] == [f]; }
    Then(s, run, Enter);
    run := run + [Enter];
  }

  lemma NoStep(s: State)
    ensures Run(s, []) && AfterRun(s, []) == s
  {
  }

  /** Such states are reached. */
  lemma SessionReached() returns (run: seq<Action>)
    ensures Run(INIT, run)
    ensures var s := AfterRun(INIT, run);
      s.phase == Resting && s.mux.node.Active? && !s.mux.latched && s.passed == map[]
  {
    hide Run, AfterRun;
    var hello := TakeFrame(Rx(HelloAccepted, [], []));
    NoStep(INIT);
    Then(INIT, [], Enter);
    run := [] + [Enter];
    Then(INIT, run, TickBegins);
    run := run + [TickBegins];
    Then(INIT, run, hello);
    run := run + [hello];
    Then(INIT, run, PumpEnds);
    run := run + [PumpEnds];
    Then(INIT, run, Poll(false));
    run := run + [Poll(false)];
    Then(INIT, run, TickEnds);
    run := run + [TickEnds];
  }

  // ----- a tick that nobody interrupts -----

  lemma {:induction false} PumpIsRun(s: State, before: seq<Action>, z: State, rx: seq<Rx>) returns (run: seq<Action>)
    requires Run(z, before) && AfterRun(z, before) == s && s.phase == Receiving
    requires Feasible(s.mux, rx) && Latch(s.mux) && OwnerOf(s.mux) != Console
    ensures Run(z, run) && Latch(AfterRun(z, run).mux)
    ensures AfterRun(z, run) == s.(mux := Pumped(s.mux, rx),
      phase := if OwnerOf(Pumped(s.mux, rx)) == Console then Resting else Receiving)
    decreases |rx|
  {
    hide Run, AfterRun, Queued, QueuedAll;
    run := before;
    if rx != [] {
      var a := TakeFrame(rx[0]);
      Then(z, run, a);
      run := run + [a];
      if EndsSession(rx[0].event) {
        Then(z, run, CleanUp);
        run := run + [CleanUp];
      } else {
        run := PumpIsRun(Next(s, a), run, z, rx[1..]);
      }
    }
  }

  lemma {:induction false} OwnIsRun(s: State, before: seq<Action>, z: State, own: Output) returns (run: seq<Action>)
    requires Run(z, before) && AfterRun(z, before) == s && s.phase == Sending && OwnerOf(s.mux) == Protocolled
    requires Queueable(own)
    ensures Run(z, run) && AfterRun(z, run) == s.(mux := s.mux.(queues := QueuedAll(s.mux.queues, own)))
    decreases |own|
  {
    hide Run, AfterRun, Queued;
    run := before;
    if own != [] {
      var o := own[|own| - 1];
      run := OwnIsRun(s, run, z, own[..|own| - 1]);
      Then(z, run, Queue(o.0, o.1));
      run := run + [Queue(o.0, o.1)];
    }
  }

  /** The first n frames, or all if there are fewer, and what is behind them. */
  function Front(x: seq<Frame>, n: nat): seq<Frame> { if n <= |x| then x[..n] else x }

  function Rest(x: seq<Frame>, n: nat): seq<Frame> { if n <= |x| then x[n..] else [] }

  lemma FrontStep(x: seq<Frame>, n: nat)
    requires n > 0
    ensures x != [] ==> Front(x, n) == [x[0]] + Front(x[1..], n - 1) && Rest(x, n) == Rest(x[1..], n - 1)
    ensures x == [] ==> Front(x, n) == [] && Rest(x, n) == x
  {
  }

  lemma {:induction false} ClassIsRun(s: State, before: seq<Action>, z: State, c: nat, n: nat) returns (run: seq<Action>)
    requires Run(z, before) && AfterRun(z, before) == s && s.phase == Sending && OwnerOf(s.mux) == Protocolled
    requires c < CLASS_COUNT
    ensures var q := s.mux.queues;
      Run(z, run) && AfterRun(z, run) ==
        s.(mux := s.mux.(queues := q[c := Rest(q[c], n)], wired := s.mux.wired + Front(q[c], n)))
    decreases n
  {
    hide Run, AfterRun;
    var x := s.mux.queues[c];
    run := before;
    if n == 0 || x == [] {
      assert Front(x, n) == [] && Rest(x, n) == x;
      assert s.mux.wired + [] == s.mux.wired && s.mux.queues[c := x] == s.mux.queues;
    } else {
      Then(z, run, Dequeue(c));
      run := run + [Dequeue(c)];
      var t := AfterRun(z, run);
      FrontStep(x, n);
      hide Front, Rest;
      run := ClassIsRun(t, run, z, c, n - 1);
      assert s.mux.wired + [x[0]] + Front(x[1..], n - 1) == s.mux.wired + Front(x, n);
    }
  }

  function DrainedBelow(q: Queues, n: seq<nat>, k: nat): Queues
    requires |n| == CLASS_COUNT
  {
    seq(CLASS_COUNT, c requires 0 <= c < CLASS_COUNT => if c < k then Rest(q[c], n[c]) else q[c])
  }

  lemma {:induction false} DrainIsRun(s: State, before: seq<Action>, z: State, n: seq<nat>, k: nat)
    returns (run: seq<Action>)
    requires Run(z, before) && AfterRun(z, before) == s && s.phase == Sending && OwnerOf(s.mux) == Protocolled
    requires |n| == CLASS_COUNT && k <= CLASS_COUNT
    ensures var q := s.mux.queues;
      Run(z, run) && AfterRun(z, run) ==
        s.(mux := s.mux.(queues := DrainedBelow(q, n, k), wired := s.mux.wired + Firsts(q, n, k)))
    decreases k
  {
    hide Run, AfterRun;
    var q := s.mux.queues;
    run := before;
    if k == 0 {
      assert DrainedBelow(q, n, 0) == q && s.mux.wired + [] == s.mux.wired;
    } else {
      run := DrainIsRun(s, run, z, n, k - 1);
      var t := AfterRun(z, run);
      run := ClassIsRun(t, run, z, k - 1, n[k - 1]);
      assert t.mux.queues[k - 1 := Rest(q[k - 1], n[k - 1])] == DrainedBelow(q, n, k);
      assert s.mux.wired + Firsts(q, n, k - 1) + Front(q[k - 1], n[k - 1]) == s.mux.wired + Firsts(q, n, k);
    }
  }

  lemma SendIsRun(s: State, before: seq<Action>, z: State, own: Output, n: seq<nat>) returns (run: seq<Action>)
    requires Run(z, before) && AfterRun(z, before) == s && s.phase == Sending && Queueable(own) && |n| == CLASS_COUNT
    ensures Run(z, run) && AfterRun(z, run) == s.(mux := Sent(s.mux, own, n))
  {
    hide Run, AfterRun, QueuedAll, Firsts;
    run := before;
    if OwnerOf(s.mux) == Protocolled {
      run := OwnIsRun(s, run, z, own);
      var q := QueuedAll(s.mux.queues, own);
      run := DrainIsRun(AfterRun(z, run), run, z, n, CLASS_COUNT);
      assert DrainedBelow(q, n, CLASS_COUNT) == Drained(q, n);
    }
  }

  /** What the main loop's tick does by itself is one run of these steps. */
  lemma TickIsRun(s: State, rx: seq<Rx>, expired: bool, own: Output, n: seq<nat>) returns (run: seq<Action>)
    requires s.phase == Resting && Latch(s.mux) && Feasible(s.mux.(busy := true), rx) && Queueable(own)
    requires |n| == CLASS_COUNT
    ensures Run(s, run) && AfterRun(s, run) == s.(mux := Ticked(s.mux, rx, expired, own, n))
  {
    hide Run, AfterRun, Queued, QueuedAll, Drained, Feasible, Sent;
    NoStep(s);
    Then(s, [], TickBegins);
    run := [] + [TickBegins];
    if OwnerOf(s.mux) != Console {
      run := PumpIsRun(Next(s, TickBegins), run, s, rx);
      hide Pumped;
      var p := AfterRun(s, run);
      if p.phase == Receiving {
        Then(s, run, PumpEnds);
        run := run + [PumpEnds];
        Then(s, run, Poll(expired));
        run := run + [Poll(expired)];
        if AfterRun(s, run).phase == Ending {
          Then(s, run, CleanUp);
          run := run + [CleanUp];
        } else {
          run := SendIsRun(AfterRun(s, run), run, s, own, n);
          Then(s, run, TickEnds);
          run := run + [TickEnds];
        }
      }
    }
  }
}
