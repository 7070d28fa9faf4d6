/** Whose driver status a request ends with.

    A driver callback carries an address and no token, so the worker tells statuses apart by
    emptying the queue before each send and by the grace window after a missed callback.
    That is enough for a request exactly if no callback for its address is still to come when
    the worker empties the queue for it (TxRuns.AttributionIsExact): then, whatever happens to
    other requests, it ends with the status of its own transmission or with none. */
module TxAttribution {
  import opened Common
  import opened CompletionSlots
  import opened TxProtocol
  import opened TxOwnership
  import opened TxLedger

  /** No status for the address of the request in hand is still to come. */
  predicate Quiet(s: State) {
    s.worker.Reset? ==> forall st | st in s.inFlight :: st.mac != s.worker.req.mac
  }

  /** The assumption for one request: quiet when the queue is emptied for it. */
  predicate QuietStep(s: State, a: Action, k: nat) {
    a.ResetQueue? && s.worker.Reset? && s.worker.req.ticket == k ==> Quiet(s)
  }

  ghost predicate QuietWhenReset(s: State, run: seq<Action>, k: nat)
    decreases |run|
  {
    run == [] || (Enabled(s, run[0]) && QuietStep(s, run[0], k) && QuietWhenReset(Next(s, run[0]), run[1..], k))
  }

  predicate Pending(s: State, st: Status) {
    st in s.driverQueue || st in s.inFlight
  }

  predicate Unsent(w: Worker) { w.Check? || w.Budget? || w.Reset? || w.Submit? }

  /** A status still to be received is the one reported for its own transmission. */
  ghost predicate Truthful(s: State) {
    forall st | Pending(s, st) :: st.ticket in s.reported && s.reported[st.ticket] == st.success
  }

  /** Only a request that was taken and sent has a report. */
  ghost predicate Sent(s: State) {
    && s.reported.Keys <= s.taken
    && (Unsent(s.worker) ==> s.worker.req.ticket !in s.reported)
  }

  /** While request k is with the driver, a status for its address is its own. */
  ghost predicate Own(s: State, k: nat) {
    && (s.worker.Submit? && s.worker.req.ticket == k ==> forall st | Pending(s, st) :: st.mac != s.worker.req.mac)
    && (s.worker.Await? && s.worker.req.ticket == k ==>
          forall st | Pending(s, st) && st.mac == s.worker.req.mac :: st.ticket == k)
  }

  /** If request k has completed, it has with the driver's report for it. */
  predicate Attributed(s: State, k: nat) {
    k in s.outcomes && s.outcomes[k].Completed? ==> k in s.reported && s.reported[k] == s.outcomes[k].delivered
  }

  /** What holds in every run, quiet or not. */
  ghost predicate Honest(s: State) { Truthful(s) && Sent(s) }

  ghost predicate Traced(s: State, k: nat) {
    Honest(s) && Own(s, k) && Attributed(s, k)
  }

  /** A step that leaves the driver's side alone, but for statuses that leave it, and on
      which no request starts, is sent or completes. */
  ghost predicate Calm(s: State, s': State) {
    && (forall st | Pending(s', st) :: Pending(s, st))
    && (forall st | st in s'.inFlight :: st in s.inFlight)
    && s'.reported == s.reported && s'.taken == s.taken
    && (Unsent(s'.worker) ==> Unsent(s.worker) && s'.worker.req == s.worker.req)
    && (s'.worker.Submit? ==> s.worker.Submit?)
    && (s'.worker.Check? || s'.worker.Budget? ==> s.worker.Check? || s.worker.Budget?)
    && (s'.worker.Reset? ==> s.worker.Budget? || s.worker.Reset?)
    && (s'.worker.Await? ==> s.worker == s'.worker)
    && (forall t | t in s'.outcomes && s'.outcomes[t].Completed? :: t in s.outcomes && s.outcomes[t] == s'.outcomes[t])
  }

  lemma CalmKeeps(s: State, s': State, k: nat)
    requires Traced(s, k) && Calm(s, s')
    ensures Traced(s', k)
  {
  }

  lemma {:induction false} WithoutIn<T>(xs: seq<T>, i: nat, x: T)
    requires i < |xs| && x in Without(xs, i)
    ensures x in xs
  {
    var k :| 0 <= k < |Without(xs, i)| && Without(xs, i)[k] == x;
    assert x == if k < i then xs[k] else xs[k + 1];
  }

  lemma DriverCalm(s: State, a: Action)
    requires Enabled(s, a) && (a.Callback? || a.Lose? || a.GraceReceive? || a.GraceEnds? || a.DiscardAll?)
    ensures Calm(s, Next(s, a))
  {
    var s' := Next(s, a);
    forall st | Pending(s', st) ensures Pending(s, st) {
      if (a.Callback? || a.Lose?) && st in s'.inFlight {
        hide Without;
        WithoutIn(s.inFlight, a.i, st);
      }
    }
  }

  lemma CheckCalm(s: State, a: Action)
    requires Enabled(s, a) && (a.CheckActive? || a.CheckBudget? || a.AwaitEnds? || (a.Send? && !a.accepted))
    ensures Calm(s, Next(s, a))
  {
    hide StillActive;
  }

  lemma SameDriver(s: State, s': State)
    requires s'.driverQueue == s.driverQueue && s'.inFlight == s.inFlight && s'.reported == s.reported
    requires s'.taken == s.taken && s'.outcomes == s.outcomes
    requires s'.worker == s.worker || s'.worker.Idle? || s'.worker.Give? || s'.worker.Grace?
    ensures Calm(s, s')
  {
  }

  lemma CallerCalm(s: State, a: Action)
    requires Enabled(s, a)
    requires a.Call? || a.CallAsync? || a.Drain? || a.Enqueue? || a.TakeSignal? || a.GiveUp? || a.Read? || a.Release?
    ensures Calm(s, Next(s, a))
  {
    hide Matches, Released, Acquired, FirstFree, Signalled, Calm;
    SameDriver(s, Next(s, a));
  }

  lemma CompleteCalm(s: State, a: Action)
    requires Enabled(s, a) && (a.CompleteCritical? || a.GiveSignal?)
    ensures Calm(s, Next(s, a))
  {
    hide Matches, Signalled, CompletionSlots.Completed, Calm;
    SameDriver(s, Next(s, a));
  }

  lemma DequeueTraced(s: State, q: nat, k: nat)
    requires Ledger(s) && Traced(s, k) && Enabled(s, Dequeue(q))
    ensures Traced(Next(s, Dequeue(q)), k)
  {
    hide Inv, Counted, VerdictIsOutcome, QueueTickets;
    DequeueTickets(s, q);
  }

  lemma SendTraced(s: State, a: Action, k: nat)
    requires Ledger(s) && Traced(s, k) && Enabled(s, a) && a.Send? && a.accepted
    ensures Traced(Next(s, a), k)
  {
    hide Inv, Counted, VerdictIsOutcome, QueueTickets;
    var r := s.worker.req;
    assert r.ticket !in s.outcomes;
  }

  lemma ResetTraced(s: State, k: nat)
    requires Traced(s, k) && Enabled(s, ResetQueue) && QuietStep(s, ResetQueue, k)
    ensures Traced(Next(s, ResetQueue), k)
  {
  }

  lemma ReceiveTraced(s: State, k: nat)
    requires Traced(s, k) && Enabled(s, Receive)
    ensures Traced(Next(s, Receive), k)
  {
    var st := s.driverQueue[0];
    assert Pending(s, st);
    assert forall x | Pending(Next(s, Receive), x) :: Pending(s, x);
  }

  /** All other steps leave the driver's side calm. */
  lemma OthersCalm(s: State, a: Action)
    requires Enabled(s, a) && !a.Dequeue? && !a.ResetQueue? && !a.Receive? && !(a.Send? && a.accepted)
    ensures Calm(s, Next(s, a))
  {
    hide Next, Calm;
    if a.CheckActive? || a.CheckBudget? || a.AwaitEnds? || a.Send? { CheckCalm(s, a); }
    else if a.Callback? || a.Lose? || a.GraceReceive? || a.GraceEnds? || a.DiscardAll? { DriverCalm(s, a); }
    else if a.CompleteCritical? || a.GiveSignal? { CompleteCalm(s, a); }
    else { CallerCalm(s, a); }
  }

  lemma TracedKeeps(s: State, a: Action, k: nat)
    requires Ledger(s) && Traced(s, k) && Enabled(s, a) && QuietStep(s, a, k)
    ensures Traced(Next(s, a), k)
  {
    hide Ledger, Traced, Next, QuietStep, Calm;
    if a.Dequeue? { DequeueTraced(s, a.k, k); }
    else if a.ResetQueue? { ResetTraced(s, k); }
    else if a.Receive? { ReceiveTraced(s, k); }
    else if a.Send? && a.accepted { SendTraced(s, a, k); }
    else {
      OthersCalm(s, a);
      CalmKeeps(s, Next(s, a), k);
    }
  }

  lemma {:induction false} TracedRun(s: State, run: seq<Action>, k: nat)
    requires Ledger(s) && Traced(s, k) && NeverWraps(s, run) && QuietWhenReset(s, run, k)
    ensures RunFrom(s, run).Some? && Ledger(RunFrom(s, run).value) && Traced(RunFrom(s, run).value, k)
    decreases |run|
  {
    hide Ledger, Traced, Enabled, Next, NoWrap, QuietStep;
    if run != [] {
      TracedKeeps(s, run[0], k);
      LedgerKeeps(s, run[0]);
      TracedRun(Next(s, run[0]), run[1..], k);
    }
  }

  /** After any run, for any request: if no callback for its address was outstanding when the
      worker emptied the queue for it, then, if it has completed, it has with what the driver
      reported for its own transmission, and if its call returned a status, it was that. */
  lemma DriverAttribution(run: seq<Action>, t: nat)
    requires NeverWraps(START, run) && QuietWhenReset(START, run, t)
    ensures RunFrom(START, run).Some?
    ensures var s := RunFrom(START, run).value;
      && Attributed(s, t)
      && (t in s.callers && s.callers[t].Returned? && s.callers[t].status ==>
            t in s.reported && s.reported[t] == s.callers[t].delivered)
  {
    hide Enabled, Next, Inv, NeverWraps, RunFrom, QueueTickets, Truthful, Sent, Own, Accounted, Counted, QuietWhenReset;
    StartLedger();
    StartTraced(t);
    TracedRun(START, run, t);
    VerdictOwnership(run, t);
  }

  lemma StartTraced(k: nat)
    ensures Traced(START, k)
  {
  }

  // ----- without the assumption -----

  lemma HonestKeeps(s: State, a: Action)
    requires Ledger(s) && Honest(s) && Enabled(s, a)
    ensures Honest(Next(s, a))
  {
    hide Ledger, Truthful, Sent, Next, Calm;
    if a.Dequeue? || (a.Send? && a.accepted) { HonestStarts(s, a); }
    else if a.ResetQueue? || a.Receive? { HonestReads(s, a); }
    else {
      OthersCalm(s, a);
      HonestCalm(s, Next(s, a));
    }
  }

  lemma HonestCalm(s: State, s': State)
    requires Honest(s) && Calm(s, s')
    ensures Honest(s')
  {
  }

  lemma HonestStarts(s: State, a: Action)
    requires Ledger(s) && Honest(s) && Enabled(s, a) && (a.Dequeue? || (a.Send? && a.accepted))
    ensures Honest(Next(s, a))
  {
    hide Inv, Counted, VerdictIsOutcome, QueueTickets;
    if a.Dequeue? { DequeueTickets(s, a.k); }
  }

  lemma HonestReads(s: State, a: Action)
    requires Honest(s) && Enabled(s, a) && (a.ResetQueue? || a.Receive?)
    ensures Honest(Next(s, a))
  {
    assert forall x | Pending(Next(s, a), x) :: Pending(s, x);
  }

  /** Request k has been taken, and if the queue is still to be emptied for it, the driver is
      quiet. */
  ghost predicate Waits(s: State, k: nat) {
    && k in s.taken
    && ((s.worker.Check? || s.worker.Budget?) ==> s.worker.req.ticket != k)
    && (s.worker.Reset? && s.worker.req.ticket == k ==> Quiet(s))
  }

  lemma WaitsKeeps(s: State, a: Action, k: nat)
    requires Ledger(s) && Waits(s, k) && Enabled(s, a)
    ensures Waits(Next(s, a), k)
  {
    hide Ledger, Next, Waits, Calm;
    if a.Dequeue? || a.ResetQueue? || a.Receive? || (a.Send? && a.accepted) { WaitsMoves(s, a, k); }
    else {
      OthersCalm(s, a);
      WaitsCalm(s, Next(s, a), k);
    }
  }

  lemma WaitsCalm(s: State, s': State, k: nat)
    requires Waits(s, k) && Calm(s, s')
    ensures Waits(s', k)
  {
  }

  lemma WaitsMoves(s: State, a: Action, k: nat)
    requires Ledger(s) && Waits(s, k) && Enabled(s, a)
    requires a.Dequeue? || a.ResetQueue? || a.Receive? || (a.Send? && a.accepted)
    ensures Waits(Next(s, a), k)
  {
    hide Inv, Counted, VerdictIsOutcome, QueueTickets;
    if a.Dequeue? { DequeueTickets(s, a.k); }
  }

  /** Quiet at one moment is quiet when the queue is emptied, in every continuation. */
  lemma {:induction false} QuietContinues(s: State, run: seq<Action>, k: nat)
    requires Ledger(s) && Waits(s, k) && NeverWraps(s, run)
    ensures QuietWhenReset(s, run, k)
    decreases |run|
  {
    hide Ledger, Enabled, Next, NoWrap;
    if run != [] {
      LedgerKeeps(s, run[0]);
      WaitsKeeps(s, run[0], k);
      QuietContinues(Next(s, run[0]), run[1..], k);
    }
  }

  lemma {:induction false} HonestRun(s: State, run: seq<Action>)
    requires Ledger(s) && Honest(s) && NeverWraps(s, run)
    ensures RunFrom(s, run).Some? && Ledger(RunFrom(s, run).value) && Honest(RunFrom(s, run).value)
    decreases |run|
  {
    hide Ledger, Honest, Enabled, Next, NoWrap;
    if run != [] {
      HonestKeeps(s, run[0]);
      LedgerKeeps(s, run[0]);
      HonestRun(Next(s, run[0]), run[1..]);
    }
  }
}
