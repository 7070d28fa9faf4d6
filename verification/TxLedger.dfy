/** How every request ends, and whose driver status it ends with. */
module TxLedger {
  import opened Common
  import opened CompletionSlots
  import opened TxProtocol
  import opened TxOwnership

  /** The request the worker has taken and not yet decided on. */
  function Undecided(w: Worker): set<nat> {
    match w
    case Check(r) => {r.ticket}
    case Budget(r) => {r.ticket}
    case Reset(r) => {r.ticket}
    case Submit(r) => {r.ticket}
    case Await(r) => {r.ticket}
    case _ => {}
  }

  function QueueTickets(s: State): multiset<nat>
    requires |s.queues| == 3
  {
    Tickets(s.queues[0]) + Tickets(s.queues[1]) + Tickets(s.queues[2])
  }

  function EndedAs(outcomes: map<nat, Outcome>, o: Outcome): set<nat> {
    set t | t in outcomes && outcomes[t] == o
  }

  /** Every request taken from a queue has exactly one outcome, or is the one in hand. */
  ghost predicate Accounted(s: State) {
    && |s.queues| == 3
    && Undecided(s.worker) <= s.taken
    && s.outcomes.Keys == s.taken - Undecided(s.worker)
    && (forall t | t in QueueTickets(s) :: t !in s.taken)
    && (forall t | t in s.taken :: t < s.nextTicket)
    && (forall t | t in s.callers && Early(s.callers[t]) :: t !in s.taken)
  }

  /** The counters of the source count the outcomes they are named after. */
  predicate Counted(s: State) {
    && s.rejected == |EndedAs(s.outcomes, DriverRejected)|
    && s.timeouts == |EndedAs(s.outcomes, TimedOut)|
  }

  /** A verdict of the driver on record is the outcome of that request. */
  predicate VerdictIsOutcome(s: State) {
    && (forall t | t in s.verdicts && s.verdicts[t].0 :: t in s.outcomes && s.outcomes[t] == Completed(s.verdicts[t].1))
    && (s.worker.Complete? && s.worker.received ==>
          s.worker.req.ticket in s.outcomes && s.outcomes[s.worker.req.ticket] == Completed(s.worker.delivered))
  }

  ghost predicate Ledger(s: State) {
    Inv(s) && Accounted(s) && Counted(s) && VerdictIsOutcome(s)
  }

  lemma EndedAsAdd(outcomes: map<nat, Outcome>, t: nat, o: Outcome, p: Outcome)
    requires t !in outcomes
    ensures |EndedAs(outcomes[t := o], p)| == |EndedAs(outcomes, p)| + if o == p then 1 else 0
  {
    if o == p {
      assert EndedAs(outcomes[t := o], p) == EndedAs(outcomes, p) + {t};
    } else {
      assert EndedAs(outcomes[t := o], p) == EndedAs(outcomes, p);
    }
  }

  /** The actions that decide on the request in hand. */
  function Decision(s: State, a: Action): Option<Outcome>
    requires Enabled(s, a)
  {
    match a
    case CheckActive =>
      if StillActive(s.slots, s.worker.req.slot, s.worker.req.generation) then None else Some(Cancelled)
    case CheckBudget(now) => if Next(s, a).worker.Reset? then None else Some(Expired)
    case Send(accepted, _) => if accepted then None else Some(DriverRejected)
    case Receive => if s.driverQueue[0].mac == s.worker.req.mac then Some(Completed(s.driverQueue[0].success)) else None
    case AwaitEnds => Some(TimedOut)
    case _ => None
  }

  /** What a step does to the record. */
  predicate RecordStep(s: State, a: Action)
    requires Enabled(s, a)
  {
    var s' := Next(s, a);
    match Decision(s, a)
    case Some(o) =>
      Undecided(s.worker) == {s.worker.req.ticket} && Undecided(s'.worker) == {}
      && s'.outcomes == s.outcomes[s.worker.req.ticket := o] && s'.taken == s.taken
      && s'.rejected == s.rejected + (if o == DriverRejected then 1 else 0)
      && s'.timeouts == s.timeouts + (if o == TimedOut then 1 else 0)
      && (s'.worker.Complete? && s'.worker.received ==>
            o == Completed(s'.worker.delivered) && s'.worker.req == s.worker.req)
    case None =>
      s'.outcomes == s.outcomes && s'.rejected == s.rejected && s'.timeouts == s.timeouts
      && (a.Dequeue? || (s'.taken == s.taken && Undecided(s'.worker) == Undecided(s.worker)))
      && (s'.worker.Complete? ==> s'.worker == s.worker)
  }

  lemma CheckRecorded(s: State, a: Action)
    requires Enabled(s, a) && (a.CheckActive? || a.CheckBudget? || a.AwaitEnds?)
    ensures RecordStep(s, a)
  {
    hide StillActive;
  }

  lemma DriverRecorded(s: State, a: Action)
    requires Enabled(s, a) && (a.Send? || a.Receive? || a.ResetQueue? || a.Callback? || a.Lose?)
    ensures RecordStep(s, a)
  {
    hide Without;
  }

  lemma EndRecorded(s: State, a: Action)
    requires Enabled(s, a)
    requires a.CompleteCritical? || a.GiveSignal? || a.GraceReceive? || a.GraceEnds? || a.DiscardAll? || a.Dequeue?
    ensures RecordStep(s, a)
  {
    hide Matches, CompletionSlots.Completed, Signalled;
  }

  lemma CallerRecorded(s: State, a: Action)
    requires Enabled(s, a)
    requires a.Call? || a.CallAsync? || a.Drain? || a.Enqueue? || a.TakeSignal? || a.GiveUp? || a.Read? || a.Release?
    ensures RecordStep(s, a)
  {
    hide Matches, Released, Acquired, FirstFree, Signalled;
  }

  lemma RecordSteps(s: State, a: Action)
    requires Enabled(s, a)
    ensures RecordStep(s, a)
  {
    hide Next, RecordStep;
    if a.CheckActive? || a.CheckBudget? || a.AwaitEnds? { CheckRecorded(s, a); }
    else if a.Send? || a.Receive? || a.ResetQueue? || a.Callback? || a.Lose? { DriverRecorded(s, a); }
    else if a.CompleteCritical? || a.GiveSignal? || a.GraceReceive? || a.GraceEnds? || a.DiscardAll? || a.Dequeue? {
      EndRecorded(s, a);
    } else { CallerRecorded(s, a); }
  }

  lemma CountedKeeps(s: State, a: Action)
    requires Ledger(s) && Enabled(s, a)
    ensures Counted(Next(s, a))
  {
    hide Next, Enabled, Inv, Decision, EndedAs;
    RecordSteps(s, a);
    match Decision(s, a)
    case None =>
    case Some(o) =>
      EndedAsAdd(s.outcomes, s.worker.req.ticket, o, DriverRejected);
      EndedAsAdd(s.outcomes, s.worker.req.ticket, o, TimedOut);
  }

  // ----- requests in and out of the queues -----

  /** What a step does to queues and early callers, unless it is the dequeue. */
  predicate QueueStep(s: State, a: Action)
    requires Enabled(s, a)
  {
    var s' := Next(s, a);
    && |s'.queues| == 3 && s.nextTicket <= s'.nextTicket
    && (forall t | t in QueueTickets(s') ::
          t in QueueTickets(s) || t == s.nextTicket < s'.nextTicket || (t in s.callers && Early(s.callers[t])))
    && (forall t | t in s'.callers && Early(s'.callers[t]) ::
          (t in s.callers && Early(s.callers[t])) || t == s.nextTicket < s'.nextTicket)
  }

  lemma SameQueues(s: State, s': State)
    requires |s.queues| == 3 && s'.queues == s.queues
    ensures QueueTickets(s') == QueueTickets(s)
  {
    hide Tickets;
  }

  lemma JoinQueue(s: State, s': State, k: nat, r: Request)
    requires |s.queues| == 3 && k < 3 && s'.queues == s.queues[k := s.queues[k] + [r]]
    ensures QueueTickets(s') == QueueTickets(s) + multiset{r.ticket}
  {
    hide Tickets;
    TicketsAppend(s.queues[k], r);
  }

  lemma EnqueueQueue(s: State, a: Action)
    requires Enabled(s, a) && (a.Enqueue? || a.CallAsync?)
    ensures QueueStep(s, a)
  {
    hide QueueTickets;
    var s' := Next(s, a);
    if |s.queues[a.k]| < QUEUE_DEPTH[a.k] {
      var r := s'.queues[a.k][|s.queues[a.k]|];
      JoinQueue(s, s', a.k, r);
    } else {
      SameQueues(s, s');
    }
  }

  lemma CallerQueue(s: State, a: Action)
    requires Enabled(s, a)
    requires a.Call? || a.Drain? || a.TakeSignal? || a.GiveUp? || a.Read? || a.Release?
    ensures QueueStep(s, a)
  {
    hide QueueTickets, Matches, Released, Acquired, FirstFree, Signalled;
    SameQueues(s, Next(s, a));
  }

  lemma WorkerQueue(s: State, a: Action)
    requires Enabled(s, a) && (WorkerAction(a) || a.CompleteCritical?)
    ensures QueueStep(s, a)
  {
    hide QueueTickets, WorkerOnly;
    var s' := Next(s, a);
    assert s'.queues == s.queues && s'.callers == s.callers && s'.nextTicket == s.nextTicket by {
      if !a.CompleteCritical? { WorkerSteps(s, a); WorkerOnlyQueues(s, s'); }
    }
    hide Next;
    SameQueues(s, s');
  }

  lemma WorkerOnlyQueues(s: State, s': State)
    requires WorkerOnly(s, s')
    ensures s'.queues == s.queues && s'.callers == s.callers && s'.nextTicket == s.nextTicket
  {
  }

  lemma QueueSteps(s: State, a: Action)
    requires Enabled(s, a) && !a.Dequeue?
    ensures QueueStep(s, a)
  {
    hide Next, QueueStep;
    if a.Enqueue? || a.CallAsync? { EnqueueQueue(s, a); }
    else if a.Call? || a.Drain? || a.TakeSignal? || a.GiveUp? || a.Read? || a.Release? { CallerQueue(s, a); }
    else { WorkerQueue(s, a); }
  }

  lemma AccountedKeeps(s: State, a: Action)
    requires Ledger(s) && Enabled(s, a) && !a.Dequeue?
    ensures Accounted(Next(s, a))
  {
    hide Next, Enabled, Inv, Decision, QueueTickets, Counted, VerdictIsOutcome;
    RecordSteps(s, a);
    QueueSteps(s, a);
  }

  lemma DequeueTickets(s: State, k: nat)
    requires Enabled(s, Dequeue(k))
    ensures var s' := Next(s, Dequeue(k));
      |s'.queues| == 3 && QueueTickets(s) == QueueTickets(s') + multiset{s.queues[k][0].ticket}
  {
    hide Tickets, QueueTickets;
    ShorterQueue(s, Next(s, Dequeue(k)), k);
  }

  lemma ShorterQueue(s: State, s': State, k: nat)
    requires |s.queues| == 3 && k < 3 && s.queues[k] != [] && s'.queues == s.queues[k := s.queues[k][1..]]
    ensures QueueTickets(s) == QueueTickets(s') + multiset{s.queues[k][0].ticket}
  {
    hide Tickets;
    TicketsFirst(s.queues[k]);
    assert k == 0 || k == 1 || k == 2;
  }

  lemma QueueTicketOnce(s: State, t: nat)
    requires Inv(s)
    ensures QueueTickets(s)[t] <= 1 && (t in QueueTickets(s) ==> t < s.nextTicket)
    ensures t in s.callers && Early(s.callers[t]) ==> t !in QueueTickets(s)
  {
    hide Tickets, InHand, Fits, Lent, Recorded;
    assert LiveTickets(s) == QueueTickets(s) + InHand(s.worker);
    assert LiveTickets(s)[t] <= 1;
    assert t in QueueTickets(s) ==> t in LiveTickets(s);
  }

  lemma DequeueAccounted(s: State, k: nat)
    requires Ledger(s) && Enabled(s, Dequeue(k))
    ensures Accounted(Next(s, Dequeue(k)))
  {
    hide QueueTickets, Inv, Counted, VerdictIsOutcome;
    var s', r := Next(s, Dequeue(k)), s.queues[k][0];
    DequeueTickets(s, k);
    QueueTicketOnce(s, r.ticket);
    assert Undecided(s.worker) == {};
  }

  // ----- verdicts and outcomes -----

  lemma VerdictSteps(s: State, a: Action)
    requires Enabled(s, a)
    ensures Next(s, a).verdicts == s.verdicts
         || (s.worker.Complete?
             && Next(s, a).verdicts == s.verdicts[s.worker.req.ticket := (s.worker.received, s.worker.delivered)])
  {
    hide Matches, Without, Released, Acquired, FirstFree, Signalled, StillActive, CompletionSlots.Completed, WorkerOnly;
    if WorkerAction(a) {
      WorkerSteps(s, a);
      hide Next;
      SameVerdicts(s, Next(s, a));
    }
  }

  lemma SameVerdicts(s: State, s': State)
    requires WorkerOnly(s, s')
    ensures s'.verdicts == s.verdicts
  {
  }

  lemma VerdictKeeps(s: State, a: Action)
    requires Ledger(s) && Enabled(s, a)
    ensures VerdictIsOutcome(Next(s, a))
  {
    hide Next, Enabled, Inv, Decision, QueueTickets, Counted;
    RecordSteps(s, a);
    VerdictSteps(s, a);
  }

  lemma LedgerKeeps(s: State, a: Action)
    requires Ledger(s) && Enabled(s, a) && NoWrap(s, a)
    ensures Ledger(Next(s, a))
    ensures forall t | t in s.outcomes :: t in Next(s, a).outcomes && Next(s, a).outcomes[t] == s.outcomes[t]
  {
    hide Next, Inv, Counted, VerdictIsOutcome, NoWrap, QueueTickets, Decision;
    StepKeeps(s, a);
    if a.Dequeue? { DequeueAccounted(s, a.k); } else { AccountedKeeps(s, a); }
    CountedKeeps(s, a);
    VerdictKeeps(s, a);
    RecordSteps(s, a);
  }

  lemma {:induction false} LedgerRun(s: State, run: seq<Action>)
    requires Ledger(s) && NeverWraps(s, run)
    ensures RunFrom(s, run).Some? && Ledger(RunFrom(s, run).value)
    ensures forall t | t in s.outcomes ::
      t in RunFrom(s, run).value.outcomes && RunFrom(s, run).value.outcomes[t] == s.outcomes[t]
    decreases |run|
  {
    hide Ledger, Enabled, Next, NoWrap;
    if run != [] {
      LedgerKeeps(s, run[0]);
      LedgerRun(Next(s, run[0]), run[1..]);
    }
  }

  /** Over any run: every request that has been dequeued has exactly one of the five outcomes,
      or is the one in the worker's hand; an outcome once on record never changes; and the
      source's counters of rejections and timeouts are the numbers of those outcomes. */
  lemma EveryRequestEndsOnce(run: seq<Action>, more: seq<Action>)
    requires NeverWraps(START, run)
    ensures RunFrom(START, run).Some?
    ensures var s := RunFrom(START, run).value;
      && s.outcomes.Keys + Undecided(s.worker) == s.taken && s.outcomes.Keys !! Undecided(s.worker)
      && s.rejected == |EndedAs(s.outcomes, DriverRejected)| && s.timeouts == |EndedAs(s.outcomes, TimedOut)|
      && (NeverWraps(s, more) ==>
            RunFrom(s, more).Some? && forall t | t in s.outcomes ::
              t in RunFrom(s, more).value.outcomes && RunFrom(s, more).value.outcomes[t] == s.outcomes[t])
  {
    hide *;
    StartLedger();
    LedgerRun(START, run);
    var s := RunFrom(START, run).value;
    LedgerMeans(s);
    if NeverWraps(s, more) { LedgerRun(s, more); }
  }

  lemma LedgerMeans(s: State)
    requires Ledger(s)
    ensures s.outcomes.Keys + Undecided(s.worker) == s.taken && s.outcomes.Keys !! Undecided(s.worker)
    ensures s.rejected == |EndedAs(s.outcomes, DriverRejected)| && s.timeouts == |EndedAs(s.outcomes, TimedOut)|
  {
    hide Inv, QueueTickets, Undecided, EndedAs, VerdictIsOutcome;
  }

  lemma StartLedger()
    ensures Ledger(START)
  {
    StartHolds();
    assert QueueTickets(START) == multiset{};
    assert EndedAs(START.outcomes, DriverRejected) == {} && EndedAs(START.outcomes, TimedOut) == {};
  }
}
