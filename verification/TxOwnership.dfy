/** Whose verdict a synchronous send reports.

    In every interleaving of callers, worker and driver, a call that returns a status
    returns the verdict that the worker reached for the request of that same call.  A
    semaphore given late, to a slot lent to somebody else by then, can only make that call
    return without a status. */
module TxOwnership {
  import opened Common
  import opened CompletionSlots
  import opened TxProtocol

  /** The request the worker may still complete. */
  function Holding(w: Worker): Option<Request> {
    match w
    case Check(r) => Some(r)
    case Budget(r) => Some(r)
    case Reset(r) => Some(r)
    case Submit(r) => Some(r)
    case Await(r) => Some(r)
    case Complete(r, _, _, _) => Some(r)
    case _ => None
  }

  function Tickets(q: seq<Request>): multiset<nat> {
    if q == [] then multiset{} else multiset{q[0].ticket} + Tickets(q[1..])
  }

  function InHand(w: Worker): multiset<nat> {
    match Holding(w)
    case Some(r) => multiset{r.ticket}
    case None => multiset{}
  }

  /** The tickets of all requests that may still be completed. */
  function LiveTickets(s: State): multiset<nat>
    requires |s.queues| == 3
  {
    Tickets(s.queues[0]) + Tickets(s.queues[1]) + Tickets(s.queues[2]) + InHand(s.worker)
  }

  predicate Live(s: State, r: Request)
    requires |s.queues| == 3
  {
    r in s.queues[0] || r in s.queues[1] || r in s.queues[2] || Holding(s.worker) == Some(r)
  }

  /** The assumption: a slot is not lent with the generation of a request that is still
      live, that is, the 32-bit generation does not come round while a request waits. */
  ghost predicate NoWrap(s: State, a: Action)
    requires |s.queues| == 3
  {
    a.Call? ==>
      var i := FirstFree(s.slots, 0);
      i < SLOT_COUNT ==> forall r | Live(s, r) && r.slot == i :: r.generation != NextGeneration(s.slots[i].generation)
  }

  // ----- the invariant, in parts -----

  predicate Holds(s: State, t: nat)
    requires t in s.callers
  {
    var c := s.callers[t];
    c.Returned? || (Matches(s.slots, c.slot, c.generation) && s.slots[c.slot].owner == t)
  }

  predicate Early(c: Caller) { c.Draining? || c.Enqueuing? }

  predicate Shape(s: State) {
    && |s.queues| == 3
    && (forall t | t in s.callers :: t < s.nextTicket && (!s.callers[t].Returned? ==> s.callers[t].slot < SLOT_COUNT))
    && (s.worker.Give? ==> s.worker.slot < SLOT_COUNT)
  }

  /** A caller that has not returned has its slot. */
  predicate Lent(s: State) {
    forall t | t in s.callers :: Holds(s, t)
  }

  /** A live request that fits a slot is the one of the call the slot is lent to. */
  ghost predicate Fits(s: State)
    requires |s.queues| == 3
  {
    forall r | Live(s, r) && Matches(s.slots, r.slot, r.generation) :: s.slots[r.slot].owner == r.ticket
  }

  /** Tickets are used once, and a request that may still be completed has no verdict. */
  ghost predicate Once(s: State)
    requires |s.queues| == 3
  {
    && (forall t :: LiveTickets(s)[t] <= 1)
    && (forall t | t in LiveTickets(s) :: t < s.nextTicket && t !in s.verdicts)
    && (forall t | t in s.verdicts :: t < s.nextTicket)
    && (forall t | t in s.callers && Early(s.callers[t]) :: t !in LiveTickets(s) && t !in s.verdicts)
  }

  predicate Told(s: State, t: nat, received: bool, delivered: bool) {
    if received then t in s.verdicts && s.verdicts[t] == (true, delivered) else !delivered
  }

  /** What a slot and a caller hold is the verdict on record. */
  predicate Recorded(s: State) {
    && (forall i | 0 <= i < SLOT_COUNT && s.slots[i].inUse ::
          Told(s, s.slots[i].owner, s.slots[i].callbackReceived, s.slots[i].delivered))
    && (forall t | t in s.callers && (s.callers[t].Releasing? || s.callers[t].Returned?) ::
          Told(s, t, s.callers[t].status, s.callers[t].delivered))
    && (s.worker.Complete? && !s.worker.received ==> !s.worker.delivered)
  }

  ghost predicate Inv(s: State) {
    Shape(s) && Lent(s) && Fits(s) && Once(s) && Recorded(s)
  }

  // ----- queues -----

  lemma {:induction false} TicketsAppend(q: seq<Request>, r: Request)
    ensures Tickets(q + [r]) == Tickets(q) + multiset{r.ticket}
    decreases |q|
  {
    if q != [] {
      assert (q + [r])[1..] == q[1..] + [r];
      TicketsAppend(q[1..], r);
    }
  }

  lemma {:induction false} TicketOf(q: seq<Request>, r: Request)
    requires r in q
    ensures r.ticket in Tickets(q)
    decreases |q|
  {
    if q[0] != r { TicketOf(q[1..], r); }
  }

  lemma LiveTicket(s: State, r: Request)
    requires |s.queues| == 3 && Live(s, r)
    ensures r.ticket in LiveTickets(s)
  {
    if r in s.queues[0] { TicketOf(s.queues[0], r); }
    else if r in s.queues[1] { TicketOf(s.queues[1], r); }
    else if r in s.queues[2] { TicketOf(s.queues[2], r); }
  }

  lemma SameLive(s: State, s': State)
    requires |s.queues| == 3 && s'.queues == s.queues && s'.worker == s.worker
    ensures LiveTickets(s') == LiveTickets(s)
  {
    hide Tickets, InHand;
  }

  // ----- steps, by what they change -----

  predicate SameButSignals(a: Slots, b: Slots) {
    forall i | 0 <= i < SLOT_COUNT :: a[i].(signal := b[i].signal) == b[i]
  }

  /** The worker goes on, with the request in its hand or without. */
  predicate WorkerOnly(s: State, s': State) {
    && s'.queues == s.queues && s'.callers == s.callers && s'.verdicts == s.verdicts && s'.nextTicket == s.nextTicket
    && SameButSignals(s.slots, s'.slots)
    && (Holding(s'.worker) == Holding(s.worker) || Holding(s'.worker) == None)
    && (s'.worker.Give? ==> s'.worker == s.worker)
    && (s'.worker.Complete? && !s'.worker.received ==> s'.worker == s.worker || !s'.worker.delivered)
  }

  lemma WorkerMoves(s: State, s': State)
    requires Inv(s) && WorkerOnly(s, s')
    ensures Inv(s')
  {
    forall r | Live(s', r) ensures Live(s, r) {}
    forall r | Live(s', r) && Matches(s'.slots, r.slot, r.generation) ensures s'.slots[r.slot].owner == r.ticket {
      assert Matches(s.slots, r.slot, r.generation);
    }
    forall t | t in s'.callers ensures Holds(s', t) { assert Holds(s, t); }
    assert LiveTickets(s') <= LiveTickets(s);
    forall t ensures LiveTickets(s')[t] <= 1 { assert LiveTickets(s)[t] <= 1; }
  }

  /** A caller goes on with its slot. */
  lemma CallerMoves(s: State, s': State, t: nat)
    requires Inv(s) && t in s.callers && !s.callers[t].Returned?
    requires s'.queues == s.queues && s'.verdicts == s.verdicts && s'.nextTicket == s.nextTicket && s'.worker == s.worker
    requires SameButSignals(s.slots, s'.slots)
    requires t in s'.callers && s'.callers == s.callers[t := s'.callers[t]]
    requires var c, c' := s.callers[t], s'.callers[t];
      !c'.Returned? && c'.slot == c.slot && c'.generation == c.generation && (Early(c') ==> Early(c))
      && (c'.Releasing? ==> Told(s, t, c'.status, c'.delivered))
    ensures Inv(s')
  {
    forall u | u in s'.callers ensures Holds(s', u) { assert Holds(s, u); }
    forall r | Live(s', r) && Matches(s'.slots, r.slot, r.generation) ensures s'.slots[r.slot].owner == r.ticket {
      assert Live(s, r) && Matches(s.slots, r.slot, r.generation);
    }
    assert LiveTickets(s') == LiveTickets(s);
  }

  // A slot is lent.

  lemma CallFits(s: State, mac: nat, timeoutMs: nat)
    requires Inv(s) && NoWrap(s, Call(mac, timeoutMs))
    ensures var s' := AfterCall(s, mac, timeoutMs);
      Lent(s') && Fits(s')
  {
    hide Once, Recorded, Told;
    var s', t, i := AfterCall(s, mac, timeoutMs), s.nextTicket, FirstFree(s.slots, 0);
    forall u | u in s'.callers ensures Holds(s', u) {
      if u != t { assert Holds(s, u); }
    }
    forall r | Live(s', r) && Matches(s'.slots, r.slot, r.generation) ensures s'.slots[r.slot].owner == r.ticket {
      assert Live(s, r);
      assert r.slot != i;
      assert Matches(s.slots, r.slot, r.generation);
    }
  }

  lemma CallOnce(s: State, mac: nat, timeoutMs: nat)
    requires Inv(s)
    ensures Once(AfterCall(s, mac, timeoutMs))
  {
    hide Fits, Lent, Recorded, Matches, LiveTickets, Acquired;
    var s', t := AfterCall(s, mac, timeoutMs), s.nextTicket;
    SameLive(s, s');
    assert t !in LiveTickets(s);
  }

  lemma CallRecorded(s: State, mac: nat, timeoutMs: nat)
    requires Inv(s)
    ensures Recorded(AfterCall(s, mac, timeoutMs))
  {
    hide Fits, Lent, Once, Matches;
    var s', t, i := AfterCall(s, mac, timeoutMs), s.nextTicket, FirstFree(s.slots, 0);
    forall u | u in s'.callers && (s'.callers[u].Releasing? || s'.callers[u].Returned?)
      ensures Told(s', u, s'.callers[u].status, s'.callers[u].delivered)
    {
      if u != t { assert Told(s, u, s.callers[u].status, s.callers[u].delivered); }
    }
    forall j | 0 <= j < SLOT_COUNT && s'.slots[j].inUse
      ensures Told(s', s'.slots[j].owner, s'.slots[j].callbackReceived, s'.slots[j].delivered)
    {
      if j != i { assert Told(s, s.slots[j].owner, s.slots[j].callbackReceived, s.slots[j].delivered); }
    }
  }

  lemma CallKeeps(s: State, mac: nat, timeoutMs: nat)
    requires Inv(s) && NoWrap(s, Call(mac, timeoutMs))
    ensures Inv(AfterCall(s, mac, timeoutMs))
  {
    hide Fits, Lent, Once, Recorded, NoWrap;
    CallFits(s, mac, timeoutMs);
    CallOnce(s, mac, timeoutMs);
    CallRecorded(s, mac, timeoutMs);
  }

  // A request joins a queue: a new one without a slot, or that of an early caller.

  predicate Joins(s: State, s': State, k: nat, r: Request)
    requires |s.queues| == 3
  {
    && k < 3 && s'.queues == s.queues[k := s.queues[k] + [r]]
    && s'.slots == s.slots && s'.verdicts == s.verdicts && s'.worker == s.worker
    && if r.slot == NO_SLOT then
         r.ticket == s.nextTicket && s'.nextTicket == s.nextTicket + 1 && s'.callers == s.callers
       else
         r.ticket in s.callers && Early(s.callers[r.ticket]) && s'.nextTicket == s.nextTicket
         && r.slot == s.callers[r.ticket].slot && r.generation == s.callers[r.ticket].generation
         && s'.callers == s.callers[r.ticket := Waiting(r.slot, r.generation)]
  }

  lemma JoinTickets(s: State, s': State, k: nat, r: Request)
    requires |s.queues| == 3 && Joins(s, s', k, r)
    ensures LiveTickets(s') == LiveTickets(s) + multiset{r.ticket}
  {
    hide Tickets;
    TicketsAppend(s.queues[k], r);
  }

  lemma JoinOnce(s: State, s': State, k: nat, r: Request)
    requires Inv(s) && Joins(s, s', k, r)
    ensures Once(s')
  {
    hide LiveTickets, Lent, Fits, Recorded;
    JoinTickets(s, s', k, r);
    forall u ensures LiveTickets(s')[u] <= 1 {
      assert LiveTickets(s)[u] <= 1;
    }
    forall u | u in LiveTickets(s') ensures u < s'.nextTicket && u !in s'.verdicts {
      assert u == r.ticket || u in LiveTickets(s);
    }
  }

  lemma RequestJoins(s: State, s': State, k: nat, r: Request)
    requires Inv(s) && Joins(s, s', k, r)
    ensures Inv(s')
  {
    hide LiveTickets, Once;
    JoinOnce(s, s', k, r);
    forall u | u in s'.callers ensures Holds(s', u) { assert Holds(s, u); }
    forall x | Live(s', x) && Matches(s'.slots, x.slot, x.generation) ensures s'.slots[x.slot].owner == x.ticket {
      if x == r { assert r.slot != NO_SLOT && Holds(s, r.ticket); } else { assert Live(s, x); }
    }
  }

  /** A slot is given back. */
  lemma ReleaseKeeps(s: State, t: nat)
    requires Inv(s) && t in s.callers && s.callers[t].Releasing?
    ensures Inv(AfterRelease(s, t))
  {
    hide Once;
    var s' := AfterRelease(s, t);
    ReleaseOnce(s, t);
    assert Holds(s, t);
    forall u | u in s'.callers ensures Holds(s', u) { assert Holds(s, u); }
    forall r | Live(s', r) && Matches(s'.slots, r.slot, r.generation) ensures s'.slots[r.slot].owner == r.ticket {
      assert Live(s, r) && Matches(s.slots, r.slot, r.generation);
    }
    assert Told(s, t, s.callers[t].status, s.callers[t].delivered);
  }

  lemma ReleaseOnce(s: State, t: nat)
    requires Inv(s) && t in s.callers && s.callers[t].Releasing?
    ensures Once(AfterRelease(s, t))
  {
    hide Lent, Fits, Recorded, LiveTickets;
    SameLive(s, AfterRelease(s, t));
  }

  // A request goes from the front of a queue into the worker's hand.

  predicate Leaves(s: State, s': State, k: nat)
    requires |s.queues| == 3
  {
    && k < 3 && s.worker.Idle? && s.queues[k] != []
    && s'.queues == s.queues[k := s.queues[k][1..]] && s'.worker == Check(s.queues[k][0])
    && s'.slots == s.slots && s'.callers == s.callers && s'.verdicts == s.verdicts && s'.nextTicket == s.nextTicket
  }

  lemma LeaveTickets(s: State, s': State, k: nat)
    requires |s.queues| == 3 && Leaves(s, s', k)
    ensures LiveTickets(s') == LiveTickets(s)
  {
    hide Tickets;
    TicketsFirst(s.queues[k]);
    assert InHand(s'.worker) == multiset{s.queues[k][0].ticket} && InHand(s.worker) == multiset{};
    hide InHand;
    assert k == 0 || k == 1 || k == 2;
  }

  lemma TicketsFirst(q: seq<Request>)
    requires q != []
    ensures Tickets(q) == multiset{q[0].ticket} + Tickets(q[1..])
  {
  }

  lemma DequeueKeeps(s: State, s': State, k: nat)
    requires Inv(s) && Leaves(s, s', k)
    ensures Inv(s')
  {
    hide LiveTickets;
    LeaveTickets(s, s', k);
    forall x | Live(s', x) ensures Live(s, x) {}
    forall u | u in s'.callers ensures Holds(s', u) { assert Holds(s, u); }
  }

  // The critical section of completeRequest, for a request that fits its slot.

  lemma CompleteTickets(s: State)
    requires |s.queues| == 3 && s.worker.Complete? && Matches(s.slots, s.worker.req.slot, s.worker.req.generation)
    ensures LiveTickets(AfterComplete(s)) + multiset{s.worker.req.ticket} == LiveTickets(s)
  {
    hide Tickets;
  }

  lemma CompleteOnce(s: State)
    requires Inv(s) && s.worker.Complete? && Matches(s.slots, s.worker.req.slot, s.worker.req.generation)
    ensures Once(AfterComplete(s))
  {
    hide LiveTickets, Lent, Fits, Recorded;
    var s', r := AfterComplete(s), s.worker.req;
    CompleteTickets(s);
    assert r.ticket in LiveTickets(s);
    assert LiveTickets(s)[r.ticket] <= 1;
    forall u ensures LiveTickets(s')[u] <= 1 { assert LiveTickets(s)[u] <= 1; }
    forall u | u in LiveTickets(s') ensures u < s'.nextTicket && u !in s'.verdicts {
      assert u in LiveTickets(s) && u != r.ticket;
    }
    forall u | u in s'.callers && Early(s'.callers[u]) ensures u !in LiveTickets(s') && u !in s'.verdicts {
      assert u !in LiveTickets(s);
    }
  }

  lemma CompleteRecorded(s: State)
    requires Inv(s) && s.worker.Complete? && Matches(s.slots, s.worker.req.slot, s.worker.req.generation)
    ensures Recorded(AfterComplete(s))
  {
    hide LiveTickets, Lent;
    var s', r := AfterComplete(s), s.worker.req;
    assert Live(s, r) && s.slots[r.slot].owner == r.ticket;
    assert r.ticket !in s.verdicts by { LiveTicket(s, r); }
    forall u | u in s'.callers && (s'.callers[u].Releasing? || s'.callers[u].Returned?)
      ensures Told(s', u, s'.callers[u].status, s'.callers[u].delivered)
    {
      assert Told(s, u, s.callers[u].status, s.callers[u].delivered);
    }
    forall j | 0 <= j < SLOT_COUNT && s'.slots[j].inUse
      ensures Told(s', s'.slots[j].owner, s'.slots[j].callbackReceived, s'.slots[j].delivered)
    {
      assert Told(s, s.slots[j].owner, s.slots[j].callbackReceived, s.slots[j].delivered);
    }
  }

  lemma CompleteKeeps(s: State)
    requires Inv(s) && s.worker.Complete?
    ensures Inv(AfterComplete(s))
  {
    hide LiveTickets, Once, Recorded;
    var s', r := AfterComplete(s), s.worker.req;
    if !Matches(s.slots, r.slot, r.generation) {
      CompleteMisses(s);
      return;
    }
    CompleteOnce(s);
    CompleteRecorded(s);
    forall x | Live(s', x) && Matches(s'.slots, x.slot, x.generation) ensures s'.slots[x.slot].owner == x.ticket {
      assert Live(s, x) && Matches(s.slots, x.slot, x.generation);
    }
    forall u | u in s'.callers ensures Holds(s', u) { assert Holds(s, u); }
  }

  lemma CompleteMisses(s: State)
    requires Inv(s) && s.worker.Complete? && !Matches(s.slots, s.worker.req.slot, s.worker.req.generation)
    ensures Inv(AfterComplete(s))
  {
    hide Inv;
    WorkerMoves(s, AfterComplete(s));
  }

  // ----- every step, every run -----

  predicate WorkerAction(a: Action) {
    a.CheckActive? || a.CheckBudget? || a.ResetQueue? || a.Send? || a.Callback? || a.Lose? || a.Receive?
    || a.AwaitEnds? || a.GiveSignal? || a.GraceReceive? || a.GraceEnds? || a.DiscardAll?
  }

  /** Nothing the worker or the driver does, save the dequeue and the critical section of
      completeRequest, concerns anybody but the worker. */
  lemma WorkerSteps(s: State, a: Action)
    requires Enabled(s, a) && WorkerAction(a)
    ensures WorkerOnly(s, Next(s, a))
  {
    hide Next, WorkerOnly;
    if a.CheckActive? || a.CheckBudget? {
      CheckSteps(s, a);
    } else if a.Send? || a.AwaitEnds? {
      SendSteps(s, a);
    } else if a.Receive? {
      ReceiveSteps(s);
    } else {
      DriverSteps(s, a);
    }
  }

  lemma CheckSteps(s: State, a: Action)
    requires Enabled(s, a) && (a.CheckActive? || a.CheckBudget?)
    ensures WorkerOnly(s, Next(s, a))
  {
    hide StillActive;
  }

  lemma SendSteps(s: State, a: Action)
    requires Enabled(s, a) && (a.Send? || a.AwaitEnds?)
    ensures WorkerOnly(s, Next(s, a))
  {
  }

  lemma ReceiveSteps(s: State)
    requires Enabled(s, Receive)
    ensures WorkerOnly(s, Next(s, Receive))
  {
  }

  lemma DriverSteps(s: State, a: Action)
    requires Enabled(s, a)
    requires a.ResetQueue? || a.Callback? || a.Lose? || a.GiveSignal? || a.GraceReceive? || a.GraceEnds? || a.DiscardAll?
    ensures WorkerOnly(s, Next(s, a))
  {
    hide Without;
  }

  lemma CallerSteps(s: State, a: Action)
    requires Inv(s) && Enabled(s, a)
    requires a.Drain? || a.TakeSignal? || a.GiveUp? || a.Read?
    ensures Inv(Next(s, a))
  {
    hide Fits, Once, LiveTickets;
    var t := a.t;
    var c := s.callers[t];
    assert Holds(s, t);
    assert Told(s, s.slots[c.slot].owner, s.slots[c.slot].callbackReceived, s.slots[c.slot].delivered);
    CallerMoves(s, Next(s, a), t);
  }

  lemma EnqueueSteps(s: State, a: Action)
    requires Inv(s) && Enabled(s, a) && (a.CallAsync? || a.Enqueue?)
    ensures Inv(Next(s, a))
  {
    hide Lent, Fits, Once, Recorded, LiveTickets;
    var s' := Next(s, a);
    if |s.queues[a.k]| < QUEUE_DEPTH[a.k] {
      var r := s'.queues[a.k][|s.queues[a.k]|];
      assert s'.queues[a.k] == s.queues[a.k] + [r];
      RequestJoins(s, s', a.k, r);
    } else if a.Enqueue? {
      CallerMoves(s, s', a.t);
    } else {
      TicketSkipped(s, s');
    }
  }

  lemma TicketSkipped(s: State, s': State)
    requires Inv(s) && s' == s.(nextTicket := s.nextTicket + 1)
    ensures Inv(s')
  {
    hide LiveTickets;
    SameLive(s, s');
    forall u | u in s'.callers ensures Holds(s', u) { assert Holds(s, u); }
    forall r | Live(s', r) && Matches(s'.slots, r.slot, r.generation) ensures s'.slots[r.slot].owner == r.ticket {
      assert Live(s, r);
    }
  }

  lemma StepKeeps(s: State, a: Action)
    requires Inv(s) && Enabled(s, a) && NoWrap(s, a)
    ensures Inv(Next(s, a))
  {
    assert Shape(s);
    hide Inv, NoWrap, AfterCall, AfterRelease, AfterComplete, WorkerOnly;
    match a
    case Call(mac, timeoutMs) => CallKeeps(s, mac, timeoutMs);
    case CallAsync(_, _, _) => EnqueueSteps(s, a);
    case Enqueue(_, _, _) => EnqueueSteps(s, a);
    case Release(t) => ReleaseKeeps(s, t);
    case Dequeue(k) => DequeueKeeps(s, Next(s, a), k);
    case CompleteCritical => CompleteKeeps(s);
    case Drain(_) => CallerSteps(s, a);
    case TakeSignal(_) => CallerSteps(s, a);
    case GiveUp(_) => CallerSteps(s, a);
    case Read(_) => CallerSteps(s, a);
    case _ => WorkerSteps(s, a); WorkerMoves(s, Next(s, a));
  }

  lemma StartHolds()
    ensures Inv(START)
  {
    assert LiveTickets(START) == multiset{};
  }

  /** The state after a run of actions, or None if one of them was not possible. */
  function RunFrom(s: State, run: seq<Action>): Option<State>
    decreases |run|
  {
    if run == [] then Some(s)
    else if Enabled(s, run[0]) then RunFrom(Next(s, run[0]), run[1..])
    else None
  }

  ghost predicate NeverWraps(s: State, run: seq<Action>)
    decreases |run|
  {
    run == [] || (Enabled(s, run[0]) && NoWrap(s, run[0]) && NeverWraps(Next(s, run[0]), run[1..]))
  }

  lemma {:induction false} RunKeeps(s: State, run: seq<Action>)
    requires Inv(s) && NeverWraps(s, run)
    ensures RunFrom(s, run).Some? && Inv(RunFrom(s, run).value)
    decreases |run|
  {
    hide Inv, Enabled, Next;
    if run != [] {
      StepKeeps(s, run[0]);
      RunKeeps(Next(s, run[0]), run[1..]);
    }
  }

  /** After any run, a call that has returned a status has returned the verdict the worker
      reached for the request of that very call. */
  lemma VerdictOwnership(run: seq<Action>, t: nat)
    requires NeverWraps(START, run)
    ensures RunFrom(START, run).Some?
    ensures var s := RunFrom(START, run).value;
      t in s.callers && s.callers[t].Returned? && s.callers[t].status ==>
        t in s.verdicts && s.verdicts[t] == (true, s.callers[t].delivered)
  {
    hide Enabled, Next, LiveTickets, Lent, Fits, Once;
    StartHolds();
    RunKeeps(START, run);
    var s := RunFrom(START, run).value;
    if t in s.callers && s.callers[t].Returned? {
      assert Told(s, t, s.callers[t].status, s.callers[t].delivered);
    }
  }
}
