/** The radio transmitter as a protocol: callers, one worker and the driver's callbacks.

    State is everything they share and where each of them stands; an Action is one atomic
    step of one of them.  The critical section of completeRequest and the semaphore that is
    given after it are two steps, and so are everything else that another task can come
    between.  `verdicts`, `outcomes`, `taken` and `reported` are a history that no step
    reads: what each request was told, how it ended, and what the driver reported for it.

    A request is named by the ticket of the call that made it. */
module TxProtocol {
  import opened Common
  import opened CompletionSlots

  const DRIVER_QUEUE_DEPTH: nat := 4
  const QUEUE_DEPTH: seq<nat> := [6, 4, 12]

  datatype Request = Request(ticket: nat, mac: nat, slot: nat, generation: nat, enqueuedMs: nat, timeoutMs: nat)

  datatype Status = Status(mac: nat, ticket: nat, success: bool)

  /** Where a synchronous call stands, from the critical section that lent it a slot on. */
  datatype Caller =
    | Draining(slot: nat, generation: nat, mac: nat, timeoutMs: nat)
    | Enqueuing(slot: nat, generation: nat, mac: nat, timeoutMs: nat)
    | Waiting(slot: nat, generation: nat)
    | Reading(slot: nat, generation: nat)
    | Releasing(slot: nat, generation: nat, status: bool, delivered: bool)
    | Returned(status: bool, delivered: bool)

  datatype Worker =
    | Idle
    | Check(req: Request)
    | Budget(req: Request)
    | Reset(req: Request)
    | Submit(req: Request)
    | Await(req: Request)
    | Complete(req: Request, received: bool, delivered: bool, late: bool)
    | Give(slot: nat, late: bool, mac: nat)
    | Grace(mac: nat)
    | Discard

  datatype Outcome = Cancelled | Expired | DriverRejected | TimedOut | Completed(delivered: bool)

  datatype State = State(
    slots: Slots,
    callers: map<nat, Caller>,
    queues: seq<seq<Request>>,
    worker: Worker,
    driverQueue: seq<Status>,
    inFlight: seq<Status>,
    nextTicket: nat,
    rejected: nat, timeouts: nat, received: nat,
    taken: set<nat>,
    verdicts: map<nat, (bool, bool)>,
    outcomes: map<nat, Outcome>,
    reported: map<nat, bool>)

  datatype Action =
    | Call(mac: nat, timeoutMs: nat)
    | CallAsync(mac: nat, k: nat, now: nat)
    | Drain(t: nat)
    | Enqueue(t: nat, k: nat, now: nat)
    | TakeSignal(t: nat)
    | GiveUp(t: nat)
    | Read(t: nat)
    | Release(t: nat)
    | Dequeue(k: nat)
    | CheckActive
    | CheckBudget(now: nat)
    | ResetQueue
    | Send(accepted: bool, success: bool)
    | Callback(i: nat)
    | Lose(i: nat)
    | Receive
    | AwaitEnds
    | CompleteCritical
    | GiveSignal
    | GraceReceive
    | GraceEnds
    | DiscardAll

  const START := State(
    seq(4, _ => Slot(false, 0, false, false, false, 0)), map[], [[], [], []], Idle, [], [], 0,
    0, 0, 0, {}, map[], map[], map[])

  predicate Enabled(s: State, a: Action) {
    && |s.queues| == 3
    && match a
       case Call(_, timeoutMs) => timeoutMs > 0
       case CallAsync(_, k, _) => k < 3
       case Drain(t) => t in s.callers && s.callers[t].Draining? && s.callers[t].slot < SLOT_COUNT
       case Enqueue(t, k, _) => t in s.callers && s.callers[t].Enqueuing? && k < 3
       case TakeSignal(t) =>
         t in s.callers && s.callers[t].Waiting? && s.callers[t].slot < SLOT_COUNT && s.slots[s.callers[t].slot].signal
       case GiveUp(t) => t in s.callers && s.callers[t].Waiting?
       case Read(t) => t in s.callers && s.callers[t].Reading? && s.callers[t].slot < SLOT_COUNT
       case Release(t) => t in s.callers && s.callers[t].Releasing?
       case Dequeue(k) => k < 3 && s.worker.Idle? && s.queues[k] != []
       case CheckActive => s.worker.Check?
       case CheckBudget(_) => s.worker.Budget?
       case ResetQueue => s.worker.Reset?
       case Send(_, _) => s.worker.Submit?
       case Callback(i) => i < |s.inFlight|
       case Lose(i) => i < |s.inFlight|
       case Receive => s.worker.Await? && s.driverQueue != []
       case AwaitEnds => s.worker.Await?
       case CompleteCritical => s.worker.Complete?
       case GiveSignal => s.worker.Give? && s.worker.slot < SLOT_COUNT
       case GraceReceive => s.worker.Grace? && s.driverQueue != []
       case GraceEnds => s.worker.Grace?
       case DiscardAll => s.worker.Discard?
  }

  /** sendToMacWithStatus up to the critical section that lends the slot. */
  function AfterCall(s: State, mac: nat, timeoutMs: nat): State {
    var t := s.nextTicket;
    var i := FirstFree(s.slots, 0);
    if i == SLOT_COUNT then s.(nextTicket := t + 1, callers := s.callers[t := Returned(false, false)])
    else
      var slots := Acquired(s.slots, t);
      s.(nextTicket := t + 1, slots := slots,
         callers := s.callers[t := Draining(i, slots[i].generation, mac, timeoutMs)])
  }

  function Enqueued(s: State, k: nat, r: Request): State
    requires |s.queues| == 3 && k < 3
  {
    s.(queues := s.queues[k := s.queues[k] + [r]])
  }

  /** enqueueRequest for a synchronous call: a full queue sends it to its release. */
  function AfterEnqueue(s: State, t: nat, k: nat, now: nat): State
    requires |s.queues| == 3 && k < 3 && t in s.callers && s.callers[t].Enqueuing?
  {
    var c := s.callers[t];
    if |s.queues[k]| < QUEUE_DEPTH[k] then
      Enqueued(s, k, Request(t, c.mac, c.slot, c.generation, now, c.timeoutMs))
        .(callers := s.callers[t := Waiting(c.slot, c.generation)])
    else s.(callers := s.callers[t := Releasing(c.slot, c.generation, false, false)])
  }

  /** sendToMac: a request without a slot, or none if the queue is full. */
  function AfterCallAsync(s: State, mac: nat, k: nat, now: nat): State
    requires |s.queues| == 3 && k < 3
  {
    var s' := s.(nextTicket := s.nextTicket + 1);
    if |s.queues[k]| < QUEUE_DEPTH[k]
    then Enqueued(s', k, Request(s.nextTicket, mac, NO_SLOT, 0, now, 60)) else s'
  }

  /** The critical section in which the caller reads its slot. */
  function AfterRead(s: State, t: nat): State
    requires t in s.callers && s.callers[t].Reading? && s.callers[t].slot < SLOT_COUNT
  {
    var c := s.callers[t];
    var slot := s.slots[c.slot];
    if Matches(s.slots, c.slot, c.generation)
    then s.(callers := s.callers[t := Releasing(c.slot, c.generation, slot.callbackReceived, slot.delivered)])
    else s.(callers := s.callers[t := Releasing(c.slot, c.generation, false, false)])
  }

  function AfterRelease(s: State, t: nat): State
    requires t in s.callers && s.callers[t].Releasing?
  {
    var c := s.callers[t];
    s.(slots := Released(s.slots, c.slot, c.generation),
       callers := s.callers[t := Returned(c.status, c.delivered)])
  }

  /** The worker ends a request: how it ended is on record, its caller is told next. */
  function Ended(s: State, r: Request, o: Outcome, late: bool): State {
    s.(outcomes := s.outcomes[r.ticket := o],
       worker := match o
         case Cancelled => Idle
         case Completed(d) => Complete(r, true, d, late)
         case _ => Complete(r, false, false, late))
  }

  function AfterCheckBudget(s: State, now: nat): State
    requires s.worker.Budget?
  {
    var r := s.worker.req;
    if r.slot != NO_SLOT && (now + UINT32 - r.enqueuedMs % UINT32) % UINT32 >= r.timeoutMs
    then Ended(s, r, Expired, false)
    else s.(worker := Reset(r))
  }

  /** A status for another address is dropped and the wait goes on. */
  function AfterReceive(s: State): State
    requires s.worker.Await? && s.driverQueue != []
  {
    var r, st := s.worker.req, s.driverQueue[0];
    var s' := s.(driverQueue := s.driverQueue[1..]);
    if st.mac != r.mac then s'
    else Ended(s'.(received := s.received + 1), r, Completed(st.success), false)
  }

  function AfterComplete(s: State): State
    requires s.worker.Complete?
  {
    var Complete(r, received, delivered, late) := s.worker;
    var next := if late then Grace(r.mac) else Idle;
    if Matches(s.slots, r.slot, r.generation) then
      s.(slots := CompletionSlots.Completed(s.slots, r.slot, r.generation, received, delivered),
         verdicts := s.verdicts[r.ticket := (received, delivered)],
         worker := Give(r.slot, late, r.mac))
    else s.(worker := next)
  }

  function AfterGraceReceive(s: State): State
    requires s.worker.Grace? && s.driverQueue != []
  {
    var s' := s.(driverQueue := s.driverQueue[1..]);
    if s.driverQueue[0].mac == s.worker.mac then s'.(received := s.received + 1, worker := Discard) else s'
  }

  function Without<T>(xs: seq<T>, i: nat): seq<T>
    requires i < |xs|
  {
    xs[..i] + xs[i + 1..]
  }

  /** A callback: its status joins the driver queue, or is dropped if that is full. */
  function AfterCallback(s: State, i: nat): State
    requires i < |s.inFlight|
  {
    var st := s.inFlight[i];
    s.(inFlight := Without(s.inFlight, i),
       driverQueue := if |s.driverQueue| < DRIVER_QUEUE_DEPTH then s.driverQueue + [st] else s.driverQueue)
  }

  function Next(s: State, a: Action): State
    requires Enabled(s, a)
  {
    match a
    case Call(mac, timeoutMs) => AfterCall(s, mac, timeoutMs)
    case CallAsync(mac, k, now) => AfterCallAsync(s, mac, k, now)
    case Drain(t) =>
      var c := s.callers[t];
      s.(slots := Signalled(s.slots, c.slot, false),
         callers := s.callers[t := Enqueuing(c.slot, c.generation, c.mac, c.timeoutMs)])
    case Enqueue(t, k, now) => AfterEnqueue(s, t, k, now)
    case TakeSignal(t) =>
      var c := s.callers[t];
      s.(slots := Signalled(s.slots, c.slot, false), callers := s.callers[t := Reading(c.slot, c.generation)])
    case GiveUp(t) =>
      var c := s.callers[t];
      s.(callers := s.callers[t := Releasing(c.slot, c.generation, false, false)])
    case Read(t) => AfterRead(s, t)
    case Release(t) => AfterRelease(s, t)
    case Dequeue(k) =>
      var r := s.queues[k][0];
      s.(queues := s.queues[k := s.queues[k][1..]], worker := Check(r), taken := s.taken + {r.ticket})
    case CheckActive =>
      var r := s.worker.req;
      if StillActive(s.slots, r.slot, r.generation) then s.(worker := Budget(r)) else Ended(s, r, Cancelled, false)
    case CheckBudget(now) => AfterCheckBudget(s, now)
    case ResetQueue => s.(driverQueue := [], worker := Submit(s.worker.req))
    case Send(accepted, success) =>
      var r := s.worker.req;
      if accepted then
        s.(inFlight := s.inFlight + [Status(r.mac, r.ticket, success)],
           reported := s.reported[r.ticket := success], worker := Await(r))
      else Ended(s.(rejected := s.rejected + 1), r, DriverRejected, false)
    case Callback(i) => AfterCallback(s, i)
    case Lose(i) => s.(inFlight := Without(s.inFlight, i))
    case Receive => AfterReceive(s)
    case AwaitEnds => Ended(s.(timeouts := s.timeouts + 1), s.worker.req, TimedOut, true)
    case CompleteCritical => AfterComplete(s)
    case GiveSignal =>
      s.(slots := Signalled(s.slots, s.worker.slot, true),
         worker := if s.worker.late then Grace(s.worker.mac) else Idle)
    case GraceReceive => AfterGraceReceive(s)
    case GraceEnds => s.(worker := Discard)
    case DiscardAll => s.(driverQueue := [], worker := Idle)
  }
}
