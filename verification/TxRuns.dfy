/** Where the guarantees of the transmitter end: the exact condition for a request's status to be
    its own, and what a semaphore given late does. */
module TxRuns {
  import opened Common
  import opened CompletionSlots
  import opened TxProtocol
  import opened TxOwnership
  import opened TxLedger
  import opened TxAttribution

  lemma OneMore(s: State, a: Action, rest: seq<Action>)
    requires Enabled(s, a)
    ensures RunFrom(s, [a] + rest) == RunFrom(Next(s, a), rest)
    ensures !a.Call? && NeverWraps(Next(s, a), rest) ==> NeverWraps(s, [a] + rest)
  {
    assert ([a] + rest)[0] == a && ([a] + rest)[1..] == rest;
  }

  lemma NoMore(s: State)
    ensures RunFrom(s, []) == Some(s) && NeverWraps(s, [])
  {
  }

  /** A request is sent, and a callback that was still to come for an earlier transmission
      arrives before its own. */
  function LateRun(i: nat, success: bool): seq<Action> {
    [ResetQueue] + ([Send(true, success)] + ([Callback(i)] + ([Receive] + [])))
  }

  /** From every state in which the worker is about to empty the queue while a callback for
      the address of its request is still to come, the request can complete with that status
      although the driver reported the opposite for it. */
  lemma LateCallbackMisattributes(s: State, i: nat)
    requires s.worker.Reset? && |s.queues| == 3 && i < |s.inFlight| && s.inFlight[i].mac == s.worker.req.mac
    ensures var k := s.worker.req.ticket;
      var run := LateRun(i, !s.inFlight[i].success);
      && NeverWraps(s, run) && RunFrom(s, run).Some? && !Attributed(RunFrom(s, run).value, k)
  {
    hide RunFrom, NeverWraps;
    var r, st := s.worker.req, s.inFlight[i];
    var late := [Callback(i)] + ([Receive] + []);
    OneMore(s, ResetQueue, [Send(true, !st.success)] + late);
    var s1 := s.(driverQueue := [], worker := Submit(r));
    OneMore(s1, Send(true, !st.success), late);
    var s2 := s1.(inFlight := s1.inFlight + [Status(r.mac, r.ticket, !st.success)],
      reported := s1.reported[r.ticket := !st.success], worker := Await(r));
    assert s2.inFlight[i] == st;
    OneMore(s2, Callback(i), [Receive] + []);
    var s3 := Next(s2, Callback(i));
    OneMore(s3, Receive, []);
    NoMore(Next(s3, Receive));
  }

  /** In every continuation, request k has its own status if it has one. */
  ghost predicate AlwaysOwn(s: State, k: nat) {
    forall more | NeverWraps(s, more) :: RunFrom(s, more).Some? && Attributed(RunFrom(s, more).value, k)
  }

  /** After any run that has brought a request to the point where the queue is emptied for it:
      its status is its own in every continuation if and only if no callback for its address
      is still to come. */
  lemma AttributionIsExact(run: seq<Action>)
    requires NeverWraps(START, run) && RunFrom(START, run).Some? && RunFrom(START, run).value.worker.Reset?
    ensures var s := RunFrom(START, run).value;
      Quiet(s) <==> AlwaysOwn(s, s.worker.req.ticket)
  {
    hide *;
    StartLedger();
    StartHonest();
    HonestRun(START, run);
    AttributionExactAt(RunFrom(START, run).value);
  }

  lemma StartHonest()
    ensures Honest(START)
  {
  }

  lemma AttributionExactAt(s: State)
    requires Ledger(s) && Honest(s) && s.worker.Reset?
    ensures Quiet(s) <==> AlwaysOwn(s, s.worker.req.ticket)
  {
    hide Enabled, Next, NeverWraps, RunFrom, Truthful, Counted, VerdictIsOutcome, QueueTickets, Lent, Fits, Once, Recorded;
    var k := s.worker.req.ticket;
    if Quiet(s) {
      assert Traced(s, k) && Waits(s, k);
      forall more | NeverWraps(s, more) ensures RunFrom(s, more).Some? && Attributed(RunFrom(s, more).value, k) {
        QuietContinues(s, more, k);
        TracedRun(s, more, k);
      }
    } else {
      var st :| st in s.inFlight && st.mac == s.worker.req.mac;
      var i :| 0 <= i < |s.inFlight| && s.inFlight[i] == st;
      LateCallbackMisattributes(s, i);
    }
  }

  lemma LateStart(s: State, mac: nat, rest: seq<Action>) returns (s': State)
    requires s.worker.Idle? && s.queues == [[], [], []]
    ensures s' == s.(nextTicket := s.nextTicket + 1, taken := s.taken + {s.nextTicket},
      worker := Reset(Request(s.nextTicket, mac, NO_SLOT, 0, 0, 60)))
    ensures RunFrom(s, [CallAsync(mac, 0, 0)] + ([Dequeue(0)] + ([CheckActive] + ([CheckBudget(0)] + rest))))
         == RunFrom(s', rest)
  {
    hide RunFrom, NeverWraps;
    var r := Request(s.nextTicket, mac, NO_SLOT, 0, 0, 60);
    var tail := [CheckActive] + ([CheckBudget(0)] + rest);
    OneMore(s, CallAsync(mac, 0, 0), [Dequeue(0)] + tail);
    var s0 := s.(nextTicket := s.nextTicket + 1, queues := [[r], [], []]);
    assert Next(s, CallAsync(mac, 0, 0)) == s0 by {
      assert s.queues[0] + [r] == [r];
      assert s.queues[0 := [r]] == s0.queues;
    }
    OneMore(s0, Dequeue(0), tail);
    var s1 := s.(nextTicket := s.nextTicket + 1, taken := s.taken + {s.nextTicket}, worker := Check(r));
    assert Next(s0, Dequeue(0)) == s1 by {
      assert s0.queues[0][1..] == [];
      assert s0.queues[0 := []] == s1.queues;
    }
    OneMore(s1, CheckActive, [CheckBudget(0)] + rest);
    var s2 := s1.(worker := Budget(r));
    assert Next(s1, CheckActive) == s2;
    OneMore(s2, CheckBudget(0), rest);
    s' := s1.(worker := Reset(r));
  }

  /** A request whose callback does not come within the wait and the grace window, and then
      another one to the same address. */
  function MissedRun(mac: nat, success: bool): seq<Action> {
    [CallAsync(mac, 0, 0)] + ([Dequeue(0)] + ([CheckActive] + ([CheckBudget(0)] + ([ResetQueue] +
      ([Send(true, success)] + ([AwaitEnds] + ([CompleteCritical] + ([GraceEnds] + ([DiscardAll] +
      NextRun(mac))))))))))
  }

  function NextRun(mac: nat): seq<Action> {
    [CallAsync(mac, 0, 0)] + ([Dequeue(0)] + ([CheckActive] + ([CheckBudget(0)] + [])))
  }

  /** Such states are reached from the start, for every address and either status. */
  lemma LateStateReached(mac: nat, success: bool)
    ensures RunFrom(START, MissedRun(mac, success)).Some?
    ensures var s := RunFrom(START, MissedRun(mac, success)).value;
      s.worker.Reset? && |s.queues| == 3 && s.worker.req.mac == mac && s.inFlight == [Status(mac, 0, success)]
  {
    hide RunFrom, NextRun;
    var r := Request(0, mac, NO_SLOT, 0, 0, 60);
    var end := [AwaitEnds] + ([CompleteCritical] + ([GraceEnds] + ([DiscardAll] + NextRun(mac))));
    var s3 := LateStart(START, mac, [ResetQueue] + ([Send(true, success)] + end));
    OneMore(s3, ResetQueue, [Send(true, success)] + end);
    var s4 := s3.(worker := Submit(r));
    OneMore(s4, Send(true, success), end);
    var s5 := s4.(inFlight := [Status(mac, 0, success)], reported := map[0 := success], worker := Await(r));
    assert s4.inFlight + [Status(mac, 0, success)] == s5.inFlight;
    var s6 := MissedEnd(s5, NextRun(mac));
    NextRequest(s6, mac);
  }

  lemma NextRequest(s: State, mac: nat)
    requires s.worker.Idle? && s.queues == [[], [], []]
    ensures RunFrom(s, NextRun(mac)).Some?
    ensures var s' := RunFrom(s, NextRun(mac)).value;
      s'.worker.Reset? && s'.queues == s.queues && s'.worker.req.mac == mac && s'.inFlight == s.inFlight
  {
    hide RunFrom, NeverWraps;
    var s' := LateStart(s, mac, []);
    NoMore(s');
  }

  lemma MissedEnd(s: State, rest: seq<Action>) returns (s': State)
    requires s.worker.Await? && s.worker.req.slot == NO_SLOT && |s.queues| == 3
    ensures RunFrom(s, [AwaitEnds] + ([CompleteCritical] + ([GraceEnds] + ([DiscardAll] + rest)))) == RunFrom(s', rest)
    ensures s'.worker.Idle? && s'.queues == s.queues && s'.inFlight == s.inFlight
  {
    hide RunFrom, NeverWraps;
    var r := s.worker.req;
    OneMore(s, AwaitEnds, [CompleteCritical] + ([GraceEnds] + ([DiscardAll] + rest)));
    var s1 := Next(s, AwaitEnds);
    OneMore(s1, CompleteCritical, [GraceEnds] + ([DiscardAll] + rest));
    var s2 := s1.(worker := Grace(r.mac));
    OneMore(s2, GraceEnds, [DiscardAll] + rest);
    var s3 := s2.(worker := Discard);
    OneMore(s3, DiscardAll, rest);
    s' := Next(s3, DiscardAll);
  }

  /** A caller gives up between the critical section of completeRequest and its give; the
      next call borrows the slot and the semaphore is given to it. */
  function StaleRun(u: nat, t: nat, mac: nat, k: nat): seq<Action> {
    [GiveUp(u)] + ([Release(u)] + ([Call(mac, 100)] + ([Drain(t)] + ([GiveSignal] + ([Enqueue(t, k, 0)] +
      ([TakeSignal(t)] + ([Read(t)] + ([Release(t)] + []))))))))
  }

  /** Slot i is lent, and it would be the first free one if it were not. */
  predicate FirstIfFree(slots: Slots, i: nat) {
    i < SLOT_COUNT && forall j | 0 <= j <= i :: slots[j].inUse
  }

  /** A stale give costs the new borrower its status, whichever slot and queue: it returns
      without one while its request is still the last of its queue, and so cannot report a
      status that is not its own. */
  lemma StaleGiveSilences(s: State, u: nat, i: nat, mac: nat, k: nat)
    requires |s.queues| == 3 && k < 3 && |s.queues[k]| < QUEUE_DEPTH[k]
    requires s.worker.Give? && s.worker.slot == i && u in s.callers && u < s.nextTicket && FirstIfFree(s.slots, i)
    requires s.callers[u] == Waiting(i, s.slots[i].generation)
    ensures var end := RunFrom(s, StaleRun(u, s.nextTicket, mac, k));
      && end.Some?
      && s.nextTicket in end.value.callers && end.value.callers[s.nextTicket] == Returned(false, false)
      && |end.value.queues| == 3 && |end.value.queues[k]| == |s.queues[k]| + 1
      && end.value.queues[k][|s.queues[k]|].ticket == s.nextTicket
  {
    hide RunFrom, NeverWraps;
    var t := s.nextTicket;
    var rest := [Enqueue(t, k, 0)] + ([TakeSignal(t)] + ([Read(t)] + ([Release(t)] + [])));
    var s4 := StaleBorrow(s, u, i, mac, rest);
    StaleEnd(s4, t, i, k);
  }

  lemma StaleBorrow(s: State, u: nat, i: nat, mac: nat, rest: seq<Action>) returns (s': State)
    requires |s.queues| == 3
    requires s.worker.Give? && s.worker.slot == i && u in s.callers && u < s.nextTicket && FirstIfFree(s.slots, i)
    requires s.callers[u] == Waiting(i, s.slots[i].generation)
    ensures var t := s.nextTicket;
      && RunFrom(s, [GiveUp(u)] + ([Release(u)] + ([Call(mac, 100)] + ([Drain(t)] + ([GiveSignal] + rest)))))
        == RunFrom(s', rest)
      && s'.queues == s.queues && t in s'.callers && s'.callers[t] == Enqueuing(i, s'.slots[i].generation, mac, 100)
      && s'.slots[i].inUse && s'.slots[i].signal && !s'.slots[i].callbackReceived && !s'.slots[i].delivered
  {
    hide RunFrom, NeverWraps;
    var t := s.nextTicket;
    var g := s.slots[i].generation;
    OneMore(s, GiveUp(u), [Release(u)] + ([Call(mac, 100)] + ([Drain(t)] + ([GiveSignal] + rest))));
    var s0 := s.(callers := s.callers[u := Releasing(i, g, false, false)]);
    OneMore(s0, Release(u), [Call(mac, 100)] + ([Drain(t)] + ([GiveSignal] + rest)));
    var s1 := s0.(slots := Released(s.slots, i, g), callers := s0.callers[u := Returned(false, false)]);
    assert FirstFree(s1.slots, 0) == i;
    OneMore(s1, Call(mac, 100), [Drain(t)] + ([GiveSignal] + rest));
    var s2 := Next(s1, Call(mac, 100));
    OneMore(s2, Drain(t), [GiveSignal] + rest);
    var s3 := Next(s2, Drain(t));
    OneMore(s3, GiveSignal, rest);
    s' := Next(s3, GiveSignal);
  }

  lemma StaleEnd(s: State, t: nat, i: nat, k: nat)
    requires |s.queues| == 3 && k < 3 && |s.queues[k]| < QUEUE_DEPTH[k] && i < SLOT_COUNT
    requires t in s.callers && s.callers[t].Enqueuing?
    requires s.callers[t].slot == i && s.callers[t].generation == s.slots[i].generation
    requires s.slots[i].inUse && s.slots[i].signal && !s.slots[i].callbackReceived && !s.slots[i].delivered
    ensures var end := RunFrom(s, [Enqueue(t, k, 0)] + ([TakeSignal(t)] + ([Read(t)] + ([Release(t)] + []))));
      && end.Some? && t in end.value.callers && end.value.callers[t] == Returned(false, false)
      && |end.value.queues| == 3 && |end.value.queues[k]| == |s.queues[k]| + 1
      && end.value.queues[k][|s.queues[k]|].ticket == t
  {
    hide RunFrom, NeverWraps;
    OneMore(s, Enqueue(t, k, 0), [TakeSignal(t)] + ([Read(t)] + ([Release(t)] + [])));
    var s1 := Next(s, Enqueue(t, k, 0));
    OneMore(s1, TakeSignal(t), [Read(t)] + ([Release(t)] + []));
    var s2 := Next(s1, TakeSignal(t));
    OneMore(s2, Read(t), [Release(t)] + []);
    var s3 := Next(s2, Read(t));
    OneMore(s3, Release(t), []);
    NoMore(Next(s3, Release(t)));
  }
}
