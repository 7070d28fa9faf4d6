/** The four completion slots of the radio transmitter and their critical sections.

    A slot is lent to one synchronous caller at a time; its generation tells a request of
    that caller from one of an earlier borrower.  `owner` is not in the source: it names
    the call a slot is lent to, so that the protocol can say whose verdict a slot holds. */
module CompletionSlots {
  import opened Common

  const NO_SLOT: nat := 0xFF
  const SLOT_COUNT: nat := 4

  datatype Slot = Slot(inUse: bool, generation: nat, callbackReceived: bool, delivered: bool,
                       signal: bool, owner: nat)

  type Slots = s: seq<Slot> | |s| == 4
    witness [Slot(false, 0, false, false, false, 0), Slot(false, 0, false, false, false, 0),
             Slot(false, 0, false, false, false, 0), Slot(false, 0, false, false, false, 0)]

  /** A 32-bit counter that skips zero. */
  function NextGeneration(g: nat): nat {
    var n := (g + 1) % UINT32;
    if n == 0 then 1 else n
  }

  /** The first free slot from i on, or SLOT_COUNT. */
  function FirstFree(slots: Slots, i: nat): (r: nat)
    requires i <= SLOT_COUNT
    ensures i <= r <= SLOT_COUNT && (forall j | i <= j < r :: slots[j].inUse) && (r < SLOT_COUNT ==> !slots[r].inUse)
    decreases SLOT_COUNT - i
  {
    if i == SLOT_COUNT || !slots[i].inUse then i else FirstFree(slots, i + 1)
  }

  /** The critical section of acquireCompletionSlot: all slots after it. */
  function Acquired(slots: Slots, owner: nat): Slots {
    var i := FirstFree(slots, 0);
    if i == SLOT_COUNT then slots
    else slots[i := slots[i].(inUse := true, generation := NextGeneration(slots[i].generation),
                              callbackReceived := false, delivered := false, owner := owner)]
  }

  predicate Matches(slots: Slots, slot: nat, generation: nat) {
    slot < SLOT_COUNT && slots[slot].inUse && slots[slot].generation == generation
  }

  /** The critical section of releaseCompletionSlot. */
  function Released(slots: Slots, slot: nat, generation: nat): Slots {
    if Matches(slots, slot, generation)
    then slots[slot := slots[slot].(inUse := false, callbackReceived := false, delivered := false)]
    else slots
  }

  /** completionStillActive. */
  predicate StillActive(slots: Slots, slot: nat, generation: nat) {
    slot >= SLOT_COUNT || Matches(slots, slot, generation)
  }

  /** The critical section of completeRequest; its semaphore is given later. */
  function Completed(slots: Slots, slot: nat, generation: nat, received: bool, delivered: bool): Slots {
    if Matches(slots, slot, generation)
    then slots[slot := slots[slot].(callbackReceived := received, delivered := delivered)]
    else slots
  }

  function Signalled(slots: Slots, slot: nat, on: bool): Slots
    requires slot < SLOT_COUNT
  {
    slots[slot := slots[slot].(signal := on)]
  }

  /** The slots as the code holds them: one array that each critical section updates. */
  class SlotTable {
    const table: array<Slot>

    constructor ()
      ensures table.Length == SLOT_COUNT && fresh(table)
      ensures forall i | 0 <= i < SLOT_COUNT :: table[i] == Slot(false, 0, false, false, false, 0)
    {
      table := new Slot[4](_ => Slot(false, 0, false, false, false, 0));
    }

    /** acquireCompletionSlot: the slot or -1, and the generation it was lent with.  The drain
        of the semaphore after the critical section is a step of its own in TxProtocol. */
    method Acquire(owner: nat) returns (selected: int, generation: nat)
      requires table.Length == SLOT_COUNT
      modifies table
      ensures table[..] == Acquired(old(table[..]), owner)
      ensures var i := FirstFree(old(table[..]), 0);
        if i == SLOT_COUNT then selected == -1
        else selected == i && generation == table[i].generation && generation != 0
    {
      selected, generation := -1, 0;
      for i := 0 to SLOT_COUNT
        invariant table[..] == old(table[..]) && selected == -1
        invariant FirstFree(table[..], i) == FirstFree(table[..], 0)
      {
        if !table[i].inUse {
          generation := NextGeneration(table[i].generation);
          table[i] := table[i].(inUse := true, generation := generation,
                                callbackReceived := false, delivered := false, owner := owner);
          selected := i;
          break;
        }
      }
    }

    /** releaseCompletionSlot. */
    method Release(index: nat, generation: nat)
      requires table.Length == SLOT_COUNT
      modifies table
      ensures table[..] == Released(old(table[..]), index, generation)
    {
      if index >= SLOT_COUNT {
        return;
      }
      if table[index].inUse && table[index].generation == generation {
        table[index] := table[index].(inUse := false, callbackReceived := false, delivered := false);
      }
    }

    /** completionStillActive. */
    method IsStillActive(slot: nat, generation: nat) returns (active: bool)
      requires table.Length == SLOT_COUNT
      ensures active == StillActive(table[..], slot, generation)
    {
      if slot == NO_SLOT || slot >= SLOT_COUNT {
        return true;
      }
      active := table[slot].inUse && table[slot].generation == generation;
    }

    /** completeRequest up to the end of its critical section; the result says whether a
        semaphore is still to be given. */
    method Complete(slot: nat, generation: nat, received: bool, delivered: bool) returns (give: bool)
      requires table.Length == SLOT_COUNT
      modifies table
      ensures table[..] == Completed(old(table[..]), slot, generation, received, delivered)
      ensures give == Matches(old(table[..]), slot, generation)
    {
      if slot == NO_SLOT || slot >= SLOT_COUNT {
        return false;
      }
      give := false;
      if table[slot].inUse && table[slot].generation == generation {
        table[slot] := table[slot].(callbackReceived := received, delivered := delivered);
        give := true;
      }
    }
  }
}
