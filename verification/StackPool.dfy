/** The pool of private address spaces and the stack slots inside each of them. */
module StackPool {
  import opened Base

  const USER_BASE: nat := 0x0100_0000
  const FIRST_USER_ENTRY: nat := USER_BASE
  const FIRST_USER_STACK_TOP: nat := 0x0140_0000
  const USER_STACK_GUARD_SIZE: nat := 0x1000
  const USER_STACK_SIZE: nat := 0x4000
  const USER_STACK_SLOT_SIZE: nat := 0x5000
  const STACK_SLOTS: nat := 8
  const PRIVATE_P4_POOL_SIZE: nat := 8

  function StackTop(index: nat): nat
    requires index < STACK_SLOTS
  {
    FIRST_USER_STACK_TOP - index * USER_STACK_SLOT_SIZE
  }

  function StackRangeForSlot(index: nat): (nat, nat)
    requires index < STACK_SLOTS
  {
    (StackTop(index) - USER_STACK_SIZE, StackTop(index))
  }

  function StackSlotIndex(stackTop: nat): (r: Option<nat>)
    ensures r.Some? ==> r.value < STACK_SLOTS
  {
    if stackTop > FIRST_USER_STACK_TOP then None
    else
      var offset := FIRST_USER_STACK_TOP - stackTop;
      if offset % USER_STACK_SLOT_SIZE != 0 then None
      else
        var index := offset / USER_STACK_SLOT_SIZE;
        if index < STACK_SLOTS then Some(index) else None
  }

  function StackTopForPid(pid: nat): nat
  {
    StackTop((if pid < 2 then 0 else pid - 2) % STACK_SLOTS)
  }

  /** A stack top names a slot exactly when it is that slot's top. */
  lemma SlotIndexIff(stackTop: nat, index: nat)
    ensures StackSlotIndex(stackTop) == Some(index) <==> index < STACK_SLOTS && stackTop == StackTop(index)
  {
  }

  /** Two different slots are at least a guard page apart, below the top and above the program area's end. */
  lemma StacksApart(i: nat, j: nat)
    requires i < j < STACK_SLOTS
    ensures StackRangeForSlot(j).1 + USER_STACK_GUARD_SIZE <= StackRangeForSlot(i).0
    ensures FIRST_USER_ENTRY < StackRangeForSlot(j).0
  {
  }

  /** The main stacks of successive PIDs, from 2 on, go down slot by slot and start over after eight. */
  lemma MainStackCycle(pid: nat)
    ensures StackTopForPid(2) == FIRST_USER_STACK_TOP
    ensures pid >= 2 ==> StackTopForPid(pid + STACK_SLOTS) == StackTopForPid(pid)
    ensures pid >= 2 ==> StackTopForPid(pid + 1) == FIRST_USER_STACK_TOP ||
                         StackTopForPid(pid + 1) + USER_STACK_SLOT_SIZE == StackTopForPid(pid)
    ensures exists j: nat | j < STACK_SLOTS :: StackTopForPid(pid) == StackTop(j)
  {
    assert (if pid < 2 then 0 else pid - 2) % STACK_SLOTS < STACK_SLOTS;
  }

  /** One prepared address space: its page-table root, its frames, and which stack slots are taken. */
  datatype P4Slot = P4Slot(
    p4Frame: nat, programFrames: seq<nat>, stackFrames: seq<seq<nat>>, stackInUse: seq<bool>, inUse: bool)

  type Pool = seq<P4Slot>

  const ALL_FREE: seq<bool> := [false, false, false, false, false, false, false, false]

  /** Slots keep eight stack bits, page-table roots differ, and an unused space has no stack taken. */
  ghost predicate PoolShape(pool: Pool)
  {
    && (forall k | 0 <= k < |pool| :: |pool[k].stackInUse| == STACK_SLOTS)
    && (forall k | 0 <= k < |pool| && !pool[k].inUse :: pool[k].stackInUse == ALL_FREE)
    && (forall k, l | 0 <= k < l < |pool| :: pool[k].p4Frame != pool[l].p4Frame)
  }

  /** First slot that satisfies the test, from index `from` on. */
  function FindSlot(pool: Pool, test: P4Slot -> bool, from: nat := 0): (k: Option<nat>)
    requires from <= |pool|
    ensures k.Some? ==> from <= k.value < |pool| && test(pool[k.value])
    ensures k.Some? ==> forall j | from <= j < k.value :: !test(pool[j])
    ensures k.None? ==> forall j | from <= j < |pool| :: !test(pool[j])
    decreases |pool| - from
  {
    if from == |pool| then None
    else if test(pool[from]) then Some(from)
    else FindSlot(pool, test, from + 1)
  }

  /** The live slot with this page-table root. */
  function FindLive(pool: Pool, p4: nat): (k: Option<nat>)
    ensures k.Some? ==> k.value < |pool| && pool[k.value].p4Frame == p4 && pool[k.value].inUse
    ensures k.None? ==> forall j | 0 <= j < |pool| :: !(pool[j].p4Frame == p4 && pool[j].inUse)
  {
    FindSlot(pool, (s: P4Slot) => s.p4Frame == p4 && s.inUse)
  }

  function FirstFree(bits: seq<bool>, from: nat := 0): (j: Option<nat>)
    requires from <= |bits|
    ensures j.Some? ==> from <= j.value < |bits| && !bits[j.value] && forall i | from <= i < j.value :: bits[i]
    ensures j.None? ==> forall i | from <= i < |bits| :: bits[i]
    decreases |bits| - from
  {
    if from == |bits| then None else if !bits[from] then Some(from) else FirstFree(bits, from + 1)
  }

  /** take: hand out the first unused address space. */
  function Take(pool: Pool): (r: (Pool, Option<nat>))
  {
    match FindSlot(pool, (s: P4Slot) => !s.inUse)
    case None => (pool, None)
    case Some(k) => (pool[k := pool[k].(inUse := true)], Some(pool[k].p4Frame))
  }

  /** release: the address space and all its stacks become free. */
  function Release(pool: Pool, p4: nat): Pool
  {
    match FindSlot(pool, (s: P4Slot) => s.p4Frame == p4)
    case None => pool
    case Some(k) => pool[k := pool[k].(inUse := false, stackInUse := ALL_FREE)]
  }

  /** A space is handed out exactly while one is unused: the first such, which is in use from then on. */
  lemma TakeIff(pool: Pool)
    ensures var (pool', p4) := Take(pool);
            && (p4.Some? <==> exists k | 0 <= k < |pool| :: !pool[k].inUse)
            && (p4.None? ==> pool' == pool)
            && forall k | 0 <= k < |pool| && !pool[k].inUse && (forall j | 0 <= j < k :: pool[j].inUse) ::
                 p4 == Some(pool[k].p4Frame) && pool' == pool[k := pool[k].(inUse := true)]
  {
  }

  /** A space given back can be handed out again, with all its stacks free; the other spaces stay. */
  lemma ReleaseFrees(pool: Pool, k: nat)
    requires PoolShape(pool) && k < |pool|
    ensures var pool' := Release(pool, pool[k].p4Frame);
            && |pool'| == |pool| && !pool'[k].inUse && pool'[k].stackInUse == ALL_FREE
            && pool'[k].p4Frame == pool[k].p4Frame
            && (forall l | 0 <= l < |pool| && l != k :: pool'[l] == pool[l])
            && Take(pool').1.Some?
  {
    hide Take, FindSlot;
    ReleaseIs(pool, k);
    TakeIff(Release(pool, pool[k].p4Frame));
  }

  lemma ReleaseIs(pool: Pool, k: nat)
    requires PoolShape(pool) && k < |pool|
    ensures Release(pool, pool[k].p4Frame) == pool[k := pool[k].(inUse := false, stackInUse := ALL_FREE)]
  {
    hide FindSlot;
    var l := FindSlot(pool, (s: P4Slot) => s.p4Frame == pool[k].p4Frame);
    assert l == Some(k);
  }

  /** reserve_stack_slot: the main slot is marked even when nothing is left to hand out. */
  function ReserveStack(pool: Pool, p4: nat, mainTop: nat): (r: (Pool, Option<nat>))
    requires forall k | 0 <= k < |pool| :: |pool[k].stackInUse| == STACK_SLOTS
    ensures r.1.Some? ==> r.1.value < STACK_SLOTS
  {
    match FindLive(pool, p4)
    case None => (pool, None)
    case Some(k) =>
      match StackSlotIndex(mainTop)
      case None => (pool, None)
      case Some(main) =>
        var bits := pool[k].stackInUse[main := true];
        match FirstFree(bits)
        case None => (pool[k := pool[k].(stackInUse := bits)], None)
        case Some(j) => (pool[k := pool[k].(stackInUse := bits[j := true])], Some(j))
  }

  /** release_stack_slot. */
  function ReleaseStack(pool: Pool, p4: nat, stackTop: nat): Pool
    requires forall k | 0 <= k < |pool| :: |pool[k].stackInUse| == STACK_SLOTS
  {
    match FindLive(pool, p4)
    case None => pool
    case Some(k) =>
      match StackSlotIndex(stackTop)
      case None => pool
      case Some(j) => pool[k := pool[k].(stackInUse := pool[k].stackInUse[j := false])]
  }

  /** A space that can join the pool: eight stack bits, none set while it is unused, a root of its own. */
  ghost predicate FitsIn(pool: Pool, slot: P4Slot)
  {
    && |slot.stackInUse| == STACK_SLOTS && (!slot.inUse ==> slot.stackInUse == ALL_FREE)
    && forall k | 0 <= k < |pool| :: pool[k].p4Frame != slot.p4Frame
  }

  lemma PushedShape(pool: Pool, slot: P4Slot)
    requires PoolShape(pool)
    ensures PoolShape(pool + [slot]) <==> FitsIn(pool, slot)
  {
    var now := pool + [slot];
    if PoolShape(now) {
      assert now[|pool|] == slot;
      assert forall k | 0 <= k < |pool| :: now[k] == pool[k];
    }
  }

  /** The pool as the kernel keeps it, changed in place. */
  class PrivateP4Pool {
    var slots: Pool

    constructor ()
      ensures slots == [] && PoolShape(slots)
    {
      slots := [];
    }

    /** The pool takes any space while it has room; it stays in order exactly when the space fits in. */
    method Push(slot: P4Slot) returns (ok: bool)
      modifies this
      ensures ok == (|old(slots)| < PRIVATE_P4_POOL_SIZE)
      ensures slots == if ok then old(slots) + [slot] else old(slots)
      ensures PoolShape(old(slots)) ==> (PoolShape(slots) <==> !ok || FitsIn(old(slots), slot))
    {
      if PoolShape(slots) { PushedShape(slots, slot); }
      if |slots| >= PRIVATE_P4_POOL_SIZE { return false; }
      slots := slots + [slot];
      return true;
    }

    method TakeFrame() returns (p4: Option<nat>)
      requires PoolShape(slots)
      modifies this
      ensures PoolShape(slots)
      ensures (slots, p4) == Take(old(slots))
    {
      for k := 0 to |slots|
        invariant slots == old(slots)
        invariant forall j | 0 <= j < k :: slots[j].inUse
      {
        if !slots[k].inUse {
          slots := slots[k := slots[k].(inUse := true)];
          return Some(slots[k].p4Frame);
        }
      }
      return None;
    }

    method ReleaseFrame(p4: nat) returns (released: bool)
      requires PoolShape(slots)
      modifies this
      ensures PoolShape(slots)
      ensures slots == Release(old(slots), p4)
      ensures released <==> exists k :: 0 <= k < |slots| && slots[k].p4Frame == p4
    {
      for k := 0 to |slots|
        invariant slots == old(slots)
        invariant forall j | 0 <= j < k :: slots[j].p4Frame != p4
      {
        if slots[k].p4Frame == p4 {
          slots := slots[k := slots[k].(inUse := false, stackInUse := ALL_FREE)];
          assert slots[k].p4Frame == p4;
          return true;
        }
      }
      return false;
    }

    method ReserveStackSlot(p4: nat, mainTop: nat) returns (r: Option<(nat, nat)>)
      requires PoolShape(slots)
      modifies this
      ensures PoolShape(slots)
      ensures slots == ReserveStack(old(slots), p4, mainTop).0
      ensures var j := ReserveStack(old(slots), p4, mainTop).1;
              r == if j.Some? then Some(StackRangeForSlot(j.value)) else None
    {
      for k := 0 to |slots|
        invariant slots == old(slots)
        invariant forall j | 0 <= j < k :: !(slots[j].p4Frame == p4 && slots[j].inUse)
      {
        if slots[k].p4Frame == p4 && slots[k].inUse {
          var main := StackSlotIndex(mainTop);
          if main.None? { return None; }
          var bits := slots[k].stackInUse[main.value := true];
          var j := FirstFree(bits);
          if j.None? {
            slots := slots[k := slots[k].(stackInUse := bits)];
            return None;
          }
          slots := slots[k := slots[k].(stackInUse := bits[j.value := true])];
          return Some(StackRangeForSlot(j.value));
        }
      }
      return None;
    }

    method ReleaseStackSlot(p4: nat, stackTop: nat) returns (released: bool)
      requires PoolShape(slots)
      modifies this
      ensures PoolShape(slots)
      ensures slots == ReleaseStack(old(slots), p4, stackTop)
      ensures released <==> FindLive(old(slots), p4).Some? && StackSlotIndex(stackTop).Some?
    {
      for k := 0 to |slots|
        invariant slots == old(slots)
        invariant forall j | 0 <= j < k :: !(slots[j].p4Frame == p4 && slots[j].inUse)
      {
        if slots[k].p4Frame == p4 && slots[k].inUse {
          var j := StackSlotIndex(stackTop);
          if j.None? { return false; }
          slots := slots[k := slots[k].(stackInUse := slots[k].stackInUse[j.value := false])];
          return true;
        }
      }
      return false;
    }
  }
}
