/** Stack slots: the bits of a space are set for the main stack and the stacks of managed threads not yet reaped. */
module SchedStacks {
  import opened Base
  import opened StackPool
  import opened SchedModel
  import opened SchedInv

  /** Thread `x` of process `pid` still holds the managed stack in slot `j`. */
  ghost predicate ManagedAt(t: Table, x: Tid, pid: Pid, j: nat)
  {
    && x in t.threads && j < STACK_SLOTS
    && t.threads[x].pid == pid && t.threads[x].managed
    && t.threads[x].stackTop == Some(StackTop(j)) && t.threads[x].stackStart == Some(StackTop(j) - USER_STACK_SIZE)
  }

  ghost predicate Held(t: Table, pid: Pid, j: nat) { exists x :: ManagedAt(t, x, pid, j) }

  /** The bits of a live process's address space say which of its stacks are taken. */
  ghost predicate SpaceOk(t: Table, pid: Pid)
    requires pid in t.procs
  {
    var p := t.procs[pid];
    Live(t, pid) && p.p4.Some? ==>
      && FindLive(t.pool, p.p4.value).Some?
      && StackSlotIndex(p.stackTop).Some?
      && var bits := t.pool[FindLive(t.pool, p.p4.value).value].stackInUse;
         var main := StackSlotIndex(p.stackTop).value;
         && |bits| == STACK_SLOTS
         && (forall j: nat | j < STACK_SLOTS && j != main :: bits[j] <==> Held(t, pid, j))
         && !Held(t, pid, main)
         && ((exists j: nat | j < STACK_SLOTS :: bits[j]) ==> bits[main])
  }

  ghost predicate ManagedOk(t: Table, x: Tid)
    requires x in t.threads
  {
    var th := t.threads[x];
    th.managed && Live(t, th.pid) ==>
      t.procs[th.pid].p4.Some? && exists j :: ManagedAt(t, x, th.pid, j)
  }

  ghost predicate StackInv(t: Table)
  {
    && PoolShape(t.pool)
    && (forall pid {:trigger SpaceOk(t, pid)} | pid in t.procs :: SpaceOk(t, pid))
    && (forall x {:trigger ManagedOk(t, x)} | x in t.threads :: ManagedOk(t, x))
    && (forall p, q | Live(t, p) && Live(t, q) && p != q && t.procs[p].p4.Some? :: t.procs[p].p4 != t.procs[q].p4)
    && (forall x, y, pid, j | ManagedAt(t, x, pid, j) && ManagedAt(t, y, pid, j) && Live(t, pid) :: x == y)
  }

  // ----- Pool facts -----

  lemma FindLiveIs(pool: Pool, p4: nat, k: nat)
    requires PoolShape(pool)
    ensures FindLive(pool, p4) == Some(k) <==> k < |pool| && pool[k].p4Frame == p4 && pool[k].inUse
  {
  }

  /** Changing the stack bits of one slot leaves every slot findable where it was. */
  lemma BitsChange(pool: Pool, k: nat, bits: seq<bool>, p4: nat)
    requires PoolShape(pool) && k < |pool| && pool[k].inUse && |bits| == STACK_SLOTS
    ensures PoolShape(pool[k := pool[k].(stackInUse := bits)])
    ensures FindLive(pool[k := pool[k].(stackInUse := bits)], p4) == FindLive(pool, p4)
  {
    var pool' := pool[k := pool[k].(stackInUse := bits)];
    if l: nat :| l < |pool| && pool[l].p4Frame == p4 && pool[l].inUse {
      FindLiveIs(pool, p4, l);
      FindLiveIs(pool', p4, l);
    }
  }

  // ----- Steps that leave stacks alone -----

  predicate SameStack(a: Thread, b: Thread)
  {
    a.pid == b.pid && a.managed == b.managed && a.stackTop == b.stackTop && a.stackStart == b.stackStart
  }

  /** A process that is still alive keeps its space; one that has ended does not come back. */
  predicate SameSpace(a: Process, b: Process)
  {
    !Terminal(b.state) ==> !Terminal(a.state) && a.p4 == b.p4 && a.stackTop == b.stackTop
  }

  ghost predicate SameSpaces(t: Table, t': Table)
  {
    t'.procs.Keys == t.procs.Keys && forall pid | pid in t.procs :: SameSpace(t.procs[pid], t'.procs[pid])
  }

  /** Threads other than `but` keep their stacks, and new ones manage none. */
  ghost predicate SameStacks(t: Table, t': Table, but: set<Tid>)
  {
    && t.threads.Keys <= t'.threads.Keys
    && (forall x | x in t.threads && x !in but :: SameStack(t.threads[x], t'.threads[x]))
    && (forall x | x in t'.threads && x !in t.threads && x !in but :: !t'.threads[x].managed)
  }

  lemma HeldSame(t: Table, t': Table, but: set<Tid>, pid: Pid, j: nat)
    requires SameStacks(t, t', but)
    requires forall x | x in but && x in t.threads :: t.threads[x].pid != pid
    requires forall x | x in but && x in t'.threads :: t'.threads[x].pid != pid
    ensures Held(t', pid, j) <==> Held(t, pid, j)
  {
    if x :| ManagedAt(t, x, pid, j) { assert ManagedAt(t', x, pid, j); }
    if x :| ManagedAt(t', x, pid, j) { assert ManagedAt(t, x, pid, j); }
  }

  /** A space whose slot and whose threads are as before is still in order. */
  lemma SpaceSame(t: Table, t': Table, but: set<Tid>, pid: Pid)
    requires SameSpaces(t, t') && SameStacks(t, t', but) && pid in t.procs && SpaceOk(t, pid)
    requires forall x | x in but && x in t.threads :: t.threads[x].pid != pid
    requires forall x | x in but && x in t'.threads :: t'.threads[x].pid != pid
    requires Live(t', pid) && t'.procs[pid].p4.Some? ==> SameSlot(t.pool, t'.pool, t.procs[pid].p4)
    ensures SpaceOk(t', pid)
  {
    forall j: nat ensures Held(t', pid, j) <==> Held(t, pid, j) { HeldSame(t, t', but, pid, j); }
    hide Held, FindLive, StackSlotIndex;
    assert SameSpace(t.procs[pid], t'.procs[pid]);
  }

  ghost predicate SameSlot(pool: Pool, pool': Pool, p4: Option<nat>)
  {
    p4.Some? && FindLive(pool, p4.value).Some? ==>
      && FindLive(pool', p4.value) == FindLive(pool, p4.value)
      && pool'[FindLive(pool', p4.value).value].stackInUse == pool[FindLive(pool, p4.value).value].stackInUse
  }

  /** Everything in the invariant that does not look at the pool. */
  lemma ThreadsSame(t: Table, t': Table)
    requires StackInv(t) && SameSpaces(t, t')
    requires forall x | x in t'.threads && t'.threads[x].managed ::
               x in t.threads && SameStack(t.threads[x], t'.threads[x])
    ensures forall x | x in t'.threads :: ManagedOk(t', x)
    ensures forall p, q | Live(t', p) && Live(t', q) && p != q && t'.procs[p].p4.Some? ::
              t'.procs[p].p4 != t'.procs[q].p4
    ensures forall x, y, pid, j | ManagedAt(t', x, pid, j) && ManagedAt(t', y, pid, j) && Live(t', pid) :: x == y
  {
    hide FindLive, StackSlotIndex, PoolShape, SpaceOk;
    forall x | x in t'.threads ensures ManagedOk(t', x) {
      if t'.threads[x].managed && Live(t', t'.threads[x].pid) {
        assert SameStack(t.threads[x], t'.threads[x]);
        var pid := t.threads[x].pid;
        assert SameSpace(t.procs[pid], t'.procs[pid]);
        assert ManagedOk(t, x);
        var j :| ManagedAt(t, x, pid, j);
        assert ManagedAt(t', x, pid, j);
      }
    }
    forall p, q | Live(t', p) && Live(t', q) && p != q && t'.procs[p].p4.Some?
      ensures t'.procs[p].p4 != t'.procs[q].p4
    {
      assert SameSpace(t.procs[p], t'.procs[p]) && SameSpace(t.procs[q], t'.procs[q]);
    }
    forall x, y, pid, j | ManagedAt(t', x, pid, j) && ManagedAt(t', y, pid, j) && Live(t', pid) ensures x == y {
      assert SameSpace(t.procs[pid], t'.procs[pid]);
      assert ManagedAt(t, x, pid, j) && ManagedAt(t, y, pid, j);
    }
  }

  lemma QuietKeeps(t: Table, t': Table)
    requires StackInv(t) && SameSpaces(t, t') && SameStacks(t, t', {}) && t'.pool == t.pool
    ensures StackInv(t')
  {
    ThreadsSame(t, t');
    hide FindLive, StackSlotIndex, PoolShape, ManagedOk, SameStacks;
    forall pid | pid in t'.procs ensures SpaceOk(t', pid) {
      assert SpaceOk(t, pid);
      SpaceSame(t, t', {}, pid);
    }
  }

  // ----- Giving a stack back -----

  /** Thread `x` of `pid`, which held slot `j`, manages no stack any more; the bit is cleared. */
  ghost predicate GivesBack(t: Table, t': Table, x: Tid, pid: Pid, j: nat)
  {
    && Live(t, pid) && t.procs[pid].p4.Some? && ManagedAt(t, x, pid, j) && PoolShape(t.pool)
    && SameSpaces(t, t') && SameStacks(t, t', {x})
    && t'.threads[x].pid == pid && !t'.threads[x].managed
    && t'.pool == ReleaseStack(t.pool, t.procs[pid].p4.value, StackTop(j))
  }

  lemma HeldAfterGiveBack(t: Table, t': Table, x: Tid, pid: Pid, j: nat, i: nat)
    requires StackInv(t) && GivesBack(t, t', x, pid, j) && i < STACK_SLOTS
    ensures Held(t', pid, i) <==> i != j && Held(t, pid, i)
  {
    hide PoolShape, ReleaseStack, SpaceOk, ManagedOk;
    if y :| ManagedAt(t', y, pid, i) {
      assert y != x && ManagedAt(t, y, pid, i);
    }
    if i != j && Held(t, pid, i) {
      var y :| ManagedAt(t, y, pid, i);
      assert y != x;
      assert ManagedAt(t', y, pid, i);
    }
  }

  lemma GiveBackOwn(t: Table, t': Table, x: Tid, pid: Pid, j: nat)
    requires StackInv(t) && GivesBack(t, t', x, pid, j)
    ensures PoolShape(t'.pool) && SpaceOk(t', pid)
    ensures forall q | q in t.procs && q != pid && Live(t, q) :: SameSlot(t.pool, t'.pool, t.procs[q].p4)
  {
    assert SpaceOk(t, pid);
    SlotIndexIff(StackTop(j), j);
    var p4 := t.procs[pid].p4.value;
    var k := FindLive(t.pool, p4).value;
    var bits := t.pool[k].stackInUse[j := false];
    assert t'.pool == t.pool[k := t.pool[k].(stackInUse := bits)];
    BitsChange(t.pool, k, bits, p4);
    forall q | q in t.procs && q != pid && Live(t, q) ensures SameSlot(t.pool, t'.pool, t.procs[q].p4) {
      if t.procs[q].p4.Some? { BitsChange(t.pool, k, bits, t.procs[q].p4.value); }
    }
    assert SameSpace(t.procs[pid], t'.procs[pid]);
    forall i: nat | i < STACK_SLOTS ensures Held(t', pid, i) <==> i != j && Held(t, pid, i) {
      HeldAfterGiveBack(t, t', x, pid, j, i);
    }
    assert Held(t, pid, j);
    hide FindLive, StackSlotIndex, PoolShape, Held, SameStacks;
  }

  lemma GiveBackKeeps(t: Table, t': Table, x: Tid, pid: Pid, j: nat)
    requires StackInv(t) && GivesBack(t, t', x, pid, j)
    ensures StackInv(t')
  {
    hide FindLive, StackSlotIndex, PoolShape, ReleaseStack;
    GiveBackOwn(t, t', x, pid, j);
    forall q | q in t'.procs ensures SpaceOk(t', q) {
      assert SpaceOk(t, q);
      if q != pid {
        assert SameSpace(t.procs[q], t'.procs[q]);
        SpaceSame(t, t', {x}, q);
      }
    }
    ThreadsSame(t, t');
  }
}
