/** Who holds the stack slots of an address space, in every state of every run. */
module SchedSlots {
  import opened Base
  import opened StackPool
  import opened SchedModel
  import opened SchedInv
  import opened SchedSteps
  import opened SchedRuns
  import opened SchedFair
  import opened SchedStacks
  import opened SchedStackRuns

  // ----- The main slot -----

  /** The bit of the main stack is set in the space of a live process. */
  ghost predicate MainMarked(t: Table, pid: Pid)
  {
    && Live(t, pid) && t.procs[pid].p4.Some? && StackSlotIndex(t.procs[pid].stackTop).Some?
    && var k := FindLive(t.pool, t.procs[pid].p4.value);
       k.Some? && |t.pool[k.value].stackInUse| == STACK_SLOTS &&
       t.pool[k.value].stackInUse[StackSlotIndex(t.procs[pid].stackTop).value]
  }

  /** The step asks for a managed thread of the process. */
  predicate Reserves(t: Table, s: Step, pid: Pid)
  {
    s.DoCreateManaged? && s.pid == pid && pid in t.procs && t.procs[pid].kind == User && t.procs[pid].p4.Some?
  }

  lemma MainSame(t: Table, t': Table, pid: Pid)
    requires StackInv(t) && pid in t.procs && pid in t'.procs && SameSpace(t.procs[pid], t'.procs[pid]) && Live(t', pid)
    requires SameSlot(t.pool, t'.pool, t.procs[pid].p4)
    ensures MainMarked(t', pid) <==> MainMarked(t, pid)
  {
    assert SpaceOk(t, pid);
    hide FindLive, StackSlotIndex, Held, PoolShape;
  }

  lemma MainQuiet(t: Table, t': Table, pid: Pid)
    requires StackInv(t) && SameSpaces(t, t') && t'.pool == t.pool && Live(t', pid)
    ensures MainMarked(t', pid) <==> MainMarked(t, pid)
  {
    hide StackInv, FindLive;
    MainSame(t, t', pid);
  }

  /** No thread holds the main slot, so giving a stack back leaves it alone. */
  lemma MainAfterGiveBack(t: Table, t': Table, x: Tid, q: Pid, j: nat, pid: Pid)
    requires StackInv(t) && GivesBack(t, t', x, q, j) && Live(t', pid)
    ensures MainMarked(t', pid) <==> MainMarked(t, pid)
  {
    GiveBackOwn(t, t', x, q, j);
    assert SameSpace(t.procs[pid], t'.procs[pid]);
    if q != pid {
      MainSame(t, t', pid);
    } else if t.procs[pid].p4.Some? {
      assert SpaceOk(t, pid) && Held(t, pid, j);
      SlotIndexIff(StackTop(j), j);
      var p4 := t.procs[pid].p4.value;
      var k := FindLive(t.pool, p4).value;
      var bits := t.pool[k].stackInUse[j := false];
      assert t'.pool == t.pool[k := t.pool[k].(stackInUse := bits)];
      BitsChange(t.pool, k, bits, p4);
      hide StackInv, GivesBack, FindLive, StackSlotIndex, PoolShape, Held;
    }
  }

  lemma MainAfterMark(t: Table, t': Table, q: Pid, x: Tid, j: Option<nat>, pid: Pid)
    requires StackInv(t) && Marks(t, t', q, x, j) && Live(t', pid)
    ensures MainMarked(t', pid) <==> pid == q || MainMarked(t, pid)
  {
    var p4 := t.procs[q].p4.value;
    var k := FindLive(t.pool, p4).value;
    var bits := t'.pool[k].stackInUse;
    assert SameSpace(t.procs[pid], t'.procs[pid]);
    if pid == q {
      BitsChange(t.pool, k, bits, p4);
      hide StackInv, FindLive, StackSlotIndex, PoolShape, SameStacks;
    } else {
      if t.procs[pid].p4.Some? { BitsChange(t.pool, k, bits, t.procs[pid].p4.value); }
      assert SameSlot(t.pool, t'.pool, t.procs[pid].p4) by {
        hide StackSlotIndex, PoolShape, SameStacks, SameSpaces, FindLive;
      }
      hide Marks, StackSlotIndex, FindLive;
      MainSame(t, t', pid);
    }
  }

  lemma MainAfterExec(t: Table, q: Pid, parent: Option<Pid>, pid: Pid)
    requires Inv(t) && StackInv(t) && q !in t.procs && Live(Exec(t, q, parent), pid)
    ensures MainMarked(Exec(t, q, parent), pid) <==> MainMarked(t, pid)
  {
    var t' := Exec(t, q, parent);
    ExecShape(t, q, parent);
    TakeFacts(t.pool);
    if pid == q {
      hide Exec, Inv, StackInv, Take, FindLive, StackTopForPid;
    } else {
      assert SpaceOk(t, pid);
      hide Exec, Inv, Take, FindLive, StackTopForPid, StackSlotIndex, Held, PoolShape;
      MainSame(t, t', pid);
    }
  }

  lemma MainAfterRelease(t: Table, p4: nat, pid: Pid)
    requires StackInv(t) && Unowned(t, p4) && Live(ReleaseSpace(t, p4), pid)
    ensures MainMarked(ReleaseSpace(t, p4), pid) <==> MainMarked(t, pid)
  {
    var t' := ReleaseSpace(t, p4);
    assert SpaceOk(t, pid);
    if t.procs[pid].p4.Some? {
      var g := t.procs[pid].p4.value;
      ReleaseStacksShape(t, p4);
      FindLiveIs(t'.pool, g, FindLive(t.pool, g).value);
    }
    MainSame(t, t', pid);
  }

  lemma ReleaseStacksShape(t: Table, p4: nat)
    requires StackInv(t) && Unowned(t, p4)
    ensures PoolShape(ReleaseSpace(t, p4).pool)
  {
    ReleaseSpaceStacks(t, p4);
  }

  lemma MainQuietOrBack(t: Table, t': Table, pid: Pid)
    requires StackInv(t) && QuietOrBack(t, t') && Live(t', pid)
    ensures MainMarked(t', pid) <==> MainMarked(t, pid)
  {
    hide StackInv, GivesBack, MainMarked;
    if Quietly(t, t') {
      MainQuiet(t, t', pid);
    } else {
      var x, q, j :| GivesBack(t, t', x, q, j);
      MainAfterGiveBack(t, t', x, q, j, pid);
    }
  }

  lemma MainAfterCreate(t: Table, q: Pid, entry: nat, arg: nat, pid: Pid)
    requires Inv(t) && StackInv(t) && PoolBits(t.pool) && (q in t.procs ==> Live(t, q))
    requires Live(CreateManaged(t, q, entry, arg).0, pid)
    ensures MainMarked(CreateManaged(t, q, entry, arg).0, pid) <==>
              MainMarked(t, pid) || Reserves(t, DoCreateManaged(q, entry, arg), pid)
  {
    if q in t.procs && t.procs[q].kind == User && t.procs[q].p4.Some? {
      var j := CreateManagedMarks(t, q, entry, arg);
      hide CreateManaged, StackInv, Inv;
      MainAfterMark(t, CreateManaged(t, q, entry, arg).0, q, t.nextTid, j, pid);
    }
  }

  lemma MainAfterThread(t: Table, q: Pid, entry: nat, start: nat, top: nat, rsp: nat, arg: nat, pid: Pid)
    requires Inv(t) && StackInv(t) && Live(CreateThread(t, q, entry, start, top, rsp, arg).0, pid)
    ensures MainMarked(CreateThread(t, q, entry, start, top, rsp, arg).0, pid) <==> MainMarked(t, pid)
  {
    if q in t.procs {
      InsertQuiet(t, q, NewThread(q, start, top, false, entry, rsp, arg));
      hide StackInv, Inv, Insert, MainMarked;
      MainQuiet(t, CreateThread(t, q, entry, start, top, rsp, arg).0, pid);
    }
  }

  /** The bit of the main stack is set by the first request for a managed thread, and by nothing else. */
  lemma MainMarkedIff(t: Table, s: Step, pid: Pid)
    requires Inv(t) && StackInv(t) && PoolBits(t.pool) && Allowed(t, s) && Live(Do(t, s), pid)
    ensures MainMarked(Do(t, s), pid) <==> MainMarked(t, pid) || Reserves(t, s, pid)
  {
    hide Inv, StackInv, CreateThread, CreateManaged, Join, ExitThread, Exec, ReleaseSpace, MainMarked;
    if IsQuiet(s) {
      QuietStep(t, s);
      MainQuiet(t, Do(t, s), pid);
    } else {
      match s
      case DoCreateThread(q, entry, start, top, rsp, arg) => MainAfterThread(t, q, entry, start, top, rsp, arg, pid);
      case DoCreateManaged(q, entry, arg) => MainAfterCreate(t, q, entry, arg, pid);
      case DoJoin(tid, target, context) =>
        JoinShape(t, tid, target, context);
        MainQuietOrBack(t, Do(t, s), pid);
      case DoExitThread(tid) =>
        ExitThreadShape(t, tid);
        MainQuietOrBack(t, Do(t, s), pid);
      case DoExitProcess(q, status) => MainQuiet(t, Do(t, s), pid);
      case DoExec(q, parent) => MainAfterExec(t, q, parent, pid);
      case DoReleaseSpace(p4) => MainAfterRelease(t, p4, pid);
    }
  }


  /** Processes stay in the table, and one that has ended does not come back. */
  lemma DeadStays(t: Table, s: Step, pid: Pid)
    requires PoolBits(t.pool) && Allowed(t, s) && pid in t.procs
    ensures pid in Do(t, s).procs && (Live(Do(t, s), pid) ==> Live(t, pid))
  {
    if IsQuiet(s) {
      QuietStep(t, s);
      hide Do, Allowed, SameStacks;
      assert SameSpace(t.procs[pid], Do(t, s).procs[pid]);
    } else {
      hide Summary, Enqueue, EnqueueAll, Without, Joiners, ReserveStack, ReleaseStack, Take, Release;
    }
  }

  lemma {:induction false} LiveBefore(states: seq<Table>, steps: seq<Step>, i: nat, j: nat, pid: Pid)
    requires IsRun(states, steps) && i <= j < |states| && pid in states[i].procs
    ensures pid in states[j].procs && (Live(states[j], pid) ==> Live(states[i], pid))
  {
    if i < j {
      LiveBefore(states, steps, i, j - 1, pid);
      hide Do, Allowed;
      DeadStays(states[j - 1], steps[j - 1], pid);
    }
  }

  /** One of the first `i` steps asked for a managed thread of the process. */
  ghost predicate Requested(states: seq<Table>, steps: seq<Step>, pid: Pid, i: nat)
    requires i <= |states| && i <= |steps|
  {
    exists m :: 0 <= m < i && Reserves(states[m], steps[m], pid)
  }

  lemma RequestedNext(states: seq<Table>, steps: seq<Step>, pid: Pid, i: nat)
    requires i < |states| && i < |steps|
    ensures Requested(states, steps, pid, i + 1) <==>
              Requested(states, steps, pid, i) || Reserves(states[i], steps[i], pid)
  {
  }

  /** In every run the bit of the main stack is set exactly from the first request for a managed thread on. */
  lemma {:induction false} MainMarkedThroughRun(states: seq<Table>, steps: seq<Step>, i: nat, pid: Pid)
    requires IsRun(states, steps) && Inv(states[0]) && StackInv(states[0]) && i < |states| && Live(states[i], pid)
    requires !MainMarked(states[0], pid)
    ensures MainMarked(states[i], pid) <==> Requested(states, steps, pid, i)
  {
    hide Do, Allowed, MainMarked, Inv, StackInv, Requested;
    if i == 0 {
      NotYet(states, steps, pid);
    } else {
      RunKeepsInv(states, steps, i - 1);
      RunKeepsStacks(states, steps, i - 1);
      MainMarkedIff(states[i - 1], steps[i - 1], pid);
      RequestedNext(states, steps, pid, i - 1);
      if Live(states[i - 1], pid) {
        MainMarkedThroughRun(states, steps, i - 1, pid);
      } else {
        NotMarked(states[i - 1], pid);
        NeverAsked(states, steps, i - 1, pid);
      }
    }
  }

  lemma NotYet(states: seq<Table>, steps: seq<Step>, pid: Pid)
    ensures !Requested(states, steps, pid, 0)
  {
  }

  /** A process that is not there yet has asked for nothing: once ended, it would not have come back. */
  lemma NeverAsked(states: seq<Table>, steps: seq<Step>, i: nat, pid: Pid)
    requires IsRun(states, steps) && i + 1 < |states| && !Live(states[i], pid) && Live(states[i + 1], pid)
    ensures !Requested(states, steps, pid, i)
  {
    hide Do, Allowed;
    forall m | 0 <= m < i ensures !Reserves(states[m], steps[m], pid) {
      if pid in states[m].procs {
        LiveBefore(states, steps, m, i, pid);
        LiveBefore(states, steps, i, i + 1, pid);
      }
    }
  }

  lemma NotMarked(t: Table, pid: Pid)
    ensures MainMarked(t, pid) ==> Live(t, pid)
  {
  }

  // ----- A stack is held until its thread is reaped -----

  /** A thread keeps its stack, or is reaped and gives up one that it managed; it never gets to manage one. */
  lemma StackFate(t: Table, s: Step, x: Tid)
    requires Inv(t) && PoolBits(t.pool) && Allowed(t, s) && x in t.threads
    ensures x in Do(t, s).threads
    ensures || SameStack(t.threads[x], Do(t, s).threads[x])
            || (t.threads[x].managed && !Do(t, s).threads[x].managed && Do(t, s).threads[x].state == Reaped)
  {
    hide Inv, Allowed;
    NextTidUnused(t);
    if IsQuiet(s) {
      QuietStep(t, s);
      hide Do;
    } else {
      hide Enqueue, EnqueueAll, Without, Joiners, ReserveStack, ReleaseStack, Take, Release, Summary;
    }
  }

  /** A thread of a live process that holds a managed stack has not been reaped. */
  ghost predicate HolderOk(t: Table, x: Tid)
    requires x in t.threads
  {
    t.threads[x].managed && Live(t, t.threads[x].pid) ==> t.threads[x].state != Reaped
  }

  ghost predicate HoldersOk(t: Table) { forall x | x in t.threads :: HolderOk(t, x) }

  /** Reaping a thread takes its managed stack away. */
  lemma ReapedGivesUp(t: Table, s: Step, x: Tid)
    requires Inv(t) && StackInv(t) && PoolBits(t.pool) && Allowed(t, s) && x in t.threads && Live(t, t.threads[x].pid)
    requires t.threads[x].managed && t.threads[x].state != Reaped
    requires x in Do(t, s).threads && Do(t, s).threads[x].state == Reaped
    ensures !Do(t, s).threads[x].managed
  {
    hide Inv, StackInv;
    StackInvFacts(t, x);
    NextTidUnused(t);
    match s
    case DoSchedule => ScheduleReapsNobody(t, x);
    case DoPreempt(tid, context) => if IsCall(t, s) { ScheduleReapsNobody(Yield(t, tid, context).0, x); }
    case DoJoin(_, _, _) => hide Summary, ReleaseStack;
    case DoExitThread(_) => hide EnqueueAll, Without, Joiners, ReleaseStack, Summary;
    case _ => hide Do; OthersReapNobody(t, s, x);
  }

  lemma OthersReapNobody(t: Table, s: Step, x: Tid)
    requires PoolBits(t.pool) && x in t.threads && t.threads[x].state != Reaped && t.nextTid !in t.threads
    requires !s.DoSchedule? && !s.DoPreempt? && !s.DoJoin? && !s.DoExitThread?
    ensures x in Do(t, s).threads && Do(t, s).threads[x].state != Reaped
  {
    hide Enqueue, Without, ReserveStack, ReleaseStack, Take, Release, Summary;
  }

  lemma {:induction false} ScheduleReapsNobody(t: Table, x: Tid)
    requires x in t.threads && t.threads[x].state != Reaped
    ensures x in Schedule(t).0.threads && Schedule(t).0.threads[x].state != Reaped
    decreases |t.queue|
  {
    if t.queue != [] && !Dispatchable(t, t.queue[0]) { ScheduleReapsNobody(t.(queue := t.queue[1..]), x); }
  }

  /** A new thread with a managed stack starts ready. */
  lemma NewIsUnreaped(t: Table, s: Step, x: Tid)
    requires Inv(t) && PoolBits(t.pool) && Allowed(t, s) && x !in t.threads && x in Do(t, s).threads
    ensures Do(t, s).threads[x].managed ==> Do(t, s).threads[x].state != Reaped
  {
    hide Inv;
    if IsQuiet(s) {
      QuietStep(t, s);
      hide Do;
    } else {
      hide Enqueue, EnqueueAll, Without, Joiners, ReserveStack, ReleaseStack, Take, Release, Summary;
    }
  }

  lemma StepKeepsHolders(t: Table, s: Step)
    requires Inv(t) && StackInv(t) && PoolBits(t.pool) && Allowed(t, s) && HoldersOk(t)
    ensures HoldersOk(Do(t, s))
  {
    var t' := Do(t, s);
    forall x | x in t'.threads ensures HolderOk(t', x) {
      if x in t.threads {
        assert HolderOk(t, x) && ThreadOk(t, x);
        StackFate(t, s, x);
        KindKept(t, s, x);
        hide Do, Inv, StackInv, Allowed;
        DeadStays(t, s, t.threads[x].pid);
        if t'.threads[x].state == Reaped && t'.threads[x].managed && Live(t', t'.threads[x].pid) {
          ReapedGivesUp(t, s, x);
        }
      } else {
        hide Do, Inv, StackInv, Allowed;
        NewIsUnreaped(t, s, x);
      }
    }
  }

  lemma {:induction false} RunKeepsHolders(states: seq<Table>, steps: seq<Step>, i: nat)
    requires IsRun(states, steps) && Inv(states[0]) && StackInv(states[0]) && HoldersOk(states[0]) && i < |states|
    ensures HoldersOk(states[i])
  {
    if i > 0 {
      RunKeepsHolders(states, steps, i - 1);
      RunKeepsInv(states, steps, i - 1);
      RunKeepsStacks(states, steps, i - 1);
      hide Do, Allowed, Inv, StackInv, HoldersOk;
      StepKeepsHolders(states[i - 1], steps[i - 1]);
    }
  }

  /**
    Which stack slots of a live process's space are taken, in every state of every run from boot: the main slot
    exactly since the first request for a managed thread, and any other slot exactly while one thread of the
    process that has not been reaped holds it. So no slot is handed out while somebody uses it, none is lost,
    and nobody else ever gets the main one.
   */
  lemma SlotTakenIffHeld(states: seq<Table>, steps: seq<Step>, i: nat, pool: Pool, pid: Pid, j: nat)
    requires IsRun(states, steps) && PoolShape(pool) && states[0] == Boot(pool) && i < |states|
    requires Live(states[i], pid) && states[i].procs[pid].p4.Some? && j < STACK_SLOTS
    ensures var t := states[i];
            var k := FindLive(t.pool, t.procs[pid].p4.value);
            var main := StackSlotIndex(t.procs[pid].stackTop);
            && k.Some? && |t.pool[k.value].stackInUse| == STACK_SLOTS && main.Some?
            && (j == main.value ==>
                  && (t.pool[k.value].stackInUse[j] <==> Requested(states, steps, pid, i))
                  && !exists x :: ManagedAt(t, x, pid, j))
            && (j != main.value ==>
                  (t.pool[k.value].stackInUse[j] <==>
                    exists x :: ManagedAt(t, x, pid, j) && t.threads[x].state != Reaped))
            && (forall x, y | ManagedAt(t, x, pid, j) && ManagedAt(t, y, pid, j) :: x == y)
            && (forall q | Live(t, q) && q != pid :: t.procs[q].p4 != t.procs[pid].p4)
  {
    var t := states[i];
    BootInv(pool);
    BootStacks(pool);
    RunKeepsStacks(states, steps, i);
    BootHolders(pool);
    RunKeepsHolders(states, steps, i);
    MainMarkedThroughRun(states, steps, i, pid);
    assert SpaceOk(t, pid);
    assert Held(t, pid, j) <==> exists x :: ManagedAt(t, x, pid, j);
    forall x | ManagedAt(t, x, pid, j) ensures t.threads[x].state != Reaped { assert HolderOk(t, x); }
    hide Inv, IsRun, PoolShape, FindLive, StackSlotIndex, HoldersOk, Boot;
  }

  lemma BootHolders(pool: Pool)
    ensures HoldersOk(Boot(pool))
    ensures forall pid :: !MainMarked(Boot(pool), pid)
  {
  }

  // ----- A stack is given back once -----

  lemma {:induction false} ManagesNoMore(states: seq<Table>, steps: seq<Step>, i: nat, j: nat, x: Tid)
    requires IsRun(states, steps) && Inv(states[0]) && i <= j < |states|
    requires x in states[i].threads && !states[i].threads[x].managed
    ensures x in states[j].threads && !states[j].threads[x].managed
  {
    if i < j {
      ManagesNoMore(states, steps, i, j - 1, x);
      RunKeepsInv(states, steps, j - 1);
      hide Do, Inv, Allowed;
      StackFate(states[j - 1], steps[j - 1], x);
    }
  }

  /** The bit of slot `j` in the space of a live process. */
  ghost predicate Taken(t: Table, pid: Pid, j: nat)
  {
    && Live(t, pid) && t.procs[pid].p4.Some?
    && var k := FindLive(t.pool, t.procs[pid].p4.value);
       k.Some? && j < |t.pool[k.value].stackInUse| && t.pool[k.value].stackInUse[j]
  }

  /**
    A bit that a step of a run clears, while the process lives on, belonged to one thread, which that step reaps
    and which never manages a stack again: each reservation is given back at most once.
   */
  lemma ReleasedOnce(states: seq<Table>, steps: seq<Step>, i: nat, pool: Pool, pid: Pid, j: nat) returns (x: Tid)
    requires IsRun(states, steps) && PoolShape(pool) && states[0] == Boot(pool) && i < |steps| && j < STACK_SLOTS
    requires Taken(states[i], pid, j) && Live(states[i + 1], pid) && !Taken(states[i + 1], pid, j)
    ensures ManagedAt(states[i], x, pid, j) && (forall y | ManagedAt(states[i], y, pid, j) :: y == x)
    ensures x in states[i + 1].threads && states[i + 1].threads[x].state == Reaped
    ensures forall l | i < l < |states| :: x in states[l].threads && !states[l].threads[x].managed
  {
    BootInv(pool);
    BootStacks(pool);
    RunKeepsInv(states, steps, i);
    RunKeepsStacks(states, steps, i);
    RunKeepsStacks(states, steps, i + 1);
    x := ClearedHolder(states[i], steps[i], pid, j);
    forall l | i < l < |states| ensures x in states[l].threads && !states[l].threads[x].managed {
      ManagesNoMore(states, steps, i + 1, l, x);
    }
  }

  lemma ClearedHolder(t: Table, s: Step, pid: Pid, j: nat) returns (x: Tid)
    requires Inv(t) && StackInv(t) && PoolBits(t.pool) && Allowed(t, s) && StackInv(Do(t, s)) && j < STACK_SLOTS
    requires Taken(t, pid, j) && Live(Do(t, s), pid) && !Taken(Do(t, s), pid, j)
    ensures ManagedAt(t, x, pid, j) && (forall y | ManagedAt(t, y, pid, j) :: y == x)
    ensures x in Do(t, s).threads && !Do(t, s).threads[x].managed && Do(t, s).threads[x].state == Reaped
  {
    hide Do, Inv, FindLive, PoolShape, Allowed, StackSlotIndex;
    var t' := Do(t, s);
    MainMarkedIff(t, s, pid);
    assert SpaceOk(t, pid) && SpaceOk(t', pid);
    SpaceKept(t, s, pid);
    assert Held(t, pid, j) && !Held(t', pid, j);
    x :| ManagedAt(t, x, pid, j);
    StackFate(t, s, x);
    assert !ManagedAt(t', x, pid, j);
  }

  /** A process that lives on keeps its space. */
  lemma SpaceKept(t: Table, s: Step, pid: Pid)
    requires PoolBits(t.pool) && Allowed(t, s) && Live(t, pid) && Live(Do(t, s), pid)
    ensures Do(t, s).procs[pid].p4 == t.procs[pid].p4 && Do(t, s).procs[pid].stackTop == t.procs[pid].stackTop
  {
    if IsQuiet(s) {
      QuietStep(t, s);
      hide Do, Allowed, SameStacks;
      assert SameSpace(t.procs[pid], Do(t, s).procs[pid]);
    } else {
      hide Summary, Enqueue, EnqueueAll, Without, Joiners, ReserveStack, ReleaseStack, Take, Release;
    }
  }
}
