/** Every allowed step keeps the ownership of stack slots; in every run no two live stacks share a page. */
module SchedStackRuns {
  import opened Base
  import opened StackPool
  import opened SchedModel
  import opened SchedInv
  import opened SchedSteps
  import opened SchedRuns
  import opened SchedStacks

  // ----- Steps that change one thread, and scheduling -----

  lemma UpdateQuiet(t: Table, tid: Tid, th: Thread, queue: seq<Tid>)
    requires Known(t, tid) && SameStack(t.threads[tid], th)
    ensures SameSpaces(t, Update(t, tid, th, queue)) && SameStacks(t, Update(t, tid, th, queue), {})
    ensures Update(t, tid, th, queue).pool == t.pool
  {
    SummaryAlive(t.threads[tid := th], t.procs[t.threads[tid].pid].tids);
  }

  lemma {:induction false} ScheduleQuiet(t: Table)
    ensures SameSpaces(t, Schedule(t).0) && SameStacks(t, Schedule(t).0, {}) && Schedule(t).0.pool == t.pool
    decreases |t.queue|
  {
    if t.queue != [] {
      if Dispatchable(t, t.queue[0]) {
        UpdateQuiet(t, t.queue[0], t.threads[t.queue[0]].(resume := None, state := Running), t.queue[1..]);
      } else {
        ScheduleQuiet(t.(queue := t.queue[1..]));
      }
    }
  }

  lemma YieldQuiet(t: Table, tid: Tid, context: Context)
    ensures var t' := Yield(t, tid, context).0;
            SameSpaces(t, t') && SameStacks(t, t', {}) && t'.pool == t.pool
  {
    if Known(t, tid) {
      UpdateQuiet(t, tid, t.threads[tid].(resume := Some(context), state := Ready), Enqueue(t.queue, tid));
    }
  }

  lemma BlockWakeQuiet(t: Table, tid: Tid, context: Context, value: nat)
    ensures var t' := Block(t, tid, context).0;
            SameSpaces(t, t') && SameStacks(t, t', {}) && t'.pool == t.pool
    ensures var t' := Wake(t, tid, value).0;
            SameSpaces(t, t') && SameStacks(t, t', {}) && t'.pool == t.pool
  {
    if Known(t, tid) {
      var th := t.threads[tid];
      UpdateQuiet(t, tid, th.(resume := Some(context), state := Blocked, waitingFor := None), t.queue);
      if th.resume.Some? {
        UpdateQuiet(t, tid, th.(resume := Some(th.resume.value.(rax := value)), state := Ready, waitingFor := None),
                    Enqueue(t.queue, tid));
      }
    }
  }

  lemma ActivateMainQuiet(t: Table, pid: Pid, signal: nat, handler: nat)
    ensures var t' := ActivateMain(t, pid, signal, handler).0;
            SameSpaces(t, t') && SameStacks(t, t', {}) && t'.pool == t.pool
  {
    if pid in t.procs && Known(t, t.procs[pid].mainTid) {
      var tid := t.procs[pid].mainTid;
      var th := t.threads[tid];
      if th.resume.Some? {
        UpdateQuiet(t, tid,
                    th.(sigReturn := Some(th.resume.value),
                        resume := Some(HandlerContext(th.resume.value, signal, handler)),
                        waitingFor := None, state := Ready),
                    Enqueue(t.queue, tid));
      }
    }
  }

  lemma SignalQuiet(t: Table, pid: Pid, tid: Tid, signal: nat, handler: nat, original: Context)
    ensures var t' := ActivateRunning(t, pid, tid, signal, handler, original).0;
            SameSpaces(t, t') && SameStacks(t, t', {}) && t'.pool == t.pool
    ensures var t' := Restore(t, pid, tid).0;
            SameSpaces(t, t') && SameStacks(t, t', {}) && t'.pool == t.pool
  {
    if Known(t, tid) {
      var th := t.threads[tid];
      UpdateQuiet(t, tid,
                  th.(sigReturn := Some(original), resume := Some(HandlerContext(original, signal, handler)),
                      state := Ready),
                  Enqueue(t.queue, tid));
      UpdateQuiet(t, tid, th.(sigReturn := None, resume := th.sigReturn, state := Ready), Enqueue(t.queue, tid));
    }
  }

  /** Steps that touch no stack. */
  predicate IsQuiet(s: Step)
  {
    s.DoSchedule? || s.DoYield? || s.DoPreempt? || s.DoBlock? || s.DoWake? || s.DoActivateMain? ||
    s.DoActivateRunning? || s.DoRestore?
  }

  lemma QuietStep(t: Table, s: Step)
    requires PoolBits(t.pool) && IsQuiet(s)
    ensures SameSpaces(t, Do(t, s)) && SameStacks(t, Do(t, s), {}) && Do(t, s).pool == t.pool
  {
    hide Schedule, Yield, Block, Wake, ActivateMain, ActivateRunning, Restore;
    match s
    case DoSchedule => ScheduleQuiet(t);
    case DoYield(tid, context) => YieldQuiet(t, tid, context);
    case DoPreempt(tid, context) =>
      YieldQuiet(t, tid, context);
      ScheduleQuiet(Yield(t, tid, context).0);
    case DoBlock(tid, context) => BlockWakeQuiet(t, tid, context, 0);
    case DoWake(tid, value) => BlockWakeQuiet(t, tid, EMPTY_CONTEXT, value);
    case DoActivateMain(pid, signal, handler) => ActivateMainQuiet(t, pid, signal, handler);
    case DoActivateRunning(pid, tid, signal, handler, context) => SignalQuiet(t, pid, tid, signal, handler, context);
    case DoRestore(pid, tid) => SignalQuiet(t, pid, tid, 0, 0, EMPTY_CONTEXT);
  }

  // ----- Join and exit: stacks come back -----

  /** Nothing about stacks or spaces changes. */
  ghost predicate Quietly(t: Table, t': Table) { SameSpaces(t, t') && SameStacks(t, t', {}) && t'.pool == t.pool }

  /** Either nothing changes, or one thread gives its managed stack back. */
  ghost predicate QuietOrBack(t: Table, t': Table)
  {
    Quietly(t, t') || exists x, pid, j :: GivesBack(t, t', x, pid, j)
  }

  lemma QuietOrBackKeeps(t: Table, t': Table)
    requires StackInv(t) && QuietOrBack(t, t')
    ensures StackInv(t')
  {
    hide StackInv, GivesBack, SameSpaces, SameStacks;
    if Quietly(t, t') {
      QuietKeeps(t, t');
    } else {
      var x, pid, j :| GivesBack(t, t', x, pid, j);
      GiveBackKeeps(t, t', x, pid, j);
    }
  }

  lemma StackInvFacts(t: Table, x: Tid)
    requires StackInv(t) && x in t.threads
    ensures PoolShape(t.pool) && ManagedOk(t, x)
  {
  }

  lemma JoinShape(t: Table, caller: Tid, target: Tid, context: Context)
    requires Inv(t) && StackInv(t) && PoolBits(t.pool) && UserTid(t, caller) && UserTid(t, target)
    requires caller in t.threads ==> t.threads[caller].state == Running
    ensures QuietOrBack(t, Join(t, caller, target, context).0)
  {
    hide StackInv, Inv, Update, ReleaseStack, SpaceOk;
    var (t', status) := Join(t, caller, target, context);
    if status == JoinBlocked {
      var waiting := t.threads[caller].(resume := Some(context), state := Blocked, waitingFor := Some(target));
      UpdateQuiet(t, caller, waiting, t.queue);
    } else if status == Completed {
      var th := t.threads[target];
      ActiveIsLive(t, caller);
      StackInvFacts(t, target);
      if th.managed {
        var j :| ManagedAt(t, target, th.pid, j);
        assert GivesBack(t, t', target, th.pid, j);
      } else {
        assert Quietly(t, t');
      }
    }
  }

  lemma JoinStacks(t: Table, caller: Tid, target: Tid, context: Context)
    requires Inv(t) && StackInv(t) && PoolBits(t.pool) && UserTid(t, caller) && UserTid(t, target)
    requires caller in t.threads ==> t.threads[caller].state == Running
    ensures StackInv(Join(t, caller, target, context).0)
  {
    JoinShape(t, caller, target, context);
    QuietOrBackKeeps(t, Join(t, caller, target, context).0);
  }

  lemma ExitThreadShape(t: Table, tid: Tid)
    requires Inv(t) && StackInv(t) && PoolBits(t.pool) && CanExit(t, tid)
    ensures QuietOrBack(t, ExitThread(t, tid).0)
  {
    if ExitThread(t, tid).1.Some? {
      var t' := ExitThread(t, tid).0;
      var th := t.threads[tid];
      var p := t.procs[th.pid];
      ExitShape(t, tid);
      forall x | x in t.threads && x != tid ensures SameStack(t.threads[x], t'.threads[x]) { ExitFacts(t, tid, x); }
      StackInvFacts(t, tid);
      var woken := Joiners(t.threads, p.tids, tid);
      assert t'.threads[tid] == if woken == [] then th.(state := Exited, resume := None, waitingFor := None)
                                else ReapedThread(p, th.(state := Exited, resume := None, waitingFor := None));
      assert t'.pool == if woken == [] then t.pool else FreeStackOf(t.pool, p, th);
      hide StackInv, Inv, Joiners, Without, EnqueueAll, ExitThread, Summary;
      if th.managed && woken != [] {
        var j :| ManagedAt(t, tid, th.pid, j);
        assert GivesBack(t, t', tid, th.pid, j);
      } else {
        assert Quietly(t, t');
      }
    }
  }

  lemma ExitThreadStacks(t: Table, tid: Tid)
    requires Inv(t) && StackInv(t) && PoolBits(t.pool) && CanExit(t, tid)
    ensures StackInv(ExitThread(t, tid).0)
  {
    ExitThreadShape(t, tid);
    QuietOrBackKeeps(t, ExitThread(t, tid).0);
  }

  lemma ExitProcessStacks(t: Table, pid: Pid, status: nat)
    requires StackInv(t)
    ensures StackInv(ExitProcess(t, pid, status))
  {
    hide StackInv;
    QuietKeeps(t, ExitProcess(t, pid, status));
  }

  // ----- Creating threads -----

  lemma InsertQuiet(t: Table, pid: Pid, th: Thread)
    requires Inv(t) && pid in t.procs
    ensures var t' := Insert(t, pid, th).0;
            SameSpaces(t, t') && SameStacks(t, t', {t.nextTid}) && t'.pool == t.pool
    ensures Insert(t, pid, th).1.None? ==> Insert(t, pid, th).0.threads == t.threads
    ensures Insert(t, pid, th).1.Some? ==>
              t.nextTid !in t.threads && Insert(t, pid, th).0.threads == t.threads[t.nextTid := th]
  {
    NextTidUnused(t);
    SummaryAlive(t.threads[t.nextTid := th], t.procs[pid].tids + [t.nextTid]);
    hide Inv, Summary;
  }

  lemma CreateThreadStacks(t: Table, pid: Pid, entry: nat, start: nat, top: nat, rsp: nat, arg: nat)
    requires Inv(t) && StackInv(t)
    ensures StackInv(CreateThread(t, pid, entry, start, top, rsp, arg).0)
  {
    var t' := CreateThread(t, pid, entry, start, top, rsp, arg).0;
    if pid in t.procs {
      InsertQuiet(t, pid, NewThread(pid, start, top, false, entry, rsp, arg));
      hide StackInv, Inv, Insert;
      QuietKeeps(t, t');
    }
  }

  /** The pool after reserving: the main slot is marked, and slot `j` with it if one was free. */
  lemma ReserveFacts(pool: Pool, p4: nat, mainTop: nat)
    requires PoolShape(pool) && FindLive(pool, p4).Some? && StackSlotIndex(mainTop).Some?
    ensures var k, main := FindLive(pool, p4).value, StackSlotIndex(mainTop).value;
            var (pool', j) := ReserveStack(pool, p4, mainTop);
            var bits := pool[k].stackInUse[main := true];
            && pool' == pool[k := pool[k].(stackInUse := if j.Some? then bits[j.value := true] else bits)]
            && (j.Some? ==>
                  && j.value != main && !pool[k].stackInUse[j.value]
                  && PoolShape(pool') && FindLive(pool', p4) == Some(k)
                  && ReleaseStack(pool', p4, StackTop(j.value)) == pool[k := pool[k].(stackInUse := bits)])
  {
    var k, main := FindLive(pool, p4).value, StackSlotIndex(mainTop).value;
    var (pool', j) := ReserveStack(pool, p4, mainTop);
    var bits := pool[k].stackInUse[main := true];
    if j.Some? {
      BitsChange(pool, k, bits[j.value := true], p4);
      SlotIndexIff(StackTop(j.value), j.value);
      assert bits[j.value := true][j.value := false] == bits;
    }
  }

  /** The bits of one space change to mark the main slot and at most one slot, newly held by thread `x`. */
  ghost predicate Marks(t: Table, t': Table, pid: Pid, x: Tid, j: Option<nat>)
  {
    && Live(t, pid) && t.procs[pid].p4.Some? && SpaceOk(t, pid)
    && SameSpaces(t, t') && SameStacks(t, t', {x}) && x !in t.threads
    && (var main := StackSlotIndex(t.procs[pid].stackTop).value;
        var k := FindLive(t.pool, t.procs[pid].p4.value).value;
        var bits := t.pool[k].stackInUse[main := true];
        && (j.Some? ==> j.value < STACK_SLOTS && j.value != main && !t.pool[k].stackInUse[j.value])
        && t'.pool == t.pool[k := t.pool[k].(stackInUse := if j.Some? then bits[j.value := true] else bits)])
    && (j.Some? ==> ManagedAt(t', x, pid, j.value))
    && (j.None? ==> x !in t'.threads)
  }

  lemma MarkKeeps(t: Table, t': Table, pid: Pid, x: Tid, j: Option<nat>)
    requires StackInv(t) && Marks(t, t', pid, x, j)
    ensures StackInv(t')
  {
    MarkedSpaces(t, t', pid, x, j);
    MarkedThreads(t, t', pid, x, j);
  }

  lemma MarkedSpaces(t: Table, t': Table, pid: Pid, x: Tid, j: Option<nat>)
    requires StackInv(t) && Marks(t, t', pid, x, j)
    ensures PoolShape(t'.pool) && forall q | q in t'.procs :: SpaceOk(t', q)
  {
    var p4 := t.procs[pid].p4.value;
    var k := FindLive(t.pool, p4).value;
    var bits := t'.pool[k].stackInUse;
    BitsChange(t.pool, k, bits, p4);
    forall i: nat | i < STACK_SLOTS ensures Held(t', pid, i) <==> Held(t, pid, i) || j == Some(i) {
      HeldAfterMark(t, t', pid, x, j, i);
    }
    assert SameSpace(t.procs[pid], t'.procs[pid]);
    assert SpaceOk(t', pid) by { hide FindLive, StackSlotIndex, PoolShape, Held, SameStacks; }
    forall q | q in t'.procs ensures SpaceOk(t', q) {
      assert SpaceOk(t, q) && SameSpace(t.procs[q], t'.procs[q]);
      if q != pid {
        if Live(t, q) && t.procs[q].p4.Some? { BitsChange(t.pool, k, bits, t.procs[q].p4.value); }
        hide FindLive, StackSlotIndex, PoolShape, Held;
        SpaceSame(t, t', {x}, q);
      }
    }
  }

  lemma HeldAfterMark(t: Table, t': Table, pid: Pid, x: Tid, j: Option<nat>, i: nat)
    requires SameStacks(t, t', {x}) && x !in t.threads && i < STACK_SLOTS
    requires j.Some? ==> ManagedAt(t', x, pid, j.value)
    requires j.None? ==> x !in t'.threads
    ensures Held(t', pid, i) <==> Held(t, pid, i) || j == Some(i)
  {
    if y :| ManagedAt(t, y, pid, i) { assert ManagedAt(t', y, pid, i); }
    if y :| ManagedAt(t', y, pid, i) {
      if y != x { assert ManagedAt(t, y, pid, i); }
    }
  }

  lemma MarkedThreads(t: Table, t': Table, pid: Pid, x: Tid, j: Option<nat>)
    requires StackInv(t) && Live(t, pid) && t.procs[pid].p4.Some?
    requires SameSpaces(t, t') && SameStacks(t, t', {x}) && x !in t.threads
    requires j.Some? ==> ManagedAt(t', x, pid, j.value) && !Held(t, pid, j.value)
    requires j.None? ==> x !in t'.threads
    ensures forall y | y in t'.threads :: ManagedOk(t', y)
    ensures forall p, q | Live(t', p) && Live(t', q) && p != q && t'.procs[p].p4.Some? ::
              t'.procs[p].p4 != t'.procs[q].p4
    ensures forall a, b, r, i | ManagedAt(t', a, r, i) && ManagedAt(t', b, r, i) && Live(t', r) :: a == b
  {
    hide StackInv, SpaceOk, ManagedOk, ManagedAt, Held, SameSpaces, SameStacks;
    MidThreads(t, t', x);
    forall y | y in t'.threads ensures ManagedOk(t', y) { MarkedThread(t, t', pid, x, j, y); }
    forall a, b, r, i | ManagedAt(t', a, r, i) && ManagedAt(t', b, r, i) && Live(t', r) ensures a == b {
      MarkedPair(t, t', pid, x, j, a, b, r, i);
    }
  }

  /** The table without thread `x`. */
  ghost function Apart(t: Table, x: Tid): Table { t.(threads := map y | y in t.threads && y != x :: t.threads[y]) }

  lemma MidThreads(t: Table, t': Table, x: Tid)
    requires StackInv(t) && SameSpaces(t, t') && SameStacks(t, t', {x}) && x !in t.threads
    ensures forall y | y in Apart(t', x).threads :: ManagedOk(Apart(t', x), y)
    ensures forall p, q | Live(t', p) && Live(t', q) && p != q && t'.procs[p].p4.Some? ::
              t'.procs[p].p4 != t'.procs[q].p4
    ensures forall a, b, r, i | ManagedAt(t, a, r, i) && ManagedAt(t, b, r, i) && Live(t', r) :: a == b
  {
    var mid := Apart(t', x);
    ThreadsSame(t, mid);
    hide SpaceOk, ManagedOk, ManagedAt, PoolShape;
    forall p, q | Live(t', p) && Live(t', q) && p != q && t'.procs[p].p4.Some?
      ensures t'.procs[p].p4 != t'.procs[q].p4
    {
      assert Live(mid, p) && Live(mid, q);
    }
    forall r | Live(t', r) ensures Live(t, r) { assert SameSpace(t.procs[r], t'.procs[r]); }
  }

  lemma MarkedThread(t: Table, t': Table, pid: Pid, x: Tid, j: Option<nat>, y: Tid)
    requires Live(t, pid) && t.procs[pid].p4.Some? && SameSpaces(t, t')
    requires j.Some? ==> ManagedAt(t', x, pid, j.value)
    requires j.None? ==> x !in t'.threads
    requires y in t'.threads && (y != x ==> ManagedOk(Apart(t', x), y))
    ensures ManagedOk(t', y)
  {
    var mid := Apart(t', x);
    assert SameSpace(t.procs[pid], t'.procs[pid]);
    hide SameSpaces;
    if y != x {
      if i :| ManagedAt(mid, y, mid.threads[y].pid, i) { assert ManagedAt(t', y, mid.threads[y].pid, i); }
    }
  }

  lemma MarkedPair(t: Table, t': Table, pid: Pid, x: Tid, j: Option<nat>, a: Tid, b: Tid, r: Pid, i: nat)
    requires SameStacks(t, t', {x}) && ManagedAt(t', a, r, i) && ManagedAt(t', b, r, i)
    requires j.Some? ==> ManagedAt(t', x, pid, j.value) && !Held(t, pid, j.value)
    requires j.None? ==> x !in t'.threads
    requires ManagedAt(t, a, r, i) && ManagedAt(t, b, r, i) ==> a == b
    ensures a == b
  {
    assert a != x ==> ManagedAt(t, a, r, i);
    assert b != x ==> ManagedAt(t, b, r, i);
  }

  /** What creating a managed thread changes, told by the slot reserved and whether the process had room. */
  lemma CreateManagedShape(t: Table, pid: Pid, entry: nat, arg: nat)
    requires Inv(t) && PoolBits(t.pool) && pid in t.procs && t.procs[pid].kind == User && t.procs[pid].p4.Some?
    ensures var (pool, slot) := ReserveStack(t.pool, t.procs[pid].p4.value, t.procs[pid].stackTop);
            var (t', tid) := CreateManaged(t, pid, entry, arg);
            && SameSpaces(t, t') && SameStacks(t, t', {t.nextTid}) && t.nextTid !in t.threads
            && (slot.None? ==> tid.None? && t'.pool == pool)
            && (slot.Some? && tid.None? ==>
                  PoolBits(pool) && t'.pool == ReleaseStack(pool, t.procs[pid].p4.value, StackTop(slot.value)))
            && (tid.Some? ==> slot.Some? && t'.pool == pool && ManagedAt(t', t.nextTid, pid, slot.value))
            && (tid.None? ==> t.nextTid !in t'.threads)
  {
    hide Inv, Insert, ReserveStack, ReleaseStack;
    var (pool, slot) := ReserveStack(t.pool, t.procs[pid].p4.value, t.procs[pid].stackTop);
    ReserveKeepsBits(t.pool, t.procs[pid].p4.value, t.procs[pid].stackTop);
    NextTidUnused(t);
    if slot.Some? {
      var (start, top) := StackRangeForSlot(slot.value);
      PoolFree(t, pool);
      InsertQuiet(t.(pool := pool), pid, NewThread(pid, start, top, true, entry, top / 16 * 16 - 8, arg));
    }
  }

  lemma CreateManagedMarks(t: Table, pid: Pid, entry: nat, arg: nat) returns (j: Option<nat>)
    requires Inv(t) && StackInv(t) && PoolBits(t.pool) && Live(t, pid) && t.procs[pid].kind == User &&
               t.procs[pid].p4.Some?
    ensures Marks(t, CreateManaged(t, pid, entry, arg).0, pid, t.nextTid, j)
  {
    assert SpaceOk(t, pid);
    ReserveFacts(t.pool, t.procs[pid].p4.value, t.procs[pid].stackTop);
    CreateManagedShape(t, pid, entry, arg);
    var slot := ReserveStack(t.pool, t.procs[pid].p4.value, t.procs[pid].stackTop).1;
    j := if CreateManaged(t, pid, entry, arg).1.None? then None else slot;
    hide CreateManaged, StackInv, Inv, ReserveStack, ReleaseStack, FindLive, StackSlotIndex;
  }

  lemma CreateManagedStacks(t: Table, pid: Pid, entry: nat, arg: nat)
    requires Inv(t) && StackInv(t) && PoolBits(t.pool) && (pid in t.procs ==> Live(t, pid))
    ensures StackInv(CreateManaged(t, pid, entry, arg).0)
  {
    if pid in t.procs && t.procs[pid].kind == User && t.procs[pid].p4.Some? {
      var j := CreateManagedMarks(t, pid, entry, arg);
      hide CreateManaged, StackInv, Inv;
      MarkKeeps(t, CreateManaged(t, pid, entry, arg).0, pid, t.nextTid, j);
    }
  }

  // ----- Whole address spaces -----

  lemma ReleaseSpaceStacks(t: Table, p4: nat)
    requires StackInv(t) && Unowned(t, p4)
    ensures StackInv(ReleaseSpace(t, p4))
  {
    var t' := ReleaseSpace(t, p4);
    ThreadsSame(t, t');
    forall q | q in t'.procs ensures SpaceOk(t', q) {
      assert SpaceOk(t, q);
      if Live(t, q) && t.procs[q].p4.Some? {
        var g := t.procs[q].p4.value;
        FindLiveIs(t'.pool, g, FindLive(t.pool, g).value);
      }
      SpaceSame(t, t', {}, q);
    }
  }

  lemma TakeFacts(pool: Pool)
    requires PoolShape(pool)
    ensures PoolShape(Take(pool).0)
    ensures forall g | FindLive(pool, g).Some? :: SameSlot(pool, Take(pool).0, Some(g))
    ensures Take(pool).1.Some? ==>
              var f := Take(pool).1.value;
              && FindLive(pool, f).None?
              && FindLive(Take(pool).0, f).Some?
              && Take(pool).0[FindLive(Take(pool).0, f).value].stackInUse == ALL_FREE
  {
    var (pool', f) := Take(pool);
    if f.Some? {
      var k :| 0 <= k < |pool| && !pool[k].inUse && f == Some(pool[k].p4Frame) &&
          pool' == pool[k := pool[k].(inUse := true)];
      FindLiveIs(pool', f.value, k);
    }
    forall g | FindLive(pool, g).Some? ensures SameSlot(pool, pool', Some(g)) {
      FindLiveIs(pool', g, FindLive(pool, g).value);
    }
  }

  /** The table with the new thread and pool but not yet the new process. */
  function BeforeExec(t: Table, pid: Pid, parent: Option<Pid>): Table { Exec(t, pid, parent).(procs := t.procs) }

  /** What starting a program changes: one thread without a managed stack, one process, one space taken. */
  lemma ExecShape(t: Table, pid: Pid, parent: Option<Pid>)
    requires Inv(t) && pid !in t.procs
    ensures var mid, t' := BeforeExec(t, pid, parent), Exec(t, pid, parent);
            && mid.procs == t.procs && mid.pool == Take(t.pool).0 && t'.pool == mid.pool && t'.threads == mid.threads
            && t.nextTid !in t.threads && mid.threads.Keys == t.threads.Keys + {t.nextTid}
            && (forall x | x in t.threads :: mid.threads[x] == t.threads[x] && t.threads[x].pid in t.procs)
            && !mid.threads[t.nextTid].managed && mid.threads[t.nextTid].pid == pid
            && pid in t'.procs && t'.procs == t.procs[pid := t'.procs[pid]]
            && t'.procs[pid].p4 == Take(t.pool).1
            && (t'.procs[pid].p4.Some? ==> t'.procs[pid].stackTop == StackTopForPid(pid))
  {
    NextTidUnused(t);
    forall x | x in t.threads ensures t.threads[x].pid in t.procs { assert ThreadOk(t, x); }
    hide Take, Inv, StackTopForPid;
  }

  lemma BeforeExecStacks(t: Table, pid: Pid, parent: Option<Pid>)
    requires Inv(t) && StackInv(t) && pid !in t.procs
    ensures StackInv(BeforeExec(t, pid, parent))
  {
    hide Exec, BeforeExec, Inv, Take, FindLive, StackSlotIndex, StackTopForPid, PoolShape;
    var mid := BeforeExec(t, pid, parent);
    ExecShape(t, pid, parent);
    TakeFacts(t.pool);
    ThreadsSame(t, mid);
    forall q | q in t.procs ensures SpaceOk(mid, q) {
      assert SpaceOk(t, q);
      SpaceSame(t, mid, {}, q);
    }
  }

  lemma NoManagedYet(t: Table, pid: Pid, parent: Option<Pid>, x: Tid, j: nat)
    requires Inv(t) && pid !in t.procs
    ensures !ManagedAt(Exec(t, pid, parent), x, pid, j) && !ManagedAt(BeforeExec(t, pid, parent), x, pid, j)
  {
    ExecShape(t, pid, parent);
  }

  lemma ExecOldSpace(t: Table, t': Table, pid: Pid, q: Pid)
    requires t'.threads == t.threads && t'.pool == t.pool && q in t.procs && q in t'.procs && t'.procs[q] == t.procs[q]
    requires SpaceOk(t, q)
    ensures SpaceOk(t', q)
  {
    forall j: nat ensures Held(t', q, j) <==> Held(t, q, j) {
      if x :| ManagedAt(t, x, q, j) { assert ManagedAt(t', x, q, j); }
      if x :| ManagedAt(t', x, q, j) { assert ManagedAt(t, x, q, j); }
    }
    hide Held, FindLive, StackSlotIndex;
  }

  lemma ExecNewSpace(t: Table, pid: Pid, parent: Option<Pid>)
    requires Inv(t) && PoolShape(t.pool) && pid !in t.procs
    ensures pid in Exec(t, pid, parent).procs && SpaceOk(Exec(t, pid, parent), pid)
  {
    var t' := Exec(t, pid, parent);
    ExecShape(t, pid, parent);
    TakeFacts(t.pool);
    SlotIndexIff(StackTopForPid(pid), (if pid < 2 then 0 else pid - 2) % STACK_SLOTS);
    forall j: nat ensures !Held(t', pid, j) {
      forall x ensures !ManagedAt(t', x, pid, j) { NoManagedYet(t, pid, parent, x, j); }
    }
    hide Exec, Inv, Take, FindLive, StackTopForPid, Held;
  }

  lemma ExecP4Fresh(t: Table, pid: Pid, parent: Option<Pid>)
    requires Inv(t) && StackInv(t) && pid !in t.procs
    ensures pid in Exec(t, pid, parent).procs
    ensures var p4 := Exec(t, pid, parent).procs[pid].p4;
            p4.Some? ==> forall q | q in t.procs && Live(t, q) :: t.procs[q].p4 != p4
  {
    ExecShape(t, pid, parent);
    TakeFacts(t.pool);
    hide Exec, Take, FindLive, Inv;
    forall q | q in t.procs ensures SpaceOk(t, q) {}
  }

  lemma ExecStacks(t: Table, pid: Pid, parent: Option<Pid>)
    requires Inv(t) && StackInv(t) && pid !in t.procs
    ensures StackInv(Exec(t, pid, parent))
  {
    hide Exec, BeforeExec, Take, SpaceOk, StackTopForPid, FindLive, PoolShape, Inv;
    var mid, t' := BeforeExec(t, pid, parent), Exec(t, pid, parent);
    BeforeExecStacks(t, pid, parent);
    ExecNewSpace(t, pid, parent);
    ExecShape(t, pid, parent);
    assert PoolShape(t'.pool);
    ExecP4Fresh(t, pid, parent);
    forall x, j ensures !ManagedAt(t', x, pid, j) { NoManagedYet(t, pid, parent, x, j); }
    forall q | q in t'.procs ensures SpaceOk(t', q) {
      if q != pid {
        assert SpaceOk(mid, q);
        ExecOldSpace(mid, t', pid, q);
      }
    }
    forall x | x in t'.threads ensures ManagedOk(t', x) {
      assert ManagedOk(mid, x);
      if j :| ManagedAt(mid, x, mid.threads[x].pid, j) { assert ManagedAt(t', x, mid.threads[x].pid, j); }
    }
    forall a, b, r, i | ManagedAt(t', a, r, i) && ManagedAt(t', b, r, i) && Live(t', r) ensures a == b {
      assert r != pid;
      assert ManagedAt(mid, a, r, i) && ManagedAt(mid, b, r, i) && Live(mid, r);
    }
  }

  // ----- Runs -----

  /** Every allowed step keeps the ownership of stacks. */
  lemma StepKeepsStacks(t: Table, s: Step)
    requires Inv(t) && StackInv(t) && PoolBits(t.pool) && Allowed(t, s)
    ensures StackInv(Do(t, s))
  {
    if IsQuiet(s) {
      QuietStep(t, s);
      QuietKeeps(t, Do(t, s));
    } else {
      LoudStep(t, s);
    }
  }

  lemma LoudStep(t: Table, s: Step)
    requires Inv(t) && StackInv(t) && PoolBits(t.pool) && Allowed(t, s) && !IsQuiet(s)
    ensures StackInv(Do(t, s))
  {
    hide Inv, StackInv, CreateThread, CreateManaged, Join, ExitThread, ExitProcess, Exec, ReleaseSpace;
    match s
    case DoCreateThread(pid, entry, start, top, rsp, arg) => CreateThreadStacks(t, pid, entry, start, top, rsp, arg);
    case DoCreateManaged(pid, entry, arg) => CreateManagedStacks(t, pid, entry, arg);
    case DoJoin(tid, target, context) => JoinStacks(t, tid, target, context);
    case DoExitThread(tid) => ExitThreadStacks(t, tid);
    case DoExitProcess(pid, status) => ExitProcessStacks(t, pid, status);
    case DoExec(pid, parent) => ExecStacks(t, pid, parent);
    case DoReleaseSpace(p4) => ReleaseSpaceStacks(t, p4);
  }

  lemma BootStacks(pool: Pool)
    requires PoolShape(pool)
    ensures StackInv(Boot(pool))
  {
    var t := Boot(pool);
    assert SpaceOk(t, 0) && ManagedOk(t, 1);
    assert forall x, pid, j :: !ManagedAt(t, x, pid, j);
  }

  lemma {:induction false} RunKeepsStacks(states: seq<Table>, steps: seq<Step>, i: nat)
    requires IsRun(states, steps) && Inv(states[0]) && StackInv(states[0]) && i < |states|
    ensures StackInv(states[i])
  {
    if i > 0 {
      RunKeepsStacks(states, steps, i - 1);
      RunKeepsInv(states, steps, i - 1);
      StepKeepsStacks(states[i - 1], steps[i - 1]);
    }
  }

  /**
    In every state of every run from boot, two threads of a live process that hold kernel-assigned stacks have
    a guard page between those stacks, and between them and the main stack of the process.
   */
  lemma ManagedStacksApart(states: seq<Table>, steps: seq<Step>, i: nat, pool: Pool, x: Tid, y: Tid)
    requires IsRun(states, steps) && PoolShape(pool) && states[0] == Boot(pool) && i < |states|
    requires var t := states[i];
             && x in t.threads && y in t.threads && x != y && t.threads[x].managed && t.threads[y].managed
             && t.threads[x].pid == t.threads[y].pid && Live(t, t.threads[x].pid)
    ensures var t := states[i];
            var mainTop := t.procs[t.threads[x].pid].stackTop;
            var u, v := t.threads[x], t.threads[y];
            && u.stackStart.Some? && u.stackTop.Some? && v.stackStart.Some? && v.stackTop.Some?
            && u.stackTop.value == u.stackStart.value + USER_STACK_SIZE
            && (u.stackTop.value + USER_STACK_GUARD_SIZE <= v.stackStart.value ||
                v.stackTop.value + USER_STACK_GUARD_SIZE <= u.stackStart.value)
            && (u.stackTop.value + USER_STACK_GUARD_SIZE <= mainTop - USER_STACK_SIZE ||
                mainTop + USER_STACK_GUARD_SIZE <= u.stackStart.value)
  {
    var t := states[i];
    BootInv(pool);
    BootStacks(pool);
    RunKeepsStacks(states, steps, i);
    var pid := t.threads[x].pid;
    assert ManagedOk(t, x) && ManagedOk(t, y) && SpaceOk(t, pid);
    var j :| ManagedAt(t, x, pid, j);
    var l :| ManagedAt(t, y, pid, l);
    assert Held(t, pid, j);
    var main := StackSlotIndex(t.procs[pid].stackTop).value;
    SlotIndexIff(t.procs[pid].stackTop, main);
  }
}
