/** Runs of thread-level steps, and what holds in every state of every run. */
module SchedRuns {
  import opened Base
  import opened StackPool
  import opened SchedModel
  import opened SchedInv
  import opened SchedSteps

  datatype Step =
    | DoCreateThread(pid: Pid, entry: nat, start: nat, top: nat, rsp: nat, arg: nat)
    | DoCreateManaged(pid: Pid, entry: nat, arg: nat)
    | DoSchedule
    | DoYield(tid: Tid, context: Context)
    | DoPreempt(tid: Tid, context: Context)
    | DoJoin(tid: Tid, target: Tid, context: Context)
    | DoBlock(tid: Tid, context: Context)
    | DoWake(tid: Tid, value: nat)
    | DoExitThread(tid: Tid)
    | DoActivateMain(pid: Pid, signal: nat, handler: nat)
    | DoActivateRunning(pid: Pid, tid: Tid, signal: nat, handler: nat, context: Context)
    | DoRestore(pid: Pid, tid: Tid)
    | DoExitProcess(pid: Pid, status: nat)
    | DoExec(pid: Pid, parent: Option<Pid>)
    | DoReleaseSpace(p4: nat)

  function Do(t: Table, s: Step): Table
    requires PoolBits(t.pool)
  {
    match s
    case DoCreateThread(pid, entry, start, top, rsp, arg) => CreateThread(t, pid, entry, start, top, rsp, arg).0
    case DoCreateManaged(pid, entry, arg) => CreateManaged(t, pid, entry, arg).0
    case DoSchedule => Schedule(t).0
    case DoYield(tid, context) => Yield(t, tid, context).0
    case DoPreempt(tid, context) => Preempt(t, tid, context).0
    case DoJoin(tid, target, context) => Join(t, tid, target, context).0
    case DoBlock(tid, context) => Block(t, tid, context).0
    case DoWake(tid, value) => Wake(t, tid, value).0
    case DoExitThread(tid) => ExitThread(t, tid).0
    case DoActivateMain(pid, signal, handler) => ActivateMain(t, pid, signal, handler).0
    case DoActivateRunning(pid, tid, signal, handler, context) =>
      ActivateRunning(t, pid, tid, signal, handler, context).0
    case DoRestore(pid, tid) => Restore(t, pid, tid).0
    case DoExitProcess(pid, status) => ExitProcess(t, pid, status)
    case DoExec(pid, parent) => Exec(t, pid, parent)
    case DoReleaseSpace(p4) => ReleaseSpace(t, p4)
  }

  /** No process that has not ended owns this address space. */
  ghost predicate Unowned(t: Table, p4: nat)
  {
    forall pid | pid in t.procs && !Terminal(t.procs[pid].state) :: t.procs[pid].p4 != Some(p4)
  }

  /**
    Who may make a step: user threads and processes only; the running thread joins and exits; threads are
    created by processes that have not ended; a program gets a fresh PID; TIDs have not run out; an address
    space goes back to the pool when its process has ended.
   */
  ghost predicate Allowed(t: Table, s: Step)
  {
    match s
    case DoCreateThread(pid, _, _, _, _, _) => t.nextTid < TID_MAX && (pid in t.procs ==> Live(t, pid))
    case DoCreateManaged(pid, _, _) => t.nextTid < TID_MAX && (pid in t.procs ==> Live(t, pid))
    case DoSchedule => true
    case DoJoin(tid, target, _) =>
      UserTid(t, tid) && UserTid(t, target) && (tid in t.threads ==> t.threads[tid].state == Running)
    case DoExitThread(tid) => CanExit(t, tid)
    case DoActivateMain(pid, _, _) => pid in t.procs ==> t.procs[pid].kind == User
    case DoExitProcess(pid, _) => pid in t.procs ==> t.procs[pid].kind == User
    case DoExec(pid, _) => pid !in t.procs && t.nextTid < TID_MAX
    case DoReleaseSpace(p4) => Unowned(t, p4)
    case DoYield(tid, _) => UserTid(t, tid)
    case DoPreempt(tid, _) => UserTid(t, tid)
    case DoBlock(tid, _) => UserTid(t, tid)
    case DoWake(tid, _) => UserTid(t, tid)
    case DoActivateRunning(_, tid, _, _, _) => UserTid(t, tid)
    case DoRestore(_, tid) => UserTid(t, tid)
  }

  /** The table as init_process_table leaves it: the kernel's own process, ready and queued. */
  function Boot(pool: Pool): Table
  {
    Table(map[0 := Process(None, Kernel, 1, [1], Ready, None, 0, None, None, None)],
          map[1 := Thread(0, Kernel, Ready, None, None, Some(0), Some(0), false, None)], [1], 2, pool)
  }

  lemma BootInv(pool: Pool)
    ensures Inv(Boot(pool))
  {
    var t := Boot(pool);
    assert ThreadOk(t, 1);
    assert ProcOk(t, 0);
  }

  lemma {:induction false} ScheduleKeepsPool(t: Table)
    ensures Schedule(t).0.pool == t.pool
    decreases |t.queue|
  {
    if t.queue != [] && !Dispatchable(t, t.queue[0]) { ScheduleKeepsPool(t.(queue := t.queue[1..])); }
  }

  lemma StepKeepsBits(t: Table, s: Step)
    requires PoolBits(t.pool)
    ensures PoolBits(Do(t, s).pool)
  {
    match s
    case DoSchedule => ScheduleKeepsPool(t);
    case DoPreempt(tid, context) =>
      ScheduleKeepsPool(Yield(t, tid, context).0);
    case DoCreateManaged(pid, entry, arg) =>
      if pid in t.procs && t.procs[pid].p4.Some? {
        ReserveKeepsBits(t.pool, t.procs[pid].p4.value, t.procs[pid].stackTop);
      }
    case DoExitThread(tid) => hide Joiners, EnqueueAll, Without, Summary;
    case _ =>
  }

  /** Every allowed step keeps the invariant. */
  lemma StepKeepsInv(t: Table, s: Step)
    requires Inv(t) && PoolBits(t.pool) && Allowed(t, s)
    ensures Inv(Do(t, s))
  {
    hide Inv, CreateThread, CreateManaged, Schedule, Yield, Preempt, Join, Block, Wake, ExitThread;
    hide ActivateMain, ActivateRunning, Restore, ExitProcess, Exec;
    match s
    case DoCreateThread(pid, entry, start, top, rsp, arg) => CreateThreadKeeps(t, pid, entry, start, top, rsp, arg);
    case DoCreateManaged(pid, entry, arg) => CreateManagedKeeps(t, pid, entry, arg);
    case DoSchedule => ScheduleKeeps(t);
    case DoYield(tid, context) => YieldKeeps(t, tid, context);
    case DoPreempt(tid, context) => PreemptKeeps(t, tid, context);
    case DoJoin(tid, target, context) => JoinKeeps(t, tid, target, context);
    case DoBlock(tid, context) => BlockKeeps(t, tid, context);
    case DoWake(tid, value) => WakeKeeps(t, tid, value);
    case DoExitThread(tid) => ExitThreadKeeps(t, tid);
    case DoActivateMain(pid, signal, handler) => ActivateMainKeeps(t, pid, signal, handler);
    case DoActivateRunning(pid, tid, signal, handler, context) =>
      ActivateRunningKeeps(t, pid, tid, signal, handler, context);
    case DoRestore(pid, tid) => RestoreKeeps(t, pid, tid);
    case DoExitProcess(pid, status) => ExitProcessKeeps(t, pid, status);
    case DoExec(pid, parent) => ExecKeeps(t, pid, parent);
    case DoReleaseSpace(p4) => PoolFree(t, Release(t.pool, p4));
  }

  /** A run: states joined by allowed steps. */
  ghost predicate IsRun(states: seq<Table>, steps: seq<Step>)
  {
    && |states| == |steps| + 1
    && (forall i | 0 <= i < |states| :: PoolBits(states[i].pool))
    && (forall i | 0 <= i < |steps| :: Allowed(states[i], steps[i]) && states[i + 1] == Do(states[i], steps[i]))
  }

  lemma {:induction false} RunKeepsInv(states: seq<Table>, steps: seq<Step>, i: nat)
    requires IsRun(states, steps) && Inv(states[0]) && i < |states|
    ensures Inv(states[i])
  {
    if i > 0 {
      RunKeepsInv(states, steps, i - 1);
      StepKeepsInv(states[i - 1], steps[i - 1]);
    }
  }

  /**
    No thread is lost: in every state of every run from boot, a user thread is ready exactly when it is in the
    queue, where it stands once; a ready or blocked thread has a saved context and a running one has none; and
    a process that has not ended shows the summary of its threads.
   */
  lemma NoThreadIsLost(states: seq<Table>, steps: seq<Step>, i: nat, x: Tid)
    requires IsRun(states, steps) && (exists pool :: states[0] == Boot(pool)) && i < |states|
    requires x in states[i].threads && states[i].threads[x].kind == User
    ensures var t := states[i];
            var th := t.threads[x];
            && (th.state == Ready <==> x in t.queue)
            && (forall k, l | 0 <= k < l < |t.queue| :: t.queue[k] != t.queue[l])
            && (th.state == Ready || th.state == Blocked ==> th.resume.Some?)
            && (th.state == Running ==> th.resume.None?)
            && th.pid in t.procs
            && (!Terminal(t.procs[th.pid].state) ==> t.procs[th.pid].state == Summary(t.threads, t.procs[th.pid].tids))
            && (Terminal(t.procs[th.pid].state) ==> th.state == t.procs[th.pid].state)
  {
    var pool :| states[0] == Boot(pool);
    BootInv(pool);
    RunKeepsInv(states, steps, i);
    assert ThreadOk(states[i], x);
    assert ProcOk(states[i], states[i].threads[x].pid);
  }

  // ----- Creation -----

  /** What a program sees of a new thread: a fresh TID at the end of the queue that will start at `entry` with `arg`. */
  ghost predicate Starts(t: Table, t': Table, tid: Tid, pid: Pid, entry: nat, rsp: nat, arg: nat)
  {
    && tid !in t.threads && t'.threads.Keys == t.threads.Keys + {tid} && t'.queue == t.queue + [tid]
    && (forall x | x in t.threads :: t'.threads[x] == t.threads[x])
    && (var th := t'.threads[tid];
        && th.pid == pid && th.kind == User && th.state == Ready && th.sigReturn.None? && th.waitingFor.None?
        && th.resume.Some? && th.resume.value.rip == entry && th.resume.value.rsp == rsp && th.resume.value.rdi == arg
        && th.resume.value.rflags == 0x202)
  }

  lemma InsertStarts(t: Table, pid: Pid, start: nat, top: nat, managed: bool, entry: nat, rsp: nat, arg: nat)
    requires Inv(t) && pid in t.procs && Insert(t, pid, NewThread(pid, start, top, managed, entry, rsp, arg)).1.Some?
    ensures var (t', tid) := Insert(t, pid, NewThread(pid, start, top, managed, entry, rsp, arg));
            Starts(t, t', tid.value, pid, entry, rsp, arg)
  {
    NextTidUnused(t);
    assert t.nextTid in t.queue ==> t.nextTid in t.threads;
    hide Inv, Summary;
  }

  /** create_user_thread: the thread starts where it was told to, and its stack overlaps no stack of a sibling. */
  lemma CreatedStarts(t: Table, pid: Pid, entry: nat, start: nat, top: nat, rsp: nat, arg: nat, x: Tid)
    requires Inv(t) && CreateThread(t, pid, entry, start, top, rsp, arg).1.Some?
    ensures var (t', tid) := CreateThread(t, pid, entry, start, top, rsp, arg);
            && Starts(t, t', tid.value, pid, entry, rsp, arg)
            && (x in t.threads && t.threads[x].pid == pid && t.threads[x].stackStart.Some? &&
                  t.threads[x].stackTop.Some? ==>
                  top <= t.threads[x].stackStart.value || t.threads[x].stackTop.value <= start)
  {
    InsertStarts(t, pid, start, top, false, entry, rsp, arg);
    assert x in t.threads ==> ThreadOk(t, x);
    hide Inv, Insert;
  }

  /** create_managed_user_thread: inside its slot, with the stack pointer eight below a multiple of sixteen. */
  lemma ManagedStarts(t: Table, pid: Pid, entry: nat, arg: nat)
    requires Inv(t) && PoolBits(t.pool) && CreateManaged(t, pid, entry, arg).1.Some?
    ensures var (t', tid) := CreateManaged(t, pid, entry, arg);
            exists rsp: nat ::
              && Starts(t, t', tid.value, pid, entry, rsp, arg) && rsp % 16 == 8
              && t'.threads[tid.value].stackStart.Some? && t'.threads[tid.value].stackTop == Some(rsp + 8)
              && t'.threads[tid.value].stackStart.value <= rsp
  {
    hide Inv, ReserveStack;
    var (pool, slot) := ReserveStack(t.pool, t.procs[pid].p4.value, t.procs[pid].stackTop);
    var (start, top) := StackRangeForSlot(slot.value);
    PoolFree(t, pool);
    InsertStarts(t.(pool := pool), pid, start, top, true, entry, top / 16 * 16 - 8, arg);
    var (t', tid) := CreateManaged(t, pid, entry, arg);
    assert Starts(t, t', tid.value, pid, entry, top / 16 * 16 - 8, arg);
  }

  // ----- Join -----

  /** A join waits for a live sibling only; no thread waits for itself and no two wait for each other. */
  lemma JoinProtocol(states: seq<Table>, steps: seq<Step>, i: nat, x: Tid)
    requires IsRun(states, steps) && Inv(states[0]) && i < |states|
    requires x in states[i].threads && states[i].threads[x].kind == User && Live(states[i], states[i].threads[x].pid)
    requires states[i].threads[x].waitingFor.Some?
    ensures var t := states[i];
            var w := t.threads[x].waitingFor.value;
            && t.threads[x].state == Blocked && w != x && w in t.threads && t.threads[w].pid == t.threads[x].pid
            && t.threads[w].state != Exited && t.threads[w].state != Reaped
            && t.threads[w].waitingFor != Some(x)
  {
    RunKeepsInv(states, steps, i);
    assert ThreadOk(states[i], x);
    assert UserThreadOk(states[i], x);
  }

  /** When a thread exits, each of its joiners becomes ready with return value 0; it is reaped if there was one. */
  lemma ExitWakesJoiners(t: Table, tid: Tid, x: Tid)
    requires Inv(t) && PoolBits(t.pool) && tid in t.threads && CanExit(t, tid) && ExitThread(t, tid).1.Some?
    requires x in t.threads && x != tid && t.threads[x].state == Blocked && t.threads[x].waitingFor == Some(tid)
    ensures var t' := ExitThread(t, tid).0;
            && x in t'.threads && t'.threads[x].state == Ready && x in t'.queue && t'.threads[x].waitingFor.None?
            && t.threads[x].resume.Some?
            && t'.threads[x].resume == Some(t.threads[x].resume.value.(rax := 0))
            && t'.threads[tid].state == Reaped
  {
    assert ThreadOk(t, x) && ThreadOk(t, tid);
    assert t.threads[x].kind == User;
    ActiveIsLive(t, x);
    RunningNotQueued(t, x);
    ExitFacts(t, tid, x);
    JoinersFacts(t.threads, t.procs[t.threads[tid].pid].tids, tid);
  }

  /** A thread nobody joins on stays exited until it is joined. */
  lemma ExitWithoutJoiners(t: Table, tid: Tid)
    requires Inv(t) && PoolBits(t.pool) && tid in t.threads && CanExit(t, tid) && ExitThread(t, tid).1.Some?
    requires forall x | x in t.threads :: t.threads[x].waitingFor != Some(tid)
    ensures ExitThread(t, tid).0.threads[tid].state == Exited
  {
    NoJoiners(t.threads, t.procs[t.threads[tid].pid].tids, tid);
  }

  lemma {:induction false} NoJoiners(threads: map<Tid, Thread>, tids: seq<Tid>, tid: Tid)
    requires forall x | x in threads :: threads[x].waitingFor != Some(tid)
    ensures Joiners(threads, tids, tid) == []
  {
    if tids != [] { NoJoiners(threads, tids[..|tids| - 1], tid); }
  }

  // ----- Dispatch -----

  /** Preemption never takes the processor from a thread without handing back a thread to run. */
  lemma PreemptNeverIdles(t: Table, tid: Tid, context: Context)
    requires Inv(t) && UserTid(t, tid)
    ensures Preempt(t, tid, context).1.None? ==> Preempt(t, tid, context).0 == t
  {
    var (t', yielded) := Yield(t, tid, context);
    if HasReadyExcept(t, tid) && yielded {
      YieldKeeps(t, tid, context);
      EnqueueFacts(t.queue, tid);
      QueuedDispatches(t', tid);
    }
  }

  /** While a user thread is queued, scheduling dispatches some thread. */
  lemma {:induction false} QueuedDispatches(t: Table, x: Tid)
    requires Inv(t) && x in t.queue && t.threads[x].kind == User
    ensures Schedule(t).1.Some?
    decreases |t.queue|
  {
    QueuedUserDispatchable(t, t.queue[0]);
    if !Dispatchable(t, t.queue[0]) {
      QueuedUserDispatchable(t, x);
      DropKernelEntry(t);
      PopFacts(t.queue);
      QueuedDispatches(t.(queue := t.queue[1..]), x);
    }
  }
}
