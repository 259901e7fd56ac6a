/** The thread-level steps of the process table, as functions on a value. */
module SchedModel {
  import opened Base
  import opened StackPool

  type Pid = nat
  type Tid = nat

  const MAX_THREADS_PER_PROCESS := 16
  const TID_MAX: nat := 0xFFFF_FFFF

  datatype Kind = Kernel | User

  datatype State = Created | Ready | Running | Blocked | Stopped | Exited | Zombie | Reaped

  /** The saved user registers. */
  datatype Context = Context(
    rip: nat, rsp: nat, rflags: nat, rbx: nat, rcx: nat, rdx: nat, rsi: nat, rdi: nat, rbp: nat,
    r8: nat, r9: nat, r10: nat, r11: nat, r12: nat, r13: nat, r14: nat, r15: nat, rax: nat)

  datatype Thread = Thread(
    pid: Pid, kind: Kind, state: State, resume: Option<Context>, sigReturn: Option<Context>,
    stackStart: Option<nat>, stackTop: Option<nat>, managed: bool, waitingFor: Option<Tid>)

  datatype Process = Process(
    parent: Option<Pid>, kind: Kind, mainTid: Tid, tids: seq<Tid>, state: State,
    p4: Option<nat>, stackTop: nat, exitStatus: Option<nat>, waitingFor: Option<Pid>, sleepingUntil: Option<nat>)

  datatype Table = Table(
    procs: map<Pid, Process>, threads: map<Tid, Thread>, queue: seq<Tid>, nextTid: Tid, pool: Pool)

  predicate Terminal(s: State) { s == Exited || s == Zombie || s == Reaped }

  predicate Has(threads: map<Tid, Thread>, tids: seq<Tid>, s: State)
  {
    exists k | 0 <= k < |tids| :: tids[k] in threads && threads[tids[k]].state == s
  }

  /** refresh_state_from_threads: a process that has not ended shows the liveliest of its threads. */
  function Summary(threads: map<Tid, Thread>, tids: seq<Tid>): State
  {
    if Has(threads, tids, Running) then Running
    else if Has(threads, tids, Ready) then Ready
    else if Has(threads, tids, Blocked) then Blocked
    else if Has(threads, tids, Stopped) then Stopped
    else Created
  }

  function Refreshed(p: Process, threads: map<Tid, Thread>): Process
  {
    if Terminal(p.state) then p else p.(state := Summary(threads, p.tids))
  }

  /** enqueue_ready: at the end, unless already queued. */
  function Enqueue(queue: seq<Tid>, tid: Tid): seq<Tid>
  {
    if tid in queue then queue else queue + [tid]
  }

  function EnqueueAll(queue: seq<Tid>, tids: seq<Tid>): seq<Tid>
  {
    if tids == [] then queue else Enqueue(EnqueueAll(queue, tids[..|tids| - 1]), tids[|tids| - 1])
  }

  /** The queue without the TIDs in `gone` (Rust's `retain`). */
  function Without(queue: seq<Tid>, gone: set<Tid>): seq<Tid>
  {
    if queue == [] then []
    else
      var front := Without(queue[..|queue| - 1], gone);
      if queue[|queue| - 1] in gone then front else front + [queue[|queue| - 1]]
  }

  /** Thread `tid` becomes `th`, its process is refreshed, and the queue becomes `queue`. */
  function Update(t: Table, tid: Tid, th: Thread, queue: seq<Tid>): Table
    requires tid in t.threads && t.threads[tid].pid in t.procs
  {
    var threads := t.threads[tid := th];
    var pid := t.threads[tid].pid;
    t.(threads := threads, procs := t.procs[pid := Refreshed(t.procs[pid], threads)], queue := queue)
  }

  predicate Known(t: Table, tid: Tid) { tid in t.threads && t.threads[tid].pid in t.procs }

  // ----- Yield, block, wake -----

  function Yield(t: Table, tid: Tid, context: Context): (Table, bool)
  {
    if !Known(t, tid) || t.threads[tid].state != Running then (t, false)
    else
      var th := t.threads[tid].(resume := Some(context), state := Ready);
      var t' := Update(t, tid, th, Enqueue(t.queue, tid));
      var pid := t.threads[tid].pid;
      (t'.(procs := t'.procs[pid := t'.procs[pid].(sleepingUntil := None)]), true)
  }

  function Block(t: Table, tid: Tid, context: Context): (Table, bool)
  {
    if !Known(t, tid) || t.threads[tid].state != Running then (t, false)
    else
      var th := t.threads[tid].(resume := Some(context), state := Blocked, waitingFor := None);
      (Update(t, tid, th, t.queue), true)
  }

  function Wake(t: Table, tid: Tid, value: nat): (Table, bool)
  {
    if !Known(t, tid) || t.threads[tid].state != Blocked || t.threads[tid].resume.None? then (t, false)
    else
      var th := t.threads[tid];
      var th' := th.(resume := Some(th.resume.value.(rax := value)), state := Ready, waitingFor := None);
      (Update(t, tid, th', Enqueue(t.queue, tid)), true)
  }

  // ----- Dispatch -----

  datatype Dispatch = Dispatch(pid: Pid, tid: Tid, context: Context)

  predicate Dispatchable(t: Table, tid: Tid)
  {
    Known(t, tid) && t.threads[tid].state == Ready && t.threads[tid].resume.Some?
  }

  /** schedule_next_ready_user: pop until a thread can be dispatched; what cannot be is dropped. */
  function Schedule(t: Table): (r: (Table, Option<Dispatch>))
    decreases |t.queue|
  {
    if t.queue == [] then (t, None)
    else
      var tid, rest := t.queue[0], t.queue[1..];
      if !Dispatchable(t, tid) then Schedule(t.(queue := rest))
      else
        var th := t.threads[tid];
        (Update(t, tid, th.(resume := None, state := Running), rest), Some(Dispatch(th.pid, tid, th.resume.value)))
  }

  predicate HasReadyExcept(t: Table, tid: Tid)
  {
    exists k | 0 <= k < |t.queue| ::
      t.queue[k] != tid && Known(t, t.queue[k]) && t.threads[t.queue[k]].state == Ready
  }

  function Preempt(t: Table, tid: Tid, context: Context): (Table, Option<Dispatch>)
  {
    if !HasReadyExcept(t, tid) then (t, None)
    else
      var (t', yielded) := Yield(t, tid, context);
      if !yielded then (t', None) else Schedule(t')
  }

  // ----- Join and exit -----

  datatype JoinStatus = Missing | NotSibling | SelfJoin | Deadlock | AlreadyReaped | Completed | JoinBlocked

  /** take_managed_stack_release: a managed stack is given up at most once. */
  function GiveUpStack(th: Thread): Thread
  {
    if th.managed && th.stackTop.Some? then th.(stackTop := None, stackStart := None, managed := false) else th
  }

  predicate PoolBits(pool: Pool) { forall k | 0 <= k < |pool| :: |pool[k].stackInUse| == STACK_SLOTS }

  /** The pool after the thread's managed stack, if any, has gone back to its process's address space. */
  function FreeStackOf(pool: Pool, p: Process, th: Thread): Pool
    requires PoolBits(pool)
  {
    if p.p4.Some? && th.managed && th.stackTop.Some? then ReleaseStack(pool, p.p4.value, th.stackTop.value) else pool
  }

  /** The thread once reaped; without a private address space its stack record stays. */
  function ReapedThread(p: Process, th: Thread): Thread
  {
    (if p.p4.Some? then GiveUpStack(th) else th).(state := Reaped)
  }

  function Join(t: Table, caller: Tid, target: Tid, context: Context): (r: (Table, JoinStatus))
    requires PoolBits(t.pool)
  {
    if caller == target then (t, SelfJoin)
    else if !Known(t, caller) || !Known(t, target) then (t, Missing)
    else if t.threads[target].pid != t.threads[caller].pid then (t, NotSibling)
    else if t.threads[target].state == Reaped then (t, AlreadyReaped)
    else if t.threads[target].waitingFor == Some(caller) then (t, Deadlock)
    else if t.threads[target].state == Exited then
      var p := t.procs[t.threads[caller].pid];
      var th := t.threads[target];
      (t.(threads := t.threads[target := ReapedThread(p, th)], pool := FreeStackOf(t.pool, p, th)), Completed)
    else if t.threads[caller].state != Running then (t, Missing)
    else
      var th := t.threads[caller].(resume := Some(context), state := Blocked, waitingFor := Some(target));
      (Update(t, caller, th, t.queue), JoinBlocked)
  }

  /** A thread blocked in a join on `tid` becomes ready with return value 0; others are as they were. */
  predicate Joins(th: Thread, pid: Pid, tid: Tid)
  {
    th.pid == pid && th.state == Blocked && th.waitingFor == Some(tid)
  }

  function Released(th: Thread): Thread
  {
    th.(waitingFor := None, state := Ready,
        resume := if th.resume.Some? then Some(th.resume.value.(rax := 0)) else None)
  }

  function Joiners(threads: map<Tid, Thread>, tids: seq<Tid>, tid: Tid): (js: seq<Tid>)
  {
    if tids == [] then []
    else
      var front, last := Joiners(threads, tids[..|tids| - 1], tid), tids[|tids| - 1];
      if last != tid && last in threads && threads[last].state == Blocked && threads[last].waitingFor == Some(tid)
      then front + [last] else front
  }

  /** mark_thread_exited: the main thread cannot leave this way. */
  function ExitThread(t: Table, tid: Tid): (r: (Table, Option<Pid>))
    requires PoolBits(t.pool)
  {
    if !Known(t, tid) || tid == t.procs[t.threads[tid].pid].mainTid then (t, None)
    else
      var pid := t.threads[tid].pid;
      var p := t.procs[pid];
      var woken := Joiners(t.threads, p.tids, tid);
      var gone := t.threads[tid].(state := Exited, resume := None, waitingFor := None);
      var gone' := if woken == [] then gone else ReapedThread(p, gone);
      var threads := map x | x in t.threads ::
                       if x == tid then gone' else if x in woken then Released(t.threads[x]) else t.threads[x];
      (t.(threads := threads, procs := t.procs[pid := Refreshed(p, threads)],
          queue := EnqueueAll(Without(t.queue, {tid}), woken),
          pool := if woken == [] then t.pool else FreeStackOf(t.pool, p, t.threads[tid])),
       Some(pid))
  }

  // ----- Signals -----

  function HandlerContext(original: Context, signal: nat, handler: nat): Context
  {
    original.(rip := handler, rdi := signal, rax := 0)
  }

  /** activate_signal_handler: divert the saved context of the main thread. */
  function ActivateMain(t: Table, pid: Pid, signal: nat, handler: nat): (Table, bool)
  {
    if pid !in t.procs || !Known(t, t.procs[pid].mainTid) || t.threads[t.procs[pid].mainTid].pid != pid then (t, false)
    else
      var tid := t.procs[pid].mainTid;
      var th := t.threads[tid];
      if th.sigReturn.Some? || th.resume.None? then (t, false)
      else
        var original := th.resume.value;
        var th' := th.(sigReturn := Some(original), resume := Some(HandlerContext(original, signal, handler)),
                       waitingFor := None, state := Ready);
        var t' := Update(t, tid, th', Enqueue(t.queue, tid));
        (t'.(procs := t'.procs[pid := t'.procs[pid].(waitingFor := None, sleepingUntil := None)]), true)
  }

  /** activate_running_signal_handler: divert the running thread, saving where it was interrupted. */
  function ActivateRunning(t: Table, pid: Pid, tid: Tid, signal: nat, handler: nat, original: Context): (Table, bool)
  {
    if pid !in t.procs || !Known(t, tid) || t.threads[tid].pid != pid then (t, false)
    else
      var th := t.threads[tid];
      if th.state != Running || th.sigReturn.Some? then (t, false)
      else
        var th' := th.(sigReturn := Some(original), resume := Some(HandlerContext(original, signal, handler)),
                       state := Ready);
        (Update(t, tid, th', Enqueue(t.queue, tid)), true)
  }

  /** restore_signal_context (sigreturn). */
  function Restore(t: Table, pid: Pid, tid: Tid): (Table, bool)
  {
    if pid !in t.procs || !Known(t, tid) || t.threads[tid].pid != pid then (t, false)
    else
      var th := t.threads[tid];
      if th.state != Running || th.sigReturn.None? then (t, false)
      else
        var th' := th.(sigReturn := None, resume := th.sigReturn, state := Ready);
        (Update(t, tid, th', Enqueue(t.queue, tid)), true)
  }

  // ----- Creation and process exit -----

  const EMPTY_CONTEXT := Context(0, 0, 0x202, 0, 0, 0, 0, 0, 0, 0, 0, 0, 0, 0, 0, 0, 0, 0)

  function NewThread(pid: Pid, start: nat, top: nat, managed: bool, entry: nat, rsp: nat, arg: nat): Thread
  {
    Thread(pid, User, Ready, Some(EMPTY_CONTEXT.(rip := entry, rsp := rsp, rdi := arg)), None,
           Some(start), Some(top), managed, None)
  }

  /** stack_range_available: no overlap with the stack of any thread of the process. */
  predicate StackRangeAvailable(t: Table, p: Process, start: nat, top: nat)
  {
    && start < top
    && forall k | 0 <= k < |p.tids| && p.tids[k] in t.threads ::
         var th := t.threads[p.tids[k]];
         th.stackStart.Some? && th.stackTop.Some? ==> top <= th.stackStart.value || start >= th.stackTop.value
  }

  function NextTid(tid: Tid): Tid { if tid < TID_MAX then tid + 1 else TID_MAX }

  /** Reserve a TID and insert the thread; a full process refuses it, but the TID is used up. */
  function Insert(t: Table, pid: Pid, th: Thread): (Table, Option<Tid>)
    requires pid in t.procs
  {
    var tid := t.nextTid;
    var p := t.procs[pid];
    var t' := t.(nextTid := NextTid(tid));
    if |p.tids| >= MAX_THREADS_PER_PROCESS || tid in p.tids then (t', None)
    else
      var threads := t.threads[tid := th];
      var p' := p.(tids := p.tids + [tid]);
      (t'.(threads := threads, procs := t.procs[pid := Refreshed(p', threads)], queue := Enqueue(t.queue, tid)),
          Some(tid))
  }

  function CreateThread(t: Table, pid: Pid, entry: nat, start: nat, top: nat, rsp: nat, arg: nat): (Table, Option<Tid>)
  {
    if pid !in t.procs || t.procs[pid].kind != User || !StackRangeAvailable(t, t.procs[pid], start, top) then (t, None)
    else Insert(t, pid, NewThread(pid, start, top, false, entry, rsp, arg))
  }

  /** create_managed_user_thread: the kernel picks a free stack slot of the process's address space. */
  function CreateManaged(t: Table, pid: Pid, entry: nat, arg: nat): (Table, Option<Tid>)
    requires PoolBits(t.pool)
  {
    if pid !in t.procs || t.procs[pid].kind != User || t.procs[pid].p4.None? then (t, None)
    else
      var p4, mainTop := t.procs[pid].p4.value, t.procs[pid].stackTop;
      var (pool, slot) := ReserveStack(t.pool, p4, mainTop);
      if slot.None? then (t.(pool := pool), None)
      else
        var (start, top) := StackRangeForSlot(slot.value);
        var rsp := top / 16 * 16 - 8;
        ReserveKeepsBits(t.pool, p4, mainTop);
        var (t', tid) := Insert(t.(pool := pool), pid, NewThread(pid, start, top, true, entry, rsp, arg));
        if tid.None? then (t'.(pool := ReleaseStack(pool, p4, top)), None) else (t', tid)
  }

  lemma ReserveKeepsBits(pool: Pool, p4: nat, mainTop: nat)
    requires PoolBits(pool)
    ensures PoolBits(ReserveStack(pool, p4, mainTop).0)
  {
  }

  /** A program is started: a fresh process whose only thread runs, in a private space if one is left. */
  function Exec(t: Table, pid: Pid, parent: Option<Pid>): Table
  {
    var tid := t.nextTid;
    var (pool, p4) := Take(t.pool);
    var top := if p4.Some? then StackTopForPid(pid) else FIRST_USER_STACK_TOP;
    var th := Thread(pid, User, Running, None, None, Some(top - USER_STACK_SIZE), Some(top), false, None);
    t.(threads := t.threads[tid := th], nextTid := NextTid(tid), pool := pool,
       procs := t.procs[pid := Process(parent, User, tid, [tid], Running, p4, top, None, None, None)])
  }

  /** mark_exited: every thread of the process ends with it. */
  function ExitProcess(t: Table, pid: Pid, status: nat): Table
  {
    if pid !in t.procs then t
    else
      var p := t.procs[pid];
      var s := if p.parent.Some? then Zombie else Exited;
      t.(queue := Without(t.queue, set x | x in p.tids),
         procs := t.procs[pid := p.(state := s, exitStatus := Some(status), sleepingUntil := None)],
         threads := map x | x in t.threads ::
                      if x in p.tids then t.threads[x].(state := s, resume := None) else t.threads[x])
  }

  /** The address space of a process that has ended goes back to the pool. */
  function ReleaseSpace(t: Table, p4: nat): Table { t.(pool := Release(t.pool, p4)) }
}
