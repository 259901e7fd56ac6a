/** When each thread-level call succeeds, and what it answers otherwise. */
module SchedAnswers {
  import opened Base
  import opened StackPool
  import opened SchedModel
  import opened SchedInv
  import opened SchedSteps
  import opened SchedRuns
  import opened SchedFair

  // ----- Summaries -----

  function Rank(s: State): nat
  {
    match s
    case Running => 4
    case Ready => 3
    case Blocked => 2
    case Stopped => 1
    case _ => 0
  }

  /** A process shows the liveliest state among its threads: no thread is livelier, and some thread has it. */
  lemma SummaryLiveliest(threads: map<Tid, Thread>, tids: seq<Tid>, k: nat)
    requires forall j | 0 <= j < |tids| :: tids[j] in threads
    ensures k < |tids| ==> Rank(threads[tids[k]].state) <= Rank(Summary(threads, tids))
    ensures Summary(threads, tids) == Created ||
            exists j :: 0 <= j < |tids| && threads[tids[j]].state == Summary(threads, tids)
  {
  }

  // ----- Calls on one thread -----

  /** A yield or a block takes effect exactly for a running thread. */
  lemma GiveUpIff(t: Table, tid: Tid, context: Context)
    requires Inv(t)
    ensures Yield(t, tid, context).1 <==> tid in t.threads && t.threads[tid].state == Running
    ensures Block(t, tid, context).1 <==> tid in t.threads && t.threads[tid].state == Running
    ensures !Yield(t, tid, context).1 ==> Yield(t, tid, context).0 == t
    ensures !Block(t, tid, context).1 ==> Block(t, tid, context).0 == t
  {
    if tid in t.threads { assert ThreadOk(t, tid); }
    hide Inv, Summary;
  }

  /** A wake takes effect exactly for a blocked thread. */
  lemma WakeIff(t: Table, tid: Tid, value: nat)
    requires Inv(t) && UserTid(t, tid)
    ensures Wake(t, tid, value).1 <==> tid in t.threads && t.threads[tid].state == Blocked
    ensures !Wake(t, tid, value).1 ==> Wake(t, tid, value).0 == t
  {
    if tid in t.threads { assert ThreadOk(t, tid); }
    hide Inv, Summary;
  }

  /** A thread can leave on its own exactly when it is not the main thread of its process. */
  lemma ExitIff(t: Table, tid: Tid)
    requires Inv(t) && PoolBits(t.pool)
    ensures var (t', pid) := ExitThread(t, tid);
            && (pid.Some? <==> Known(t, tid) && tid != t.procs[t.threads[tid].pid].mainTid)
            && (pid.Some? ==> pid.value == t.threads[tid].pid && tid in t'.threads && Terminal(t'.threads[tid].state))
            && (pid.None? ==> t' == t)
  {
    if tid in t.threads { assert ThreadOk(t, tid); }
    hide Inv, Summary, Joiners, EnqueueAll, Without, ReleaseStack;
  }

  /** A handler is started on a waiting or ready main thread exactly when none is active on it. */
  lemma ActivateMainIff(t: Table, pid: Pid, signal: nat, handler: nat)
    requires Inv(t) && (pid in t.procs ==> t.procs[pid].kind == User)
    ensures ActivateMain(t, pid, signal, handler).1 <==>
              && pid in t.procs && t.procs[pid].mainTid in t.threads
              && var main := t.threads[t.procs[pid].mainTid];
                 (main.state == Ready || main.state == Blocked) && main.sigReturn.None?
    ensures !ActivateMain(t, pid, signal, handler).1 ==> ActivateMain(t, pid, signal, handler).0 == t
  {
    if pid in t.procs {
      assert ProcOk(t, pid);
      assert ThreadOk(t, t.procs[pid].mainTid);
    }
    hide Inv, Summary;
  }

  /** A process whose main thread gives way or is diverted no longer sleeps, nor waits for a child if diverted. */
  lemma NoLongerSleeps(t: Table, pid: Pid, context: Context, signal: nat, handler: nat)
    requires pid in t.procs
    ensures Known(t, t.procs[pid].mainTid) && t.threads[t.procs[pid].mainTid].pid == pid &&
              Yield(t, t.procs[pid].mainTid, context).1 ==>
              Yield(t, t.procs[pid].mainTid, context).0.procs[pid].sleepingUntil.None?
    ensures ActivateMain(t, pid, signal, handler).1 ==>
              var t', main := ActivateMain(t, pid, signal, handler).0, t.procs[pid].mainTid;
              && t'.procs[pid].sleepingUntil.None? && t'.procs[pid].waitingFor.None?
              && t'.threads[main].waitingFor.None? && main in t'.queue
  {
    hide Summary;
  }

  /** One is started on a running thread exactly when none is active on it, and one is left exactly when one is. */
  lemma ActivateRunningIff(t: Table, pid: Pid, tid: Tid, signal: nat, handler: nat, context: Context)
    requires Inv(t)
    ensures ActivateRunning(t, pid, tid, signal, handler, context).1 <==>
              && tid in t.threads && t.threads[tid].pid == pid && t.threads[tid].state == Running
              && t.threads[tid].sigReturn.None?
    ensures Restore(t, pid, tid).1 <==>
              && tid in t.threads && t.threads[tid].pid == pid && t.threads[tid].state == Running
              && t.threads[tid].sigReturn.Some?
    ensures !ActivateRunning(t, pid, tid, signal, handler, context).1 ==>
              ActivateRunning(t, pid, tid, signal, handler, context).0 == t
    ensures !Restore(t, pid, tid).1 ==> Restore(t, pid, tid).0 == t
  {
    if tid in t.threads { assert ThreadOk(t, tid); }
    hide Inv, Summary;
  }

  // ----- Dispatch -----

  /** Scheduling finds a thread exactly when a user thread is queued, and it is the first of those. */
  lemma {:induction false} DispatchIff(t: Table)
    requires Inv(t)
    ensures Schedule(t).1.Some? <==> exists k | 0 <= k < |t.queue| :: t.threads[t.queue[k]].kind == User
    ensures forall k | 0 <= k < |t.queue| && t.threads[t.queue[k]].kind == User &&
                (forall j | 0 <= j < k :: t.threads[t.queue[j]].kind == Kernel) ::
              Schedule(t).1.Some? && Schedule(t).1.value.tid == t.queue[k]
    decreases |t.queue|
  {
    if t.queue != [] {
      var first, rest := t.queue[0], t.queue[1..];
      assert ThreadOk(t, first);
      if t.threads[first].kind == Kernel {
        assert !Dispatchable(t, first);
        DropKernelEntry(t);
        DispatchIff(t.(queue := rest));
        QueueShift(t.queue);
      }
    }
  }

  lemma QueueShift(queue: seq<Tid>)
    requires queue != []
    ensures forall k | 0 < k < |queue| :: queue[k] == queue[1..][k - 1]
    ensures forall k | 0 <= k < |queue| - 1 :: queue[1..][k] == queue[k + 1]
  {
  }

  // ----- Join -----

  /** What a running thread is told about a thread it joins. */
  lemma JoinAnswers(t: Table, caller: Tid, target: Tid, context: Context)
    requires Inv(t) && PoolBits(t.pool) && caller in t.threads && t.threads[caller].kind == User
    requires t.threads[caller].state == Running && UserTid(t, target)
    ensures var (t', status) := Join(t, caller, target, context);
            && (status == SelfJoin <==> target == caller)
            && (status == Missing <==> target !in t.threads)
            && (status == NotSibling <==> target in t.threads && t.threads[target].pid != t.threads[caller].pid)
            && (Sibling(t, caller, target) ==>
                  && (status == AlreadyReaped <==> t.threads[target].state == Reaped)
                  && (status == Completed <==> t.threads[target].state == Exited)
                  && (status == Deadlock <==> t.threads[target].waitingFor == Some(caller))
                  && (status == JoinBlocked <==>
                        !Terminal(t.threads[target].state) && t.threads[target].waitingFor != Some(caller)))
            && (status != Completed && status != JoinBlocked ==> t' == t)
            && (status == Completed ==> target in t'.threads && t'.threads[target].state == Reaped)
  {
    assert ThreadOk(t, caller);
    if target in t.threads { assert ThreadOk(t, target); }
    hide Inv, Summary, ReleaseStack;
  }

  predicate Sibling(t: Table, caller: Tid, target: Tid)
  {
    target != caller && target in t.threads && caller in t.threads && t.threads[target].pid == t.threads[caller].pid
  }

  // ----- Creation -----

  /** A stack range that touches no stack of the process. */
  ghost predicate RangeFree(t: Table, pid: Pid, start: nat, top: nat)
  {
    forall x | x in t.threads && t.threads[x].pid == pid && t.threads[x].stackStart.Some? &&
        t.threads[x].stackTop.Some? ::
      top <= t.threads[x].stackStart.value || t.threads[x].stackTop.value <= start
  }

  lemma RangeFreeIff(t: Table, pid: Pid, start: nat, top: nat)
    requires Inv(t) && pid in t.procs
    ensures StackRangeAvailable(t, t.procs[pid], start, top) <==> start < top && RangeFree(t, pid, start, top)
  {
    assert ProcOk(t, pid);
    var tids := t.procs[pid].tids;
    if StackRangeAvailable(t, t.procs[pid], start, top) {
      forall x | x in t.threads && t.threads[x].pid == pid && t.threads[x].stackStart.Some? &&
          t.threads[x].stackTop.Some?
        ensures top <= t.threads[x].stackStart.value || t.threads[x].stackTop.value <= start
      {
        assert ThreadOk(t, x);
        var k :| 0 <= k < |tids| && tids[k] == x;
      }
    }
  }

  /**
    A thread is created exactly for a user process with fewer than sixteen threads and on a range that touches
    none of their stacks; when it is not, nobody's threads or places in the queue change.
   */
  lemma CreateIff(t: Table, pid: Pid, entry: nat, start: nat, top: nat, rsp: nat, arg: nat)
    requires Inv(t)
    ensures var (t', tid) := CreateThread(t, pid, entry, start, top, rsp, arg);
            && (tid.Some? <==>
                  && pid in t.procs && t.procs[pid].kind == User && start < top && RangeFree(t, pid, start, top)
                  && |t.procs[pid].tids| < MAX_THREADS_PER_PROCESS)
            && (tid.None? ==> t'.threads == t.threads && t'.procs == t.procs && t'.queue == t.queue)
  {
    NextTidUnused(t);
    if pid in t.procs {
      RangeFreeIff(t, pid, start, top);
      assert ProcOk(t, pid);
    }
    hide Inv, Summary, StackRangeAvailable, RangeFree;
  }

  /** The place of a live address space in the pool, and of the process's main stack in it. */
  ghost predicate HasSpace(t: Table, pid: Pid, k: nat, main: nat)
  {
    && pid in t.procs && t.procs[pid].kind == User && t.procs[pid].p4.Some?
    && k < |t.pool| && t.pool[k].inUse && t.pool[k].p4Frame == t.procs[pid].p4.value
    && main < STACK_SLOTS && t.procs[pid].stackTop == StackTop(main)
  }

  /**
    A thread with a stack of the kernel's choosing is created exactly when a slot other than the main one is
    free and the process has fewer than sixteen threads.
   */
  lemma ManagedIff(t: Table, pid: Pid, entry: nat, arg: nat, k: nat, main: nat)
    requires Inv(t) && PoolShape(t.pool) && HasSpace(t, pid, k, main)
    ensures CreateManaged(t, pid, entry, arg).1.Some? <==>
              && |t.procs[pid].tids| < MAX_THREADS_PER_PROCESS
              && exists j :: 0 <= j < STACK_SLOTS && j != main && !t.pool[k].stackInUse[j]
  {
    ReserveIff(t.pool, t.procs[pid].p4.value, k, main);
    NextTidUnused(t);
    assert ProcOk(t, pid);
    hide Inv, Summary, ReserveStack, ReleaseStack;
  }

  /** Without a private space, or for a kernel process, there is none. */
  lemma ManagedRefused(t: Table, pid: Pid, entry: nat, arg: nat)
    requires PoolBits(t.pool)
    requires pid !in t.procs || t.procs[pid].kind != User || t.procs[pid].p4.None?
    ensures CreateManaged(t, pid, entry, arg) == (t, None)
  {
  }

  /** A slot is reserved exactly when one other than the main slot is free: the first, main slot left out. */
  lemma ReserveIff(pool: Pool, p4: nat, k: nat, main: nat)
    requires PoolShape(pool) && k < |pool| && pool[k].inUse && pool[k].p4Frame == p4 && main < STACK_SLOTS
    ensures var (pool', slot) := ReserveStack(pool, p4, StackTop(main));
            && (slot.Some? <==> exists j :: 0 <= j < STACK_SLOTS && j != main && !pool[k].stackInUse[j])
            && (slot.Some? ==> slot.value != main && !pool[k].stackInUse[slot.value])
            && (slot.Some? ==> forall j | 0 <= j < slot.value && j != main :: pool[k].stackInUse[j])
  {
    hide FindSlot;
    SlotIndexIff(StackTop(main), main);
    assert FindLive(pool, p4) == Some(k);
    hide FindLive, FirstFree, StackSlotIndex, StackTop;
    var bits := pool[k].stackInUse[main := true];
    var j := FirstFree(bits);
    assert forall i | 0 <= i < STACK_SLOTS && i != main :: bits[i] == pool[k].stackInUse[i];
    if i :| 0 <= i < STACK_SLOTS && i != main && !pool[k].stackInUse[i] { assert !bits[i]; }
  }

  // ----- Programs -----

  /** A program starts as a new process with one running thread; it gets a private space exactly while one is left. */
  lemma ExecStarts(t: Table, pid: Pid, parent: Option<Pid>)
    requires Inv(t) && pid !in t.procs
    ensures var t' := Exec(t, pid, parent);
            && t.nextTid !in t.threads && t'.threads.Keys == t.threads.Keys + {t.nextTid} && t'.queue == t.queue
            && (forall x | x in t.threads :: t'.threads[x] == t.threads[x])
            && t'.procs.Keys == t.procs.Keys + {pid} && (forall q | q in t.procs :: t'.procs[q] == t.procs[q])
            && (var th := t'.threads[t.nextTid];
                th.pid == pid && th.state == Running && th.kind == User && th.sigReturn.None? && !th.managed)
            && (var p := t'.procs[pid];
                p.parent == parent && p.mainTid == t.nextTid && p.tids == [t.nextTid] && p.state == Running)
            && (t'.procs[pid].p4.Some? <==> exists k | 0 <= k < |t.pool| :: !t.pool[k].inUse)
  {
    NextTidUnused(t);
    TakeIff(t.pool);
    hide Inv, Take;
  }

  /**
    A process that ends keeps its status for a parent, as a zombie, or has none to keep it for. All its threads
    end with it and leave the queue; nobody else is touched.
   */
  lemma ProcessEnds(t: Table, pid: Pid, status: nat, x: Tid)
    requires Inv(t) && pid in t.procs
    ensures var t' := ExitProcess(t, pid, status);
            && t'.procs.Keys == t.procs.Keys && t'.threads.Keys == t.threads.Keys
            && t'.procs[pid].exitStatus == Some(status) && t'.procs[pid].sleepingUntil.None?
            && (t'.procs[pid].state == Zombie <==> t.procs[pid].parent.Some?)
            && (t'.procs[pid].state == Exited <==> t.procs[pid].parent.None?)
            && (forall q | q in t.procs && q != pid :: t'.procs[q] == t.procs[q])
            && (x in t.threads && t.threads[x].pid == pid ==>
                  t'.threads[x].state == t'.procs[pid].state && t'.threads[x].resume.None? && x !in t'.queue)
            && (x in t.threads && t.threads[x].pid != pid ==>
                  t'.threads[x] == t.threads[x] && (x in t'.queue <==> x in t.queue))
  {
    assert ProcOk(t, pid);
    if x in t.threads { assert ThreadOk(t, x); }
    var gone := set y | y in t.procs[pid].tids;
    WithoutFacts(t.queue, gone);
    hide Inv, Summary, Without;
  }
}
