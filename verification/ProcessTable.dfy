/** The process table changed in place; each method does to the fields what its step does to the value. */
module ProcessTable {
  import opened Base
  import opened StackPool
  import opened SchedModel
  import opened SchedInv
  import opened SchedRuns

  lemma {:induction false} JoinersIgnoreSelf(threads: map<Tid, Thread>, tids: seq<Tid>, tid: Tid, th: Thread)
    ensures Joiners(threads[tid := th], tids, tid) == Joiners(threads, tids, tid)
    ensures tid !in Joiners(threads, tids, tid)
  {
    if tids != [] { JoinersIgnoreSelf(threads, tids[..|tids| - 1], tid, th); }
  }

  /** An exit done in the order the code does it. */
  lemma ExitParts(t: Table, tid: Tid, marked: map<Tid, Thread>, woken: seq<Tid>, roused: map<Tid, Thread>,
                  done: map<Tid, Thread>)
    requires PoolBits(t.pool) && Known(t, tid) && tid != t.procs[t.threads[tid].pid].mainTid
    requires marked == t.threads[tid := t.threads[tid].(state := Exited, resume := None, waitingFor := None)]
    requires woken == Joiners(marked, t.procs[t.threads[tid].pid].tids, tid)
    requires roused == map x | x in marked :: if x in woken then Released(marked[x]) else marked[x]
    requires tid in roused
    requires done == if woken == [] then roused
               else roused[tid := ReapedThread(t.procs[t.threads[tid].pid], roused[tid])]
    ensures roused[tid] == marked[tid]
    ensures var p := t.procs[t.threads[tid].pid];
            ExitThread(t, tid) ==
              (Table(t.procs[t.threads[tid].pid := Refreshed(p, done)], done,
                     EnqueueAll(Without(t.queue, {tid}), woken),
                     t.nextTid, if woken == [] then t.pool else FreeStackOf(t.pool, p, marked[tid])),
               Some(t.threads[tid].pid))
  {
    hide Joiners, EnqueueAll, Without, Refreshed, ReleaseStack;
    JoinersIgnoreSelf(t.threads, t.procs[t.threads[tid].pid].tids, tid, marked[tid]);
    assert done == ExitThread(t, tid).0.threads;
  }

  // ----- Waking joiners one by one -----

  /** The threads, those in `woken` released from their join. */
  function Roused(threads: map<Tid, Thread>, woken: seq<Tid>): map<Tid, Thread>
  {
    map x | x in threads :: if x in woken then Released(threads[x]) else threads[x]
  }

  lemma RousedIs(threads: map<Tid, Thread>, woken: seq<Tid>)
    ensures Roused(threads, woken) ==
            map x | x in threads :: if x in woken then Released(threads[x]) else threads[x]
  {
  }

  lemma NobodyRoused(threads: map<Tid, Thread>, tid: Tid)
    ensures Roused(threads, []) == threads && Joiners(threads, [], tid) == []
  {
  }

  lemma RousedAt(threads: map<Tid, Thread>, woken: seq<Tid>, x: Tid)
    ensures x in Roused(threads, woken) <==> x in threads
    ensures x in threads && x !in woken ==> Roused(threads, woken)[x] == threads[x]
  {
  }

  /** Releasing one more thread, field by field. */
  lemma RousedNext(threads: map<Tid, Thread>, woken: seq<Tid>, x: Tid)
    requires x in threads && x !in woken
    ensures Roused(threads, woken + [x]) == Roused(threads, woken)[x := Released(threads[x])]
    ensures var th := threads[x].(waitingFor := None, state := Ready);
            Released(threads[x]) == if th.resume.Some? then th.(resume := Some(th.resume.value.(rax := 0))) else th
  {
  }

  lemma JoinersNext(threads: map<Tid, Thread>, tids: seq<Tid>, x: Tid, tid: Tid)
    ensures Joiners(threads, tids + [x], tid) ==
            if x != tid && x in threads && threads[x].state == Blocked && threads[x].waitingFor == Some(tid)
            then Joiners(threads, tids, tid) + [x] else Joiners(threads, tids, tid)
  {
    assert (tids + [x])[..|tids|] == tids;
  }

  class Processes {
    var procs: map<Pid, Process>
    var threads: map<Tid, Thread>
    var queue: seq<Tid>
    var nextTid: Tid
    const pool: PrivateP4Pool

    ghost function View(): Table
      reads this, pool
    {
      Table(procs, threads, queue, nextTid, pool.slots)
    }

    /** Thread lists hold no TID twice, and the pool is in order. */
    ghost predicate Valid()
      reads this, pool
    {
      PoolShape(pool.slots) && forall pid | pid in procs :: Distinct(procs[pid].tids)
    }

    /** init_process_table */
    constructor (pool: PrivateP4Pool)
      requires PoolShape(pool.slots)
      ensures this.pool == pool && Valid() && View() == Boot(pool.slots) && Inv(View())
    {
      procs := map[0 := Process(None, Kernel, 1, [1], Ready, None, 0, None, None, None)];
      threads := map[1 := Thread(0, Kernel, Ready, None, None, Some(0), Some(0), false, None)];
      queue := [1];
      nextTid := 2;
      this.pool := pool;
      new;
      BootInv(pool.slots);
    }

    // ----- Queue and summary -----

    method EnqueueReady(tid: Tid)
      modifies this`queue
      ensures queue == Enqueue(old(queue), tid)
    {
      if tid !in queue { queue := queue + [tid]; }
    }

    /** `ready_queue.retain`: keep what is not in `gone`, in order. */
    method Retain(gone: set<Tid>)
      modifies this`queue
      ensures queue == Without(old(queue), gone)
    {
      var kept: seq<Tid> := [];
      for k := 0 to |queue|
        invariant queue == old(queue)
        invariant kept == Without(queue[..k], gone)
      {
        TakeSnoc(queue, k);
        if queue[k] !in gone { kept := kept + [queue[k]]; }
      }
      TakeAll(queue);
      queue := kept;
    }

    method AnyThread(tids: seq<Tid>, s: State) returns (any: bool)
      ensures any == Has(threads, tids, s)
    {
      for k := 0 to |tids|
        invariant forall j | 0 <= j < k :: !(tids[j] in threads && threads[tids[j]].state == s)
      {
        if tids[k] in threads && threads[tids[k]].state == s { return true; }
      }
      return false;
    }

    /** refresh_state_from_threads */
    method RefreshState(pid: Pid)
      requires pid in procs
      modifies this`procs
      ensures procs == old(procs)[pid := Refreshed(old(procs)[pid], threads)]
    {
      var p := procs[pid];
      if p.state == Exited || p.state == Zombie || p.state == Reaped { return; }
      var running := AnyThread(p.tids, Running);
      var ready := AnyThread(p.tids, Ready);
      var blocked := AnyThread(p.tids, Blocked);
      var stopped := AnyThread(p.tids, Stopped);
      var s := if running then Running else if ready then Ready else if blocked then Blocked
          else if stopped then Stopped
               else Created;
      procs := procs[pid := p.(state := s)];
    }

    // ----- Yield, block, wake -----

    method MarkThreadYielded(tid: Tid, context: Context) returns (ok: bool)
      requires Valid()
      modifies this`procs, this`threads, this`queue
      ensures Valid() && (View(), ok) == Yield(old(View()), tid, context)
    {
      if tid !in threads || threads[tid].pid !in procs || threads[tid].state != Running { return false; }
      var pid := threads[tid].pid;
      threads := threads[tid := threads[tid].(resume := Some(context), state := Ready)];
      procs := procs[pid := procs[pid].(sleepingUntil := None)];
      RefreshState(pid);
      EnqueueReady(tid);
      assert procs == Yield(old(View()), tid, context).0.procs;
      return true;
    }

    method BlockThread(tid: Tid, context: Context) returns (ok: bool)
      requires Valid()
      modifies this`procs, this`threads
      ensures Valid() && (View(), ok) == Block(old(View()), tid, context)
    {
      if tid !in threads || threads[tid].pid !in procs || threads[tid].state != Running { return false; }
      var pid := threads[tid].pid;
      threads := threads[tid := threads[tid].(state := Blocked, waitingFor := None, resume := Some(context))];
      RefreshState(pid);
      return true;
    }

    method WakeThread(tid: Tid, value: nat) returns (ok: bool)
      requires Valid()
      modifies this`procs, this`threads, this`queue
      ensures Valid() && (View(), ok) == Wake(old(View()), tid, value)
    {
      if tid !in threads || threads[tid].pid !in procs || threads[tid].state != Blocked { return false; }
      var th := threads[tid];
      if th.resume.None? { return false; }
      var resume := Some(th.resume.value.(rax := value));
      threads := threads[tid := th.(resume := resume, waitingFor := None, state := Ready)];
      RefreshState(th.pid);
      EnqueueReady(tid);
      return true;
    }

    // ----- Dispatch -----

    /** schedule_next_ready_user: entries that cannot run are popped and dropped. */
    method ScheduleNextReadyUser() returns (d: Option<Dispatch>)
      requires Valid()
      modifies this`procs, this`threads, this`queue
      ensures Valid() && (View(), d) == Schedule(old(View()))
    {
      while queue != []
        invariant procs == old(procs) && threads == old(threads) && nextTid == old(nextTid)
        invariant Schedule(View()) == Schedule(old(View()))
        decreases |queue|
      {
        var tid := queue[0];
        queue := queue[1..];
        if tid !in threads || threads[tid].pid !in procs { continue; }
        if threads[tid].state != Ready { continue; }
        var th := threads[tid];
        if th.resume.None? { continue; }
        threads := threads[tid := th.(resume := None, state := Running)];
        RefreshState(th.pid);
        return Some(Dispatch(th.pid, tid, th.resume.value));
      }
      return None;
    }

    method HasReadyThreadExcept(tid: Tid) returns (has: bool)
      ensures has == HasReadyExcept(View(), tid)
    {
      for k := 0 to |queue|
        invariant forall j | 0 <= j < k ::
                    !(queue[j] != tid && Known(View(), queue[j]) && threads[queue[j]].state == Ready)
      {
        var queued := queue[k];
        if queued != tid && queued in threads && threads[queued].pid in procs && threads[queued].state == Ready {
          return true;
        }
      }
      return false;
    }

    method PreemptRunningThread(tid: Tid, context: Context) returns (d: Option<Dispatch>)
      requires Valid()
      modifies this`procs, this`threads, this`queue
      ensures Valid() && (View(), d) == Preempt(old(View()), tid, context)
    {
      var others := HasReadyThreadExcept(tid);
      if !others { return None; }
      var yielded := MarkThreadYielded(tid, context);
      if !yielded { return None; }
      d := ScheduleNextReadyUser();
    }

    // ----- Join and exit -----

    /** take_managed_stack_release, and the stack goes back to the pool. */
    method ReapThread(tid: Tid)
      requires Valid() && Known(View(), tid)
      modifies this`threads, pool
      ensures Valid()
      ensures var p, th := procs[old(threads)[tid].pid], old(threads)[tid];
              && threads == old(threads)[tid := ReapedThread(p, th)]
              && PoolBits(old(pool.slots)) && pool.slots == FreeStackOf(old(pool.slots), p, th)
    {
      var th := threads[tid].(state := Reaped);
      threads := threads[tid := th];
      var p4 := procs[th.pid].p4;
      if p4.None? || !th.managed || th.stackTop.None? { return; }
      threads := threads[tid := th.(stackTop := None, stackStart := None, managed := false)];
      var _ := pool.ReleaseStackSlot(p4.value, th.stackTop.value);
    }

    method JoinThread(caller: Tid, target: Tid, context: Context) returns (status: JoinStatus)
      requires Valid()
      modifies this`procs, this`threads, pool
      ensures Valid() && PoolBits(old(pool.slots)) && (View(), status) == Join(old(View()), caller, target, context)
    {
      if caller == target { return SelfJoin; }
      if caller !in threads || threads[caller].pid !in procs { return Missing; }
      if target !in threads || threads[target].pid !in procs { return Missing; }
      if threads[target].pid != threads[caller].pid { return NotSibling; }
      if threads[target].state == Reaped { return AlreadyReaped; }
      if threads[target].waitingFor == Some(caller) { return Deadlock; }
      if threads[target].state == Exited {
        ReapThread(target);
        return Completed;
      }
      if threads[caller].state != Running { return Missing; }
      var pid := threads[caller].pid;
      var blocked := threads[caller].(state := Blocked, waitingFor := Some(target), resume := Some(context));
      threads := threads[caller := blocked];
      RefreshState(pid);
      return JoinBlocked;
    }

    /** The threads waiting for `tid` become ready, in the order of the process's thread list. */
    method WakeJoiners(tids: seq<Tid>, tid: Tid) returns (woken: seq<Tid>)
      requires Distinct(tids) && tid in threads && threads[tid].state == Exited
      modifies this`threads
      ensures woken == Joiners(old(threads), tids, tid)
      ensures threads == map x | x in old(threads) :: if x in woken then Released(old(threads)[x]) else old(threads)[x]
    {
      hide Roused, Joiners, Released;
      woken := [];
      NobodyRoused(threads, tid);
      for k := 0 to |tids|
        invariant woken == Joiners(old(threads), tids[..k], tid)
        invariant forall x | x in woken :: x in tids[..k]
        invariant threads == Roused(old(threads), woken)
      {
        var x := tids[k];
        TakeSnoc(tids, k);
        assert x !in tids[..k];
        JoinersNext(old(threads), tids[..k], x, tid);
        RousedAt(old(threads), woken, x);
        if x in threads && threads[x].state == Blocked && threads[x].waitingFor == Some(tid) {
          RousedNext(old(threads), woken, x);
          var th := threads[x];
          threads := threads[x := th.(waitingFor := None, state := Ready)];
          if th.resume.Some? { threads := threads[x := threads[x].(resume := Some(th.resume.value.(rax := 0)))]; }
          woken := woken + [x];
        }
      }
      TakeAll(tids);
      RousedIs(old(threads), woken);
    }

    method EnqueueEach(tids: seq<Tid>)
      modifies this`queue
      ensures queue == EnqueueAll(old(queue), tids)
    {
      for k := 0 to |tids|
        invariant queue == EnqueueAll(old(queue), tids[..k])
      {
        TakeSnoc(tids, k);
        EnqueueReady(tids[k]);
      }
      TakeAll(tids);
    }

    method MarkThreadExited(tid: Tid) returns (r: Option<Pid>)
      requires Valid()
      modifies this`procs, this`threads, this`queue, pool
      ensures Valid() && PoolBits(old(pool.slots)) && (View(), r) == ExitThread(old(View()), tid)
    {
      if tid !in threads || threads[tid].pid !in procs { return None; }
      var pid := threads[tid].pid;
      if tid == procs[pid].mainTid { return None; }
      threads := threads[tid := threads[tid].(state := Exited, resume := None, waitingFor := None)];
      ghost var marked := threads;
      var woken := WakeJoiners(procs[pid].tids, tid);
      ghost var roused := threads;
      JoinersIgnoreSelf(marked, procs[pid].tids, tid, marked[tid]);
      if woken != [] { ReapThread(tid); }
      ExitParts(old(View()), tid, marked, woken, roused, threads);
      hide ExitThread, Joiners, EnqueueAll, Without, Refreshed, FreeStackOf, ReapedThread, Released;
      RefreshState(pid);
      Retain({tid});
      EnqueueEach(woken);
      return Some(pid);
    }

    /** mark_exited: every thread of the process ends with it. */
    method MarkExited(pid: Pid, status: nat)
      requires Valid()
      modifies this`procs, this`threads, this`queue
      ensures Valid() && View() == ExitProcess(old(View()), pid, status)
    {
      if pid !in procs { return; }
      var p := procs[pid];
      Retain(set x | x in p.tids);
      var s := if p.parent.Some? then Zombie else Exited;
      procs := procs[pid := p.(exitStatus := Some(status), sleepingUntil := None, state := s)];
      EndThreads(p.tids, s);
    }

    /** The loop of set_state over the threads of a process that ends. */
    method EndThreads(tids: seq<Tid>, s: State)
      modifies this`threads
      ensures threads == map x | x in old(threads) ::
                           if x in tids then old(threads)[x].(state := s, resume := None) else old(threads)[x]
    {
      for k := 0 to |tids|
        invariant threads == map x | x in old(threads) ::
                    if x in tids[..k] then old(threads)[x].(state := s, resume := None) else old(threads)[x]
      {
        TakeSnoc(tids, k);
        if tids[k] in threads { threads := threads[tids[k] := threads[tids[k]].(state := s, resume := None)]; }
      }
      TakeAll(tids);
    }

    // ----- Signals -----

    method ActivateSignalHandler(pid: Pid, signal: nat, handler: nat) returns (ok: bool)
      requires Valid()
      modifies this`procs, this`threads, this`queue
      ensures Valid() && (View(), ok) == ActivateMain(old(View()), pid, signal, handler)
    {
      if pid !in procs { return false; }
      var tid := procs[pid].mainTid;
      if tid !in threads || threads[tid].pid != pid { return false; }
      var th := threads[tid];
      if th.sigReturn.Some? || th.resume.None? { return false; }
      var original := th.resume.value;
      threads := threads[tid := th.(sigReturn := Some(original), waitingFor := None, state := Ready,
                                    resume := Some(original.(rip := handler, rdi := signal, rax := 0)))];
      procs := procs[pid := procs[pid].(waitingFor := None, sleepingUntil := None)];
      RefreshState(pid);
      EnqueueReady(tid);
      assert procs == ActivateMain(old(View()), pid, signal, handler).0.procs;
      return true;
    }

    method ActivateRunningSignalHandler(pid: Pid, tid: Tid, signal: nat, handler: nat,
                                        original: Context) returns (ok: bool)
      requires Valid()
      modifies this`procs, this`threads, this`queue
      ensures Valid() && (View(), ok) == ActivateRunning(old(View()), pid, tid, signal, handler, original)
    {
      if pid !in procs || tid !in threads || threads[tid].pid != pid { return false; }
      var th := threads[tid];
      if th.state != Running || th.sigReturn.Some? { return false; }
      threads := threads[tid := th.(sigReturn := Some(original), state := Ready,
                                    resume := Some(original.(rip := handler, rdi := signal, rax := 0)))];
      RefreshState(pid);
      EnqueueReady(tid);
      return true;
    }

    method RestoreSignalContext(pid: Pid, tid: Tid) returns (ok: bool)
      requires Valid()
      modifies this`procs, this`threads, this`queue
      ensures Valid() && (View(), ok) == Restore(old(View()), pid, tid)
    {
      if pid !in procs || tid !in threads || threads[tid].pid != pid { return false; }
      var th := threads[tid];
      if th.state != Running || th.sigReturn.None? { return false; }
      threads := threads[tid := th.(resume := th.sigReturn, sigReturn := None, state := Ready)];
      RefreshState(pid);
      EnqueueReady(tid);
      return true;
    }

    // ----- Creation -----

    /** reserve_tid, then the insertion into the process's thread list. */
    method InsertThread(pid: Pid, th: Thread) returns (r: Option<Tid>)
      requires Valid() && pid in procs
      modifies this`procs, this`threads, this`queue, this`nextTid
      ensures Valid() && (View(), r) == Insert(old(View()), pid, th)
    {
      var tid := nextTid;
      nextTid := if tid < TID_MAX then tid + 1 else TID_MAX;
      var p := procs[pid];
      if |p.tids| >= MAX_THREADS_PER_PROCESS || tid in p.tids { return None; }
      threads := threads[tid := th];
      procs := procs[pid := p.(tids := p.tids + [tid])];
      RefreshState(pid);
      EnqueueReady(tid);
      assert procs == Insert(old(View()), pid, th).0.procs;
      return Some(tid);
    }

    method StackFree(pid: Pid, start: nat, top: nat) returns (free: bool)
      requires pid in procs
      ensures free == StackRangeAvailable(View(), procs[pid], start, top)
    {
      if start >= top { return false; }
      var tids := procs[pid].tids;
      for k := 0 to |tids|
        invariant forall j | 0 <= j < k && tids[j] in threads ::
                    var th := threads[tids[j]];
                    th.stackStart.Some? && th.stackTop.Some? ==>
                        top <= th.stackStart.value || start >= th.stackTop.value
      {
        if tids[k] in threads {
          var th := threads[tids[k]];
          if th.stackStart.Some? && th.stackTop.Some? && top > th.stackStart.value && start < th.stackTop.value {
            return false;
          }
        }
      }
      return true;
    }

    method CreateUserThread(pid: Pid, entry: nat, start: nat, top: nat, rsp: nat, arg: nat) returns (r: Option<Tid>)
      requires Valid()
      modifies this`procs, this`threads, this`queue, this`nextTid
      ensures Valid() && (View(), r) == CreateThread(old(View()), pid, entry, start, top, rsp, arg)
    {
      if pid !in procs || procs[pid].kind != User { return None; }
      var free := StackFree(pid, start, top);
      if !free { return None; }
      r := InsertThread(pid, NewThread(pid, start, top, false, entry, rsp, arg));
    }

    method CreateManagedUserThread(pid: Pid, entry: nat, arg: nat) returns (r: Option<Tid>)
      requires Valid()
      modifies this`procs, this`threads, this`queue, this`nextTid, pool
      ensures Valid() && PoolBits(old(pool.slots)) && (View(), r) == CreateManaged(old(View()), pid, entry, arg)
    {
      if pid !in procs || procs[pid].kind != User || procs[pid].p4.None? { return None; }
      var p4, mainTop := procs[pid].p4.value, procs[pid].stackTop;
      var range := pool.ReserveStackSlot(p4, mainTop);
      if range.None? { return None; }
      var (start, top) := range.value;
      r := InsertThread(pid, NewThread(pid, start, top, true, entry, top / 16 * 16 - 8, arg));
      if r.None? { var _ := pool.ReleaseStackSlot(p4, top); }
    }

    /** register_exec: a process with one running thread, in a private space if one is left. */
    method RegisterExec(pid: Pid, parent: Option<Pid>)
      requires Valid()
      modifies this`procs, this`threads, this`nextTid, pool
      ensures Valid() && View() == Exec(old(View()), pid, parent)
    {
      var p4 := pool.TakeFrame();
      var top := StackTopForPid(pid);
      if p4.None? { top := FIRST_USER_STACK_TOP; }
      var tid := nextTid;
      nextTid := if tid < TID_MAX then tid + 1 else TID_MAX;
      var start := top - USER_STACK_SIZE;
      threads := threads[tid := Thread(pid, User, Running, None, None, Some(start), Some(top), false, None)];
      procs := procs[pid := Process(parent, User, tid, [tid], Running, p4, top, None, None, None)];
    }

    method ReleasePreparedSpace(p4: nat) returns (released: bool)
      requires Valid()
      modifies pool
      ensures Valid() && View() == ReleaseSpace(old(View()), p4)
    {
      released := pool.ReleaseFrame(p4);
    }
  }
}
