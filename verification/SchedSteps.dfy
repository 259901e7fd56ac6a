/** Every thread-level step keeps the invariant. */
module SchedSteps {
  import opened Base
  import opened StackPool
  import opened SchedModel
  import opened SchedInv

  /** Steps are made on behalf of user threads. */
  predicate UserTid(t: Table, tid: Tid) { tid in t.threads ==> t.threads[tid].kind == User }

  /** A running, ready or blocked user thread belongs to a process that has not ended. */
  lemma ActiveIsLive(t: Table, tid: Tid)
    requires Inv(t) && tid in t.threads && t.threads[tid].kind == User
    requires t.threads[tid].state == Running || t.threads[tid].state == Ready || t.threads[tid].state == Blocked
    ensures Live(t, t.threads[tid].pid) && Known(t, tid) && WaitOk(t, tid)
  {
    assert ThreadOk(t, tid);
    assert UserThreadOk(t, tid);
  }

  lemma NextTidUnused(t: Table)
    requires Inv(t)
    ensures t.nextTid !in t.threads
  {
    assert t.nextTid in t.threads ==> ThreadOk(t, t.nextTid);
  }

  lemma YieldKeeps(t: Table, tid: Tid, context: Context)
    requires Inv(t) && UserTid(t, tid)
    ensures Inv(Yield(t, tid, context).0)
  {
    if Known(t, tid) && t.threads[tid].state == Running {
      ActiveIsLive(t, tid);
      EnqueueFacts(t.queue, tid);
      var th := t.threads[tid].(resume := Some(context), state := Ready);
      UpdateKeeps(t, tid, th, Enqueue(t.queue, tid));
      var t' := Update(t, tid, th, Enqueue(t.queue, tid));
      ProcFieldsFree(t', th.pid, t'.procs[th.pid].(sleepingUntil := None));
    }
  }

  lemma BlockKeeps(t: Table, tid: Tid, context: Context)
    requires Inv(t) && UserTid(t, tid)
    ensures Inv(Block(t, tid, context).0)
  {
    if Known(t, tid) && t.threads[tid].state == Running {
      ActiveIsLive(t, tid);
      RunningNotQueued(t, tid);
      UpdateKeeps(t, tid, t.threads[tid].(resume := Some(context), state := Blocked, waitingFor := None), t.queue);
    }
  }

  lemma RunningNotQueued(t: Table, tid: Tid)
    requires Inv(t) && tid in t.threads && t.threads[tid].kind == User
    ensures tid in t.queue <==> t.threads[tid].state == Ready
    ensures t.threads[tid].resume.Some? <==> t.threads[tid].state == Ready || t.threads[tid].state == Blocked
  {
    assert ThreadOk(t, tid);
  }

  lemma WakeKeeps(t: Table, tid: Tid, value: nat)
    requires Inv(t) && UserTid(t, tid)
    ensures Inv(Wake(t, tid, value).0)
  {
    if Known(t, tid) && t.threads[tid].state == Blocked && t.threads[tid].resume.Some? {
      ActiveIsLive(t, tid);
      EnqueueFacts(t.queue, tid);
      var th := t.threads[tid];
      UpdateKeeps(t, tid, th.(resume := Some(th.resume.value.(rax := value)), state := Ready, waitingFor := None),
                  Enqueue(t.queue, tid));
    }
  }

  // ----- Dispatch -----

  /** A queued user thread can always be dispatched; only kernel entries are ever dropped. */
  lemma QueuedUserDispatchable(t: Table, tid: Tid)
    requires Inv(t) && tid in t.queue
    ensures tid in t.threads
    ensures t.threads[tid].kind == User ==> Dispatchable(t, tid)
    ensures t.threads[tid].kind == Kernel ==> !Dispatchable(t, tid)
  {
    assert ThreadOk(t, tid);
  }

  lemma DropKernelEntry(t: Table)
    requires Inv(t) && t.queue != [] && t.threads[t.queue[0]].kind == Kernel
    ensures Inv(t.(queue := t.queue[1..]))
  {
    PopFacts(t.queue);
    var t' := t.(queue := t.queue[1..]);
    assert forall q :: Live(t', q) <==> Live(t, q);
    forall x | x in t'.threads ensures ThreadOk(t', x) {
      assert ThreadOk(t, x);
      if t.threads[x].kind == User { assert UserThreadOk(t, x); assert WaitOk(t, x) ==> WaitOk(t', x); }
    }
    forall q | q in t'.procs ensures ProcOk(t', q) { assert ProcOk(t, q); }
  }

  lemma DispatchKeeps(t: Table)
    requires Inv(t) && t.queue != [] && Dispatchable(t, t.queue[0]) && t.threads[t.queue[0]].kind == User
    ensures Inv(Update(t, t.queue[0], t.threads[t.queue[0]].(resume := None, state := Running), t.queue[1..]))
  {
    var tid := t.queue[0];
    ActiveIsLive(t, tid);
    PopFacts(t.queue);
    UpdateKeeps(t, tid, t.threads[tid].(resume := None, state := Running), t.queue[1..]);
  }

  lemma {:induction false} ScheduleKeeps(t: Table)
    requires Inv(t)
    ensures Inv(Schedule(t).0)
    decreases |t.queue|
  {
    if t.queue != [] {
      QueuedUserDispatchable(t, t.queue[0]);
      if Dispatchable(t, t.queue[0]) {
        DispatchKeeps(t);
      } else {
        DropKernelEntry(t);
        ScheduleKeeps(t.(queue := t.queue[1..]));
      }
    }
  }

  lemma PreemptKeeps(t: Table, tid: Tid, context: Context)
    requires Inv(t) && UserTid(t, tid)
    ensures Inv(Preempt(t, tid, context).0)
  {
    YieldKeeps(t, tid, context);
    ScheduleKeeps(Yield(t, tid, context).0);
  }

  // ----- Signals -----

  lemma ActivateMainKeeps(t: Table, pid: Pid, signal: nat, handler: nat)
    requires Inv(t) && (pid in t.procs ==> t.procs[pid].kind == User)
    ensures Inv(ActivateMain(t, pid, signal, handler).0)
  {
    if pid in t.procs {
      assert ProcOk(t, pid);
      var tid := t.procs[pid].mainTid;
      assert ThreadOk(t, tid);
      var th := t.threads[tid];
      if th.sigReturn.None? && th.resume.Some? {
        RunningNotQueued(t, tid);
        ActiveIsLive(t, tid);
        EnqueueFacts(t.queue, tid);
        var th' := th.(sigReturn := Some(th.resume.value), waitingFor := None, state := Ready,
                       resume := Some(HandlerContext(th.resume.value, signal, handler)));
        UpdateKeeps(t, tid, th', Enqueue(t.queue, tid));
        var t' := Update(t, tid, th', Enqueue(t.queue, tid));
        ProcFieldsFree(t', pid, t'.procs[pid].(waitingFor := None, sleepingUntil := None));
      }
    }
  }

  lemma ActivateRunningKeeps(t: Table, pid: Pid, tid: Tid, signal: nat, handler: nat, original: Context)
    requires Inv(t) && UserTid(t, tid)
    ensures Inv(ActivateRunning(t, pid, tid, signal, handler, original).0)
  {
    if Known(t, tid) && t.threads[tid].state == Running {
      ActiveIsLive(t, tid);
      EnqueueFacts(t.queue, tid);
      var th := t.threads[tid].(sigReturn := Some(original), state := Ready,
                                resume := Some(HandlerContext(original, signal, handler)));
      UpdateKeeps(t, tid, th, Enqueue(t.queue, tid));
    }
  }

  lemma RestoreKeeps(t: Table, pid: Pid, tid: Tid)
    requires Inv(t) && UserTid(t, tid)
    ensures Inv(Restore(t, pid, tid).0)
  {
    if Known(t, tid) && t.threads[tid].state == Running && t.threads[tid].sigReturn.Some? {
      ActiveIsLive(t, tid);
      EnqueueFacts(t.queue, tid);
      var th := t.threads[tid].(sigReturn := None, resume := t.threads[tid].sigReturn, state := Ready);
      UpdateKeeps(t, tid, th, Enqueue(t.queue, tid));
    }
  }

  // ----- Join -----

  /** Reaping an exited thread: it was not queued, had no context, and nobody waits for it. */
  lemma ReapKeeps(t: Table, tid: Tid, pool: Pool)
    requires Inv(t) && tid in t.threads && t.threads[tid].kind == User && t.threads[tid].state == Exited
    requires t.threads[tid].pid in t.procs && Live(t, t.threads[tid].pid)
    ensures Inv(t.(threads := t.threads[tid := ReapedThread(t.procs[t.threads[tid].pid], t.threads[tid])],
              pool := pool))
  {
    var p, th := t.procs[t.threads[tid].pid], t.threads[tid];
    var t' := t.(threads := t.threads[tid := ReapedThread(p, th)], pool := pool);
    assert forall q :: Live(t', q) <==> Live(t, q);
    forall x | x in t'.threads ensures ThreadOk(t', x) {
      assert ThreadOk(t, x) && ThreadOk(t, tid);
      if t.threads[x].kind == User { assert UserThreadOk(t, x); assert WaitOk(t, x) ==> WaitOk(t', x); }
    }
    forall q | q in t'.procs ensures ProcOk(t', q) {
      assert ProcOk(t, q);
      ReapedSummary(t.threads, tid, ReapedThread(p, th), t.procs[q].tids);
    }
  }

  lemma ReapedSummary(threads: map<Tid, Thread>, tid: Tid, th: Thread, tids: seq<Tid>)
    requires tid in threads && threads[tid].state == Exited && th.state == Reaped
    requires forall k | 0 <= k < |tids| :: tids[k] in threads
    ensures Summary(threads[tid := th], tids) == Summary(threads, tids)
  {
    forall s: State | s != Exited && s != Reaped ensures Has(threads[tid := th], tids, s) <==> Has(threads, tids, s) {
      if k :| 0 <= k < |tids| && threads[tids[k]].state == s { assert threads[tid := th][tids[k]].state == s; }
      if k :| 0 <= k < |tids| && threads[tid := th][tids[k]].state == s { assert threads[tids[k]].state == s; }
    }
  }

  lemma JoinKeeps(t: Table, caller: Tid, target: Tid, context: Context)
    requires Inv(t) && UserTid(t, caller) && UserTid(t, target) && PoolBits(t.pool)
    requires caller in t.threads ==> t.threads[caller].state == Running
    ensures Inv(Join(t, caller, target, context).0)
  {
    var r := Join(t, caller, target, context);
    if r.1 == JoinBlocked || r.1 == Completed {
      ActiveIsLive(t, caller);
      RunningNotQueued(t, caller);
      if r.1 == Completed {
        ReapKeeps(t, target, FreeStackOf(t.pool, t.procs[t.threads[caller].pid], t.threads[target]));
      } else {
        var waiting := t.threads[caller].(resume := Some(context), state := Blocked, waitingFor := Some(target));
        UpdateKeeps(t, caller, waiting, t.queue);
      }
    }
  }

  // ----- Thread exit -----

  lemma {:induction false} JoinersFacts(threads: map<Tid, Thread>, tids: seq<Tid>, tid: Tid)
    ensures forall x :: x in Joiners(threads, tids, tid) <==>
              x in tids && x != tid && x in threads && threads[x].state == Blocked && threads[x].waitingFor == Some(tid)
  {
    if tids != [] {
      JoinersFacts(threads, tids[..|tids| - 1], tid);
      assert tids == tids[..|tids| - 1] + [tids[|tids| - 1]];
    }
  }

  /** Threads that end this way are running (or at least have not ended before). */
  predicate CanExit(t: Table, tid: Tid)
  {
    tid in t.threads ==>
      && t.threads[tid].kind == User && Live(t, t.threads[tid].pid)
      && t.threads[tid].state != Exited && t.threads[tid].state != Reaped
  }

  lemma ExitQueue(queue: seq<Tid>, tid: Tid, woken: seq<Tid>)
    requires Distinct(queue)
    ensures Distinct(EnqueueAll(Without(queue, {tid}), woken))
    ensures forall x :: x in EnqueueAll(Without(queue, {tid}), woken) <==> (x in queue && x != tid) || x in woken
  {
    WithoutFacts(queue, {tid});
    EnqueueAllFacts(Without(queue, {tid}), woken);
  }

  /** What an exit does to one thread: itself, those that join on it, everyone else. */
  lemma ExitFacts(t: Table, tid: Tid, x: Tid)
    requires Inv(t) && PoolBits(t.pool) && tid in t.threads && CanExit(t, tid) && x in t.threads
    requires ExitThread(t, tid).1.Some?
    ensures var t' := ExitThread(t, tid).0;
            var joins := x != tid && t.threads[x].kind == User && Joins(t.threads[x], t.threads[tid].pid, tid);
            && x in t'.threads
            && (x == tid ==>
                  && (t'.threads[x].state == Exited || t'.threads[x].state == Reaped)
                  && t'.threads[x].resume.None? && t'.threads[x].waitingFor.None?
                  && t'.threads[x].pid == t.threads[x].pid && t'.threads[x].kind == t.threads[x].kind)
            && (x != tid ==> t'.threads[x] == if joins then Released(t.threads[x]) else t.threads[x])
            && (x in t'.queue <==> (x in t.queue && x != tid) || joins)
  {
    var pid := t.threads[tid].pid;
    JoinersFacts(t.threads, t.procs[pid].tids, tid);
    ExitQueue(t.queue, tid, Joiners(t.threads, t.procs[pid].tids, tid));
    assert ThreadOk(t, x) && ThreadOk(t, tid) && ProcOk(t, pid);
    hide Joiners, EnqueueAll, Without, Summary, Inv;
    assert x in t.procs[pid].tids <==> t.threads[x].pid == pid;
  }

  lemma ExitShape(t: Table, tid: Tid)
    requires Inv(t) && PoolBits(t.pool) && tid in t.threads && CanExit(t, tid) && ExitThread(t, tid).1.Some?
    ensures var t' := ExitThread(t, tid).0;
            && t'.threads.Keys == t.threads.Keys && t'.procs.Keys == t.procs.Keys && t'.nextTid == t.nextTid
            && (forall q | q in t.procs ::
                  && t'.procs[q].tids == t.procs[q].tids && t'.procs[q].kind == t.procs[q].kind
                  && t'.procs[q].p4 == t.procs[q].p4 && t'.procs[q].stackTop == t.procs[q].stackTop
                  && (Live(t', q) <==> Live(t, q)) && (!Live(t, q) ==> t'.procs[q] == t.procs[q]))
  {
    SummaryAlive(ExitThread(t, tid).0.threads, t.procs[t.threads[tid].pid].tids);
    hide Joiners, EnqueueAll, Without, Summary;
  }

  lemma ExitedThread(t: Table, tid: Tid, x: Tid)
    requires Inv(t) && PoolBits(t.pool) && tid in t.threads && CanExit(t, tid) && x in t.threads
    requires ExitThread(t, tid).1.Some?
    ensures x in ExitThread(t, tid).0.threads && ThreadOk(ExitThread(t, tid).0, x)
  {
    var t' := ExitThread(t, tid).0;
    ExitShape(t, tid);
    ExitFacts(t, tid, x);
    ExitFacts(t, tid, tid);
    assert ThreadOk(t, x) && ThreadOk(t, tid);
    if t.threads[x].kind == User {
      assert UserThreadOk(t, x);
      if x != tid && Live(t, t.threads[x].pid) && t.threads[x].waitingFor.Some? {
        assert WaitOk(t, x);
        ExitFacts(t, tid, t.threads[x].waitingFor.value);
      }
      hide ExitThread, Inv;
      assert UserThreadOk(t', x);
    }
    hide ExitThread, Inv;
  }

  lemma ExitedProc(t: Table, tid: Tid, q: Pid)
    requires Inv(t) && PoolBits(t.pool) && tid in t.threads && CanExit(t, tid) && q in t.procs
    requires ExitThread(t, tid).1.Some?
    ensures ProcOk(ExitThread(t, tid).0, q)
  {
    var t' := ExitThread(t, tid).0;
    var pid := t.threads[tid].pid;
    JoinersFacts(t.threads, t.procs[pid].tids, tid);
    assert ProcOk(t, q) && ProcOk(t, pid);
    SummaryAlive(t'.threads, t.procs[q].tids);
    if q != pid {
      forall k | 0 <= k < |t.procs[q].tids|
        ensures t.procs[q].tids[k] in t'.threads && t'.threads[t.procs[q].tids[k]] == t.threads[t.procs[q].tids[k]]
      {
        var x := t.procs[q].tids[k];
        assert x !in t.procs[pid].tids;
      }
      SummaryFrame(t.threads, t'.threads, t.procs[q].tids);
    }
  }

  lemma ExitThreadKeeps(t: Table, tid: Tid)
    requires Inv(t) && PoolBits(t.pool) && CanExit(t, tid)
    ensures Inv(ExitThread(t, tid).0)
  {
    var r := ExitThread(t, tid);
    if r.1.Some? {
      var t' := r.0;
      var woken := Joiners(t.threads, t.procs[t.threads[tid].pid].tids, tid);
      ExitQueue(t.queue, tid, woken);
      JoinersFacts(t.threads, t.procs[t.threads[tid].pid].tids, tid);
      assert forall k | 0 <= k < |t'.queue| :: t'.queue[k] in t'.queue;
      hide ExitThread, Joiners, EnqueueAll, Without;
      forall x | x in t'.threads ensures ThreadOk(t', x) { ExitedThread(t, tid, x); }
      forall q | q in t'.procs ensures ProcOk(t', q) { ExitedProc(t, tid, q); }
    }
  }

  // ----- Process exit -----

  lemma ExitProcessThread(t: Table, pid: Pid, status: nat, x: Tid)
    requires Inv(t) && pid in t.procs && t.procs[pid].kind == User && x in t.threads
    ensures ThreadOk(ExitProcess(t, pid, status), x)
  {
    var t' := ExitProcess(t, pid, status);
    WithoutFacts(t.queue, set y | y in t.procs[pid].tids);
    assert ThreadOk(t, x) && ProcOk(t, pid);
    hide Summary, Without, Distinct, Inv;
    assert x in t.procs[pid].tids <==> t.threads[x].pid == pid;
    if t.threads[x].kind == User {
      assert UserThreadOk(t, x);
      if Live(t', t.threads[x].pid) {
        assert WaitOk(t, x);
        assert forall y | y in t.threads && t.threads[y].pid != pid :: t'.threads[y] == t.threads[y] by {
          forall y | y in t.threads && t.threads[y].pid != pid ensures y !in t.procs[pid].tids {}
        }
        assert WaitOk(t', x);
      }
      assert UserThreadOk(t', x);
    }
  }

  lemma ExitProcessKeeps(t: Table, pid: Pid, status: nat)
    requires Inv(t) && (pid in t.procs ==> t.procs[pid].kind == User)
    ensures Inv(ExitProcess(t, pid, status))
  {
    if pid in t.procs {
      var t' := ExitProcess(t, pid, status);
      WithoutFacts(t.queue, set y | y in t.procs[pid].tids);
      assert forall k | 0 <= k < |t'.queue| :: t'.queue[k] in t'.queue;
      forall q | q in t'.procs ensures ProcOk(t', q) {
        assert ProcOk(t, q) && ProcOk(t, pid);
        if q != pid {
          forall k | 0 <= k < |t.procs[q].tids| ensures t.procs[q].tids[k] !in t.procs[pid].tids {
            assert t.threads[t.procs[q].tids[k]].pid == q;
          }
          SummaryFrame(t.threads, t'.threads, t.procs[q].tids);
        }
      }
      hide Without;
      forall x | x in t'.threads ensures ThreadOk(t', x) { ExitProcessThread(t, pid, status, x); }
    }
  }

  // ----- Creation -----

  /** A new thread fits: a live user process asks for it, and TIDs have not run out. */
  ghost predicate CanInsert(t: Table, pid: Pid, th: Thread)
  {
    && Live(t, pid) && t.procs[pid].kind == User && t.nextTid < TID_MAX
    && th.pid == pid && th.kind == User && th.state == Ready && th.resume.Some? && th.waitingFor.None?
  }

  lemma InsertedThread(t: Table, pid: Pid, th: Thread, x: Tid)
    requires Inv(t) && CanInsert(t, pid, th) && Insert(t, pid, th).1.Some? && x in Insert(t, pid, th).0.threads
    ensures ThreadOk(Insert(t, pid, th).0, x)
  {
    var t' := Insert(t, pid, th).0;
    EnqueueFacts(t.queue, t.nextTid);
    SummaryAlive(t'.threads, t'.procs[pid].tids);
    NextTidUnused(t);
    hide Summary, Distinct, Enqueue;
    assert forall q :: Live(t', q) <==> Live(t, q);
    if x != t.nextTid {
      assert ThreadOk(t, x);
      if t.threads[x].kind == User {
        assert UserThreadOk(t, x);
        assert Live(t, t.threads[x].pid) ==> WaitOk(t, x) && WaitOk(t', x);
        assert UserThreadOk(t', x);
      }
    }
  }

  lemma InsertKeeps(t: Table, pid: Pid, th: Thread)
    requires Inv(t) && CanInsert(t, pid, th)
    ensures Inv(Insert(t, pid, th).0)
  {
    var r := Insert(t, pid, th);
    var t' := r.0;
    if r.1.None? {
      TidAdvance(t, t'.nextTid);
    } else {
      EnqueueFacts(t.queue, t.nextTid);
      NextTidUnused(t);
      forall k | 0 <= k < |t'.queue| ensures t'.queue[k] in t'.threads {
        assert t'.queue[k] in t'.queue;
      }
      forall x | x in t'.threads ensures ThreadOk(t', x) { InsertedThread(t, pid, th, x); }
      forall q | q in t'.procs ensures ProcOk(t', q) {
        assert ProcOk(t, q);
        SummaryAlive(t'.threads, t'.procs[q].tids);
        if q != pid { SummaryFrame(t.threads, t'.threads, t.procs[q].tids); }
      }
    }
  }

  lemma TidAdvance(t: Table, next: Tid)
    requires Inv(t) && t.nextTid <= next
    ensures Inv(t.(nextTid := next))
  {
    var t' := t.(nextTid := next);
    assert forall q :: Live(t', q) <==> Live(t, q);
    forall x | x in t'.threads ensures ThreadOk(t', x) {
      assert ThreadOk(t, x);
      if t.threads[x].kind == User { assert UserThreadOk(t, x); assert WaitOk(t, x) ==> WaitOk(t', x); }
    }
    forall q | q in t'.procs ensures ProcOk(t', q) { assert ProcOk(t, q); }
  }

  lemma CreateThreadKeeps(t: Table, pid: Pid, entry: nat, start: nat, top: nat, rsp: nat, arg: nat)
    requires Inv(t) && t.nextTid < TID_MAX && (pid in t.procs ==> Live(t, pid))
    ensures Inv(CreateThread(t, pid, entry, start, top, rsp, arg).0)
  {
    if pid in t.procs && t.procs[pid].kind == User && StackRangeAvailable(t, t.procs[pid], start, top) {
      InsertKeeps(t, pid, NewThread(pid, start, top, false, entry, rsp, arg));
    }
  }

  lemma InsertThenPool(t: Table, pid: Pid, th: Thread, pool: Pool)
    requires Inv(t) && CanInsert(t, pid, th)
    ensures Inv(Insert(t, pid, th).0) && Inv(Insert(t, pid, th).0.(pool := pool))
  {
    InsertKeeps(t, pid, th);
    PoolFree(Insert(t, pid, th).0, pool);
  }

  lemma CreateManagedKeeps(t: Table, pid: Pid, entry: nat, arg: nat)
    requires Inv(t) && PoolBits(t.pool) && t.nextTid < TID_MAX && (pid in t.procs ==> Live(t, pid))
    ensures Inv(CreateManaged(t, pid, entry, arg).0)
  {
    hide Inv, Insert, ReserveStack, ReleaseStack, StackTop;
    if pid in t.procs && t.procs[pid].kind == User && t.procs[pid].p4.Some? {
      var p4, mainTop := t.procs[pid].p4.value, t.procs[pid].stackTop;
      var (pool, slot) := ReserveStack(t.pool, p4, mainTop);
      ReserveKeepsBits(t.pool, p4, mainTop);
      PoolFree(t, pool);
      if slot.Some? {
        var (start, top) := StackRangeForSlot(slot.value);
        var th := NewThread(pid, start, top, true, entry, top / 16 * 16 - 8, arg);
        assert CanInsert(t.(pool := pool), pid, th);
        InsertThenPool(t.(pool := pool), pid, th, ReleaseStack(pool, p4, top));
      }
    }
  }

  lemma ExecThread(t: Table, pid: Pid, parent: Option<Pid>, x: Tid)
    requires Inv(t) && pid !in t.procs && t.nextTid < TID_MAX && x in Exec(t, pid, parent).threads
    ensures ThreadOk(Exec(t, pid, parent), x)
  {
    var t' := Exec(t, pid, parent);
    NextTidUnused(t);
    hide Take, Summary, Distinct;
    if x == t.nextTid {
      assert x in t.queue ==> x in t.threads;
    } else {
      assert ThreadOk(t, x);
      if t.threads[x].kind == User {
        assert UserThreadOk(t, x);
        assert Live(t, t.threads[x].pid) ==> WaitOk(t, x) && WaitOk(t', x);
        assert UserThreadOk(t', x);
      }
    }
  }

  lemma ExecKeeps(t: Table, pid: Pid, parent: Option<Pid>)
    requires Inv(t) && pid !in t.procs && t.nextTid < TID_MAX
    ensures Inv(Exec(t, pid, parent))
  {
    hide Take;
    var t' := Exec(t, pid, parent);
    forall x | x in t'.threads ensures ThreadOk(t', x) { ExecThread(t, pid, parent, x); }
    NextTidUnused(t);
    forall q | q in t'.procs ensures ProcOk(t', q) {
      if q != pid {
        assert ProcOk(t, q);
        SummaryFrame(t.threads, t'.threads, t.procs[q].tids);
      } else {
        var tids := t'.procs[q].tids;
        assert tids[0] == t.nextTid && t'.threads[tids[0]].state == Running;
        assert Has(t'.threads, tids, Running);
      }
    }
  }
}
