/** Bounded bypass: a queued thread is overtaken only by those that were queued before it. */
module SchedFair {
  import opened Base
  import opened StackPool
  import opened SchedModel
  import opened SchedInv
  import opened SchedSteps
  import opened SchedRuns

  /** Where a TID stands in the queue. */
  function Index(queue: seq<Tid>, x: Tid): (k: nat)
    requires x in queue
    ensures k < |queue| && queue[k] == x
  {
    if queue[0] == x then 0 else 1 + Index(queue[1..], x)
  }

  lemma {:induction false} IndexIsFirst(queue: seq<Tid>, x: Tid, k: nat)
    requires x in queue && k < |queue| && queue[k] == x
    ensures Index(queue, x) <= k
  {
    if queue[0] != x { IndexIsFirst(queue[1..], x, k - 1); }
  }

  lemma IndexPrefix(queue: seq<Tid>, more: seq<Tid>, x: Tid)
    requires x in queue
    ensures x in queue + more && Index(queue + more, x) <= Index(queue, x)
  {
    assert (queue + more)[Index(queue, x)] == x;
    IndexIsFirst(queue + more, x, Index(queue, x));
  }

  /** Enqueueing happens behind everyone who waits already. */
  lemma {:induction false} IndexEnqueueAll(queue: seq<Tid>, tids: seq<Tid>, x: Tid)
    requires x in queue
    ensures x in EnqueueAll(queue, tids) && Index(EnqueueAll(queue, tids), x) <= Index(queue, x)
  {
    if tids != [] {
      var q := EnqueueAll(queue, tids[..|tids| - 1]);
      IndexEnqueueAll(queue, tids[..|tids| - 1], x);
      IndexPrefix(q, [tids[|tids| - 1]], x);
    }
  }

  lemma IndexEnqueue(queue: seq<Tid>, tid: Tid, x: Tid)
    requires x in queue
    ensures x in Enqueue(queue, tid) && Index(Enqueue(queue, tid), x) <= Index(queue, x)
  {
    IndexPrefix(queue, [tid], x);
  }

  /** Taking others out of the queue moves a thread forward, if at all. */
  lemma {:induction false} IndexWithout(queue: seq<Tid>, gone: set<Tid>, x: Tid)
    requires x in queue && x !in gone
    ensures x in Without(queue, gone) && Index(Without(queue, gone), x) <= Index(queue, x)
    decreases |queue|
  {
    var front, last := queue[..|queue| - 1], queue[|queue| - 1];
    assert queue == front + [last];
    if x in front {
      IndexWithout(front, gone, x);
      var k := Index(queue, x);
      if k < |front| { IndexIsFirst(front, x, k); } else { IndexIsFirst(queue, x, Index(front, x)); }
      IndexPrefix(Without(front, gone), [last], x);
    } else {
      WithoutShorter(front, gone);
      var q := Without(queue, gone);
      assert q == Without(front, gone) + [last];
      assert q[|q| - 1] == x;
      IndexIsFirst(q, x, |q| - 1);
      assert forall k | 0 <= k < |front| :: queue[k] == front[k] && front[k] != x;
    }
  }

  lemma {:induction false} WithoutShorter(queue: seq<Tid>, gone: set<Tid>)
    ensures |Without(queue, gone)| <= |queue|
  {
    if queue != [] { WithoutShorter(queue[..|queue| - 1], gone); }
  }

  /** The thread a step dispatches, if any. */
  function Dispatched(t: Table, s: Step): Option<Tid>
    requires PoolBits(t.pool)
  {
    var d := match s
      case DoSchedule => Schedule(t).1
      case DoPreempt(tid, context) => Preempt(t, tid, context).1
      case _ => None;
    if d.Some? then Some(d.value.tid) else None
  }

  /** A step in which schedule_next_ready_user is called: directly, or by a preemption that goes through. */
  predicate IsCall(t: Table, s: Step)
  {
    s.DoSchedule? || (s.DoPreempt? && HasReadyExcept(t, s.tid) && Yield(t, s.tid, s.context).1)
  }

  /** Steps that end the thread or its process. */
  predicate Ends(t: Table, s: Step, x: Tid)
  {
    || s == DoExitThread(x)
    || (s.DoExitProcess? && x in t.threads && t.threads[x].pid == s.pid)
  }

  /** One call of the scheduler: it dispatches the thread, or brings it forward. */
  lemma {:induction false} ScheduleAdvances(t: Table, x: Tid)
    requires Inv(t) && x in t.queue && t.threads[x].kind == User
    ensures Schedule(t).1.Some?
    ensures Schedule(t).1.value.tid == x ||
            (x in Schedule(t).0.queue && Index(Schedule(t).0.queue, x) < Index(t.queue, x))
    decreases |t.queue|
  {
    var tid, rest := t.queue[0], t.queue[1..];
    QueuedUserDispatchable(t, tid);
    QueuedUserDispatchable(t, x);
    if tid != x {
      PopFacts(t.queue);
      if !Dispatchable(t, tid) {
        DropKernelEntry(t);
        ScheduleAdvances(t.(queue := rest), x);
      }
    }
  }

  /** Any step: the thread is dispatched, or it is still queued and no further back. */
  lemma StepAdvances(t: Table, s: Step, x: Tid)
    requires Inv(t) && PoolBits(t.pool) && Allowed(t, s) && !Ends(t, s, x)
    requires x in t.queue && x in t.threads && t.threads[x].kind == User
    ensures Dispatched(t, s) == Some(x) ||
            (x in Do(t, s).queue && Index(Do(t, s).queue, x) + (if IsCall(t, s) then 1 else 0) <= Index(t.queue, x))
  {
    hide Inv, Update, Index, Enqueue, EnqueueAll, Without, Joiners, Refreshed, ReserveStack, Take;
    match s
    case DoSchedule => ScheduleAdvances(t, x);
    case DoPreempt(tid, context) => PreemptAdvances(t, tid, context, x);
    case DoExitThread(tid) => ExitThreadAdvances(t, tid, x);
    case DoExitProcess(pid, status) => ExitProcessAdvances(t, pid, status, x);
    case DoCreateThread(_, _, _, _, _, _) => IndexEnqueue(t.queue, t.nextTid, x);
    case DoCreateManaged(_, _, _) => IndexEnqueue(t.queue, t.nextTid, x);
    case DoActivateMain(pid, _, _) => ActivateQueue(t, s, x);
    case DoYield(tid, _) => IndexEnqueue(t.queue, tid, x); UpdateQueue(t, s, x);
    case DoWake(tid, _) => IndexEnqueue(t.queue, tid, x); UpdateQueue(t, s, x);
    case DoActivateRunning(_, tid, _, _, _) => IndexEnqueue(t.queue, tid, x); UpdateQueue(t, s, x);
    case DoRestore(_, tid) => IndexEnqueue(t.queue, tid, x); UpdateQueue(t, s, x);
    case DoJoin(_, _, _) => UpdateQueue(t, s, x);
    case DoBlock(_, _) => UpdateQueue(t, s, x);
    case DoExec(_, _) =>
    case DoReleaseSpace(_) =>
  }

  lemma ActivateQueue(t: Table, s: Step, x: Tid)
    requires s.DoActivateMain? && x in t.queue && PoolBits(t.pool)
    ensures x in Do(t, s).queue && Index(Do(t, s).queue, x) <= Index(t.queue, x)
  {
    if s.pid in t.procs { IndexEnqueue(t.queue, t.procs[s.pid].mainTid, x); }
  }

  /** The queue after the steps that change one thread. */
  lemma UpdateQueue(t: Table, s: Step, x: Tid)
    requires PoolBits(t.pool)
    requires s.DoYield? || s.DoWake? || s.DoActivateRunning? || s.DoRestore? || s.DoJoin? || s.DoBlock?
    ensures Do(t, s).queue == t.queue || (!s.DoJoin? && !s.DoBlock? && Do(t, s).queue == Enqueue(t.queue, s.tid))
  {
  }

  lemma PreemptAdvances(t: Table, tid: Tid, context: Context, x: Tid)
    requires Inv(t) && UserTid(t, tid) && x in t.queue && t.threads[x].kind == User
    ensures var r := Preempt(t, tid, context);
            var call := HasReadyExcept(t, tid) && Yield(t, tid, context).1;
            || (r.1.Some? && r.1.value.tid == x)
            || (x in r.0.queue && Index(r.0.queue, x) + (if call then 1 else 0) <= Index(t.queue, x))
  {
    var (t', yielded) := Yield(t, tid, context);
    if HasReadyExcept(t, tid) && yielded {
      YieldKeeps(t, tid, context);
      IndexEnqueue(t.queue, tid, x);
      assert t'.queue == Enqueue(t.queue, tid);
      assert t'.threads[x].kind == User;
      hide Inv, Yield, Enqueue, Update;
      ScheduleAdvances(t', x);
    }
  }

  lemma ExitThreadAdvances(t: Table, tid: Tid, x: Tid)
    requires PoolBits(t.pool) && x in t.queue && tid != x
    ensures var q := ExitThread(t, tid).0.queue;
            x in q && Index(q, x) <= Index(t.queue, x)
  {
    if ExitThread(t, tid).1.Some? {
      var woken := Joiners(t.threads, t.procs[t.threads[tid].pid].tids, tid);
      IndexWithout(t.queue, {tid}, x);
      IndexEnqueueAll(Without(t.queue, {tid}), woken, x);
    }
  }

  lemma ExitProcessAdvances(t: Table, pid: Pid, status: nat, x: Tid)
    requires Inv(t) && x in t.queue && t.threads[x].pid != pid
    ensures var q := ExitProcess(t, pid, status).queue;
            x in q && Index(q, x) <= Index(t.queue, x)
  {
    if pid in t.procs {
      assert ProcOk(t, pid);
      var gone := set y | y in t.procs[pid].tids;
      assert x !in gone;
      IndexWithout(t.queue, gone, x);
    }
  }

  /** How many steps of the run call the scheduler. */
  ghost function Calls(states: seq<Table>, steps: seq<Step>): nat
    requires IsRun(states, steps)
    decreases |steps|
  {
    if steps == [] then 0
    else (if IsCall(states[0], steps[0]) then 1 else 0) + Calls(states[1..], steps[1..])
  }

  /**
    Bounded bypass: a ready thread at queue index k is dispatched by one of the next k + 1 scheduler calls,
    whatever steps come in between, unless it or its process ends.
   */
  lemma {:induction false} BoundedBypass(states: seq<Table>, steps: seq<Step>, x: Tid) returns (i: nat)
    requires IsRun(states, steps) && Inv(states[0]) && x in states[0].queue && states[0].threads[x].kind == User
    requires forall j | 0 <= j < |steps| :: !Ends(states[j], steps[j], x)
    requires Calls(states, steps) > Index(states[0].queue, x)
    ensures i < |steps| && Dispatched(states[i], steps[i]) == Some(x)
    decreases |steps|
  {
    var t, s := states[0], steps[0];
    StepAdvances(t, s, x);
    if Dispatched(t, s) == Some(x) {
      i := 0;
    } else {
      StepKeepsInv(t, s);
      KindKept(t, s, x);
      var states', steps' := states[1..], steps[1..];
      assert forall j | 0 <= j < |steps'| :: states'[j] == states[j + 1] && steps'[j] == steps[j + 1];
      i := BoundedBypass(states', steps', x);
      i := i + 1;
    }
  }

  /** No step changes what kind of thread a TID names or which process it belongs to. */
  lemma KindKept(t: Table, s: Step, x: Tid)
    requires Inv(t) && PoolBits(t.pool) && Allowed(t, s) && x in t.threads
    ensures x in Do(t, s).threads && Do(t, s).threads[x].kind == t.threads[x].kind &&
              Do(t, s).threads[x].pid == t.threads[x].pid
  {
    hide Summary, Enqueue, EnqueueAll, Joiners, Without, ReserveStack, ReleaseStack, Take, Release;
    match s
    case DoSchedule => ScheduleKindKept(t, x);
    case DoPreempt(tid, context) => ScheduleKindKept(Yield(t, tid, context).0, x);
    case DoCreateThread(_, _, _, _, _, _) => NextTidUnused(t);
    case DoCreateManaged(_, _, _) => NextTidUnused(t);
    case DoExec(_, _) => NextTidUnused(t);
    case _ => hide Inv, Allowed;
  }

  lemma {:induction false} ScheduleKindKept(t: Table, x: Tid)
    requires x in t.threads
    ensures x in Schedule(t).0.threads
    ensures Schedule(t).0.threads[x].kind == t.threads[x].kind && Schedule(t).0.threads[x].pid == t.threads[x].pid
    decreases |t.queue|
  {
    if t.queue != [] && !Dispatchable(t, t.queue[0]) { ScheduleKindKept(t.(queue := t.queue[1..]), x); }
  }
}
