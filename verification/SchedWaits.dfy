/** How a blocked thread leaves its wait, and what a join that returns says about its target. */
module SchedWaits {
  import opened Base
  import opened StackPool
  import opened SchedModel
  import opened SchedInv
  import opened SchedSteps
  import opened SchedRuns
  import opened SchedFair
  import opened SchedLimits

  /**
    The steps that take a blocked thread out of its wait: it is woken, it or its process ends, the thread it
    joins ends, or a signal handler diverts it (the main thread only, and only while no handler is active).
   */
  predicate Leaves(t: Table, s: Step, x: Tid)
    requires x in t.threads && t.threads[x].pid in t.procs
  {
    var th := t.threads[x];
    match s
    case DoWake(tid, _) => tid == x
    case DoExitThread(tid) => (tid == x && x != t.procs[th.pid].mainTid) || ExitReleases(t, tid, x)
    case DoExitProcess(pid, _) => th.pid == pid
    case DoActivateMain(pid, _, _) => th.pid == pid && x == t.procs[pid].mainTid && th.sigReturn.None?
    case _ => false
  }

  /** `x` joins `tid`, and `tid` is a thread that can leave on its own. */
  predicate ExitReleases(t: Table, tid: Tid, x: Tid)
    requires x in t.threads && t.threads[x].pid in t.procs
  {
    t.threads[x].waitingFor == Some(tid) && tid != t.procs[t.threads[x].pid].mainTid
  }

  /** A blocked thread stays as it is, unless the step is one that takes it out. */
  lemma LeavesIff(t: Table, s: Step, x: Tid)
    requires Inv(t) && PoolBits(t.pool) && Allowed(t, s) && x in t.threads
    requires t.threads[x].kind == User && t.threads[x].state == Blocked
    ensures Known(t, x) && x in Do(t, s).threads
    ensures Leaves(t, s, x) ==> Do(t, s).threads[x].state != Blocked
    ensures !Leaves(t, s, x) ==> Do(t, s).threads[x] == t.threads[x]
  {
    ActiveIsLive(t, x);
    RunningNotQueued(t, x);
    NextTidUnused(t);
    match s
    case DoSchedule => ScheduleKeepsIdle(t, x);
    case DoPreempt(tid, context) => ScheduleKeepsIdle(Yield(t, tid, context).0, x);
    case DoExitThread(tid) => hide Do; ExitOnBlocked(t, tid, x);
    case DoExitProcess(pid, _) => if pid in t.procs { assert ProcOk(t, pid) && ThreadOk(t, x); }
    case DoActivateMain(pid, _, _) => hide Do; ActivateOnBlocked(t, s, x);
    case DoWake(_, _) => hide Inv, Summary;
    case _ => hide Do; OthersLeaveAlone(t, s, x);
  }

  /** The remaining steps change running and new threads only. */
  lemma OthersLeaveAlone(t: Table, s: Step, x: Tid)
    requires PoolBits(t.pool) && Known(t, x) && t.threads[x].state == Blocked && t.nextTid !in t.threads
    requires !s.DoSchedule? && !s.DoPreempt? && !s.DoExitThread? && !s.DoExitProcess? && !s.DoActivateMain? &&
               !s.DoWake?
    ensures x in Do(t, s).threads && Do(t, s).threads[x] == t.threads[x]
  {
    hide Enqueue, Summary, ReserveStack, ReleaseStack, Take, Release;
  }

  lemma ExitOnBlocked(t: Table, tid: Tid, x: Tid)
    requires Inv(t) && PoolBits(t.pool) && CanExit(t, tid) && Known(t, x)
    requires t.threads[x].kind == User && t.threads[x].state == Blocked && WaitOk(t, x)
    ensures var t' := Do(t, DoExitThread(tid));
            && x in t'.threads
            && (Leaves(t, DoExitThread(tid), x) ==> t'.threads[x].state != Blocked)
            && (!Leaves(t, DoExitThread(tid), x) ==> t'.threads[x] == t.threads[x])
  {
    assert ThreadOk(t, x);
    assert tid in t.threads ==> ThreadOk(t, tid);
    if ExitThread(t, tid).1.Some? {
      ExitFacts(t, tid, x);
      hide Inv, ExitThread;
    } else {
      hide Inv;
    }
  }

  lemma ActivateOnBlocked(t: Table, s: Step, x: Tid)
    requires Inv(t) && PoolBits(t.pool) && s.DoActivateMain? && Known(t, x)
    requires t.threads[x].kind == User && t.threads[x].state == Blocked && t.threads[x].resume.Some?
    ensures x in Do(t, s).threads
    ensures Leaves(t, s, x) ==> Do(t, s).threads[x].state != Blocked
    ensures !Leaves(t, s, x) ==> Do(t, s).threads[x] == t.threads[x]
  {
    hide Inv, Summary;
  }

  /** A thread becomes blocked only by blocking itself, in a join or in another wait. */
  lemma BlocksItself(t: Table, s: Step, x: Tid)
    requires Inv(t) && PoolBits(t.pool) && Allowed(t, s) && x in t.threads && t.threads[x].state != Blocked
    requires x in Do(t, s).threads && Do(t, s).threads[x].state == Blocked
    ensures (s.DoBlock? || s.DoJoin?) && s.tid == x
  {
    NextTidUnused(t);
    match s
    case DoSchedule => ScheduleBlocksNobody(t, x);
    case DoPreempt(tid, context) => if IsCall(t, s) { ScheduleBlocksNobody(Yield(t, tid, context).0, x); }
    case DoExitThread(tid) => if ExitThread(t, tid).1.Some? { ExitFacts(t, tid, x); }
    case _ => hide Inv, Enqueue, Without, Summary, ReserveStack, ReleaseStack, Take, Release;
  }

  lemma {:induction false} ScheduleBlocksNobody(t: Table, x: Tid)
    requires x in t.threads && t.threads[x].state != Blocked
    ensures x in Schedule(t).0.threads && Schedule(t).0.threads[x].state != Blocked
    decreases |t.queue|
  {
    if t.queue != [] && !Dispatchable(t, t.queue[0]) { ScheduleBlocksNobody(t.(queue := t.queue[1..]), x); }
  }

  // ----- What a join that returns says -----

  /** Thread `x` is blocked in a join on `w`. */
  predicate JoinsOn(t: Table, x: Tid, w: Tid)
  {
    x in t.threads && t.threads[x].kind == User && t.threads[x].state == Blocked && t.threads[x].waitingFor == Some(w)
  }

  /** One step that makes the joining thread ready: the target has ended exactly when the step is its exit. */
  lemma JoinResumes(t: Table, s: Step, x: Tid, w: Tid)
    requires Inv(t) && PoolBits(t.pool) && Allowed(t, s) && JoinsOn(t, x, w)
    requires x in Do(t, s).threads && Do(t, s).threads[x].state == Ready
    ensures w in t.threads && !Terminal(t.threads[w].state) && w in Do(t, s).threads
    ensures Terminal(Do(t, s).threads[w].state) <==> s == DoExitThread(w)
    ensures s == DoExitThread(w) || (s.DoWake? && s.tid == x) || s.DoActivateMain?
    ensures s == DoExitThread(w) ==> Do(t, s).threads[x].resume.Some? && Do(t, s).threads[x].resume.value.rax == 0
  {
    LeavesIff(t, s, x);
    TargetAlive(t, x, w);
    match s
    case DoExitThread(tid) =>
      assert ExitThread(t, tid).1.Some?;
      ExitWakes(t, tid, x);
    case DoExitProcess(_, _) =>
    case DoWake(_, _) => hide Inv, Summary;
    case DoActivateMain(_, _, _) => hide Inv, Summary;
    case _ => hide Do, Inv;
  }

  lemma TargetAlive(t: Table, x: Tid, w: Tid)
    requires Inv(t) && JoinsOn(t, x, w)
    ensures w in t.threads && w != x && t.threads[w].kind == User && t.threads[w].pid == t.threads[x].pid
    ensures !Terminal(t.threads[w].state)
  {
    ActiveIsLive(t, x);
    assert ThreadOk(t, x) && ThreadOk(t, w);
  }

  /** An exit makes a blocked thread ready only by ending the thread it joins. */
  lemma ExitWakes(t: Table, tid: Tid, x: Tid)
    requires Inv(t) && PoolBits(t.pool) && CanExit(t, tid) && ExitThread(t, tid).1.Some?
    requires x in t.threads && t.threads[x].kind == User && t.threads[x].state == Blocked
    requires x in ExitThread(t, tid).0.threads && ExitThread(t, tid).0.threads[x].state == Ready
    ensures var t' := ExitThread(t, tid).0;
            && t.threads[x].waitingFor == Some(tid) && tid in t'.threads && t'.threads[tid].state == Reaped
            && t'.threads[x].resume.Some? && t'.threads[x].resume.value.rax == 0
  {
    ExitFacts(t, tid, x);
    ExitWakesJoiners(t, tid, x);
  }

  /**
    A join that returns: from when it blocked until it is ready again the thread stays as it is, and its target
    has ended exactly when what made it ready was the target's exit. Otherwise it was woken from outside, or a
    handler diverted it.
   */
  lemma JoinReturnsIff(states: seq<Table>, steps: seq<Step>, i: nat, j: nat, x: Tid, w: Tid)
    requires IsRun(states, steps) && Inv(states[0]) && i < j < |states| && JoinsOn(states[i], x, w)
    requires forall k | i <= k < j :: x in states[k].threads && states[k].threads[x].state == Blocked
    requires x in states[j].threads && states[j].threads[x].state == Ready
    ensures w in states[j].threads && (Terminal(states[j].threads[w].state) <==> steps[j - 1] == DoExitThread(w))
    ensures Terminal(states[j].threads[w].state) ==>
              states[j].threads[x].resume.Some? && states[j].threads[x].resume.value.rax == 0
    ensures !Terminal(states[j].threads[w].state) ==>
              (steps[j - 1].DoWake? && steps[j - 1].tid == x) || steps[j - 1].DoActivateMain?
  {
    StaysInJoin(states, steps, i, j - 1, x, w);
    RunKeepsInv(states, steps, j - 1);
    JoinResumes(states[j - 1], steps[j - 1], x, w);
  }

  lemma {:induction false} StaysInJoin(states: seq<Table>, steps: seq<Step>, i: nat, j: nat, x: Tid, w: Tid)
    requires IsRun(states, steps) && Inv(states[0]) && i <= j < |states| && JoinsOn(states[i], x, w)
    requires forall k | i <= k <= j :: x in states[k].threads && states[k].threads[x].state == Blocked
    ensures JoinsOn(states[j], x, w)
  {
    if i < j {
      StaysInJoin(states, steps, i, j - 1, x, w);
      RunKeepsInv(states, steps, j - 1);
      LeavesIff(states[j - 1], steps[j - 1], x);
      assert states[j] == Do(states[j - 1], steps[j - 1]);
      hide Do, Inv, Allowed;
    }
  }
}
