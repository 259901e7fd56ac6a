/** Signal handlers: the interrupted context is kept until sigreturn and then resumed exactly. */
module SchedSignals {
  import opened Base
  import opened StackPool
  import opened SchedModel
  import opened SchedInv
  import opened SchedSteps
  import opened SchedRuns
  import opened SchedFair

  lemma {:induction false} ScheduleSigKept(t: Table, x: Tid)
    requires x in t.threads
    ensures x in Schedule(t).0.threads && Schedule(t).0.threads[x].sigReturn == t.threads[x].sigReturn
    decreases |t.queue|
  {
    if t.queue != [] && !Dispatchable(t, t.queue[0]) { ScheduleSigKept(t.(queue := t.queue[1..]), x); }
  }

  /** Nothing but sigreturn touches the saved context; in particular a second activation is refused. */
  lemma SavedContextKept(t: Table, s: Step, x: Tid)
    requires Inv(t) && PoolBits(t.pool) && Allowed(t, s) && x in t.threads && t.threads[x].sigReturn.Some?
    requires !(s.DoRestore? && s.tid == x)
    ensures x in Do(t, s).threads && Do(t, s).threads[x].sigReturn == t.threads[x].sigReturn
  {
    hide Inv, Summary, Without, Enqueue, EnqueueAll, Joiners, ReserveStack, Take;
    match s
    case DoSchedule => ScheduleSigKept(t, x);
    case DoPreempt(tid, context) => ScheduleSigKept(Yield(t, tid, context).0, x);
    case DoCreateThread(_, _, _, _, _, _) => NextTidUnused(t);
    case DoCreateManaged(_, _, _) => NextTidUnused(t);
    case DoExec(_, _) => NextTidUnused(t);
    case DoExitThread(tid) =>
    case _ =>
  }

  /** A handler is not started inside a handler. */
  lemma NestedActivationRefused(t: Table, pid: Pid, tid: Tid, signal: nat, handler: nat, context: Context)
    requires tid in t.threads && t.threads[tid].sigReturn.Some?
    ensures ActivateRunning(t, pid, tid, signal, handler, context) == (t, false)
    ensures pid in t.procs && t.procs[pid].mainTid == tid ==> ActivateMain(t, pid, signal, handler) == (t, false)
  {
  }

  /** Step `s` starts a handler on thread `x`, interrupting it at `context`. */
  predicate Activates(t: Table, s: Step, x: Tid, context: Context)
  {
    || (s.DoActivateRunning? && s.tid == x && s.context == context
        && ActivateRunning(t, s.pid, s.tid, s.signal, s.handler, s.context).1)
    || (s.DoActivateMain? && s.pid in t.procs && t.procs[s.pid].mainTid == x && x in t.threads
        && t.threads[x].resume == Some(context) && ActivateMain(t, s.pid, s.signal, s.handler).1)
  }

  /** Step `s` starts a handler on thread `x`. */
  predicate Diverts(t: Table, s: Step, x: Tid)
  {
    || (s.DoActivateRunning? && s.tid == x && ActivateRunning(t, s.pid, s.tid, s.signal, s.handler, s.context).1)
    || (s.DoActivateMain? && s.pid in t.procs && t.procs[s.pid].mainTid == x
        && ActivateMain(t, s.pid, s.signal, s.handler).1)
  }

  lemma DivertsIff(t: Table, s: Step, x: Tid)
    ensures Diverts(t, s, x) <==> exists context :: Activates(t, s, x, context)
  {
    if Diverts(t, s, x) {
      var context := if s.DoActivateRunning? then s.context else t.threads[x].resume.value;
      assert Activates(t, s, x, context);
    }
  }

  /** Activation saves the interrupted context and makes the handler the next thing the thread runs. */
  lemma ActivationSaves(t: Table, s: Step, x: Tid, context: Context)
    requires PoolBits(t.pool) && Activates(t, s, x, context)
    ensures x in Do(t, s).threads
    ensures var th := Do(t, s).threads[x];
            th.sigReturn == Some(context) && th.state == Ready &&
                th.resume == Some(HandlerContext(context, s.signal, s.handler))
  {
  }

  /** From when a handler starts until its sigreturn, no other handler starts on the thread. */
  lemma OneHandlerAtATime(states: seq<Table>, steps: seq<Step>, x: Tid, context: Context, later: Context, a: nat,
                          b: nat)
    requires IsRun(states, steps) && Inv(states[0]) && a < b < |steps|
    requires Activates(states[a], steps[a], x, context)
    requires forall k | a < k < b :: !(steps[k].DoRestore? && steps[k].tid == x)
    ensures !Activates(states[b], steps[b], x, later)
    ensures x in states[b].threads && states[b].threads[x].sigReturn == Some(context)
  {
    hide Inv, Do, Allowed;
    assert states[a + 1] == Do(states[a], steps[a]);
    ActivationSaves(states[a], steps[a], x, context);
    SavedThroughRun(states, steps, x, a + 1, b);
    NotTwice(states[b], steps[b], x, later);
  }

  lemma NotTwice(t: Table, s: Step, x: Tid, context: Context)
    requires x in t.threads && t.threads[x].sigReturn.Some?
    ensures !Activates(t, s, x, context)
  {
    if s.DoActivateRunning? && s.tid == x { NestedActivationRefused(t, s.pid, x, s.signal, s.handler, s.context); }
    if s.DoActivateMain? { NestedActivationRefused(t, s.pid, x, s.signal, s.handler, context); }
  }

  lemma {:induction false} SavedThroughRun(states: seq<Table>, steps: seq<Step>, x: Tid, i: nat, j: nat)
    requires IsRun(states, steps) && Inv(states[0]) && i <= j < |states|
    requires x in states[i].threads && states[i].threads[x].sigReturn.Some?
    requires forall k | i <= k < j :: !(steps[k].DoRestore? && steps[k].tid == x)
    ensures x in states[j].threads && states[j].threads[x].sigReturn == states[i].threads[x].sigReturn
    decreases j
  {
    if i < j {
      SavedThroughRun(states, steps, x, i, j - 1);
      RunKeepsInv(states, steps, j - 1);
      SavedContextKept(states[j - 1], steps[j - 1], x);
    }
  }

  /** The dispatch a step makes, with its context. */
  function DispatchOf(t: Table, s: Step): Option<Dispatch>
    requires PoolBits(t.pool)
  {
    match s
    case DoSchedule => Schedule(t).1
    case DoPreempt(tid, context) => Preempt(t, tid, context).1
    case _ => None
  }

  lemma {:induction false} ScheduleContext(t: Table, x: Tid)
    requires Inv(t) && x in t.threads && t.threads[x].state == Ready && t.threads[x].kind == User
    ensures var (t', d) := Schedule(t);
            && (d.Some? && d.value.tid == x ==>
                  d.value.pid == t.threads[x].pid && Some(d.value.context) == t.threads[x].resume)
            && (!(d.Some? && d.value.tid == x) ==> x in t'.threads && t'.threads[x] == t.threads[x])
    decreases |t.queue|
  {
    if t.queue != [] && !Dispatchable(t, t.queue[0]) {
      QueuedUserDispatchable(t, t.queue[0]);
      DropKernelEntry(t);
      ScheduleContext(t.(queue := t.queue[1..]), x);
    }
  }

  /** A ready thread keeps its context until it is dispatched with it, diverted to a handler, or ended. */
  lemma ReadyContextKept(t: Table, s: Step, x: Tid)
    requires Inv(t) && PoolBits(t.pool) && Allowed(t, s) && !Ends(t, s, x)
    requires x in t.threads && t.threads[x].state == Ready && t.threads[x].kind == User
    requires !Diverts(t, s, x)
    ensures DispatchOf(t, s).Some? && DispatchOf(t, s).value.tid == x ==>
              && DispatchOf(t, s).value.pid == t.threads[x].pid
              && Some(DispatchOf(t, s).value.context) == t.threads[x].resume
    ensures !(DispatchOf(t, s).Some? && DispatchOf(t, s).value.tid == x) ==>
              x in Do(t, s).threads && Do(t, s).threads[x] == t.threads[x]
  {
    hide Summary, Without, Enqueue, EnqueueAll, Joiners, ReserveStack, ReleaseStack, Take, Release;
    assert ThreadOk(t, x);
    match s
    case DoSchedule => ScheduleContext(t, x);
    case DoPreempt(tid, context) =>
      YieldKeeps(t, tid, context);
      ScheduleContext(Yield(t, tid, context).0, x);
    case DoYield(_, _) => ReadyThroughUpdate(t, s, x);
    case DoBlock(_, _) => ReadyThroughUpdate(t, s, x);
    case DoWake(_, _) => ReadyThroughUpdate(t, s, x);
    case DoJoin(_, _, _) => ReadyThroughUpdate(t, s, x);
    case DoActivateRunning(_, _, _, _, _) => ReadyThroughUpdate(t, s, x);
    case DoRestore(_, _) => ReadyThroughUpdate(t, s, x);
    case DoReleaseSpace(_) =>
    case DoCreateThread(_, _, _, _, _, _) => NextTidUnused(t);
    case DoCreateManaged(_, _, _) => NextTidUnused(t);
    case DoExec(_, _) => NextTidUnused(t);
    case DoExitThread(tid) =>
      if ExitThread(t, tid).1.Some? { JoinersFacts(t.threads, t.procs[t.threads[tid].pid].tids, tid); }
    case DoExitProcess(pid, status) => if pid in t.procs { assert ProcOk(t, pid); }
    case DoActivateMain(pid, _, _) => if pid in t.procs { assert ProcOk(t, pid); }
  }

  /** Steps that change one running or blocked thread. */
  lemma ReadyThroughUpdate(t: Table, s: Step, x: Tid)
    requires PoolBits(t.pool) && x in t.threads && t.threads[x].state == Ready
    requires s.DoYield? || s.DoBlock? || s.DoWake? || s.DoJoin? || s.DoActivateRunning? || s.DoRestore?
    ensures x in Do(t, s).threads && Do(t, s).threads[x] == t.threads[x]
  {
    hide Summary, Enqueue, ReleaseStack;
  }

  lemma {:induction false} ReadyThroughRun(states: seq<Table>, steps: seq<Step>, x: Tid, i: nat, j: nat)
    requires IsRun(states, steps) && Inv(states[0]) && i <= j < |states|
    requires x in states[i].threads && states[i].threads[x].state == Ready && states[i].threads[x].kind == User
    requires forall k | i <= k < j :: !Ends(states[k], steps[k], x)
    requires forall k | i <= k < j :: !Diverts(states[k], steps[k], x)
    requires forall k | i <= k < j ::
               !(DispatchOf(states[k], steps[k]).Some? && DispatchOf(states[k], steps[k]).value.tid == x)
    ensures x in states[j].threads && states[j].threads[x] == states[i].threads[x]
    decreases j
  {
    if i < j {
      ReadyThroughRun(states, steps, x, i, j - 1);
      RunKeepsInv(states, steps, j - 1);
      ReadyContextKept(states[j - 1], steps[j - 1], x);
    }
  }

  /**
    Signal round trip: thread `x` is interrupted at step `a`, returns from the handler at step `r`, and is
    next dispatched at step `d`.  Whatever steps come in between, it resumes exactly where it was interrupted.
   */
  lemma SignalRoundTrip(states: seq<Table>, steps: seq<Step>, x: Tid, context: Context, a: nat, r: nat, d: nat)
    requires IsRun(states, steps) && Inv(states[0]) && a < r < d < |steps|
    requires Activates(states[a], steps[a], x, context)
    requires forall k | a < k < r :: !(steps[k].DoRestore? && steps[k].tid == x)
    requires steps[r].DoRestore? && steps[r].tid == x && Restore(states[r], steps[r].pid, x).1
    requires forall k | r < k <= d :: !Ends(states[k], steps[k], x)
    requires forall k | r < k <= d :: !Diverts(states[k], steps[k], x)
    requires forall k | r < k < d ::
               !(DispatchOf(states[k], steps[k]).Some? && DispatchOf(states[k], steps[k]).value.tid == x)
    requires DispatchOf(states[d], steps[d]).Some? && DispatchOf(states[d], steps[d]).value.tid == x
    ensures DispatchOf(states[d], steps[d]).value.context == context
  {
    hide Inv, Do, DispatchOf, Allowed;
    assert states[a + 1] == Do(states[a], steps[a]);
    ActivationSaves(states[a], steps[a], x, context);
    SavedThroughRun(states, steps, x, a + 1, r);
    assert states[r + 1] == Do(states[r], steps[r]);
    RestoreResumes(states[r], steps[r].pid, x);
    RestoreIs(states[r], steps[r]);
    RestoreUser(states[r], steps[r]);
    ReadyThroughRun(states, steps, x, r + 1, d);
    RunKeepsInv(states, steps, d);
    ReadyContextKept(states[d], steps[d], x);
  }

  lemma RestoreUser(t: Table, s: Step)
    requires s.DoRestore? && Allowed(t, s) && s.tid in t.threads
    ensures t.threads[s.tid].kind == User
  {
  }

  lemma RestoreIs(t: Table, s: Step)
    requires s.DoRestore? && PoolBits(t.pool)
    ensures Do(t, s) == Restore(t, s.pid, s.tid).0
  {
  }

  /** sigreturn makes the saved context the one the thread resumes with, and forgets it. */
  lemma RestoreResumes(t: Table, pid: Pid, x: Tid)
    requires Restore(t, pid, x).1
    ensures x in t.threads && x in Restore(t, pid, x).0.threads
    ensures var th := Restore(t, pid, x).0.threads[x];
            && th.resume == t.threads[x].sigReturn && th.sigReturn.None? && th.state == Ready
            && th.kind == t.threads[x].kind && th.pid == t.threads[x].pid
            && x in Restore(t, pid, x).0.queue
  {
  }
}
