/** The registers a thread goes on with: those it gave up the processor with, but for what it waited for. */
module SchedContexts {
  import opened Base
  import opened StackPool
  import opened SchedModel
  import opened SchedInv
  import opened SchedSteps
  import opened SchedRuns
  import opened SchedFair
  import opened SchedSignals
  import opened SchedLimits
  import opened SchedWaits

  // ----- One dispatch -----

  /** A dispatch names a ready thread, its process, and the context saved for it. */
  lemma {:induction false} DispatchIsOf(t: Table)
    ensures var (t', d) := Schedule(t);
            d.Some? ==>
              && d.value.tid in t.queue && d.value.tid in t.threads && t.threads[d.value.tid].state == Ready
              && d.value.pid == t.threads[d.value.tid].pid
              && Some(d.value.context) == t.threads[d.value.tid].resume
              && t'.threads == t.threads[d.value.tid := t.threads[d.value.tid].(state := Running, resume := None)]
    ensures Schedule(t).1.None? ==> Schedule(t).0.threads == t.threads
    decreases |t.queue|
  {
    if t.queue != [] && !Dispatchable(t, t.queue[0]) { DispatchIsOf(t.(queue := t.queue[1..])); }
  }

  /** Step `s` dispatches thread `x`. */
  predicate Dispatches(t: Table, s: Step, x: Tid)
    requires PoolBits(t.pool)
  {
    DispatchOf(t, s).Some? && DispatchOf(t, s).value.tid == x
  }

  /** From `i` to `j` thread `x` is not dispatched, not ended and not diverted to a handler. */
  ghost predicate Waits(states: seq<Table>, steps: seq<Step>, x: Tid, i: nat, j: nat)
    requires IsRun(states, steps) && j <= |steps|
  {
    forall k | i <= k < j ::
      !Ends(states[k], steps[k], x) && !Diverts(states[k], steps[k], x) && !Dispatches(states[k], steps[k], x)
  }

  /** The first dispatch of a thread that has been ready since state `i`. */
  ghost predicate FirstDispatch(states: seq<Table>, steps: seq<Step>, x: Tid, i: nat, d: nat)
    requires IsRun(states, steps) && d < |steps|
  {
    && i <= d && Waits(states, steps, x, i, d)
    && Dispatches(states[d], steps[d], x) && !Ends(states[d], steps[d], x) && !Diverts(states[d], steps[d], x)
  }

  /** A ready thread with a saved context. */
  predicate ReadyWith(t: Table, x: Tid, pid: Pid, context: Context)
  {
    && x in t.threads && t.threads[x].kind == User && t.threads[x].state == Ready
    && t.threads[x].pid == pid && t.threads[x].resume == Some(context)
  }

  /** A ready thread is dispatched, whenever that is, with the context saved for it. */
  lemma ReadyIsDispatchedWith(states: seq<Table>, steps: seq<Step>, x: Tid, pid: Pid, context: Context, i: nat, d: nat)
    requires IsRun(states, steps) && Inv(states[0]) && d < |steps| && FirstDispatch(states, steps, x, i, d)
    requires ReadyWith(states[i], x, pid, context)
    ensures DispatchOf(states[d], steps[d]) == Some(Dispatch(pid, x, context))
  {
    hide Inv, Do, DispatchOf, Allowed, Ends, Diverts;
    ReadyThroughRun(states, steps, x, i, d);
    RunKeepsInv(states, steps, d);
    ReadyContextKept(states[d], steps[d], x);
  }

  // ----- Yield and preemption -----

  /** Running thread `x` gives the processor up with `context`, ready to go on. */
  predicate StepsAside(t: Table, s: Step, x: Tid, context: Context)
  {
    && x in t.threads && t.threads[x].state == Running
    && (s == DoYield(x, context) || (s == DoPreempt(x, context) && HasReadyExcept(t, x)))
  }

  lemma AsideReady(t: Table, s: Step, x: Tid, context: Context)
    requires Inv(t) && PoolBits(t.pool) && Allowed(t, s) && StepsAside(t, s, x, context)
    ensures Known(t, x) && t.threads[x].kind == User
    ensures ReadyWith(Yield(t, x, context).0, x, t.threads[x].pid, context) && Inv(Yield(t, x, context).0)
    ensures PoolBits(Yield(t, x, context).0.pool)
    ensures s.DoYield? ==> Do(t, s) == Yield(t, x, context).0
    ensures s.DoPreempt? ==> Preempt(t, x, context) == Schedule(Yield(t, x, context).0)
  {
    assert ThreadOk(t, x);
    YieldKeeps(t, x, context);
    hide Inv, Summary, Enqueue;
  }

  /**
    A thread that yields or is preempted goes on with exactly the registers it gave up with, in its own
    process, however many steps later it is dispatched next.
   */
  lemma AsideResumes(states: seq<Table>, steps: seq<Step>, x: Tid, context: Context, a: nat, d: nat)
    requires IsRun(states, steps) && Inv(states[0]) && a < d < |steps|
    requires StepsAside(states[a], steps[a], x, context) && !Dispatches(states[a], steps[a], x)
    requires FirstDispatch(states, steps, x, a + 1, d)
    ensures DispatchOf(states[d], steps[d]) == Some(Dispatch(states[a].threads[x].pid, x, context))
  {
    hide Inv, Do, DispatchOf, Allowed, StepsAside, FirstDispatch;
    RunKeepsInv(states, steps, a);
    AsideAfter(states[a], steps[a], x, context);
    assert states[a + 1] == Do(states[a], steps[a]);
    ReadyIsDispatchedWith(states, steps, x, states[a].threads[x].pid, context, a + 1, d);
  }

  lemma AsideAfter(t: Table, s: Step, x: Tid, context: Context)
    requires Inv(t) && PoolBits(t.pool) && Allowed(t, s) && StepsAside(t, s, x, context) && !Dispatches(t, s, x)
    ensures x in t.threads && ReadyWith(Do(t, s), x, t.threads[x].pid, context)
  {
    hide Inv, Yield, Schedule, Allowed;
    AsideReady(t, s, x, context);
    if s.DoPreempt? { ScheduleContext(Yield(t, x, context).0, x); }
  }

  /** A preemption that finds no other user thread to run puts the thread straight back, as it was. */
  lemma PreemptedAtOnce(t: Table, x: Tid, context: Context)
    requires Inv(t) && PoolBits(t.pool) && Allowed(t, DoPreempt(x, context))
    requires StepsAside(t, DoPreempt(x, context), x, context) && Dispatches(t, DoPreempt(x, context), x)
    ensures DispatchOf(t, DoPreempt(x, context)) == Some(Dispatch(t.threads[x].pid, x, context))
  {
    hide Inv, Yield, Schedule, Allowed;
    AsideReady(t, DoPreempt(x, context), x, context);
    ScheduleContext(Yield(t, x, context).0, x);
  }

  // ----- Waits -----

  /** Running thread `x` gives the processor up with `context` and blocks, in a join or in another wait. */
  predicate StartsWait(t: Table, s: Step, x: Tid, context: Context)
    requires PoolBits(t.pool)
  {
    && x in t.threads && t.threads[x].state == Running
    && (s == DoBlock(x, context)
        || (s.DoJoin? && s.tid == x && s.context == context && Join(t, x, s.target, context).1 == JoinBlocked))
  }

  predicate BlockedWith(t: Table, x: Tid, pid: Pid, context: Context, target: Option<Tid>)
  {
    && x in t.threads && t.threads[x].kind == User && t.threads[x].state == Blocked
    && t.threads[x].pid == pid && t.threads[x].resume == Some(context) && t.threads[x].waitingFor == target
  }

  function TargetOf(s: Step): Option<Tid> { if s.DoJoin? then Some(s.target) else None }

  lemma WaitBlocks(t: Table, s: Step, x: Tid, context: Context)
    requires Inv(t) && PoolBits(t.pool) && Allowed(t, s) && StartsWait(t, s, x, context)
    ensures x in t.threads && BlockedWith(Do(t, s), x, t.threads[x].pid, context, TargetOf(s))
  {
    assert ThreadOk(t, x);
    hide Inv, Summary;
  }

  lemma {:induction false} BlockedThroughRun(states: seq<Table>, steps: seq<Step>, x: Tid, i: nat, j: nat)
    requires IsRun(states, steps) && Inv(states[0]) && i <= j < |states|
    requires x in states[i].threads && states[i].threads[x].kind == User
    requires forall k | i <= k <= j :: x in states[k].threads && states[k].threads[x].state == Blocked
    ensures states[j].threads[x] == states[i].threads[x]
    decreases j
  {
    if i < j {
      BlockedThroughRun(states, steps, x, i, j - 1);
      RunKeepsInv(states, steps, j - 1);
      LeavesIff(states[j - 1], steps[j - 1], x);
      assert states[j] == Do(states[j - 1], steps[j - 1]);
      hide Do, Inv, Allowed;
    }
  }

  /** Thread `x` blocks at step `a` with `context` and is still in that wait at step `w`. */
  ghost predicate InWait(states: seq<Table>, steps: seq<Step>, x: Tid, context: Context, a: nat, w: nat)
    requires IsRun(states, steps) && w < |steps|
  {
    && a < w && StartsWait(states[a], steps[a], x, context)
    && forall k | a < k <= w :: x in states[k].threads && states[k].threads[x].state == Blocked
  }

  lemma StillWaits(states: seq<Table>, steps: seq<Step>, x: Tid, context: Context, a: nat, w: nat)
    requires IsRun(states, steps) && Inv(states[0]) && w < |steps| && InWait(states, steps, x, context, a, w)
    ensures a < w && x in states[a].threads
    ensures BlockedWith(states[w], x, states[a].threads[x].pid, context, TargetOf(steps[a]))
  {
    hide Inv, Do, Allowed, StartsWait;
    RunKeepsInv(states, steps, a);
    WaitBlocks(states[a], steps[a], x, context);
    assert states[a + 1] == Do(states[a], steps[a]);
    BlockedThroughRun(states, steps, x, a + 1, w);
  }

  /** A woken thread goes on with the registers it blocked with, and the value it was woken with in rax. */
  lemma WakeResumes(states: seq<Table>, steps: seq<Step>, x: Tid, context: Context, value: nat, a: nat, w: nat, d: nat)
    requires IsRun(states, steps) && Inv(states[0]) && w < d < |steps|
    requires InWait(states, steps, x, context, a, w) && steps[w] == DoWake(x, value)
    requires FirstDispatch(states, steps, x, w + 1, d)
    ensures x in states[a].threads
    ensures DispatchOf(states[d], steps[d]) ==
            Some(Dispatch(states[a].threads[x].pid, x, context.(rax := value)))
  {
    hide Inv, Do, DispatchOf, Allowed, InWait, FirstDispatch;
    StillWaits(states, steps, x, context, a, w);
    RunKeepsInv(states, steps, w);
    WakeReady(states[w], x, value, context);
    assert states[w + 1] == Do(states[w], steps[w]);
    ReadyIsDispatchedWith(states, steps, x, states[a].threads[x].pid, context.(rax := value), w + 1, d);
  }

  lemma WakeReady(t: Table, x: Tid, value: nat, context: Context)
    requires Inv(t) && PoolBits(t.pool) && x in t.threads && t.threads[x].kind == User
    requires t.threads[x].state == Blocked && t.threads[x].resume == Some(context)
    ensures ReadyWith(Do(t, DoWake(x, value)), x, t.threads[x].pid, context.(rax := value))
  {
    assert ThreadOk(t, x);
    hide Inv, Summary, Enqueue;
  }

  /** A thread whose join is over goes on with the registers it joined with, and 0 in rax. */
  lemma JoinedResumes(states: seq<Table>, steps: seq<Step>, x: Tid, context: Context, a: nat, e: nat, d: nat)
    requires IsRun(states, steps) && Inv(states[0]) && e < d < |steps|
    requires InWait(states, steps, x, context, a, e) && steps[a].DoJoin? && steps[e] == DoExitThread(steps[a].target)
    requires x in states[e + 1].threads && states[e + 1].threads[x].state == Ready
    requires FirstDispatch(states, steps, x, e + 1, d)
    ensures x in states[a].threads
    ensures DispatchOf(states[d], steps[d]) == Some(Dispatch(states[a].threads[x].pid, x, context.(rax := 0)))
  {
    hide Inv, Do, DispatchOf, Allowed, InWait, FirstDispatch;
    StillWaits(states, steps, x, context, a, e);
    RunKeepsInv(states, steps, e);
    assert states[e + 1] == Do(states[e], steps[e]);
    ExitReady(states[e], steps[a].target, x, context);
    ReadyIsDispatchedWith(states, steps, x, states[a].threads[x].pid, context.(rax := 0), e + 1, d);
  }

  lemma ExitReady(t: Table, target: Tid, x: Tid, context: Context)
    requires Inv(t) && PoolBits(t.pool) && Allowed(t, DoExitThread(target)) && x in t.threads
    requires BlockedWith(t, x, t.threads[x].pid, context, Some(target))
    requires x in Do(t, DoExitThread(target)).threads && Do(t, DoExitThread(target)).threads[x].state == Ready
    ensures ReadyWith(Do(t, DoExitThread(target)), x, t.threads[x].pid, context.(rax := 0))
  {
    TargetAlive(t, x, target);
    if ExitThread(t, target).1.Some? {
      ExitWakesJoiners(t, target, x);
      KindKept(t, DoExitThread(target), x);
    }
    hide Inv;
  }

  /** The step that takes a thread out of its wait, when nothing ends or diverts it. */
  lemma LeavesHow(t: Table, s: Step, x: Tid, context: Context, target: Option<Tid>)
    requires Inv(t) && PoolBits(t.pool) && Allowed(t, s) && x in t.threads
    requires BlockedWith(t, x, t.threads[x].pid, context, target)
    requires !Ends(t, s, x) && !Diverts(t, s, x)
    requires !(x in Do(t, s).threads && Do(t, s).threads[x].state == Blocked)
    ensures (s.DoWake? && s.tid == x) || (target.Some? && s == DoExitThread(target.value))
    ensures s.DoExitThread? ==> x in Do(t, s).threads && Do(t, s).threads[x].state == Ready
  {
    LeavesIff(t, s, x);
    RunningNotQueued(t, x);
    match s
    case DoExitThread(tid) =>
      assert ThreadOk(t, x) && (tid in t.threads ==> ThreadOk(t, tid));
      TargetAlive(t, x, tid);
      ExitWakesJoiners(t, tid, x);
    case DoActivateMain(_, _, _) => hide Inv, Do, Allowed;
    case _ => hide Inv, Do, Allowed;
  }

  /** A wait that is over by step `d` was left at some step before it. */
  lemma {:induction false} WaitLeftAt(states: seq<Table>, steps: seq<Step>, x: Tid, context: Context, a: nat, d: nat)
    returns (w: nat)
    requires IsRun(states, steps) && Inv(states[0]) && a < d < |steps| && StartsWait(states[a], steps[a], x, context)
    requires !(x in states[d].threads && states[d].threads[x].state == Blocked)
    ensures a < w < d && InWait(states, steps, x, context, a, w)
    ensures !(x in states[w + 1].threads && states[w + 1].threads[x].state == Blocked)
  {
    hide Inv, Do, Allowed, StartsWait;
    RunKeepsInv(states, steps, a);
    WaitBlocks(states[a], steps[a], x, context);
    assert states[a + 1] == Do(states[a], steps[a]);
    w := a + 1;
    while x in states[w + 1].threads && states[w + 1].threads[x].state == Blocked
      invariant a < w < d && forall k | a < k <= w :: x in states[k].threads && states[k].threads[x].state == Blocked
      decreases d - w
    {
      w := w + 1;
    }
  }

  /**
    The next dispatch after any wait: the thread was woken, with the value it was woken with in rax, or the thread
    it joined has exited, with 0 in rax; every other register is as it was given up.
   */
  lemma WaitResumes(states: seq<Table>, steps: seq<Step>, x: Tid, context: Context, a: nat, d: nat) returns (w: nat)
    requires IsRun(states, steps) && Inv(states[0]) && a < d < |steps| && StartsWait(states[a], steps[a], x, context)
    requires FirstDispatch(states, steps, x, a + 1, d)
    ensures a < w < d && x in states[a].threads
    ensures (steps[w].DoWake? && steps[w].tid == x) || (steps[a].DoJoin? && steps[w] == DoExitThread(steps[a].target))
    ensures DispatchOf(states[d], steps[d]) ==
            Some(Dispatch(states[a].threads[x].pid, x,
                          context.(rax := if steps[w].DoWake? then steps[w].value else 0)))
  {
    hide Inv, Do, DispatchOf, Allowed, StartsWait, InWait;
    RunKeepsInv(states, steps, d);
    DispatchedWasReady(states[d], steps[d], x);
    w := WaitLeftAt(states, steps, x, context, a, d);
    StillWaits(states, steps, x, context, a, w);
    RunKeepsInv(states, steps, w);
    assert states[w + 1] == Do(states[w], steps[w]);
    LeavesHow(states[w], steps[w], x, context, TargetOf(steps[a]));
    assert FirstDispatch(states, steps, x, w + 1, d);
    hide FirstDispatch;
    if steps[w].DoWake? {
      WakeResumes(states, steps, x, context, steps[w].value, a, w, d);
    } else {
      JoinedResumes(states, steps, x, context, a, w, d);
    }
  }

  /** A thread a step dispatches was not blocked. */
  lemma DispatchedWasReady(t: Table, s: Step, x: Tid)
    requires PoolBits(t.pool) && Dispatches(t, s, x)
    ensures !(x in t.threads && t.threads[x].state == Blocked)
  {
    match s
    case DoSchedule => DispatchIsOf(t);
    case DoPreempt(tid, context) => DispatchIsOf(Yield(t, tid, context).0);
  }

  // ----- Handlers -----

  /** The registers a handler starts with: its address, the signal, 0 in rax, and the rest as interrupted. */
  ghost predicate EntersHandler(context: Context, original: Context, signal: nat, handler: nat)
  {
    && context.rip == handler && context.rdi == signal && context.rax == 0
    && context.rsp == original.rsp && context.rflags == original.rflags && context.rbp == original.rbp
    && context.rbx == original.rbx && context.rcx == original.rcx && context.rdx == original.rdx
    && context.rsi == original.rsi && context.r8 == original.r8 && context.r9 == original.r9
    && context.r10 == original.r10 && context.r11 == original.r11 && context.r12 == original.r12
    && context.r13 == original.r13 && context.r14 == original.r14 && context.r15 == original.r15
  }

  /** A thread that is to enter a handler is not diverted again before it does. */
  lemma {:induction false} HandlerWaits(states: seq<Table>, steps: seq<Step>, x: Tid, i: nat, j: nat)
    requires IsRun(states, steps) && Inv(states[0]) && i <= j < |states|
    requires x in states[i].threads && states[i].threads[x].state == Ready && states[i].threads[x].kind == User
    requires states[i].threads[x].sigReturn.Some?
    requires forall k | i <= k < j :: !Ends(states[k], steps[k], x) && !Dispatches(states[k], steps[k], x)
    ensures x in states[j].threads && states[j].threads[x] == states[i].threads[x]
    decreases j
  {
    hide Inv, Do, DispatchOf, Allowed, Ends, Diverts;
    if i < j {
      HandlerWaits(states, steps, x, i, j - 1);
      RunKeepsInv(states, steps, j - 1);
      NeverTwice(states[j - 1], steps[j - 1], x);
      assert states[j] == Do(states[j - 1], steps[j - 1]);
      ReadyContextKept(states[j - 1], steps[j - 1], x);
    }
  }

  lemma NeverTwice(t: Table, s: Step, x: Tid)
    requires x in t.threads && t.threads[x].sigReturn.Some?
    ensures !Diverts(t, s, x)
  {
    DivertsIff(t, s, x);
    forall context ensures !Activates(t, s, x, context) { NotTwice(t, s, x, context); }
  }

  /**
    When a signal diverts a thread, the next thing it runs is the handler, with the signal in rdi, 0 in rax
    and every other register, the stack pointer and the flags too, as it was interrupted.
   */
  lemma HandlerIsNext(states: seq<Table>, steps: seq<Step>, x: Tid, original: Context, a: nat, d: nat)
    requires IsRun(states, steps) && Inv(states[0]) && a < d < |steps|
    requires Activates(states[a], steps[a], x, original)
    requires forall k | a < k <= d :: !Ends(states[k], steps[k], x)
    requires forall k | a < k < d :: !Dispatches(states[k], steps[k], x)
    requires Dispatches(states[d], steps[d], x)
    ensures x in states[a].threads && DispatchOf(states[d], steps[d]).value.pid == states[a].threads[x].pid
    ensures EntersHandler(DispatchOf(states[d], steps[d]).value.context, original, steps[a].signal, steps[a].handler)
  {
    hide Inv, Do, DispatchOf, Allowed, Ends, Activates, EntersHandler;
    RunKeepsInv(states, steps, a);
    DivertedTo(states[a], steps[a], x, original);
    assert states[a + 1] == Do(states[a], steps[a]);
    HandlerWaits(states, steps, x, a + 1, d);
    RunKeepsInv(states, steps, d);
    NeverTwice(states[d], steps[d], x);
    ReadyContextKept(states[d], steps[d], x);
  }

  lemma DivertedTo(t: Table, s: Step, x: Tid, original: Context)
    requires Inv(t) && PoolBits(t.pool) && Allowed(t, s) && Activates(t, s, x, original)
    ensures x in t.threads && x in Do(t, s).threads
    ensures var th := Do(t, s).threads[x];
            && th.state == Ready && th.kind == User && th.pid == t.threads[x].pid && th.sigReturn.Some?
            && th.resume.Some? && EntersHandler(th.resume.value, original, s.signal, s.handler)
  {
    assert x in t.threads;
    assert ThreadOk(t, x);
    hide Inv, Summary, Enqueue;
  }
}
