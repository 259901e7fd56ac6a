/** Where the thread protocol stops: reaping, cycles of joins, and putting a whole process to sleep. */
module SchedLimits {
  import opened Base
  import opened StackPool
  import opened SchedModel
  import opened SchedInv
  import opened SchedSteps
  import opened SchedRuns
  import opened SchedFair

  // ----- A thread is reaped once -----

  lemma {:induction false} ScheduleKeepsIdle(t: Table, x: Tid)
    requires x in t.threads && t.threads[x].state != Ready
    ensures x in Schedule(t).0.threads && Schedule(t).0.threads[x] == t.threads[x]
    decreases |t.queue|
  {
    if t.queue != [] && !Dispatchable(t, t.queue[0]) { ScheduleKeepsIdle(t.(queue := t.queue[1..]), x); }
  }

  /** A reaped thread stays reaped while its process lives. */
  lemma ReapedStays(t: Table, s: Step, x: Tid)
    requires Inv(t) && PoolBits(t.pool) && Allowed(t, s)
    requires x in t.threads && t.threads[x].kind == User && t.threads[x].state == Reaped
    requires x in Do(t, s).threads && Live(Do(t, s), t.threads[x].pid)
    ensures Do(t, s).threads[x].state == Reaped
  {
    NextTidUnused(t);
    assert ThreadOk(t, x);
    RunningNotQueued(t, x);
    match s
    case DoSchedule => ScheduleKeepsIdle(t, x);
    case DoPreempt(tid, context) => ScheduleKeepsIdle(Yield(t, tid, context).0, x);
    case DoExitThread(tid) =>
      if ExitThread(t, tid).1.Some? { ExitFacts(t, tid, x); }
    case DoExitProcess(pid, _) =>
      if pid in t.procs { assert ProcOk(t, pid); }
    case _ => hide Inv, Enqueue, EnqueueAll, Without, Joiners, Summary, ReserveStack, ReleaseStack, Take, Release;
  }

  lemma {:induction false} ReapedThroughRun(states: seq<Table>, steps: seq<Step>, i: nat, j: nat, x: Tid)
    requires IsRun(states, steps) && Inv(states[0]) && i <= j < |states|
    requires x in states[i].threads && states[i].threads[x].kind == User && states[i].threads[x].state == Reaped
    requires forall k | i <= k <= j :: Live(states[k], states[i].threads[x].pid)
    ensures x in states[j].threads && states[j].threads[x].kind == User && states[j].threads[x].state == Reaped
    ensures states[j].threads[x].pid == states[i].threads[x].pid
  {
    if i < j {
      ReapedThroughRun(states, steps, i, j - 1, x);
      RunKeepsInv(states, steps, j - 1);
      KindKept(states[j - 1], steps[j - 1], x);
      assert states[j] == Do(states[j - 1], steps[j - 1]);
      hide Do, Inv;
      ReapedStays(states[j - 1], steps[j - 1], x);
    }
  }

  /** A thread is joined successfully once: after one join of it completes, no later one does. */
  lemma JoinCompletesOnce(states: seq<Table>, steps: seq<Step>, i: nat, j: nat)
    requires IsRun(states, steps) && Inv(states[0]) && i < j < |steps|
    requires steps[i].DoJoin? && steps[j].DoJoin? && steps[i].target == steps[j].target
    requires Join(states[i], steps[i].tid, steps[i].target, steps[i].context).1 == Completed
    requires forall k | i <= k <= j :: Live(states[k], states[i].threads[steps[i].target].pid)
    ensures Join(states[j], steps[j].tid, steps[j].target, steps[j].context).1 != Completed
  {
    var x := steps[i].target;
    RunKeepsInv(states, steps, i);
    assert states[i + 1] == Do(states[i], steps[i]);
    assert states[i + 1].threads[x].state == Reaped && states[i + 1].threads[x].kind == User;
    ReapedThroughRun(states, steps, i + 1, j, x);
  }

  // ----- Cycles of waiting threads -----

  /** `rank` goes down along every edge from a waiting thread to the one it waits for. */
  ghost predicate Ranked(t: Table, rank: Tid -> nat)
  {
    forall x | x in t.threads && t.threads[x].waitingFor.Some? :: rank(t.threads[x].waitingFor.value) < rank(x)
  }

  /** No cycle of threads each waiting for the next. */
  ghost predicate Acyclic(t: Table) { exists rank: Tid -> nat :: Ranked(t, rank) }

  /** The thread reached from `x` by following `n` waits. */
  ghost function Follow(t: Table, x: Tid, n: nat): Option<Tid>
    decreases n
  {
    if n == 0 then Some(x)
    else if x in t.threads && t.threads[x].waitingFor.Some? then Follow(t, t.threads[x].waitingFor.value, n - 1)
    else None
  }

  ghost predicate WaitsThrough(t: Table, x: Tid, y: Tid) { exists n :: Follow(t, x, n) == Some(y) }

  lemma {:induction false} RankAlong(t: Table, rank: Tid -> nat, x: Tid, n: nat)
    requires Ranked(t, rank)
    ensures Follow(t, x, n).Some? ==> rank(Follow(t, x, n).value) <= rank(x)
    decreases n
  {
    if n > 0 && x in t.threads && t.threads[x].waitingFor.Some? {
      RankAlong(t, rank, t.threads[x].waitingFor.value, n - 1);
    }
  }

  /** Along an edge, reaching `y` is the same before and after it, unless the edge starts at `y`. */
  lemma EdgeReaches(t: Table, x: Tid, y: Tid)
    requires x in t.threads && t.threads[x].waitingFor.Some? && x != y
    ensures WaitsThrough(t, x, y) <==> WaitsThrough(t, t.threads[x].waitingFor.value, y)
  {
    var w := t.threads[x].waitingFor.value;
    if n: nat :| Follow(t, x, n) == Some(y) {
      assert n > 0;
      assert Follow(t, w, n - 1) == Some(y);
    }
    if n: nat :| Follow(t, w, n) == Some(y) { assert Follow(t, x, n + 1) == Some(y); }
  }

  /** A blocking join adds one edge, from the caller, which waited for nobody. */
  lemma JoinEdge(t: Table, caller: Tid, target: Tid, context: Context)
    requires Inv(t) && PoolBits(t.pool) && UserTid(t, caller) && Join(t, caller, target, context).1 == JoinBlocked
    ensures var t' := Join(t, caller, target, context).0;
            && caller in t.threads && t.threads[caller].waitingFor.None?
            && t'.threads.Keys == t.threads.Keys && t'.threads[caller].waitingFor == Some(target)
            && forall x | x in t.threads && x != caller :: t'.threads[x] == t.threads[x]
  {
    ActiveIsLive(t, caller);
    hide Inv, Summary;
  }

  /**
    A join that blocks keeps the waiting threads free of cycles if and only if its target does not already
    wait, through any number of others, for the caller. The code looks one wait deep only.
   */
  lemma JoinCycleIff(t: Table, caller: Tid, target: Tid, context: Context)
    requires Inv(t) && PoolBits(t.pool) && UserTid(t, caller) && Join(t, caller, target, context).1 == JoinBlocked
    requires Acyclic(t)
    ensures Acyclic(Join(t, caller, target, context).0) <==> !WaitsThrough(t, target, caller)
  {
    hide Join, Inv;
    JoinEdge(t, caller, target, context);
    var t' := Join(t, caller, target, context).0;
    if WaitsThrough(t, target, caller) {
      var n :| Follow(t, target, n) == Some(caller);
      forall rank: Tid -> nat ensures !Ranked(t', rank) {
        if Ranked(t', rank) {
          assert Ranked(t, rank);
          RankAlong(t, rank, target, n);
        }
      }
    } else {
      var rank: Tid -> nat :| Ranked(t, rank);
      var rank': Tid -> nat := x => rank(x) + if WaitsThrough(t, x, caller) then rank(target) + 1 else 0;
      assert Follow(t, caller, 0) == Some(caller);
      forall x | x in t'.threads && t'.threads[x].waitingFor.Some?
        ensures rank'(t'.threads[x].waitingFor.value) < rank'(x)
      {
        if x != caller { EdgeReaches(t, x, caller); }
      }
      assert Ranked(t', rank');
    }
  }

  /** Steps other than a join that blocks add no wait. */
  lemma NoNewWait(t: Table, s: Step, x: Tid)
    requires Inv(t) && PoolBits(t.pool) && Allowed(t, s) && x in Do(t, s).threads
    requires s.DoJoin? ==> Join(t, s.tid, s.target, s.context).1 != JoinBlocked
    requires Do(t, s).threads[x].waitingFor.Some?
    ensures x in t.threads && t.threads[x].waitingFor == Do(t, s).threads[x].waitingFor
  {
    hide Inv, Enqueue, EnqueueAll, Without, Joiners, Summary, ReserveStack, ReleaseStack, Take, Release;
    match s
    case DoSchedule => ScheduleNoWait(t, x);
    case DoPreempt(tid, context) => if IsCall(t, s) { ScheduleNoWait(Yield(t, tid, context).0, x); }
    case _ =>
  }

  lemma {:induction false} ScheduleNoWait(t: Table, x: Tid)
    requires x in Schedule(t).0.threads
    ensures x in t.threads && t.threads[x].waitingFor == Schedule(t).0.threads[x].waitingFor
    decreases |t.queue|
  {
    if t.queue != [] && !Dispatchable(t, t.queue[0]) { ScheduleNoWait(t.(queue := t.queue[1..]), x); }
  }

  /** The join that closes a cycle. */
  ghost predicate ClosesCycle(t: Table, s: Step)
    requires PoolBits(t.pool)
  {
    s.DoJoin? && Join(t, s.tid, s.target, s.context).1 == JoinBlocked && WaitsThrough(t, s.target, s.tid)
  }

  /** One step: waits stay free of cycles exactly when the step is not a join that closes one. */
  lemma StepAcyclicIff(t: Table, s: Step)
    requires Inv(t) && PoolBits(t.pool) && Allowed(t, s) && Acyclic(t)
    ensures Acyclic(Do(t, s)) <==> !ClosesCycle(t, s)
  {
    if s.DoJoin? && Join(t, s.tid, s.target, s.context).1 == JoinBlocked {
      JoinCycleIff(t, s.tid, s.target, s.context);
    } else {
      var rank: Tid -> nat :| Ranked(t, rank);
      var t' := Do(t, s);
      forall x | x in t'.threads && t'.threads[x].waitingFor.Some?
        ensures rank(t'.threads[x].waitingFor.value) < rank(x)
      {
        NoNewWait(t, s, x);
      }
      assert Ranked(t', rank);
    }
  }

  /** A whole run: no cycle ever forms exactly when no join of the run closes one. */
  lemma {:induction false} RunAcyclicIff(states: seq<Table>, steps: seq<Step>)
    requires IsRun(states, steps) && Inv(states[0]) && Acyclic(states[0])
    ensures (forall i | 0 <= i < |states| :: Acyclic(states[i])) <==>
              (forall i | 0 <= i < |steps| :: !ClosesCycle(states[i], steps[i]))
  {
    if forall i | 0 <= i < |states| :: Acyclic(states[i]) {
      forall i | 0 <= i < |steps| ensures !ClosesCycle(states[i], steps[i]) {
        RunKeepsInv(states, steps, i);
        assert Acyclic(states[i]) && Acyclic(states[i + 1]);
        StepAcyclicIff(states[i], steps[i]);
      }
    }
    if forall i | 0 <= i < |steps| :: !ClosesCycle(states[i], steps[i]) {
      for i := 0 to |steps|
        invariant forall k | 0 <= k <= i :: Acyclic(states[k])
      {
        RunKeepsInv(states, steps, i);
        StepAcyclicIff(states[i], steps[i]);
      }
    }
  }

  /** A process with three threads, the main one running: the state a program reaches by creating two threads. */
  function ThreeThreads(): Table
  {
    CreateThread(CreateThread(Exec(Boot([]), 2, None), 2, 0, 1, 2, 2, 0).0, 2, 0, 2, 3, 3, 0).0
  }

  /** The main thread joins the second, which joins the third, which then joins the main thread. */
  const CYCLE_STEPS: seq<Step> := [
    DoExec(2, None), DoCreateThread(2, 0, 1, 2, 2, 0), DoCreateThread(2, 0, 2, 3, 3, 0),
    DoJoin(2, 3, EMPTY_CONTEXT), DoSchedule, DoJoin(3, 4, EMPTY_CONTEXT), DoSchedule, DoJoin(4, 2, EMPTY_CONTEXT)]

  lemma ThreeThreadsFacts()
    ensures Three(ThreeThreads(), [1, 3, 4], Running, None, Ready, None, Ready, None)
  {
    var t2 := CreateThread(Exec(Boot([]), 2, None), 2, 0, 1, 2, 2, 0).0;
    TwoThreadsFacts();
    hide Boot, Exec, Summary;
    assert t2.threads[2].pid == 2;
    AddThird(t2);
  }

  /** The example before its third thread. */
  ghost predicate Two(t: Table)
  {
    && t.threads.Keys == {1, 2, 3} && t.procs.Keys == {0, 2} && t.pool == [] && t.queue == [1, 3] && t.nextTid == 4
    && t.procs[2].tids == [2, 3] && t.procs[2].kind == User
    && t.threads[1].resume.None?
    && (forall x | x in {2, 3} :: t.threads[x].pid == 2 && t.threads[x].kind == User && t.threads[x].waitingFor.None?)
    && t.threads[2].state == Running && t.threads[3].state == Ready && t.threads[3].resume.Some?
    && t.threads[2].stackStart == Some(FIRST_USER_STACK_TOP - USER_STACK_SIZE)
    && t.threads[3].stackStart == Some(1) && t.threads[3].stackTop == Some(2)
  }

  lemma TwoThreadsFacts()
    ensures Two(CreateThread(Exec(Boot([]), 2, None), 2, 0, 1, 2, 2, 0).0)
  {
    var t1 := Exec(Boot([]), 2, None);
    assert t1.procs[2].tids == [2] && t1.nextTid == 3 && t1.queue == [1];
    hide Summary;
  }

  lemma AddThird(t: Table)
    requires Two(t)
    ensures Three(CreateThread(t, 2, 0, 2, 3, 3, 0).0, [1, 3, 4], Running, None, Ready, None, Ready, None)
  {
    hide Summary;
    assert StackRangeAvailable(t, t.procs[2], 2, 3);
  }

  /** The three threads of the example, and who among them waits for whom. */
  ghost predicate Three(t: Table, queue: seq<Tid>, s2: State, w2: Option<Tid>, s3: State, w3: Option<Tid>, s4: State,
                        w4: Option<Tid>)
  {
    && t.threads.Keys == {1, 2, 3, 4} && t.procs.Keys == {0, 2} && t.pool == [] && t.queue == queue
    && t.threads[1].resume.None?
    && (forall x | x in {2, 3, 4} :: t.threads[x].pid == 2 && t.threads[x].kind == User)
    && (forall x | x in {3, 4} && t.threads[x].state == Ready :: t.threads[x].resume.Some?)
    && t.threads[2].state == s2 && t.threads[2].waitingFor == w2
    && t.threads[3].state == s3 && t.threads[3].waitingFor == w3
    && t.threads[4].state == s4 && t.threads[4].waitingFor == w4
  }

  lemma ThreeJoin2(t: Table)
    requires Three(t, [1, 3, 4], Running, None, Ready, None, Ready, None)
    ensures PoolBits(t.pool) && Allowed(t, CYCLE_STEPS[3]) &&
              Three(Do(t, CYCLE_STEPS[3]), [1, 3, 4], Blocked, Some(3), Ready, None, Ready, None)
  {
    hide Summary;
  }

  lemma ThreeSchedule3(t: Table)
    requires Three(t, [1, 3, 4], Blocked, Some(3), Ready, None, Ready, None)
    ensures PoolBits(t.pool) && Allowed(t, CYCLE_STEPS[4]) &&
              Three(Do(t, CYCLE_STEPS[4]), [4], Blocked, Some(3), Running, None, Ready, None)
  {
    hide Summary;
    var t' := t.(queue := t.queue[1..]);
    assert t.queue[1..] == [3, 4];
    assert Schedule(t) == Schedule(t');
    assert t'.queue[1..] == [4];
  }

  lemma ThreeJoin3(t: Table)
    requires Three(t, [4], Blocked, Some(3), Running, None, Ready, None)
    ensures PoolBits(t.pool) && Allowed(t, CYCLE_STEPS[5]) &&
              Three(Do(t, CYCLE_STEPS[5]), [4], Blocked, Some(3), Blocked, Some(4), Ready, None)
  {
    hide Summary;
  }

  lemma ThreeSchedule4(t: Table)
    requires Three(t, [4], Blocked, Some(3), Blocked, Some(4), Ready, None)
    ensures PoolBits(t.pool) && Allowed(t, CYCLE_STEPS[6]) &&
              Three(Do(t, CYCLE_STEPS[6]), [], Blocked, Some(3), Blocked, Some(4), Running, None)
  {
    hide Summary;
    assert t.queue[1..] == [];
  }

  lemma ThreeJoin4(t: Table)
    requires Three(t, [], Blocked, Some(3), Blocked, Some(4), Running, None)
    ensures Join(t, 4, 2, EMPTY_CONTEXT).1 == JoinBlocked
    ensures PoolBits(t.pool) && Allowed(t, CYCLE_STEPS[7]) &&
              Three(Do(t, CYCLE_STEPS[7]), [], Blocked, Some(3), Blocked, Some(4), Blocked, Some(2))
  {
    hide Summary;
  }

  /** A run goes on with one more step. */
  lemma Extend(states: seq<Table>, steps: seq<Step>, s: Step) returns (longer: seq<Table>)
    requires IsRun(states, steps) && Allowed(states[|steps|], s)
    ensures IsRun(longer, steps + [s]) && |longer| == |steps| + 2 && longer[0] == states[0]
    ensures longer[|steps| + 1] == Do(states[|steps|], s)
  {
    hide Do, Allowed;
    StepKeepsBits(states[|steps|], s);
    longer := states + [Do(states[|steps|], s)];
  }

  lemma SetupFacts()
    ensures var t1 := Exec(Boot([]), 2, None);
            && t1.nextTid == 3 && Live(t1, 2) && t1.pool == [] && Boot([]).pool == [] && 2 !in Boot([]).procs &&
                 Boot([]).nextTid == 2
            && var t2 := CreateThread(t1, 2, 0, 1, 2, 2, 0).0;
               t2.nextTid <= 4 && Live(t2, 2) && t2.pool == []
  {
    var t1 := Exec(Boot([]), 2, None);
    assert t1.procs[2].tids == [2];
    SummaryAlive(CreateThread(t1, 2, 0, 1, 2, 2, 0).0.threads, [2, 3]);
    hide Summary;
  }

  lemma StartThree() returns (states: seq<Table>)
    ensures IsRun(states, CYCLE_STEPS[..3]) && |states| == 4 && states[0] == Boot([]) && states[3] == ThreeThreads()
  {
    SetupFacts();
    hide Boot, Exec, CreateThread;
    states := [Boot([])];
    assert IsRun(states, CYCLE_STEPS[..0]);
    hide IsRun;
    states := NextStep(states, 0);
    states := NextStep(states, 1);
    states := NextStep(states, 2);
  }

  lemma NextStep(states: seq<Table>, n: nat) returns (longer: seq<Table>)
    requires n < 8 && IsRun(states, CYCLE_STEPS[..n]) && |states| == n + 1 && PoolBits(states[n].pool) &&
               Allowed(states[n], CYCLE_STEPS[n])
    ensures IsRun(longer, CYCLE_STEPS[..n + 1]) && |longer| == n + 2 && longer[0] == states[0]
    ensures longer[n + 1] == Do(states[n], CYCLE_STEPS[n])
  {
    longer := Extend(states, CYCLE_STEPS[..n], CYCLE_STEPS[n]);
    assert CYCLE_STEPS[..n] + [CYCLE_STEPS[n]] == CYCLE_STEPS[..n + 1];
  }

  /** The example after `n` of its steps. */
  ghost predicate Stage(states: seq<Table>, n: nat)
    requires 3 <= n <= 8
  {
    && IsRun(states, CYCLE_STEPS[..n]) && |states| == n + 1 && states[0] == Boot([])
    && match n
       case 3 => Three(states[n], [1, 3, 4], Running, None, Ready, None, Ready, None)
       case 4 => Three(states[n], [1, 3, 4], Blocked, Some(3), Ready, None, Ready, None)
       case 5 => Three(states[n], [4], Blocked, Some(3), Running, None, Ready, None)
       case 6 => Three(states[n], [4], Blocked, Some(3), Blocked, Some(4), Ready, None)
       case 7 => Three(states[n], [], Blocked, Some(3), Blocked, Some(4), Running, None)
       case _ => Three(states[n], [], Blocked, Some(3), Blocked, Some(4), Blocked, Some(2))
  }

  lemma FirstStage() returns (states: seq<Table>)
    ensures Stage(states, 3)
  {
    hide Boot, IsRun, Three, ThreeThreads;
    states := StartThree();
    ThreeThreadsFacts();
  }

  lemma NextStage(states: seq<Table>, n: nat) returns (longer: seq<Table>)
    requires 3 <= n < 8 && Stage(states, n)
    ensures Stage(longer, n + 1)
  {
    hide Boot, Do, Allowed, IsRun, Three, PoolBits;
    match n {
      case 3 => ThreeJoin2(states[n]);
      case 4 => ThreeSchedule3(states[n]);
      case 5 => ThreeJoin3(states[n]);
      case 6 => ThreeSchedule4(states[n]);
      case 7 => ThreeJoin4(states[n]);
    }
    longer := NextStep(states, n);
  }

  /** A run from boot in which three threads end up waiting for each other in a ring, all joins accepted. */
  lemma ThreeWayDeadlock() returns (states: seq<Table>)
    ensures Stage(states, 8) && !Acyclic(states[8])
  {
    hide Stage, Acyclic;
    states := FirstStage();
    for n := 3 to 8
      invariant Stage(states, n)
    {
      states := NextStage(states, n);
    }
    ThreeIsRing(states);
  }

  lemma ThreeIsRing(states: seq<Table>)
    requires Stage(states, 8)
    ensures |states| == 9 && !Acyclic(states[8])
  {
    hide IsRun;
    forall rank: Tid -> nat ensures !Ranked(states[8], rank) {}
  }

  // ----- Putting a whole process to sleep -----

  /** remove_from_ready_queue, set_state(Blocked) and a saved context for the main thread. */
  function Suspend(t: Table, pid: Pid, context: Context): Table
    requires pid in t.procs
  {
    var p := t.procs[pid];
    t.(queue := Without(t.queue, set x | x in p.tids),
       procs := t.procs[pid := p.(state := Blocked)],
       threads := if p.mainTid in t.threads
                  then t.threads[p.mainTid := t.threads[p.mainTid].(resume := Some(context), state := Blocked)]
                  else t.threads)
  }

  /** mark_waiting: the parent sleeps until its child ends. */
  function MarkWaiting(t: Table, pid: Pid, child: Pid, context: Context): (Table, bool)
  {
    if pid !in t.procs then (t, false)
    else
      var t' := Suspend(t, pid, context);
      (t'.(procs := t'.procs[pid := t'.procs[pid].(waitingFor := Some(child), sleepingUntil := None)]), true)
  }

  /** mark_sleeping: the queue is purged before the state is looked at. */
  function MarkSleeping(t: Table, pid: Pid, wakeTick: nat, context: Context): (Table, bool)
  {
    if pid !in t.procs then (t, false)
    else if t.procs[pid].state != Running then (t.(queue := Without(t.queue, set x | x in t.procs[pid].tids)), false)
    else
      var t' := Suspend(t, pid, context);
      (t'.(procs := t'.procs[pid := t'.procs[pid].(waitingFor := None, sleepingUntil := Some(wakeTick))]), true)
  }

  /** No thread of the process but the main one is ready or running. */
  predicate OnlyMainActive(t: Table, pid: Pid)
    requires pid in t.procs
  {
    forall k | 0 <= k < |t.procs[pid].tids| && t.procs[pid].tids[k] != t.procs[pid].mainTid &&
        t.procs[pid].tids[k] in t.threads ::
      var s := t.threads[t.procs[pid].tids[k]].state;
      s != Ready && s != Running
  }

  lemma SuspendThread(t: Table, pid: Pid, context: Context, x: Tid)
    requires Inv(t) && Live(t, pid) && t.procs[pid].kind == User && OnlyMainActive(t, pid) && x in t.threads
    ensures x in Suspend(t, pid, context).threads && ThreadOk(Suspend(t, pid, context), x)
  {
    var t' := Suspend(t, pid, context);
    var p := t.procs[pid];
    assert ProcOk(t, pid) && ThreadOk(t, x);
    var gone := set y | y in p.tids;
    WithoutFacts(t.queue, gone);
    assert forall q :: Live(t', q) <==> Live(t, q);
    hide Inv, Without, Summary;
    assert x in gone ==> t.threads[x].pid == pid;
    if t.threads[x].kind == User {
      assert UserThreadOk(t, x);
      assert Live(t, t.threads[x].pid) ==> WaitOk(t', x);
    }
  }

  lemma SuspendKeeps(t: Table, pid: Pid, context: Context)
    requires Inv(t) && Live(t, pid) && t.procs[pid].kind == User && OnlyMainActive(t, pid)
    ensures Inv(Suspend(t, pid, context))
  {
    hide ThreadOk, ProcOk, Summary, OnlyMainActive;
    var t' := Suspend(t, pid, context);
    WithoutFacts(t.queue, set y | y in t.procs[pid].tids);
    forall x | x in t'.threads ensures ThreadOk(t', x) { SuspendThread(t, pid, context, x); }
    forall q | q in t'.procs ensures ProcOk(t', q) { SuspendProc(t, pid, context, q); }
    forall k | 0 <= k < |t'.queue| ensures t'.queue[k] in t'.threads { assert t'.queue[k] in t'.queue; }
  }

  lemma SuspendProc(t: Table, pid: Pid, context: Context, q: Pid)
    requires Inv(t) && Live(t, pid) && t.procs[pid].kind == User && OnlyMainActive(t, pid) && q in t.procs
    ensures ProcOk(Suspend(t, pid, context), q)
  {
    var t' := Suspend(t, pid, context);
    var p := t.procs[pid];
    assert ProcOk(t, pid) && ProcOk(t, q);
    if q == pid {
      var k :| 0 <= k < |p.tids| && p.tids[k] == p.mainTid;
      assert Has(t'.threads, p.tids, Blocked);
    } else {
      SummaryFrame(t.threads, t'.threads, t.procs[q].tids);
    }
  }

  /** A ready or running sibling breaks the table. */
  lemma SuspendBreaks(t: Table, t': Table, pid: Pid, context: Context)
    requires Inv(t) && Live(t, pid) && t.procs[pid].kind == User && !OnlyMainActive(t, pid)
    requires t'.threads == Suspend(t, pid, context).threads && t'.queue == Suspend(t, pid, context).queue
    requires pid in t'.procs && t'.procs[pid].state == Blocked && t'.procs[pid].tids == t.procs[pid].tids &&
               t'.procs[pid].kind == User
    ensures !Inv(t')
  {
    var p := t.procs[pid];
    var k :| 0 <= k < |p.tids| && p.tids[k] != p.mainTid && p.tids[k] in t.threads &&
             (t.threads[p.tids[k]].state == Ready || t.threads[p.tids[k]].state == Running);
    var x := p.tids[k];
    assert ProcOk(t, pid) && ThreadOk(t, x);
    WithoutFacts(t.queue, set y | y in p.tids);
    if Inv(t') {
      assert ThreadOk(t', x) && ProcOk(t', pid);
      assert t'.threads[x].state == Running;
      assert Has(t'.threads, p.tids, Running);
    }
  }

  /** Waiting for a child keeps the table consistent exactly when only the main thread is ready or running. */
  lemma WaitingIff(t: Table, pid: Pid, child: Pid, context: Context)
    requires Inv(t) && Live(t, pid) && t.procs[pid].kind == User
    ensures Inv(MarkWaiting(t, pid, child, context).0) <==> OnlyMainActive(t, pid)
  {
    var t' := MarkWaiting(t, pid, child, context).0;
    if OnlyMainActive(t, pid) {
      SuspendKeeps(t, pid, context);
      var t1 := Suspend(t, pid, context);
      ProcFieldsFree(t1, pid, t1.procs[pid].(waitingFor := Some(child), sleepingUntil := None));
    } else {
      SuspendBreaks(t, t', pid, context);
    }
  }

  /** What a refused sleep leaves behind: the threads of the process are no longer queued. */
  lemma PurgeIff(t: Table, pid: Pid)
    requires Inv(t) && Live(t, pid) && t.procs[pid].kind == User
    ensures var t' := t.(queue := Without(t.queue, set x | x in t.procs[pid].tids));
            Inv(t') <==> forall x | x in t.threads && t.threads[x].pid == pid :: t.threads[x].state != Ready
  {
    var gone := set x | x in t.procs[pid].tids;
    var t' := t.(queue := Without(t.queue, gone));
    WithoutFacts(t.queue, gone);
    assert ProcOk(t, pid);
    forall x | x in t.threads
      ensures ThreadOk(t, x) && (x in gone <==> t.threads[x].pid == pid)
    {
      assert ThreadOk(t, x);
    }
    if forall x | x in t.threads && t.threads[x].pid == pid :: t.threads[x].state != Ready {
      assert forall q :: Live(t', q) <==> Live(t, q);
      forall x | x in t'.threads ensures ThreadOk(t', x) {
        assert ThreadOk(t, x);
        if t.threads[x].kind == User { assert UserThreadOk(t, x); assert WaitOk(t, x) ==> WaitOk(t', x); }
      }
      forall q | q in t'.procs ensures ProcOk(t', q) { assert ProcOk(t, q); }
      forall k | 0 <= k < |t'.queue| ensures t'.queue[k] in t'.threads { assert t'.queue[k] in t'.queue; }
    } else {
      var x :| x in t.threads && t.threads[x].pid == pid && t.threads[x].state == Ready;
      assert !ThreadOk(t', x);
    }
  }

  /**
    Sleeping keeps the table consistent exactly when, of the threads of the process, none is ready and none
    but the main one is running.
   */
  lemma SleepingIff(t: Table, pid: Pid, wakeTick: nat, context: Context)
    requires Inv(t) && Live(t, pid) && t.procs[pid].kind == User
    ensures Inv(MarkSleeping(t, pid, wakeTick, context).0) <==>
              forall x | x in t.threads && t.threads[x].pid == pid ::
                t.threads[x].state != Ready && (t.threads[x].state == Running ==> x == t.procs[pid].mainTid)
  {
    var t' := MarkSleeping(t, pid, wakeTick, context).0;
    var p := t.procs[pid];
    assert ProcOk(t, pid);
    forall x | x in t.threads ensures t.threads[x].pid == pid ==> x in p.tids { assert ThreadOk(t, x); }
    if p.state != Running {
      PurgeIff(t, pid);
      forall x | x in t.threads && t.threads[x].pid == pid ensures t.threads[x].state != Running {
        assert x in p.tids;
      }
    } else if OnlyMainActive(t, pid) {
      SuspendKeeps(t, pid, context);
      var t1 := Suspend(t, pid, context);
      ProcFieldsFree(t1, pid, t1.procs[pid].(waitingFor := None, sleepingUntil := Some(wakeTick)));
      assert Has(t.threads, p.tids, Running);
    } else {
      SuspendBreaks(t, t', pid, context);
    }
  }

  /**
    The main thread of the three sleeps, or waits for a child: the two others are still marked ready, and no longer
    queued.
   */
  lemma SleepLosesSiblings(wakeTick: nat, child: Pid, context: Context)
    ensures Inv(ThreeThreads())
    ensures var t' := MarkSleeping(ThreeThreads(), 2, wakeTick, context).0;
            3 in t'.threads && t'.threads[3].state == Ready && 3 !in t'.queue
    ensures var t' := MarkWaiting(ThreeThreads(), 2, child, context).0;
            3 in t'.threads && t'.threads[3].state == Ready && 3 !in t'.queue && !Inv(t')
  {
    hide ThreeThreads;
    var t := ThreeThreads();
    var states := StartThree();
    BootInv([]);
    RunKeepsInv(states, CYCLE_STEPS[..3], 3);
    ThreeThreadsFacts();
    assert ThreadOk(t, 3) && ThreadOk(t, 2) && ProcOk(t, 2);
    MainIsFirst();
    SuspendedIsLost(t, 2, wakeTick, child, context, 3);
    LostBreaks(MarkWaiting(t, 2, child, context).0, 3);
  }

  lemma LostBreaks(t: Table, x: Tid)
    requires Lost(t, x) && t.threads[x].kind == User
    ensures !Inv(t)
  {
    assert !ThreadOk(t, x);
  }

  lemma MainIsFirst()
    ensures 2 in ThreeThreads().procs && ThreeThreads().procs[2].mainTid == 2
  {
    hide Summary;
  }

  /** Thread `x`, not a main thread, is ready but not queued. */
  ghost predicate Lost(t: Table, x: Tid)
  {
    && x in t.threads && x < t.nextTid && t.threads[x].pid in t.procs
    && x != t.procs[t.threads[x].pid].mainTid
    && (forall pid | pid in t.procs && pid != t.threads[x].pid :: x !in t.procs[pid].tids && x != t.procs[pid].mainTid)
    && t.threads[x].state == Ready && x !in t.queue
  }

  /** Every ready sibling of a process put to sleep or made to wait is lost. */
  lemma SuspendedIsLost(t: Table, pid: Pid, wakeTick: nat, child: Pid, context: Context, x: Tid)
    requires Inv(t) && Live(t, pid) && x in t.threads && t.threads[x].pid == pid && t.threads[x].state == Ready
    requires x != t.procs[pid].mainTid
    ensures Lost(MarkSleeping(t, pid, wakeTick, context).0, x) && Lost(MarkWaiting(t, pid, child, context).0, x)
  {
    assert ThreadOk(t, x) && ProcOk(t, pid);
    forall q | q in t.procs && q != pid
      ensures x !in t.procs[q].tids && x != t.procs[q].mainTid
    {
      assert ProcOk(t, q);
    }
    WithoutFacts(t.queue, set y | y in t.procs[pid].tids);
    hide Inv, Without, Summary;
  }

  lemma LostStep(t: Table, s: Step, x: Tid)
    requires PoolBits(t.pool) && Allowed(t, s) && !Ends(t, s, x) && Lost(t, x)
    ensures Lost(Do(t, s), x) && Dispatched(t, s) != Some(x)
  {
    hide Do;
    LostNotQueued(t, s, x);
    StepKeepsLists(t, s);
    LostNotDispatched(t, s, x);
  }

  /**
    A lost thread stays lost: through any run it is never dispatched, until it or its process ends.
   */
  lemma {:induction false} LostStaysLost(states: seq<Table>, steps: seq<Step>, i: nat, j: nat, x: Tid)
    requires IsRun(states, steps) && i <= j < |states| && Lost(states[i], x)
    requires forall k | i <= k < j :: !Ends(states[k], steps[k], x)
    ensures Lost(states[j], x)
    ensures forall k | i <= k < j :: Dispatched(states[k], steps[k]) != Some(x)
  {
    if i < j {
      LostStaysLost(states, steps, i, j - 1, x);
      hide Do, Allowed, Lost, Ends, Dispatched;
      LostStep(states[j - 1], steps[j - 1], x);
    }
  }

  lemma LostNotDispatched(t: Table, s: Step, x: Tid)
    requires PoolBits(t.pool) && Lost(t, x)
    ensures Dispatched(t, s) != Some(x)
  {
    match s
    case DoSchedule => ScheduleSkips(t, x);
    case DoPreempt(tid, context) => if IsCall(t, s) { ScheduleSkips(Yield(t, tid, context).0, x); }
    case _ =>
  }

  /** Processes keep their main threads and their lists, but for a thread that the step creates. */
  ghost predicate ListsKept(t: Table, t': Table)
  {
    && t.nextTid <= t'.nextTid && t.procs.Keys <= t'.procs.Keys
    && (forall q | q in t.procs ::
          t'.procs[q].mainTid == t.procs[q].mainTid && (t'.procs[q].tids == t.procs[q].tids ||
              t'.procs[q].tids == t.procs[q].tids + [t.nextTid]))
    && (forall q | q in t'.procs && q !in t.procs ::
          t'.procs[q].mainTid == t.nextTid && t'.procs[q].tids == [t.nextTid])
  }

  lemma StepKeepsLists(t: Table, s: Step)
    requires PoolBits(t.pool) && Allowed(t, s)
    ensures ListsKept(t, Do(t, s))
  {
    match s
    case DoSchedule => ScheduleFrame(t);
    case DoPreempt(tid, context) =>
      YieldLists(t, tid, context);
      ScheduleFrame(Yield(t, tid, context).0);
    case DoYield(tid, context) => YieldLists(t, tid, context);
    case DoBlock(_, _) => UpdateLists(t, s);
    case DoWake(_, _) => UpdateLists(t, s);
    case DoJoin(_, _, _) => UpdateLists(t, s);
    case DoActivateMain(_, _, _) => UpdateLists(t, s);
    case DoActivateRunning(_, _, _, _, _) => UpdateLists(t, s);
    case DoRestore(_, _) => UpdateLists(t, s);
    case _ => hide Do; OtherLists(t, s);
  }

  lemma OtherLists(t: Table, s: Step)
    requires PoolBits(t.pool) && Allowed(t, s)
    requires s.DoCreateThread? || s.DoCreateManaged? || s.DoExitThread? || s.DoExitProcess? || s.DoExec? ||
               s.DoReleaseSpace?
    ensures ListsKept(t, Do(t, s))
  {
    hide Summary, Enqueue, EnqueueAll, Without, Joiners, ReserveStack, ReleaseStack, Take, Release;
  }

  lemma YieldLists(t: Table, tid: Tid, context: Context)
    ensures ListsKept(t, Yield(t, tid, context).0) && Yield(t, tid, context).0.nextTid == t.nextTid
    ensures Yield(t, tid, context).0.procs.Keys == t.procs.Keys
    ensures forall q | q in t.procs :: Yield(t, tid, context).0.procs[q].tids == t.procs[q].tids
  {
    hide Summary, Enqueue;
  }

  lemma UpdateLists(t: Table, s: Step)
    requires PoolBits(t.pool)
    requires s.DoBlock? || s.DoWake? || s.DoJoin? || s.DoActivateMain? || s.DoActivateRunning? || s.DoRestore?
    ensures ListsKept(t, Do(t, s))
  {
    hide Summary, Enqueue, ReleaseStack;
  }

  lemma {:induction false} ScheduleFrame(t: Table)
    ensures var t' := Schedule(t).0;
            && t'.nextTid == t.nextTid && t'.procs.Keys == t.procs.Keys
            && (forall q | q in t.procs ::
                  t'.procs[q].mainTid == t.procs[q].mainTid && t'.procs[q].tids == t.procs[q].tids)
    decreases |t.queue|
  {
    if t.queue != [] && !Dispatchable(t, t.queue[0]) { ScheduleFrame(t.(queue := t.queue[1..])); }
  }

  lemma LostNotQueued(t: Table, s: Step, x: Tid)
    requires PoolBits(t.pool) && !Ends(t, s, x) && Lost(t, x)
    ensures x in Do(t, s).threads && Do(t, s).threads[x].state == Ready && x !in Do(t, s).queue
    ensures Do(t, s).threads[x].pid == t.threads[x].pid
  {
    hide Summary, ReserveStack, ReleaseStack, Take, Release;
    match s
    case DoSchedule => ScheduleSkips(t, x);
    case DoPreempt(tid, context) => ScheduleSkips(Yield(t, tid, context).0, x);
    case DoExitThread(tid) =>
      if ExitThread(t, tid).1.Some? {
        var tids := t.procs[t.threads[tid].pid].tids;
        JoinersFacts(t.threads, tids, tid);
        WithoutFacts(t.queue, {tid});
        EnqueueAllFacts(Without(t.queue, {tid}), Joiners(t.threads, tids, tid));
        hide Joiners, Without, EnqueueAll;
      }
    case DoExitProcess(pid, _) =>
      if pid in t.procs { WithoutFacts(t.queue, set y | y in t.procs[pid].tids); }
    case DoCreateThread(_, _, _, _, _, _) =>
    case DoCreateManaged(_, _, _) =>
    case DoExec(_, _) =>
    case DoReleaseSpace(_) =>
    case _ => LostThroughUpdate(t, s, x);
  }

  lemma LostThroughUpdate(t: Table, s: Step, x: Tid)
    requires PoolBits(t.pool)
    requires s.DoYield? || s.DoBlock? || s.DoWake? || s.DoJoin? || s.DoActivateMain? || s.DoActivateRunning? ||
               s.DoRestore?
    requires x in t.threads && t.threads[x].pid in t.procs && x != t.procs[t.threads[x].pid].mainTid
    requires t.threads[x].state == Ready && x !in t.queue
    ensures x in Do(t, s).threads && Do(t, s).threads[x].state == Ready && x !in Do(t, s).queue
    ensures Do(t, s).threads[x].pid == t.threads[x].pid
  {
    hide Summary, ReleaseStack;
  }

  lemma {:induction false} ScheduleSkips(t: Table, x: Tid)
    requires x in t.threads && x !in t.queue
    ensures x in Schedule(t).0.threads && Schedule(t).0.threads[x] == t.threads[x] && x !in Schedule(t).0.queue
    ensures Schedule(t).1.Some? ==> Schedule(t).1.value.tid != x
    decreases |t.queue|
  {
    if t.queue != [] && !Dispatchable(t, t.queue[0]) { ScheduleSkips(t.(queue := t.queue[1..]), x); }
  }
}
