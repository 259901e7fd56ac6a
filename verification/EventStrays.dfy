/** Threads that left their wait but not the event's queue, and what a signal does when it meets one. */
module EventStrays {
  import opened Base
  import opened SchedModel
  import opened SchedInv
  import opened SchedRuns
  import opened SchedLimits
  import opened SchedWaits
  import opened Events

  /** A queued thread that is not parked becomes blocked only by a join or another wait of its own. */
  lemma BlocksElsewhere(w: World, s: EventStep, y: Tid)
    requires WorldOk(w) && EventAllowed(w, s) && y in w.e.waiters && y !in w.parked && Known(w.t, y)
    requires w.t.threads[y].state != Blocked
    requires y in DoEvent(w, s).t.threads && DoEvent(w, s).t.threads[y].state == Blocked
    ensures s.OnTable? && (s.s.DoBlock? || s.s.DoJoin?) && s.s.tid == y
  {
    match s
    case OnTable(step) =>
      hide Do, Inv, Allowed;
      BlocksItself(w.t, step, y);
    case WaitFor(tid, context) =>
    case SignalOnce =>
      SignalBlocksNobody(w, y);
  }

  lemma SignalBlocksNobody(w: World, y: Tid)
    requires WorldOk(w) && y in w.t.threads && w.t.threads[y].state != Blocked
    ensures y in DoEvent(w, SignalOnce).t.threads && DoEvent(w, SignalOnce).t.threads[y].state != Blocked
  {
    hide DoEvent, Inv, Wake;
    var k := SignalEffect(w);
    if k < |w.e.waiters| { WokenIsReady(w.t, w.e.waiters[k]); }
  }

  /** Somewhere between a state in which the thread is not blocked and one in which it is, it blocks itself. */
  lemma {:induction false} BlockedAgain(ws: seq<World>, steps: seq<EventStep>, a: nat, i: nat, y: Tid) returns (b: nat)
    requires EventRun(ws, steps) && WorldOk(ws[0]) && a <= i < |ws|
    requires forall k | a <= k <= i :: y in ws[k].e.waiters && y !in ws[k].parked && y in ws[k].t.threads
    requires ws[a].t.threads[y].state != Blocked && ws[i].t.threads[y].state == Blocked
    ensures a <= b < i && steps[b].OnTable? && (steps[b].s.DoBlock? || steps[b].s.DoJoin?) && steps[b].s.tid == y
    decreases i
  {
    if ws[i - 1].t.threads[y].state == Blocked {
      b := BlockedAgain(ws, steps, a, i - 1, y);
    } else {
      b := i - 1;
      RunKeepsWorld(ws, steps, b);
      StrayKnown(ws[b], y);
      BlocksElsewhere(ws[b], steps[b], y);
    }
  }

  lemma StrayKnown(w: World, y: Tid)
    requires WorldOk(w) && y in w.e.waiters
    ensures y in w.t.threads && Known(w.t, y) && w.t.threads[y].kind == User
  {
    assert WaiterOk(w.t, y) by { var k :| 0 <= k < |w.e.waiters| && w.e.waiters[k] == y; }
    assert ThreadOk(w.t, y);
  }

  /**
    A stolen signal: when a signal wakes a thread that is not parked while another one is, that thread was
    taken out of its wait before (step `a`) and then blocked itself elsewhere (step `b`). It leaves that other
    wait with return value 0, a thread it joined has not ended, the parked thread stays parked, and nothing
    is latched.
   */
  lemma StolenSignal(ws: seq<World>, steps: seq<EventStep>, i: nat, x: Tid, y: Tid) returns (a: nat, b: nat)
    requires EventRun(ws, steps) && WorldOk(ws[0]) && NoneLeft(ws[0]) && i < |steps| && steps[i] == SignalOnce
    requires x in ws[i].parked && Signal(ws[i].t, ws[i].e).2 == Some(y) && y !in ws[i].parked
    ensures a < b < i && y in ws[a].parked && Known(ws[a].t, y)
    ensures steps[a].OnTable? && Leaves(ws[a].t, steps[a].s, y)
    ensures steps[b].OnTable? && (steps[b].s.DoBlock? || steps[b].s.DoJoin?) && steps[b].s.tid == y
    ensures x in ws[i + 1].parked && !ws[i + 1].e.signaled
    ensures y in ws[i].t.threads && y in ws[i + 1].t.threads && ws[i + 1].t.threads[y].state == Ready
    ensures ws[i + 1].t.threads[y].resume.Some? && ws[i + 1].t.threads[y].resume.value.rax == 0
    ensures var w := ws[i].t.threads[y].waitingFor;
            w.Some? ==> w.value in ws[i + 1].t.threads && !Terminal(ws[i + 1].t.threads[w.value].state)
  {
    RunKeepsWorld(ws, steps, i);
    var k := SignalEffect(ws[i]);
    assert y in ws[i].e.waiters;
    a := LeftBehind(ws, steps, i, y);
    forall l | a <= l <= i ensures y in ws[l].t.threads {
      RunKeepsWorld(ws, steps, l);
      assert l == a ==> y in ws[l].e.waiters;
      StrayKnown(ws[l], y);
    }
    RunKeepsWorld(ws, steps, a);
    ParkedWakeable(ws[a], y);
    LeavesIff(ws[a].t, steps[a].s, y);
    assert ws[a + 1].t == Do(ws[a].t, steps[a].s);
    b := BlockedAgain(ws, steps, a + 1, i, y);
    SignalSteals(ws[i], x, y);
  }

  lemma SignalSteals(w: World, x: Tid, y: Tid)
    requires WorldOk(w) && x in w.parked && Signal(w.t, w.e).2 == Some(y) && y !in w.parked
    ensures var w' := DoEvent(w, SignalOnce);
            && x in w'.parked && !w'.e.signaled
            && y in w.t.threads && y in w'.t.threads && w'.t.threads[y].state == Ready
            && w'.t.threads[y].resume.Some? && w'.t.threads[y].resume.value.rax == 0
            && (w.t.threads[y].waitingFor.Some? ==>
                  var z := w.t.threads[y].waitingFor.value;
                  z in w'.t.threads && !Terminal(w'.t.threads[z].state))
  {
    hide DoEvent;
    hide Inv, Wake;
    var k := SignalEffect(w);
    StrayKnown(w, y);
    WokenIsReady(w.t, y);
    if w.t.threads[y].waitingFor.Some? { TargetAlive(w.t, y, w.t.threads[y].waitingFor.value); }
  }

  // ----- A run in which a signal is stolen -----

  /**
    The three threads of a program: the main one (2) and a worker (3) wait for the event, a handler diverts the
    main thread, which joins the other worker (4); then the event is signalled.
   */
  const STOLEN_STEPS: seq<EventStep> := [
    WaitFor(2, EMPTY_CONTEXT), OnTable(DoSchedule), WaitFor(3, EMPTY_CONTEXT), OnTable(DoActivateMain(2, 15, 7)),
    OnTable(DoSchedule), OnTable(DoYield(4, EMPTY_CONTEXT)), OnTable(DoSchedule), OnTable(DoJoin(2, 4, EMPTY_CONTEXT)),
    OnTable(DoSchedule), SignalOnce]

  /** The table of the three threads. */
  ghost predicate Trio(t: Table, queue: seq<Tid>, s2: State, join: Option<Tid>, s3: State, s4: State)
  {
    && t.threads.Keys == {1, 2, 3, 4} && t.procs.Keys == {0, 2} && t.pool == [] && t.queue == queue
    && t.threads[1].resume.None? && t.procs[2].mainTid == 2 && t.procs[2].kind == User
    && Member(t.threads[2], s2, join) && Member(t.threads[3], s3, None) && Member(t.threads[4], s4, None)
  }

  predicate Member(th: Thread, s: State, join: Option<Tid>)
  {
    && th.pid == 2 && th.kind == User && th.state == s && th.waitingFor == join
    && (s == Ready || s == Blocked ==> th.resume.Some?)
  }

  /** A step that changes one of the three. */
  lemma TrioUpdate(t: Table, x: Tid, th: Thread, queue: seq<Tid>)
    requires x in t.threads && t.threads[x].pid in t.procs
    ensures var t' := Update(t, x, th, queue);
            && t'.threads == t.threads[x := th] && t'.procs.Keys == t.procs.Keys
            && t'.pool == t.pool && t'.queue == queue
            && forall q | q in t.procs ::
                 t'.procs[q].mainTid == t.procs[q].mainTid && t'.procs[q].kind == t.procs[q].kind
  {
    hide Summary;
  }

  lemma DispatchFirst(t: Table, x: Tid, rest: seq<Tid>)
    requires t.queue == [x] + rest && Dispatchable(t, x)
    ensures Schedule(t).0 == Update(t, x, t.threads[x].(resume := None, state := Running), rest)
  {
    assert t.queue[1..] == rest;
  }

  /** The event is not signalled, and these threads are queued and parked. */
  ghost predicate At(w: World, waiters: seq<Tid>, parked: set<Tid>)
  {
    w.e == EventState(false, waiters) && w.parked == parked
  }

  /** The example after `n` of its steps. */
  ghost predicate TrioStage(w: World, n: nat)
  {
    match n
    case 0 => Trio(w.t, [1, 3, 4], Running, None, Ready, Ready) && At(w, [], {}) && w.t.threads[2].sigReturn.None?
    case 1 => Trio(w.t, [1, 3, 4], Blocked, None, Ready, Ready) && At(w, [2], {2}) && w.t.threads[2].sigReturn.None?
    case 2 => Trio(w.t, [4], Blocked, None, Running, Ready) && At(w, [2], {2}) && w.t.threads[2].sigReturn.None?
    case 3 => Trio(w.t, [4], Blocked, None, Blocked, Ready) && At(w, [2, 3], {2, 3}) && w.t.threads[2].sigReturn.None?
    case 4 => Trio(w.t, [4, 2], Ready, None, Blocked, Ready) && At(w, [2, 3], {3})
    case 5 => Trio(w.t, [2], Ready, None, Blocked, Running) && At(w, [2, 3], {3})
    case 6 => Trio(w.t, [2, 4], Ready, None, Blocked, Ready) && At(w, [2, 3], {3})
    case 7 => Trio(w.t, [4], Running, None, Blocked, Ready) && At(w, [2, 3], {3})
    case 8 => Trio(w.t, [4], Blocked, Some(4), Blocked, Ready) && At(w, [2, 3], {3})
    case 9 => Trio(w.t, [], Blocked, Some(4), Blocked, Running) && At(w, [2, 3], {3})
    case _ => Trio(w.t, [2], Ready, None, Blocked, Running) && At(w, [3], {3}) && w.t.threads[2].resume.value.rax == 0
  }

  lemma Stage0(w: World)
    requires TrioStage(w, 0)
    ensures EventAllowed(w, WaitFor(2, EMPTY_CONTEXT)) && TrioStage(DoEvent(w, WaitFor(2, EMPTY_CONTEXT)), 1)
  {
    hide Update;
    TrioUpdate(w.t, 2, w.t.threads[2].(resume := Some(EMPTY_CONTEXT), state := Blocked, waitingFor := None), w.t.queue);
  }

  lemma Stage1(w: World)
    requires TrioStage(w, 1)
    ensures EventAllowed(w, OnTable(DoSchedule)) && TrioStage(DoEvent(w, OnTable(DoSchedule)), 2)
  {
    var t' := w.t.(queue := [3, 4]);
    assert w.t.queue[1..] == [3, 4] && Schedule(w.t) == Schedule(t');
    DispatchFirst(t', 3, [4]);
    hide Update, Schedule;
    TrioUpdate(t', 3, t'.threads[3].(resume := None, state := Running), [4]);
  }

  lemma Stage2(w: World)
    requires TrioStage(w, 2)
    ensures EventAllowed(w, WaitFor(3, EMPTY_CONTEXT)) && TrioStage(DoEvent(w, WaitFor(3, EMPTY_CONTEXT)), 3)
  {
    hide Update;
    TrioUpdate(w.t, 3, w.t.threads[3].(resume := Some(EMPTY_CONTEXT), state := Blocked, waitingFor := None), w.t.queue);
  }

  lemma Stage3(w: World)
    requires TrioStage(w, 3)
    ensures EventAllowed(w, OnTable(DoActivateMain(2, 15, 7))) &&
              TrioStage(DoEvent(w, OnTable(DoActivateMain(2, 15, 7))), 4)
  {
    assert Enqueue([4], 2) == [4, 2];
    hide Update;
    var th := w.t.threads[2];
    var c := th.resume.value;
    var diverted := Some(HandlerContext(c, 15, 7));
    TrioUpdate(w.t, 2, th.(sigReturn := Some(c), resume := diverted, waitingFor := None, state := Ready), [4, 2]);
  }

  lemma Stage4(w: World)
    requires TrioStage(w, 4)
    ensures EventAllowed(w, OnTable(DoSchedule)) && TrioStage(DoEvent(w, OnTable(DoSchedule)), 5)
  {
    DispatchFirst(w.t, 4, [2]);
    hide Update, Schedule;
    TrioUpdate(w.t, 4, w.t.threads[4].(resume := None, state := Running), [2]);
  }

  lemma Stage6(w: World)
    requires TrioStage(w, 6)
    ensures EventAllowed(w, OnTable(DoSchedule)) && TrioStage(DoEvent(w, OnTable(DoSchedule)), 7)
  {
    DispatchFirst(w.t, 2, [4]);
    hide Update, Schedule;
    TrioUpdate(w.t, 2, w.t.threads[2].(resume := None, state := Running), [4]);
  }

  lemma Stage8(w: World)
    requires TrioStage(w, 8)
    ensures EventAllowed(w, OnTable(DoSchedule)) && TrioStage(DoEvent(w, OnTable(DoSchedule)), 9)
  {
    DispatchFirst(w.t, 4, []);
    hide Update, Schedule;
    TrioUpdate(w.t, 4, w.t.threads[4].(resume := None, state := Running), []);
  }

  lemma Stage5(w: World)
    requires TrioStage(w, 5)
    ensures EventAllowed(w, OnTable(DoYield(4, EMPTY_CONTEXT))) &&
              TrioStage(DoEvent(w, OnTable(DoYield(4, EMPTY_CONTEXT))), 6)
  {
    assert Enqueue([2], 4) == [2, 4];
    hide Update;
    TrioUpdate(w.t, 4, w.t.threads[4].(resume := Some(EMPTY_CONTEXT), state := Ready), [2, 4]);
  }

  lemma Stage7(w: World)
    requires TrioStage(w, 7)
    ensures EventAllowed(w, OnTable(DoJoin(2, 4, EMPTY_CONTEXT))) &&
              TrioStage(DoEvent(w, OnTable(DoJoin(2, 4, EMPTY_CONTEXT))), 8)
  {
    hide Update;
    TrioUpdate(w.t, 2, w.t.threads[2].(resume := Some(EMPTY_CONTEXT), state := Blocked, waitingFor := Some(4)),
        w.t.queue);
  }

  lemma Stage9(w: World)
    requires TrioStage(w, 9)
    ensures EventAllowed(w, SignalOnce) && TrioStage(DoEvent(w, SignalOnce), 10)
  {
    var k := SignalEffect(w);
    assert k == 0 && w.e.waiters[1..] == [3];
    hide Update, DoEvent;
    var th := w.t.threads[2];
    TrioUpdate(w.t, 2, th.(resume := Some(th.resume.value.(rax := 0)), state := Ready, waitingFor := None), [2]);
  }

  /** A world run goes on with one more step. */
  lemma ExtendWorlds(ws: seq<World>, steps: seq<EventStep>, s: EventStep) returns (longer: seq<World>)
    requires EventRun(ws, steps) && EventAllowed(ws[|steps|], s) && PoolBits(DoEvent(ws[|steps|], s).t.pool)
    ensures EventRun(longer, steps + [s]) && |longer| == |steps| + 2 && longer[..|steps| + 1] == ws
    ensures longer[|steps| + 1] == DoEvent(ws[|steps|], s)
  {
    longer := ws + [DoEvent(ws[|steps|], s)];
    hide DoEvent, EventAllowed, PoolBits;
  }

  lemma NextTrio(ws: seq<World>, n: nat) returns (longer: seq<World>)
    requires n < 10 && EventRun(ws, STOLEN_STEPS[..n]) && |ws| == n + 1 && TrioStage(ws[n], n)
    ensures EventRun(longer, STOLEN_STEPS[..n + 1]) && |longer| == n + 2 && longer[..n + 1] == ws &&
              TrioStage(longer[n + 1], n + 1)
  {
    hide DoEvent, EventAllowed, EventRun, Trio;
    StageBits(ws[n], n);
    match n {
      case 0 => Stage0(ws[n]);
      case 1 => Stage1(ws[n]);
      case 2 => Stage2(ws[n]);
      case 3 => Stage3(ws[n]);
      case 4 => Stage4(ws[n]);
      case 5 => Stage5(ws[n]);
      case 6 => Stage6(ws[n]);
      case 7 => Stage7(ws[n]);
      case 8 => Stage8(ws[n]);
      case 9 => Stage9(ws[n]);
    }
    StageBits(DoEvent(ws[n], STOLEN_STEPS[n]), n + 1);
    longer := ExtendWorlds(ws, STOLEN_STEPS[..n], STOLEN_STEPS[n]);
    assert STOLEN_STEPS[..n] + [STOLEN_STEPS[n]] == STOLEN_STEPS[..n + 1];
  }

  lemma StageBits(w: World, n: nat)
    requires TrioStage(w, n)
    ensures PoolBits(w.t.pool)
  {
  }

  /** The world of the three threads before anybody waits. */
  function Fresh(): World { World(ThreeThreads(), EventState(false, []), {}) }

  lemma FreshStage()
    ensures TrioStage(Fresh(), 0)
  {
    ThreeThreadsFacts();
    MainUndiverted();
    MainIsFirst();
    hide ThreeThreads;
  }

  lemma MainUndiverted()
    ensures 2 in ThreeThreads().threads && ThreeThreads().threads[2].sigReturn.None?
    ensures 2 in ThreeThreads().procs && ThreeThreads().procs[2].kind == User
  {
    hide Summary;
  }

  lemma FreshOk()
    ensures WorldOk(Fresh()) && NoneLeft(Fresh())
  {
    hide Inv, ThreeThreads;
    var states := StartThree();
    BootInv([]);
    RunKeepsInv(states, CYCLE_STEPS[..3], 3);
    FreshStage();
  }

  /**
    A run from boot in which a signal is stolen: the handler leaves the main thread in the queue before the
    parked worker, and the signal makes its join return 0 while the thread it joins is running.
   */
  lemma StolenRun() returns (states: seq<Table>, ws: seq<World>)
    ensures IsRun(states, CYCLE_STEPS[..3]) && |states| == 4 && states[0] == Boot([]) && states[3] == ThreeThreads()
    ensures EventRun(ws, STOLEN_STEPS) && |ws| == 11 && ws[0] == Fresh() && WorldOk(ws[0]) && NoneLeft(ws[0])
    ensures !NoneLeft(ws[4])
    ensures ws[9].parked == {3} && !ws[9].e.signaled && JoinsOn(ws[9].t, 2, 4)
    ensures ws[10].parked == {3} && !ws[10].e.signaled
    ensures 2 in ws[10].t.threads && ws[10].t.threads[2].state == Ready && ws[10].t.threads[2].resume.Some?
    ensures ws[10].t.threads[2].resume.value.rax == 0
    ensures 4 in ws[10].t.threads && ws[10].t.threads[4].state == Running
  {
    states := StartThree();
    FreshOk();
    FreshStage();
    ws := FirstWorld();
    hide TrioStage, EventRun, WorldOk, NoneLeft, Fresh, ThreeThreads, IsRun, Boot;
    for n := 0 to 9
      invariant EventRun(ws, STOLEN_STEPS[..n]) && |ws| == n + 1 && ws[0] == Fresh() && TrioStage(ws[n], n)
      invariant n >= 4 ==> !NoneLeft(ws[4])
    {
      ws := NextTrio(ws, n);
      if n == 3 { StageFour(ws[4]); }
    }
    StageNine(ws[9]);
    ws := NextTrio(ws, 9);
    StageTen(ws[10]);
    assert STOLEN_STEPS[..10] == STOLEN_STEPS;
  }

  lemma FirstWorld() returns (ws: seq<World>)
    ensures ws == [Fresh()] && EventRun(ws, STOLEN_STEPS[..0])
  {
    ws := [Fresh()];
    FreshStage();
    hide Fresh;
  }

  lemma StageFour(w: World)
    requires TrioStage(w, 4)
    ensures !NoneLeft(w)
  {
    assert w.e.waiters[0] !in w.parked;
  }

  lemma StageNine(w: World)
    requires TrioStage(w, 9)
    ensures w.parked == {3} && !w.e.signaled && JoinsOn(w.t, 2, 4)
  {
  }

  lemma StageTen(w: World)
    requires TrioStage(w, 10)
    ensures w.parked == {3} && !w.e.signaled && 2 in w.t.threads && w.t.threads[2].state == Ready
    ensures w.t.threads[2].resume.Some? && w.t.threads[2].resume.value.rax == 0
    ensures 4 in w.t.threads && w.t.threads[4].state == Running
  {
  }
}
