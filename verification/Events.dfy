/** Auto-reset events: a queue of waiting threads in a fixed array, and its protocol with the process table. */
module Events {
  import opened Base
  import opened SchedModel
  import opened SchedInv
  import opened SchedSteps
  import opened SchedRuns
  import opened SchedFair
  import opened SchedWaits

  const MAX_EVENT_WAITERS: nat := 16

  // ----- The waiter array -----

  lemma DistinctWithout<T>(s: seq<T>, p: nat)
    requires Distinct(s) && p < |s|
    ensures Distinct(s[..p] + s[p + 1..])
  {
  }

  /** The entries once those behind `p` and before `index` have moved forward by one. */
  ghost function Shifted(was: seq<Option<Tid>>, p: nat, index: nat): (s: seq<Option<Tid>>)
    requires p < index <= |was|
    ensures |s| == |was|
  {
    was[..p] + was[p + 1..index] + was[index - 1..]
  }

  lemma NotShifted(was: seq<Option<Tid>>, p: nat)
    requires p < |was|
    ensures Shifted(was, p, p + 1) == was
  {
  }

  lemma ShiftOne(was: seq<Option<Tid>>, p: nat, index: nat)
    requires p < index < |was|
    ensures Shifted(was, p, index)[index] == was[index]
    ensures Shifted(was, p, index)[index - 1 := was[index]] == Shifted(was, p, index + 1)
  {
  }

  /** The first `n` entries hold waiters, all different, and no other does. */
  ghost predicate Filled(entries: seq<Option<Tid>>, n: nat)
  {
    n <= |entries| && (forall k | 0 <= k < |entries| :: entries[k].Some? <==> k < n) && Distinct(entries[..n])
  }

  lemma FilledBound(entries: seq<Option<Tid>>, n: nat)
    requires Filled(entries, n)
    ensures n <= |entries|
  {
  }

  ghost function Values(entries: seq<Option<Tid>>, n: nat): (s: seq<Tid>)
    requires Filled(entries, n)
    ensures |s| == n && forall k | 0 <= k < n :: s[k] == entries[k].value
  {
    seq(n, (k: nat) requires k < n && Filled(entries, n) => entries[k].value)
  }

  /** The entries after a gap is closed and the last place cleared. */
  lemma ClosedGap(was: seq<Option<Tid>>, now: seq<Option<Tid>>, p: nat, n: nat)
    requires Filled(was, n + 1) && p <= n && now == Shifted(was, p, n + 1)[n := None]
    ensures Filled(now, n) && Values(now, n) == Values(was, n + 1)[..p] + Values(was, n + 1)[p + 1..]
  {
    DistinctWithout(was[..n + 1], p);
    assert was[..n + 1][..p] + was[..n + 1][p + 1..] == was[..p] + was[p + 1..n + 1];
    assert now[..n] == was[..p] + was[p + 1..n + 1];
    ClosedEntries(was, now, p, n);
  }

  lemma ClosedEntries(was: seq<Option<Tid>>, now: seq<Option<Tid>>, p: nat, n: nat)
    requires Filled(was, n + 1) && p <= n && now == Shifted(was, p, n + 1)[n := None]
    ensures |now| == |was| && forall k | 0 <= k < |now| ::
              now[k] == if k < p then was[k] else if k < n then was[k + 1] else None
  {
  }

  class Event {
    const id: nat
    const ownerPid: Pid
    var signaled: bool
    const waiters: array<Option<Tid>>
    var waiterCount: nat

    /** The first `waiterCount` entries are the waiters, all different; the rest are empty. */
    ghost predicate Valid()
      reads this, waiters
    {
      waiters.Length == MAX_EVENT_WAITERS && Filled(waiters[..], waiterCount)
    }

    ghost function Waiting(): (s: seq<Tid>)
      reads this, waiters
      requires Valid()
      ensures |s| == waiterCount
    {
      Values(waiters[..], waiterCount)
    }

    constructor (id: nat, ownerPid: Pid)
      ensures Valid() && fresh(waiters) && this.id == id && this.ownerPid == ownerPid && !signaled && Waiting() == []
    {
      this.id, this.ownerPid := id, ownerPid;
      signaled := false;
      waiters := new Option<Tid>[MAX_EVENT_WAITERS](_ => None);
      waiterCount := 0;
    }

    method Enqueue(tid: Tid) returns (ok: bool)
      requires Valid()
      modifies this`waiterCount, waiters
      ensures Valid() && signaled == old(signaled)
      ensures ok <==> |old(Waiting())| < MAX_EVENT_WAITERS && tid !in old(Waiting())
      ensures Waiting() == if ok then old(Waiting()) + [tid] else old(Waiting())
    {
      if waiterCount == MAX_EVENT_WAITERS { return false; }
      for k := 0 to waiterCount
        invariant forall j | 0 <= j < k :: waiters[j] != Some(tid)
        invariant forall j | 0 <= j < k :: Waiting()[j] != tid
      {
        if waiters[k] == Some(tid) {
          assert Waiting()[k] == tid;
          return false;
        }
      }
      waiters[waiterCount] := Some(tid);
      waiterCount := waiterCount + 1;
      return true;
    }

    /** Close the gap at `position` by moving every later waiter forward. */
    method RemoveAt(position: nat)
      requires Valid() && position < waiterCount
      modifies this`waiterCount, waiters
      ensures Valid() && signaled == old(signaled)
      ensures Waiting() == old(Waiting())[..position] + old(Waiting())[position + 1..]
    {
      hide Filled, Values, Shifted;
      ghost var was := waiters[..];
      FilledBound(was, waiterCount);
      NotShifted(was, position);
      for index := position + 1 to waiterCount
        invariant waiterCount == old(waiterCount) && |was| == waiters.Length
        invariant waiters[..] == Shifted(was, position, index)
      {
        ShiftOne(was, position, index);
        ghost var now := waiters[..];
        waiters[index - 1] := waiters[index];
        assert waiters[..] == now[index - 1 := was[index]];
      }
      waiterCount := waiterCount - 1;
      ghost var shifted := waiters[..];
      waiters[waiterCount] := None;
      assert waiters[..] == shifted[waiterCount := None];
      ClosedGap(was, waiters[..], position, waiterCount);
    }

    method Dequeue() returns (tid: Option<Tid>)
      requires Valid()
      modifies this`waiterCount, waiters
      ensures Valid() && signaled == old(signaled)
      ensures tid == if old(Waiting()) == [] then None else Some(old(Waiting())[0])
      ensures Waiting() == if old(Waiting()) == [] then [] else old(Waiting())[1..]
    {
      if waiters[0].None? { return None; }
      tid := waiters[0];
      RemoveAt(0);
    }

    method Remove(tid: Tid)
      requires Valid()
      modifies this`waiterCount, waiters
      ensures Valid() && signaled == old(signaled)
      ensures tid !in old(Waiting()) ==> Waiting() == old(Waiting())
      ensures forall p | 0 <= p < |old(Waiting())| && old(Waiting())[p] == tid ::
                Waiting() == old(Waiting())[..p] + old(Waiting())[p + 1..]
    {
      for position := 0 to waiterCount
        invariant unchanged(this) && unchanged(waiters)
        invariant forall j | 0 <= j < position :: Waiting()[j] != tid
      {
        if waiters[position] == Some(tid) {
          forall p | 0 <= p < waiterCount && p != position ensures old(Waiting())[p] != tid {
            var w := waiters[..waiterCount];
            assert w[p] != w[position];
          }
          assert old(Waiting())[position] == tid;
          RemoveAt(position);
          return;
        }
      }
    }
  }

  // ----- The protocol with the process table -----

  datatype EventState = EventState(signaled: bool, waiters: seq<Tid>)

  /** The table, the event, and the threads that blocked in a wait on it and have stayed blocked since. */
  datatype World = World(t: Table, e: EventState, parked: set<Tid>)

  datatype Outcome = Passed | Refused | Parked | NotBlocked

  /** wait_event: take a latched signal, or join the queue and block. */
  function Wait(w: World, tid: Tid, context: Context): (World, Outcome)
  {
    if w.e.signaled then (w.(e := w.e.(signaled := false)), Passed)
    else if |w.e.waiters| >= MAX_EVENT_WAITERS || tid in w.e.waiters then (w, Refused)
    else
      var (t', ok) := Block(w.t, tid, context);
      if !ok then (w, NotBlocked)
      else (World(t', w.e.(waiters := w.e.waiters + [tid]), w.parked + {tid}), Parked)
  }

  /** signal_event: wake the first waiter that can be woken, or latch the signal. */
  function Signal(t: Table, e: EventState): (r: (Table, EventState, Option<Tid>))
    decreases |e.waiters|
  {
    if e.waiters == [] then (t, e.(signaled := true), None)
    else
      var (t', ok) := Wake(t, e.waiters[0], 0);
      var rest := e.(waiters := e.waiters[1..]);
      if ok then (t', rest, Some(e.waiters[0])) else Signal(t, rest)
  }

  datatype EventStep = OnTable(s: Step) | WaitFor(tid: Tid, context: Context) | SignalOnce

  function StillBlocked(t: Table, parked: set<Tid>): set<Tid>
  {
    set x | x in parked && x in t.threads && t.threads[x].state == Blocked
  }

  function DoEvent(w: World, s: EventStep): World
    requires PoolBits(w.t.pool)
  {
    match s
    case OnTable(step) => var t := Do(w.t, step); World(t, w.e, StillBlocked(t, w.parked))
    case WaitFor(tid, context) => Wait(w, tid, context).0
    case SignalOnce => var (t, e, _) := Signal(w.t, w.e); World(t, e, StillBlocked(t, w.parked))
  }

  ghost predicate EventAllowed(w: World, s: EventStep)
  {
    match s
    case OnTable(step) => Allowed(w.t, step)
    case WaitFor(tid, _) => UserTid(w.t, tid)
    case SignalOnce => true
  }

  /** A thread a signal can wake. */
  predicate Wakeable(t: Table, x: Tid) { Known(t, x) && t.threads[x].state == Blocked && t.threads[x].resume.Some? }

  ghost predicate WaiterOk(t: Table, x: Tid) { x in t.threads && t.threads[x].kind == User }

  /** A thread blocked in wait_event. */
  ghost predicate ParkedOk(t: Table, x: Tid)
  {
    x in t.threads && t.threads[x].state == Blocked && t.threads[x].waitingFor.None?
  }

  /**
    A signal is latched only when nobody is queued, and every parked thread is queued: so no signal is latched
    while a thread is parked.
   */
  ghost predicate WorldOk(w: World)
  {
    && Inv(w.t) && PoolBits(w.t.pool)
    && Distinct(w.e.waiters) && |w.e.waiters| <= MAX_EVENT_WAITERS && (w.e.signaled ==> w.e.waiters == [])
    && (forall k | 0 <= k < |w.e.waiters| :: WaiterOk(w.t, w.e.waiters[k]))
    && (forall x | x in w.parked :: x in w.e.waiters && ParkedOk(w.t, x))
  }

  /** Which thread a signal wakes: the first in the queue that is blocked; those before it are dropped. */
  lemma {:induction false} SignalFinds(t: Table, e: EventState) returns (k: nat)
    ensures var (t', e', woken) := Signal(t, e);
            && k <= |e.waiters| && (forall j | 0 <= j < k :: !Wakeable(t, e.waiters[j]))
            && (woken.Some? <==> k < |e.waiters|)
            && (woken.Some? ==>
                  && woken.value == e.waiters[k] && Wakeable(t, e.waiters[k]) && t' == Wake(t, e.waiters[k], 0).0
                  && e' == e.(waiters := e.waiters[k + 1..]))
            && (woken.None? ==> t' == t && e' == EventState(true, []))
    decreases |e.waiters|
  {
    if e.waiters == [] {
      k := 0;
    } else if Wakeable(t, e.waiters[0]) {
      k := 0;
    } else {
      var rest := e.(waiters := e.waiters[1..]);
      var j := SignalFinds(t, rest);
      k := j + 1;
      assert forall i | 0 <= i < j :: rest.waiters[i] == e.waiters[i + 1];
      if k < |e.waiters| {
        assert rest.waiters[j] == e.waiters[k];
        assert rest.waiters[j + 1..] == e.waiters[k + 1..];
      }
    }
  }

  /** The world after a signal. */
  lemma SignalEffect(w: World) returns (k: nat)
    requires PoolBits(w.t.pool)
    ensures k <= |w.e.waiters| && (forall j | 0 <= j < k :: !Wakeable(w.t, w.e.waiters[j]))
    ensures var w' := DoEvent(w, SignalOnce);
            && w'.parked == StillBlocked(w'.t, w.parked)
            && if k == |w.e.waiters| then w'.t == w.t && w'.e == EventState(true, []) && Signal(w.t, w.e).2.None?
               else
                 && Wakeable(w.t, w.e.waiters[k]) && Signal(w.t, w.e).2 == Some(w.e.waiters[k])
                 && w'.t == Wake(w.t, w.e.waiters[k], 0).0 && w'.e == w.e.(waiters := w.e.waiters[k + 1..])
  {
    k := SignalFinds(w.t, w.e);
    var r := Signal(w.t, w.e);
    assert r.2.None? ==> r.0 == w.t && r.1 == EventState(true, []);
    hide Signal, Wake;
    assert DoEvent(w, SignalOnce) == World(r.0, r.1, StillBlocked(r.0, w.parked));
  }

  /** The woken thread is ready with return value 0 and queued; nobody else changes. */
  lemma WokenIsReady(t: Table, x: Tid)
    requires Inv(t) && Wakeable(t, x)
    ensures var t' := Wake(t, x, 0).0;
            && t'.threads.Keys == t.threads.Keys && t'.threads[x].state == Ready && x in t'.queue
            && t'.threads[x].resume == Some(t.threads[x].resume.value.(rax := 0))
            && forall y | y in t.threads && y != x :: t'.threads[y] == t.threads[y]
  {
    EnqueueFacts(t.queue, x);
    hide Inv, Summary;
  }

  lemma ParkedWakeable(w: World, x: Tid)
    requires WorldOk(w) && x in w.parked
    ensures Wakeable(w.t, x) && w.t.threads[x].kind == User && ParkedOk(w.t, x)
  {
    assert WaiterOk(w.t, w.e.waiters[Index(w.e.waiters, x)]);
    ActiveIsLive(w.t, x);
    RunningNotQueued(w.t, x);
  }

  lemma SignalKeeps(w: World)
    requires WorldOk(w)
    ensures WorldOk(DoEvent(w, SignalOnce))
  {
    var k := SignalEffect(w);
    var w' := DoEvent(w, SignalOnce);
    hide DoEvent;
    if k < |w.e.waiters| {
      var x := w.e.waiters[k];
      assert WaiterOk(w.t, x);
      WakeKeeps(w.t, x, 0);
      WokenIsReady(w.t, x);
      hide Inv, Wake;
      forall j | 0 <= j < |w'.e.waiters|
        ensures WaiterOk(w'.t, w'.e.waiters[j])
      {
        assert WaiterOk(w.t, w.e.waiters[k + 1 + j]);
      }
      forall y | y in w'.parked ensures y in w'.e.waiters {
        ParkedWakeable(w, y);
        var i := Index(w.e.waiters, y);
        assert i > k;
        assert w'.e.waiters[i - k - 1] == y;
      }
      assert PoolBits(w'.t.pool);
    } else {
      assert w.parked == {} by { if y :| y in w.parked { NobodyParked(w, y); } }
    }
  }

  /** While a thread is parked, some queued thread can be woken. */
  lemma NobodyParked(w: World, y: Tid)
    requires WorldOk(w) && y in w.parked
    ensures exists j :: 0 <= j < |w.e.waiters| && Wakeable(w.t, w.e.waiters[j])
  {
    ParkedWakeable(w, y);
    assert Wakeable(w.t, w.e.waiters[Index(w.e.waiters, y)]);
  }

  lemma WaitKeeps(w: World, tid: Tid, context: Context)
    requires WorldOk(w) && UserTid(w.t, tid)
    ensures WorldOk(Wait(w, tid, context).0)
  {
    var (w', outcome) := Wait(w, tid, context);
    if outcome == Parked {
      BlockKeeps(w.t, tid, context);
      assert w'.t.threads.Keys == w.t.threads.Keys && w'.t.threads[tid].state == Blocked &&
          w'.t.threads[tid].kind == User;
      assert forall x | x in w.t.threads && x != tid :: w'.t.threads[x] == w.t.threads[x];
      hide Inv, Block, Update;
      forall j | 0 <= j < |w'.e.waiters| ensures WaiterOk(w'.t, w'.e.waiters[j]) {
        if j < |w.e.waiters| { assert WaiterOk(w.t, w.e.waiters[j]); }
      }
    }
  }

  lemma TableStepKeeps(w: World, s: Step)
    requires WorldOk(w) && Allowed(w.t, s)
    ensures WorldOk(DoEvent(w, OnTable(s)))
  {
    var w' := DoEvent(w, OnTable(s));
    StepKeepsInv(w.t, s);
    StepKeepsBits(w.t, s);
    hide Do, Inv, Allowed, PoolBits;
    forall j | 0 <= j < |w.e.waiters| ensures WaiterOk(w'.t, w.e.waiters[j]) {
      assert WaiterOk(w.t, w.e.waiters[j]);
      KindKept(w.t, s, w.e.waiters[j]);
    }
    forall x | x in w'.parked ensures x in w.e.waiters && ParkedOk(w'.t, x) {
      ParkedWakeable(w, x);
      LeavesIff(w.t, s, x);
    }
  }

  lemma EventStepKeeps(w: World, s: EventStep)
    requires WorldOk(w) && EventAllowed(w, s)
    ensures WorldOk(DoEvent(w, s))
  {
    match s
    case OnTable(step) => TableStepKeeps(w, step);
    case WaitFor(tid, context) => WaitKeeps(w, tid, context);
    case SignalOnce => SignalKeeps(w);
  }

  ghost predicate EventRun(ws: seq<World>, steps: seq<EventStep>)
  {
    && |ws| == |steps| + 1
    && (forall i | 0 <= i < |ws| :: PoolBits(ws[i].t.pool))
    && (forall i | 0 <= i < |steps| :: EventAllowed(ws[i], steps[i]) && ws[i + 1] == DoEvent(ws[i], steps[i]))
  }

  lemma {:induction false} RunKeepsWorld(ws: seq<World>, steps: seq<EventStep>, i: nat)
    requires EventRun(ws, steps) && WorldOk(ws[0]) && i < |ws|
    ensures WorldOk(ws[i])
  {
    if i > 0 {
      RunKeepsWorld(ws, steps, i - 1);
      EventStepKeeps(ws[i - 1], steps[i - 1]);
    }
  }

  // ----- Latched signals -----

  /** A wait that does not block because a signal is latched. */
  ghost predicate Passes(w: World, s: EventStep) { s.WaitFor? && Wait(w, s.tid, s.context).1 == Passed }

  /** A signal that finds nobody to wake. */
  ghost predicate Latches(w: World, s: EventStep) { s.SignalOnce? && Signal(w.t, w.e).2.None? }

  /** What a wait comes to: it passes on a latched signal, parks a running thread, or changes nothing. */
  lemma WaitIff(w: World, tid: Tid, context: Context)
    requires WorldOk(w) && UserTid(w.t, tid)
    ensures var (w', outcome) := Wait(w, tid, context);
            && (outcome == Passed <==> w.e.signaled)
            && (outcome == Parked <==>
                  && !w.e.signaled && |w.e.waiters| < MAX_EVENT_WAITERS && tid !in w.e.waiters
                  && tid in w.t.threads && w.t.threads[tid].state == Running)
            && (outcome == Passed ==> w' == w.(e := EventState(false, [])))
            && (outcome == Parked ==> w'.e == EventState(false, w.e.waiters + [tid]) && tid in w'.t.threads)
            && (outcome == Parked ==> w'.t.threads[tid].state == Blocked && w'.t.threads[tid].resume == Some(context))
            && (outcome == Refused || outcome == NotBlocked ==> w' == w)
  {
    if tid in w.t.threads { assert ThreadOk(w.t, tid); }
    hide Inv, Summary;
  }

  /** The latch is set by a signal that finds nobody and taken by a wait, and nothing else touches it. */
  lemma LatchIff(w: World, s: EventStep)
    requires WorldOk(w) && EventAllowed(w, s)
    ensures DoEvent(w, s).e.signaled <==> Latches(w, s) || (w.e.signaled && !Passes(w, s))
    ensures Passes(w, s) <==> s.WaitFor? && w.e.signaled
  {
    match s
    case OnTable(step) => hide WorldOk, Inv, Do, Allowed;
    case WaitFor(tid, context) =>
      hide Inv, Block;
    case SignalOnce =>
      hide Inv, Wake;
      var k := SignalFinds(w.t, w.e);
  }

  /** Between two waits that pass, a signal is latched. */
  lemma {:induction false} PassNeedsLatch(ws: seq<World>, steps: seq<EventStep>, i: nat, j: nat) returns (k: nat)
    requires EventRun(ws, steps) && WorldOk(ws[0]) && i < j < |steps|
    requires Passes(ws[i], steps[i]) && Passes(ws[j], steps[j])
    ensures i < k < j && Latches(ws[k], steps[k])
  {
    hide WorldOk, DoEvent, EventAllowed, Passes, Latches;
    RunKeepsWorld(ws, steps, i);
    RunKeepsWorld(ws, steps, j);
    LatchIff(ws[i], steps[i]);
    LatchIff(ws[j], steps[j]);
    assert ws[i + 1] == DoEvent(ws[i], steps[i]);
    PassingUnlatches(ws[i], steps[i]);
    k := LatchedSince(ws, steps, i + 1, j);
  }

  lemma PassingUnlatches(w: World, s: EventStep)
    requires PoolBits(w.t.pool) && Passes(w, s)
    ensures !DoEvent(w, s).e.signaled
  {
  }

  lemma {:induction false} LatchedSince(ws: seq<World>, steps: seq<EventStep>, i: nat, j: nat) returns (k: nat)
    requires EventRun(ws, steps) && WorldOk(ws[0]) && i <= j < |ws| && !ws[i].e.signaled && ws[j].e.signaled
    ensures i <= k < j && Latches(ws[k], steps[k])
    decreases j
  {
    hide WorldOk, DoEvent, EventAllowed, Passes, Latches;
    RunKeepsWorld(ws, steps, j - 1);
    LatchIff(ws[j - 1], steps[j - 1]);
    assert ws[j] == DoEvent(ws[j - 1], steps[j - 1]);
    if Latches(ws[j - 1], steps[j - 1]) { k := j - 1; } else { k := LatchedSince(ws, steps, i, j - 1); }
  }

  /** A latched signal stays until a wait comes, and that wait passes: so it lets exactly one wait pass. */
  lemma {:induction false} LatchKept(ws: seq<World>, steps: seq<EventStep>, i: nat, j: nat)
    requires EventRun(ws, steps) && WorldOk(ws[0]) && i < j < |steps| && Latches(ws[i], steps[i])
    requires forall k | i < k < j :: !steps[k].WaitFor?
    ensures ws[j].e.signaled && (steps[j].WaitFor? ==> Passes(ws[j], steps[j]))
    decreases j
  {
    hide WorldOk, DoEvent, EventAllowed, Passes, Latches;
    RunKeepsWorld(ws, steps, j - 1);
    LatchIff(ws[j - 1], steps[j - 1]);
    assert ws[j] == DoEvent(ws[j - 1], steps[j - 1]);
    if i + 1 < j { LatchKept(ws, steps, i, j - 1); }
    RunKeepsWorld(ws, steps, j);
    LatchIff(ws[j], steps[j]);
  }

  /**
    No lost wakeup: while a thread is parked no signal is latched, and the next signal wakes a thread. The woken
    thread is a parked one exactly when no stray, a queued thread now blocked elsewhere, stands before them all.
   */
  lemma NoLostWakeup(ws: seq<World>, steps: seq<EventStep>, i: nat, x: Tid)
    requires EventRun(ws, steps) && WorldOk(ws[0]) && i < |ws| && x in ws[i].parked
    ensures !ws[i].e.signaled && Signal(ws[i].t, ws[i].e).2.Some?
    ensures var woken := Signal(ws[i].t, ws[i].e).2.value;
            var t' := Signal(ws[i].t, ws[i].e).0;
            && woken in ws[i].e.waiters && woken in t'.threads && t'.threads[woken].state == Ready && woken in t'.queue
            && t'.threads[woken].resume.Some? && t'.threads[woken].resume.value.rax == 0
            && (woken in ws[i].parked <==>
                  forall k | 0 <= k < |ws[i].e.waiters| && Stray(ws[i], k) ::
                    exists j :: 0 <= j < k && ws[i].e.waiters[j] in ws[i].parked)
  {
    hide Signal, Wake, Inv;
    var w := ws[i];
    RunKeepsWorld(ws, steps, i);
    NobodyParked(w, x);
    var k := SignalFinds(w.t, w.e);
    WokenIsReady(w.t, w.e.waiters[k]);
    FirstWakeable(w, k);
  }

  /** A queued thread that left its wait and is blocked again, in a join or another wait. */
  ghost predicate Stray(w: World, k: int)
    requires 0 <= k < |w.e.waiters|
  {
    var x := w.e.waiters[k];
    x !in w.parked && x in w.t.threads && w.t.threads[x].state == Blocked
  }

  /** Queued threads that are blocked can be woken, parked or not. */
  lemma BlockedWakeable(w: World, k: nat)
    requires WorldOk(w) && k < |w.e.waiters|
    ensures Wakeable(w.t, w.e.waiters[k]) <==> w.e.waiters[k] in w.parked || Stray(w, k)
    ensures Stray(w, k) ==> w.e.waiters[k] !in w.parked
  {
    var x := w.e.waiters[k];
    assert WaiterOk(w.t, x);
    if w.t.threads[x].state == Blocked {
      ActiveIsLive(w.t, x);
      RunningNotQueued(w.t, x);
    }
  }

  lemma FirstWakeable(w: World, k: nat)
    requires WorldOk(w) && k < |w.e.waiters| && Wakeable(w.t, w.e.waiters[k])
    requires forall j | 0 <= j < k :: !Wakeable(w.t, w.e.waiters[j])
    ensures w.e.waiters[k] in w.parked <==>
              forall l | 0 <= l < |w.e.waiters| && Stray(w, l) :: exists j :: 0 <= j < l && w.e.waiters[j] in w.parked
  {
    BlockedWakeable(w, k);
    forall l: nat | l < |w.e.waiters|
      ensures Stray(w, l) ==> Wakeable(w.t, w.e.waiters[l]) && w.e.waiters[l] !in w.parked
      ensures w.e.waiters[l] in w.parked ==> Wakeable(w.t, w.e.waiters[l])
    {
      BlockedWakeable(w, l);
    }
    hide WorldOk, Wakeable, Stray;
    if w.e.waiters[k] in w.parked {
      forall l | 0 <= l < |w.e.waiters| && Stray(w, l) ensures exists j :: 0 <= j < l && w.e.waiters[j] in w.parked {
        assert Wakeable(w.t, w.e.waiters[l]) && l != k;
      }
    } else {
      assert Stray(w, k);
    }
  }

  // ----- Bounded waiting -----

  lemma SignalAdvances(w: World, x: Tid)
    requires WorldOk(w) && x in w.parked
    ensures var w' := DoEvent(w, SignalOnce);
            x in w'.parked ==> x in w'.e.waiters && Index(w'.e.waiters, x) < Index(w.e.waiters, x)
  {
    hide DoEvent;
    var w' := DoEvent(w, SignalOnce);
    var k := SignalEffect(w);
    ParkedWakeable(w, x);
    var i := Index(w.e.waiters, x);
    if x in w'.parked {
      assert k < |w.e.waiters| && i >= k;
      WokenIsReady(w.t, w.e.waiters[k]);
      hide Inv, Wake, WorldOk;
      assert i != k;
      assert w'.e.waiters[i - k - 1] == x;
      IndexIsFirst(w'.e.waiters, x, i - k - 1);
    }
  }

  /** One step: the parked thread is woken, leaves by other means, or is still parked and no further back. */
  lemma ParkedAdvances(w: World, s: EventStep, x: Tid)
    requires WorldOk(w) && EventAllowed(w, s) && x in w.parked
    ensures var w' := DoEvent(w, s);
            x in w'.parked ==>
              && x in w'.e.waiters
              && Index(w'.e.waiters, x) + (if s.SignalOnce? then 1 else 0) <= Index(w.e.waiters, x)
  {
    hide Do, Inv, Allowed, Wake, Block, Signal;
    EventStepKeeps(w, s);
    match s
    case OnTable(step) =>
    case WaitFor(tid, context) => IndexPrefix(w.e.waiters, [tid], x);
    case SignalOnce => SignalAdvances(w, x);
  }

  function Signals(steps: seq<EventStep>): nat
  {
    if steps == [] then 0 else (if steps[0].SignalOnce? then 1 else 0) + Signals(steps[1..])
  }

  /**
    A thread parked at place p of the queue is no longer parked after p + 1 signals, whatever happens between;
    and what ended its wait is a signal that woke it, unless a step took it out by other means.
   */
  lemma {:induction false} BoundedWaiting(ws: seq<World>, steps: seq<EventStep>, x: Tid) returns (i: nat)
    requires EventRun(ws, steps) && WorldOk(ws[0]) && x in ws[0].parked && x in ws[0].e.waiters
    requires Signals(steps) > Index(ws[0].e.waiters, x)
    ensures i < |steps| && x in ws[i].parked && x !in ws[i + 1].parked && Known(ws[i].t, x)
    ensures if steps[i].OnTable? then Leaves(ws[i].t, steps[i].s, x)
            else steps[i].SignalOnce? && Signal(ws[i].t, ws[i].e).2 == Some(x)
    decreases |steps|
  {
    ParkedAdvances(ws[0], steps[0], x);
    if x !in ws[1].parked {
      i := 0;
      WaitEnds(ws[0], steps[0], x);
    } else {
      EventStepKeeps(ws[0], steps[0]);
      var ws', steps' := ws[1..], steps[1..];
      assert forall j | 0 <= j < |steps'| :: ws'[j] == ws[j + 1] && steps'[j] == steps[j + 1];
      i := BoundedWaiting(ws', steps', x);
      i := i + 1;
    }
  }

  /** What ends a wait: a signal that wakes this thread, or a step that takes it out by other means. */
  lemma WaitEnds(w: World, s: EventStep, x: Tid)
    requires WorldOk(w) && EventAllowed(w, s) && x in w.parked && x !in DoEvent(w, s).parked
    ensures Known(w.t, x)
    ensures if s.OnTable? then Leaves(w.t, s.s, x) else s.SignalOnce? && Signal(w.t, w.e).2 == Some(x)
  {
    ParkedWakeable(w, x);
    match s
    case OnTable(step) =>
      hide Do, Inv, Allowed;
      LeavesIff(w.t, step, x);
    case WaitFor(tid, context) => hide Block;
    case SignalOnce =>
      var k := SignalEffect(w);
      hide DoEvent, Inv, Wake;
      if k < |w.e.waiters| { WokenIsReady(w.t, w.e.waiters[k]); }
  }

  // ----- Waiters that have left -----

  /** Every queued thread is parked: none was made ready behind the event's back. */
  ghost predicate NoneLeft(w: World) { forall k | 0 <= k < |w.e.waiters| :: w.e.waiters[k] in w.parked }

  /** The step takes a parked thread out of its wait by other means than a signal to the event. */
  ghost predicate TakesOut(w: World, s: EventStep)
  {
    s.OnTable? && exists x :: x in w.parked && Known(w.t, x) && Leaves(w.t, s.s, x)
  }

  /** Then a signal wakes exactly the thread that has waited longest. */
  lemma SignalIsFifo(w: World)
    requires WorldOk(w) && NoneLeft(w) && w.e.waiters != []
    ensures var (_, e', woken) := Signal(w.t, w.e);
            woken == Some(w.e.waiters[0]) && e'.waiters == w.e.waiters[1..]
  {
    ParkedWakeable(w, w.e.waiters[0]);
  }

  /**
    The queue keeps to parked threads exactly when the step is none of those that take a parked thread out: a
    wake from elsewhere, its exit, its process's exit, or a handler that diverts the main thread.
   */
  lemma NoneLeftIff(w: World, s: EventStep)
    requires WorldOk(w) && EventAllowed(w, s) && NoneLeft(w)
    ensures NoneLeft(DoEvent(w, s)) <==> !TakesOut(w, s)
  {
    match s
    case OnTable(step) => TableNoneLeft(w, step);
    case WaitFor(tid, context) =>
      var w' := DoEvent(w, s);
      forall k | 0 <= k < |w'.e.waiters| ensures w'.e.waiters[k] in w'.parked {
        if k < |w.e.waiters| { assert w.e.waiters[k] in w.parked; }
      }
    case SignalOnce => SignalNoneLeft(w);
  }

  lemma TableNoneLeft(w: World, s: Step)
    requires WorldOk(w) && Allowed(w.t, s) && NoneLeft(w)
    ensures NoneLeft(DoEvent(w, OnTable(s))) <==> !TakesOut(w, OnTable(s))
  {
    var w' := DoEvent(w, OnTable(s));
    hide Do, Inv, Allowed, Leaves;
    forall x | x in w.parked ensures Known(w.t, x) && (x in w'.parked <==> !Leaves(w.t, s, x)) {
      ParkedWakeable(w, x);
      LeavesIff(w.t, s, x);
    }
    forall x | x in w.parked ensures exists k :: 0 <= k < |w.e.waiters| && w.e.waiters[k] == x {
      assert w.e.waiters[Index(w.e.waiters, x)] == x;
    }
    hide WorldOk, StillBlocked;
    assert w'.e == w.e;
  }

  lemma SignalNoneLeft(w: World)
    requires WorldOk(w) && NoneLeft(w)
    ensures NoneLeft(DoEvent(w, SignalOnce))
  {
    var w' := DoEvent(w, SignalOnce);
    if w.e.waiters != [] {
      SignalIsFifo(w);
      var x := w.e.waiters[0];
      ParkedWakeable(w, x);
      WokenIsReady(w.t, x);
      assert w'.t == Wake(w.t, x, 0).0 && w'.e.waiters == w.e.waiters[1..];
      hide Signal, Wake, Inv;
      forall k | 0 <= k < |w'.e.waiters| ensures w'.e.waiters[k] in w'.parked {
        assert w.e.waiters[k + 1] in w.parked && w.e.waiters[k + 1] != x;
      }
    }
  }

  /** A whole run: the queue holds parked threads only, in every state, exactly when no step takes one out. */
  lemma RunNoneLeftIff(ws: seq<World>, steps: seq<EventStep>)
    requires EventRun(ws, steps) && WorldOk(ws[0]) && NoneLeft(ws[0])
    ensures (forall i | 0 <= i < |ws| :: NoneLeft(ws[i])) <==>
              (forall i | 0 <= i < |steps| :: !TakesOut(ws[i], steps[i]))
  {
    hide WorldOk, EventAllowed, DoEvent, NoneLeft, TakesOut;
    if forall i | 0 <= i < |ws| :: NoneLeft(ws[i]) {
      forall i | 0 <= i < |steps| ensures !TakesOut(ws[i], steps[i]) {
        RunKeepsWorld(ws, steps, i);
        assert NoneLeft(ws[i]) && NoneLeft(ws[i + 1]);
        NoneLeftIff(ws[i], steps[i]);
      }
    }
    if forall i | 0 <= i < |steps| :: !TakesOut(ws[i], steps[i]) {
      for i := 0 to |steps|
        invariant forall k | 0 <= k <= i :: NoneLeft(ws[k])
      {
        RunKeepsWorld(ws, steps, i);
        NoneLeftIff(ws[i], steps[i]);
      }
    }
  }

  /**
    How a queued thread comes not to be parked: at some step before it was parked and was taken out by other
    means, and it has stood in the queue since.
   */
  lemma {:induction false} LeftBehind(ws: seq<World>, steps: seq<EventStep>, i: nat, y: Tid) returns (a: nat)
    requires EventRun(ws, steps) && WorldOk(ws[0]) && NoneLeft(ws[0]) && i < |ws|
    requires y in ws[i].e.waiters && y !in ws[i].parked
    ensures a < i && y in ws[a].parked && Known(ws[a].t, y) && steps[a].OnTable? && Leaves(ws[a].t, steps[a].s, y)
    ensures forall b | a < b <= i :: y in ws[b].e.waiters && y !in ws[b].parked
  {
    if i > 0 {
      RunKeepsWorld(ws, steps, i - 1);
      StoodBefore(ws[i - 1], steps[i - 1], y);
      hide WorldOk, NoneLeft, DoEvent, EventAllowed, Leaves;
      if y in ws[i - 1].parked {
        a := i - 1;
        WaitEnds(ws[a], steps[a], y);
      } else {
        a := LeftBehind(ws, steps, i - 1, y);
      }
    }
  }

  /** A queued thread that is not parked stood in the queue before the step, and no signal just woke it. */
  lemma StoodBefore(w: World, s: EventStep, y: Tid)
    requires WorldOk(w) && EventAllowed(w, s) && y in DoEvent(w, s).e.waiters && y !in DoEvent(w, s).parked
    ensures y in w.e.waiters
    ensures y in w.parked ==> s.OnTable?
  {
    match s
    case OnTable(step) =>
    case WaitFor(tid, context) => hide Block;
    case SignalOnce =>
      var k := SignalEffect(w);
      hide DoEvent, Inv, Wake;
      var l := Index(w.e.waiters[k + 1..], y);
      assert w.e.waiters[k + 1..][l] == w.e.waiters[k + 1 + l];
      WokenIsReady(w.t, w.e.waiters[k]);
      assert w.e.waiters[k + 1 + l] != w.e.waiters[k];
  }
}
