/** What every thread-level step keeps: no thread is lost, no join waits for a thread that is gone. */
module SchedInv {
  import opened Base
  import opened StackPool
  import opened SchedModel

  predicate Live(t: Table, pid: Pid) { pid in t.procs && !Terminal(t.procs[pid].state) }

  /** A thread waits only for a live sibling that does not wait for it. */
  ghost predicate WaitOk(t: Table, x: Tid)
    requires x in t.threads
  {
    var th := t.threads[x];
    th.waitingFor.Some? ==>
      var w := th.waitingFor.value;
      && th.state == Blocked && w != x
      && w in t.threads && t.threads[w].pid == th.pid
      && t.threads[w].state != Exited && t.threads[w].state != Reaped
      && t.threads[w].waitingFor != Some(x)
  }

  /** Ready means queued, and a context is saved exactly while the thread is ready or blocked. */
  ghost predicate UserThreadOk(t: Table, x: Tid)
    requires x in t.threads
  {
    var th := t.threads[x];
    && (th.state == Ready <==> x in t.queue)
    && (th.resume.Some? <==> th.state == Ready || th.state == Blocked)
    && (Live(t, th.pid) ==> th.state != Zombie && th.state != Stopped && WaitOk(t, x))
    && (!Live(t, th.pid) && th.pid in t.procs ==> th.state == t.procs[th.pid].state)
  }

  ghost predicate ThreadOk(t: Table, x: Tid)
    requires x in t.threads
  {
    var th := t.threads[x];
    && th.pid in t.procs && x in t.procs[th.pid].tids && x < t.nextTid
    && th.kind == t.procs[th.pid].kind
    && (th.kind == Kernel ==> th.resume.None? && th.waitingFor.None?)
    && (th.kind == User ==> UserThreadOk(t, x))
  }

  /** The process lists its threads, and until it ends its state is the summary of theirs. */
  ghost predicate ProcOk(t: Table, pid: Pid)
    requires pid in t.procs
  {
    var p := t.procs[pid];
    && p.mainTid in p.tids
    && (forall k | 0 <= k < |p.tids| :: p.tids[k] in t.threads && t.threads[p.tids[k]].pid == pid)
    && (p.kind == User && !Terminal(p.state) ==> p.state == Summary(t.threads, p.tids))
  }

  ghost predicate Inv(t: Table)
  {
    && Distinct(t.queue)
    && (forall k | 0 <= k < |t.queue| :: t.queue[k] in t.threads)
    && (forall x {:trigger ThreadOk(t, x)} | x in t.threads :: ThreadOk(t, x))
    && (forall pid {:trigger ProcOk(t, pid)} | pid in t.procs :: ProcOk(t, pid))
  }

  // ----- Queues -----

  lemma EnqueueFacts(queue: seq<Tid>, tid: Tid)
    ensures Distinct(queue) ==> Distinct(Enqueue(queue, tid))
    ensures forall x :: x in Enqueue(queue, tid) <==> x in queue || x == tid
  {
  }

  lemma {:induction false} EnqueueAllFacts(queue: seq<Tid>, tids: seq<Tid>)
    ensures Distinct(queue) ==> Distinct(EnqueueAll(queue, tids))
    ensures forall x :: x in EnqueueAll(queue, tids) <==> x in queue || x in tids
  {
    if tids != [] {
      EnqueueAllFacts(queue, tids[..|tids| - 1]);
      EnqueueFacts(EnqueueAll(queue, tids[..|tids| - 1]), tids[|tids| - 1]);
      assert tids == tids[..|tids| - 1] + [tids[|tids| - 1]];
    }
  }

  lemma {:induction false} WithoutFacts(queue: seq<Tid>, gone: set<Tid>)
    ensures forall x :: x in Without(queue, gone) <==> x in queue && x !in gone
    ensures Distinct(queue) ==> Distinct(Without(queue, gone))
  {
    if queue != [] {
      var front, last := queue[..|queue| - 1], queue[|queue| - 1];
      WithoutFacts(front, gone);
      assert queue == front + [last];
      if Distinct(queue) {
        assert Distinct(front);
        assert last !in front;
      }
    }
  }

  lemma PopFacts(queue: seq<Tid>)
    requires Distinct(queue) && queue != []
    ensures Distinct(queue[1..]) && queue[0] !in queue[1..]
    ensures forall x | x != queue[0] :: x in queue[1..] <==> x in queue
  {
    assert queue == [queue[0]] + queue[1..];
  }

  // ----- Summaries -----

  lemma SummaryFrame(a: map<Tid, Thread>, b: map<Tid, Thread>, tids: seq<Tid>)
    requires forall k | 0 <= k < |tids| :: tids[k] in a && tids[k] in b && a[tids[k]].state == b[tids[k]].state
    ensures Summary(a, tids) == Summary(b, tids)
  {
    forall s: State ensures Has(a, tids, s) <==> Has(b, tids, s) {}
  }

  lemma SummaryAlive(threads: map<Tid, Thread>, tids: seq<Tid>)
    ensures !Terminal(Summary(threads, tids))
  {
  }

  // ----- One thread changes -----

  /** What a step may turn a live user thread into, and what queue may go with it. */
  ghost predicate GoodChange(t: Table, tid: Tid, th: Thread, queue: seq<Tid>)
    requires tid in t.threads
  {
    && t.threads[tid].kind == User && Live(t, t.threads[tid].pid)
    && th.pid == t.threads[tid].pid && th.kind == User
    && (th.state == Created || th.state == Ready || th.state == Running || th.state == Blocked)
    && (th.resume.Some? <==> th.state == Ready || th.state == Blocked)
    && (th.waitingFor.Some? ==>
          var w := th.waitingFor.value;
          && th.state == Blocked && w != tid && w in t.threads && t.threads[w].pid == th.pid
          && t.threads[w].state != Exited && t.threads[w].state != Reaped && t.threads[w].waitingFor != Some(tid))
    && Distinct(queue)
    && (forall x | x != tid :: x in queue <==> x in t.queue)
    && (tid in queue <==> th.state == Ready)
  }

  lemma UpdatedThread(t: Table, tid: Tid, th: Thread, queue: seq<Tid>, x: Tid)
    requires Inv(t) && tid in t.threads && GoodChange(t, tid, th, queue) && x in t.threads && Known(t, tid)
    ensures ThreadOk(Update(t, tid, th, queue), x)
  {
    hide Summary, Distinct;
    var t' := Update(t, tid, th, queue);
    assert ThreadOk(t, x) && ThreadOk(t, tid);
    SummaryAlive(t'.threads, t.procs[th.pid].tids);
    assert forall p :: Live(t', p) <==> Live(t, p);
    if x != tid && t.threads[x].kind == User {
      assert UserThreadOk(t, x);
      assert UserThreadOk(t', x);
    }
  }

  lemma UpdatedProc(t: Table, tid: Tid, th: Thread, queue: seq<Tid>, pid: Pid)
    requires Inv(t) && tid in t.threads && GoodChange(t, tid, th, queue) && pid in t.procs && Known(t, tid)
    ensures ProcOk(Update(t, tid, th, queue), pid)
  {
    var t' := Update(t, tid, th, queue);
    assert ProcOk(t, pid) && ThreadOk(t, tid);
    SummaryAlive(t'.threads, t.procs[pid].tids);
    if pid != th.pid {
      forall k | 0 <= k < |t.procs[pid].tids| ensures t.procs[pid].tids[k] != tid {
        assert t.threads[t.procs[pid].tids[k]].pid == pid;
      }
      SummaryFrame(t.threads, t'.threads, t.procs[pid].tids);
    }
  }

  /** A good change of one thread keeps the invariant. */
  lemma UpdateKeeps(t: Table, tid: Tid, th: Thread, queue: seq<Tid>)
    requires Inv(t) && tid in t.threads && GoodChange(t, tid, th, queue)
    ensures Known(t, tid) && Inv(Update(t, tid, th, queue))
  {
    assert ThreadOk(t, tid);
    var t' := Update(t, tid, th, queue);
    forall x | x in t'.threads ensures ThreadOk(t', x) { UpdatedThread(t, tid, th, queue, x); }
    forall pid | pid in t'.procs ensures ProcOk(t', pid) { UpdatedProc(t, tid, th, queue, pid); }
    forall k | 0 <= k < |queue| ensures queue[k] in t'.threads {
      assert queue[k] in queue;
      assert queue[k] != tid ==> queue[k] in t.queue;
    }
  }

  /** Fields of a process that no part of the invariant looks at. */
  lemma ProcFieldsFree(t: Table, pid: Pid, p: Process)
    requires Inv(t) && pid in t.procs
    requires p.kind == t.procs[pid].kind && p.mainTid == t.procs[pid].mainTid && p.tids == t.procs[pid].tids
    requires p.state == t.procs[pid].state
    ensures Inv(t.(procs := t.procs[pid := p]))
  {
    var t' := t.(procs := t.procs[pid := p]);
    assert forall q :: Live(t', q) <==> Live(t, q);
    forall x | x in t'.threads ensures ThreadOk(t', x) {
      assert ThreadOk(t, x);
      if t.threads[x].kind == User { assert UserThreadOk(t, x); assert WaitOk(t, x) ==> WaitOk(t', x); }
    }
    forall q | q in t'.procs ensures ProcOk(t', q) { assert ProcOk(t, q); }
  }

  /** Nothing but the pool changes. */
  lemma PoolFree(t: Table, pool: Pool)
    requires Inv(t)
    ensures Inv(t.(pool := pool))
  {
    var t' := t.(pool := pool);
    assert forall q :: Live(t', q) <==> Live(t, q);
    forall x | x in t'.threads ensures ThreadOk(t', x) {
      assert ThreadOk(t, x);
      if t.threads[x].kind == User { assert UserThreadOk(t, x); assert WaitOk(t, x) ==> WaitOk(t', x); }
    }
    forall q | q in t'.procs ensures ProcOk(t', q) { assert ProcOk(t, q); }
  }
}
