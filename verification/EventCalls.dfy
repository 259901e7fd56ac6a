/** The event system calls, on the event and the process table in place. */
module EventCalls {
  import opened Base
  import opened SchedModel
  import opened ProcessTable
  import opened Events

  ghost function StateOf(event: Event): EventState
    reads event, event.waiters
    requires event.Valid()
  {
    EventState(event.signaled, event.Waiting())
  }

  /** wait_event, once the event has been found. */
  method WaitEvent(event: Event, table: Processes, tid: Tid, context: Context) returns (outcome: Outcome)
    requires event.Valid() && table.Valid()
    modifies event, event.waiters, table
    ensures event.Valid() && table.Valid()
    ensures forall parked: set<Tid> ::
              var (w, o) := Wait(World(old(table.View()), old(StateOf(event)), parked), tid, context);
              w.t == table.View() && w.e == StateOf(event) && o == outcome
  {
    if event.signaled {
      event.signaled := false;
      return Passed;
    }
    var queued := event.Enqueue(tid);
    if !queued { return Refused; }
    var blocked := table.BlockThread(tid, context);
    if !blocked {
      assert event.Waiting()[|old(event.Waiting())|] == tid;
      event.Remove(tid);
      assert event.Waiting() == old(event.Waiting());
      return NotBlocked;
    }
    return Parked;
  }

  /** signal_event, once the event has been found. */
  method SignalEvent(event: Event, table: Processes) returns (woken: Option<Tid>)
    requires event.Valid() && table.Valid()
    modifies event, event.waiters, table
    ensures event.Valid() && table.Valid()
    ensures (table.View(), StateOf(event), woken) == Signal(old(table.View()), old(StateOf(event)))
  {
    while true
      invariant event.Valid() && table.Valid()
      invariant Signal(table.View(), StateOf(event)) == Signal(old(table.View()), old(StateOf(event)))
      decreases event.waiterCount
    {
      var tid := event.Dequeue();
      if tid.None? {
        event.signaled := true;
        return None;
      }
      var ok := table.WakeThread(tid.value, 0);
      if ok { return tid; }
    }
  }
}
