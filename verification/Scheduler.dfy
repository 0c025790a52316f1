/** The process table and the preemptive scheduler's critical sections (src/vm/process/process_table.cpp,
    src/vm/os/preemptive_scheduler.cpp): first as functions of a value, then as the mutable objects. */
module Scheduling {
  import opened Words
  import opened Cpu

  /** What the scheduler's mutex protects; processes are numbered by their position in the table. */
  datatype Sched = Sched(states: seq<ProcessState>, slices: seq<nat>, queue: seq<nat>, roundRobin: nat)
  {
    predicate Valid() {
      |slices| == |states| && forall i :: 0 <= i < |queue| ==> queue[i] < |states|
    }
  }

  /** notifyProcessReady's loop from position i on: append every Ready process that is not queued. */
  function AddReady(states: seq<ProcessState>, queue: seq<nat>, i: nat): seq<nat>
    decreases |states| - i
  {
    if i >= |states| then queue
    else AddReady(states, if states[i] == Ready && i !in queue then queue + [i] else queue, i + 1)
  }

  function NotifyReady(s: Sched): Sched {
    s.(queue := AddReady(s.states, s.queue, 0))
  }

  function Preempt(s: Sched, p: nat): Sched
    requires p < |s.states|
  {
    if s.states[p] == Running then s.(states := s.states[p := Ready], queue := s.queue + [p]) else s
  }

  function Granted(s: Sched, p: nat, quantum: nat): Sched
    requires s.Valid() && p < |s.states|
  {
    s.(states := s.states[p := Running], slices := s.slices[p := quantum])
  }

  function Scan(s: Sched, quantum: nat, i: nat): (Sched, Option<nat>)
    requires s.Valid()
    decreases |s.states| - i
  {
    if i >= |s.states| then (s, None)
    else
      var index := (s.roundRobin + i) % |s.states|;
      if s.states[index] == Ready then (Granted(s.(roundRobin := index + 1), index, quantum), Some(index))
      else Scan(s, quantum, i + 1)
  }

  lemma ScanStep(s: Sched, quantum: nat, i: nat)
    requires s.Valid()
    ensures Scan(s, quantum, i)
         == if i >= |s.states| then (s, None)
            else
              var index := (s.roundRobin + i) % |s.states|;
              if s.states[index] == Ready then (Granted(s.(roundRobin := index + 1), index, quantum), Some(index))
              else Scan(s, quantum, i + 1)
  {
  }

  /** pickNextProcess: the first queued process that is still Ready, else the round-robin scan. */
  function Pick(s: Sched, quantum: nat): (Sched, Option<nat>)
    requires s.Valid()
    decreases |s.queue|
  {
    if s.queue == [] then Scan(s, quantum, 0)
    else
      var p, t := s.queue[0], s.(queue := s.queue[1..]);
      if s.states[p] == Ready then (Granted(t, p, quantum), Some(p)) else Pick(t, quantum)
  }

  lemma PickStep(s: Sched, quantum: nat)
    requires s.Valid()
    ensures Pick(s, quantum)
         == if s.queue == [] then Scan(s, quantum, 0)
            else
              var p, t := s.queue[0], s.(queue := s.queue[1..]);
              if s.states[p] == Ready then (Granted(t, p, quantum), Some(p)) else Pick(t, quantum)
  {
    hide Scan, Granted;
  }

  predicate EveryHalted(states: seq<ProcessState>) {
    forall i :: 0 <= i < |states| ==> states[i] == Halted
  }

  // ---- What the critical sections mean ------------------------------------------------------------------

  ghost predicate NoDuplicates(q: seq<nat>) {
    forall i, j :: 0 <= i < j < |q| ==> q[i] != q[j]
  }

  /** notifyProcessReady keeps the queue as a prefix and adds only Ready processes, once each. */
  lemma {:induction false} AddReadySound(states: seq<ProcessState>, queue: seq<nat>, i: nat)
    requires i <= |states| && NoDuplicates(queue)
    ensures queue <= AddReady(states, queue, i) && NoDuplicates(AddReady(states, queue, i))
    ensures forall k :: |queue| <= k < |AddReady(states, queue, i)| ==>
              i <= AddReady(states, queue, i)[k] < |states| && states[AddReady(states, queue, i)[k]] == Ready
    decreases |states| - i
  {
    if i >= |states| {
    } else {
      var next := if states[i] == Ready && i !in queue then queue + [i] else queue;
      assert queue <= next;
      AddReadySound(states, next, i + 1);
      assert AddReady(states, next, i + 1) == AddReady(states, queue, i);
    }
  }

  lemma Prefix(s: seq<nat>, t: seq<nat>, x: nat)
    requires s <= t && x in s
    ensures x in t
  {
    var k :| 0 <= k < |s| && s[k] == x;
    assert t[k] == x;
  }

  /** And it leaves no Ready process out. */
  lemma {:induction false} AddReadyComplete(states: seq<ProcessState>, queue: seq<nat>, i: nat, p: nat)
    requires p < |states| && states[p] == Ready && (p in queue || i <= p)
    ensures p in AddReady(states, queue, i)
    decreases |states| - i
  {
    if i >= |states| {
    } else {
      var next := if states[i] == Ready && i !in queue then queue + [i] else queue;
      if p in queue {
        Prefix(queue, next, p);
      } else if p == i {
        assert next[|queue|] == i;
      }
      AddReadyComplete(states, next, i + 1, p);
    }
  }

  lemma {:induction false} AddReadyKeeps(states: seq<ProcessState>, queue: seq<nat>, i: nat)
    ensures queue <= AddReady(states, queue, i)
    decreases |states| - i
  {
    if i >= |states| {
    } else {
      var next := if states[i] == Ready && i !in queue then queue + [i] else queue;
      assert queue <= next;
      AddReadyKeeps(states, next, i + 1);
    }
  }

  /** The added ones stand in table order. */
  lemma {:induction false} AddReadyInOrder(states: seq<ProcessState>, queue: seq<nat>, i: nat)
    requires i <= |states|
    ensures |queue| <= |AddReady(states, queue, i)|
    ensures forall j :: |queue| <= j < |AddReady(states, queue, i)| ==> i <= AddReady(states, queue, i)[j]
    ensures forall j, k :: |queue| <= j < k < |AddReady(states, queue, i)| ==>
              AddReady(states, queue, i)[j] < AddReady(states, queue, i)[k]
    decreases |states| - i
  {
    if i >= |states| {
    } else {
      var next := if states[i] == Ready && i !in queue then queue + [i] else queue;
      AddReadyInOrder(states, next, i + 1);
      AddReadyKeeps(states, next, i + 1);
      assert AddReady(states, next, i + 1) == AddReady(states, queue, i);
    }
  }

  /** When every Ready process is queued already, notifyProcessReady changes nothing. */
  lemma {:induction false} NotifyWhenAllQueued(states: seq<ProcessState>, queue: seq<nat>, i: nat)
    requires forall p :: 0 <= p < |states| && states[p] == Ready ==> p in queue
    ensures AddReady(states, queue, i) == queue
    decreases |states| - i
  {
    if i >= |states| {
    } else {
      NotifyWhenAllQueued(states, queue, i + 1);
    }
  }

  /** Every position is reached by counting on from the round-robin index, modulo the table's size. */
  lemma Reached(start: nat, p: nat, n: nat)
    requires p < n
    ensures 0 <= (p - start) % n < n && (start + (p - start) % n) % n == p
  {
    var d := (p - start) % n;
    assert start + d == -((p - start) / n) * n + p;
    Euclid(start + d, -((p - start) / n), p, n);
  }

  /** The process d places on from the round-robin index, counting cyclically, is Ready. */
  predicate ReadyAt(s: Sched, d: nat) {
    s.states != [] && s.states[(s.roundRobin + d) % |s.states|] == Ready
  }

  /** Position p is d places on, and it is the first Ready one. */
  ghost predicate FirstFrom(s: Sched, i: nat, d: nat, p: nat) {
    && i <= d < |s.states| && p == (s.roundRobin + d) % |s.states| && p < |s.states|
    && ReadyAt(s, d) && forall e :: i <= e < d ==> !ReadyAt(s, e)
  }

  lemma {:induction false} ScanFinds(s: Sched, quantum: nat, i: nat, d: nat, p: nat)
    requires s.Valid() && FirstFrom(s, i, d, p)
    ensures Scan(s, quantum, i)
         == (Sched(s.states[p := Running], s.slices[p := quantum], s.queue, p + 1), Some(p))
    decreases d - i
  {
    ScanStep(s, quantum, i);
    if i < d {
      assert !ReadyAt(s, i);
      ScanFinds(s, quantum, i + 1, d, p);
    }
  }

  lemma {:induction false} ScanFails(s: Sched, quantum: nat, i: nat)
    requires s.Valid() && forall p :: 0 <= p < |s.states| ==> s.states[p] != Ready
    ensures Scan(s, quantum, i) == (s, None)
    decreases |s.states| - i
  {
    if i < |s.states| {
      ScanFails(s, quantum, i + 1);
    }
  }

  lemma {:induction false} SomeFirst(s: Sched, i: nat, d: nat) returns (first: nat)
    requires i <= d < |s.states| && ReadyAt(s, d)
    ensures FirstFrom(s, i, first, (s.roundRobin + first) % |s.states|)
    decreases d - i
  {
    hide ReadyAt;
    if ReadyAt(s, i) {
      first := i;
    } else {
      first := SomeFirst(s, i + 1, d);
    }
  }

  /** The round-robin scan finds nothing, and changes nothing, exactly when no process is Ready. What it finds is the
      first Ready process counting on from the index, cyclically; that one is Running with a full slice, and the next
      scan starts behind it. */
  lemma ScanLaw(s: Sched, quantum: nat)
    requires s.Valid()
    ensures var (t, r) := Scan(s, quantum, 0);
            && (r.None? <==> forall p :: 0 <= p < |s.states| ==> s.states[p] != Ready)
            && (r.None? ==> t == s)
            && (r.Some? ==>
                  && (exists d :: FirstFrom(s, 0, d, r.value))
                  && t == Sched(s.states[r.value := Running], s.slices[r.value := quantum], s.queue, r.value + 1))
  {
    hide Scan;
    var n := |s.states|;
    if p :| 0 <= p < n && s.states[p] == Ready {
      Reached(s.roundRobin, p, n);
      var first := SomeFirst(s, 0, (p - s.roundRobin) % n);
      ScanFinds(s, quantum, 0, first, (s.roundRobin + first) % n);
    } else {
      ScanFails(s, quantum, 0);
    }
  }

  /** pickNextProcess takes queued processes off the front, up to and including the first that is still Ready; that one
      gets a full slice, and nothing else changes. */
  lemma {:induction false} PickLaw(s: Sched, quantum: nat, k: nat)
    requires s.Valid() && k < |s.queue| && s.states[s.queue[k]] == Ready
    requires forall j :: 0 <= j < k ==> s.states[s.queue[j]] != Ready
    ensures Pick(s, quantum)
         == (Sched(s.states[s.queue[k] := Running], s.slices[s.queue[k] := quantum], s.queue[k + 1..], s.roundRobin),
             Some(s.queue[k]))
    decreases k
  {
    hide Scan;
    if k > 0 {
      var t := s.(queue := s.queue[1..]);
      assert forall j :: 0 <= j < |t.queue| ==> t.queue[j] == s.queue[j + 1];
      assert t.queue[k..] == s.queue[k + 1..];
      PickLaw(t, quantum, k - 1);
    }
  }

  /** Without such a process it empties the queue and scans the table. */
  lemma {:induction false} PickScans(s: Sched, quantum: nat)
    requires s.Valid() && forall j :: 0 <= j < |s.queue| ==> s.states[s.queue[j]] != Ready
    ensures Pick(s, quantum) == Scan(s.(queue := []), quantum, 0)
    decreases |s.queue|
  {
    hide Scan;
    if s.queue == [] {
      assert s == s.(queue := []);
    } else {
      PickScans(s.(queue := s.queue[1..]), quantum);
    }
  }

  // ---- The objects --------------------------------------------------------------------------------------

  class ProcessTable {
    var processes: seq<ProcessControlBlock>
    var nextProcessId: nat

    constructor ()
      ensures Valid() && processes == []
    {
      processes := [];
      nextProcessId := 1;
    }

    /** Ids count up from 1, so a process's position is its id less one. */
    ghost predicate Valid()
      reads this
    {
      && nextProcessId == |processes| + 1
      && (forall i :: 0 <= i < |processes| ==> processes[i].id == i + 1)
      && (forall i, j :: 0 <= i < j < |processes| ==>
            processes[i].context != processes[j].context
            && processes[i].context.registers != processes[j].context.registers)
    }

    function States(): seq<ProcessState>
      reads this, processes
    {
      seq(|processes|, i requires 0 <= i < |processes| reads this, processes => processes[i].state)
    }

    function Slices(): seq<nat>
      reads this, processes, set p | p in processes :: p.context
    {
      seq(|processes|, i requires 0 <= i < |processes|
                       reads this, processes, set p | p in processes :: p.context => processes[i].context.timeSliceLeft)
    }

    method NextId() returns (id: nat)
      modifies `nextProcessId
      ensures id == old(nextProcessId) && nextProcessId == id + 1
    {
      id := nextProcessId;
      nextProcessId := nextProcessId + 1;
    }

    method Emplace(process: ProcessControlBlock)
      modifies `processes
      ensures processes == old(processes) + [process]
      ensures States() == old(States()) + [process.state]
      ensures Slices() == old(Slices()) + [process.context.timeSliceLeft]
    {
      processes := processes + [process];
    }

    method Find(id: nat) returns (r: ProcessControlBlock?)
      requires Valid()
      ensures r == if 1 <= id <= |processes| then processes[id - 1] else null
    {
      var i := 0;
      while i < |processes|
        invariant 0 <= i <= |processes|
        invariant forall j :: 0 <= j < i ==> processes[j].id != id
      {
        if processes[i].id == id {
          return processes[i];
        }
        i := i + 1;
      }
      r := null;
    }

    method AllHalted() returns (r: bool)
      ensures r == EveryHalted(States())
    {
      var i := 0;
      while i < |processes|
        invariant 0 <= i <= |processes|
        invariant forall j :: 0 <= j < i ==> States()[j] == Halted
      {
        if processes[i].state != Halted {
          assert States()[i] != Halted;
          return false;
        }
        i := i + 1;
      }
      r := true;
    }
  }

  class PreemptiveScheduler {
    const table: ProcessTable
    const quantum: nat
    var readyQueue: seq<nat>
    var roundRobinIndex: nat
    var running: bool

    constructor (table: ProcessTable, quantum: nat)
      requires table.Valid()
      ensures this.table == table && this.quantum == quantum && running
      ensures Valid() && Value() == Sched(table.States(), table.Slices(), [], 0)
    {
      this.table, this.quantum := table, quantum;
      readyQueue, roundRobinIndex, running := [], 0, true;
    }

    /** The ready queue holds ids of processes in the table. */
    ghost predicate Valid()
      reads this, table
    {
      table.Valid() && forall i :: 0 <= i < |readyQueue| ==> 1 <= readyQueue[i] <= |table.processes|
    }

    function Positions(ids: seq<nat>): seq<nat>
      requires forall i :: 0 <= i < |ids| ==> ids[i] >= 1
    {
      seq(|ids|, i requires 0 <= i < |ids| => ids[i] - 1)
    }

    function Value(): Sched
      requires forall i :: 0 <= i < |readyQueue| ==> readyQueue[i] >= 1
      reads this, table, table.processes, set p | p in table.processes :: p.context
    {
      Sched(table.States(), table.Slices(), Positions(readyQueue), roundRobinIndex)
    }

    method OnPreempt(process: ProcessControlBlock)
      requires Valid() && process in table.processes
      modifies `readyQueue, process`state
      ensures Valid() && Value() == Preempt(old(Value()), process.id - 1)
    {
      if process.state == Running {
        process.state := Ready;
        readyQueue := readyQueue + [process.id];
      }
      assert table.States() == Preempt(old(Value()), process.id - 1).states;
      assert Value().queue == Preempt(old(Value()), process.id - 1).queue;
    }

    method NotifyProcessReady()
      requires Valid()
      modifies `readyQueue
      ensures Valid() && Value() == NotifyReady(old(Value()))
    {
      var i := 0;
      ghost var states := table.States();
      while i < |table.processes|
        invariant 0 <= i <= |table.processes| && Valid()
        invariant AddReady(states, old(Value().queue), 0) == AddReady(states, Positions(readyQueue), i)
      {
        var process := table.processes[i];
        if process.state == Ready {
          assert process.id in readyQueue <==> i in Positions(readyQueue) by { Membership(process.id); }
          if process.id !in readyQueue {
            ghost var before := Positions(readyQueue);
            readyQueue := readyQueue + [process.id];
            assert Positions(readyQueue) == before + [i];
          }
        }
        i := i + 1;
      }
    }

    lemma Membership(id: nat)
      requires Valid() && id >= 1
      ensures id in readyQueue <==> id - 1 in Positions(readyQueue)
    {
      if id in readyQueue {
        var k :| 0 <= k < |readyQueue| && readyQueue[k] == id;
        assert Positions(readyQueue)[k] == id - 1;
      }
      if id - 1 in Positions(readyQueue) {
        var k :| 0 <= k < |readyQueue| && Positions(readyQueue)[k] == id - 1;
        assert readyQueue[k] == id;
      }
    }

    /** setState(Running) and resetTimeSlice on the chosen process. */
    method Grant(process: ProcessControlBlock)
      requires Valid() && process in table.processes
      modifies process`state, process.context`timeSliceLeft
      ensures Valid() && Value() == Granted(old(Value()), process.id - 1, quantum)
    {
      process.state := Running;
      process.context.timeSliceLeft := quantum;
      ghost var g := Granted(old(Value()), process.id - 1, quantum);
      assert table.States() == g.states;
      assert table.Slices() == g.slices;
    }

    /** pickNextProcess, its two loops one after the other. */
    method PickNextProcess() returns (r: ProcessControlBlock?)
      requires Valid()
      modifies `readyQueue, `roundRobinIndex
      modifies (set p | p in table.processes)`state, (set p | p in table.processes :: p.context)`timeSliceLeft
      ensures Valid() && Value() == Pick(old(Value()), quantum).0
      ensures r != null ==> r in table.processes
      ensures (if r == null then None else Some(r.id - 1)) == Pick(old(Value()), quantum).1
    {
      r := TakeFromQueue();
      if r == null {
        r := TakeByScan();
      }
    }

    /** Takes the front id off the queue and finds its process. */
    method PopFront() returns (process: ProcessControlBlock?)
      requires Valid() && readyQueue != []
      modifies `readyQueue
      ensures Valid() && |readyQueue| < |old(readyQueue)|
      ensures Value() == old(Value()).(queue := old(Value()).queue[1..])
      ensures process != null && process in table.processes && process.id - 1 == old(Value()).queue[0]
      ensures process.state == Value().states[process.id - 1]
    {
      var id := readyQueue[0];
      readyQueue := readyQueue[1..];
      assert Value().queue == old(Value()).queue[1..];
      process := table.Find(id);
    }

    method TakeFromQueue() returns (r: ProcessControlBlock?)
      requires Valid()
      modifies `readyQueue
      modifies (set p | p in table.processes)`state, (set p | p in table.processes :: p.context)`timeSliceLeft
      ensures Valid()
      ensures r != null ==> r in table.processes && Pick(old(Value()), quantum) == (Value(), Some(r.id - 1))
      ensures r == null ==> Value() == old(Value()).(queue := [])
                            && Pick(old(Value()), quantum) == Scan(Value(), quantum, 0)
    {
      hide Pick, Scan, Granted;
      ghost var start := Value();
      while readyQueue != []
        invariant Valid() && Value() == start.(queue := Value().queue)
        invariant Pick(start, quantum) == Pick(Value(), quantum)
        decreases |readyQueue|
      {
        ghost var v := Value();
        PickStep(v, quantum);
        var process := PopFront();
        assert Value() == v.(queue := v.queue[1..]);
        if process != null && process.state == Ready {
          assert Pick(v, quantum) == (Granted(Value(), process.id - 1, quantum), Some(process.id - 1));
          Grant(process);
          return process;
        }
      }
      assert Value().queue == [];
      PickStep(Value(), quantum);
      r := null;
    }

    method TakeByScan() returns (r: ProcessControlBlock?)
      requires Valid()
      modifies `roundRobinIndex
      modifies (set p | p in table.processes)`state, (set p | p in table.processes :: p.context)`timeSliceLeft
      ensures Valid() && Value() == Scan(old(Value()), quantum, 0).0
      ensures r != null ==> r in table.processes
      ensures (if r == null then None else Some(r.id - 1)) == Scan(old(Value()), quantum, 0).1
    {
      hide Scan, Granted;
      var i := 0;
      while i < |table.processes|
        invariant 0 <= i <= |table.processes| && Valid() && Value() == old(Value())
        invariant Scan(old(Value()), quantum, 0) == Scan(old(Value()), quantum, i)
      {
        ScanStep(Value(), quantum, i);
        var index := (roundRobinIndex + i) % |table.processes|;
        var process := table.processes[index];
        assert Value().states[index] == process.state;
        if process.state == Ready {
          roundRobinIndex := index + 1;
          Grant(process);
          return process;
        }
        i := i + 1;
      }
      ScanStep(Value(), quantum, i);
      r := null;
    }

    /** The part of acquireProcess after the wait: called only when its predicate holds. */
    method AcquireProcess() returns (r: ProcessControlBlock?)
      requires Valid() && (!running || readyQueue != [])
      modifies `readyQueue, `roundRobinIndex
      modifies (set p | p in table.processes)`state, (set p | p in table.processes :: p.context)`timeSliceLeft
      ensures Valid()
      ensures r != null ==> r in table.processes
      ensures running ==> Value() == Pick(old(Value()), quantum).0
      ensures running ==> (if r == null then None else Some(r.id - 1)) == Pick(old(Value()), quantum).1
      ensures !running ==> r == null && Value() == old(Value())
    {
      if !running {
        return null;
      }
      r := PickNextProcess();
    }

    method HasRunnableWork() returns (r: bool)
      ensures r <==> exists i :: 0 <= i < |table.States()| && table.States()[i] != Halted
    {
      var i := 0;
      while i < |table.processes|
        invariant 0 <= i <= |table.processes|
        invariant forall j :: 0 <= j < i ==> table.States()[j] == Halted
      {
        if table.processes[i].state == Ready || table.processes[i].state == Running {
          assert table.States()[i] != Halted;
          return true;
        }
        i := i + 1;
      }
      r := false;
    }
  }
}
