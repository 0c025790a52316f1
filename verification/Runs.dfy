/** Whole runs of the protocol: ownership, first-in-first-out, bounded waiting and the time slice. */
module Runs {
  import opened Words
  import opened Scheduling
  import opened Protocol
  import opened Ownership
  import opened OwnershipSteps
  import Cpu

  // ---- The start ----------------------------------------------------------------------------------------

  /** The scheduler after n loads: each adds a Ready process with a full time slice and notifies. */
  function Loads(n: nat, quantum: nat): Sched {
    if n == 0 then Sched([], [], [], 0)
    else
      var s := Loads(n - 1, quantum);
      NotifyReady(s.(states := s.states + [Cpu.Ready], slices := s.slices + [quantum]))
  }

  function Boot(n: nat, coreCount: nat, quantum: nat): Os {
    Os(Loads(n, quantum), seq(n, _ => false), seq(coreCount, _ => NotStarted), seq(coreCount, _ => false),
       seq(coreCount, _ => 0), None, true, Begin, false)
  }

  /** The scan passes over the processes that are queued and appends the new one. */
  lemma {:induction false} SkipQueued(states: seq<Cpu.ProcessState>, queue: seq<nat>, i: nat)
    requires |states| == |queue| + 1 && i <= |queue| && states[|queue|] == Cpu.Ready
    requires forall p :: 0 <= p < |queue| ==> queue[p] == p
    ensures AddReady(states, queue, i) == queue + [|queue|]
    decreases |queue| - i
  {
    if i < |queue| {
      assert queue[i] == i;
      SkipQueued(states, queue, i + 1);
    } else {
      assert i !in queue;
      assert AddReady(states, queue + [i], i + 1) == queue + [i];
    }
  }

  /** The loads leave the processes queued in the order of loading, each once. */
  lemma {:induction false} LoadsQueueInOrder(n: nat, quantum: nat)
    ensures var s := Loads(n, quantum);
            && |s.states| == |s.slices| == |s.queue| == n
            && (forall p :: 0 <= p < n ==> s.states[p] == Cpu.Ready && s.slices[p] == quantum && s.queue[p] == p)
  {
    if n == 0 {
    } else {
      LoadsQueueInOrder(n - 1, quantum);
      var s := Loads(n - 1, quantum);
      var states := s.states + [Cpu.Ready];
      assert forall p :: 0 <= p < n - 1 ==> s.queue[p] == p;
      SkipQueued(states, s.queue, 0);
    }
  }

  lemma BootInv(n: nat, coreCount: nat, quantum: nat)
    ensures Inv(Boot(n, coreCount, quantum), quantum)
  {
    LoadsQueueInOrder(n, quantum);
    var s := Boot(n, coreCount, quantum);
    forall p | 0 <= p < n
      ensures p in s.sched.queue
    {
      assert s.sched.queue[p] == p;
    }
  }

  // ---- Runs ---------------------------------------------------------------------------------------------

  /** The state after a list of actions, or None if one of them was not possible. */
  ghost function Run(s: Os, acts: seq<Action>, quantum: nat): Option<Os>
    requires Inv(s, quantum)
    decreases |acts|
  {
    if acts == [] then Some(s)
    else match Next(s, acts[0], quantum)
      case None => None
      case Some(t) => StepKeeps(s, acts[0], quantum); Run(t, acts[1..], quantum)
  }

  lemma AcquireCount(s: Os, c: nat, quantum: nat)
    requires Inv(s, quantum) && c < |s.cores|
    ensures var states := Acquire(s, c, quantum).sched.states;
            && |states| == |s.sched.states|
            && (forall p :: 0 <= p < |states| && s.sched.states[p] == Cpu.Halted ==> states[p] == Cpu.Halted)
  {
    hide PointsOk, RunningHeld, SleepOk, QuantumOk, RunnerOk, ShutdownOk, Pick, AddReady;
    if s.sched.queue != [] {
      PickIsHead(s, quantum);
      assert s.sched.states[s.sched.queue[0]] == Cpu.Ready;
    }
  }

  /** A step creates and loses no process, and a Halted process stays Halted. */
  lemma StepCount(s: Os, a: Action, quantum: nat)
    requires Inv(s, quantum) && Next(s, a, quantum).Some?
    ensures |Next(s, a, quantum).value.sched.states| == |s.sched.states|
    ensures forall p :: 0 <= p < |s.sched.states| && s.sched.states[p] == Cpu.Halted ==>
              Next(s, a, quantum).value.sched.states[p] == Cpu.Halted
  {
    hide QueueOk, PointsOk, RunningHeld, SleepOk, QuantumOk, RunnerOk, ShutdownOk, Acquire, AddReady;
    hide WakeAll, EveryHalted;
    if !a.RunnerStep? && !a.RunnerSpurious? && a.c < |s.cores| {
      PointOf(s, a.c, quantum);
      AcquireCount(s, a.c, quantum);
    }
  }

  /** The invariant holds in every state of every run. */
  lemma {:induction false} RunKeeps(s: Os, acts: seq<Action>, quantum: nat)
    requires Inv(s, quantum) && Run(s, acts, quantum).Some?
    ensures Inv(Run(s, acts, quantum).value, quantum)
    ensures |Run(s, acts, quantum).value.sched.states| == |s.sched.states|
    decreases |acts|
  {
    if acts == [] {
    } else {
      StepKeeps(s, acts[0], quantum);
      StepCount(s, acts[0], quantum);
      RunKeeps(Next(s, acts[0], quantum).value, acts[1..], quantum);
    }
  }

  /** The state that a list of actions reaches from the start of run(). */
  ghost function BootRun(n: nat, coreCount: nat, quantum: nat, acts: seq<Action>): Option<Os> {
    BootInv(n, coreCount, quantum);
    Run(Boot(n, coreCount, quantum), acts, quantum)
  }

  // ---- Ownership and conservation -----------------------------------------------------------------------

  predicate QueuedAt(s: Os, i: nat, p: nat) {
    i < |s.sched.queue| && s.sched.queue[i] == p
  }

  ghost predicate Owned(s: Os, p: nat)
    requires p < |s.sched.states|
  {
    match s.sched.states[p]
    case Ready => (exists i :: QueuedAt(s, i, p) && forall j :: QueuedAt(s, j, p) ==> j == i)
      && !exists c :: Holds(s, c, p)
    case Running => p !in s.sched.queue && exists c :: Holds(s, c, p) && forall d :: Holds(s, d, p) ==> d == c
    case Halted => p !in s.sched.queue
  }

  lemma OwnedOnce(s: Os, p: nat, quantum: nat)
    requires Inv(s, quantum) && p < |s.sched.states|
    ensures Owned(s, p)
  {
    forall c | Holds(s, c, p)
      ensures s.sched.states[p] != Cpu.Ready
    {
      assert PointOk(s, c);
    }
    if s.sched.states[p] == Cpu.Ready {
      var i: nat :| i < |s.sched.queue| && s.sched.queue[i] == p;
      assert QueuedAt(s, i, p);
    } else if s.sched.states[p] == Cpu.Running {
      var c :| Holds(s, c, p);
      assert forall d :: Holds(s, d, p) ==> d == c;
    }
  }

  /** In every reachable state each process is either Ready, queued at one position and held by nobody; or Running,
      not queued and held by one core; or Halted and not queued. */
  lemma EveryProcessOwned(n: nat, coreCount: nat, quantum: nat, acts: seq<Action>, p: nat)
    requires p < n
    requires BootRun(n, coreCount, quantum, acts).Some?
    ensures |BootRun(n, coreCount, quantum, acts).value.sched.states| == n
    ensures Owned(BootRun(n, coreCount, quantum, acts).value, p)
  {
    BootInv(n, coreCount, quantum);
    LoadsQueueInOrder(n, quantum);
    RunKeeps(Boot(n, coreCount, quantum), acts, quantum);
    OwnedOnce(Run(Boot(n, coreCount, quantum), acts, quantum).value, p, quantum);
  }

  /** Once Halted, a process is Halted in every later state. */
  lemma {:induction false} HaltedForever(s: Os, acts: seq<Action>, quantum: nat, p: nat)
    requires Inv(s, quantum) && Run(s, acts, quantum).Some? && p < |s.sched.states| && s.sched.states[p] == Cpu.Halted
    ensures p < |Run(s, acts, quantum).value.sched.states| && Run(s, acts, quantum).value.sched.states[p] == Cpu.Halted
    decreases |acts|
  {
    if acts == [] {
    } else {
      StepKeeps(s, acts[0], quantum);
      StepCount(s, acts[0], quantum);
      HaltedForever(Next(s, acts[0], quantum).value, acts[1..], quantum, p);
    }
  }

  /** In every reachable state a core that was given no process finds the scheduler stopped. */
  lemma NullMeansStopped(n: nat, coreCount: nat, quantum: nat, acts: seq<Action>, c: nat)
    requires BootRun(n, coreCount, quantum, acts).Some?
    ensures var s := BootRun(n, coreCount, quantum, acts).value;
            c < |s.cores| && s.cores[c] == GotNull ==> !s.running
  {
    BootInv(n, coreCount, quantum);
    RunKeeps(Boot(n, coreCount, quantum), acts, quantum);
    hide Run, Next, PointsOk, RunningHeld, QuantumOk, QueueOk, SleepOk, ShutdownOk;
    assert Inv(BootRun(n, coreCount, quantum, acts).value, quantum);
  }

  // ---- First in, first out ------------------------------------------------------------------------------

  /** The process that an action hands to a core, if it does. */
  ghost function TakenBy(s: Os, a: Action, quantum: nat): seq<nat>
    requires Inv(s, quantum) && Next(s, a, quantum).Some?
  {
    if a.Check? && Next(s, a, quantum).value.cores[a.c].Chosen? then [Next(s, a, quantum).value.cores[a.c].p] else []
  }

  /** The process that an action puts back into the queue, if it does. */
  ghost function ReturnedBy(s: Os, a: Action, quantum: nat): seq<nat>
    requires Inv(s, quantum) && Next(s, a, quantum).Some?
  {
    if a.Finish? && Next(s, a, quantum).value.cores[a.c].Idle? then [s.cores[a.c].p] else []
  }

  ghost function Taken(s: Os, acts: seq<Action>, quantum: nat): seq<nat>
    requires Inv(s, quantum) && Run(s, acts, quantum).Some?
    decreases |acts|
  {
    if acts == [] then []
    else StepKeeps(s, acts[0], quantum);
         TakenBy(s, acts[0], quantum) + Taken(Next(s, acts[0], quantum).value, acts[1..], quantum)
  }

  ghost function Returned(s: Os, acts: seq<Action>, quantum: nat): seq<nat>
    requires Inv(s, quantum) && Run(s, acts, quantum).Some?
    decreases |acts|
  {
    if acts == [] then []
    else StepKeeps(s, acts[0], quantum);
         ReturnedBy(s, acts[0], quantum) + Returned(Next(s, acts[0], quantum).value, acts[1..], quantum)
  }

  lemma QueueSame(s: Os, a: Action, quantum: nat)
    requires Inv(s, quantum) && Next(s, a, quantum).Some? && !a.Check? && !a.Finish?
    ensures Next(s, a, quantum).value.sched.queue == s.sched.queue
  {
    NotifyWhenAllQueued(s.sched.states, s.sched.queue, 0);
    if !a.RunnerStep? && !a.RunnerSpurious? {
      assert PointOk(s, a.c);
    }
  }

  lemma CheckFifo(s: Os, a: Action, quantum: nat)
    requires Inv(s, quantum) && Next(s, a, quantum).Some? && a.Check?
    ensures s.sched.queue == TakenBy(s, a, quantum) + Next(s, a, quantum).value.sched.queue
  {
    hide PointsOk, RunningHeld, QuantumOk, RunnerOk, ShutdownOk, Pick, AddReady;
    if s.sched.queue != [] {
      PickIsHead(s, quantum);
    }
  }

  lemma FinishFifo(s: Os, a: Action, quantum: nat)
    requires Inv(s, quantum) && Next(s, a, quantum).Some? && a.Finish?
    ensures s.sched.queue + ReturnedBy(s, a, quantum) == Next(s, a, quantum).value.sched.queue
  {
    PointOf(s, a.c, quantum);
    hide QueueOk, PointsOk, RunningHeld, SleepOk, QuantumOk, RunnerOk, ShutdownOk, Pick, AddReady;
  }

  lemma FifoStep(s: Os, a: Action, quantum: nat)
    requires Inv(s, quantum) && Next(s, a, quantum).Some?
    ensures s.sched.queue + ReturnedBy(s, a, quantum) == TakenBy(s, a, quantum) + Next(s, a, quantum).value.sched.queue
  {
    hide QueueOk, PointsOk, RunningHeld, SleepOk, QuantumOk, RunnerOk, ShutdownOk, Next;
    if a.Check? {
      CheckFifo(s, a, quantum);
    } else if a.Finish? {
      FinishFifo(s, a, quantum);
    } else {
      QueueSame(s, a, quantum);
    }
  }

  lemma Splice4(q: seq<nat>, r: seq<nat>, t: seq<nat>, u: seq<nat>, rs: seq<nat>, ts: seq<nat>, v: seq<nat>)
    requires q + r == t + u && u + rs == ts + v
    ensures q + (r + rs) == (t + ts) + v
  {
    assert q + (r + rs) == (q + r) + rs == t + (u + rs) == (t + ts) + v;
  }

  /** What was queued, followed by what came back, is what was handed out, followed by what is queued now. */
  lemma {:induction false} FifoLaw(s: Os, acts: seq<Action>, quantum: nat)
    requires Inv(s, quantum) && Run(s, acts, quantum).Some?
    ensures s.sched.queue + Returned(s, acts, quantum)
         == Taken(s, acts, quantum) + Run(s, acts, quantum).value.sched.queue
    decreases |acts|
  {
    if acts == [] {
    } else {
      var t := Next(s, acts[0], quantum).value;
      StepKeeps(s, acts[0], quantum);
      FifoStep(s, acts[0], quantum);
      FifoLaw(t, acts[1..], quantum);
      Splice4(s.sched.queue, ReturnedBy(s, acts[0], quantum), TakenBy(s, acts[0], quantum), t.sched.queue,
              Returned(t, acts[1..], quantum), Taken(t, acts[1..], quantum),
              Run(t, acts[1..], quantum).value.sched.queue);
    }
  }

  lemma Removed(q: seq<nat>, k: nat, n: nat)
    requires NoDuplicates(q) && (forall i :: 0 <= i < |q| ==> q[i] < n) && k < |q| && q[k] == n - 1
    ensures var r := q[..k] + q[k + 1..]; NoDuplicates(r) && forall i :: 0 <= i < |r| ==> r[i] < n - 1
  {
    var r := q[..k] + q[k + 1..];
    forall i | 0 <= i < |r|
      ensures r[i] < n - 1
    {
      assert r[i] == q[if i < k then i else i + 1];
    }
  }

  lemma {:induction false} Pigeonhole(q: seq<nat>, n: nat)
    requires NoDuplicates(q) && forall i :: 0 <= i < |q| ==> q[i] < n
    ensures |q| <= n
    decreases n
  {
    hide NoDuplicates;
    assert q == [] || q[0] < n;
    if n == 0 {
    } else if k: nat :| k < |q| && q[k] == n - 1 {
      Removed(q, k, n);
      Pigeonhole(q[..k] + q[k + 1..], n - 1);
    } else {
      Pigeonhole(q, n - 1);
    }
  }

  lemma QueueLength(s: Os, quantum: nat)
    requires Inv(s, quantum)
    ensures |s.sched.queue| <= |s.sched.states|
  {
    Pigeonhole(s.sched.queue, |s.sched.states|);
  }

  lemma SameAt(q: seq<nat>, r: seq<nat>, t: seq<nat>, u: seq<nat>, k: nat)
    requires q + r == t + u && k < |q|
    ensures if |t| <= k then k - |t| < |u| && u[k - |t|] == q[k] else t[k] == q[k]
  {
    assert (q + r)[k] == (t + u)[k];
  }

  /** A process at position k of the queue is handed out as acquisition number k from now, whichever cores take
      them; until then it has moved up by exactly one place per acquisition. */
  lemma BoundedWaiting(s: Os, acts: seq<Action>, quantum: nat, k: nat)
    requires Inv(s, quantum) && Run(s, acts, quantum).Some? && k < |s.sched.queue|
    ensures k < |s.sched.states|
    ensures var taken, t := Taken(s, acts, quantum), Run(s, acts, quantum).value;
            if |taken| <= k then k - |taken| < |t.sched.queue| && t.sched.queue[k - |taken|] == s.sched.queue[k]
            else taken[k] == s.sched.queue[k]
  {
    hide Taken, Returned, Run, QueueOk, PointsOk, RunningHeld, SleepOk, QuantumOk, RunnerOk, ShutdownOk, Shape;
    FifoLaw(s, acts, quantum);
    QueueLength(s, quantum);
    SameAt(s.sched.queue, Returned(s, acts, quantum), Taken(s, acts, quantum),
           Run(s, acts, quantum).value.sched.queue, k);
  }

  // ---- The time slice -----------------------------------------------------------------------------------

  /** In every reachable state, a core that is between two instructions of its process has used up exactly the
      difference between the quantum and the time slice left, and with a quantum of at least 1 it has some left. */
  lemma QuantumBound(s: Os, c: nat, quantum: nat)
    requires Inv(s, quantum) && c < |s.cores| && Held(s.cores[c]).Some? && !s.cores[c].Marked?
    ensures s.ran[c] <= if quantum == 0 then 1 else quantum
    ensures s.cores[c].Holding? || s.cores[c].Chosen? ==> s.ran[c] + s.sched.slices[s.cores[c].p] == quantum
    ensures (s.cores[c].Holding? || s.cores[c].Chosen?) && quantum >= 1 ==> s.ran[c] < quantum
  {
    assert SliceOk(s, c, quantum);
  }

  /** A process that did not yield is put back exactly when its quantum is used up. */
  lemma ReleasedOnExpiry(s: Os, c: nat, p: nat, o: Outcome, quantum: nat)
    requires Inv(s, quantum) && quantum >= 1 && c < |s.cores| && s.cores[c] == Executed(p, o)
    requires (o.Continue? || o.Jump?)
    requires Next(s, Finish(c), quantum).Some?
    ensures Next(s, Finish(c), quantum).value.cores[c] == if s.ran[c] == quantum then Idle else Holding(p)
  {
    assert SliceOk(s, c, quantum) && PointOk(s, c);
  }
}
