/** Each action of the protocol keeps the invariant. */
module OwnershipSteps {
  import opened Words
  import opened Scheduling
  import opened Protocol
  import opened Ownership
  import Cpu

  // ---- Steps of one core leave the others, and the processes they hold, alone ----------------------------

  predicate ProcessSame(s: Os, t: Os, p: nat) {
    && p < |s.sched.states| && p < |t.sched.states| && p < |s.sched.slices| && p < |t.sched.slices|
    && p < |s.halted| && p < |t.halted|
    && t.sched.states[p] == s.sched.states[p] && t.sched.slices[p] == s.sched.slices[p] && t.halted[p] == s.halted[p]
  }

  ghost predicate CoreSame(s: Os, t: Os, d: nat)
    requires Shape(s) && Shape(t) && |t.cores| == |s.cores| && |t.sched.states| == |s.sched.states| && d < |s.cores|
  {
    && (t.cores[d] == s.cores[d] || t.cores[d] == Wake(s.cores[d]))
    && t.ran[d] == s.ran[d]
    && (Held(s.cores[d]).Some? ==> ProcessSame(s, t, Held(s.cores[d]).value))
  }

  ghost predicate ElsewhereSame(s: Os, t: Os, c: nat)
    requires Shape(s)
  {
    && Shape(t) && |t.cores| == |s.cores| && |t.sched.states| == |s.sched.states| && c < |s.cores|
    && (forall d :: 0 <= d < |s.cores| && d != c ==> CoreSame(s, t, d))
  }

  lemma NotTwice(s: Os, t: Os, c: nat, d: nat, e: nat, quantum: nat)
    requires Inv(s, quantum) && ElsewhereSame(s, t, c) && d < e < |t.cores| && Held(t.cores[d]).Some?
    requires Held(t.cores[c]).Some? && Held(t.cores[c]) != Held(s.cores[c]) ==>
               s.sched.states[Held(t.cores[c]).value] == Cpu.Ready
    ensures Held(t.cores[d]) != Held(t.cores[e])
  {
    if d != c { assert CoreSame(s, t, d) && PointOk(s, d); }
    if e != c { assert CoreSame(s, t, e) && PointOk(s, e); }
  }

  /** A process that core c newly holds was held by nobody. */
  lemma HoldersKept(s: Os, t: Os, c: nat, quantum: nat)
    requires Inv(s, quantum) && ElsewhereSame(s, t, c) && PointOk(t, c) && SliceOk(t, c, quantum)
    requires Held(t.cores[c]).Some? && Held(t.cores[c]) != Held(s.cores[c]) ==>
               s.sched.states[Held(t.cores[c]).value] == Cpu.Ready
    requires forall p :: 0 <= p < |s.sched.states| && t.sched.states[p] == Cpu.Running ==>
               (s.sched.states[p] == Cpu.Running && Held(s.cores[c]) != Some(p)) || Held(t.cores[c]) == Some(p)
    ensures PointsOk(t) && QuantumOk(t, quantum) && RunningHeld(t)
  {
    forall d | 0 <= d < |t.cores|
      ensures PointOk(t, d) && SliceOk(t, d, quantum)
    {
      if d != c {
        assert CoreSame(s, t, d) && PointOk(s, d) && SliceOk(s, d, quantum);
      }
    }
    forall d, e | 0 <= d < e < |t.cores| && Held(t.cores[d]).Some?
      ensures Held(t.cores[d]) != Held(t.cores[e])
    {
      NotTwice(s, t, c, d, e, quantum);
    }
    forall p | 0 <= p < |t.sched.states| && t.sched.states[p] == Cpu.Running
      ensures exists d :: Holds(t, d, p)
    {
      if Held(t.cores[c]) == Some(p) {
        assert Holds(t, c, p);
      } else {
        var d :| Holds(s, d, p);
        assert CoreSame(s, t, d);
        assert Holds(t, d, p);
      }
    }
  }

  /** A promise of a callback outlives every step of the cores that do not owe it. */
  lemma ShutdownKept(s: Os, t: Os, c: nat, quantum: nat)
    requires Inv(s, quantum) && ElsewhereSame(s, t, c) && t.runner == s.runner
    requires EveryHalted(t.sched.states) && EveryHalted(s.sched.states) ==>
               (OwesCallback(s.cores[c]) ==> OwesCallback(t.cores[c]))
    requires EveryHalted(t.sched.states) && !EveryHalted(s.sched.states) ==> OwesCallback(t.cores[c])
    ensures ShutdownOk(t)
  {
    if (t.runner == AboutToSleep || t.runner == Sleeping(false)) && EveryHalted(t.sched.states) {
      if EveryHalted(s.sched.states) {
        var d :| 0 <= d < |s.cores| && OwesCallback(s.cores[d]);
        if d != c { assert CoreSame(s, t, d); }
        assert OwesCallback(t.cores[d]);
      } else {
        assert OwesCallback(t.cores[c]);
      }
    }
  }

  /** Core c may take the mutex to decide, or give it back; sleepers learn of new work. */
  lemma SleepKept(s: Os, t: Os, c: nat, quantum: nat)
    requires Inv(s, quantum) && ElsewhereSame(s, t, c)
    requires t.mutex == (if t.cores[c] == Deciding then Some(c) else if s.cores[c] == Deciding then None else s.mutex)
    requires t.cores[c] == Deciding ==> s.mutex.None?
    requires t.cores[c] == Deciding || t.cores[c] == Asleep(false) ==> t.sched.queue == []
    requires (s.sched.queue == [] ==> t.sched.queue == [])
             || (s.mutex.None? && forall d :: 0 <= d < |t.cores| ==> t.cores[d] != Asleep(false))
    ensures SleepOk(t)
  {
    hide PointsOk, RunningHeld, QuantumOk, RunnerOk, ShutdownOk, QueueOk, ProcessSame;
    forall d | 0 <= d < |t.cores|
      ensures t.cores[d] == Deciding <==> t.mutex == Some(d)
      ensures t.cores[d] == Asleep(false) ==> t.sched.queue == []
    {
      if d != c {
        assert CoreSame(s, t, d);
      }
    }
  }

  /** Core c's step leaves run() where it is, except that it may wake it. */
  lemma RunnerKept(s: Os, t: Os, c: nat, quantum: nat)
    requires Inv(s, quantum) && ElsewhereSame(s, t, c)
    requires t.running == s.running && t.stopRequested == s.stopRequested
    requires t.runner == s.runner || (s.runner.Sleeping? && t.runner.Sleeping?)
    requires s.cores[c] != NotStarted && t.cores[c] != NotStarted
    requires t.cores[c] == Exited ==> s.stopRequested[c]
    requires t.cores[c].GotNull? || t.cores[c].Announcing? ==> !s.running
    requires EveryHalted(s.sched.states) ==> EveryHalted(t.sched.states)
    ensures RunnerOk(t)
  {
    hide PointsOk, RunningHeld, QuantumOk, SleepOk, ShutdownOk, QueueOk, ProcessSame;
    forall d | 0 <= d < |t.cores|
      ensures !t.runner.Begin? ==> (t.cores[d] == NotStarted <==> t.runner.Launch? && t.runner.i <= d)
      ensures t.cores[d] == Exited ==> t.stopRequested[d]
      ensures t.cores[d].GotNull? || t.cores[d].Announcing? ==> !t.running
    {
      if d != c {
        assert CoreSame(s, t, d);
      }
    }
  }

  lemma PointOf(s: Os, c: nat, quantum: nat)
    requires Inv(s, quantum) && c < |s.cores|
    ensures PointOk(s, c) && SliceOk(s, c, quantum)
    ensures s.cores[c] == Deciding ==> s.mutex == Some(c) && s.sched.queue == []
    ensures s.cores[c].Holding? ==> !s.stopRequested[c]
    ensures s.cores[c].GotNull? || s.cores[c].Announcing? ==> !s.running
  {
    hide RunningHeld, ShutdownOk, NoDuplicates;
  }

  // ---- The actions --------------------------------------------------------------------------------------

  /** Core c moves between two points at which it holds nothing; only the mutex may change hands. */
  lemma MoveKeeps(s: Os, t: Os, c: nat, quantum: nat)
    requires Inv(s, quantum) && c < |s.cores| && s.cores[c] != NotStarted
    requires |t.cores| == |s.cores| && t == s.At(c, t.cores[c]).(mutex := t.mutex)
    requires Held(s.cores[c]).None? && Held(t.cores[c]).None? && !s.cores[c].CallbackDue? && t.cores[c] != NotStarted
    requires t.cores[c] == Asleep(false) ==> s.sched.queue == []
    requires t.cores[c] == Exited ==> s.stopRequested[c]
    requires t.cores[c].GotNull? || t.cores[c].Announcing? ==> !s.running
    requires if t.cores[c] == Deciding then s.mutex.None? && t.mutex == Some(c) && s.sched.queue == []
             else t.mutex == if s.cores[c] == Deciding then None else s.mutex
    ensures Inv(t, quantum)
  {
    hide PointsOk, RunningHeld, QuantumOk, SleepOk, RunnerOk, ShutdownOk;
    assert ElsewhereSame(s, t, c);
    SleepKept(s, t, c, quantum);
    RunnerKept(s, t, c, quantum);
    HoldersKept(s, t, c, quantum);
    ShutdownKept(s, t, c, quantum);
  }

  /** Under the invariant a pick takes the head of the queue; the fallback scan never runs. */
  lemma PickIsHead(s: Os, quantum: nat)
    requires Inv(s, quantum) && s.sched.queue != []
    ensures Pick(s.sched, quantum)
         == (Granted(s.sched.(queue := s.sched.queue[1..]), s.sched.queue[0], quantum), Some(s.sched.queue[0]))
  {
  }

  lemma HeadTaken(s: Os, t: Os, quantum: nat)
    requires Inv(s, quantum) && s.sched.queue != []
    requires t.sched == Granted(s.sched.(queue := s.sched.queue[1..]), s.sched.queue[0], quantum)
    requires t.halted == s.halted
    requires Shape(t)
    ensures QueueOk(t)
  {
    forall p | 0 <= p < |t.sched.states| && t.sched.states[p] == Cpu.Ready
      ensures p in t.sched.queue
    {
      assert p in s.sched.queue && p != s.sched.queue[0];
      var k :| 0 <= k < |s.sched.queue| && s.sched.queue[k] == p;
      assert t.sched.queue[k - 1] == p;
    }
  }

  lemma GrantKeeps(s: Os, t: Os, c: nat, quantum: nat)
    requires Inv(s, quantum) && c < |s.cores| && s.mutex.None? && s.running && s.sched.queue != []
    requires s.cores[c].Acquiring? || s.cores[c] == Asleep(true)
    requires var p := s.sched.queue[0];
             t == s.At(c, Chosen(p)).(sched := Granted(s.sched.(queue := s.sched.queue[1..]), p, quantum),
                                      ran := s.ran[c := 0])
    ensures Inv(t, quantum)
  {
    hide PointsOk, RunningHeld, QuantumOk, SleepOk, RunnerOk, ShutdownOk;
    var p := s.sched.queue[0];
    HeadTaken(s, t, quantum);
    assert s.sched.states[p] == Cpu.Ready && !s.halted[p];
    forall d | 0 <= d < |s.cores| && d != c
      ensures CoreSame(s, t, d)
    {
      PointOf(s, d, quantum);
    }
    SleepKept(s, t, c, quantum);
    RunnerKept(s, t, c, quantum);
    HoldersKept(s, t, c, quantum);
    ShutdownKept(s, t, c, quantum);
  }

  lemma AcquireKeeps(s: Os, c: nat, quantum: nat)
    requires Inv(s, quantum) && c < |s.cores| && s.mutex.None?
    requires s.cores[c].Acquiring? || s.cores[c] == Asleep(true)
    ensures Inv(Acquire(s, c, quantum), quantum)
  {
    var t := Acquire(s, c, quantum);
    if !s.running || s.sched.queue == [] {
      MoveKeeps(s, t, c, quantum);
    } else {
      PickIsHead(s, quantum);
      GrantKeeps(s, t, c, quantum);
    }
  }

  /** A notification that finds every Ready process queued only wakes the sleepers. */
  lemma NotifyKeeps(s: Os, c: nat, pt: CorePoint, quantum: nat)
    requires Inv(s, quantum) && c < |s.cores| && s.mutex.None?
    requires (s.cores[c].Announcing? && pt == Idle) || (s.cores[c].Marked? && pt == CallbackDue)
    ensures Inv(Notified(s, c, pt, NotifyReady(s.sched)), quantum)
  {
    hide PointsOk, RunningHeld, QuantumOk, SleepOk, RunnerOk, ShutdownOk;
    NotifyWhenAllQueued(s.sched.states, s.sched.queue, 0);
    var t := Notified(s, c, pt, NotifyReady(s.sched));
    assert t.sched == s.sched;
    assert ElsewhereSame(s, t, c);
    PointOf(s, c, quantum);
    SleepKept(s, t, c, quantum);
    RunnerKept(s, t, c, quantum);
    HoldersKept(s, t, c, quantum);
    ShutdownKept(s, t, c, quantum);
  }

  /** Core c goes on with the process it holds. */
  lemma AdvanceKeeps(s: Os, c: nat, p: nat, pt: CorePoint, quantum: nat)
    requires Inv(s, quantum) && c < |s.cores|
    requires (s.cores[c] == Holding(p) && pt == Chosen(p)) || (s.cores[c] == Chosen(p) && pt == Fetched(p))
    ensures Inv(s.At(c, pt), quantum)
  {
    hide PointsOk, RunningHeld, QuantumOk, SleepOk, RunnerOk, ShutdownOk;
    PointOf(s, c, quantum);
    var t := s.At(c, pt);
    assert ElsewhereSame(s, t, c);
    SleepKept(s, t, c, quantum);
    RunnerKept(s, t, c, quantum);
    HoldersKept(s, t, c, quantum);
    ShutdownKept(s, t, c, quantum);
  }

  lemma FetchKeeps(s: Os, c: nat, quantum: nat)
    requires Inv(s, quantum) && c < |s.cores| && s.cores[c].Chosen?
    ensures !s.halted[s.cores[c].p] && s.sched.states[s.cores[c].p] != Cpu.Halted
    ensures Inv(s.At(c, Fetched(s.cores[c].p)), quantum)
  {
    hide Inv;
    PointOf(s, c, quantum);
    AdvanceKeeps(s, c, s.cores[c].p, Fetched(s.cores[c].p), quantum);
  }

  /** Steps of the runner that move no core beyond waking it. */
  lemma AllSame(s: Os, t: Os, quantum: nat)
    requires Inv(s, quantum) && Shape(t) && t.sched == s.sched && t.halted == s.halted && t.ran == s.ran
    requires (t.cores == s.cores || t.cores == WakeAll(s.cores)) && t.mutex == s.mutex
    ensures PointsOk(t) && QuantumOk(t, quantum) && RunningHeld(t) && SleepOk(t)
  {
    hide RunnerOk, ShutdownOk, NoDuplicates;
    forall d | 0 <= d < |t.cores|
      ensures PointOk(t, d) && SliceOk(t, d, quantum)
    {
      assert PointOk(s, d) && SliceOk(s, d, quantum);
    }
    forall p | 0 <= p < |t.sched.states| && t.sched.states[p] == Cpu.Running
      ensures exists d :: Holds(t, d, p)
    {
      var d :| Holds(s, d, p);
      assert Holds(t, d, p);
    }
  }

  lemma CrashKeeps(s: Os, quantum: nat)
    requires Inv(s, quantum)
    ensures Inv(s.(crashed := true), quantum)
  {
    AllSame(s, s.(crashed := true), quantum);
    hide PointsOk, RunningHeld, QuantumOk, SleepOk;
  }

  /** Whatever core c does to the process it holds, the other cores hold others. */
  lemma OthersKeepTheirs(s: Os, t: Os, c: nat, p: nat)
    requires Shape(s) && Shape(t) && PointsOk(s) && c < |s.cores| && Held(s.cores[c]) == Some(p)
    requires |t.cores| == |s.cores| && |t.sched.states| == |s.sched.states|
    requires forall d :: 0 <= d < |s.cores| && d != c ==>
               (t.cores[d] == s.cores[d] || t.cores[d] == Wake(s.cores[d])) && t.ran[d] == s.ran[d]
    requires forall q :: 0 <= q < |s.sched.states| && q != p ==> ProcessSame(s, t, q)
    ensures ElsewhereSame(s, t, c)
  {
    forall d | 0 <= d < |s.cores| && d != c
      ensures CoreSame(s, t, d)
    {
      assert Held(s.cores[d]).Some? ==> Held(s.cores[d]) != Held(s.cores[c]);
    }
  }

  /** The ready queue is not touched by changes to a Running process. */
  lemma HaltedQueue(s: Os, t: Os, p: nat)
    requires Shape(s) && Shape(t) && QueueOk(s) && p < |s.sched.states| && s.sched.states[p] != Cpu.Ready
    requires |t.sched.states| == |s.sched.states| && t.sched.queue == s.sched.queue && t.sched.states[p] != Cpu.Ready
    requires forall q :: 0 <= q < |s.sched.states| && q != p ==> ProcessSame(s, t, q)
    ensures QueueOk(t)
  {
    forall i | 0 <= i < |t.sched.queue|
      ensures t.sched.states[t.sched.queue[i]] == Cpu.Ready
    {
      assert ProcessSame(s, t, s.sched.queue[i]);
    }
    forall q | 0 <= q < |t.sched.states| && t.sched.states[q] == Cpu.Ready
      ensures q in t.sched.queue && !t.halted[q]
    {
      assert ProcessSame(s, t, q);
    }
  }

  lemma RanKeeps(s: Os, c: nat, p: nat, o: Outcome, quantum: nat)
    requires Inv(s, quantum) && c < |s.cores| && s.cores[c] == Fetched(p)
    ensures Inv(Ran(s, c, p, o), quantum)
  {
    hide PointsOk, RunningHeld, QuantumOk, SleepOk, RunnerOk, ShutdownOk;
    var t := Ran(s, c, p, o);
    if o.Throw? || o.External? {
      CrashKeeps(s, quantum);
    } else {
      PointOf(s, c, quantum);
      OthersKeepTheirs(s, t, c, p);
      HaltedQueue(s, t, p);
      SleepKept(s, t, c, quantum);
      RunnerKept(s, t, c, quantum);
      HoldersKept(s, t, c, quantum);
      ShutdownKept(s, t, c, quantum);
    }
  }

  /** setState(Halted) after halt, exit or an error. */
  lemma MarkKeeps(s: Os, c: nat, p: nat, o: Outcome, quantum: nat)
    requires Inv(s, quantum) && c < |s.cores| && s.cores[c] == Executed(p, o) && (o.Halt? || o.Error?)
    ensures Finished(s, c, p, o).Some? && Inv(Finished(s, c, p, o).value, quantum)
  {
    hide PointsOk, RunningHeld, QuantumOk, SleepOk, RunnerOk, ShutdownOk;
    PointOf(s, c, quantum);
    var t := Finished(s, c, p, o).value;
    OthersKeepTheirs(s, t, c, p);
    HaltedQueue(s, t, p);
    SleepKept(s, t, c, quantum);
    RunnerKept(s, t, c, quantum);
    HoldersKept(s, t, c, quantum);
    ShutdownKept(s, t, c, quantum);
  }

  lemma QueuedBack(s: Os, t: Os, p: nat)
    requires Shape(s) && QueueOk(s) && Shape(t) && p < |s.sched.states| && s.sched.states[p] == Cpu.Running
    requires !s.halted[p]
    requires t.sched == Preempt(s.sched, p) && t.halted == s.halted
    ensures QueueOk(t)
  {
    forall q | 0 <= q < |t.sched.states| && t.sched.states[q] == Cpu.Ready
      ensures q in t.sched.queue
    {
      if q == p {
        assert t.sched.queue[|s.sched.queue|] == p;
      } else {
        Prefix(s.sched.queue, t.sched.queue, q);
      }
    }
  }

  /** onPreempt: the process goes to the back of the queue. */
  lemma PreemptKeeps(s: Os, c: nat, p: nat, quantum: nat)
    requires Inv(s, quantum) && c < |s.cores| && s.mutex.None?
    requires Held(s.cores[c]) == Some(p) && s.sched.states[p] == Cpu.Running && !s.halted[p]
    ensures Inv(Notified(s, c, Idle, Preempt(s.sched, p)), quantum)
  {
    hide PointsOk, RunningHeld, QuantumOk, SleepOk, RunnerOk, ShutdownOk;
    var t := Notified(s, c, Idle, Preempt(s.sched, p));
    OthersKeepTheirs(s, t, c, p);
    QueuedBack(s, t, p);
    SleepKept(s, t, c, quantum);
    RunnerKept(s, t, c, quantum);
    HoldersKept(s, t, c, quantum);
    ShutdownKept(s, t, c, quantum);
  }

  lemma FinishKeeps(s: Os, c: nat, p: nat, o: Outcome, quantum: nat)
    requires Inv(s, quantum) && c < |s.cores| && s.cores[c] == Executed(p, o)
    ensures Finished(s, c, p, o).Some? ==> Inv(Finished(s, c, p, o).value, quantum)
  {
    hide PointsOk, RunningHeld, QuantumOk, SleepOk, RunnerOk, ShutdownOk;
    PointOf(s, c, quantum);
    if o.Halt? || o.Error? {
      MarkKeeps(s, c, p, o, quantum);
    } else if o.Yield? || s.sched.slices[p] == 0 {
      if s.mutex.None? {
        PreemptKeeps(s, c, p, quantum);
      }
    } else {
      var t := s.At(c, Holding(p));
      OthersKeepTheirs(s, t, c, p);
      SleepKept(s, t, c, quantum);
      RunnerKept(s, t, c, quantum);
      HoldersKept(s, t, c, quantum);
      ShutdownKept(s, t, c, quantum);
    }
  }

  lemma QueueSame(s: Os, t: Os)
    requires Shape(s) && Shape(t) && QueueOk(s) && t.sched == s.sched && t.halted == s.halted
    ensures QueueOk(t)
  {
  }

  lemma CallbackWakes(s: Os, c: nat, quantum: nat)
    requires Inv(s, quantum) && c < |s.cores| && s.cores[c].CallbackDue? && s.runner != AboutToSleep
    ensures ShutdownOk(CoreStep(s, Callback(c), c, quantum).value)
  {
    hide PointsOk, RunningHeld, QuantumOk, SleepOk, RunnerOk, QueueOk, AddReady, Pick;
  }

  lemma CallbackKeeps(s: Os, c: nat, quantum: nat)
    requires Inv(s, quantum) && c < |s.cores| && s.cores[c].CallbackDue? && s.runner != AboutToSleep
    ensures Inv(CoreStep(s, Callback(c), c, quantum).value, quantum)
  {
    hide PointsOk, RunningHeld, QuantumOk, SleepOk, RunnerOk, ShutdownOk, AddReady, Pick, NoDuplicates;
    var t := CoreStep(s, Callback(c), c, quantum).value;
    assert ElsewhereSame(s, t, c);
    SleepKept(s, t, c, quantum);
    RunnerKept(s, t, c, quantum);
    HoldersKept(s, t, c, quantum);
    CallbackWakes(s, c, quantum);
  }

  lemma BeginKeeps(s: Os, quantum: nat)
    requires Inv(s, quantum) && s.runner.Begin? && s.mutex.None?
    ensures Inv(RunnerNext(s).value, quantum)
  {
    hide PointsOk, RunningHeld, QuantumOk, SleepOk, AddReady;
    NotifyWhenAllQueued(s.sched.states, s.sched.queue, 0);
    AllSame(s, RunnerNext(s).value, quantum);
  }

  lemma LaunchKeeps(s: Os, quantum: nat)
    requires Inv(s, quantum) && s.runner.Launch?
    ensures Inv(RunnerNext(s).value, quantum)
  {
    hide PointsOk, RunningHeld, QuantumOk, SleepOk, NoDuplicates, AddReady, Pick;
    var t, i := RunnerNext(s).value, s.runner.i;
    if i < |s.cores| {
      assert s.cores[i] == NotStarted;
      assert ElsewhereSame(s, t, i);
      SleepKept(s, t, i, quantum);
      HoldersKept(s, t, i, quantum);
    } else {
      AllSame(s, t, quantum);
    }
  }

  lemma StopKeeps(s: Os, quantum: nat)
    requires Inv(s, quantum) && RunnerNext(s).Some? && Stopping(s.runner)
    ensures Inv(RunnerNext(s).value, quantum)
  {
    hide PointsOk, RunningHeld, QuantumOk, SleepOk, QueueOk;
    AllSame(s, RunnerNext(s).value, quantum);
    QueueSame(s, RunnerNext(s).value);
  }

  lemma WaitKeeps(s: Os, quantum: nat)
    requires Inv(s, quantum) && RunnerNext(s).Some? && (s.runner.Test? || s.runner.AboutToSleep? || s.runner.Sleeping?)
    ensures Inv(RunnerNext(s).value, quantum)
  {
    hide PointsOk, RunningHeld, QuantumOk, SleepOk, QueueOk;
    AllSame(s, RunnerNext(s).value, quantum);
    QueueSame(s, RunnerNext(s).value);
  }

  lemma RunnerKeeps(s: Os, quantum: nat)
    requires Inv(s, quantum) && RunnerNext(s).Some?
    ensures Inv(RunnerNext(s).value, quantum)
  {
    if s.runner.Begin? {
      BeginKeeps(s, quantum);
    } else if s.runner.Launch? {
      LaunchKeeps(s, quantum);
    } else if Stopping(s.runner) {
      StopKeeps(s, quantum);
    } else {
      WaitKeeps(s, quantum);
    }
  }

  lemma CoreKeeps(s: Os, a: Action, c: nat, quantum: nat)
    requires Inv(s, quantum) && c < |s.cores| && CoreStep(s, a, c, quantum).Some?
    ensures Inv(CoreStep(s, a, c, quantum).value, quantum)
  {
    hide PointsOk, RunningHeld, QuantumOk, SleepOk, RunnerOk, ShutdownOk;
    var t := CoreStep(s, a, c, quantum).value;
    PointOf(s, c, quantum);
    match s.cores[c] {
      case Idle => MoveKeeps(s, t, c, quantum);
      case Acquiring => AcquireKeeps(s, c, quantum);
      case Asleep(_) => if a.Check? { AcquireKeeps(s, c, quantum); } else { MoveKeeps(s, t, c, quantum); }
      case Deciding => MoveKeeps(s, t, c, quantum);
      case GotNull => MoveKeeps(s, t, c, quantum);
      case Announcing => NotifyKeeps(s, c, Idle, quantum);
      case Holding(p) => AdvanceKeeps(s, c, p, Chosen(p), quantum);
      case Chosen(p) =>
        FetchKeeps(s, c, quantum);
        if a.FetchFault? { CrashKeeps(s, quantum); }
      case Fetched(p) => RanKeeps(s, c, p, a.o, quantum);
      case Executed(p, o) => FinishKeeps(s, c, p, o, quantum);
      case Marked(p) => NotifyKeeps(s, c, CallbackDue, quantum);
      case CallbackDue => CallbackKeeps(s, c, quantum);
      case _ =>
    }
  }

  /** Every step keeps the invariant. */
  lemma StepKeeps(s: Os, a: Action, quantum: nat)
    requires Inv(s, quantum) && Next(s, a, quantum).Some?
    ensures Inv(Next(s, a, quantum).value, quantum)
  {
    var t := Next(s, a, quantum).value;
    if a.RunnerStep? {
      RunnerKeeps(s, quantum);
    } else if a.RunnerSpurious? {
      AllSame(s, t, quantum);
    } else {
      CoreKeeps(s, a, a.c, quantum);
    }
  }
}
