/** No lost wake-up: up to shutdown some step other than a spurious wake-up is always possible. During shutdown one
    wake-up can be lost, because stop() clears its flag without the scheduler mutex; Shutdown says exactly when. */
module Progress {
  import opened Scheduling
  import opened Protocol
  import opened Ownership
  import opened OwnershipSteps
  import opened Runs
  import Cpu
  import Machine

  predicate Spurious(a: Action) {
    a.SpuriousWake? || a.RunnerSpurious?
  }

  /** The spurious wake-ups among some actions. */
  function SpuriousCount(acts: seq<Action>): nat {
    if acts == [] then 0 else (if Spurious(acts[0]) then 1 else 0) + SpuriousCount(acts[1..])
  }

  ghost predicate CanStep(s: Os, quantum: nat)
    requires Shape(s)
  {
    exists a :: !Spurious(a) && Next(s, a, quantum).Some?
  }

  /** In every reachable state, a core that sleeps without having been notified means that no process is Ready. */
  lemma SleepersMeanNoWork(n: nat, coreCount: nat, quantum: nat, acts: seq<Action>, c: nat)
    requires BootRun(n, coreCount, quantum, acts).Some?
    ensures var s := BootRun(n, coreCount, quantum, acts).value;
            c < |s.cores| && s.cores[c] == Asleep(false) ==>
              s.sched.queue == [] && forall p :: 0 <= p < |s.sched.states| ==> s.sched.states[p] != Cpu.Ready
  {
    BootInv(n, coreCount, quantum);
    RunKeeps(Boot(n, coreCount, quantum), acts, quantum);
    hide Run, Next, PointsOk, RunningHeld, QuantumOk, RunnerOk, ShutdownOk;
    var s := BootRun(n, coreCount, quantum, acts).value;
    assert Inv(s, quantum);
  }

  /** In every reachable state in which all processes are Halted and no core has yet to call back, run() is not asleep
      un-notified; so once the last callback is over, it has been woken. */
  lemma NoLostShutdown(n: nat, coreCount: nat, quantum: nat, acts: seq<Action>)
    requires BootRun(n, coreCount, quantum, acts).Some?
    ensures var s := BootRun(n, coreCount, quantum, acts).value;
            EveryHalted(s.sched.states) && (forall c :: 0 <= c < |s.cores| ==> !OwesCallback(s.cores[c])) ==>
              s.runner != AboutToSleep && s.runner != Sleeping(false)
  {
    BootInv(n, coreCount, quantum);
    RunKeeps(Boot(n, coreCount, quantum), acts, quantum);
    hide Run, Next, PointsOk, RunningHeld, QuantumOk, QueueOk, SleepOk;
    var s := BootRun(n, coreCount, quantum, acts).value;
    assert Inv(s, quantum);
  }

  lemma BusyCoreSteps(s: Os, c: nat, quantum: nat)
    requires Inv(s, quantum) && !s.crashed && s.mutex.None? && c < |s.cores| && s.runner != AboutToSleep
    requires Held(s.cores[c]).Some? || s.cores[c].CallbackDue?
    ensures CanStep(s, quantum)
  {
    hide QueueOk, PointsOk, RunningHeld, SleepOk, QuantumOk, RunnerOk, ShutdownOk, AddReady, Preempt;
    PointOf(s, c, quantum);
    match s.cores[c] {
      case Holding(p) => assert Next(s, Loop(c), quantum).Some?;
      case Chosen(p) => assert Next(s, Fetch(c), quantum).Some?;
      case Fetched(p) => assert Next(s, Execute(c, Machine.Continue), quantum).Some?;
      case Executed(p, o) => assert Next(s, Finish(c), quantum).Some?;
      case Marked(p) => assert Next(s, Release(c), quantum).Some?;
      case CallbackDue => assert Next(s, Callback(c), quantum).Some?;
    }
  }

  /** With at least one core, every state reached before shutdown can go on. */
  lemma NeverStuck(s: Os, quantum: nat)
    requires Inv(s, quantum) && !s.crashed && !Stopping(s.runner) && s.cores != []
    ensures CanStep(s, quantum)
  {
    if s.mutex.Some? {
      assert Next(s, Sleep(s.mutex.value), quantum).Some?;
    } else if s.runner != Sleeping(false) {
      assert Next(s, RunnerStep, quantum).Some?;
    } else if EveryHalted(s.sched.states) {
      var c: nat :| c < |s.cores| && OwesCallback(s.cores[c]);
      BusyCoreSteps(s, c, quantum);
    } else {
      var p: nat :| p < |s.sched.states| && s.sched.states[p] != Cpu.Halted;
      if s.sched.states[p] == Cpu.Running {
        var c :| Holds(s, c, p);
        BusyCoreSteps(s, c, quantum);
      } else {
        assert s.sched.queue != [];
        if s.cores[0].Idle? {
          assert Next(s, Loop(0), quantum).Some?;
        } else if s.cores[0].Acquiring? || s.cores[0].Asleep? {
          assert Next(s, Check(0), quantum).Some?;
        } else {
          BusyCoreSteps(s, 0, quantum);
        }
      }
    }
  }

  lemma StepCores(s: Os, a: Action, quantum: nat)
    requires Inv(s, quantum) && Next(s, a, quantum).Some?
    ensures |Next(s, a, quantum).value.cores| == |s.cores|
  {
    hide QueueOk, PointsOk, RunningHeld, SleepOk, QuantumOk, RunnerOk, ShutdownOk, Pick, AddReady, Preempt;
  }

  lemma {:induction false} CoresKept(s: Os, acts: seq<Action>, quantum: nat)
    requires Inv(s, quantum) && Run(s, acts, quantum).Some?
    ensures |Run(s, acts, quantum).value.cores| == |s.cores|
    decreases |acts|
  {
    if acts == [] {
    } else {
      StepKeeps(s, acts[0], quantum);
      StepCores(s, acts[0], quantum);
      CoresKept(Next(s, acts[0], quantum).value, acts[1..], quantum);
    }
  }

  /** Every state of every run from the start that has not reached shutdown can go on. */
  lemma NoDeadlock(n: nat, coreCount: nat, quantum: nat, acts: seq<Action>)
    requires coreCount >= 1 && BootRun(n, coreCount, quantum, acts).Some?
    ensures var s := BootRun(n, coreCount, quantum, acts).value;
            Shape(s) && (!s.crashed && !Stopping(s.runner) ==> CanStep(s, quantum))
  {
    BootInv(n, coreCount, quantum);
    RunKeeps(Boot(n, coreCount, quantum), acts, quantum);
    CoresKept(Boot(n, coreCount, quantum), acts, quantum);
    var s := BootRun(n, coreCount, quantum, acts).value;
    if !s.crashed && !Stopping(s.runner) {
      NeverStuck(s, quantum);
    }
  }

  // ---- Shutdown -----------------------------------------------------------------------------------------

  /** Shutdown after its notify_all, with no core on its way to sleep. */
  ghost predicate Settled(s: Os) {
    && (s.runner.StopCore? || s.runner.Join? || s.runner.Done?)
    && forall c :: 0 <= c < |s.cores| ==> s.cores[c] != Deciding && s.cores[c] != Asleep(false)
  }

  /** If the scheduler mutex is free when stop() notifies, the shutdown is settled, ... */
  lemma NotifyWithMutexFree(s: Os, quantum: nat)
    requires Inv(s, quantum) && s.runner == StopNotify
    ensures Settled(RunnerNext(s).value) <==> s.mutex.None?
  {
    if s.mutex.Some? {
      assert RunnerNext(s).value.cores[s.mutex.value] == Deciding;
    }
  }

  /** ... stays settled, ... */
  lemma SettledKept(s: Os, a: Action, quantum: nat)
    requires Inv(s, quantum) && Settled(s) && Next(s, a, quantum).Some?
    ensures Settled(Next(s, a, quantum).value)
  {
    if !a.RunnerStep? && !a.RunnerSpurious? {
      assert PointOk(s, a.c);
    }
  }

  /** ... and can always go on until run() returns. */
  lemma SettledProgress(s: Os, quantum: nat)
    requires Inv(s, quantum) && Settled(s) && !s.crashed && s.runner != Done
    ensures CanStep(s, quantum)
  {
    assert s.mutex.None?;
    if c: nat :| c < |s.cores| && s.cores[c] != Exited {
      if s.cores[c].Idle? {
        assert Next(s, Loop(c), quantum).Some?;
      } else if s.cores[c].Acquiring? || s.cores[c].Asleep? {
        assert Next(s, Check(c), quantum).Some?;
      } else if s.cores[c].GotNull? {
        assert Next(s, Retry(c), quantum).Some?;
      } else if s.cores[c].Announcing? {
        assert Next(s, Announce(c), quantum).Some?;
      } else {
        BusyCoreSteps(s, c, quantum);
      }
    } else {
      assert Next(s, RunnerStep, quantum).Some?;
    }
  }
}
