/** What every step of the protocol keeps: who owns a process, the queue, the sleepers, the time slices and the
    shutdown handshake. */
module Ownership {
  import opened Words
  import opened Scheduling
  import opened Protocol
  import Cpu
  import Machine

  /** Each queued process is Ready and queued once, and each Ready process is queued and has not halted. */
  ghost predicate QueueOk(s: Os)
    requires Shape(s)
  {
    && NoDuplicates(s.sched.queue)
    && (forall i :: 0 <= i < |s.sched.queue| ==> s.sched.states[s.sched.queue[i]] == Cpu.Ready)
    && (forall p :: 0 <= p < |s.sched.states| && s.sched.states[p] == Cpu.Ready ==> p in s.sched.queue && !s.halted[p])
  }

  /** What core c's program point says about the process it holds. */
  ghost predicate PointOk(s: Os, c: nat)
    requires Shape(s) && c < |s.cores|
  {
    match s.cores[c]
    case Holding(p) => s.sched.states[p] == Cpu.Running && !s.halted[p]
    case Chosen(p) => s.sched.states[p] == Cpu.Running && !s.halted[p]
    case Fetched(p) => s.sched.states[p] == Cpu.Running && !s.halted[p]
    case Executed(p, o) =>
      && !o.Throw? && !o.External?
      && s.sched.states[p] == (if o == Machine.Halt(true) then Cpu.Halted else Cpu.Running)
      && s.halted[p] == o.Halt?
    case Marked(p) => s.sched.states[p] == Cpu.Halted && s.halted[p]
    case _ => true
  }

  ghost predicate PointsOk(s: Os)
    requires Shape(s)
  {
    && (forall c :: 0 <= c < |s.cores| ==> PointOk(s, c))
    && (forall c, d :: 0 <= c < d < |s.cores| && Held(s.cores[c]).Some? ==> Held(s.cores[c]) != Held(s.cores[d]))
  }

  ghost predicate Holds(s: Os, c: nat, p: nat) {
    c < |s.cores| && Held(s.cores[c]) == Some(p)
  }

  /** Every Running process is held by some core. */
  ghost predicate RunningHeld(s: Os)
    requires Shape(s)
  {
    forall p :: 0 <= p < |s.sched.states| && s.sched.states[p] == Cpu.Running ==> exists c :: Holds(s, c, p)
  }

  /** Exactly the deciding core holds the mutex, and while it does, or while a core sleeps un-notified, no process
      is queued. */
  ghost predicate SleepOk(s: Os) {
    && (forall c :: 0 <= c < |s.cores| ==> (s.cores[c] == Deciding <==> s.mutex == Some(c)))
    && (s.mutex.Some? ==> s.mutex.value < |s.cores| && s.sched.queue == [])
    && (forall c :: 0 <= c < |s.cores| && s.cores[c] == Asleep(false) ==> s.sched.queue == [])
  }

  ghost predicate SliceOk(s: Os, c: nat, quantum: nat)
    requires Shape(s) && c < |s.cores|
  {
    match s.cores[c]
    case Holding(p) => s.ran[c] + s.sched.slices[p] == quantum && (quantum >= 1 ==> s.sched.slices[p] >= 1)
    case Chosen(p) => s.ran[c] + s.sched.slices[p] == quantum && (quantum >= 1 ==> s.sched.slices[p] >= 1)
    case Fetched(p) => s.ran[c] + s.sched.slices[p] == quantum && (quantum >= 1 ==> s.sched.slices[p] >= 1)
    case Executed(p, o) =>
      && s.ran[c] >= 1
      && s.ran[c] + s.sched.slices[p] == (if o.Yield? || o == Machine.Halt(true) then quantum + 1
                                          else if quantum == 0 then 1 else quantum)
      && (quantum >= 1 && (o.Yield? || o == Machine.Halt(true)) ==> s.sched.slices[p] >= 1)
    case _ => true
  }

  /** Instructions executed in this hold plus the time slice left make up the quantum. */
  ghost predicate QuantumOk(s: Os, quantum: nat)
    requires Shape(s)
  {
    forall c :: 0 <= c < |s.cores| ==> SliceOk(s, c, quantum)
  }

  predicate Stopping(r: RunnerPoint) {
    r.StopFlag? || r.StopNotify? || r.StopCore? || r.Join? || r.Done?
  }

  /** The core has halted its process, or is about to, and has not called notifyPossibleShutdown for it yet. */
  predicate OwesCallback(pt: CorePoint) {
    pt.Marked? || pt.CallbackDue? || (pt.Executed? && pt.o.Halt?)
  }

  ghost predicate RunnerOk(s: Os)
    requires Shape(s)
  {
    && (s.runner.Begin? ==> forall c :: 0 <= c < |s.cores| ==> s.cores[c] == NotStarted)
    && (forall c :: 0 <= c < |s.cores| && !s.runner.Begin? ==>
          (s.cores[c] == NotStarted <==> s.runner.Launch? && s.runner.i <= c))
    && (s.runner.Launch? || s.runner.StopCore? ==> s.runner.i <= |s.cores|)
    && (Stopping(s.runner) ==> EveryHalted(s.sched.states))
    && (s.running <==> !Stopping(s.runner) || s.runner.StopFlag?)
    && (forall c :: 0 <= c < |s.cores| ==>
          (s.stopRequested[c] <==> s.runner.Join? || s.runner.Done? || (s.runner.StopCore? && c < s.runner.i)))
    && (forall c :: 0 <= c < |s.cores| && s.cores[c] == Exited ==> s.stopRequested[c])
    && (forall c :: 0 <= c < |s.cores| && (s.cores[c].GotNull? || s.cores[c].Announcing?) ==> !s.running)
  }

  /** While run() sleeps or is about to, some process has not halted or some core still owes its callback. */
  ghost predicate ShutdownOk(s: Os) {
    s.runner == AboutToSleep || s.runner == Sleeping(false) ==>
      !EveryHalted(s.sched.states) || exists c :: 0 <= c < |s.cores| && OwesCallback(s.cores[c])
  }

  ghost predicate Inv(s: Os, quantum: nat) {
    Shape(s) && QueueOk(s) && PointsOk(s) && RunningHeld(s) && SleepOk(s) && QuantumOk(s, quantum)
    && RunnerOk(s) && ShutdownOk(s)
  }
}
