/** The machine comes to shutdown. When every process ends alone, each step other than a spurious wake-up brings the
    machine closer to it, whatever the interleaving; so no schedule is unfair enough to keep it going. The shutdown
    itself can still lose a wake-up. */
module Termination {
  import opened Words
  import opened Encoding
  import opened Memory
  import opened Segments
  import opened Machine
  import opened Scheduling
  import opened Protocol
  import opened Ownership
  import opened OwnershipSteps
  import opened System
  import opened Independence
  import opened Sums
  import Loader
  import Progress
  import Shutdown
  import Runs
  import Cpu

  /** What is left to do at a core's program point until its next instruction; n is the number of cores, each of which
      a release may wake. */
  function PointWeight(pt: CorePoint, n: nat): nat {
    match pt
    case NotStarted => 3
    case Idle => 3
    case Acquiring => 2
    case Deciding => 1
    case Asleep(notified) => if notified then 2 else 0
    case GotNull => 0
    case Announcing => 0
    case Holding(_) => 3
    case Chosen(_) => 2
    case Fetched(_) => 1
    case Executed(_, _) => 10 + 2 * n
    case Marked(_) => 9 + 2 * n
    case CallbackDue => 8
    case Exited => 0
  }

  function PointWeights(cores: seq<CorePoint>, n: nat): (r: seq<int>)
    ensures |r| == |cores| && forall c :: 0 <= c < |cores| ==> r[c] == PointWeight(cores[c], n)
  {
    seq(|cores|, c requires 0 <= c < |cores| => PointWeight(cores[c], n))
  }

  function CoresWeight(cores: seq<CorePoint>, n: nat): int {
    Sum(PointWeights(cores, n))
  }

  function RunnerWeight(r: RunnerPoint, n: nat): int {
    match r
    case Begin => 6 + 3 * n
    case Launch(i) => 4 + n - i
    case Test => 3
    case AboutToSleep => 2
    case Sleeping(notified) => if notified then 4 else 0
    case _ => 0
  }

  function OsWeight(s: Os): int {
    |s.sched.queue| + CoresWeight(s.cores, |s.cores|) + RunnerWeight(s.runner, |s.cores|)
  }

  // ---- Sums over the cores -----------------------------------------------------------------------------

  lemma WeightUpdate(cores: seq<CorePoint>, n: nat, c: nat, pt: CorePoint)
    requires c < |cores|
    ensures CoresWeight(cores[c := pt], n) == CoresWeight(cores, n) - PointWeight(cores[c], n) + PointWeight(pt, n)
  {
    hide PointWeight, Sum;
    assert PointWeights(cores[c := pt], n) == PointWeights(cores, n)[c := PointWeight(pt, n)];
    SumUpdate(PointWeights(cores, n), c, PointWeight(pt, n));
  }

  lemma WeightWake(cores: seq<CorePoint>, n: nat)
    ensures CoresWeight(WakeAll(cores), n) <= CoresWeight(cores, n) + 2 * |cores|
  {
    hide Sum;
    SumClose(PointWeights(WakeAll(cores), n), PointWeights(cores, n), 2);
  }

  lemma WeightPositive(cores: seq<CorePoint>, n: nat)
    ensures CoresWeight(cores, n) >= 0
  {
    hide Sum;
    var none := seq(|cores|, _ => 0);
    SumConstant(none, 0);
    SumClose(none, PointWeights(cores, n), 0);
  }

  /** A core at c moves to pt and all sleepers are woken. */
  lemma WeightNotified(cores: seq<CorePoint>, c: nat, pt: CorePoint)
    requires c < |cores| && !cores[c].Asleep?
    ensures var n := |cores|;
            CoresWeight(WakeAll(cores)[c := pt], n)
              <= CoresWeight(cores, n) + 2 * n - PointWeight(cores[c], n) + PointWeight(pt, n)
  {
    WeightWake(cores, |cores|);
    WeightUpdate(WakeAll(cores), |cores|, c, pt);
  }

  // ---- Steps of the protocol ----------------------------------------------------------------------------

  lemma RunnerDescends(s: Os, quantum: nat)
    requires Inv(s, quantum) && !s.crashed && !Stopping(s.runner) && RunnerNext(s).Some?
    ensures var t := RunnerNext(s).value; !Stopping(t.runner) ==> OsWeight(t) < OsWeight(s)
  {
    hide CoresWeight, AddReady, PointsOk, QuantumOk, RunningHeld, SleepOk, ShutdownOk;
    NotifyWhenAllQueued(s.sched.states, s.sched.queue, 0);
    WeightWake(s.cores, |s.cores|);
    if s.runner.Launch? && s.runner.i < |s.cores| {
      WeightUpdate(s.cores, |s.cores|, s.runner.i, Idle);
      assert s.cores[s.runner.i] == NotStarted;
    }
  }

  lemma CheckDescends(s: Os, c: nat, quantum: nat)
    requires Inv(s, quantum) && !s.crashed && !Stopping(s.runner) && Next(s, Check(c), quantum).Some?
    ensures var t := Next(s, Check(c), quantum).value; OsWeight(t) < OsWeight(s)
  {
    hide CoresWeight, PointsOk, RunningHeld, SleepOk, QuantumOk, ShutdownOk, Pick, AddReady;
    if s.sched.queue != [] {
      PickIsHead(s, quantum);
      WeightUpdate(s.cores, |s.cores|, c, Chosen(s.sched.queue[0]));
    }
    WeightUpdate(s.cores, |s.cores|, c, Deciding);
  }

  /** A process that has just executed and goes on is still Running. */
  lemma FinishedAlive(s: Os, c: nat, quantum: nat)
    requires Inv(s, quantum) && c < |s.cores| && s.cores[c].Executed? && !s.cores[c].o.Halt?
    ensures s.sched.states[s.cores[c].p] == Cpu.Running
  {
    assert PointOk(s, c);
  }

  /** Core c moves to a lighter point, and only there and in the queue, where it is no heavier, does t differ. */
  lemma MoveDescends(s: Os, t: Os, c: nat, pt: CorePoint)
    requires c < |s.cores| && t.cores == s.cores[c := pt] && t.runner == s.runner
    requires PointWeight(pt, |s.cores|) + |t.sched.queue| < PointWeight(s.cores[c], |s.cores|) + |s.sched.queue|
    ensures OsWeight(t) < OsWeight(s)
  {
    hide CoresWeight, PointWeight, RunnerWeight;
    WeightUpdate(s.cores, |s.cores|, c, pt);
  }

  lemma NotifyDescends(s: Os, t: Os, c: nat, pt: CorePoint)
    requires c < |s.cores| && !s.cores[c].Asleep? && t.cores == WakeAll(s.cores)[c := pt] && t.runner == s.runner
    requires PointWeight(pt, |s.cores|) + 2 * |s.cores| + |t.sched.queue|
               < PointWeight(s.cores[c], |s.cores|) + |s.sched.queue|
    ensures OsWeight(t) < OsWeight(s)
  {
    hide CoresWeight, PointWeight, RunnerWeight, WakeAll;
    WeightNotified(s.cores, c, pt);
    assert |WakeAll(s.cores)| == |s.cores|;
  }

  lemma FinishDescends(s: Os, c: nat, quantum: nat)
    requires Inv(s, quantum) && !s.crashed && !Stopping(s.runner) && Next(s, Finish(c), quantum).Some?
    ensures var t := Next(s, Finish(c), quantum).value; OsWeight(t) < OsWeight(s)
  {
    hide CoresWeight, OsWeight, PointsOk, QuantumOk, RunningHeld, ShutdownOk, QueueOk, SleepOk, RunnerOk, AddReady;
    hide WakeAll;
    var p, o, t := s.cores[c].p, s.cores[c].o, Next(s, Finish(c), quantum).value;
    if o.Halt? || s.halted[p] || o.Error? {
      MoveDescends(s, t, c, Marked(p));
    } else if o.Yield? || s.sched.slices[p] == 0 {
      FinishedAlive(s, c, quantum);
      NotifyDescends(s, t, c, Idle);
    } else {
      MoveDescends(s, t, c, Holding(p));
    }
  }

  lemma ReleaseDescends(s: Os, c: nat, quantum: nat)
    requires Inv(s, quantum) && !s.crashed && Next(s, Release(c), quantum).Some?
    ensures OsWeight(Next(s, Release(c), quantum).value) < OsWeight(s)
  {
    NotifyWhenAllQueued(s.sched.states, s.sched.queue, 0);
    PointOf(s, c, quantum);
    hide OsWeight, QueueOk, PointsOk, RunningHeld, SleepOk, QuantumOk, RunnerOk, ShutdownOk, AddReady, WakeAll;
    NotifyDescends(s, Next(s, Release(c), quantum).value, c, CallbackDue);
  }

  lemma OtherDescends(s: Os, a: Action, quantum: nat)
    requires Inv(s, quantum) && !s.crashed && !Stopping(s.runner) && Next(s, a, quantum).Some?
    requires a.Loop? || a.Sleep? || a.Retry? || a.Announce? || a.Fetch? || a.FetchFault? || a.Release? || a.Callback?
    ensures var t := Next(s, a, quantum).value; !t.crashed ==> OsWeight(t) < OsWeight(s)
  {
    var c, t := a.c, Next(s, a, quantum).value;
    PointOf(s, c, quantum);
    hide CoresWeight, QueueOk, PointsOk, RunningHeld, SleepOk, QuantumOk, ShutdownOk, AddReady, WakeAll;
    if a.Loop? {
      MoveDescends(s, t, c, t.cores[c]);
    } else if a.Fetch? {
      MoveDescends(s, t, c, Fetched(s.cores[c].p));
    } else if a.Release? {
      ReleaseDescends(s, c, quantum);
    } else if a.Callback? {
      WeightUpdate(s.cores, |s.cores|, c, Idle);
    } else if a.Sleep? {
      MoveDescends(s, t, c, Asleep(false));
    }
  }

  /** Every step other than an instruction or a spurious wake-up makes the weight smaller. */
  lemma QuietDescends(s: Os, a: Action, quantum: nat)
    requires Inv(s, quantum) && !s.crashed && !Stopping(s.runner)
    requires !Progress.Spurious(a) && !a.Execute? && Next(s, a, quantum).Some?
    ensures var t := Next(s, a, quantum).value; !t.crashed && !Stopping(t.runner) ==> OsWeight(t) < OsWeight(s)
  {
    if a.RunnerStep? {
      RunnerDescends(s, quantum);
    } else if a.Check? {
      CheckDescends(s, a.c, quantum);
    } else if a.Finish? {
      FinishDescends(s, a.c, quantum);
    } else {
      OtherDescends(s, a, quantum);
    }
  }

  /** An instruction adds a bounded amount. */
  lemma ExecuteClimbs(s: Os, c: nat, o: Outcome, quantum: nat)
    requires Inv(s, quantum) && !s.crashed && Next(s, Execute(c, o), quantum).Some?
    ensures var t := Next(s, Execute(c, o), quantum).value;
                !t.crashed ==> OsWeight(t) == OsWeight(s) + 9 + 2 * |s.cores|
  {
    hide CoresWeight, PointsOk, RunningHeld, SleepOk, QuantumOk, RunnerOk, ShutdownOk, QueueOk;
    WeightUpdate(s.cores, |s.cores|, c, Executed(s.cores[c].p, o));
  }

  /** So does a spurious wake-up. */
  lemma SpuriousClimbs(s: Os, a: Action, quantum: nat)
    requires Inv(s, quantum) && Progress.Spurious(a) && Next(s, a, quantum).Some?
    ensures OsWeight(Next(s, a, quantum).value) <= OsWeight(s) + 4
  {
    if a.SpuriousWake? {
      WeightUpdate(s.cores, |s.cores|, a.c, Asleep(true));
    }
    hide CoresWeight, PointsOk, QuantumOk, RunningHeld, ShutdownOk, QueueOk, SleepOk, RunnerOk;
  }

  // ---- Steps of the machine -----------------------------------------------------------------------------

  /** Each process ends alone, process p after ends[p] instructions. */
  ghost predicate AllEnd(mem: Mem, ls: seq<Layout>, ends: seq<nat>) {
    |ends| == |ls| && forall p :: 0 <= p < |ls| ==> EndsAfter(Loader.InitialState(mem, ls[p]), ls[p], ends[p])
  }

  /** The instructions that are left. */
  function Remaining(ends: seq<nat>, counts: seq<nat>): int {
    Sum(ends) - Sum(counts)
  }

  lemma RemainingUpdate(ends: seq<nat>, counts: seq<nat>, p: nat)
    requires |ends| == |counts| && p < |ends|
    ensures Remaining(ends, counts[p := counts[p] + 1]) == Remaining(ends, counts) - 1
  {
    SumUpdate(counts, p, counts[p] + 1);
  }

  lemma RemainingBounds(ends: seq<nat>, counts: seq<nat>)
    requires |ends| == |counts| && forall p :: 0 <= p < |ends| ==> counts[p] <= ends[p]
    ensures Remaining(ends, counts) >= 0
  {
    SumClose(counts, ends, 0);
  }

  /** A bound on the steps that the machine can still take before shutdown. */
  function VmWeight(v: Vm, ends: seq<nat>): int
    requires |ends| == |v.counts|
  {
    (10 + 2 * |v.os.cores|) * Remaining(ends, v.counts) + OsWeight(v.os)
  }

  lemma OsWeightPositive(s: Os, quantum: nat)
    requires Inv(s, quantum)
    ensures OsWeight(s) >= 0
  {
    WeightPositive(s.cores, |s.cores|);
    hide CoresWeight, PointsOk, QuantumOk, RunningHeld, ShutdownOk, QueueOk, SleepOk;
  }

  lemma VmWeightPositive(v: Vm, mem: Mem, ls: seq<Layout>, quantum: nat, ends: seq<nat>)
    requires VmInv(v, mem, ls, quantum) && AllEnd(mem, ls, ends)
    ensures VmWeight(v, ends) >= 0
  {
    hide Remaining, OsWeight, Inv, Follows, Progressed, CoreOk, EndsAfter, Loader.InitialState;
    forall p | 0 <= p < |ends|
      ensures v.counts[p] <= ends[p]
    {
      CountBounded(v, mem, ls, quantum, p);
    }
    RemainingBounds(ends, v.counts);
    OsWeightPositive(v.os, quantum);
    MulGrows(10 + 2 * |v.os.cores|, Remaining(ends, v.counts));
  }

  lemma NotCrashed(s: Os, a: Action, quantum: nat)
    requires Shape(s) && Next(s, a, quantum).Some?
    ensures !s.crashed
  {
  }

  lemma CoresCount(s: Os, a: Action, quantum: nat)
    requires Inv(s, quantum) && Next(s, a, quantum).Some?
    ensures |Next(s, a, quantum).value.cores| == |s.cores|
  {
    Progress.StepCores(s, a, quantum);
  }

  lemma ExecutePoint(s: Os, c: nat, o: Outcome, quantum: nat)
    requires Shape(s) && Next(s, Execute(c, o), quantum).Some?
    ensures c < |s.cores| && s.cores[c].Fetched? && s.cores[c].p < |s.sched.states|
  {
  }

  /** Each step before shutdown, other than a spurious wake-up, makes the bound smaller. */
  lemma VmDescends(v: Vm, a: Action, mem: Mem, ls: seq<Layout>, quantum: nat, ends: seq<nat>)
    requires VmInv(v, mem, ls, quantum) && |ends| == |ls| && VmNext(v, a, ls, quantum).Some? && !Progress.Spurious(a)
    requires var w := VmNext(v, a, ls, quantum).value; !w.os.crashed && !Stopping(v.os.runner) && !Stopping(w.os.runner)
    ensures var w := VmNext(v, a, ls, quantum).value; |w.counts| == |ends| && VmWeight(w, ends) < VmWeight(v, ends)
  {
    hide Follows, Progressed, CoreOk, Remaining, OsWeight, Inv, Next, Machine.Execute, Decode, CodeWordRead;
    var w := VmNext(v, a, ls, quantum).value;
    NotCrashed(v.os, a, quantum);
    CoresCount(v.os, a, quantum);
    if a.Execute? {
      ExecuteClimbs(v.os, a.c, a.o, quantum);
      ExecutePoint(v.os, a.c, a.o, quantum);
      var p := v.os.cores[a.c].p;
      RemainingUpdate(ends, v.counts, p);
      Distribute(Remaining(ends, v.counts) - 1, 1, 10 + 2 * |v.os.cores|);
    } else {
      QuietDescends(v.os, a, quantum);
    }
  }

  lemma VmClimbs(v: Vm, a: Action, mem: Mem, ls: seq<Layout>, quantum: nat, ends: seq<nat>)
    requires VmInv(v, mem, ls, quantum) && |ends| == |ls| && VmNext(v, a, ls, quantum).Some? && Progress.Spurious(a)
    ensures var w := VmNext(v, a, ls, quantum).value; |w.counts| == |ends| && VmWeight(w, ends) <= VmWeight(v, ends) + 4
  {
    hide Follows, Progressed, CoreOk, Remaining, OsWeight, Inv, Next, Machine.Execute, Decode, CodeWordRead;
    CoresCount(v.os, a, quantum);
    SpuriousClimbs(v.os, a, quantum);
  }

  // ---- Whole runs ---------------------------------------------------------------------------------------

  lemma EndFaultless(s: Machine.State, l: Layout, end: nat, n: nat)
    requires EndsAfter(s, l, end)
    ensures !Faults(s, l, n)
  {
    hide Solo, SoloOutcome;
    assert Alive(s, l, n) && n >= end ==> KeepsGoing(SoloOutcome(s, l, end - 1));
    assert n < end - 1 ==> KeepsGoing(SoloOutcome(s, l, n));
  }

  lemma EndsFaultless(mem: Mem, ls: seq<Layout>, ends: seq<nat>)
    requires AllEnd(mem, ls, ends)
    ensures Faultless(mem, ls)
  {
    hide Solo, SoloOutcome, Loader.InitialState;
    forall p, n | 0 <= p < |ls| && 0 <= n
      ensures !Faults(Loader.InitialState(mem, ls[p]), ls[p], n)
    {
      EndFaultless(Loader.InitialState(mem, ls[p]), ls[p], ends[p], n);
    }
  }

  lemma StoppingStays(s: Os, a: Action, quantum: nat)
    requires Inv(s, quantum) && Stopping(s.runner) && Next(s, a, quantum).Some?
    ensures Stopping(Next(s, a, quantum).value.runner)
  {
    hide PointsOk, RunningHeld, QuantumOk, QueueOk, SleepOk, RunnerOk, AddReady, Pick;
  }

  lemma {:induction false} StoppingForever(v: Vm, acts: seq<Action>, mem: Mem, ls: seq<Layout>, quantum: nat)
    requires VmInv(v, mem, ls, quantum) && Setup(mem, ls) && VmRun(v, acts, mem, ls, quantum).Some?
    requires Stopping(v.os.runner)
    ensures Stopping(VmRun(v, acts, mem, ls, quantum).value.os.runner)
    decreases |acts|
  {
    hide Setup, Inv, Follows, Progressed, CoreOk, Stopping, Next, Machine.Execute, Decode, CodeWordRead;
    if acts == [] {
    } else {
      StoppingStays(v.os, acts[0], quantum);
      VmStepKeeps(v, acts[0], mem, ls, quantum);
      StoppingForever(VmNext(v, acts[0], ls, quantum).value, acts[1..], mem, ls, quantum);
    }
  }

  lemma EndsCount(mem: Mem, ls: seq<Layout>, ends: seq<nat>)
    requires AllEnd(mem, ls, ends)
    ensures |ends| == |ls|
  {
    hide EndsAfter;
  }

  /** A run that has not come to shutdown is no longer than the bound and five steps for each spurious wake-up. */
  lemma {:induction false} RunBounded(v: Vm, acts: seq<Action>, mem: Mem, ls: seq<Layout>, quantum: nat, ends: seq<nat>)
    requires VmInv(v, mem, ls, quantum) && Setup(mem, ls) && AllEnd(mem, ls, ends) && !v.os.crashed
    requires VmRun(v, acts, mem, ls, quantum).Some? && !Stopping(VmRun(v, acts, mem, ls, quantum).value.os.runner)
    ensures |v.counts| == |ends| && |acts| <= VmWeight(v, ends) + 5 * Progress.SpuriousCount(acts)
    decreases |acts|
  {
    hide Setup, Inv, Follows, Progressed, CoreOk, Stopping, VmNext, AllEnd, Faultless, VmWeight, Progress.Spurious;
    assert |ends| == |ls| by { EndsCount(mem, ls, ends); }
    if acts == [] {
      VmWeightPositive(v, mem, ls, quantum, ends);
    } else {
      var w := VmNext(v, acts[0], ls, quantum).value;
      VmStepKeeps(v, acts[0], mem, ls, quantum);
      EndsFaultless(mem, ls, ends);
      NoCrash(v, [acts[0]], mem, ls, quantum);
      OneStep(v, acts[0], mem, ls, quantum);
      if Stopping(w.os.runner) {
        StoppingForever(w, acts[1..], mem, ls, quantum);
      }
      if Stopping(v.os.runner) {
        StoppingForever(v, acts, mem, ls, quantum);
      }
      RunBounded(w, acts[1..], mem, ls, quantum, ends);
      if Progress.Spurious(acts[0]) {
        VmClimbs(v, acts[0], mem, ls, quantum, ends);
      } else {
        VmDescends(v, acts[0], mem, ls, quantum, ends);
      }
    }
  }

  /** The longest that a machine with so many cores can take to shutdown when there are no spurious wake-ups. */
  function Bound(ends: seq<nat>, coreCount: nat): int {
    (10 + 2 * coreCount) * Sum(ends) + |ends| + 6 * coreCount + 6
  }

  lemma UnstartedWeight(cores: seq<CorePoint>, n: nat)
    requires forall c :: 0 <= c < |cores| ==> cores[c] == NotStarted
    ensures CoresWeight(cores, n) == 3 * |cores|
  {
    SumConstant(PointWeights(cores, n), 3);
  }

  lemma StartWeight(mem: Mem, ls: seq<Layout>, coreCount: nat, quantum: nat, ends: seq<nat>)
    requires |ends| == |ls|
    ensures var v := Start(mem, ls, coreCount, quantum);
            |v.counts| == |ends| && VmWeight(v, ends) == Bound(ends, coreCount) && !v.os.crashed
  {
    var v := Start(mem, ls, coreCount, quantum);
    Runs.LoadsQueueInOrder(|ls|, quantum);
    SumConstant(v.counts, 0);
    UnstartedWeight(v.os.cores, coreCount);
    hide Sum, CoresWeight;
  }

  /** Shutdown is inevitable: when every process ends alone, every run of the machine with more steps than the bound,
      and five more for each spurious wake-up in it, has come to it, whatever the interleaving. */
  lemma ShutdownInevitable(mem: Mem, ls: seq<Layout>, coreCount: nat, quantum: nat, acts: seq<Action>, ends: seq<nat>)
    requires Setup(mem, ls) && AllEnd(mem, ls, ends) && Reach(mem, ls, coreCount, quantum, acts).Some?
    requires |acts| > Bound(ends, coreCount) + 5 * Progress.SpuriousCount(acts)
    ensures Stopping(Reach(mem, ls, coreCount, quantum, acts).value.os.runner)
  {
    hide Setup, AllEnd, VmInv, VmRun, Stopping, Start, VmWeight, Bound;
    StartInv(mem, ls, coreCount, quantum);
    EndsCount(mem, ls, ends);
    StartWeight(mem, ls, coreCount, quantum, ends);
    if !Stopping(Reach(mem, ls, coreCount, quantum, acts).value.os.runner) {
      RunBounded(Start(mem, ls, coreCount, quantum), acts, mem, ls, quantum, ends);
    }
  }

  lemma CoresStay(v: Vm, a: Action, mem: Mem, ls: seq<Layout>, quantum: nat)
    requires VmInv(v, mem, ls, quantum) && VmNext(v, a, ls, quantum).Some?
    ensures |VmNext(v, a, ls, quantum).value.os.cores| == |v.os.cores|
  {
    hide Follows, Progressed, CoreOk, Inv, Next, Machine.Execute, Decode, CodeWordRead;
    Progress.StepCores(v.os, a, quantum);
  }

  lemma StopsAtFlag(s: Os, a: Action, quantum: nat)
    requires Inv(s, quantum) && !Stopping(s.runner) && Next(s, a, quantum).Some?
    requires Stopping(Next(s, a, quantum).value.runner)
    ensures Next(s, a, quantum).value.runner == StopFlag
  {
    hide QueueOk, PointsOk, RunningHeld, SleepOk, QuantumOk, RunnerOk, ShutdownOk, AddReady, Pick;
  }

  lemma VmStopsAtFlag(v: Vm, a: Action, mem: Mem, ls: seq<Layout>, quantum: nat)
    requires VmInv(v, mem, ls, quantum) && !Stopping(v.os.runner) && VmNext(v, a, ls, quantum).Some?
    ensures var s := VmNext(v, a, ls, quantum).value.os; Stopping(s.runner) ==> s.runner == StopFlag
  {
    hide Follows, Progressed, CoreOk, Inv, Next, Machine.Execute, Decode, CodeWordRead, Stopping;
    if Stopping(VmNext(v, a, ls, quantum).value.os.runner) {
      StopsAtFlag(v.os, a, quantum);
    }
  }

  /** While run() sleeps, some core is awake. */
  lemma SleepingMeansAwake(s: Os, quantum: nat)
    requires Inv(s, quantum) && s.runner == Sleeping(false) && s.cores != []
    ensures Shutdown.SomeAwake(s)
  {
    hide QuantumOk, RunnerOk;
    if s.cores[0] == Asleep(false) {
      if EveryHalted(s.sched.states) {
        var c: nat :| c < |s.cores| && OwesCallback(s.cores[c]);
        assert s.cores[c] != Asleep(false);
      } else {
        var p: nat :| p < |s.sched.states| && s.sched.states[p] != Cpu.Halted;
        assert s.sched.states[p] != Cpu.Ready;
        var c: nat :| Holds(s, c, p);
        assert s.cores[c] != Asleep(false);
      }
    }
  }

  lemma RunnerStaysAwake(s: Os, quantum: nat)
    requires Inv(s, quantum) && Shutdown.SomeAwake(s) && RunnerNext(s).Some?
    ensures Shutdown.SomeAwake(RunnerNext(s).value)
  {
    hide QueueOk, PointsOk, RunningHeld, SleepOk, QuantumOk, RunnerOk, ShutdownOk, AddReady;
    var c: nat :| c < |s.cores| && s.cores[c] != Asleep(false);
    assert RunnerNext(s).value.cores[c] != Asleep(false);
  }

  lemma CoreRunner(s: Os, a: Action, quantum: nat)
    requires Inv(s, quantum) && !a.RunnerStep? && !a.RunnerSpurious? && Next(s, a, quantum).Some?
    ensures var t := Next(s, a, quantum).value;
            |t.cores| == |s.cores| && (t.runner == s.runner ||
                (t.runner == Sleeping(true) && a.c < |s.cores| && t.cores[a.c] == Idle))
  {
    hide QueueOk, PointsOk, RunningHeld, SleepOk, QuantumOk, RunnerOk, ShutdownOk, NotifyReady, Preempt, EveryHalted;
    hide Acquire, WakeAll;
    AcquireMove(s, a.c, quantum);
  }

  lemma WaitingRunner(s: Os, quantum: nat)
    requires Inv(s, quantum) && !Stopping(s.runner) && RunnerNext(s).None?
    ensures s.runner == Sleeping(false)
  {
    hide QueueOk, PointsOk, RunningHeld, QuantumOk, ShutdownOk;
  }

  /** If the cores step only while run() waits, they never all sleep. */
  lemma StaysAwake(s: Os, a: Action, quantum: nat)
    requires Inv(s, quantum) && Shutdown.SomeAwake(s) && !Stopping(s.runner) && Next(s, a, quantum).Some?
    requires !Progress.Spurious(a) && (a.RunnerStep? || RunnerNext(s).None?)
    ensures Shutdown.SomeAwake(Next(s, a, quantum).value)
  {
    hide QueueOk, PointsOk, RunningHeld, SleepOk, QuantumOk, RunnerOk, ShutdownOk, Shape, CoreStep, RunnerNext;
    var t := Next(s, a, quantum).value;
    if a.RunnerStep? {
      RunnerStaysAwake(s, quantum);
    } else {
      StepKeeps(s, a, quantum);
      WaitingRunner(s, quantum);
      CoreRunner(s, a, quantum);
      if t.runner == Sleeping(false) {
        SleepingMeansAwake(t, quantum);
      }
    }
  }

  lemma AwakeCores(s: Os)
    requires Shutdown.SomeAwake(s)
    ensures s.cores != []
  {
  }

  /** A step that is not spurious, of run() if it can take one. */
  lemma RunnerFirst(v: Vm, mem: Mem, ls: seq<Layout>, quantum: nat) returns (a: Action)
    requires VmInv(v, mem, ls, quantum) && Setup(mem, ls)
    requires !v.os.crashed && !Stopping(v.os.runner) && Shutdown.SomeAwake(v.os)
    ensures !Progress.Spurious(a) && VmNext(v, a, ls, quantum).Some?
    ensures Shutdown.SomeAwake(VmNext(v, a, ls, quantum).value.os)
  {
    hide Setup, Follows, Progressed, CoreOk, Stopping, Machine.Execute, Decode, CodeWordRead, Shutdown.SomeAwake;
    hide QueueOk, PointsOk, RunningHeld, SleepOk, QuantumOk, RunnerOk, ShutdownOk, CoreStep;
    AwakeCores(v.os);
    MachineNeverStuck(v, mem, ls, quantum);
    if RunnerNext(v.os).Some? {
      a := RunnerStep;
    } else {
      a :| !Progress.Spurious(a) && VmNext(v, a, ls, quantum).Some?;
    }
    StaysAwake(v.os, a, quantum);
  }

  /** From every state before shutdown there is a way to where stop() is about to clear running_. */
  lemma {:induction false} CanComplete(v: Vm, mem: Mem, ls: seq<Layout>, quantum: nat, ends: seq<nat>)
    returns (acts: seq<Action>)
    requires VmInv(v, mem, ls, quantum) && Setup(mem, ls) && AllEnd(mem, ls, ends) && !v.os.crashed
    requires !Stopping(v.os.runner) && Shutdown.SomeAwake(v.os)
    ensures Progress.SpuriousCount(acts) == 0 && VmRun(v, acts, mem, ls, quantum).Some?
    ensures var s := VmRun(v, acts, mem, ls, quantum).value.os; s.runner == StopFlag && Shutdown.SomeAwake(s)
    decreases if |v.counts| == |ends| then VmWeight(v, ends) else 0
  {
    hide Setup, Inv, Follows, Progressed, CoreOk, Stopping, VmNext, AllEnd, Faultless, VmWeight, Progress.Spurious;
    hide Shutdown.SomeAwake;
    var a := RunnerFirst(v, mem, ls, quantum);
    var w := VmNext(v, a, ls, quantum).value;
    EndsFaultless(mem, ls, ends);
    EndsCount(mem, ls, ends);
    OneStep(v, a, mem, ls, quantum);
    NoCrash(v, [a], mem, ls, quantum);
    VmStepKeeps(v, a, mem, ls, quantum);
    VmStopsAtFlag(v, a, mem, ls, quantum);
    if Stopping(w.os.runner) {
      acts := [a];
    } else {
      VmDescends(v, a, mem, ls, quantum, ends);
      VmWeightPositive(w, mem, ls, quantum, ends);
      var rest := CanComplete(w, mem, ls, quantum, ends);
      acts := [a] + rest;
      assert acts[1..] == rest;
    }
  }

  /** So a run to shutdown exists. */
  lemma CompleteRunExists(mem: Mem, ls: seq<Layout>, coreCount: nat, quantum: nat, ends: seq<nat>)
    returns (acts: seq<Action>)
    requires Setup(mem, ls) && AllEnd(mem, ls, ends) && coreCount >= 1
    ensures Progress.SpuriousCount(acts) == 0 && Reach(mem, ls, coreCount, quantum, acts).Some?
    ensures var s := Reach(mem, ls, coreCount, quantum, acts).value.os; s.runner == StopFlag && Shutdown.SomeAwake(s)
  {
    StartInv(mem, ls, coreCount, quantum);
    EndsCount(mem, ls, ends);
    StartWeight(mem, ls, coreCount, quantum, ends);
    assert Start(mem, ls, coreCount, quantum).os.cores[0] == NotStarted;
    assert Shutdown.SomeAwake(Start(mem, ls, coreCount, quantum).os);
    assert !Stopping(Start(mem, ls, coreCount, quantum).os.runner);
    hide Setup, AllEnd, VmInv, VmRun, Stopping, Start, Progress.SpuriousCount, VmWeight;
    acts := CanComplete(Start(mem, ls, coreCount, quantum), mem, ls, quantum, ends);
  }

  // ---- Runs that cannot be extended ---------------------------------------------------------------------

  /** Nothing but a spurious wake-up can happen any more. */
  ghost predicate Final(v: Vm, ls: seq<Layout>, quantum: nat) {
    VmShape(v, ls) && forall a :: !Progress.Spurious(a) ==> VmNext(v, a, ls, quantum).None?
  }

  lemma {:induction false} CoresStayRun(v: Vm, acts: seq<Action>, mem: Mem, ls: seq<Layout>, quantum: nat)
    requires VmInv(v, mem, ls, quantum) && Setup(mem, ls) && VmRun(v, acts, mem, ls, quantum).Some?
    ensures |VmRun(v, acts, mem, ls, quantum).value.os.cores| == |v.os.cores|
    decreases |acts|
  {
    hide Setup, Inv, Follows, Progressed, CoreOk, VmNext;
    if acts == [] {
    } else {
      CoresStay(v, acts[0], mem, ls, quantum);
      VmStepKeeps(v, acts[0], mem, ls, quantum);
      CoresStayRun(VmNext(v, acts[0], ls, quantum).value, acts[1..], mem, ls, quantum);
    }
  }

  lemma FinalStuck(v: Vm, mem: Mem, ls: seq<Layout>, quantum: nat)
    requires VmInv(v, mem, ls, quantum) && Stopping(v.os.runner) && Final(v, ls, quantum)
    ensures !Progress.CanStep(v.os, quantum)
  {
    hide Follows, Progressed, CoreOk, Inv, Next, Machine.Execute, Decode, CodeWordRead, Progress.Spurious;
    forall a | !Progress.Spurious(a) && Next(v.os, a, quantum).Some?
      ensures VmNext(v, a, ls, quantum).Some?
    {
      Shutdown.NoInstruction(v.os, a, quantum);
    }
  }

  /** When no process faults alone, every run of a machine with a core that cannot be extended has come to shutdown;
      run() has returned, or waits in join() for a core whose wake-up was lost. */
  lemma FinalMeansStopped(mem: Mem, ls: seq<Layout>, coreCount: nat, quantum: nat, acts: seq<Action>)
    requires Setup(mem, ls) && Faultless(mem, ls) && coreCount >= 1 && Reach(mem, ls, coreCount, quantum, acts).Some?
    requires Final(Reach(mem, ls, coreCount, quantum, acts).value, ls, quantum)
    ensures var s := Reach(mem, ls, coreCount, quantum, acts).value.os;
            Stopping(s.runner) && (s.runner == Done || Shutdown.Hung(s, quantum))
  {
    StartInv(mem, ls, coreCount, quantum);
    hide Setup, Faultless, Follows, Progressed, CoreOk, VmNext, VmRun, Progress.CanStep;
    hide QueueOk, PointsOk, RunningHeld, SleepOk, QuantumOk, RunnerOk, ShutdownOk, Shape;
    VmRunKeeps(Start(mem, ls, coreCount, quantum), acts, mem, ls, quantum);
    CoresStayRun(Start(mem, ls, coreCount, quantum), acts, mem, ls, quantum);
    ReachNoCrash(mem, ls, coreCount, quantum, acts);
    var v := Reach(mem, ls, coreCount, quantum, acts).value;
    if !Stopping(v.os.runner) {
      MachineNeverStuck(v, mem, ls, quantum);
    }
    FinalStuck(v, mem, ls, quantum);
    Shutdown.StuckAtEnd(v.os, quantum);
  }

  // ---- The hang, on every machine -----------------------------------------------------------------------

  /** In shutdown the machine does what the protocol does. */
  lemma {:induction false} ShutdownLifts(v: Vm, acts: seq<Action>, mem: Mem, ls: seq<Layout>, quantum: nat)
    requires VmInv(v, mem, ls, quantum) && Setup(mem, ls) && Stopping(v.os.runner)
    requires Runs.Run(v.os, acts, quantum).Some?
    ensures VmRun(v, acts, mem, ls, quantum).Some?
    ensures VmRun(v, acts, mem, ls, quantum).value.os == Runs.Run(v.os, acts, quantum).value
    decreases |acts|
  {
    hide Setup, Follows, Progressed, CoreOk, Stopping, Next, Machine.Execute, Decode, CodeWordRead;
    hide QueueOk, PointsOk, RunningHeld, SleepOk, QuantumOk, RunnerOk, ShutdownOk;
    if acts == [] {
    } else {
      Shutdown.NoInstruction(v.os, acts[0], quantum);
      StoppingStays(v.os, acts[0], quantum);
      VmStepKeeps(v, acts[0], mem, ls, quantum);
      ShutdownLifts(VmNext(v, acts[0], ls, quantum).value, acts[1..], mem, ls, quantum);
    }
  }

  lemma {:induction false} CountJoins(a: seq<Action>, b: seq<Action>)
    ensures Progress.SpuriousCount(a + b) == Progress.SpuriousCount(a) + Progress.SpuriousCount(b)
    decreases |a|
  {
    hide Progress.Spurious;
    if a == [] {
      assert a + b == b;
    } else {
      assert (a + b)[1..] == a[1..] + b;
      CountJoins(a[1..], b);
    }
  }

  /** Whatever its programs, a machine with a core whose processes all end has a run, without any spurious wake-up,
      after which run() waits in join() for ever. */
  lemma MachineCanHang(mem: Mem, ls: seq<Layout>, coreCount: nat, quantum: nat, ends: seq<nat>)
    returns (acts: seq<Action>)
    requires Setup(mem, ls) && AllEnd(mem, ls, ends) && coreCount >= 1
    ensures Progress.SpuriousCount(acts) == 0 && Reach(mem, ls, coreCount, quantum, acts).Some?
    ensures Shutdown.Hung(Reach(mem, ls, coreCount, quantum, acts).value.os, quantum)
  {
    StartInv(mem, ls, coreCount, quantum);
    hide Setup, AllEnd, Follows, Progressed, CoreOk, VmRun, Start, Shutdown.Hung, Faultless;
    hide QueueOk, PointsOk, RunningHeld, SleepOk, QuantumOk, RunnerOk, ShutdownOk, Shape;
    var start := Start(mem, ls, coreCount, quantum);
    var before := CompleteRunExists(mem, ls, coreCount, quantum, ends);
    var v := Reach(mem, ls, coreCount, quantum, before).value;
    EndsFaultless(mem, ls, ends);
    ReachNoCrash(mem, ls, coreCount, quantum, before);
    VmRunKeeps(start, before, mem, ls, quantum);
    Shutdown.HangAhead(v.os, quantum);
    var after :| Progress.SpuriousCount(after) == 0 && Shutdown.HangsAfter(v.os, after, quantum);
    ShutdownLifts(v, after, mem, ls, quantum);
    RunJoins(start, before, after, mem, ls, quantum);
    CountJoins(before, after);
    acts := before + after;
  }
}
