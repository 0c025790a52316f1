/** The main results about whole machine runs: schedule independence, equal results of complete runs, no crash and
    no deadlock beyond what a process does alone. */
module Independence {
  import opened Words
  import opened Encoding
  import opened Memory
  import opened Segments
  import opened Machine
  import opened Scheduling
  import opened Protocol
  import opened Ownership
  import opened System
  import Loader
  import OwnershipSteps
  import Progress
  import Cpu

  ghost function VmRun(v: Vm, acts: seq<Action>, mem: Mem, ls: seq<Layout>, quantum: nat): Option<Vm>
    requires VmInv(v, mem, ls, quantum) && Setup(mem, ls)
    decreases |acts|
  {
    if acts == [] then Some(v)
    else match VmNext(v, acts[0], ls, quantum)
      case None => None
      case Some(w) => VmStepKeeps(v, acts[0], mem, ls, quantum); VmRun(w, acts[1..], mem, ls, quantum)
  }

  lemma {:induction false} VmRunKeeps(v: Vm, acts: seq<Action>, mem: Mem, ls: seq<Layout>, quantum: nat)
    requires VmInv(v, mem, ls, quantum) && Setup(mem, ls) && VmRun(v, acts, mem, ls, quantum).Some?
    ensures VmInv(VmRun(v, acts, mem, ls, quantum).value, mem, ls, quantum)
    decreases |acts|
  {
    hide Setup, VmNext, Inv, Follows, Progressed, CoreOk;
    if acts == [] {
    } else {
      VmStepKeeps(v, acts[0], mem, ls, quantum);
      VmRunKeeps(VmNext(v, acts[0], ls, quantum).value, acts[1..], mem, ls, quantum);
    }
  }

  lemma OneStep(v: Vm, a: Action, mem: Mem, ls: seq<Layout>, quantum: nat)
    requires VmInv(v, mem, ls, quantum) && Setup(mem, ls) && VmNext(v, a, ls, quantum).Some?
    ensures VmRun(v, [a], mem, ls, quantum) == VmNext(v, a, ls, quantum)
  {
    hide Setup, VmInv, VmNext;
    VmStepKeeps(v, a, mem, ls, quantum);
    assert [a][1..] == [];
  }

  lemma {:induction false} RunJoins(v: Vm, a: seq<Action>, b: seq<Action>, mem: Mem, ls: seq<Layout>, quantum: nat)
    requires VmInv(v, mem, ls, quantum) && Setup(mem, ls) && VmRun(v, a, mem, ls, quantum).Some?
    ensures VmInv(VmRun(v, a, mem, ls, quantum).value, mem, ls, quantum)
    ensures VmRun(v, a + b, mem, ls, quantum) == VmRun(VmRun(v, a, mem, ls, quantum).value, b, mem, ls, quantum)
    decreases |a|
  {
    hide Setup, Inv, Follows, Progressed, CoreOk, VmNext;
    VmRunKeeps(v, a, mem, ls, quantum);
    if a == [] {
      assert a + b == b;
    } else {
      VmStepKeeps(v, a[0], mem, ls, quantum);
      assert (a + b)[0] == a[0] && (a + b)[1..] == a[1..] + b;
      RunJoins(VmNext(v, a[0], ls, quantum).value, a[1..], b, mem, ls, quantum);
    }
  }

  /** The machine after a list of actions from the start of run(), all programs being loaded. */
  ghost function Reach(mem: Mem, ls: seq<Layout>, coreCount: nat, quantum: nat, acts: seq<Action>): Option<Vm>
    requires Setup(mem, ls)
  {
    StartInv(mem, ls, coreCount, quantum);
    VmRun(Start(mem, ls, coreCount, quantum), acts, mem, ls, quantum)
  }

  lemma ReachStart(mem: Mem, ls: seq<Layout>, coreCount: nat, quantum: nat)
    requires Setup(mem, ls)
    ensures Reach(mem, ls, coreCount, quantum, []) == Some(Start(mem, ls, coreCount, quantum))
  {
    hide Start, Setup, VmInv;
    StartInv(mem, ls, coreCount, quantum);
  }

  lemma ReachInv(mem: Mem, ls: seq<Layout>, coreCount: nat, quantum: nat, acts: seq<Action>)
    requires Setup(mem, ls) && Reach(mem, ls, coreCount, quantum, acts).Some?
    ensures VmInv(Reach(mem, ls, coreCount, quantum, acts).value, mem, ls, quantum)
    ensures |Reach(mem, ls, coreCount, quantum, acts).value.mem| == |mem|
  {
    StartInv(mem, ls, coreCount, quantum);
    VmRunKeeps(Start(mem, ls, coreCount, quantum), acts, mem, ls, quantum);
    hide VmRun, Setup, Inv, Follows, Progressed, CoreOk, Start;
  }

  /** Schedule independence: after any actions of any number of cores with any quantum, each process has the registers,
      stack pointer, region bytes and output that it has after as many instructions alone. */
  lemma ScheduleIndependence(mem: Mem, ls: seq<Layout>, coreCount: nat, quantum: nat, acts: seq<Action>, p: nat)
    requires Setup(mem, ls) && p < |ls| && Reach(mem, ls, coreCount, quantum, acts).Some?
    ensures var v, s := Reach(mem, ls, coreCount, quantum, acts).value, Loader.InitialState(mem, ls[p]);
            && VmShape(v, ls)
            && SameProcess(v.StateOf(p), Solo(s, ls[p], v.counts[p]), ls[p])
            && v.outputs[p] == SoloPrinted(s, ls[p], v.counts[p])
  {
    StartInv(mem, ls, coreCount, quantum);
    VmRunKeeps(Start(mem, ls, coreCount, quantum), acts, mem, ls, quantum);
    var v := Reach(mem, ls, coreCount, quantum, acts).value;
    assert Follows(v, mem, ls, p);
  }

  /** n is the number of instructions after which the process has ended alone. */
  ghost predicate EndsAfter(s: Machine.State, l: Layout, n: nat) {
    n >= 1 && Alive(s, l, n - 1) && Ends(SoloOutcome(s, l, n - 1))
  }

  lemma EndUnique(s: Machine.State, l: Layout, m: nat, n: nat)
    requires EndsAfter(s, l, m) && EndsAfter(s, l, n)
    ensures m == n
  {
    hide SoloOutcome;
    assert !KeepsGoing(SoloOutcome(s, l, m - 1)) && !KeepsGoing(SoloOutcome(s, l, n - 1));
  }

  /** All instructions executed so far, but for a last one that ends the process, let it go on. */
  lemma CountAlive(v: Vm, mem: Mem, ls: seq<Layout>, quantum: nat, p: nat)
    requires VmInv(v, mem, ls, quantum) && p < |ls|
    ensures var s, k := Loader.InitialState(mem, ls[p]), v.counts[p];
            && (Alive(s, ls[p], k) || (k >= 1 && Alive(s, ls[p], k - 1)))
            && (v.os.sched.states[p] == Cpu.Halted ==> EndsAfter(s, ls[p], k))
  {
    hide SoloOutcome, Solo, SoloPrinted, Loader.InitialState;
    assert Progressed(v, mem, ls, p);
    if c: nat :| JustExecuted(v.os, c, p) {
      assert CoreOk(v, mem, ls, c);
    }
  }

  lemma CountBounded(v: Vm, mem: Mem, ls: seq<Layout>, quantum: nat, p: nat)
    requires VmInv(v, mem, ls, quantum) && p < |ls|
    ensures var s := Loader.InitialState(mem, ls[p]);
            && (forall n :: EndsAfter(s, ls[p], n) ==> v.counts[p] <= n)
            && (v.os.sched.states[p] == Cpu.Halted ==> EndsAfter(s, ls[p], v.counts[p]))
  {
    CountAlive(v, mem, ls, quantum, p);
    var s, k := Loader.InitialState(mem, ls[p]), v.counts[p];
    hide SoloOutcome, Solo, SoloPrinted, Loader.InitialState, VmInv;
    forall n | EndsAfter(s, ls[p], n)
      ensures k <= n
    {
      assert !KeepsGoing(SoloOutcome(s, ls[p], n - 1));
    }
  }

  /** No process executes beyond the end of its solo run, and when run() has seen them all halt each has executed
      exactly that far. */
  lemma CompleteRun(mem: Mem, ls: seq<Layout>, coreCount: nat, quantum: nat, acts: seq<Action>, p: nat)
    requires Setup(mem, ls) && p < |ls| && Reach(mem, ls, coreCount, quantum, acts).Some?
    ensures var v, s := Reach(mem, ls, coreCount, quantum, acts).value, Loader.InitialState(mem, ls[p]);
            && VmShape(v, ls)
            && (forall n :: EndsAfter(s, ls[p], n) ==> v.counts[p] <= n)
            && (v.os.sched.states[p] == Cpu.Halted ==> EndsAfter(s, ls[p], v.counts[p]))
            && (Stopping(v.os.runner) ==> v.os.sched.states[p] == Cpu.Halted)
  {
    StartInv(mem, ls, coreCount, quantum);
    VmRunKeeps(Start(mem, ls, coreCount, quantum), acts, mem, ls, quantum);
    var v, s := Reach(mem, ls, coreCount, quantum, acts).value, Loader.InitialState(mem, ls[p]);
    hide SoloOutcome, Solo, SoloPrinted, Reach, Loader.InitialState;
    CountBounded(v, mem, ls, quantum, p);
  }

  /** Two complete runs of the same programs, on any numbers of cores with any quanta, end with the same registers,
      memory and output of every process. */
  lemma CompleteRunsAgree(mem: Mem, ls: seq<Layout>, cores1: nat, quantum1: nat, acts1: seq<Action>,
                          cores2: nat, quantum2: nat, acts2: seq<Action>, p: nat)
    requires Setup(mem, ls) && p < |ls|
    requires Reach(mem, ls, cores1, quantum1, acts1).Some? && Reach(mem, ls, cores2, quantum2, acts2).Some?
    requires Stopping(Reach(mem, ls, cores1, quantum1, acts1).value.os.runner)
    requires Stopping(Reach(mem, ls, cores2, quantum2, acts2).value.os.runner)
    ensures var v, w := Reach(mem, ls, cores1, quantum1, acts1).value, Reach(mem, ls, cores2, quantum2, acts2).value;
            && VmShape(v, ls) && VmShape(w, ls)
            && SameProcess(v.StateOf(p), w.StateOf(p), ls[p]) && v.outputs[p] == w.outputs[p]
  {
    hide Reach, Solo, SoloPrinted, EndsAfter, Loader.InitialState;
    ScheduleIndependence(mem, ls, cores1, quantum1, acts1, p);
    ScheduleIndependence(mem, ls, cores2, quantum2, acts2, p);
    CompleteRun(mem, ls, cores1, quantum1, acts1, p);
    CompleteRun(mem, ls, cores2, quantum2, acts2, p);
    var v, w := Reach(mem, ls, cores1, quantum1, acts1).value, Reach(mem, ls, cores2, quantum2, acts2).value;
    EndUnique(Loader.InitialState(mem, ls[p]), ls[p], v.counts[p], w.counts[p]);
  }

  ghost predicate Faults(s: Machine.State, l: Layout, n: nat) {
    Alive(s, l, n) && (SoloOutcome(s, l, n).Throw? || SoloOutcome(s, l, n).External?)
  }

  /** The machine crashes only where some process, alone, throws or leaves the model. */
  lemma CrashIsOwnFault(v: Vm, a: Action, mem: Mem, ls: seq<Layout>, quantum: nat)
    requires VmInv(v, mem, ls, quantum) && Setup(mem, ls) && !v.os.crashed && VmNext(v, a, ls, quantum).Some?
    requires VmNext(v, a, ls, quantum).value.os.crashed
    ensures exists p :: 0 <= p < |ls| && Faults(Loader.InitialState(mem, ls[p]), ls[p], v.counts[p])
  {
    hide Solo, SoloPrinted, CodeWordRead, Loader.InitialState, Machine.Execute, Decode;
    if a.FetchFault? {
      NoFetchFault(v, a.c, mem, ls, quantum);
    } else {
      var p, c := v.os.cores[a.c].p, a.c;
      HeldAlive(v, mem, ls, quantum, c, p);
      assert CoreOk(v, mem, ls, c) && Follows(v, mem, ls, p);
      var s := Loader.InitialState(mem, ls[p]);
      SoloNext(s, ls[p], v.counts[p], v.raws[c]);
      ExecuteLocal(Decode(v.raws[c]), v.StateOf(p), Solo(s, ls[p], v.counts[p]), ls[p]);
      assert Faults(s, ls[p], v.counts[p]);
    }
  }

  /** When no process faults alone, no run crashes. */
  ghost predicate Faultless(mem: Mem, ls: seq<Layout>) {
    forall p, n :: 0 <= p < |ls| && 0 <= n ==> !Faults(Loader.InitialState(mem, ls[p]), ls[p], n)
  }

  lemma {:induction false} NoCrash(v: Vm, acts: seq<Action>, mem: Mem, ls: seq<Layout>, quantum: nat)
    requires VmInv(v, mem, ls, quantum) && Setup(mem, ls) && VmRun(v, acts, mem, ls, quantum).Some?
    requires !v.os.crashed && Faultless(mem, ls)
    ensures !VmRun(v, acts, mem, ls, quantum).value.os.crashed
    decreases |acts|
  {
    hide Setup, VmNext, Inv, Follows, Progressed, CoreOk, Faults;
    if acts == [] {
    } else {
      var w := VmNext(v, acts[0], ls, quantum).value;
      if w.os.crashed {
        CrashIsOwnFault(v, acts[0], mem, ls, quantum);
        assert false;
      }
      VmStepKeeps(v, acts[0], mem, ls, quantum);
      NoCrash(w, acts[1..], mem, ls, quantum);
    }
  }

  lemma ReachNoCrash(mem: Mem, ls: seq<Layout>, coreCount: nat, quantum: nat, acts: seq<Action>)
    requires Setup(mem, ls) && Reach(mem, ls, coreCount, quantum, acts).Some? && Faultless(mem, ls)
    ensures !Reach(mem, ls, coreCount, quantum, acts).value.os.crashed
  {
    hide VmInv, Setup, VmNext, Faults, VmRun, Faultless;
    StartInv(mem, ls, coreCount, quantum);
    assert !Start(mem, ls, coreCount, quantum).os.crashed;
    NoCrash(Start(mem, ls, coreCount, quantum), acts, mem, ls, quantum);
  }

  lemma FetchPossible(v: Vm, c: nat, mem: Mem, ls: seq<Layout>, quantum: nat)
    requires VmInv(v, mem, ls, quantum) && Setup(mem, ls) && !v.os.crashed
    requires c < |v.os.cores| && v.os.cores[c].Chosen?
    ensures VmNext(v, Fetch(c), ls, quantum).Some?
  {
    hide Solo, Loader.InitialState, CodeWordRead, Follows, Progressed, CoreOk, Setup;
    hide QueueOk, PointsOk, RunningHeld, SleepOk, QuantumOk, RunnerOk, ShutdownOk;
    OwnershipSteps.FetchKeeps(v.os, c, quantum);
    FetchedWord(v, mem, ls, quantum, c, v.os.cores[c].p);
  }

  /** With at least one core, a machine that has neither crashed nor begun to shut down can always go on, other than
      by a spurious wake-up. */
  lemma MachineNeverStuck(v: Vm, mem: Mem, ls: seq<Layout>, quantum: nat)
    requires VmInv(v, mem, ls, quantum) && Setup(mem, ls)
    requires !v.os.crashed && !Stopping(v.os.runner) && v.os.cores != []
    ensures exists a :: !Progress.Spurious(a) && VmNext(v, a, ls, quantum).Some?
  {
    hide Solo, SoloPrinted, CodeWordRead, Loader.InitialState, Machine.Execute, Decode;
    Progress.NeverStuck(v.os, quantum);
    var a :| !Progress.Spurious(a) && Next(v.os, a, quantum).Some?;
    if a.Execute? {
      var p := v.os.cores[a.c].p;
      var o := Machine.Execute(Decode(v.raws[a.c]), v.StateOf(p), ls[p]).outcome;
      assert VmNext(v, Execute(a.c, o), ls, quantum).Some?;
    } else if a.Fetch? || a.FetchFault? {
      FetchPossible(v, a.c, mem, ls, quantum);
    } else {
      assert VmNext(v, a, ls, quantum).Some?;
    }
  }
}
