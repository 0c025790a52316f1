/** A hold of CoreLoop, which no other thread disturbs, is a run of the machine: what the objects do between acquiring a
    process and letting it go is what the protocol's actions of that core do. */
module HoldRun {
  import opened Words
  import opened Encoding
  import opened Memory
  import opened Segments
  import opened Machine
  import opened Scheduling
  import opened Protocol
  import opened Ownership
  import opened OwnershipSteps
  import opened System
  import opened Independence
  import opened CoreLoop
  import Cpu

  /** Core c, past its flag test or the acquisition of p, is about to take p's next instruction; nothing is in its
      way. */
  ghost predicate Ready(v: Vm, c: nat, p: nat, mem: Mem, ls: seq<Layout>, quantum: nat) {
    && VmInv(v, mem, ls, quantum) && !v.os.crashed && v.os.mutex.None?
    && c < |v.os.cores| && v.os.cores[c] == Chosen(p) && p < |ls|
  }

  /** Between v and w only process p has changed. */
  ghost predicate OnlyTouches(v: Vm, w: Vm, p: nat, ls: seq<Layout>) {
    && VmShape(v, ls) && VmShape(w, ls)
    && forall q :: 0 <= q < |ls| && q != p ==>
         w.registers[q] == v.registers[q] && w.counts[q] == v.counts[q] && w.outputs[q] == v.outputs[q]
  }

  lemma FetchTurn(v: Vm, c: nat, p: nat, mem: Mem, ls: seq<Layout>, quantum: nat) returns (w: Vm)
    requires Ready(v, c, p, mem, ls, quantum) && Setup(mem, ls)
    ensures VmNext(v, Fetch(c), ls, quantum) == Some(w) && VmInv(w, mem, ls, quantum)
    ensures |w.raws| == |v.raws| && CodeWordRead(v.mem, ls[p], v.registers[p].core.pc) == Some(w.raws[c])
    ensures w == v.(os := v.os.At(c, Fetched(p)), raws := w.raws)
  {
    hide Follows, Progressed, CoreOk, CodeWordRead, Decode, Machine.Execute, Setup;
    hide QueueOk, PointsOk, RunningHeld, SleepOk, QuantumOk, RunnerOk, ShutdownOk;
    FetchPossible(v, c, mem, ls, quantum);
    FetchKeeps(v.os, c, quantum);
    w := VmNext(v, Fetch(c), ls, quantum).value;
    VmStepKeeps(v, Fetch(c), mem, ls, quantum);
  }

  lemma RanCrashes(s: Os, c: nat, p: nat, o: Outcome)
    requires Shape(s) && c < |s.cores| && p < |s.sched.states|
    ensures Ran(s, c, p, o).crashed == (Thrown(o) || s.crashed) && Ran(s, c, p, o).mutex == s.mutex
    ensures |Ran(s, c, p, o).cores| == |s.cores|
    ensures !Thrown(o) ==> Ran(s, c, p, o).cores[c] == Executed(p, o)
    ensures !Thrown(o) ==>
              var state := if o == Machine.Halt(true) then Cpu.Halted else s.sched.states[p];
              Ran(s, c, p, o).sched == Touched(s.sched, p, state, SliceAfter(o, s.sched.slices[p]))
  {
  }

  lemma ExecuteTurn(v: Vm, c: nat, p: nat, mem: Mem, ls: seq<Layout>, quantum: nat) returns (w: Vm)
    requires VmInv(v, mem, ls, quantum) && Setup(mem, ls) && !v.os.crashed && p < |ls|
    requires c < |v.os.cores| && v.os.cores[c] == Fetched(p)
    requires CodeWordRead(v.mem, ls[p], v.registers[p].core.pc) == Some(v.raws[c])
    requires !Thrown(Step(v.StateOf(p), ls[p]).outcome)
    ensures var e := Step(v.StateOf(p), ls[p]);
            && VmNext(v, Execute(c, e.outcome), ls, quantum) == Some(w) && VmInv(w, mem, ls, quantum)
            && w.StateOf(p) == e.state && w.outputs[p] == v.outputs[p] + e.printed && w.counts[p] == v.counts[p] + 1
            && OnlyTouches(v, w, p, ls) && w.os == Ran(v.os, c, p, e.outcome)
  {
    hide Follows, Progressed, CoreOk, CodeWordRead, Decode, Machine.Execute, Setup, Ran, Inv;
    var e := Step(v.StateOf(p), ls[p]);
    RanStep(v.os, c, p, e.outcome, quantum);
    assert !Ran(v.os, c, p, e.outcome).crashed by { RanCrashes(v.os, c, p, e.outcome); }
    w := VmNext(v, Execute(c, e.outcome), ls, quantum).value;
    ExecuteEffect(v, w, c, p, e.outcome, ls, quantum);
    VmStepKeeps(v, Execute(c, e.outcome), mem, ls, quantum);
  }

  /** What Finish leaves: the process kept, halted with its release pending, or let go. */
  lemma FinishTurn(v: Vm, c: nat, p: nat, o: Outcome, mem: Mem, ls: seq<Layout>, quantum: nat) returns (w: Vm)
    requires VmInv(v, mem, ls, quantum) && Setup(mem, ls) && !v.os.crashed && v.os.mutex.None? && p < |ls|
    requires c < |v.os.cores| && v.os.cores[c] == Executed(p, o)
    ensures VmNext(v, Finish(c), ls, quantum) == Some(w) && VmInv(w, mem, ls, quantum)
    ensures w == v.(os := w.os) && !w.os.crashed && w.os.mutex.None?
    ensures |w.os.cores| == |v.os.cores| && p < |v.os.sched.slices|
    ensures Stays(o) && v.os.sched.slices[p] > 0 ==> w.os == v.os.At(c, Holding(p))
    ensures Ended(o) ==> w.os.cores[c] == Marked(p)
                         && w.os.sched == v.os.sched.(states := v.os.sched.states[p := Cpu.Halted])
    ensures !Ended(o) && !(Stays(o) && v.os.sched.slices[p] > 0) ==>
              w.os.cores[c] == Idle && w.os.sched == AfterRelease(v.os.sched, p, true)
  {
    hide Follows, Progressed, CoreOk, Setup, QueueOk, PointsOk, RunningHeld, SleepOk, QuantumOk, RunnerOk, ShutdownOk;
    PointOf(v.os, c, quantum);
    ReleaseAgrees(v.os, c, p, true, Idle);
    w := VmNext(v, Finish(c), ls, quantum).value;
    VmStepKeeps(v, Finish(c), mem, ls, quantum);
  }

  function Turn(c: nat, o: Outcome): seq<Action> {
    [Fetch(c), Execute(c, o), Finish(c)]
  }

  lemma ThreeSteps(v: Vm, a: Action, b: Action, d: Action, v1: Vm, v2: Vm, v3: Vm, mem: Mem, ls: seq<Layout>,
                   quantum: nat)
    requires VmInv(v, mem, ls, quantum) && VmInv(v1, mem, ls, quantum) && VmInv(v2, mem, ls, quantum) && Setup(mem, ls)
    requires VmNext(v, a, ls, quantum) == Some(v1) && VmNext(v1, b, ls, quantum) == Some(v2)
    requires VmNext(v2, d, ls, quantum) == Some(v3)
    ensures VmRun(v, [a, b, d], mem, ls, quantum) == Some(v3)
  {
    hide Setup, Inv, Follows, Progressed, CoreOk, VmNext;
    VmStepKeeps(v2, d, mem, ls, quantum);
    assert [a, b, d][1..] == [b, d] && [b, d][1..] == [d] && [d][1..] == [];
    assert VmRun(v3, [], mem, ls, quantum) == Some(v3);
    assert VmRun(v2, [d], mem, ls, quantum) == Some(v3);
    assert VmRun(v1, [b, d], mem, ls, quantum) == Some(v3);
  }

  /** The scheduler once core c's turn at p has ended with o, and where that leaves the core. */
  predicate TurnEnds(s: Sched, p: nat, o: Outcome, t: Sched, pt: CorePoint)
    requires p < |s.states| == |s.slices|
  {
    var slice := SliceAfter(o, s.slices[p]);
    if Stays(o) && slice > 0 then pt == Holding(p) && t == Touched(s, p, Cpu.Running, slice)
    else if Ended(o) then pt == Marked(p) && t == Touched(s, p, Cpu.Halted, slice)
    else pt == Idle && t == LetGo(s, p, slice, o)
  }

  lemma TurnRun(v: Vm, c: nat, p: nat, mem: Mem, ls: seq<Layout>, quantum: nat) returns (w: Vm)
    requires Ready(v, c, p, mem, ls, quantum) && Setup(mem, ls) && !Thrown(Step(v.StateOf(p), ls[p]).outcome)
    ensures var e := Step(v.StateOf(p), ls[p]);
            && VmRun(v, Turn(c, e.outcome), mem, ls, quantum) == Some(w) && VmInv(w, mem, ls, quantum)
            && w.StateOf(p) == e.state && w.outputs[p] == v.outputs[p] + e.printed && w.counts[p] == v.counts[p] + 1
            && OnlyTouches(v, w, p, ls) && !w.os.crashed && w.os.mutex.None? && |w.os.cores| == |v.os.cores|
            && TurnEnds(v.os.sched, p, e.outcome, w.os.sched, w.os.cores[c])
  {
    hide Follows, Progressed, CoreOk, CodeWordRead, Step, Setup, Ran, VmNext, AfterRelease, VmRun;
    hide QueueOk, PointsOk, RunningHeld, SleepOk, QuantumOk, RunnerOk, ShutdownOk;
    var e := Step(v.StateOf(p), ls[p]);
    PointOf(v.os, c, quantum);
    var v1 := FetchTurn(v, c, p, mem, ls, quantum);
    assert v1.StateOf(p) == v.StateOf(p);
    RanCrashes(v1.os, c, p, e.outcome);
    var v2 := ExecuteTurn(v1, c, p, mem, ls, quantum);
    w := FinishTurn(v2, c, p, e.outcome, mem, ls, quantum);
    ThreeSteps(v, Fetch(c), Execute(c, e.outcome), Finish(c), v1, v2, w, mem, ls, quantum);
    TouchedTwice(v.os.sched, p, Cpu.Running, SliceAfter(e.outcome, v.os.sched.slices[p]), Cpu.Halted,
                 SliceAfter(e.outcome, v.os.sched.slices[p]));
  }

  /** The flag test between two turns: no stop is requested while p runs. */
  lemma LoopTurn(v: Vm, c: nat, p: nat, mem: Mem, ls: seq<Layout>, quantum: nat) returns (w: Vm)
    requires VmInv(v, mem, ls, quantum) && Setup(mem, ls) && !v.os.crashed && v.os.mutex.None? && p < |ls|
    requires c < |v.os.cores| && v.os.cores[c] == Holding(p)
    ensures VmNext(v, Loop(c), ls, quantum) == Some(w) && w == v.(os := v.os.At(c, Chosen(p)))
    ensures Ready(w, c, p, mem, ls, quantum)
  {
    hide Follows, Progressed, CoreOk, Setup, QueueOk, PointsOk, RunningHeld, SleepOk, QuantumOk, RunnerOk, ShutdownOk;
    PointOf(v.os, c, quantum);
    w := VmNext(v, Loop(c), ls, quantum).value;
    VmStepKeeps(v, Loop(c), mem, ls, quantum);
  }

  lemma ReleaseTurn(v: Vm, c: nat, p: nat, mem: Mem, ls: seq<Layout>, quantum: nat) returns (w: Vm)
    requires VmInv(v, mem, ls, quantum) && Setup(mem, ls) && !v.os.crashed && v.os.mutex.None? && p < |ls|
    requires c < |v.os.cores| && v.os.cores[c] == Marked(p)
    ensures VmNext(v, Release(c), ls, quantum) == Some(w) && VmInv(w, mem, ls, quantum) && w == v.(os := w.os)
    ensures |w.os.cores| == |v.os.cores| && w.os.cores[c] == CallbackDue
                && w.os.sched == AfterRelease(v.os.sched, p, false)
  {
    hide Follows, Progressed, CoreOk, Setup, QueueOk, PointsOk, RunningHeld, SleepOk, QuantumOk, RunnerOk, ShutdownOk;
    ReleaseAgrees(v.os, c, p, false, CallbackDue);
    w := VmNext(v, Release(c), ls, quantum).value;
    VmStepKeeps(v, Release(c), mem, ls, quantum);
  }

  lemma OneMore(s: State, l: Layout, k: nat, t: State, printed: seq<Word>)
    requires k > 0 && Going(s, l, k, t, printed)
    ensures var u, before := Solo(s, l, k - 1), SoloPrinted(s, l, k - 1);
            && Going(s, l, k - 1, u, before)
            && Stays(Step(u, l).outcome) && t == Step(u, l).state && printed == before + Step(u, l).printed
  {
    hide Step;
    assert Stays(SoloOutcome(s, l, k - 1));
  }

  lemma NothingDone(v: Vm, c: nat, p: nat, t: State, printed: seq<Word>, mem: Mem, ls: seq<Layout>, quantum: nat)
    requires Ready(v, c, p, mem, ls, quantum) && Going(v.StateOf(p), ls[p], 0, t, printed)
    ensures v.StateOf(p) == t && printed == []
    ensures v.os.sched == Touched(v.os.sched, p, Cpu.Running, v.os.sched.slices[p])
  {
    hide Follows, Progressed, CoreOk, QueueOk, PointsOk, RunningHeld, SleepOk, QuantumOk, RunnerOk, ShutdownOk;
    PointOf(v.os, c, quantum);
    TouchedSame(v.os.sched, p);
  }

  /** As long as the process keeps its core. */
  lemma {:induction false} KeptRun(v: Vm, c: nat, p: nat, k: nat, t: State, printed: seq<Word>,
                                   mem: Mem, ls: seq<Layout>, quantum: nat)
    returns (acts: seq<Action>, w: Vm)
    requires Ready(v, c, p, mem, ls, quantum) && Setup(mem, ls)
    requires Going(v.StateOf(p), ls[p], k, t, printed) && (k == 0 || k < v.os.sched.slices[p])
    ensures VmRun(v, acts, mem, ls, quantum) == Some(w) && Ready(w, c, p, mem, ls, quantum)
    ensures |w.os.cores| == |v.os.cores| && w.StateOf(p) == t
    ensures w.outputs[p] == v.outputs[p] + printed && w.counts[p] == v.counts[p] + k
    ensures OnlyTouches(v, w, p, ls) && w.os.sched == Touched(v.os.sched, p, Cpu.Running, v.os.sched.slices[p] - k)
    decreases k
  {
    hide Follows, Progressed, CoreOk, CodeWordRead, Step, Solo, SoloPrinted, Setup, VmNext, AfterRelease;
    hide QueueOk, PointsOk, RunningHeld, SleepOk, QuantumOk, RunnerOk, ShutdownOk;
    if k == 0 {
      acts, w := [], v;
      NothingDone(v, c, p, t, printed, mem, ls, quantum);
    } else {
      var s, l := v.StateOf(p), ls[p];
      OneMore(s, l, k, t, printed);
      var before, u := KeptRun(v, c, p, k - 1, Solo(s, l, k - 1), SoloPrinted(s, l, k - 1), mem, ls, quantum);
      var kept := TurnRun(u, c, p, mem, ls, quantum);
      var o := Step(u.StateOf(p), l).outcome;
      RunJoins(v, before, Turn(c, o), mem, ls, quantum);
      w := LoopTurn(kept, c, p, mem, ls, quantum);
      OneStep(kept, Loop(c), mem, ls, quantum);
      acts := before + Turn(c, o) + [Loop(c)];
      RunJoins(v, before + Turn(c, o), [Loop(c)], mem, ls, quantum);
      TouchedTwice(v.os.sched, p, Cpu.Running, v.os.sched.slices[p] - (k - 1), Cpu.Running, v.os.sched.slices[p] - k);
    }
  }

  lemma LastOne(s: State, l: Layout, n: nat, t: State, printed: seq<Word>, o: Outcome)
    requires Gone(s, l, n, t, printed, o)
    ensures var u, before := Solo(s, l, n - 1), SoloPrinted(s, l, n - 1);
            && Going(s, l, n - 1, u, before)
            && o == Step(u, l).outcome && t == Step(u, l).state && printed == before + Step(u, l).printed
  {
    hide Step;
  }

  /** A hold that Hold's contract allows, n instructions from acquiring p to letting it go, is a run of the machine: the
      same registers, memory and output, and the same scheduler. */
  lemma HoldIsRun(v: Vm, c: nat, p: nat, n: nat, t: State, printed: seq<Word>, o: Outcome,
                  mem: Mem, ls: seq<Layout>, quantum: nat)
    returns (acts: seq<Action>, w: Vm)
    requires Ready(v, c, p, mem, ls, quantum) && Setup(mem, ls) && !Thrown(o)
    requires Gone(v.StateOf(p), ls[p], n, t, printed, o)
    requires n <= Limit(v.os.sched.slices[p]) && (Stays(o) ==> n == Limit(v.os.sched.slices[p]))
    ensures VmRun(v, acts, mem, ls, quantum) == Some(w)
    ensures OnlyTouches(v, w, p, ls) && w.StateOf(p) == t
    ensures w.outputs[p] == v.outputs[p] + printed && w.counts[p] == v.counts[p] + n
    ensures |w.os.cores| == |v.os.cores| && w.os.cores[c] == if Ended(o) then CallbackDue else Idle
    ensures w.os.sched == LetGo(v.os.sched, p, SliceAfter(o, v.os.sched.slices[p] - (n - 1)), o)
  {
    hide Follows, Progressed, CoreOk, CodeWordRead, Step, Solo, SoloPrinted, Setup, VmNext, VmRun, AfterRelease;
    hide QueueOk, PointsOk, RunningHeld, SleepOk, QuantumOk, RunnerOk, ShutdownOk;
    var s, l, slice := v.StateOf(p), ls[p], v.os.sched.slices[p];
    LastOne(s, l, n, t, printed, o);
    var before, u := KeptRun(v, c, p, n - 1, Solo(s, l, n - 1), SoloPrinted(s, l, n - 1), mem, ls, quantum);
    var last := TurnRun(u, c, p, mem, ls, quantum);
    RunJoins(v, before, Turn(c, o), mem, ls, quantum);
    acts, w := before + Turn(c, o), last;
    LetGoTouched(v.os.sched, p, Cpu.Running, slice - (n - 1), SliceAfter(o, slice - (n - 1)), o);
    if Ended(o) {
      w := ReleaseTurn(last, c, p, mem, ls, quantum);
      OneStep(last, Release(c), mem, ls, quantum);
      RunJoins(v, acts, [Release(c)], mem, ls, quantum);
      acts := acts + [Release(c)];
      TouchedTwice(v.os.sched, p, Cpu.Running, slice - (n - 1), Cpu.Halted, SliceAfter(o, slice - (n - 1)));
    }
  }
}
