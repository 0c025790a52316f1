/** The whole machine: the protocol of the cores together with registers and shared memory. Whatever the number of
    cores, the quantum and the interleaving, each process does what it would do alone. */
module System {
  import opened Words
  import opened Encoding
  import opened Memory
  import opened Segments
  import opened Machine
  import opened Protocol
  import opened Ownership
  import opened OwnershipSteps
  import Cpu
  import Loader
  import Runs
  import Scheduling

  datatype Registers = Registers(core: Core, sp: Word)

  datatype Vm = Vm(
    os: Os,
    registers: seq<Registers>,        // of each process
    mem: Mem,
    raws: seq<Word>,                  // the code word each core has fetched
    counts: seq<nat>,                 // instructions each process has executed
    outputs: seq<seq<Word>>)          // words each process has printed
  {
    function StateOf(p: nat): Machine.State
      requires p < |registers|
    {
      Machine.State.State(registers[p].core, registers[p].sp, mem)
    }
  }

  ghost predicate VmShape(v: Vm, ls: seq<Layout>) {
    && Shape(v.os) && |v.raws| == |v.os.cores|
    && |v.registers| == |v.counts| == |v.outputs| == |ls| == |v.os.sched.states|
  }

  /** A step of the machine: the protocol's step, with fetches and instructions taking effect on the data. */
  function VmNext(v: Vm, a: Action, ls: seq<Layout>, quantum: nat): Option<Vm>
    requires VmShape(v, ls)
  {
    match Next(v.os, a, quantum)
    case None => None
    case Some(os) =>
      if a.Fetch? && os.cores[a.c].Fetched? then
        var p := os.cores[a.c].p;
        (match CodeWordRead(v.mem, ls[p], v.registers[p].core.pc)
         case None => None
         case Some(raw) => Some(v.(os := os, raws := v.raws[a.c := raw])))
      else if a.FetchFault? then
        var p := v.os.cores[a.c].p;
        if CodeWordRead(v.mem, ls[p], v.registers[p].core.pc).None? then Some(v.(os := os)) else None
      else if a.Execute? then
        var p := v.os.cores[a.c].p;
        var e := Machine.Execute(Decode(v.raws[a.c]), v.StateOf(p), ls[p]);
        if e.outcome != a.o then None
        else if os.crashed then Some(v.(os := os))
        else Some(v.(os := os, registers := v.registers[p := Registers(e.state.core, e.state.sp)], mem := e.state.mem,
                     counts := v.counts[p := v.counts[p] + 1], outputs := v.outputs[p := v.outputs[p] + e.printed]))
      else Some(v.(os := os))
  }

  // ---- What a process does alone ------------------------------------------------------------------------

  predicate KeepsGoing(o: Outcome) {
    o.Continue? || o.Jump? || o.Yield?
  }

  /** The first n instructions of the solo run neither end the process nor fail. */
  ghost predicate Alive(s: Machine.State, l: Layout, n: nat) {
    forall j :: 0 <= j < n ==> KeepsGoing(SoloOutcome(s, l, j))
  }

  /** The process never fetches from outside its own region while it is alive. */
  ghost predicate Tame(s: Machine.State, l: Layout) {
    forall n: nat :: Alive(s, l, n) ==> l.FetchInside(Solo(s, l, n).core.pc)
  }

  ghost predicate Regions(mem: Mem, ls: seq<Layout>) {
    && (forall p :: 0 <= p < |ls| ==> ls[p].Fits(|mem|))
    && (forall p, q :: 0 <= p < q < |ls| ==>
          ls[p].base + ls[p].totalSize <= ls[q].base || ls[q].base + ls[q].totalSize <= ls[p].base)
  }

  ghost predicate Setup(mem: Mem, ls: seq<Layout>) {
    Regions(mem, ls) && forall p :: 0 <= p < |ls| ==> Tame(Loader.InitialState(mem, ls[p]), ls[p])
  }

  function Start(mem: Mem, ls: seq<Layout>, coreCount: nat, quantum: nat): Vm {
    Vm(Runs.Boot(|ls|, coreCount, quantum),
       seq(|ls|, p requires 0 <= p < |ls| => Registers(Loader.ZERO_CORE, Loader.InitialState(mem, ls[p]).sp)),
       mem, seq(coreCount, _ => 0), seq(|ls|, _ => 0), seq(|ls|, _ => []))
  }

  // ---- The invariant ------------------------------------------------------------------------------------

  /** Process p is where its solo run is after as many instructions, and has printed the same. */
  ghost predicate Follows(v: Vm, mem: Mem, ls: seq<Layout>, p: nat)
    requires VmShape(v, ls) && p < |ls|
  {
    var s := Loader.InitialState(mem, ls[p]);
    && SameProcess(v.StateOf(p), Solo(s, ls[p], v.counts[p]), ls[p])
    && v.outputs[p] == SoloPrinted(s, ls[p], v.counts[p])
  }

  predicate Ends(o: Outcome) {
    o.Halt? || o.Error?
  }

  predicate JustExecuted(s: Os, c: nat, p: nat) {
    c < |s.cores| && s.cores[c].Executed? && s.cores[c].p == p
  }

  /** A Halted process has executed its last instruction; another one, unless that instruction is just over, has
      executed none that ends it. */
  ghost predicate Progressed(v: Vm, mem: Mem, ls: seq<Layout>, p: nat)
    requires VmShape(v, ls) && p < |ls|
  {
    var s, n := Loader.InitialState(mem, ls[p]), v.counts[p];
    if v.os.sched.states[p] == Cpu.Halted then
      n >= 1 && Alive(s, ls[p], n - 1) && Ends(SoloOutcome(s, ls[p], n - 1))
    else
      Alive(s, ls[p], n) || exists c :: JustExecuted(v.os, c, p)
  }

  /** A fetched word is the one the solo run is about to execute, and a result is the one it gave. */
  ghost predicate CoreOk(v: Vm, mem: Mem, ls: seq<Layout>, c: nat)
    requires VmShape(v, ls) && c < |v.os.cores|
  {
    match v.os.cores[c]
    case Fetched(p) =>
      var t := Solo(Loader.InitialState(mem, ls[p]), ls[p], v.counts[p]);
      CodeWordRead(t.mem, ls[p], t.core.pc) == Some(v.raws[c])
    case Executed(p, o) =>
      var s, n := Loader.InitialState(mem, ls[p]), v.counts[p];
      n >= 1 && Alive(s, ls[p], n - 1) && o == SoloOutcome(s, ls[p], n - 1)
    case _ => true
  }

  ghost predicate VmInv(v: Vm, mem: Mem, ls: seq<Layout>, quantum: nat) {
    && VmShape(v, ls) && Inv(v.os, quantum) && |v.mem| == |mem|
    && (forall p :: 0 <= p < |ls| ==> Follows(v, mem, ls, p) && Progressed(v, mem, ls, p))
    && (forall c :: 0 <= c < |v.os.cores| ==> CoreOk(v, mem, ls, c))
  }

  lemma StartInv(mem: Mem, ls: seq<Layout>, coreCount: nat, quantum: nat)
    requires Setup(mem, ls)
    ensures VmInv(Start(mem, ls, coreCount, quantum), mem, ls, quantum)
  {
    Runs.BootInv(|ls|, coreCount, quantum);
    Runs.LoadsQueueInOrder(|ls|, quantum);
  }

  // ---- Each step keeps it -------------------------------------------------------------------------------

  lemma AcquireMove(s: Os, c: nat, quantum: nat)
    requires Shape(s) && c < |s.cores|
    ensures var t := Acquire(s, c, quantum);
            && t.runner == s.runner && |t.cores| == |s.cores| && !t.cores[c].Executed? && !t.cores[c].Fetched?
            && t.cores == s.cores[c := t.cores[c]]
  {
    hide Scheduling.Pick;
  }

  lemma QuietMove(s: Os, a: Action, c: nat, quantum: nat)
    requires Shape(s) && c < |s.cores| && CoreStep(s, a, c, quantum).Some? && !a.Execute? && !a.Finish?
    ensures var t := CoreStep(s, a, c, quantum).value;
            && |t.cores| == |s.cores| && !s.cores[c].Executed? && !t.cores[c].Executed?
            && (t.cores == s.cores || t.cores == s.cores[c := t.cores[c]]
                || t.cores == WakeAll(s.cores)[c := t.cores[c]])
            && (t.cores[c].Fetched? ==> a.Fetch? && s.cores[c] == Chosen(t.cores[c].p))
  {
    hide Acquire, WakeAll, Scheduling.NotifyReady, Scheduling.Preempt, Scheduling.EveryHalted;
    AcquireMove(s, c, quantum);
  }

  lemma QuietCores(s: Os, a: Action, quantum: nat)
    requires Inv(s, quantum) && Next(s, a, quantum).Some? && !a.Execute? && !a.Finish?
    ensures var t := Next(s, a, quantum).value;
            && |t.cores| == |s.cores|
            && (forall c :: 0 <= c < |s.cores| && (s.cores[c].Executed? || t.cores[c].Executed?) ==>
                  t.cores[c] == s.cores[c])
            && (forall c :: 0 <= c < |s.cores| && t.cores[c].Fetched? && t.cores[c] != s.cores[c] ==>
                  a == Fetch(c) && s.cores[c] == Chosen(t.cores[c].p))
  {
    hide QueueOk, PointsOk, RunningHeld, SleepOk, QuantumOk, ShutdownOk, CoreStep, Scheduling.NotifyReady;
    hide Scheduling.EveryHalted;
    if !a.RunnerStep? && !a.RunnerSpurious? && a.c < |s.cores| {
      QuietMove(s, a, a.c, quantum);
    }
  }

  lemma QuietStates(s: Os, a: Action, quantum: nat)
    requires Inv(s, quantum) && Next(s, a, quantum).Some? && !a.Execute? && !a.Finish?
    ensures var t := Next(s, a, quantum).value;
            && |t.sched.states| == |s.sched.states|
            && (forall p :: 0 <= p < |s.sched.states| ==>
                  (t.sched.states[p] == Cpu.Halted <==> s.sched.states[p] == Cpu.Halted))
  {
    if s.sched.queue != [] {
      PickIsHead(s, quantum);
      assert s.sched.states[s.sched.queue[0]] == Cpu.Ready;
    }
    if !a.RunnerStep? && !a.RunnerSpurious? && a.c < |s.cores| {
      PointOf(s, a.c, quantum);
    }
    hide QueueOk, PointsOk, RunningHeld, SleepOk, QuantumOk, RunnerOk, ShutdownOk, Scheduling.Pick, Scheduling.AddReady;
    hide Scheduling.EveryHalted, WakeAll;
  }

  /** Apart from Execute and Finish, a step neither ends a process nor moves a core to or from Executed. */
  lemma QuietStep(s: Os, a: Action, quantum: nat)
    requires Inv(s, quantum) && Next(s, a, quantum).Some? && !a.Execute? && !a.Finish?
    ensures var t := Next(s, a, quantum).value;
            && |t.cores| == |s.cores| && |t.sched.states| == |s.sched.states|
            && (forall p :: 0 <= p < |s.sched.states| ==>
                  (t.sched.states[p] == Cpu.Halted <==> s.sched.states[p] == Cpu.Halted))
            && (forall c :: 0 <= c < |s.cores| && (s.cores[c].Executed? || t.cores[c].Executed?) ==>
                  t.cores[c] == s.cores[c])
            && (forall c :: 0 <= c < |s.cores| && t.cores[c].Fetched? && t.cores[c] != s.cores[c] ==>
                  a == Fetch(c) && s.cores[c] == Chosen(t.cores[c].p))
  {
    hide QueueOk, PointsOk, RunningHeld, SleepOk, QuantumOk, RunnerOk, ShutdownOk, Next;
    QuietCores(s, a, quantum);
    QuietStates(s, a, quantum);
  }

  lemma ProgressKept(v: Vm, w: Vm, mem: Mem, ls: seq<Layout>, q: nat, c: nat)
    requires VmShape(v, ls) && VmShape(w, ls) && q < |ls| && |v.os.cores| == |w.os.cores|
    requires w.counts[q] == v.counts[q] && Progressed(v, mem, ls, q)
    requires w.os.sched.states[q] == Cpu.Halted <==> v.os.sched.states[q] == Cpu.Halted
    requires !JustExecuted(v.os, c, q)
    requires forall d :: 0 <= d < |v.os.cores| && d != c && v.os.cores[d].Executed? ==> w.os.cores[d] == v.os.cores[d]
    ensures Progressed(w, mem, ls, q)
  {
    hide Solo, SoloPrinted, SoloOutcome, Alive, Loader.InitialState;
    if v.os.sched.states[q] != Cpu.Halted && !Alive(Loader.InitialState(mem, ls[q]), ls[q], v.counts[q]) {
      var d :| JustExecuted(v.os, d, q);
      assert JustExecuted(w.os, d, q);
    }
  }

  /** A process that the step's core c has not just executed is as far as it was. */
  lemma QuietProgress(v: Vm, w: Vm, mem: Mem, ls: seq<Layout>, q: nat, c: nat)
    requires VmShape(v, ls) && VmShape(w, ls) && q < |ls| && |v.os.cores| == |w.os.cores|
    requires w.registers == v.registers && w.mem == v.mem && w.counts == v.counts && w.outputs == v.outputs
    requires Follows(v, mem, ls, q) && Progressed(v, mem, ls, q)
    requires w.os.sched.states[q] == Cpu.Halted <==> v.os.sched.states[q] == Cpu.Halted
    requires !JustExecuted(v.os, c, q)
    requires forall d :: 0 <= d < |v.os.cores| && d != c && v.os.cores[d].Executed? ==> w.os.cores[d] == v.os.cores[d]
    ensures Follows(w, mem, ls, q) && Progressed(w, mem, ls, q)
  {
    ProgressKept(v, w, mem, ls, q, c);
    hide Solo, SoloPrinted, SoloOutcome, Alive, Loader.InitialState;
  }

  lemma CoreKept(v: Vm, w: Vm, mem: Mem, ls: seq<Layout>, d: nat)
    requires VmShape(v, ls) && VmShape(w, ls) && d < |v.os.cores| && d < |w.os.cores| && CoreOk(v, mem, ls, d)
    requires Held(v.os.cores[d]).Some? ==> w.counts[Held(v.os.cores[d]).value] == v.counts[Held(v.os.cores[d]).value]
    requires w.os.cores[d].Fetched? || w.os.cores[d].Executed? ==>
               w.os.cores[d] == v.os.cores[d] && w.raws[d] == v.raws[d]
    ensures CoreOk(w, mem, ls, d)
  {
    hide Solo, SoloPrinted, SoloOutcome, CodeWordRead, Alive, Loader.InitialState;
  }

  lemma QuietKeeps(v: Vm, a: Action, mem: Mem, ls: seq<Layout>, quantum: nat)
    requires VmInv(v, mem, ls, quantum) && Setup(mem, ls) && Next(v.os, a, quantum).Some? && !a.Execute? && !a.Finish?
    requires !(a.Fetch? && Next(v.os, a, quantum).value.cores[a.c].Fetched?)
    ensures VmInv(v.(os := Next(v.os, a, quantum).value), mem, ls, quantum)
  {
    hide Solo, SoloPrinted, SoloOutcome, Alive, CodeWordRead, Next, Loader.InitialState;
    hide QueueOk, PointsOk, RunningHeld, SleepOk, QuantumOk, RunnerOk, ShutdownOk;
    var w := v.(os := Next(v.os, a, quantum).value);
    StepKeeps(v.os, a, quantum);
    QuietStep(v.os, a, quantum);
    forall p | 0 <= p < |ls|
      ensures Follows(w, mem, ls, p) && Progressed(w, mem, ls, p)
    {
      QuietProgress(v, w, mem, ls, p, |v.os.cores|);
    }
    forall c | 0 <= c < |w.os.cores|
      ensures CoreOk(w, mem, ls, c)
    {
      CoreKept(v, w, mem, ls, c);
    }
  }

  /** A process that a core holds between instructions is alive, so its next fetch is its own. */
  lemma HeldAlive(v: Vm, mem: Mem, ls: seq<Layout>, quantum: nat, c: nat, p: nat)
    requires VmInv(v, mem, ls, quantum) && Setup(mem, ls) && c < |v.os.cores| && p < |ls|
    requires v.os.cores[c] == Chosen(p) || v.os.cores[c] == Fetched(p)
    ensures Alive(Loader.InitialState(mem, ls[p]), ls[p], v.counts[p])
    ensures ls[p].FetchInside(v.registers[p].core.pc)
  {
    assert PointOk(v.os, c);
    forall d | JustExecuted(v.os, d, p)
      ensures false
    {
    }
    assert Progressed(v, mem, ls, p) && Follows(v, mem, ls, p);
  }

  /** What a core fetches is the word its process's solo run fetches. */
  lemma FetchedWord(v: Vm, mem: Mem, ls: seq<Layout>, quantum: nat, c: nat, p: nat)
    requires VmInv(v, mem, ls, quantum) && Setup(mem, ls) && c < |v.os.cores| && p < |ls| && v.os.cores[c] == Chosen(p)
    ensures var t := Solo(Loader.InitialState(mem, ls[p]), ls[p], v.counts[p]);
            && CodeWordRead(v.mem, ls[p], v.registers[p].core.pc) == CodeWordRead(t.mem, ls[p], t.core.pc)
            && CodeWordRead(t.mem, ls[p], t.core.pc).Some?
  {
    HeldAlive(v, mem, ls, quantum, c, p);
    hide Solo, SoloPrinted, SoloOutcome, Alive, Next, Loader.InitialState, CodeWordRead, Inv;
    var t := Solo(Loader.InitialState(mem, ls[p]), ls[p], v.counts[p]);
    assert Follows(v, mem, ls, p);
    assert SameProcess(v.StateOf(p), t, ls[p]);
    FetchLocal(v.mem, t.mem, ls[p], t.core.pc);
  }

  lemma FetchKeepsData(v: Vm, c: nat, p: nat, raw: Word, mem: Mem, ls: seq<Layout>, quantum: nat)
    requires VmInv(v, mem, ls, quantum) && Setup(mem, ls) && c < |v.os.cores| && p < |ls| && v.os.cores[c] == Chosen(p)
    requires Next(v.os, Fetch(c), quantum).Some? && Next(v.os, Fetch(c), quantum).value.cores[c].Fetched?
    requires CodeWordRead(v.mem, ls[p], v.registers[p].core.pc) == Some(raw)
    ensures VmInv(v.(os := Next(v.os, Fetch(c), quantum).value, raws := v.raws[c := raw]), mem, ls, quantum)
  {
    FetchedWord(v, mem, ls, quantum, c, p);
    hide Solo, SoloPrinted, SoloOutcome, Alive, CodeWordRead, Next, Loader.InitialState;
    hide QueueOk, PointsOk, RunningHeld, SleepOk, QuantumOk, RunnerOk, ShutdownOk;
    var w := v.(os := Next(v.os, Fetch(c), quantum).value, raws := v.raws[c := raw]);
    StepKeeps(v.os, Fetch(c), quantum);
    QuietStep(v.os, Fetch(c), quantum);
    forall q | 0 <= q < |ls|
      ensures Follows(w, mem, ls, q) && Progressed(w, mem, ls, q)
    {
      QuietProgress(v, w, mem, ls, q, |v.os.cores|);
    }
    forall d | 0 <= d < |w.os.cores|
      ensures CoreOk(w, mem, ls, d)
    {
      if d != c {
        CoreKept(v, w, mem, ls, d);
      }
    }
  }

  /** While all layouts hold and every process is tame, no fetch ever leaves physical memory. */
  lemma NoFetchFault(v: Vm, c: nat, mem: Mem, ls: seq<Layout>, quantum: nat)
    requires VmInv(v, mem, ls, quantum) && Setup(mem, ls)
    ensures VmNext(v, FetchFault(c), ls, quantum).None?
  {
    if c < |v.os.cores| && v.os.cores[c].Chosen? {
      HeldAlive(v, mem, ls, quantum, c, v.os.cores[c].p);
      FetchLocal(v.mem, v.mem, ls[v.os.cores[c].p], v.registers[v.os.cores[c].p].core.pc);
    }
  }

  lemma FinishStep(s: Os, c: nat, p: nat, o: Outcome, quantum: nat)
    requires Inv(s, quantum) && c < |s.cores| && s.cores[c] == Executed(p, o) && Next(s, Finish(c), quantum).Some?
    ensures var t := Next(s, Finish(c), quantum).value;
            && |t.cores| == |s.cores| && |t.sched.states| == |s.sched.states|
            && (KeepsGoing(o) || Ends(o))
            && (t.sched.states[p] == Cpu.Halted <==> Ends(o))
            && (forall q :: 0 <= q < |s.sched.states| && q != p ==> t.sched.states[q] == s.sched.states[q])
            && !t.cores[c].Executed? && !t.cores[c].Fetched?
            && (forall d :: 0 <= d < |s.cores| && d != c ==>
                  s.cores[d].Executed? || t.cores[d].Executed? || t.cores[d].Fetched? ==> t.cores[d] == s.cores[d])
  {
    assert PointOk(s, c);
  }

  lemma FinishProgress(v: Vm, w: Vm, mem: Mem, ls: seq<Layout>, p: nat, c: nat)
    requires VmShape(v, ls) && VmShape(w, ls) && p < |ls| && c < |v.os.cores| && v.os.cores[c].Executed?
    requires v.os.cores[c].p == p
    requires w.registers == v.registers && w.mem == v.mem && w.counts == v.counts && w.outputs == v.outputs
    requires Follows(v, mem, ls, p) && CoreOk(v, mem, ls, c)
    requires KeepsGoing(v.os.cores[c].o) || Ends(v.os.cores[c].o)
    requires w.os.sched.states[p] == Cpu.Halted <==> Ends(v.os.cores[c].o)
    ensures Follows(w, mem, ls, p) && Progressed(w, mem, ls, p)
  {
    hide Solo, SoloPrinted, SoloOutcome, Loader.InitialState;
    if KeepsGoing(v.os.cores[c].o) {
      assert Alive(Loader.InitialState(mem, ls[p]), ls[p], v.counts[p]);
    }
  }

  /** Marking a process Halted, or letting it go on, is right because its last instruction says so. */
  lemma FinishKeepsData(v: Vm, c: nat, mem: Mem, ls: seq<Layout>, quantum: nat)
    requires VmInv(v, mem, ls, quantum) && Next(v.os, Finish(c), quantum).Some?
    ensures VmInv(v.(os := Next(v.os, Finish(c), quantum).value), mem, ls, quantum)
  {
    var w := v.(os := Next(v.os, Finish(c), quantum).value);
    StepKeeps(v.os, Finish(c), quantum);
    var p, o := v.os.cores[c].p, v.os.cores[c].o;
    FinishStep(v.os, c, p, o, quantum);
    assert CoreOk(v, mem, ls, c);
    hide Solo, SoloPrinted, SoloOutcome, CodeWordRead, Next, Alive, Loader.InitialState;
    hide QueueOk, PointsOk, RunningHeld, SleepOk, QuantumOk, RunnerOk, ShutdownOk;
    forall q | 0 <= q < |ls|
      ensures Follows(w, mem, ls, q) && Progressed(w, mem, ls, q)
    {
      if q != p {
        QuietProgress(v, w, mem, ls, q, c);
      } else {
        FinishProgress(v, w, mem, ls, p, c);
      }
    }
    forall d | 0 <= d < |w.os.cores|
      ensures CoreOk(w, mem, ls, d)
    {
      CoreKept(v, w, mem, ls, d);
    }
  }

  lemma SoloNext(s: Machine.State, l: Layout, n: nat, raw: Word)
    requires CodeWordRead(Solo(s, l, n).mem, l, Solo(s, l, n).core.pc) == Some(raw)
    ensures var e := Machine.Execute(Decode(raw), Solo(s, l, n), l);
            && Solo(s, l, n + 1) == e.state && SoloOutcome(s, l, n) == e.outcome
            && SoloPrinted(s, l, n + 1) == SoloPrinted(s, l, n) + e.printed
  {
    hide Machine.Execute, CodeWordRead;
  }

  lemma ExecuteEffect(v: Vm, w: Vm, c: nat, p: nat, o: Outcome, ls: seq<Layout>, quantum: nat)
    requires VmShape(v, ls) && c < |v.os.cores| && p < |ls| && v.os.cores[c] == Fetched(p)
    requires VmNext(v, Execute(c, o), ls, quantum) == Some(w) && !w.os.crashed
    ensures var e := Machine.Execute(Decode(v.raws[c]), v.StateOf(p), ls[p]);
            && o == e.outcome && w.mem == e.state.mem && w.raws == v.raws
            && w.registers == v.registers[p := Registers(e.state.core, e.state.sp)]
            && w.counts == v.counts[p := v.counts[p] + 1]
            && w.outputs == v.outputs[p := v.outputs[p] + e.printed]
            && !v.os.crashed && w.os == Ran(v.os, c, p, o) && !o.Throw? && !o.External?
  {
    hide Machine.Execute, Decode;
  }

  /** The executing process takes the step its solo run takes, */
  lemma ExecuteFollows(v: Vm, w: Vm, c: nat, p: nat, o: Outcome, mem: Mem, ls: seq<Layout>, quantum: nat)
    requires VmInv(v, mem, ls, quantum) && Setup(mem, ls) && c < |v.os.cores| && p < |ls| && v.os.cores[c] == Fetched(p)
    requires VmNext(v, Execute(c, o), ls, quantum) == Some(w) && !w.os.crashed && VmShape(w, ls)
    ensures w.counts[p] == v.counts[p] + 1 && Follows(w, mem, ls, p)
    ensures o == SoloOutcome(Loader.InitialState(mem, ls[p]), ls[p], v.counts[p])
  {
    ExecuteEffect(v, w, c, p, o, ls, quantum);
    var s, n, raw := Loader.InitialState(mem, ls[p]), v.counts[p], v.raws[c];
    assert CoreOk(v, mem, ls, c) && Follows(v, mem, ls, p);
    hide Solo, SoloPrinted, SoloOutcome, CodeWordRead, Alive, Loader.InitialState, Machine.Execute, Decode, Inv, Tame;
    hide VmNext, Ran;
    SoloNext(s, ls[p], n, raw);
    ExecuteLocal(Decode(raw), v.StateOf(p), Solo(s, ls[p], n), ls[p]);
  }

  /** What p writes, q does not see. */
  lemma Elsewhere(m1: Mem, m2: Mem, ls: seq<Layout>, p: nat, q: nat)
    requires Regions(m1, ls) && p < |ls| && q < |ls| && p != q
    requires SameOutside(m1, m2, ls[p].base + ls[p].dataOffset, ls[p].StackEnd())
    ensures AgreeOn(m1, m2, ls[q].base, ls[q].base + ls[q].totalSize)
  {
    assert ls[p].Fits(|m1|) && ls[q].Fits(|m1|);
  }

  /** and the others are not affected. */
  lemma ExecuteOthers(v: Vm, w: Vm, c: nat, p: nat, o: Outcome, mem: Mem, ls: seq<Layout>, quantum: nat, q: nat)
    requires VmInv(v, mem, ls, quantum) && Setup(mem, ls) && c < |v.os.cores| && p < |ls| && v.os.cores[c] == Fetched(p)
    requires VmNext(v, Execute(c, o), ls, quantum) == Some(w) && !w.os.crashed && VmShape(w, ls)
    requires q < |ls| && q != p
    ensures |w.mem| == |v.mem| && Follows(w, mem, ls, q) && w.counts[q] == v.counts[q]
  {
    ExecuteEffect(v, w, c, p, o, ls, quantum);
    assert Follows(v, mem, ls, q);
    hide Solo, SoloPrinted, SoloOutcome, CodeWordRead, Alive, Loader.InitialState, Machine.Execute, Decode, Inv, Tame;
    hide VmNext, Ran;
    ExecuteFrame(Decode(v.raws[c]), v.StateOf(p), ls[p]);
    Elsewhere(v.mem, w.mem, ls, p, q);
  }

  lemma RanStep(s: Os, c: nat, p: nat, o: Outcome, quantum: nat)
    requires Inv(s, quantum) && c < |s.cores| && s.cores[c] == Fetched(p) && !o.Throw? && !o.External?
    ensures var t := Ran(s, c, p, o);
            && |t.cores| == |s.cores| && |t.sched.states| == |s.sched.states| && t.cores[c] == Executed(p, o)
            && (forall d :: 0 <= d < |s.cores| && d != c ==>
                  t.cores[d] == s.cores[d] && (Held(s.cores[d]).Some? ==> Held(s.cores[d]) != Some(p)))
            && (forall q :: 0 <= q < |s.sched.states| && q != p ==> t.sched.states[q] == s.sched.states[q])
            && (t.sched.states[p] == Cpu.Halted <==> o == Machine.Halt(true))
  {
    assert PointOk(s, c);
  }

  lemma InvOf(v: Vm, mem: Mem, ls: seq<Layout>, quantum: nat)
    requires VmInv(v, mem, ls, quantum)
    ensures Inv(v.os, quantum) && VmShape(v, ls)
  {
    hide Inv, VmShape, Follows, Progressed, CoreOk;
  }

  /** The instruction that was executed is the one that the process's new count accounts for. */
  lemma ExecuteOwn(v: Vm, w: Vm, c: nat, p: nat, o: Outcome, mem: Mem, ls: seq<Layout>, quantum: nat)
    requires VmShape(v, ls) && VmShape(w, ls)
    requires VmInv(v, mem, ls, quantum) && Setup(mem, ls) && c < |v.os.cores| && p < |ls| && v.os.cores[c] == Fetched(p)
    requires VmNext(v, Execute(c, o), ls, quantum) == Some(w) && !w.os.crashed && c < |w.os.cores|
    ensures Follows(w, mem, ls, p) && Progressed(w, mem, ls, p) && CoreOk(w, mem, ls, c)
  {
    hide Solo, SoloPrinted, SoloOutcome, CodeWordRead, Loader.InitialState, Machine.Execute, Decode, Tame, VmNext, Ran;
    hide Follows;
    hide Inv, Alive, Next, Setup, VmInv, Regions;
    InvOf(v, mem, ls, quantum);
    ExecuteEffect(v, w, c, p, o, ls, quantum);
    RanStep(v.os, c, p, o, quantum);
    ExecuteFollows(v, w, c, p, o, mem, ls, quantum);
    HeldAlive(v, mem, ls, quantum, c, p);
    assert JustExecuted(w.os, c, p);
  }

  lemma ExecuteKeepsData(v: Vm, w: Vm, c: nat, p: nat, o: Outcome, mem: Mem, ls: seq<Layout>, quantum: nat)
    requires VmInv(v, mem, ls, quantum) && Setup(mem, ls) && c < |v.os.cores| && p < |ls| && v.os.cores[c] == Fetched(p)
    requires VmNext(v, Execute(c, o), ls, quantum) == Some(w) && !w.os.crashed
    ensures VmInv(w, mem, ls, quantum)
  {
    StepKeeps(v.os, Execute(c, o), quantum);
    ExecuteEffect(v, w, c, p, o, ls, quantum);
    RanStep(v.os, c, p, o, quantum);
    ExecuteFrame(Decode(v.raws[c]), v.StateOf(p), ls[p]);
    assert VmShape(w, ls);
    hide Solo, SoloPrinted, SoloOutcome, CodeWordRead, Loader.InitialState, Machine.Execute, Decode, Tame, VmNext, Ran;
    hide Follows;
    hide Inv, Next, Alive, Progressed, CoreOk;
    ExecuteOwn(v, w, c, p, o, mem, ls, quantum);
    forall q | 0 <= q < |ls|
      ensures Follows(w, mem, ls, q) && Progressed(w, mem, ls, q)
    {
      if q != p {
        ExecuteOthers(v, w, c, p, o, mem, ls, quantum, q);
        ProgressKept(v, w, mem, ls, q, c);
      }
    }
    forall d | 0 <= d < |w.os.cores|
      ensures CoreOk(w, mem, ls, d)
    {
      if d != c {
        CoreKept(v, w, mem, ls, d);
      }
    }
  }

  lemma CrashKeepsData(v: Vm, w: Vm, mem: Mem, ls: seq<Layout>, quantum: nat)
    requires VmInv(v, mem, ls, quantum) && w == v.(os := v.os.(crashed := true))
    ensures VmInv(w, mem, ls, quantum)
  {
    hide Solo, SoloPrinted, SoloOutcome, CodeWordRead, Loader.InitialState;
    AllSame(v.os, w.os, quantum);
    forall p | 0 <= p < |ls|
      ensures Follows(w, mem, ls, p) && Progressed(w, mem, ls, p)
    {
      QuietProgress(v, w, mem, ls, p, |v.os.cores|);
    }
    forall c | 0 <= c < |w.os.cores|
      ensures CoreOk(w, mem, ls, c)
    {
      CoreKept(v, w, mem, ls, c);
    }
  }

  /** Every step of the machine keeps the invariant. */
  lemma VmStepKeeps(v: Vm, a: Action, mem: Mem, ls: seq<Layout>, quantum: nat)
    requires VmInv(v, mem, ls, quantum) && Setup(mem, ls) && VmNext(v, a, ls, quantum).Some?
    ensures VmInv(VmNext(v, a, ls, quantum).value, mem, ls, quantum)
  {
    var w := VmNext(v, a, ls, quantum).value;
    hide Solo, SoloPrinted, SoloOutcome, CodeWordRead, Loader.InitialState, Machine.Execute, Decode, Tame;
    hide Follows, Progressed, CoreOk;
    if a.Execute? {
      assert v.os.cores[a.c].Fetched?;
      if w.os.crashed {
        CrashKeepsData(v, w, mem, ls, quantum);
      } else {
        ExecuteKeepsData(v, w, a.c, v.os.cores[a.c].p, a.o, mem, ls, quantum);
      }
    } else if a.Finish? {
      FinishKeepsData(v, a.c, mem, ls, quantum);
    } else if a.Fetch? && w.os.cores[a.c].Fetched? {
      FetchKeepsData(v, a.c, v.os.cores[a.c].p, w.raws[a.c], mem, ls, quantum);
    } else {
      QuietKeeps(v, a, mem, ls, quantum);
    }
  }
}
