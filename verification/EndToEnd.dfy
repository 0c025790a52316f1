/** From source programs to the multi-core machine: loaded side by side and run on any number of cores, with any quantum
    and interleaving, each assembled program does what its source says. */
module EndToEnd {
  import opened Words
  import opened Memory
  import opened Segments
  import opened Syntax
  import opened Assembly
  import opened Machine
  import opened StackMachine
  import opened Loader
  import opened Protocol
  import opened Ownership
  import opened System
  import opened Simulation
  import opened Independence
  import opened Termination
  import Progress
  import Shutdown

  /** The process a source program starts as. */
  function Initially(ss: seq<Statement>): Process {
    Process(ZERO_CORE, [0], Data(ss, |ss|))
  }

  ghost predicate AllGo(ss: seq<Statement>, s: Process, n: nat) {
    forall j :: 0 <= j < n ==> KeepsGoing(SourceOutcome(ss, s, j))
  }

  predicate SafeAt(ss: seq<Statement>, s: Process, n: nat) {
    SourceRun(ss, s, n).core.pc < Count(ss, |ss|)
    && (KeepsGoing(SourceOutcome(ss, s, n)) || Ends(SourceOutcome(ss, s, n)))
  }

  /** As long as it goes on, the program executes its own instructions, none of which throws or asks for outside
      input. */
  ghost predicate Safe(ss: seq<Statement>, s: Process) {
    forall n: nat :: AllGo(ss, s, n) ==> SafeAt(ss, s, n)
  }

  /** The premises on a source program: it can be assembled faithfully, fits a region and is safe. */
  ghost predicate Sound(ss: seq<Statement>) {
    && Assemble(ss).Some? && Assemble(ss).value.FitsRegion()
    && FaithfulProgram(ss) && Safe(ss, Initially(ss))
  }

  function Programs(sss: seq<seq<Statement>>): (ps: seq<Program>)
    requires forall p :: 0 <= p < |sss| ==> Assemble(sss[p]).Some?
    ensures |ps| == |sss| && forall p :: 0 <= p < |sss| ==> ps[p] == Assemble(sss[p]).value
  {
    seq(|sss|, p requires 0 <= p < |sss| => Assemble(sss[p]).value)
  }

  /** Physical memory and layouts after loading the assembled programs one after the other. */
  function Loaded(sss: seq<seq<Statement>>, size: nat): (Mem, seq<Layout>)
    requires forall p :: 0 <= p < |sss| ==> Assemble(sss[p]).Some?
  {
    var r := LoadAll(Fresh(size), Programs(sss));
    (r.0.mem, r.1)
  }

  ghost predicate AllSound(sss: seq<seq<Statement>>, size: nat) {
    |sss| * REGION_SIZE <= size < WORD_LIMIT && forall p :: 0 <= p < |sss| ==> Sound(sss[p])
  }

  // ---- One process alone --------------------------------------------------------------------------------

  /** A freshly loaded process is the source's initial process. */
  ghost predicate Started(ss: seq<Statement>, s: State, l: Layout) {
    Hosts(ss, s, l) && l.Fits(|s.mem|) && Abstract(s, l) == Initially(ss)
  }

  /** While the loaded process is alive the source goes on and stays inside itself. */
  lemma {:induction false} AliveMeansGoes(ss: seq<Statement>, s: State, l: Layout, n: nat)
    requires Sound(ss) && Started(ss, s, l) && Alive(s, l, n)
    ensures AllGo(ss, Initially(ss), n) && Inside(ss, Initially(ss), n + 1)
    decreases n
  {
    hide Assemble, FaithfulProgram, Hosts, Abstract, SourceRun, SourceOutcome, SoloOutcome, Count, Initially;
    hide Layout.Fits;
    hide KeepsGoing, Ends;
    if n == 0 {
    } else {
      AliveMeansGoes(ss, s, l, n - 1);
      HostsShape(ss, s, l);
      OutcomesAgree(ss, s, l, n - 1);
    }
    assert SafeAt(ss, Initially(ss), n);
  }

  lemma CodeInside(ss: seq<Statement>, s: State, l: Layout, pc: Word)
    requires Hosts(ss, s, l) && pc < Count(ss, |ss|)
    ensures l.FetchInside(pc)
  {
    AssembleExactly(ss);
    HostsShape(ss, s, l);
    LoadedWord(s.mem, l, Assemble(ss).value, pc);
    hide Assemble, DataOf, CodeWordRead;
  }

  lemma InsideFetch(ss: seq<Statement>, s: State, l: Layout, n: nat)
    requires Sound(ss) && Started(ss, s, l) && Inside(ss, Initially(ss), n + 1)
    ensures l.FetchInside(Solo(s, l, n).core.pc)
  {
    hide Assemble, FaithfulProgram, Safe, Abstract, SourceRun, Solo, Count, Initially, Alike;
    HostsShape(ss, s, l);
    Simulates(ss, s, l, n);
    AlikePc(ss, s, l, n);
    CodeInside(ss, s, l, Solo(s, l, n).core.pc);
  }

  lemma StartedTame(ss: seq<Statement>, s: State, l: Layout)
    requires Sound(ss) && Started(ss, s, l)
    ensures Tame(s, l)
  {
    hide Assemble, Sound, Abstract, SourceRun, Solo, Count, Initially, Alive, Alike, Started;
    forall n: nat | Alive(s, l, n)
      ensures l.FetchInside(Solo(s, l, n).core.pc)
    {
      AliveMeansGoes(ss, s, l, n);
      InsideFetch(ss, s, l, n);
    }
  }

  // ---- All of them together -----------------------------------------------------------------------------

  /** Every loaded process starts as its source does, in a region of its own. */
  lemma LoadedPlaced(sss: seq<seq<Statement>>, size: nat)
    requires AllSound(sss, size)
    ensures AllPlaced(size, Programs(sss), Loaded(sss, size).0, Loaded(sss, size).1)
  {
    hide FaithfulProgram, Safe, Assemble, AllPlaced, LoadAll;
    forall p | 0 <= p < |sss|
      ensures Programs(sss)[p].FitsRegion()
    {
      assert Sound(sss[p]);
    }
    LoadAllHolds(size, Programs(sss));
  }

  lemma HostsFits(mem: Mem, l: Layout, p: Program)
    requires Loader.Holds(mem, l, p)
    ensures l.Fits(|mem|) && l.totalSize == REGION_SIZE
  {
    hide DataOf;
  }

  lemma ImageOf(ss: seq<Statement>)
    requires Assemble(ss).Some?
    ensures Assemble(ss).value.data == Data(ss, |ss|)
  {
    AssembleExactly(ss);
  }

  /** Where a program's image is held, a data read at the offset of a WORD symbol gives its declared value. */
  lemma SymbolHeld(ss: seq<Statement>, mem: Mem, l: Layout, j: nat)
    requires Assemble(ss).Some? && Loader.Holds(mem, l, Assemble(ss).value)
    requires j < |ss| && ss[j].Declaration? && ss[j].dataType.WordType?
    ensures Offset(ss, j) < WORD_LIMIT && DataWordRead(mem, l, Offset(ss, j)) == Some(Wrap(ss[j].value))
  {
    hide Assemble, Data, Offset, DataWordRead, WordRead;
    ImageOf(ss);
    HostsFits(mem, l, Assemble(ss).value);
    assert l.dataSize == Offset(ss, |ss|);
    WordSymbol(ss, j);
    DataReadAgrees(mem, l, Offset(ss, j));
  }

  /** So it does right after a load. */
  lemma SymbolLoaded(ss: seq<Statement>, m: Physical, j: nat)
    requires Assemble(ss).Some? && Assemble(ss).value.FitsRegion() && m.next + REGION_SIZE <= |m.mem| < WORD_LIMIT
    requires j < |ss| && ss[j].Declaration? && ss[j].dataType.WordType?
    ensures var (n, l) := AfterLoad(m, Assemble(ss).value);
            && l.Some? && Offset(ss, j) < WORD_LIMIT
            && DataWordRead(n.mem, l.value, Offset(ss, j)) == Some(Wrap(ss[j].value))
  {
    hide Assemble, AfterLoad, Loader.Holds, Offset, DataWordRead;
    LoadHolds(m, Assemble(ss).value);
    var (n, l) := AfterLoad(m, Assemble(ss).value);
    SymbolHeld(ss, n.mem, l.value, j);
  }

  lemma LoadedStarted(sss: seq<seq<Statement>>, size: nat, p: nat)
    requires AllSound(sss, size) && p < |sss|
    ensures var (mem, ls) := Loaded(sss, size);
            |ls| == |sss| && Started(sss[p], InitialState(mem, ls[p]), ls[p])
  {
    hide FaithfulProgram, Safe, Assemble, LoadAll, Abstract, Data;
    LoadedPlaced(sss, size);
    assert Sound(sss[p]);
    var (mem, ls) := Loaded(sss, size);
    HostsFits(mem, ls[p], Programs(sss)[p]);
    InitialProcess(mem, ls[p], Programs(sss)[p]);
    ImageOf(sss[p]);
  }

  lemma BasesApart(sss: seq<seq<Statement>>, size: nat, p: nat, q: nat)
    requires AllSound(sss, size) && p < q < |sss|
    ensures var (mem, ls) := Loaded(sss, size);
            |ls| == |sss| && ls[p].Fits(|mem|) && ls[q].Fits(|mem|) && ls[p].base + ls[p].totalSize <= ls[q].base
  {
    hide FaithfulProgram, Safe, Assemble, LoadAll, DataOf, Data;
    LoadedPlaced(sss, size);
    RegionsDisjoint(size, Programs(sss), p, q);
    assert q * REGION_SIZE + REGION_SIZE <= |sss| * REGION_SIZE;
  }

  /** The premises of schedule independence hold of sound sources. */
  lemma LoadedSetup(sss: seq<seq<Statement>>, size: nat)
    requires AllSound(sss, size)
    ensures Setup(Loaded(sss, size).0, Loaded(sss, size).1)
  {
    hide FaithfulProgram, Safe, Assemble, Tame, Started, Loaded, InitialState, Layout.Fits;
    var (mem, ls) := Loaded(sss, size);
    LoadedPlaced(sss, size);
    forall p | 0 <= p < |ls|
      ensures ls[p].Fits(|mem|) && Tame(InitialState(mem, ls[p]), ls[p])
    {
      LoadedStarted(sss, size, p);
      assert Loader.Holds(mem, ls[p], Programs(sss)[p]);
      HostsFits(mem, ls[p], Programs(sss)[p]);
      StartedTame(sss[p], InitialState(mem, ls[p]), ls[p]);
    }
    forall p, q | 0 <= p < q < |ls|
      ensures ls[p].base + ls[p].totalSize <= ls[q].base
    {
      BasesApart(sss, size, p, q);
    }
  }

  // ---- Main results -------------------------------------------------------------------------------------

  /** Process p of the machine is its source after as many steps, and has printed the same. */
  ghost predicate Mirrors(ss: seq<Statement>, v: Vm, l: Layout, p: nat) {
    && p < |v.registers| && p < |v.counts| && p < |v.outputs|
    && l.Fits(|v.mem|) && l.SpOk(v.registers[p].sp)
    && Abstract(v.StateOf(p), l) == SourceRun(ss, Initially(ss), v.counts[p])
    && v.outputs[p] == SourcePrinted(ss, Initially(ss), v.counts[p])
    && Inside(ss, Initially(ss), v.counts[p])
  }

  lemma AbstractAgrees(a: State, b: State, l: Layout)
    requires SameProcess(a, b, l) && l.Fits(|a.mem|) && l.SpOk(a.sp)
    ensures Abstract(a, l) == Abstract(b, l)
  {
    DataOfAgree(a.mem, b.mem, l);
    Aligned(l, a.sp);
    StackWordsAgree(a.mem, b.mem, a.sp, l.StackEnd());
  }

  lemma InsideCount(ss: seq<Statement>, s: State, l: Layout, k: nat)
    requires Sound(ss) && Started(ss, s, l) && (Alive(s, l, k) || (k >= 1 && Alive(s, l, k - 1)))
    ensures Inside(ss, Initially(ss), k)
  {
    hide Sound, Started, Alive, SourceRun, Count, Initially;
    if Alive(s, l, k) {
      AliveMeansGoes(ss, s, l, k);
    } else {
      AliveMeansGoes(ss, s, l, k - 1);
    }
  }

  lemma MirrorsSolo(ss: seq<Statement>, s: State, l: Layout, k: nat)
    requires Sound(ss) && Started(ss, s, l) && (Alive(s, l, k) || (k >= 1 && Alive(s, l, k - 1)))
    ensures l.Fits(|s.mem|) && |Solo(s, l, k).mem| == |s.mem| && l.SpOk(Solo(s, l, k).sp)
    ensures Abstract(Solo(s, l, k), l) == SourceRun(ss, Initially(ss), k)
    ensures SoloPrinted(s, l, k) == SourcePrinted(ss, Initially(ss), k) && Inside(ss, Initially(ss), k)
  {
    hide Alive, SourceRun, Count, Initially, Abstract, Solo, SoloPrinted, SourcePrinted, Assemble, Safe;
    hide FaithfulProgram, Inside;
    InsideCount(ss, s, l, k);
    HostsShape(ss, s, l);
    Simulates(ss, s, l, k);
  }

  lemma MirrorsOf(ss: seq<Statement>, s: State, l: Layout, v: Vm, p: nat)
    requires Sound(ss) && Started(ss, s, l) && |v.mem| == |s.mem|
    requires p < |v.registers| && p < |v.counts| && p < |v.outputs|
    requires Alive(s, l, v.counts[p]) || (v.counts[p] >= 1 && Alive(s, l, v.counts[p] - 1))
    requires SameProcess(v.StateOf(p), Solo(s, l, v.counts[p]), l)
    requires v.outputs[p] == SoloPrinted(s, l, v.counts[p])
    ensures Mirrors(ss, v, l, p)
  {
    hide Sound, Started, Alive, SourceRun, Initially, Abstract, Solo, SoloPrinted, SourcePrinted, Inside;
    MirrorsSolo(ss, s, l, v.counts[p]);
    AbstractAgrees(v.StateOf(p), Solo(s, l, v.counts[p]), l);
  }

  /** The machine after a list of actions of run(), the assembled programs having been loaded into fresh memory. */
  ghost function MachineAfter(sss: seq<seq<Statement>>, size: nat, coreCount: nat, quantum: nat,
                              acts: seq<Action>): Option<Vm>
    requires AllSound(sss, size)
  {
    LoadedSetup(sss, size);
    Reach(Loaded(sss, size).0, Loaded(sss, size).1, coreCount, quantum, acts)
  }

  lemma InitialMemory(mem: Mem, l: Layout)
    ensures InitialState(mem, l).mem == mem
  {
  }

  /** At every moment of every run of the machine, each process is where its source is after as many steps - same
      registers, stack and data - and has printed what the source has printed. */
  lemma MachineRunsSource(sss: seq<seq<Statement>>, size: nat, coreCount: nat, quantum: nat, acts: seq<Action>, p: nat)
    requires AllSound(sss, size) && p < |sss| && MachineAfter(sss, size, coreCount, quantum, acts).Some?
    ensures |Loaded(sss, size).1| == |sss|
    ensures Mirrors(sss[p], MachineAfter(sss, size, coreCount, quantum, acts).value, Loaded(sss, size).1[p], p)
  {
    hide FaithfulProgram, Safe, Assemble, Loaded, Reach, VmInv, Setup, InitialState, Started, Solo, SoloPrinted, Alive;
    hide Mirrors;
    var (mem, ls) := Loaded(sss, size);
    LoadedSetup(sss, size);
    LoadedStarted(sss, size, p);
    ScheduleIndependence(mem, ls, coreCount, quantum, acts, p);
    var v := Reach(mem, ls, coreCount, quantum, acts).value;
    ReachInv(mem, ls, coreCount, quantum, acts);
    CountAlive(v, mem, ls, quantum, p);
    assert InitialState(mem, ls[p]).mem == mem by { InitialMemory(mem, ls[p]); }
    MirrorsOf(sss[p], InitialState(mem, ls[p]), ls[p], v, p);
  }

  lemma EndsAsSource(ss: seq<Statement>, s: State, l: Layout, n: nat)
    requires Sound(ss) && Started(ss, s, l) && EndsAfter(s, l, n)
    ensures SourceEndsAfter(ss, Initially(ss), n)
  {
    hide FaithfulProgram, Safe, Assemble, Hosts, Alive, Abstract, SourceRun, SourceOutcome, SoloOutcome, Count;
    hide Initially;
    hide KeepsGoing, Ends;
    AliveMeansGoes(ss, s, l, n - 1);
    HostsShape(ss, s, l);
    OutcomesAgree(ss, s, l, n - 1);
    forall j | 0 <= j < n - 1
      ensures GoesOnAt(ss, Initially(ss), j)
    {
    }
  }

  /** When the machine has seen every process halt, each source has ended, after exactly the instructions executed. */
  lemma CompleteMachineRun(sss: seq<seq<Statement>>, size: nat, coreCount: nat, quantum: nat, acts: seq<Action>, p: nat)
    requires AllSound(sss, size) && p < |sss| && MachineAfter(sss, size, coreCount, quantum, acts).Some?
    requires Stopping(MachineAfter(sss, size, coreCount, quantum, acts).value.os.runner)
    ensures var v := MachineAfter(sss, size, coreCount, quantum, acts).value;
            p < |v.counts| && SourceEndsAfter(sss[p], Initially(sss[p]), v.counts[p])
  {
    hide FaithfulProgram, Safe, Assemble, Loaded, Reach, VmInv, Setup, InitialState, Started, Solo, SoloPrinted;
    hide EndsAfter;
    hide SourceEndsAfter, Initially;
    var (mem, ls) := Loaded(sss, size);
    LoadedSetup(sss, size);
    LoadedStarted(sss, size, p);
    CompleteRun(mem, ls, coreCount, quantum, acts, p);
    var v := Reach(mem, ls, coreCount, quantum, acts).value;
    EndsAsSource(sss[p], InitialState(mem, ls[p]), ls[p], v.counts[p]);
  }

  lemma SoundFaultless(ss: seq<Statement>, s: State, l: Layout, n: nat)
    requires Sound(ss) && Started(ss, s, l)
    ensures !Faults(s, l, n)
  {
    hide FaithfulProgram, Assemble, Hosts, Alive, Abstract, SourceRun, SourceOutcome, SoloOutcome, Count, Initially;
    if Alive(s, l, n) {
      AliveMeansGoes(ss, s, l, n);
      HostsShape(ss, s, l);
      OutcomesAgree(ss, s, l, n);
      assert SafeAt(ss, Initially(ss), n);
    }
  }

  lemma LoadedFaultless(sss: seq<seq<Statement>>, size: nat)
    requires AllSound(sss, size)
    ensures Faultless(Loaded(sss, size).0, Loaded(sss, size).1)
  {
    hide FaithfulProgram, Safe, Assemble, Loaded, InitialState, Started, Faults;
    var (mem, ls) := Loaded(sss, size);
    LoadedPlaced(sss, size);
    forall p, n | 0 <= p < |ls| && 0 <= n
      ensures !Faults(InitialState(mem, ls[p]), ls[p], n)
    {
      LoadedStarted(sss, size, p);
      SoundFaultless(sss[p], InitialState(mem, ls[p]), ls[p], n);
    }
  }

  /** The machine never crashes. */
  lemma MachineNeverCrashes(sss: seq<seq<Statement>>, size: nat, coreCount: nat, quantum: nat, acts: seq<Action>)
    requires AllSound(sss, size) && MachineAfter(sss, size, coreCount, quantum, acts).Some?
    ensures !MachineAfter(sss, size, coreCount, quantum, acts).value.os.crashed
  {
    hide FaithfulProgram, Safe, Assemble, Loaded, Reach, Setup, Faultless;
    LoadedSetup(sss, size);
    LoadedFaultless(sss, size);
    ReachNoCrash(Loaded(sss, size).0, Loaded(sss, size).1, coreCount, quantum, acts);
  }

  // ---- Shutdown -----------------------------------------------------------------------------------------

  lemma SourceEndsSolo(ss: seq<Statement>, s: State, l: Layout, n: nat)
    requires Sound(ss) && Started(ss, s, l) && SourceEndsAfter(ss, Initially(ss), n)
    ensures EndsAfter(s, l, n)
  {
    hide FaithfulProgram, Safe, Assemble, Hosts, Abstract, SourceRun, SourceOutcome, SoloOutcome, Count, Initially;
    hide KeepsGoing, Ends;
    HostsShape(ss, s, l);
    forall j | 0 <= j < n
      ensures SourceRun(ss, Initially(ss), j).core.pc < Count(ss, |ss|)
    {
      assert j < n - 1 ==> GoesOnAt(ss, Initially(ss), j);
    }
    forall j | 0 <= j < n
      ensures SoloOutcome(s, l, j) == SourceOutcome(ss, Initially(ss), j)
    {
      OutcomesAgree(ss, s, l, j);
    }
    forall j | 0 <= j < n - 1
      ensures KeepsGoing(SoloOutcome(s, l, j))
    {
      assert GoesOnAt(ss, Initially(ss), j);
    }
  }

  /** Every source ends, source p after ends[p] steps. */
  ghost predicate SourcesEnd(sss: seq<seq<Statement>>, ends: seq<nat>) {
    |ends| == |sss| && forall p :: 0 <= p < |sss| ==> SourceEndsAfter(sss[p], Initially(sss[p]), ends[p])
  }

  lemma SourcesEndAlone(sss: seq<seq<Statement>>, size: nat, ends: seq<nat>)
    requires AllSound(sss, size) && SourcesEnd(sss, ends)
    ensures AllEnd(Loaded(sss, size).0, Loaded(sss, size).1, ends)
  {
    hide FaithfulProgram, Safe, Assemble, Loaded, InitialState, Started, SourceEndsAfter, EndsAfter, Initially;
    var (mem, ls) := Loaded(sss, size);
    LoadedPlaced(sss, size);
    forall p | 0 <= p < |ls|
      ensures EndsAfter(InitialState(mem, ls[p]), ls[p], ends[p])
    {
      LoadedStarted(sss, size, p);
      SourceEndsSolo(sss[p], InitialState(mem, ls[p]), ls[p], ends[p]);
    }
  }

  /** When every source ends, every run of the machine that is longer than the bound, and five steps more for each
      spurious wake-up in it, has come to shutdown. */
  lemma SourcesShutDown(sss: seq<seq<Statement>>, size: nat, coreCount: nat, quantum: nat, acts: seq<Action>,
                        ends: seq<nat>)
    requires AllSound(sss, size) && SourcesEnd(sss, ends) && MachineAfter(sss, size, coreCount, quantum, acts).Some?
    requires |acts| > Bound(ends, coreCount) + 5 * Progress.SpuriousCount(acts)
    ensures Stopping(MachineAfter(sss, size, coreCount, quantum, acts).value.os.runner)
  {
    hide FaithfulProgram, Safe, Assemble, SourcesEnd, Loaded, AllEnd, Setup, Reach, Bound, Stopping;
    LoadedSetup(sss, size);
    SourcesEndAlone(sss, size, ends);
    ShutdownInevitable(Loaded(sss, size).0, Loaded(sss, size).1, coreCount, quantum, acts, ends);
  }

  /** Nothing but a spurious wake-up can happen after these actions. */
  ghost predicate FinalAfter(sss: seq<seq<Statement>>, size: nat, coreCount: nat, quantum: nat, acts: seq<Action>)
    requires AllSound(sss, size)
  {
    && MachineAfter(sss, size, coreCount, quantum, acts).Some?
    && Final(MachineAfter(sss, size, coreCount, quantum, acts).value, Loaded(sss, size).1, quantum)
  }

  /** Whether the sources end or not, a run of a machine with a core stops only in shutdown: run() has returned, or
      waits in join() for a core whose wake-up was lost; and each source has ended. */
  lemma FinalRun(sss: seq<seq<Statement>>, size: nat, coreCount: nat, quantum: nat, acts: seq<Action>)
    requires AllSound(sss, size) && coreCount >= 1 && FinalAfter(sss, size, coreCount, quantum, acts)
    ensures var v := MachineAfter(sss, size, coreCount, quantum, acts).value;
            && Stopping(v.os.runner) && (v.os.runner == Done || Shutdown.Hung(v.os, quantum))
            && |v.counts| == |sss|
            && forall p :: 0 <= p < |sss| ==> SourceEndsAfter(sss[p], Initially(sss[p]), v.counts[p])
  {
    hide FaithfulProgram, Safe, Assemble, Loaded, Reach, Setup, Faultless, Final, Stopping, Shutdown.Hung;
    hide SourceEndsAfter, Initially;
    LoadedSetup(sss, size);
    LoadedFaultless(sss, size);
    var (mem, ls) := Loaded(sss, size);
    FinalMeansStopped(mem, ls, coreCount, quantum, acts);
    var v := MachineAfter(sss, size, coreCount, quantum, acts).value;
    ReachInv(mem, ls, coreCount, quantum, acts);
    LoadedPlaced(sss, size);
    forall p | 0 <= p < |sss|
      ensures p < |v.counts| && SourceEndsAfter(sss[p], Initially(sss[p]), v.counts[p])
    {
      CompleteMachineRun(sss, size, coreCount, quantum, acts, p);
    }
  }

  /** Even when every source ends, some run without any spurious wake-up never returns from run(). */
  lemma SourcesCanHang(sss: seq<seq<Statement>>, size: nat, coreCount: nat, quantum: nat, ends: seq<nat>)
    returns (acts: seq<Action>)
    requires AllSound(sss, size) && SourcesEnd(sss, ends) && coreCount >= 1
    ensures Progress.SpuriousCount(acts) == 0 && MachineAfter(sss, size, coreCount, quantum, acts).Some?
    ensures Shutdown.Hung(MachineAfter(sss, size, coreCount, quantum, acts).value.os, quantum)
  {
    hide FaithfulProgram, Safe, Assemble, SourcesEnd, Loaded, AllEnd, Setup, Reach, Shutdown.Hung;
    LoadedSetup(sss, size);
    SourcesEndAlone(sss, size, ends);
    acts := MachineCanHang(Loaded(sss, size).0, Loaded(sss, size).1, coreCount, quantum, ends);
  }
}
