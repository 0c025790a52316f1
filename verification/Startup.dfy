/** main (main.cpp) up to run(): the programs are assembled and loaded one after the other. What the objects hold then
    is what the machine of System starts from. */
module Startup {
  import opened Words
  import opened Memory
  import opened Segments
  import opened Syntax
  import opened Lexing
  import opened Cpu
  import opened Loader
  import opened Scheduling
  import opened VirtualOs
  import opened Assembly
  import EndToEnd
  import Runs
  import Simulation
  import System

  ghost predicate AllAssemble(sources: seq<string>) {
    forall i :: 0 <= i < |sources| ==> AssembleSource(sources[i]).Some?
  }

  function Assembled(sources: seq<string>): (ps: seq<Program>)
    requires AllAssemble(sources)
    ensures |ps| == |sources| && forall i :: 0 <= i < |ps| ==> ps[i] == AssembleSource(sources[i]).value
  {
    seq(|sources|, i requires 0 <= i < |sources| => AssembleSource(sources[i]).value)
  }

  lemma {:induction false} LoadAllLength(m: Physical, ps: seq<Program>)
    ensures |LoadAll(m, ps).1| <= |ps|
    decreases |ps|
  {
    hide AfterLoad;
    if ps == [] {
    } else {
      LoadAllLength(m, ps[..|ps| - 1]);
    }
  }

  /** A load that fails is the last. */
  lemma {:induction false} LoadAllPrefix(m: Physical, ps: seq<Program>, k: nat)
    requires k <= |ps| && |LoadAll(m, ps).1| == |ps|
    ensures |LoadAll(m, ps[..k]).1| == k
    decreases |ps|
  {
    if k == |ps| {
      assert ps[..k] == ps;
    } else {
      assert ps[..|ps| - 1][..k] == ps[..k];
      LoadAllLength(m, ps[..|ps| - 1]);
      LoadAllPrefix(m, ps[..|ps| - 1], k);
    }
  }

  lemma LoadAllStep(m: Physical, ps: seq<Program>, p: Program)
    requires |LoadAll(m, ps).1| == |ps|
    ensures var (before, ls) := LoadAll(m, ps);
            var (after, l) := AfterLoad(before, p);
            LoadAll(m, ps + [p]) == if l.Some? then (after, ls + [l.value]) else (before, ls)
  {
    hide AfterLoad;
    assert (ps + [p])[..|ps|] == ps;
  }

  /** The programs of the first k sources are loaded, the next one fails. */
  lemma LoadFails(m: Physical, sources: seq<string>, ps: seq<Program>)
    requires |ps| < |sources| && (forall i :: 0 <= i < |ps| ==> AssembleSource(sources[i]) == Some(ps[i]))
    requires |LoadAll(m, ps).1| == |ps|
    requires AssembleSource(sources[|ps|]).Some? ==>
               AfterLoad(LoadAll(m, ps).0, AssembleSource(sources[|ps|]).value).1.None?
    ensures !(AllAssemble(sources) && |LoadAll(m, Assembled(sources)).1| == |sources|)
  {
    hide LoadAll, AfterLoad, AssembleSource;
    if AllAssemble(sources) && |LoadAll(m, Assembled(sources)).1| == |sources| {
      var k, p := |ps|, AssembleSource(sources[|ps|]).value;
      assert Assembled(sources)[..k + 1] == ps + [p];
      LoadAllStep(m, ps, p);
      LoadAllPrefix(m, Assembled(sources), k + 1);
    }
  }

  /** The process has not executed an instruction. */
  ghost predicate Unstarted(p: ProcessControlBlock, memory: PhysicalMemory, l: Layout)
    reads p.context, p.context.registers
  {
    && p.memory.physical == memory && p.memory.layout == l && !p.context.halted
    && p.context.registers.Value() == ZERO_CORE && p.context.registers.sp == Wrap(l.StackAddress() + STACK_SIZE - 4)
  }

  lemma UnstartedState(p: ProcessControlBlock, memory: PhysicalMemory, l: Layout)
    ensures Unstarted(p, memory, l) <==>
              && p.memory.physical == memory && p.memory.layout == l && !p.context.halted
              && p.Machine() == InitialState(p.memory.Mem(), l)
  {
  }

  lemma LoadNone(m: Physical)
    ensures LoadAll(m, []) == (m, [])
  {
  }

  /** The loop of main. It ends early when a program does not assemble or does not fit. */
  method LoadSources(os: VirtualOS, sources: seq<string>) returns (ok: bool)
    requires os.Valid() && os.processTable.processes == [] && os.scheduler.Value() == Runs.Loads(0, os.quantum)
    requires forall i :: 0 <= i < |sources| ==> DataFits(sources[i])
    modifies os.physicalMemory, os.physicalMemory.memory, os.processTable, os.scheduler`readyQueue, os.assembler
    ensures os.Valid()
    ensures ok <==> AllAssemble(sources)
                    && |LoadAll(old(os.programLoader.Value()), Assembled(sources)).1| == |sources|
    ensures ok ==>
              var (m, ls) := LoadAll(old(os.programLoader.Value()), Assembled(sources));
              && os.programLoader.Value() == m && os.scheduler.Value() == Runs.Loads(|sources|, os.quantum)
              && |os.processTable.processes| == |sources|
              && forall i :: 0 <= i < |sources| ==> Unstarted(os.processTable.processes[i], os.physicalMemory, ls[i])
  {
    hide LoadAll, AfterLoad, AssembleSource, DataFits, InitialState, PreemptiveScheduler.Value;
    ghost var before, ps: seq<Program> := os.programLoader.Value(), [];
    LoadNone(before);
    for k := 0 to |sources|
      invariant os.Valid() && |ps| == k && forall i :: 0 <= i < k ==> AssembleSource(sources[i]) == Some(ps[i])
      invariant |LoadAll(before, ps).1| == k && os.programLoader.Value() == LoadAll(before, ps).0
      invariant os.scheduler.Value() == Runs.Loads(k, os.quantum) && |os.processTable.processes| == k
      invariant forall i :: 0 <= i < k ==>
                  Unstarted(os.processTable.processes[i], os.physicalMemory, LoadAll(before, ps).1[i])
    {
      var id := os.LoadProgramFromSource(sources[k]);
      if id.None? {
        LoadFails(before, sources, ps);
        return false;
      }
      ghost var p := AssembleSource(sources[k]).value;
      LoadAllStep(before, ps, p);
      UnstartedState(os.processTable.processes[k], os.physicalMemory, LoadAll(before, ps + [p]).1[k]);
      ps := ps + [p];
    }
    ok := true;
    assert ps == Assembled(sources);
  }

  /** The texts of some sources. */
  ghost predicate Texts(sources: seq<string>, sss: seq<seq<Statement>>) {
    |sources| == |sss| && forall i :: 0 <= i < |sources| ==>
      Statements(Stream(sources[i], 0), NoSection) == Some(sss[i])
  }

  lemma TextFits(source: string, ss: seq<Statement>)
    requires Statements(Stream(source, 0), NoSection) == Some(ss) && EndToEnd.Sound(ss)
    ensures DataFits(source) && AssembleSource(source) == Assemble(ss)
  {
    hide Statements, Stream, Assemble, Simulation.FaithfulProgram, EndToEnd.Safe;
    AssembleExactly(ss);
  }

  lemma StartIs(mem: Mem, ls: seq<Layout>, coreCount: nat, quantum: nat)
    ensures var v := System.Start(mem, ls, coreCount, quantum);
            && v.os.sched == Runs.Loads(|ls|, quantum) && v.mem == mem && |v.registers| == |v.os.halted| == |ls|
            && forall p :: 0 <= p < |ls| ==> v.StateOf(p) == InitialState(mem, ls[p]) && !v.os.halted[p]
  {
    hide Runs.Loads;
  }

  /** A new VirtualOS that has loaded the texts of sound programs holds what the machine starts from: the scheduler, the
      memory, and every process's registers, layout and flag. */
  method Prepare(sources: seq<string>, ghost sss: seq<seq<Statement>>, size: nat, quantum: nat, ghost coreCount: nat)
    returns (os: VirtualOS, ok: bool)
    requires EndToEnd.AllSound(sss, size) && Texts(sources, sss)
    ensures ok && os.Valid() && |os.processTable.processes| == |sss| == |EndToEnd.Loaded(sss, size).1|
    ensures var (mem, ls) := EndToEnd.Loaded(sss, size);
            var v := System.Start(mem, ls, coreCount, quantum);
            && os.scheduler.Value() == v.os.sched && os.programLoader.Value().mem == v.mem
            && forall i :: 0 <= i < |sss| ==>
                 var p := os.processTable.processes[i];
                 p.memory.layout == ls[i] && p.Machine() == v.StateOf(i) && p.context.halted == v.os.halted[i]
  {
    hide Statements, Stream, Assemble, AssembleSource, DataFits, Simulation.FaithfulProgram, EndToEnd.Safe, LoadAll;
    hide Fresh;
    hide InitialState, PreemptiveScheduler.Value, System.Start;
    forall i | 0 <= i < |sources|
      ensures DataFits(sources[i]) && AssembleSource(sources[i]) == Assemble(sss[i]) && Assemble(sss[i]).Some?
    {
      TextFits(sources[i], sss[i]);
    }
    assert Assembled(sources) == EndToEnd.Programs(sss);
    EndToEnd.LoadedPlaced(sss, size);
    os := new VirtualOS(quantum, size);
    ok := LoadSources(os, sources);
    ghost var (mem, ls) := EndToEnd.Loaded(sss, size);
    StartIs(mem, ls, coreCount, quantum);
    forall i | 0 <= i < |sss|
      ensures os.processTable.processes[i].Machine() == InitialState(mem, ls[i])
    {
      UnstartedState(os.processTable.processes[i], os.physicalMemory, ls[i]);
    }
  }
}
