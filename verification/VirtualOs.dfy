/** The single-threaded part of VirtualOS (src/vm/os/virtual_os.cpp): loading programs and stepping a process. run() and
    shutdown are part of Protocol. */
module VirtualOs {
  import opened Words
  import opened Memory
  import opened Segments
  import opened Machine
  import opened Cpu
  import opened Loader
  import opened Scheduling
  import opened Parsing
  import Assembly

  lemma ZeroRegisters()
    ensures Core(seq(16, _ => 0), 0, Flags(false, false, false, false)) == ZERO_CORE
  {
    assert seq(16, _ => 0) == ZERO_REGISTERS;
  }

  /** The scheduler's view with one more process, Ready and with a full slice. */
  function Joined(s: Sched, quantum: nat): Sched {
    s.(states := s.states + [Ready], slices := s.slices + [quantum])
  }

  class VirtualOS {
    const quantum: nat
    const physicalMemory: PhysicalMemory
    const programLoader: ProgramLoader
    const processTable: ProcessTable
    const scheduler: PreemptiveScheduler
    const assembler: Parser

    constructor (quantum: nat, memorySize: nat)
      ensures Valid() && processTable.processes == [] && this.quantum == quantum
      ensures programLoader.Value() == Fresh(memorySize) && scheduler.Value() == Sched([], [], [], 0)
      ensures fresh(physicalMemory) && fresh(physicalMemory.memory) && fresh(processTable) && fresh(scheduler)
      ensures fresh(assembler)
    {
      this.quantum := quantum;
      var memory := new PhysicalMemory(memorySize);
      var table := new ProcessTable();
      physicalMemory, processTable := memory, table;
      programLoader := new ProgramLoader(memory);
      scheduler := new PreemptiveScheduler(table, quantum);
      assembler := new Parser();
    }

    ghost predicate Valid()
      reads this, processTable, scheduler
    {
      && programLoader.physicalMemory == physicalMemory && scheduler.table == processTable
      && scheduler.quantum == quantum && scheduler.Valid()
    }

    /** A process control block as createProcess sets it up. */
    method NewProcess(id: nat, memory: ProcessMemory) returns (p: ProcessControlBlock)
      ensures fresh(p) && fresh(p.context) && fresh(p.context.registers)
      ensures p.id == id && p.memory == memory && p.Machine() == InitialState(memory.Mem(), memory.layout)
      ensures p.state == Ready && p.context.timeSliceLeft == quantum && !p.context.halted && !p.context.shouldYield
    {
      p := new ProcessControlBlock(id, memory);
      p.context.registers.sp := Wrap(memory.layout.StackAddress() + STACK_SIZE - 4);
      p.context.timeSliceLeft := quantum;
      ZeroRegisters();
    }

    /** createProcess: null is the exception of a failed load. */
    method CreateProcess(program: Program) returns (p: ProcessControlBlock?)
      requires Valid()
      modifies physicalMemory, physicalMemory.memory, processTable
      ensures Valid() && programLoader.Value() == AfterLoad(old(programLoader.Value()), program).0
      ensures p == null <==> AfterLoad(old(programLoader.Value()), program).1.None?
      ensures p == null ==> processTable.processes == old(processTable.processes)
      ensures scheduler.Value() == if p == null then old(scheduler.Value()) else Joined(old(scheduler.Value()), quantum)
      ensures p != null ==>
                && fresh(p) && fresh(p.context) && fresh(p.context.registers)
                && processTable.processes == old(processTable.processes) + [p]
                && p.memory.physical == physicalMemory
                && p.memory.layout == AfterLoad(old(programLoader.Value()), program).1.value
                && p.Machine() == InitialState(programLoader.Value().mem, p.memory.layout)
                && p.state == Ready && p.context.timeSliceLeft == quantum && !p.context.halted && !p.context.shouldYield
    {
      hide AfterLoad, InitialState;
      var resources := programLoader.Load(program);
      if resources.None? {
        return null;
      }
      var id := processTable.NextId();
      p := NewProcess(id, resources.value);
      processTable.Emplace(p);
    }

    /** loadProgramFromSource: None is an exception of the assembler or of the loader. A loaded process is Ready and in
        the queue; the other processes are as before. */
    method LoadProgramFromSource(source: string) returns (id: Option<nat>)
      requires Valid() && Assembly.DataFits(source)
      modifies physicalMemory, physicalMemory.memory, processTable, scheduler`readyQueue, assembler
      ensures Valid()
      ensures id.Some? <==> Assembly.AssembleSource(source).Some?
                            && AfterLoad(old(programLoader.Value()), Assembly.AssembleSource(source).value).1.Some?
      ensures id.None? ==> scheduler.Value() == old(scheduler.Value())
                           && processTable.processes == old(processTable.processes)
      ensures id.Some? ==>
                var n := |old(processTable.processes)|;
                var (after, layout) := AfterLoad(old(programLoader.Value()), Assembly.AssembleSource(source).value);
                && id == Some(n + 1) && |processTable.processes| == n + 1
                && processTable.processes[..n] == old(processTable.processes)
                && programLoader.Value() == after
                && processTable.processes[n].memory.physical == physicalMemory
                && processTable.processes[n].memory.layout == layout.value && !processTable.processes[n].context.halted
                && processTable.processes[n].Machine() == InitialState(after.mem, layout.value)
                && scheduler.Value() == NotifyReady(Joined(old(scheduler.Value()), quantum))
    {
      hide AfterLoad, Assembly.AssembleSource, NotifyReady, InitialState;
      var program := assembler.Parse(source);
      if program.None? {
        return None;
      }
      var process := CreateProcess(program.value);
      if process == null {
        return None;
      }
      assert process == processTable.processes[|old(processTable.processes)|];
      process.state := Ready;
      assert scheduler.Value().states == Joined(old(scheduler.Value()), quantum).states;
      assert scheduler.Value() == Joined(old(scheduler.Value()), quantum);
      scheduler.NotifyProcessReady();
      id := Some(process.id);
    }

    /** stepProcess: one instruction of one process, without the scheduler; the other processes keep their state,
        context and registers. None is the exception for an unknown id. */
    method StepProcess(id: nat) returns (o: Option<Outcome>, printed: seq<Word>)
      requires Valid()
      modifies set p | p in processTable.processes && p.id == id
      modifies set p | p in processTable.processes && p.id == id :: p.context
      modifies set p | p in processTable.processes && p.id == id :: p.context.registers
      modifies set p | p in processTable.processes && p.id == id :: p.memory.physical.memory
      ensures processTable.processes == old(processTable.processes)
      ensures o.Some? <==> 1 <= id <= |processTable.processes|
      ensures o.Some? ==>
                var p := processTable.processes[id - 1];
                && Effect(p.Machine(), o.value, printed) == Step(old(p.Machine()), p.memory.layout)
                && p.state == (if o.value == Machine.Halt(true) then Halted else Running)
                && p.context.halted == (old(p.context.halted) || o.value.Halt?)
                && p.context.shouldYield == (old(p.context.shouldYield) || o.value == Yield)
                && p.context.timeSliceLeft == SliceAfter(o.value, old(p.context.timeSliceLeft))
      ensures forall q :: q in processTable.processes && q.id != id ==>
                unchanged(q) && unchanged(q.context) && unchanged(q.context.registers)
      ensures o.None? ==> printed == []
                          && forall q :: q in processTable.processes ==> unchanged(q.memory.physical.memory)
    {
      var process := processTable.Find(id);
      if process == null {
        return None, [];
      }
      process.state := Running;
      var outcome;
      outcome, printed := ExecuteInstruction(process);
      o := Some(outcome);
    }
  }
}
