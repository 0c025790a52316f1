/** Register file, context and control block as mutable objects, the instruction handlers that update them, and
    executeInstruction; each is proved to do what Machine says. */
module Cpu {
  import opened Words
  import opened Encoding
  import opened Memory
  import opened Segments
  import opened Machine

  datatype ProcessState = Ready | Running | Halted

  class RegisterFile {
    var gpr: Gpr
    var pc: Word
    var sp: Word
    var flags: Flags

    constructor ()
      ensures Value() == Core(seq(16, _ => 0), 0, Flags(false, false, false, false)) && sp == 0
    {
      gpr := seq(16, _ => 0);
      pc, sp := 0, 0;
      flags := Flags(false, false, false, false);
    }

    function Value(): Core
      reads this
    {
      Core(gpr, pc, flags)
    }

    function ReadOperand(i: Decoded): Word
      reads this
    {
      Operand(i, Value())
    }

    method Set(index: RegIndex, value: Word)
      modifies `gpr
      ensures gpr == old(gpr)[index := value]
    {
      gpr := gpr[index := value];
    }

    method AdvancePc()
      modifies `pc
      ensures pc == Wrap(old(pc) + 1)
    {
      pc := Wrap(pc + 1);
    }

    method UpdateFlags(result: Word)
      modifies `flags
      ensures flags == ResultFlags(old(flags), result)
    {
      flags := flags.(zero := result == 0);
      flags := flags.(sign := Signed(result) < 0);
    }

    method UpdateFlagsSub(lhs: Word, rhs: Word, result: Word)
      modifies `flags
      ensures flags == SubFlags(lhs, rhs, result)
    {
      UpdateFlags(result);
      flags := flags.(carry := lhs < rhs);
      var lhsSign := Signed(lhs) < 0;
      var rhsSign := Signed(rhs) < 0;
      var resultSign := Signed(result) < 0;
      flags := flags.(overflow := lhsSign != rhsSign && lhsSign != resultSign);
    }
  }

  /** The common end of the handlers: write the result, set its flags, move on. */
  method Conclude(r: RegisterFile, rd: RegIndex, value: Word)
    modifies r
    ensures r.Value() == Result(old(r.Value()), rd, value) && r.sp == old(r.sp)
  {
    r.Set(rd, value);
    r.UpdateFlags(value);
    r.AdvancePc();
  }

  method ConcludeSub(r: RegisterFile, rd: RegIndex, lhs: Word, rhs: Word)
    modifies r
    ensures r.Value() == Difference(old(r.Value()), rd, lhs, rhs) && r.sp == old(r.sp)
  {
    var value := Wrap(lhs - rhs);
    r.Set(rd, value);
    r.UpdateFlagsSub(lhs, rhs, value);
    r.AdvancePc();
  }

  class CpuContext {
    const registers: RegisterFile
    var timeSliceLeft: nat
    var halted: bool
    var shouldYield: bool

    constructor ()
      ensures fresh(registers) && timeSliceLeft == 100 && !halted && !shouldYield
      ensures registers.Value() == Core(seq(16, _ => 0), 0, Flags(false, false, false, false)) && registers.sp == 0
    {
      registers := new RegisterFile();
      timeSliceLeft := 100;
      halted, shouldYield := false, false;
    }
  }

  class ProcessControlBlock {
    const id: nat
    const context: CpuContext
    const memory: ProcessMemory
    var state: ProcessState

    constructor (id: nat, memory: ProcessMemory)
      ensures this.id == id && this.memory == memory && state == Ready
      ensures fresh(context) && fresh(context.registers) && !context.halted && !context.shouldYield
      ensures Machine() == State(Core(seq(16, _ => 0), 0, Flags(false, false, false, false)), 0, memory.Mem())
    {
      this.id, this.memory := id, memory;
      context := new CpuContext();
      state := Ready;
    }

    /** The state that Machine's functions work on. */
    function Machine(): State
      reads context.registers, memory.physical.memory
    {
      State(context.registers.Value(), context.registers.sp, memory.Mem())
    }
  }

  method ExecuteArithmetic(i: Decoded, r: RegisterFile) returns (o: Outcome)
    requires i.opcode in {ADD, SUB, MUL, DIV, MOD, INC, DEC}
    modifies r
    ensures (r.Value(), o) == Compute(i, old(r.Value())) && r.sp == old(r.sp)
  {
    hide Machine.Result, Difference, Quotient, Remainder;
    var lhs: int, rhs: int := r.gpr[i.rs1], r.ReadOperand(i);
    var before: int := r.gpr[i.rd];
    if (i.opcode == DIV || i.opcode == MOD) && rhs == 0 {
      return Error;
    }
    if i.opcode == INC {
      Conclude(r, i.rd, Wrap(before + 1));
    } else if i.opcode == DEC {
      ConcludeSub(r, i.rd, before, 1);
    } else if i.opcode == SUB {
      ConcludeSub(r, i.rd, lhs, rhs);
    } else if i.opcode == ADD {
      Conclude(r, i.rd, Wrap(lhs + rhs));
    } else if i.opcode == MUL {
      Conclude(r, i.rd, Wrap(lhs * rhs));
    } else if i.opcode == DIV {
      Conclude(r, i.rd, Quotient(lhs, rhs));
    } else {
      Conclude(r, i.rd, Remainder(lhs, rhs));
    }
    o := Continue;
  }

  lemma LogicCases(i: Decoded, k: Core)
    requires i.opcode in {AND, OR, XOR, NOT, CMP}
    ensures Compute(i, k).1 == Continue
    ensures var lhs: int, rhs: int, core := k.gpr[i.rs1], Operand(i, k), Compute(i, k).0;
            && (i.opcode == CMP ==> core == k.WithFlags(SubFlags(lhs, rhs, Wrap(lhs - rhs))).Advance())
            && (i.opcode == NOT ==> core == Machine.Result(k, i.rd, Not32(k.gpr[i.rd])))
            && (i.opcode == AND ==> core == Machine.Result(k, i.rd, And32(lhs, rhs)))
            && (i.opcode == OR ==> core == Machine.Result(k, i.rd, Or32(lhs, rhs)))
            && (i.opcode == XOR ==> core == Machine.Result(k, i.rd, Xor32(lhs, rhs)))
  {
  }

  method ExecuteLogic(i: Decoded, r: RegisterFile) returns (o: Outcome)
    requires i.opcode in {AND, OR, XOR, NOT, CMP}
    modifies r
    ensures (r.Value(), o) == Compute(i, old(r.Value())) && r.sp == old(r.sp)
  {
    hide Compute, Operand, Machine.Result, SubFlags, And32, Or32, Xor32, Not32;
    LogicCases(i, r.Value());
    var lhs: int, rhs: int := r.gpr[i.rs1], r.ReadOperand(i);
    if i.opcode == CMP {
      r.UpdateFlagsSub(lhs, rhs, Wrap(lhs - rhs));
      r.AdvancePc();
    } else if i.opcode == NOT {
      Conclude(r, i.rd, Not32(r.gpr[i.rd]));
    } else if i.opcode == AND {
      Conclude(r, i.rd, And32(lhs, rhs));
    } else if i.opcode == OR {
      Conclude(r, i.rd, Or32(lhs, rhs));
    } else {
      Conclude(r, i.rd, Xor32(lhs, rhs));
    }
    o := Continue;
  }

  method ExecuteJump(i: Decoded, r: RegisterFile) returns (o: Outcome)
    requires i.opcode in {JMP, JE, JNE, JG, JGE, JL, JLE}
    modifies r
    ensures (r.Value(), o) == Compute(i, old(r.Value())) && r.sp == old(r.sp)
  {
    if i.opcode == JMP || TakeJump(r.flags, i.opcode) {
      r.pc := Wrap(i.imm);
      return Jump;
    }
    r.AdvancePc();
    o := Continue;
  }

  lemma MoveCase(i: Decoded, s: State, l: Layout)
    ensures i.opcode == MOV ==>
              Execute(i, s, l) == Effect(s.(core := s.core.Set(i.rd, Operand(i, s.core)).Advance()), Continue, [])
  {
  }

  /** MOV, LOAD and STORE; a VmException of the data segment stays an exception. */
  method ExecuteMemory(i: Decoded, p: ProcessControlBlock) returns (o: Outcome)
    requires i.opcode in {MOV, LOAD, STORE}
    modifies p.context.registers, p.memory.physical.memory
    ensures Effect(p.Machine(), o, []) == Execute(i, old(p.Machine()), p.memory.layout)
  {
    hide DataWordRead, DataWordWritten, Compute, Push, Pop;
    MoveCase(i, p.Machine(), p.memory.layout);
    var r := p.context.registers;
    if i.opcode == MOV {
      r.Set(i.rd, r.ReadOperand(i));
    } else if i.opcode == LOAD {
      var value := p.memory.ReadDataWord(Wrap(i.imm));
      if value.None? {
        return Throw;
      }
      r.Set(i.rd, value.value);
    } else {
      var ok := p.memory.WriteDataWord(Wrap(i.imm), r.gpr[i.rd]);
      if !ok {
        return Throw;
      }
    }
    r.AdvancePc();
    o := Continue;
  }

  /** PUSH, POP and RET; a VmException of the stack becomes Error. */
  method ExecuteStack(i: Decoded, p: ProcessControlBlock) returns (o: Outcome)
    requires i.opcode in {PUSH, POP, RET}
    modifies p.context.registers, p.memory.physical.memory
    ensures Effect(p.Machine(), o, []) == Execute(i, old(p.Machine()), p.memory.layout)
  {
    hide Push, Pop;
    var r := p.context.registers;
    if i.opcode == PUSH {
      var ok, sp := p.memory.PushWord(r.ReadOperand(i), r.sp);
      r.sp := sp;
      if !ok {
        return Error;
      }
    } else {
      var value, sp := p.memory.PopWord(r.sp);
      r.sp := sp;
      if value.None? {
        return Error;
      }
      if i.opcode == RET {
        r.pc := value.value;
        return Jump;
      }
      r.Set(i.rd, value.value);
    }
    r.AdvancePc();
    o := Continue;
  }

  /** SyscallHandler::handle for print, exit and yield; scan and load leave the model before doing anything. */
  method HandleSyscall(i: Decoded, p: ProcessControlBlock) returns (o: Outcome, printed: seq<Word>)
    requires i.opcode == CALL
    modifies p`state, p.context
    ensures p.Machine() == old(p.Machine())
    ensures o == Execute(i, old(p.Machine()), p.memory.layout).outcome
    ensures printed == Execute(i, old(p.Machine()), p.memory.layout).printed
    ensures p.state == if i.rs1 == SYS_EXIT then Halted else old(p.state)
    ensures p.context.halted == (old(p.context.halted) || i.rs1 == SYS_EXIT)
    ensures p.context.shouldYield == (old(p.context.shouldYield) || i.rs1 == SYS_YIELD)
    ensures p.context.timeSliceLeft == old(p.context.timeSliceLeft)
  {
    o, printed := Continue, [];
    if i.rs1 == SYS_PRINT {
      var value := p.memory.ReadDataWord(CallArgument(i.imm));
      if value.None? {
        return Throw, [];
      }
      printed := [value.value];
    } else if i.rs1 == SYS_EXIT {
      p.state := Halted;
      p.context.halted := true;
      o := Halt(true);
    } else if i.rs1 == SYS_YIELD {
      p.context.shouldYield := true;
      o := Yield;
    } else if i.rs1 == SYS_SCAN || i.rs1 == SYS_LOAD {
      o := External;
    }
  }

  /** The CALL branch of executeInstruction up to the time slice: an exception skips the advance of pc. */
  method ExecuteCall(i: Decoded, p: ProcessControlBlock) returns (o: Outcome, printed: seq<Word>)
    requires i.opcode == CALL
    modifies p`state, p.context, p.context.registers
    ensures Effect(p.Machine(), o, printed) == Execute(i, old(p.Machine()), p.memory.layout)
    ensures p.state == if o == Halt(true) then Halted else old(p.state)
    ensures p.context.halted == (old(p.context.halted) || o.Halt?)
    ensures p.context.timeSliceLeft == old(p.context.timeSliceLeft)
    ensures p.context.shouldYield == (old(p.context.shouldYield) || o == Yield)
  {
    o, printed := HandleSyscall(i, p);
    if o != Throw && o != External {
      p.context.registers.AdvancePc();
    }
  }

  lemma RegisteredCases(i: Decoded, s: State, l: Layout)
    requires i.opcode != CALL
    ensures var e, (core, outcome) := Execute(i, s, l), Compute(i, s.core);
            && (e.outcome.Halt? <==> i.opcode == HALT) && e.outcome != Yield && e.outcome != Halt(true)
            && (i.opcode !in {LOAD, STORE, PUSH, POP, RET} ==> e == Effect(s.(core := core), outcome, []))
            && (i.opcode == NOP ==> core == s.core.Advance() && outcome == Continue)
            && (i.opcode == HALT ==> core == s.core && outcome == Halt(false))
            && (i.opcode.UNKNOWN? ==> core == s.core && outcome == Throw)
  {
    hide Machine.Result, Difference, Quotient, Remainder, Push, Pop, DataWordRead, DataWordWritten;
  }

  /** InstructionRegistry::execute: the handler registered for the opcode, or an exception. */
  method ExecuteRegistered(i: Decoded, p: ProcessControlBlock) returns (o: Outcome)
    requires i.opcode != CALL
    modifies p.context`halted, p.context.registers, p.memory.physical.memory
    ensures Effect(p.Machine(), o, []) == Execute(i, old(p.Machine()), p.memory.layout)
    ensures p.context.halted == (old(p.context.halted) || o.Halt?) && o != Yield && o != Halt(true)
  {
    hide Execute, Compute;
    RegisteredCases(i, p.Machine(), p.memory.layout);
    var r := p.context.registers;
    if i.opcode in {ADD, SUB, MUL, DIV, MOD, INC, DEC} {
      o := ExecuteArithmetic(i, r);
    } else if i.opcode in {AND, OR, XOR, NOT, CMP} {
      o := ExecuteLogic(i, r);
    } else if i.opcode in {JMP, JE, JNE, JG, JGE, JL, JLE} {
      o := ExecuteJump(i, r);
    } else if i.opcode in {MOV, LOAD, STORE} {
      o := ExecuteMemory(i, p);
    } else if i.opcode in {PUSH, POP, RET} {
      o := ExecuteStack(i, p);
    } else if i.opcode == NOP {
      r.AdvancePc();
      o := Continue;
    } else if i.opcode == HALT {
      p.context.halted := true;
      o := Halt(false);
    } else {
      o := Throw;
    }
  }

  /** Fetch, decode, run the handler, count the time slice down. */
  method ExecuteInstruction(p: ProcessControlBlock) returns (o: Outcome, printed: seq<Word>)
    modifies p`state, p.context, p.context.registers, p.memory.physical.memory
    ensures Effect(p.Machine(), o, printed) == Step(old(p.Machine()), p.memory.layout)
    ensures p.state == if o == Halt(true) then Halted else old(p.state)
    ensures p.context.halted == (old(p.context.halted) || o.Halt?)
    ensures p.context.timeSliceLeft == SliceAfter(o, old(p.context.timeSliceLeft))
    ensures p.context.shouldYield == (old(p.context.shouldYield) || o == Yield)
  {
    hide Execute, Decode, CodeWordRead;
    printed := [];
    var raw := p.memory.ReadCodeWord(p.context.registers.pc);
    if raw.None? {
      return Throw, [];
    }
    var i := Decode(raw.value);
    if i.opcode == CALL {
      o, printed := ExecuteCall(i, p);
    } else {
      o := ExecuteRegistered(i, p);
    }
    if o == Throw || o == External || o == Halt(true) || o == Yield {
      return;
    }
    if p.context.timeSliceLeft > 0 {
      p.context.timeSliceLeft := p.context.timeSliceLeft - 1;
    }
  }
}
