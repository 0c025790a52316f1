/** What one instruction does: operands, flags, the handlers of src/vm/isa and executeInstruction
    (src/vm/cpu/virtual_cpu_core.cpp), as functions of the process state. */
module Machine {
  import opened Words
  import opened Encoding
  import opened Memory
  import opened Segments

  datatype Flags = Flags(zero: bool, sign: bool, carry: bool, overflow: bool)

  type Gpr = s: seq<Word> | |s| == 16 witness seq(16, _ => 0)

  /** The registers every instruction works on; the stack pointer is kept apart, with the stack. */
  datatype Core = Core(gpr: Gpr, pc: Word, flags: Flags)
  {
    function Set(r: RegIndex, v: Word): Core { this.(gpr := gpr[r := v]) }
    function Advance(): Core { this.(pc := Wrap(pc + 1)) }
    function Goto(target: Word): Core { this.(pc := target) }
    function WithFlags(f: Flags): Core { this.(flags := f) }
  }

  /** ExecutionResult, plus the two ways out of the instruction loop that it does not have: an exception that
      nobody catches, and a system call that reads input or loads a program. */
  datatype Outcome = Continue | Jump | Yield | Halt(byExit: bool) | Error | Throw | External

  /** updateFlags leaves carry and overflow as they were. */
  function ResultFlags(flags: Flags, result: Word): Flags {
    flags.(zero := result == 0, sign := Signed(result) < 0)
  }

  function SubFlags(lhs: Word, rhs: Word, result: Word): Flags {
    Flags(result == 0, Signed(result) < 0, lhs < rhs,
          (Signed(lhs) < 0) != (Signed(rhs) < 0) && (Signed(lhs) < 0) != (Signed(result) < 0))
  }

  function Operand(i: Decoded, k: Core): Word {
    if i.rs2 == IMMEDIATE_MARKER then Wrap(i.imm) else k.gpr[i.rs2]
  }

  predicate TakeJump(f: Flags, op: Opcode) {
    match op
    case JE => f.zero
    case JNE => !f.zero
    case JG => !f.zero && !f.sign
    case JGE => !f.sign
    case JL => f.sign
    case JLE => f.zero || f.sign
    case _ => false
  }

  /** A result written to rd with its zero and sign flags. */
  function Result(k: Core, rd: RegIndex, v: Word): Core {
    k.Set(rd, v).WithFlags(ResultFlags(k.flags, v)).Advance()
  }

  function Difference(k: Core, rd: RegIndex, lhs: Word, rhs: Word): Core {
    var v := Wrap(lhs - rhs);
    k.Set(rd, v).WithFlags(SubFlags(lhs, rhs, v)).Advance()
  }

  function Quotient(lhs: Word, rhs: Word): (q: Word)
    requires rhs != 0
  {
    assert lhs / rhs >= 0;
    lhs / rhs
  }

  function Remainder(lhs: Word, rhs: Word): Word
    requires rhs != 0
  {
    lhs % rhs
  }

  /** The arithmetic and logic handlers, with mov, cmp and nop, on given operand values. */
  function Alu(op: Opcode, k: Core, rd: RegIndex, lhs: Word, rhs: Word): (Core, Outcome) {
    match op
    case MOV => (k.Set(rd, rhs).Advance(), Continue)
    case ADD => (Result(k, rd, Wrap(lhs + rhs)), Continue)
    case SUB => (Difference(k, rd, lhs, rhs), Continue)
    case MUL => (Result(k, rd, Wrap(lhs * rhs)), Continue)
    case DIV => if rhs == 0 then (k, Error) else (Result(k, rd, Quotient(lhs, rhs)), Continue)
    case MOD => if rhs == 0 then (k, Error) else (Result(k, rd, Remainder(lhs, rhs)), Continue)
    case INC => (Result(k, rd, Wrap(k.gpr[rd] as int + 1)), Continue)
    case DEC => (Difference(k, rd, k.gpr[rd], 1), Continue)
    case AND => (Result(k, rd, And32(lhs, rhs)), Continue)
    case OR => (Result(k, rd, Or32(lhs, rhs)), Continue)
    case XOR => (Result(k, rd, Xor32(lhs, rhs)), Continue)
    case NOT => (Result(k, rd, Not32(k.gpr[rd])), Continue)
    case CMP => (k.WithFlags(SubFlags(lhs, rhs, Wrap(lhs - rhs))).Advance(), Continue)
    case NOP => (k.Advance(), Continue)
    case _ => (k, Throw)
  }

  function Branched(op: Opcode, k: Core, target: Word): (Core, Outcome) {
    if op.JMP? || TakeJump(k.flags, op) then (k.Goto(target), Jump) else (k.Advance(), Continue)
  }

  /** The system calls other than print. */
  function Served(service: RegIndex, k: Core): (Core, Outcome) {
    if service == SYS_EXIT then (k.Advance(), Halt(true))
    else if service == SYS_YIELD then (k.Advance(), Yield)
    else if service == SYS_SCAN || service == SYS_LOAD then (k, External)
    else (k.Advance(), Continue)
  }

  /** The instructions that touch no memory. */
  function Compute(i: Decoded, k: Core): (Core, Outcome) {
    match i.opcode
    case JMP | JE | JNE | JG | JGE | JL | JLE => Branched(i.opcode, k, Wrap(i.imm))
    case HALT => (k, Halt(false))
    case CALL => Served(i.rs1, k)
    case _ => Alu(i.opcode, k, i.rd, k.gpr[i.rs1], Operand(i, k))
  }

  const SYS_PRINT: RegIndex := 0
  const SYS_SCAN: RegIndex := 1
  const SYS_EXIT: RegIndex := 2
  const SYS_YIELD: RegIndex := 3
  const SYS_LOAD: RegIndex := 4

  /** The syscall argument is the immediate read as an unsigned 16-bit number. */
  function CallArgument(imm: Imm12): Word {
    if imm < 0 then imm + 0x1_0000 else imm
  }

  // ---- The machine over bytes ---------------------------------------------------------------------------

  datatype State = State(core: Core, sp: Word, mem: Mem)

  /** What an instruction leaves behind, how it ends, and the words it prints. */
  datatype Effect = Effect(state: State, outcome: Outcome, printed: seq<Word>)

  function Execute(i: Decoded, s: State, l: Layout): Effect {
    var k := s.core;
    match i.opcode
    case LOAD =>
      (match DataWordRead(s.mem, l, Wrap(i.imm))
       case None => Effect(s, Throw, [])
       case Some(v) => Effect(s.(core := k.Set(i.rd, v).Advance()), Continue, []))
    case STORE =>
      (match DataWordWritten(s.mem, l, Wrap(i.imm), k.gpr[i.rd])
       case None => Effect(s, Throw, [])
       case Some(m) => Effect(s.(core := k.Advance(), mem := m), Continue, []))
    case PUSH =>
      var p := Push(s.mem, l, Operand(i, k), s.sp);
      if p.ok then Effect(State(k.Advance(), p.sp, p.mem), Continue, [])
      else Effect(State(k, p.sp, p.mem), Error, [])
    case POP =>
      var p := Pop(s.mem, l, s.sp);
      (match p.value
       case None => Effect(s.(sp := p.sp), Error, [])
       case Some(v) => Effect(State(k.Set(i.rd, v).Advance(), p.sp, s.mem), Continue, []))
    case RET =>
      var p := Pop(s.mem, l, s.sp);
      (match p.value
       case None => Effect(s.(sp := p.sp), Error, [])
       case Some(v) => Effect(State(k.Goto(v), p.sp, s.mem), Jump, []))
    case _ =>
      if i.opcode == CALL && i.rs1 == SYS_PRINT then
        match DataWordRead(s.mem, l, CallArgument(i.imm))
        case None => Effect(s, Throw, [])
        case Some(v) => Effect(s.(core := k.Advance()), Continue, [v])
      else
        var (core, outcome) := Compute(i, k);
        Effect(s.(core := core), outcome, [])
  }

  /** executeInstruction: fetch at pc, decode, run the handler. */
  function Step(s: State, l: Layout): Effect {
    match CodeWordRead(s.mem, l, s.core.pc)
    case None => Effect(s, Throw, [])
    case Some(raw) => Execute(Decode(raw), s, l)
  }

  /** The time slice after an instruction: the early returns of executeInstruction leave it as it is. */
  function SliceAfter(o: Outcome, slice: nat): nat {
    if (o.Continue? || o.Jump? || o.Error? || o == Halt(false)) && slice > 0 then slice - 1 else slice
  }

  // ---- Compare and branch -------------------------------------------------------------------------------

  lemma WrapDifference(lhs: Word, rhs: Word)
    ensures Wrap(lhs - rhs) == if lhs >= rhs then lhs - rhs else lhs - rhs + WORD_LIMIT
  {
    if lhs < rhs {
      Euclid(lhs - rhs, -1, lhs - rhs + WORD_LIMIT, WORD_LIMIT);
    }
  }

  /** After a subtraction or comparison, carry is unsigned less-than, overflow is a signed difference outside
      int32, and sign differs from overflow exactly when the signed left side is the smaller. */
  lemma CompareFlags(lhs: Word, rhs: Word)
    ensures var f := SubFlags(lhs, rhs, Wrap(lhs - rhs));
            && (f.zero <==> lhs == rhs)
            && (f.carry <==> lhs < rhs)
            && (f.overflow <==> !(-SIGN_BIT <= Signed(lhs) - Signed(rhs) < SIGN_BIT))
            && (f.sign != f.overflow <==> Signed(lhs) < Signed(rhs))
  {
    WrapDifference(lhs, rhs);
  }

  /** The four ordered jumps look at sign alone, so after a comparison each of them decides the signed order
      exactly when there was no overflow. */
  lemma OrderedJumps(lhs: Word, rhs: Word)
    ensures var f := SubFlags(lhs, rhs, Wrap(lhs - rhs));
            && ((TakeJump(f, JL) <==> Signed(lhs) < Signed(rhs)) <==> !f.overflow)
            && ((TakeJump(f, JGE) <==> Signed(lhs) >= Signed(rhs)) <==> !f.overflow)
            && ((TakeJump(f, JG) <==> Signed(lhs) > Signed(rhs)) <==> !f.overflow)
            && ((TakeJump(f, JLE) <==> Signed(lhs) <= Signed(rhs)) <==> !f.overflow)
            && (TakeJump(f, JE) <==> lhs == rhs) && (TakeJump(f, JNE) <==> lhs != rhs)
  {
    CompareFlags(lhs, rhs);
  }

  /** INT_MIN < 1, yet jl is not taken after comparing them. */
  lemma OverflowMisleadsJump()
    ensures Signed(SIGN_BIT) < Signed(1) && !TakeJump(SubFlags(SIGN_BIT, 1, Wrap(SIGN_BIT - 1)), JL)
  {
  }

  // ---- Arithmetic laws, which fix what each handler computes ---------------------------------------------

  function Reg(op: Opcode, rd: RegIndex, rs: RegIndex): Decoded {
    Decoded(op, rd, rd, rs, 0)
  }

  lemma WrapInverse(a: Word, b: int)
    ensures Wrap(Wrap(a + b) - b) == a
  {
    WrapAdd(a + b, -b);
  }

  /** Subtracting what was added, or adding what was subtracted, restores the register. */
  lemma AddThenSub(k: Core, rd: RegIndex, rs: RegIndex)
    requires rs != IMMEDIATE_MARKER && rd != rs
    ensures Compute(Reg(SUB, rd, rs), Compute(Reg(ADD, rd, rs), k).0).0.gpr == k.gpr
  {
    WrapInverse(k.gpr[rd], k.gpr[rs]);
    assert k.gpr[rd := k.gpr[rd]] == k.gpr;
  }

  lemma SubThenAdd(k: Core, rd: RegIndex, rs: RegIndex)
    requires rs != IMMEDIATE_MARKER && rd != rs
    ensures Compute(Reg(ADD, rd, rs), Compute(Reg(SUB, rd, rs), k).0).0.gpr == k.gpr
  {
    WrapInverse(k.gpr[rd], -(k.gpr[rs] as int));
    assert k.gpr[rd := k.gpr[rd]] == k.gpr;
  }

  /** So do dec after inc, inc after dec, and not after not. */
  lemma UnaryInverse(k: Core, rd: RegIndex, rs: RegIndex)
    ensures Compute(Reg(DEC, rd, rs), Compute(Reg(INC, rd, rs), k).0).0.gpr == k.gpr
    ensures Compute(Reg(INC, rd, rs), Compute(Reg(DEC, rd, rs), k).0).0.gpr == k.gpr
    ensures Compute(Reg(NOT, rd, rs), Compute(Reg(NOT, rd, rs), k).0).0.gpr == k.gpr
  {
    WrapInverse(k.gpr[rd], 1);
    WrapInverse(k.gpr[rd], -1);
    assert k.gpr[rd := k.gpr[rd]] == k.gpr;
  }

  /** div and mod are the Euclidean quotient and remainder, and fail together exactly on a zero divisor. */
  lemma DivModLaw(k: Core, rd: RegIndex, rs: RegIndex)
    requires rs != IMMEDIATE_MARKER
    ensures var (q, oq), (r, om) := Compute(Reg(DIV, rd, rs), k), Compute(Reg(MOD, rd, rs), k);
            && (oq == Error <==> k.gpr[rs] == 0) && oq == om
            && (oq == Error ==> q == k && r == k)
            && (oq != Error ==>
                  q.gpr[rd] as int * k.gpr[rs] as int + r.gpr[rd] as int == k.gpr[rd] && r.gpr[rd] < k.gpr[rs])
  {
  }

  /** and, or and xor of two words determine one another through their sum. */
  lemma LogicLaw(k: Core, rd: RegIndex, rs: RegIndex)
    requires rs != IMMEDIATE_MARKER
    ensures var a, o, x := Compute(Reg(AND, rd, rs), k).0.gpr[rd], Compute(Reg(OR, rd, rs), k).0.gpr[rd],
                           Compute(Reg(XOR, rd, rs), k).0.gpr[rd];
            o as int + a as int == k.gpr[rd] as int + k.gpr[rs] as int
            && x as int + 2 * a as int == k.gpr[rd] as int + k.gpr[rs] as int
  {
    BitLaws(k.gpr[rd], k.gpr[rs]);
  }

  // ---- Isolation ----------------------------------------------------------------------------------------

  /** An instruction changes nothing outside its own process's data and stack segments, however it ends. */
  lemma ExecuteFrame(i: Decoded, s: State, l: Layout)
    requires l.Fits(|s.mem|)
    ensures SameOutside(s.mem, Execute(i, s, l).state.mem, l.base + l.dataOffset, l.StackEnd())
  {
    if i.opcode.STORE? {
      DataWriteFrame(s.mem, l, Wrap(i.imm), s.core.gpr[i.rd]);
    } else if i.opcode.PUSH? {
      PushFrame(s.mem, l, Operand(i, s.core), s.sp);
    }
  }

  ghost predicate SameProcess(a: State, b: State, l: Layout) {
    a.core == b.core && a.sp == b.sp && AgreeOn(a.mem, b.mem, l.base, l.base + l.totalSize)
  }

  /** What an instruction does depends on the registers and the process's own region only. */
  lemma ExecuteLocal(i: Decoded, a: State, b: State, l: Layout)
    requires l.Fits(|a.mem|) && SameProcess(a, b, l)
    ensures var x, y := Execute(i, a, l), Execute(i, b, l);
            x.outcome == y.outcome && x.printed == y.printed && SameProcess(x.state, y.state, l)
  {
    match i.opcode {
      case LOAD => DataReadLocal(a.mem, b.mem, l, Wrap(i.imm));
      case STORE => DataWriteLocal(a.mem, b.mem, l, Wrap(i.imm), a.core.gpr[i.rd]);
      case PUSH => PushLocal(a.mem, b.mem, l, Operand(i, a.core), a.sp);
      case POP | RET => PopLocal(a.mem, b.mem, l, a.sp);
      case _ => DataReadLocal(a.mem, b.mem, l, CallArgument(i.imm));
    }
  }

  // ---- Solo runs ----------------------------------------------------------------------------------------

  /** The state after n instructions executed one after the other, as stepping a single process does. */
  function Solo(s: State, l: Layout, n: nat): State {
    if n == 0 then s else Step(Solo(s, l, n - 1), l).state
  }

  /** How instruction n of a solo run (counting from 0) ends. */
  function SoloOutcome(s: State, l: Layout, n: nat): Outcome {
    Step(Solo(s, l, n), l).outcome
  }

  function SoloPrinted(s: State, l: Layout, n: nat): seq<Word> {
    if n == 0 then [] else SoloPrinted(s, l, n - 1) + Step(Solo(s, l, n - 1), l).printed
  }

  lemma StepFrame(s: State, l: Layout)
    requires l.Fits(|s.mem|)
    ensures SameOutside(s.mem, Step(s, l).state.mem, l.base + l.dataOffset, l.StackEnd())
  {
    hide Execute;
    match CodeWordRead(s.mem, l, s.core.pc) {
      case None =>
      case Some(raw) => ExecuteFrame(Decode(raw), s, l);
    }
  }

  /** Over a whole run only the data and stack segments change, so the code stays what was loaded. */
  lemma {:induction false} SoloFrame(s: State, l: Layout, n: nat)
    requires l.Fits(|s.mem|)
    ensures SameOutside(s.mem, Solo(s, l, n).mem, l.base + l.dataOffset, l.StackEnd())
  {
    hide Step;
    if n == 0 {
    } else {
      SoloFrame(s, l, n - 1);
      StepFrame(Solo(s, l, n - 1), l);
    }
  }

  /** Every code word is still the one the run started with. */
  lemma CodeImmutable(s: State, l: Layout, n: nat, pc: Word)
    requires l.Fits(|s.mem|) && 4 * pc + 4 <= l.codeSize
    ensures CodeWordRead(Solo(s, l, n).mem, l, pc) == CodeWordRead(s.mem, l, pc)
  {
    SoloFrame(s, l, n);
    CodeWordKept(s.mem, Solo(s, l, n).mem, l, pc);
  }
}
