/** What a source program means: its instructions executed one by one with names for addresses, full 16-bit numbers and
    sixteen equal registers, as if there were no instruction words. Then exactly when the generated word does that. */
module SourceSemantics {
  import opened Words
  import opened Encoding
  import opened Memory
  import opened Syntax
  import opened Assembly
  import opened Machine
  import opened StackMachine

  function Ended(s: Process, outcome: Machine.Outcome, printed: seq<Word>): StackMachine.Result {
    StackMachine.Result.Result(s, outcome, printed)
  }

  function PushMeaning(v: Word, s: Process, capacity: nat): StackMachine.Result {
    if |s.stack| < capacity
    then Ended(s.(core := s.core.Advance(), stack := [v] + s.stack), Continue, [])
    else Ended(s, Error, [])
  }

  function LoadMeaning(rd: RegIndex, a: Word, s: Process): StackMachine.Result {
    match WordRead(s.data, a)
    case None => Ended(s, Throw, [])
    case Some(v) => Ended(s.(core := s.core.Set(rd, v).Advance()), Continue, [])
  }

  function StoreMeaning(rd: RegIndex, a: Word, s: Process): StackMachine.Result {
    match WordWritten(s.data, a, s.core.gpr[rd])
    case None => Ended(s, Throw, [])
    case Some(d) => Ended(s.(core := s.core.Advance(), data := d), Continue, [])
  }

  function CallMeaning(id: RegIndex, a: Word, s: Process): StackMachine.Result {
    if id == SYS_PRINT then
      match WordRead(s.data, a)
      case None => Ended(s, Throw, [])
      case Some(v) => Ended(s.(core := s.core.Advance()), Continue, [v])
    else
      var (core, outcome) := Served(id, s.core);
      Ended(s.(core := core), outcome, [])
  }

  function CoreMeaning(r: (Core, Machine.Outcome), s: Process): StackMachine.Result {
    Ended(s.(core := r.0), r.1, [])
  }

  /** One instruction of the source; labels and symbols stand for the addresses they were given. */
  function Meaning(i: Instruction, labels: map<string, Word>, symbols: seq<Symbol>, s: Process, capacity: nat)
    : StackMachine.Result
    requires Lower(i, labels, symbols).Some?
  {
    var k := s.core;
    match i
    case Halt => Ended(s, Machine.Halt(false), [])
    case Ret =>
      if s.stack == [] then Ended(s, Error, [])
      else Ended(s.(core := k.Goto(s.stack[0]), stack := s.stack[1..]), Jump, [])
    case PushRegister(r) => PushMeaning(k.gpr[r], s, capacity)
    case PushLabel(name) => PushMeaning(labels[name], s, capacity)
    case PushNumber(v) => PushMeaning(Wrap(v), s, capacity)
    case Pop(r) =>
      if s.stack == [] then Ended(s, Error, [])
      else Ended(s.(core := k.Set(r, s.stack[0]).Advance(), stack := s.stack[1..]), Continue, [])
    case Call(service, place) => CallMeaning(ServiceOf(service).value, PlaceAddress(place, symbols).value, s)
    case Branch(op, name) => CoreMeaning(Branched(op, k, labels[name]), s)
    case Unary(op, r) => CoreMeaning(Alu(op, k, r, 0, 0), s)
    case Transfer(op, r, place) =>
      var a := PlaceAddress(place, symbols).value;
      if op.LOAD? then LoadMeaning(r, a, s) else StoreMeaning(r, a, s)
    case Binary(op, rd, FromMemory(name)) => LoadMeaning(rd, Find(symbols, name).value, s)
    case Binary(op, rd, FromRegister(rs)) => CoreMeaning(Alu(op, k, rd, k.gpr[rd], k.gpr[rs]), s)
    case Binary(op, rd, Immediate(v)) => CoreMeaning(Alu(op, k, rd, k.gpr[rd], Wrap(v)), s)
  }

  // ---- When the word means the same ---------------------------------------------------------------------

  predicate Short(v: Int16) { -0x800 <= v < 0x800 }

  /** An address that the immediate field brings back, read as a signed number. */
  predicate Reachable(a: Word) { a < 0x800 || a >= WORD_LIMIT - 0x800 }

  /** An address that a system call's 16-bit argument brings back. */
  predicate CallReachable(a: Word) { a < 0x800 || 0xF800 <= a < 0x1_0000 }

  /** r15 cannot be pushed or be a right-hand operand, other than where that makes no difference; numbers, labels and
      offsets must come back from the 12-bit field. */
  predicate Faithful(i: Instruction, labels: map<string, Word>, symbols: seq<Symbol>)
    requires Lower(i, labels, symbols).Some?
  {
    match i
    case PushRegister(r) => r != IMMEDIATE_MARKER
    case PushLabel(name) => Reachable(labels[name])
    case PushNumber(v) => Short(v)
    case Call(service, place) =>
      service == "print" ==> CallReachable(PlaceAddress(place, symbols).value)
    case Branch(_, name) => Reachable(labels[name])
    case Transfer(_, _, place) => Reachable(PlaceAddress(place, symbols).value)
    case Binary(_, _, FromMemory(name)) => Reachable(Find(symbols, name).value)
    case Binary(op, rd, FromRegister(rs)) => rs == IMMEDIATE_MARKER ==> op.NOP? || (op.OR? && rd == IMMEDIATE_MARKER)
    case Binary(op, _, Immediate(v)) => op.NOP? || Short(v)
    case _ => true
  }

  lemma WrapSigned(x: int)
    requires -0x8000_0000 <= x < 0x8000_0000
    ensures Wrap(x) == if x < 0 then x + WORD_LIMIT else x
  {
    if x < 0 {
      Euclid(x, -1, x + WORD_LIMIT, WORD_LIMIT);
    }
  }

  lemma WrapDistinct(x: int, y: int)
    requires x != y && -0x8000_0000 <= x < 0x8000_0000 && -0x8000_0000 <= y < 0x8000_0000
    ensures Wrap(x) != Wrap(y)
  {
    assert Wrap(x) == if x < 0 then x + WORD_LIMIT else x by { WrapSigned(x); }
    assert Wrap(y) == if y < 0 then y + WORD_LIMIT else y by { WrapSigned(y); }
  }

  lemma ShortOperand(v: Int16)
    ensures Wrap(SignExtend12(v % 0x1000)) == Wrap(v) <==> Short(v)
  {
    ImmediateFaithful(v);
    var d: int := SignExtend12(v % 0x1000);
    if d != v {
      WrapDistinct(d, v);
    }
  }

  lemma ReachableOperand(a: Word)
    ensures Wrap(SignExtend12(ToInt16(a) % 0x1000)) == a <==> Reachable(a)
  {
    AddressFaithful(a);
  }

  lemma CallOperand(a: Word)
    ensures CallArgument(SignExtend12(ToInt16(a) % 0x1000)) == a <==> CallReachable(a)
  {
    Int16Mod(a);
    if 0xF800 <= a < 0x1_0000 {
      Euclid(a, 0xF, a - 0xF000, 0x1000);
    }
  }

  lemma LoweredDecode(f: Fields)
    requires !f.opcode.UNKNOWN?
    ensures Decode(f.Raw()) == Decoded(f.opcode, f.rd, f.rs1, f.rs2, SignExtend12(f.imm % 0x1000))
  {
    DecodeEncode(f.opcode, f.rd, f.rs1, f.rs2, f.imm);
    SmallIndex(f.rd); SmallIndex(f.rs1); SmallIndex(f.rs2);
  }

  /** What a generated word does, with the operand that comes back from its fields. */
  function WordMeaning(f: Fields, s: Process, capacity: nat): StackMachine.Result {
    Run1(Decoded(f.opcode, f.rd, f.rs1, f.rs2, SignExtend12(f.imm % 0x1000)), s, capacity)
  }

  ghost predicate SameMeaning(i: Instruction, labels: map<string, Word>, symbols: seq<Symbol>)
    requires Lower(i, labels, symbols).Some?
  {
    forall s: Process, capacity: nat ::
      Run1(Decode(Lower(i, labels, symbols).value.Raw()), s, capacity) == Meaning(i, labels, symbols, s, capacity)
  }

  lemma {:induction false} OrSelfBits(a: nat)
    ensures BitOr(a, a) == a
  {
    if a == 0 {
    } else {
      OrSelfBits(a / 2);
    }
  }

  lemma OrSelf(a: Word)
    ensures Or32(a, a) == a && Or32(a, 0) == a && Or32(0, a) == a && Xor32(0, a) == a
  {
    OrSelfBits(a);
  }

  lemma FaithfulBinary(i: Instruction, labels: map<string, Word>, symbols: seq<Symbol>, s: Process, capacity: nat)
    requires Proper(i) && Lower(i, labels, symbols).Some? && Faithful(i, labels, symbols) && i.Binary?
    ensures WordMeaning(Lower(i, labels, symbols).value, s, capacity) == Meaning(i, labels, symbols, s, capacity)
  {
    assert SignExtend12(0 % 0x1000) == 0;
    hide SignExtend12, ToInt16, CallArgument, Find, Short, Reachable, WordRead, Machine.Result, Difference, Or32, And32;
    hide Xor32;
    match i.source {
      case FromMemory(name) => ReachableOperand(Find(symbols, name).value);
      case Immediate(v) => ShortOperand(v);
      case FromRegister(rs) => OrSelf(s.core.gpr[rs]);
    }
  }

  lemma FaithfulOther(i: Instruction, labels: map<string, Word>, symbols: seq<Symbol>, s: Process, capacity: nat)
    requires Proper(i) && Lower(i, labels, symbols).Some? && Faithful(i, labels, symbols) && !i.Binary?
    ensures WordMeaning(Lower(i, labels, symbols).value, s, capacity) == Meaning(i, labels, symbols, s, capacity)
  {
    hide SignExtend12, ToInt16, CallArgument, Find, Short, Reachable, CallReachable, WordRead, WordWritten;
    hide Machine.Result, Difference;
    if i.PushLabel? || i.Branch? {
      ReachableOperand(labels[i.name]);
    } else if i.PushNumber? {
      ShortOperand(i.value);
    } else if i.Call? {
      CallOperand(PlaceAddress(i.arg, symbols).value);
    } else if i.Transfer? {
      ReachableOperand(PlaceAddress(i.place, symbols).value);
    }
  }

  /** A faithful instruction's word does what the source says, in every state. */
  lemma FaithfulMeaning(i: Instruction, labels: map<string, Word>, symbols: seq<Symbol>, s: Process, capacity: nat)
    requires Proper(i) && Lower(i, labels, symbols).Some? && Faithful(i, labels, symbols)
    ensures Run1(Decode(Lower(i, labels, symbols).value.Raw()), s, capacity) == Meaning(i, labels, symbols, s, capacity)
  {
    LoweredDecode(Lower(i, labels, symbols).value);
    if i.Binary? {
      FaithfulBinary(i, labels, symbols, s, capacity);
    } else {
      FaithfulOther(i, labels, symbols, s, capacity);
    }
  }

  // ---- When it does not ---------------------------------------------------------------------------------

  lemma {:induction false} AndOnesBits(a: nat, n: nat)
    requires a < Pow2(n)
    ensures BitAnd(Pow2(n) - 1, a) == a
  {
    if n == 0 || a == 0 {
    } else {
      AndOnesBits(a / 2, n - 1);
      var m: nat := Pow2(n) - 1;
      assert m / 2 == Pow2(n - 1) - 1 && m % 2 == 1;
    }
  }

  const ONES: Word := 0xFFFF_FFFF

  lemma AndOnes(a: Word)
    ensures And32(ONES, a) == a
  {
    Pow2Values();
    AndOnesBits(a, 32);
  }

  /** A left operand for which two right operands give different results. */
  function Telling(op: Opcode, r1: Word, r2: Word): Word {
    if op.AND? then ONES else if op.MUL? then 1 else if op.CMP? then r1
    else if op.DIV? || op.MOD? then if r1 < r2 then r1 else r2
    else 0
  }

  lemma QuotientsDiffer(r1: Word, r2: Word)
    requires r1 != r2 && r1 != 0 && r2 != 0
    ensures var m: Word := if r1 < r2 then r1 else r2;
            Quotient(m, r1) != Quotient(m, r2) && Remainder(m, r1) != Remainder(m, r2)
  {
    var m: Word := if r1 < r2 then r1 else r2;
    var larger: Word := if r1 < r2 then r2 else r1;
    Euclid(m, 1, 0, m);
    Euclid(m, 0, m, larger);
  }

  lemma DivisorsTold(op: Opcode, k: Core, rd: RegIndex, r1: Word, r2: Word)
    requires (op.DIV? || op.MOD?) && r1 != r2
    ensures var lhs := Telling(op, r1, r2); Alu(op, k, rd, lhs, r1) != Alu(op, k, rd, lhs, r2)
  {
    hide Quotient, Remainder, ResultFlags;
    var lhs := Telling(op, r1, r2);
    var a, b := Alu(op, k, rd, lhs, r1), Alu(op, k, rd, lhs, r2);
    if r1 != 0 && r2 != 0 {
      QuotientsDiffer(r1, r2);
      assert a.0.gpr[rd] != b.0.gpr[rd];
    } else {
      assert a.1 != b.1;
    }
  }

  lemma WrapSame(lhs: Word, r: Word)
    ensures lhs == 0 ==> Wrap(lhs + r) == r
    ensures lhs == 1 ==> Wrap(lhs * r) == r
  {
    if lhs == 1 {
      assert lhs * r == r;
    }
  }

  lemma ResultTells(op: Opcode, k: Core, rd: RegIndex, lhs: Word, r: Word)
    requires IsBinary(op) && !op.NOP? && !op.CMP? && !op.DIV? && !op.MOD?
    requires lhs == if op.AND? then ONES else if op.MUL? then 1 else 0
    ensures Alu(op, k, rd, lhs, r).0.gpr[rd] == if op.SUB? then Wrap(0 - r) else r
  {
    hide And32, Or32, Xor32, SubFlags, ResultFlags, Quotient, Remainder;
    OrSelf(r);
    AndOnes(r);
    WrapSame(lhs, r);
  }

  lemma ResultsDiffer(op: Opcode, k: Core, rd: RegIndex, r1: Word, r2: Word)
    requires IsBinary(op) && !op.NOP? && !op.CMP? && !op.DIV? && !op.MOD? && r1 != r2
    ensures var lhs := Telling(op, r1, r2); Alu(op, k, rd, lhs, r1).0.gpr[rd] != Alu(op, k, rd, lhs, r2).0.gpr[rd]
  {
    var lhs := Telling(op, r1, r2);
    ResultTells(op, k, rd, lhs, r1);
    ResultTells(op, k, rd, lhs, r2);
    WrapDifference(0, r1);
    WrapDifference(0, r2);
    hide Alu;
  }

  lemma TellsApart(op: Opcode, k: Core, rd: RegIndex, r1: Word, r2: Word)
    requires IsBinary(op) && !op.NOP? && r1 != r2
    ensures var lhs := Telling(op, r1, r2); Alu(op, k, rd, lhs, r1) != Alu(op, k, rd, lhs, r2)
  {
    var lhs := Telling(op, r1, r2);
    var a, b := Alu(op, k, rd, lhs, r1), Alu(op, k, rd, lhs, r2);
    if op.CMP? {
      CompareFlags(lhs, r1);
      CompareFlags(lhs, r2);
      assert a.0.flags.zero != b.0.flags.zero;
    } else if op.DIV? || op.MOD? {
      DivisorsTold(op, k, rd, r1, r2);
    } else {
      assert a.0.gpr[rd] != b.0.gpr[rd] by { ResultsDiffer(op, k, rd, r1, r2); }
    }
  }

  function Uniform(x: Word): Gpr {
    [x, x, x, x, x, x, x, x, x, x, x, x, x, x, x, x]
  }

  /** r15 on the right reads as 0: a state with 1 in every register, or 0 in the left one of an or, shows it. */
  lemma RegisterMisread(op: Opcode, rd: RegIndex)
    requires IsBinary(op) && !op.NOP? && !(op.OR? && rd == 15)
    ensures var k := Core(Uniform(1)[rd := if op.OR? then 0 else 1], 0, NO_FLAGS);
            Alu(op, k, rd, k.gpr[rd], k.gpr[15]) != Alu(op, k, rd, k.gpr[rd], 0)
  {
    var k := Core(Uniform(1)[rd := if op.OR? then 0 else 1], 0, NO_FLAGS);
    var a, b := Alu(op, k, rd, k.gpr[rd], k.gpr[15]), Alu(op, k, rd, k.gpr[rd], 0);
    assert And32(1, 1) == 1 && And32(1, 0) == 0 && Or32(0, 1) == 1 && Or32(0, 0) == 0
               && Xor32(1, 1) == 0 && Xor32(1, 0) == 1;
    assert a.1 != b.1 || a.0.gpr[rd] != b.0.gpr[rd] || a.0.flags.zero != b.0.flags.zero;
  }

  const NO_FLAGS: Flags := Flags(false, false, false, false)

  /** Flags with which a branch is taken. */
  function TakingFlags(op: Opcode): Flags {
    NO_FLAGS.(zero := op.JE?, sign := op.JL? || op.JLE?)
  }

  function Zeros(n: nat): Mem {
    seq(n, _ => 0)
  }

  /** Data that ends after the lower of two addresses can be read or written at that one only. */
  lemma AddressesDiffer(a: Word, b: Word, v: Word)
    requires a != b
    ensures var d := Zeros(4 + if a < b then a else b);
            WordRead(d, a).Some? != WordRead(d, b).Some? && WordWritten(d, a, v).Some? != WordWritten(d, b, v).Some?
  {
  }

  lemma NotSame(i: Instruction, labels: map<string, Word>, symbols: seq<Symbol>, s: Process, capacity: nat)
    requires Proper(i) && Lower(i, labels, symbols).Some?
    requires WordMeaning(Lower(i, labels, symbols).value, s, capacity) != Meaning(i, labels, symbols, s, capacity)
    ensures !SameMeaning(i, labels, symbols)
  {
    var f := Lower(i, labels, symbols).value;
    LoweredDecode(f);
    hide Meaning, Run1, Lower;
    assert Run1(Decode(f.Raw()), s, capacity) != Meaning(i, labels, symbols, s, capacity);
  }

  lemma UnfaithfulLoad(i: Instruction, labels: map<string, Word>, symbols: seq<Symbol>, a: Word)
    requires Proper(i) && Lower(i, labels, symbols).Some? && i.Binary? && i.source.FromMemory?
    requires Find(symbols, i.source.name) == Some(a) && !Reachable(a)
    ensures !SameMeaning(i, labels, symbols)
  {
    var b := Wrap(SignExtend12(ToInt16(a) % 0x1000));
    ReachableOperand(a);
    AddressesDiffer(a, b, 0);
    hide ToInt16, SignExtend12, Find;
    NotSame(i, labels, symbols, Process(Core(Uniform(0), 0, NO_FLAGS), [], Zeros(4 + if a < b then a else b)), 0);
  }

  /** mov has no left operand and cmp no destination; with all registers equal it does not matter which are named. */
  lemma AluRegisters(op: Opcode, k: Core, rd: RegIndex, rhs: Word)
    ensures op.CMP? ==> forall r: RegIndex, lhs: Word :: Alu(op, k, r, lhs, rhs) == Alu(op, k, rd, lhs, rhs)
    ensures op.MOV? ==> forall lhs: Word :: Alu(op, k, rd, lhs, rhs) == Alu(op, k, rd, 0, rhs)
  {
  }

  lemma UnfaithfulNumber(i: Instruction, labels: map<string, Word>, symbols: seq<Symbol>, v: Int16)
    requires Proper(i) && Lower(i, labels, symbols).Some? && i.Binary? && i.source == Immediate(v)
    requires !i.op.NOP? && !Short(v)
    ensures !SameMeaning(i, labels, symbols)
  {
    ShortOperand(v);
    var v2 := Wrap(SignExtend12(v % 0x1000));
    var s := Process(Core(Uniform(Telling(i.op, Wrap(v), v2)), 0, NO_FLAGS), [], []);
    TellsApart(i.op, s.core, i.reg, Wrap(v), v2);
    AluRegisters(i.op, s.core, i.reg, v2);
    hide Telling, SignExtend12, Alu;
    NotSame(i, labels, symbols, s, 0);
  }

  lemma UnfaithfulRegister(i: Instruction, labels: map<string, Word>, symbols: seq<Symbol>)
    requires Proper(i) && Lower(i, labels, symbols).Some? && i.Binary? && i.source == FromRegister(15)
    requires !i.op.NOP? && !(i.op.OR? && i.reg == 15)
    ensures !SameMeaning(i, labels, symbols)
  {
    RegisterMisread(i.op, i.reg);
    var s := Process(Core(Uniform(1)[i.reg := if i.op.OR? then 0 else 1], 0, NO_FLAGS), [], []);
    AluRegisters(i.op, s.core, i.reg, s.core.gpr[15]);
    AluRegisters(i.op, s.core, i.reg, 0);
    assert SignExtend12(0 % 0x1000) == 0;
    hide SignExtend12, Alu;
    NotSame(i, labels, symbols, s, 0);
  }

  lemma UnfaithfulBinary(i: Instruction, labels: map<string, Word>, symbols: seq<Symbol>)
    requires Proper(i) && Lower(i, labels, symbols).Some? && !Faithful(i, labels, symbols) && i.Binary?
    ensures !SameMeaning(i, labels, symbols)
  {
    match i.source {
      case FromMemory(name) => UnfaithfulLoad(i, labels, symbols, Find(symbols, name).value);
      case Immediate(v) => UnfaithfulNumber(i, labels, symbols, v);
      case FromRegister(rs) => UnfaithfulRegister(i, labels, symbols);
    }
  }

  lemma UnfaithfulAddress(i: Instruction, labels: map<string, Word>, symbols: seq<Symbol>)
    requires Proper(i) && Lower(i, labels, symbols).Some? && !Faithful(i, labels, symbols) && (i.Call? || i.Transfer?)
    ensures !SameMeaning(i, labels, symbols)
  {
    var a := PlaceAddress(if i.Call? then i.arg else i.place, symbols).value;
    var b := if i.Call? then CallArgument(SignExtend12(ToInt16(a) % 0x1000))
             else Wrap(SignExtend12(ToInt16(a) % 0x1000));
    ReachableOperand(a);
    CallOperand(a);
    AddressesDiffer(a, b, 0);
    hide ToInt16, SignExtend12, CallArgument, Find;
    NotSame(i, labels, symbols, Process(Core(Uniform(0), 0, NO_FLAGS), [], Zeros(4 + if a < b then a else b)), 0);
  }

  lemma UnfaithfulTarget(i: Instruction, labels: map<string, Word>, symbols: seq<Symbol>)
    requires Proper(i) && Lower(i, labels, symbols).Some? && !Faithful(i, labels, symbols)
    requires !i.Binary? && !i.Call? && !i.Transfer?
    ensures !SameMeaning(i, labels, symbols)
  {
    if i.PushNumber? {
      ShortOperand(i.value);
    } else if i.Branch? || i.PushLabel? {
      ReachableOperand(labels[i.name]);
    }
    assert SignExtend12(0 % 0x1000) == 0;
    var s := Process(Core(Uniform(1), 0, if i.Branch? then TakingFlags(i.op) else NO_FLAGS), [], []);
    hide ToInt16, SignExtend12;
    if i.Branch? {
      assert i.op.JMP? || TakeJump(s.core.flags, i.op);
      assert Meaning(i, labels, symbols, s, 1).process.core.pc == labels[i.name];
    } else {
      assert |Meaning(i, labels, symbols, s, 1).process.stack| == 1;
      assert WordMeaning(Lower(i, labels, symbols).value, s, 1).process.stack[0]
          != Meaning(i, labels, symbols, s, 1).process.stack[0];
    }
    NotSame(i, labels, symbols, s, 1);
  }

  /** An instruction that is not faithful is misread in some state. */
  lemma UnfaithfulMeaning(i: Instruction, labels: map<string, Word>, symbols: seq<Symbol>)
    requires Proper(i) && Lower(i, labels, symbols).Some? && !Faithful(i, labels, symbols)
    ensures !SameMeaning(i, labels, symbols)
  {
    if i.Binary? {
      UnfaithfulBinary(i, labels, symbols);
    } else if i.Call? || i.Transfer? {
      UnfaithfulAddress(i, labels, symbols);
    } else {
      UnfaithfulTarget(i, labels, symbols);
    }
  }

  /** The word of an instruction does what the source says in every state exactly when it is faithful. */
  lemma MeaningExactly(i: Instruction, labels: map<string, Word>, symbols: seq<Symbol>)
    requires Proper(i) && Lower(i, labels, symbols).Some?
    ensures SameMeaning(i, labels, symbols) <==> Faithful(i, labels, symbols)
  {
    if Faithful(i, labels, symbols) {
      forall s: Process, capacity: nat
        ensures Run1(Decode(Lower(i, labels, symbols).value.Raw()), s, capacity)
             == Meaning(i, labels, symbols, s, capacity)
      {
        FaithfulMeaning(i, labels, symbols, s, capacity);
      }
    } else {
      UnfaithfulMeaning(i, labels, symbols);
    }
  }
}
