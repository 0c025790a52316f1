/** What the assembler makes of each line, in plain numbers: the instruction word of every form, the system call behind
    every service name, the bytes of every declaration (src/vm/assembler/parser.cpp). */
module SourceLanguage {
  import opened Words
  import opened Encoding
  import opened Memory
  import opened Syntax
  import opened Assembly
  import opened Machine
  import opened StackMachine
  import opened SourceSemantics
  import opened InstructionSet
  import Lexing
  import Printing

  // ---- Instruction words --------------------------------------------------------------------------------

  /** The fields of an instruction word in their places, the last twelve bits cut from a longer number. */
  function Row(opcode: int, rd: int, rs1: int, rs2: int, imm: int): int {
    opcode * 0x100_0000 + rd * 0x10_0000 + rs1 * 0x1_0000 + rs2 * 0x1000 + imm % 0x1000
  }

  /** The number of a service of that name. */
  const SERVICES: map<string, int> := map["print" := 0, "scan" := 1, "exit" := 2, "yield" := 3, "load" := 4]

  lemma LoweredRow(f: Fields)
    ensures f.Raw() == Row(Code(f.opcode), f.rd, f.rs1, f.rs2, f.imm)
  {
    SmallIndex(f.rd); SmallIndex(f.rs1); SmallIndex(f.rs2);
  }

  lemma ServiceNumbers(name: string)
    ensures ServiceOf(name).Some? <==> name in SERVICES
    ensures name in SERVICES ==> ServiceOf(name).value == SERVICES[name]
  {
  }

  /** Cutting to 16 bits first makes no difference. */
  lemma CutRow(a: int)
    ensures forall opcode: int, rd: int, rs1: int, rs2: int ::
              Row(opcode, rd, rs1, rs2, ToInt16(a)) == Row(opcode, rd, rs1, rs2, a)
  {
    Int16Mod(a);
  }

  lemma CodeZero(op: Opcode)
    requires !op.UNKNOWN?
    ensures (Code(op) == 0 <==> op.MOV?) && (Code(op) == 12 <==> op.CMP?)
  {
  }

  lemma NamedCodes()
    ensures Code(MOV) == 0 && Code(CMP) == 12 && Code(LOAD) == 20 && Code(CALL) == 22
  {
  }

  lemma LastCodes()
    ensures Code(HALT) == 23 && Code(PUSH) == 25 && Code(POP) == 26 && Code(RET) == 27
  {
  }

  /** The address an operand stands for: a number itself, a symbol's offset. */
  function Target(p: Place, symbols: seq<Symbol>): Option<int> {
    match p
    case At(v) => Some(v % 0x1_0000_0000)
    case Cell(name) => (match Find(symbols, name) case None => None case Some(offset) => Some(offset as int))
  }

  lemma TargetIs(p: Place, symbols: seq<Symbol>)
    ensures Target(p, symbols).Some? <==> PlaceAddress(p, symbols).Some?
    ensures PlaceAddress(p, symbols).Some? ==> PlaceAddress(p, symbols).value == Target(p, symbols).value
  {
  }

  /** The word of an instruction: opcode number, three registers, and a number, label or offset cut to twelve bits.
      Register 15 on the right marks a number. */
  function WordOf(i: Instruction, labels: map<string, Word>, symbols: seq<Symbol>): int
    requires Lower(i, labels, symbols).Some?
  {
    var target := match i
      case Call(_, arg) => Target(arg, symbols)
      case Transfer(_, _, place) => Target(place, symbols)
      case _ => None;
    var a := if target.Some? then target.value else 0;
    match i
    case Halt => Row(23, 0, 0, 0, 0)
    case Ret => Row(27, 0, 0, 0, 0)
    case PushRegister(r) => Row(25, r, r, r, 0)
    case PushLabel(name) => Row(25, 0, 0, 15, labels[name])
    case PushNumber(v) => Row(25, 0, 0, 15, v)
    case Pop(r) => Row(26, r, 0, 0, 0)
    case Call(service, _) => Row(22, 0, if service in SERVICES then SERVICES[service] else 0, 0, a)
    case Branch(op, name) => Row(Code(op), 0, 0, 0, labels[name])
    case Unary(op, r) => Row(Code(op), r, 0, 0, 0)
    case Transfer(op, r, _) => Row(Code(op), r, 0, 0, a)
    case Binary(op, rd, source) =>
      match source
      case FromRegister(rs) => Row(Code(op), rd, if Code(op) == 0 then rs else rd, rs, 0)
      case FromMemory(name) => Row(20, rd, 0, 0, Find(symbols, name).value)
      case Immediate(v) => Row(Code(op), if Code(op) == 12 then 0 else rd, if Code(op) == 0 then 0 else rd, 15, v)
  }

  lemma EmittedWord(i: Instruction, labels: map<string, Word>, symbols: seq<Symbol>)
    requires Proper(i) && Lower(i, labels, symbols).Some?
    ensures Lower(i, labels, symbols).value.Raw() == WordOf(i, labels, symbols)
  {
    hide Row, Encode, ToInt16, Code, ServiceOf, Find;
    LoweredRow(Lower(i, labels, symbols).value);
    match i {
      case PushLabel(name) => CutRow(labels[name]);
      case Branch(_, name) => CutRow(labels[name]);
      case Call(service, arg) =>
        ServiceNumbers(service);
        TargetIs(arg, symbols);
        CutRow(PlaceAddress(arg, symbols).value);
      case Transfer(_, _, place) =>
        TargetIs(place, symbols);
        CutRow(PlaceAddress(place, symbols).value);
      case Binary(op, _, source) =>
        CodeZero(op);
        if source.FromMemory? {
          CutRow(Find(symbols, source.name).value);
        }
      case _ =>
    }
    NamedCodes();
    LastCodes();
  }

  // ---- System calls -------------------------------------------------------------------------------------

  /** A call is assembled exactly when it names one of the five services and its argument is known; */
  lemma CallAssembles(name: string, p: Place, labels: map<string, Word>, symbols: seq<Symbol>)
    ensures Lower(Call(name, p), labels, symbols).Some?
       <==> name in {"print", "scan", "exit", "yield", "load"} && Target(p, symbols).Some?
    ensures Lower(Call(name, p), labels, symbols).Some? ==>
              Target(p, symbols).value == PlaceAddress(p, symbols).value
  {
    ServiceNumbers(name);
    TargetIs(p, symbols);
  }

  /** its word has opcode 22 and the service's number as its second register. */
  lemma CallWord(name: string, p: Place, labels: map<string, Word>, symbols: seq<Symbol>)
    requires Lower(Call(name, p), labels, symbols).Some?
    ensures var raw := Lower(Call(name, p), labels, symbols).value.Raw();
            && raw / 0x100_0000 == 22
            && (raw / 0x1_0000) % 16 == (match name
                                         case "print" => 0
                                         case "scan" => 1
                                         case "exit" => 2
                                         case "yield" => 3
                                         case _ => 4)
  {
    hide Encode;
    CallAssembles(name, p, labels, symbols);
    ServiceNumbers(name);
    NamedCodes();
    var f := Lower(Call(name, p), labels, symbols).value;
    LoweredRow(f);
    Unpack(22, 0, f.rs1, 0, f.imm % 0x1000);
  }

  /** The word at an address of the data segment. */
  function Printed(data: Mem, a: int): Option<int> {
    if 0 <= a && a + 4 <= |data| then Some(Spelled(data, a)) else None
  }

  /** A call of service name with address a: exit halts, yield yields, scan and load leave the model, and print prints
      the word at the address or throws. */
  predicate Serves(name: string, a: int, s: Process, r: StackMachine.Result) {
    match name
    case "exit" => r == StackMachine.Result.Result(s.(core := Past(s.core)), Machine.Halt(true), [])
    case "yield" => r == StackMachine.Result.Result(s.(core := Past(s.core)), Yield, [])
    case "print" =>
      (match Printed(s.data, a)
       case None => r == StackMachine.Result.Result(s, Throw, [])
       case Some(v) => r.process == s.(core := Past(s.core)) && r.outcome == Continue && |r.printed| == 1
                       && r.printed[0] == v)
    case _ => r == StackMachine.Result.Result(s, External, [])
  }

  lemma ReadIsPrinted(data: Mem, a: Word)
    ensures match Printed(data, a)
            case None => WordRead(data, a) == None
            case Some(v) => WordRead(data, a).Some? && WordRead(data, a).value == v
  {
    hide Spelled, WordAt;
    if a + 4 <= |data| {
      WordSpelled(data, a);
    }
  }

  /** The call in the source serves its name, with the full address; */
  lemma CallServes(name: string, p: Place, labels: map<string, Word>, symbols: seq<Symbol>, s: Process, capacity: nat)
    requires Lower(Call(name, p), labels, symbols).Some?
    ensures Target(p, symbols).Some?
    ensures Serves(name, Target(p, symbols).value, s, Meaning(Call(name, p), labels, symbols, s, capacity))
  {
    hide Spelled, WordRead, Printed;
    CallAssembles(name, p, labels, symbols);
    ReadIsPrinted(s.data, PlaceAddress(p, symbols).value);
  }

  /** its word does, with the address that is left of its low twelve bits. */
  lemma CallWordServes(name: string, p: Place, labels: map<string, Word>, symbols: seq<Symbol>, s: Process,
                       capacity: nat)
    requires Lower(Call(name, p), labels, symbols).Some?
    ensures Target(p, symbols).Some?
    ensures var low := Target(p, symbols).value % 0x1000;
            Serves(name, if low < 0x800 then low else low + 0xF000, s,
                   Run1(Decode(Lower(Call(name, p), labels, symbols).value.Raw()), s, capacity))
  {
    hide Spelled, WordRead, Printed, Encode, ToInt16, Decode;
    CallAssembles(name, p, labels, symbols);
    var f := Lower(Call(name, p), labels, symbols).value;
    LoweredDecode(f);
    Int16Mod(PlaceAddress(p, symbols).value);
    ReadIsPrinted(s.data, CallArgument(SignExtend12(f.imm % 0x1000)));
  }

  // ---- What the source says -----------------------------------------------------------------------------

  ghost predicate Pushing(v: int, s: Process, capacity: nat, r: StackMachine.Result) {
    if |s.stack| >= capacity then r == StackMachine.Result.Result(s, Error, [])
    else
      && r.outcome == Continue && r.printed == [] && r.process.core == Past(s.core) && r.process.data == s.data
      && |r.process.stack| == |s.stack| + 1 && r.process.stack[0] == v && r.process.stack[1..] == s.stack
  }

  ghost predicate Loading(rd: RegIndex, a: int, s: Process, r: StackMachine.Result) {
    match Printed(s.data, a)
    case None => r == StackMachine.Result.Result(s, Throw, [])
    case Some(v) =>
      && r.outcome == Continue && r.printed == [] && r.process == s.(core := r.process.core)
      && GoesOn(s.core, r.process.core, rd) && r.process.core.flags == s.core.flags && r.process.core.gpr[rd] == v
  }

  ghost predicate Storing(rd: RegIndex, a: int, s: Process, r: StackMachine.Result) {
    match Printed(s.data, a)
    case None => r == StackMachine.Result.Result(s, Throw, [])
    case Some(_) =>
      && r.outcome == Continue && r.printed == [] && r.process == s.(core := Past(s.core), data := r.process.data)
      && Stores(s.data, r.process.data, a, s.core.gpr[rd])
  }

  ghost predicate OnRegisters(op: Opcode, rd: RegIndex, a: nat, b: nat, s: Process, r: StackMachine.Result) {
    && r.printed == [] && r.process == s.(core := r.process.core)
    && Computes(op, s.core, rd, a, b, r.process.core, r.outcome)
  }

  /** What an instruction of the source does, in numbers: sixteen registers alike, numbers in full, and the addresses
      that labels and symbols have. */
  ghost predicate Means(i: Instruction, labels: map<string, Word>, symbols: seq<Symbol>, s: Process, capacity: nat,
                        r: StackMachine.Result)
  {
    var k := s.core;
    match i
    case Halt => r == StackMachine.Result.Result(s, Machine.Halt(false), [])
    case Ret =>
      if s.stack == [] then r == StackMachine.Result.Result(s, Error, [])
      else r == StackMachine.Result.Result(s.(core := k.(pc := s.stack[0]), stack := s.stack[1..]), Jump, [])
    case PushRegister(x) => Pushing(k.gpr[x], s, capacity, r)
    case PushLabel(name) => name in labels && Pushing(labels[name], s, capacity, r)
    case PushNumber(v) => Pushing(v % 0x1_0000_0000, s, capacity, r)
    case Pop(x) =>
      if s.stack == [] then r == StackMachine.Result.Result(s, Error, [])
      else
        && r.outcome == Continue && r.printed == []
        && r.process == s.(core := r.process.core, stack := s.stack[1..])
        && GoesOn(k, r.process.core, x) && r.process.core.flags == k.flags && r.process.core.gpr[x] == s.stack[0]
    case Call(name, place) => Target(place, symbols).Some? && Serves(name, Target(place, symbols).value, s, r)
    case Branch(op, name) =>
      name in labels
      && r == (if Condition(op, k.flags) then StackMachine.Result.Result(s.(core := k.(pc := labels[name])), Jump, [])
               else StackMachine.Result.Result(s.(core := Past(k)), Continue, []))
    case Unary(op, x) => OnRegisters(op, x, 0, 0, s, r)
    case Transfer(op, x, place) =>
      && Target(place, symbols).Some?
      && (if op == LOAD then Loading(x, Target(place, symbols).value, s, r)
          else Storing(x, Target(place, symbols).value, s, r))
    case Binary(op, x, source) =>
      match source
      case FromRegister(y) => OnRegisters(op, x, k.gpr[x], k.gpr[y], s, r)
      case Immediate(v) => OnRegisters(op, x, k.gpr[x], v % 0x1_0000_0000, s, r)
      case FromMemory(name) => Find(symbols, name).Some? && Loading(x, Find(symbols, name).value, s, r)
  }

  lemma LoadMeans(rd: RegIndex, a: Word, s: Process)
    ensures Loading(rd, a, s, LoadMeaning(rd, a, s))
  {
    hide Printed, WordRead;
    ReadIsPrinted(s.data, a);
  }

  lemma StoreMeans(rd: RegIndex, a: Word, s: Process)
    ensures Storing(rd, a, s, StoreMeaning(rd, a, s))
  {
    hide Spelled, Stores, Splice, Bytes;
    if a + 4 <= |s.data| {
      SplicedWord(s.data, a, s.core.gpr[rd]);
    }
  }

  /** The meaning that the loaded words simulate is that one. */
  lemma SourceMeans(i: Instruction, labels: map<string, Word>, symbols: seq<Symbol>, s: Process, capacity: nat)
    requires Proper(i) && Lower(i, labels, symbols).Some?
    ensures Means(i, labels, symbols, s, capacity, Meaning(i, labels, symbols, s, capacity))
  {
    hide Alu, Computes, Branched, Condition, Serves, Loading, Storing, LoadMeaning, StoreMeaning, CallMeaning, Find;
    var k := s.core;
    match i {
      case Branch(op, name) => Branches(op, k, labels[name]);
      case Unary(op, x) => AluComputes(op, k, x, 0, 0);
      case Call(name, place) =>
        CallAssembles(name, place, labels, symbols);
        CallServes(name, place, labels, symbols, s, capacity);
      case Transfer(op, x, place) =>
        TargetIs(place, symbols);
        LoadMeans(x, PlaceAddress(place, symbols).value, s);
        StoreMeans(x, PlaceAddress(place, symbols).value, s);
      case Binary(op, x, source) =>
        match source {
          case FromRegister(y) => AluComputes(op, k, x, k.gpr[x], k.gpr[y]);
          case Immediate(v) => AluComputes(op, k, x, k.gpr[x], Wrap(v));
          case FromMemory(name) => LoadMeans(x, Find(symbols, name).value, s);
        }
      case _ =>
    }
  }

  // ---- Data ---------------------------------------------------------------------------------------------

  lemma ByteOf(v: nat, n: nat, i: nat)
    requires i < n
    ensures Bytes(v, n)[i] == (v / Pow2(8 * i)) % 0x100
  {
    ByteAt(v, n, i);
    LowByte(ShiftRight(v, 8 * i));
  }

  lemma ProductShape(q: int, p: int, r: int)
    ensures q * (p * (0x100 * r)) == ((q * r) * 0x100) * p
  {
    assert q * (p * (0x100 * r)) == (q * p) * (0x100 * r);
    assert (q * p) * (0x100 * r) == ((q * p) * r) * 0x100;
    assert (q * p) * r == (q * r) * p;
  }

  lemma CutAt(v: int, p: nat, rest: nat, m: nat)
    requires p > 0 && m > 0 && m == p * (0x100 * rest)
    ensures ((v % m) / p) % 0x100 == (v / p) % 0x100
  {
    var q, r := v / m, v % m;
    var u := (q * rest) * 0x100;
    assert v == u * p + r by { ProductShape(q, p, rest); }
    assert v == (u + r / p) * p + r % p by {
      Distribute(u, r / p, p);
      assert r == (r / p) * p + r % p;
    }
    Euclid(v, u + r / p, r % p, p);
    ModAbsorb(q * rest, r / p, 0x100);
  }

  /** Cutting a number to n bytes does not change the first n. */
  lemma CutByte(v: int, n: nat, i: nat)
    requires i < n
    ensures ((v % Pow2(8 * n)) / Pow2(8 * i)) % 0x100 == (v / Pow2(8 * i)) % 0x100
  {
    hide Pow2;
    var p, rest := Pow2(8 * i), Pow2(8 * (n - i - 1));
    Pow2Values();
    Pow2Add(8, 8 * (n - i - 1));
    Pow2Add(8 * i, 8 + 8 * (n - i - 1));
    assert 8 * i + (8 + 8 * (n - i - 1)) == 8 * n;
    CutAt(v, p, rest, Pow2(8 * n));
  }

  /** A declaration takes one, two, four or eight bytes, and other statements none, */
  lemma DeclaredSize(ss: seq<Statement>, k: nat)
    requires k < |ss|
    ensures Offset(ss, 0) == 0
    ensures Offset(ss, k + 1) - Offset(ss, k)
         == match ss[k]
            case Declaration(t, _, _) =>
              (match t case ByteType => 1 case DByteType => 2 case WordType => 4 case QWordType => 8)
            case _ => 0
  {
  }

  lemma OffsetStep(ss: seq<Statement>, k: nat)
    requires k < |ss| && ss[k].Declaration?
    ensures Offset(ss, k + 1) == Offset(ss, k) + Size(ss[k].dataType)
  {
  }

  /** and the bytes are those of the two's complement of its value, lowest first, with nothing between or behind
      them. */
  lemma DeclaredBytes(ss: seq<Statement>, k: nat, i: nat)
    requires Assemble(ss).Some? && k < |ss| && ss[k].Declaration? && Offset(ss, k) + i < Offset(ss, k + 1)
    ensures var data := Assemble(ss).value.data;
            && |data| == Offset(ss, |ss|) && Offset(ss, k + 1) <= |data|
            && data[Offset(ss, k) + i] == (ss[k].value / Pow2(8 * i)) % 0x100
  {
    hide Assemble, Data, Offset, Bytes, Pow2, Size;
    var t, v := ss[k].dataType, ss[k].value;
    var data := Assemble(ss).value.data;
    assert Offset(ss, k + 1) == Offset(ss, k) + Size(t) by { OffsetStep(ss, k); }
    AssembleExactly(ss);
    DataImage(ss, |ss|, k);
    ByteOf(v % Pow2(8 * Size(t)), Size(t), i);
    CutByte(v, Size(t), i);
    assert data[Offset(ss, k)..Offset(ss, k) + Size(t)][i] == data[Offset(ss, k) + i];
  }

  // ---- From text to words and bytes ---------------------------------------------------------------------

  /** A text that spells statements which are well-formed assembles to one word for each instruction, at the place where
      it stands among the instructions, with the labels and symbols of the whole program. */
  lemma TextToWords(src: string, ss: seq<Statement>, j: nat)
    requires Printing.IsSourceOf(src, ss) && WellFormed(ss) && j < |ss| && ss[j].Ins?
    ensures AssembleSource(src).Some? && |AssembleSource(src).value.code| == Count(ss, |ss|)
    ensures Count(ss, j) < Count(ss, |ss|) && Lower(ss[j].i, LabelsAt(ss, j), Symbols(ss)).Some?
    ensures AssembleSource(src).value.code[Count(ss, j)] == WordOf(ss[j].i, LabelsAt(ss, j), Symbols(ss))
  {
    hide AssembleSource, Assemble, Lower, Statements, LabelsAt, SymbolsBefore, WellFormed, Data, WordOf;
    hide Printing.IsSourceOf;
    Printing.AssembledExactly(src);
    Printing.SourceExactly(src, ss);
    AssembleExactly(ss);
    GrammarProper(Lexing.Stream(src, 0), NoSection);
    EmittedWord(ss[j].i, LabelsAt(ss, j), Symbols(ss));
  }
}
