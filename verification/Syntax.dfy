/** Statements, and the grammar that Parser::parseProgram and parseInstruction follow
    (src/vm/assembler/parser.cpp). It does not look at labels or symbols, so both passes see the same statements. */
module Syntax {
  import opened Words
  import opened Encoding
  import opened Lexing

  datatype Section = NoSection | DataSection | CodeSection

  datatype DataType = ByteType | DByteType | WordType | QWordType

  /** The memory operand of load, store and call: a symbol in brackets or a plain number. */
  datatype Place = Cell(name: string) | At(value: Int16)

  datatype Source = FromRegister(reg: RegIndex) | FromMemory(name: string) | Immediate(value: Int16)

  datatype Instruction =
    | Halt
    | Ret
    | PushRegister(reg: RegIndex)
    | PushLabel(name: string)
    | PushNumber(value: Int16)
    | Pop(reg: RegIndex)
    | Call(service: string, arg: Place)
    | Branch(op: Opcode, name: string)
    | Unary(op: Opcode, reg: RegIndex)
    | Transfer(op: Opcode, reg: RegIndex, place: Place)
    | Binary(op: Opcode, reg: RegIndex, source: Source)

  datatype Statement =
    | Enter(section: Section)
    | Declaration(dataType: DataType, name: string, value: Int16)
    | Label(name: string)
    | Ins(i: Instruction)

  // ---- Names and numbers --------------------------------------------------------------------------------

  function DataTypeOf(name: string): Option<DataType> {
    if name == "BYTE" then Some(ByteType)
    else if name == "DBYTE" then Some(DByteType)
    else if name == "WORD" then Some(WordType)
    else if name == "QWORD" then Some(QWordType)
    else None
  }

  /** mnemonicToOpcode. `call` is not in the table: it is recognised before the table is used. */
  function Mnemonic(name: string): Option<Opcode> {
    if name == "mov" then Some(MOV) else if name == "add" then Some(ADD) else if name == "sub" then Some(SUB)
    else if name == "mul" then Some(MUL) else if name == "div" then Some(DIV) else if name == "mod" then Some(MOD)
    else if name == "inc" then Some(INC) else if name == "dec" then Some(DEC) else if name == "and" then Some(AND)
    else if name == "or" then Some(OR) else if name == "xor" then Some(XOR) else if name == "not" then Some(NOT)
    else if name == "cmp" then Some(CMP) else if name == "jmp" then Some(JMP) else if name == "je" then Some(JE)
    else if name == "jne" then Some(JNE) else if name == "jg" then Some(JG) else if name == "jge" then Some(JGE)
    else if name == "jl" then Some(JL) else if name == "jle" then Some(JLE) else if name == "load" then Some(LOAD)
    else if name == "store" then Some(STORE) else if name == "push" then Some(PUSH) else if name == "pop" then Some(POP)
    else if name == "ret" then Some(RET) else if name == "halt" then Some(HALT) else if name == "nop" then Some(NOP)
    else None
  }

  predicate IsBranch(op: Opcode) {
    op.JMP? || op.JE? || op.JNE? || op.JG? || op.JGE? || op.JL? || op.JLE?
  }

  predicate IsUnary(op: Opcode) {
    op.INC? || op.DEC? || op.NOT?
  }

  predicate IsTransfer(op: Opcode) {
    op.LOAD? || op.STORE?
  }

  /** The opcodes that reach the two-operand form; nop is one of them. */
  predicate IsBinary(op: Opcode) {
    op.MOV? || op.ADD? || op.SUB? || op.MUL? || op.DIV? || op.MOD? || op.AND? || op.OR? || op.XOR? || op.CMP? || op.NOP?
  }

  function DigitValue(c: char): nat {
    if Digit(c) then c as int - '0' as int else 0
  }

  /** The value of a decimal numeral. */
  function Numeral(text: string): nat {
    if text == [] then 0 else 10 * Numeral(text[..|text| - 1]) + DigitValue(text[|text| - 1])
  }

  const INT64_LIMIT: int := 0x8000_0000_0000_0000

  /** parseNumberToken: std::stol needs a digit and a value in range; the result is cut to 16 bits. */
  function NumberValue(text: string): Option<Int16> {
    var negative := text != [] && text[0] == '-';
    var digits := if negative then text[1..] else text;
    var value := if negative then -(Numeral(digits) as int) else Numeral(digits);
    if digits == [] || !(-INT64_LIMIT <= value < INT64_LIMIT) then None else Some(ToInt16(value))
  }

  /** registerIndexFromName of a token r<digits>. */
  function RegisterIndex(text: string): Option<RegIndex> {
    if |text| < 2 || Numeral(text[1..]) >= 16 then None else Some(Numeral(text[1..]))
  }

  // ---- The grammar --------------------------------------------------------------------------------------

  datatype Parsed<+T> = Failed | Got(value: T, rest: seq<Lexeme>)
  {
    predicate IsFailure() { Failed? }

    function PropagateFailure<U>(): Parsed<U>
      requires Failed?
    {
      Failed
    }

    function Extract(): (T, seq<Lexeme>)
      requires Got?
    {
      (value, rest)
    }
  }

  function TakeIdentifier(toks: seq<Lexeme>): (r: Parsed<string>)
    ensures r.Got? ==> |r.rest| < |toks|
  {
    if First(toks).Identifier? then Got(toks[0].text, toks[1..]) else Failed
  }

  function TakeRegister(toks: seq<Lexeme>): (r: Parsed<RegIndex>)
    ensures r.Got? ==> |r.rest| < |toks|
  {
    if First(toks).Register? then
      match RegisterIndex(toks[0].text)
      case None => Failed
      case Some(r) => Got(r, toks[1..])
    else Failed
  }

  function TakeNumber(toks: seq<Lexeme>): (r: Parsed<Int16>)
    ensures r.Got? ==> |r.rest| < |toks|
  {
    if First(toks).Number? then
      match NumberValue(toks[0].text)
      case None => Failed
      case Some(v) => Got(v, toks[1..])
    else Failed
  }

  /** A token without text. */
  function Take(toks: seq<Lexeme>, x: Lexeme): (r: Parsed<Lexeme>)
    requires !x.End?
    ensures r.Got? ==> |r.rest| < |toks|
  {
    if First(toks) == x then Got(x, toks[1..]) else Failed
  }

  function CellAt(toks: seq<Lexeme>): (r: Parsed<string>)
    ensures r.Got? ==> |r.rest| < |toks|
  {
    var (_, t0) :- Take(toks, LBracket);
    var (name, t1) :- TakeIdentifier(t0);
    var (_, t2) :- Take(t1, RBracket);
    Got(name, t2)
  }

  function PlaceAt(toks: seq<Lexeme>): (r: Parsed<Place>)
    ensures r.Got? ==> |r.rest| < |toks|
  {
    if First(toks).LBracket? then
      var (name, t) :- CellAt(toks);
      Got(Cell(name), t)
    else
      var (v, t) :- TakeNumber(toks);
      Got(At(v), t)
  }

  function SourceAt(toks: seq<Lexeme>): (r: Parsed<Source>)
    ensures r.Got? ==> |r.rest| < |toks|
  {
    if First(toks).Register? then
      var (r, t) :- TakeRegister(toks);
      Got(FromRegister(r), t)
    else if First(toks).LBracket? then
      var (name, t) :- CellAt(toks);
      Got(FromMemory(name), t)
    else
      var (v, t) :- TakeNumber(toks);
      Got(Immediate(v), t)
  }

  function PushAt(toks: seq<Lexeme>): (r: Parsed<Instruction>)
    ensures r.Got? ==> |r.rest| < |toks|
  {
    if First(toks).Register? then
      var (r, t) :- TakeRegister(toks);
      Got(PushRegister(r), t)
    else if First(toks).Identifier? then
      Got(PushLabel(toks[0].text), toks[1..])
    else
      var (v, t) :- TakeNumber(toks);
      Got(PushNumber(v), t)
  }

  function TransferAt(op: Opcode, rd: RegIndex, toks: seq<Lexeme>): (r: Parsed<Instruction>)
    ensures r.Got? ==> |r.rest| < |toks|
  {
    var (p, t) :- PlaceAt(toks);
    Got(Transfer(op, rd, p), t)
  }

  function BinaryAt(op: Opcode, rd: RegIndex, toks: seq<Lexeme>): (r: Parsed<Instruction>)
    ensures r.Got? ==> |r.rest| < |toks|
  {
    var (s, t) :- SourceAt(toks);
    Got(Binary(op, rd, s), t)
  }

  /** The operands of an opcode of the table. */
  function OperandsAt(op: Opcode, toks: seq<Lexeme>): (r: Parsed<Instruction>)
    ensures r.Got? ==> |r.rest| < |toks|
  {
    if IsBranch(op) then
      var (name, t) :- TakeIdentifier(toks);
      Got(Branch(op, name), t)
    else
      var (rd, t0) :- TakeRegister(toks);
      if IsUnary(op) then Got(Unary(op, rd), t0)
      else
        var (_, t1) :- Take(t0, Comma);
        if IsTransfer(op) then TransferAt(op, rd, t1) else BinaryAt(op, rd, t1)
  }

  function CallAt(toks: seq<Lexeme>): (r: Parsed<Instruction>)
    ensures r.Got? ==> |r.rest| < |toks|
  {
    var (service, t0) :- TakeIdentifier(toks);
    var (_, t1) :- Take(t0, Comma);
    var (p, t2) :- PlaceAt(t1);
    Got(Call(service, p), t2)
  }

  function InstructionAt(toks: seq<Lexeme>): (r: Parsed<Instruction>)
    ensures r.Got? ==> |r.rest| < |toks|
  {
    var (name, t) :- TakeIdentifier(toks);
    if name == "halt" then Got(Halt, t)
    else if name == "ret" then Got(Ret, t)
    else if name == "push" then PushAt(t)
    else if name == "pop" then
      var (r, t0) :- TakeRegister(t);
      Got(Pop(r), t0)
    else if name == "call" then CallAt(t)
    else
      match Mnemonic(name)
      case None => Failed
      case Some(op) => OperandsAt(op, t)
  }

  function DeclarationAt(toks: seq<Lexeme>): (r: Parsed<Statement>)
    ensures r.Got? ==> |r.rest| < |toks|
  {
    var (typeName, t0) :- TakeIdentifier(toks);
    match DataTypeOf(typeName)
    case None => Failed
    case Some(dataType) =>
      var (name, t1) :- TakeIdentifier(t0);
      var (value, t2) :- TakeNumber(t1);
      Got(Declaration(dataType, name, value), t2)
  }

  function EnterAt(section: Section, toks: seq<Lexeme>): (r: Parsed<Statement>)
    ensures r.Got? ==> |r.rest| < |toks|
  {
    var (_, t) :- Take(toks, Colon);
    Got(Enter(section), t)
  }

  function InsAt(toks: seq<Lexeme>): (r: Parsed<Statement>)
    ensures r.Got? ==> |r.rest| < |toks|
  {
    var (i, t) :- InstructionAt(toks);
    Got(Ins(i), t)
  }

  /** A label, or else an instruction: the token after an identifier is looked at first. */
  function CodeAt(toks: seq<Lexeme>): (r: Parsed<Statement>)
    ensures r.Got? ==> |r.rest| < |toks|
  {
    if First(toks).Identifier? && First(toks[1..]).Colon? then Got(Label(toks[0].text), toks[2..])
    else if First(toks).Identifier? && First(toks[1..]).Bad? then Failed
    else InsAt(toks)
  }

  /** DATA and CODE are looked for in every section, before labels and mnemonics. */
  function StatementAt(toks: seq<Lexeme>, section: Section): (r: Parsed<Statement>)
    ensures r.Got? ==> |r.rest| < |toks|
  {
    if First(toks) == Identifier("DATA") then EnterAt(DataSection, toks[1..])
    else if First(toks) == Identifier("CODE") then EnterAt(CodeSection, toks[1..])
    else
      match section
      case NoSection => Failed
      case DataSection => DeclarationAt(toks)
      case CodeSection => CodeAt(toks)
  }

  function SkipNewlines(toks: seq<Lexeme>): (rest: seq<Lexeme>)
    ensures |rest| <= |toks| && !First(rest).Newline?
  {
    if First(toks).Newline? then SkipNewlines(toks[1..]) else toks
  }

  function SectionAfter(section: Section, s: Statement): Section {
    if s.Enter? then s.section else section
  }

  /** A whole program; every statement consumes at least one token, so this ends on every source. */
  function Statements(toks: seq<Lexeme>, section: Section): (r: Option<seq<Statement>>)
    ensures r.Some? ==> |r.value| <= |toks|
    decreases |toks|
  {
    var t := SkipNewlines(toks);
    if t == [] then Some([])
    else
      match StatementAt(t, section)
      case Failed => None
      case Got(s, rest) =>
        match Statements(rest, SectionAfter(section, s))
        case None => None
        case Some(ss) => Some([s] + ss)
  }

  /** The opcodes are those of the instruction's form. */
  predicate Proper(i: Instruction) {
    && (i.Branch? ==> IsBranch(i.op)) && (i.Unary? ==> IsUnary(i.op))
    && (i.Transfer? ==> IsTransfer(i.op)) && (i.Binary? ==> IsBinary(i.op))
  }

  lemma MnemonicForms(name: string)
    ensures Mnemonic(name).Some? && name != "halt" && name != "ret" && name != "push" && name != "pop" ==>
              var op := Mnemonic(name).value; IsBranch(op) || IsUnary(op) || IsTransfer(op) || IsBinary(op)
  {
  }

  lemma StatementProper(toks: seq<Lexeme>, section: Section)
    requires toks != [] && StatementAt(toks, section).Got?
    ensures StatementAt(toks, section).value.Ins? ==> Proper(StatementAt(toks, section).value.i)
  {
    hide TakeRegister, TakeNumber, SourceAt, PlaceAt, Mnemonic;
    if toks[0].Identifier? {
      MnemonicForms(toks[0].text);
    }
  }

  /** The grammar gives no other instructions. */
  lemma {:induction false} GrammarProper(toks: seq<Lexeme>, section: Section)
    requires Statements(toks, section).Some?
    ensures forall s :: s in Statements(toks, section).value && s.Ins? ==> Proper(s.i)
    decreases |toks|
  {
    var t := SkipNewlines(toks);
    if t == [] {
    } else {
      StatementProper(t, section);
      hide StatementAt, Proper;
      var p := StatementAt(t, section);
      GrammarProper(p.rest, SectionAfter(section, p.value));
    }
  }
}
