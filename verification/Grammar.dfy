/** The language the parser accepts, said without a parser: which tokens spell which statement. The recursive-descent
    functions accept exactly these token lists (src/vm/assembler/parser.cpp, docs/ISA.md). */
module Grammar {
  import opened Words
  import opened Encoding
  import opened Lexing
  import opened Syntax

  /** The mnemonics in the order of their opcode bytes. */
  const NAMES: seq<string> := ["mov", "add", "sub", "mul", "div", "mod", "inc", "dec", "and", "or", "xor", "not", "cmp",
                               "jmp", "je", "jne", "jg", "jge", "jl", "jle", "load", "store", "call", "halt", "nop",
                               "push", "pop", "ret"]

  /** x is the mnemonic of an opcode whose byte is between lo and hi. */
  predicate Names(x: Lexeme, op: Opcode, lo: nat, hi: nat) {
    x.Identifier? && !op.UNKNOWN? && lo <= Code(op) <= hi && hi < 28 && x.text == NAMES[Code(op)]
  }

  predicate IsRegister(x: Lexeme, r: RegIndex) {
    x.Register? && |x.text| >= 2 && Numeral(x.text[1..]) == r
  }

  predicate IsNumber(x: Lexeme, v: Int16) {
    x.Number? && NumberValue(x.text) == Some(v)
  }

  predicate IsPlace(toks: seq<Lexeme>, p: Place) {
    match p
    case Cell(name) => toks == [LBracket, Identifier(name), RBracket]
    case At(v) => |toks| == 1 && IsNumber(toks[0], v)
  }

  predicate IsSource(toks: seq<Lexeme>, s: Source) {
    match s
    case FromRegister(r) => |toks| == 1 && IsRegister(toks[0], r)
    case FromMemory(name) => toks == [LBracket, Identifier(name), RBracket]
    case Immediate(v) => |toks| == 1 && IsNumber(toks[0], v)
  }

  /** The tokens of one instruction. */
  predicate IsInstruction(toks: seq<Lexeme>, i: Instruction) {
    match i
    case Halt => toks == [Identifier("halt")]
    case Ret => toks == [Identifier("ret")]
    case PushRegister(r) => |toks| == 2 && toks[0] == Identifier("push") && IsRegister(toks[1], r)
    case PushLabel(name) => toks == [Identifier("push"), Identifier(name)]
    case PushNumber(v) => |toks| == 2 && toks[0] == Identifier("push") && IsNumber(toks[1], v)
    case Pop(r) => |toks| == 2 && toks[0] == Identifier("pop") && IsRegister(toks[1], r)
    case Call(service, p) =>
      |toks| > 3 && toks[..3] == [Identifier("call"), Identifier(service), Comma] && IsPlace(toks[3..], p)
    case Branch(op, name) => |toks| == 2 && Names(toks[0], op, 13, 19) && toks[1] == Identifier(name)
    case Unary(op, r) =>
      |toks| == 2 && (Names(toks[0], op, 6, 7) || Names(toks[0], op, 11, 11)) && IsRegister(toks[1], r)
    case Transfer(op, r, p) =>
      |toks| > 3 && Names(toks[0], op, 20, 21) && IsRegister(toks[1], r) && toks[2] == Comma && IsPlace(toks[3..], p)
    case Binary(op, r, s) =>
      && |toks| > 3 && IsRegister(toks[1], r) && toks[2] == Comma && IsSource(toks[3..], s)
      && (Names(toks[0], op, 0, 5) || Names(toks[0], op, 8, 10) || Names(toks[0], op, 12, 12)
          || Names(toks[0], op, 24, 24))
  }

  function TypeName(t: DataType): string {
    match t case ByteType => "BYTE" case DByteType => "DBYTE" case WordType => "WORD" case QWordType => "QWORD"
  }

  /** The tokens of one statement of a section. */
  predicate IsStatement(toks: seq<Lexeme>, section: Section, s: Statement) {
    match s
    case Enter(to) =>
      || (to == DataSection && toks == [Identifier("DATA"), Colon])
      || (to == CodeSection && toks == [Identifier("CODE"), Colon])
    case Declaration(t, name, v) =>
      && section == DataSection && |toks| == 3
      && toks[..2] == [Identifier(TypeName(t)), Identifier(name)] && IsNumber(toks[2], v)
    case Label(name) => section == CodeSection && name !in {"DATA", "CODE"} && toks == [Identifier(name), Colon]
    case Ins(i) => section == CodeSection && IsInstruction(toks, i)
  }

  predicate LineEnds(toks: seq<Lexeme>) {
    forall k :: 0 <= k < |toks| ==> toks[k].Newline?
  }

  /** The tokens of a program: its statements one after the other, with any number of line ends around each. */
  ghost predicate IsProgram(toks: seq<Lexeme>, section: Section, ss: seq<Statement>)
    decreases |ss|
  {
    if ss == [] then LineEnds(toks)
    else
      exists m, n :: 0 <= m <= n <= |toks| && LineEnds(toks[..m]) && IsStatement(toks[m..n], section, ss[0])
                     && IsProgram(toks[n..], SectionAfter(section, ss[0]), ss[1..])
  }

  // ---- Numbers ------------------------------------------------------------------------------------------

  function Ten(n: nat): nat {
    if n == 0 then 1 else 10 * Ten(n - 1)
  }

  /** Numerals are positional, to base ten, */
  lemma {:induction false} NumeralSplit(a: string, b: string)
    ensures Numeral(a + b) == Numeral(a) * Ten(|b|) + Numeral(b)
    decreases |b|
  {
    if b == [] {
      assert a + b == a;
    } else {
      var c := b[..|b| - 1];
      assert (a + b)[..|a + b| - 1] == a + c;
      NumeralSplit(a, c);
      MulScale(Numeral(a), 10, Ten(|c|));
    }
  }

  /** and the ten digits have their values. */
  lemma NumeralDigit(k: nat)
    requires k < 10
    ensures Numeral(["0123456789"[k]]) == k
  {
    var text := ["0123456789"[k]];
    assert Numeral(text[..0]) == 0;
  }

  lemma Cut16(x: int)
    ensures (ToInt16(x) - x) % 0x1_0000 == 0
  {
    var q := x / 0x1_0000;
    assert x == q * 0x1_0000 + x % 0x1_0000;
    var k := if x % 0x1_0000 >= 0x8000 then -q - 1 else -q;
    Euclid(ToInt16(x) - x, k, 0, 0x1_0000);
  }

  lemma Unsigned(digits: string)
    requires digits != [] ==> digits[0] != '-'
    ensures NumberValue(digits)
         == if digits == [] || Numeral(digits) >= 0x8000_0000_0000_0000 then None else Some(ToInt16(Numeral(digits)))
  {
    hide Numeral, ToInt16;
  }

  lemma Minus(digits: string)
    ensures NumberValue("-" + digits)
         == if digits == [] || Numeral(digits) > 0x8000_0000_0000_0000 then None
            else Some(ToInt16(-(Numeral(digits) as int)))
  {
    hide Numeral, ToInt16;
    assert ("-" + digits)[1..] == digits;
  }

  /** A number token needs a digit and a value of 64 bits, of which the low 16 are kept, as a signed number. */
  lemma NumberRead(digits: string)
    requires forall i :: 0 <= i < |digits| ==> '0' <= digits[i] <= '9'
    ensures var n: int, plus, minus := Numeral(digits), NumberValue(digits), NumberValue("-" + digits);
            && (plus.Some? <==> digits != [] && n < 0x8000_0000_0000_0000)
            && (minus.Some? <==> digits != [] && n <= 0x8000_0000_0000_0000)
            && (plus.Some? ==> (plus.value as int - n) % 0x1_0000 == 0)
            && (minus.Some? ==> (minus.value as int + n) % 0x1_0000 == 0)
  {
    hide Numeral, ToInt16, NumberValue;
    var n: int := Numeral(digits);
    Unsigned(digits);
    Minus(digits);
    Cut16(n);
    Cut16(-n);
  }

  // ---- Mnemonics ----------------------------------------------------------------------------------------

  lemma NameOfMnemonic(x: string)
    requires Mnemonic(x).Some?
    ensures var op := Mnemonic(x).value; Code(op) < 28 && Code(op) != 22 && NAMES[Code(op)] == x && !op.UNKNOWN?
  {
    var op := Mnemonic(x).value;
    if Code(op) < 7 {
    } else if Code(op) < 14 {
    } else if Code(op) < 21 {
    }
  }

  lemma ArithmeticNames(op: Opcode)
    requires Code(op) < 6 && !op.UNKNOWN?
    ensures Mnemonic(NAMES[Code(op)]) == Some(op)
  {
  }

  lemma LogicNames(op: Opcode)
    requires 6 <= Code(op) < 11 && !op.UNKNOWN?
    ensures Mnemonic(NAMES[Code(op)]) == Some(op)
  {
  }

  lemma FirstJumpNames(op: Opcode)
    requires 11 <= Code(op) < 16 && !op.UNKNOWN?
    ensures Mnemonic(NAMES[Code(op)]) == Some(op)
  {
  }

  lemma LastJumpNames(op: Opcode)
    requires 16 <= Code(op) < 20 && !op.UNKNOWN?
    ensures Mnemonic(NAMES[Code(op)]) == Some(op)
  {
  }

  lemma LateNames(op: Opcode)
    requires 20 <= Code(op) < 28 && Code(op) != 22 && !op.UNKNOWN?
    ensures Mnemonic(NAMES[Code(op)]) == Some(op)
  {
  }

  /** Mnemonic byte 22, call, is in no table; the other 27 names stand for the opcodes of their numbers. */
  lemma MnemonicExactly(x: Lexeme, op: Opcode)
    requires x.Identifier?
    ensures Mnemonic(x.text) == Some(op) <==> Names(x, op, 0, 21) || Names(x, op, 23, 27)
  {
    hide Mnemonic;
    if Mnemonic(x.text) == Some(op) {
      NameOfMnemonic(x.text);
    }
    if op.UNKNOWN? || Code(op) == 22 {
    } else if Code(op) < 6 {
      ArithmeticNames(op);
    } else if Code(op) < 11 {
      LogicNames(op);
    } else if Code(op) < 16 {
      FirstJumpNames(op);
    } else if Code(op) < 20 {
      LastJumpNames(op);
    } else {
      LateNames(op);
    }
  }

  // ---- Instructions -------------------------------------------------------------------------------------

  lemma RegisterExactly(toks: seq<Lexeme>, r: RegIndex, n: nat)
    requires n <= |toks|
    ensures TakeRegister(toks) == Got(r, toks[n..]) <==> n == 1 && IsRegister(toks[0], r)
  {
  }

  lemma NumberExactly(toks: seq<Lexeme>, v: Int16, n: nat)
    requires n <= |toks|
    ensures TakeNumber(toks) == Got(v, toks[n..]) <==> n == 1 && IsNumber(toks[0], v)
  {
    hide NumberValue;
  }

  lemma OneNumber(toks: seq<Lexeme>)
    ensures TakeNumber(toks).Got? ==> toks != [] && TakeNumber(toks).rest == toks[1..]
  {
    hide NumberValue;
  }

  lemma CellExactly(toks: seq<Lexeme>, name: string, n: nat)
    requires n <= |toks|
    ensures CellAt(toks) == Got(name, toks[n..]) <==> toks[..n] == [LBracket, Identifier(name), RBracket]
  {
    if CellAt(toks).Got? {
      assert toks[1..][1..][1..] == toks[3..];
    }
    if toks[..n] == [LBracket, Identifier(name), RBracket] {
      assert toks[1] == toks[..n][1] && toks[2] == toks[..n][2];
    }
  }

  lemma PlaceExactly(toks: seq<Lexeme>, p: Place, n: nat)
    requires n <= |toks|
    ensures PlaceAt(toks) == Got(p, toks[n..]) <==> IsPlace(toks[..n], p)
  {
    hide CellAt, TakeNumber;
    match p {
      case Cell(name) => CellExactly(toks, name, n);
      case At(v) => NumberExactly(toks, v, n);
    }
  }

  lemma SourceExactly(toks: seq<Lexeme>, s: Source, n: nat)
    requires n <= |toks|
    ensures SourceAt(toks) == Got(s, toks[n..]) <==> IsSource(toks[..n], s)
  {
    hide CellAt, TakeNumber, TakeRegister;
    match s {
      case FromRegister(r) => RegisterExactly(toks, r, n);
      case FromMemory(name) => CellExactly(toks, name, n);
      case Immediate(v) => NumberExactly(toks, v, n);
    }
  }

  /** The tokens after the mnemonic of an opcode of the table. */
  predicate IsOperands(op: Opcode, toks: seq<Lexeme>, i: Instruction) {
    match i
    case Branch(o, name) => o == op && IsBranch(op) && toks == [Identifier(name)]
    case Unary(o, r) => o == op && IsUnary(op) && |toks| == 1 && IsRegister(toks[0], r)
    case Transfer(o, r, p) =>
      o == op && IsTransfer(op) && |toks| > 2 && IsRegister(toks[0], r) && toks[1] == Comma && IsPlace(toks[2..], p)
    case Binary(o, r, s) =>
      && o == op && !IsBranch(op) && !IsUnary(op) && !IsTransfer(op)
      && |toks| > 2 && IsRegister(toks[0], r) && toks[1] == Comma && IsSource(toks[2..], s)
    case _ => false
  }

  lemma Tails(toks: seq<Lexeme>, k: nat, n: nat)
    requires k <= n <= |toks|
    ensures toks[k..][n - k..] == toks[n..] && toks[k..][..n - k] == toks[..n][k..]
  {
  }

  lemma TransferExactly(op: Opcode, r: RegIndex, toks: seq<Lexeme>, i: Instruction, n: nat)
    requires n <= |toks|
    ensures TransferAt(op, r, toks) == Got(i, toks[n..])
       <==> i.Transfer? && i.op == op && i.reg == r && IsPlace(toks[..n], i.place)
  {
    hide PlaceAt, IsPlace;
    if i.Transfer? {
      PlaceExactly(toks, i.place, n);
    }
  }

  lemma BinaryExactly(op: Opcode, r: RegIndex, toks: seq<Lexeme>, i: Instruction, n: nat)
    requires n <= |toks|
    ensures BinaryAt(op, r, toks) == Got(i, toks[n..])
       <==> i.Binary? && i.op == op && i.reg == r && IsSource(toks[..n], i.source)
  {
    hide SourceAt, IsSource;
    if i.Binary? {
      SourceExactly(toks, i.source, n);
    }
  }

  /** The two-operand forms begin with a register and a comma. */
  lemma TwoOperands(op: Opcode, toks: seq<Lexeme>)
    requires !IsBranch(op) && !IsUnary(op)
    ensures OperandsAt(op, toks)
         == if |toks| >= 2 && TakeRegister(toks).Got? && toks[1] == Comma
            then
              var rd := TakeRegister(toks).value;
              if IsTransfer(op) then TransferAt(op, rd, toks[2..]) else BinaryAt(op, rd, toks[2..])
            else Failed
  {
    hide RegisterIndex, TransferAt, BinaryAt;
    if |toks| >= 2 {
      assert toks[1..][1..] == toks[2..];
    }
  }

  lemma OneRegister(toks: seq<Lexeme>, r: RegIndex)
    requires toks != []
    ensures TakeRegister(toks).Got? ==> TakeRegister(toks).rest == toks[1..]
    ensures TakeRegister(toks).Got? && TakeRegister(toks).value == r <==> IsRegister(toks[0], r)
  {
    hide Numeral;
  }

  lemma TwoOperandsExactly(op: Opcode, toks: seq<Lexeme>, i: Instruction, n: nat)
    requires n <= |toks| && !IsBranch(op) && !IsUnary(op)
    ensures OperandsAt(op, toks) == Got(i, toks[n..])
       <==> && n >= 2 && (i.Transfer? || i.Binary?) && i.op == op && IsRegister(toks[0], i.reg) && toks[1] == Comma
            && (if IsTransfer(op) then i.Transfer? && IsPlace(toks[2..n], i.place)
                else i.Binary? && IsSource(toks[2..n], i.source))
  {
    hide TakeRegister, IsRegister, TransferAt, BinaryAt, IsPlace, IsSource, OperandsAt, IsBranch, IsUnary, IsTransfer;
    TwoOperands(op, toks);
    if |toks| >= 2 && n >= 2 && TakeRegister(toks).Got? {
      var r := TakeRegister(toks).value;
      OneRegister(toks, r);
      Tails(toks, 2, n);
      TransferExactly(op, r, toks[2..], i, n - 2);
      BinaryExactly(op, r, toks[2..], i, n - 2);
    }
    if |toks| >= 2 && (i.Transfer? || i.Binary?) {
      OneRegister(toks, i.reg);
    }
  }

  lemma OneOperandExactly(op: Opcode, toks: seq<Lexeme>, i: Instruction, n: nat)
    requires n <= |toks| && (IsBranch(op) || IsUnary(op))
    ensures OperandsAt(op, toks) == Got(i, toks[n..]) <==> IsOperands(op, toks[..n], i)
  {
    hide TakeRegister, IsRegister, IsPlace, IsSource;
    if i.Unary? && toks != [] {
      OneRegister(toks, i.reg);
    }
    assert i.Branch? ==> (toks[..n] == [Identifier(i.name)] <==> n == 1 && toks[0] == Identifier(i.name));
  }

  lemma OperandsExactly(op: Opcode, toks: seq<Lexeme>, i: Instruction, n: nat)
    requires n <= |toks|
    ensures OperandsAt(op, toks) == Got(i, toks[n..]) <==> IsOperands(op, toks[..n], i)
  {
    hide OperandsAt, IsRegister, IsNumber;
    if IsBranch(op) || IsUnary(op) {
      OneOperandExactly(op, toks, i, n);
    } else {
      TwoOperandsExactly(op, toks, i, n);
      assert n >= 2 ==> toks[..n][2..] == toks[2..n];
    }
  }

  lemma PushExactly(toks: seq<Lexeme>, i: Instruction, n: nat)
    requires n <= |toks|
    ensures PushAt(toks) == Got(i, toks[n..])
       <==> && n == 1
            && match i
               case PushRegister(r) => IsRegister(toks[0], r)
               case PushLabel(name) => toks[0] == Identifier(name)
               case PushNumber(v) => IsNumber(toks[0], v)
               case _ => false
  {
    hide RegisterIndex, NumberValue, IsRegister;
    if i.PushRegister? {
      RegisterExactly(toks, i.reg, n);
    }
  }

  lemma CallExactly(toks: seq<Lexeme>, i: Instruction, n: nat)
    requires n <= |toks|
    ensures CallAt(toks) == Got(i, toks[n..])
       <==> && i.Call? && n > 2 && toks[0] == Identifier(i.service) && toks[1] == Comma
            && IsPlace(toks[2..n], i.arg)
  {
    hide PlaceAt, IsPlace;
    if |toks| >= 2 {
      assert toks[1..][1..] == toks[2..];
      if i.Call? && n >= 2 {
        Tails(toks, 2, n);
        PlaceExactly(toks[2..], i.arg, n - 2);
      }
    }
  }

  /** The forms whose opcode is in the table. */
  predicate InTable(i: Instruction) {
    i.Branch? || i.Unary? || i.Transfer? || i.Binary?
  }

  lemma CodeClasses(op: Opcode)
    requires !op.UNKNOWN?
    ensures IsBranch(op) <==> 13 <= Code(op) <= 19
    ensures IsUnary(op) <==> 6 <= Code(op) <= 7 || Code(op) == 11
    ensures IsTransfer(op) <==> 20 <= Code(op) <= 21
    ensures IsBinary(op) <==> Code(op) <= 5 || 8 <= Code(op) <= 10 || Code(op) == 12 || Code(op) == 24
  {
  }

  const KEYWORDS: set<string> := {"halt", "ret", "push", "pop", "call"}

  lemma KeywordCodes(x: Lexeme, op: Opcode)
    requires Names(x, op, 0, 27)
    ensures x.text in KEYWORDS <==> Code(op) in {22, 23, 25, 26, 27}
  {
  }

  /** A mnemonic that is no keyword stands for one opcode, of a form in the table. */
  lemma TableOpcode(x: Lexeme, op: Opcode)
    requires x.Identifier? && x.text !in KEYWORDS && Mnemonic(x.text) == Some(op)
    ensures Names(x, op, 0, 21) || Names(x, op, 24, 24)
    ensures IsBranch(op) || IsUnary(op) || IsTransfer(op) || IsBinary(op)
    ensures forall other, lo: nat, hi: nat {:trigger Names(x, other, lo, hi)} ::
              Names(x, other, lo, hi) && (hi < 22 || lo == 24 == hi) ==> other == op
  {
    hide Mnemonic, Code, NAMES, KEYWORDS, IsBranch, IsUnary, IsTransfer, IsBinary;
    MnemonicExactly(x, op);
    KeywordCodes(x, op);
    CodeClasses(op);
    forall other, lo: nat, hi: nat | Names(x, other, lo, hi) && (hi < 22 || lo == 24 == hi)
      ensures other == op
    {
      MnemonicExactly(x, other);
    }
  }

  lemma OneOperandForms(toks: seq<Lexeme>, op: Opcode, i: Instruction)
    requires toks != [] && toks[0].Identifier? && toks[0].text !in KEYWORDS && Mnemonic(toks[0].text) == Some(op)
    requires i.Branch? || i.Unary?
    ensures IsOperands(op, toks[1..], i) <==> IsInstruction(toks, i)
  {
    hide Mnemonic, IsRegister, Code, IsBranch, IsUnary, IsTransfer, IsBinary, NAMES, KEYWORDS;
    TableOpcode(toks[0], op);
    CodeClasses(op);
  }

  lemma TwoOperandForms(toks: seq<Lexeme>, op: Opcode, i: Instruction)
    requires toks != [] && toks[0].Identifier? && toks[0].text !in KEYWORDS && Mnemonic(toks[0].text) == Some(op)
    requires i.Transfer? || i.Binary?
    ensures IsOperands(op, toks[1..], i) <==> IsInstruction(toks, i)
  {
    hide Mnemonic, IsRegister, IsPlace, IsSource, Code, IsBranch, IsUnary, IsTransfer, IsBinary, NAMES, KEYWORDS;
    TableOpcode(toks[0], op);
    CodeClasses(op);
    assert |toks| > 2 ==> toks[1..][2..] == toks[3..];
  }

  lemma TableForms(toks: seq<Lexeme>, op: Opcode, i: Instruction)
    requires toks != [] && toks[0].Identifier? && toks[0].text !in KEYWORDS && Mnemonic(toks[0].text) == Some(op)
    ensures IsOperands(op, toks[1..], i) <==> IsInstruction(toks, i) && InTable(i)
  {
    if i.Branch? || i.Unary? {
      hide IsOperands, IsInstruction;
      OneOperandForms(toks, op, i);
    } else if i.Transfer? || i.Binary? {
      hide IsOperands, IsInstruction;
      TwoOperandForms(toks, op, i);
    } else {
      hide IsInstruction;
    }
  }

  lemma TableExactly(toks: seq<Lexeme>, i: Instruction, n: nat)
    requires 0 < n <= |toks| && toks[0].Identifier? && toks[0].text !in KEYWORDS
    ensures Mnemonic(toks[0].text).Some? && OperandsAt(Mnemonic(toks[0].text).value, toks[1..]) == Got(i, toks[n..])
       <==> IsInstruction(toks[..n], i) && InTable(i)
  {
    hide Mnemonic, OperandsAt, IsOperands, IsRegister, IsPlace, IsSource, Code, NAMES, KEYWORDS;
    Tails(toks, 1, n);
    if Mnemonic(toks[0].text).Some? {
      var op := Mnemonic(toks[0].text).value;
      OperandsExactly(op, toks[1..], i, n - 1);
      TableForms(toks[..n], op, i);
    } else if InTable(i) {
      MnemonicExactly(toks[0], i.op);
    }
  }

  lemma KeywordHead(toks: seq<Lexeme>, i: Instruction)
    requires toks != [] && toks[0].Identifier? && toks[0].text in KEYWORDS && InTable(i)
    ensures !IsInstruction(toks, i)
  {
    hide IsRegister, IsPlace, IsSource, Code, NAMES;
    if IsInstruction(toks, i) {
      KeywordCodes(toks[0], i.op);
    }
  }

  /** The keywords that take operands. */
  lemma KeywordAt(toks: seq<Lexeme>)
    requires toks != [] && toks[0].Identifier?
    ensures toks[0].text == "push" ==> InstructionAt(toks) == PushAt(toks[1..])
    ensures toks[0].text == "call" ==> InstructionAt(toks) == CallAt(toks[1..])
    ensures toks[0].text == "pop" ==>
              InstructionAt(toks)
              == match TakeRegister(toks[1..]) case Failed => Failed case Got(r, rest) => Got(Pop(r), rest)
  {
    hide PushAt, CallAt, TakeRegister, OperandsAt, Mnemonic;
  }

  lemma PushForm(toks: seq<Lexeme>, i: Instruction, n: nat)
    requires 0 < n <= |toks| && toks[0] == Identifier("push")
    ensures InstructionAt(toks) == Got(i, toks[n..]) <==> IsInstruction(toks[..n], i)
  {
    hide InstructionAt, PushAt, Names, IsRegister, IsNumber, IsPlace, IsSource;
    KeywordAt(toks);
    Tails(toks, 1, n);
    PushExactly(toks[1..], i, n - 1);
    if InTable(i) {
      KeywordHead(toks[..n], i);
    }
  }

  lemma CallSpelled(toks: seq<Lexeme>, i: Instruction)
    requires toks != [] && toks[0] == Identifier("call")
    ensures IsInstruction(toks, i)
       <==> i.Call? && |toks| > 3 && toks[1] == Identifier(i.service) && toks[2] == Comma && IsPlace(toks[3..], i.arg)
  {
    hide Names, IsRegister, IsNumber, IsPlace, IsSource;
    if InTable(i) {
      KeywordHead(toks, i);
    }
  }

  lemma CallForm(toks: seq<Lexeme>, i: Instruction, n: nat)
    requires 0 < n <= |toks| && toks[0] == Identifier("call")
    ensures InstructionAt(toks) == Got(i, toks[n..]) <==> IsInstruction(toks[..n], i)
  {
    hide InstructionAt, CallAt, IsInstruction, IsPlace;
    KeywordAt(toks);
    Tails(toks, 1, n);
    CallExactly(toks[1..], i, n - 1);
    CallSpelled(toks[..n], i);
    assert n > 3 ==> toks[1..][2..n - 1] == toks[..n][3..];
  }

  lemma PopSpelled(toks: seq<Lexeme>, i: Instruction)
    requires toks != [] && toks[0] == Identifier("pop")
    ensures IsInstruction(toks, i) <==> i.Pop? && |toks| == 2 && IsRegister(toks[1], i.reg)
  {
    hide Names, IsRegister, IsNumber, IsPlace, IsSource;
    if InTable(i) {
      KeywordHead(toks, i);
    }
  }

  lemma PopForm(toks: seq<Lexeme>, i: Instruction, n: nat)
    requires 0 < n <= |toks| && toks[0] == Identifier("pop")
    ensures InstructionAt(toks) == Got(i, toks[n..]) <==> IsInstruction(toks[..n], i)
  {
    hide InstructionAt, TakeRegister, IsInstruction, IsRegister;
    KeywordAt(toks);
    Tails(toks, 1, n);
    PopSpelled(toks[..n], i);
    if i.Pop? {
      RegisterExactly(toks[1..], i.reg, n - 1);
    }
  }

  lemma BareForm(toks: seq<Lexeme>, i: Instruction, n: nat)
    requires 0 < n <= |toks| && toks[0] in {Identifier("halt"), Identifier("ret")}
    ensures InstructionAt(toks) == Got(i, toks[n..]) <==> IsInstruction(toks[..n], i)
  {
    hide PushAt, CallAt, OperandsAt, Mnemonic, Names, IsRegister, IsNumber, IsPlace, IsSource;
    if InTable(i) {
      KeywordHead(toks[..n], i);
    }
  }

  lemma TableForm(toks: seq<Lexeme>, i: Instruction, n: nat)
    requires 0 < n <= |toks| && toks[0].Identifier? && toks[0].text !in KEYWORDS
    ensures InstructionAt(toks) == Got(i, toks[n..]) <==> IsInstruction(toks[..n], i)
  {
    hide OperandsAt, Mnemonic, Names, IsRegister, IsNumber, IsPlace, IsSource;
    TableExactly(toks, i, n);
  }

  /** The parser reads an instruction from the first n tokens exactly when they spell it. */
  lemma InstructionExactly(toks: seq<Lexeme>, i: Instruction, n: nat)
    requires n <= |toks|
    ensures InstructionAt(toks) == Got(i, toks[n..]) <==> IsInstruction(toks[..n], i)
  {
    if n == 0 || !toks[0].Identifier? {
      hide Names, IsRegister, IsNumber, IsPlace, IsSource;
    } else {
      hide InstructionAt, IsInstruction;
      if toks[0].text !in KEYWORDS {
        TableForm(toks, i, n);
      } else if toks[0].text == "push" {
        PushForm(toks, i, n);
      } else if toks[0].text == "pop" {
        PopForm(toks, i, n);
      } else if toks[0].text == "call" {
        CallForm(toks, i, n);
      } else {
        BareForm(toks, i, n);
      }
    }
  }

  // ---- Statements ---------------------------------------------------------------------------------------

  lemma TypeExactly(name: string, t: DataType)
    ensures DataTypeOf(name) == Some(t) <==> name == TypeName(t)
  {
  }

  /** A declaration is three tokens. */
  lemma DeclarationParts(toks: seq<Lexeme>)
    ensures DeclarationAt(toks)
         == if |toks| >= 3 && toks[0].Identifier? && DataTypeOf(toks[0].text).Some? && toks[1].Identifier?
               && TakeNumber(toks[2..]).Got?
            then Got(Declaration(DataTypeOf(toks[0].text).value, toks[1].text, TakeNumber(toks[2..]).value), toks[3..])
            else Failed
  {
    hide NumberValue, DataTypeOf;
    if |toks| >= 2 {
      assert toks[1..][1..] == toks[2..];
    }
  }

  lemma DeclarationExactly(toks: seq<Lexeme>, s: Statement, n: nat)
    requires n <= |toks|
    ensures DeclarationAt(toks) == Got(s, toks[n..]) <==> IsStatement(toks[..n], DataSection, s) && s.Declaration?
  {
    hide NumberValue, DataTypeOf, DeclarationAt, TakeNumber, IsNumber, IsInstruction, TypeName;
    DeclarationParts(toks);
    if |toks| >= 3 && s.Declaration? {
      NumberExactly(toks[2..], s.value, 1);
      assert toks[2..][1..] == toks[3..];
      if toks[0].Identifier? {
        TypeExactly(toks[0].text, s.dataType);
      }
      OneNumber(toks[2..]);
      assert n >= 2 ==> toks[..n][..2] == [toks[0], toks[1]];
    }
  }

  lemma LabelExactly(toks: seq<Lexeme>, s: Statement, n: nat)
    requires n <= |toks| && First(toks).Identifier? && First(toks[1..]).Colon?
    ensures Got(Label(toks[0].text), toks[2..]) == Got(s, toks[n..])
       <==> s.Label? && toks[..n] == [Identifier(s.name), Colon]
  {
  }

  lemma EnterExactly(toks: seq<Lexeme>, section: Section, s: Statement, n: nat)
    requires n <= |toks| && toks != []
    ensures EnterAt(section, toks[1..]) == Got(s, toks[n..])
       <==> s == Enter(section) && n == 2 && toks[1] == Colon
  {
    if |toks| >= 2 {
      assert toks[1..][1..] == toks[2..];
    }
  }

  lemma NamesAreSmall(op: Opcode)
    requires Code(op) < 28
    ensures |NAMES[Code(op)]| > 0 && NAMES[Code(op)][0] >= 'a'
  {
    hide Code;
  }

  /** No instruction has a colon as its second token, and none begins like a section. */
  lemma InstructionStart(toks: seq<Lexeme>, i: Instruction)
    requires IsInstruction(toks, i)
    ensures toks != [] && toks[0].Identifier? && toks[0].text !in {"DATA", "CODE"}
    ensures |toks| > 1 ==> !toks[1].Colon? && !toks[1].Bad?
  {
    hide IsPlace, IsSource, Numeral, NumberValue, Code, NAMES;
    assert "DATA"[0] == 'D' && "CODE"[0] == 'C';
    if InTable(i) {
      NamesAreSmall(i.op);
    }
  }

  /** What can follow a statement. */
  predicate Follows(toks: seq<Lexeme>) {
    !First(toks).Colon? && !First(toks).Bad?
  }

  lemma DataStatement(toks: seq<Lexeme>, s: Statement, n: nat)
    requires n <= |toks| && First(toks) !in {Identifier("DATA"), Identifier("CODE")}
    ensures StatementAt(toks, DataSection) == Got(s, toks[n..]) <==> IsStatement(toks[..n], DataSection, s)
  {
    hide DeclarationAt, IsNumber, TypeName, IsInstruction;
    DeclarationExactly(toks, s, n);
  }

  lemma CodeStatement(toks: seq<Lexeme>, s: Statement, n: nat)
    requires n <= |toks| && Follows(toks[n..]) && First(toks) !in {Identifier("DATA"), Identifier("CODE")}
    ensures StatementAt(toks, CodeSection) == Got(s, toks[n..]) <==> IsStatement(toks[..n], CodeSection, s)
  {
    hide InstructionAt, IsNumber, TypeName, IsInstruction;
    if First(toks).Identifier? && First(toks[1..]).Colon? {
      LabelExactly(toks, s, n);
    }
    if s.Ins? {
      InstructionExactly(toks, s.i, n);
      if IsInstruction(toks[..n], s.i) {
        InstructionStart(toks[..n], s.i);
      }
    }
  }

  lemma EnterStatement(toks: seq<Lexeme>, section: Section, s: Statement, n: nat)
    requires n <= |toks| && toks != [] && toks[0] in {Identifier("DATA"), Identifier("CODE")}
    ensures StatementAt(toks, section) == Got(s, toks[n..]) <==> IsStatement(toks[..n], section, s)
  {
    hide EnterAt, IsNumber, IsInstruction;
    EnterExactly(toks, DataSection, s, n);
    EnterExactly(toks, CodeSection, s, n);
    if s.Ins? && IsInstruction(toks[..n], s.i) {
      InstructionStart(toks[..n], s.i);
    }
    assert "DATA"[0] != "CODE"[0];
  }

  lemma StatementExactly(toks: seq<Lexeme>, section: Section, s: Statement, n: nat)
    requires n <= |toks| && Follows(toks[n..])
    ensures StatementAt(toks, section) == Got(s, toks[n..]) <==> IsStatement(toks[..n], section, s)
  {
    if First(toks) in {Identifier("DATA"), Identifier("CODE")} {
      EnterStatement(toks, section, s, n);
    } else {
      match section {
        case NoSection =>
        case DataSection => DataStatement(toks, s, n);
        case CodeSection => CodeStatement(toks, s, n);
      }
    }
  }

  // ---- What is left over is an end of the tokens --------------------------------------------------------

  ghost predicate EndOf(rest: seq<Lexeme>, toks: seq<Lexeme>) {
    |rest| <= |toks| && rest == toks[|toks| - |rest|..]
  }

  lemma PlaceEnd(toks: seq<Lexeme>)
    ensures PlaceAt(toks).Got? ==> EndOf(PlaceAt(toks).rest, toks)
  {
    hide NumberValue;
  }

  lemma SourceEnd(toks: seq<Lexeme>)
    ensures SourceAt(toks).Got? ==> EndOf(SourceAt(toks).rest, toks)
  {
    hide NumberValue, RegisterIndex;
  }

  lemma OperandsEnd(op: Opcode, toks: seq<Lexeme>)
    ensures OperandsAt(op, toks).Got? ==> EndOf(OperandsAt(op, toks).rest, toks)
  {
    hide RegisterIndex, PlaceAt, SourceAt;
    if !IsBranch(op) && !IsUnary(op) {
      TwoOperands(op, toks);
      hide OperandsAt;
      if |toks| >= 2 {
        PlaceEnd(toks[2..]);
        SourceEnd(toks[2..]);
      }
    }
  }

  lemma CallEnd(toks: seq<Lexeme>)
    ensures CallAt(toks).Got? ==> EndOf(CallAt(toks).rest, toks)
  {
    hide PlaceAt;
    if |toks| >= 2 {
      assert toks[1..][1..] == toks[2..];
      PlaceEnd(toks[2..]);
    }
  }

  lemma PushEnd(toks: seq<Lexeme>)
    ensures PushAt(toks).Got? ==> EndOf(PushAt(toks).rest, toks)
  {
    hide NumberValue, RegisterIndex;
  }

  lemma InstructionEnd(toks: seq<Lexeme>)
    ensures InstructionAt(toks).Got? ==> EndOf(InstructionAt(toks).rest, toks)
  {
    hide PushAt, CallAt, OperandsAt, Mnemonic, RegisterIndex;
    if First(toks).Identifier? {
      var t := toks[1..];
      PushEnd(t);
      CallEnd(t);
      if Mnemonic(toks[0].text).Some? {
        OperandsEnd(Mnemonic(toks[0].text).value, t);
      }
    }
  }

  lemma StatementEnd(toks: seq<Lexeme>, section: Section)
    ensures StatementAt(toks, section).Got? ==> EndOf(StatementAt(toks, section).rest, toks)
  {
    hide InstructionAt, DeclarationAt, TakeNumber, DataTypeOf;
    InstructionEnd(toks);
    DeclarationParts(toks);
  }

  // ---- Programs -----------------------------------------------------------------------------------------

  lemma {:induction false} SkippedLineEnds(toks: seq<Lexeme>)
    ensures var rest := SkipNewlines(toks);
            EndOf(rest, toks) && LineEnds(toks[..|toks| - |rest|])
  {
    if First(toks).Newline? {
      SkippedLineEnds(toks[1..]);
      var m := |toks| - |SkipNewlines(toks)|;
      assert toks[..m] == [toks[0]] + toks[1..][..m - 1];
    }
  }

  lemma {:induction false} SkipExactly(toks: seq<Lexeme>, m: nat)
    requires m <= |toks| && LineEnds(toks[..m]) && !First(toks[m..]).Newline?
    ensures SkipNewlines(toks) == toks[m..]
    decreases m
  {
    if m > 0 {
      assert toks[0] == toks[..m][0];
      assert toks[1..][..m - 1] == toks[..m][1..];
      SkipExactly(toks[1..], m - 1);
    }
  }

  /** A statement begins with an identifier. */
  lemma StatementStart(toks: seq<Lexeme>, section: Section, s: Statement)
    requires IsStatement(toks, section, s)
    ensures toks != [] && toks[0].Identifier?
  {
    hide IsNumber, TypeName, IsInstruction;
    if s.Ins? {
      InstructionStart(toks, s.i);
    }
  }

  lemma ProgramStart(toks: seq<Lexeme>, section: Section, ss: seq<Statement>)
    requires IsProgram(toks, section, ss)
    ensures Follows(toks)
  {
    hide IsStatement;
    if ss != [] {
      var m, n :| 0 <= m <= n <= |toks| && LineEnds(toks[..m]) && IsStatement(toks[m..n], section, ss[0])
                  && IsProgram(toks[n..], SectionAfter(section, ss[0]), ss[1..]);
      StatementStart(toks[m..n], section, ss[0]);
      assert m > 0 ==> toks[0] == toks[..m][0];
    }
  }

  /** Reading on after m line ends and a statement of n - m tokens. */
  lemma ReadOn(toks: seq<Lexeme>, section: Section, s: Statement, m: nat, n: nat)
    requires m <= n <= |toks| && LineEnds(toks[..m]) && IsStatement(toks[m..n], section, s) && Follows(toks[n..])
    ensures Statements(toks, section)
         == match Statements(toks[n..], SectionAfter(section, s)) case None => None case Some(ss) => Some([s] + ss)
  {
    hide StatementAt, IsStatement;
    StatementStart(toks[m..n], section, s);
    SkipExactly(toks, m);
    assert toks[m..][..n - m] == toks[m..n] && toks[m..][n - m..] == toks[n..];
    StatementExactly(toks[m..], section, s, n - m);
  }

  lemma {:induction false} Accepts(toks: seq<Lexeme>, section: Section, ss: seq<Statement>)
    requires IsProgram(toks, section, ss)
    ensures Statements(toks, section) == Some(ss)
    decreases |ss|
  {
    hide StatementAt, IsStatement;
    if ss == [] {
      assert toks[..|toks|] == toks;
      SkipExactly(toks, |toks|);
    } else {
      var after := SectionAfter(section, ss[0]);
      var m, n :| 0 <= m <= n <= |toks| && LineEnds(toks[..m]) && IsStatement(toks[m..n], section, ss[0])
                  && IsProgram(toks[n..], after, ss[1..]);
      hide Statements, IsProgram, LineEnds, Follows, SectionAfter;
      ProgramStart(toks[n..], after, ss[1..]);
      ReadOn(toks, section, ss[0], m, n);
      Accepts(toks[n..], after, ss[1..]);
      assert [ss[0]] + ss[1..] == ss;
    }
  }

  /** What the parser has read as a statement spells it, once something that can follow is known to come next. */
  lemma ReadStatement(toks: seq<Lexeme>, section: Section)
    requires StatementAt(toks, section).Got? && Follows(StatementAt(toks, section).rest)
    ensures var p := StatementAt(toks, section);
            EndOf(p.rest, toks) && IsStatement(toks[..|toks| - |p.rest|], section, p.value)
  {
    hide StatementAt, IsStatement;
    StatementEnd(toks, section);
    var p := StatementAt(toks, section);
    StatementExactly(toks, section, p.value, |toks| - |p.rest|);
  }

  lemma OneMore(toks: seq<Lexeme>, section: Section, s: Statement, ss: seq<Statement>, m: nat, n: nat)
    requires m <= n <= |toks| && LineEnds(toks[..m]) && IsStatement(toks[m..n], section, s)
    requires IsProgram(toks[n..], SectionAfter(section, s), ss)
    ensures IsProgram(toks, section, [s] + ss)
  {
    hide LineEnds, IsStatement, SectionAfter;
    var all := [s] + ss;
    assert all[1..] == ss && all[0] == s;
  }

  /** What the parser did when it succeeded. */
  lemma Unfolded(toks: seq<Lexeme>, section: Section)
    requires Statements(toks, section).Some?
    ensures var t := SkipNewlines(toks);
            if t == [] then Statements(toks, section).value == []
            else
              var p := StatementAt(t, section);
              && p.Got? && |p.rest| < |t| <= |toks|
              && Statements(p.rest, SectionAfter(section, p.value)).Some?
              && Statements(toks, section).value
                 == [p.value] + Statements(p.rest, SectionAfter(section, p.value)).value
  {
    hide StatementAt, SkipNewlines, SectionAfter;
  }

  lemma {:induction false} Accepted(toks: seq<Lexeme>, section: Section)
    requires Statements(toks, section).Some?
    ensures IsProgram(toks, section, Statements(toks, section).value)
    decreases |toks|
  {
    hide Statements, StatementAt, IsStatement, Follows, SkipNewlines, SectionAfter, LineEnds;
    var t := SkipNewlines(toks);
    var m := |toks| - |t|;
    SkippedLineEnds(toks);
    Unfolded(toks, section);
    if t == [] {
      assert toks[..m] == toks;
    } else {
      hide IsProgram;
      var p := StatementAt(t, section);
      var n := |toks| - |p.rest|;
      var ss := Statements(p.rest, SectionAfter(section, p.value)).value;
      Accepted(p.rest, SectionAfter(section, p.value));
      ProgramStart(p.rest, SectionAfter(section, p.value), ss);
      ReadStatement(t, section);
      assert p.rest == toks[n..] && t[..n - m] == toks[m..n];
      OneMore(toks, section, p.value, ss, m, n);
    }
  }

  /** The parser reads the statements ss from exactly those token lists that spell them. */
  lemma ProgramExactly(toks: seq<Lexeme>, section: Section, ss: seq<Statement>)
    ensures Statements(toks, section) == Some(ss) <==> IsProgram(toks, section, ss)
  {
    if Statements(toks, section) == Some(ss) {
      Accepted(toks, section);
    }
    if IsProgram(toks, section, ss) {
      Accepts(toks, section, ss);
    }
  }

  lemma InstructionHasNoBad(toks: seq<Lexeme>, i: Instruction)
    requires IsInstruction(toks, i)
    ensures Bad !in toks
  {
    hide Numeral, NumberValue, Names;
    InstructionStart(toks, i);
    if i.Call? || i.Transfer? || i.Binary? {
      var more := toks[3..];
      assert toks == [toks[0], toks[1], toks[2]] + more;
      assert i.Call? ==> toks[..3][0] == toks[0] && toks[..3][1] == toks[1] && toks[..3][2] == toks[2];
      assert Bad !in more;
    }
  }

  lemma StatementHasNoBad(toks: seq<Lexeme>, section: Section, s: Statement)
    requires IsStatement(toks, section, s)
    ensures Bad !in toks
  {
    hide NumberValue, IsInstruction, TypeName;
    if s.Ins? {
      InstructionHasNoBad(toks, s.i);
    } else if s.Declaration? {
      assert toks == toks[..2] + [toks[2]];
    }
  }

  /** No spelled program holds a character that the lexer refuses. */
  lemma {:induction false} ProgramHasNoBad(toks: seq<Lexeme>, section: Section, ss: seq<Statement>)
    requires IsProgram(toks, section, ss)
    ensures Bad !in toks
    decreases |ss|
  {
    hide IsStatement;
    if ss == [] {
    } else {
      var m, n :| 0 <= m <= n <= |toks| && LineEnds(toks[..m]) && IsStatement(toks[m..n], section, ss[0])
                  && IsProgram(toks[n..], SectionAfter(section, ss[0]), ss[1..]);
      StatementHasNoBad(toks[m..n], section, ss[0]);
      ProgramHasNoBad(toks[n..], SectionAfter(section, ss[0]), ss[1..]);
      assert toks == toks[..m] + toks[m..n] + toks[n..];
    }
  }
}
