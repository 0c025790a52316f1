/** The two passes of the assembler over a list of statements (src/vm/assembler/parser.cpp), and what they amount
    to: every label and symbol resolved, every instruction encoded in place, every symbol laid out. */
module Assembly {
  import opened Words
  import opened Memory
  import opened Encoding
  import opened Lexing
  import opened Syntax
  import Machine
  import Loader

  datatype Symbol = Symbol(name: string, dataType: DataType, value: Int16, offset: Word)

  /** labels_, dataSymbols_, codeAddress_ and dataOffset_. */
  datatype Env = Env(labels: map<string, Word>, symbols: seq<Symbol>, address: Word, offset: Word)

  const EMPTY: Env := Env(map[], [], 0, 0)

  function Size(t: DataType): (n: nat)
    ensures 1 <= n <= 8
  {
    match t case ByteType => 1 case DByteType => 2 case WordType => 4 case QWordType => 8
  }

  /** resolveDataSymbol: the offset of the first symbol of that name. */
  function Find(symbols: seq<Symbol>, name: string): Option<Word>
    decreases |symbols|
  {
    if symbols == [] then None
    else if symbols[0].name == name then Some(symbols[0].offset)
    else Find(symbols[1..], name)
  }

  function ServiceOf(name: string): Option<RegIndex> {
    if name == "print" then Some(Machine.SYS_PRINT)
    else if name == "scan" then Some(Machine.SYS_SCAN)
    else if name == "exit" then Some(Machine.SYS_EXIT)
    else if name == "yield" then Some(Machine.SYS_YIELD)
    else if name == "load" then Some(Machine.SYS_LOAD)
    else None
  }

  // ---- Code generation ----------------------------------------------------------------------------------

  /** The arguments of encodeInstruction. */
  datatype Fields = Fields(opcode: Opcode, rd: RegIndex, rs1: RegIndex, rs2: RegIndex, imm: Int16)
  {
    function Raw(): Word { Encode(opcode, rd, rs1, rs2, imm) }
  }

  function PlaceAddress(p: Place, symbols: seq<Symbol>): Option<Word> {
    match p
    case Cell(name) => Find(symbols, name)
    case At(value) => Some(Wrap(value))
  }

  /** The symbol an instruction names in brackets, which both passes look up. */
  function CellName(i: Instruction): Option<string> {
    match i
    case Call(_, Cell(name)) => Some(name)
    case Transfer(_, _, Cell(name)) => Some(name)
    case Binary(_, _, FromMemory(name)) => Some(name)
    case _ => None
  }

  predicate CellKnown(i: Instruction, symbols: seq<Symbol>) {
    CellName(i).Some? ==> Find(symbols, CellName(i).value).Some?
  }

  /** What the second pass generates: None where it throws. */
  function Lower(i: Instruction, labels: map<string, Word>, symbols: seq<Symbol>): Option<Fields> {
    match i
    case Halt => Some(Fields(HALT, 0, 0, 0, 0))
    case Ret => Some(Fields(RET, 0, 0, 0, 0))
    case PushRegister(r) => Some(Fields(PUSH, r, r, r, 0))
    case PushLabel(name) =>
      if name in labels then Some(Fields(PUSH, 0, 0, IMMEDIATE_MARKER, ToInt16(labels[name]))) else None
    case PushNumber(v) => Some(Fields(PUSH, 0, 0, IMMEDIATE_MARKER, v))
    case Pop(r) => Some(Fields(POP, r, 0, 0, 0))
    case Call(service, arg) =>
      (match (ServiceOf(service), PlaceAddress(arg, symbols))
       case (Some(id), Some(a)) => Some(Fields(CALL, 0, id, 0, ToInt16(a)))
       case _ => None)
    case Branch(op, name) =>
      if name in labels then Some(Fields(op, 0, 0, 0, ToInt16(labels[name]))) else None
    case Unary(op, r) => Some(Fields(op, r, 0, 0, 0))
    case Transfer(op, r, place) =>
      (match PlaceAddress(place, symbols)
       case None => None
       case Some(a) => Some(Fields(op, r, 0, 0, ToInt16(a))))
    case Binary(op, rd, source) =>
      match source
      case FromRegister(rs) => Some(Fields(op, rd, if op.MOV? then rs else rd, rs, 0))
      case FromMemory(name) =>
        (match Find(symbols, name)
         case None => None
         case Some(a) => if op.MOV? then Some(Fields(LOAD, rd, 0, 0, ToInt16(a))) else None)
      case Immediate(v) =>
        Some(if op.MOV? then Fields(MOV, rd, 0, IMMEDIATE_MARKER, v)
             else if op.CMP? then Fields(CMP, 0, rd, IMMEDIATE_MARKER, v)
             else Fields(op, rd, rd, IMMEDIATE_MARKER, v))
  }

  // ---- The passes ---------------------------------------------------------------------------------------

  datatype Passed = Passed(env: Env, code: seq<Word>)

  /** What parseProgram does with one statement: None where it throws. */
  function Visit(s: Statement, e: Env, emit: bool): Option<Passed> {
    match s
    case Enter(_) => Some(Passed(e, []))
    case Declaration(t, name, v) =>
      if emit then Some(Passed(e, []))
      else Some(Passed(e.(symbols := e.symbols + [Symbol(name, t, v, e.offset)],
                                 offset := Wrap(e.offset + Size(t))), []))
    case Label(name) => Some(Passed(e.(labels := e.labels[name := e.address]), []))
    case Ins(i) =>
      var next := e.(address := Wrap(e.address + 1));
      if !CellKnown(i, e.symbols) then None
      else if !emit then Some(Passed(next, []))
      else match Lower(i, e.labels, e.symbols)
        case None => None
        case Some(f) => Some(Passed(next, [f.Raw()]))
  }

  function Pass(ss: seq<Statement>, e: Env, emit: bool): Option<Passed> {
    if ss == [] then Some(Passed(e, []))
    else match Pass(ss[..|ss| - 1], e, emit)
      case None => None
      case Some(before) =>
        match Visit(ss[|ss| - 1], before.env, emit)
        case None => None
        case Some(last) => Some(Passed(last.env, before.code + last.code))
  }

  /** A value cut to the size of its type, low byte first. */
  function SymbolBytes(t: DataType, v: int): (s: seq<Byte>)
    ensures |s| == Size(t)
  {
    Bytes(v % Pow2(8 * Size(t)), Size(t))
  }

  function DataSize(s: Statement): nat {
    if s.Declaration? then Size(s.dataType) else 0
  }

  function DataBytes(s: Statement): (b: seq<Byte>)
    ensures |b| == DataSize(s)
  {
    if s.Declaration? then SymbolBytes(s.dataType, s.value) else []
  }

  function Image(symbols: seq<Symbol>): Mem {
    if symbols == [] then []
    else Image(symbols[..|symbols| - 1]) + SymbolBytes(symbols[|symbols| - 1].dataType, symbols[|symbols| - 1].value)
  }

  /** parse, after reading the statements: labels and symbols of the first pass are kept for the second. */
  function Assemble(ss: seq<Statement>): Option<Loader.Program> {
    match Pass(ss, EMPTY, false)
    case None => None
    case Some(first) =>
      match Pass(ss, first.env.(address := 0), true)
      case None => None
      case Some(second) => Some(Loader.Program(second.code, Image(first.env.symbols)))
  }

  // ---- What the statements say --------------------------------------------------------------------------

  /** The number of instructions before statement k, which is where its code goes. */
  function Count(ss: seq<Statement>, k: nat): (n: nat)
    requires k <= |ss|
    ensures n <= k
  {
    if k == 0 then 0 else Count(ss, k - 1) + if ss[k - 1].Ins? then 1 else 0
  }

  /** The number of data bytes declared before statement k. */
  function Offset(ss: seq<Statement>, k: nat): nat
    requires k <= |ss|
  {
    if k == 0 then 0 else Offset(ss, k - 1) + DataSize(ss[k - 1])
  }

  /** The last definition of a label among the first k statements. */
  function LastDefinition(ss: seq<Statement>, k: nat, name: string): (j: Option<nat>)
    requires k <= |ss|
    ensures j.Some? ==> j.value < k && ss[j.value] == Label(name)
                        && forall m :: j.value < m < k ==> ss[m] != Label(name)
    ensures j.None? ==> forall m :: 0 <= m < k ==> ss[m] != Label(name)
  {
    if k == 0 then None
    else if ss[k - 1] == Label(name) then Some(k - 1)
    else LastDefinition(ss, k - 1, name)
  }

  /** The definition a reference in statement k is resolved to: the nearest preceding one, else the last one. */
  function Definition(ss: seq<Statement>, k: nat, name: string): Option<nat>
    requires k <= |ss|
  {
    var before := LastDefinition(ss, k, name);
    if before.Some? then before else LastDefinition(ss, |ss|, name)
  }

  function LabelsBefore(ss: seq<Statement>, k: nat): map<string, Word>
    requires k <= |ss|
  {
    if k == 0 then map[]
    else match ss[k - 1]
      case Label(name) => LabelsBefore(ss, k - 1)[name := Wrap(Count(ss, k - 1))]
      case _ => LabelsBefore(ss, k - 1)
  }

  function SymbolsBefore(ss: seq<Statement>, k: nat): seq<Symbol>
    requires k <= |ss|
  {
    if k == 0 then []
    else match ss[k - 1]
      case Declaration(t, name, v) => SymbolsBefore(ss, k - 1) + [Symbol(name, t, v, Wrap(Offset(ss, k - 1)))]
      case _ => SymbolsBefore(ss, k - 1)
  }

  function Symbols(ss: seq<Statement>): seq<Symbol> {
    SymbolsBefore(ss, |ss|)
  }

  /** The label table the second pass has when it reaches statement k. */
  function LabelsAt(ss: seq<Statement>, k: nat): map<string, Word>
    requires k <= |ss|
  {
    LabelsBefore(ss, |ss|) + LabelsBefore(ss, k)
  }

  // ---- Both passes agree --------------------------------------------------------------------------------

  /** What the first pass knows after k statements. */
  function FirstEnv(ss: seq<Statement>, k: nat): Env
    requires k <= |ss|
  {
    Env(LabelsBefore(ss, k), SymbolsBefore(ss, k), Wrap(Count(ss, k)), Wrap(Offset(ss, k)))
  }

  predicate UseKnown(ss: seq<Statement>, k: nat)
    requires k < |ss|
  {
    ss[k].Ins? ==> CellKnown(ss[k].i, SymbolsBefore(ss, k))
  }

  lemma FirstVisit(ss: seq<Statement>, k: nat)
    requires k < |ss|
    ensures Visit(ss[k], FirstEnv(ss, k), false)
        == if UseKnown(ss, k) then Some(Passed(FirstEnv(ss, k + 1), [])) else None
  {
    WrapAdd(Count(ss, k), 1);
    WrapAdd(Offset(ss, k), DataSize(ss[k]));
    hide CellKnown;
  }

  /** The first pass succeeds exactly when every bracketed symbol is declared before its use, and it then knows
      every label and symbol. */
  lemma {:induction false} FirstPass(ss: seq<Statement>, k: nat)
    requires k <= |ss|
    ensures Pass(ss[..k], EMPTY, false).Some? <==> forall j :: 0 <= j < k ==> UseKnown(ss, j)
    ensures Pass(ss[..k], EMPTY, false).Some? ==> Pass(ss[..k], EMPTY, false).value == Passed(FirstEnv(ss, k), [])
  {
    assert FirstEnv(ss, 0) == EMPTY;
    hide Visit, FirstEnv, UseKnown;
    if k == 0 {
    } else {
      FirstPass(ss, k - 1);
      assert ss[..k][..k - 1] == ss[..k - 1] && ss[..k][k - 1] == ss[k - 1];
      FirstVisit(ss, k - 1);
    }
  }

  /** The state between the passes. */
  function Known(ss: seq<Statement>): Env {
    Env(LabelsBefore(ss, |ss|), Symbols(ss), 0, Wrap(Offset(ss, |ss|)))
  }

  /** What is generated for the instruction in statement j. */
  function Generated(ss: seq<Statement>, j: nat): Option<Fields>
    requires j < |ss| && ss[j].Ins?
  {
    if CellKnown(ss[j].i, Symbols(ss)) then Lower(ss[j].i, LabelsAt(ss, j), Symbols(ss)) else None
  }

  /** The code of the first k statements: each instruction's word at the instruction's address. */
  ghost predicate Emitted(ss: seq<Statement>, k: nat, code: seq<Word>)
    requires k <= |ss|
  {
    && |code| == Count(ss, k)
    && forall j :: 0 <= j < k && ss[j].Ins? ==>
         Count(ss, j) < Count(ss, k) && Generated(ss, j).Some? && code[Count(ss, j)] == Generated(ss, j).value.Raw()
  }

  lemma LabelsStep(ss: seq<Statement>, k: nat)
    requires k < |ss|
    ensures LabelsAt(ss, k + 1)
         == match ss[k] case Label(name) => LabelsAt(ss, k)[name := Wrap(Count(ss, k))] case _ => LabelsAt(ss, k)
  {
  }

  lemma EmittedStep(ss: seq<Statement>, k: nat, code: seq<Word>)
    requires k < |ss| && Emitted(ss, k, code) && (ss[k].Ins? ==> Generated(ss, k).Some?)
    ensures Emitted(ss, k + 1, code + if ss[k].Ins? then [Generated(ss, k).value.Raw()] else [])
  {
    hide Generated, Encode;
  }

  lemma LabelsStart(ss: seq<Statement>)
    ensures LabelsAt(ss, 0) == LabelsBefore(ss, |ss|)
  {
  }

  lemma EmittedNothing(ss: seq<Statement>)
    ensures Emitted(ss, 0, [])
  {
  }

  /** The second pass starts from what the first one found, visits the same statements at the same addresses, and
      emits one word for each instruction. */
  lemma {:induction false} SecondPass(ss: seq<Statement>, k: nat)
    requires k <= |ss|
    ensures Pass(ss[..k], Known(ss), true).Some? <==> forall j :: 0 <= j < k && ss[j].Ins? ==> Generated(ss, j).Some?
    ensures Pass(ss[..k], Known(ss), true).Some? ==>
              var p := Pass(ss[..k], Known(ss), true).value;
              && p.env == Known(ss).(labels := LabelsAt(ss, k), address := Wrap(Count(ss, k)))
              && Emitted(ss, k, p.code)
  {
    hide Lower, CellKnown, LabelsBefore, SymbolsBefore, Emitted, Encode, Offset;
    if k > 0 {
      SecondPass(ss, k - 1);
      assert ss[..k][..k - 1] == ss[..k - 1] && ss[..k][k - 1] == ss[k - 1];
      WrapAdd(Count(ss, k - 1), 1);
      LabelsStep(ss, k - 1);
      var before := Pass(ss[..k - 1], Known(ss), true);
      if before.Some? && (ss[k - 1].Ins? ==> Generated(ss, k - 1).Some?) {
        EmittedStep(ss, k - 1, before.value.code);
      }
    } else {
      assert LabelsAt(ss, 0) == Known(ss).labels by { LabelsStart(ss); }
      assert Emitted(ss, 0, []) by { EmittedNothing(ss); }
    }
  }

  // ---- Labels -------------------------------------------------------------------------------------------

  lemma {:induction false} LabelsBeforeAre(ss: seq<Statement>, k: nat, name: string)
    requires k <= |ss|
    ensures name in LabelsBefore(ss, k) <==> LastDefinition(ss, k, name).Some?
    ensures name in LabelsBefore(ss, k) ==>
              LabelsBefore(ss, k)[name] == Wrap(Count(ss, LastDefinition(ss, k, name).value))
  {
    if k == 0 {
    } else {
      LabelsBeforeAre(ss, k - 1, name);
    }
  }

  /** A reference is resolved to the number of instructions before its definition. */
  lemma LabelResolution(ss: seq<Statement>, k: nat, name: string)
    requires k <= |ss|
    ensures name in LabelsAt(ss, k) <==> Definition(ss, k, name).Some?
    ensures name in LabelsAt(ss, k) ==> LabelsAt(ss, k)[name] == Wrap(Count(ss, Definition(ss, k, name).value))
  {
    LabelsBeforeAre(ss, k, name);
    LabelsBeforeAre(ss, |ss|, name);
  }

  predicate UniqueLabels(ss: seq<Statement>) {
    forall j, k :: 0 <= j < k < |ss| && ss[j].Label? ==> ss[j] != ss[k]
  }

  /** With unique labels every reference, before or after it, goes to the one definition. */
  lemma UniqueResolution(ss: seq<Statement>, k: nat, j: nat, name: string)
    requires UniqueLabels(ss) && k <= |ss| && j < |ss| && ss[j] == Label(name)
    ensures name in LabelsAt(ss, k) && LabelsAt(ss, k)[name] == Wrap(Count(ss, j))
  {
    LabelResolution(ss, k, name);
    assert Definition(ss, k, name) == Some(j) by {
      assert LastDefinition(ss, |ss|, name) == Some(j);
    }
  }

  // ---- Symbols and the data image -----------------------------------------------------------------------

  /** The first declaration of a symbol among the first k statements. */
  function FirstDeclaration(ss: seq<Statement>, k: nat, name: string): (j: Option<nat>)
    requires k <= |ss|
    ensures j.Some? ==> j.value < k && ss[j.value].Declaration? && ss[j.value].name == name
                        && forall m :: 0 <= m < j.value && ss[m].Declaration? ==> ss[m].name != name
    ensures j.None? ==> forall m :: 0 <= m < k && ss[m].Declaration? ==> ss[m].name != name
  {
    if k == 0 then None
    else
      var before := FirstDeclaration(ss, k - 1, name);
      if before.Some? then before
      else if ss[k - 1].Declaration? && ss[k - 1].name == name then Some(k - 1)
      else None
  }

  lemma {:induction false} FindAppend(xs: seq<Symbol>, x: Symbol, name: string)
    ensures Find(xs + [x], name)
         == if Find(xs, name).Some? then Find(xs, name) else if x.name == name then Some(x.offset) else None
    decreases |xs|
  {
    if xs != [] {
      FindAppend(xs[1..], x, name);
      assert (xs + [x])[1..] == xs[1..] + [x];
    } else {
      assert [x][1..] == [];
    }
  }

  /** A name is resolved to the offset of its first declaration, */
  lemma {:induction false} SymbolResolution(ss: seq<Statement>, k: nat, name: string)
    requires k <= |ss|
    ensures Find(SymbolsBefore(ss, k), name)
         == match FirstDeclaration(ss, k, name) case None => None case Some(j) => Some(Wrap(Offset(ss, j)))
  {
    if k == 0 {
    } else {
      SymbolResolution(ss, k - 1, name);
      if ss[k - 1].Declaration? {
        FindAppend(SymbolsBefore(ss, k - 1),
                   Symbol(ss[k - 1].name, ss[k - 1].dataType, ss[k - 1].value, Wrap(Offset(ss, k - 1))), name);
      }
    }
  }

  lemma {:induction false} FirstDeclarationStays(ss: seq<Statement>, k: nat, n: nat, name: string)
    requires k <= n <= |ss| && FirstDeclaration(ss, k, name).Some?
    ensures FirstDeclaration(ss, n, name) == FirstDeclaration(ss, k, name)
  {
    if k == n {
    } else {
      FirstDeclarationStays(ss, k, n - 1, name);
    }
  }

  /** so the second pass, which knows all symbols, resolves it as the first pass did. */
  lemma SameOffset(ss: seq<Statement>, k: nat, name: string)
    requires k <= |ss| && Find(SymbolsBefore(ss, k), name).Some?
    ensures Find(Symbols(ss), name) == Find(SymbolsBefore(ss, k), name)
  {
    SymbolResolution(ss, k, name);
    SymbolResolution(ss, |ss|, name);
    FirstDeclarationStays(ss, k, |ss|, name);
  }

  /** The ranges of the declared symbols lie one after the other: together they are [0, Offset(ss, |ss|)), */
  lemma {:induction false} OffsetsGrow(ss: seq<Statement>, j: nat, k: nat)
    requires j < k <= |ss|
    ensures Offset(ss, j) + DataSize(ss[j]) <= Offset(ss, k)
  {
    if j == k - 1 {
    } else {
      OffsetsGrow(ss, j, k - 1);
    }
  }

  function Data(ss: seq<Statement>, k: nat): (d: Mem)
    requires k <= |ss|
    ensures |d| == Offset(ss, k)
  {
    if k == 0 then [] else Data(ss, k - 1) + DataBytes(ss[k - 1])
  }

  lemma ImageAppend(xs: seq<Symbol>, x: Symbol)
    ensures Image(xs + [x]) == Image(xs) + SymbolBytes(x.dataType, x.value)
  {
    hide SymbolBytes;
    assert (xs + [x])[..|xs|] == xs;
  }

  lemma ImageStep(ss: seq<Statement>, k: nat)
    requires k < |ss|
    ensures Image(SymbolsBefore(ss, k + 1)) == Image(SymbolsBefore(ss, k)) + DataBytes(ss[k])
  {
    if ss[k].Declaration? {
      ImageAppend(SymbolsBefore(ss, k), Symbol(ss[k].name, ss[k].dataType, ss[k].value, Wrap(Offset(ss, k))));
    }
  }

  lemma ImageStart(ss: seq<Statement>)
    ensures Image(SymbolsBefore(ss, 0)) == []
  {
  }

  lemma {:induction false} ImageIsData(ss: seq<Statement>, k: nat)
    requires k <= |ss|
    ensures Image(SymbolsBefore(ss, k)) == Data(ss, k)
  {
    hide Image, SymbolsBefore, DataBytes;
    if k == 0 {
      ImageStart(ss);
    } else {
      ImageIsData(ss, k - 1);
      ImageStep(ss, k - 1);
    }
  }

  lemma DataStep(ss: seq<Statement>, k: nat)
    requires 0 < k <= |ss|
    ensures Data(ss, k) == Data(ss, k - 1) + DataBytes(ss[k - 1])
    ensures |DataBytes(ss[k - 1])| == DataSize(ss[k - 1])
  {
  }

  lemma SlicePrefix(a: Mem, x: Mem, lo: nat, hi: nat)
    requires lo <= hi <= |a|
    ensures (a + x)[lo..hi] == a[lo..hi]
  {
  }

  lemma SliceLast(a: Mem, x: Mem)
    ensures (a + x)[|a|..|a| + |x|] == x
  {
  }

  /** and each range holds its symbol's bytes. */
  lemma {:induction false} DataImage(ss: seq<Statement>, k: nat, j: nat)
    requires j < k <= |ss|
    ensures Offset(ss, j) + DataSize(ss[j]) <= Offset(ss, k)
    ensures Data(ss, k)[Offset(ss, j)..Offset(ss, j) + DataSize(ss[j])] == DataBytes(ss[j])
  {
    hide DataSize, DataBytes, Data, Offset;
    OffsetsGrow(ss, j, k);
    DataStep(ss, k);
    var a, x := Data(ss, k - 1), DataBytes(ss[k - 1]);
    if j < k - 1 {
      DataImage(ss, k - 1, j);
      SlicePrefix(a, x, Offset(ss, j), Offset(ss, j) + DataSize(ss[j]));
    } else {
      SliceLast(a, x);
    }
  }

  lemma ModTwice(v: int, m: int)
    requires m > 0
    ensures (v % m) % m == v % m
  {
    Euclid(v % m, 0, v % m, m);
  }

  /** Read back little-endian, the bytes are the value modulo 2^(8 size). */
  lemma SymbolValue(t: DataType, v: int)
    ensures FromBytes(SymbolBytes(t, v)) == v % Pow2(8 * Size(t))
  {
    var m := Pow2(8 * Size(t));
    BytesRoundTrip(v % m, Size(t));
    assert (v % m) % m == v % m by { ModAbsorb(0, v % m, m); ModTwice(v, m); }
  }

  /** While 32 bits suffice, every symbol's offset is where its bytes start. */
  ghost predicate Tiled(symbols: seq<Symbol>) {
    forall i :: 0 <= i < |symbols| ==> symbols[i].offset == |Image(symbols[..i])|
  }

  lemma TiledAppend(xs: seq<Symbol>, x: Symbol)
    requires Tiled(xs) && x.offset == |Image(xs)|
    ensures Tiled(xs + [x])
  {
    hide Image;
    forall i | 0 <= i < |xs| + 1
      ensures (xs + [x])[i].offset == |Image((xs + [x])[..i])|
    {
      assert (xs + [x])[..i] == xs[..i];
      assert xs[..|xs|] == xs;
    }
  }

  lemma TiledStep(ss: seq<Statement>, k: nat)
    requires k < |ss| && Tiled(SymbolsBefore(ss, k)) && |Image(SymbolsBefore(ss, k))| == Offset(ss, k) < WORD_LIMIT
    ensures Tiled(SymbolsBefore(ss, k + 1))
  {
    hide Image, Tiled, Offset;
    if ss[k].Declaration? {
      TiledAppend(SymbolsBefore(ss, k), Symbol(ss[k].name, ss[k].dataType, ss[k].value, Wrap(Offset(ss, k))));
    }
  }

  lemma {:induction false} SymbolsTiled(ss: seq<Statement>, k: nat)
    requires k <= |ss| && Offset(ss, k) < WORD_LIMIT
    ensures Tiled(SymbolsBefore(ss, k))
  {
    assert SymbolsBefore(ss, 0) == [];
    hide Image, SymbolsBefore, Data, Offset;
    if k == 0 {
    } else {
      OffsetsGrow(ss, k - 1, k);
      SymbolsTiled(ss, k - 1);
      ImageIsData(ss, k - 1);
      TiledStep(ss, k - 1);
    }
  }

  lemma {:induction false} OffsetBound(ss: seq<Statement>, k: nat)
    requires k <= |ss|
    ensures Offset(ss, k) <= 8 * k
  {
    if k == 0 {
    } else {
      OffsetBound(ss, k - 1);
    }
  }

  /** A WORD symbol read as a word is its value. */
  lemma WordSymbol(ss: seq<Statement>, j: nat)
    requires j < |ss| && ss[j].Declaration? && ss[j].dataType.WordType? && Offset(ss, |ss|) < WORD_LIMIT
    ensures Offset(ss, j) < WORD_LIMIT && WordRead(Data(ss, |ss|), Offset(ss, j)) == Some(Wrap(ss[j].value))
  {
    assert DataBytes(ss[j]) == SymbolBytes(WordType, ss[j].value) && DataSize(ss[j]) == 4;
    assert Pow2(8 * 4) == WORD_LIMIT by { Pow2Values(); }
    hide SymbolBytes, Data, Offset, DataBytes, Pow2;
    DataImage(ss, |ss|, j);
    SymbolValue(WordType, ss[j].value);
  }

  // ---- The assembler as a whole -------------------------------------------------------------------------

  /** Bracketed symbols are declared before, labels anywhere, services exist, only mov takes a symbol in brackets. */
  predicate InstructionOk(ss: seq<Statement>, k: nat)
    requires k < |ss| && ss[k].Ins?
  {
    var i := ss[k].i;
    && CellKnown(i, SymbolsBefore(ss, k))
    && ((i.Branch? || i.PushLabel?) ==> LastDefinition(ss, |ss|, i.name).Some?)
    && (i.Call? ==> ServiceOf(i.service).Some?)
    && (i.Binary? && i.source.FromMemory? ==> i.op.MOV?)
  }

  /** What a program must satisfy to be assembled. */
  predicate WellFormed(ss: seq<Statement>) {
    forall k :: 0 <= k < |ss| && ss[k].Ins? ==> InstructionOk(ss, k)
  }

  lemma GeneratedOk(ss: seq<Statement>, k: nat)
    requires k < |ss| && ss[k].Ins?
    ensures InstructionOk(ss, k) <==> CellKnown(ss[k].i, SymbolsBefore(ss, k)) && Generated(ss, k).Some?
  {
    var i := ss[k].i;
    if CellName(i).Some? && Find(SymbolsBefore(ss, k), CellName(i).value).Some? {
      SameOffset(ss, k, CellName(i).value);
    }
    if i.Branch? || i.PushLabel? {
      LabelResolution(ss, k, i.name);
    }
  }

  /** The assembler accepts exactly the well-formed programs. It then emits one word for each instruction, at the
      address that its labels were given, and the image of all symbols. */
  lemma AssembleExactly(ss: seq<Statement>)
    ensures Assemble(ss).Some? <==> WellFormed(ss)
    ensures Assemble(ss).Some? ==>
              var p := Assemble(ss).value;
              Emitted(ss, |ss|, p.code) && p.data == Data(ss, |ss|)
  {
    assert ss[..|ss|] == ss;
    FirstPass(ss, |ss|);
    SecondPass(ss, |ss|);
    ImageIsData(ss, |ss|);
    assert forall k :: 0 <= k < |ss| ==>
             (UseKnown(ss, k) <==> (ss[k].Ins? ==> CellKnown(ss[k].i, SymbolsBefore(ss, k))));
    forall k | 0 <= k < |ss| && ss[k].Ins?
      ensures InstructionOk(ss, k) <==> CellKnown(ss[k].i, SymbolsBefore(ss, k)) && Generated(ss, k).Some?
    {
      GeneratedOk(ss, k);
    }
    hide InstructionOk, Generated, LabelsBefore, LabelsAt, Offset, Count, CellKnown;
    assert WellFormed(ss) <==> forall k :: 0 <= k < |ss| && ss[k].Ins? ==> InstructionOk(ss, k);
  }

  /** A prefix that fails fails the whole pass. */
  lemma {:induction false} PassPrefix(ss: seq<Statement>, k: nat, e: Env, emit: bool)
    requires k <= |ss| && Pass(ss[..k], e, emit).None?
    ensures Pass(ss, e, emit).None?
    decreases |ss|
  {
    if k == |ss| {
      assert ss[..k] == ss;
    } else {
      assert ss[..|ss| - 1][..k] == ss[..k];
      PassPrefix(ss[..|ss| - 1], k, e, emit);
    }
  }

  /** From source text to program. */
  function AssembleSource(source: string): Option<Loader.Program> {
    match Statements(Stream(source, 0), NoSection)
    case None => None
    case Some(ss) => Assemble(ss)
  }

  /** The data that a source declares, if the first pass accepts it, is within reach of 32-bit offsets. */
  predicate DataFits(source: string) {
    var ss := Statements(Stream(source, 0), NoSection);
    ss.Some? && Pass(ss.value, EMPTY, false).Some? ==> Offset(ss.value, |ss.value|) < WORD_LIMIT
  }

  /** So it is for every source shorter than 512 MiB. */
  lemma ShortDataFits(source: string)
    requires |source| < 0x2000_0000
    ensures DataFits(source)
  {
    hide Statements, Stream, Pass;
    var ss := Statements(Stream(source, 0), NoSection);
    if ss.Some? {
      OffsetBound(ss.value, |ss.value|);
    }
  }

  /** Both passes end at the same code address, the size of the code, with the same labels. */
  lemma PassesAgree(ss: seq<Statement>)
    requires Assemble(ss).Some?
    ensures var first := Pass(ss, EMPTY, false).value.env;
            var second := Pass(ss, first.(address := 0), true).value;
            && second.env == first && first.address == Wrap(|second.code|)
  {
    assert ss[..|ss|] == ss;
    FirstPass(ss, |ss|);
    SecondPass(ss, |ss|);
    assert LabelsAt(ss, |ss|) == LabelsBefore(ss, |ss|);
  }
}
