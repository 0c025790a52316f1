/** The recursive factorial of examples/subroutine.asm, with any constant in place of its 5. */
module Factorial {
  import opened Words
  import opened Encoding
  import opened Memory
  import opened Syntax
  import opened Assembly
  import opened Machine
  import opened StackMachine
  import opened SourceSemantics
  import opened Simulation
  import opened System

  function Subroutine(n: Int16): (ss: seq<Statement>)
    ensures |ss| == 24
  {
    [ Enter(DataSection),
      Declaration(WordType, "result", 0),
      Enter(CodeSection),
      Ins(Binary(MOV, 0, Immediate(n))),           //  0
      Ins(PushLabel("return_addr")),               //  1
      Ins(Branch(JMP, "factorial")),               //  2
      Label("return_addr"),
      Ins(Transfer(STORE, 0, Cell("result"))),     //  3
      Ins(Call("print", Cell("result"))),          //  4
      Ins(Instruction.Halt),                       //  5
      Label("factorial"),
      Ins(Binary(CMP, 0, Immediate(1))),           //  6
      Ins(Branch(JLE, "base_case")),               //  7
      Ins(PushRegister(0)),                        //  8
      Ins(Unary(DEC, 0)),                          //  9
      Ins(PushLabel("return_from_rec")),           // 10
      Ins(Branch(JMP, "factorial")),               // 11
      Label("return_from_rec"),
      Ins(Instruction.Pop(1)),                     // 12
      Ins(Binary(MUL, 0, FromRegister(1))),        // 13
      Ins(Ret),                                    // 14
      Label("base_case"),
      Ins(Binary(MOV, 0, Immediate(1))),           // 15
      Ins(Ret) ]                                   // 16
  }

  function Fact(n: nat): nat {
    if n == 0 then 1 else n * Fact(n - 1)
  }

  // ---- Addresses ----------------------------------------------------------------------------------------

  /** The code address of each statement: sections, the declaration and labels take none. */
  function Address(k: nat): nat {
    if k <= 3 then 0 else if k <= 6 then k - 3 else if k <= 10 then k - 4 else if k <= 17 then k - 5
    else if k <= 21 then k - 6 else k - 7
  }

  lemma Instructions(n: Int16, k: nat)
    requires k < 24
    ensures Subroutine(n)[k].Ins? <==> k >= 3 && k != 6 && k != 10 && k != 17 && k != 21
  {
  }

  lemma {:induction false} Counts(n: Int16, k: nat)
    requires k <= 24
    ensures Count(Subroutine(n), k) == Address(k)
  {
    if k == 0 {
    } else {
      Counts(n, k - 1);
      Instructions(n, k - 1);
      hide Subroutine;
    }
  }

  lemma UniqueNames(n: Int16)
    ensures UniqueLabels(Subroutine(n))
  {
    var ss := Subroutine(n);
    assert |"return_addr"| == 11 && |"factorial"| == 9 && |"return_from_rec"| == 15 && |"base_case"| == 9;
    assert "factorial"[0] == 'f' && "base_case"[0] == 'b';
    assert forall k :: 0 <= k < 24 && ss[k].Label? ==> k == 6 || k == 10 || k == 17 || k == 21;
  }

  lemma LabelPlaces(n: Int16)
    ensures var ss := Subroutine(n);
            && ss[6] == Label("return_addr") && ss[10] == Label("factorial")
            && ss[17] == Label("return_from_rec") && ss[21] == Label("base_case")
  {
  }

  lemma Labels(n: Int16, k: nat)
    requires k <= 24
    ensures var m := LabelsAt(Subroutine(n), k);
            && "return_addr" in m && m["return_addr"] == 3 && "factorial" in m && m["factorial"] == 6
            && "return_from_rec" in m && m["return_from_rec"] == 12 && "base_case" in m && m["base_case"] == 15
  {
    hide Subroutine, Count, LabelsAt;
    var ss := Subroutine(n);
    LabelPlaces(n);
    UniqueNames(n);
    Counts(n, 6); Counts(n, 10); Counts(n, 17); Counts(n, 21);
    UniqueResolution(ss, k, 6, "return_addr");
    UniqueResolution(ss, k, 10, "factorial");
    UniqueResolution(ss, k, 17, "return_from_rec");
    UniqueResolution(ss, k, 21, "base_case");
  }

  lemma {:induction false} OffsetAfter(n: Int16, k: nat)
    requires 2 <= k <= 24
    ensures Offset(Subroutine(n), k) == 4
  {
    if k > 2 {
      OffsetAfter(n, k - 1);
    } else {
      assert Offset(Subroutine(n), 1) == 0;
    }
  }

  lemma ResultOffset(n: Int16, k: nat)
    requires 2 <= k <= 24
    ensures Find(SymbolsBefore(Subroutine(n), k), "result") == Some(0) && |Data(Subroutine(n), k)| == 4
  {
    var ss := Subroutine(n);
    assert FirstDeclaration(ss, 1, "result") == None;
    assert FirstDeclaration(ss, 2, "result") == Some(1);
    assert Offset(ss, 1) == 0;
    hide FirstDeclaration, Offset, SymbolsBefore, Find, Data;
    FirstDeclarationStays(ss, 2, k, "result");
    SymbolResolution(ss, k, "result");
    OffsetAfter(n, k);
  }

  // ---- Single steps -------------------------------------------------------------------------------------

  lemma Resolves(n: Int16, k: nat)
    requires k < 24 && Subroutine(n)[k].Ins?
    ensures Generated(Subroutine(n), k).Some?
  {
    hide LabelsAt, SymbolsBefore, Find;
    Labels(n, k);
    ResultOffset(n, 24);
  }

  lemma AtStatement(n: Int16, k: nat, s: Process)
    requires k < 24 && Subroutine(n)[k].Ins? && s.core.pc == Address(k)
    ensures Generated(Subroutine(n), k).Some? && s.core.pc < Count(Subroutine(n), 24)
    ensures SourceStep(Subroutine(n), s)
         == Meaning(Subroutine(n)[k].i, LabelsAt(Subroutine(n), k), Symbols(Subroutine(n)), s, STACK_WORDS)
  {
    var ss := Subroutine(n);
    Resolves(n, k);
    hide Subroutine, Count, LabelsAt, Symbols, Find, Meaning, Generated;
    Counts(n, k);
    PositionOf(ss, 24, k);
  }

  function Return(s: Process): StackMachine.Result {
    if s.stack == [] then Ended(s, Error, [])
    else Ended(s.(core := s.core.Goto(s.stack[0]), stack := s.stack[1..]), Jump, [])
  }

  /** The instructions of the program, with addresses for names. */
  function Resolution(n: Int16, s: Process): StackMachine.Result {
    var k := s.core;
    var v: int := k.gpr[0];
    match k.pc
    case 0 => Ended(s.(core := k.Set(0, Wrap(n)).Advance()), Continue, [])
    case 1 => PushMeaning(3, s, STACK_WORDS)
    case 2 => Ended(s.(core := k.Goto(6)), Jump, [])
    case 3 => StoreMeaning(0, 0, s)
    case 4 => CallMeaning(SYS_PRINT, 0, s)
    case 5 => Ended(s, Machine.Halt(false), [])
    case 6 => Ended(s.(core := k.WithFlags(SubFlags(k.gpr[0], 1, Wrap(v - 1))).Advance()), Continue, [])
    case 7 => CoreMeaning(Branched(JLE, k, 15), s)
    case 8 => PushMeaning(k.gpr[0], s, STACK_WORDS)
    case 9 => CoreMeaning((Difference(k, 0, k.gpr[0], 1), Continue), s)
    case 10 => PushMeaning(12, s, STACK_WORDS)
    case 11 => Ended(s.(core := k.Goto(6)), Jump, [])
    case 12 =>
      if s.stack == [] then Ended(s, Error, [])
      else Ended(s.(core := k.Set(1, s.stack[0]).Advance(), stack := s.stack[1..]), Continue, [])
    case 13 => CoreMeaning((Machine.Result(k, 0, Wrap(v * k.gpr[1])), Continue), s)
    case 15 => Ended(s.(core := k.Set(0, 1).Advance()), Continue, [])
    case _ => Return(s)
  }

  /** What each statement does, given what its names stand for: the main program, the recursive case and the rest. */
  lemma MainIs(n: Int16, k: nat, s: Process)
    requires 0 <= k <= 9 && Subroutine(n)[k].Ins? && s.core.pc == Address(k)
    ensures Generated(Subroutine(n), k).Some?
    ensures Meaning(Subroutine(n)[k].i, LabelsAt(Subroutine(n), k), Symbols(Subroutine(n)), s, STACK_WORDS)
         == Resolution(n, s)
  {
    Resolves(n, k);
    Labels(n, k);
    ResultOffset(n, 24);
    Instructions(n, k);
    hide LabelsAt, SymbolsBefore, Find, Generated, Lower, Difference, Machine.Result, SubFlags, Branched;
  }

  lemma TestIs(n: Int16, s: Process)
    requires s.core.pc == Address(11)
    ensures Generated(Subroutine(n), 11).Some? && Subroutine(n)[11].Ins?
    ensures Meaning(Subroutine(n)[11].i, LabelsAt(Subroutine(n), 11), Symbols(Subroutine(n)), s, STACK_WORDS)
         == Resolution(n, s)
  {
    Resolves(n, 11);
    assert Wrap(1) == 1;
    hide LabelsAt, Symbols, Find, Generated, Lower, Machine.Result, SubFlags, Branched, Wrap;
  }

  lemma BranchIs(n: Int16, k: nat, s: Process)
    requires 12 <= k <= 13 && Subroutine(n)[k].Ins? && s.core.pc == Address(k)
    ensures Generated(Subroutine(n), k).Some?
    ensures Meaning(Subroutine(n)[k].i, LabelsAt(Subroutine(n), k), Symbols(Subroutine(n)), s, STACK_WORDS)
         == Resolution(n, s)
  {
    Resolves(n, k);
    Labels(n, k);
    ResultOffset(n, 24);
    Instructions(n, k);
    hide LabelsAt, SymbolsBefore, Find, Generated, Lower, Difference, Machine.Result, SubFlags, Branched;
  }

  lemma DescentIs(n: Int16, k: nat, s: Process)
    requires 14 <= k <= 16 && Subroutine(n)[k].Ins? && s.core.pc == Address(k)
    ensures Generated(Subroutine(n), k).Some?
    ensures Meaning(Subroutine(n)[k].i, LabelsAt(Subroutine(n), k), Symbols(Subroutine(n)), s, STACK_WORDS)
         == Resolution(n, s)
  {
    Resolves(n, k);
    Labels(n, k);
    ResultOffset(n, 24);
    Instructions(n, k);
    hide LabelsAt, SymbolsBefore, Find, Generated, Lower, Difference, Machine.Result, SubFlags, Branched;
  }

  lemma AscentIs(n: Int16, k: nat, s: Process)
    requires 17 <= k <= 20 && Subroutine(n)[k].Ins? && s.core.pc == Address(k)
    ensures Generated(Subroutine(n), k).Some?
    ensures Meaning(Subroutine(n)[k].i, LabelsAt(Subroutine(n), k), Symbols(Subroutine(n)), s, STACK_WORDS)
         == Resolution(n, s)
  {
    Resolves(n, k);
    Labels(n, k);
    ResultOffset(n, 24);
    Instructions(n, k);
    hide LabelsAt, SymbolsBefore, Find, Generated, Lower, Difference, Machine.Result, SubFlags, Branched;
  }

  lemma BaseIs(n: Int16, k: nat, s: Process)
    requires 21 <= k <= 23 && Subroutine(n)[k].Ins? && s.core.pc == Address(k)
    ensures Generated(Subroutine(n), k).Some?
    ensures Meaning(Subroutine(n)[k].i, LabelsAt(Subroutine(n), k), Symbols(Subroutine(n)), s, STACK_WORDS)
         == Resolution(n, s)
  {
    Resolves(n, k);
    Labels(n, k);
    ResultOffset(n, 24);
    Instructions(n, k);
    hide LabelsAt, SymbolsBefore, Find, Generated, Lower, Difference, Machine.Result, SubFlags, Branched;
  }

  lemma StepIs(n: Int16, s: Process)
    requires s.core.pc < 17
    ensures SourceStep(Subroutine(n), s) == Resolution(n, s) && s.core.pc < Count(Subroutine(n), 24)
  {
    var pc := s.core.pc;
    var k := if pc < 3 then pc + 3 else if pc < 6 then pc + 4
             else if pc < 12 then pc + 5 else if pc < 15 then pc + 6 else pc + 7;
    Instructions(n, k);
    AtStatement(n, k, s);
    if k <= 9 {
      MainIs(n, k, s);
    } else if k <= 16 {
      if k == 11 { TestIs(n, s); } else if k <= 13 { BranchIs(n, k, s); } else { DescentIs(n, k, s); }
    } else {
      if k <= 20 { AscentIs(n, k, s); } else { BaseIs(n, k, s); }
    }
    hide Subroutine, SourceStep, LabelsAt, Symbols, Generated, Count, Meaning, Resolution;
  }

  // ---- Runs ---------------------------------------------------------------------------------------------

  /** A step that neither ends the process nor prints. */
  lemma Do(n: Int16, s: Process, t: Process)
    requires s.core.pc < 17 && KeepsGoing(Resolution(n, s).outcome) && Resolution(n, s).printed == []
    requires t == Resolution(n, s).process
    ensures Goes(Subroutine(n), s, t, 1)
  {
    StepIs(n, s);
    hide Subroutine, SourceStep, Resolution, Goes, Count;
    GoesOne(Subroutine(n), s);
  }

  /** cmp r0, 1 and jle, for numbers whose comparison cannot overflow. */
  lemma Test(n: Int16, s: Process) returns (t: Process)
    requires s.core.pc == 6 && -0x800 <= Signed(s.core.gpr[0]) < 0x800
    ensures Goes(Subroutine(n), s, t, 2)
    ensures t.stack == s.stack && t.data == s.data && t.core.gpr == s.core.gpr
    ensures t.core.pc == if Signed(s.core.gpr[0]) <= 1 then 15 else 8
  {
    hide Subroutine, Goes;
    CompareFlags(s.core.gpr[0], 1);
    var u := Resolution(n, s).process;
    Do(n, s, u);
    t := Resolution(n, u).process;
    Do(n, u, t);
    GoesThen(Subroutine(n), s, u, t, 1, 1);
  }

  /** The base case: r0 becomes 1 and the return address is popped. */
  lemma Base(n: Int16, s: Process) returns (t: Process)
    requires s.core.pc == 15 && s.stack != []
    ensures Goes(Subroutine(n), s, t, 2)
    ensures t == s.(core := s.core.Set(0, 1).Goto(s.stack[0]), stack := s.stack[1..])
  {
    hide Subroutine, Goes;
    var u := Resolution(n, s).process;
    Do(n, s, u);
    t := Resolution(n, u).process;
    Do(n, u, t);
    GoesThen(Subroutine(n), s, u, t, 1, 1);
  }

  /** push r0 and dec r0. */
  lemma SaveNumber(n: Int16, s: Process) returns (t: Process)
    requires s.core.pc == 8 && s.core.gpr[0] > 0 && |s.stack| < STACK_WORDS
    ensures Goes(Subroutine(n), s, t, 2)
    ensures t.core.pc == 10 && t.core.gpr[0] == s.core.gpr[0] - 1
                && t.stack == [s.core.gpr[0]] + s.stack && t.data == s.data
  {
    hide Subroutine, Goes;
    var u := Resolution(n, s).process;
    Do(n, s, u);
    WrapDifference(s.core.gpr[0], 1);
    t := Resolution(n, u).process;
    Do(n, u, t);
    GoesThen(Subroutine(n), s, u, t, 1, 1);
  }

  /** push return_from_rec and jmp factorial. */
  lemma EnterCall(n: Int16, s: Process) returns (t: Process)
    requires s.core.pc == 10 && |s.stack| < STACK_WORDS
    ensures Goes(Subroutine(n), s, t, 2)
    ensures t == s.(core := s.core.Goto(6), stack := [12] + s.stack)
  {
    hide Subroutine, Goes;
    var u := Resolution(n, s).process;
    Do(n, s, u);
    t := Resolution(n, u).process;
    Do(n, u, t);
    GoesThen(Subroutine(n), s, u, t, 1, 1);
  }

  /** The recursive call: r0 and the return address are pushed, and r0 is one less. */
  lemma Descend(n: Int16, s: Process) returns (t: Process)
    requires s.core.pc == 8 && s.core.gpr[0] > 0 && |s.stack| + 2 <= STACK_WORDS
    ensures Goes(Subroutine(n), s, t, 4)
    ensures t.core.pc == 6 && t.core.gpr[0] == s.core.gpr[0] - 1
    ensures t.stack == [12, s.core.gpr[0]] + s.stack && t.data == s.data
  {
    hide Subroutine, Goes;
    var u := SaveNumber(n, s);
    t := EnterCall(n, u);
    GoesThen(Subroutine(n), s, u, t, 2, 2);
    assert [12] + ([s.core.gpr[0]] + s.stack) == [12, s.core.gpr[0]] + s.stack;
  }

  /** pop r1 and mul r0, r1. */
  lemma Multiply(n: Int16, s: Process) returns (t: Process)
    requires s.core.pc == 12 && s.stack != []
    ensures Goes(Subroutine(n), s, t, 2)
    ensures t.core.pc == 14 && t.stack == s.stack[1..] && t.data == s.data
    ensures t.core.gpr[0] == Wrap(s.core.gpr[0] as int * s.stack[0] as int)
  {
    hide Subroutine, Goes;
    var u := Resolution(n, s).process;
    Do(n, s, u);
    t := Resolution(n, u).process;
    Do(n, u, t);
    GoesThen(Subroutine(n), s, u, t, 1, 1);
  }

  /** After the recursive call: the saved number is multiplied in and the return address is popped. */
  lemma Ascend(n: Int16, s: Process) returns (t: Process)
    requires s.core.pc == 12 && |s.stack| >= 2
    ensures Goes(Subroutine(n), s, t, 3)
    ensures t.core.pc == s.stack[1] && t.stack == s.stack[2..] && t.data == s.data
    ensures t.core.gpr[0] == Wrap(s.core.gpr[0] as int * s.stack[0] as int)
  {
    hide Subroutine, Goes;
    var u := Multiply(n, s);
    t := Resolution(n, u).process;
    Do(n, u, t);
    GoesThen(Subroutine(n), s, u, t, 2, 1);
    assert s.stack[1..][1..] == s.stack[2..];
  }

  // ---- The recursion ------------------------------------------------------------------------------------

  lemma FactStep(m: nat)
    requires m >= 1
    ensures Wrap(Wrap(Fact(m - 1)) as int * m) == Wrap(Fact(m))
  {
    WrapMul(Fact(m - 1), m);
    assert Fact(m - 1) * m == Fact(m);
  }

  /** A call with m in r0 and room for its frames returns to the address on the stack with m! in r0 and the rest of
      the stack as it was. */
  lemma {:induction false} Calls(n: Int16, s: Process, m: nat) returns (t: Process, k: nat)
    requires s.core.pc == 6 && s.core.gpr[0] == m < 0x800 && s.stack != []
    requires |s.stack| + 2 * (if m == 0 then 0 else m - 1) <= STACK_WORDS
    ensures Goes(Subroutine(n), s, t, k)
    ensures t.core.pc == s.stack[0] && t.stack == s.stack[1..] && t.data == s.data
    ensures t.core.gpr[0] == Wrap(Fact(m))
    decreases m
  {
    hide Subroutine, Goes;
    var a := Test(n, s);
    if m <= 1 {
      t := Base(n, a);
      k := 4;
      GoesThen(Subroutine(n), s, a, t, 2, 2);
    } else {
      var b := Descend(n, a);
      GoesThen(Subroutine(n), s, a, b, 2, 4);
      var c, j := Calls(n, b, m - 1);
      GoesThen(Subroutine(n), s, b, c, 6, j);
      t := Ascend(n, c);
      k := 6 + j + 3;
      GoesThen(Subroutine(n), s, c, t, 6 + j, 3);
      FactStep(m);
    }
  }

  /** A push onto the full stack. */
  lemma Fails(n: Int16, s: Process)
    requires (s.core.pc == 8 || s.core.pc == 10) && |s.stack| >= STACK_WORDS
    ensures SourceEndsAfter(Subroutine(n), s, 1) && SourceOutcome(Subroutine(n), s, 0) == Error
    ensures SourcePrinted(Subroutine(n), s, 1) == []
  {
    hide Subroutine, SourceEndsAfter, SourceStep, SourceOutcome, SourcePrinted, SourceRun, Count;
    StepIs(n, s);
    assert Resolution(n, s) == Ended(s, Error, []);
    hide Resolution;
    EndsAtOnce(Subroutine(n), s);
  }

  /** A call without that room ends in a stack overflow. */
  lemma {:induction false} Overflows(n: Int16, s: Process, m: nat) returns (k: nat)
    requires s.core.pc == 6 && s.core.gpr[0] == m < 0x800
    requires |s.stack| <= STACK_WORDS < |s.stack| + 2 * (m as int - 1)
    ensures SourceEndsAfter(Subroutine(n), s, k) && SourceOutcome(Subroutine(n), s, k - 1) == Error
    ensures SourcePrinted(Subroutine(n), s, k) == []
    decreases m
  {
    hide Subroutine, Goes, SourceEndsAfter, SourceOutcome, SourcePrinted, SourceRun;
    var a := Test(n, s);
    if |s.stack| + 2 <= STACK_WORDS {
      var b := Descend(n, a);
      GoesThen(Subroutine(n), s, a, b, 2, 4);
      var j := Overflows(n, b, m - 1);
      GoesEnds(Subroutine(n), s, b, 6, j);
      k := 6 + j;
    } else if |s.stack| == STACK_WORDS {
      Fails(n, a);
      GoesEnds(Subroutine(n), s, a, 2, 1);
      k := 3;
    } else {
      var b := SaveNumber(n, a);
      Fails(n, b);
      GoesThen(Subroutine(n), s, a, b, 2, 2);
      GoesEnds(Subroutine(n), s, b, 4, 1);
      k := 5;
    }
  }

  // ---- The program --------------------------------------------------------------------------------------

  /** The state in which a process with this program starts. */
  ghost predicate Initial(s: Process) {
    s.core.pc == 0 && s.stack == [0] && |s.data| == 4
  }

  lemma Begin(n: Int16, s: Process) returns (t: Process)
    requires Initial(s)
    ensures Goes(Subroutine(n), s, t, 3)
    ensures t.core.pc == 6 && t.core.gpr[0] == Wrap(n) && t.stack == [3, 0] && t.data == s.data
  {
    hide Subroutine, Goes;
    var a := Resolution(n, s).process;
    Do(n, s, a);
    var b := Resolution(n, a).process;
    Do(n, a, b);
    t := Resolution(n, b).process;
    Do(n, b, t);
    GoesThen(Subroutine(n), s, a, b, 1, 1);
    GoesThen(Subroutine(n), s, b, t, 2, 1);
    assert [3] + [0] == [3, 0];
  }

  function FactOf(n: int): Word {
    Wrap(Fact(if n < 0 then 0 else n))
  }

  /** The whole call of the main program. */
  lemma Evaluates(n: Int16, s: Process) returns (t: Process, k: nat)
    requires Initial(s) && -0x800 <= n <= 512
    ensures Goes(Subroutine(n), s, t, k)
    ensures t.core.pc == 3 && t.core.gpr[0] == FactOf(n) && t.stack == [0] && t.data == s.data
  {
    hide Subroutine, Goes;
    var a := Begin(n, s);
    WrapSigned(n);
    if n >= 1 {
      var j;
      t, j := Calls(n, a, n);
      k := 3 + j;
      GoesThen(Subroutine(n), s, a, t, 3, j);
    } else {
      var b := Test(n, a);
      t := Base(n, b);
      k := 7;
      GoesThen(Subroutine(n), s, a, b, 3, 2);
      GoesThen(Subroutine(n), s, b, t, 5, 2);
    }
    assert [3, 0][1..] == [0];
  }

  lemma Stores(n: Int16, s: Process)
    requires s.core.pc == 3 && |s.data| == 4
    ensures SourceStep(Subroutine(n), s)
         == Ended(s.(core := s.core.Goto(4), data := Bytes(s.core.gpr[0], 4)), Continue, [])
    ensures s.core.pc < Count(Subroutine(n), 24)
  {
    var v := s.core.gpr[0];
    StepIs(n, s);
    assert Splice(s.data, 0, Bytes(v, 4)) == Bytes(v, 4);
    hide Subroutine, SourceStep, Count, Bytes;
  }

  lemma StoredWord(d: Mem, v: Word)
    requires d == Bytes(v, 4)
    ensures WordRead(d, 0) == Some(v)
  {
    WrittenWord(d, 0, v);
    assert Splice(d, 0, Bytes(v, 4)) == d;
  }

  lemma PrintsWord(n: Int16, s: Process, v: Word)
    requires s.core.pc == 4 && s.data == Bytes(v, 4)
    ensures SourceStep(Subroutine(n), s) == Ended(s.(core := s.core.Goto(5)), Continue, [v])
    ensures s.core.pc < Count(Subroutine(n), 24)
  {
    hide Subroutine, SourceStep, Count, Bytes, WordAt;
    StepIs(n, s);
    StoredWord(s.data, v);
    assert s.core.Advance() == s.core.Goto(5);
  }

  lemma Halts(n: Int16, s: Process)
    requires s.core.pc == 5
    ensures SourceStep(Subroutine(n), s) == Ended(s, Machine.Halt(false), []) && s.core.pc < Count(Subroutine(n), 24)
  {
    StepIs(n, s);
    hide Subroutine, SourceStep, Count;
  }

  /** store, print and halt. */
  lemma Reports(n: Int16, s: Process)
    requires s.core.pc == 3 && |s.data| == 4
    ensures SourceEndsAfter(Subroutine(n), s, 3) && SourceOutcome(Subroutine(n), s, 2) == Machine.Halt(false)
    ensures SourcePrinted(Subroutine(n), s, 3) == [s.core.gpr[0]]
    ensures SourceRun(Subroutine(n), s, 3) == s.(core := s.core.Goto(5), data := Bytes(s.core.gpr[0], 4))
  {
    hide Subroutine, SourceStep, Count, Bytes;
    var v, ss := s.core.gpr[0], Subroutine(n);
    var a := s.(core := s.core.Goto(4), data := Bytes(v, 4));
    var b := s.(core := s.core.Goto(5), data := Bytes(v, 4));
    Stores(n, s);
    PrintsWord(n, a, v);
    Halts(n, b);
    assert SourceRun(ss, s, 1) == a && SourceRun(ss, s, 2) == b && SourceRun(ss, s, 3) == b;
    assert SourcePrinted(ss, s, 1) == [] && SourcePrinted(ss, s, 2) == [v] && SourcePrinted(ss, s, 3) == [v];
    assert GoesOnAt(ss, s, 0) && GoesOnAt(ss, s, 1);
  }

  /** Up to 512 the program prints n! modulo 2^32, leaves it in r0 and in its data, and halts with the stack as at the
      start; a negative number counts as 0. */
  lemma Prints(n: Int16, s: Process) returns (k: nat)
    requires Initial(s) && -0x800 <= n <= 512
    ensures SourceEndsAfter(Subroutine(n), s, k) && SourceOutcome(Subroutine(n), s, k - 1) == Machine.Halt(false)
    ensures SourcePrinted(Subroutine(n), s, k) == [FactOf(n)]
    ensures var t := SourceRun(Subroutine(n), s, k);
            t.core.gpr[0] == FactOf(n) && t.stack == [0] && t.data == Bytes(FactOf(n), 4)
  {
    hide Subroutine, Goes, SourceEndsAfter, SourceOutcome, SourcePrinted, SourceRun;
    var t, j := Evaluates(n, s);
    Reports(n, t);
    GoesEnds(Subroutine(n), s, t, j, 3);
    k := j + 3;
  }

  /** Beyond 512 it overflows the stack and prints nothing. */
  lemma TooDeep(n: Int16, s: Process) returns (k: nat)
    requires Initial(s) && 512 < n < 0x800
    ensures SourceEndsAfter(Subroutine(n), s, k) && SourceOutcome(Subroutine(n), s, k - 1) == Error
    ensures SourcePrinted(Subroutine(n), s, k) == []
  {
    hide Subroutine, Goes, SourceEndsAfter, SourceOutcome, SourcePrinted, SourceRun;
    var a := Begin(n, s);
    assert Wrap(n) == n;
    var j := Overflows(n, a, n);
    GoesEnds(Subroutine(n), s, a, 3, j);
    k := 3 + j;
  }
}
