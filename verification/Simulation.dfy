/** Assembler correctness: the loaded words of a faithful program simulate the source program step for step. */
module Simulation {
  import opened Words
  import opened Encoding
  import opened Memory
  import opened Segments
  import opened Syntax
  import opened Assembly
  import opened Machine
  import opened StackMachine
  import opened SourceSemantics
  import opened Loader
  import opened System

  /** Every process has a stack of 4 KiB. */
  const STACK_WORDS: nat := STACK_SIZE / 4

  /** The statement that holds instruction j. */
  function Position(ss: seq<Statement>, k: nat, j: nat): (p: nat)
    requires k <= |ss| && j < Count(ss, k)
    ensures p < k && ss[p].Ins? && Count(ss, p) == j
  {
    if ss[k - 1].Ins? && Count(ss, k - 1) == j then k - 1 else Position(ss, k - 1, j)
  }

  /** One step of the source program. Running off the program is a fault, as is what cannot be assembled. */
  function SourceStep(ss: seq<Statement>, s: Process): StackMachine.Result {
    if s.core.pc < Count(ss, |ss|) && Generated(ss, Position(ss, |ss|, s.core.pc)).Some? then
      var k := Position(ss, |ss|, s.core.pc);
      Meaning(ss[k].i, LabelsAt(ss, k), Symbols(ss), s, STACK_WORDS)
    else Ended(s, Throw, [])
  }

  function SourceRun(ss: seq<Statement>, s: Process, n: nat): Process {
    if n == 0 then s else SourceStep(ss, SourceRun(ss, s, n - 1)).process
  }

  function SourceOutcome(ss: seq<Statement>, s: Process, n: nat): Machine.Outcome {
    SourceStep(ss, SourceRun(ss, s, n)).outcome
  }

  function SourcePrinted(ss: seq<Statement>, s: Process, n: nat): seq<Word> {
    if n == 0 then [] else SourcePrinted(ss, s, n - 1) + SourceStep(ss, SourceRun(ss, s, n - 1)).printed
  }

  predicate FaithfulAt(ss: seq<Statement>, k: nat)
    requires k < |ss| && ss[k].Ins?
  {
    Generated(ss, k).Some? && Proper(ss[k].i) && Faithful(ss[k].i, LabelsAt(ss, k), Symbols(ss))
  }

  /** Every instruction means the same as its word. */
  ghost predicate FaithfulProgram(ss: seq<Statement>) {
    forall k :: 0 <= k < |ss| && ss[k].Ins? ==> FaithfulAt(ss, k)
  }

  /** The first n steps execute instructions of the program. */
  ghost predicate Inside(ss: seq<Statement>, s: Process, n: nat) {
    forall j :: 0 <= j < n ==> SourceRun(ss, s, j).core.pc < Count(ss, |ss|)
  }

  /** The process at s has the assembled program in its segments. */
  ghost predicate Hosts(ss: seq<Statement>, s: State, l: Layout) {
    && Assemble(ss).Some? && Holds(s.mem, l, Assemble(ss).value) && l.SpOk(s.sp)
  }

  lemma HostsShape(ss: seq<Statement>, s: State, l: Layout)
    requires Hosts(ss, s, l)
    ensures l.Fits(|s.mem|) && l.SpOk(s.sp) && l.stackSize == STACK_SIZE
  {
    hide Assemble, DataOf;
  }

  lemma LoadedWord(mem: Mem, l: Layout, p: Program, pc: Word)
    requires Holds(mem, l, p) && pc < |p.code|
    ensures 4 * pc + 4 <= l.codeSize && CodeWordRead(mem, l, pc) == Some(p.code[pc])
  {
    hide DataOf;
    CodeAddressOf(l, |mem|, pc);
  }

  /** What is fetched is the word that was assembled. */
  lemma Fetched(ss: seq<Statement>, s: State, l: Layout, n: nat, pc: Word)
    requires Hosts(ss, s, l) && pc < Count(ss, |ss|)
    ensures |Assemble(ss).value.code| == Count(ss, |ss|)
    ensures CodeWordRead(Solo(s, l, n).mem, l, pc) == Some(Assemble(ss).value.code[pc])
  {
    AssembleExactly(ss);
    HostsShape(ss, s, l);
    LoadedWord(s.mem, l, Assemble(ss).value, pc);
    hide Assemble, Holds, Solo, Count, CodeWordRead;
    CodeImmutable(s, l, n, pc);
  }

  lemma StepSimulates(ss: seq<Statement>, s: State, l: Layout)
    requires FaithfulProgram(ss) && Assemble(ss).Some?
    requires l.Fits(|s.mem|) && l.SpOk(s.sp) && l.stackSize == STACK_SIZE
    requires s.core.pc < Count(ss, |ss|) == |Assemble(ss).value.code|
    requires CodeWordRead(s.mem, l, s.core.pc) == Some(Assemble(ss).value.code[s.core.pc])
    ensures var e := Step(s, l);
            && |e.state.mem| == |s.mem| && l.SpOk(e.state.sp)
            && Ended(Abstract(e.state, l), e.outcome, e.printed) == SourceStep(ss, Abstract(s, l))
  {
    var k := Position(ss, |ss|, s.core.pc);
    AssembleExactly(ss);
    assert FaithfulAt(ss, k);
    var f := Generated(ss, k).value;
    assert Assemble(ss).value.code[s.core.pc] == f.Raw();
    hide Assemble, Count, LabelsAt, Run1, Meaning, Execute, Decode, Faithful, Lower, StackOf, DataOf;
    ExecuteRefines(Decode(f.Raw()), s, l);
    FaithfulMeaning(ss[k].i, LabelsAt(ss, k), Symbols(ss), Abstract(s, l), STACK_WORDS);
  }

  /** After n steps the loaded process stands for the source process, and they have printed the same. */
  ghost predicate Alike(ss: seq<Statement>, s: State, l: Layout, n: nat) {
    var t := Solo(s, l, n);
    && l.Fits(|s.mem|) && l.SpOk(s.sp) && |t.mem| == |s.mem| && l.SpOk(t.sp)
    && Abstract(t, l) == SourceRun(ss, Abstract(s, l), n)
    && SoloPrinted(s, l, n) == SourcePrinted(ss, Abstract(s, l), n)
  }

  lemma AlikeStart(ss: seq<Statement>, s: State, l: Layout)
    requires Hosts(ss, s, l)
    ensures Alike(ss, s, l, 0)
  {
    HostsShape(ss, s, l);
    hide Hosts, StackOf, DataOf;
  }

  lemma AlikeStep(ss: seq<Statement>, s: State, l: Layout, n: nat)
    requires FaithfulProgram(ss) && Hosts(ss, s, l) && Alike(ss, s, l, n)
    requires Solo(s, l, n).core.pc < Count(ss, |ss|)
    ensures Alike(ss, s, l, n + 1)
    ensures SoloOutcome(s, l, n) == SourceOutcome(ss, Abstract(s, l), n)
  {
    HostsShape(ss, s, l);
    var t := Solo(s, l, n);
    Fetched(ss, s, l, n, t.core.pc);
    assert Assemble(ss).Some?;
    hide FaithfulProgram, Assemble, SourceStep, Step, StackOf, DataOf, Count, Hosts, CodeWordRead;
    StepSimulates(ss, t, l);
  }

  lemma AlikePc(ss: seq<Statement>, s: State, l: Layout, n: nat)
    requires Alike(ss, s, l, n)
    ensures l.Fits(|s.mem|) && l.SpOk(s.sp) && Solo(s, l, n).core == SourceRun(ss, Abstract(s, l), n).core
  {
    hide Solo, SourceRun, StackOf, DataOf;
  }

  /** For every n for which the source program stays inside itself, n instructions of the loaded process lead to the
      registers, stack and data that n steps of the source lead to, with the same output, */
  lemma {:induction false} Simulates(ss: seq<Statement>, s: State, l: Layout, n: nat)
    requires FaithfulProgram(ss) && Hosts(ss, s, l)
    requires l.Fits(|s.mem|) && l.SpOk(s.sp) && Inside(ss, Abstract(s, l), n)
    ensures Alike(ss, s, l, n)
  {
    hide Alike, FaithfulProgram, Hosts, Abstract, Count, SourceRun, Solo;
    if n == 0 {
      AlikeStart(ss, s, l);
    } else {
      Simulates(ss, s, l, n - 1);
      AlikePc(ss, s, l, n - 1);
      AlikeStep(ss, s, l, n - 1);
    }
  }

  /** and instruction n ends as the source's step n does. */
  lemma OutcomesAgree(ss: seq<Statement>, s: State, l: Layout, n: nat)
    requires FaithfulProgram(ss) && Hosts(ss, s, l)
    requires l.Fits(|s.mem|) && l.SpOk(s.sp) && Inside(ss, Abstract(s, l), n + 1)
    ensures SoloOutcome(s, l, n) == SourceOutcome(ss, Abstract(s, l), n)
  {
    hide Alike, FaithfulProgram, Hosts, Abstract, Count, SourceRun, Solo, SoloOutcome, SourceOutcome;
    Simulates(ss, s, l, n);
    AlikePc(ss, s, l, n);
    AlikeStep(ss, s, l, n);
  }

  // ---- A condition that can be read off the source ------------------------------------------------------

  predicate PlainOperands(i: Instruction) {
    match i
    case PushRegister(r) => r != IMMEDIATE_MARKER
    case PushNumber(v) => Short(v)
    case Call(_, At(v)) => 0 <= v < 0x800
    case Transfer(_, _, At(v)) => Short(v)
    case Binary(_, _, FromRegister(r)) => r != IMMEDIATE_MARKER
    case Binary(_, _, Immediate(v)) => Short(v)
    case _ => true
  }

  lemma {:induction false} CountGrows(ss: seq<Statement>, j: nat, k: nat)
    requires j <= k <= |ss|
    ensures Count(ss, j) <= Count(ss, k)
  {
    if j == k {
    } else {
      CountGrows(ss, j, k - 1);
    }
  }

  lemma SmallLabel(ss: seq<Statement>, k: nat, name: string)
    requires k <= |ss| && Count(ss, |ss|) < 0x800 && name in LabelsAt(ss, k)
    ensures LabelsAt(ss, k)[name] < 0x800
  {
    LabelResolution(ss, k, name);
    CountGrows(ss, Definition(ss, k, name).value, |ss|);
    hide Count, LabelsAt;
  }

  lemma SmallOffset(ss: seq<Statement>, name: string)
    requires Offset(ss, |ss|) <= 0x800 && Find(Symbols(ss), name).Some?
    ensures Find(Symbols(ss), name).value < 0x800
  {
    SymbolResolution(ss, |ss|, name);
    OffsetsGrow(ss, FirstDeclaration(ss, |ss|, name).value, |ss|);
    hide Offset, Find, SymbolsBefore;
  }

  lemma PlainPlace(i: Instruction, symbols: seq<Symbol>)
    requires PlainOperands(i)
    ensures i.Call? && i.arg.At? ==> CallReachable(Wrap(i.arg.value))
    ensures i.Transfer? && i.place.At? ==> Reachable(Wrap(i.place.value))
  {
    if i.Transfer? && i.place.At? {
      WrapSigned(i.place.value);
    }
  }

  lemma PlainFaithfulAt(ss: seq<Statement>, k: nat)
    requires k < |ss| && ss[k].Ins? && Generated(ss, k).Some? && Proper(ss[k].i) && PlainOperands(ss[k].i)
    requires Count(ss, |ss|) < 0x800 && Offset(ss, |ss|) <= 0x800
    ensures FaithfulAt(ss, k)
  {
    hide Count, Offset, LabelsAt, SymbolsBefore, Find;
    var i := ss[k].i;
    if CellName(i).Some? {
      SmallOffset(ss, CellName(i).value);
    }
    if i.Branch? || i.PushLabel? {
      SmallLabel(ss, k, i.name);
    }
    PlainPlace(i, Symbols(ss));
  }

  /** Fewer than 2048 instructions, at most 2048 bytes of data, 12-bit numbers and no r15 on the right: such a program
      is faithful. */
  lemma PlainFaithful(ss: seq<Statement>)
    requires Assemble(ss).Some? && Count(ss, |ss|) < 0x800 && Offset(ss, |ss|) <= 0x800
    requires forall k :: 0 <= k < |ss| && ss[k].Ins? ==> Proper(ss[k].i) && PlainOperands(ss[k].i)
    ensures FaithfulProgram(ss)
  {
    AssembleExactly(ss);
    hide Count, Offset, Proper, PlainOperands, Generated, FaithfulAt, Assemble;
    forall k | 0 <= k < |ss| && ss[k].Ins?
      ensures FaithfulAt(ss, k)
    {
      PlainFaithfulAt(ss, k);
    }
  }

  // ---- Runs of the source -------------------------------------------------------------------------------

  lemma {:induction false} PositionOf(ss: seq<Statement>, n: nat, k: nat)
    requires k < n <= |ss| && ss[k].Ins?
    ensures Count(ss, k) < Count(ss, n) && Position(ss, n, Count(ss, k)) == k
  {
    if k == n - 1 {
    } else {
      PositionOf(ss, n - 1, k);
    }
  }

  predicate GoesOnAt(ss: seq<Statement>, s: Process, j: nat) {
    SourceRun(ss, s, j).core.pc < Count(ss, |ss|) && KeepsGoing(SourceOutcome(ss, s, j))
  }

  /** k silent steps lead from s to t, none of them ending the process or leaving the program. */
  ghost predicate Goes(ss: seq<Statement>, s: Process, t: Process, k: nat) {
    && SourceRun(ss, s, k) == t && SourcePrinted(ss, s, k) == []
    && forall j :: 0 <= j < k ==> GoesOnAt(ss, s, j)
  }

  /** Step n is the last one: the earlier ones went on, and it ends the process without leaving the program. */
  ghost predicate SourceEndsAfter(ss: seq<Statement>, s: Process, n: nat) {
    && n >= 1 && (forall j :: 0 <= j < n - 1 ==> GoesOnAt(ss, s, j))
    && SourceRun(ss, s, n - 1).core.pc < Count(ss, |ss|) && Ends(SourceOutcome(ss, s, n - 1))
  }

  lemma {:induction false} RunAdd(ss: seq<Statement>, s: Process, a: nat, b: nat)
    ensures SourceRun(ss, s, a + b) == SourceRun(ss, SourceRun(ss, s, a), b)
    ensures SourcePrinted(ss, s, a + b) == SourcePrinted(ss, s, a) + SourcePrinted(ss, SourceRun(ss, s, a), b)
  {
    hide SourceStep;
    if b == 0 {
    } else {
      RunAdd(ss, s, a, b - 1);
    }
  }

  /** A silent run followed by one that ends. */
  lemma GoesEnds(ss: seq<Statement>, s: Process, t: Process, a: nat, b: nat)
    requires Goes(ss, s, t, a) && SourceEndsAfter(ss, t, b)
    ensures SourceEndsAfter(ss, s, a + b)
    ensures SourceRun(ss, s, a + b) == SourceRun(ss, t, b) && SourcePrinted(ss, s, a + b) == SourcePrinted(ss, t, b)
    ensures SourceOutcome(ss, s, a + b - 1) == SourceOutcome(ss, t, b - 1)
  {
    hide SourceStep, SourceRun, SourcePrinted, Count, KeepsGoing, Ends;
    RunAdd(ss, s, a, b);
    RunAdd(ss, s, a, b - 1);
    forall j | 0 <= j < a + b - 1
      ensures GoesOnAt(ss, s, j)
    {
      if j >= a {
        RunAdd(ss, s, a, j - a);
        assert GoesOnAt(ss, t, j - a);
      }
    }
  }

  lemma EndsAtOnce(ss: seq<Statement>, s: Process)
    requires s.core.pc < Count(ss, |ss|) && Ends(SourceStep(ss, s).outcome)
    ensures SourceEndsAfter(ss, s, 1)
    ensures SourceRun(ss, s, 1) == SourceStep(ss, s).process && SourcePrinted(ss, s, 1) == SourceStep(ss, s).printed
    ensures SourceOutcome(ss, s, 0) == SourceStep(ss, s).outcome
  {
    hide SourceStep, Count;
    assert SourceRun(ss, s, 0) == s && SourcePrinted(ss, s, 0) == [];
  }

  lemma GoesThen(ss: seq<Statement>, s: Process, t: Process, u: Process, a: nat, b: nat)
    requires Goes(ss, s, t, a) && Goes(ss, t, u, b)
    ensures Goes(ss, s, u, a + b)
  {
    hide SourceStep, SourceRun, SourcePrinted, Count, KeepsGoing;
    RunAdd(ss, s, a, b);
    forall j | 0 <= j < a + b
      ensures GoesOnAt(ss, s, j)
    {
      if j >= a {
        RunAdd(ss, s, a, j - a);
        assert GoesOnAt(ss, t, j - a);
      }
    }
  }

  lemma GoesOne(ss: seq<Statement>, s: Process)
    requires s.core.pc < Count(ss, |ss|) && KeepsGoing(SourceStep(ss, s).outcome) && SourceStep(ss, s).printed == []
    ensures Goes(ss, s, SourceStep(ss, s).process, 1)
  {
    hide SourceStep, Count;
    assert SourceRun(ss, s, 0) == s && SourceRun(ss, s, 1) == SourceStep(ss, s).process;
    assert SourcePrinted(ss, s, 0) == [] && SourcePrinted(ss, s, 1) == [];
    assert GoesOnAt(ss, s, 0);
  }
}
