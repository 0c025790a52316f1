/** The recursive factorial on the machine: from statements through instruction words and shared memory to what the
    cores print, whatever runs beside it. */
module FactorialRun {
  import opened Words
  import opened Encoding
  import opened Syntax
  import opened Assembly
  import opened StackMachine
  import opened SourceSemantics
  import opened Loader
  import opened Protocol
  import opened Ownership
  import opened System
  import opened Simulation
  import opened EndToEnd
  import opened Termination
  import Progress
  import opened Factorial
  import opened Printing
  import Independence

  lemma StatementFaithful(n: Int16, k: nat)
    requires Short(n) && k < 24 && Subroutine(n)[k].Ins?
    ensures FaithfulAt(Subroutine(n), k)
  {
    hide LabelsAt, SymbolsBefore, Find;
    Resolves(n, k);
    Labels(n, k);
    ResultOffset(n, 24);
  }

  /** Every word means what its instruction says exactly when the constant is a 12-bit number. */
  lemma FaithfulExactly(n: Int16)
    ensures FaithfulProgram(Subroutine(n)) <==> Short(n)
  {
    var ss := Subroutine(n);
    Resolves(n, 3);
    assert FaithfulAt(ss, 3) <==> Short(n);
    if Short(n) {
      forall k | 0 <= k < |ss| && ss[k].Ins?
        ensures FaithfulAt(ss, k)
      {
        StatementFaithful(n, k);
      }
    }
  }

  lemma CellsOf(n: Int16, k: nat)
    requires k < 24 && Subroutine(n)[k].Ins?
    ensures CellName(Subroutine(n)[k].i) == None || CellName(Subroutine(n)[k].i) == Some("result")
  {
  }

  lemma StatementOk(n: Int16, k: nat)
    requires k < 24 && Subroutine(n)[k].Ins?
    ensures InstructionOk(Subroutine(n), k)
  {
    hide InstructionOk, Subroutine, LabelsAt, SymbolsBefore, Find, Generated, CellName;
    Instructions(n, k);
    ResultOffset(n, k);
    CellsOf(n, k);
    Resolves(n, k);
    GeneratedOk(Subroutine(n), k);
  }

  lemma Assembles(n: Int16)
    ensures Assemble(Subroutine(n)).Some? && Assemble(Subroutine(n)).value.FitsRegion()
    ensures Initial(Initially(Subroutine(n)))
  {
    var ss := Subroutine(n);
    AssembleExactly(ss);
    Counts(n, 24);
    ResultOffset(n, 24);
    hide Assemble, Count, Data;
    forall k | 0 <= k < |ss| && ss[k].Ins?
      ensures InstructionOk(ss, k)
    {
      StatementOk(n, k);
    }
  }

  /** A source that comes to an end is safe. */
  lemma EndsSafe(ss: seq<Statement>, s: Process, k: nat)
    requires SourceEndsAfter(ss, s, k)
    ensures Safe(ss, s)
  {
    hide SourceRun, SourceOutcome, Count;
    forall n: nat | AllGo(ss, s, n)
      ensures SafeAt(ss, s, n)
    {
      assert n < k - 1 ==> GoesOnAt(ss, s, n);
      assert n > k - 1 ==> KeepsGoing(SourceOutcome(ss, s, k - 1));
    }
  }

  lemma EndsOnce(ss: seq<Statement>, s: Process, j: nat, k: nat)
    requires SourceEndsAfter(ss, s, j) && SourceEndsAfter(ss, s, k)
    ensures j == k
  {
    hide SourceRun, SourceOutcome, Count;
    assert j < k ==> GoesOnAt(ss, s, j - 1);
    assert k < j ==> GoesOnAt(ss, s, k - 1);
  }

  /** The program meets the premises of the machine theorems for every 12-bit constant, the overflowing ones too. */
  lemma FactorialSound(n: Int16)
    requires Short(n)
    ensures Sound(Subroutine(n))
  {
    hide Subroutine, Assemble, Initially, Safe, FaithfulProgram, Initial;
    Assembles(n);
    FaithfulExactly(n);
    if n <= 512 {
      var k := Prints(n, Initially(Subroutine(n)));
      EndsSafe(Subroutine(n), Initially(Subroutine(n)), k);
    } else {
      var k := TooDeep(n, Initially(Subroutine(n)));
      EndsSafe(Subroutine(n), Initially(Subroutine(n)), k);
    }
  }

  function Subroutines(ns: seq<Int16>): seq<seq<Statement>> {
    seq(|ns|, i requires 0 <= i < |ns| => Subroutine(ns[i]))
  }

  /** Any number of such processes, with any constants, can be loaded side by side while memory lasts, and the machine
      can be started. */
  lemma ManyTogether(ns: seq<Int16>, size: nat, coreCount: nat, quantum: nat)
    requires (forall i :: 0 <= i < |ns| ==> Short(ns[i])) && |ns| * REGION_SIZE <= size < WORD_LIMIT
    ensures AllSound(Subroutines(ns), size) && MachineAfter(Subroutines(ns), size, coreCount, quantum, []).Some?
  {
    hide Subroutine, FaithfulProgram, Safe, Assemble, Loaded, Independence.Reach, Setup, Short;
    var sss := Subroutines(ns);
    forall p | 0 <= p < |sss|
      ensures Sound(sss[p])
    {
      FactorialSound(ns[p]);
    }
    LoadedSetup(sss, size);
    Independence.ReachStart(Loaded(sss, size).0, Loaded(sss, size).1, coreCount, quantum);
  }

  function SectionAt(k: nat): Section {
    if k == 0 then NoSection else if k <= 2 then DataSection else CodeSection
  }

  lemma ListableAt(n: Int16, k: nat)
    requires k < 24
    ensures Listable(Subroutine(n)[k], SectionAt(k)) && SectionAfter(SectionAt(k), Subroutine(n)[k]) == SectionAt(k + 1)
  {
    assert "return_addr"[0] == 'r' && "factorial"[0] == 'f' && "return_from_rec"[0] == 'r' && "base_case"[0] == 'b';
    assert "DATA"[0] == 'D' && "CODE"[0] == 'C';
  }

  lemma {:induction false} ListableFrom(n: Int16, k: nat)
    requires k <= 24
    ensures AllListable(Subroutine(n)[k..], SectionAt(k))
    decreases 24 - k
  {
    hide Subroutine, Listable, SectionAt;
    if k == 24 {
    } else {
      ListableAt(n, k);
      ListableFrom(n, k + 1);
      assert Subroutine(n)[k..][1..] == Subroutine(n)[k + 1..];
    }
  }

  /** Assembled from text, however it is laid out, the program is the one above. */
  lemma FromText(n: Int16, lines: seq<nat>, ps: seq<Piece>, tail: string)
    requires |lines| == 25 && Lexemes(ps) == Listing(Subroutine(n), lines) && Spaced(ps, tail)
    ensures AssembleSource(Text(ps, tail)) == Assemble(Subroutine(n))
  {
    hide Subroutine, Lexemes, Listing, Spaced, AllListable;
    ListableFrom(n, 0);
    assert Subroutine(n)[0..] == Subroutine(n);
    AssemblesAsWritten(Subroutine(n), lines, ps, tail);
  }

  /** Once the machine has seen all processes halt, the factorial process has printed n! modulo 2^32 - or nothing,
      having overflowed its stack, when n is above 512. */
  lemma FactorialOnMachine(sss: seq<seq<Statement>>, size: nat, coreCount: nat, quantum: nat, acts: seq<Action>,
                           p: nat, n: Int16)
    requires AllSound(sss, size) && p < |sss| && sss[p] == Subroutine(n) && Short(n)
    requires MachineAfter(sss, size, coreCount, quantum, acts).Some?
    requires Stopping(MachineAfter(sss, size, coreCount, quantum, acts).value.os.runner)
    ensures var v := MachineAfter(sss, size, coreCount, quantum, acts).value;
            p < |v.outputs| && v.outputs[p] == if n <= 512 then [FactOf(n)] else []
  {
    hide Subroutine, AllSound, Loaded, Initially, SourceEndsAfter, SourcePrinted, MachineAfter, Initial;
    CompleteMachineRun(sss, size, coreCount, quantum, acts, p);
    MachineRunsSource(sss, size, coreCount, quantum, acts, p);
    var v := MachineAfter(sss, size, coreCount, quantum, acts).value;
    var s := Initially(Subroutine(n));
    Assembles(n);
    if n <= 512 {
      var k := Prints(n, s);
      EndsOnce(Subroutine(n), s, v.counts[p], k);
    } else {
      var k := TooDeep(n, s);
      EndsOnce(Subroutine(n), s, v.counts[p], k);
    }
  }

  lemma FactorialEnds(n: Int16) returns (k: nat)
    requires Short(n)
    ensures SourceEndsAfter(Subroutine(n), Initially(Subroutine(n)), k)
  {
    hide Subroutine, SourceEndsAfter, Initially, Initial;
    Assembles(n);
    if n <= 512 {
      k := Prints(n, Initially(Subroutine(n)));
    } else {
      k := TooDeep(n, Initially(Subroutine(n)));
    }
  }

  lemma FactorialsEnd(ns: seq<Int16>) returns (ends: seq<nat>)
    requires forall i :: 0 <= i < |ns| ==> Short(ns[i])
    ensures SourcesEnd(Subroutines(ns), ends)
  {
    hide Subroutine, SourceEndsAfter, Initially, Short;
    ends := [];
    var i := 0;
    while i < |ns|
      invariant i <= |ns| && |ends| == i
      invariant forall p :: 0 <= p < i ==> SourceEndsAfter(Subroutine(ns[p]), Initially(Subroutine(ns[p])), ends[p])
    {
      var k := FactorialEnds(ns[i]);
      ends := ends + [k];
      i := i + 1;
    }
  }

  ghost predicate AllPrinted(v: Vm, ns: seq<Int16>) {
    |v.outputs| >= |ns| && forall p :: 0 <= p < |ns| ==> v.outputs[p] == [FactOf(ns[p])]
  }

  lemma CompletePrinted(ns: seq<Int16>, size: nat, coreCount: nat, quantum: nat, acts: seq<Action>)
    requires forall i :: 0 <= i < |ns| ==> -0x800 <= ns[i] <= 512
    requires AllSound(Subroutines(ns), size) && MachineAfter(Subroutines(ns), size, coreCount, quantum, acts).Some?
    requires Stopping(MachineAfter(Subroutines(ns), size, coreCount, quantum, acts).value.os.runner)
    ensures AllPrinted(MachineAfter(Subroutines(ns), size, coreCount, quantum, acts).value, ns)
  {
    hide Subroutine, MachineAfter, AllSound, FactOf, Stopping;
    forall p | 0 <= p < |ns|
      ensures var v := MachineAfter(Subroutines(ns), size, coreCount, quantum, acts).value;
              p < |v.outputs| && v.outputs[p] == [FactOf(ns[p])]
    {
      FactorialOnMachine(Subroutines(ns), size, coreCount, quantum, acts, p, ns[p]);
    }
    var v := MachineAfter(Subroutines(ns), size, coreCount, quantum, acts).value;
    if ns != [] {
      FactorialOnMachine(Subroutines(ns), size, coreCount, quantum, acts, |ns| - 1, ns[|ns| - 1]);
    }
  }

  /** Any number of factorial processes side by side on any number of cores: there is a bound such that in every run
      longer than it, spurious wake-ups making up for five steps each, every process has printed its factorial, however
      they are interleaved; and so it has in every run of a machine with a core that cannot be extended. */
  lemma FactorialsPrint(ns: seq<Int16>, size: nat, coreCount: nat, quantum: nat) returns (bound: int)
    requires (forall i :: 0 <= i < |ns| ==> -0x800 <= ns[i] <= 512) && |ns| * REGION_SIZE <= size < WORD_LIMIT
    ensures AllSound(Subroutines(ns), size)
    ensures forall acts ::
              |acts| > bound + 5 * Progress.SpuriousCount(acts)
              && MachineAfter(Subroutines(ns), size, coreCount, quantum, acts).Some? ==>
                AllPrinted(MachineAfter(Subroutines(ns), size, coreCount, quantum, acts).value, ns)
    ensures forall acts :: coreCount >= 1 && FinalAfter(Subroutines(ns), size, coreCount, quantum, acts) ==>
              AllPrinted(MachineAfter(Subroutines(ns), size, coreCount, quantum, acts).value, ns)
  {
    hide Subroutine, SourcesEnd, MachineAfter, AllPrinted, Bound, AllSound, FactOf, Final, Loaded, Stopping;
    var sss := Subroutines(ns);
    ManyTogether(ns, size, coreCount, quantum);
    var ends := FactorialsEnd(ns);
    bound := Bound(ends, coreCount);
    forall acts |
        |acts| > bound + 5 * Progress.SpuriousCount(acts) && MachineAfter(sss, size, coreCount, quantum, acts).Some?
      ensures AllPrinted(MachineAfter(sss, size, coreCount, quantum, acts).value, ns)
    {
      SourcesShutDown(sss, size, coreCount, quantum, acts, ends);
      CompletePrinted(ns, size, coreCount, quantum, acts);
    }
    forall acts | coreCount >= 1 && FinalAfter(sss, size, coreCount, quantum, acts)
      ensures AllPrinted(MachineAfter(sss, size, coreCount, quantum, acts).value, ns)
    {
      FinalRun(sss, size, coreCount, quantum, acts);
      CompletePrinted(ns, size, coreCount, quantum, acts);
    }
  }
}
