/** Placing an assembled program in a fresh region of physical memory (src/vm/os/program_loader.cpp) and the
    state a process starts in (src/vm/os/virtual_os.cpp). */
module Loader {
  import opened Words
  import opened Memory
  import opened Segments
  import opened Machine
  import opened StackMachine
  import opened Cpu

  const REGION_SIZE: nat := 0x1_0000
  const STACK_SIZE: nat := 0x1000

  datatype Program = Program(code: seq<Word>, data: Mem)
  {
    /** Code, data and stack fit in a region; the loader does not check this. */
    predicate FitsRegion() { 4 * |code| + |data| + STACK_SIZE <= REGION_SIZE }
  }

  datatype Physical = Physical(mem: Mem, next: Word)

  function LayoutFor(base: Word, p: Program): Layout {
    Layout(base, 0, Wrap(4 * |p.code|), Wrap(4 * |p.code| + |p.data|), 4 * |p.code|, |p.data|, STACK_SIZE, REGION_SIZE)
  }

  function DataStored(mem: Mem, l: Layout, data: Mem): Stored {
    if data == [] then Stored(true, mem)
    else match BytesWritten(mem, l.DataAddress(), data)
      case None => Stored(false, mem)
      case Some(m) => Stored(true, m)
  }

  function ImageStored(mem: Mem, l: Layout, p: Program): Stored {
    var d := DataStored(mem, l, p.data);
    if d.ok then CodeStored(d.mem, l, p.code, 0) else d
  }

  /** load: the new physical memory, and the layout unless an exception was thrown. */
  function AfterLoad(m: Physical, p: Program): (Physical, Option<Layout>) {
    if m.next + REGION_SIZE > |m.mem| then (m, None)
    else
      var l, next := LayoutFor(m.next, p), Wrap(m.next + REGION_SIZE);
      var s := ImageStored(m.mem, l, p);
      (Physical(s.mem, next), if s.ok then Some(l) else None)
  }

  /** The process's code and data segments hold exactly the program. */
  ghost predicate Holds(mem: Mem, l: Layout, p: Program) {
    && l.Fits(|mem|) && l == LayoutFor(l.base, p)
    && (forall i :: 0 <= i < |p.code| ==> WordAt(mem, l.base + 4 * i) == p.code[i])
    && DataOf(mem, l) == p.data
  }

  lemma LayoutFits(base: Word, p: Program, size: nat)
    requires p.FitsRegion() && base + REGION_SIZE <= size < WORD_LIMIT
    ensures LayoutFor(base, p).Fits(size)
  {
  }

  /** A region holds its process's segments exactly when the program leaves room for the stack. */
  lemma FitsRegionExactly(base: Word, p: Program)
    requires base + REGION_SIZE < WORD_LIMIT && 4 * |p.code| + |p.data| < WORD_LIMIT
    ensures p.FitsRegion() <==> 4 * |p.code| + |p.data| + 0x1000 <= 0x1_0000
    ensures p.FitsRegion() <==> LayoutFor(base, p).StackEnd() <= base + REGION_SIZE
    ensures p.FitsRegion() <==> LayoutFor(base, p).Fits(base + REGION_SIZE)
  {
  }

  lemma CodeWordStored(mem: Mem, l: Layout, i: nat, v: Word)
    requires l.Fits(|mem|) && 4 * i + 4 <= l.codeSize
    ensures var a := l.base + 4 * i;
            && CodeWordWritten(mem, l, Wrap(i), v) == Some(Splice(mem, a, Bytes(v, 4)))
            && SameOutside(mem, Splice(mem, a, Bytes(v, 4)), a, a + 4)
            && WordAt(Splice(mem, a, Bytes(v, 4)), a) == v
  {
    hide Bytes, Layout.SpOk, Splice;
    CodeAddressOf(l, |mem|, i);
    SpliceWithin(mem, l.base + 4 * i, Bytes(v, 4), l.base + 4 * i, l.base + 4 * i + 4);
    WrittenWord(mem, l.base + 4 * i, v);
  }

  lemma {:induction false} CodeStoredHolds(mem: Mem, l: Layout, p: Program, i: nat)
    requires l == LayoutFor(l.base, p) && l.Fits(|mem|) && i <= |p.code|
    ensures var c := CodeStored(mem, l, p.code, i);
            && c.ok && SameOutside(mem, c.mem, l.base + 4 * i, l.base + l.dataOffset)
            && (forall j :: i <= j < |p.code| ==> WordAt(c.mem, l.base + 4 * j) == p.code[j])
    decreases |p.code| - i
  {
    hide Bytes, Splice, WordAt, CodeWordWritten;
    if i == |p.code| {
    } else {
      var a := l.base + 4 * i;
      var m := Splice(mem, a, Bytes(p.code[i], 4));
      CodeWordStored(mem, l, i, p.code[i]);
      CodeStoredHolds(m, l, p, i + 1);
      var c := CodeStored(m, l, p.code, i + 1);
      assert c == CodeStored(mem, l, p.code, i);
      SameOutsideJoin(mem, m, c.mem, a, a + 4, l.base + l.dataOffset);
      forall j | i <= j < |p.code|
        ensures WordAt(c.mem, l.base + 4 * j) == p.code[j]
      {
        if j == i {
          WordAgree(m, c.mem, a);
        }
      }
    }
  }

  lemma DataStoredHolds(mem: Mem, l: Layout, p: Program)
    requires l == LayoutFor(l.base, p) && l.Fits(|mem|)
    ensures var d := DataStored(mem, l, p.data);
            && d.ok && SameOutside(mem, d.mem, l.base + l.dataOffset, l.base + l.stackOffset)
            && DataOf(d.mem, l) == p.data
  {
    if p.data == [] {
      assert DataOf(mem, l) == [];
    } else {
      var a := l.base + l.dataOffset;
      assert l.DataAddress() == a && InRange(mem, a, |p.data|);
      SpliceFrame(mem, a, p.data);
    }
  }

  lemma DataOfAgree(m1: Mem, m2: Mem, l: Layout)
    requires l.Fits(|m1|) && AgreeOn(m1, m2, l.base + l.dataOffset, l.base + l.stackOffset)
    ensures DataOf(m1, l) == DataOf(m2, l)
  {
    assert forall i :: 0 <= i < l.dataSize ==> DataOf(m1, l)[i] == DataOf(m2, l)[i];
  }

  lemma ImageKept(d: Mem, c: Mem, l: Layout)
    requires l.Fits(|d|) && SameOutside(d, c, l.base, l.base + l.dataOffset)
    ensures DataOf(d, l) == DataOf(c, l)
  {
    DataOfAgree(d, c, l);
  }

  lemma ImageStoredHolds(mem: Mem, l: Layout, p: Program)
    requires l == LayoutFor(l.base, p) && l.Fits(|mem|)
    ensures var s := ImageStored(mem, l, p);
            s.ok && Holds(s.mem, l, p) && SameOutside(mem, s.mem, l.base, l.base + l.stackOffset)
  {
    DataStoredHolds(mem, l, p);
    var d := DataStored(mem, l, p.data).mem;
    CodeStoredHolds(d, l, p, 0);
    var c := CodeStored(d, l, p.code, 0).mem;
    var lo, mid, hi := l.base, l.base + l.dataOffset, l.base + l.stackOffset;
    assert SameOutside(mem, d, mid, hi);
    assert SameOutside(d, c, lo, mid);
    SameOutsideJoin(mem, d, c, lo, mid, hi);
    ImageKept(d, c, l);
  }

  lemma WrapSmall(x: int)
    requires 0 <= x < WORD_LIMIT
    ensures Wrap(x) == x
  {
  }

  /** A program that fits is loaded whenever a region is left; it reads back exactly, the stack of the new process
      is untouched memory, and nothing outside the new region changes. */
  lemma LoadHolds(m: Physical, p: Program)
    requires p.FitsRegion() && m.next + REGION_SIZE <= |m.mem| < WORD_LIMIT
    ensures var (n, l) := AfterLoad(m, p);
            && l == Some(LayoutFor(m.next, p)) && n.next == m.next + REGION_SIZE
            && Holds(n.mem, l.value, p)
            && SameOutside(m.mem, n.mem, m.next, m.next + l.value.stackOffset)
  {
    var l := LayoutFor(m.next, p);
    LayoutFits(m.next, p, |m.mem|);
    ImageStoredHolds(m.mem, l, p);
    assert Wrap(m.next + REGION_SIZE) == m.next + REGION_SIZE by { WrapSmall(m.next + REGION_SIZE); }
  }

  /** When no region is left, loading any program fails and leaves memory and the allocator as they were; a program
      that fits a region is refused for no other reason. */
  lemma FailedAllocation(m: Physical, p: Program)
    ensures m.next + REGION_SIZE > |m.mem| ==> AfterLoad(m, p) == (m, None)
    ensures p.FitsRegion() && |m.mem| < WORD_LIMIT ==> (AfterLoad(m, p).1.None? <==> m.next + REGION_SIZE > |m.mem|)
  {
    if p.FitsRegion() && m.next + REGION_SIZE <= |m.mem| < WORD_LIMIT {
      LoadHolds(m, p);
    }
  }

  // ---- Loading several programs -------------------------------------------------------------------------

  /** Loads one program after the other until one fails. */
  function LoadAll(m: Physical, ps: seq<Program>): (Physical, seq<Layout>)
    decreases |ps|
  {
    if ps == [] then (m, [])
    else
      var before := LoadAll(m, ps[..|ps| - 1]);
      var (n, l) := AfterLoad(before.0, ps[|ps| - 1]);
      if |before.1| == |ps| - 1 && l.Some? then (n, before.1 + [l.value]) else before
  }

  /** Physical memory before the first load. */
  function Fresh(size: nat): Physical {
    Physical(seq(size, _ => 0), 0)
  }

  function BaseOf(i: nat, size: nat): Word {
    if i * REGION_SIZE < size < WORD_LIMIT then i * REGION_SIZE else 0
  }

  /** Region i is the i-th block of 64 KiB and holds program i; every stack, and all that no image covers, is
      still zero. */
  ghost predicate AllPlaced(size: nat, ps: seq<Program>, mem: Mem, ls: seq<Layout>) {
    && |ls| == |ps| && |mem| == size
    && (forall i :: 0 <= i < |ps| ==> ls[i] == LayoutFor(BaseOf(i, size), ps[i]) && Holds(mem, ls[i], ps[i]))
    && (forall i, a :: 0 <= i < |ls| && ls[i].base + ls[i].stackOffset <= a < ls[i].base + REGION_SIZE && a < size
          ==> mem[a] == 0)
    && (forall a :: |ps| * REGION_SIZE <= a < size ==> mem[a] == 0)
  }

  lemma BlocksApart(i: nat, j: nat)
    requires i < j
    ensures i * REGION_SIZE + REGION_SIZE <= j * REGION_SIZE
  {
  }

  lemma {:induction false} CodeStoredSize(mem: Mem, l: Layout, code: seq<Word>, i: nat)
    ensures |CodeStored(mem, l, code, i).mem| == |mem|
    decreases |code| - i
  {
    hide Bytes;
    if i >= |code| || CodeWordWritten(mem, l, Wrap(i), code[i]).None? {
    } else {
      CodeStoredSize(CodeWordWritten(mem, l, Wrap(i), code[i]).value, l, code, i + 1);
    }
  }

  /** Whatever the program, a load hands out the next block and moves on, or finds none left. */
  lemma NextBlock(m: Physical, p: Program)
    requires |m.mem| < WORD_LIMIT
    ensures var (n, l) := AfterLoad(m, p);
            && |n.mem| == |m.mem|
            && (l.Some? ==> m.next + REGION_SIZE <= |m.mem| && n.next == m.next + REGION_SIZE && l.value.base == m.next)
  {
    hide CodeStored, CodeWordWritten;
    var l := LayoutFor(m.next, p);
    CodeStoredSize(DataStored(m.mem, l, p.data).mem, l, p.code, 0);
  }

  /** The allocator after loading any programs, oversized ones included. */
  lemma {:induction false} BlocksInOrder(size: nat, ps: seq<Program>)
    requires size < WORD_LIMIT
    ensures var (m, ls) := LoadAll(Fresh(size), ps);
            && |m.mem| == size && |ls| <= |ps| && (|ls| == |ps| ==> m.next == |ps| * REGION_SIZE)
            && (forall i :: 0 <= i < |ls| ==> ls[i].base == i * REGION_SIZE && ls[i].base + REGION_SIZE <= size)
    decreases |ps|
  {
    hide AfterLoad;
    if ps == [] {
    } else {
      var (m, ls) := LoadAll(Fresh(size), ps[..|ps| - 1]);
      BlocksInOrder(size, ps[..|ps| - 1]);
      NextBlock(m, ps[|ps| - 1]);
      assert |ps| * REGION_SIZE == (|ps| - 1) * REGION_SIZE + REGION_SIZE;
      var all := LoadAll(Fresh(size), ps).1;
      assert all == ls || all == ls + [AfterLoad(m, ps[|ps| - 1]).1.value];
    }
  }

  /** Whatever programs are loaded, even too large ones, their regions are inside memory and do not overlap, so by
      ExecuteFrame no process whose segments fit its region can write another's bytes. */
  lemma RegionsDisjoint(size: nat, ps: seq<Program>, i: nat, j: nat)
    requires size < WORD_LIMIT && i < j < |LoadAll(Fresh(size), ps).1|
    ensures var ls := LoadAll(Fresh(size), ps).1;
            ls[i].base == i * 0x1_0000 && ls[i].base + 0x1_0000 <= ls[j].base && ls[j].base + 0x1_0000 <= size
  {
    hide LoadAll;
    BlocksInOrder(size, ps);
    BlocksApart(i, j);
  }

  lemma HoldsKept(m1: Mem, m2: Mem, l: Layout, p: Program)
    requires Holds(m1, l, p) && AgreeOn(m1, m2, l.base, l.base + l.stackOffset)
    ensures Holds(m2, l, p)
  {
    forall i | 0 <= i < |p.code|
      ensures WordAt(m2, l.base + 4 * i) == p.code[i]
    {
      WordAgree(m1, m2, l.base + 4 * i);
    }
    DataOfAgree(m1, m2, l);
  }

  lemma PlacedOneMore(size: nat, ps: seq<Program>, m: Physical, ls: seq<Layout>, n: Physical, l: Layout)
    requires ps != [] && AllPlaced(size, ps[..|ps| - 1], m.mem, ls)
    requires m.next == (|ps| - 1) * REGION_SIZE && m.next + REGION_SIZE <= size < WORD_LIMIT
    requires l == LayoutFor(m.next, ps[|ps| - 1]) && Holds(n.mem, l, ps[|ps| - 1])
    requires SameOutside(m.mem, n.mem, m.next, m.next + l.stackOffset)
    ensures AllPlaced(size, ps, n.mem, ls + [l])
  {
    forall i | 0 <= i < |ps| - 1
      ensures Holds(n.mem, ls[i], ps[i])
    {
      BlocksApart(i, |ps| - 1);
      HoldsKept(m.mem, n.mem, ls[i], ps[i]);
    }
    forall i, a | 0 <= i < |ps| &&
                  (ls + [l])[i].base + (ls + [l])[i].stackOffset <= a < (ls + [l])[i].base + REGION_SIZE
                  && a < size
      ensures n.mem[a] == 0
    {
      if i < |ps| - 1 {
        BlocksApart(i, |ps| - 1);
      }
    }
  }

  /** When every program fits a region and there is room for all of them, every load succeeds. */
  lemma {:induction false} LoadAllHolds(size: nat, ps: seq<Program>)
    requires |ps| * REGION_SIZE <= size < WORD_LIMIT
    requires forall i :: 0 <= i < |ps| ==> ps[i].FitsRegion()
    ensures LoadAll(Fresh(size), ps).0.next == |ps| * REGION_SIZE
    ensures AllPlaced(size, ps, LoadAll(Fresh(size), ps).0.mem, LoadAll(Fresh(size), ps).1)
    decreases |ps|
  {
    if ps == [] {
    } else {
      var k := |ps| - 1;
      LoadAllHolds(size, ps[..k]);
      var (m, ls) := LoadAll(Fresh(size), ps[..k]);
      LoadHolds(m, ps[k]);
      var (n, l) := AfterLoad(m, ps[k]);
      assert LoadAll(Fresh(size), ps) == (n, ls + [l.value]);
      PlacedOneMore(size, ps, m, ls, n, l.value);
    }
  }

  // ---- The state a process starts in --------------------------------------------------------------------

  const ZERO_REGISTERS: Gpr := [0, 0, 0, 0, 0, 0, 0, 0, 0, 0, 0, 0, 0, 0, 0, 0]
  const ZERO_CORE: Core := Core(ZERO_REGISTERS, 0, Flags(false, false, false, false))

  function InitialState(mem: Mem, l: Layout): State {
    State(ZERO_CORE, Wrap(l.StackAddress() + STACK_SIZE - 4), mem)
  }

  lemma ZeroWord(mem: Mem, a: int)
    requires InRange(mem, a, 4) && mem[a..a + 4] == [0, 0, 0, 0]
    ensures WordAt(mem, a) == 0
  {
    var b: seq<Byte> := [0, 0, 0, 0];
    assert b[1..] == [0, 0, 0] && b[1..][1..] == [0, 0] && b[1..][1..][1..] == [0];
  }

  /** The stack pointer starts one word below the end of the stack, so one zero word can be popped at once. */
  lemma InitialProcess(mem: Mem, l: Layout, p: Program)
    requires Holds(mem, l, p)
    requires forall a :: l.base + l.stackOffset <= a < l.base + l.totalSize ==> mem[a] == 0
    ensures l.SpOk(InitialState(mem, l).sp)
    ensures Abstract(InitialState(mem, l), l) == Process(ZERO_CORE, [0], p.data)
  {
    var s := InitialState(mem, l);
    assert s.sp == l.StackEnd() - 4;
    assert mem[s.sp..s.sp + 4] == [0, 0, 0, 0];
    assert StackWords(mem, s.sp + 4, l.StackEnd()) == [];
    ZeroWord(mem, s.sp);
  }

  /** From there exactly 1023 words can be pushed. */
  lemma InitialPushes(mem: Mem, l: Layout, p: Program, vs: seq<Word>)
    requires Holds(mem, l, p)
    requires forall a :: l.base + l.stackOffset <= a < l.base + l.totalSize ==> mem[a] == 0
    ensures PushMany(mem, l, InitialState(mem, l).sp, vs).Some? <==> |vs| <= 1023
  {
    InitialProcess(mem, l, p);
    PushesFit(mem, l, InitialState(mem, l).sp, vs);
  }

  /** The ProcessMemory constructor's copy of the initial data, then loadCode. */
  method PlaceImage(memory: ProcessMemory, program: Program) returns (ok: bool)
    modifies memory.physical.memory
    ensures Stored(ok, memory.Mem()) == ImageStored(old(memory.Mem()), memory.layout, program)
  {
    if program.data != [] {
      ok := memory.physical.WriteBytes(memory.layout.DataAddress(), program.data);
      if !ok {
        return;
      }
    }
    ok := memory.LoadCode(program.code);
  }

  class ProgramLoader {
    const physicalMemory: PhysicalMemory

    constructor (physicalMemory: PhysicalMemory)
      ensures this.physicalMemory == physicalMemory
    {
      this.physicalMemory := physicalMemory;
    }

    function Value(): Physical
      reads physicalMemory, physicalMemory.memory
    {
      Physical(physicalMemory.memory[..], physicalMemory.nextFreeAddress)
    }

    method Load(program: Program) returns (r: Option<ProcessMemory>)
      modifies physicalMemory, physicalMemory.memory
      ensures Value() == AfterLoad(old(Value()), program).0
      ensures r.Some? == AfterLoad(old(Value()), program).1.Some?
      ensures r.Some? ==> fresh(r.value) && r.value.physical == physicalMemory
                          && r.value.layout == AfterLoad(old(Value()), program).1.value
    {
      var base := physicalMemory.AllocateRegion(REGION_SIZE);
      if base.None? {
        return None;
      }
      var layout := LayoutFor(base.value, program);
      var memory := new ProcessMemory(physicalMemory, layout);
      var ok := PlaceImage(memory, program);
      if !ok {
        return None;
      }
      r := Some(memory);
    }
  }
}
