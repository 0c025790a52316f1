/** The same instructions on an abstract process: a stack of words and a data segment of its own, without
    addresses. The byte machine refines it. */
module StackMachine {
  import opened Words
  import opened Encoding
  import opened Memory
  import opened Segments
  import opened Machine

  /** The stack has its top first. */
  datatype Process = Process(core: Core, stack: seq<Word>, data: Mem)

  datatype Result = Result(process: Process, outcome: Outcome, printed: seq<Word>)

  function Run1(i: Decoded, s: Process, capacity: nat): Result {
    var k := s.core;
    match i.opcode
    case LOAD =>
      (match WordRead(s.data, Wrap(i.imm))
       case None => Result(s, Throw, [])
       case Some(v) => Result(s.(core := k.Set(i.rd, v).Advance()), Continue, []))
    case STORE =>
      (match WordWritten(s.data, Wrap(i.imm), k.gpr[i.rd])
       case None => Result(s, Throw, [])
       case Some(d) => Result(s.(core := k.Advance(), data := d), Continue, []))
    case PUSH =>
      if |s.stack| < capacity then Result(s.(core := k.Advance(), stack := [Operand(i, k)] + s.stack), Continue, [])
      else Result(s, Error, [])
    case POP =>
      if s.stack == [] then Result(s, Error, [])
      else Result(s.(core := k.Set(i.rd, s.stack[0]).Advance(), stack := s.stack[1..]), Continue, [])
    case RET =>
      if s.stack == [] then Result(s, Error, [])
      else Result(s.(core := k.Goto(s.stack[0]), stack := s.stack[1..]), Jump, [])
    case _ =>
      if i.opcode == CALL && i.rs1 == SYS_PRINT then
        match WordRead(s.data, CallArgument(i.imm))
        case None => Result(s, Throw, [])
        case Some(v) => Result(s.(core := k.Advance()), Continue, [v])
      else
        var (core, outcome) := Compute(i, k);
        Result(s.(core := core), outcome, [])
  }

  function DataOf(mem: Mem, l: Layout): Mem
    requires l.Fits(|mem|)
  {
    mem[l.base + l.dataOffset..l.base + l.stackOffset]
  }

  /** The abstract process that a byte-machine state stands for. */
  function Abstract(s: State, l: Layout): Process
    requires l.Fits(|s.mem|) && l.SpOk(s.sp)
  {
    Process(s.core, StackOf(s.mem, l, s.sp), DataOf(s.mem, l))
  }

  lemma DataReadAgrees(mem: Mem, l: Layout, offset: Word)
    requires l.Fits(|mem|)
    ensures WordRead(DataOf(mem, l), offset) == DataWordRead(mem, l, offset)
  {
    if offset + 4 <= l.dataSize {
      DataAddressOf(l, |mem|, offset);
      var a := l.base + l.dataOffset;
      assert mem[a..l.base + l.stackOffset][offset..offset + 4] == mem[a + offset..a + offset + 4];
    }
  }

  lemma SpliceSlice(mem: Mem, a: nat, offset: nat, bytes: seq<Byte>, n: nat)
    requires a + n <= |mem| && offset + |bytes| <= n
    ensures Splice(mem, a + offset, bytes)[a..a + n] == Splice(mem[a..a + n], offset, bytes)
  {
    var l, r := Splice(mem, a + offset, bytes)[a..a + n], Splice(mem[a..a + n], offset, bytes);
    SpliceFrame(mem, a + offset, bytes);
    SpliceFrame(mem[a..a + n], offset, bytes);
    assert forall i :: 0 <= i < n ==> l[i] == r[i];
  }

  lemma SplicedData(mem: Mem, l: Layout, offset: nat, bytes: seq<Byte>)
    requires l.Fits(|mem|) && offset + |bytes| <= l.dataSize
    ensures DataOf(Splice(mem, l.base + l.dataOffset + offset, bytes), l) == Splice(DataOf(mem, l), offset, bytes)
  {
    assert l.base + l.stackOffset == l.base + l.dataOffset + l.dataSize;
    SpliceSlice(mem, l.base + l.dataOffset, offset, bytes, l.dataSize);
  }

  lemma SplicedStack(mem: Mem, l: Layout, offset: nat, bytes: seq<Byte>, sp: Word)
    requires l.Fits(|mem|) && l.SpOk(sp) && offset + |bytes| <= l.dataSize
    ensures StackOf(Splice(mem, l.base + l.dataOffset + offset, bytes), l, sp) == StackOf(mem, l, sp)
  {
    SpliceFrame(mem, l.base + l.dataOffset + offset, bytes);
    Aligned(l, sp);
    StackWordsAgree(mem, Splice(mem, l.base + l.dataOffset + offset, bytes), sp, l.StackEnd());
  }

  lemma DataWriteAgrees(mem: Mem, l: Layout, offset: Word, v: Word, sp: Word)
    requires l.Fits(|mem|) && l.SpOk(sp)
    ensures var w, d := DataWordWritten(mem, l, offset, v), WordWritten(DataOf(mem, l), offset, v);
            && w.Some? == d.Some?
            && (w.Some? ==> |w.value| == |mem| && DataOf(w.value, l) == d.value
                            && StackOf(w.value, l, sp) == StackOf(mem, l, sp))
  {
    if offset + 4 <= l.dataSize {
      DataWriteValue(mem, l, offset, v);
      SplicedData(mem, l, offset, Bytes(v, 4));
      SplicedStack(mem, l, offset, Bytes(v, 4), sp);
    }
  }

  lemma PushAgrees(mem: Mem, l: Layout, v: Word, sp: Word)
    requires l.Fits(|mem|) && l.SpOk(sp)
    ensures |Push(mem, l, v, sp).mem| == |mem| && DataOf(Push(mem, l, v, sp).mem, l) == DataOf(mem, l)
  {
    PushFrame(mem, l, v, sp);
    var m := Push(mem, l, v, sp).mem;
    assert forall i :: 0 <= i < l.dataSize ==> DataOf(m, l)[i] == DataOf(mem, l)[i];
  }

  lemma Capacity(n: nat, size: nat)
    requires size % 4 == 0
    ensures 4 * n < size <==> n < size / 4
  {
  }

  lemma PushRefines(i: Decoded, s: State, l: Layout)
    requires l.Fits(|s.mem|) && l.SpOk(s.sp) && i.opcode.PUSH?
    ensures var e := Execute(i, s, l);
            && |e.state.mem| == |s.mem| && l.SpOk(e.state.sp)
            && Result(Abstract(e.state, l), e.outcome, e.printed) == Run1(i, Abstract(s, l), l.stackSize / 4)
  {
    var v := Operand(i, s.core);
    PushIsCons(s.mem, l, v, s.sp);
    PushAgrees(s.mem, l, v, s.sp);
    Capacity(|StackOf(s.mem, l, s.sp)|, l.stackSize);
    FailureMeansFullOrEmpty(s.mem, l, v, s.sp);
  }

  /** One instruction of the byte machine is one instruction of the abstract process: same outcome, same
      output, and the stack pointer stays in the stack and word-aligned. */
  lemma ExecuteRefines(i: Decoded, s: State, l: Layout)
    requires l.Fits(|s.mem|) && l.SpOk(s.sp)
    ensures var e := Execute(i, s, l);
            && |e.state.mem| == |s.mem| && l.SpOk(e.state.sp)
            && Result(Abstract(e.state, l), e.outcome, e.printed) == Run1(i, Abstract(s, l), l.stackSize / 4)
  {
    match i.opcode {
      case LOAD => DataReadAgrees(s.mem, l, Wrap(i.imm));
      case STORE => DataWriteAgrees(s.mem, l, Wrap(i.imm), s.core.gpr[i.rd], s.sp);
      case PUSH => PushRefines(i, s, l);
      case POP | RET => PopIsTail(s.mem, l, s.sp);
      case _ => DataReadAgrees(s.mem, l, CallArgument(i.imm));
    }
  }

  lemma StepRefines(s: State, l: Layout)
    requires l.Fits(|s.mem|) && l.SpOk(s.sp)
    ensures |Step(s, l).state.mem| == |s.mem| && l.SpOk(Step(s, l).state.sp)
  {
    hide Execute, Abstract, Run1;
    match CodeWordRead(s.mem, l, s.core.pc) {
      case None =>
      case Some(raw) => ExecuteRefines(Decode(raw), s, l);
    }
  }

  /** Over any solo run the stack pointer stays inside the stack segment and word-aligned. */
  lemma {:induction false} StackPointerInvariant(s: State, l: Layout, n: nat)
    requires l.Fits(|s.mem|) && l.SpOk(s.sp)
    ensures |Solo(s, l, n).mem| == |s.mem| && l.SpOk(Solo(s, l, n).sp)
  {
    hide Step;
    if n == 0 {
    } else {
      StackPointerInvariant(s, l, n - 1);
      StepRefines(Solo(s, l, n - 1), l);
    }
  }

  /** n pushes one after the other; None if one of them fails. */
  function PushMany(mem: Mem, l: Layout, sp: Word, vs: seq<Word>): Option<(Mem, Word)>
    decreases |vs|
  {
    if vs == [] then Some((mem, sp))
    else var p := Push(mem, l, vs[0], sp);
         if p.ok then PushMany(p.mem, l, p.sp, vs[1..]) else None
  }

  function Reversed(s: seq<Word>): (r: seq<Word>) {
    if s == [] then [] else Reversed(s[1..]) + [s[0]]
  }

  lemma StackBounded(mem: Mem, l: Layout, sp: Word)
    requires l.Fits(|mem|) && l.SpOk(sp)
    ensures |StackOf(mem, l, sp)| <= l.stackSize / 4
  {
    Aligned(l, sp);
    assert 4 * |StackOf(mem, l, sp)| <= l.stackSize;
  }

  /** As many pushes fit as there are free words, and the stack then holds them in reverse order. */
  lemma {:induction false} PushesFit(mem: Mem, l: Layout, sp: Word, vs: seq<Word>)
    requires l.Fits(|mem|) && l.SpOk(sp)
    ensures PushMany(mem, l, sp, vs).Some? <==> |vs| + |StackOf(mem, l, sp)| <= l.stackSize / 4
    ensures PushMany(mem, l, sp, vs).Some? ==>
              var (m, p) := PushMany(mem, l, sp, vs).value;
              |m| == |mem| && l.SpOk(p) && StackOf(m, l, p) == Reversed(vs) + StackOf(mem, l, sp)
    decreases |vs|
  {
    hide Push, StackOf;
    StackBounded(mem, l, sp);
    if vs == [] {
      assert Reversed(vs) + StackOf(mem, l, sp) == StackOf(mem, l, sp);
    } else {
      PushIsCons(mem, l, vs[0], sp);
      Capacity(|StackOf(mem, l, sp)|, l.stackSize);
      var p := Push(mem, l, vs[0], sp);
      if p.ok {
        PushesFit(p.mem, l, p.sp, vs[1..]);
        assert Reversed(vs[1..]) + ([vs[0]] + StackOf(mem, l, sp)) == Reversed(vs) + StackOf(mem, l, sp);
      }
    }
  }
}
