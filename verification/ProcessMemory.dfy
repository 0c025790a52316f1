/** One process's view of physical memory: code, data and stack segments (src/vm/memory/process_memory.cpp). */
module Segments {
  import opened Words
  import opened Memory

  datatype Layout = Layout(base: Word, codeOffset: Word, dataOffset: Word, stackOffset: Word,
                           codeSize: nat, dataSize: nat, stackSize: nat, totalSize: nat)
  {
    function CodeAddress(): Word { Wrap(base + codeOffset) }
    function DataAddress(): Word { Wrap(base + dataOffset) }
    function StackAddress(): Word { Wrap(base + stackOffset) }

    /** The three segments lie one after the other inside the region, and the region inside memory. */
    predicate Fits(size: nat) {
      && codeOffset == 0 && dataOffset == codeSize && stackOffset == codeSize + dataSize
      && codeSize % 4 == 0 && stackSize % 4 == 0
      && stackOffset + stackSize <= totalSize && base + totalSize <= size < WORD_LIMIT
    }

    /** One past the last byte of the stack. */
    function StackEnd(): int { base + stackOffset + stackSize }

    predicate SpOk(sp: int) {
      base + stackOffset <= sp <= StackEnd() && (sp - (base + stackOffset)) % 4 == 0
    }

    /** The code word at pc lies in the process's own region. */
    predicate FetchInside(pc: Word) {
      4 * pc + 4 <= totalSize
    }
  }

  // ---- What each operation returns and leaves behind; None or !ok is a VmException ------------------------

  function CodeWordRead(mem: Mem, l: Layout, pc: Word): Option<Word> {
    WordRead(mem, Wrap(l.CodeAddress() + 4 * pc))
  }

  function CodeWordWritten(mem: Mem, l: Layout, pc: Word, v: Word): Option<Mem> {
    WordWritten(mem, Wrap(l.CodeAddress() + 4 * pc), v)
  }

  function DataWordRead(mem: Mem, l: Layout, offset: Word): Option<Word> {
    if offset + 4 > l.dataSize then None else WordRead(mem, Wrap(l.DataAddress() + offset))
  }

  function DataWordWritten(mem: Mem, l: Layout, offset: Word, v: Word): Option<Mem> {
    if offset + 4 > l.dataSize then None else WordWritten(mem, Wrap(l.DataAddress() + offset), v)
  }

  predicate StackAccessValid(l: Layout, sp: Word, size: nat) {
    l.StackAddress() <= sp && sp - l.StackAddress() + size <= l.stackSize
  }

  predicate CanPush(l: Layout, sp: Word) {
    l.StackAddress() + 4 <= sp <= l.StackAddress() + l.stackSize
  }

  predicate CanPop(l: Layout, sp: Word) {
    sp + 4 <= l.StackAddress() + l.stackSize && l.StackAddress() <= sp
  }

  datatype Pushed = Pushed(ok: bool, sp: Word, mem: Mem)
  datatype Popped = Popped(value: Option<Word>, sp: Word)

  /** The stack pointer moves before the write, so a write outside physical memory leaves it moved. */
  function Push(mem: Mem, l: Layout, v: Word, sp: Word): Pushed {
    if !CanPush(l, sp) then Pushed(false, sp, mem)
    else if !StackAccessValid(l, sp - 4, 4) then Pushed(false, sp - 4, mem)
    else match WordWritten(mem, sp - 4, v)
      case None => Pushed(false, sp - 4, mem)
      case Some(m) => Pushed(true, sp - 4, m)
  }

  function Pop(mem: Mem, l: Layout, sp: Word): Popped {
    if !CanPop(l, sp) || !StackAccessValid(l, sp, 4) then Popped(None, sp)
    else match WordRead(mem, sp)
      case None => Popped(None, sp)
      case Some(v) => Popped(Some(v), Wrap(sp + 4))
  }

  /** The second check of push and pop never fires after the first, whatever the layout. */
  lemma ValidationNeverFires(l: Layout, sp: Word)
    ensures CanPush(l, sp) ==> StackAccessValid(l, sp - 4, 4)
    ensures CanPop(l, sp) ==> StackAccessValid(l, sp, 4)
  {
  }

  /** A failed push is a full stack and a failed pop an empty one, exactly, when the layout fits. */
  lemma FailureMeansFullOrEmpty(mem: Mem, l: Layout, v: Word, sp: Word)
    requires l.Fits(|mem|) && l.SpOk(sp)
    ensures !Push(mem, l, v, sp).ok <==> sp == l.StackAddress()
    ensures !Push(mem, l, v, sp).ok ==> Push(mem, l, v, sp) == Pushed(false, sp, mem)
    ensures Pop(mem, l, sp).value.None? <==> sp == l.StackEnd()
    ensures Pop(mem, l, sp).value.None? ==> Pop(mem, l, sp).sp == sp
  {
    var k, n := (sp - (l.base + l.stackOffset)) / 4, l.stackSize / 4;
    assert sp == l.base + l.stackOffset + 4 * k && l.stackSize == 4 * n;
  }

  // ---- The stack as a sequence of words, top first ------------------------------------------------------

  function StackWords(mem: Mem, sp: int, end: int): (s: seq<Word>)
    requires 0 <= sp <= end <= |mem| && (end - sp) % 4 == 0
    ensures 4 * |s| == end - sp
    decreases end - sp
  {
    if sp == end then [] else [WordAt(mem, sp)] + StackWords(mem, sp + 4, end)
  }

  lemma {:induction false} StackWordsAgree(m1: Mem, m2: Mem, sp: int, end: int)
    requires 0 <= sp <= end <= |m1| && (end - sp) % 4 == 0 && AgreeOn(m1, m2, sp, end)
    ensures StackWords(m1, sp, end) == StackWords(m2, sp, end)
    decreases end - sp
  {
    if sp >= end {
    } else {
      WordAgree(m1, m2, sp);
      StackWordsAgree(m1, m2, sp + 4, end);
    }
  }

  lemma Aligned(l: Layout, sp: int)
    requires l.SpOk(sp) && l.stackSize % 4 == 0
    ensures (l.StackEnd() - sp) % 4 == 0
    ensures sp > l.base + l.stackOffset ==> l.SpOk(sp - 4)
    ensures sp < l.StackEnd() ==> l.SpOk(sp + 4)
  {
    var d, n := (sp - (l.base + l.stackOffset)) / 4, l.stackSize / 4;
    assert l.StackEnd() - sp == 4 * (n - d);
  }

  function StackOf(mem: Mem, l: Layout, sp: Word): seq<Word>
    requires l.Fits(|mem|) && l.SpOk(sp)
  {
    Aligned(l, sp);
    StackWords(mem, sp, l.StackEnd())
  }

  lemma PushValue(mem: Mem, l: Layout, v: Word, sp: Word)
    requires l.Fits(|mem|) && l.SpOk(sp) && sp > l.base + l.stackOffset
    ensures 4 <= sp && Push(mem, l, v, sp) == Pushed(true, sp - 4, Splice(mem, sp - 4, Bytes(v, 4)))
  {
    FailureMeansFullOrEmpty(mem, l, v, sp);
  }

  lemma PushedWord(mem: Mem, v: Word, sp: int, end: int)
    requires 4 <= sp <= end <= |mem| && (end - sp) % 4 == 0
    ensures (end - (sp - 4)) % 4 == 0
    ensures StackWords(Splice(mem, sp - 4, Bytes(v, 4)), sp - 4, end) == [v] + StackWords(mem, sp, end)
  {
    var m := Splice(mem, sp - 4, Bytes(v, 4));
    SpliceFrame(mem, sp - 4, Bytes(v, 4));
    WrittenWord(mem, sp - 4, v);
    StackWordsAgree(mem, m, sp, end);
  }

  /** Push adds on top, pop removes from the top, and each fails only at capacity or on the empty stack. */
  lemma PushIsCons(mem: Mem, l: Layout, v: Word, sp: Word)
    requires l.Fits(|mem|) && l.SpOk(sp)
    ensures var p := Push(mem, l, v, sp);
            && |p.mem| == |mem| && l.SpOk(p.sp)
            && (p.ok <==> 4 * |StackOf(mem, l, sp)| < l.stackSize)
            && StackOf(p.mem, l, p.sp) == if p.ok then [v] + StackOf(mem, l, sp) else StackOf(mem, l, sp)
  {
    Aligned(l, sp);
    if sp > l.base + l.stackOffset {
      PushValue(mem, l, v, sp);
      PushedWord(mem, v, sp, l.StackEnd());
    }
  }

  lemma PopValue(mem: Mem, l: Layout, sp: Word)
    requires l.Fits(|mem|) && l.SpOk(sp) && sp < l.StackEnd()
    ensures sp + 4 <= l.StackEnd() && Pop(mem, l, sp) == Popped(Some(WordAt(mem, sp)), sp + 4)
  {
    FailureMeansFullOrEmpty(mem, l, 0, sp);
  }

  lemma StackUncons(mem: Mem, sp: int, end: int)
    requires 0 <= sp && sp + 4 <= end <= |mem| && (end - sp) % 4 == 0
    ensures StackWords(mem, sp, end)[0] == WordAt(mem, sp)
    ensures StackWords(mem, sp, end)[1..] == StackWords(mem, sp + 4, end)
  {
  }

  lemma PopIsTail(mem: Mem, l: Layout, sp: Word)
    requires l.Fits(|mem|) && l.SpOk(sp)
    ensures var p, s := Pop(mem, l, sp), StackOf(mem, l, sp);
            && l.SpOk(p.sp)
            && p.value == (if s == [] then None else Some(s[0]))
            && StackOf(mem, l, p.sp) == if s == [] then s else s[1..]
  {
    Aligned(l, sp);
    if sp == l.StackEnd() {
      FailureMeansFullOrEmpty(mem, l, 0, sp);
      assert StackOf(mem, l, sp) == [];
    } else {
      PopValue(mem, l, sp);
      Aligned(l, sp + 4);
      StackUncons(mem, sp, l.StackEnd());
    }
  }

  /** Popping right after a push returns the value and the stack pointer. */
  lemma PushPop(mem: Mem, l: Layout, v: Word, sp: Word)
    requires Push(mem, l, v, sp).ok
    ensures var p := Push(mem, l, v, sp); Pop(p.mem, l, p.sp) == Popped(Some(v), sp)
  {
    WrittenWord(mem, sp - 4, v);
  }

  // ---- Frames -------------------------------------------------------------------------------------------

  lemma DataAddressOf(l: Layout, size: nat, offset: Word)
    requires l.Fits(size) && offset + 4 <= l.dataSize
    ensures Wrap(l.DataAddress() + offset) == l.base + l.dataOffset + offset
    ensures l.base + l.dataOffset + offset + 4 <= l.base + l.stackOffset <= size
  {
  }

  lemma DataWriteValue(mem: Mem, l: Layout, offset: Word, v: Word)
    requires l.Fits(|mem|) && offset + 4 <= l.dataSize
    ensures InRange(mem, l.base + l.dataOffset + offset, 4)
    ensures DataWordWritten(mem, l, offset, v) == Some(Splice(mem, l.base + l.dataOffset + offset, Bytes(v, 4)))
  {
    DataAddressOf(l, |mem|, offset);
  }

  /** A data write stays in the data segment and a push in the stack segment. */
  lemma DataWriteFrame(mem: Mem, l: Layout, offset: Word, v: Word)
    requires l.Fits(|mem|)
    ensures var w := DataWordWritten(mem, l, offset, v);
            w.Some? ==> SameOutside(mem, w.value, l.base + l.dataOffset, l.base + l.stackOffset)
  {
    if offset + 4 <= l.dataSize {
      var a := l.base + l.dataOffset + offset;
      DataWriteValue(mem, l, offset, v);
      SpliceWithin(mem, a, Bytes(v, 4), l.base + l.dataOffset, l.base + l.stackOffset);
    }
  }

  lemma PushFrame(mem: Mem, l: Layout, v: Word, sp: Word)
    requires l.Fits(|mem|)
    ensures SameOutside(mem, Push(mem, l, v, sp).mem, l.base + l.stackOffset, l.StackEnd())
  {
    if CanPush(l, sp) {
      assert l.StackAddress() == l.base + l.stackOffset;
      SpliceWithin(mem, sp - 4, Bytes(v, 4), l.base + l.stackOffset, l.StackEnd());
    }
  }

  /** Two memories that agree on the region answer alike and still agree on it afterwards. */
  lemma DataReadLocal(m1: Mem, m2: Mem, l: Layout, offset: Word)
    requires l.Fits(|m1|) && AgreeOn(m1, m2, l.base, l.base + l.totalSize)
    ensures DataWordRead(m1, l, offset) == DataWordRead(m2, l, offset)
  {
    if offset + 4 <= l.dataSize {
      DataAddressOf(l, |m1|, offset);
      WordAgree(m1, m2, l.base + l.dataOffset + offset);
    }
  }

  lemma PopLocal(m1: Mem, m2: Mem, l: Layout, sp: Word)
    requires l.Fits(|m1|) && AgreeOn(m1, m2, l.base, l.base + l.totalSize)
    ensures Pop(m1, l, sp) == Pop(m2, l, sp)
  {
    if CanPop(l, sp) {
      WordAgree(m1, m2, sp);
    }
  }

  lemma DataWriteLocal(m1: Mem, m2: Mem, l: Layout, offset: Word, v: Word)
    requires l.Fits(|m1|) && AgreeOn(m1, m2, l.base, l.base + l.totalSize)
    ensures var w1, w2 := DataWordWritten(m1, l, offset, v), DataWordWritten(m2, l, offset, v);
            && w1.Some? == w2.Some?
            && (w1.Some? ==> AgreeOn(w1.value, w2.value, l.base, l.base + l.totalSize))
  {
    if offset + 4 <= l.dataSize {
      DataWriteValue(m1, l, offset, v);
      DataWriteValue(m2, l, offset, v);
      SpliceAgree(m1, m2, l.base + l.dataOffset + offset, Bytes(v, 4), l.base, l.base + l.totalSize);
    }
  }

  lemma PushLocal(m1: Mem, m2: Mem, l: Layout, v: Word, sp: Word)
    requires l.Fits(|m1|) && AgreeOn(m1, m2, l.base, l.base + l.totalSize)
    ensures var p1, p2 := Push(m1, l, v, sp), Push(m2, l, v, sp);
            p1.ok == p2.ok && p1.sp == p2.sp && AgreeOn(p1.mem, p2.mem, l.base, l.base + l.totalSize)
  {
    if CanPush(l, sp) {
      SpliceAgree(m1, m2, sp - 4, Bytes(v, 4), l.base, l.base + l.totalSize);
    }
  }

  lemma CodeAddressOf(l: Layout, size: nat, pc: Word)
    requires l.Fits(size) && l.FetchInside(pc)
    ensures Wrap(l.CodeAddress() + 4 * pc) == l.base + 4 * pc
  {
  }

  lemma FetchLocal(m1: Mem, m2: Mem, l: Layout, pc: Word)
    requires l.Fits(|m1|) && AgreeOn(m1, m2, l.base, l.base + l.totalSize) && l.FetchInside(pc)
    ensures CodeWordRead(m1, l, pc) == CodeWordRead(m2, l, pc) == Some(WordAt(m1, l.base + 4 * pc))
  {
    CodeAddressOf(l, |m1|, pc);
    WordAgree(m1, m2, l.base + 4 * pc);
  }

  /** Changes confined to the data and stack segments leave every code word alone. */
  lemma CodeWordKept(m1: Mem, m2: Mem, l: Layout, pc: Word)
    requires l.Fits(|m1|) && SameOutside(m1, m2, l.base + l.dataOffset, l.StackEnd()) && 4 * pc + 4 <= l.codeSize
    ensures CodeWordRead(m1, l, pc) == CodeWordRead(m2, l, pc)
  {
    CodeAddressOf(l, |m1|, pc);
    WordAgree(m1, m2, l.base + 4 * pc);
  }

  /** Memory after an attempt to store; an exception leaves what was stored before it. */
  datatype Stored = Stored(ok: bool, mem: Mem)

  function CodeStored(mem: Mem, l: Layout, code: seq<Word>, i: nat): Stored
    decreases |code| - i
  {
    if i >= |code| then Stored(true, mem)
    else match CodeWordWritten(mem, l, Wrap(i), code[i])
      case None => Stored(false, mem)
      case Some(m) => CodeStored(m, l, code, i + 1)
  }

  class ProcessMemory {
    const physical: PhysicalMemory
    const layout: Layout

    constructor (physical: PhysicalMemory, layout: Layout)
      ensures this.physical == physical && this.layout == layout
    {
      this.physical := physical;
      this.layout := layout;
    }

    function Mem(): Mem
      reads physical.memory
    {
      physical.memory[..]
    }

    method ReadCodeWord(pc: Word) returns (r: Option<Word>)
      ensures r == CodeWordRead(Mem(), layout, pc)
    {
      r := physical.ReadWord(Wrap(layout.CodeAddress() + 4 * pc));
    }

    method WriteCodeWord(pc: Word, value: Word) returns (ok: bool)
      modifies physical.memory
      ensures CodeWordWritten(old(Mem()), layout, pc, value) == if ok then Some(Mem()) else None
      ensures !ok ==> Mem() == old(Mem())
    {
      ok := physical.WriteWord(Wrap(layout.CodeAddress() + 4 * pc), value);
    }

    method ReadDataWord(offset: Word) returns (r: Option<Word>)
      ensures r == DataWordRead(Mem(), layout, offset)
    {
      if offset + 4 > layout.dataSize {
        return None;
      }
      r := physical.ReadWord(Wrap(layout.DataAddress() + offset));
    }

    method WriteDataWord(offset: Word, value: Word) returns (ok: bool)
      modifies physical.memory
      ensures DataWordWritten(old(Mem()), layout, offset, value) == if ok then Some(Mem()) else None
      ensures !ok ==> Mem() == old(Mem())
    {
      hide WordWritten;
      if offset + 4 > layout.dataSize {
        return false;
      }
      ok := physical.WriteWord(Wrap(layout.DataAddress() + offset), value);
    }

    /** The caller's sp register is passed by reference in the source; here the new value is returned. */
    method PushWord(value: Word, sp: Word) returns (ok: bool, newSp: Word)
      modifies physical.memory
      ensures Pushed(ok, newSp, Mem()) == Push(old(Mem()), layout, value, sp)
    {
      if !(sp >= layout.StackAddress() + 4 && sp <= layout.StackAddress() + layout.stackSize) {
        return false, sp;
      }
      newSp := sp - 4;
      if newSp < layout.StackAddress() || newSp - layout.StackAddress() + 4 > layout.stackSize {
        return false, newSp;
      }
      ok := physical.WriteWord(newSp, value);
    }

    method PopWord(sp: Word) returns (value: Option<Word>, newSp: Word)
      ensures Popped(value, newSp) == Pop(Mem(), layout, sp)
    {
      newSp := sp;
      if !(sp + 4 <= layout.StackAddress() + layout.stackSize && sp >= layout.StackAddress()) {
        return None, sp;
      }
      if sp < layout.StackAddress() || sp - layout.StackAddress() + 4 > layout.stackSize {
        return None, sp;
      }
      value := physical.ReadWord(sp);
      if value.Some? {
        newSp := Wrap(sp + 4);
      }
    }

    /** loadCode: stops at the first word outside physical memory. */
    method LoadCode(code: seq<Word>) returns (ok: bool)
      modifies physical.memory
      ensures Stored(ok, Mem()) == CodeStored(old(Mem()), layout, code, 0)
    {
      var i := 0;
      while i < |code|
        invariant 0 <= i <= |code|
        invariant CodeStored(old(Mem()), layout, code, 0) == CodeStored(Mem(), layout, code, i)
      {
        ok := WriteCodeWord(Wrap(i), code[i]);
        if !ok {
          return;
        }
        i := i + 1;
      }
      ok := true;
    }
  }
}
