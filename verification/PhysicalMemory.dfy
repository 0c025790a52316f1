/** Byte-addressed physical memory with a bump allocator (src/vm/memory/physical_memory.cpp). */
module Memory {
  import opened Words

  type Mem = seq<Byte>

  predicate InRange(mem: Mem, a: int, n: nat) {
    0 <= a && a + n <= |mem|
  }

  function Splice(mem: Mem, a: int, bytes: seq<Byte>): (r: Mem)
    requires InRange(mem, a, |bytes|)
    ensures |r| == |mem|
    ensures r[a..a + |bytes|] == bytes
  {
    mem[..a] + bytes + mem[a + |bytes|..]
  }

  /** The little-endian word stored at a. */
  function WordAt(mem: Mem, a: int): Word
    requires InRange(mem, a, 4)
  {
    FromBytesBound(mem[a..a + 4]); Pow2Values();
    FromBytes(mem[a..a + 4])
  }

  /** readWord: None is the out-of-bounds exception. */
  function WordRead(mem: Mem, a: Word): Option<Word> {
    if InRange(mem, a, 4) then Some(WordAt(mem, a)) else None
  }

  function BytesWritten(mem: Mem, a: Word, bytes: seq<Byte>): Option<Mem> {
    if InRange(mem, a, |bytes|) then Some(Splice(mem, a, bytes)) else None
  }

  function WordWritten(mem: Mem, a: Word, v: Word): Option<Mem> {
    BytesWritten(mem, a, Bytes(v, 4))
  }

  ghost predicate AgreeOn(m1: Mem, m2: Mem, lo: int, hi: int) {
    |m1| == |m2| && forall i :: lo <= i < hi && 0 <= i < |m1| ==> m1[i] == m2[i]
  }

  /** Nothing outside [lo, hi) differs. */
  ghost predicate SameOutside(m1: Mem, m2: Mem, lo: int, hi: int) {
    |m1| == |m2| && forall i :: 0 <= i < |m1| && !(lo <= i < hi) ==> m1[i] == m2[i]
  }

  lemma SpliceFrame(mem: Mem, a: int, bytes: seq<Byte>)
    requires InRange(mem, a, |bytes|)
    ensures SameOutside(mem, Splice(mem, a, bytes), a, a + |bytes|)
    ensures forall i :: a <= i < a + |bytes| ==> Splice(mem, a, bytes)[i] == bytes[i - a]
  {
  }

  lemma SpliceWithin(mem: Mem, a: int, bytes: seq<Byte>, lo: int, hi: int)
    requires InRange(mem, a, |bytes|) && lo <= a && a + |bytes| <= hi
    ensures SameOutside(mem, Splice(mem, a, bytes), lo, hi)
  {
    SpliceFrame(mem, a, bytes);
  }

  lemma SameOutsideJoin(m1: Mem, m2: Mem, m3: Mem, lo: int, mid: int, hi: int)
    requires lo <= mid <= hi
    requires (SameOutside(m1, m2, mid, hi) && SameOutside(m2, m3, lo, mid))
          || (SameOutside(m1, m2, lo, mid) && SameOutside(m2, m3, mid, hi))
    ensures SameOutside(m1, m3, lo, hi)
  {
  }

  lemma WrittenWord(mem: Mem, a: int, v: Word)
    requires InRange(mem, a, 4)
    ensures WordAt(Splice(mem, a, Bytes(v, 4)), a) == v
  {
    BytesRoundTrip(v, 4);
    Pow2Values();
  }

  lemma WordAgree(m1: Mem, m2: Mem, a: int)
    requires InRange(m1, a, 4) && AgreeOn(m1, m2, a, a + 4)
    ensures WordAt(m1, a) == WordAt(m2, a)
  {
    assert m1[a..a + 4] == m2[a..a + 4];
  }

  lemma SpliceAgree(m1: Mem, m2: Mem, a: int, bytes: seq<Byte>, lo: int, hi: int)
    requires InRange(m1, a, |bytes|) && AgreeOn(m1, m2, lo, hi)
    ensures AgreeOn(Splice(m1, a, bytes), Splice(m2, a, bytes), lo, hi)
  {
    SpliceFrame(m1, a, bytes);
    SpliceFrame(m2, a, bytes);
  }

  class PhysicalMemory {
    const memory: array<Byte>
    var nextFreeAddress: Word

    constructor (size: nat)
      ensures fresh(memory) && memory.Length == size && nextFreeAddress == 0
      ensures memory[..] == seq(size, _ => 0)
    {
      memory := new Byte[size](_ => 0);
      nextFreeAddress := 0;
    }

    method ReadWord(address: Word) returns (r: Option<Word>)
      ensures r == WordRead(memory[..], address)
    {
      if address + 4 > memory.Length {
        return None;
      }
      var value: nat := 0;
      var i := 0;
      while i < 4
        invariant 0 <= i <= 4
        invariant value == FromBytes(memory[address..address + i])
      {
        ghost var read := memory[address..address + i];
        FromBytesBound(read);
        FromBytesSnoc(read, memory[address + i]);
        OrDisjoint(memory[address + i], value, 8 * i);
        assert memory[address..address + i + 1] == read + [memory[address + i]];
        value := BitOr(value, ShiftLeft(memory[address + i], 8 * i));
        i := i + 1;
      }
      assert memory[..][address..address + 4] == memory[address..address + 4];
      FromBytesBound(memory[address..address + 4]);
      Pow2Values();
      r := Some(value);
    }

    method WriteWord(address: Word, value: Word) returns (ok: bool)
      modifies memory
      ensures WordWritten(old(memory[..]), address, value) == if ok then Some(memory[..]) else None
      ensures !ok ==> memory[..] == old(memory[..])
    {
      if address + 4 > memory.Length {
        return false;
      }
      ghost var before, word := memory[..], Bytes(value, 4);
      var i := 0;
      while i < 4
        invariant 0 <= i <= 4
        invariant forall j :: address <= j < address + i ==> memory[j] == word[j - address]
        invariant forall j :: 0 <= j < memory.Length && !(address <= j < address + i) ==> memory[j] == before[j]
      {
        ByteAt(value, 4, i);
        memory[address + i] := BitAnd(ShiftRight(value, 8 * i), 0xFF);
        i := i + 1;
      }
      SpliceFrame(before, address, word);
      assert memory[..] == Splice(before, address, word);
      ok := true;
    }

    method WriteBytes(address: Word, buffer: seq<Byte>) returns (ok: bool)
      modifies memory
      ensures BytesWritten(old(memory[..]), address, buffer) == if ok then Some(memory[..]) else None
      ensures !ok ==> memory[..] == old(memory[..])
    {
      if address + |buffer| > memory.Length {
        return false;
      }
      ghost var before := memory[..];
      var i := 0;
      while i < |buffer|
        invariant 0 <= i <= |buffer|
        invariant forall j :: address <= j < address + i ==> memory[j] == buffer[j - address]
        invariant forall j :: 0 <= j < memory.Length && !(address <= j < address + i) ==> memory[j] == before[j]
      {
        memory[address + i] := buffer[i];
        i := i + 1;
      }
      SpliceFrame(before, address, buffer);
      assert memory[..] == Splice(before, address, buffer);
      ok := true;
    }

    /** Bump allocation: None is the not-enough-memory exception, which changes nothing. */
    method AllocateRegion(size: nat) returns (base: Option<Word>)
      modifies `nextFreeAddress
      ensures base == if old(nextFreeAddress) + size <= memory.Length then Some(old(nextFreeAddress)) else None
      ensures nextFreeAddress == if base.Some? then Wrap(old(nextFreeAddress) + size) else old(nextFreeAddress)
    {
      if nextFreeAddress + size > memory.Length {
        return None;
      }
      base := Some(nextFreeAddress);
      nextFreeAddress := Wrap(nextFreeAddress + size);
    }
  }
}
