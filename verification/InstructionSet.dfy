/** The instruction set in plain arithmetic: for every instruction, register contents and flags, what the machine does,
    said with numbers and bits only (docs/ISA.md, src/vm/isa/handlers). */
module InstructionSet {
  import opened Words
  import opened Encoding
  import opened Memory
  import opened Segments
  import opened Machine

  // ---- What instructions on registers do ----------------------------------------------------------------

  /** A word as a signed 32-bit number. */
  function AsInt(w: int): int {
    if w < 0x8000_0000 then w else w - 0x1_0000_0000
  }

  /** t goes on behind k, and at most register rd and the flags differ. */
  ghost predicate GoesOn(k: Core, t: Core, rd: RegIndex) {
    t.pc == (k.pc + 1) % 0x1_0000_0000 && forall r: RegIndex :: r != rd ==> t.gpr[r] == k.gpr[r]
  }

  /** zero and sign describe v. */
  predicate Describes(f: Flags, v: int) {
    (f.zero <==> v == 0) && (f.sign <==> v >= 0x8000_0000)
  }

  /** All four flags describe a - b on words a and b. */
  predicate DescribesDifference(f: Flags, a: int, b: int) {
    && Describes(f, (a - b) % 0x1_0000_0000)
    && (f.carry <==> a < b)
    && (f.overflow <==> !(-0x8000_0000 <= AsInt(a) - AsInt(b) < 0x8000_0000))
  }

  /** The result v in rd, described by zero and sign; carry and overflow are as before. */
  ghost predicate Sets(k: Core, rd: RegIndex, v: int, t: Core, o: Outcome) {
    && o == Continue && GoesOn(k, t, rd) && t.gpr[rd] == v
    && Describes(t.flags, v) && t.flags.carry == k.flags.carry && t.flags.overflow == k.flags.overflow
  }

  /** The difference a - b in rd, described by all four flags. */
  ghost predicate SetsDifference(k: Core, rd: RegIndex, a: int, b: int, t: Core, o: Outcome) {
    && o == Continue && GoesOn(k, t, rd) && t.gpr[rd] == (a - b) % 0x1_0000_0000
    && DescribesDifference(t.flags, a, b)
  }

  function Past(k: Core): Core {
    k.(pc := (k.pc + 1) % 0x1_0000_0000)
  }

  /** Bit n of a number. */
  predicate Bit(w: nat, n: nat) {
    (w / Pow2(n)) % 2 == 1
  }

  /** What each instruction on operands a and b does to the registers and flags k: it leaves t and ends as o. */
  ghost predicate Computes(op: Opcode, k: Core, rd: RegIndex, a: nat, b: nat, t: Core, o: Outcome) {
    var d: nat, v: nat := k.gpr[rd], t.gpr[rd];
    match op
    case MOV => o == Continue && GoesOn(k, t, rd) && v == b && t.flags == k.flags
    case ADD => Sets(k, rd, (a + b) % 0x1_0000_0000, t, o)
    case SUB => SetsDifference(k, rd, a, b, t, o)
    case MUL => Sets(k, rd, (a * b) % 0x1_0000_0000, t, o)
    case DIV => if b == 0 then o == Error && t == k else Sets(k, rd, v, t, o) && v * b <= a < v * b + b
    case MOD => if b == 0 then o == Error && t == k else Sets(k, rd, v, t, o) && v < b && exists q :: a == q * b + v
    case INC => Sets(k, rd, (d + 1) % 0x1_0000_0000, t, o)
    case DEC => SetsDifference(k, rd, d, 1, t, o)
    case AND => Sets(k, rd, v, t, o) && forall n | 0 <= n < 32 :: Bit(v, n) <==> Bit(a, n) && Bit(b, n)
    case OR => Sets(k, rd, v, t, o) && forall n | 0 <= n < 32 :: Bit(v, n) <==> Bit(a, n) || Bit(b, n)
    case XOR => Sets(k, rd, v, t, o) && forall n | 0 <= n < 32 :: Bit(v, n) <==> Bit(a, n) != Bit(b, n)
    case NOT => Sets(k, rd, v, t, o) && forall n | 0 <= n < 32 :: Bit(v, n) <==> !Bit(d, n)
    case CMP => o == Continue && t == Past(k).(flags := t.flags) && DescribesDifference(t.flags, a, b)
    case NOP => o == Continue && t == Past(k)
    case _ => o == Throw && t == k
  }

  /** The condition of each jump on the flags. */
  predicate Condition(op: Opcode, f: Flags) {
    match op
    case JMP => true
    case JE => f.zero
    case JNE => !f.zero
    case JG => !f.zero && !f.sign
    case JGE => !f.sign
    case JL => f.sign
    case JLE => f.zero || f.sign
    case _ => false
  }

  // ---- Arithmetic ---------------------------------------------------------------------------------------

  lemma DifferenceFlags(a: Word, b: Word)
    ensures DescribesDifference(SubFlags(a, b, Wrap(a - b)), a, b)
  {
    CompareFlags(a, b);
  }

  lemma Arithmetic(op: Opcode, k: Core, rd: RegIndex, a: Word, b: Word)
    requires op in {ADD, SUB, MUL, INC, DEC}
    ensures var (t, o) := Alu(op, k, rd, a, b); Computes(op, k, rd, a, b, t, o)
  {
    hide SubFlags, DescribesDifference, Bit;
    DifferenceFlags(a, b);
    DifferenceFlags(k.gpr[rd], 1);
  }

  lemma Division(op: Opcode, k: Core, rd: RegIndex, a: Word, b: Word)
    requires op in {DIV, MOD}
    ensures var (t, o) := Alu(op, k, rd, a, b); Computes(op, k, rd, a, b, t, o)
  {
    hide Bit;
    if b != 0 {
      assert a == (a / b) * b + a % b;
    }
  }

  // ---- Logic --------------------------------------------------------------------------------------------

  /** Bit n is bit n - 1 of the half. */
  lemma BitOfHalf(w: nat, n: nat)
    requires n > 0
    ensures Bit(w, n) <==> Bit(w / 2, n - 1)
  {
    DivDiv(w, 2, Pow2(n - 1));
  }

  lemma BitZero(w: nat)
    ensures Bit(w, 0) <==> w % 2 == 1
  {
    assert Pow2(0) == 1;
  }

  lemma NoBits(n: nat)
    ensures !Bit(0, n)
  {
    assert 0 / Pow2(n) == 0;
  }

  lemma {:induction false} AndBits(a: nat, b: nat, n: nat)
    ensures Bit(BitAnd(a, b), n) <==> Bit(a, n) && Bit(b, n)
    decreases n
  {
    hide Bit;
    NoBits(n);
    if a == 0 || b == 0 {
    } else if n == 0 {
      BitZero(a); BitZero(b); BitZero(BitAnd(a, b));
    } else {
      AndBits(a / 2, b / 2, n - 1);
      BitOfHalf(a, n); BitOfHalf(b, n); BitOfHalf(BitAnd(a, b), n);
    }
  }

  lemma {:induction false} OrBits(a: nat, b: nat, n: nat)
    ensures Bit(BitOr(a, b), n) <==> Bit(a, n) || Bit(b, n)
    decreases n
  {
    hide Bit;
    NoBits(n);
    if a == 0 || b == 0 {
    } else if n == 0 {
      BitZero(a); BitZero(b); BitZero(BitOr(a, b));
    } else {
      OrBits(a / 2, b / 2, n - 1);
      BitOfHalf(a, n); BitOfHalf(b, n); BitOfHalf(BitOr(a, b), n);
    }
  }

  lemma {:induction false} XorBits(a: nat, b: nat, n: nat)
    ensures Bit(BitXor(a, b), n) <==> Bit(a, n) != Bit(b, n)
    decreases n
  {
    hide Bit;
    NoBits(n);
    if a == 0 || b == 0 {
    } else if n == 0 {
      BitZero(a); BitZero(b); BitZero(BitXor(a, b));
    } else {
      XorBits(a / 2, b / 2, n - 1);
      BitOfHalf(a, n); BitOfHalf(b, n); BitOfHalf(BitXor(a, b), n);
    }
  }

  /** Subtracting from all ones flips every bit below the width. */
  lemma {:induction false} FlippedBits(a: nat, width: nat, n: nat)
    requires n < width && a < Pow2(width)
    ensures Bit(Pow2(width) - 1 - a, n) <==> !Bit(a, n)
    decreases n
  {
    hide Bit;
    var f: nat := Pow2(width) - 1 - a;
    if n == 0 {
      BitZero(a); BitZero(f);
    } else {
      assert f / 2 == Pow2(width - 1) - 1 - a / 2;
      FlippedBits(a / 2, width - 1, n - 1);
      BitOfHalf(a, n); BitOfHalf(f, n);
    }
  }

  lemma LogicValue(op: Opcode, k: Core, rd: RegIndex, a: Word, b: Word)
    requires op in {AND, OR, XOR, NOT}
    ensures var (t, o) := Alu(op, k, rd, a, b);
            && Sets(k, rd, t.gpr[rd], t, o)
            && (op == AND ==> t.gpr[rd] == BitAnd(a, b))
            && (op == OR ==> t.gpr[rd] == BitOr(a, b))
            && (op == XOR ==> t.gpr[rd] == BitXor(a, b))
            && (op == NOT ==> t.gpr[rd] == 0xFFFF_FFFF - k.gpr[rd])
  {
    hide BitAnd, BitOr, BitXor;
  }

  lemma LogicBits(a: Word, b: Word, n: nat)
    requires n < 32
    ensures Bit(BitAnd(a, b), n) <==> Bit(a, n) && Bit(b, n)
    ensures Bit(BitOr(a, b), n) <==> Bit(a, n) || Bit(b, n)
    ensures Bit(BitXor(a, b), n) <==> Bit(a, n) != Bit(b, n)
    ensures Bit(0xFFFF_FFFF - a, n) <==> !Bit(a, n)
  {
    hide Bit, BitAnd, BitOr, BitXor;
    Pow2Values();
    AndBits(a, b, n);
    OrBits(a, b, n);
    XorBits(a, b, n);
    FlippedBits(a, 32, n);
  }

  lemma Logic(op: Opcode, k: Core, rd: RegIndex, a: Word, b: Word)
    requires op in {AND, OR, XOR, NOT}
    ensures var (t, o) := Alu(op, k, rd, a, b); Computes(op, k, rd, a, b, t, o)
  {
    hide Bit, BitAnd, BitOr, BitXor, Alu, Sets;
    LogicValue(op, k, rd, a, b);
    forall n: nat | n < 32
      ensures Bit(BitAnd(a, b), n) <==> Bit(a, n) && Bit(b, n)
      ensures Bit(BitOr(a, b), n) <==> Bit(a, n) || Bit(b, n)
      ensures Bit(BitXor(a, b), n) <==> Bit(a, n) != Bit(b, n)
      ensures Bit(0xFFFF_FFFF - k.gpr[rd], n) <==> !Bit(k.gpr[rd], n)
    {
      LogicBits(a, b, n);
      LogicBits(k.gpr[rd], b, n);
    }
  }

  // ---- All of them --------------------------------------------------------------------------------------

  lemma Moves(op: Opcode, k: Core, rd: RegIndex, a: Word, b: Word)
    requires op in {MOV, CMP, NOP} || op.UNKNOWN?
    ensures var (t, o) := Alu(op, k, rd, a, b); Computes(op, k, rd, a, b, t, o)
  {
    hide SubFlags, DescribesDifference, Machine.Result, Difference, And32, Or32, Xor32, Bit;
    DifferenceFlags(a, b);
  }

  lemma AluComputes(op: Opcode, k: Core, rd: RegIndex, a: Word, b: Word)
    requires Code(op) <= 12 || op == NOP || op.UNKNOWN?
    ensures var (t, o) := Alu(op, k, rd, a, b); Computes(op, k, rd, a, b, t, o)
  {
    hide Alu, Computes;
    if op in {ADD, SUB, MUL, INC, DEC} {
      Arithmetic(op, k, rd, a, b);
    } else if op in {DIV, MOD} {
      Division(op, k, rd, a, b);
    } else if op in {AND, OR, XOR, NOT} {
      Logic(op, k, rd, a, b);
    } else {
      Moves(op, k, rd, a, b);
    }
  }

  /** The right-hand operand: register field 15 stands for the sign-extended immediate. */
  function RightOperand(i: Decoded, k: Core): int {
    if i.rs2 == 15 then i.imm % 0x1_0000_0000 else k.gpr[i.rs2]
  }

  /** Every instruction on registers computes that on register rs1 and the right-hand operand. */
  lemma Computation(i: Decoded, k: Core)
    requires Code(i.opcode) <= 12 || i.opcode == NOP || i.opcode.UNKNOWN?
    ensures var (t, o) := Compute(i, k); Computes(i.opcode, k, i.rd, k.gpr[i.rs1], RightOperand(i, k), t, o)
  {
    hide Alu, Computes;
    AluComputes(i.opcode, k, i.rd, k.gpr[i.rs1], Operand(i, k));
  }

  // ---- Jumps --------------------------------------------------------------------------------------------

  const JUMPS: set<Opcode> := {JMP, JE, JNE, JG, JGE, JL, JLE}

  lemma Branches(op: Opcode, k: Core, target: Word)
    requires op in JUMPS
    ensures Branched(op, k, target)
         == if Condition(op, k.flags) then (k.(pc := target), Jump) else (Past(k), Continue)
  {
  }

  /** A jump whose condition holds goes to its immediate as a 32-bit word; nothing but pc changes. */
  lemma Jumps(i: Decoded, k: Core)
    requires i.opcode in JUMPS
    ensures Compute(i, k)
         == if Condition(i.opcode, k.flags) then (k.(pc := i.imm % 0x1_0000_0000), Jump) else (Past(k), Continue)
  {
    hide Branched, Condition;
    Branches(i.opcode, k, Wrap(i.imm));
  }

  /** halt stays where it is. */
  lemma Halts(i: Decoded, k: Core)
    requires i.opcode == HALT
    ensures Compute(i, k) == (k, Halt(false))
  {
  }

  /** Which condition holds after a comparison or subtraction: je's and jne's decide equality; those of the ordered
      jumps decide the signed order exactly when the signed difference is a 32-bit number. */
  lemma CompareAndJump(c: Decoded, k: Core)
    requires c.opcode in {CMP, SUB}
    ensures var a: int, b, f := k.gpr[c.rs1], RightOperand(c, k), Compute(c, k).0.flags;
            var x, y := AsInt(a), AsInt(b);
            var fits := -0x8000_0000 <= x - y < 0x8000_0000;
            && (Condition(JE, f) <==> a == b) && (Condition(JNE, f) <==> a != b)
            && ((Condition(JL, f) <==> x < y) <==> fits) && ((Condition(JGE, f) <==> x >= y) <==> fits)
            && ((Condition(JG, f) <==> x > y) <==> fits) && ((Condition(JLE, f) <==> x <= y) <==> fits)
  {
    hide SubFlags;
    OrderedJumps(k.gpr[c.rs1], Operand(c, k));
    CompareFlags(k.gpr[c.rs1], Operand(c, k));
  }

  // ---- Memory -------------------------------------------------------------------------------------------

  /** The number that four bytes spell, least significant first. */
  function Spelled(mem: Mem, a: int): int
    requires 0 <= a && a + 4 <= |mem|
  {
    var b0: int, b1: int, b2: int, b3: int := mem[a], mem[a + 1], mem[a + 2], mem[a + 3];
    b0 + 0x100 * b1 + 0x1_0000 * b2 + 0x100_0000 * b3
  }

  lemma FourBytes(s: seq<Byte>)
    requires |s| == 4
    ensures FromBytes(s) == Spelled(s, 0)
  {
    assert FromBytes(s[1..][1..][1..]) == s[3];
    assert FromBytes(s[1..][1..]) == s[2] as int + 0x100 * s[3] as int;
    assert FromBytes(s[1..]) == s[1] as int + 0x100 * s[2] as int + 0x1_0000 * s[3] as int;
  }

  lemma WordSpelled(mem: Mem, a: int)
    requires 0 <= a && a + 4 <= |mem|
    ensures WordAt(mem, a) == Spelled(mem, a)
  {
    FourBytes(mem[a..a + 4]);
  }

  /** The four bytes at a spell v, and no other byte of the memory differs. */
  ghost predicate Stores(before: Mem, after: Mem, a: int, v: int) {
    && |before| == |after| && 0 <= a && a + 4 <= |after| && Spelled(after, a) == v
    && forall x :: 0 <= x < |after| && !(a <= x < a + 4) ==> after[x] == before[x]
  }

  lemma SplicedWord(mem: Mem, a: int, v: Word)
    requires 0 <= a && a + 4 <= |mem|
    ensures Stores(mem, Splice(mem, a, Bytes(v, 4)), a, v)
  {
    hide Bytes, Splice, WordAt, Spelled;
    SpliceFrame(mem, a, Bytes(v, 4));
    WrittenWord(mem, a, v);
    WordSpelled(Splice(mem, a, Bytes(v, 4)), a);
  }

  /** Where an instruction leaves the process, how it ends and what it prints. */
  function Ends(i: Decoded, s: State, l: Layout): (State, Outcome, seq<Word>) {
    var e := Execute(i, s, l);
    (e.state, e.outcome, e.printed)
  }

  /** load reads the word at an offset of the data segment and throws outside it, */
  lemma Loads(i: Decoded, s: State, l: Layout)
    requires i.opcode == LOAD && l.Fits(|s.mem|)
    ensures var a, (t, o, out) := i.imm % 0x1_0000_0000, Ends(i, s, l);
            && out == [] && t.sp == s.sp && t.mem == s.mem
            && (a + 4 > l.dataSize ==> o == Throw && t == s)
            && (a + 4 <= l.dataSize ==>
                  && l.base + l.dataOffset + a + 4 <= |s.mem|
                  && o == Continue && GoesOn(s.core, t.core, i.rd) && t.core.flags == s.core.flags
                  && t.core.gpr[i.rd] == Spelled(s.mem, l.base + l.dataOffset + a))
  {
    hide WordAt, Spelled, Push, Pop, DataWordWritten, Compute, Layout.Fits;
    var a: Word := i.imm % 0x1_0000_0000;
    if a + 4 <= l.dataSize {
      DataAddressOf(l, |s.mem|, a);
      WordSpelled(s.mem, l.base + l.dataOffset + a);
    }
  }

  /** store writes register rd there and nothing else. */
  lemma StoresWord(i: Decoded, s: State, l: Layout)
    requires i.opcode == STORE && l.Fits(|s.mem|)
    ensures var a, (t, o, out) := i.imm % 0x1_0000_0000, Ends(i, s, l);
            && out == [] && t.sp == s.sp
            && (a + 4 > l.dataSize ==> o == Throw && t == s)
            && (a + 4 <= l.dataSize ==>
                  && o == Continue && t.core == Past(s.core)
                  && Stores(s.mem, t.mem, l.base + l.dataOffset + a, s.core.gpr[i.rd]))
  {
    hide Stores, WordWritten, Splice, Bytes, Push, Pop, DataWordRead, Compute, Layout.Fits;
    var a: Word := i.imm % 0x1_0000_0000;
    if a + 4 <= l.dataSize {
      DataWriteValue(s.mem, l, a, s.core.gpr[i.rd]);
      SplicedWord(s.mem, l.base + l.dataOffset + a, s.core.gpr[i.rd]);
    }
  }

  lemma SpInside(l: Layout, sp: Word, size: nat)
    requires l.Fits(size) && l.SpOk(sp)
    ensures l.StackAddress() == l.base + l.stackOffset <= sp <= l.base + l.stackOffset + l.stackSize <= size
    ensures l.StackEnd() == l.base + l.stackOffset + l.stackSize
  {
  }

  /** push writes its operand below sp and moves sp there; on a full stack it is an error that changes nothing. */
  lemma Pushes(i: Decoded, s: State, l: Layout)
    requires i.opcode == PUSH && l.Fits(|s.mem|) && l.SpOk(s.sp)
    ensures var (t, o, out) := Ends(i, s, l);
            && out == []
            && (s.sp == l.base + l.stackOffset ==> o == Error && t == s)
            && (s.sp > l.base + l.stackOffset ==>
                  && o == Continue && t.core == Past(s.core) && t.sp == s.sp - 4
                  && Stores(s.mem, t.mem, s.sp - 4, RightOperand(i, s.core)))
  {
    hide Stores, Push, Pop, Splice, Bytes, DataWordRead, DataWordWritten, Compute, Layout.SpOk, Layout.Fits;
    SpInside(l, s.sp, |s.mem|);
    FailureMeansFullOrEmpty(s.mem, l, Operand(i, s.core), s.sp);
    if s.sp > l.base + l.stackOffset {
      PushValue(s.mem, l, Operand(i, s.core), s.sp);
      SplicedWord(s.mem, s.sp - 4, Operand(i, s.core));
    }
  }

  /** pop and ret take the word at sp and move sp past it: pop into rd, ret into pc. On an empty stack they are errors
      that change nothing. */
  lemma Pops(i: Decoded, s: State, l: Layout)
    requires i.opcode in {POP, RET} && l.Fits(|s.mem|) && l.SpOk(s.sp)
    ensures var (t, o, out) := Ends(i, s, l);
            && out == [] && t.mem == s.mem
            && (s.sp == l.base + l.stackOffset + l.stackSize ==> o == Error && t == s)
            && (s.sp < l.base + l.stackOffset + l.stackSize ==>
                  && s.sp + 4 <= |s.mem| && t.sp == s.sp + 4
                  && (i.opcode == POP ==> o == Continue && GoesOn(s.core, t.core, i.rd) && t.core.flags == s.core.flags
                                          && t.core.gpr[i.rd] == Spelled(s.mem, s.sp))
                  && (i.opcode == RET ==> o == Jump && t.core == s.core.(pc := t.core.pc)
                                          && t.core.pc == Spelled(s.mem, s.sp)))
  {
    hide Push, Pop, WordAt, Spelled, DataWordRead, DataWordWritten, Compute, Layout.SpOk, Layout.Fits;
    SpInside(l, s.sp, |s.mem|);
    FailureMeansFullOrEmpty(s.mem, l, 0, s.sp);
    if s.sp < l.StackEnd() {
      PopValue(s.mem, l, s.sp);
      WordSpelled(s.mem, s.sp);
    }
  }

  // ---- System calls -------------------------------------------------------------------------------------

  /** The system call of number rs1: 0 prints the word at an offset of the data segment, 2 exits, 3 yields, 1 and 4
      leave the model before any effect, the others do nothing. */
  lemma Services(i: Decoded, s: State, l: Layout)
    requires i.opcode == CALL && l.Fits(|s.mem|)
    ensures var (t, o, out) := Ends(i, s, l);
            var a := if i.imm < 0 then i.imm + 65536 else i.imm;
            && (i.rs1 in {1, 4} ==> o == External && t == s && out == [])
            && (i.rs1 == 2 ==> o == Halt(true) && t == s.(core := Past(s.core)) && out == [])
            && (i.rs1 == 3 ==> o == Yield && t == s.(core := Past(s.core)) && out == [])
            && (i.rs1 >= 5 ==> o == Continue && t == s.(core := Past(s.core)) && out == [])
            && (i.rs1 == 0 && a + 4 > l.dataSize ==> o == Throw && t == s && out == [])
            && (i.rs1 == 0 && a + 4 <= l.dataSize ==>
                  && l.base + l.dataOffset + a + 4 <= |s.mem|
                  && o == Continue && t == s.(core := Past(s.core))
                  && |out| == 1 && out[0] == Spelled(s.mem, l.base + l.dataOffset + a))
  {
    hide WordAt, Spelled, Push, Pop, DataWordWritten, Layout.Fits;
    var a: Word := CallArgument(i.imm);
    if a + 4 <= l.dataSize {
      DataAddressOf(l, |s.mem|, a);
      WordSpelled(s.mem, l.base + l.dataOffset + a);
    }
  }

  /** What an instruction costs: one instruction of the time slice, except that exit and yield, and an exception, cost
      nothing. */
  lemma SliceCost(i: Decoded, s: State, l: Layout, slice: nat)
    ensures var o, after := Execute(i, s, l).outcome, SliceAfter(Execute(i, s, l).outcome, slice);
            && (i.opcode == CALL && i.rs1 in {2, 3} ==> after == slice)
            && (o == Throw ==> after == slice)
            && (!(i.opcode == CALL && i.rs1 in {1, 2, 3, 4}) && o != Throw ==>
                  after == if slice == 0 then 0 else slice - 1)
  {
    hide Push, Pop, DataWordRead, DataWordWritten;
  }

  // ---- Opcode bytes -------------------------------------------------------------------------------------

  /** The opcodes in the order of their bytes. */
  const OPCODES: seq<Opcode> := [MOV, ADD, SUB, MUL, DIV, MOD, INC, DEC, AND, OR, XOR, NOT, CMP, JMP, JE, JNE, JG, JGE,
                                 JL, JLE, LOAD, STORE, CALL, HALT, NOP, PUSH, POP, RET]

  lemma OpcodeNumber(b: Byte)
    ensures OpcodeOf(b) == if b < 28 then OPCODES[b] else UNKNOWN(b)
  {
    if b < 28 {
      assert OPCODES[b] == OpcodeOf(b);
    }
  }

  /** The first byte of an instruction word selects the opcode of that number, and the other fields are the next four
      bits each and the last twelve, which are signed. */
  lemma InstructionWord(raw: Word)
    ensures var i, first, last := Decode(raw), raw / 0x100_0000, raw % 0x1000;
            && i.opcode == (if first < 28 then OPCODES[first] else UNKNOWN(first))
            && i.rd == (raw / 0x10_0000) % 16 && i.rs1 == (raw / 0x1_0000) % 16 && i.rs2 == (raw / 0x1000) % 16
            && i.imm == (if last < 0x800 then last else last - 0x1000)
  {
    hide OpcodeOf;
    OpcodeNumber(raw / 0x100_0000);
  }
}
