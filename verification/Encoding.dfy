/** The 32-bit instruction word [ opcode:8 | rd:4 | rs1:4 | rs2:4 | imm:12 ] of src/vm/types.cpp. */
module Encoding {
  import opened Words

  type RegIndex = x: int | 0 <= x < 16
  type Int16 = x: int | -0x8000 <= x < 0x8000
  type Imm12 = x: int | -0x800 <= x < 0x800 witness 0

  /** As the rs2 field, this register number says that the operand is the immediate. */
  const IMMEDIATE_MARKER: RegIndex := 15

  /** The opcode byte; bytes without a handler are kept as UNKNOWN. */
  datatype Opcode =
    | MOV | ADD | SUB | MUL | DIV | MOD | INC | DEC | AND | OR | XOR | NOT | CMP
    | JMP | JE | JNE | JG | JGE | JL | JLE | LOAD | STORE | CALL | HALT | NOP | PUSH | POP | RET
    | UNKNOWN(code: Byte)

  function OpcodeOf(b: Byte): Opcode {
    if b == 0 then MOV else if b == 1 then ADD else if b == 2 then SUB else if b == 3 then MUL
    else if b == 4 then DIV else if b == 5 then MOD else if b == 6 then INC else if b == 7 then DEC
    else if b == 8 then AND else if b == 9 then OR else if b == 10 then XOR else if b == 11 then NOT
    else if b == 12 then CMP else if b == 13 then JMP else if b == 14 then JE else if b == 15 then JNE
    else if b == 16 then JG else if b == 17 then JGE else if b == 18 then JL else if b == 19 then JLE
    else if b == 20 then LOAD else if b == 21 then STORE else if b == 22 then CALL else if b == 23 then HALT
    else if b == 24 then NOP else if b == 25 then PUSH else if b == 26 then POP else if b == 27 then RET
    else UNKNOWN(b)
  }

  function Code(op: Opcode): (b: Byte)
    ensures !op.UNKNOWN? ==> OpcodeOf(b) == op
  {
    match op
    case MOV => 0 case ADD => 1 case SUB => 2 case MUL => 3 case DIV => 4 case MOD => 5 case INC => 6
    case DEC => 7 case AND => 8 case OR => 9 case XOR => 10 case NOT => 11 case CMP => 12 case JMP => 13
    case JE => 14 case JNE => 15 case JG => 16 case JGE => 17 case JL => 18 case JLE => 19 case LOAD => 20
    case STORE => 21 case CALL => 22 case HALT => 23 case NOP => 24 case PUSH => 25 case POP => 26
    case RET => 27 case UNKNOWN(b) => b
  }

  datatype Decoded = Decoded(opcode: Opcode, rd: RegIndex, rs1: RegIndex, rs2: RegIndex, imm: Imm12)

  function Pack(c: Byte, d: RegIndex, s: RegIndex, t: RegIndex, m: nat): Word
    requires m < 0x1000
  {
    c * 0x100_0000 + d * 0x10_0000 + s * 0x1_0000 + t * 0x1000 + m
  }

  /** The word as a weighted sum of its fields; EncodeBitwise gives the shifts and ors of the code. */
  function Encode(opcode: Opcode, rd: Byte, rs1: Byte, rs2: Byte, imm: Int16): Word {
    Pack(Code(opcode), rd % 16, rs1 % 16, rs2 % 16, imm % 0x1000)
  }

  lemma Nibble(r: Byte)
    ensures BitAnd(r, 0x0F) == r % 16
  {
    AndMask(r, 4);
    Pow2Values();
  }

  lemma WrapMod(x: int)
    ensures Wrap(x) % 0x1000 == x % 0x1000 && (x % 0x1_0000) % 0x1000 == x % 0x1000
  {
    var q := x / WORD_LIMIT;
    assert x == (q * 0x10_0000) * 0x1000 + Wrap(x);
    ModAbsorb(q * 0x10_0000, Wrap(x), 0x1000);
    var r := x / 0x1_0000;
    assert x == (r * 16) * 0x1000 + x % 0x1_0000;
    ModAbsorb(r * 16, x % 0x1_0000, 0x1000);
  }

  lemma MulLess(a: nat, b: nat, p: nat)
    requires a < b && p > 0
    ensures a * p < b * p
  {
    Distribute(b - a - 1, a + 1, p);
    Distribute(a, 1, p);
    MulGrows(b - a - 1, p);
  }

  lemma OrField(high: nat, field: RegIndex, n: nat, k: nat)
    requires n == k + 4
    ensures BitOr(ShiftLeft(high, n), ShiftLeft(field, k)) == (high * 16 + field) * Pow2(k)
  {
    var p := Pow2(k);
    Pow2Add(4, k);
    assert Pow2(n) == 16 * p by { Pow2Values(); }
    assert field * p < 16 * p by { MulLess(field, 16, p); }
    OrDisjoint(high, field * p, n);
    assert high * (16 * p) + field * p == (high * 16 + field) * p by {
      MulAssoc(high, 16, p);
      Distribute(high * 16, field, p);
    }
  }

  lemma OrFields(c: Byte, d: RegIndex, s: RegIndex, t: RegIndex, m: nat)
    requires m < 0x1000
    ensures BitOr(BitOr(BitOr(BitOr(ShiftLeft(c, 24), ShiftLeft(d, 20)), ShiftLeft(s, 16)), ShiftLeft(t, 12)), m)
         == Pack(c, d, s, t, m)
  {
    Pow2Values();
    OrField(c, d, 24, 20);
    OrField(c * 16 + d, s, 20, 16);
    OrField((c * 16 + d) * 16 + s, t, 16, 12);
    OrDisjoint(((c * 16 + d) * 16 + s) * 16 + t, m, 12);
  }

  /** The weighted sum is what masking, shifting and or-ing the fields yields: they do not overlap. */
  lemma EncodeBitwise(opcode: Opcode, rd: Byte, rs1: Byte, rs2: Byte, imm: Int16)
    ensures Encode(opcode, rd, rs1, rs2, imm)
         == BitOr(BitOr(BitOr(BitOr(ShiftLeft(Code(opcode), 24), ShiftLeft(BitAnd(rd, 0x0F), 20)),
                  ShiftLeft(BitAnd(rs1, 0x0F), 16)), ShiftLeft(BitAnd(rs2, 0x0F), 12)), BitAnd(Wrap(imm), 0x0FFF))
  {
    Nibble(rd); Nibble(rs1); Nibble(rs2);
    assert BitAnd(Wrap(imm), 0x0FFF) == imm % 0x1000 by { AndMask(Wrap(imm), 12); Pow2Values(); WrapMod(imm); }
    OrFields(Code(opcode), rd % 16, rs1 % 16, rs2 % 16, imm % 0x1000);
  }

  lemma Unpack(c: Byte, d: RegIndex, s: RegIndex, t: RegIndex, m: nat)
    requires m < 0x1000
    ensures var w := Pack(c, d, s, t, m);
            w / 0x100_0000 == c && (w / 0x10_0000) % 16 == d && (w / 0x1_0000) % 16 == s
            && (w / 0x1000) % 16 == t && w % 0x1000 == m
  {
    var w := Pack(c, d, s, t, m);
    Euclid(w, ((c * 16 + d) * 16 + s) * 16 + t, m, 0x1000);
    Euclid(((c * 16 + d) * 16 + s) * 16 + t, (c * 16 + d) * 16 + s, t, 16);
    Euclid(w, (c * 16 + d) * 16 + s, t * 0x1000 + m, 0x1_0000);
    Euclid((c * 16 + d) * 16 + s, c * 16 + d, s, 16);
    Euclid(w, c * 16 + d, s * 0x1_0000 + t * 0x1000 + m, 0x10_0000);
    Euclid(c * 16 + d, c, d, 16);
    Euclid(w, c, d * 0x10_0000 + s * 0x1_0000 + t * 0x1000 + m, 0x100_0000);
  }

  lemma Repack(w: Word)
    ensures Pack(w / 0x100_0000, (w / 0x10_0000) % 16, (w / 0x1_0000) % 16, (w / 0x1000) % 16, w % 0x1000) == w
  {
    DivDiv(w, 0x1000, 16);
    DivDiv(w, 0x1_0000, 16);
    DivDiv(w, 0x10_0000, 16);
    assert w == 0x1000 * (w / 0x1000) + w % 0x1000;
  }

  /** A 12-bit field read as a signed number: bit 11 is the sign. */
  function SignExtend12(x: int): Imm12
    requires 0 <= x < 0x1000
  {
    if x >= 0x800 then x - 0x1000 else x
  }

  function Decode(raw: Word): Decoded {
    Decoded(OpcodeOf(raw / 0x100_0000), (raw / 0x10_0000) % 16, (raw / 0x1_0000) % 16, (raw / 0x1000) % 16,
            SignExtend12(raw % 0x1000))
  }

  lemma FieldAt(raw: nat, n: nat, k: nat, p: nat, m: nat)
    requires Pow2(n) == p && Pow2(k) == m
    ensures BitAnd(ShiftRight(raw, n), m - 1) == (raw / p) % m
  {
    AndMask(ShiftRight(raw, n), k);
  }

  /** Decode reads what shifting and masking the word yields. */
  lemma DecodeOpcodeBitwise(raw: Word)
    ensures BitAnd(ShiftRight(raw, 24), 0xFF) == raw / 0x100_0000
  {
    Pow2Values();
    FieldAt(raw, 24, 8, 0x100_0000, 0x100);
    assert (raw / 0x100_0000) % 0x100 == raw / 0x100_0000;
  }

  lemma DecodeRegisterBitwise(raw: Word)
    ensures Decode(raw).rd == BitAnd(ShiftRight(raw, 20), 0x0F)
    ensures Decode(raw).rs1 == BitAnd(ShiftRight(raw, 16), 0x0F)
    ensures Decode(raw).rs2 == BitAnd(ShiftRight(raw, 12), 0x0F)
  {
    Pow2Values();
    FieldAt(raw, 20, 4, 0x10_0000, 16);
    FieldAt(raw, 16, 4, 0x1_0000, 16);
    FieldAt(raw, 12, 4, 0x1000, 16);
  }

  /** Masking with 2^n tests bit n of a number below 2^(n+1). */
  lemma {:induction false} TopBit(x: nat, n: nat)
    requires x < 2 * Pow2(n)
    ensures BitAnd(x, Pow2(n)) != 0 <==> x >= Pow2(n)
    ensures n == 11 ==> Pow2(n) == 0x800
  {
    if n == 0 || x == 0 {
    } else {
      TopBit(x / 2, n - 1);
      assert Pow2(n) / 2 == Pow2(n - 1) && Pow2(n) % 2 == 0;
    }
    if n == 11 {
      Pow2Add(8, 3);
      assert Pow2(3) == 8;
      Pow2Values();
    }
  }

  /** The immediate is the low 12 bits, made negative when bit 11 is set. */
  lemma DecodeImmediateBitwise(raw: Word)
    ensures var imm12 := BitAnd(raw, 0x0FFF);
            Decode(raw).imm == if BitAnd(imm12, 0x800) != 0 then imm12 - 0x1000 else imm12
  {
    Pow2Values();
    AndMask(raw, 12);
    TopBit(raw % 0x1000, 11);
  }

  // ---- Round trips --------------------------------------------------------------------------------------

  /** Every field survives the trip through the word, registers modulo 16 and the immediate modulo 2^12. */
  lemma DecodeEncode(opcode: Opcode, rd: Byte, rs1: Byte, rs2: Byte, imm: Int16)
    requires !opcode.UNKNOWN?
    ensures Decode(Encode(opcode, rd, rs1, rs2, imm))
         == Decoded(opcode, rd % 16, rs1 % 16, rs2 % 16, SignExtend12(imm % 0x1000))
  {
    Unpack(Code(opcode), rd % 16, rs1 % 16, rs2 % 16, imm % 0x1000);
  }

  lemma CodeOf(b: Byte)
    ensures Code(OpcodeOf(b)) == b
  {
  }

  lemma SignExtendMod(x: int)
    requires 0 <= x < 0x1000
    ensures SignExtend12(x) % 0x1000 == x
  {
  }

  lemma SmallIndex(r: RegIndex)
    ensures r % 16 == r
  {
  }

  /** Re-encoding the decoded fields of any word gives the word back, whatever its opcode byte. */
  lemma EncodeDecode(raw: Word)
    ensures var d := Decode(raw); Encode(d.opcode, d.rd, d.rs1, d.rs2, d.imm) == raw
  {
    var d := Decode(raw);
    assert Code(d.opcode) == raw / 0x100_0000 by { CodeOf(raw / 0x100_0000); }
    assert d.imm % 0x1000 == raw % 0x1000 by { SignExtendMod(raw % 0x1000); }
    SmallIndex(d.rd); SmallIndex(d.rs1); SmallIndex(d.rs2);
    Repack(raw);
  }

  /** An immediate is read back unchanged exactly when it is a 12-bit signed number. */
  lemma ImmediateFaithful(imm: Int16)
    ensures SignExtend12(imm % 0x1000) == imm <==> -0x800 <= imm < 0x800
  {
  }

  /** `static_cast<std::int16_t>` of an unsigned address. */
  function ToInt16(x: int): Int16 {
    var low := x % 0x1_0000;
    if low >= 0x8000 then low - 0x1_0000 else low
  }

  lemma Int16Mod(x: int)
    ensures ToInt16(x) % 0x1000 == x % 0x1000
  {
    WrapMod(x);
    ModAbsorb(-16, x % 0x1_0000, 0x1000);
  }

  /** A code or data address squeezed into the immediate field comes back unchanged exactly up to 2047. */
  lemma AddressFaithful(target: Word)
    ensures Wrap(SignExtend12(ToInt16(target) % 0x1000)) == target <==> target < 0x800 || target >= WORD_LIMIT - 0x800
    ensures target < WORD_LIMIT - 0x800 ==> (SignExtend12(ToInt16(target) % 0x1000) == target <==> target < 0x800)
  {
    Int16Mod(target);
    if target >= WORD_LIMIT - 0x800 {
      Euclid(target, 0xF_FFFF, target - 0xFFFF_F000, 0x1000);
    }
  }
}
