/** Fixed-width integers as the machine uses them: 32-bit words and bytes are subset types of int, and
    every wrap-around, mask and shift is written out. */
module Words {
  const WORD_LIMIT: int := 0x1_0000_0000
  const SIGN_BIT: int := 0x8000_0000

  type Word = x: int | 0 <= x < WORD_LIMIT
  type Byte = x: int | 0 <= x < 0x100

  datatype Option<+T> = None | Some(value: T)

  /** Unsigned 32-bit truncation of an integer. */
  function Wrap(x: int): Word {
    x % WORD_LIMIT
  }

  /** The int32 reading of a word. */
  function Signed(w: Word): int {
    if w < SIGN_BIT then w else w - WORD_LIMIT
  }

  lemma Distribute(a: int, b: int, m: int)
    ensures (a + b) * m == a * m + b * m
  {
  }

  lemma MulGrows(a: int, m: int)
    requires a >= 0 && m >= 0
    ensures a * m >= 0
  {
  }

  /** Quotient and remainder are unique. */
  lemma Euclid(v: int, q: int, r: int, m: int)
    requires m > 0 && 0 <= r < m && v == q * m + r
    ensures v / m == q && v % m == r
  {
    var d := v / m - q;
    assert v == (v / m) * m + v % m;
    Distribute(v / m, -q, m);
    assert d * m == r - v % m;
    if d >= 1 {
      MulGrows(d - 1, m);
      Distribute(d - 1, 1, m);
    }
    if d <= -1 {
      MulGrows(-d - 1, m);
      Distribute(-d - 1, 1, m);
    }
  }

  lemma ModAbsorb(q: int, r: int, m: int)
    requires m > 0
    ensures (q * m + r) % m == r % m
  {
    assert r == (r / m) * m + r % m;
    Distribute(q, r / m, m);
    Euclid(q * m + r, q + r / m, r % m, m);
  }

  lemma WrapAdd(x: int, y: int)
    ensures Wrap(Wrap(x) + y) == Wrap(x + y)
  {
    ModAbsorb(x / WORD_LIMIT, x % WORD_LIMIT + y, WORD_LIMIT);
  }

  lemma WrapMul(x: int, y: int)
    ensures Wrap(Wrap(x) * y) == Wrap(x * y)
  {
    var q := x / WORD_LIMIT;
    assert x == q * WORD_LIMIT + Wrap(x);
    assert x * y == (q * y) * WORD_LIMIT + Wrap(x) * y;
    ModAbsorb(q * y, Wrap(x) * y, WORD_LIMIT);
  }

  lemma MulAssoc(a: int, b: int, c: int)
    ensures (a * b) * c == a * (b * c)
  {
  }

  // ---- Powers of two and bitwise operators --------------------------------------------------------------

  function Pow2(n: nat): (r: nat)
    ensures r > 0
  {
    if n == 0 then 1 else 2 * Pow2(n - 1)
  }

  /** C's `a & b`, `a | b` and `a ^ b` on non-negative integers, bit by bit. */
  function BitAnd(a: nat, b: nat): nat {
    if a == 0 || b == 0 then 0 else 2 * BitAnd(a / 2, b / 2) + (if a % 2 == 1 && b % 2 == 1 then 1 else 0)
  }

  function BitOr(a: nat, b: nat): nat
    decreases a + b
  {
    if a == 0 then b else if b == 0 then a
    else 2 * BitOr(a / 2, b / 2) + (if a % 2 == 1 || b % 2 == 1 then 1 else 0)
  }

  function BitXor(a: nat, b: nat): nat
    decreases a + b
  {
    if a == 0 then b else if b == 0 then a
    else 2 * BitXor(a / 2, b / 2) + (if a % 2 != b % 2 then 1 else 0)
  }

  function ShiftLeft(a: nat, n: nat): nat {
    a * Pow2(n)
  }

  lemma DivNonNegative(a: nat, m: nat)
    requires m > 0
    ensures a / m >= 0
  {
  }

  function ShiftRight(a: nat, n: nat): nat {
    DivNonNegative(a, Pow2(n));
    a / Pow2(n)
  }

  function LowBits(a: nat, n: nat): nat {
    if n == 0 then 0 else 2 * LowBits(a / 2, n - 1) + a % 2
  }

  lemma {:induction false} AndLowBits(a: nat, n: nat)
    ensures BitAnd(a, Pow2(n) - 1) == LowBits(a, n)
  {
    if n == 0 {
      assert Pow2(n) - 1 == 0;
    } else {
      AndLowBits(a / 2, n - 1);
      var m: nat := Pow2(n) - 1;
      assert m / 2 == Pow2(n - 1) - 1 && m % 2 == 1;
      if a == 0 {
        assert LowBits(0, n - 1) == 0;
      }
    }
  }

  lemma HalfMod(a: nat, p: nat)
    requires p > 0
    ensures a % (2 * p) == 2 * ((a / 2) % p) + a % 2
  {
    var q := (a / 2) / p;
    assert a / 2 == q * p + (a / 2) % p;
    assert q * (2 * p) == 2 * (q * p);
    Euclid(a, q, 2 * ((a / 2) % p) + a % 2, 2 * p);
  }

  lemma {:induction false} LowBitsMod(a: nat, n: nat)
    ensures LowBits(a, n) == a % Pow2(n)
  {
    if n == 0 {
    } else {
      LowBitsMod(a / 2, n - 1);
      HalfMod(a, Pow2(n - 1));
    }
  }

  lemma AndMask(a: nat, n: nat)
    ensures BitAnd(a, Pow2(n) - 1) == a % Pow2(n)
  {
    AndLowBits(a, n);
    LowBitsMod(a, n);
  }

  lemma MulScale(b: int, k: int, p: int)
    ensures b * (k * p) == k * (b * p)
  {
  }

  lemma OrStep(top: nat, low: nat)
    requires low > 0 && BitOr(top, low / 2) == BitOr(low / 2, top) == top + low / 2
    ensures BitOr(2 * top, low) == BitOr(low, 2 * top) == 2 * top + low
  {
    assert (2 * top) / 2 == top && (2 * top) % 2 == 0;
  }

  /** Or-ing a value below 2^n with a multiple of 2^n adds them: the fields do not overlap. */
  lemma {:induction false} OrDisjoint(high: nat, low: nat, n: nat)
    requires low < Pow2(n)
    ensures BitOr(high * Pow2(n), low) == high * Pow2(n) + low
    ensures BitOr(low, high * Pow2(n)) == high * Pow2(n) + low
  {
    if n == 0 || high == 0 || low == 0 {
    } else {
      var top := high * Pow2(n - 1);
      MulScale(high, 2, Pow2(n - 1));
      assert high * Pow2(n) == 2 * top;
      OrDisjoint(high, low / 2, n - 1);
      OrStep(top, low);
    }
  }

  lemma {:induction false} BitBounds(a: nat, b: nat, n: nat)
    requires a < Pow2(n) && b < Pow2(n)
    ensures BitAnd(a, b) < Pow2(n) && BitOr(a, b) < Pow2(n) && BitXor(a, b) < Pow2(n)
  {
    if a == 0 || b == 0 || n == 0 {
    } else {
      BitBounds(a / 2, b / 2, n - 1);
    }
  }

  /** The three operators determine one another: a + b carries exactly the common bits. */
  lemma {:induction false} BitLaws(a: nat, b: nat)
    ensures BitOr(a, b) + BitAnd(a, b) == a + b
    ensures BitXor(a, b) + 2 * BitAnd(a, b) == a + b
    decreases a + b
  {
    if a == 0 || b == 0 {
    } else {
      BitLaws(a / 2, b / 2);
    }
  }

  lemma Pow2Four()
    ensures Pow2(1) == 2 && Pow2(4) == 16
  {
    assert Pow2(2) == 4 && Pow2(3) == 8;
  }

  lemma {:induction false} Pow2Add(m: nat, n: nat)
    ensures Pow2(m + n) == Pow2(m) * Pow2(n)
  {
    if m == 0 {
    } else {
      Pow2Add(m - 1, n);
    }
  }

  lemma Pow2Values()
    ensures Pow2(1) == 2 && Pow2(4) == 16 && Pow2(8) == 0x100 && Pow2(12) == 0x1000
    ensures Pow2(16) == 0x1_0000 && Pow2(20) == 0x10_0000 && Pow2(24) == 0x100_0000 && Pow2(32) == WORD_LIMIT
  {
    Pow2Four();
    Pow2Add(4, 4); Pow2Add(8, 4); Pow2Add(8, 8);
    Pow2Add(16, 4); Pow2Add(16, 8); Pow2Add(16, 16);
  }

  function And32(a: Word, b: Word): (r: Word) {
    Pow2Values(); BitBounds(a, b, 32);
    BitAnd(a, b)
  }

  function Or32(a: Word, b: Word): (r: Word) {
    Pow2Values(); BitBounds(a, b, 32);
    BitOr(a, b)
  }

  function Xor32(a: Word, b: Word): (r: Word) {
    Pow2Values(); BitBounds(a, b, 32);
    BitXor(a, b)
  }

  /** `~a` on 32 bits. */
  function Not32(a: Word): Word {
    WORD_LIMIT - 1 - a
  }

  // ---- Little-endian bytes ------------------------------------------------------------------------------

  /** The n lowest bytes of v, least significant first. */
  function Bytes(v: nat, n: nat): (s: seq<Byte>)
    ensures |s| == n
    decreases n
  {
    if n == 0 then [] else [v % 0x100] + Bytes(v / 0x100, n - 1)
  }

  function FromBytes(s: seq<Byte>): nat {
    if s == [] then 0 else s[0] + 0x100 * FromBytes(s[1..])
  }

  lemma {:induction false} FromBytesBound(s: seq<Byte>)
    ensures FromBytes(s) < Pow2(8 * |s|)
  {
    if s == [] {
    } else {
      FromBytesBound(s[1..]);
      Pow2Add(8, 8 * (|s| - 1));
      Pow2Values();
    }
  }

  lemma ByteStep(v: nat, p: nat)
    requires p > 0
    ensures v % (0x100 * p) == v % 0x100 + 0x100 * ((v / 0x100) % p)
  {
    var u := v / 0x100;
    var q := u / p;
    assert u == q * p + u % p;
    assert q * (0x100 * p) == 0x100 * (q * p);
    Euclid(v, q, v % 0x100 + 0x100 * (u % p), 0x100 * p);
  }

  /** Reading back the n low bytes of a value gives the value modulo 2^(8n). */
  lemma {:induction false} BytesRoundTrip(v: nat, n: nat)
    ensures FromBytes(Bytes(v, n)) == v % Pow2(8 * n)
    decreases n
  {
    if n == 0 {
    } else {
      BytesRoundTrip(v / 0x100, n - 1);
      Pow2Add(8, 8 * (n - 1));
      Pow2Values();
      assert Bytes(v, n)[1..] == Bytes(v / 0x100, n - 1);
      ByteStep(v, Pow2(8 * (n - 1)));
    }
  }

  lemma {:induction false} FromBytesSnoc(s: seq<Byte>, b: Byte)
    ensures FromBytes(s + [b]) == FromBytes(s) + b * Pow2(8 * |s|)
  {
    if s == [] {
      assert s + [b] == [b];
    } else {
      FromBytesSnoc(s[1..], b);
      assert (s + [b])[1..] == s[1..] + [b];
      var p := Pow2(8 * (|s| - 1));
      Pow2Add(8, 8 * (|s| - 1));
      Pow2Values();
      MulScale(b, 0x100, p);
    }
  }

  lemma LowByte(v: nat)
    ensures BitAnd(v, 0xFF) == v % 0x100
  {
    Pow2Values();
    AndMask(v, 8);
  }

  lemma DivDiv(v: nat, a: nat, b: nat)
    requires a > 0 && b > 0
    ensures a * b > 0 && v / a / b == v / (a * b)
  {
    MulGrows(a - 1, b);
    Distribute(a - 1, 1, b);
    var q, r := v / a / b, (v / a) % b;
    var u := v / a;
    assert u == q * b + r;
    assert v == u * a + v % a;
    Distribute(q * b, r, a);
    assert (q * b) * a == q * (a * b);
    MulGrows(b - 1 - r, a);
    Distribute(b - 1 - r, r + 1, a);
    Distribute(r, 1, a);
    MulGrows(r, a);
    Euclid(v, q, r * a + v % a, a * b);
  }

  lemma ShiftByte(v: nat, i: nat)
    requires i > 0
    ensures ShiftRight(v, 8 * i) == ShiftRight(v / 0x100, 8 * (i - 1))
  {
    var p := Pow2(8 * (i - 1));
    assert Pow2(8 * i) == 0x100 * p by { Pow2Add(8, 8 * (i - 1)); Pow2Values(); }
    DivDiv(v, 0x100, p);
  }

  /** Byte i of a value, as the shift-and-mask loops compute it. */
  lemma {:induction false} ByteAt(v: nat, n: nat, i: nat)
    requires i < n
    ensures BitAnd(ShiftRight(v, 8 * i), 0xFF) == Bytes(v, n)[i]
    decreases n
  {
    LowByte(ShiftRight(v, 8 * i));
    if i == 0 {
    } else {
      ByteAt(v / 0x100, n - 1, i - 1);
      LowByte(ShiftRight(v / 0x100, 8 * (i - 1)));
      ShiftByte(v, i);
    }
  }
}
