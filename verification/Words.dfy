/** Machine integers: DWORDs, wrap-around, the signed reading of a value, and the bit operations.
    A value of width `bits` is a number below Modulus(bits); the VM reads most of them as signed. */
module Words {

  datatype Option<+T> = None | Some(value: T)

  const M32: int := 0x1_0000_0000
  const M64: int := 0x1_0000_0000_0000_0000

  type Word = x: int | 0 <= x < 0x1_0000_0000

  type QWord = x: int | 0 <= x < 0x1_0000_0000_0000_0000

  function Modulus(bits: nat): (m: nat)
    ensures m >= 2
  {
    match bits
    case 1 => 2
    case 8 => 0x100
    case 16 => 0x1_0000
    case 32 => 0x1_0000_0000
    case _ => 0x1_0000_0000_0000_0000
  }

  /** The two's complement reading of v. */
  function Signed(v: int, bits: nat): int {
    if v < Modulus(bits) / 2 then v else v - Modulus(bits)
  }

  /** The value of the given width that represents x. */
  function Wrap(x: int, bits: nat): (v: nat)
    ensures v < Modulus(bits)
  {
    x % Modulus(bits)
  }

  /** A QWORD in memory is its low DWORD followed by its high DWORD. */
  function Join(lo: Word, hi: Word): QWord {
    lo + hi * 0x1_0000_0000
  }

  function Lo(q: QWord): Word {
    q % 0x1_0000_0000
  }

  function Hi(q: QWord): Word {
    q / 0x1_0000_0000
  }

  /** Division and remainder as C++ and LLVM define them: the quotient is truncated toward zero. */
  function TruncDiv(a: int, b: int): int
    requires b != 0
  {
    if (a < 0) == (b < 0) then Abs(a) / Abs(b) else -(Abs(a) / Abs(b))
  }

  function TruncMod(a: int, b: int): int
    requires b != 0
  {
    a - TruncDiv(a, b) * b
  }

  function Abs(a: int): nat {
    if a < 0 then -a else a
  }

  function Pow2(n: nat): (p: nat)
    ensures p >= 1
  {
    if n == 0 then 1 else 2 * Pow2(n - 1)
  }

  datatype Gate = AndGate | OrGate | XorGate

  function Bit(g: Gate, a: nat, b: nat): (r: nat)
    requires a < 2 && b < 2
    ensures r < 2
  {
    match g
    case AndGate => if a == 1 && b == 1 then 1 else 0
    case OrGate => if a == 1 || b == 1 then 1 else 0
    case XorGate => if a != b then 1 else 0
  }

  /** The gate applied to the n low bits of a and b. */
  function Bitwise(g: Gate, a: nat, b: nat, n: nat): (r: nat)
    ensures r < Pow2(n)
  {
    if n == 0 then 0 else Bit(g, a % 2, b % 2) + 2 * Bitwise(g, a / 2, b / 2, n - 1)
  }

  lemma {:induction false} XorOnesIsComplement(x: nat, n: nat)
    requires x < Pow2(n)
    ensures Bitwise(XorGate, Pow2(n) - 1, x, n) == Pow2(n) - 1 - x
  {
    if n > 0 {
      XorOnesIsComplement(x / 2, n - 1);
      assert (Pow2(n) - 1) / 2 == Pow2(n - 1) - 1;
    }
  }

  lemma {:induction false} Pow2Values()
    ensures Pow2(32) == 0x1_0000_0000
    ensures Pow2(64) == 0x1_0000_0000_0000_0000
  {
    assert Pow2(8) == 0x100;
    assert Pow2(16) == 0x1_0000;
    assert Pow2(24) == 0x100_0000;
    assert Pow2(32) == 0x1_0000_0000;
    assert Pow2(40) == 0x100_0000_0000;
    assert Pow2(48) == 0x1_0000_0000_0000;
    assert Pow2(56) == 0x100_0000_0000_0000;
  }

  lemma {:induction false} ProductAtLeast(d: int, m: nat)
    ensures d >= 1 ==> d * m >= m
    ensures d <= -1 ==> d * m <= 0 - m
  {
  }

  lemma {:induction false} SmallMultiple(d: int, m: nat)
    requires 0 - m < d * m < m
    ensures d == 0
  {
    ProductAtLeast(d, m);
  }

  /** Adding a multiple of the modulus does not change the remainder. */
  lemma {:induction false} ModShift(x: int, k: int, m: nat)
    requires m > 0
    ensures (x + k * m) % m == x % m
  {
    var q, q' := x / m, (x + k * m) / m;
    assert (q + k - q') * m == q * m + k * m - q' * m;
    SmallMultiple(q + k - q', m);
  }

  lemma {:induction false} ProductLowBits(a: int, b: int, m: nat)
    requires m > 0
    ensures ((a - m) * b) % m == (a * (b - m)) % m == (a * b) % m
    ensures ((a - m) * (b - m)) % m == (a * b) % m
  {
    assert (a - m) * b == a * b + (0 - b) * m;
    ModShift(a * b, 0 - b, m);
    assert a * (b - m) == a * b + (0 - a) * m;
    ModShift(a * b, 0 - a, m);
    assert (a - m) * (b - m) == a * b + (m - a - b) * m;
    ModShift(a * b, m - a - b, m);
  }

  /** Signed and unsigned multiplication agree on the low bits. */
  lemma {:induction false} SignedProduct(a: nat, b: nat, bits: nat)
    requires a < Modulus(bits) && b < Modulus(bits)
    ensures Wrap(Signed(a, bits) * Signed(b, bits), bits) == Wrap(a * b, bits)
  {
    ProductLowBits(a, b, Modulus(bits));
  }

  // ---------- what the operations are

  lemma {:induction false} OneModulusDown(v: nat, m: nat)
    requires v < m
    ensures v % m == v && (v - m) % m == v
  {
    assert v - m == m * (0 - 1) + v;
  }

  /** The signed reading of a value lies in the signed range and stands for the same bits. */
  lemma {:induction false} SignedStands(v: nat, bits: nat)
    requires v < Modulus(bits)
    ensures 0 - Modulus(bits) / 2 <= Signed(v, bits) < Modulus(bits) / 2 && Wrap(Signed(v, bits), bits) == v
  {
    OneModulusDown(v, Modulus(bits));
  }

  lemma {:induction false} DivisionBounds(x: nat, y: nat)
    requires y > 0
    ensures x / y * y <= x < x / y * y + y
  {
  }

  /** Truncating division: the remainder is smaller than the divisor and has the sign of the dividend. */
  lemma {:induction false} TruncExact(a: int, b: int)
    requires b != 0
    ensures a == TruncDiv(a, b) * b + TruncMod(a, b)
    ensures Abs(TruncMod(a, b)) < Abs(b) && (TruncMod(a, b) == 0 || (TruncMod(a, b) < 0) == (a < 0))
  {
    var q := Abs(a) / Abs(b);
    DivisionBounds(Abs(a), Abs(b));
    if (a < 0) == (b < 0) {
      assert TruncDiv(a, b) * b == if b < 0 then 0 - q * Abs(b) else q * Abs(b);
    } else {
      assert TruncDiv(a, b) * b == if b < 0 then q * Abs(b) else 0 - q * Abs(b);
    }
  }

  lemma {:induction false} HalfThenShift(a: nat, k: nat)
    ensures a / 2 / Pow2(k) == a / (2 * Pow2(k))
  {
    var p := Pow2(k);
    var q := a / (2 * p);
    assert 2 * p * q <= a < 2 * p * q + 2 * p;
    assert p * q <= a / 2 < p * q + p;
    QuotientIs(a / 2, p, q);
  }

  lemma {:induction false} QuotientIs(x: nat, y: nat, q: nat)
    requires y > 0 && y * q <= x < y * q + y
    ensures x / y == q
  {
    var r := x / y;
    assert y * (r - q) == y * r - y * q;
    SmallMultiple(r - q, y);
  }

  lemma {:induction false} LowBitAndRest(g: Gate, a: nat, b: nat, n: nat)
    requires n > 0
    ensures Bitwise(g, a, b, n) % 2 == Bit(g, a % 2, b % 2)
    ensures Bitwise(g, a, b, n) / 2 == Bitwise(g, a / 2, b / 2, n - 1)
  {
  }

  function BitAt(x: nat, k: nat): (r: nat)
    ensures r < 2
  {
    x / Pow2(k) % 2
  }

  lemma {:induction false} BitAtNext(x: nat, k: nat)
    ensures BitAt(x, 0) == x % 2
    ensures BitAt(x / 2, k) == BitAt(x, k + 1)
  {
    HalfThenShift(x, k);
  }

  /** Bit k of the result is the gate applied to bit k of the operands. */
  lemma {:induction false} BitwiseBit(g: Gate, a: nat, b: nat, n: nat, k: nat)
    requires k < n
    ensures BitAt(Bitwise(g, a, b, n), k) == Bit(g, BitAt(a, k), BitAt(b, k))
    decreases k
  {
    hide Bitwise, BitAt, Bit;
    var r := Bitwise(g, a, b, n);
    LowBitAndRest(g, a, b, n);
    BitAtNext(a, 0);
    BitAtNext(b, 0);
    BitAtNext(r, 0);
    if k > 0 {
      BitwiseBit(g, a / 2, b / 2, n - 1, k - 1);
      BitAtNext(a, k - 1);
      BitAtNext(b, k - 1);
      BitAtNext(r, k - 1);
    }
  }
}
