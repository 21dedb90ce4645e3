/** The expressions the translator emits compute what the VM's instructions compute. */
module Operations {
  import opened Words
  import opened Bytecode
  import opened Machine
  import opened Blocks
  import opened Frames
  import opened Translation

  /** Signed VM arithmetic and LLVM's modular arithmetic give the same bits and are undefined for the same operands. */
  lemma {:induction false} AluAgrees(op: Alu, bits: nat, a: nat, b: nat)
    requires a < Modulus(bits) && b < Modulus(bits)
    ensures AluResult(op, bits, a, b) == BinaryResult(IrOp(op), bits, a, b)
  {
    SignedSumLowBits(a, b, bits);
    SignedProduct(a, b, bits);
  }

  lemma {:induction false} SignedSumLowBits(a: nat, b: nat, bits: nat)
    requires a < Modulus(bits) && b < Modulus(bits)
    ensures Wrap(Signed(a, bits) + Signed(b, bits), bits) == Wrap(a + b, bits)
    ensures Wrap(Signed(a, bits) - Signed(b, bits), bits) == Wrap(a - b, bits)
    ensures Wrap(0 - Signed(a, bits), bits) == Wrap(0 - a, bits)
  {
    var m := Modulus(bits);
    ShiftBoth(a + b, m);
    ShiftBoth(a - b, m);
    ShiftBoth(0 - a, m);
  }

  lemma {:induction false} ShiftBoth(x: int, m: nat)
    requires m > 0
    ensures (x + m) % m == (x - m) % m == (x - m - m) % m == x % m
  {
    ModShift(x, 1, m);
    ModShift(x, -1, m);
    ModShift(x, -2, m);
  }

  /** The complement is an exclusive or with all ones. */
  lemma {:induction false} NotAgrees(wide: bool, a: nat)
    requires a < Modulus(32 * Width(wide))
    ensures
      var bits := 32 * Width(wide);
      BinaryResult(Xor, bits, AllOnes(bits), a) == Some(Modulus(bits) - 1 - a)
  {
    Pow2Values();
    hide Pow2, Bitwise, TruncDiv, TruncMod;
    XorOnesIsComplement(a, 32 * Width(wide));
  }

  lemma {:induction false} NegAgrees(wide: bool, a: nat)
    requires a < Modulus(32 * Width(wide))
    ensures
      var bits := 32 * Width(wide);
      BinaryResult(Sub, bits, 0, a) == Some(Wrap(-Signed(a, bits), bits))
  {
    hide Pow2, Bitwise, TruncDiv, TruncMod;
    SignedSumLowBits(a, 0, 32 * Width(wide));
  }

  lemma {:induction false} IncrementAgrees(a: nat)
    requires a < M32
    ensures BinaryResult(Add, 32, a, 1) == Some(Wrap(Signed(a, 32) + 1, 32))
    ensures BinaryResult(Sub, 32, a, 1) == Some(Wrap(Signed(a, 32) - 1, 32))
  {
    hide Pow2, Bitwise, TruncDiv, TruncMod;
    SignedSumLowBits(a, 1, 32);
  }

  /** The predicate of a test or conditional jump is the VM's condition on the signed register. */
  lemma {:induction false} ConditionAgrees(mem: Memory, c: Condition)
    ensures Eval(mem, ConditionExpr(c)) == Some(if Holds(c, Signed(Wrap(mem.register, 32), 32)) then 1 else 0)
  {
    var a := Wrap(mem.register, 32);
    assert Eval(mem, Load(ValueRegister, 32)) == Some(a);
    assert Eval(mem, Const(32, 0)) == Some(0);
  }

  lemma {:induction false} LowConditionAgrees(mem: Memory, zero: bool)
    ensures Eval(mem, LowConditionExpr(zero)) == Some(if (Wrap(mem.register, 8) == 0) == zero then 1 else 0)
  {
    assert Eval(mem, Load(ValueRegister, 8)) == Some(Wrap(mem.register, 8));
    assert Eval(mem, Const(8, 0)) == Some(0);
  }

  /** The chain of selects is the three-way comparison. */
  lemma {:induction false} CompareAgrees(mem: Memory, lhs: Expr, rhs: Expr, signed: bool, bits: nat, a: nat, b: nat)
    requires Eval(mem, lhs) == Some(a) && Eval(mem, rhs) == Some(b) && Bits(lhs) == Bits(rhs) == bits
    requires a < Modulus(bits) && b < Modulus(bits)
    ensures Bits(CompareExpr(lhs, rhs, signed)) == 32
    ensures Eval(mem, CompareExpr(lhs, rhs, signed)) ==
      Some(Wrap(if signed then Compare(Signed(a, bits), Signed(b, bits)) else Compare(a, b), 32))
  {
    var gt := ICmp(if signed then SGT else UGT, lhs, rhs);
    var lt := ICmp(if signed then SLT else ULT, lhs, rhs);
    assert Eval(mem, gt) == Some(if PredicateHolds(gt.p, bits, a, b) then 1 else 0);
    assert Eval(mem, lt) == Some(if PredicateHolds(lt.p, bits, a, b) then 1 else 0);
    var low := Select(lt, Const(32, AllOnes(32)), Const(32, 0));
    assert Eval(mem, low) == Some(if PredicateHolds(lt.p, bits, a, b) then AllOnes(32) else 0) && Bits(low) == 32;
    assert Eval(mem, Const(32, 1)) == Some(1);
    assert Wrap(-1, 32) == AllOnes(32);
  }

  lemma {:induction false} BinOpEval(mem: Memory, op: Binary, lhs: Expr, rhs: Expr, bits: nat, a: nat, b: nat)
    requires Eval(mem, lhs) == Some(a) && Eval(mem, rhs) == Some(b) && Bits(lhs) == Bits(rhs) == bits
    ensures Eval(mem, BinOp(op, lhs, rhs)) == BinaryResult(op, bits, a, b)
    ensures Bits(BinOp(op, lhs, rhs)) == bits
  {
  }

  /** A variable or constant operand evaluates to the VM's operand. */
  lemma {:induction false} OperandAgrees(fn: Function, fr: Frame, mem: Memory, sp: int, o: Operand, d: nat)
    requires Represents(fn, fr, mem, sp) && 1 <= d <= 2 && OperandOk(fn, o, d) && (o.Var? ==> Whole(fn, o.v))
    ensures OperandAccessible(fr, o, d)
    ensures Eval(mem, OperandExpr(fn, o, 32 * d)) == Some(OperandValue(fr, o, d))
    ensures Bits(OperandExpr(fn, o, 32 * d)) == 32 * d
    ensures OperandValue(fr, o, d) < Modulus(32 * d)
  {
    if o.Var? {
      LoadVariable(fn, fr, mem, sp, o.v, d);
      ReadBounds(fr, o.v, d);
    }
  }
}
