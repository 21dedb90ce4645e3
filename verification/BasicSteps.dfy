/** Straight-line instructions: the code emitted for one turns a memory that represents the VM's frame into one that
    represents the frame after the instruction, with the stack pointer the translator computed. */
module BasicSteps {
  import opened Words
  import opened Signatures
  import opened Bytecode
  import opened Machine
  import opened Blocks
  import opened Frames
  import opened Translation
  import opened Operations

  /** Straight-line code is at most one store; running it leads from one memory to the other. */
  ghost predicate Executes(code: seq<Instr>, mem: Memory, mem': Memory) {
    if code == [] then mem' == mem
    else
      && |code| == 1
      && code[0].Store?
      && Eval(mem, code[0].e).Some?
      && StoreTo(mem, code[0].addr, Bits(code[0].e), Eval(mem, code[0].e).value) == Some(mem')
  }

  lemma {:induction false} StoreSlot(fn: Function, fr: Frame, mem: Memory, sp: int, v: int, d: nat, e: Expr, q: QWord)
    returns (mem': Memory)
    requires Represents(fn, fr, mem, sp) && VarOk(fn, v, d) && Whole(fn, v) && 1 <= d <= 2 && (d == 1 ==> q < M32)
    requires Eval(mem, e) == Some(q) && Bits(e) == 32 * d
    ensures Accessible(fr, v, d)
    ensures Executes([Store(SlotAddr(fn, v), e)], mem, mem')
    ensures Represents(fn, WriteVar(fr, v, d, q), mem', sp)
  {
    mem' := StoreVariable(fn, fr, mem, sp, v, d, q);
  }

  lemma {:induction false} PushSlot(fn: Function, fr: Frame, mem: Memory, sp: int, d: nat, e: Expr, q: QWord)
    returns (mem': Memory)
    requires Represents(fn, fr, mem, sp) && 1 <= d <= 2 && (d == 1 ==> q < M32)
    requires Eval(mem, e) == Some(q) && Bits(e) == 32 * d
    requires EmitPush(fn, e, d, sp).Some?
    ensures Executes(EmitPush(fn, e, d, sp).value.code, mem, mem')
    ensures Represents(fn, Push(fr, d, q), mem', sp + d)
  {
    mem' := StorePushed(fn, fr, mem, sp, d, q);
  }

  lemma {:induction false} StoreRegister(fn: Function, fr: Frame, mem: Memory, sp: int, bits: nat, e: Expr, q: QWord)
    returns (mem': Memory)
    requires Represents(fn, fr, mem, sp) && bits in {32, 64}
    requires Eval(mem, e) == Some(q) && Bits(e) == bits && q < Modulus(bits)
    ensures Executes([Store(ValueRegister, e)], mem, mem')
    ensures Represents(fn, fr.(register := SetLow(fr.register, bits, q)), mem', sp)
  {
    mem' := mem.(register := SetLow(mem.register, bits, q));
    var fr' := fr.(register := SetLow(fr.register, bits, q));
    assert forall i :: 0 <= i < |fr.locals| + |fr.stack| ==> Cell(fr', i) == Cell(fr, i);
  }

  lemma {:induction false} StoreGlobal(fn: Function, fr: Frame, mem: Memory, sp: int, address: nat, e: Expr, w: Word)
    returns (mem': Memory)
    requires Represents(fn, fr, mem, sp)
    requires Eval(mem, e) == Some(w) && Bits(e) == 32
    ensures Executes([Store(GlobalVar(address), e)], mem, mem')
    ensures Represents(fn, fr.(globals := fr.globals[address := w]), mem', sp)
  {
    mem' := mem.(globals := mem.globals[address := w]);
    var fr' := fr.(globals := fr.globals[address := w]);
    assert forall i :: 0 <= i < |fr.locals| + |fr.stack| ==> Cell(fr', i) == Cell(fr, i);
  }

  /** A variable load evaluates to the VM's variable. */
  lemma {:induction false} LoadEval(fn: Function, fr: Frame, mem: Memory, sp: int, v: int, d: nat)
    requires Represents(fn, fr, mem, sp) && VarOk(fn, v, d) && Whole(fn, v) && 1 <= d <= 2
    ensures Accessible(fr, v, d)
    ensures Eval(mem, LoadSlot(fn, v, 32 * d)) == Some(ReadVar(fr, v, d))
    ensures ReadVar(fr, v, d) < Modulus(32 * d)
  {
    LoadVariable(fn, fr, mem, sp, v, d);
    ReadBounds(fr, v, d);
  }

  predicate IsStackMove(ins: Ins) {
    ins.PopPtr? || ins.PopRPtr? || ins.PshRPtr? || ins.PshC? || ins.PshV? || ins.PshG4?
  }

  lemma {:induction false} StackMoveStep(fn: Function, functions: nat, fr: Frame, mem: Memory, sp: int, ins: Ins)
    returns (mem': Memory)
    requires Represents(fn, fr, mem, sp) && OperandsOk(fn, functions, ins) && IsStackMove(ins)
    requires WholeOperands(fn, ins)
    requires EmitBasic(fn, ins, sp).Some? && StepBasic(fr, ins).Some?
    ensures Executes(EmitBasic(fn, ins, sp).value.code, mem, mem')
    ensures Represents(fn, StepBasic(fr, ins).value, mem', EmitBasic(fn, ins, sp).value.sp)
  {
    hide Represents, StoreTo, VarOk, Whole, SlotOk, ReadVar, Accessible, LoadFrom;
    RegisterMatches(fn, fr, mem, sp);
    match ins
    case PopPtr =>
      DropRepresents(fn, fr, mem, sp, 2);
      mem' := mem;
    case PopRPtr =>
      DropRepresents(fn, fr, mem, sp, 2);
      LoadOperand(fn, fr, mem, sp, 0, 2);
      mem' := StoreRegister(fn, Drop(fr, 2), mem, sp - 2, 64, LoadSlot(fn, sp, 64), Top(fr));
    case PshRPtr =>
      RegisterLoads(mem);
      mem' := PushSlot(fn, fr, mem, sp, 2, Load(ValueRegister, 64), fr.register);
    case PshC(wide, q) => mem' := PushSlot(fn, fr, mem, sp, Width(wide), Const(32 * Width(wide), q), q);
    case PshV(wide, v) =>
      LoadEval(fn, fr, mem, sp, v, Width(wide));
      mem' := PushSlot(fn, fr, mem, sp, Width(wide), LoadSlot(fn, v, 32 * Width(wide)), ReadVar(fr, v, Width(wide)));
    case PshG4(address) =>
      GlobalLoads(mem, address);
      mem' := PushSlot(fn, fr, mem, sp, 1, Load(GlobalVar(address), 32), GlobalAt(fr.globals, address));
  }

  lemma {:induction false} RegisterMatches(fn: Function, fr: Frame, mem: Memory, sp: int)
    requires Represents(fn, fr, mem, sp)
    ensures mem.register == fr.register && mem.globals == fr.globals && sp == fn.variableSpace + |fr.stack|
  {
  }

  lemma {:induction false} RegisterLoads(mem: Memory)
    ensures Eval(mem, Load(ValueRegister, 64)) == Some(mem.register)
    ensures Eval(mem, Load(ValueRegister, 32)) == Some(Wrap(mem.register, 32))
    ensures Eval(mem, Load(ValueRegister, 8)) == Some(Wrap(mem.register, 8))
  {
  }

  lemma {:induction false} GlobalLoads(mem: Memory, address: nat)
    ensures Eval(mem, Load(GlobalVar(address), 32)) == Some(GlobalAt(mem.globals, address))
  {
  }

  lemma {:induction false} GlobalStep(fn: Function, functions: nat, fr: Frame, mem: Memory, sp: int, ins: Ins)
    returns (mem': Memory)
    requires Represents(fn, fr, mem, sp) && OperandsOk(fn, functions, ins) && IsGlobal(ins)
    requires WholeOperands(fn, ins)
    requires EmitBasic(fn, ins, sp).Some? && StepBasic(fr, ins).Some?
    ensures Executes(EmitBasic(fn, ins, sp).value.code, mem, mem')
    ensures Represents(fn, StepBasic(fr, ins).value, mem', EmitBasic(fn, ins, sp).value.sp)
  {
    hide Represents, StoreTo, VarOk, Whole, SlotOk, ReadVar, WriteVar, Accessible, LoadFrom, SetLow;
    RegisterMatches(fn, fr, mem, sp);
    RegisterLoads(mem);
    match ins
    case SetG4(address, w) => mem' := StoreGlobal(fn, fr, mem, sp, address, Const(32, w), w);
    case CpyVtoG4(v, address) =>
      LoadEval(fn, fr, mem, sp, v, 1);
      mem' := StoreGlobal(fn, fr, mem, sp, address, LoadSlot(fn, v, 32), ReadVar(fr, v, 1));
    case CpyGtoV4(v, address) =>
      GlobalLoads(mem, address);
      mem' := StoreSlot(fn, fr, mem, sp, v, 1, Load(GlobalVar(address), 32), GlobalAt(fr.globals, address));
    case SetV(wide, v, q) => mem' := StoreSlot(fn, fr, mem, sp, v, Width(wide), Const(32 * Width(wide), q), q);
  }

  lemma {:induction false} RegisterStep(fn: Function, functions: nat, fr: Frame, mem: Memory, sp: int, ins: Ins)
    returns (mem': Memory)
    requires Represents(fn, fr, mem, sp) && OperandsOk(fn, functions, ins) && (ins.CpyVtoR? || ins.CpyRtoV?)
    requires WholeOperands(fn, ins)
    requires EmitBasic(fn, ins, sp).Some? && StepBasic(fr, ins).Some?
    ensures Executes(EmitBasic(fn, ins, sp).value.code, mem, mem')
    ensures Represents(fn, StepBasic(fr, ins).value, mem', EmitBasic(fn, ins, sp).value.sp)
  {
    hide Represents, StoreTo, VarOk, Whole, SlotOk, ReadVar, WriteVar, Accessible, LoadFrom, SetLow;
    RegisterMatches(fn, fr, mem, sp);
    RegisterLoads(mem);
    match ins
    case CpyVtoR(wide, v) =>
      LoadEval(fn, fr, mem, sp, v, Width(wide));
      mem' := StoreRegister(
        fn, fr, mem, sp, 32 * Width(wide), LoadSlot(fn, v, 32 * Width(wide)), ReadVar(fr, v, Width(wide)));
    case CpyRtoV(wide, v) =>
      mem' := StoreSlot(
        fn, fr, mem, sp, v, Width(wide), Load(ValueRegister, 32 * Width(wide)),
        Wrap(fr.register, 32 * Width(wide)));
  }

  lemma {:induction false} CopyStep(fn: Function, functions: nat, fr: Frame, mem: Memory, sp: int, ins: Ins)
    returns (mem': Memory)
    requires Represents(fn, fr, mem, sp) && OperandsOk(fn, functions, ins) && IsCopy(ins)
    requires WholeOperands(fn, ins)
    requires EmitBasic(fn, ins, sp).Some? && StepBasic(fr, ins).Some?
    ensures Executes(EmitBasic(fn, ins, sp).value.code, mem, mem')
    ensures Represents(fn, StepBasic(fr, ins).value, mem', EmitBasic(fn, ins, sp).value.sp)
  {
    hide Represents, StoreTo, VarOk, Whole, SlotOk, ReadVar, WriteVar, Accessible, LoadFrom, SetLow, Eval;
    match ins
    case CpyVtoV(wide, dst, src) =>
      LoadEval(fn, fr, mem, sp, src, Width(wide));
      mem' := StoreSlot(
        fn, fr, mem, sp, dst, Width(wide), LoadSlot(fn, src, 32 * Width(wide)), ReadVar(fr, src, Width(wide)));
    case CpyVtoR(_, _) => mem' := RegisterStep(fn, functions, fr, mem, sp, ins);
    case CpyRtoV(_, _) => mem' := RegisterStep(fn, functions, fr, mem, sp, ins);
    case Suspend => mem' := mem;
    case JitEntry => mem' := mem;
  }

  predicate IsGlobal(ins: Ins) {
    ins.SetG4? || ins.CpyVtoG4? || ins.CpyGtoV4? || ins.SetV?
  }

  predicate IsCopy(ins: Ins) {
    ins.CpyVtoV? || ins.CpyVtoR? || ins.CpyRtoV? || ins.Suspend? || ins.JitEntry?
  }

  predicate IsUnary(ins: Ins) {
    ins.IncVi? || ins.DecVi? || ins.Neg? || ins.BNot?
  }

  predicate IsArith(ins: Ins) {
    ins.Arith?
  }

  lemma {:induction false} ConstEval(mem: Memory, bits: nat, v: nat)
    requires v < Modulus(bits)
    ensures Eval(mem, Const(bits, v)) == Some(v) && Bits(Const(bits, v)) == bits
  {
  }

  lemma {:induction false} StoreBinOp(
    fn: Function, fr: Frame, mem: Memory, sp: int, v: int, d: nat, op: Binary, lhs: Expr, rhs: Expr, a: nat, b: nat)
    returns (mem': Memory)
    requires Represents(fn, fr, mem, sp) && VarOk(fn, v, d) && Whole(fn, v) && 1 <= d <= 2
    requires Eval(mem, lhs) == Some(a) && Eval(mem, rhs) == Some(b) && Bits(lhs) == Bits(rhs) == 32 * d
    requires BinaryResult(op, 32 * d, a, b).Some?
    requires BinaryResult(op, 32 * d, a, b).value < Modulus(32 * d)
    ensures Accessible(fr, v, d)
    ensures Executes([Store(SlotAddr(fn, v), BinOp(op, lhs, rhs))], mem, mem')
    ensures Represents(fn, WriteVar(fr, v, d, BinaryResult(op, 32 * d, a, b).value), mem', sp)
  {
    BinOpEval(mem, op, lhs, rhs, 32 * d, a, b);
    hide BinaryResult, Represents, Executes, Accessible, VarOk;
    mem' := StoreSlot(fn, fr, mem, sp, v, d, BinOp(op, lhs, rhs), BinaryResult(op, 32 * d, a, b).value);
  }

  lemma {:induction false} IncrementStep(fn: Function, functions: nat, fr: Frame, mem: Memory, sp: int, ins: Ins)
    returns (mem': Memory)
    requires Represents(fn, fr, mem, sp) && OperandsOk(fn, functions, ins) && (ins.IncVi? || ins.DecVi?)
    requires WholeOperands(fn, ins)
    requires EmitBasic(fn, ins, sp).Some? && StepBasic(fr, ins).Some?
    ensures Executes(EmitBasic(fn, ins, sp).value.code, mem, mem')
    ensures Represents(fn, StepBasic(fr, ins).value, mem', EmitBasic(fn, ins, sp).value.sp)
  {
    hide Represents, StoreTo, VarOk, Whole, SlotOk, ReadVar, WriteVar, Accessible, LoadFrom, BinaryResult, Eval, Signed;
    match ins
    case IncVi(v) =>
      LoadEval(fn, fr, mem, sp, v, 1);
      IncrementAgrees(ReadVar(fr, v, 1));
      ConstEval(mem, 32, 1);
      mem' := StoreBinOp(fn, fr, mem, sp, v, 1, Add, LoadSlot(fn, v, 32), Const(32, 1), ReadVar(fr, v, 1), 1);
    case DecVi(v) =>
      LoadEval(fn, fr, mem, sp, v, 1);
      IncrementAgrees(ReadVar(fr, v, 1));
      ConstEval(mem, 32, 1);
      mem' := StoreBinOp(fn, fr, mem, sp, v, 1, Sub, LoadSlot(fn, v, 32), Const(32, 1), ReadVar(fr, v, 1), 1);
  }

  lemma {:induction false} ComplementStep(fn: Function, functions: nat, fr: Frame, mem: Memory, sp: int, ins: Ins)
    returns (mem': Memory)
    requires Represents(fn, fr, mem, sp) && OperandsOk(fn, functions, ins) && (ins.Neg? || ins.BNot?)
    requires WholeOperands(fn, ins)
    requires EmitBasic(fn, ins, sp).Some? && StepBasic(fr, ins).Some?
    ensures Executes(EmitBasic(fn, ins, sp).value.code, mem, mem')
    ensures Represents(fn, StepBasic(fr, ins).value, mem', EmitBasic(fn, ins, sp).value.sp)
  {
    hide Represents, StoreTo, VarOk, Whole, SlotOk, ReadVar, WriteVar, Accessible, LoadFrom, BinaryResult, Eval, Signed;
    match ins
    case Neg(wide, v) =>
      var d, bits := Width(wide), 32 * Width(wide);
      LoadEval(fn, fr, mem, sp, v, d);
      NegAgrees(wide, ReadVar(fr, v, d));
      ConstEval(mem, bits, 0);
      mem' := StoreBinOp(fn, fr, mem, sp, v, d, Sub, Const(bits, 0), LoadSlot(fn, v, bits), 0, ReadVar(fr, v, d));
    case BNot(wide, v) =>
      var d, bits := Width(wide), 32 * Width(wide);
      LoadEval(fn, fr, mem, sp, v, d);
      NotAgrees(wide, ReadVar(fr, v, d));
      ConstEval(mem, bits, AllOnes(bits));
      mem' := StoreBinOp(
        fn, fr, mem, sp, v, d, Xor, Const(bits, AllOnes(bits)), LoadSlot(fn, v, bits), AllOnes(bits),
        ReadVar(fr, v, d));
  }

  lemma {:induction false} UnaryStep(fn: Function, functions: nat, fr: Frame, mem: Memory, sp: int, ins: Ins)
    returns (mem': Memory)
    requires Represents(fn, fr, mem, sp) && OperandsOk(fn, functions, ins) && IsUnary(ins)
    requires WholeOperands(fn, ins)
    requires EmitBasic(fn, ins, sp).Some? && StepBasic(fr, ins).Some?
    ensures Executes(EmitBasic(fn, ins, sp).value.code, mem, mem')
    ensures Represents(fn, StepBasic(fr, ins).value, mem', EmitBasic(fn, ins, sp).value.sp)
  {
    hide Represents, EmitBasic, StepBasic, OperandsOk, Executes;
    if ins.IncVi? || ins.DecVi? {
      mem' := IncrementStep(fn, functions, fr, mem, sp, ins);
    } else {
      mem' := ComplementStep(fn, functions, fr, mem, sp, ins);
    }
  }

  /** The right operand of an operation evaluates to what the VM reads, if it is not the unclean count of a shift. */
  lemma {:induction false} RightAgrees(fn: Function, functions: nat, fr: Frame, mem: Memory, sp: int, ins: Ins)
    requires Represents(fn, fr, mem, sp) && OperandsOk(fn, functions, ins) && IsArith(ins) && Clean(fn, fr, ins)
    ensures
      var bits, e := 32 * Width(ins.wide), RightWidth(ins.op, ins.wide);
      && OperandAccessible(fr, ins.rhs, e)
      && Eval(mem, OperandExpr(fn, ins.rhs, bits)) == Some(OperandValue(fr, ins.rhs, e))
      && Bits(OperandExpr(fn, ins.rhs, bits)) == bits
      && OperandValue(fr, ins.rhs, e) < Modulus(bits)
  {
    hide Represents, VarOk, Whole, LoadFrom;
    OperandAgrees(fn, fr, mem, sp, ins.rhs, Width(ins.wide));
    if IsWideShift(ins) {
      OperandAgrees(fn, fr, mem, sp, ins.rhs, 1);
    }
  }

  lemma {:induction false} ArithStep(fn: Function, functions: nat, fr: Frame, mem: Memory, sp: int, ins: Ins)
    returns (mem': Memory)
    requires Represents(fn, fr, mem, sp) && OperandsOk(fn, functions, ins) && IsArith(ins) && Clean(fn, fr, ins)
    requires EmitBasic(fn, ins, sp).Some? && StepBasic(fr, ins).Some?
    ensures Executes(EmitBasic(fn, ins, sp).value.code, mem, mem')
    ensures Represents(fn, StepBasic(fr, ins).value, mem', EmitBasic(fn, ins, sp).value.sp)
  {
    hide Represents, StoreTo, VarOk, Whole, SlotOk, ReadVar, WriteVar, Accessible, LoadFrom, AluResult, BinaryResult,
      CountClean;
    match ins
    case Arith(op, wide, dst, lhs, rhs) =>
      var d, bits := Width(wide), 32 * Width(wide);
      LoadEval(fn, fr, mem, sp, lhs, d);
      RightAgrees(fn, functions, fr, mem, sp, ins);
      var a, b := ReadVar(fr, lhs, d), OperandValue(fr, rhs, RightWidth(op, wide));
      AluAgrees(op, bits, a, b);
      BinOpEval(mem, IrOp(op), LoadSlot(fn, lhs, bits), OperandExpr(fn, rhs, bits), bits, a, b);
      mem' := StoreSlot(
        fn, fr, mem, sp, dst, d, BinOp(IrOp(op), LoadSlot(fn, lhs, bits), OperandExpr(fn, rhs, bits)),
        AluResult(op, bits, a, b).value);
  }

  /** A count without a DWORD beside it lies at the end of its allocation: loading two reads past it. */
  lemma {:induction false} ShortCount(fn: Function, fr: Frame, mem: Memory, sp: int, v: int)
    requires Represents(fn, fr, mem, sp) && VarOk(fn, v, 1) && !VarOk(fn, v, 2)
    ensures Eval(mem, LoadSlot(fn, v, 64)) == None
  {
    if v <= 0 {
      var k := SlotIndex(fn.sig, v);
      assert SlotRepresents(StackTypes(fn.sig), k, fr.args, mem.params);
    }
  }

  /** The code for a 64-bit shift computes what the VM computes exactly when the count is clean; otherwise it has no
      meaning. */
  lemma {:induction false} WideShiftExact(
    fn: Function, fr: Frame, mem: Memory, sp: int, op: Alu, dst: int, lhs: int, v: int)
    requires Represents(fn, fr, mem, sp) && IsShift(op) && VarOk(fn, lhs, 2) && VarOk(fn, v, 1)
    requires Whole(fn, lhs) && Whole(fn, v)
    ensures Accessible(fr, lhs, 2) && Accessible(fr, v, 1)
    ensures ReadVar(fr, v, 1) < 64 ==>
      Eval(mem, BinOp(IrOp(op), LoadSlot(fn, lhs, 64), LoadSlot(fn, v, 64))) ==
        if CountClean(fn, fr, Arith(op, true, dst, lhs, Var(v)))
        then AluResult(op, 64, ReadVar(fr, lhs, 2), ReadVar(fr, v, 1)) else None
  {
    hide Represents, VarOk, Whole, LoadFrom, AluResult;
    LoadEval(fn, fr, mem, sp, lhs, 2);
    LoadEval(fn, fr, mem, sp, v, 1);
    var a, e := ReadVar(fr, lhs, 2), LoadSlot(fn, lhs, 64);
    if VarOk(fn, v, 2) {
      LoadEval(fn, fr, mem, sp, v, 2);
      var b := ReadVar(fr, v, 2);
      BinOpEval(mem, IrOp(op), e, LoadSlot(fn, v, 64), 64, a, b);
      AluAgrees(op, 64, a, b);
      LongShift(op, a, b);
    } else {
      ShortCount(fn, fr, mem, sp, v);
    }
  }

  lemma {:induction false} LongShift(op: Alu, a: QWord, b: QWord)
    requires IsShift(op)
    ensures b >= 64 ==> AluResult(op, 64, a, b) == None
  {
  }

  /** Locals that hold the value 1 at offset 4, and at offset 2 the count 2 with a DWORD that is not zero beside it. */
  function UncleanFrame(): Frame {
    Frame([], [1, 2, 0, 1], [], 0, map[])
  }

  lemma {:induction false} UncleanShiftValue()
    ensures AluResult(BSLL, 64, 1, 2) == Some(4)
    ensures Lo(4) == 4 && Hi(4) == 0
  {
    assert Pow2(2) == 4;
  }

  lemma {:induction false} UncleanShiftStep()
    ensures
      StepBasic(UncleanFrame(), Arith(BSLL, true, 4, 4, Var(2))) == Some(UncleanFrame().(locals := [1, 2, 0, 4]))
  {
    hide AluResult, Pow2;
    UncleanShiftValue();
    var fr := UncleanFrame();
    assert ReadVar(fr, 4, 2) == 1 && ReadVar(fr, 2, 1) == 2;
    assert WriteVar(fr, 4, 2, 4) == fr.(locals := [1, 2, 0, 4]);
  }

  /** There the VM shifts 1 to 4, and the code for the shift has no meaning. */
  lemma {:induction false} UncleanShift(fn: Function, mem: Memory, sp: int)
    requires fn.variableSpace == 4 && Represents(fn, UncleanFrame(), mem, sp)
    ensures
      StepBasic(UncleanFrame(), Arith(BSLL, true, 4, 4, Var(2))) == Some(UncleanFrame().(locals := [1, 2, 0, 4]))
    ensures Eval(mem, BinOp(IrOp(BSLL), LoadSlot(fn, 4, 64), LoadSlot(fn, 2, 64))) == None
  {
    hide Represents, Eval, LoadSlot, StepBasic, AluResult;
    UncleanShiftStep();
    assert ReadVar(UncleanFrame(), 2, 1) == 2 && ReadVar(UncleanFrame(), 2, 2) >= M32;
    WideShiftExact(fn, UncleanFrame(), mem, sp, BSLL, 4, 4, 2);
  }

  predicate IsTest(ins: Ins) {
    ins.Cmp? || ins.Test? || ins.ClrHi?
  }

  predicate IsConversion(ins: Ins) {
    ins.Extend? || ins.Narrow? || ins.Widen?
  }

  lemma {:induction false} ExtendEval(mem: Memory, e: Expr, bits: nat, q: nat)
    requires Eval(mem, e) == Some(q)
    ensures Eval(mem, SExt(e, bits)) == Some(Wrap(Signed(q, Bits(e)), bits)) && Bits(SExt(e, bits)) == bits
    ensures Eval(mem, ZExt(e, bits)) == Some(q) && Bits(ZExt(e, bits)) == bits
    ensures Eval(mem, Trunc(e, bits)) == Some(q % Modulus(bits)) && Bits(Trunc(e, bits)) == bits
  {
  }

  lemma {:induction false} TestStep(fn: Function, functions: nat, fr: Frame, mem: Memory, sp: int, ins: Ins)
    returns (mem': Memory)
    requires Represents(fn, fr, mem, sp) && OperandsOk(fn, functions, ins) && IsTest(ins)
    requires WholeOperands(fn, ins)
    requires EmitBasic(fn, ins, sp).Some? && StepBasic(fr, ins).Some?
    ensures Executes(EmitBasic(fn, ins, sp).value.code, mem, mem')
    ensures Represents(fn, StepBasic(fr, ins).value, mem', EmitBasic(fn, ins, sp).value.sp)
  {
    hide Represents, StoreTo, VarOk, Whole, SlotOk, ReadVar, WriteVar, Accessible, LoadFrom, CompareExpr,
      ConditionExpr, SetLow, Eval, Signed, Holds, Compare;
    RegisterMatches(fn, fr, mem, sp);
    RegisterLoads(mem);
    match ins
    case Cmp(signed, wide, lhs, rhs) =>
      var d, bits := Width(wide), 32 * Width(wide);
      LoadEval(fn, fr, mem, sp, lhs, d);
      OperandAgrees(fn, fr, mem, sp, rhs, d);
      var a, b := ReadVar(fr, lhs, d), OperandValue(fr, rhs, d);
      var e := CompareExpr(LoadSlot(fn, lhs, bits), OperandExpr(fn, rhs, bits), signed);
      CompareAgrees(mem, LoadSlot(fn, lhs, bits), OperandExpr(fn, rhs, bits), signed, bits, a, b);
      mem' := StoreRegister(fn, fr, mem, sp, 32, e, Eval(mem, e).value);
    case Test(c) =>
      ConditionAgrees(mem, c);
      var e := ConditionExpr(c);
      ExtendEval(mem, e, 64, Eval(mem, e).value);
      mem' := StoreRegister(fn, fr, mem, sp, 64, ZExt(e, 64), Eval(mem, e).value);
      SetWhole(fr.register, Eval(mem, e).value);
    case ClrHi =>
      ExtendEval(mem, Load(ValueRegister, 8), 32, Wrap(fr.register, 8));
      mem' := StoreRegister(fn, fr, mem, sp, 32, ZExt(Load(ValueRegister, 8), 32), Wrap(fr.register, 8));
  }

  lemma {:induction false} ExtendStep(fn: Function, functions: nat, fr: Frame, mem: Memory, sp: int, ins: Ins)
    returns (mem': Memory)
    requires Represents(fn, fr, mem, sp) && OperandsOk(fn, functions, ins) && ins.Extend?
    requires WholeOperands(fn, ins)
    requires EmitBasic(fn, ins, sp).Some? && StepBasic(fr, ins).Some?
    ensures Executes(EmitBasic(fn, ins, sp).value.code, mem, mem')
    ensures Represents(fn, StepBasic(fr, ins).value, mem', EmitBasic(fn, ins, sp).value.sp)
  {
    hide Represents, StoreTo, VarOk, Whole, SlotOk, ReadVar, WriteVar, Accessible, LoadFrom, SetLow, Eval, Signed;
    match ins
    case Extend(signed, bits, v) =>
      LoadVariable(fn, fr, mem, sp, v, 1);
      var low := Wrap(ReadVar(fr, v, 1), bits);
      LoadExprEval(mem, SlotAddr(fn, v), bits);
      ExtendEval(mem, LoadSlot(fn, v, bits), 32, low);
      var e := if signed then SExt(LoadSlot(fn, v, bits), 32) else ZExt(LoadSlot(fn, v, bits), 32);
      mem' := StoreSlot(fn, fr, mem, sp, v, 1, e, if signed then Wrap(Signed(low, bits), 32) else low);
  }

  lemma {:induction false} ConversionStep(fn: Function, functions: nat, fr: Frame, mem: Memory, sp: int, ins: Ins)
    returns (mem': Memory)
    requires Represents(fn, fr, mem, sp) && OperandsOk(fn, functions, ins) && IsConversion(ins)
    requires WholeOperands(fn, ins)
    requires EmitBasic(fn, ins, sp).Some? && StepBasic(fr, ins).Some?
    ensures Executes(EmitBasic(fn, ins, sp).value.code, mem, mem')
    ensures Represents(fn, StepBasic(fr, ins).value, mem', EmitBasic(fn, ins, sp).value.sp)
  {
    hide Represents, StoreTo, VarOk, Whole, SlotOk, ReadVar, WriteVar, Accessible, LoadFrom, SetLow, Eval, Signed;
    match ins
    case Extend(_, _, _) => mem' := ExtendStep(fn, functions, fr, mem, sp, ins);
    case Narrow(dst, src) =>
      LoadEval(fn, fr, mem, sp, src, 2);
      ExtendEval(mem, LoadSlot(fn, src, 64), 32, ReadVar(fr, src, 2));
      mem' := StoreSlot(fn, fr, mem, sp, dst, 1, Trunc(LoadSlot(fn, src, 64), 32), Wrap(ReadVar(fr, src, 2), 32));
    case Widen(signed, dst, src) =>
      LoadEval(fn, fr, mem, sp, src, 1);
      var w := ReadVar(fr, src, 1);
      ExtendEval(mem, LoadSlot(fn, src, 32), 64, w);
      var e := if signed then SExt(LoadSlot(fn, src, 32), 64) else ZExt(LoadSlot(fn, src, 32), 64);
      mem' := StoreSlot(fn, fr, mem, sp, dst, 2, e, if signed then Wrap(Signed(w, 32), 64) else w);
  }

  /** The code emit_cast makes for iTOb and iTOw: the low bits of a variable are stored over themselves. */
  function TruncateInPlace(fn: Function, v: int, bits: nat): seq<Instr> {
    [Store(SlotAddr(fn, v), Trunc(LoadSlot(fn, v, 32), bits))]
  }

  lemma {:induction false} LowBack(w: Word, bits: nat)
    requires bits in {8, 16}
    ensures Wrap(w, bits) < Modulus(bits) && LowReplaced(w, bits, Wrap(w, bits)) == w
  {
  }

  /** The DWORD that a load of 32 bits finds. */
  predicate HasWord(mem: Memory, addr: Addr, w: Word) {
    match addr
    case Storage(i) => 0 <= i < |mem.storage| && mem.storage[i] == w
    case ParameterAlloca(off) => off in mem.params && |mem.params[off]| >= 1 && mem.params[off][0] == w
    case _ => false
  }

  lemma {:induction false} WordFound(mem: Memory, addr: Addr, w: Word)
    requires LoadFrom(mem, addr, 32) == Some(w) && (addr.Storage? || addr.ParameterAlloca?)
    ensures HasWord(mem, addr, w)
  {
  }

  lemma {:induction false} LowStoredBack(mem: Memory, addr: Addr, bits: nat, w: Word, v: nat)
    requires bits in {8, 16} && v < Modulus(bits) && HasWord(mem, addr, w) && LowReplaced(w, bits, v) == w
    ensures StoreTo(mem, addr, bits, v) == Some(mem)
  {
    hide LowReplaced, Modulus, SetLow;
    if addr.Storage? {
      assert mem.storage[addr.i := w] == mem.storage;
    } else {
      var cells := mem.params[addr.off];
      assert cells[0 := w] == cells;
      assert mem.params[addr.off := cells] == mem.params;
    }
  }

  lemma {:induction false} LowStored(mem: Memory, addr: Addr, bits: nat, w: Word)
    requires bits in {8, 16} && LoadFrom(mem, addr, 32) == Some(w) && (addr.Storage? || addr.ParameterAlloca?)
    ensures Wrap(w, bits) < Modulus(bits) && StoreTo(mem, addr, bits, Wrap(w, bits)) == Some(mem)
  {
    hide LowReplaced, Wrap, Modulus, StoreTo, LoadFrom, HasWord;
    LowBack(w, bits);
    WordFound(mem, addr, w);
    LowStoredBack(mem, addr, bits, w, Wrap(w, bits));
  }

  lemma {:induction false} WriteChanges(fr: Frame, v: int, w: Word)
    requires Accessible(fr, v, 1)
    ensures WriteVar(fr, v, 1, w) == fr <==> w == ReadVar(fr, v, 1)
  {
    if v > 0 {
      assert w == fr.locals[v - 1] ==> fr.locals[v - 1 := w] == fr.locals;
    } else {
      assert w == fr.args[-v] ==> fr.args[-v := w] == fr.args;
    }
    assert WriteVar(fr, v, 1, w) == fr ==> ReadVar(WriteVar(fr, v, 1, w), v, 1) == ReadVar(fr, v, 1);
  }

  lemma {:induction false} WrapFits(w: Word, bits: nat)
    requires bits in {8, 16}
    ensures Wrap(w, bits) < M32 && (Wrap(w, bits) == w <==> w < Modulus(bits))
  {
  }

  /** The store changes nothing, so the variable is truncated as a DWORD exactly when it has no bits above the type. */
  lemma {:induction false} TruncationExact(fn: Function, fr: Frame, mem: Memory, sp: int, v: int, bits: nat)
    requires Represents(fn, fr, mem, sp) && VarOk(fn, v, 1) && Whole(fn, v) && bits in {8, 16}
    ensures Executes(TruncateInPlace(fn, v, bits), mem, mem)
    ensures Accessible(fr, v, 1) && Wrap(ReadVar(fr, v, 1), bits) < M32
    ensures WriteVar(fr, v, 1, Wrap(ReadVar(fr, v, 1), bits)) == fr <==> ReadVar(fr, v, 1) < Modulus(bits)
  {
    hide Represents, LoadFrom, StoreTo, ReadVar, WriteVar, Accessible, SlotAddr, VarOk, Whole;
    LoadVariable(fn, fr, mem, sp, v, 1);
    ReadBounds(fr, v, 1);
    var w := ReadVar(fr, v, 1);
    SlotIsInFrame(fn, v);
    LowStored(mem, SlotAddr(fn, v), bits, w);
    LoadExprEval(mem, SlotAddr(fn, v), 32);
    ExtendEval(mem, LoadSlot(fn, v, 32), bits, w);
    WrapFits(w, bits);
    WriteChanges(fr, v, Wrap(w, bits));
  }

  lemma {:induction false} SlotIsInFrame(fn: Function, v: int)
    ensures SlotAddr(fn, v).Storage? || SlotAddr(fn, v).ParameterAlloca?
  {
  }

  lemma {:induction false} SetWhole(register: QWord, q: QWord)
    ensures SetLow(register, 64, q) == q
  {
  }

  lemma {:induction false} LoadExprEval(mem: Memory, addr: Addr, bits: nat)
    ensures Eval(mem, Load(addr, bits)) == LoadFrom(mem, addr, bits)
  {
  }

  /** Every straight-line instruction. */
  lemma {:induction false} BasicStep(fn: Function, functions: nat, fr: Frame, mem: Memory, sp: int, ins: Ins)
    returns (mem': Memory)
    requires Represents(fn, fr, mem, sp) && OperandsOk(fn, functions, ins) && IsBasic(ins) && Clean(fn, fr, ins)
    requires EmitBasic(fn, ins, sp).Some? && StepBasic(fr, ins).Some?
    ensures Executes(EmitBasic(fn, ins, sp).value.code, mem, mem')
    ensures Represents(fn, StepBasic(fr, ins).value, mem', EmitBasic(fn, ins, sp).value.sp)
  {
    hide Represents, StoreTo, OperandsOk, StepBasic, EmitBasic, Executes;
    if IsStackMove(ins) {
      mem' := StackMoveStep(fn, functions, fr, mem, sp, ins);
    } else if IsGlobal(ins) {
      mem' := GlobalStep(fn, functions, fr, mem, sp, ins);
    } else if IsCopy(ins) {
      mem' := CopyStep(fn, functions, fr, mem, sp, ins);
    } else if IsUnary(ins) {
      mem' := UnaryStep(fn, functions, fr, mem, sp, ins);
    } else if IsArith(ins) {
      mem' := ArithStep(fn, functions, fr, mem, sp, ins);
    } else if IsTest(ins) {
      mem' := TestStep(fn, functions, fr, mem, sp, ins);
    } else {
      mem' := ConversionStep(fn, functions, fr, mem, sp, ins);
    }
  }
}
