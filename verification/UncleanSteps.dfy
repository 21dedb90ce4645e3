/** Instructions that have a meaning in the VM and none in the translated code: accesses to parameters narrower than a
    DWORD, whose allocations end before the access does, and 64-bit shifts whose count is not clean. */
module UncleanSteps {
  import opened Words
  import opened Signatures
  import opened Bytecode
  import opened Machine
  import opened Blocks
  import opened Frames
  import opened Translation
  import opened BasicSteps
  import opened Positions
  import opened StepSimulation

  /** The store cannot be done: its value has no meaning, or its address takes no such value. */
  predicate Fails(mem: Memory, i: Instr) {
    && i.Store?
    && (Eval(mem, i.e) == None || StoreTo(mem, i.addr, Bits(i.e), Eval(mem, i.e).value) == None)
  }

  /** The code for an instruction is one such store. */
  predicate CodeFails(mem: Memory, code: seq<Instr>) {
    |code| == 1 && Fails(mem, code[0])
  }

  /** Nothing is read from a narrow parameter, and nothing stored to it. */
  lemma {:induction false} NarrowFails(fn: Function, fr: Frame, mem: Memory, sp: int, v: int)
    requires Represents(fn, fr, mem, sp) && VarOk(fn, v, 1)
    ensures !Whole(fn, v) ==> forall bits :: Eval(mem, LoadSlot(fn, v, bits)) == None
    ensures !Whole(fn, v) ==> forall bits, q :: StoreTo(mem, SlotAddr(fn, v), bits, q) == None
  {
    if !Whole(fn, v) {
      forall bits: nat
        ensures Eval(mem, LoadSlot(fn, v, bits)) == None
      {
        NarrowVariable(fn, fr, mem, sp, v, bits, 0);
      }
      forall bits: nat, q: nat
        ensures StoreTo(mem, SlotAddr(fn, v), bits, q) == None
      {
        NarrowVariable(fn, fr, mem, sp, v, bits, q);
      }
    }
  }

  /** A function with one bool parameter that copies it to the register accesses a narrow parameter. */
  lemma {:induction false} BoolIsNarrow(code: seq<Ins>)
    ensures
      var fn := Function(Signature(None, false, None, [DataType(IntType(1), 1, false)]), 0, 0, code);
      NativeSignature(fn.sig) && VarOk(fn, 0, 1) && !WholeOperands(fn, CpyVtoR(false, 0))
  {
    var t := DataType(IntType(1), 1, false);
    var sig := Signature(None, false, None, [t]);
    assert StackTypes(sig) == [t];
    assert ReadBefore([t], 0) == 0;
    assert ParameterSlots([t], 0, 1) == map[0 := Parameter(0, t)];
  }

  lemma {:induction false} NarrowCopyFails(fn: Function, functions: nat, fr: Frame, mem: Memory, sp: int, ins: Ins)
    requires Represents(fn, fr, mem, sp) && OperandsOk(fn, functions, ins) && !WholeOperands(fn, ins)
    requires IsStackMove(ins) || IsGlobal(ins) || IsCopy(ins)
    requires EmitBasic(fn, ins, sp).Some?
    ensures CodeFails(mem, EmitBasic(fn, ins, sp).value.code)
  {
    hide Represents, Whole, Eval, StoreTo, LoadSlot, SlotAddr, SlotOk;
    LoadsOfNone(mem);
    match ins
    case PshV(_, v) => NarrowFails(fn, fr, mem, sp, v);
    case CpyVtoG4(v, _) => NarrowFails(fn, fr, mem, sp, v);
    case CpyGtoV4(v, _) => NarrowFails(fn, fr, mem, sp, v);
    case SetV(_, v, _) => NarrowFails(fn, fr, mem, sp, v);
    case CpyVtoV(_, dst, src) =>
      NarrowFails(fn, fr, mem, sp, src);
      NarrowFails(fn, fr, mem, sp, dst);
    case CpyVtoR(_, v) => NarrowFails(fn, fr, mem, sp, v);
    case CpyRtoV(_, v) => NarrowFails(fn, fr, mem, sp, v);
  }

  /** An expression has no meaning if a part of it has none. */
  lemma {:induction false} LoadsOfNone(mem: Memory)
    ensures forall op, a, b :: Eval(mem, a) == None || Eval(mem, b) == None ==> Eval(mem, BinOp(op, a, b)) == None
    ensures forall p, a, b :: Eval(mem, a) == None || Eval(mem, b) == None ==> Eval(mem, ICmp(p, a, b)) == None
    ensures forall c, a, b :: Eval(mem, c) == None ==> Eval(mem, Select(c, a, b)) == None
    ensures forall e, bits :: Eval(mem, e) == None ==> Eval(mem, ZExt(e, bits)) == None
    ensures forall e, bits :: Eval(mem, e) == None ==> Eval(mem, SExt(e, bits)) == None
    ensures forall e, bits :: Eval(mem, e) == None ==> Eval(mem, Trunc(e, bits)) == None
  {
  }

  lemma {:induction false} NarrowOperandFails(fn: Function, functions: nat, fr: Frame, mem: Memory, sp: int, ins: Ins)
    requires Represents(fn, fr, mem, sp) && OperandsOk(fn, functions, ins) && !WholeOperands(fn, ins)
    requires IsArith(ins) || IsTest(ins)
    requires EmitBasic(fn, ins, sp).Some?
    ensures CodeFails(mem, EmitBasic(fn, ins, sp).value.code)
  {
    hide Represents, Whole, Eval, StoreTo, LoadSlot, SlotAddr, SlotOk;
    LoadsOfNone(mem);
    match ins
    case Arith(_, _, dst, lhs, rhs) =>
      NarrowFails(fn, fr, mem, sp, dst);
      NarrowFails(fn, fr, mem, sp, lhs);
      if rhs.Var? {
        NarrowFails(fn, fr, mem, sp, rhs.v);
      }
    case Cmp(_, _, lhs, rhs) =>
      NarrowFails(fn, fr, mem, sp, lhs);
      if rhs.Var? {
        NarrowFails(fn, fr, mem, sp, rhs.v);
      }
  }

  lemma {:induction false} NarrowUnaryFails(fn: Function, functions: nat, fr: Frame, mem: Memory, sp: int, ins: Ins)
    requires Represents(fn, fr, mem, sp) && OperandsOk(fn, functions, ins) && !WholeOperands(fn, ins)
    requires IsUnary(ins)
    requires EmitBasic(fn, ins, sp).Some?
    ensures CodeFails(mem, EmitBasic(fn, ins, sp).value.code)
  {
    hide Represents, Whole, Eval, StoreTo, LoadSlot, SlotAddr, SlotOk;
    LoadsOfNone(mem);
    match ins
    case IncVi(v) => NarrowFails(fn, fr, mem, sp, v);
    case DecVi(v) => NarrowFails(fn, fr, mem, sp, v);
    case Neg(_, v) => NarrowFails(fn, fr, mem, sp, v);
    case BNot(_, v) => NarrowFails(fn, fr, mem, sp, v);
  }

  lemma {:induction false} NarrowConversionFails(
    fn: Function, functions: nat, fr: Frame, mem: Memory, sp: int, ins: Ins)
    requires Represents(fn, fr, mem, sp) && OperandsOk(fn, functions, ins) && !WholeOperands(fn, ins)
    requires IsConversion(ins)
    requires EmitBasic(fn, ins, sp).Some?
    ensures CodeFails(mem, EmitBasic(fn, ins, sp).value.code)
  {
    hide Represents, Whole, Eval, StoreTo, LoadSlot, SlotAddr, SlotOk;
    LoadsOfNone(mem);
    match ins
    case Extend(_, _, v) => NarrowFails(fn, fr, mem, sp, v);
    case Narrow(dst, src) =>
      NarrowFails(fn, fr, mem, sp, dst);
      NarrowFails(fn, fr, mem, sp, src);
    case Widen(_, dst, src) =>
      NarrowFails(fn, fr, mem, sp, dst);
      NarrowFails(fn, fr, mem, sp, src);
  }

  lemma {:induction false} ShiftFails(fn: Function, functions: nat, fr: Frame, mem: Memory, sp: int, ins: Ins)
    requires Represents(fn, fr, mem, sp) && OperandsOk(fn, functions, ins)
    requires WholeOperands(fn, ins) && !CountClean(fn, fr, ins)
    requires StepBasic(fr, ins).Some? && EmitBasic(fn, ins, sp).Some?
    ensures CodeFails(mem, EmitBasic(fn, ins, sp).value.code)
  {
    hide Represents, VarOk, ReadVar, LoadFrom, Accessible, Eval, LoadSlot, Whole;
    WideShiftExact(fn, fr, mem, sp, ins.op, ins.dst, ins.lhs, ins.rhs.v);
    LongShift(ins.op, ReadVar(fr, ins.lhs, 2), ReadVar(fr, ins.rhs.v, 1));
  }

  lemma {:induction false} UncleanCodeFails(fn: Function, functions: nat, fr: Frame, mem: Memory, sp: int, ins: Ins)
    requires Represents(fn, fr, mem, sp) && OperandsOk(fn, functions, ins) && IsBasic(ins) && !Clean(fn, fr, ins)
    requires StepBasic(fr, ins).Some? && EmitBasic(fn, ins, sp).Some?
    ensures CodeFails(mem, EmitBasic(fn, ins, sp).value.code)
  {
    hide Represents, OperandsOk, StepBasic, EmitBasic, CodeFails, WholeOperands, CountClean;
    if WholeOperands(fn, ins) {
      ShiftFails(fn, functions, fr, mem, sp, ins);
    } else if IsStackMove(ins) || IsGlobal(ins) || IsCopy(ins) {
      NarrowCopyFails(fn, functions, fr, mem, sp, ins);
    } else if IsArith(ins) || IsTest(ins) {
      NarrowOperandFails(fn, functions, fr, mem, sp, ins);
    } else if IsUnary(ins) {
      NarrowUnaryFails(fn, functions, fr, mem, sp, ins);
    } else {
      NarrowConversionFails(fn, functions, fr, mem, sp, ins);
    }
  }

  lemma {:induction false} StoreFaults(p: seq<Target>, f: nat, pos: Pos, i: Instr, mem: Memory)
    requires InstrAt(p, f, pos, i) && Fails(mem, i)
    ensures forall x: nat :: x >= 1 ==> RunAt(p, f, pos, mem, x) == Fault
  {
  }

  lemma {:induction false} SwitchFaults(
    p: seq<Target>, f: nat, pos: Pos, e: Expr, default: nat, cases: seq<nat>, mem: Memory)
    requires InstrAt(p, f, pos, Switch(e, default, cases)) && Eval(mem, e) == None
    ensures forall x: nat :: x >= 1 ==> RunAt(p, f, pos, mem, x) == Fault
  {
  }

  lemma {:induction false} UncleanBasicFaults(m: seq<Function>, p: seq<Target>, f: nat, i: nat, fr: Frame, mem: Memory)
    requires Compiled(m, p) && f < |m| && Simulates(m, f, i, fr, mem)
    requires IsBasic(m[f].code[i]) && StepBasic(fr, m[f].code[i]).Some? && !Clean(m[f], fr, m[f].code[i])
    ensures f < |p| && forall x: nat :: x >= 1 ==> RunAt(p, f, PosOf(m, f, i), mem, x) == Fault
  {
    hide Compiled, Placed, Represents, PosOf, DepthOf, NativeSignature, EmitBasic, StepBasic, Clean, OperandsOk, Fails;
    var w, b' := Place(m, p, f, i);
    PlacedFacts(m, p, f, i, w, b');
    var ins := m[f].code[i];
    UncleanCodeFails(m[f], |m|, fr, mem, w.sp, ins);
    var e := EmitBasic(m[f], ins, w.sp).value;
    AppendedEnd(w, e.code);
    CodeAppended(m, p, f, i, w, b', e.code, 0);
    StoreFaults(p, f, EndOf(w), e.code[0], mem);
  }

  lemma {:induction false} UncleanSwitchFaults(m: seq<Function>, p: seq<Target>, f: nat, i: nat, fr: Frame, mem: Memory)
    requires Compiled(m, p) && f < |m| && Simulates(m, f, i, fr, mem)
    requires m[f].code[i].JmpP? && !Whole(m[f], m[f].code[i].v)
    ensures f < |p| && forall x: nat :: x >= 1 ==> RunAt(p, f, PosOf(m, f, i), mem, x) == Fault
  {
    hide Compiled, Placed, Represents, PosOf, DepthOf, NativeSignature, Whole, Eval, LoadSlot;
    var w, b' := Place(m, p, f, i);
    PlacedFacts(m, p, f, i, w, b');
    var v, targets := m[f].code[i].v, w.switchMap[Off(m[f].code, i)];
    NarrowFails(m[f], fr, mem, w.sp, v);
    CodeAppended(m, p, f, i, w, b', [Switch(LoadSlot(m[f], v, 32), targets[|targets| - 1], targets)], 0);
    SwitchFaults(p, f, EndOf(w), LoadSlot(m[f], v, 32), targets[|targets| - 1], targets, mem);
  }

  lemma {:induction false} UncleanKind(fn: Function, fr: Frame, ins: Ins)
    requires !Clean(fn, fr, ins)
    ensures IsBasic(ins) || (ins.JmpP? && !Whole(fn, ins.v))
  {
    hide Whole, VarOk, Accessible, ReadVar;
  }

  /** Where the VM goes on from an instruction that is not clean, the target faults at once. */
  lemma {:induction false} UncleanStepFaults(m: seq<Function>, p: seq<Target>, f: nat, i: nat, fr: Frame, mem: Memory)
    requires Compiled(m, p) && f < |m| && Simulates(m, f, i, fr, mem)
    requires !Clean(m[f], fr, m[f].code[i]) && !StepAt(m, f, i, fr).Bad?
    ensures f < |p| && forall x: nat :: x >= 1 ==> RunAt(p, f, PosOf(m, f, i), mem, x) == Fault
  {
    hide Compiled, Represents, StepBasic, StepControl, Clean, PosOf, DepthOf, RunAt, Whole;
    UncleanKind(m[f], fr, m[f].code[i]);
    if IsBasic(m[f].code[i]) {
      UncleanBasicFaults(m, p, f, i, fr, mem);
    } else {
      UncleanSwitchFaults(m, p, f, i, fr, mem);
    }
  }
}
