/** The builder as the compiler runs it: an insertion point, a compile-time stack pointer and maps of labels and jump
    tables, updated in place. Each method leaves the state that the translation functions describe; a method that
    returns false has stopped at a failed assertion or map lookup. */
module FunctionBuilders {
  import opened Words
  import opened Signatures
  import opened Bytecode
  import opened Machine
  import opened Blocks
  import opened Frames
  import opened Translation
  import opened BlockPass
  import BlockPassRun
  import opened Acceptance
  import Operations

  function WithCode(blocks: seq<seq<Instr>>, cur: nat, code: seq<Instr>): seq<seq<Instr>>
    requires cur < |blocks|
  {
    blocks[cur := blocks[cur] + code]
  }

  /** The builder state after straight-line code. */
  function AfterCode(b: Builder, e: Emitted): Builder
    requires b.cur < |b.blocks|
  {
    Append(b, e.code).(sp := e.sp)
  }

  lemma {:induction false} CodeInTwoParts(blocks: seq<seq<Instr>>, cur: nat, a: seq<Instr>, b: seq<Instr>)
    requires cur < |blocks|
    ensures WithCode(WithCode(blocks, cur, a), cur, b) == WithCode(blocks, cur, a + b)
    ensures WithCode(blocks, cur, []) == blocks
  {
    assert blocks[cur] + a + b == blocks[cur] + (a + b);
    assert blocks[cur] + [] == blocks[cur];
  }

  /** Filling two new blocks one after the other. */
  lemma {:induction false} CheckBlocks(blocks: seq<seq<Instr>>, cur: nat, condition: Instr, exit: Instr)
    requires cur < |blocks|
    ensures
      var n := |blocks|;
      WithCode(WithCode(blocks + [[]] + [[]], cur, [condition]), n, [exit])
        == WithCode(blocks, cur, [condition]) + [[exit], []]
  {
    assert [] + [exit] == [exit];
  }

  /** The expressions have the width and evaluate to the values. */
  predicate OperandsAre(mem: Memory, lhs: Expr, rhs: Expr, bits: nat, a: nat, b: nat) {
    && Bits(lhs) == Bits(rhs) == bits
    && Eval(mem, lhs) == Some(a) && Eval(mem, rhs) == Some(b)
    && a < Modulus(bits) && b < Modulus(bits)
  }

  /** The object of a method call is a pointer. */
  predicate ThisIsPointer(sig: Signature) {
    sig.objectType.Some? ==> BitsOf(sig.objectType.value.llvm) == 64
  }

  class IrBuilder {
    var blocks: seq<seq<Instr>>
    var cur: nat

    constructor ()
      ensures blocks == [[]] && cur == 0
    {
      blocks := [[]];
      cur := 0;
    }

    method CreateBlock() returns (block: nat)
      modifies `blocks
      ensures block == old(|blocks|) && blocks == old(blocks) + [[]]
    {
      block := |blocks|;
      blocks := blocks + [[]];
    }

    method SetInsertPoint(block: nat)
      modifies `cur
      ensures cur == block
    {
      cur := block;
    }

    method Insert(i: Instr)
      requires cur < |blocks|
      modifies `blocks
      ensures blocks == WithCode(old(blocks), cur, [i])
    {
      blocks := blocks[cur := blocks[cur] + [i]];
    }
  }

  class StackFrame {
    const fn: Function
    const ir: IrBuilder
    var parameters: map<int, Parameter>
    var stackPointer: int

    /** StackFrame::setup */
    constructor (fn: Function, ir: IrBuilder)
      ensures this.fn == fn && this.ir == ir
      ensures parameters == ParameterStorage(fn.sig) && stackPointer == fn.variableSpace
    {
      this.fn := fn;
      this.ir := ir;
      var frame := new ParameterFrame();
      frame.AllocateParameterStorage(fn.sig);
      parameters := frame.parameters;
      stackPointer := fn.variableSpace;
    }

    ghost predicate Valid()
      reads this, ir
    {
      parameters == ParameterStorage(fn.sig) && ir.cur < |ir.blocks|
    }

    method PointerTo(offset: int) returns (addr: Option<Addr>)
      requires Valid()
      ensures addr == if SlotOk(fn, offset) then Some(SlotAddr(fn, offset)) else None
      ensures offset > 0 ==>
        addr == if offset <= fn.stackNeeded + 4 then Some(Storage(fn.stackNeeded + 4 - offset)) else None
    {
      if offset <= 0 {
        return if offset in parameters then Some(ParameterAlloca(offset)) else None;
      }
      var realOffset := TotalSpace(fn) - offset;
      if !(realOffset >= 0 && realOffset <= TotalSpace(fn)) {
        return None;
      }
      return Some(Storage(realOffset));
    }

    method LoadValue(offset: int, bits: nat) returns (value: Option<Expr>)
      requires Valid()
      ensures value == if SlotOk(fn, offset) then Some(LoadSlot(fn, offset, bits)) else None
    {
      var addr := PointerTo(offset);
      value := if addr.Some? then Some(Load(addr.value, bits)) else None;
    }

    method StoreValue(offset: int, value: Expr) returns (ok: bool)
      requires Valid()
      modifies ir`blocks
      ensures ok == SlotOk(fn, offset)
      ensures ir.blocks ==
        if ok then WithCode(old(ir.blocks), ir.cur, [Store(SlotAddr(fn, offset), value)]) else old(ir.blocks)
    {
      var addr := PointerTo(offset);
      if addr.None? {
        return false;
      }
      ir.Insert(Store(addr.value, value));
      return true;
    }

    method Push(value: Expr, dwords: nat) returns (ok: bool)
      requires Valid()
      modifies `stackPointer, ir`blocks
      ensures ok == SlotOk(fn, stackPointer) && stackPointer == old(stackPointer) + dwords
      ensures ir.blocks ==
        if ok then WithCode(old(ir.blocks), ir.cur, [Store(SlotAddr(fn, stackPointer), value)]) else old(ir.blocks)
    {
      stackPointer := stackPointer + dwords;
      ok := StoreValue(stackPointer, value);
    }

    method Drop(dwords: nat)
      modifies `stackPointer
      ensures stackPointer == old(stackPointer) - dwords
    {
      stackPointer := stackPointer - dwords;
    }

    method Pop(dwords: nat, bits: nat) returns (value: Option<Expr>)
      requires Valid()
      modifies `stackPointer
      ensures stackPointer == old(stackPointer) - dwords
      ensures value == if SlotOk(fn, old(stackPointer)) then Some(LoadSlot(fn, old(stackPointer), bits)) else None
    {
      value := LoadValue(stackPointer, bits);
      Drop(dwords);
    }

    method Top(bits: nat) returns (value: Option<Expr>)
      requires Valid()
      ensures value == if SlotOk(fn, stackPointer) then Some(LoadSlot(fn, stackPointer, bits)) else None
    {
      value := LoadValue(stackPointer, bits);
    }
  }

  class PreprocessContext {
    var switchOffset: int
    var handlingJumpTable: bool

    constructor ()
      ensures switchOffset == 0 && !handlingJumpTable
    {
      switchOffset := 0;
      handlingJumpTable := false;
    }

    ghost function Value(): ScanContext
      reads this
    {
      ScanContext(switchOffset, handlingJumpTable)
    }
  }

  class FunctionBuilder {
    const fn: Function
    const sigs: seq<Signature>
    const ir: IrBuilder
    const stack: StackFrame
    var jumpMap: map<int, nat>
    var switchMap: map<int, seq<nat>>
    var retPointer: Option<nat>

    constructor (fn: Function, sigs: seq<Signature>)
      requires forall i :: 0 <= i < |sigs| ==> ThisIsPointer(sigs[i])
      ensures this.fn == fn && this.sigs == sigs
      ensures Valid() && State() == InitialBuilder(fn)
      ensures fresh(ir) && fresh(stack)
    {
      this.fn := fn;
      this.sigs := sigs;
      var ir := new IrBuilder();
      this.ir := ir;
      this.stack := new StackFrame(fn, ir);
      jumpMap := map[];
      switchMap := map[];
      retPointer := None;
    }

    ghost predicate Valid()
      reads this, ir, stack
    {
      && stack.fn == fn
      && stack.ir == ir
      && stack.Valid()
      && (forall i :: 0 <= i < |sigs| ==> ThisIsPointer(sigs[i]))
      && forall offset :: offset in jumpMap ==> jumpMap[offset] < |ir.blocks|
    }

    ghost function State(): (b: Builder)
      reads this, ir, stack
    {
      Builder(ir.blocks, ir.cur, jumpMap, switchMap, stack.stackPointer, retPointer)
    }

    // ---------- first pass

    method InsertNewLabel(offset: int)
      requires Valid()
      modifies this, ir
      ensures Valid() && State() == InsertLabel(old(State()), offset)
      ensures jumpMap.Keys == old(jumpMap.Keys) + {offset}
      ensures forall o :: o in old(jumpMap) ==> jumpMap[o] == old(jumpMap)[o]
      ensures offset !in old(jumpMap) ==>
        jumpMap[offset] == old(|ir.blocks|) < |ir.blocks| && ir.blocks[jumpMap[offset]] == []
    {
      if offset in jumpMap {
        return;
      }
      var block := ir.CreateBlock();
      jumpMap := jumpMap[offset := block];
    }

    method PreprocessUnconditionalBranch(ins: Ins, offset: nat)
      requires Valid() && IsBranch(ins)
      modifies this, ir
      ensures Valid() && State() == InsertLabel(old(State()), BranchTarget(ins, offset))
    {
      InsertNewLabel(offset + 2 + ins.rel);
    }

    method PreprocessConditionalBranch(ins: Ins, offset: nat)
      requires Valid() && IsBranch(ins)
      modifies this, ir
      ensures Valid()
      ensures State() == InsertLabel(InsertLabel(old(State()), offset + 2), BranchTarget(ins, offset))
    {
      InsertNewLabel(offset + 2);
      PreprocessUnconditionalBranch(ins, offset);
    }

    /** The block of an entry is added to the table of its switch. */
    method AddSwitchTarget(switchOffset: int, offset: nat)
      requires Valid() && offset in jumpMap
      modifies this
      ensures Valid() && State() == AddTarget(old(State()), switchOffset, old(jumpMap)[offset])
    {
      if switchOffset !in switchMap {
        switchMap := switchMap[switchOffset := []];
      }
      switchMap := switchMap[switchOffset := switchMap[switchOffset] + [jumpMap[offset]]];
    }

    method PreprocessInstruction(ins: Ins, offset: nat, ctx: PreprocessContext)
      requires Valid()
      modifies this, ir, ctx
      ensures Valid()
      ensures Scan(State(), ctx.Value()) == ScanIns(Scan(old(State()), old(ctx.Value())), ins, offset)
    {
      hide ParameterStorage, InsertLabel, AddTarget;
      if ins.JmpP? {
        ctx.switchOffset := offset;
        ctx.handlingJumpTable := true;
      } else if ins.Jmp? {
        PreprocessUnconditionalBranch(ins, offset);
        if ctx.handlingJumpTable {
          InsertNewLabel(offset);
          AddSwitchTarget(ctx.switchOffset, offset);
        }
      } else if IsConditional(ins) {
        ctx.handlingJumpTable := false;
        PreprocessConditionalBranch(ins, offset);
      } else {
        ctx.handlingJumpTable := false;
      }
    }

    // ---------- second pass

    method SwitchTo(block: nat)
      requires Valid() && block < |ir.blocks|
      modifies ir
      ensures Valid() && State() == SwitchToBlock(old(State()), block)
      ensures ir.cur == block && |ir.blocks| == old(|ir.blocks|)
      // the block left behind ends in a terminator and gained one only if it had none; all others are untouched
      ensures HasTerminator(ir.blocks[old(ir.cur)])
      ensures HasTerminator(old(ir.blocks[ir.cur])) ==> ir.blocks == old(ir.blocks)
      ensures forall k :: 0 <= k < |ir.blocks| && k != old(ir.cur) ==> ir.blocks[k] == old(ir.blocks)[k]
    {
      var code := ir.blocks[ir.cur];
      if !(|code| > 0 && IsTerminator(code[|code| - 1])) {
        ir.Insert(Br(block));
      }
      ir.SetInsertPoint(block);
    }

    method EmitCheckBoolean(condition: Expr, state: Expr)
      requires Valid()
      modifies ir
      ensures Valid() && State() == EmitCheck(old(State()), condition, state)
      // one new block returns the state, the other one is empty and current
      ensures
        var n := old(|ir.blocks|);
        && |ir.blocks| == n + 2 && ir.cur == n + 1
        && ir.blocks[n] == [Return(state)] && ir.blocks[n + 1] == []
        && HasTerminator(ir.blocks[old(ir.cur)])
        && forall k :: 0 <= k < n && k != old(ir.cur) ==> ir.blocks[k] == old(ir.blocks)[k]
    {
      CheckBlocks(ir.blocks, ir.cur, CondBr(condition, |ir.blocks|, |ir.blocks| + 1), Return(state));
      var onTrue := ir.CreateBlock();
      var onFalse := ir.CreateBlock();
      ir.Insert(CondBr(condition, onTrue, onFalse));
      ir.SetInsertPoint(onTrue);
      ir.Insert(Return(state));
      ir.SetInsertPoint(onFalse);
    }

    method EmitCheckNullPointer(pointer: Expr)
      requires Valid()
      modifies ir
      ensures Valid() && State() == EmitCheck(old(State()), NullCheck(pointer), Const(8, EXCEPTION_NULL_POINTER))
    {
      EmitCheckBoolean(ICmp(EQ, pointer, Const(64, 0)), Const(8, 2));
    }

    method EmitCheckVmState()
      requires Valid()
      modifies ir
      ensures Valid() && State() == EmitCheck(old(State()), StateCheck(), CallState)
    {
      EmitCheckBoolean(ICmp(NE, CallState, Const(8, 0)), CallState);
    }

    method StoreValueRegister(value: Expr)
      requires Valid()
      modifies ir
      ensures Valid() && State() == AfterCode(old(State()), Emitted([Store(ValueRegister, value)], old(State()).sp))
    {
      ir.Insert(Store(ValueRegister, value));
    }

    /** m_stack.store of the result of an instruction. */
    method StoreResult(offset: int, value: Expr) returns (ok: bool)
      requires Valid()
      modifies ir
      ensures Valid() && ok == EmitStore(fn, offset, value, old(State()).sp).Some?
      ensures ok ==> State() == AfterCode(old(State()), EmitStore(fn, offset, value, old(State()).sp).value)
    {
      ok := stack.StoreValue(offset, value);
    }

    method PushResult(value: Expr, dwords: nat) returns (ok: bool)
      requires Valid()
      modifies ir, stack
      ensures Valid() && ok == EmitPush(fn, value, dwords, old(State()).sp).Some?
      ensures ok ==> State() == AfterCode(old(State()), EmitPush(fn, value, dwords, old(State()).sp).value)
    {
      ok := stack.Push(value, dwords);
    }

    method LoadOperand(o: Operand, bits: nat) returns (value: Option<Expr>)
      requires Valid()
      ensures value == if OperandSlotOk(fn, o) then Some(OperandExpr(fn, o, bits)) else None
    {
      match o {
        case Var(v) => value := stack.LoadValue(v, bits);
        case Imm(w) => value := Some(Const(32, w));
      }
    }

    method EmitBinOp(op: Alu, wide: bool, dst: int, lhs: int, rhs: Operand) returns (ok: bool)
      requires Valid()
      modifies ir
      ensures Valid() && ok == EmitBasic(fn, Arith(op, wide, dst, lhs, rhs), old(State()).sp).Some?
      ensures ok ==>
        State() == AfterCode(old(State()), EmitBasic(fn, Arith(op, wide, dst, lhs, rhs), old(State()).sp).value)
    {
      hide SlotOk, SlotAddr, Append, ParameterStorage;
      var bits := if wide then 64 else 32;
      var b := LoadOperand(rhs, bits);
      var a := stack.LoadValue(lhs, bits);
      if a.None? || b.None? {
        return false;
      }
      ok := StoreResult(dst, BinOp(IrOp(op), a.value, b.value));
    }

    method EmitNeg(wide: bool, v: int) returns (ok: bool)
      requires Valid()
      modifies ir
      ensures Valid() && ok == EmitBasic(fn, Neg(wide, v), old(State()).sp).Some?
      ensures ok ==> State() == AfterCode(old(State()), EmitBasic(fn, Neg(wide, v), old(State()).sp).value)
    {
      var bits := if wide then 64 else 32;
      var value := stack.LoadValue(v, bits);
      if value.None? {
        return false;
      }
      ok := StoreResult(v, BinOp(Sub, Const(bits, 0), value.value));
    }

    method EmitBitNot(wide: bool, v: int) returns (ok: bool)
      requires Valid()
      modifies ir
      ensures Valid() && ok == EmitBasic(fn, BNot(wide, v), old(State()).sp).Some?
      ensures ok ==> State() == AfterCode(old(State()), EmitBasic(fn, BNot(wide, v), old(State()).sp).value)
    {
      var bits := if wide then 64 else 32;
      var value := stack.LoadValue(v, bits);
      if value.None? {
        return false;
      }
      ok := StoreResult(v, BinOp(Xor, Const(bits, Modulus(bits) - 1), value.value));
    }

    method EmitCompare(lhs: Expr, rhs: Expr, signed: bool)
      requires Valid()
      modifies ir
      ensures Valid()
      ensures State() ==
        AfterCode(old(State()), Emitted([Store(ValueRegister, CompareExpr(lhs, rhs, signed))], old(State()).sp))
      // what is stored is -1, 0 or 1, for all values of the operands
      ensures forall mem: Memory, bits: nat, a: nat, b: nat :: OperandsAre(mem, lhs, rhs, bits, a, b) ==>
        Eval(mem, CompareExpr(lhs, rhs, signed)) ==
          Some(Wrap(if signed then Compare(Signed(a, bits), Signed(b, bits)) else Compare(a, b), 32))
    {
      forall mem: Memory, bits: nat, a: nat, b: nat | OperandsAre(mem, lhs, rhs, bits, a, b)
        ensures Eval(mem, CompareExpr(lhs, rhs, signed)) ==
          Some(Wrap(if signed then Compare(Signed(a, bits), Signed(b, bits)) else Compare(a, b), 32))
      {
        Operations.CompareAgrees(mem, lhs, rhs, signed, bits, a, b);
      }
      var lowerThan := ICmp(if signed then SLT else ULT, lhs, rhs);
      var greaterThan := ICmp(if signed then SGT else UGT, lhs, rhs);
      var lowerOrEqual := Select(lowerThan, Const(32, 0xFFFF_FFFF), Const(32, 0));
      StoreValueRegister(Select(greaterThan, Const(32, 1), lowerOrEqual));
    }

    method EmitCondition(c: Condition)
      requires Valid()
      modifies ir
      ensures Valid() && State() == AfterCode(old(State()), EmitBasic(fn, Test(c), old(State()).sp).value)
    {
      var result := ICmp(IrPredicate(c), Load(ValueRegister, 32), Const(32, 0));
      StoreValueRegister(ZExt(result, 64));
    }

    /** IncVi and DecVi */
    method EmitIncrement(op: Binary, v: int) returns (ok: bool)
      requires Valid() && (op == Add || op == Sub)
      modifies ir
      ensures Valid()
      ensures
        var ins := if op == Add then IncVi(v) else DecVi(v);
        && ok == EmitBasic(fn, ins, old(State()).sp).Some?
        && (ok ==> State() == AfterCode(old(State()), EmitBasic(fn, ins, old(State()).sp).value))
    {
      var value := stack.LoadValue(v, 32);
      if value.None? {
        return false;
      }
      ok := StoreResult(v, BinOp(op, value.value, Const(32, 1)));
    }

    /** emit_cast: only casts that change between 32 and 64 bits have a source of their own. */
    method EmitCast(ins: Ins) returns (ok: bool)
      requires Valid() && (ins.Extend? || ins.Narrow? || ins.Widen?)
      modifies ir
      ensures Valid() && ok == EmitBasic(fn, ins, old(State()).sp).Some?
      ensures ok ==> State() == AfterCode(old(State()), EmitBasic(fn, ins, old(State()).sp).value)
    {
      var source := if ins.Extend? then ins.v else ins.src;
      var sourceBits := if ins.Extend? then ins.bits else if ins.Narrow? then 64 else 32;
      var value := stack.LoadValue(source, sourceBits);
      if value.None? {
        return false;
      }
      match ins {
        case Extend(signed, _, v) =>
          ok := StoreResult(v, if signed then SExt(value.value, 32) else ZExt(value.value, 32));
        case Narrow(dst, _) => ok := StoreResult(dst, Trunc(value.value, 32));
        case Widen(signed, dst, _) =>
          ok := StoreResult(dst, if signed then SExt(value.value, 64) else ZExt(value.value, 64));
      }
    }

    predicate IsStackIns(ins: Ins) {
      ins.PopPtr? || ins.PopRPtr? || ins.PshRPtr? || ins.PshC? || ins.PshV? || ins.PshG4?
    }

    method TranslateStackIns(ins: Ins) returns (ok: bool)
      requires Valid() && IsStackIns(ins)
      modifies ir, stack
      ensures Valid() && ok == EmitBasic(fn, ins, old(State()).sp).Some?
      ensures ok ==> State() == AfterCode(old(State()), EmitBasic(fn, ins, old(State()).sp).value)
    {
      ok := true;
      match ins {
        case PopPtr =>
          CodeInTwoParts(ir.blocks, ir.cur, [], []);
          stack.Drop(2);
        case PopRPtr =>
          var value := stack.Pop(2, 64);
          if value.None? {
            return false;
          }
          StoreValueRegister(value.value);
        case PshRPtr => ok := PushResult(Load(ValueRegister, 64), 2);
        case PshC(wide, q) => ok := PushResult(Const(if wide then 64 else 32, q), if wide then 2 else 1);
        case PshV(wide, v) =>
          var value := stack.LoadValue(v, if wide then 64 else 32);
          if value.None? {
            return false;
          }
          ok := PushResult(value.value, if wide then 2 else 1);
        case PshG4(address) => ok := PushResult(Load(GlobalVar(address), 32), 1);
      }
    }

    predicate IsCopyIns(ins: Ins) {
      ins.SetG4? || ins.CpyVtoG4? || ins.CpyGtoV4? || ins.SetV? || ins.CpyVtoV? || ins.CpyVtoR? || ins.CpyRtoV?
    }

    method TranslateCopyIns(ins: Ins) returns (ok: bool)
      requires Valid() && IsCopyIns(ins)
      modifies ir
      ensures Valid() && ok == EmitBasic(fn, ins, old(State()).sp).Some?
      ensures ok ==> State() == AfterCode(old(State()), EmitBasic(fn, ins, old(State()).sp).value)
    {
      ok := true;
      match ins {
        case SetG4(address, w) => ir.Insert(Store(GlobalVar(address), Const(32, w)));
        case CpyVtoG4(v, address) =>
          var value := stack.LoadValue(v, 32);
          if value.None? {
            return false;
          }
          ir.Insert(Store(GlobalVar(address), value.value));
        case CpyGtoV4(v, address) => ok := StoreResult(v, Load(GlobalVar(address), 32));
        case SetV(wide, v, q) => ok := StoreResult(v, Const(if wide then 64 else 32, q));
        case CpyVtoV(wide, dst, src) =>
          var value := stack.LoadValue(src, if wide then 64 else 32);
          if value.None? {
            return false;
          }
          ok := StoreResult(dst, value.value);
        case CpyVtoR(wide, v) =>
          var value := stack.LoadValue(v, if wide then 64 else 32);
          if value.None? {
            return false;
          }
          StoreValueRegister(value.value);
        case CpyRtoV(wide, v) => ok := StoreResult(v, Load(ValueRegister, if wide then 64 else 32));
      }
    }

    method TranslateBasic(ins: Ins) returns (ok: bool)
      requires Valid() && IsBasic(ins)
      modifies ir, stack
      ensures Valid() && ok == EmitBasic(fn, ins, old(State()).sp).Some?
      ensures ok ==> State() == AfterCode(old(State()), EmitBasic(fn, ins, old(State()).sp).value)
    {
      ok := true;
      if IsStackIns(ins) {
        ok := TranslateStackIns(ins);
      } else if IsCopyIns(ins) {
        ok := TranslateCopyIns(ins);
      } else {
        match ins {
          case IncVi(v) => ok := EmitIncrement(Add, v);
          case DecVi(v) => ok := EmitIncrement(Sub, v);
          case Neg(wide, v) => ok := EmitNeg(wide, v);
          case BNot(wide, v) => ok := EmitBitNot(wide, v);
          case Arith(op, wide, dst, lhs, rhs) => ok := EmitBinOp(op, wide, dst, lhs, rhs);
          case Cmp(signed, wide, lhs, rhs) =>
            var a := stack.LoadValue(lhs, if wide then 64 else 32);
            var b := LoadOperand(rhs, if wide then 64 else 32);
            if a.None? || b.None? {
              return false;
            }
            EmitCompare(a.value, b.value, signed);
          case Test(c) => EmitCondition(c);
          case ClrHi => StoreValueRegister(ZExt(Load(ValueRegister, 8), 32));
          case Extend(_, _, _) => ok := EmitCast(ins);
          case Narrow(_, _) => ok := EmitCast(ins);
          case Widen(_, _, _) => ok := EmitCast(ins);
          case Suspend => CodeInTwoParts(ir.blocks, ir.cur, [], []);
          case JitEntry => CodeInTwoParts(ir.blocks, ir.cur, [], []);
        }
      }
    }

    /** The first n stack values of a call starting at stack pointer sp all have a slot. */
    ghost predicate SlotsUpTo(types: seq<DataType>, sp: int, n: nat)
      requires n <= |types|
    {
      forall k :: 0 <= k < n ==> SlotOk(fn, sp - ReadBefore(types, k))
    }

    lemma {:induction false} SlotsOfArguments(lead: seq<Argument>, types: seq<DataType>, sp: int)
      requires forall i :: 0 <= i < |lead| ==> lead[i].ResultRegister?
      ensures ArgumentSlotsOk(fn, ArgumentsUpTo(lead, types, |types|), sp) == SlotsUpTo(types, sp, |types|)
    {
      hide SlotOk, ReadBefore, ArgumentsUpTo;
      var args := ArgumentsUpTo(lead, types, |types|);
      if SlotsUpTo(types, sp, |types|) {
        forall i | 0 <= i < |args| && args[i].StackRead?
          ensures SlotOk(fn, sp - args[i].r)
        {
          ArgumentAt(lead, types, |types|, i);
        }
      }
      if ArgumentSlotsOk(fn, args, sp) {
        forall k | 0 <= k < |types|
          ensures SlotOk(fn, sp - ReadBefore(types, k))
        {
          ArgumentAt(lead, types, |types|, |lead| + k);
          var i := |lead| + k;
          assert args[i].StackRead?;
        }
      }
    }

    lemma {:induction false} NextArgument(lead: seq<Argument>, types: seq<DataType>, sp: int, n: nat)
      requires n < |types|
      ensures ArgumentExprs(fn, ArgumentsUpTo(lead, types, n + 1), sp) ==
        ArgumentExprs(fn, ArgumentsUpTo(lead, types, n), sp)
        + [ValueArg(LoadSlot(fn, sp - ReadBefore(types, n), BitsOf(types[n].llvm)))]
    {
      var args := ArgumentsUpTo(lead, types, n + 1);
      assert args[..|args| - 1] == ArgumentsUpTo(lead, types, n);
    }

    /** The argument vector when n of the stack values have been popped from stack pointer sp on. */
    ghost predicate ArgumentsRead(args: seq<ArgExpr>, lead: seq<Argument>, types: seq<DataType>, sp: int, n: nat)
      reads stack
    {
      && n <= |types|
      && stack.stackPointer == sp - ReadBefore(types, n)
      && SlotsUpTo(types, sp, n)
      && args == ArgumentExprs(fn, ArgumentsUpTo(lead, types, n), sp)
    }

    method PopArgument(
      args: seq<ArgExpr>, dataType: DataType, ghost lead: seq<Argument>, ghost types: seq<DataType>, ghost sp: int,
      ghost n: nat) returns (args': Option<seq<ArgExpr>>)
      requires Valid() && ArgumentsRead(args, lead, types, sp, n) && n < |types| && types[n] == dataType
      modifies stack
      ensures Valid() && State() == old(State()).(sp := sp - ReadBefore(types, n + 1))
      ensures args'.None? ==> !SlotsUpTo(types, sp, |types|)
      ensures args'.Some? ==> ArgumentsRead(args'.value, lead, types, sp, n + 1)
      ensures args'.Some? ==>
        args'.value == args + [ValueArg(LoadSlot(fn, sp - ReadBefore(types, n), BitsOf(dataType.llvm)))]
    {
      hide SlotOk, ArgumentExprs, ArgumentsUpTo;
      var value := stack.Pop(dataType.dwords, BitsOf(dataType.llvm));
      if value.None? {
        assert !SlotOk(fn, sp - ReadBefore(types, n));
        return None;
      }
      NextArgument(lead, types, sp, n);
      return Some(args + [ValueArg(value.value)]);
    }

    method PopReturnPointer(sig: Signature) returns (args: Option<seq<ArgExpr>>, ghost n: nat)
      requires Valid()
      modifies stack
      ensures n == if sig.returnType.Some? && sig.returnsOnStack then 1 else 0
      ensures Valid()
      ensures args.None? ==> !SlotsUpTo(StackTypes(sig), old(State()).sp, |StackTypes(sig)|)
      ensures args.Some? ==>
        ArgumentsRead(args.value, LeadArguments(sig), StackTypes(sig), old(State()).sp, n)
      ensures State() == old(State()).(sp := old(State()).sp - ReadBefore(StackTypes(sig), n))
    {
      ghost var types, lead, sp := StackTypes(sig), LeadArguments(sig), stack.stackPointer;
      n := 0;
      args := Some([]);
      if sig.returnType.Some? {
        if sig.returnsOnStack {
          args := PopArgument([], sig.returnType.value, lead, types, sp, 0);
          n := 1;
        } else {
          args := Some([RegisterArg]);
        }
      }
    }

    method PopParameters(sig: Signature, first: seq<ArgExpr>, ghost sp: int, ghost n: nat)
      returns (args: Option<seq<ArgExpr>>)
      requires Valid() && ArgumentsRead(first, LeadArguments(sig), StackTypes(sig), sp, n)
      requires n + |sig.parameterTypes| == |StackTypes(sig)|
      modifies stack
      ensures Valid()
      ensures args.None? ==> !SlotsUpTo(StackTypes(sig), sp, |StackTypes(sig)|)
      ensures args.Some? ==> ArgumentsRead(args.value, LeadArguments(sig), StackTypes(sig), sp, |StackTypes(sig)|)
      ensures args.Some? ==> State() == old(State()).(sp := sp - Dwords(StackTypes(sig)))
    {
      hide ArgumentsRead, SlotsUpTo, LeadArguments;
      ghost var types, b := StackTypes(sig), State();
      args := Some(first);
      for i := 0 to |sig.parameterTypes|
        invariant Valid() && args.Some? && State() == b.(sp := stack.stackPointer)
        invariant i == |sig.parameterTypes| ==> n + i == |types|
        invariant ArgumentsRead(args.value, LeadArguments(sig), types, sp, n + i)
      {
        args := PopArgument(args.value, sig.parameterTypes[i], LeadArguments(sig), types, sp, n + i);
        if args.None? {
          return;
        }
      }
      ReadAll(args.value, LeadArguments(sig), types, sp);
    }

    lemma {:induction false} ReadAll(args: seq<ArgExpr>, lead: seq<Argument>, types: seq<DataType>, sp: int)
      requires ArgumentsRead(args, lead, types, sp, |types|)
      ensures stack.stackPointer == sp - Dwords(types) && SlotsUpTo(types, sp, |types|)
      ensures args == ArgumentExprs(fn, ArgumentsUpTo(lead, types, |types|), sp)
    {
    }

    method PopObject(sig: Signature, first: seq<ArgExpr>, ghost sp: int, ghost n: nat)
      returns (args: Option<seq<ArgExpr>>)
      requires Valid() && ThisIsPointer(sig) && sig.objectType.Some?
      requires n < |StackTypes(sig)| && StackTypes(sig)[n] == sig.objectType.value
      requires ArgumentsRead(first, LeadArguments(sig), StackTypes(sig), sp, n)
      modifies ir, stack
      ensures Valid()
      ensures args.None? ==> !SlotsUpTo(StackTypes(sig), sp, |StackTypes(sig)|)
      ensures args.Some? ==> ArgumentsRead(args.value, LeadArguments(sig), StackTypes(sig), sp, n + 1)
      ensures args.Some? ==>
        State() == EmitCheck(
          old(State()).(sp := sp - ReadBefore(StackTypes(sig), n + 1)),
          NullCheck(LoadSlot(fn, sp - ReadBefore(StackTypes(sig), n), 64)), Const(8, EXCEPTION_NULL_POINTER))
    {
      hide EmitCheck, SlotsUpTo, StackTypes, LeadArguments;
      args := PopArgument(first, sig.objectType.value, LeadArguments(sig), StackTypes(sig), sp, n);
      if args.Some? {
        EmitCheckNullPointer(args.value[|args.value| - 1].e);
      }
    }

    lemma {:induction false} CallSlots(sig: Signature, sp: int)
      ensures ArgumentSlotsOk(fn, CallArguments(sig), sp) == SlotsUpTo(StackTypes(sig), sp, |StackTypes(sig)|)
    {
      hide ArgumentSlotsOk, SlotsUpTo, StackTypes;
      SlotsOfArguments(LeadArguments(sig), StackTypes(sig), sp);
    }

    /** The builder once the object of the call, if any, has been checked. */
    ghost function ObjectChecked(b: Builder, sig: Signature): (b': Builder)
      requires b.cur < |b.blocks|
      ensures b'.cur < |b'.blocks| && b'.sp == b.sp
    {
      if sig.objectType.Some?
      then EmitCheck(b, NullCheck(LoadSlot(fn, b.sp - ObjectPosition(sig), 64)), Const(8, EXCEPTION_NULL_POINTER))
      else b
    }

    /** Values popped before the parameters: the return pointer and the object. */
    function LeadValues(sig: Signature): nat {
      (if sig.returnType.Some? && sig.returnsOnStack then 1 else 0) + (if sig.objectType.Some? then 1 else 0)
    }

    lemma {:induction false} ObjectRead(sig: Signature)
      ensures sig.returnType.Some? && sig.returnsOnStack ==> ReadBefore(StackTypes(sig), 1) == ObjectPosition(sig)
      ensures LeadValues(sig) + |sig.parameterTypes| == |StackTypes(sig)|
    {
    }

    method PopLead(sig: Signature) returns (args: Option<seq<ArgExpr>>)
      requires Valid() && ThisIsPointer(sig)
      modifies ir, stack
      ensures Valid()
      ensures args.None? ==> !SlotsUpTo(StackTypes(sig), old(State()).sp, |StackTypes(sig)|)
      ensures LeadValues(sig) <= |StackTypes(sig)|
      ensures args.Some? ==>
        ArgumentsRead(args.value, LeadArguments(sig), StackTypes(sig), old(State()).sp, LeadValues(sig))
      ensures args.Some? ==>
        State() ==
          ObjectChecked(old(State()), sig).(sp := old(State()).sp - ReadBefore(StackTypes(sig), LeadValues(sig)))
    {
      hide ArgumentsRead, SlotsUpTo, LeadArguments;
      ghost var sp := stack.stackPointer;
      ghost var n;
      args, n := PopReturnPointer(sig);
      if args.Some? && sig.objectType.Some? {
        ObjectRead(sig);
        args := PopObject(sig, args.value, sp, n);
      }
    }

    /** The call and the check of the state it returned complete emit_script_call. */
    lemma {:induction false} CallCompleted(b: Builder, callee: nat, sig: Signature, args: seq<ArgExpr>, called: Builder)
      requires b.cur < |b.blocks|
      requires SlotsUpTo(StackTypes(sig), b.sp, |StackTypes(sig)|)
      requires args == ArgumentExprs(fn, CallArguments(sig), b.sp)
      requires called == ObjectChecked(b, sig).(sp := b.sp - Dwords(StackTypes(sig)))
      ensures EmitCall(fn, b, callee, sig) ==
        Some(EmitCheck(Append(called, [CallFunction(callee, args)]), StateCheck(), CallState))
    {
      hide SlotsUpTo, ArgumentSlotsOk, CallArguments, ArgumentExprs, StackTypes, Dwords;
      CallSlots(sig, b.sp);
    }

    /** emit_script_call */
    method EmitScriptCall(callee: nat, sig: Signature) returns (ok: bool)
      requires Valid() && ThisIsPointer(sig)
      modifies ir, stack
      ensures Valid() && ok == EmitCall(fn, old(State()), callee, sig).Some?
      ensures ok ==> State() == EmitCall(fn, old(State()), callee, sig).value
    {
      hide ArgumentsRead, SlotsUpTo, LeadArguments, ArgumentExprs, ArgumentsUpTo, ArgumentSlotsOk, SlotOk, EmitCheck,
        StackTypes, ReadBefore, ObjectChecked, CallArguments;
      ghost var b := State();
      CallSlots(sig, b.sp);
      ObjectRead(sig);
      var args := PopLead(sig);
      if args.None? {
        return false;
      }
      args := PopParameters(sig, args.value, b.sp, LeadValues(sig));
      if args.None? {
        return false;
      }
      AllRead(sig, args.value, b.sp);
      CallCompleted(b, callee, sig, args.value, State());
      ir.Insert(CallFunction(callee, args.value));
      EmitCheckVmState();
      return true;
    }

    lemma {:induction false} AllRead(sig: Signature, args: seq<ArgExpr>, sp: int)
      requires ArgumentsRead(args, LeadArguments(sig), StackTypes(sig), sp, |StackTypes(sig)|)
      ensures SlotsUpTo(StackTypes(sig), sp, |StackTypes(sig)|)
      ensures args == ArgumentExprs(fn, CallArguments(sig), sp)
    {
      hide StackTypes, LeadArguments;
      ReadAll(args, LeadArguments(sig), StackTypes(sig), sp);
    }

    method EmitReturn(offset: nat)
      requires Valid()
      modifies this, ir
      ensures Valid() && State() == Append(old(State()), ReturnCode(fn)).(retPointer := Some(offset))
    {
      if fn.sig.returnType.Some? && !fn.sig.returnsOnStack {
        CodeInTwoParts(
          ir.blocks, ir.cur, [Store(ReturnPointer, Load(ValueRegister, BitsOf(fn.sig.returnType.value.llvm)))],
          [Return(Const(8, OK))]);
        ir.Insert(Store(ReturnPointer, Load(ValueRegister, BitsOf(fn.sig.returnType.value.llvm))));
      }
      assert ReturnCode(fn) == [Return(Const(8, OK))] || |ReturnCode(fn)| == 2;
      ir.Insert(Return(Const(8, OK)));
      retPointer := Some(offset);
    }

    method EmitBranch(ins: Ins, offset: nat) returns (ok: bool)
      requires Valid() && ins.Jmp?
      modifies ir
      ensures Valid() && ok == EmitControl(fn, sigs, old(State()), ins, offset).Some?
      ensures ok ==> State() == EmitControl(fn, sigs, old(State()), ins, offset).value
    {
      if offset + 2 + ins.rel !in jumpMap {
        return false;
      }
      ir.Insert(Br(jumpMap[offset + 2 + ins.rel]));
      return true;
    }

    method EmitConditionalBranch(ins: Ins, offset: nat, condition: Expr) returns (ok: bool)
      requires Valid() && IsBranch(ins)
      modifies ir
      ensures Valid() && ok == (offset + 2 + ins.rel in jumpMap && offset + 2 in jumpMap)
      ensures ok ==>
        State() == Append(old(State()), [CondBr(condition, jumpMap[offset + 2 + ins.rel], jumpMap[offset + 2])])
    {
      if offset + 2 + ins.rel !in jumpMap || offset + 2 !in jumpMap {
        return false;
      }
      ir.Insert(CondBr(condition, jumpMap[offset + 2 + ins.rel], jumpMap[offset + 2]));
      return true;
    }

    method EmitSwitch(v: int, offset: nat) returns (ok: bool)
      requires Valid()
      modifies ir
      ensures Valid() && ok == EmitControl(fn, sigs, old(State()), JmpP(v), offset).Some?
      ensures ok ==> State() == EmitControl(fn, sigs, old(State()), JmpP(v), offset).value
      ensures ok <==> offset in switchMap && switchMap[offset] != [] && SlotOk(fn, v)
      ensures ok ==>
        var targets := switchMap[offset];
        ir.blocks ==
          WithCode(old(ir.blocks), ir.cur, [Switch(LoadSlot(fn, v, 32), targets[|targets| - 1], targets)])
    {
      if offset !in switchMap || switchMap[offset] == [] {
        return false;
      }
      var targets := switchMap[offset];
      var value := stack.LoadValue(v, 32);
      if value.None? {
        return false;
      }
      var cases: seq<nat> := [];
      for i := 0 to |targets|
        invariant cases == targets[..i]
      {
        cases := cases + [targets[i]];
      }
      assert cases == targets;
      ir.Insert(Switch(value.value, targets[|targets| - 1], cases));
      return true;
    }

    method EmitPointerCheck(ins: Ins) returns (ok: bool)
      requires Valid() && (ins.ChkNullV? || ins.ChkRef?)
      modifies ir
      ensures Valid() && ok == EmitControl(fn, sigs, old(State()), ins, 0).Some?
      ensures ok ==> State() == EmitControl(fn, sigs, old(State()), ins, 0).value
    {
      hide EmitCheck;
      var value;
      if ins.ChkNullV? {
        value := stack.LoadValue(ins.v, 64);
      } else {
        value := stack.Top(64);
      }
      if value.None? {
        return false;
      }
      EmitCheckNullPointer(value.value);
      return true;
    }

    predicate IsJump(ins: Ins) {
      IsBranch(ins) || ins.JmpP?
    }

    method TranslateJump(ins: Ins, offset: nat) returns (ok: bool)
      requires Valid() && IsJump(ins)
      modifies ir
      ensures Valid() && ok == EmitControl(fn, sigs, old(State()), ins, offset).Some?
      ensures ok ==> State() == EmitControl(fn, sigs, old(State()), ins, offset).value
    {
      hide EmitBasic, EmitCall, EmitCheck, ReturnCode, ParameterStorage, SlotOk, Append, SlotAddr;
      match ins {
        case Jmp(_) => ok := EmitBranch(ins, offset);
        case JCond(c, _) =>
          ok := EmitConditionalBranch(ins, offset, ICmp(IrPredicate(c), Load(ValueRegister, 32), Const(32, 0)));
        case JLow(zero, _) =>
          ok := EmitConditionalBranch(ins, offset, ICmp(if zero then EQ else NE, Load(ValueRegister, 8), Const(8, 0)));
        case JmpP(v) => ok := EmitSwitch(v, offset);
      }
    }

    method TranslateControl(ins: Ins, offset: nat) returns (ok: bool)
      requires Valid() && !IsBasic(ins)
      modifies this, ir, stack
      ensures Valid() && ok == EmitControl(fn, sigs, old(State()), ins, offset).Some?
      ensures ok ==> State() == EmitControl(fn, sigs, old(State()), ins, offset).value
    {
      hide EmitBasic, EmitCall, EmitCheck, ReturnCode, ParameterStorage, SlotOk, Append, SlotAddr, ConditionExpr,
        LowConditionExpr, LoadSlot;
      if IsJump(ins) {
        ok := TranslateJump(ins, offset);
        return;
      }
      ok := true;
      match ins {
        case ChkNullV(_) => ok := EmitPointerCheck(ins);
        case ChkRef => ok := EmitPointerCheck(ins);
        case Ret => EmitReturn(offset);
        case Call(callee) =>
          if callee >= |sigs| {
            return false;
          }
          ok := EmitScriptCall(callee, sigs[callee]);
      }
    }

    method EnterBlock(offset: nat) returns (ok: bool)
      requires Valid()
      modifies ir
      ensures Valid() && ok == EnterLabel(fn, old(State()), offset).Some?
      ensures ok ==> State() == EnterLabel(fn, old(State()), offset).value
    {
      if offset in jumpMap {
        if stack.stackPointer != fn.variableSpace {
          return false;
        }
        SwitchTo(jumpMap[offset]);
      }
      return true;
    }

    method EmitInstruction(ins: Ins, offset: nat) returns (ok: bool)
      requires Valid()
      modifies this, ir, stack
      ensures Valid() && ok == Emit(fn, sigs, old(State()), ins, offset).Some?
      ensures ok ==> State() == Emit(fn, sigs, old(State()), ins, offset).value
    {
      hide EmitBasic, EmitControl, Append, ParameterStorage;
      if IsBasic(ins) {
        ok := TranslateBasic(ins);
      } else {
        ok := TranslateControl(ins, offset);
      }
    }

    method TranslateInstruction(ins: Ins, offset: nat) returns (ok: bool)
      requires Valid()
      modifies this, ir, stack
      ensures Valid() && ok == TranslateIns(fn, sigs, old(State()), ins, offset).Some?
      ensures ok ==> State() == TranslateIns(fn, sigs, old(State()), ins, offset).value
      // it succeeds exactly where the instruction can be translated, and the depth moves as the instruction says
      ensures ok <==> Admits(fn, sigs, old(State()), ins, offset)
      ensures ok ==> stack.stackPointer == old(stack.stackPointer) + Delta(ins, sigs)
    {
      hide Emit, EnterLabel, ParameterStorage, Admits, Delta;
      InstructionAdmitted(fn, sigs, State(), ins, offset);
      ok := EnterBlock(offset);
      if !ok || !(fn.variableSpace <= stack.stackPointer <= TotalSpace(fn)) {
        return false;
      }
      ok := EmitInstruction(ins, offset);
    }

    /** The first walk over the code. */
    method Preprocess()
      requires Valid() && State() == InitialBuilder(fn)
      modifies this, ir
      ensures Valid() && State() == Labels(fn)
    {
      hide ScanIns, ParameterStorage;
      var ctx := new PreprocessContext();
      var offset: nat := 0;
      for i := 0 to |fn.code|
        invariant Valid() && offset == Off(fn.code, i)
        invariant Scan(State(), ctx.Value()) == ScanTo(fn, i)
      {
        PreprocessInstruction(fn.code[i], offset, ctx);
        offset := offset + Size(fn.code[i]);
      }
    }

    /** translate_bytecode: two walks over the code and the final check. The function it returns is the one the
        simulation is about. */
    method TranslateBytecode() returns (target: Option<Target>)
      requires Valid() && State() == InitialBuilder(fn)
      modifies this, ir, stack
      ensures target == Translate(fn, sigs)
      ensures target.Some? <==> Accepted(fn, sigs)
      // every block of the function, reachable or not, has exactly one terminator, placed last
      ensures target.Some? && WellFormed(fn, |sigs|) ==>
        forall k :: 0 <= k < |target.value.blocks| ==> Closed(target.value.blocks[k])
    {
      hide TranslateIns, Labels, ScanTo, Accepted, Admits, WellFormed;
      TranslatesExactly(fn, sigs);
      Preprocess();
      var offset: nat := 0;
      for i := 0 to |fn.code|
        invariant Valid() && offset == Off(fn.code, i)
        invariant StateAt(fn, sigs, i) == Some(State())
      {
        var ok := TranslateInstruction(fn.code[i], offset);
        if !ok {
          FailureStays(i + 1);
          return None;
        }
        offset := offset + Size(fn.code[i]);
      }
      if stack.stackPointer != fn.variableSpace {
        return None;
      }
      assert Translate(fn, sigs).Some?;
      BlocksClosed();
      return Some(Target(ir.blocks, TotalSpace(fn), fn.variableSpace, stack.parameters, fn.sig));
    }

    lemma {:induction false} BlocksClosed()
      requires Translate(fn, sigs).Some?
      ensures WellFormed(fn, |sigs|) ==>
        forall k :: 0 <= k < |Translate(fn, sigs).value.blocks| ==> Closed(Translate(fn, sigs).value.blocks[k])
    {
      hide WellFormed, Translate;
      if WellFormed(fn, |sigs|) {
        BlockPassRun.BlocksWellFormed(fn, |sigs|, sigs);
      }
    }

    /** A failed assertion ends the second pass for good. */
    lemma {:induction false} FailureStays(i: nat)
      requires i <= |fn.code| && StateAt(fn, sigs, i).None?
      ensures StateAt(fn, sigs, |fn.code|).None?
      decreases |fn.code| - i
    {
      if i < |fn.code| {
        FailureStays(i + 1);
      }
    }
  }
}
