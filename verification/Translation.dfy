/** What the two passes of the translator compute, as functions on the builder's state. The first pass creates a block
    per label and collects jump tables; the second emits code while tracking the operand stack at compile time. */
module Translation {
  import opened Words
  import opened Signatures
  import opened Bytecode
  import opened Machine
  import opened Blocks
  import opened Frames

  /** `cur` is the insertion point; `sp` the compile-time stack pointer; `retPointer` the offset of the last RET. */
  datatype Builder = Builder(
    blocks: seq<seq<Instr>>, cur: nat, jumpMap: map<int, nat>, switchMap: map<int, seq<nat>>, sp: int,
    retPointer: Option<nat>)

  datatype ScanContext = ScanContext(switchOffset: int, handlingJumpTable: bool)

  datatype Scan = Scan(b: Builder, ctx: ScanContext)

  // ---------- first pass

  function InsertLabel(b: Builder, offset: int): Builder {
    if offset in b.jumpMap then b
    else b.(jumpMap := b.jumpMap[offset := |b.blocks|], blocks := b.blocks + [[]])
  }

  function AddTarget(b: Builder, switchOffset: int, block: nat): Builder {
    var targets := if switchOffset in b.switchMap then b.switchMap[switchOffset] else [];
    b.(switchMap := b.switchMap[switchOffset := targets + [block]])
  }

  /** A JMP straight after a JMPP, or after another table JMP, is an entry of the jump table. */
  function ScanJmp(s: Scan, ins: Ins, offset: nat): Scan
    requires ins.Jmp?
  {
    var b := InsertLabel(s.b, BranchTarget(ins, offset));
    if s.ctx.handlingJumpTable then
      var b' := InsertLabel(b, offset);
      Scan(AddTarget(b', s.ctx.switchOffset, b'.jumpMap[offset]), s.ctx)
    else Scan(b, s.ctx)
  }

  function ScanIns(s: Scan, ins: Ins, offset: nat): Scan {
    if ins.JmpP? then Scan(s.b, ScanContext(offset, true))
    else if ins.Jmp? then ScanJmp(s, ins, offset)
    else if IsConditional(ins) then
      Scan(InsertLabel(InsertLabel(s.b, offset + 2), BranchTarget(ins, offset)), s.ctx.(handlingJumpTable := false))
    else s.(ctx := s.ctx.(handlingJumpTable := false))
  }

  function InitialBuilder(fn: Function): Builder {
    Builder([[]], 0, map[], map[], fn.variableSpace, None)
  }

  /** The first pass after i instructions. */
  function ScanTo(fn: Function, i: nat): Scan
    requires i <= |fn.code|
  {
    if i == 0 then Scan(InitialBuilder(fn), ScanContext(0, false))
    else ScanIns(ScanTo(fn, i - 1), fn.code[i - 1], Off(fn.code, i - 1))
  }

  function Labels(fn: Function): Builder {
    ScanTo(fn, |fn.code|).b
  }

  // ---------- second pass

  /** pointer_to accepts parameters that exist and offsets within the frame. */
  predicate SlotOk(fn: Function, o: int) {
    if o <= 0 then o in ParameterStorage(fn.sig) else o <= TotalSpace(fn)
  }

  function HasTerminator(code: seq<Instr>): bool {
    |code| > 0 && IsTerminator(code[|code| - 1])
  }

  function Append(b: Builder, code: seq<Instr>): Builder
    requires b.cur < |b.blocks|
  {
    b.(blocks := b.blocks[b.cur := b.blocks[b.cur] + code])
  }

  function SwitchToBlock(b: Builder, block: nat): Builder
    requires b.cur < |b.blocks|
  {
    (if HasTerminator(b.blocks[b.cur]) then b else Append(b, [Br(block)])).(cur := block)
  }

  /** Labels are entered with an empty operand stack only. */
  function EnterLabel(fn: Function, b: Builder, offset: int): Option<Builder>
    requires b.cur < |b.blocks|
  {
    if offset !in b.jumpMap then Some(b)
    else if b.sp != fn.variableSpace then None
    else Some(SwitchToBlock(b, b.jumpMap[offset]))
  }

  /** Straight-line code for one instruction and the stack pointer after it. */
  datatype Emitted = Emitted(code: seq<Instr>, sp: int)

  function EmitStore(fn: Function, o: int, e: Expr, sp: int): Option<Emitted> {
    if SlotOk(fn, o) then Some(Emitted([Store(SlotAddr(fn, o), e)], sp)) else None
  }

  function EmitPush(fn: Function, e: Expr, d: nat, sp: int): Option<Emitted> {
    EmitStore(fn, sp + d, e, sp + d)
  }

  function EmitRegister(e: Expr, sp: int): Option<Emitted> {
    Some(Emitted([Store(ValueRegister, e)], sp))
  }

  function LoadSlot(fn: Function, o: int, bits: nat): Expr {
    Load(SlotAddr(fn, o), bits)
  }

  function IrOp(op: Alu): Binary {
    match op
    case ADD => Add
    case SUB => Sub
    case MUL => Mul
    case DIV => SDiv
    case MOD => SRem
    case DIVU => UDiv
    case MODU => URem
    case BAND => And
    case BOR => Or
    case BXOR => Xor
    case BSLL => Shl
    case BSRL => LShr
    case BSRA => AShr
  }

  function IrPredicate(c: Condition): Predicate {
    match c
    case Zero => EQ
    case NotZero => NE
    case Negative => SLT
    case NotNegative => SGE
    case Positive => SGT
    case NotPositive => SLE
  }

  function AllOnes(bits: nat): nat {
    Modulus(bits) - 1
  }

  function CompareExpr(lhs: Expr, rhs: Expr, signed: bool): Expr {
    Select(
      ICmp(if signed then SGT else UGT, lhs, rhs), Const(32, 1),
      Select(ICmp(if signed then SLT else ULT, lhs, rhs), Const(32, AllOnes(32)), Const(32, 0)))
  }

  function OperandExpr(fn: Function, o: Operand, bits: nat): Expr {
    if o.Var? then LoadSlot(fn, o.v, bits) else Const(32, o.w)
  }

  predicate OperandSlotOk(fn: Function, o: Operand) {
    o.Var? ==> SlotOk(fn, o.v)
  }

  function ConditionExpr(c: Condition): Expr {
    ICmp(IrPredicate(c), Load(ValueRegister, 32), Const(32, 0))
  }

  function LowConditionExpr(zero: bool): Expr {
    ICmp(if zero then EQ else NE, Load(ValueRegister, 8), Const(8, 0))
  }

  function EmitBasic(fn: Function, ins: Ins, sp: int): Option<Emitted> {
    match ins
    case PopPtr => Some(Emitted([], sp - 2))
    case PopRPtr => if SlotOk(fn, sp) then EmitRegister(LoadSlot(fn, sp, 64), sp - 2) else None
    case PshRPtr => EmitPush(fn, Load(ValueRegister, 64), 2, sp)
    case PshC(wide, q) => EmitPush(fn, Const(32 * Width(wide), q), Width(wide), sp)
    case PshV(wide, v) =>
      if SlotOk(fn, v) then EmitPush(fn, LoadSlot(fn, v, 32 * Width(wide)), Width(wide), sp) else None
    case PshG4(address) => EmitPush(fn, Load(GlobalVar(address), 32), 1, sp)
    case SetG4(address, w) => Some(Emitted([Store(GlobalVar(address), Const(32, w))], sp))
    case CpyVtoG4(v, address) =>
      if SlotOk(fn, v) then Some(Emitted([Store(GlobalVar(address), LoadSlot(fn, v, 32))], sp)) else None
    case CpyGtoV4(v, address) => EmitStore(fn, v, Load(GlobalVar(address), 32), sp)
    case SetV(wide, v, q) => EmitStore(fn, v, Const(32 * Width(wide), q), sp)
    case CpyVtoV(wide, dst, src) =>
      if SlotOk(fn, src) then EmitStore(fn, dst, LoadSlot(fn, src, 32 * Width(wide)), sp) else None
    case CpyVtoR(wide, v) => if SlotOk(fn, v) then EmitRegister(LoadSlot(fn, v, 32 * Width(wide)), sp) else None
    case CpyRtoV(wide, v) => EmitStore(fn, v, Load(ValueRegister, 32 * Width(wide)), sp)
    case IncVi(v) => EmitStore(fn, v, BinOp(Add, LoadSlot(fn, v, 32), Const(32, 1)), sp)
    case DecVi(v) => EmitStore(fn, v, BinOp(Sub, LoadSlot(fn, v, 32), Const(32, 1)), sp)
    case Neg(wide, v) =>
      EmitStore(fn, v, BinOp(Sub, Const(32 * Width(wide), 0), LoadSlot(fn, v, 32 * Width(wide))), sp)
    case BNot(wide, v) =>
      var bits := 32 * Width(wide);
      EmitStore(fn, v, BinOp(Xor, Const(bits, AllOnes(bits)), LoadSlot(fn, v, bits)), sp)
    case Arith(op, wide, dst, lhs, rhs) =>
      var bits := 32 * Width(wide);
      if !SlotOk(fn, lhs) || !OperandSlotOk(fn, rhs) then None
      else EmitStore(fn, dst, BinOp(IrOp(op), LoadSlot(fn, lhs, bits), OperandExpr(fn, rhs, bits)), sp)
    case Cmp(signed, wide, lhs, rhs) =>
      var bits := 32 * Width(wide);
      if !SlotOk(fn, lhs) || !OperandSlotOk(fn, rhs) then None
      else EmitRegister(CompareExpr(LoadSlot(fn, lhs, bits), OperandExpr(fn, rhs, bits), signed), sp)
    case Test(c) => EmitRegister(ZExt(ConditionExpr(c), 64), sp)
    case ClrHi => EmitRegister(ZExt(Load(ValueRegister, 8), 32), sp)
    case Extend(signed, bits, v) =>
      EmitStore(fn, v, if signed then SExt(LoadSlot(fn, v, bits), 32) else ZExt(LoadSlot(fn, v, bits), 32), sp)
    case Narrow(dst, src) => if SlotOk(fn, src) then EmitStore(fn, dst, Trunc(LoadSlot(fn, src, 64), 32), sp) else None
    case Widen(signed, dst, src) =>
      if SlotOk(fn, src)
      then EmitStore(fn, dst, if signed then SExt(LoadSlot(fn, src, 32), 64) else ZExt(LoadSlot(fn, src, 32), 64), sp)
      else None
    case Suspend => Some(Emitted([], sp))
    case JitEntry => Some(Emitted([], sp))
    case _ => None
  }

  /** emit_check_boolean: a block that returns the state if the condition holds, and a block to continue in. */
  function EmitCheck(b: Builder, condition: Expr, state: Expr): Builder
    requires b.cur < |b.blocks|
  {
    var n := |b.blocks|;
    var b' := Append(b, [CondBr(condition, n, n + 1)]);
    b'.(blocks := b'.blocks + [[Return(state)], []], cur := n + 1)
  }

  function NullCheck(pointer: Expr): Expr {
    ICmp(EQ, pointer, Const(64, 0))
  }

  function StateCheck(): Expr {
    ICmp(NE, CallState, Const(8, OK))
  }

  function ArgumentExpr(fn: Function, a: Argument, sp: int): ArgExpr {
    match a
    case ResultRegister(_, _) => RegisterArg
    case StackRead(r, llvm) => ValueArg(LoadSlot(fn, sp - r, BitsOf(llvm)))
  }

  function ArgumentExprs(fn: Function, args: seq<Argument>, sp: int): seq<ArgExpr> {
    if args == [] then []
    else ArgumentExprs(fn, args[..|args| - 1], sp) + [ArgumentExpr(fn, args[|args| - 1], sp)]
  }

  predicate ArgumentSlotsOk(fn: Function, args: seq<Argument>, sp: int) {
    forall i :: 0 <= i < |args| && args[i].StackRead? ==> SlotOk(fn, sp - args[i].r)
  }

  /** emit_script_call */
  function EmitCall(fn: Function, b: Builder, callee: nat, sig: Signature): Option<Builder>
    requires b.cur < |b.blocks|
  {
    var args := CallArguments(sig);
    if !ArgumentSlotsOk(fn, args, b.sp) then None
    else
      var b1 :=
        if sig.objectType.Some?
        then EmitCheck(b, NullCheck(LoadSlot(fn, b.sp - ObjectPosition(sig), 64)), Const(8, EXCEPTION_NULL_POINTER))
        else b;
      var b2 := Append(b1, [CallFunction(callee, ArgumentExprs(fn, args, b.sp))]);
      Some(EmitCheck(b2, StateCheck(), CallState).(sp := b.sp - Dwords(StackTypes(sig))))
  }

  function ReturnCode(fn: Function): seq<Instr> {
    (if ReturnsInRegister(fn.sig)
     then [Store(ReturnPointer, Load(ValueRegister, BitsOf(fn.sig.returnType.value.llvm)))] else [])
    + [Return(Const(8, OK))]
  }

  /** Control instructions; None where the builder asserts or a map lookup fails. */
  function EmitControl(fn: Function, sigs: seq<Signature>, b: Builder, ins: Ins, offset: nat): Option<Builder>
    requires b.cur < |b.blocks|
  {
    match ins
    case ChkNullV(v) =>
      if SlotOk(fn, v) then Some(EmitCheck(b, NullCheck(LoadSlot(fn, v, 64)), Const(8, EXCEPTION_NULL_POINTER)))
      else None
    case ChkRef =>
      if SlotOk(fn, b.sp) then Some(EmitCheck(b, NullCheck(LoadSlot(fn, b.sp, 64)), Const(8, EXCEPTION_NULL_POINTER)))
      else None
    case Jmp(rel) =>
      if offset + 2 + rel in b.jumpMap then Some(Append(b, [Br(b.jumpMap[offset + 2 + rel])])) else None
    case JCond(c, rel) =>
      if offset + 2 + rel in b.jumpMap && offset + 2 in b.jumpMap
      then Some(Append(b, [CondBr(ConditionExpr(c), b.jumpMap[offset + 2 + rel], b.jumpMap[offset + 2])])) else None
    case JLow(zero, rel) =>
      if offset + 2 + rel in b.jumpMap && offset + 2 in b.jumpMap
      then Some(Append(b, [CondBr(LowConditionExpr(zero), b.jumpMap[offset + 2 + rel], b.jumpMap[offset + 2])]))
      else None
    case JmpP(v) =>
      if offset !in b.switchMap || b.switchMap[offset] == [] || !SlotOk(fn, v) then None
      else
        var targets := b.switchMap[offset];
        Some(Append(b, [Switch(LoadSlot(fn, v, 32), targets[|targets| - 1], targets)]))
    case Ret => Some(Append(b, ReturnCode(fn)).(retPointer := Some(offset)))
    case Call(callee) => if callee < |sigs| then EmitCall(fn, b, callee, sigs[callee]) else None
    case _ => None
  }

  function Emit(fn: Function, sigs: seq<Signature>, b: Builder, ins: Ins, offset: nat): (r: Option<Builder>)
    requires b.cur < |b.blocks|
  {
    if IsBasic(ins) then
      match EmitBasic(fn, ins, b.sp)
      case None => None
      case Some(e) => Some(Append(b, e.code).(sp := e.sp))
    else EmitControl(fn, sigs, b, ins, offset)
  }

  predicate WithinBounds(fn: Function, sp: int) {
    fn.variableSpace <= sp <= TotalSpace(fn)
  }

  /** translate_instruction */
  function TranslateIns(fn: Function, sigs: seq<Signature>, b: Builder, ins: Ins, offset: nat): Option<Builder>
    requires b.cur < |b.blocks|
  {
    match EnterLabel(fn, b, offset)
    case None => None
    case Some(w) =>
      if w.cur < |w.blocks| && WithinBounds(fn, w.sp) then Emit(fn, sigs, w, ins, offset) else None
  }

  /** The second pass before instruction i. */
  function StateAt(fn: Function, sigs: seq<Signature>, i: nat): Option<Builder>
    requires i <= |fn.code|
  {
    if i == 0 then Some(Labels(fn))
    else
      match StateAt(fn, sigs, i - 1)
      case None => None
      case Some(b) =>
        if b.cur < |b.blocks| then TranslateIns(fn, sigs, b, fn.code[i - 1], Off(fn.code, i - 1)) else None
  }

  /** translate_bytecode: succeeds when no assertion fails and the stack is empty at the end. */
  function Translate(fn: Function, sigs: seq<Signature>): Option<Target> {
    match StateAt(fn, sigs, |fn.code|)
    case None => None
    case Some(b) =>
      if b.sp == fn.variableSpace
      then Some(Target(b.blocks, TotalSpace(fn), fn.variableSpace, ParameterStorage(fn.sig), fn.sig))
      else None
  }
}
