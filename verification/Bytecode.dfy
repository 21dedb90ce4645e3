/** The bytecode the translator reads: instructions at DWORD offsets. Opcodes that differ only in width are one
    constructor here (`wide` means 64 bits). Variables at or below 0 are parameters, the others locals. */
module Bytecode {
  import opened Words
  import opened Signatures

  datatype Condition = Zero | NotZero | Negative | NotNegative | Positive | NotPositive

  datatype Alu = ADD | SUB | MUL | DIV | MOD | DIVU | MODU | BAND | BOR | BXOR | BSLL | BSRL | BSRA

  datatype Operand = Var(v: int) | Imm(w: Word)

  datatype Ins =
    | PopPtr
    | PopRPtr
    | PshRPtr
    | PshC(wide: bool, q: QWord)                                    // PshC4, PshC8
    | PshV(wide: bool, v: int)                                      // PshV4, PshV8, PshVPtr
    | PshG4(address: nat)
    | SetG4(address: nat, w: Word)
    | CpyVtoG4(v: int, address: nat)
    | CpyGtoV4(v: int, address: nat)
    | SetV(wide: bool, v: int, q: QWord)                            // SetV1, SetV2, SetV4, SetV8
    | CpyVtoV(wide: bool, dst: int, src: int)                       // CpyVtoV4, CpyVtoV8
    | CpyVtoR(wide: bool, v: int)                                   // CpyVtoR4, CpyVtoR8
    | CpyRtoV(wide: bool, v: int)                                   // CpyRtoV4, CpyRtoV8
    | IncVi(v: int)
    | DecVi(v: int)
    | Neg(wide: bool, v: int)                                       // NEGi, NEGi64
    | BNot(wide: bool, v: int)                                      // BNOT, BNOT64
    | Arith(op: Alu, wide: bool, dst: int, lhs: int, rhs: Operand)  // ADDi ... BXOR64, ADDIi, SUBIi, MULIi
    | Cmp(signed: bool, wide: bool, lhs: int, rhs: Operand)         // CMPi, CMPu, CMPi64, CMPu64, CMPIi, CMPIu
    | Test(c: Condition)                                            // TZ, TNZ, TS, TNS, TP, TNP
    | ClrHi
    | Extend(signed: bool, bits: nat, v: int)                       // sbTOi, swTOi, ubTOi, uwTOi
    | Narrow(dst: int, src: int)                                    // i64TOi
    | Widen(signed: bool, dst: int, src: int)                       // iTOi64, uTOi64
    | ChkNullV(v: int)
    | ChkRef
    | Jmp(rel: int)
    | JCond(c: Condition, rel: int)                                 // JZ, JNZ, JS, JNS, JP, JNP
    | JLow(zero: bool, rel: int)                                    // JLowZ, JLowNZ
    | JmpP(v: int)
    | Ret
    | Call(callee: nat)
    | Suspend
    | JitEntry

  /** DWORDs an instruction takes: the opcode shares the first one with the first word argument. */
  function Size(ins: Ins): (n: nat)
    ensures 1 <= n <= 4
  {
    match ins
    case PshC(wide, _) => if wide then 3 else 2
    case PshG4(_) => 3
    case SetG4(_, _) => 4
    case CpyVtoG4(_, _) => 3
    case CpyGtoV4(_, _) => 3
    case SetV(wide, _, _) => if wide then 3 else 2
    case CpyVtoV(_, _, _) => 2
    case Arith(_, _, _, _, rhs) => if rhs.Imm? then 3 else 2
    case Cmp(_, _, _, _) => 2
    case Narrow(_, _) => 2
    case Widen(_, _, _) => 2
    case Jmp(_) => 2
    case JCond(_, _) => 2
    case JLow(_, _) => 2
    case Call(_) => 2
    case JitEntry => 3
    case _ => 1
  }

  /** The DWORD offset of instruction i, or of the end of the code. */
  function Off(code: seq<Ins>, i: nat): nat
    requires i <= |code|
  {
    if i == 0 then 0 else Off(code, i - 1) + Size(code[i - 1])
  }

  lemma {:induction false} OffMonotone(code: seq<Ins>, i: nat, j: nat)
    requires i < j <= |code|
    ensures Off(code, i) + Size(code[i]) <= Off(code, j)
    decreases j
  {
    if i < j - 1 {
      OffMonotone(code, i, j - 1);
    }
  }

  /** The instruction at a DWORD offset, searched from instruction i on. */
  function IndexFrom(code: seq<Ins>, i: nat, offset: int): (r: Option<nat>)
    requires i <= |code|
    ensures r.Some? ==> i <= r.value < |code| && Off(code, r.value) == offset
    decreases |code| - i
  {
    if i == |code| then None
    else if Off(code, i) == offset then Some(i)
    else IndexFrom(code, i + 1, offset)
  }

  function IndexOf(code: seq<Ins>, offset: int): (r: Option<nat>)
    ensures r.Some? ==> r.value < |code| && Off(code, r.value) == offset
  {
    IndexFrom(code, 0, offset)
  }

  lemma {:induction false} IndexFromFinds(code: seq<Ins>, i: nat, j: nat)
    requires i <= j < |code|
    ensures IndexFrom(code, i, Off(code, j)) == Some(j)
    decreases j - i
  {
    if i < j {
      OffMonotone(code, i, j);
      IndexFromFinds(code, i + 1, j);
    }
  }

  predicate IsConditional(ins: Ins) {
    ins.JCond? || ins.JLow?
  }

  /** Instructions that end a block and never continue with the next instruction. */
  predicate IsClosing(ins: Ins) {
    ins.Jmp? || ins.JmpP? || ins.Ret?
  }

  predicate IsBranch(ins: Ins) {
    ins.Jmp? || IsConditional(ins)
  }

  /** The offset a branch at `offset` goes to when taken. */
  function BranchTarget(ins: Ins, offset: nat): int
    requires IsBranch(ins)
  {
    offset + 2 + ins.rel
  }

  /** A script function; `stackNeeded` is what the AngelScript compiler computed for locals and operands together. */
  datatype Function = Function(sig: Signature, variableSpace: nat, stackNeeded: nat, code: seq<Ins>)

  /** The frame in DWORDs: two pointers are reserved for exception handling. */
  function TotalSpace(fn: Function): nat {
    fn.stackNeeded + 4
  }

  function BitsOf(t: LlvmType): nat {
    if t.IntType? then t.bits else 64
  }

  /** The LLVM type takes all DWORDs the value has on the stack; bool, 8-bit and 16-bit types do not. */
  predicate FillsItsDwords(t: DataType) {
    32 * t.dwords <= BitsOf(t.llvm)
  }

  /** The whole DWORDs in an allocation of the type. */
  function WholeDwords(t: DataType): nat {
    if FillsItsDwords(t) then t.dwords else 0
  }

  predicate NativeType(t: DataType) {
    || (t.dwords <= 2 && BitsOf(t.llvm) == 32 * t.dwords)
    || (t.dwords == 1 && BitsOf(t.llvm) in {1, 8, 16})
  }

  predicate NativeTypes(types: seq<DataType>) {
    forall i :: 0 <= i < |types| ==> NativeType(types[i])
  }

  /** Signatures over integers, bools and pointers, with a primitive result. */
  predicate NativeSignature(sig: Signature) {
    && NativeTypes(StackTypes(sig))
    && (ReturnsInRegister(sig) ==>
      !sig.returnType.value.isObject && BitsOf(sig.returnType.value.llvm) in {1, 8, 16, 32, 64})
    && (sig.objectType.Some? ==> sig.objectType.value.dwords == 2)
  }

  /** The variable is a local or a parameter with room for d DWORDs. */
  predicate VarOk(fn: Function, v: int, d: nat) {
    if v > 0 then d <= v <= fn.variableSpace
    else v in ParameterStorage(fn.sig) && d <= ParameterStorage(fn.sig)[v].dataType.dwords
  }

  function Width(wide: bool): nat {
    if wide then 2 else 1
  }

  /** The variable is not a parameter whose allocation is narrower than a DWORD. */
  predicate Whole(fn: Function, v: int) {
    v in ParameterStorage(fn.sig) && v <= 0 ==> FillsItsDwords(ParameterStorage(fn.sig)[v].dataType)
  }

  predicate OperandOk(fn: Function, o: Operand, d: nat) {
    if o.Var? then VarOk(fn, o.v, d) else d == 1
  }

  predicate IsShift(op: Alu) {
    op.BSLL? || op.BSRL? || op.BSRA?
  }

  /** A shift of a 64-bit value; its count is a single DWORD. */
  predicate IsWideShift(ins: Ins) {
    ins.Arith? && ins.wide && IsShift(ins.op)
  }

  /** DWORDs of the right operand. */
  function RightWidth(op: Alu, wide: bool): nat {
    if IsShift(op) then 1 else Width(wide)
  }

  /** The operands the AngelScript compiler emits: variables in range, constants that fit. */
  predicate OperandsOk(fn: Function, functions: nat, ins: Ins) {
    match ins
    case PshC(wide, q) => wide || q < M32
    case PshV(wide, v) => VarOk(fn, v, Width(wide))
    case CpyVtoG4(v, _) => VarOk(fn, v, 1)
    case CpyGtoV4(v, _) => VarOk(fn, v, 1)
    case SetV(wide, v, q) => VarOk(fn, v, Width(wide)) && (wide || q < M32)
    case CpyVtoV(wide, dst, src) => VarOk(fn, dst, Width(wide)) && VarOk(fn, src, Width(wide))
    case CpyVtoR(wide, v) => VarOk(fn, v, Width(wide))
    case CpyRtoV(wide, v) => VarOk(fn, v, Width(wide))
    case IncVi(v) => VarOk(fn, v, 1)
    case DecVi(v) => VarOk(fn, v, 1)
    case Neg(wide, v) => VarOk(fn, v, Width(wide))
    case BNot(wide, v) => VarOk(fn, v, Width(wide))
    case Arith(op, wide, dst, lhs, rhs) =>
      && VarOk(fn, dst, Width(wide)) && VarOk(fn, lhs, Width(wide)) && OperandOk(fn, rhs, RightWidth(op, wide))
      && (wide ==> rhs.Var?)
    case Cmp(_, wide, lhs, rhs) => VarOk(fn, lhs, Width(wide)) && OperandOk(fn, rhs, Width(wide))
    case Extend(_, bits, v) => VarOk(fn, v, 1) && (bits == 8 || bits == 16)
    case Narrow(dst, src) => VarOk(fn, dst, 1) && VarOk(fn, src, 2)
    case Widen(_, dst, src) => VarOk(fn, dst, 2) && VarOk(fn, src, 1)
    case ChkNullV(v) => VarOk(fn, v, 2)
    case JmpP(v) => VarOk(fn, v, 1)
    case Call(callee) => callee < functions
    case _ => true
  }

  /** The instruction accesses no parameter narrower than a DWORD: it would read or write past the allocation. */
  predicate WholeOperands(fn: Function, ins: Ins) {
    match ins
    case PshV(_, v) => Whole(fn, v)
    case CpyVtoG4(v, _) => Whole(fn, v)
    case CpyGtoV4(v, _) => Whole(fn, v)
    case SetV(_, v, _) => Whole(fn, v)
    case CpyVtoV(_, dst, src) => Whole(fn, dst) && Whole(fn, src)
    case CpyVtoR(_, v) => Whole(fn, v)
    case CpyRtoV(_, v) => Whole(fn, v)
    case IncVi(v) => Whole(fn, v)
    case DecVi(v) => Whole(fn, v)
    case Neg(_, v) => Whole(fn, v)
    case BNot(_, v) => Whole(fn, v)
    case Arith(_, _, dst, lhs, rhs) => Whole(fn, dst) && Whole(fn, lhs) && (rhs.Var? ==> Whole(fn, rhs.v))
    case Cmp(_, _, lhs, rhs) => Whole(fn, lhs) && (rhs.Var? ==> Whole(fn, rhs.v))
    case Extend(_, _, v) => Whole(fn, v)
    case Narrow(dst, src) => Whole(fn, dst) && Whole(fn, src)
    case Widen(_, dst, src) => Whole(fn, dst) && Whole(fn, src)
    case JmpP(v) => Whole(fn, v)
    case _ => true
  }
}
