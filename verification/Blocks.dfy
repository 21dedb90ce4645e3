/** The language the translator emits: functions made of blocks, each a list of stores and calls that a terminator
    ends. It stands for the LLVM IR the builder creates; expressions stand for its chains of value instructions. */
module Blocks {
  import opened Words
  import opened Signatures
  import Bytecode
  import opened Machine

  /** Storage(i) is DWORD i of the frame's array; parameters have an allocation of their own. */
  datatype Addr = Storage(i: int) | ParameterAlloca(off: int) | ValueRegister | GlobalVar(address: nat) | ReturnPointer

  datatype Binary = Add | Sub | Mul | SDiv | SRem | UDiv | URem | And | Or | Xor | Shl | LShr | AShr

  datatype Predicate = EQ | NE | SLT | SGE | SGT | SLE | ULT | UGT

  datatype Expr =
    | Const(bits: nat, v: nat)
    | Load(addr: Addr, bits: nat)
    | BinOp(op: Binary, a: Expr, b: Expr)
    | ICmp(p: Predicate, a: Expr, b: Expr)
    | Select(c: Expr, a: Expr, b: Expr)
    | ZExt(e: Expr, bits: nat)
    | SExt(e: Expr, bits: nat)
    | Trunc(e: Expr, bits: nat)
    | CallState                                    // the value of the last call

  datatype ArgExpr = RegisterArg | ValueArg(e: Expr)

  datatype Instr =
    | Store(addr: Addr, e: Expr)
    | CallFunction(callee: nat, args: seq<ArgExpr>)
    | Br(target: nat)
    | CondBr(c: Expr, ifTrue: nat, ifFalse: nat)
    | Switch(e: Expr, default: nat, cases: seq<nat>)
    | Return(e: Expr)

  predicate IsTerminator(i: Instr) {
    i.Br? || i.CondBr? || i.Switch? || i.Return?
  }

  function Bits(e: Expr): nat {
    match e
    case Const(bits, _) => bits
    case Load(_, bits) => bits
    case BinOp(_, a, _) => Bits(a)
    case ICmp(_, _, _) => 1
    case Select(_, a, _) => Bits(a)
    case ZExt(_, bits) => bits
    case SExt(_, bits) => bits
    case Trunc(_, bits) => bits
    case CallState => 8
  }

  datatype Memory = Memory(
    storage: seq<Word>, params: map<int, seq<Word>>, register: QWord, globals: Globals, ret: Option<QWord>,
    callState: nat)

  function DwordsFor(bits: nat): nat {
    if bits == 64 then 2 else 1
  }

  /** The DWORDs at an address of the frame, if they are within the allocation. */
  function Cells(mem: Memory, addr: Addr, d: nat): Option<seq<Word>> {
    match addr
    case Storage(i) => if 0 <= i && i + d <= |mem.storage| then Some(mem.storage[i..i + d]) else None
    case ParameterAlloca(off) =>
      if off in mem.params && d <= |mem.params[off]| then Some(mem.params[off][..d]) else None
    case _ => None
  }

  function LoadFrom(mem: Memory, addr: Addr, bits: nat): Option<nat> {
    match addr
    case ValueRegister => Some(Wrap(mem.register, bits))
    case GlobalVar(address) => if bits == 32 then Some(GlobalAt(mem.globals, address)) else None
    case ReturnPointer => None
    case _ =>
      match Cells(mem, addr, DwordsFor(bits))
      case None => None
      case Some(cells) =>
        if |cells| == 2 then Some(Join(cells[0], cells[1]))
        else if |cells| == 1 then Some(Wrap(cells[0], bits))
        else None
  }

  /** A DWORD with its low bits replaced. */
  function LowReplaced(w: Word, bits: nat, v: nat): Word
    requires bits in {8, 16} && v < Modulus(bits)
  {
    w - w % Modulus(bits) + v
  }

  /** A store of less than a DWORD leaves the upper bits of the DWORD. */
  function StoreTo(mem: Memory, addr: Addr, bits: nat, v: nat): Option<Memory> {
    if v >= Modulus(bits) || bits !in {1, 8, 16, 32, 64} then None
    else
      match addr
      case ValueRegister => Some(mem.(register := SetLow(mem.register, bits, v)))
      case GlobalVar(address) => if bits == 32 then Some(mem.(globals := mem.globals[address := v])) else None
      case ReturnPointer => Some(mem.(ret := Some(v)))
      case Storage(i) =>
        if bits == 32 && 0 <= i < |mem.storage| then Some(mem.(storage := mem.storage[i := v]))
        else if bits == 64 && 0 <= i && i + 1 < |mem.storage|
        then Some(mem.(storage := mem.storage[i := Lo(v)][i + 1 := Hi(v)]))
        else if bits in {8, 16} && 0 <= i < |mem.storage|
        then Some(mem.(storage := mem.storage[i := LowReplaced(mem.storage[i], bits, v)]))
        else None
      case ParameterAlloca(off) =>
        if off !in mem.params then None
        else
          var cells: seq<Word> := mem.params[off];
          if bits == 32 && |cells| >= 1 then Some(mem.(params := mem.params[off := cells[0 := v]]))
          else if bits == 64 && |cells| >= 2
          then Some(mem.(params := mem.params[off := cells[0 := Lo(v)][1 := Hi(v)]]))
          else if bits in {8, 16} && |cells| >= 1
          then Some(mem.(params := mem.params[off := cells[0 := LowReplaced(cells[0], bits, v)]]))
          else None
  }

  /** LLVM integer arithmetic on values modulo the width; None where it is undefined. */
  function BinaryResult(op: Binary, bits: nat, a: nat, b: nat): (r: Option<nat>) {
    var m := Modulus(bits);
    if a >= m || b >= m then None
    else
      match op
      case Add => Some((a + b) % m)
      case Sub => Some((a - b) % m)
      case Mul => Some((a * b) % m)
      case SDiv =>
        if b == 0 || Overflows(a, b, bits) then None else Some(TruncDiv(Signed(a, bits), Signed(b, bits)) % m)
      case SRem =>
        if b == 0 || Overflows(a, b, bits) then None else Some(TruncMod(Signed(a, bits), Signed(b, bits)) % m)
      case UDiv => if b == 0 then None else Some((a / b) % m)
      case URem => if b == 0 then None else Some((a % b) % m)
      case And => Some(Bitwise(AndGate, a, b, bits) % m)
      case Or => Some(Bitwise(OrGate, a, b, bits) % m)
      case Xor => Some(Bitwise(XorGate, a, b, bits) % m)
      case Shl => if b >= bits then None else Some((a * Pow2(b)) % m)
      case LShr => if b >= bits then None else Some((a / Pow2(b)) % m)
      case AShr => if b >= bits then None else Some((Signed(a, bits) / Pow2(b)) % m)
  }

  predicate PredicateHolds(p: Predicate, bits: nat, a: nat, b: nat) {
    match p
    case EQ => a == b
    case NE => a != b
    case SLT => Signed(a, bits) < Signed(b, bits)
    case SGE => Signed(a, bits) >= Signed(b, bits)
    case SGT => Signed(a, bits) > Signed(b, bits)
    case SLE => Signed(a, bits) <= Signed(b, bits)
    case ULT => a < b
    case UGT => a > b
  }

  function Eval(mem: Memory, e: Expr): Option<nat> {
    match e
    case Const(bits, v) => if v < Modulus(bits) then Some(v) else None
    case Load(addr, bits) => LoadFrom(mem, addr, bits)
    case BinOp(op, a, b) =>
      var x, y := Eval(mem, a), Eval(mem, b);
      if x.None? || y.None? || Bits(a) != Bits(b) then None else BinaryResult(op, Bits(a), x.value, y.value)
    case ICmp(p, a, b) =>
      var x, y := Eval(mem, a), Eval(mem, b);
      if x.None? || y.None? || Bits(a) != Bits(b) then None
      else Some(if PredicateHolds(p, Bits(a), x.value, y.value) then 1 else 0)
    case Select(c, a, b) =>
      var w, x, y := Eval(mem, c), Eval(mem, a), Eval(mem, b);
      if w.None? || x.None? || y.None? || Bits(c) != 1 || Bits(a) != Bits(b) then None
      else if w.value == 1 then x else y
    case ZExt(e, bits) => Eval(mem, e)
    case SExt(e, bits) =>
      var x := Eval(mem, e);
      if x.None? then None else Some(Wrap(Signed(x.value, Bits(e)), bits))
    case Trunc(e, bits) =>
      var x := Eval(mem, e);
      if x.None? then None else Some(x.value % Modulus(bits))
    case CallState => Some(mem.callState)
  }

  function EvalArgs(mem: Memory, args: seq<ArgExpr>): Option<seq<Option<nat>>> {
    if args == [] then Some([])
    else
      var rest := EvalArgs(mem, args[..|args| - 1]);
      if rest.None? then None
      else
        match args[|args| - 1]
        case RegisterArg => Some(rest.value + [None])
        case ValueArg(e) =>
          var v := Eval(mem, e);
          if v.None? then None else Some(rest.value + [v])
  }

  /** A translated function. `slots` is its parameter storage. */
  datatype Target = Target(
    blocks: seq<seq<Instr>>, total: nat, variableSpace: nat, slots: map<int, Parameter>, sig: Signature)

  function SplitWords(v: nat, d: nat): seq<Word> {
    if d == 2 && v < M64 then [Lo(v), Hi(v)]
    else if d == 1 && v < M32 then [v]
    else Zeros(d)
  }

  /** The whole DWORDs of a parameter's allocation. One narrower than a DWORD has none: no instruction of the source
      accesses less than a DWORD without writing a whole one, which would leave the allocation. */
  function SlotValue(slot: Parameter, args: seq<Option<nat>>): seq<Word> {
    if slot.argumentIndex < |args| && args[slot.argumentIndex].Some?
    then SplitWords(args[slot.argumentIndex].value, Bytecode.WholeDwords(slot.dataType))
    else Zeros(Bytecode.WholeDwords(slot.dataType))
  }

  /** The prologue: parameters are stored to their allocations, the frame and the value register are zeroed. */
  function InitialMemory(fn: Target, args: seq<Option<nat>>, globals: Globals): Memory {
    Memory(Zeros(fn.total), map off | off in fn.slots :: SlotValue(fn.slots[off], args), 0, globals, None, OK)
  }

  /** The locals as the frame's array holds them: offset o is DWORD total - o. */
  function LocalsOf(fn: Target, mem: Memory): seq<Word> {
    if fn.variableSpace <= fn.total == |mem.storage|
    then seq(
      fn.variableSpace,
      i requires 0 <= i < fn.variableSpace <= fn.total == |mem.storage| => mem.storage[fn.total - 1 - i])
    else []
  }

  /** After a call: the callee wrote its result, if any, through the pointer to the caller's value register. */
  function AfterCallFunction(mem: Memory, sig: Signature, state: nat, ret: Option<QWord>, globals: Globals): Memory {
    var mem' := mem.(globals := globals, callState := state);
    if ReturnsInRegister(sig) && ret.Some? && ret.value < Modulus(Bytecode.BitsOf(sig.returnType.value.llvm))
    then mem'.(register := SetLow(mem.register, Bytecode.BitsOf(sig.returnType.value.llvm), ret.value))
    else mem'
  }

  /** The same for the blocks. */
  lemma {:induction false} CallFunctionDelivers(
    mem: Memory, sig: Signature, state: nat, ret: Option<QWord>, globals: Globals)
    requires ReturnsInRegister(sig) ==> Bytecode.BitsOf(sig.returnType.value.llvm) in {1, 8, 16, 32, 64}
    ensures
      var mem' := AfterCallFunction(mem, sig, state, ret, globals);
      && mem'.globals == globals && mem'.callState == state && mem'.storage == mem.storage && mem'.params == mem.params
      && mem'.ret == mem.ret
      && if ReturnsInRegister(sig) && ret.Some? && ret.value < Modulus(Bytecode.BitsOf(sig.returnType.value.llvm))
         then RegisterTakes(mem.register, mem'.register, Bytecode.BitsOf(sig.returnType.value.llvm), ret.value)
         else mem'.register == mem.register
  {
    if ReturnsInRegister(sig) && ret.Some? && ret.value < Modulus(Bytecode.BitsOf(sig.returnType.value.llvm)) {
      SetLowTakes(mem.register, Bytecode.BitsOf(sig.returnType.value.llvm), ret.value);
    }
  }

  /** A store to the value register: the value is loaded back, and the bits above it stay. */
  lemma {:induction false} RegisterStored(mem: Memory, bits: nat, v: nat)
    requires bits in {8, 16, 32, 64} && v < Modulus(bits)
    ensures
      var mem' := StoreTo(mem, ValueRegister, bits, v);
      && mem'.Some? && LoadFrom(mem'.value, ValueRegister, bits) == Some(v)
      && RegisterTakes(mem.register, mem'.value.register, bits, v)
      && mem'.value == mem.(register := mem'.value.register)
  {
    SetLowTakes(mem.register, bits, v);
  }

  /** A store to a global: the value is loaded back, and other globals stay. */
  lemma {:induction false} GlobalStored(mem: Memory, address: nat, w: Word)
    ensures
      var mem' := StoreTo(mem, GlobalVar(address), 32, w);
      && mem'.Some? && LoadFrom(mem'.value, GlobalVar(address), 32) == Some(w)
      && (forall other :: other != address ==>
        LoadFrom(mem'.value, GlobalVar(other), 32) == LoadFrom(mem, GlobalVar(other), 32))
      && mem'.value == mem.(globals := mem'.value.globals)
  {
  }

  /** Runs function f of the program from instruction k of block b. */
  function RunBlocks(p: seq<Target>, f: nat, b: nat, k: nat, mem: Memory, fuel: nat): Outcome
    requires f < |p|
    decreases fuel
  {
    if fuel == 0 then OutOfFuel
    else if b >= |p[f].blocks| || k >= |p[f].blocks[b]| then Fault
    else
      match p[f].blocks[b][k]
      case Store(addr, e) =>
        var v := Eval(mem, e);
        if v.None? then Fault
        else
          var mem' := StoreTo(mem, addr, Bits(e), v.value);
          if mem'.None? then Fault else RunBlocks(p, f, b, k + 1, mem'.value, fuel - 1)
      case CallFunction(callee, args) =>
        var values := EvalArgs(mem, args);
        if values.None? || callee >= |p| then Fault
        else
          (match RunBlocks(p, callee, 0, 0, InitialMemory(p[callee], values.value, mem.globals), fuel - 1)
           case OutOfFuel => OutOfFuel
           case Fault => Fault
           case Done(state, ret, globals, _, _) =>
             RunBlocks(p, f, b, k + 1, AfterCallFunction(mem, p[callee].sig, state, ret, globals), fuel - 1))
      case Br(target) => RunBlocks(p, f, target, 0, mem, fuel - 1)
      case CondBr(c, ifTrue, ifFalse) =>
        var v := Eval(mem, c);
        if v.None? then Fault else RunBlocks(p, f, if v.value == 1 then ifTrue else ifFalse, 0, mem, fuel - 1)
      case Switch(e, default, cases) =>
        var v := Eval(mem, e);
        if v.None? then Fault
        else RunBlocks(p, f, if v.value < |cases| then cases[v.value] else default, 0, mem, fuel - 1)
      case Return(e) =>
        var v := Eval(mem, e);
        if v.None? then Fault
        else Done(v.value, mem.ret, mem.globals, LocalsOf(p[f], mem), mem.register)
  }
}
