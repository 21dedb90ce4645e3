/** What the bytecode means: a frame of DWORDs with an operand stack and a value register, stepped one instruction at a
    time; calls run the callee in a frame of its own. */
module Machine {
  import opened Words
  import opened Signatures
  import opened Bytecode

  /** The states a call can end in. */
  const OK: nat := 0
  const EXCEPTION_EXTERNAL: nat := 1
  const EXCEPTION_NULL_POINTER: nat := 2

  /** Global variables by address; memory that was never written reads as zero. */
  type Globals = map<nat, Word>

  function GlobalAt(g: Globals, address: nat): Word {
    if address in g then g[address] else 0
  }

  /** How a run ends: not within the fuel, in an operation without meaning, or with a state, the returned value, the
      globals, and the locals and value register of the frame that ended. */
  datatype Outcome =
    | OutOfFuel
    | Fault
    | Done(state: nat, ret: Option<QWord>, globals: Globals, locals: seq<Word>, register: QWord)

  /** args[r] is the DWORD the caller passed r DWORDs below the top of its stack; locals[o - 1] is the local at
      offset o. */
  datatype Frame = Frame(args: seq<Word>, locals: seq<Word>, stack: seq<Word>, register: QWord, globals: Globals)

  predicate Accessible(fr: Frame, v: int, d: nat) {
    if v > 0 then d <= v <= |fr.locals| else d - v <= |fr.args|
  }

  /** The value of the d-DWORD variable v. A local of two DWORDs has its high DWORD one offset below. */
  function ReadVar(fr: Frame, v: int, d: nat): QWord
    requires 1 <= d <= 2 && Accessible(fr, v, d)
  {
    if v > 0
    then if d == 1 then fr.locals[v - 1] else Join(fr.locals[v - 1], fr.locals[v - 2])
    else if d == 1 then fr.args[-v] else Join(fr.args[-v], fr.args[1 - v])
  }

  function WriteVar(fr: Frame, v: int, d: nat, q: QWord): Frame
    requires 1 <= d <= 2 && Accessible(fr, v, d)
    requires d == 1 ==> q < M32
  {
    if v > 0
    then fr.(locals := if d == 1 then fr.locals[v - 1 := q] else fr.locals[v - 1 := Lo(q)][v - 2 := Hi(q)])
    else fr.(args := if d == 1 then fr.args[-v := q] else fr.args[-v := Lo(q)][1 - v := Hi(q)])
  }

  function Push(fr: Frame, d: nat, q: QWord): Frame
    requires 1 <= d <= 2 && (d == 1 ==> q < M32)
  {
    fr.(stack := fr.stack + if d == 1 then [q] else [Hi(q), Lo(q)])
  }

  function Top(fr: Frame): QWord
    requires |fr.stack| >= 2
  {
    Join(fr.stack[|fr.stack| - 1], fr.stack[|fr.stack| - 2])
  }

  function Drop(fr: Frame, d: nat): Frame
    requires d <= |fr.stack|
  {
    fr.(stack := fr.stack[..|fr.stack| - d])
  }

  /** The register with its `bits` low bits replaced; a bool takes a byte. */
  function SetLow(register: QWord, bits: nat, v: nat): QWord
    requires v < Modulus(bits)
  {
    if bits == 64 then v
    else if bits in {8, 16, 32} then register - register % Modulus(bits) + v
    else if bits == 1 then register - register % 0x100 + v
    else v
  }

  /** The register has taken a value of the width: its low bits are the value, the bits above are as before. A bool
      takes a byte. */
  predicate RegisterTakes(before: QWord, after: QWord, bits: nat, v: nat) {
    var m := Modulus(if bits == 1 then 8 else bits);
    after % m == v && after / m == before / m
  }

  lemma {:induction false} SetLowTakes(register: QWord, bits: nat, v: nat)
    requires bits in {1, 8, 16, 32, 64} && v < Modulus(bits)
    ensures RegisterTakes(register, SetLow(register, bits, v), bits, v)
  {
    if bits != 64 {
      RemainderReplaced(register, Modulus(if bits == 1 then 8 else bits), v);
    }
  }

  lemma {:induction false} RemainderReplaced(x: nat, m: nat, v: nat)
    requires v < m
    ensures (x - x % m + v) % m == v && (x - x % m + v) / m == x / m
  {
    var q := x / m;
    assert x - x % m == m * q;
    QuotientIs(m * q + v, m, q);
  }

  predicate Holds(c: Condition, x: int) {
    match c
    case Zero => x == 0
    case NotZero => x != 0
    case Negative => x < 0
    case NotNegative => x >= 0
    case Positive => x > 0
    case NotPositive => x <= 0
  }

  /** -1, 0 or 1 as a is lower than, equal to or greater than b. */
  function Compare(a: int, b: int): int {
    if a < b then -1 else if a == b then 0 else 1
  }

  predicate Overflows(a: nat, b: nat, bits: nat) {
    Signed(b, bits) == -1 && Signed(a, bits) == -(Modulus(bits) / 2)
  }

  lemma {:induction false} SmallQuotient(x: nat, y: nat, h: nat)
    requires x <= h && y >= 2 && h >= 1
    ensures x / y < h
  {
    DivisionBounds(x, y);
    var q := x / y;
    assert q * y == q * 2 + q * (y - 2);
  }

  lemma {:induction false} AbsIs(q: nat)
    ensures Abs(q) == q && Abs(0 - q) == q
  {
  }

  lemma {:induction false} QuotientNotNegative(x: nat, y: nat)
    requires y > 0
    ensures x / y >= 0
  {
  }

  lemma {:induction false} TruncDivSign(x: int, y: int)
    requires y != 0 && Abs(y) > 0
    ensures Abs(TruncDiv(x, y)) == Abs(x) / Abs(y)
    ensures if (x < 0) == (y < 0) then TruncDiv(x, y) >= 0 else TruncDiv(x, y) <= 0
  {
    hide Abs;
    QuotientNotNegative(Abs(x), Abs(y));
    AbsIs(Abs(x) / Abs(y));
  }

  lemma {:induction false} UnitQuotient(x: nat, y: nat)
    requires y == 1
    ensures x / y == x
  {
  }

  lemma {:induction false} QuotientRange(x: int, y: int, h: nat)
    requires 0 - h <= x < h && y != 0 && h >= 1
    ensures TruncDiv(x, y) >= 0 - h
    ensures TruncDiv(x, y) >= h <==> (y == -1 && x == 0 - h)
  {
    hide TruncDiv;
    TruncDivSign(x, y);
    if Abs(y) == 1 {
      UnitQuotient(Abs(x), Abs(y));
    } else {
      SmallQuotient(Abs(x), Abs(y), h);
    }
  }

  /** A quotient of two values overflows exactly when it is not in the signed range. */
  lemma {:induction false} OverflowExact(a: nat, b: nat, bits: nat)
    requires bits in {32, 64} && a < Modulus(bits) && b < Modulus(bits) && Signed(b, bits) != 0
    ensures
      var q := TruncDiv(Signed(a, bits), Signed(b, bits));
      Overflows(a, b, bits) <==> !(0 - Modulus(bits) / 2 <= q < Modulus(bits) / 2)
  {
    hide Signed, TruncDiv;
    SignedStands(a, bits);
    QuotientRange(Signed(a, bits), Signed(b, bits), Modulus(bits) / 2);
  }

  /** Integer arithmetic of the VM; no result for a zero divisor, an overflowing quotient, or a shift by the width or
      more. */
  function AluResult(op: Alu, bits: nat, a: nat, b: nat): (r: Option<nat>)
    requires a < Modulus(bits) && b < Modulus(bits)
  {
    match op
    case ADD => Some(Wrap(Signed(a, bits) + Signed(b, bits), bits))
    case SUB => Some(Wrap(Signed(a, bits) - Signed(b, bits), bits))
    case MUL => Some(Wrap(Signed(a, bits) * Signed(b, bits), bits))
    case DIV =>
      if Signed(b, bits) == 0 || Overflows(a, b, bits) then None
      else Some(Wrap(TruncDiv(Signed(a, bits), Signed(b, bits)), bits))
    case MOD =>
      if Signed(b, bits) == 0 || Overflows(a, b, bits) then None
      else Some(Wrap(TruncMod(Signed(a, bits), Signed(b, bits)), bits))
    case DIVU => if b == 0 then None else Some(Wrap(a / b, bits))
    case MODU => if b == 0 then None else Some(Wrap(a % b, bits))
    case BAND => Some(Wrap(Bitwise(AndGate, a, b, bits), bits))
    case BOR => Some(Wrap(Bitwise(OrGate, a, b, bits), bits))
    case BXOR => Some(Wrap(Bitwise(XorGate, a, b, bits), bits))
    case BSLL => if b >= bits then None else Some(Wrap(a * Pow2(b), bits))
    case BSRL => if b >= bits then None else Some(Wrap(a / Pow2(b), bits))
    case BSRA => if b >= bits then None else Some(Wrap(Signed(a, bits) / Pow2(b), bits))
  }

  predicate OperandAccessible(fr: Frame, o: Operand, d: nat) {
    if o.Var? then Accessible(fr, o.v, d) else d == 1
  }

  function OperandValue(fr: Frame, o: Operand, d: nat): QWord
    requires 1 <= d <= 2 && OperandAccessible(fr, o, d)
  {
    if o.Var? then ReadVar(fr, o.v, d) else o.w
  }

  lemma {:induction false} ReadBounds(fr: Frame, v: int, d: nat)
    requires 1 <= d <= 2 && Accessible(fr, v, d)
    ensures ReadVar(fr, v, d) < Modulus(32 * d)
  {
  }

  /** The frame after an instruction that neither jumps nor calls; None where the instruction has no meaning. */
  function StepBasic(fr: Frame, ins: Ins): Option<Frame> {
    match ins
    case PopPtr => if |fr.stack| < 2 then None else Some(Drop(fr, 2))
    case PopRPtr => if |fr.stack| < 2 then None else Some(Drop(fr, 2).(register := Top(fr)))
    case PshRPtr => Some(Push(fr, 2, fr.register))
    case PshC(wide, q) => if !wide && q >= M32 then None else Some(Push(fr, Width(wide), q))
    case PshV(wide, v) =>
      if !Accessible(fr, v, Width(wide)) then None
      else ReadBounds(fr, v, Width(wide)); Some(Push(fr, Width(wide), ReadVar(fr, v, Width(wide))))
    case PshG4(address) => Some(Push(fr, 1, GlobalAt(fr.globals, address)))
    case SetG4(address, w) => Some(fr.(globals := fr.globals[address := w]))
    case CpyVtoG4(v, address) =>
      if !Accessible(fr, v, 1) then None else Some(fr.(globals := fr.globals[address := ReadVar(fr, v, 1)]))
    case CpyGtoV4(v, address) =>
      if !Accessible(fr, v, 1) then None else Some(WriteVar(fr, v, 1, GlobalAt(fr.globals, address)))
    case SetV(wide, v, q) =>
      if !Accessible(fr, v, Width(wide)) || (!wide && q >= M32) then None else Some(WriteVar(fr, v, Width(wide), q))
    case CpyVtoV(wide, dst, src) =>
      if !Accessible(fr, dst, Width(wide)) || !Accessible(fr, src, Width(wide)) then None
      else ReadBounds(fr, src, Width(wide)); Some(WriteVar(fr, dst, Width(wide), ReadVar(fr, src, Width(wide))))
    case CpyVtoR(wide, v) =>
      if !Accessible(fr, v, Width(wide)) then None
      else
        ReadBounds(fr, v, Width(wide));
        Some(fr.(register := SetLow(fr.register, 32 * Width(wide), ReadVar(fr, v, Width(wide)))))
    case CpyRtoV(wide, v) =>
      if !Accessible(fr, v, Width(wide)) then None
      else Some(WriteVar(fr, v, Width(wide), Wrap(fr.register, 32 * Width(wide))))
    case IncVi(v) =>
      if !Accessible(fr, v, 1) then None else Some(WriteVar(fr, v, 1, Wrap(Signed(ReadVar(fr, v, 1), 32) + 1, 32)))
    case DecVi(v) =>
      if !Accessible(fr, v, 1) then None else Some(WriteVar(fr, v, 1, Wrap(Signed(ReadVar(fr, v, 1), 32) - 1, 32)))
    case Neg(wide, v) =>
      if !Accessible(fr, v, Width(wide)) then None
      else
        var bits := 32 * Width(wide);
        Some(WriteVar(fr, v, Width(wide), Wrap(-Signed(ReadVar(fr, v, Width(wide)), bits), bits)))
    case BNot(wide, v) =>
      if !Accessible(fr, v, Width(wide)) then None
      else
        ReadBounds(fr, v, Width(wide));
        Some(WriteVar(fr, v, Width(wide), Modulus(32 * Width(wide)) - 1 - ReadVar(fr, v, Width(wide))))
    case Arith(op, wide, dst, lhs, rhs) =>
      var d, e := Width(wide), RightWidth(op, wide);
      if !Accessible(fr, dst, d) || !Accessible(fr, lhs, d) || !OperandAccessible(fr, rhs, e) then None
      else StepArith(fr, op, d, dst, ReadVar(fr, lhs, d), OperandValue(fr, rhs, e))
    case Cmp(signed, wide, lhs, rhs) =>
      var d := Width(wide);
      if !Accessible(fr, lhs, d) || !OperandAccessible(fr, rhs, d) then None
      else
        var a, b := ReadVar(fr, lhs, d), OperandValue(fr, rhs, d);
        var cmp := if signed then Compare(Signed(a, 32 * d), Signed(b, 32 * d)) else Compare(a, b);
        Some(fr.(register := SetLow(fr.register, 32, Wrap(cmp, 32))))
    case Test(c) => Some(fr.(register := if Holds(c, Signed(Wrap(fr.register, 32), 32)) then 1 else 0))
    case ClrHi => Some(fr.(register := SetLow(fr.register, 32, fr.register % 0x100)))
    case Extend(signed, bits, v) =>
      if !Accessible(fr, v, 1) then None
      else
        var low := Wrap(ReadVar(fr, v, 1), bits);
        Some(WriteVar(fr, v, 1, if signed then Wrap(Signed(low, bits), 32) else Wrap(low, 32)))
    case Narrow(dst, src) =>
      if !Accessible(fr, dst, 1) || !Accessible(fr, src, 2) then None
      else Some(WriteVar(fr, dst, 1, Wrap(ReadVar(fr, src, 2), 32)))
    case Widen(signed, dst, src) =>
      if !Accessible(fr, dst, 2) || !Accessible(fr, src, 1) then None
      else
        var w := ReadVar(fr, src, 1);
        Some(WriteVar(fr, dst, 2, if signed then Wrap(Signed(w, 32), 64) else w))
    case Suspend => Some(fr)
    case JitEntry => Some(fr)
    case _ => None
  }

  function StepArith(fr: Frame, op: Alu, d: nat, dst: int, a: QWord, b: QWord): Option<Frame>
    requires 1 <= d <= 2 && Accessible(fr, dst, d)
  {
    if a >= Modulus(32 * d) || b >= Modulus(32 * d) then None
    else
      match AluResult(op, 32 * d, a, b)
      case None => None
      case Some(r) => if r >= Modulus(32 * d) then None else Some(WriteVar(fr, dst, d, r))
  }

  predicate IsBasic(ins: Ins) {
    !ins.ChkNullV? && !ins.ChkRef? && !IsBranch(ins) && !IsClosing(ins) && !ins.Call?
  }

  datatype Step =
    | Go(pc: nat, fr: Frame)
    | Stop(state: nat, fr: Frame)
    | Enter(callee: nat, args: seq<Word>, fr: Frame)
    | Bad

  function GoTo(code: seq<Ins>, offset: int, fr: Frame): Step {
    match IndexOf(code, offset)
    case Some(i) => Go(i, fr)
    case None => Bad
  }

  function Reverse(s: seq<Word>): (r: seq<Word>)
    ensures |r| == |s|
    ensures forall i :: 0 <= i < |s| ==> r[i] == s[|s| - 1 - i]
  {
    seq(|s|, i requires 0 <= i < |s| => s[|s| - 1 - i])
  }

  /** The DWORDs a caller passes, topmost first. */
  function Passed(fr: Frame, n: nat): (args: seq<Word>)
    requires n <= |fr.stack|
    ensures |args| == n
    ensures forall r :: 0 <= r < n ==> args[r] == fr.stack[|fr.stack| - 1 - r]
  {
    Reverse(fr.stack[|fr.stack| - n..])
  }

  /** Calling a method on a null object raises an exception before the callee runs. */
  function StepCall(fr: Frame, callee: nat, sig: Signature): Step {
    var n := Dwords(StackTypes(sig));
    if n > |fr.stack| then Bad
    else
      var args := Passed(fr, n);
      if sig.objectType.None? then Enter(callee, args, Drop(fr, n))
      else
        var r := ObjectPosition(sig);
        if r + 2 > n then Bad
        else if Join(args[r], args[r + 1]) == 0 then Stop(EXCEPTION_NULL_POINTER, Drop(fr, n))
        else Enter(callee, args, Drop(fr, n))
  }

  /** The table JMPs after a JMPP are two DWORDs each; entry k is dispatched to as JMPP offset + 1 + 2k. */
  function TableSize(code: seq<Ins>, i: nat): nat
    requires i <= |code|
    decreases |code| - i
  {
    if i < |code| && code[i].Jmp? then 1 + TableSize(code, i + 1) else 0
  }

  function StepAt(m: seq<Function>, f: nat, pc: nat, fr: Frame): Step
    requires f < |m|
  {
    var code := m[f].code;
    if pc >= |code| then Bad
    else
      var ins, offset := code[pc], Off(code, pc);
      if IsBasic(ins) then
        match StepBasic(fr, ins)
        case None => Bad
        case Some(fr') => Go(pc + 1, fr')
      else StepControl(m, f, pc, ins, offset, fr)
  }

  function StepControl(m: seq<Function>, f: nat, pc: nat, ins: Ins, offset: nat, fr: Frame): Step
    requires f < |m| && pc < |m[f].code|
  {
    var code := m[f].code;
    match ins
    case ChkNullV(v) =>
      if !Accessible(fr, v, 2) then Bad
      else if ReadVar(fr, v, 2) == 0 then Stop(EXCEPTION_NULL_POINTER, fr)
      else Go(pc + 1, fr)
    case ChkRef =>
      if |fr.stack| < 2 then Bad
      else if Top(fr) == 0 then Stop(EXCEPTION_NULL_POINTER, fr)
      else Go(pc + 1, fr)
    case Jmp(rel) => GoTo(code, offset + 2 + rel, fr)
    case JCond(c, rel) =>
      if Holds(c, Signed(Wrap(fr.register, 32), 32)) then GoTo(code, offset + 2 + rel, fr) else Go(pc + 1, fr)
    case JLow(zero, rel) =>
      if (Wrap(fr.register, 8) == 0) == zero then GoTo(code, offset + 2 + rel, fr) else Go(pc + 1, fr)
    case JmpP(v) =>
      if !Accessible(fr, v, 1) || ReadVar(fr, v, 1) >= TableSize(code, pc + 1) then Bad
      else GoTo(code, offset + 1 + 2 * ReadVar(fr, v, 1), fr)
    case Ret => Stop(OK, fr)
    case Call(callee) => if callee < |m| then StepCall(fr, callee, m[callee].sig) else Bad
    case _ => Bad
  }

  function Zeros(n: nat): (s: seq<Word>)
    ensures |s| == n
    ensures forall i :: 0 <= i < n ==> s[i] == 0
  {
    seq(n, _ => 0)
  }

  function InitialFrame(fn: Function, args: seq<Word>, globals: Globals): Frame {
    Frame(args, Zeros(fn.variableSpace), [], 0, globals)
  }

  /** The value the caller finds in its register: the low bits of the callee's, as wide as the result type. */
  function ReturnedValue(sig: Signature, fr: Frame): Option<QWord> {
    if !ReturnsInRegister(sig) then None
    else
      var v := Wrap(fr.register, BitsOf(sig.returnType.value.llvm));
      if v < M64 then Some(v) else None
  }

  function AfterCall(fr: Frame, sig: Signature, ret: Option<QWord>, globals: Globals): Frame {
    var fr' := fr.(globals := globals);
    if ReturnsInRegister(sig) && ret.Some? && ret.value < Modulus(BitsOf(sig.returnType.value.llvm))
    then fr'.(register := SetLow(fr.register, BitsOf(sig.returnType.value.llvm), ret.value))
    else fr'
  }

  /** What a call leaves the caller: the value in the low bits of its register, if there is one, and the globals. */
  lemma {:induction false} CallDelivers(fr: Frame, sig: Signature, ret: Option<QWord>, globals: Globals)
    requires ReturnsInRegister(sig) ==> BitsOf(sig.returnType.value.llvm) in {1, 8, 16, 32, 64}
    ensures
      var fr' := AfterCall(fr, sig, ret, globals);
      && fr'.globals == globals && fr'.stack == fr.stack && fr'.locals == fr.locals && fr'.args == fr.args
      && if ReturnsInRegister(sig) && ret.Some? && ret.value < Modulus(BitsOf(sig.returnType.value.llvm))
         then RegisterTakes(fr.register, fr'.register, BitsOf(sig.returnType.value.llvm), ret.value)
         else fr'.register == fr.register
  {
    if ReturnsInRegister(sig) && ret.Some? && ret.value < Modulus(BitsOf(sig.returnType.value.llvm)) {
      SetLowTakes(fr.register, BitsOf(sig.returnType.value.llvm), ret.value);
    }
  }

  /** Runs function f of the module from instruction pc. An exception ends every caller with the state it arrived in. */
  function Run(m: seq<Function>, f: nat, pc: nat, fr: Frame, fuel: nat): Outcome
    requires f < |m|
    decreases fuel
  {
    if fuel == 0 then OutOfFuel
    else
      match StepAt(m, f, pc, fr)
      case Bad => Fault
      case Go(pc', fr') => Run(m, f, pc', fr', fuel - 1)
      case Stop(state, fr') =>
        Done(state, if state == OK then ReturnedValue(m[f].sig, fr') else None, fr'.globals, fr'.locals, fr'.register)
      case Enter(callee, args, fr') =>
        if callee >= |m| then Fault
        else
          match Run(m, callee, 0, InitialFrame(m[callee], args, fr'.globals), fuel - 1)
          case OutOfFuel => OutOfFuel
          case Fault => Fault
          case Done(state, ret, globals, _, _) =>
            if state != OK then Done(state, None, globals, fr'.locals, fr'.register)
            else Run(m, f, pc + 1, AfterCall(fr', m[callee].sig, ret, globals), fuel - 1)
  }

  // ---------- what the translated code has no meaning for

  /** The VM reads one DWORD as the count of a 64-bit shift, the translated code two. They read the same number where
      the count has a DWORD beside it, and that one is zero. */
  predicate CountClean(fn: Function, fr: Frame, ins: Ins) {
    IsWideShift(ins) ==>
      ins.rhs.Var? && VarOk(fn, ins.rhs.v, 2) && Accessible(fr, ins.rhs.v, 2) && ReadVar(fr, ins.rhs.v, 2) < M32
  }

  /** The instruction neither touches a narrow parameter nor shifts by a count that is not clean. */
  predicate Clean(fn: Function, fr: Frame, ins: Ins) {
    WholeOperands(fn, ins) && CountClean(fn, fr, ins)
  }

  function CleanStepAt(m: seq<Function>, f: nat, pc: nat, fr: Frame): Step
    requires f < |m|
  {
    if pc < |m[f].code| && !Clean(m[f], fr, m[f].code[pc]) then Bad else StepAt(m, f, pc, fr)
  }

  /** The run of the VM, stopped with a fault at an instruction that is not clean. */
  function CleanRun(m: seq<Function>, f: nat, pc: nat, fr: Frame, fuel: nat): Outcome
    requires f < |m|
    decreases fuel
  {
    if fuel == 0 then OutOfFuel
    else
      match CleanStepAt(m, f, pc, fr)
      case Bad => Fault
      case Go(pc', fr') => CleanRun(m, f, pc', fr', fuel - 1)
      case Stop(state, fr') =>
        Done(state, if state == OK then ReturnedValue(m[f].sig, fr') else None, fr'.globals, fr'.locals, fr'.register)
      case Enter(callee, args, fr') =>
        if callee >= |m| then Fault
        else
          match CleanRun(m, callee, 0, InitialFrame(m[callee], args, fr'.globals), fuel - 1)
          case OutOfFuel => OutOfFuel
          case Fault => Fault
          case Done(state, ret, globals, _, _) =>
            if state != OK then Done(state, None, globals, fr'.locals, fr'.register)
            else CleanRun(m, f, pc + 1, AfterCall(fr', m[callee].sig, ret, globals), fuel - 1)
  }

  /** Stopping changes nothing else. */
  lemma {:induction false} CleanRunIsRun(m: seq<Function>, f: nat, pc: nat, fr: Frame, fuel: nat)
    requires f < |m| && CleanRun(m, f, pc, fr, fuel) != Fault
    ensures Run(m, f, pc, fr, fuel) == CleanRun(m, f, pc, fr, fuel)
    decreases fuel
  {
    hide StepAt, InitialFrame, AfterCall, Clean;
    if fuel > 0 {
      match CleanStepAt(m, f, pc, fr)
      case Bad =>
      case Stop(_, _) =>
      case Go(pc', fr') => CleanRunIsRun(m, f, pc', fr', fuel - 1);
      case Enter(callee, args, fr') =>
        if callee < |m| {
          var fr0 := InitialFrame(m[callee], args, fr'.globals);
          CleanRunIsRun(m, callee, 0, fr0, fuel - 1);
          var o := CleanRun(m, callee, 0, fr0, fuel - 1);
          if o.Done? && o.state == OK {
            CleanRunIsRun(m, f, pc + 1, AfterCall(fr', m[callee].sig, o.ret, o.globals), fuel - 1);
          }
        }
    }
  }
}
