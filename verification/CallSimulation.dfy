/** Null checks, returns and calls: where the VM raises an exception the target returns its state, and a call in the
    target enters the callee with a memory that represents the callee's frame. */
module CallSimulation {
  import opened Words
  import opened Signatures
  import opened Bytecode
  import opened Machine
  import opened Blocks
  import opened Frames
  import opened Translation
  import opened BlockPass
  import opened BlockPassRun
  import opened BasicSteps
  import opened CallSteps
  import opened Positions
  import opened StepSimulation

  /** What the target reports when it returns the state from this memory. */
  function Reported(target: Target, state: nat, mem: Memory): Outcome {
    Done(state, mem.ret, mem.globals, LocalsOf(target, mem), mem.register)
  }

  /** emit_check_boolean at run time: the state is returned if the condition holds, else control continues. */
  lemma {:induction false} CheckRuns(
    p: seq<Target>, f: nat, b: Builder, condition: Expr, state: Expr, mem: Memory, v: nat, s: nat)
    requires f < |p| && b.cur < |b.blocks| && ContainsCode(p[f], EmitCheck(b, condition, state))
    requires Eval(mem, condition) == Some(v) && Eval(mem, state) == Some(s)
    ensures v == 1 ==> EndsIn(p, f, EndOf(b), mem, 2, Reported(p[f], s, mem))
    ensures v != 1 ==> Leads(p, f, EndOf(b), mem, 1, EndOf(EmitCheck(b, condition, state)), mem)
  {
    var n := |b.blocks|;
    var b' := EmitCheck(b, condition, state);
    assert b'.blocks[b.cur] <= p[f].blocks[b.cur];
    assert b'.blocks[n] <= p[f].blocks[n];
    CondBrLeads(p, f, EndOf(b), condition, n, n + 1, mem, v);
    if v == 1 {
      ReturnEnds(p, f, Pos(n, 0), state, mem, s);
      LeadsThenEnds(p, f, EndOf(b), mem, 1, Pos(n, 0), mem, 1, Reported(p[f], s, mem));
    }
  }

  lemma {:induction false} LocalsAgree(fn: Function, target: Target, fr: Frame, mem: Memory, sp: int)
    requires SameFrame(fn, target) && Represents(fn, fr, mem, sp)
    ensures LocalsOf(target, mem) == fr.locals
  {
    var locals := LocalsOf(target, mem);
    assert |locals| == |fr.locals|;
    forall i | 0 <= i < |locals|
      ensures locals[i] == fr.locals[i]
    {
      assert mem.storage[|mem.storage| - 1 - i] == Cell(fr, i);
    }
  }

  lemma {:induction false} RepresentedReport(
    m: seq<Function>, p: seq<Target>, f: nat, fr: Frame, mem: Memory, sp: int, state: nat)
    requires Compiled(m, p) && f < |m| && Represents(m[f], fr, mem, sp)
    ensures |p| == |m| && Reported(p[f], state, mem) == Done(state, None, fr.globals, fr.locals, fr.register)
  {
    hide StateAt, WellFormed, Compiled, LocalsOf;
    FinalHolds(m, p, f);
    LocalsAgree(m[f], p[f], fr, mem, sp);
  }

  lemma {:induction false} NullCheckEval(mem: Memory, e: Expr, q: nat)
    requires Eval(mem, e) == Some(q) && Bits(e) == 64
    ensures Eval(mem, NullCheck(e)) == Some(if q == 0 then 1 else 0)
    ensures Eval(mem, Const(8, EXCEPTION_NULL_POINTER)) == Some(EXCEPTION_NULL_POINTER)
  {
    assert Eval(mem, Const(64, 0)) == Some(0);
  }

  /** The pointer a null check instruction looks at. */
  function CheckedOffset(ins: Ins, sp: int): int
    requires ins.ChkNullV? || ins.ChkRef?
  {
    if ins.ChkNullV? then ins.v else sp
  }

  predicate CheckedAccessible(fr: Frame, ins: Ins)
    requires ins.ChkNullV? || ins.ChkRef?
  {
    if ins.ChkNullV? then Accessible(fr, ins.v, 2) else |fr.stack| >= 2
  }

  function CheckedValue(fr: Frame, ins: Ins): QWord
    requires (ins.ChkNullV? || ins.ChkRef?) && CheckedAccessible(fr, ins)
  {
    if ins.ChkNullV? then ReadVar(fr, ins.v, 2) else Top(fr)
  }

  lemma {:induction false} CheckedLoad(fn: Function, functions: nat, fr: Frame, mem: Memory, sp: int, ins: Ins)
    requires Represents(fn, fr, mem, sp) && OperandsOk(fn, functions, ins) && NativeSignature(fn.sig)
    requires (ins.ChkNullV? || ins.ChkRef?) && CheckedAccessible(fr, ins)
    ensures Eval(mem, LoadSlot(fn, CheckedOffset(ins, sp), 64)) == Some(CheckedValue(fr, ins))
  {
    if ins.ChkNullV? {
      PairIsWhole(fn, ins.v);
      LoadEval(fn, fr, mem, sp, ins.v, 2);
    } else {
      LoadOperand(fn, fr, mem, sp, 0, 2);
    }
  }

  /** Null checks: either the target returns the null pointer state, or it goes on with the same memory. */
  lemma {:induction false} NullCheckStep(m: seq<Function>, p: seq<Target>, f: nat, i: nat, fr: Frame, mem: Memory)
    returns (c: nat)
    requires Compiled(m, p) && f < |m| && Simulates(m, f, i, fr, mem)
    requires (m[f].code[i].ChkNullV? || m[f].code[i].ChkRef?) && CheckedAccessible(fr, m[f].code[i])
    ensures f < |p| && 1 <= c <= 2 && i + 1 < |m[f].code|
    ensures CheckedValue(fr, m[f].code[i]) == 0 ==>
      EndsIn(p, f, PosOf(m, f, i), mem, c, Done(EXCEPTION_NULL_POINTER, None, fr.globals, fr.locals, fr.register))
    ensures CheckedValue(fr, m[f].code[i]) != 0 ==>
      Leads(p, f, PosOf(m, f, i), mem, c, PosOf(m, f, i + 1), mem) && Simulates(m, f, i + 1, fr, mem)
  {
    hide Compiled, Labels, Represents, PosOf, DepthOf, Leads, EndsIn, Eval, EmitCheck, ContainsCode, CheckedValue,
      CheckedAccessible, LoadSlot, SlotOk, OperandsOk, Reported, NullCheck;
    var w, b' := Place(m, p, f, i);
    PlacedFacts(m, p, f, i, w, b');
    var ins := m[f].code[i];
    var e, state := LoadSlot(m[f], CheckedOffset(ins, w.sp), 64), Const(8, EXCEPTION_NULL_POINTER);
    CheckedLoad(m[f], |m|, fr, mem, w.sp, ins);
    LoadSlotBits(m[f], CheckedOffset(ins, w.sp));
    var q := CheckedValue(fr, ins);
    NullCheckEval(mem, e, q);
    CheckRuns(p, f, w, NullCheck(e), state, mem, if q == 0 then 1 else 0, EXCEPTION_NULL_POINTER);
    var c2 := ArriveNext(m, p, f, i, w, b', mem);
    if q == 0 {
      c := 2;
      RepresentedReport(m, p, f, fr, mem, w.sp, EXCEPTION_NULL_POINTER);
    } else {
      LeadsCompose(p, f, PosOf(m, f, i), mem, 1, EndOf(b'), mem, c2, PosOf(m, f, i + 1), mem);
      c := 1 + c2;
      EmitCheckSp(w, NullCheck(e), state);
    }
  }

  lemma {:induction false} EmitCheckSp(b: Builder, condition: Expr, state: Expr)
    requires b.cur < |b.blocks|
    ensures EmitCheck(b, condition, state).sp == b.sp
  {
  }

  lemma {:induction false} LoadSlotBits(fn: Function, o: int)
    ensures Bits(LoadSlot(fn, o, 64)) == 64
  {
  }

  /** RET: the result is written through the return pointer, and the state is Ok. */
  lemma {:induction false} ReturnStep(m: seq<Function>, p: seq<Target>, f: nat, i: nat, fr: Frame, mem: Memory)
    requires Compiled(m, p) && f < |m| && Simulates(m, f, i, fr, mem) && m[f].code[i].Ret?
    ensures f < |p|
    ensures EndsIn(p, f, PosOf(m, f, i), mem, 2,
      Done(OK, ReturnedValue(m[f].sig, fr), fr.globals, fr.locals, fr.register))
  {
    hide Compiled, Labels, Represents, PosOf, DepthOf, Leads, EndsIn;
    var w, b' := Place(m, p, f, i);
    PlacedFacts(m, p, f, i, w, b');
    RegisterMatches(m[f], fr, mem, w.sp);
    var code := ReturnCode(m[f]);
    CodeAppended(m, p, f, i, w, b', code, 0);
    var pos := EndOf(w);
    RepresentedReport(m, p, f, fr, mem, w.sp, OK);
    if ReturnsInRegister(m[f].sig) {
      CodeAppended(m, p, f, i, w, b', code, 1);
      var mem' := StoreReturn(m[f], fr, mem, code[0]);
      StoreLeads(p, f, pos, code[0], mem, mem');
      ReturnEnds(p, f, Pos(pos.b, pos.k + 1), Const(8, OK), mem', OK);
      LeadsThenEnds(p, f, pos, mem, 1, Pos(pos.b, pos.k + 1), mem', 1, Reported(p[f], OK, mem'));
    } else {
      ReturnEnds(p, f, pos, Const(8, OK), mem, OK);
      EndsLater(p, f, pos, mem, 1, 2, Reported(p[f], OK, mem));
    }
  }

  lemma {:induction false} EndsLater(p: seq<Target>, f: nat, pos: Pos, mem: Memory, c: nat, c': nat, o: Outcome)
    requires f < |p| && c <= c' && EndsIn(p, f, pos, mem, c, o)
    ensures EndsIn(p, f, pos, mem, c', o)
  {
  }

  lemma {:induction false} StoreReturn(fn: Function, fr: Frame, mem: Memory, i: Instr) returns (mem': Memory)
    requires NativeSignature(fn.sig) && ReturnsInRegister(fn.sig) && i == ReturnCode(fn)[0]
    requires mem.register == fr.register
    ensures Executes([i], mem, mem') && mem' == mem.(ret := ReturnedValue(fn.sig, fr))
  {
    mem' := mem.(ret := ReturnedValue(fn.sig, fr));
  }

  // ---------- calls

  lemma {:induction false} CheckExtends(b: Builder, condition: Expr, state: Expr)
    requires b.cur < |b.blocks|
    ensures Extends(b, EmitCheck(b, condition, state))
    ensures EmitCheck(b, condition, state).cur < |EmitCheck(b, condition, state).blocks|
  {
  }

  /** The builder before and after the call instruction: b1 once the object is checked, b2 with the call. */
  ghost predicate CallParts(
    fn: Function, w: Builder, b1: Builder, b2: Builder, b': Builder, callee: nat, sig: Signature)
  {
    && w.cur < |w.blocks| && b1.cur < |b1.blocks| && b2.cur < |b2.blocks|
    && b1 == (
      if sig.objectType.Some?
      then EmitCheck(w, NullCheck(LoadSlot(fn, w.sp - ObjectPosition(sig), 64)), Const(8, EXCEPTION_NULL_POINTER))
      else w)
    && b2 == Append(b1, [CallFunction(callee, ArgumentExprs(fn, CallArguments(sig), w.sp))])
    && b' == EmitCheck(b2, StateCheck(), CallState).(sp := w.sp - Dwords(StackTypes(sig)))
  }

  lemma {:induction false} CallShape(fn: Function, w: Builder, callee: nat, sig: Signature, b': Builder)
    returns (b1: Builder, b2: Builder)
    requires w.cur < |w.blocks| && EmitCall(fn, w, callee, sig) == Some(b')
    ensures CallParts(fn, w, b1, b2, b', callee, sig)
    ensures Extends(b1, b2) && Extends(b2, EmitCheck(b2, StateCheck(), CallState))
  {
    hide StackTypes, ArgumentExprs, CallArguments, SlotAddr, NullCheck, Extends;
    var code := [CallFunction(callee, ArgumentExprs(fn, CallArguments(sig), w.sp))];
    b1 := w;
    if sig.objectType.Some? {
      b1 := EmitCheck(w, NullCheck(LoadSlot(fn, w.sp - ObjectPosition(sig), 64)), Const(8, EXCEPTION_NULL_POINTER));
    }
    b2 := Append(b1, code);
    CheckExtends(b2, StateCheck(), CallState);
    AppendExtends(b1, code);
  }

  lemma {:induction false} SpIrrelevant(target: Target, b: Builder, b': Builder)
    requires ContainsCode(target, b') && b'.blocks == b.blocks
    ensures ContainsCode(target, b)
  {
  }

  lemma {:induction false} CallPlaced(m: seq<Function>, p: seq<Target>, f: nat, i: nat, w: Builder, b': Builder)
    returns (b1: Builder, b2: Builder)
    requires Placed(m, p, f, i, w, b') && m[f].code[i].Call?
    ensures |p| == |m| && m[f].code[i].callee < |m|
    ensures CallParts(m[f], w, b1, b2, b', m[f].code[i].callee, m[m[f].code[i].callee].sig)
    ensures ContainsCode(p[f], b1) && ContainsCode(p[f], b2)
    ensures ContainsCode(p[f], EmitCheck(b2, StateCheck(), CallState))
  {
    hide Compiled, StateAt, EnteredAt, EmitCall, EmitCheck, ContainsCode, Extends, Append;
    PlacedFacts(m, p, f, i, w, b');
    b1, b2 := CallShape(m[f], w, m[f].code[i].callee, m[m[f].code[i].callee].sig, b');
    var b3 := EmitCheck(b2, StateCheck(), CallState);
    SpIrrelevant(p[f], b3, b');
    ExtendsHolds(p[f], b2, b3);
    ExtendsHolds(p[f], b1, b2);
  }

  /** The object a method call checks is the one the VM checks. */
  lemma {:induction false} ObjectEval(fn: Function, fr: Frame, mem: Memory, sp: int, sig: Signature)
    requires Represents(fn, fr, mem, sp) && NativeSignature(sig) && sig.objectType.Some?
    requires Dwords(StackTypes(sig)) <= |fr.stack|
    ensures
      var r, args := ObjectPosition(sig), Passed(fr, Dwords(StackTypes(sig)));
      && r + 2 <= |args|
      && Eval(mem, LoadSlot(fn, sp - r, 64)) == Some(Join(args[r], args[r + 1]))
  {
    ObjectPassed(sig);
    LoadOperand(fn, fr, mem, sp, ObjectPosition(sig), 2);
  }

  /** What the VM's call step says about the object. */
  lemma {:induction false} CallObject(fr: Frame, callee: nat, sig: Signature)
    requires !StepCall(fr, callee, sig).Bad?
    ensures Dwords(StackTypes(sig)) <= |fr.stack|
    ensures
      var r, args, step := ObjectPosition(sig), Passed(fr, Dwords(StackTypes(sig))), StepCall(fr, callee, sig);
      && (step.Stop? ==>
        && step == Stop(EXCEPTION_NULL_POINTER, Drop(fr, Dwords(StackTypes(sig))))
        && sig.objectType.Some? && r + 2 <= |args| && Join(args[r], args[r + 1]) == 0)
      && (step.Enter? ==>
        && step == Enter(callee, args, Drop(fr, Dwords(StackTypes(sig))))
        && (sig.objectType.Some? ==> r + 2 <= |args| && Join(args[r], args[r + 1]) != 0))
      && !step.Go?
  {
    hide StackTypes, Dwords;
  }

  /** A call on a null object: the null pointer state is returned before the callee runs. */
  lemma {:induction false} NullObjectStep(m: seq<Function>, p: seq<Target>, f: nat, i: nat, fr: Frame, mem: Memory)
    requires Compiled(m, p) && f < |m| && Simulates(m, f, i, fr, mem) && m[f].code[i].Call?
    requires m[f].code[i].callee < |m|
    requires StepCall(fr, m[f].code[i].callee, m[m[f].code[i].callee].sig).Stop?
    ensures f < |p|
    ensures EndsIn(p, f, PosOf(m, f, i), mem, 2,
      Done(EXCEPTION_NULL_POINTER, None, fr.globals, fr.locals, fr.register))
  {
    hide Compiled, Labels, Represents, PosOf, DepthOf, EndsIn, Eval, EmitCheck, ContainsCode, LoadSlot, Reported,
      NullCheck, StackTypes, NativeSignature, Append, StepCall, ObjectPosition, Passed, Join, StepAt, EmitCall, Emit,
      EmitControl, BlocksOk, WithinBounds, TotalSpace, Dwords, ReadBefore, CallArguments, ArgumentExprs,
      ArgumentSlotsOk, SlotOk;
    var sig := m[m[f].code[i].callee].sig;
    CallObject(fr, m[f].code[i].callee, sig);
    var w, b' := Place(m, p, f, i);
    PlacedFacts(m, p, f, i, w, b');
    var b1, b2 := CallPlaced(m, p, f, i, w, b');
    CalleeFacts(m, p, m[f].code[i].callee);
    ObjectEval(m[f], fr, mem, w.sp, sig);
    var e, state := LoadSlot(m[f], w.sp - ObjectPosition(sig), 64), Const(8, EXCEPTION_NULL_POINTER);
    LoadSlotBits(m[f], w.sp - ObjectPosition(sig));
    NullCheckEval(mem, e, 0);
    CheckRuns(p, f, w, NullCheck(e), state, mem, 1, EXCEPTION_NULL_POINTER);
    RepresentedReport(m, p, f, fr, mem, w.sp, EXCEPTION_NULL_POINTER);
  }

  lemma {:induction false} CalleeFacts(m: seq<Function>, p: seq<Target>, callee: nat)
    requires Compiled(m, p) && callee < |m|
    ensures |p| == |m| && SameFrame(m[callee], p[callee]) && NativeSignature(m[callee].sig)
    ensures |m[callee].code| > 0 && m[callee].variableSpace <= TotalSpace(m[callee])
  {
    assert CompiledFunction(m, p, callee);
    var w, b' := Place(m, p, callee, 0);
    hide StateAt;
    FinalHolds(m, p, callee);
  }

  /** The target is at the call: its arguments evaluate, and the callee would start in a memory that represents the
      frame the VM gives the callee. */
  ghost predicate AtCall(
    m: seq<Function>, p: seq<Target>, f: nat, callee: nat, fr: Frame, mem: Memory, pos: Pos, args: seq<ArgExpr>,
    values: seq<Option<nat>>)
  {
    && f < |p| == |m| && callee < |m|
    && InstrAt(p, f, pos, CallFunction(callee, args))
    && EvalArgs(mem, args) == Some(values)
    && Dwords(StackTypes(m[callee].sig)) <= |fr.stack|
    && Represents(
      m[callee], InitialFrame(m[callee], Passed(fr, Dwords(StackTypes(m[callee].sig))), mem.globals),
      InitialMemory(p[callee], values, mem.globals), m[callee].variableSpace)
  }

  lemma {:induction false} CallReached(
    m: seq<Function>, p: seq<Target>, f: nat, i: nat, fr: Frame, mem: Memory, w: Builder, b1: Builder, b2: Builder,
    b': Builder)
    returns (c: nat)
    requires Compiled(m, p) && f < |m| == |p| && Represents(m[f], fr, mem, w.sp)
    requires i < |m[f].code| && m[f].code[i].Call? && m[f].code[i].callee < |m|
    requires CallParts(m[f], w, b1, b2, b', m[f].code[i].callee, m[m[f].code[i].callee].sig)
    requires ContainsCode(p[f], b1)
    requires StepCall(fr, m[f].code[i].callee, m[m[f].code[i].callee].sig).Enter?
    ensures c <= 1 && Leads(p, f, EndOf(w), mem, c, EndOf(b1), mem)
  {
    hide Compiled, Represents, Leads, Eval, EmitCheck, ContainsCode, LoadSlot, NullCheck, StackTypes, NativeSignature,
      Append, StepCall, ObjectPosition, Passed, Join;
    var sig := m[m[f].code[i].callee].sig;
    CallObject(fr, m[f].code[i].callee, sig);
    if sig.objectType.Some? {
      CalleeFacts(m, p, m[f].code[i].callee);
      ObjectEval(m[f], fr, mem, w.sp, sig);
      var e := LoadSlot(m[f], w.sp - ObjectPosition(sig), 64);
      LoadSlotBits(m[f], w.sp - ObjectPosition(sig));
      var args := Passed(fr, Dwords(StackTypes(sig)));
      NullCheckEval(mem, e, Join(args[ObjectPosition(sig)], args[ObjectPosition(sig) + 1]));
      CheckRuns(p, f, w, NullCheck(e), Const(8, EXCEPTION_NULL_POINTER), mem, 0, EXCEPTION_NULL_POINTER);
      c := 1;
    } else {
      LeadsStay(p, f, EndOf(w), mem);
      c := 0;
    }
  }

  lemma {:induction false} CallInstr(p: seq<Target>, f: nat, b1: Builder, b2: Builder, i: Instr)
    requires f < |p| && b1.cur < |b1.blocks| && b2 == Append(b1, [i]) && ContainsCode(p[f], b2)
    ensures InstrAt(p, f, EndOf(b1), i)
    ensures b2.cur < |b2.blocks| && EndOf(b2) == Pos(EndOf(b1).b, EndOf(b1).k + 1)
  {
    assert b2.blocks[b1.cur] <= p[f].blocks[b1.cur];
  }

  lemma {:induction false} CallValues(
    m: seq<Function>, p: seq<Target>, f: nat, callee: nat, fr: Frame, mem: Memory, sp: int, pos: Pos)
    returns (values: seq<Option<nat>>)
    requires Compiled(m, p) && f < |m| == |p| && callee < |m| && Represents(m[f], fr, mem, sp)
    requires Dwords(StackTypes(m[callee].sig)) <= |fr.stack|
    requires InstrAt(p, f, pos, CallFunction(callee, ArgumentExprs(m[f], CallArguments(m[callee].sig), sp)))
    ensures AtCall(m, p, f, callee, fr, mem, pos, ArgumentExprs(m[f], CallArguments(m[callee].sig), sp), values)
  {
    hide Compiled, Represents, EvalArgs, ArgumentExprs, StackTypes, LeadArguments, InitialMemory, ArgumentsUpTo,
      SameFrame, InitialFrame, ArgumentValues;
    var sig := m[callee].sig;
    CalleeFacts(m, p, callee);
    LeadEval(m[f], mem, sig, sp);
    LeadArgumentsCount(sig);
    values := ArgumentsEval(m[f], fr, mem, sp, LeadArguments(sig), StackTypes(sig), |StackTypes(sig)|);
    CalleeRepresents(m[callee], p[callee], fr, values, mem.globals);
  }

  lemma {:induction false} LeadArgumentsCount(sig: Signature)
    ensures |LeadArguments(sig)| == LeadCount(sig)
  {
  }

  /** A call the VM makes is a call the target makes, with the same callee frame. */
  lemma {:induction false} EnterStep(m: seq<Function>, p: seq<Target>, f: nat, i: nat, fr: Frame, mem: Memory)
    returns (c: nat, pos: Pos, args: seq<ArgExpr>, values: seq<Option<nat>>)
    requires Compiled(m, p) && f < |m| && Simulates(m, f, i, fr, mem) && m[f].code[i].Call?
    requires m[f].code[i].callee < |m|
    requires StepCall(fr, m[f].code[i].callee, m[m[f].code[i].callee].sig).Enter?
    ensures f < |p| && c <= 1 && Leads(p, f, PosOf(m, f, i), mem, c, pos, mem)
    ensures AtCall(m, p, f, m[f].code[i].callee, fr, mem, pos, args, values)
    ensures AfterCallAt(m, p, f, i, pos)
  {
    hide Compiled, Represents, PosOf, DepthOf, Leads, EmitCheck, ContainsCode, StackTypes, Append, ArgumentExprs,
      CallArguments, AtCall, EmitControl;
    var callee := m[f].code[i].callee;
    var w, b' := Place(m, p, f, i);
    PlacedFacts(m, p, f, i, w, b');
    var b1, b2 := CallPlaced(m, p, f, i, w, b');
    c := CallReached(m, p, f, i, fr, mem, w, b1, b2, b');
    pos := EndOf(b1);
    args := ArgumentExprs(m[f], CallArguments(m[callee].sig), w.sp);
    CallInstr(p, f, b1, b2, CallFunction(callee, args));
    values := CallValues(m, p, f, callee, fr, mem, w.sp, pos);
    assert BehindCall(m, p, f, i, pos, w, b2, b');
  }

  /** Behind the call are the check of its state and the rest of the function. */
  ghost predicate AfterCallAt(m: seq<Function>, p: seq<Target>, f: nat, i: nat, pos: Pos)
    requires f < |m| == |p| && i < |m[f].code| && m[f].code[i].Call? && m[f].code[i].callee < |m|
  {
    exists w, b2, b' :: BehindCall(m, p, f, i, pos, w, b2, b')
  }

  ghost predicate BehindCall(
    m: seq<Function>, p: seq<Target>, f: nat, i: nat, pos: Pos, w: Builder, b2: Builder, b': Builder)
    requires f < |m| == |p| && i < |m[f].code| && m[f].code[i].Call? && m[f].code[i].callee < |m|
  {
    && Placed(m, p, f, i, w, b')
    && b2.cur < |b2.blocks|
    && ContainsCode(p[f], EmitCheck(b2, StateCheck(), CallState))
    && b' == EmitCheck(b2, StateCheck(), CallState).(sp := w.sp - Dwords(StackTypes(m[m[f].code[i].callee].sig)))
    && EndOf(b2) == Pos(pos.b, pos.k + 1)
  }

  lemma {:induction false} StateCheckEval(mem: Memory)
    ensures Eval(mem, StateCheck()) == Some(if mem.callState != OK then 1 else 0)
    ensures Eval(mem, CallState) == Some(mem.callState)
  {
    assert Eval(mem, Const(8, OK)) == Some(OK);
  }

  lemma {:induction false} AfterCallRepresents(
    fn: Function, fr: Frame, mem: Memory, sp: int, sig: Signature, state: nat, ret: Option<QWord>, globals: Globals)
    requires Represents(fn, fr, mem, sp) && Dwords(StackTypes(sig)) <= |fr.stack|
    ensures Represents(
      fn, AfterCall(Drop(fr, Dwords(StackTypes(sig))), sig, ret, globals),
      AfterCallFunction(mem, sig, state, ret, globals), sp - Dwords(StackTypes(sig)))
  {
    DropRepresents(fn, fr, mem, sp, Dwords(StackTypes(sig)));
    hide ParamsRepresent, Dwords;
    var fr1 := Drop(fr, Dwords(StackTypes(sig)));
    var fr' := AfterCall(fr1, sig, ret, globals);
    assert forall i :: 0 <= i < |fr1.locals| + |fr1.stack| ==> Cell(fr', i) == Cell(fr1, i);
  }

  /** What the target does once the callee is back: an exception state is returned unchanged with no further effect;
      otherwise control goes on behind the call with the result in the register. */
  ghost predicate Resumes(
    m: seq<Function>, p: seq<Target>, f: nat, i: nat, pos: Pos, c: nat, state: nat, fr: Frame, fr1: Frame, mem1: Memory)
    requires f < |m| == |p| && i + 1 < |m[f].code|
  {
    if state != OK then EndsIn(p, f, pos, mem1, c, Done(state, None, mem1.globals, fr.locals, fr.register))
    else Leads(p, f, pos, mem1, c, PosOf(m, f, i + 1), mem1) && Simulates(m, f, i + 1, fr1, mem1)
  }

  lemma {:induction false} ResumeStep(
    m: seq<Function>, p: seq<Target>, f: nat, i: nat, w: Builder, b2: Builder, b': Builder, pos: Pos, fr: Frame,
    fr1: Frame, mem1: Memory)
    returns (c: nat)
    requires Compiled(m, p) && f < |m| == |p| && i < |m[f].code| && m[f].code[i].Call? && m[f].code[i].callee < |m|
    requires BehindCall(m, p, f, i, pos, w, b2, b') && Represents(m[f], fr1, mem1, b'.sp)
    requires mem1.callState != OK ==> fr1.locals == fr.locals && fr1.register == fr.register
    ensures 1 <= c <= 2 && i + 1 < |m[f].code|
    ensures Resumes(m, p, f, i, Pos(pos.b, pos.k + 1), c, mem1.callState, fr, fr1, mem1)
  {
    hide Compiled, Represents, PosOf, DepthOf, Leads, EndsIn, EmitCheck, ContainsCode, StackTypes, Placed, Eval,
      Reported, StateCheck, Dwords;
    PlacedFacts(m, p, f, i, w, b');
    StateCheckEval(mem1);
    var state := mem1.callState;
    CheckRuns(p, f, b2, StateCheck(), CallState, mem1, if state != OK then 1 else 0, state);
    RepresentedReport(m, p, f, fr1, mem1, b'.sp, state);
    RegisterMatches(m[f], fr1, mem1, b'.sp);
    var c2 := ArriveNext(m, p, f, i, w, b', mem1);
    if state == OK {
      LeadsCompose(p, f, EndOf(b2), mem1, 1, EndOf(b'), mem1, c2, PosOf(m, f, i + 1), mem1);
      c := 1 + c2;
    } else {
      c := 2;
    }
  }

  lemma {:induction false} AfterStep(
    m: seq<Function>, p: seq<Target>, f: nat, i: nat, fr: Frame, mem: Memory, pos: Pos, state: nat,
    ret: Option<QWord>, globals: Globals)
    returns (c: nat)
    requires Compiled(m, p) && f < |m| == |p| && Simulates(m, f, i, fr, mem) && m[f].code[i].Call?
    requires m[f].code[i].callee < |m| && Dwords(StackTypes(m[m[f].code[i].callee].sig)) <= |fr.stack|
    requires AfterCallAt(m, p, f, i, pos)
    requires state != OK ==> ret == None
    ensures 1 <= c <= 2 && i + 1 < |m[f].code|
    ensures
      var sig := m[m[f].code[i].callee].sig;
      Resumes(
        m, p, f, i, Pos(pos.b, pos.k + 1), c, state, fr,
        AfterCall(Drop(fr, Dwords(StackTypes(sig))), sig, ret, globals),
        AfterCallFunction(mem, sig, state, ret, globals))
  {
    hide Compiled, Represents, PosOf, DepthOf, Resumes, StackTypes, Placed, Dwords;
    var sig := m[m[f].code[i].callee].sig;
    var w, b2, b' :| BehindCall(m, p, f, i, pos, w, b2, b');
    PlacedFacts(m, p, f, i, w, b');
    AfterCallRepresents(m[f], fr, mem, w.sp, sig, state, ret, globals);
    c := ResumeStep(
      m, p, f, i, w, b2, b', pos, fr, AfterCall(Drop(fr, Dwords(StackTypes(sig))), sig, ret, globals),
      AfterCallFunction(mem, sig, state, ret, globals));
  }
}
