/** Exceptions between functions: every call in translated code is followed by a check of the state it returned, so a
    state other than Ok travels through a chain of calls of any depth. */
module Unwinding {
  import opened Words
  import opened Signatures
  import opened Bytecode
  import opened Machine
  import opened Blocks
  import opened Frames
  import opened Translation
  import opened LabelPass
  import opened BlockPassRun
  import opened Positions
  import opened CallSimulation
  import opened Simulation

  // ---------- every call is checked

  /** Behind instruction k of block j the state of the last call is compared with Ok, and another one is returned. */
  ghost predicate Checked(blocks: seq<seq<Instr>>, j: nat, k: nat) {
    && j < |blocks| && k + 1 < |blocks[j]|
    && exists n: nat :: ReturnsState(blocks, n) && blocks[j][k + 1] == CondBr(StateCheck(), n, n + 1)
  }

  ghost predicate ReturnsState(blocks: seq<seq<Instr>>, n: nat) {
    n + 1 < |blocks| && |blocks[n]| > 0 && blocks[n][0] == Return(CallState)
  }

  ghost predicate CallAt(blocks: seq<seq<Instr>>, j: nat, k: nat) {
    j < |blocks| && k < |blocks[j]| && blocks[j][k].CallFunction?
  }

  ghost predicate CallsChecked(blocks: seq<seq<Instr>>) {
    forall j: nat, k: nat :: CallAt(blocks, j, k) ==> Checked(blocks, j, k)
  }

  ghost predicate Grows(blocks: seq<seq<Instr>>, blocks': seq<seq<Instr>>) {
    |blocks| <= |blocks'| && forall j :: 0 <= j < |blocks| ==> blocks[j] <= blocks'[j]
  }

  lemma {:induction false} CheckedKept(blocks: seq<seq<Instr>>, blocks': seq<seq<Instr>>, j: nat, k: nat)
    requires Grows(blocks, blocks') && Checked(blocks, j, k)
    ensures Checked(blocks', j, k)
  {
    var n: nat :| ReturnsState(blocks, n) && blocks[j][k + 1] == CondBr(StateCheck(), n, n + 1);
    assert blocks[n] <= blocks'[n] && blocks[j] <= blocks'[j];
    assert ReturnsState(blocks', n);
  }

  predicate CallFree(code: seq<Instr>) {
    forall k :: 0 <= k < |code| ==> !code[k].CallFunction?
  }

  /** Code without calls keeps all calls checked. */
  lemma {:induction false} AppendChecked(b: Builder, code: seq<Instr>)
    requires b.cur < |b.blocks| && CallsChecked(b.blocks) && CallFree(code)
    ensures CallsChecked(Append(b, code).blocks)
  {
    hide CallsChecked, Checked;
    var blocks' := Append(b, code).blocks;
    assert Grows(b.blocks, blocks');
    forall j: nat, k: nat | CallAt(blocks', j, k)
      ensures Checked(blocks', j, k)
    {
      assert CallAt(b.blocks, j, k);
      ChecksAt(b.blocks, j, k);
      CheckedKept(b.blocks, blocks', j, k);
    }
    AllChecked(blocks');
  }

  lemma {:induction false} ChecksAt(blocks: seq<seq<Instr>>, j: nat, k: nat)
    requires CallsChecked(blocks) && CallAt(blocks, j, k)
    ensures Checked(blocks, j, k)
  {
  }

  lemma {:induction false} AllChecked(blocks: seq<seq<Instr>>)
    requires forall j: nat, k: nat :: CallAt(blocks, j, k) ==> Checked(blocks, j, k)
    ensures CallsChecked(blocks)
  {
  }

  /** So does a check, and the check of a state makes a call in front of it checked. */
  lemma {:induction false} CheckChecked(b: Builder, condition: Expr, state: Expr)
    requires b.cur < |b.blocks|
    requires forall j: nat, k: nat ::
      CallAt(b.blocks, j, k) && (j, k + 1) != (b.cur, |b.blocks[b.cur]|) ==> Checked(b.blocks, j, k)
    requires
      var last := |b.blocks[b.cur]| - 1;
      last >= 0 && b.blocks[b.cur][last].CallFunction? ==> condition == StateCheck() && state == CallState
    ensures CallsChecked(EmitCheck(b, condition, state).blocks)
  {
    hide CallsChecked, Checked;
    var n := |b.blocks|;
    var blocks' := EmitCheck(b, condition, state).blocks;
    assert Grows(b.blocks, blocks');
    forall j: nat, k: nat | CallAt(blocks', j, k)
      ensures Checked(blocks', j, k)
    {
      assert CallAt(b.blocks, j, k);
      if (j, k + 1) == (b.cur, |b.blocks[b.cur]|) {
        NewCheck(b, j, k);
      } else {
        CheckedKept(b.blocks, blocks', j, k);
      }
    }
    AllChecked(blocks');
  }

  lemma {:induction false} NewCheck(b: Builder, j: nat, k: nat)
    requires b.cur < |b.blocks| && j == b.cur && k + 1 == |b.blocks[j]|
    ensures Checked(EmitCheck(b, StateCheck(), CallState).blocks, j, k)
  {
    var blocks' := EmitCheck(b, StateCheck(), CallState).blocks;
    assert ReturnsState(blocks', |b.blocks|);
  }

  lemma {:induction false} CheckKeepsChecked(b: Builder, condition: Expr, state: Expr)
    requires b.cur < |b.blocks| && CallsChecked(b.blocks)
    ensures CallsChecked(EmitCheck(b, condition, state).blocks)
  {
    if |b.blocks[b.cur]| > 0 {
      LastIsNoCall(b.blocks, b.cur);
    }
    CheckChecked(b, condition, state);
  }

  lemma {:induction false} LastIsNoCall(blocks: seq<seq<Instr>>, j: nat)
    requires CallsChecked(blocks) && j < |blocks| && |blocks[j]| > 0
    ensures !blocks[j][|blocks[j]| - 1].CallFunction?
  {
    var last: nat := |blocks[j]| - 1;
    assert CallAt(blocks, j, last) ==> Checked(blocks, j, last);
  }

  lemma {:induction false} CallChecked(b: Builder, callee: nat, args: seq<ArgExpr>)
    requires b.cur < |b.blocks| && CallsChecked(b.blocks)
    ensures CallsChecked(EmitCheck(Append(b, [CallFunction(callee, args)]), StateCheck(), CallState).blocks)
  {
    var b' := Append(b, [CallFunction(callee, args)]);
    assert Grows(b.blocks, b'.blocks);
    forall j: nat, k: nat | CallAt(b'.blocks, j, k) && (j, k + 1) != (b'.cur, |b'.blocks[b'.cur]|)
      ensures Checked(b'.blocks, j, k)
    {
      assert CallAt(b.blocks, j, k);
      CheckedKept(b.blocks, b'.blocks, j, k);
    }
    CheckChecked(b', StateCheck(), CallState);
  }

  lemma {:induction false} EmitCallChecked(fn: Function, b: Builder, callee: nat, sig: Signature)
    requires b.cur < |b.blocks| && CallsChecked(b.blocks) && EmitCall(fn, b, callee, sig).Some?
    ensures CallsChecked(EmitCall(fn, b, callee, sig).value.blocks)
  {
    hide CallsChecked, ArgumentExprs, CallArguments, StackTypes, SlotAddr;
    var b1 := b;
    if sig.objectType.Some? {
      var condition := NullCheck(LoadSlot(fn, b.sp - ObjectPosition(sig), 64));
      b1 := EmitCheck(b, condition, Const(8, EXCEPTION_NULL_POINTER));
      CheckKeepsChecked(b, condition, Const(8, EXCEPTION_NULL_POINTER));
    }
    CallChecked(b1, callee, ArgumentExprs(fn, CallArguments(sig), b.sp));
  }

  lemma {:induction false} EmitControlChecked(
    fn: Function, sigs: seq<Signature>, w: Builder, ins: Ins, offset: nat)
    requires w.cur < |w.blocks| && CallsChecked(w.blocks) && EmitControl(fn, sigs, w, ins, offset).Some?
    ensures CallsChecked(EmitControl(fn, sigs, w, ins, offset).value.blocks)
  {
    hide CallsChecked, EmitCall, EmitCheck, Append, SlotAddr;
    match ins
    case ChkNullV(v) => CheckKeepsChecked(w, NullCheck(LoadSlot(fn, v, 64)), Const(8, EXCEPTION_NULL_POINTER));
    case ChkRef => CheckKeepsChecked(w, NullCheck(LoadSlot(fn, w.sp, 64)), Const(8, EXCEPTION_NULL_POINTER));
    case Call(callee) => EmitCallChecked(fn, w, callee, sigs[callee]);
    case Ret => AppendChecked(w, ReturnCode(fn));
    case Jmp(rel) => AppendChecked(w, [Br(w.jumpMap[offset + 2 + rel])]);
    case JCond(c, rel) =>
      AppendChecked(w, [CondBr(ConditionExpr(c), w.jumpMap[offset + 2 + rel], w.jumpMap[offset + 2])]);
    case JLow(zero, rel) =>
      AppendChecked(w, [CondBr(LowConditionExpr(zero), w.jumpMap[offset + 2 + rel], w.jumpMap[offset + 2])]);
    case JmpP(v) =>
      var targets := w.switchMap[offset];
      AppendChecked(w, [Switch(LoadSlot(fn, v, 32), targets[|targets| - 1], targets)]);
  }

  lemma {:induction false} EmitChecked(fn: Function, sigs: seq<Signature>, w: Builder, ins: Ins, offset: nat)
    requires w.cur < |w.blocks| && CallsChecked(w.blocks) && Emit(fn, sigs, w, ins, offset).Some?
    ensures CallsChecked(Emit(fn, sigs, w, ins, offset).value.blocks)
  {
    hide CallsChecked, EmitControl, EmitBasic, Append;
    if IsBasic(ins) {
      BasicCallFree(fn, ins, w.sp);
      AppendChecked(w, EmitBasic(fn, ins, w.sp).value.code);
    } else {
      EmitControlChecked(fn, sigs, w, ins, offset);
    }
  }

  lemma {:induction false} BasicCallFree(fn: Function, ins: Ins, sp: int)
    requires EmitBasic(fn, ins, sp).Some?
    ensures CallFree(EmitBasic(fn, ins, sp).value.code)
  {
  }

  lemma {:induction false} EnterChecked(fn: Function, b: Builder, offset: int)
    requires b.cur < |b.blocks| && CallsChecked(b.blocks) && EnterLabel(fn, b, offset).Some?
    ensures CallsChecked(EnterLabel(fn, b, offset).value.blocks)
  {
    hide CallsChecked;
    if offset in b.jumpMap {
      AppendChecked(b, [Br(b.jumpMap[offset])]);
    }
  }

  lemma {:induction false} StateChecked(fn: Function, sigs: seq<Signature>, i: nat)
    requires i <= |fn.code| && StateAt(fn, sigs, i).Some?
    ensures CallsChecked(StateAt(fn, sigs, i).value.blocks)
  {
    hide CallsChecked, Emit, EnterLabel, ScanTo, StateAt;
    if i == 0 {
      ScanLabelBlocks(fn, |fn.code|);
      InitialState(fn, sigs);
      NoCalls(Labels(fn).blocks);
    } else {
      var b, w, b' := StateNext(fn, sigs, i - 1);
      StateChecked(fn, sigs, i - 1);
      EnterChecked(fn, b, Off(fn.code, i - 1));
      EmitChecked(fn, sigs, w, fn.code[i - 1], Off(fn.code, i - 1));
    }
  }

  lemma {:induction false} NoCalls(blocks: seq<seq<Instr>>)
    requires forall j :: 0 <= j < |blocks| ==> blocks[j] == []
    ensures CallsChecked(blocks)
  {
  }

  /** Every call in the code of every compiled function, wherever it is, is followed by the check of its state. */
  lemma {:induction false} EveryCallChecked(m: seq<Function>, p: seq<Target>, f: nat, j: nat, k: nat)
    requires Compiled(m, p) && f < |m| == |p| && CallAt(p[f].blocks, j, k)
    ensures Checked(p[f].blocks, j, k)
  {
    hide StateAt, CallsChecked, Checked;
    assert CompiledFunction(m, p, f);
    StateBefore(m[f], Sigs(m), |m[f].code|, |m[f].code|);
    StateChecked(m[f], Sigs(m), |m[f].code|);
    ChecksAt(p[f].blocks, j, k);
  }

  // ---------- unwinding in the target

  /** A call whose callee ends in a state other than Ok ends the calling function in that state, from any memory: the
      state and the globals are the callee's, nothing is returned and no local is changed. */
  lemma {:induction false} CallerReturnsState(
    m: seq<Function>, p: seq<Target>, f: nat, pos: Pos, mem: Memory, callee: nat, args: seq<ArgExpr>,
    values: seq<Option<nat>>, o: Outcome, n: nat)
    requires Compiled(m, p) && f < |m| == |p| && callee < |m|
    requires InstrAt(p, f, pos, CallFunction(callee, args)) && EvalArgs(mem, args) == Some(values)
    requires RunAt(p, callee, Pos(0, 0), InitialMemory(p[callee], values, mem.globals), n) == o
    requires o.Done? && o.state != OK
    ensures
      var mem' := AfterCallFunction(mem, p[callee].sig, o.state, o.ret, o.globals);
      RunAt(p, f, pos, mem, n + 3) == Done(o.state, mem.ret, o.globals, LocalsOf(p[f], mem), mem'.register)
  {
    hide Compiled, RunAt, InitialMemory, EvalArgs, Eval;
    var mem0 := InitialMemory(p[callee], values, mem.globals);
    var mem' := AfterCallFunction(mem, p[callee].sig, o.state, o.ret, o.globals);
    CalleeEnds(p, callee, mem0, n, n + 2);
    CallRuns(p, f, pos, mem, callee, args, values, n + 3);
    EveryCallChecked(m, p, f, pos.b, pos.k);
    StateCheckEval(mem');
    CheckedReturns(p, f, pos, mem', n + 2);
    SameLocals(p[f], mem, mem');
  }

  lemma {:induction false} CalleeEnds(p: seq<Target>, f: nat, mem: Memory, n: nat, n': nat)
    requires f < |p| && n <= n' && RunAt(p, f, Pos(0, 0), mem, n).Done?
    ensures RunAt(p, f, Pos(0, 0), mem, n') == RunAt(p, f, Pos(0, 0), mem, n)
  {
    hide RunBlocks;
    RunBlocksMonotone(p, f, 0, 0, mem, n, n');
  }

  lemma {:induction false} CheckedReturns(p: seq<Target>, f: nat, pos: Pos, mem: Memory, x: nat)
    requires f < |p| && Checked(p[f].blocks, pos.b, pos.k) && mem.callState != OK && x >= 2
    ensures RunAt(p, f, Pos(pos.b, pos.k + 1), mem, x) == Reported(p[f], mem.callState, mem)
  {
    hide LocalsOf;
    StateCheckEval(mem);
    var blocks := p[f].blocks;
    var n: nat :| ReturnsState(blocks, n) && blocks[pos.b][pos.k + 1] == CondBr(StateCheck(), n, n + 1);
    CondBrLeads(p, f, Pos(pos.b, pos.k + 1), StateCheck(), n, n + 1, mem, 1);
    ReturnEnds(p, f, Pos(n, 0), CallState, mem, mem.callState);
    LeadsThenEnds(p, f, Pos(pos.b, pos.k + 1), mem, 1, Pos(n, 0), mem, 1, Reported(p[f], mem.callState, mem));
  }

  lemma {:induction false} SameLocals(target: Target, mem: Memory, mem': Memory)
    requires mem'.storage == mem.storage
    ensures LocalsOf(target, mem') == LocalsOf(target, mem)
  {
  }

  /** An activation of a translated function, suspended at a call it got to from its start. */
  datatype Activation = Activation(f: nat, start: Memory, pos: Pos, mem: Memory, n: nat)

  ghost predicate Suspends(p: seq<Target>, a: Activation) {
    a.f < |p| && Leads(p, a.f, Pos(0, 0), a.start, a.n, a.pos, a.mem)
  }

  /** The call it is suspended at is the one that started the next activation. */
  ghost predicate Calls(p: seq<Target>, a: Activation, next: Activation) {
    && next.f < |p|
    && exists args, values ::
      && InstrAt(p, a.f, a.pos, CallFunction(next.f, args))
      && EvalArgs(a.mem, args) == Some(values)
      && next.start == InitialMemory(p[next.f], values, a.mem.globals)
  }

  ghost predicate CallChain(p: seq<Target>, chain: seq<Activation>) {
    && (forall k :: 0 <= k < |chain| ==> Suspends(p, chain[k]))
    && (forall k :: 0 <= k < |chain| - 1 ==> Calls(p, chain[k], chain[k + 1]))
  }

  /** The activation ends in the state, with these globals. */
  ghost predicate EndsWith(p: seq<Target>, a: Activation, state: nat, globals: Globals) {
    a.f < |p| && exists o :: TargetEnds(p, a.f, a.start, o) && o.Done? && o.state == state && o.globals == globals
  }

  /** A call chain of any depth, recursive or not, in any memory: once the innermost function ends in a state other than
      Ok, each function of the chain ends in that state, with the globals as they were when the state was raised. */
  lemma {:induction false} ExceptionUnwinds(
    m: seq<Function>, p: seq<Target>, chain: seq<Activation>, state: nat, globals: Globals, k: nat)
    requires Compiled(m, p) && |p| == |m| && CallChain(p, chain) && k < |chain| && state != OK
    requires EndsWith(p, chain[|chain| - 1], state, globals)
    ensures EndsWith(p, chain[k], state, globals)
    decreases |chain| - k
  {
    hide Compiled, Suspends, Calls, EndsWith;
    if k < |chain| - 1 {
      ExceptionUnwinds(m, p, chain, state, globals, k + 1);
      CallEndsWith(m, p, chain[k], chain[k + 1], state, globals);
    }
  }

  lemma {:induction false} CallEndsWith(
    m: seq<Function>, p: seq<Target>, a: Activation, next: Activation, state: nat, globals: Globals)
    requires Compiled(m, p) && |p| == |m| && Suspends(p, a) && Calls(p, a, next) && state != OK
    requires EndsWith(p, next, state, globals)
    ensures EndsWith(p, a, state, globals)
  {
    hide Compiled, RunAt, InitialMemory, EvalArgs;
    var o :| TargetEnds(p, next.f, next.start, o) && o.Done? && o.state == state && o.globals == globals;
    var n: nat :| RunAt(p, next.f, Pos(0, 0), next.start, n) == o;
    var args, values :|
      && InstrAt(p, a.f, a.pos, CallFunction(next.f, args))
      && EvalArgs(a.mem, args) == Some(values)
      && next.start == InitialMemory(p[next.f], values, a.mem.globals);
    CallerReturnsState(m, p, a.f, a.pos, a.mem, next.f, args, values, o, n);
    LeadsAt(p, a.f, Pos(0, 0), a.start, a.n, a.pos, a.mem, n + 3);
    assert TargetEnds(p, a.f, a.start, RunAt(p, a.f, a.pos, a.mem, n + 3));
  }

  // ---------- unwinding in the VM and in the target

  /** A function of the VM, suspended at instruction pc. */
  datatype VmActivation = VmActivation(f: nat, start: Frame, pc: nat, fr: Frame, n: nat)

  /** n steps of the VM lead from the start of the function to the suspended call. */
  ghost predicate VmSuspends(m: seq<Function>, a: VmActivation) {
    && a.f < |m|
    && forall x: nat :: CleanRun(m, a.f, 0, a.start, a.n + x) == CleanRun(m, a.f, a.pc, a.fr, x)
  }

  ghost predicate VmCalls(m: seq<Function>, a: VmActivation, next: VmActivation)
    requires a.f < |m|
  {
    var step := CleanStepAt(m, a.f, a.pc, a.fr);
    && step.Enter? && step.callee == next.f < |m|
    && next.start == InitialFrame(m[next.f], step.args, step.fr.globals)
  }

  ghost predicate VmChain(m: seq<Function>, chain: seq<VmActivation>) {
    && (forall k :: 0 <= k < |chain| ==> VmSuspends(m, chain[k]))
    && (forall k :: 0 <= k < |chain| - 1 ==> VmCalls(m, chain[k], chain[k + 1]))
  }

  /** In the VM the function ends in the state, with these globals and without a value. */
  ghost predicate VmEndsWith(m: seq<Function>, a: VmActivation, state: nat, globals: Globals) {
    a.f < |m| && exists o ::
      CleanEnds(m, a.f, a.start, o) && o.Done? && o.state == state && o.ret == None && o.globals == globals
  }

  lemma {:induction false} VmUnwinds(
    m: seq<Function>, chain: seq<VmActivation>, state: nat, globals: Globals, k: nat)
    requires VmChain(m, chain) && k < |chain| && state != OK
    requires VmEndsWith(m, chain[|chain| - 1], state, globals)
    ensures VmEndsWith(m, chain[k], state, globals)
    decreases |chain| - k
  {
    hide VmEndsWith, VmCalls;
    if k < |chain| - 1 {
      VmUnwinds(m, chain, state, globals, k + 1);
      assert VmSuspends(m, chain[k]);
      VmCallEndsWith(m, chain[k], chain[k + 1], state, globals);
    }
  }

  lemma {:induction false} VmCallEndsWith(
    m: seq<Function>, a: VmActivation, next: VmActivation, state: nat, globals: Globals)
    requires VmSuspends(m, a) && VmCalls(m, a, next) && state != OK && VmEndsWith(m, next, state, globals)
    ensures VmEndsWith(m, a, state, globals)
  {
    hide CleanStepAt, InitialFrame;
    var o :|
      && CleanEnds(m, next.f, next.start, o)
      && o.Done? && o.state == state && o.ret == None && o.globals == globals;
    var n: nat :| CleanRun(m, next.f, 0, next.start, n) == o;
    var fr' := CleanStepAt(m, a.f, a.pc, a.fr).fr;
    var o' := Done(state, None, globals, fr'.locals, fr'.register);
    assert CleanRun(m, a.f, a.pc, a.fr, n + 1) == o';
    assert CleanRun(m, a.f, 0, a.start, a.n + (n + 1)) == o';
    assert CleanEnds(m, a.f, a.start, o');
  }

  /** The same chain seen from the VM: once its innermost function ends in a state other than Ok, the implementation of
      each of its functions, started in any memory that represents the frame the VM started it in, ends in that state,
      with the globals of that moment and without a value. */
  lemma {:induction false} VmExceptionUnwinds(
    m: seq<Function>, p: seq<Target>, chain: seq<VmActivation>, state: nat, globals: Globals, k: nat, mem: Memory)
    requires Compiled(m, p) && VmChain(m, chain) && k < |chain| && state != OK
    requires VmEndsWith(m, chain[|chain| - 1], state, globals)
    requires
      chain[k].f < |m| ==>
      Represents(m[chain[k].f], chain[k].start, mem, m[chain[k].f].variableSpace)
    ensures chain[k].f < |p|
    ensures exists o ::
      TargetEnds(p, chain[k].f, mem, o) && o.Done? && o.state == state && o.ret == None && o.globals == globals
  {
    hide Compiled, Represents, CleanEnds, TargetEnds, SourceEnds;
    VmUnwinds(m, chain, state, globals, k);
    var a := chain[k];
    var o :| CleanEnds(m, a.f, a.start, o) && o.Done? && o.state == state && o.ret == None && o.globals == globals;
    SourceOutcomeReached(m, p, a.f, a.start, mem, o);
  }
}
