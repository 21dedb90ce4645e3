/** The entry thunk: what it tells the VM about a run of the implementation, exceptions included. */
module EntryThunk {
  import opened Words
  import opened Signatures
  import opened Bytecode
  import opened Machine
  import opened Blocks
  import opened Frames
  import opened Translation
  import opened LabelPass
  import opened BlockPassRun
  import opened CallSteps
  import opened Positions
  import opened CallSimulation
  import opened Simulation
  import opened Unwinding

  // ---------- the entry thunk

  datatype StateExpr = FixedState(state: nat) | ReturnedState

  datatype ThunkCondition = IsNull(r: nat) | NotOk

  datatype ThunkInstr =
    | CallImplementation(args: seq<Argument>)
    | SetInternalException(e: StateExpr)
    | StoreProgramPointer(offset: Option<nat>)    // None is the null pointer
    | ThunkBr(target: nat)
    | ThunkCondBr(c: ThunkCondition, ifTrue: nat, ifFalse: nat)
    | ReturnVoid

  datatype ThunkBuilder = ThunkBuilder(blocks: seq<seq<ThunkInstr>>, cur: nat)

  function Add(b: ThunkBuilder, i: ThunkInstr): ThunkBuilder
    requires b.cur < |b.blocks|
  {
    b.(blocks := b.blocks[b.cur := b.blocks[b.cur] + [i]])
  }

  /** emit_check_boolean in a thunk: the exception is set, and control continues as if nothing happened. */
  function AddCheck(b: ThunkBuilder, condition: ThunkCondition, state: StateExpr): ThunkBuilder
    requires b.cur < |b.blocks|
  {
    var n := |b.blocks|;
    var b' := Add(b, ThunkCondBr(condition, n, n + 1));
    b'.(blocks := b'.blocks + [[SetInternalException(state), ThunkBr(n + 1)], []], cur := n + 1)
  }

  /** create_vm_entry_thunk: the arguments are read from the VM's frame by the same DWORD counts as in a script call. */
  function ThunkCode(sig: Signature, retPointer: Option<nat>): (b: ThunkBuilder)
    ensures b.cur < |b.blocks|
  {
    var b0 := ThunkBuilder([[]], 0);
    var b1 :=
      if sig.objectType.Some?
      then AddCheck(b0, IsNull(ObjectPosition(sig)), FixedState(EXCEPTION_NULL_POINTER)) else b0;
    var b2 := AddCheck(Add(b1, CallImplementation(CallArguments(sig))), NotOk, ReturnedState);
    Add(Add(b2, StoreProgramPointer(retPointer)), ReturnVoid)
  }

  /** What the thunk changes in the VM: the exceptions set, in order, the value register, globals, program pointer. */
  datatype VmState = VmState(
    exceptions: seq<nat>, callState: nat, register: QWord, globals: Globals, programPointer: Option<nat>)

  /** Argument values read from the VM's frame, DWORD r below its top being vmArgs[r]. */
  function FrameValues(vmArgs: seq<Word>, args: seq<Argument>): (values: seq<Option<nat>>)
    ensures |values| == |args|
  {
    seq(|args|, i requires 0 <= i < |args| => FrameValue(vmArgs, args[i]))
  }

  function FrameValue(vmArgs: seq<Word>, a: Argument): Option<nat> {
    if a.ResultRegister? then None
    else if BitsOf(a.llvm) <= 32 && a.r < |vmArgs| then Some(Wrap(vmArgs[a.r], BitsOf(a.llvm)))
    else if BitsOf(a.llvm) == 64 && a.r + 1 < |vmArgs| then Some(Join(vmArgs[a.r], vmArgs[a.r + 1]))
    else None
  }

  predicate ConditionTrue(c: ThunkCondition, vmArgs: seq<Word>, s: VmState) {
    match c
    case IsNull(r) => r + 1 < |vmArgs| && Join(vmArgs[r], vmArgs[r + 1]) == 0
    case NotOk => s.callState != OK
  }

  function AfterImplementation(s: VmState, sig: Signature, o: Outcome): VmState
    requires o.Done?
  {
    var s' := s.(callState := o.state, globals := o.globals);
    if ReturnsInRegister(sig) && o.ret.Some? && o.ret.value < Modulus(BitsOf(sig.returnType.value.llvm))
    then s'.(register := SetLow(s.register, BitsOf(sig.returnType.value.llvm), o.ret.value))
    else s'
  }

  /** Runs a thunk for function f; None if it does not end within the fuel. */
  function RunThunk(
    p: seq<Target>, f: nat, code: seq<seq<ThunkInstr>>, b: nat, k: nat, vmArgs: seq<Word>, s: VmState, fuel: nat)
    : Option<VmState>
    requires f < |p|
    decreases fuel
  {
    if fuel == 0 || b >= |code| || k >= |code[b]| then None
    else
      match code[b][k]
      case CallImplementation(args) =>
        var o := RunBlocks(p, f, 0, 0, InitialMemory(p[f], FrameValues(vmArgs, args), s.globals), fuel - 1);
        if o.Done? then RunThunk(p, f, code, b, k + 1, vmArgs, AfterImplementation(s, p[f].sig, o), fuel - 1) else None
      case SetInternalException(e) =>
        var state := if e.FixedState? then e.state else s.callState;
        RunThunk(p, f, code, b, k + 1, vmArgs, s.(exceptions := s.exceptions + [state]), fuel - 1)
      case StoreProgramPointer(offset) =>
        RunThunk(p, f, code, b, k + 1, vmArgs, s.(programPointer := offset), fuel - 1)
      case ThunkBr(target) => RunThunk(p, f, code, target, 0, vmArgs, s, fuel - 1)
      case ThunkCondBr(c, ifTrue, ifFalse) =>
        RunThunk(p, f, code, if ConditionTrue(c, vmArgs, s) then ifTrue else ifFalse, 0, vmArgs, s, fuel - 1)
      case ReturnVoid => Some(s)
  }

  /** `this` is null in the VM's frame: both DWORDs of the pointer, behind a return pointer if there is one. */
  predicate NullThis(sig: Signature, vmArgs: seq<Word>) {
    var r := ObjectPosition(sig);
    sig.objectType.Some? && r + 1 < |vmArgs| && vmArgs[r] == 0 && vmArgs[r + 1] == 0
  }

  lemma {:induction false} NullThisChecked(sig: Signature, vmArgs: seq<Word>, s: VmState)
    requires sig.objectType.Some?
    ensures ConditionTrue(IsNull(ObjectPosition(sig)), vmArgs, s) <==> NullThis(sig, vmArgs)
  {
  }

  /** The steps of a check: one if it does not fire, three if it sets an exception. */
  lemma {:induction false} CheckThunk(
    p: seq<Target>, f: nat, code: seq<seq<ThunkInstr>>, b: nat, k: nat, n: nat, c: ThunkCondition, e: StateExpr,
    vmArgs: seq<Word>, s: VmState, fuel: nat)
    requires f < |p| && b < |code| && k < |code[b]| && code[b][k] == ThunkCondBr(c, n, n + 1)
    requires n < |code| && code[n] == [SetInternalException(e), ThunkBr(n + 1)]
    ensures
      RunThunk(p, f, code, b, k, vmArgs, s, fuel + 3) ==
        if ConditionTrue(c, vmArgs, s)
        then RunThunk(
          p, f, code, n + 1, 0, vmArgs,
          s.(exceptions := s.exceptions + [if e.FixedState? then e.state else s.callState]), fuel)
        else RunThunk(p, f, code, n + 1, 0, vmArgs, s, fuel + 2)
  {
    var s' := s.(exceptions := s.exceptions + [if e.FixedState? then e.state else s.callState]);
    assert RunThunk(p, f, code, n, 1, vmArgs, s', fuel + 1) == RunThunk(p, f, code, n + 1, 0, vmArgs, s', fuel);
    assert RunThunk(p, f, code, n, 0, vmArgs, s, fuel + 2) == RunThunk(p, f, code, n, 1, vmArgs, s', fuel + 1);
  }

  /** The tail of a thunk: the program pointer is set to the RET instruction. */
  lemma {:induction false} TailThunk(
    p: seq<Target>, f: nat, code: seq<seq<ThunkInstr>>, b: nat, ret: Option<nat>, vmArgs: seq<Word>, s: VmState,
    fuel: nat)
    requires f < |p| && b < |code| && code[b] == [StoreProgramPointer(ret), ReturnVoid] && fuel >= 2
    ensures RunThunk(p, f, code, b, 0, vmArgs, s, fuel) == Some(s.(programPointer := ret))
  {
    var s' := s.(programPointer := ret);
    assert RunThunk(p, f, code, b, 1, vmArgs, s', fuel - 1) == Some(s');
  }

  /** The blocks of a thunk from the call on, which starts in block b. */
  ghost predicate CallBlocks(code: seq<seq<ThunkInstr>>, b: nat, n: nat, args: seq<Argument>, ret: Option<nat>) {
    && b < |code| && n + 1 < |code|
    && code[b] == [CallImplementation(args), ThunkCondBr(NotOk, n, n + 1)]
    && code[n] == [SetInternalException(ReturnedState), ThunkBr(n + 1)]
    && code[n + 1] == [StoreProgramPointer(ret), ReturnVoid]
  }

  /** The state of the VM after the call: the exception of the implementation, if any, is set as it was returned. */
  function Reports(s: VmState, sig: Signature, o: Outcome, ret: Option<nat>): VmState
    requires o.Done?
  {
    var s' := AfterImplementation(s, sig, o);
    s'.(exceptions := s.exceptions + if o.state != OK then [o.state] else [], programPointer := ret)
  }

  lemma {:induction false} CallThunk(
    p: seq<Target>, f: nat, code: seq<seq<ThunkInstr>>, b: nat, n: nat, ret: Option<nat>, vmArgs: seq<Word>, s: VmState,
    o: Outcome, fuel: nat)
    requires f < |p| && CallBlocks(code, b, n, CallArguments(p[f].sig), ret) && fuel >= 2 && o.Done?
    requires RunBlocks(
      p, f, 0, 0, InitialMemory(p[f], FrameValues(vmArgs, CallArguments(p[f].sig)), s.globals), fuel + 3) == o
    ensures RunThunk(p, f, code, b, 0, vmArgs, s, fuel + 4) == Some(Reports(s, p[f].sig, o, ret))
  {
    hide RunBlocks, InitialMemory, FrameValues, CallArguments;
    var s' := AfterImplementation(s, p[f].sig, o);
    CheckThunk(p, f, code, b, 1, n, NotOk, ReturnedState, vmArgs, s', fuel);
    TailThunk(p, f, code, n + 1, ret, vmArgs, s', fuel + 2);
    TailThunk(p, f, code, n + 1, ret, vmArgs, s'.(exceptions := s'.exceptions + [s'.callState]), fuel);
    if o.state == OK {
      assert s'.exceptions == s.exceptions + [];
    }
  }

  lemma {:induction false} ThunkBlocks(sig: Signature, ret: Option<nat>)
    ensures
      var code := ThunkCode(sig, ret).blocks;
      if sig.objectType.Some? then
        && |code| == 5 && CallBlocks(code, 2, 3, CallArguments(sig), ret)
        && code[0] == [ThunkCondBr(IsNull(ObjectPosition(sig)), 1, 2)]
        && code[1] == [SetInternalException(FixedState(EXCEPTION_NULL_POINTER)), ThunkBr(2)]
      else |code| == 3 && CallBlocks(code, 0, 1, CallArguments(sig), ret)
  {
    hide CallArguments, ObjectPosition;
  }

  lemma {:induction false} ThunkRuns(
    p: seq<Target>, f: nat, ret: Option<nat>, vmArgs: seq<Word>, s: VmState, o: Outcome, fuel: nat)
    requires f < |p| && o.Done?
    requires RunBlocks(
      p, f, 0, 0, InitialMemory(p[f], FrameValues(vmArgs, CallArguments(p[f].sig)), s.globals), fuel) == o
    ensures
      var sig := p[f].sig;
      var before := s.(exceptions := s.exceptions + if NullThis(sig, vmArgs) then [EXCEPTION_NULL_POINTER] else []);
      RunThunk(p, f, ThunkCode(sig, ret).blocks, 0, 0, vmArgs, s, fuel + 9) == Some(Reports(before, sig, o, ret))
  {
    hide RunBlocks, InitialMemory, FrameValues, CallArguments, ObjectPosition, Reports, ThunkCode, CallBlocks,
      ConditionTrue;
    var sig := p[f].sig;
    var mem := InitialMemory(p[f], FrameValues(vmArgs, CallArguments(sig)), s.globals);
    var code := ThunkCode(sig, ret).blocks;
    ThunkBlocks(sig, ret);
    if sig.objectType.Some? {
      NullThisChecked(sig, vmArgs, s);
    }
    RunBlocksMonotone(p, f, 0, 0, mem, fuel, fuel + 5);
    RunBlocksMonotone(p, f, 0, 0, mem, fuel, fuel + 7);
    RunBlocksMonotone(p, f, 0, 0, mem, fuel, fuel + 8);
    if sig.objectType.Some? {
      CheckThunk(
        p, f, code, 0, 0, 1, IsNull(ObjectPosition(sig)), FixedState(EXCEPTION_NULL_POINTER), vmArgs, s, fuel + 6);
      var reported := s.(exceptions := s.exceptions + [EXCEPTION_NULL_POINTER]);
      CallThunk(p, f, code, 2, 3, ret, vmArgs, reported, o, fuel + 2);
      CallThunk(p, f, code, 2, 3, ret, vmArgs, s, o, fuel + 4);
    } else {
      CallThunk(p, f, code, 0, 1, ret, vmArgs, s, o, fuel + 5);
    }
    assert s.exceptions + [] == s.exceptions;
  }

  /** What the VM finds behind the thunk, from what the implementation ended with: the exceptions that were set, in
      order, the state, the globals, the program pointer, and in the register the returned value over its low bits. */
  ghost predicate Behind(
    sig: Signature, vmArgs: seq<Word>, s: VmState, s': VmState, o: Outcome, value: Option<QWord>, ret: Option<nat>)
    requires o.Done?
  {
    && s'.exceptions ==
      s.exceptions + (if NullThis(sig, vmArgs) then [EXCEPTION_NULL_POINTER] else [])
      + (if o.state != OK then [o.state] else [])
    && s'.callState == o.state
    && s'.globals == o.globals
    && s'.programPointer == ret
    && if ReturnsInRegister(sig) && value.Some? && value.value < Modulus(BitsOf(sig.returnType.value.llvm))
       then
         var bits := BitsOf(sig.returnType.value.llvm);
         bits in {1, 8, 16, 32, 64} ==> RegisterTakes(s.register, s'.register, bits, value.value)
       else s'.register == s.register
  }

  lemma {:induction false} ReportsBehind(
    sig: Signature, vmArgs: seq<Word>, s: VmState, o: Outcome, ret: Option<nat>)
    requires o.Done?
    ensures
      var before := s.(exceptions := s.exceptions + if NullThis(sig, vmArgs) then [EXCEPTION_NULL_POINTER] else []);
      Behind(sig, vmArgs, s, Reports(before, sig, o, ret), o, o.ret, ret)
  {
    hide SetLow, RegisterTakes, NullThis;
    if
      ReturnsInRegister(sig) && BitsOf(sig.returnType.value.llvm) in {1, 8, 16, 32, 64}
      && o.ret.Some? && o.ret.value < Modulus(BitsOf(sig.returnType.value.llvm))
    {
      SetLowTakes(s.register, BitsOf(sig.returnType.value.llvm), o.ret.value);
    }
  }

  /** What the thunk tells the VM, for every frame it is entered with: nothing if the implementation ends with Ok, its
      exact state otherwise. A null `this` is reported as well, before the implementation runs all the same; so the
      state of the implementation is the only exception exactly when `this` is not null. */
  lemma {:induction false} ThunkReportsState(
    p: seq<Target>, f: nat, ret: Option<nat>, vmArgs: seq<Word>, s: VmState, o: Outcome, fuel: nat)
    requires f < |p| && o.Done?
    requires RunBlocks(
      p, f, 0, 0, InitialMemory(p[f], FrameValues(vmArgs, CallArguments(p[f].sig)), s.globals), fuel) == o
    ensures
      var r := RunThunk(p, f, ThunkCode(p[f].sig, ret).blocks, 0, 0, vmArgs, s, fuel + 9);
      r.Some? && Behind(p[f].sig, vmArgs, s, r.value, o, o.ret, ret)
  {
    hide RunBlocks, InitialMemory, FrameValues, CallArguments, RunThunk, ThunkCode, Reports, Behind, NullThis;
    ThunkRuns(p, f, ret, vmArgs, s, o, fuel);
    ReportsBehind(p[f].sig, vmArgs, s, o, ret);
  }

  // ---------- thunk and VM together

  /** A caller whose stack holds exactly the DWORDs of the VM's frame. */
  function FrameCaller(vmArgs: seq<Word>): Frame {
    Frame([], [], Reverse(vmArgs), 0, map[])
  }

  lemma {:induction false} ValuesFromFrame(vmArgs: seq<Word>, lead: seq<Argument>, types: seq<DataType>)
    requires NativeTypes(types) && |vmArgs| == Dwords(types)
    ensures ArgumentValues(
      FrameCaller(vmArgs), types, |lead|, |types|, FrameValues(vmArgs, ArgumentsUpTo(lead, types, |types|)))
  {
    hide ReadBefore, ArgumentsUpTo;
    var values := FrameValues(vmArgs, ArgumentsUpTo(lead, types, |types|));
    forall k | 0 <= k < |types|
      ensures IsPassed(FrameCaller(vmArgs), types, |lead|, values, k)
    {
      ReadWithin(types, k);
      ArgumentAt(lead, types, |types|, |lead| + k);
    }
  }

  lemma {:induction false} FrameCallerPasses(vmArgs: seq<Word>)
    ensures Passed(FrameCaller(vmArgs), |vmArgs|) == vmArgs
  {
  }

  /** The memory the thunk starts the implementation in represents the frame the VM would start it in. */
  lemma {:induction false} ThunkMemory(m: seq<Function>, p: seq<Target>, f: nat, vmArgs: seq<Word>, globals: Globals)
    requires Compiled(m, p) && f < |m| && |vmArgs| == Dwords(StackTypes(m[f].sig))
    ensures |p| == |m| && p[f].sig == m[f].sig
    ensures Represents(
      m[f], InitialFrame(m[f], vmArgs, globals),
      InitialMemory(p[f], FrameValues(vmArgs, CallArguments(m[f].sig)), globals), m[f].variableSpace)
  {
    hide Compiled, StackTypes, Represents, InitialFrame, InitialMemory, FrameValues, ArgumentsUpTo, ArgumentValues,
      Passed, LeadArguments, Dwords, FrameCaller;
    CalleeFacts(m, p, f);
    LeadArgumentsCount(m[f].sig);
    ValuesFromFrame(vmArgs, LeadArguments(m[f].sig), StackTypes(m[f].sig));
    FrameCallerPasses(vmArgs);
    FrameCallerSize(vmArgs);
    CalleeRepresents(
      m[f], p[f], FrameCaller(vmArgs), FrameValues(vmArgs, CallArguments(m[f].sig)), globals);
  }

  lemma {:induction false} FrameCallerSize(vmArgs: seq<Word>)
    ensures |FrameCaller(vmArgs).stack| == |vmArgs|
  {
  }

  // ---------- the program pointer

  /** Instruction k, at the offset, is the last RET among the first n instructions. */
  predicate IsLastRet(code: seq<Ins>, n: nat, k: nat, offset: nat) {
    && k < n <= |code|
    && code[k].Ret? && Off(code, k) == offset
    && forall j :: k < j < n ==> !code[j].Ret?
  }

  /** The pointer is at the last RET, and null when there is none. */
  ghost predicate PointsToRet(code: seq<Ins>, n: nat, pointer: Option<nat>)
    requires n <= |code|
  {
    match pointer
    case None => forall k :: 0 <= k < n ==> !code[k].Ret?
    case Some(offset) => exists k :: IsLastRet(code, n, k, offset)
  }

  lemma {:induction false} EmitPointer(fn: Function, sigs: seq<Signature>, w: Builder, ins: Ins, offset: nat)
    requires w.cur < |w.blocks| && Emit(fn, sigs, w, ins, offset).Some?
    ensures Emit(fn, sigs, w, ins, offset).value.retPointer == if ins.Ret? then Some(offset) else w.retPointer
  {
    hide EmitBasic, CallArguments, ArgumentExprs, StackTypes, ReturnCode;
  }

  lemma {:induction false} NextPointer(code: seq<Ins>, i: nat, pointer: Option<nat>)
    requires i < |code| && PointsToRet(code, i, pointer)
    ensures PointsToRet(code, i + 1, if code[i].Ret? then Some(Off(code, i)) else pointer)
  {
    if code[i].Ret? {
      assert IsLastRet(code, i + 1, i, Off(code, i));
    } else if pointer.Some? {
      var k :| IsLastRet(code, i, k, pointer.value);
      assert IsLastRet(code, i + 1, k, pointer.value);
    }
  }

  /** What the second pass remembers while it translates RET instructions. */
  lemma {:induction false} RetPointerExact(fn: Function, sigs: seq<Signature>, i: nat)
    requires i <= |fn.code| && StateAt(fn, sigs, i).Some?
    ensures PointsToRet(fn.code, i, StateAt(fn, sigs, i).value.retPointer)
  {
    hide Emit, ScanTo, StateAt, IsLastRet;
    if i == 0 {
      ScanLabelBlocks(fn, |fn.code|);
      InitialState(fn, sigs);
    } else {
      var b, w, b' := StateNext(fn, sigs, i - 1);
      RetPointerExact(fn, sigs, i - 1);
      EmitPointer(fn, sigs, w, fn.code[i - 1], Off(fn.code, i - 1));
      NextPointer(fn.code, i - 1, b.retPointer);
    }
  }

  /** m_ret_pointer of a compiled function when its thunk is made. */
  function RetPointer(m: seq<Function>, f: nat): Option<nat>
    requires f < |m|
  {
    match StateAt(m[f], Sigs(m), |m[f].code|)
    case None => None
    case Some(b) => b.retPointer
  }

  lemma {:induction false} OkStep(m: seq<Function>, f: nat, pc: nat, fr: Frame)
    requires f < |m| && StepAt(m, f, pc, fr).Stop? && StepAt(m, f, pc, fr).state == OK
    ensures pc < |m[f].code| && m[f].code[pc].Ret?
  {
    hide StepBasic, IndexOf, ReadVar, Accessible, Holds, TableSize, StackTypes, Dwords, Passed, Off;
  }

  /** Only a RET ends a function with Ok. */
  lemma {:induction false} OkNeedsRet(m: seq<Function>, f: nat, pc: nat, fr: Frame, n: nat)
    requires f < |m|
    ensures
      var o := Run(m, f, pc, fr, n);
      o.Done? && o.state == OK ==> exists k :: 0 <= k < |m[f].code| && m[f].code[k].Ret?
    decreases n
  {
    hide StepAt, InitialFrame, AfterCall;
    if n > 0 {
      match StepAt(m, f, pc, fr)
      case Bad =>
      case Stop(state, _) =>
        if state == OK {
          OkStep(m, f, pc, fr);
        }
      case Go(pc', fr') => OkNeedsRet(m, f, pc', fr', n - 1);
      case Enter(callee, args, fr') =>
        if callee < |m| {
          var o := Run(m, callee, 0, InitialFrame(m[callee], args, fr'.globals), n - 1);
          if o.Done? {
            OkNeedsRet(m, f, pc + 1, AfterCall(fr', m[callee].sig, o.ret, o.globals), n - 1);
          }
        }
    }
  }

  /** The thunk leaves the VM at the function's last RET whenever the function ends with Ok, and with a null program
      pointer exactly when the function has no RET; such a function never ends with Ok. */
  lemma {:induction false} ThunkPointer(m: seq<Function>, p: seq<Target>, f: nat, fr: Frame, n: nat)
    requires Compiled(m, p) && f < |m|
    ensures PointsToRet(m[f].code, |m[f].code|, RetPointer(m, f))
    ensures var o := Run(m, f, 0, fr, n); o.Done? && o.state == OK ==> RetPointer(m, f).Some?
  {
    hide Compiled, StateAt, Run, IsLastRet;
    FinalHolds(m, p, f);
    RetPointerExact(m[f], Sigs(m), |m[f].code|);
    OkNeedsRet(m, f, 0, fr, n);
  }

  /** A function that returns in the register and ends with Ok returns the low bits of its register; another one, or one
      that ends otherwise, returns nothing. */
  lemma {:induction false} OkReturns(m: seq<Function>, f: nat, pc: nat, fr: Frame, n: nat)
    requires f < |m| && NativeSignature(m[f].sig)
    ensures
      var sig, o := m[f].sig, CleanRun(m, f, pc, fr, n);
      o.Done? ==>
        o.ret ==
          if o.state == OK && ReturnsInRegister(sig) then Some(o.register % Modulus(BitsOf(sig.returnType.value.llvm)))
          else None
    decreases n
  {
    hide CleanStepAt, InitialFrame, AfterCall;
    if n > 0 {
      match CleanStepAt(m, f, pc, fr)
      case Bad =>
      case Stop(_, _) =>
      case Go(pc', fr') => OkReturns(m, f, pc', fr', n - 1);
      case Enter(callee, args, fr') =>
        if callee < |m| {
          var o := CleanRun(m, callee, 0, InitialFrame(m[callee], args, fr'.globals), n - 1);
          if o.Done? && o.state == OK {
            OkReturns(m, f, pc + 1, AfterCall(fr', m[callee].sig, o.ret, o.globals), n - 1);
          }
        }
    }
  }

  /** The value the VM would return: the low bits of the register the function ended with. */
  function VmValue(sig: Signature, o: Outcome): Option<QWord>
    requires o.Done? && NativeSignature(sig)
  {
    if o.state == OK && ReturnsInRegister(sig) then Some(o.register % Modulus(BitsOf(sig.returnType.value.llvm)))
    else None
  }

  /** For every compiled function and every frame the VM enters it with: when the VM would end the function in a state,
      the thunk sets exactly that state (none for Ok), besides reporting a null `this`, and leaves in the VM the same
      globals, the program pointer at the last RET, and in the low bits of the register the bits of the register the
      function ended with; without a value the register is untouched. Counts of 64-bit shifts are clean. */
  lemma {:induction false} ThunkMatchesVm(
    m: seq<Function>, p: seq<Target>, f: nat, vmArgs: seq<Word>, s: VmState, n: nat)
    requires Compiled(m, p) && f < |m| && |vmArgs| == Dwords(StackTypes(m[f].sig))
    requires CleanRun(m, f, 0, InitialFrame(m[f], vmArgs, s.globals), n).Done?
    ensures f < |p| && Run(m, f, 0, InitialFrame(m[f], vmArgs, s.globals), n).Done?
    ensures
      var sig, o, ret := m[f].sig, Run(m, f, 0, InitialFrame(m[f], vmArgs, s.globals), n), RetPointer(m, f);
      var r := RunThunk(p, f, ThunkCode(sig, ret).blocks, 0, 0, vmArgs, s, 4 * n + 10);
      && NativeSignature(sig)
      && r.Some? && Behind(sig, vmArgs, s, r.value, o, VmValue(sig, o), ret)
      && PointsToRet(m[f].code, |m[f].code|, ret)
      && (o.state == OK ==> ret.Some?)
  {
    hide Compiled, StackTypes, Represents, InitialFrame, InitialMemory, FrameValues, CallArguments, CleanRun, RunBlocks,
      Run, Dwords, ThunkCode, RunThunk, NullThis, Reports, PointsToRet, RetPointer, Behind;
    ThunkMemory(m, p, f, vmArgs, s.globals);
    var fr := InitialFrame(m[f], vmArgs, s.globals);
    var mem := InitialMemory(p[f], FrameValues(vmArgs, CallArguments(m[f].sig)), s.globals);
    CleanRunIsRun(m, f, 0, fr, n);
    CalleeForward(m, p, f, fr, mem, n, 4 * n + 1);
    CalleeFacts(m, p, f);
    OkReturns(m, f, 0, fr, n);
    ThunkReportsState(p, f, RetPointer(m, f), vmArgs, s, CleanRun(m, f, 0, fr, n), 4 * n + 1);
    ThunkPointer(m, p, f, fr, n);
  }

  // ---------- exceptions that come through the thunk

  /** An exception at the end of a call chain that starts at the thunk: the VM is told the state that was raised, and
      nothing else unless `this` is null. */
  lemma {:induction false} ThunkUnwinds(
    m: seq<Function>, p: seq<Target>, chain: seq<Activation>, ret: Option<nat>, vmArgs: seq<Word>, s: VmState,
    state: nat, globals: Globals)
    returns (s': VmState, n: nat)
    requires Compiled(m, p) && |p| == |m| && |chain| > 0 && CallChain(p, chain) && state != OK
    requires EndsWith(p, chain[|chain| - 1], state, globals)
    requires chain[0].f < |p|
    requires
      var f := chain[0].f;
      chain[0].start == InitialMemory(p[f], FrameValues(vmArgs, CallArguments(p[f].sig)), s.globals)
    ensures
      var f := chain[0].f;
      RunThunk(p, f, ThunkCode(p[f].sig, ret).blocks, 0, 0, vmArgs, s, n) == Some(s')
    ensures s'.globals == globals
    ensures NullThis(p[chain[0].f].sig, vmArgs) ==>
      s'.exceptions == s.exceptions + [EXCEPTION_NULL_POINTER, state]
    ensures !NullThis(p[chain[0].f].sig, vmArgs) ==> s'.exceptions == s.exceptions + [state]
  {
    hide Compiled, InitialMemory, FrameValues, CallArguments, RunBlocks, RunThunk, ThunkCode, NullThis, CallChain;
    var a := chain[0];
    ExceptionUnwinds(m, p, chain, state, globals, 0);
    var o :| TargetEnds(p, a.f, a.start, o) && o.Done? && o.state == state && o.globals == globals;
    var x: nat :| RunAt(p, a.f, Pos(0, 0), a.start, x) == o;
    ThunkRuns(p, a.f, ret, vmArgs, s, o, x);
    n := x + 9;
    s' := RunThunk(p, a.f, ThunkCode(p[a.f].sig, ret).blocks, 0, 0, vmArgs, s, n).value;
    assert s.exceptions + [EXCEPTION_NULL_POINTER] + [state] == s.exceptions + [EXCEPTION_NULL_POINTER, state];
    assert s.exceptions + [] == s.exceptions;
  }
}
