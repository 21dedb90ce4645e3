/** Which code the translator accepts, said by the code alone: a depth before every instruction, added up along the
    code, that stays within the frame and is zero at labels and at the end; slots, callees and tables that exist. */
module Acceptance {
  import opened Words
  import opened Signatures
  import opened Bytecode
  import opened Machine
  import opened Blocks
  import opened Frames
  import opened Translation
  import opened LabelPass
  import opened BlockPassRun

  /** A local or operand within the frame, whose two last pointers are reserved, or a parameter at its own offset. */
  ghost predicate SlotExists(fn: Function, o: int) {
    if o > 0 then o <= fn.stackNeeded + 4 else IsReadOffset(StackTypes(fn.sig), o)
  }

  lemma {:induction false} SlotExistsIs(fn: Function, o: int)
    ensures SlotExists(fn, o) <==> SlotOk(fn, o)
  {
    var types := StackTypes(fn.sig);
    if o <= 0 {
      if o in ParameterStorage(fn.sig) {
        var k := SlotKey(types, LeadCount(fn.sig), |types|, o);
      }
      if IsReadOffset(types, o) {
        var k :| 0 <= k < |types| && o == FrameOffset(ReadBefore(types, k));
        SlotOf(types, LeadCount(fn.sig), |types|, k);
      }
    }
  }

  ghost predicate OperandExists(fn: Function, o: Operand) {
    o.Var? ==> SlotExists(fn, o.v)
  }

  /** The variables an instruction names exist. */
  ghost predicate VariablesExist(fn: Function, ins: Ins) {
    match ins
    case PshV(_, v) => SlotExists(fn, v)
    case CpyVtoG4(v, _) => SlotExists(fn, v)
    case CpyGtoV4(v, _) => SlotExists(fn, v)
    case SetV(_, v, _) => SlotExists(fn, v)
    case CpyVtoV(_, dst, src) => SlotExists(fn, dst) && SlotExists(fn, src)
    case CpyVtoR(_, v) => SlotExists(fn, v)
    case CpyRtoV(_, v) => SlotExists(fn, v)
    case IncVi(v) => SlotExists(fn, v)
    case DecVi(v) => SlotExists(fn, v)
    case Neg(_, v) => SlotExists(fn, v)
    case BNot(_, v) => SlotExists(fn, v)
    case Arith(_, _, dst, lhs, rhs) => SlotExists(fn, dst) && SlotExists(fn, lhs) && OperandExists(fn, rhs)
    case Cmp(_, _, lhs, rhs) => SlotExists(fn, lhs) && OperandExists(fn, rhs)
    case Extend(_, _, v) => SlotExists(fn, v)
    case Narrow(dst, src) => SlotExists(fn, dst) && SlotExists(fn, src)
    case Widen(_, dst, src) => SlotExists(fn, dst) && SlotExists(fn, src)
    case ChkNullV(v) => SlotExists(fn, v)
    case JmpP(v) => SlotExists(fn, v)
    case _ => true
  }

  /** What an instruction does to the depth of the operand stack, in DWORDs. */
  function Delta(ins: Ins, sigs: seq<Signature>): int {
    match ins
    case PopPtr => -2
    case PopRPtr => -2
    case PshRPtr => 2
    case PshC(wide, _) => if wide then 2 else 1
    case PshV(wide, _) => if wide then 2 else 1
    case PshG4(_) => 1
    case Call(callee) => if callee < |sigs| then 0 - Dwords(StackTypes(sigs[callee])) else 0
    case _ => 0
  }

  /** The depth of the operand stack before instruction i, added up along the code. */
  function DepthBefore(code: seq<Ins>, sigs: seq<Signature>, i: nat): int
    requires i <= |code|
  {
    if i == 0 then 0 else DepthBefore(code, sigs, i - 1) + Delta(code[i - 1], sigs)
  }

  /** The values a call takes are read from slots that exist. */
  ghost predicate ArgumentsExist(fn: Function, sig: Signature, sp: int) {
    forall k :: 0 <= k < |StackTypes(sig)| ==> SlotExists(fn, sp - ReadBefore(StackTypes(sig), k))
  }

  /** The slots an instruction uses, with the stack pointer at sp. */
  ghost predicate SlotsExist(fn: Function, sigs: seq<Signature>, sp: int, ins: Ins) {
    && VariablesExist(fn, ins)
    && (Delta(ins, sigs) > 0 ==> SlotExists(fn, sp + Delta(ins, sigs)))
    && (ins.PopRPtr? || ins.ChkRef? ==> SlotExists(fn, sp))
    && (ins.Call? ==> ins.callee < |sigs| && ArgumentsExist(fn, sigs[ins.callee], sp))
  }

  /** The blocks an instruction branches to were made. */
  predicate TargetsKnown(b: Builder, ins: Ins, offset: nat) {
    && (IsBranch(ins) ==> BranchTarget(ins, offset) in b.jumpMap)
    && (IsConditional(ins) ==> offset + 2 in b.jumpMap)
    && (ins.JmpP? ==> offset in b.switchMap && b.switchMap[offset] != [])
  }

  /** The builder can translate the instruction. */
  ghost predicate Admits(fn: Function, sigs: seq<Signature>, b: Builder, ins: Ins, offset: nat) {
    && (offset in b.jumpMap ==> b.sp == fn.variableSpace)
    && fn.variableSpace <= b.sp <= fn.stackNeeded + 4
    && SlotsExist(fn, sigs, b.sp, ins)
    && TargetsKnown(b, ins, offset)
  }

  // ---------- one instruction

  lemma {:induction false} BasicAdmitted(fn: Function, sigs: seq<Signature>, sp: int, ins: Ins)
    requires IsBasic(ins)
    ensures EmitBasic(fn, ins, sp).Some? <==> SlotsExist(fn, sigs, sp, ins)
    ensures EmitBasic(fn, ins, sp).Some? ==> EmitBasic(fn, ins, sp).value.sp == sp + Delta(ins, sigs)
  {
    hide SlotExists, SlotOk, LoadSlot, SlotAddr, CompareExpr, ConditionExpr, StackTypes, Dwords;
    forall o
      ensures SlotExists(fn, o) <==> SlotOk(fn, o)
    {
      SlotExistsIs(fn, o);
    }
  }

  lemma {:induction false} ArgumentsAdmitted(fn: Function, sig: Signature, sp: int)
    ensures ArgumentSlotsOk(fn, CallArguments(sig), sp) <==> ArgumentsExist(fn, sig, sp)
  {
    hide SlotExists, SlotOk, ReadBefore, ArgumentsUpTo;
    var types, lead, args := StackTypes(sig), LeadArguments(sig), CallArguments(sig);
    forall i | 0 <= i < |args|
      ensures args[i].StackRead? ==>
        i >= |lead| && args[i].r == ReadBefore(types, i - |lead|) && (SlotOk(fn, sp - args[i].r) <==>
          SlotExists(fn, sp - ReadBefore(types, i - |lead|)))
    {
      ArgumentAt(lead, types, |types|, i);
      if i >= |lead| {
        SlotExistsIs(fn, sp - ReadBefore(types, i - |lead|));
      }
    }
    forall k | 0 <= k < |types|
      ensures args[|lead| + k] == StackRead(ReadBefore(types, k), types[k].llvm)
    {
      ArgumentAt(lead, types, |types|, |lead| + k);
    }
    if ArgumentSlotsOk(fn, args, sp) {
      forall k | 0 <= k < |types|
        ensures SlotExists(fn, sp - ReadBefore(types, k))
      {
        ArgumentAt(lead, types, |types|, |lead| + k);
        assert args[|lead| + k].StackRead?;
      }
    }
  }

  /** A state of the second pass: all blocks that labels and the insertion point refer to exist. */
  ghost predicate BlocksExist(b: Builder) {
    b.cur < |b.blocks| && forall off :: off in b.jumpMap ==> b.jumpMap[off] < |b.blocks|
  }

  ghost predicate Follows(b: Builder, b': Builder, sp: int) {
    BlocksExist(b') && b'.jumpMap == b.jumpMap && b'.switchMap == b.switchMap && b'.sp == sp
  }

  lemma {:induction false} AppendFollows(b: Builder, code: seq<Instr>, sp: int, ret: Option<nat>)
    requires BlocksExist(b)
    ensures Follows(b, Append(b, code), b.sp) && Follows(b, Append(b, code).(sp := sp), sp)
    ensures Follows(b, Append(b, code).(retPointer := ret), b.sp)
  {
  }

  lemma {:induction false} CheckFollows(b: Builder, condition: Expr, state: Expr, sp: int)
    requires BlocksExist(b)
    ensures Follows(b, EmitCheck(b, condition, state), b.sp)
    ensures Follows(b, EmitCheck(b, condition, state).(sp := sp), sp)
  {
  }

  lemma {:induction false} CallAdmitted(fn: Function, b: Builder, callee: nat, sig: Signature)
    requires BlocksExist(b)
    ensures EmitCall(fn, b, callee, sig).Some? <==> ArgumentsExist(fn, sig, b.sp)
    ensures EmitCall(fn, b, callee, sig).Some? ==>
      Follows(b, EmitCall(fn, b, callee, sig).value, b.sp - Dwords(StackTypes(sig)))
  {
    hide BlocksExist, Append, EmitCheck, CallArguments, ArgumentSlotsOk, ArgumentsExist, ArgumentExprs, StackTypes,
      Dwords, LoadSlot;
    BlocksExistCur(b);
    ArgumentsAdmitted(fn, sig, b.sp);
    var b1 := b;
    if sig.objectType.Some? {
      var condition := NullCheck(LoadSlot(fn, b.sp - ObjectPosition(sig), 64));
      CheckFollows(b, condition, Const(8, EXCEPTION_NULL_POINTER), b.sp);
      b1 := EmitCheck(b, condition, Const(8, EXCEPTION_NULL_POINTER));
    }
    BlocksExistCur(b1);
    var code := [CallFunction(callee, ArgumentExprs(fn, CallArguments(sig), b.sp))];
    AppendFollows(b1, code, b.sp, None);
    BlocksExistCur(Append(b1, code));
    CheckFollows(Append(b1, code), StateCheck(), CallState, b.sp - Dwords(StackTypes(sig)));
  }

  lemma {:induction false} BlocksExistCur(b: Builder)
    requires BlocksExist(b)
    ensures b.cur < |b.blocks|
  {
  }

  lemma {:induction false} JumpAdmitted(
    fn: Function, sigs: seq<Signature>, b: Builder, ins: Ins, offset: nat)
    requires BlocksExist(b) && (IsBranch(ins) || ins.JmpP?)
    ensures EmitControl(fn, sigs, b, ins, offset).Some? <==>
      SlotsExist(fn, sigs, b.sp, ins) && TargetsKnown(b, ins, offset)
    ensures EmitControl(fn, sigs, b, ins, offset).Some? ==>
      Follows(b, EmitControl(fn, sigs, b, ins, offset).value, b.sp + Delta(ins, sigs))
  {
    hide BlocksExist, Follows, Append, EmitCheck, EmitCall, ArgumentsExist, SlotExists, SlotOk, LoadSlot, ReturnCode,
      StackTypes, Dwords, ConditionExpr, LowConditionExpr;
    BlocksExistCur(b);
    match ins
    case Jmp(rel) =>
      if offset + 2 + rel in b.jumpMap {
        AppendFollows(b, [Br(b.jumpMap[offset + 2 + rel])], b.sp, None);
      }
    case JCond(c, rel) =>
      if offset + 2 + rel in b.jumpMap && offset + 2 in b.jumpMap {
        var code := [CondBr(ConditionExpr(c), b.jumpMap[offset + 2 + rel], b.jumpMap[offset + 2])];
        AppendFollows(b, code, b.sp, None);
      }
    case JLow(zero, rel) =>
      if offset + 2 + rel in b.jumpMap && offset + 2 in b.jumpMap {
        var code := [CondBr(LowConditionExpr(zero), b.jumpMap[offset + 2 + rel], b.jumpMap[offset + 2])];
        AppendFollows(b, code, b.sp, None);
      }
    case JmpP(v) =>
      SlotExistsIs(fn, v);
      if offset in b.switchMap && b.switchMap[offset] != [] {
        var targets := b.switchMap[offset];
        AppendFollows(b, [Switch(LoadSlot(fn, v, 32), targets[|targets| - 1], targets)], b.sp, None);
      }
  }

  lemma {:induction false} OtherAdmitted(
    fn: Function, sigs: seq<Signature>, b: Builder, ins: Ins, offset: nat)
    requires BlocksExist(b) && !IsBasic(ins) && !IsBranch(ins) && !ins.JmpP?
    ensures EmitControl(fn, sigs, b, ins, offset).Some? <==>
      SlotsExist(fn, sigs, b.sp, ins) && TargetsKnown(b, ins, offset)
    ensures EmitControl(fn, sigs, b, ins, offset).Some? ==>
      Follows(b, EmitControl(fn, sigs, b, ins, offset).value, b.sp + Delta(ins, sigs))
  {
    hide BlocksExist, Follows, Append, EmitCheck, EmitCall, ArgumentsExist, SlotExists, SlotOk, LoadSlot, ReturnCode,
      StackTypes, Dwords, ConditionExpr, LowConditionExpr;
    BlocksExistCur(b);
    match ins
    case ChkNullV(v) =>
      SlotExistsIs(fn, v);
      CheckFollows(b, NullCheck(LoadSlot(fn, v, 64)), Const(8, EXCEPTION_NULL_POINTER), b.sp);
    case ChkRef =>
      SlotExistsIs(fn, b.sp);
      CheckFollows(b, NullCheck(LoadSlot(fn, b.sp, 64)), Const(8, EXCEPTION_NULL_POINTER), b.sp);
    case Call(callee) =>
      if callee < |sigs| {
        CallAdmitted(fn, b, callee, sigs[callee]);
      }
    case Ret => AppendFollows(b, ReturnCode(fn), b.sp, Some(offset));
  }

  lemma {:induction false} EmitAdmitted(fn: Function, sigs: seq<Signature>, b: Builder, ins: Ins, offset: nat)
    requires BlocksExist(b)
    ensures Emit(fn, sigs, b, ins, offset).Some? <==>
      SlotsExist(fn, sigs, b.sp, ins) && TargetsKnown(b, ins, offset)
    ensures Emit(fn, sigs, b, ins, offset).Some? ==>
      Follows(b, Emit(fn, sigs, b, ins, offset).value, b.sp + Delta(ins, sigs))
  {
    hide BlocksExist, Follows, Append, EmitControl, EmitBasic, SlotsExist, Delta;
    BlocksExistCur(b);
    if IsBasic(ins) {
      BasicAdmitted(fn, sigs, b.sp, ins);
      if EmitBasic(fn, ins, b.sp).Some? {
        var e := EmitBasic(fn, ins, b.sp).value;
        AppendFollows(b, e.code, e.sp, None);
      }
    } else if IsBranch(ins) || ins.JmpP? {
      JumpAdmitted(fn, sigs, b, ins, offset);
    } else {
      OtherAdmitted(fn, sigs, b, ins, offset);
    }
  }

  lemma {:induction false} EnterFollows(fn: Function, b: Builder, offset: int)
    requires BlocksExist(b)
    ensures EnterLabel(fn, b, offset).Some? <==> (offset in b.jumpMap ==> b.sp == fn.variableSpace)
    ensures EnterLabel(fn, b, offset).Some? ==> Follows(b, EnterLabel(fn, b, offset).value, b.sp)
  {
  }

  /** One instruction, from any state of the builder: it is translated exactly when it can be. */
  lemma {:induction false} InstructionAdmitted(
    fn: Function, sigs: seq<Signature>, b: Builder, ins: Ins, offset: nat)
    requires BlocksExist(b)
    ensures b.cur < |b.blocks|
    ensures TranslateIns(fn, sigs, b, ins, offset).Some? <==> Admits(fn, sigs, b, ins, offset)
    ensures TranslateIns(fn, sigs, b, ins, offset).Some? ==>
      Follows(b, TranslateIns(fn, sigs, b, ins, offset).value, b.sp + Delta(ins, sigs))
  {
    hide Emit, EnterLabel, SlotsExist, Delta;
    EnterFollows(fn, b, offset);
    if EnterLabel(fn, b, offset).Some? {
      EmitAdmitted(fn, sigs, EnterLabel(fn, b, offset).value, ins, offset);
    }
  }

  // ---------- the whole code

  /** What the translator accepts at instruction i. */
  ghost predicate AcceptedAt(fn: Function, sigs: seq<Signature>, i: nat)
    requires i < |fn.code|
  {
    var ins, d := fn.code[i], DepthBefore(fn.code, sigs, i);
    && 0 <= d <= fn.stackNeeded + 4 - fn.variableSpace
    && (IsLabel(fn.code, Off(fn.code, i)) ==> d == 0)
    && VariablesExist(fn, ins)
    && (ins.ChkRef? ==> SlotExists(fn, fn.variableSpace + d))
    && (ins.Call? ==> ins.callee < |sigs|)
    && (ins.JmpP? ==> i + 1 < |fn.code| && fn.code[i + 1].Jmp?)
  }

  /** The code the translator accepts. */
  ghost predicate Accepted(fn: Function, sigs: seq<Signature>) {
    && (forall i :: 0 <= i < |fn.code| ==> AcceptedAt(fn, sigs, i))
    && DepthBefore(fn.code, sigs, |fn.code|) == 0
  }

  /** Between two depths that are within the frame, an instruction has all slots it needs but those it names. */
  lemma {:induction false} DepthsSuffice(fn: Function, sigs: seq<Signature>, sp: int, ins: Ins)
    requires fn.variableSpace <= sp <= fn.stackNeeded + 4
    requires fn.variableSpace <= sp + Delta(ins, sigs) <= fn.stackNeeded + 4
    ensures SlotsExist(fn, sigs, sp, ins) <==>
      && VariablesExist(fn, ins)
      && (ins.ChkRef? ==> SlotExists(fn, sp))
      && (ins.Call? ==> ins.callee < |sigs|)
  {
    hide VariablesExist, StackTypes;
    if ins.Call? && ins.callee < |sigs| {
      var types := StackTypes(sigs[ins.callee]);
      forall k | 0 <= k < |types|
        ensures SlotExists(fn, sp - ReadBefore(types, k))
      {
        ReadBeforeMonotone(types, k, |types|);
      }
    }
  }

  lemma {:induction false} LabelTargets(fn: Function, b: Builder, i: nat)
    requires i < |fn.code|
    requires b.jumpMap == Labels(fn).jumpMap && b.switchMap == Labels(fn).switchMap
    ensures TargetsKnown(b, fn.code[i], Off(fn.code, i)) <==>
      (fn.code[i].JmpP? ==> i + 1 < |fn.code| && fn.code[i + 1].Jmp?)
  {
    hide Labels;
    var ins, offset := fn.code[i], Off(fn.code, i);
    if IsBranch(ins) {
      LabelInserted(fn, i, BranchTarget(ins, offset));
    }
    if IsConditional(ins) {
      LabelInserted(fn, i, offset + 2);
    }
    if ins.JmpP? {
      JumpTableExact(fn, i);
    }
  }

  /** The state before instruction i. */
  ghost predicate StateHolds(fn: Function, sigs: seq<Signature>, i: nat, b: Builder)
    requires i <= |fn.code|
  {
    Follows(Labels(fn), b, fn.variableSpace + DepthBefore(fn.code, sigs, i))
  }

  lemma {:induction false} StartHolds(fn: Function, sigs: seq<Signature>)
    ensures StateAt(fn, sigs, 0) == Some(Labels(fn)) && StateHolds(fn, sigs, 0, Labels(fn))
  {
    hide ScanTo;
    ScanLabelBlocks(fn, |fn.code|);
  }

  lemma {:induction false} AcceptedMeans(fn: Function, sigs: seq<Signature>, i: nat, b: Builder)
    requires i < |fn.code| && StateHolds(fn, sigs, i, b)
    requires 0 <= DepthBefore(fn.code, sigs, i + 1) <= fn.stackNeeded + 4 - fn.variableSpace
    ensures Admits(fn, sigs, b, fn.code[i], Off(fn.code, i)) <==> AcceptedAt(fn, sigs, i)
  {
    hide Labels, SlotsExist, VariablesExist, SlotExists, TargetsKnown, IsLabel, Delta, BlocksExist;
    LabelTargets(fn, b, i);
    LabelsExact(fn, Off(fn.code, i));
    if fn.variableSpace <= b.sp <= fn.stackNeeded + 4 {
      DepthsSuffice(fn, sigs, b.sp, fn.code[i]);
    }
  }

  lemma {:induction false} NextHolds(fn: Function, sigs: seq<Signature>, i: nat, b: Builder)
    requires i < |fn.code| && StateAt(fn, sigs, i) == Some(b) && StateHolds(fn, sigs, i, b)
    ensures StateAt(fn, sigs, i + 1).Some? <==> Admits(fn, sigs, b, fn.code[i], Off(fn.code, i))
    ensures StateAt(fn, sigs, i + 1).Some? ==> StateHolds(fn, sigs, i + 1, StateAt(fn, sigs, i + 1).value)
  {
    hide Labels, TranslateIns, Admits, Delta, BlocksExist;
    InstructionAdmitted(fn, sigs, b, fn.code[i], Off(fn.code, i));
  }

  lemma {:induction false} StatesHold(fn: Function, sigs: seq<Signature>, i: nat)
    requires i <= |fn.code| && StateAt(fn, sigs, i).Some?
    ensures StateHolds(fn, sigs, i, StateAt(fn, sigs, i).value)
  {
    hide StateHolds, StateAt;
    if i == 0 {
      StartHolds(fn, sigs);
    } else {
      StateBefore(fn, sigs, i - 1, i);
      StatesHold(fn, sigs, i - 1);
      NextHolds(fn, sigs, i - 1, StateAt(fn, sigs, i - 1).value);
    }
  }

  lemma {:induction false} StateReached(fn: Function, sigs: seq<Signature>, i: nat)
    requires Accepted(fn, sigs) && i <= |fn.code|
    ensures StateAt(fn, sigs, i).Some?
  {
    hide StateHolds, StateAt, AcceptedAt, DepthBefore;
    if i == 0 {
      StartHolds(fn, sigs);
    } else {
      StateReached(fn, sigs, i - 1);
      StatesHold(fn, sigs, i - 1);
      NextHolds(fn, sigs, i - 1, StateAt(fn, sigs, i - 1).value);
      AcceptedDepth(fn, sigs, i);
      AcceptedMeans(fn, sigs, i - 1, StateAt(fn, sigs, i - 1).value);
    }
  }

  lemma {:induction false} AcceptedDepth(fn: Function, sigs: seq<Signature>, i: nat)
    requires Accepted(fn, sigs) && i <= |fn.code| && |fn.code| > 0
    ensures 0 <= DepthBefore(fn.code, sigs, i) <= fn.stackNeeded + 4 - fn.variableSpace
  {
    hide DepthBefore;
    assert AcceptedAt(fn, sigs, 0);
    if i < |fn.code| {
      assert AcceptedAt(fn, sigs, i);
    }
  }

  /** Between instructions the depth is within the frame, and at the end it is zero. */
  lemma {:induction false} TranslatedDepth(fn: Function, sigs: seq<Signature>, i: nat)
    requires Translate(fn, sigs).Some? && i <= |fn.code| && |fn.code| > 0
    ensures StateAt(fn, sigs, i).Some?
    ensures 0 <= DepthBefore(fn.code, sigs, i) <= fn.stackNeeded + 4 - fn.variableSpace
    ensures DepthBefore(fn.code, sigs, |fn.code|) == 0
  {
    hide StateAt, DepthBefore, Labels, BlocksExist, SlotsExist, TargetsKnown;
    StateBefore(fn, sigs, i, |fn.code|);
    StatesHold(fn, sigs, i);
    StatesHold(fn, sigs, |fn.code|);
    var j := if i < |fn.code| then i else 0;
    StateBefore(fn, sigs, j, |fn.code|);
    StateBefore(fn, sigs, j + 1, |fn.code|);
    StatesHold(fn, sigs, j);
    NextHolds(fn, sigs, j, StateAt(fn, sigs, j).value);
  }

  /** Translation succeeds for exactly the accepted code, whatever the function and the callees. */
  lemma {:induction false} TranslatesExactly(fn: Function, sigs: seq<Signature>)
    ensures Translate(fn, sigs).Some? <==> Accepted(fn, sigs)
  {
    hide StateAt, AcceptedAt, DepthBefore, Labels;
    var n := |fn.code|;
    if Accepted(fn, sigs) {
      StateReached(fn, sigs, n);
      StatesHold(fn, sigs, n);
    }
    if Translate(fn, sigs).Some? {
      StatesHold(fn, sigs, n);
      forall i | 0 <= i < n
        ensures AcceptedAt(fn, sigs, i)
      {
        TranslatedDepth(fn, sigs, i);
        TranslatedDepth(fn, sigs, i + 1);
        StatesHold(fn, sigs, i);
        NextHolds(fn, sigs, i, StateAt(fn, sigs, i).value);
        AcceptedMeans(fn, sigs, i, StateAt(fn, sigs, i).value);
      }
    }
  }
}
