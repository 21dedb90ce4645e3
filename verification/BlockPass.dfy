/** What the second pass keeps: code only ever grows, at most the current block lacks its terminator, and the blocks of
    labels stay empty until their label is reached. */
module BlockPass {
  import opened Words
  import opened Signatures
  import opened Bytecode
  import opened Machine
  import opened Blocks
  import opened Frames
  import opened Translation
  import opened LabelPass

  /** Code as the AngelScript compiler leaves it: operands in range, branches to instructions of the function, no code
      behind an unconditional jump unless it is a label, and no way to run past the end. */
  ghost predicate WellFormed(fn: Function, functions: nat) {
    && NativeSignature(fn.sig)
    && |fn.code| > 0
    && IsClosing(fn.code[|fn.code| - 1])
    && (forall i :: 0 <= i < |fn.code| ==> InstructionOk(fn, functions, i))
  }

  ghost predicate InstructionOk(fn: Function, functions: nat, i: nat)
    requires i < |fn.code|
  {
    var ins, offset := fn.code[i], Off(fn.code, i);
    && OperandsOk(fn, functions, ins)
    && (IsBranch(ins) ==> IndexOf(fn.code, BranchTarget(ins, offset)).Some?)
    && (IsConditional(ins) ==> i + 1 < |fn.code|)
    && (IsClosing(ins) && i + 1 < |fn.code| ==> IsLabel(fn.code, Off(fn.code, i + 1)))
  }

  // ---------- growth

  ghost predicate Extends(b: Builder, b': Builder) {
    && |b.blocks| <= |b'.blocks|
    && (forall k :: 0 <= k < |b.blocks| ==> b.blocks[k] <= b'.blocks[k])
    && b'.jumpMap == b.jumpMap
    && b'.switchMap == b.switchMap
  }

  lemma {:induction false} ExtendsTransitive(a: Builder, b: Builder, c: Builder)
    requires Extends(a, b) && Extends(b, c)
    ensures Extends(a, c)
  {
  }

  lemma {:induction false} ExtendsReflexive(b: Builder)
    ensures Extends(b, b)
  {
  }

  lemma {:induction false} AppendExtends(b: Builder, code: seq<Instr>)
    requires b.cur < |b.blocks|
    ensures Extends(b, Append(b, code))
    ensures Append(b, code).blocks[b.cur] == b.blocks[b.cur] + code
  {
  }

  // ---------- block shapes

  predicate Open(code: seq<Instr>) {
    forall k :: 0 <= k < |code| ==> !IsTerminator(code[k])
  }

  /** One terminator, placed last. */
  predicate Closed(code: seq<Instr>) {
    |code| > 0 && IsTerminator(code[|code| - 1]) && Open(code[..|code| - 1])
  }

  lemma {:induction false} OpenThenClosed(a: seq<Instr>, b: seq<Instr>)
    requires Open(a)
    ensures Open(b) ==> Open(a + b)
    ensures Closed(b) ==> Closed(a + b)
  {
    if Closed(b) {
      assert (a + b)[..|a + b| - 1] == a + b[..|b| - 1];
    }
  }

  /** The block belongs to a label at or after offset t. */
  ghost predicate Pending(b: Builder, t: int, block: nat) {
    exists off :: off in b.jumpMap && off >= t && b.jumpMap[off] == block
  }

  /** The builder between two instructions: labels from offset t on have not been reached. */
  ghost predicate BlocksOk(b: Builder, labels: Builder, t: int, open: bool) {
    && LabelBlocks(labels)
    && b.jumpMap == labels.jumpMap
    && b.switchMap == labels.switchMap
    && |labels.blocks| <= |b.blocks|
    && b.cur < |b.blocks|
    && !Pending(b, t, b.cur)
    && (forall k :: 0 <= k < |b.blocks| && Pending(b, t, k) ==> b.blocks[k] == [])
    && (forall k :: 0 <= k < |b.blocks| && k != b.cur && !Pending(b, t, k) ==> Closed(b.blocks[k]))
    && (if open then Open(b.blocks[b.cur]) else Closed(b.blocks[b.cur]))
  }

  lemma {:induction false} AppendKeeps(b: Builder, labels: Builder, t: int, code: seq<Instr>)
    requires BlocksOk(b, labels, t, true)
    ensures Open(code) ==> BlocksOk(Append(b, code), labels, t, true)
    ensures Closed(code) ==> BlocksOk(Append(b, code), labels, t, false)
  {
    var b' := Append(b, code);
    OpenThenClosed(b.blocks[b.cur], code);
    assert forall k :: Pending(b', t, k) <==> Pending(b, t, k);
  }

  lemma {:induction false} SetSpKeeps(b: Builder, labels: Builder, t: int, open: bool, sp: int, ret: Option<nat>)
    requires BlocksOk(b, labels, t, open)
    ensures BlocksOk(b.(sp := sp), labels, t, open)
    ensures BlocksOk(b.(retPointer := ret), labels, t, open)
  {
    assert forall k :: Pending(b.(sp := sp), t, k) <==> Pending(b, t, k);
    assert forall k :: Pending(b.(retPointer := ret), t, k) <==> Pending(b, t, k);
  }

  lemma {:induction false} CheckKeeps(b: Builder, labels: Builder, t: int, condition: Expr, state: Expr)
    requires BlocksOk(b, labels, t, true)
    ensures BlocksOk(EmitCheck(b, condition, state), labels, t, true)
    ensures Extends(b, EmitCheck(b, condition, state))
  {
    var n := |b.blocks|;
    var code := [CondBr(condition, n, n + 1)];
    AppendKeeps(b, labels, t, code);
    var b1 := Append(b, code);
    var b2 := EmitCheck(b, condition, state);
    assert Closed(code) && Closed([Return(state)]) && Open([]);
    assert forall k :: Pending(b2, t, k) <==> Pending(b, t, k);
    assert forall k :: Pending(b1, t, k) <==> Pending(b, t, k);
    forall k | 0 <= k < |b2.blocks| && k != b2.cur && !Pending(b2, t, k)
      ensures Closed(b2.blocks[k])
    {
      if k < n {
        assert b2.blocks[k] == b1.blocks[k];
      }
    }
  }

  /** Reaching a label: the block before it is closed, by a branch to the label if nothing else closed it. */
  lemma {:induction false} EnterKeeps(fn: Function, b: Builder, labels: Builder, t: int, open: bool)
    requires BlocksOk(b, labels, t, open)
    requires EnterLabel(fn, b, t).Some?
    requires open || t in b.jumpMap
    ensures BlocksOk(EnterLabel(fn, b, t).value, labels, t + 1, true)
    ensures Extends(b, EnterLabel(fn, b, t).value)
    ensures t in b.jumpMap ==>
      EnterLabel(fn, b, t).value.cur == b.jumpMap[t] && EnterLabel(fn, b, t).value.blocks[b.jumpMap[t]] == []
  {
    var w := EnterLabel(fn, b, t).value;
    if t in b.jumpMap {
      var l := b.jumpMap[t];
      assert Pending(b, t, l);
      assert Closed([Br(l)]);
      if open {
        OpenThenClosed(b.blocks[b.cur], [Br(l)]);
      }
      assert Closed(w.blocks[b.cur]);
      forall k | Pending(w, t + 1, k)
        ensures Pending(b, t, k) && k != l
      {
      }
      forall k | Pending(b, t, k) && k != l
        ensures Pending(w, t + 1, k)
      {
        var off :| off in b.jumpMap && off >= t && b.jumpMap[off] == k;
        assert off >= t + 1;
      }
    } else {
      assert forall k :: Pending(w, t + 1, k) <==> Pending(b, t, k);
    }
  }

  lemma {:induction false} BasicCodeOpen(fn: Function, ins: Ins, sp: int)
    requires EmitBasic(fn, ins, sp).Some?
    ensures Open(EmitBasic(fn, ins, sp).value.code)
    ensures |EmitBasic(fn, ins, sp).value.code| <= 1
  {
  }

  predicate Ends(ins: Ins) {
    IsClosing(ins) || IsConditional(ins)
  }

  lemma {:induction false} CurInRange(b: Builder, labels: Builder, t: int, open: bool)
    requires BlocksOk(b, labels, t, open)
    ensures b.cur < |b.blocks|
  {
  }

  lemma {:induction false} CallKeeps(fn: Function, b: Builder, labels: Builder, t: int, callee: nat, sig: Signature)
    requires BlocksOk(b, labels, t, true)
    requires EmitCall(fn, b, callee, sig).Some?
    ensures BlocksOk(EmitCall(fn, b, callee, sig).value, labels, t, true)
    ensures Extends(b, EmitCall(fn, b, callee, sig).value)
  {
    hide BlocksOk, Extends, Append, EmitCheck, ArgumentExprs, CallArguments, StackTypes, SlotAddr;
    var code := [CallFunction(callee, ArgumentExprs(fn, CallArguments(sig), b.sp))];
    CurInRange(b, labels, t, true);
    ExtendsReflexive(b);
    var b1 := b;
    if sig.objectType.Some? {
      var nullCheck := NullCheck(LoadSlot(fn, b.sp - ObjectPosition(sig), 64));
      CheckKeeps(b, labels, t, nullCheck, Const(8, EXCEPTION_NULL_POINTER));
      b1 := EmitCheck(b, nullCheck, Const(8, EXCEPTION_NULL_POINTER));
    }
    CurInRange(b1, labels, t, true);
    AppendKeeps(b1, labels, t, code);
    AppendExtends(b1, code);
    CallTailKeeps(b, b1, Append(b1, code), labels, t, b.sp - Dwords(StackTypes(sig)));
  }

  lemma {:induction false} CallTailKeeps(b: Builder, b1: Builder, b2: Builder, labels: Builder, t: int, sp: int)
    requires BlocksOk(b2, labels, t, true)
    requires Extends(b, b1) && Extends(b1, b2)
    ensures BlocksOk(EmitCheck(b2, StateCheck(), CallState).(sp := sp), labels, t, true)
    ensures Extends(b, EmitCheck(b2, StateCheck(), CallState).(sp := sp))
  {
    var b3 := EmitCheck(b2, StateCheck(), CallState);
    CheckKeeps(b2, labels, t, StateCheck(), CallState);
    SetSpKeeps(b3, labels, t, true, sp, None);
    ExtendsTransitive(b, b1, b2);
    ExtendsTransitive(b, b2, b3);
  }

  lemma {:induction false} ClosingKeeps(w: Builder, labels: Builder, t: int, code: seq<Instr>)
    requires BlocksOk(w, labels, t, true) && Closed(code)
    ensures BlocksOk(Append(w, code), labels, t, false)
    ensures Extends(w, Append(w, code))
  {
    AppendKeeps(w, labels, t, code);
  }

  lemma {:induction false} ReturnKeeps(fn: Function, w: Builder, labels: Builder, t: int, offset: nat)
    requires BlocksOk(w, labels, t, true)
    ensures BlocksOk(Append(w, ReturnCode(fn)).(retPointer := Some(offset)), labels, t, false)
    ensures Extends(w, Append(w, ReturnCode(fn)).(retPointer := Some(offset)))
  {
    assert Closed(ReturnCode(fn));
    ClosingKeeps(w, labels, t, ReturnCode(fn));
    SetSpKeeps(Append(w, ReturnCode(fn)), labels, t, false, 0, Some(offset));
  }

  lemma {:induction false} ControlKeeps(
    fn: Function, sigs: seq<Signature>, w: Builder, labels: Builder, t: int, ins: Ins, offset: nat)
    requires BlocksOk(w, labels, t, true)
    requires EmitControl(fn, sigs, w, ins, offset).Some?
    ensures BlocksOk(EmitControl(fn, sigs, w, ins, offset).value, labels, t, !Ends(ins))
    ensures Extends(w, EmitControl(fn, sigs, w, ins, offset).value)
  {
    hide BlocksOk, Extends, Append, EmitCheck, EmitCall, ReturnCode;
    CurInRange(w, labels, t, true);
    match ins
    case ChkNullV(v) => CheckKeeps(w, labels, t, NullCheck(LoadSlot(fn, v, 64)), Const(8, EXCEPTION_NULL_POINTER));
    case ChkRef => CheckKeeps(w, labels, t, NullCheck(LoadSlot(fn, w.sp, 64)), Const(8, EXCEPTION_NULL_POINTER));
    case Call(callee) => CallKeeps(fn, w, labels, t, callee, sigs[callee]);
    case Ret => ReturnKeeps(fn, w, labels, t, offset);
    case Jmp(rel) => ClosingKeeps(w, labels, t, [Br(w.jumpMap[offset + 2 + rel])]);
    case JCond(c, rel) =>
      ClosingKeeps(w, labels, t, [CondBr(ConditionExpr(c), w.jumpMap[offset + 2 + rel], w.jumpMap[offset + 2])]);
    case JLow(zero, rel) =>
      ClosingKeeps(w, labels, t, [CondBr(LowConditionExpr(zero), w.jumpMap[offset + 2 + rel], w.jumpMap[offset + 2])]);
    case JmpP(v) =>
      var targets := w.switchMap[offset];
      ClosingKeeps(w, labels, t, [Switch(LoadSlot(fn, v, 32), targets[|targets| - 1], targets)]);
  }

  lemma {:induction false} EmitKeeps(
    fn: Function, sigs: seq<Signature>, w: Builder, labels: Builder, t: int, ins: Ins, offset: nat)
    requires BlocksOk(w, labels, t, true)
    requires Emit(fn, sigs, w, ins, offset).Some?
    ensures BlocksOk(Emit(fn, sigs, w, ins, offset).value, labels, t, !Ends(ins))
    ensures Extends(w, Emit(fn, sigs, w, ins, offset).value)
  {
    if IsBasic(ins) {
      BasicCodeOpen(fn, ins, w.sp);
      var e := EmitBasic(fn, ins, w.sp).value;
      AppendKeeps(w, labels, t, e.code);
      SetSpKeeps(Append(w, e.code), labels, t, true, e.sp, None);
    } else {
      ControlKeeps(fn, sigs, w, labels, t, ins, offset);
    }
  }
}
