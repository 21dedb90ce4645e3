/** Calls: the argument vector the translator builds from the caller's stack makes a callee frame that represents the
    frame the VM gives the callee. */
module CallSteps {
  import opened Words
  import opened Signatures
  import opened Bytecode
  import opened Machine
  import opened Blocks
  import opened Frames
  import opened Translation

  /** The value of a type that ends r DWORDs below the top of the stack. */
  function StackValue(fr: Frame, r: nat, t: DataType): nat
    requires NativeType(t) && r + t.dwords <= |fr.stack|
  {
    if FillsItsDwords(t) then PassedValue(fr, r, t.dwords) else Wrap(fr.stack[|fr.stack| - 1 - r], BitsOf(t.llvm))
  }

  /** The value of d DWORDs that ends r DWORDs below the top of the stack. */
  function PassedValue(fr: Frame, r: nat, d: nat): QWord
    requires 1 <= d <= 2 && r + d <= |fr.stack|
  {
    var n := |fr.stack| - 1 - r;
    if d == 1 then fr.stack[n] else Join(fr.stack[n], fr.stack[n - 1])
  }

  /** Behind the lead arguments, value k is stack value k of the caller. */
  ghost predicate IsPassed(fr: Frame, types: seq<DataType>, lead: nat, values: seq<Option<nat>>, k: nat)
    requires k < |types|
  {
    var r := ReadBefore(types, k);
    && NativeType(types[k]) && r + types[k].dwords <= |fr.stack|
    && lead + k < |values| && values[lead + k] == Some(StackValue(fr, r, types[k]))
  }

  ghost predicate ArgumentValues(fr: Frame, types: seq<DataType>, lead: nat, n: nat, values: seq<Option<nat>>)
    requires n <= |types|
  {
    |values| == lead + n && forall k :: 0 <= k < n ==> IsPassed(fr, types, lead, values, k)
  }

  lemma {:induction false} ReadWithin(types: seq<DataType>, k: nat)
    requires k < |types|
    ensures ReadBefore(types, k) + types[k].dwords <= Dwords(types)
  {
    ReadBeforeMonotone(types, k, |types|);
  }

  lemma {:induction false} LeadEval(fn: Function, mem: Memory, sig: Signature, sp: int)
    ensures EvalArgs(mem, ArgumentExprs(fn, LeadArguments(sig), sp)).Some?
    ensures |EvalArgs(mem, ArgumentExprs(fn, LeadArguments(sig), sp)).value| == LeadCount(sig)
  {
    if ReturnsInRegister(sig) {
      var a := LeadArguments(sig)[0];
      assert LeadArguments(sig) == [] + [a];
      ArgumentExprsSnoc(fn, [], a, sp);
      assert ArgumentExprs(fn, LeadArguments(sig), sp) == [RegisterArg];
      RegisterArgEval(mem);
    }
  }

  lemma {:induction false} RegisterArgEval(mem: Memory)
    ensures EvalArgs(mem, [RegisterArg]) == Some([None])
  {
    var args: seq<ArgExpr> := [RegisterArg];
    assert args[..|args| - 1] == [];
    var none: seq<Option<nat>> := [None];
    assert [] + none == none;
  }

  lemma {:induction false} EvalArgsSnoc(mem: Memory, args: seq<ArgExpr>, a: ArgExpr, values: seq<Option<nat>>, v: nat)
    requires EvalArgs(mem, args) == Some(values)
    requires a.ValueArg? && Eval(mem, a.e) == Some(v)
    ensures EvalArgs(mem, args + [a]) == Some(values + [Some(v)])
  {
    assert (args + [a])[..|args + [a]| - 1] == args;
  }

  lemma {:induction false} ArgumentExprsSnoc(fn: Function, args: seq<Argument>, a: Argument, sp: int)
    ensures ArgumentExprs(fn, args + [a], sp) == ArgumentExprs(fn, args, sp) + [ArgumentExpr(fn, a, sp)]
  {
    assert (args + [a])[..|args + [a]| - 1] == args;
  }

  /** The arguments evaluate to the values on the caller's stack, in order. */
  lemma {:induction false} ArgumentsEval(
    fn: Function, fr: Frame, mem: Memory, sp: int, lead: seq<Argument>, types: seq<DataType>, n: nat)
    returns (values: seq<Option<nat>>)
    requires Represents(fn, fr, mem, sp) && NativeTypes(types) && n <= |types| && Dwords(types) <= |fr.stack|
    requires EvalArgs(mem, ArgumentExprs(fn, lead, sp)).Some?
    requires |EvalArgs(mem, ArgumentExprs(fn, lead, sp)).value| == |lead|
    ensures EvalArgs(mem, ArgumentExprs(fn, ArgumentsUpTo(lead, types, n), sp)) == Some(values)
    ensures ArgumentValues(fr, types, |lead|, n, values)
  {
    hide Represents, EvalArgs, ArgumentExprs, ReadBefore, ArgumentValues, LoadSlot, StackValue;
    if n == 0 {
      values := EvalArgs(mem, ArgumentExprs(fn, lead, sp)).value;
      NoArgumentValues(fr, types, |lead|, values);
    } else {
      var before := ArgumentsEval(fn, fr, mem, sp, lead, types, n - 1);
      var r := ReadBefore(types, n - 1);
      ReadWithin(types, n - 1);
      var a := StackRead(r, types[n - 1].llvm);
      var v := StackValue(fr, r, types[n - 1]);
      StackReadEval(fn, fr, mem, sp, r, types[n - 1]);
      LastArgument(fn, mem, ArgumentsUpTo(lead, types, n - 1), a, sp, before, v);
      values := before + [Some(v)];
      ArgumentValuesSnoc(fr, types, |lead|, n - 1, before);
    }
  }

  lemma {:induction false} StackReadEval(fn: Function, fr: Frame, mem: Memory, sp: int, r: nat, t: DataType)
    requires Represents(fn, fr, mem, sp) && NativeType(t) && r + t.dwords <= |fr.stack|
    ensures Eval(mem, LoadSlot(fn, sp - r, BitsOf(t.llvm))) == Some(StackValue(fr, r, t))
  {
    LoadOperand(fn, fr, mem, sp, r, if FillsItsDwords(t) then t.dwords else 1);
  }

  lemma {:induction false} NoArgumentValues(fr: Frame, types: seq<DataType>, lead: nat, values: seq<Option<nat>>)
    requires |values| == lead
    ensures ArgumentValues(fr, types, lead, 0, values)
  {
  }

  lemma {:induction false} ArgumentValuesSnoc(
    fr: Frame, types: seq<DataType>, lead: nat, n: nat, values: seq<Option<nat>>)
    requires n < |types| && NativeTypes(types) && Dwords(types) <= |fr.stack|
    requires ArgumentValues(fr, types, lead, n, values)
    ensures ReadBefore(types, n) + types[n].dwords <= Dwords(types)
    ensures ArgumentValues(
      fr, types, lead, n + 1, values + [Some(StackValue(fr, ReadBefore(types, n), types[n]))])
  {
    ReadWithin(types, n);
    var values' := values + [Some(StackValue(fr, ReadBefore(types, n), types[n]))];
    forall k | 0 <= k < n + 1
      ensures IsPassed(fr, types, lead, values', k)
    {
      if k < n {
        assert IsPassed(fr, types, lead, values, k);
      }
    }
  }

  lemma {:induction false} LastArgument(
    fn: Function, mem: Memory, args: seq<Argument>, a: Argument, sp: int, before: seq<Option<nat>>, v: nat)
    requires a.StackRead? && Eval(mem, LoadSlot(fn, sp - a.r, BitsOf(a.llvm))) == Some(v)
    requires EvalArgs(mem, ArgumentExprs(fn, args, sp)) == Some(before)
    ensures EvalArgs(mem, ArgumentExprs(fn, args + [a], sp)) == Some(before + [Some(v)])
  {
    ArgumentExprsSnoc(fn, args, a, sp);
    EvalArgsSnoc(mem, ArgumentExprs(fn, args, sp), ArgumentExpr(fn, a, sp), before, v);
  }

  /** The target of a function has the function's frame. */
  ghost predicate SameFrame(fn: Function, target: Target) {
    && target.total == TotalSpace(fn)
    && target.variableSpace == fn.variableSpace
    && target.slots == ParameterStorage(fn.sig)
    && target.sig == fn.sig
  }

  /** The prologue of the callee, fed with those arguments, represents the VM's initial frame for the callee. */
  lemma {:induction false} CalleeRepresents(
    callee: Function, target: Target, fr: Frame, values: seq<Option<nat>>, globals: Globals)
    requires SameFrame(callee, target) && callee.variableSpace <= TotalSpace(callee)
    requires NativeTypes(StackTypes(callee.sig)) && Dwords(StackTypes(callee.sig)) <= |fr.stack|
    requires ArgumentValues(fr, StackTypes(callee.sig), LeadCount(callee.sig), |StackTypes(callee.sig)|, values)
    ensures Represents(
      callee, InitialFrame(callee, Passed(fr, Dwords(StackTypes(callee.sig))), globals),
      InitialMemory(target, values, globals), callee.variableSpace)
  {
    var types := StackTypes(callee.sig);
    var args := Passed(fr, Dwords(types));
    var mem := InitialMemory(target, values, globals);
    forall k | 0 <= k < |types|
      ensures SlotRepresents(types, k, args, mem.params)
    {
      CalleeSlot(types, LeadCount(callee.sig), fr, values, k);
    }
    assert StorageRepresents(InitialFrame(callee, args, globals), mem.storage);
  }

  lemma {:induction false} PassedWords(fr: Frame, n: nat, r: nat, d: nat)
    requires 1 <= d <= 2 && r + d <= n <= |fr.stack|
    ensures SplitWords(PassedValue(fr, r, d), d) == Passed(fr, n)[r..r + d]
  {
    var args := Passed(fr, n);
    assert args[r] == fr.stack[|fr.stack| - 1 - r];
    if d == 1 {
      assert args[r..r + 1] == [args[r]];
    } else {
      assert args[r + 1] == fr.stack[|fr.stack| - 2 - r];
      assert args[r..r + 2] == [args[r], args[r + 1]];
      JoinSplits(args[r], args[r + 1]);
    }
  }

  lemma {:induction false} JoinSplits(lo: Word, hi: Word)
    ensures Join(lo, hi) < M64 && Lo(Join(lo, hi)) == lo && Hi(Join(lo, hi)) == hi
  {
  }

  lemma {:induction false} CalleeSlot(types: seq<DataType>, lead: nat, fr: Frame, values: seq<Option<nat>>, k: nat)
    requires k < |types| && NativeTypes(types) && Dwords(types) <= |fr.stack|
    requires ArgumentValues(fr, types, lead, |types|, values)
    ensures
      var r := ReadBefore(types, k);
      && r + types[k].dwords <= Dwords(types)
      && FrameOffset(r) in ParameterSlots(types, lead, |types|)
      && SlotValue(ParameterSlots(types, lead, |types|)[FrameOffset(r)], values)
        == Passed(fr, Dwords(types))[r..r + WholeDwords(types[k])]
  {
    hide ReadBefore, ParameterSlots, PassedValue, Passed, SplitWords;
    ReadWithin(types, k);
    SlotOf(types, lead, |types|, k);
    assert IsPassed(fr, types, lead, values, k);
    if FillsItsDwords(types[k]) {
      PassedWords(fr, Dwords(types), ReadBefore(types, k), types[k].dwords);
    } else {
      NothingWhole(values[lead + k].value);
    }
  }

  lemma {:induction false} NothingWhole(v: nat)
    ensures SplitWords(v, 0) == []
  {
  }

  /** The `this` pointer of a method call is among the passed DWORDs. */
  lemma {:induction false} ObjectPassed(sig: Signature)
    requires sig.objectType.Some? && NativeSignature(sig)
    ensures ObjectPosition(sig) + 2 <= Dwords(StackTypes(sig))
  {
    var types := StackTypes(sig);
    var k := if sig.returnType.Some? && sig.returnsOnStack then 1 else 0;
    ReadWithin(types, k);
    assert types[k] == sig.objectType.value;
    assert ReadBefore(types, k) == ObjectPosition(sig);
  }
}
