/** One step of the VM, at any instruction of a compiled function, is a few steps of the target that keep the
    representation: the compile-time stack pointer is the run-time depth wherever control is. */
module StepSimulation {
  import opened Words
  import opened Signatures
  import opened Bytecode
  import opened Machine
  import opened Blocks
  import opened Frames
  import opened Translation
  import opened LabelPass
  import opened BlockPass
  import opened BlockPassRun
  import opened Operations
  import opened BasicSteps
  import opened Positions

  /** The frame is represented when control is at instruction i. */
  ghost predicate Simulates(m: seq<Function>, f: nat, i: nat, fr: Frame, mem: Memory)
    requires f < |m|
  {
    i < |m[f].code| && Represents(m[f], fr, mem, DepthOf(m, f, i))
  }

  lemma {:induction false} PlacedFacts(m: seq<Function>, p: seq<Target>, f: nat, i: nat, w: Builder, b': Builder)
    requires Placed(m, p, f, i, w, b')
    ensures |p| == |m| && f < |m| && i < |m[f].code|
    ensures PosOf(m, f, i) == Pos(w.cur, |w.blocks[w.cur]|)
    ensures DepthOf(m, f, i) == w.sp && w.cur < |w.blocks| && b'.cur < |b'.blocks|
    ensures OperandsOk(m[f], |m|, m[f].code[i])
    ensures Emit(m[f], Sigs(m), w, m[f].code[i], Off(m[f].code, i)) == Some(b')
    ensures NativeSignature(m[f].sig)
  {
    assert CompiledFunction(m, p, f);
  }

  lemma {:induction false} ArriveNext(
    m: seq<Function>, p: seq<Target>, f: nat, i: nat, w: Builder, b': Builder, mem: Memory)
    returns (c: nat)
    requires Placed(m, p, f, i, w, b') && !Ends(m[f].code[i])
    ensures i + 1 < |m[f].code|
    ensures c <= 1 && Leads(p, f, EndOf(b'), mem, c, PosOf(m, f, i + 1), mem)
    ensures DepthOf(m, f, i + 1) == b'.sp
  {
    assert CompiledFunction(m, p, f);
    WellFormedAt(m[f], |m|, i);
    c := Arrive(m, p, f, i + 1, b', mem);
  }

  /** Straight-line instructions. */
  lemma {:induction false} BasicGo(m: seq<Function>, p: seq<Target>, f: nat, i: nat, fr: Frame, mem: Memory)
    returns (c: nat, mem': Memory)
    requires Compiled(m, p) && f < |m| && Simulates(m, f, i, fr, mem) && IsBasic(m[f].code[i])
    requires StepBasic(fr, m[f].code[i]).Some? && Clean(m[f], fr, m[f].code[i])
    ensures f < |p| && i + 1 < |m[f].code| && c <= 2
    ensures Leads(p, f, PosOf(m, f, i), mem, c, PosOf(m, f, i + 1), mem')
    ensures Simulates(m, f, i + 1, StepBasic(fr, m[f].code[i]).value, mem')
  {
    hide Compiled, Placed, StepBasic, EmitBasic, Represents, PosOf, DepthOf, OperandsOk, NativeSignature, Leads,
      Executes, Clean;
    var w, b' := Place(m, p, f, i);
    PlacedFacts(m, p, f, i, w, b');
    var ins := m[f].code[i];
    mem' := BasicStep(m[f], |m|, fr, mem, w.sp, ins);
    var e := EmitBasic(m[f], ins, w.sp).value;
    var c1 := BasicCodeLeads(m, p, f, i, w, b', e, mem, mem');
    var c2 := ArriveNext(m, p, f, i, w, b', mem');
    LeadsCompose(p, f, PosOf(m, f, i), mem, c1, EndOf(b'), mem', c2, PosOf(m, f, i + 1), mem');
    c := c1 + c2;
  }

  lemma {:induction false} BasicCodeLeads(
    m: seq<Function>, p: seq<Target>, f: nat, i: nat, w: Builder, b': Builder, e: Emitted, mem: Memory, mem': Memory)
    returns (c: nat)
    requires Placed(m, p, f, i, w, b') && f < |p| && IsBasic(m[f].code[i])
    requires EmitBasic(m[f], m[f].code[i], w.sp) == Some(e) && Executes(e.code, mem, mem')
    ensures b'.cur < |b'.blocks| && b'.sp == e.sp
    ensures c <= 1 && Leads(p, f, PosOf(m, f, i), mem, c, EndOf(b'), mem')
  {
    hide Compiled, EmitBasic, Placed, Executes, PosOf, DepthOf, Append, OperandsOk, NativeSignature, Leads;
    PlacedFacts(m, p, f, i, w, b');
    AppendedEnd(w, e.code);
    if e.code == [] {
      c := 0;
      NothingExecuted(mem, mem');
      LeadsStay(p, f, EndOf(b'), mem);
    } else {
      c := 1;
      CodeAppended(m, p, f, i, w, b', e.code, 0);
      OneStore(e.code, mem, mem');
      StoreLeads(p, f, EndOf(w), e.code[0], mem, mem');
    }
  }

  lemma {:induction false} AppendedEnd(w: Builder, code: seq<Instr>)
    requires w.cur < |w.blocks|
    ensures
      var b := Append(w, code);
      b.cur == w.cur && |b.blocks| == |w.blocks| && b.blocks[w.cur] == w.blocks[w.cur] + code
  {
  }

  lemma {:induction false} NothingExecuted(mem: Memory, mem': Memory)
    requires Executes([], mem, mem')
    ensures mem' == mem
  {
  }

  lemma {:induction false} OneStore(code: seq<Instr>, mem: Memory, mem': Memory)
    requires Executes(code, mem, mem') && code != []
    ensures code == [code[0]]
  {
  }

  /** Entering a label: its block, from the start, with an empty stack. */
  lemma {:induction false} AtLabel(m: seq<Function>, p: seq<Target>, f: nat, j: nat)
    requires Compiled(m, p) && f < |m| && j < |m[f].code| && Off(m[f].code, j) in Labels(m[f]).jumpMap
    ensures PosOf(m, f, j) == Pos(Labels(m[f]).jumpMap[Off(m[f].code, j)], 0)
    ensures DepthOf(m, f, j) == m[f].variableSpace
  {
    var w, b' := Place(m, p, f, j);
    hide Compiled, Labels, Emit, StateAt;
  }

  /** The stack is empty wherever control leaves an instruction by a jump. */
  lemma {:induction false} JumpSourceEmpty(m: seq<Function>, p: seq<Target>, f: nat, i: nat)
    requires Compiled(m, p) && f < |m| && i < |m[f].code| && Ends(m[f].code[i])
    ensures DepthOf(m, f, i) == m[f].variableSpace
  {
    hide Compiled, WellFormed, Emit, EnterLabel, Labels, Placed, EnteredAt, StateAt;
    FinalHolds(m, p, f);
    var w, b' := Place(m, p, f, i);
    PlacedFacts(m, p, f, i, w, b');
    EndsKeepSp(m[f], Sigs(m), w, m[f].code[i], Off(m[f].code, i));
    NextState(m, p, f, i, w, b');
    if i + 1 < |m[f].code| {
      LabelAfterEnd(m[f], |m|, i + 1);
      AtLabel(m, p, f, i + 1);
    }
  }

  /** The builder after instruction i is the one at the next instruction, or the final one. */
  lemma {:induction false} NextState(m: seq<Function>, p: seq<Target>, f: nat, i: nat, w: Builder, b': Builder)
    requires Placed(m, p, f, i, w, b') && w.cur < |w.blocks|
    ensures b'.sp == if i + 1 < |m[f].code| then DepthOf(m, f, i + 1) else m[f].variableSpace
  {
    hide Compiled, Emit, EnterLabel, Labels;
    FinalHolds(m, p, f);
    if i + 1 < |m[f].code| {
      var w1, b1 := Place(m, p, f, i + 1);
      LabelEmpty(m[f], b', Off(m[f].code, i + 1));
    }
  }

  lemma {:induction false} EndsKeepSp(fn: Function, sigs: seq<Signature>, w: Builder, ins: Ins, offset: nat)
    requires w.cur < |w.blocks|
    requires Ends(ins) && Emit(fn, sigs, w, ins, offset).Some?
    ensures Emit(fn, sigs, w, ins, offset).value.sp == w.sp
  {
  }

  /** A branch to the block of a label arrives at the labelled instruction. */
  lemma {:induction false} JumpArrives(m: seq<Function>, p: seq<Target>, f: nat, i: nat, j: nat, fr: Frame, mem: Memory)
    requires Compiled(m, p) && f < |m| && Simulates(m, f, i, fr, mem) && Ends(m[f].code[i])
    requires j < |m[f].code| && Off(m[f].code, j) in Labels(m[f]).jumpMap
    ensures PosOf(m, f, j) == Pos(Labels(m[f]).jumpMap[Off(m[f].code, j)], 0)
    ensures Simulates(m, f, j, fr, mem)
  {
    hide Compiled, Labels, Represents, PosOf, DepthOf;
    JumpSourceEmpty(m, p, f, i);
    AtLabel(m, p, f, j);
  }

  lemma {:induction false} JmpGo(m: seq<Function>, p: seq<Target>, f: nat, i: nat, j: nat, fr: Frame, mem: Memory)
    requires Compiled(m, p) && f < |m| && Simulates(m, f, i, fr, mem) && m[f].code[i].Jmp?
    requires j < |m[f].code| && Off(m[f].code, j) == BranchTarget(m[f].code[i], Off(m[f].code, i))
    ensures f < |p| && Leads(p, f, PosOf(m, f, i), mem, 1, PosOf(m, f, j), mem)
    ensures Simulates(m, f, j, fr, mem)
  {
    hide Compiled, Labels, Represents, PosOf, DepthOf, Leads;
    var w, b' := Place(m, p, f, i);
    PlacedFacts(m, p, f, i, w, b');
    LabelInserted(m[f], i, Off(m[f].code, j));
    JumpArrives(m, p, f, i, j, fr, mem);
    var target := Labels(m[f]).jumpMap[Off(m[f].code, j)];
    CodeAppended(m, p, f, i, w, b', [Br(target)], 0);
    BrLeads(p, f, EndOf(w), target, mem);
  }

  /** The condition of a conditional jump, and the expression the translator emits for it. */
  predicate Taken(fr: Frame, ins: Ins)
    requires IsConditional(ins)
  {
    if ins.JCond? then Holds(ins.c, Signed(Wrap(fr.register, 32), 32))
    else (Wrap(fr.register, 8) == 0) == ins.zero
  }

  function TakenExpr(ins: Ins): Expr
    requires IsConditional(ins)
  {
    if ins.JCond? then ConditionExpr(ins.c) else LowConditionExpr(ins.zero)
  }

  lemma {:induction false} TakenEval(fr: Frame, mem: Memory, ins: Ins)
    requires IsConditional(ins) && mem.register == fr.register
    ensures Eval(mem, TakenExpr(ins)) == Some(if Taken(fr, ins) then 1 else 0)
  {
    if ins.JCond? {
      ConditionAgrees(mem, ins.c);
    } else {
      LowConditionAgrees(mem, ins.zero);
    }
  }

  lemma {:induction false} ConditionalCode(
    m: seq<Function>, p: seq<Target>, f: nat, i: nat, w: Builder, b': Builder, ifTrue: nat, ifFalse: nat)
    requires Placed(m, p, f, i, w, b') && IsConditional(m[f].code[i])
    requires
      var offset := Off(m[f].code, i);
      && BranchTarget(m[f].code[i], offset) in w.jumpMap && w.jumpMap[BranchTarget(m[f].code[i], offset)] == ifTrue
      && offset + 2 in w.jumpMap && w.jumpMap[offset + 2] == ifFalse
    ensures InstrAt(p, f, EndOf(w), CondBr(TakenExpr(m[f].code[i]), ifTrue, ifFalse))
  {
    hide Compiled, ConditionExpr, LowConditionExpr, StateAt, EnteredAt;
    CodeAppended(m, p, f, i, w, b', [CondBr(TakenExpr(m[f].code[i]), ifTrue, ifFalse)], 0);
  }

  /** Conditional jumps, taken or not. */
  lemma {:induction false} ConditionalGo(
    m: seq<Function>, p: seq<Target>, f: nat, i: nat, j: nat, fr: Frame, mem: Memory)
    requires Compiled(m, p) && f < |m| && Simulates(m, f, i, fr, mem) && IsConditional(m[f].code[i])
    requires j < |m[f].code|
    requires Off(m[f].code, j) == (
      if Taken(fr, m[f].code[i]) then BranchTarget(m[f].code[i], Off(m[f].code, i)) else Off(m[f].code, i) + 2)
    ensures f < |p| && Leads(p, f, PosOf(m, f, i), mem, 1, PosOf(m, f, j), mem)
    ensures Simulates(m, f, j, fr, mem)
  {
    hide Compiled, Labels, Represents, PosOf, DepthOf, Leads, Eval, Taken, TakenExpr, EmitControl, Emit, Open;
    var w, b' := Place(m, p, f, i);
    PlacedFacts(m, p, f, i, w, b');
    RegisterMatches(m[f], fr, mem, w.sp);
    var ins, offset := m[f].code[i], Off(m[f].code, i);
    LabelInserted(m[f], i, BranchTarget(ins, offset));
    LabelInserted(m[f], i, offset + 2);
    JumpArrives(m, p, f, i, j, fr, mem);
    var labels := Labels(m[f]).jumpMap;
    var ifTrue, ifFalse := labels[BranchTarget(ins, offset)], labels[offset + 2];
    TakenEval(fr, mem, ins);
    ConditionalCode(m, p, f, i, w, b', ifTrue, ifFalse);
    CondBrLeads(p, f, EndOf(w), TakenExpr(ins), ifTrue, ifFalse, mem, if Taken(fr, ins) then 1 else 0);
  }

  /** The entry of the table that a value selects: the last one for every value past the table. */
  function TableEntry(v: nat, n: nat): (k: nat)
    requires n > 0
    ensures k < n
  {
    if v < n then v else n - 1
  }

  lemma {:induction false} TableGo(
    m: seq<Function>, p: seq<Target>, f: nat, i: nat, j: nat, fr: Frame, mem: Memory, k: nat)
    requires Compiled(m, p) && f < |m| && Simulates(m, f, i, fr, mem) && m[f].code[i].JmpP?
    requires Accessible(fr, m[f].code[i].v, 1) && Whole(m[f], m[f].code[i].v)
    requires TableSize(m[f].code, i + 1) > 0
    requires k == TableEntry(ReadVar(fr, m[f].code[i].v, 1), TableSize(m[f].code, i + 1))
    requires j < |m[f].code| && Off(m[f].code, j) == Off(m[f].code, i) + 1 + 2 * k
    ensures f < |p| && Leads(p, f, PosOf(m, f, i), mem, 1, PosOf(m, f, j), mem)
    ensures Simulates(m, f, j, fr, mem)
  {
    hide Compiled, Labels, Represents, PosOf, DepthOf, Leads, Eval, LoadSlot, ReadVar, Accessible, Whole;
    var w, b' := Place(m, p, f, i);
    PlacedFacts(m, p, f, i, w, b');
    var v, offset := m[f].code[i].v, Off(m[f].code, i);
    LoadEval(m[f], fr, mem, w.sp, v, 1);
    JumpTableExact(m[f], i);
    assert Dispatches(Labels(m[f]), offset, k);
    JumpArrives(m, p, f, i, j, fr, mem);
    var targets := w.switchMap[offset];
    CodeAppended(m, p, f, i, w, b', [Switch(LoadSlot(m[f], v, 32), targets[|targets| - 1], targets)], 0);
    SwitchLeads(
      p, f, EndOf(w), LoadSlot(m[f], v, 32), targets[|targets| - 1], targets, mem, ReadVar(fr, v, 1));
  }

  /** Jump tables. */
  lemma {:induction false} SwitchGo(m: seq<Function>, p: seq<Target>, f: nat, i: nat, j: nat, fr: Frame, mem: Memory)
    requires Compiled(m, p) && f < |m| && Simulates(m, f, i, fr, mem) && m[f].code[i].JmpP?
    requires Accessible(fr, m[f].code[i].v, 1) && Whole(m[f], m[f].code[i].v)
    requires ReadVar(fr, m[f].code[i].v, 1) < TableSize(m[f].code, i + 1)
    requires j < |m[f].code| && Off(m[f].code, j) == Off(m[f].code, i) + 1 + 2 * ReadVar(fr, m[f].code[i].v, 1)
    ensures f < |p| && Leads(p, f, PosOf(m, f, i), mem, 1, PosOf(m, f, j), mem)
    ensures Simulates(m, f, j, fr, mem)
  {
    TableGo(m, p, f, i, j, fr, mem, ReadVar(fr, m[f].code[i].v, 1));
  }

  /** The VM has no meaning for a value past the table; the emitted switch goes to the last entry. */
  lemma {:induction false} SwitchDefault(
    m: seq<Function>, p: seq<Target>, f: nat, i: nat, j: nat, fr: Frame, mem: Memory)
    requires Compiled(m, p) && f < |m| && Simulates(m, f, i, fr, mem) && m[f].code[i].JmpP?
    requires Accessible(fr, m[f].code[i].v, 1) && Whole(m[f], m[f].code[i].v)
    requires ReadVar(fr, m[f].code[i].v, 1) >= TableSize(m[f].code, i + 1) > 0
    requires j < |m[f].code| && Off(m[f].code, j) == Off(m[f].code, i) + 1 + 2 * (TableSize(m[f].code, i + 1) - 1)
    ensures StepAt(m, f, i, fr) == Bad
    ensures f < |p| && Leads(p, f, PosOf(m, f, i), mem, 1, PosOf(m, f, j), mem)
    ensures Simulates(m, f, j, fr, mem)
  {
    hide Compiled, Represents, PosOf, DepthOf, Leads, ReadVar, Accessible, Whole, Simulates;
    TableGo(m, p, f, i, j, fr, mem, TableSize(m[f].code, i + 1) - 1);
  }
}
