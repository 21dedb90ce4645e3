/** Where the code of each instruction is in the translated function, and what single target instructions do there. */
module Positions {
  import opened Words
  import opened Signatures
  import opened Bytecode
  import opened Machine
  import opened Blocks
  import opened Translation
  import opened BlockPass
  import opened BlockPassRun
  import opened BasicSteps
  import opened CallSteps

  function Sigs(m: seq<Function>): (sigs: seq<Signature>)
    ensures |sigs| == |m|
    ensures forall i :: 0 <= i < |m| ==> sigs[i] == m[i].sig
  {
    seq(|m|, i requires 0 <= i < |m| => m[i].sig)
  }

  /** Every function of the module is well formed, and its translation succeeded. */
  ghost predicate Compiled(m: seq<Function>, p: seq<Target>) {
    && |p| == |m|
    && forall f :: 0 <= f < |m| ==> CompiledFunction(m, p, f)
  }

  ghost predicate CompiledFunction(m: seq<Function>, p: seq<Target>, f: nat)
    requires f < |m| == |p|
  {
    WellFormed(m[f], |m|) && Translate(m[f], Sigs(m)) == Some(p[f])
  }

  datatype Pos = Pos(b: nat, k: nat)

  /** The end of the builder's current block. */
  function EndOf(b: Builder): Pos
    requires b.cur < |b.blocks|
  {
    Pos(b.cur, |b.blocks[b.cur]|)
  }

  function RunAt(p: seq<Target>, f: nat, pos: Pos, mem: Memory, fuel: nat): Outcome
    requires f < |p|
  {
    RunBlocks(p, f, pos.b, pos.k, mem, fuel)
  }

  /** c steps of the target lead from one configuration to the other. */
  ghost predicate Leads(p: seq<Target>, f: nat, pos: Pos, mem: Memory, c: nat, pos': Pos, mem': Memory)
    requires f < |p|
  {
    forall x: nat :: RunAt(p, f, pos, mem, c + x) == RunAt(p, f, pos', mem', x)
  }

  /** With at least c units of fuel the run ends in the given outcome. */
  ghost predicate EndsIn(p: seq<Target>, f: nat, pos: Pos, mem: Memory, c: nat, o: Outcome)
    requires f < |p|
  {
    forall x: nat :: x >= c ==> RunAt(p, f, pos, mem, x) == o
  }

  lemma {:induction false} LeadsStay(p: seq<Target>, f: nat, pos: Pos, mem: Memory)
    requires f < |p|
    ensures Leads(p, f, pos, mem, 0, pos, mem)
  {
  }

  lemma {:induction false} LeadsAt(
    p: seq<Target>, f: nat, pos: Pos, mem: Memory, c: nat, pos': Pos, mem': Memory, x: nat)
    requires f < |p| && Leads(p, f, pos, mem, c, pos', mem')
    ensures RunAt(p, f, pos, mem, c + x) == RunAt(p, f, pos', mem', x)
  {
  }

  lemma {:induction false} LeadsCompose(
    p: seq<Target>, f: nat, pos: Pos, mem: Memory, c: nat, pos1: Pos, mem1: Memory, c1: nat, pos2: Pos, mem2: Memory)
    requires f < |p| && Leads(p, f, pos, mem, c, pos1, mem1) && Leads(p, f, pos1, mem1, c1, pos2, mem2)
    ensures Leads(p, f, pos, mem, c + c1, pos2, mem2)
  {
    forall x: nat
      ensures RunAt(p, f, pos, mem, c + c1 + x) == RunAt(p, f, pos2, mem2, x)
    {
      LeadsAt(p, f, pos, mem, c, pos1, mem1, c1 + x);
      LeadsAt(p, f, pos1, mem1, c1, pos2, mem2, x);
    }
  }

  lemma {:induction false} LeadsThenEnds(
    p: seq<Target>, f: nat, pos: Pos, mem: Memory, c: nat, pos1: Pos, mem1: Memory, c1: nat, o: Outcome)
    requires f < |p| && Leads(p, f, pos, mem, c, pos1, mem1) && EndsIn(p, f, pos1, mem1, c1, o)
    ensures EndsIn(p, f, pos, mem, c + c1, o)
  {
    forall x: nat | x >= c + c1
      ensures RunAt(p, f, pos, mem, x) == o
    {
      LeadsAt(p, f, pos, mem, c, pos1, mem1, x - c);
    }
  }

  predicate InstrAt(p: seq<Target>, f: nat, pos: Pos, i: Instr) {
    && f < |p|
    && pos.b < |p[f].blocks|
    && pos.k < |p[f].blocks[pos.b]|
    && p[f].blocks[pos.b][pos.k] == i
  }

  lemma {:induction false} StoreLeads(p: seq<Target>, f: nat, pos: Pos, i: Instr, mem: Memory, mem': Memory)
    requires InstrAt(p, f, pos, i) && Executes([i], mem, mem')
    ensures Leads(p, f, pos, mem, 1, Pos(pos.b, pos.k + 1), mem')
  {
  }

  lemma {:induction false} BrLeads(p: seq<Target>, f: nat, pos: Pos, target: nat, mem: Memory)
    requires InstrAt(p, f, pos, Br(target))
    ensures Leads(p, f, pos, mem, 1, Pos(target, 0), mem)
  {
  }

  lemma {:induction false} CondBrLeads(
    p: seq<Target>, f: nat, pos: Pos, c: Expr, ifTrue: nat, ifFalse: nat, mem: Memory, v: nat)
    requires InstrAt(p, f, pos, CondBr(c, ifTrue, ifFalse)) && Eval(mem, c) == Some(v)
    ensures Leads(p, f, pos, mem, 1, Pos(if v == 1 then ifTrue else ifFalse, 0), mem)
  {
  }

  lemma {:induction false} SwitchLeads(
    p: seq<Target>, f: nat, pos: Pos, e: Expr, default: nat, cases: seq<nat>, mem: Memory, v: nat)
    requires InstrAt(p, f, pos, Switch(e, default, cases)) && Eval(mem, e) == Some(v)
    ensures Leads(p, f, pos, mem, 1, Pos(if v < |cases| then cases[v] else default, 0), mem)
  {
  }

  lemma {:induction false} ReturnEnds(p: seq<Target>, f: nat, pos: Pos, e: Expr, mem: Memory, v: nat)
    requires InstrAt(p, f, pos, Return(e)) && Eval(mem, e) == Some(v)
    ensures EndsIn(p, f, pos, mem, 1, Done(v, mem.ret, mem.globals, LocalsOf(p[f], mem), mem.register))
  {
  }

  // ---------- the code of instruction i

  /** What is known at instruction i of a compiled function: the builder w when its code starts, the builder b' after
      it, and that the target holds all code of b'. */
  ghost predicate Placed(m: seq<Function>, p: seq<Target>, f: nat, i: nat, w: Builder, b': Builder) {
    && Compiled(m, p) && f < |m| && i < |m[f].code|
    && EnteredAt(m[f], Sigs(m), i) == Some(w)
    && StateAt(m[f], Sigs(m), i + 1) == Some(b')
    && w.cur < |w.blocks|
    && b'.cur < |b'.blocks|
    && Emit(m[f], Sigs(m), w, m[f].code[i], Off(m[f].code, i)) == Some(b')
    && WithinBounds(m[f], w.sp)
    && InstructionOk(m[f], |m|, i)
    && w.jumpMap == b'.jumpMap == Labels(m[f]).jumpMap
    && w.switchMap == Labels(m[f]).switchMap
    && Open(w.blocks[w.cur])
    && (Off(m[f].code, i) in w.jumpMap ==>
      w.cur == w.jumpMap[Off(m[f].code, i)] && w.blocks[w.cur] == [] && w.sp == m[f].variableSpace)
    && (!Ends(m[f].code[i]) ==> Open(b'.blocks[b'.cur]))
    && ContainsCode(p[f], w)
    && ContainsCode(p[f], b')
  }

  /** The target contains the blocks built so far. */
  ghost predicate ContainsCode(target: Target, b: Builder) {
    && |b.blocks| <= |target.blocks|
    && forall k :: 0 <= k < |b.blocks| ==> b.blocks[k] <= target.blocks[k]
  }

  lemma {:induction false} ExtendsHolds(target: Target, b: Builder, b': Builder)
    requires Extends(b, b') && ContainsCode(target, b')
    ensures ContainsCode(target, b)
  {
  }

  lemma {:induction false} BlocksOkFacts(b: Builder, labels: Builder, t: int, open: bool)
    requires BlocksOk(b, labels, t, open)
    ensures b.jumpMap == labels.jumpMap && b.switchMap == labels.switchMap && b.cur < |b.blocks|
    ensures open ==> Open(b.blocks[b.cur])
  {
  }

  lemma {:induction false} FinalHolds(m: seq<Function>, p: seq<Target>, f: nat)
    requires Compiled(m, p) && f < |m|
    ensures StateAt(m[f], Sigs(m), |m[f].code|).Some?
    ensures |p| == |m| && ContainsCode(p[f], StateAt(m[f], Sigs(m), |m[f].code|).value)
    ensures StateAt(m[f], Sigs(m), |m[f].code|).value.sp == m[f].variableSpace
    ensures |p| == |m| && SameFrame(m[f], p[f]) && WellFormed(m[f], |m|)
  {
    assert CompiledFunction(m, p, f);
    hide StateAt, WellFormed;
  }

  lemma {:induction false} WellFormedAt(fn: Function, functions: nat, i: nat)
    requires WellFormed(fn, functions) && i < |fn.code|
    ensures InstructionOk(fn, functions, i)
    ensures i + 1 == |fn.code| ==> IsClosing(fn.code[i])
    ensures NativeSignature(fn.sig)
  {
  }

  lemma {:induction false} LabelEmpty(fn: Function, b: Builder, offset: int)
    requires b.cur < |b.blocks| && EnterLabel(fn, b, offset).Some?
    ensures EnterLabel(fn, b, offset).value.sp == b.sp
    ensures offset in b.jumpMap ==> b.sp == fn.variableSpace
  {
  }

  /** Where instruction i of function f starts, and the stack pointer there. */
  ghost function PosOf(m: seq<Function>, f: nat, i: nat): Pos
    requires f < |m| && i < |m[f].code|
  {
    match EnteredAt(m[f], Sigs(m), i)
    case None => Pos(0, 0)
    case Some(w) => if w.cur < |w.blocks| then EndOf(w) else Pos(0, 0)
  }

  ghost function DepthOf(m: seq<Function>, f: nat, i: nat): int
    requires f < |m| && i < |m[f].code|
  {
    match EnteredAt(m[f], Sigs(m), i)
    case None => 0
    case Some(w) => w.sp
  }

  /** Code the builder appended to its current block is in the target. */
  lemma {:induction false} CodeAppended(
    m: seq<Function>, p: seq<Target>, f: nat, i: nat, w: Builder, b': Builder, code: seq<Instr>, k: nat)
    requires Placed(m, p, f, i, w, b') && w.cur < |b'.blocks| && k < |code|
    requires w.blocks[w.cur] + code <= b'.blocks[w.cur]
    ensures InstrAt(p, f, Pos(w.cur, |w.blocks[w.cur]| + k), code[k])
  {
    hide StateAt, EnteredAt, Emit, Labels, InstructionOk, Open, WithinBounds, CompiledFunction, Ends;
    var all := p[f].blocks[w.cur];
    assert b'.blocks[w.cur] <= all;
    assert (w.blocks[w.cur] + code)[|w.blocks[w.cur]| + k] == code[k];
  }

  /** From the end of the code before instruction i, control reaches instruction i: directly, or by one branch if the
      instruction has a label. */
  lemma {:induction false} Arrive(m: seq<Function>, p: seq<Target>, f: nat, i: nat, b: Builder, mem: Memory)
    returns (c: nat)
    requires Compiled(m, p) && f < |m| == |p| && i < |m[f].code|
    requires StateAt(m[f], Sigs(m), i) == Some(b) && b.cur < |b.blocks| && Open(b.blocks[b.cur])
    ensures c <= 1 && Leads(p, f, EndOf(b), mem, c, PosOf(m, f, i), mem)
    ensures DepthOf(m, f, i) == b.sp
  {
    var w, b' := Place(m, p, f, i);
    hide StateAt, Emit, Compiled, Labels;
    var offset := Off(m[f].code, i);
    LabelEmpty(m[f], b, offset);
    if offset in b.jumpMap {
      var l := b.jumpMap[offset];
      assert w.blocks[b.cur] <= p[f].blocks[b.cur];
      BrLeads(p, f, EndOf(b), l, mem);
      c := 1;
    } else {
      c := 0;
      LeadsStay(p, f, EndOf(b), mem);
    }
  }

  lemma {:induction false} Place(m: seq<Function>, p: seq<Target>, f: nat, i: nat) returns (w: Builder, b': Builder)
    requires Compiled(m, p) && f < |m| && i < |m[f].code|
    ensures Placed(m, p, f, i, w, b')
  {
    hide BlocksOk, StateAt, WellFormed, Labels, Extends, EnterLabel, Emit, ContainsCode, Open, InstructionOk, Translate;
    FinalHolds(m, p, f);
    var fn, sigs, n := m[f], Sigs(m), |m[f].code|;
    WellFormedAt(fn, |m|, i);
    StateExtends(fn, |m|, sigs, i + 1, n);
    var b;
    b, w, b' := StateNext(fn, sigs, i);
    StateBlocksOk(fn, |m|, sigs, i);
    EnteredBlocksOk(fn, |m|, sigs, i);
    BlocksOkFacts(w, Labels(fn), Off(fn.code, i) + 1, true);
    LabelEmpty(fn, b, Off(fn.code, i));
    JumpMapsAgree(b, Labels(fn), Off(fn.code, i), StateOpen(fn, i));
    EmitKeeps(fn, sigs, w, Labels(fn), Off(fn.code, i) + 1, fn.code[i], Off(fn.code, i));
    BlocksOkFacts(b', Labels(fn), Off(fn.code, i) + 1, !Ends(fn.code[i]));
    ExtendsHolds(p[f], b', StateAt(fn, sigs, n).value);
    ExtendsHolds(p[f], w, b');
  }
}
