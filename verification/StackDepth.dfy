/** The static stack depth: the stack pointer the translator computes once per instruction is the depth of the VM's
    operand stack whenever any run comes to that instruction. */
module StackDepth {
  import opened Words
  import opened Signatures
  import opened Bytecode
  import opened Machine
  import opened Blocks
  import opened Frames
  import opened Translation
  import opened LabelPass
  import opened BlockPassRun
  import opened Positions
  import opened StepSimulation
  import opened CallSimulation
  import opened UncleanSteps
  import opened Simulation
  import opened EntryThunk

  datatype Config = Config(pc: nat, fr: Frame)

  /** One step of a function as its own frame sees it: calls run to their end. */
  function StepOver(m: seq<Function>, f: nat, c: Config, fuel: nat): Option<Config>
    requires f < |m|
  {
    match StepAt(m, f, c.pc, c.fr)
    case Go(pc', fr') => Some(Config(pc', fr'))
    case Enter(callee, args, fr') =>
      if callee >= |m| then None
      else
        var o := Run(m, callee, 0, InitialFrame(m[callee], args, fr'.globals), fuel);
        if o.Done? && o.state == OK then Some(Config(c.pc + 1, AfterCall(fr', m[callee].sig, o.ret, o.globals)))
        else None
    case _ => None
  }

  /** The configuration after n such steps. */
  function After(m: seq<Function>, f: nat, c: Config, n: nat, fuel: nat): Option<Config>
    requires f < |m|
  {
    if n == 0 then Some(c)
    else
      match After(m, f, c, n - 1, fuel)
      case None => None
      case Some(c') => StepOver(m, f, c', fuel)
  }

  ghost predicate Simulated(m: seq<Function>, f: nat, c: Config)
    requires f < |m|
  {
    exists mem :: Simulates(m, f, c.pc, c.fr, mem)
  }

  // ---------- frames by their shape alone

  /** Every frame of the right shape is represented by some memory. */
  predicate Shaped(fn: Function, fr: Frame, sp: int) {
    && |fr.locals| == fn.variableSpace
    && sp == fn.variableSpace + |fr.stack|
    && sp <= TotalSpace(fn)
    && |fr.args| == Dwords(StackTypes(fn.sig))
  }

  lemma {:induction false} SlotWithin(fn: Function, v: int)
    requires v in ParameterStorage(fn.sig)
    ensures 0 <= -v && WholeDwords(ParameterStorage(fn.sig)[v].dataType) - v <= Dwords(StackTypes(fn.sig))
  {
    var k := SlotIndex(fn.sig, v);
    ReadBeforeMonotone(StackTypes(fn.sig), k, |StackTypes(fn.sig)|);
  }

  lemma {:induction false} ShapedStorage(fr: Frame, total: nat) returns (storage: seq<Word>)
    requires |fr.locals| + |fr.stack| <= total
    ensures |storage| == total && StorageRepresents(fr, storage)
  {
    storage := seq(
      total,
      j requires 0 <= j < total => if total - 1 - j < |fr.locals| + |fr.stack| then Cell(fr, total - 1 - j) else 0);
  }

  lemma {:induction false} ShapedParameters(fn: Function, args: seq<Word>) returns (params: map<int, seq<Word>>)
    requires |args| == Dwords(StackTypes(fn.sig))
    ensures ParamsRepresent(StackTypes(fn.sig), args, params)
  {
    hide ParameterStorage, StackTypes;
    var types, slots := StackTypes(fn.sig), ParameterStorage(fn.sig);
    forall v | v in slots
      ensures 0 <= -v && WholeDwords(slots[v].dataType) - v <= |args|
    {
      SlotWithin(fn, v);
    }
    params := map v | v in slots :: args[-v..WholeDwords(slots[v].dataType) - v];
    forall k | 0 <= k < |types|
      ensures SlotRepresents(types, k, args, params)
    {
      SlotOfParameter(fn, k);
    }
  }

  lemma {:induction false} SlotOfParameter(fn: Function, k: nat)
    requires k < |StackTypes(fn.sig)|
    ensures
      var types := StackTypes(fn.sig);
      var v := FrameOffset(ReadBefore(types, k));
      && ReadBefore(types, k) + types[k].dwords <= Dwords(types)
      && v in ParameterStorage(fn.sig) && ParameterStorage(fn.sig)[v].dataType == types[k]
  {
    hide StackTypes;
    SlotOf(StackTypes(fn.sig), LeadCount(fn.sig), |StackTypes(fn.sig)|, k);
    ReadBeforeMonotone(StackTypes(fn.sig), k, |StackTypes(fn.sig)|);
  }

  lemma {:induction false} ShapeRepresented(fn: Function, fr: Frame, sp: int) returns (mem: Memory)
    requires Shaped(fn, fr, sp)
    ensures Represents(fn, fr, mem, sp)
  {
    hide ParamsRepresent, StorageRepresents, StackTypes, Dwords;
    var storage := ShapedStorage(fr, TotalSpace(fn));
    var params := ShapedParameters(fn, fr.args);
    mem := Memory(storage, params, fr.register, fr.globals, None, OK);
  }

  lemma {:induction false} RepresentedShape(fn: Function, fr: Frame, mem: Memory, sp: int)
    requires Represents(fn, fr, mem, sp)
    ensures Shaped(fn, fr, sp)
  {
  }

  /** A straight-line instruction changes the depth by what the translator adds to its stack pointer. */
  lemma {:induction false} BasicShape(fn: Function, fr: Frame, sp: int, ins: Ins)
    requires Shaped(fn, fr, sp) && StepBasic(fr, ins).Some? && EmitBasic(fn, ins, sp).Some?
    requires EmitBasic(fn, ins, sp).value.sp <= TotalSpace(fn)
    ensures Shaped(fn, StepBasic(fr, ins).value, EmitBasic(fn, ins, sp).value.sp)
  {
    hide AluResult, ReadVar, SlotAddr, LoadSlot, OperandExpr, CompareExpr, ConditionExpr, SetLow, Signed, Dwords,
      StackTypes, SlotOk, OperandSlotOk, Wrap, Compare, Holds;
  }

  // ---------- one step

  lemma {:induction false} StepOverSimulated(m: seq<Function>, p: seq<Target>, f: nat, c: Config, fuel: nat)
    requires Compiled(m, p) && f < |m| && Simulated(m, f, c) && StepOver(m, f, c, fuel).Some?
    ensures Simulated(m, f, StepOver(m, f, c, fuel).value)
  {
    hide Compiled, Simulates, StepAt, Run, InitialFrame, AfterCall, StackTypes, Dwords, Clean;
    var mem :| Simulates(m, f, c.pc, c.fr, mem);
    SimulatesInRange(m, f, c.pc, c.fr, mem);
    if Clean(m[f], c.fr, m[f].code[c.pc]) {
      match StepAt(m, f, c.pc, c.fr)
      case Go(pc', fr') =>
        var k, mem' := GoStep(m, p, f, c.pc, c.fr, mem);
        assert Simulates(m, f, pc', fr', mem');
      case Enter(callee, args, fr') =>
        var o := Run(m, callee, 0, InitialFrame(m[callee], args, fr'.globals), fuel);
        ReturnSimulated(m, p, f, c, mem, o.ret, o.globals);
    } else {
      var mem' := UncleanGo(m, p, f, c.pc, c.fr, mem);
    }
  }

  /** The VM goes on from an instruction that is not clean to a frame that is as deep as the translator says. */
  lemma {:induction false} UncleanGo(m: seq<Function>, p: seq<Target>, f: nat, i: nat, fr: Frame, mem: Memory)
    returns (mem': Memory)
    requires Compiled(m, p) && f < |m| && Simulates(m, f, i, fr, mem)
    requires !Clean(m[f], fr, m[f].code[i]) && !StepAt(m, f, i, fr).Bad?
    ensures StepAt(m, f, i, fr).Go?
    ensures Simulates(m, f, StepAt(m, f, i, fr).pc, StepAt(m, f, i, fr).fr, mem')
  {
    hide Compiled, Represents, StepBasic, Clean, PosOf, DepthOf, Whole, ReadVar, Accessible, IndexOf, TableSize;
    UncleanKind(m[f], fr, m[f].code[i]);
    if IsBasic(m[f].code[i]) {
      mem' := BasicSimulated(m, p, f, i, fr, mem);
    } else {
      mem' := mem;
      TableJumpSimulated(m, p, f, i, StepAt(m, f, i, fr).pc, fr, mem);
    }
  }

  lemma {:induction false} BasicSimulated(m: seq<Function>, p: seq<Target>, f: nat, i: nat, fr: Frame, mem: Memory)
    returns (mem': Memory)
    requires Compiled(m, p) && f < |m| && Simulates(m, f, i, fr, mem)
    requires IsBasic(m[f].code[i]) && StepBasic(fr, m[f].code[i]).Some?
    ensures i + 1 < |m[f].code| && Simulates(m, f, i + 1, StepBasic(fr, m[f].code[i]).value, mem')
  {
    hide Compiled, Placed, StepBasic, EmitBasic, Represents, PosOf, DepthOf, OperandsOk, NativeSignature, Leads, Shaped;
    var w, b' := Place(m, p, f, i);
    PlacedFacts(m, p, f, i, w, b');
    RepresentedShape(m[f], fr, mem, w.sp);
    var c := ArriveNext(m, p, f, i, w, b', mem);
    DepthWithin(m, p, f, i + 1);
    BasicShape(m[f], fr, w.sp, m[f].code[i]);
    mem' := ShapeRepresented(m[f], StepBasic(fr, m[f].code[i]).value, b'.sp);
  }

  lemma {:induction false} DepthWithin(m: seq<Function>, p: seq<Target>, f: nat, i: nat)
    requires Compiled(m, p) && f < |m| && i < |m[f].code|
    ensures DepthOf(m, f, i) <= TotalSpace(m[f])
  {
    hide Compiled, EnteredAt, StateAt, Emit, Labels;
    var w, b' := Place(m, p, f, i);
  }

  lemma {:induction false} TableJumpSimulated(
    m: seq<Function>, p: seq<Target>, f: nat, i: nat, j: nat, fr: Frame, mem: Memory)
    requires Compiled(m, p) && f < |m| && Simulates(m, f, i, fr, mem) && m[f].code[i].JmpP?
    requires Accessible(fr, m[f].code[i].v, 1)
    requires ReadVar(fr, m[f].code[i].v, 1) < TableSize(m[f].code, i + 1)
    requires j < |m[f].code| && Off(m[f].code, j) == Off(m[f].code, i) + 1 + 2 * ReadVar(fr, m[f].code[i].v, 1)
    ensures Simulates(m, f, j, fr, mem)
  {
    hide Compiled, Labels, Represents, PosOf, DepthOf, ReadVar, Accessible;
    JumpTableExact(m[f], i);
    assert Dispatches(Labels(m[f]), Off(m[f].code, i), ReadVar(fr, m[f].code[i].v, 1));
    JumpArrives(m, p, f, i, j, fr, mem);
  }

  lemma {:induction false} ReturnSimulated(
    m: seq<Function>, p: seq<Target>, f: nat, c: Config, mem: Memory, ret: Option<QWord>, globals: Globals)
    requires Compiled(m, p) && f < |m| && Simulates(m, f, c.pc, c.fr, mem) && CleanStepAt(m, f, c.pc, c.fr).Enter?
    ensures
      var step := CleanStepAt(m, f, c.pc, c.fr);
      step.callee < |m| && Simulated(m, f, Config(c.pc + 1, AfterCall(step.fr, m[step.callee].sig, ret, globals)))
  {
    hide Compiled, Simulates, CleanStepAt, InitialFrame, AfterCall, StackTypes, Dwords, Passed, AtCall, AfterCallAt,
      Leads;
    SimulatesInRange(m, f, c.pc, c.fr, mem);
    var k, pos, args, values := MakeCall(m, p, f, c.pc, c.fr, mem);
    CallFits(m, p, f, c.pc, c.fr, mem, k, pos, args, values);
    var k2 := AfterStep(m, p, f, c.pc, c.fr, mem, pos, OK, ret, globals);
  }

  lemma {:induction false} CallFits(
    m: seq<Function>, p: seq<Target>, f: nat, i: nat, fr: Frame, mem: Memory, c: nat, pos: Pos, args: seq<ArgExpr>,
    values: seq<Option<nat>>)
    requires f < |m| && i < |m[f].code| && m[f].code[i].Call? && m[f].code[i].callee < |m|
    requires CallMade(m, p, f, i, fr, mem, c, pos, args, values)
    ensures Dwords(StackTypes(m[m[f].code[i].callee].sig)) <= |fr.stack|
  {
    hide Represents, StackTypes;
  }

  lemma {:induction false} AfterSimulated(m: seq<Function>, p: seq<Target>, f: nat, c: Config, n: nat, fuel: nat)
    requires Compiled(m, p) && f < |m| && Simulated(m, f, c) && After(m, f, c, n, fuel).Some?
    ensures Simulated(m, f, After(m, f, c, n, fuel).value)
  {
    hide Compiled, Simulated, StepOver;
    if n > 0 {
      AfterSimulated(m, p, f, c, n - 1, fuel);
      StepOverSimulated(m, p, f, After(m, f, c, n - 1, fuel).value, fuel);
    }
  }

  /** On every path and in every run, loops and calls included: whenever control comes to instruction pc, the operand
      stack is as deep as the compile-time stack pointer there says, which depends on pc alone. */
  lemma {:induction false} StaticDepthExact(
    m: seq<Function>, p: seq<Target>, f: nat, args: seq<Word>, globals: Globals, n: nat, fuel: nat)
    requires Compiled(m, p) && f < |m| && |args| == Dwords(StackTypes(m[f].sig))
    ensures
      var r := After(m, f, Config(0, InitialFrame(m[f], args, globals)), n, fuel);
      r.Some? ==>
        var c := r.value;
        && c.pc < |m[f].code|
        && |c.fr.stack| == DepthOf(m, f, c.pc) - m[f].variableSpace
        && |c.fr.locals| == m[f].variableSpace
        && DepthOf(m, f, c.pc) <= TotalSpace(m[f])
  {
    hide Compiled, StackTypes, Dwords, After, DepthOf, InitialMemory, FrameValues, InitialFrame;
    var start := Config(0, InitialFrame(m[f], args, globals));
    var mem := StartMemory(m, p, f, args, globals);
    if After(m, f, start, n, fuel).Some? {
      AfterSimulated(m, p, f, start, n, fuel);
      var c := After(m, f, start, n, fuel).value;
      var mem' :| Simulates(m, f, c.pc, c.fr, mem');
      SimulatedDepth(m, f, c, mem');
    }
  }

  lemma {:induction false} StartMemory(m: seq<Function>, p: seq<Target>, f: nat, args: seq<Word>, globals: Globals)
    returns (mem: Memory)
    requires Compiled(m, p) && f < |m| && |args| == Dwords(StackTypes(m[f].sig))
    ensures Simulates(m, f, 0, InitialFrame(m[f], args, globals), mem)
  {
    hide Compiled, StackTypes, Dwords, DepthOf, InitialMemory, FrameValues, InitialFrame;
    ThunkMemory(m, p, f, args, globals);
    mem := InitialMemory(p[f], FrameValues(args, CallArguments(m[f].sig)), globals);
    var k := StartReached(m, p, f, InitialFrame(m[f], args, globals), mem);
  }

  lemma {:induction false} SimulatedDepth(m: seq<Function>, f: nat, c: Config, mem: Memory)
    requires f < |m| && Simulates(m, f, c.pc, c.fr, mem)
    ensures |c.fr.stack| == DepthOf(m, f, c.pc) - m[f].variableSpace && |c.fr.locals| == m[f].variableSpace
    ensures DepthOf(m, f, c.pc) <= TotalSpace(m[f])
  {
  }
}
