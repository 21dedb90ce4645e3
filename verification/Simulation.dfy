/** The translation preserves meaning: a compiled module and its target end in the same outcomes, for every function,
    every start state and every run, exceptions and recursion included. */
module Simulation {
  import opened Words
  import opened Signatures
  import opened Bytecode
  import opened Machine
  import opened Blocks
  import opened Frames
  import opened Translation
  import opened LabelPass
  import opened BlockPass
  import opened BlockPassRun
  import opened BasicSteps
  import opened Positions
  import opened StepSimulation
  import opened CallSimulation
  import opened UncleanSteps

  // ---------- more fuel never changes an outcome

  lemma {:induction false} RunMonotone(m: seq<Function>, f: nat, pc: nat, fr: Frame, n: nat, n': nat)
    requires f < |m| && n <= n' && CleanRun(m, f, pc, fr, n) != OutOfFuel
    ensures CleanRun(m, f, pc, fr, n') == CleanRun(m, f, pc, fr, n)
    decreases n
  {
    hide CleanStepAt, InitialFrame, AfterCall;
    match CleanStepAt(m, f, pc, fr)
    case Bad =>
    case Stop(_, _) =>
    case Go(pc', fr') => RunMonotone(m, f, pc', fr', n - 1, n' - 1);
    case Enter(callee, args, fr') =>
      if callee < |m| {
        RunMonotone(m, callee, 0, InitialFrame(m[callee], args, fr'.globals), n - 1, n' - 1);
        var o := CleanRun(m, callee, 0, InitialFrame(m[callee], args, fr'.globals), n - 1);
        if o.Done? && o.state == OK {
          RunMonotone(m, f, pc + 1, AfterCall(fr', m[callee].sig, o.ret, o.globals), n - 1, n' - 1);
        }
      }
  }

  lemma {:induction false} RunBlocksMonotone(p: seq<Target>, f: nat, b: nat, k: nat, mem: Memory, n: nat, n': nat)
    requires f < |p| && n <= n' && RunBlocks(p, f, b, k, mem, n) != OutOfFuel
    ensures RunBlocks(p, f, b, k, mem, n') == RunBlocks(p, f, b, k, mem, n)
    decreases n
  {
    hide Eval, EvalArgs, StoreTo, InitialMemory, AfterCallFunction, LocalsOf;
    if b < |p[f].blocks| && k < |p[f].blocks[b]| {
      match p[f].blocks[b][k]
      case Store(addr, e) =>
        if Eval(mem, e).Some? && StoreTo(mem, addr, Bits(e), Eval(mem, e).value).Some? {
          RunBlocksMonotone(p, f, b, k + 1, StoreTo(mem, addr, Bits(e), Eval(mem, e).value).value, n - 1, n' - 1);
        }
      case CallFunction(callee, args) =>
        if EvalArgs(mem, args).Some? && callee < |p| {
          var mem0 := InitialMemory(p[callee], EvalArgs(mem, args).value, mem.globals);
          RunBlocksMonotone(p, callee, 0, 0, mem0, n - 1, n' - 1);
          var o := RunBlocks(p, callee, 0, 0, mem0, n - 1);
          if o.Done? {
            RunBlocksMonotone(
              p, f, b, k + 1, AfterCallFunction(mem, p[callee].sig, o.state, o.ret, o.globals), n - 1, n' - 1);
          }
        }
      case Br(target) => RunBlocksMonotone(p, f, target, 0, mem, n - 1, n' - 1);
      case CondBr(c, ifTrue, ifFalse) =>
        if Eval(mem, c).Some? {
          RunBlocksMonotone(p, f, if Eval(mem, c).value == 1 then ifTrue else ifFalse, 0, mem, n - 1, n' - 1);
        }
      case Switch(e, default, cases) =>
        if Eval(mem, e).Some? {
          var v := Eval(mem, e).value;
          RunBlocksMonotone(p, f, if v < |cases| then cases[v] else default, 0, mem, n - 1, n' - 1);
        }
      case Return(_) =>
    }
  }

  // ---------- one VM step

  lemma {:induction false} FallThroughOffset(m: seq<Function>, f: nat, i: nat)
    requires f < |m| && i < |m[f].code| && IsConditional(m[f].code[i])
    ensures Off(m[f].code, i + 1) == Off(m[f].code, i) + 2
  {
  }

  /** A step that neither ends nor calls takes the target at most two steps, and none only when it falls through. */
  lemma {:induction false} GoStep(m: seq<Function>, p: seq<Target>, f: nat, i: nat, fr: Frame, mem: Memory)
    returns (c: nat, mem': Memory)
    requires Compiled(m, p) && f < |m| && Simulates(m, f, i, fr, mem) && CleanStepAt(m, f, i, fr).Go?
    ensures f < |p| && CleanStepAt(m, f, i, fr).pc < |m[f].code|
    ensures c <= 2 && (c == 0 ==> CleanStepAt(m, f, i, fr).pc == i + 1)
    ensures Leads(p, f, PosOf(m, f, i), mem, c, PosOf(m, f, CleanStepAt(m, f, i, fr).pc), mem')
    ensures Simulates(m, f, CleanStepAt(m, f, i, fr).pc, CleanStepAt(m, f, i, fr).fr, mem')
  {
    hide Compiled, Represents, PosOf, DepthOf, Leads, StepBasic, ReadVar, Accessible, IndexOf, TableSize;
    var ins := m[f].code[i];
    mem' := mem;
    if IsBasic(ins) {
      c, mem' := BasicGo(m, p, f, i, fr, mem);
    } else {
      var j := CleanStepAt(m, f, i, fr).pc;
      match ins
      case ChkNullV(_) => c := NullCheckStep(m, p, f, i, fr, mem);
      case ChkRef => c := NullCheckStep(m, p, f, i, fr, mem);
      case Jmp(_) =>
        JmpGo(m, p, f, i, j, fr, mem);
        c := 1;
      case JCond(_, _) =>
        c := ConditionalStep(m, p, f, i, fr, mem);
      case JLow(_, _) =>
        c := ConditionalStep(m, p, f, i, fr, mem);
      case JmpP(_) =>
        SwitchGo(m, p, f, i, j, fr, mem);
        c := 1;
      case Call(callee) => CallObject(fr, callee, m[callee].sig);
    }
  }

  lemma {:induction false} ConditionalStep(m: seq<Function>, p: seq<Target>, f: nat, i: nat, fr: Frame, mem: Memory)
    returns (c: nat)
    requires Compiled(m, p) && f < |m| && Simulates(m, f, i, fr, mem) && IsConditional(m[f].code[i])
    requires CleanStepAt(m, f, i, fr).Go?
    ensures c == 1 && f < |p| && CleanStepAt(m, f, i, fr).pc < |m[f].code| && CleanStepAt(m, f, i, fr).fr == fr
    ensures Leads(p, f, PosOf(m, f, i), mem, c, PosOf(m, f, CleanStepAt(m, f, i, fr).pc), mem)
    ensures Simulates(m, f, CleanStepAt(m, f, i, fr).pc, fr, mem)
  {
    hide Compiled, Represents, PosOf, DepthOf, Leads, IndexOf, WellFormed, Placed;
    c := 1;
    FallThroughOffset(m, f, i);
    var w, b' := Place(m, p, f, i);
    NextExists(m, p, f, i);
    ConditionalGo(m, p, f, i, CleanStepAt(m, f, i, fr).pc, fr, mem);
  }

  lemma {:induction false} NextExists(m: seq<Function>, p: seq<Target>, f: nat, i: nat)
    requires Compiled(m, p) && f < |m| && i < |m[f].code| && !IsClosing(m[f].code[i])
    ensures i + 1 < |m[f].code|
  {
    assert CompiledFunction(m, p, f);
  }

  /** The outcome of a VM step that ends the function. */
  function StopOutcome(m: seq<Function>, f: nat, state: nat, fr: Frame): Outcome
    requires f < |m|
  {
    Done(state, if state == OK then ReturnedValue(m[f].sig, fr) else None, fr.globals, fr.locals, fr.register)
  }

  lemma {:induction false} StopStep(m: seq<Function>, p: seq<Target>, f: nat, i: nat, fr: Frame, mem: Memory)
    requires Compiled(m, p) && f < |m| && Simulates(m, f, i, fr, mem) && CleanStepAt(m, f, i, fr).Stop?
    ensures f < |p|
    ensures EndsIn(
      p, f, PosOf(m, f, i), mem, 2, StopOutcome(m, f, CleanStepAt(m, f, i, fr).state, CleanStepAt(m, f, i, fr).fr))
  {
    hide Compiled, Represents, PosOf, DepthOf, EndsIn, StepBasic, ReadVar, Accessible, IndexOf, TableSize, StepCall,
      ReturnedValue;
    var ins := m[f].code[i];
    if ins.Ret? {
      ReturnStep(m, p, f, i, fr, mem);
    } else if ins.Call? {
      CallObject(fr, ins.callee, m[ins.callee].sig);
      NullObjectStep(m, p, f, i, fr, mem);
    } else {
      var c := NullCheckStep(m, p, f, i, fr, mem);
      EndsLater(
        p, f, PosOf(m, f, i), mem, c, 2, Done(EXCEPTION_NULL_POINTER, None, fr.globals, fr.locals, fr.register));
    }
  }

  // ---------- whole runs

  /** An exception never comes with a value. */
  lemma {:induction false} ExceptionHasNoValue(m: seq<Function>, f: nat, pc: nat, fr: Frame, n: nat)
    requires f < |m|
    ensures var o := CleanRun(m, f, pc, fr, n); o.Done? && o.state != OK ==> o.ret == None
    decreases n
  {
    hide CleanStepAt, InitialFrame, AfterCall;
    if n > 0 {
      match CleanStepAt(m, f, pc, fr)
      case Bad =>
      case Stop(_, _) =>
      case Go(pc', fr') => ExceptionHasNoValue(m, f, pc', fr', n - 1);
      case Enter(callee, args, fr') =>
        if callee < |m| {
          var o := CleanRun(m, callee, 0, InitialFrame(m[callee], args, fr'.globals), n - 1);
          if o.Done? {
            ExceptionHasNoValue(m, f, pc + 1, AfterCall(fr', m[callee].sig, o.ret, o.globals), n - 1);
          }
        }
    }
  }

  /** From the start of a function control reaches its first instruction. */
  lemma {:induction false} StartReached(m: seq<Function>, p: seq<Target>, f: nat, fr: Frame, mem: Memory)
    returns (c: nat)
    requires Compiled(m, p) && f < |m| && Represents(m[f], fr, mem, m[f].variableSpace)
    ensures f < |p| && |m[f].code| > 0 && c <= 1 && Leads(p, f, Pos(0, 0), mem, c, PosOf(m, f, 0), mem)
    ensures Simulates(m, f, 0, fr, mem)
  {
    hide Represents, ScanTo, PosOf, DepthOf, StateAt, Compiled;
    CalleeFacts(m, p, f);
    ScanLabelBlocks(m[f], |m[f].code|);
    InitialState(m[f], Sigs(m));
    c := Arrive(m, p, f, 0, Labels(m[f]), mem);
  }

  /** Whatever the VM reaches within n steps, the target reaches within 4 n + 1. */
  lemma {:induction false} Forward(m: seq<Function>, p: seq<Target>, f: nat, i: nat, fr: Frame, mem: Memory, n: nat)
    requires Compiled(m, p) && f < |m| && Simulates(m, f, i, fr, mem) && CleanRun(m, f, i, fr, n).Done?
    ensures f < |p| && RunAt(p, f, PosOf(m, f, i), mem, 4 * n) == CleanRun(m, f, i, fr, n)
    decreases n, 2
  {
    hide Compiled, Represents, PosOf, Leads, EndsIn, CleanStepAt, InitialFrame, AfterCall, RunBlocks, Simulates;
    SimulatesInRange(m, f, i, fr, mem);
    var step := CleanStepAt(m, f, i, fr);
    match step
    case Stop(_, _) => StopForward(m, p, f, i, fr, mem, 4 * n);
    case Go(j, fr') =>
      var c, mem' := GoStep(m, p, f, i, fr, mem);
      Forward(m, p, f, j, fr', mem', n - 1);
      LeadsForward(p, f, PosOf(m, f, i), mem, c, PosOf(m, f, j), mem', 4 * (n - 1), 4 * n);
    case Enter(_, _, _) => EnterForward(m, p, f, i, fr, mem, n);
  }

  lemma {:induction false} SimulatesInRange(m: seq<Function>, f: nat, i: nat, fr: Frame, mem: Memory)
    requires f < |m| && Simulates(m, f, i, fr, mem)
    ensures i < |m[f].code|
  {
  }

  lemma {:induction false} StopForward(m: seq<Function>, p: seq<Target>, f: nat, i: nat, fr: Frame, mem: Memory, x: nat)
    requires Compiled(m, p) && f < |m| && Simulates(m, f, i, fr, mem) && CleanStepAt(m, f, i, fr).Stop? && x >= 2
    ensures f < |p|
    ensures RunAt(p, f, PosOf(m, f, i), mem, x) ==
      StopOutcome(m, f, CleanStepAt(m, f, i, fr).state, CleanStepAt(m, f, i, fr).fr)
  {
    hide Compiled, Represents, PosOf, CleanStepAt, RunAt;
    StopStep(m, p, f, i, fr, mem);
  }

  lemma {:induction false} LeadsForward(
    p: seq<Target>, f: nat, pos: Pos, mem: Memory, c: nat, pos': Pos, mem': Memory, x: nat, y: nat)
    requires f < |p| && Leads(p, f, pos, mem, c, pos', mem') && c + x <= y
    requires RunAt(p, f, pos', mem', x) != OutOfFuel
    ensures RunAt(p, f, pos, mem, y) == RunAt(p, f, pos', mem', x)
  {
    hide RunBlocks;
    RunBlocksMonotone(p, f, pos'.b, pos'.k, mem', x, y - c);
    LeadsAt(p, f, pos, mem, c, pos', mem', y - c);
  }

  /** The call of the target, run to the end of the callee: its outcome decides how the caller goes on. */
  lemma {:induction false} CallRuns(
    p: seq<Target>, f: nat, pos: Pos, mem: Memory, callee: nat, args: seq<ArgExpr>, values: seq<Option<nat>>, x: nat)
    requires f < |p| && callee < |p| && x >= 1
    requires InstrAt(p, f, pos, CallFunction(callee, args)) && EvalArgs(mem, args) == Some(values)
    ensures
      var o := RunAt(p, callee, Pos(0, 0), InitialMemory(p[callee], values, mem.globals), x - 1);
      RunAt(p, f, pos, mem, x) ==
        if o.Done?
        then RunAt(
          p, f, Pos(pos.b, pos.k + 1), AfterCallFunction(mem, p[callee].sig, o.state, o.ret, o.globals), x - 1)
        else o
  {
    hide EvalArgs, InitialMemory, AfterCallFunction;
  }

  /** What is known once control is at a call: where the target makes it, and the frame and memory of the callee. */
  ghost predicate CallMade(
    m: seq<Function>, p: seq<Target>, f: nat, i: nat, fr: Frame, mem: Memory, c: nat, pos: Pos, args: seq<ArgExpr>,
    values: seq<Option<nat>>)
    requires f < |m| && i < |m[f].code| && m[f].code[i].Call? && m[f].code[i].callee < |m|
  {
    var callee := m[f].code[i].callee;
    && |p| == |m| && c <= 1
    && Leads(p, f, PosOf(m, f, i), mem, c, pos, mem)
    && AtCall(m, p, f, callee, fr, mem, pos, args, values)
    && AfterCallAt(m, p, f, i, pos)
    && p[callee].sig == m[callee].sig
    && CleanStepAt(m, f, i, fr) ==
      Enter(callee, Passed(fr, Dwords(StackTypes(m[callee].sig))), Drop(fr, Dwords(StackTypes(m[callee].sig))))
    && mem.globals == fr.globals
  }

  lemma {:induction false} MakeCall(m: seq<Function>, p: seq<Target>, f: nat, i: nat, fr: Frame, mem: Memory)
    returns (c: nat, pos: Pos, args: seq<ArgExpr>, values: seq<Option<nat>>)
    requires Compiled(m, p) && f < |m| && Simulates(m, f, i, fr, mem) && CleanStepAt(m, f, i, fr).Enter?
    ensures m[f].code[i].Call? && m[f].code[i].callee < |m|
    ensures CallMade(m, p, f, i, fr, mem, c, pos, args, values)
  {
    hide Compiled, Represents, PosOf, DepthOf, Leads, StackTypes, Dwords, StepBasic, AtCall, AfterCallAt, StepCall,
      NativeSignature, IndexOf, TableSize, ReadVar, Accessible, Passed;
    var callee := m[f].code[i].callee;
    CallObject(fr, callee, m[callee].sig);
    RegisterMatches(m[f], fr, mem, DepthOf(m, f, i));
    CalleeFacts(m, p, callee);
    c, pos, args, values := EnterStep(m, p, f, i, fr, mem);
  }

  lemma {:induction false} EnterForward(
    m: seq<Function>, p: seq<Target>, f: nat, i: nat, fr: Frame, mem: Memory, n: nat)
    requires Compiled(m, p) && f < |m| && Simulates(m, f, i, fr, mem) && CleanRun(m, f, i, fr, n).Done?
    requires CleanStepAt(m, f, i, fr).Enter?
    ensures f < |p| && RunAt(p, f, PosOf(m, f, i), mem, 4 * n) == CleanRun(m, f, i, fr, n)
    decreases n, 1
  {
    hide Compiled, Represents, PosOf, Leads, EndsIn, CleanStepAt, InitialFrame, AfterCall, RunBlocks, RunAt,
      InitialMemory, AfterCallFunction, StackTypes, Passed, Dwords, AfterCallAt;
    var c, pos, args, values := MakeCall(m, p, f, i, fr, mem);
    var callee := m[f].code[i].callee;
    var fr0 := InitialFrame(m[callee], Passed(fr, Dwords(StackTypes(m[callee].sig))), mem.globals);
    var mem0 := InitialMemory(p[callee], values, mem.globals);
    var o := CleanRun(m, callee, 0, fr0, n - 1);
    assert o.Done?;
    CalleeForward(m, p, callee, fr0, mem0, n - 1, 4 * n - c - 1);
    CallRuns(p, f, pos, mem, callee, args, values, 4 * n - c);
    LeadsAt(p, f, PosOf(m, f, i), mem, c, pos, mem, 4 * n - c);
    ExceptionHasNoValue(m, callee, 0, fr0, n - 1);
    ReturnForward(m, p, f, i, fr, mem, pos, o, n, 4 * n - c - 1);
  }

  lemma {:induction false} CalleeForward(
    m: seq<Function>, p: seq<Target>, f: nat, fr: Frame, mem: Memory, n: nat, x: nat)
    requires Compiled(m, p) && f < |m| && Represents(m[f], fr, mem, m[f].variableSpace)
    requires CleanRun(m, f, 0, fr, n).Done? && x >= 4 * n + 1
    ensures f < |p| && RunAt(p, f, Pos(0, 0), mem, x) == CleanRun(m, f, 0, fr, n)
    decreases n, 3
  {
    hide Compiled, Represents, PosOf, Leads, CleanStepAt, RunBlocks, RunAt, Simulates;
    var c := StartReached(m, p, f, fr, mem);
    Forward(m, p, f, 0, fr, mem, n);
    LeadsForward(p, f, Pos(0, 0), mem, c, PosOf(m, f, 0), mem, 4 * n, x);
  }

  /** The caller's side of the return. */
  lemma {:induction false} ReturnForward(
    m: seq<Function>, p: seq<Target>, f: nat, i: nat, fr: Frame, mem: Memory, pos: Pos, o: Outcome, n: nat, x: nat)
    requires Compiled(m, p) && f < |m| == |p| && Simulates(m, f, i, fr, mem) && n >= 1
    requires m[f].code[i].Call? && m[f].code[i].callee < |m|
    requires Dwords(StackTypes(m[m[f].code[i].callee].sig)) <= |fr.stack|
    requires AfterCallAt(m, p, f, i, pos)
    requires o.Done? && (o.state != OK ==> o.ret == None) && x >= 4 * n - 2
    requires
      var sig := m[m[f].code[i].callee].sig;
      o.state == OK ==>
        CleanRun(m, f, i + 1, AfterCall(Drop(fr, Dwords(StackTypes(sig))), sig, o.ret, o.globals), n - 1).Done?
    ensures
      var sig := m[m[f].code[i].callee].sig;
      RunAt(p, f, Pos(pos.b, pos.k + 1), AfterCallFunction(mem, sig, o.state, o.ret, o.globals), x) ==
        if o.state != OK then Done(o.state, None, o.globals, fr.locals, fr.register)
        else CleanRun(m, f, i + 1, AfterCall(Drop(fr, Dwords(StackTypes(sig))), sig, o.ret, o.globals), n - 1)
    decreases n, 0
  {
    hide Compiled, Represents, PosOf, Leads, CleanStepAt, RunBlocks, RunAt, StackTypes, Dwords, AfterCallAt,
      AfterCall, CleanRun;
    var sig := m[m[f].code[i].callee].sig;
    var mem1 := AfterCallFunction(mem, sig, o.state, o.ret, o.globals);
    var fr1 := AfterCall(Drop(fr, Dwords(StackTypes(sig))), sig, o.ret, o.globals);
    var c := AfterStep(m, p, f, i, fr, mem, pos, o.state, o.ret, o.globals);
    if o.state == OK {
      Forward(m, p, f, i + 1, fr1, mem1, n - 1);
      LeadsForward(p, f, Pos(pos.b, pos.k + 1), mem1, c, PosOf(m, f, i + 1), mem1, 4 * (n - 1), x);
    }
  }

  // ---------- and back

  /** From here on the VM never meets an operation without meaning, nor an instruction that is not clean. */
  ghost predicate StaysClean(m: seq<Function>, f: nat, i: nat, fr: Frame)
    requires f < |m|
  {
    forall n: nat :: CleanRun(m, f, i, fr, n) != Fault
  }

  lemma {:induction false} LeadsShort(
    p: seq<Target>, f: nat, pos: Pos, mem: Memory, c: nat, pos': Pos, mem': Memory, x: nat)
    requires f < |p| && Leads(p, f, pos, mem, c, pos', mem') && x < c
    ensures RunAt(p, f, pos, mem, x) == OutOfFuel
  {
    LeadsAt(p, f, pos, mem, c, pos', mem', 0);
    if RunAt(p, f, pos, mem, x) != OutOfFuel {
      RunBlocksMonotone(p, f, pos.b, pos.k, mem, x, c);
    }
  }

  lemma {:induction false} EndsShort(p: seq<Target>, f: nat, pos: Pos, mem: Memory, c: nat, o: Outcome, x: nat)
    requires f < |p| && EndsIn(p, f, pos, mem, c, o)
    ensures RunAt(p, f, pos, mem, x) == OutOfFuel || RunAt(p, f, pos, mem, x) == o
  {
    hide RunBlocks;
    if RunAt(p, f, pos, mem, x) != OutOfFuel {
      RunBlocksMonotone(p, f, pos.b, pos.k, mem, x, x + c);
      assert RunAt(p, f, pos, mem, x + c) == o;
    }
  }

  lemma {:induction false} StopBackward(
    m: seq<Function>, p: seq<Target>, f: nat, i: nat, fr: Frame, mem: Memory, x: nat)
    requires Compiled(m, p) && f < |m| && Simulates(m, f, i, fr, mem) && CleanStepAt(m, f, i, fr).Stop?
    ensures f < |p|
    ensures
      || RunAt(p, f, PosOf(m, f, i), mem, x) == OutOfFuel
      || RunAt(p, f, PosOf(m, f, i), mem, x) == CleanRun(m, f, i, fr, 1)
  {
    hide Compiled, Represents, PosOf, CleanStepAt, RunAt, EndsIn;
    StopStep(m, p, f, i, fr, mem);
    EndsShort(
      p, f, PosOf(m, f, i), mem, 2, StopOutcome(m, f, CleanStepAt(m, f, i, fr).state, CleanStepAt(m, f, i, fr).fr), x);
  }

  lemma {:induction false} GoStaysClean(m: seq<Function>, f: nat, i: nat, fr: Frame)
    requires f < |m| && StaysClean(m, f, i, fr)
    ensures !CleanStepAt(m, f, i, fr).Bad?
    ensures CleanStepAt(m, f, i, fr).Go? ==> StaysClean(m, f, CleanStepAt(m, f, i, fr).pc, CleanStepAt(m, f, i, fr).fr)
    ensures CleanStepAt(m, f, i, fr).Enter? ==>
      var step := CleanStepAt(m, f, i, fr);
      step.callee < |m| && StaysClean(m, step.callee, 0, InitialFrame(m[step.callee], step.args, step.fr.globals))
  {
    hide CleanStepAt, InitialFrame, AfterCall;
    var step := CleanStepAt(m, f, i, fr);
    assert CleanRun(m, f, i, fr, 1) != Fault;
    if step.Go? {
      forall n: nat
        ensures CleanRun(m, f, step.pc, step.fr, n) != Fault
      {
        assert CleanRun(m, f, i, fr, n + 1) != Fault;
      }
    } else if step.Enter? && step.callee < |m| {
      EnterStaysClean(m, f, i, fr, step.callee, InitialFrame(m[step.callee], step.args, step.fr.globals));
    }
  }

  lemma {:induction false} EnterStaysClean(m: seq<Function>, f: nat, i: nat, fr: Frame, callee: nat, fr0: Frame)
    requires f < |m| && StaysClean(m, f, i, fr) && callee < |m|
    requires
      var step := CleanStepAt(m, f, i, fr);
      step.Enter? && step.callee == callee && fr0 == InitialFrame(m[callee], step.args, step.fr.globals)
    ensures StaysClean(m, callee, 0, fr0)
  {
    hide CleanStepAt, InitialFrame, AfterCall;
    forall n: nat
      ensures CleanRun(m, callee, 0, fr0, n) != Fault
    {
      assert CleanRun(m, f, i, fr, n + 1) != Fault;
    }
  }

  lemma {:induction false} ReturnStaysClean(m: seq<Function>, f: nat, i: nat, fr: Frame, n1: nat)
    requires f < |m| && StaysClean(m, f, i, fr)
    requires CleanStepAt(m, f, i, fr).Enter? && CleanStepAt(m, f, i, fr).callee < |m|
    requires
      var step := CleanStepAt(m, f, i, fr);
      var o := CleanRun(m, step.callee, 0, InitialFrame(m[step.callee], step.args, step.fr.globals), n1);
      o.Done? && o.state == OK
    ensures
      var step := CleanStepAt(m, f, i, fr);
      var o := CleanRun(m, step.callee, 0, InitialFrame(m[step.callee], step.args, step.fr.globals), n1);
      StaysClean(m, f, i + 1, AfterCall(step.fr, m[step.callee].sig, o.ret, o.globals))
  {
    hide CleanStepAt, InitialFrame, AfterCall;
    var step := CleanStepAt(m, f, i, fr);
    var fr0 := InitialFrame(m[step.callee], step.args, step.fr.globals);
    var o := CleanRun(m, step.callee, 0, fr0, n1);
    var fr1 := AfterCall(step.fr, m[step.callee].sig, o.ret, o.globals);
    var next := i + 1;
    forall n: nat
      ensures CleanRun(m, f, next, fr1, n) != Fault
    {
      if CleanRun(m, f, next, fr1, n) == Fault {
        RunMonotone(m, step.callee, 0, fr0, n1, n1 + n);
        RunMonotone(m, f, next, fr1, n, n1 + n);
        assert CleanRun(m, f, i, fr, n1 + n + 1) != Fault;
      }
    }
  }

  /** Whatever the target reaches, the VM reaches; and the target never meets an operation without meaning. */
  lemma {:induction false} Backward(m: seq<Function>, p: seq<Target>, f: nat, i: nat, fr: Frame, mem: Memory, x: nat)
    returns (n: nat)
    requires Compiled(m, p) && f < |m| && Simulates(m, f, i, fr, mem) && StaysClean(m, f, i, fr)
    ensures f < |p| && RunAt(p, f, PosOf(m, f, i), mem, x) != Fault
    ensures RunAt(p, f, PosOf(m, f, i), mem, x).Done? ==>
      CleanRun(m, f, i, fr, n) == RunAt(p, f, PosOf(m, f, i), mem, x)
    decreases x, if i < |m[f].code| then |m[f].code| - i else 0, 1
  {
    hide Compiled, Represents, PosOf, Leads, EndsIn, CleanStepAt, InitialFrame, AfterCall, RunBlocks, RunAt, Simulates,
      StaysClean;
    SimulatesInRange(m, f, i, fr, mem);
    GoStaysClean(m, f, i, fr);
    match CleanStepAt(m, f, i, fr)
    case Stop(_, _) =>
      StopBackward(m, p, f, i, fr, mem, x);
      n := 1;
    case Go(j, fr') =>
      var c, mem' := GoStep(m, p, f, i, fr, mem);
      n := 0;
      if x < c {
        LeadsShort(p, f, PosOf(m, f, i), mem, c, PosOf(m, f, j), mem', x);
      } else {
        LeadsAt(p, f, PosOf(m, f, i), mem, c, PosOf(m, f, j), mem', x - c);
        n := Backward(m, p, f, j, fr', mem', x - c);
        n := n + 1;
      }
    case Enter(_, _, _) => n := EnterBackward(m, p, f, i, fr, mem, x);
  }

  lemma {:induction false} EnterBackward(
    m: seq<Function>, p: seq<Target>, f: nat, i: nat, fr: Frame, mem: Memory, x: nat)
    returns (n: nat)
    requires Compiled(m, p) && f < |m| && Simulates(m, f, i, fr, mem) && StaysClean(m, f, i, fr)
    requires CleanStepAt(m, f, i, fr).Enter?
    ensures f < |p| && RunAt(p, f, PosOf(m, f, i), mem, x) != Fault
    ensures RunAt(p, f, PosOf(m, f, i), mem, x).Done? ==>
      CleanRun(m, f, i, fr, n) == RunAt(p, f, PosOf(m, f, i), mem, x)
    decreases x, if i < |m[f].code| then |m[f].code| - i else 0, 0
  {
    hide Compiled, Represents, PosOf, Leads, EndsIn, CleanStepAt, InitialFrame, AfterCall, RunBlocks, InitialMemory,
      AfterCallFunction, StackTypes, Passed, Dwords, AfterCallAt, StaysClean, EvalArgs;
    n := 0;
    GoStaysClean(m, f, i, fr);
    var c, pos, args, values := MakeCall(m, p, f, i, fr, mem);
    if x <= c {
      CallStartShort(p, f, PosOf(m, f, i), mem, c, pos, x);
    } else {
      var callee := m[f].code[i].callee;
      var fr0 := InitialFrame(m[callee], Passed(fr, Dwords(StackTypes(m[callee].sig))), mem.globals);
      var mem0 := InitialMemory(p[callee], values, mem.globals);
      LeadsAt(p, f, PosOf(m, f, i), mem, c, pos, mem, x - c);
      CallRuns(p, f, pos, mem, callee, args, values, x - c);
      var n1 := CalleeBackward(m, p, callee, fr0, mem0, x - c - 1);
      var o := RunAt(p, callee, Pos(0, 0), mem0, x - c - 1);
      if o.Done? {
        n := ReturnBackward(m, p, f, i, fr, mem, pos, o, n1, x - c - 1);
      }
    }
  }

  lemma {:induction false} CallStartShort(p: seq<Target>, f: nat, pos: Pos, mem: Memory, c: nat, pos': Pos, x: nat)
    requires f < |p| && Leads(p, f, pos, mem, c, pos', mem) && x <= c
    ensures RunAt(p, f, pos, mem, x) == OutOfFuel
  {
    LeadsAt(p, f, pos, mem, c, pos', mem, 0);
    if x < c {
      LeadsShort(p, f, pos, mem, c, pos', mem, x);
    }
  }

  lemma {:induction false} CalleeBackward(m: seq<Function>, p: seq<Target>, f: nat, fr: Frame, mem: Memory, x: nat)
    returns (n: nat)
    requires Compiled(m, p) && f < |m| && Represents(m[f], fr, mem, m[f].variableSpace) && StaysClean(m, f, 0, fr)
    ensures f < |p| && RunAt(p, f, Pos(0, 0), mem, x) != Fault
    ensures RunAt(p, f, Pos(0, 0), mem, x).Done? ==> CleanRun(m, f, 0, fr, n) == RunAt(p, f, Pos(0, 0), mem, x)
    decreases x, |m[f].code| + 1, 2
  {
    hide Compiled, Represents, PosOf, Leads, CleanStepAt, RunBlocks, RunAt, Simulates, StaysClean;
    var c := StartReached(m, p, f, fr, mem);
    n := 0;
    if x < c {
      LeadsShort(p, f, Pos(0, 0), mem, c, PosOf(m, f, 0), mem, x);
    } else {
      LeadsAt(p, f, Pos(0, 0), mem, c, PosOf(m, f, 0), mem, x - c);
      n := Backward(m, p, f, 0, fr, mem, x - c);
    }
  }

  /** The caller's side of the return, from the target's point of view. */
  lemma {:induction false} ReturnBackward(
    m: seq<Function>, p: seq<Target>, f: nat, i: nat, fr: Frame, mem: Memory, pos: Pos, o: Outcome, n1: nat, y: nat)
    returns (n: nat)
    requires Compiled(m, p) && f < |m| == |p| && Simulates(m, f, i, fr, mem) && StaysClean(m, f, i, fr)
    requires m[f].code[i].Call? && m[f].code[i].callee < |m|
    requires Dwords(StackTypes(m[m[f].code[i].callee].sig)) <= |fr.stack|
    requires AfterCallAt(m, p, f, i, pos) && mem.globals == fr.globals
    requires
      var callee := m[f].code[i].callee;
      var args, fr' :=
        Passed(fr, Dwords(StackTypes(m[callee].sig))), Drop(fr, Dwords(StackTypes(m[callee].sig)));
      && CleanStepAt(m, f, i, fr) == Enter(callee, args, fr')
      && o.Done? && CleanRun(m, callee, 0, InitialFrame(m[callee], args, mem.globals), n1) == o
    ensures
      var sig := m[m[f].code[i].callee].sig;
      var r := RunAt(p, f, Pos(pos.b, pos.k + 1), AfterCallFunction(mem, sig, o.state, o.ret, o.globals), y);
      r != Fault && (r.Done? ==> CleanRun(m, f, i, fr, n) == r)
    decreases y, |m[f].code| + 1, 2
  {
    hide Compiled, Represents, PosOf, Leads, CleanStepAt, RunBlocks, RunAt, StackTypes, Dwords, AfterCallAt,
      AfterCall, EndsIn, InitialFrame, Passed, StaysClean;
    var callee := m[f].code[i].callee;
    var sig := m[callee].sig;
    var fr' := Drop(fr, Dwords(StackTypes(sig)));
    var fr0 := InitialFrame(m[callee], Passed(fr, Dwords(StackTypes(sig))), mem.globals);
    var mem1 := AfterCallFunction(mem, sig, o.state, o.ret, o.globals);
    var fr1 := AfterCall(fr', sig, o.ret, o.globals);
    ExceptionHasNoValue(m, callee, 0, fr0, n1);
    var c := AfterStep(m, p, f, i, fr, mem, pos, o.state, o.ret, o.globals);
    var next := Pos(pos.b, pos.k + 1);
    n := n1 + 1;
    if o.state != OK {
      EndsShort(p, f, next, mem1, c, Done(o.state, None, o.globals, fr.locals, fr.register), y);
    } else if y < c {
      LeadsShort(p, f, next, mem1, c, PosOf(m, f, i + 1), mem1, y);
    } else {
      LeadsAt(p, f, next, mem1, c, PosOf(m, f, i + 1), mem1, y - c);
      ReturnStaysClean(m, f, i, fr, n1);
      var n2 := Backward(m, p, f, i + 1, fr1, mem1, y - c);
      if CleanRun(m, f, i + 1, fr1, n2).Done? {
        RunMonotone(m, callee, 0, fr0, n1, n1 + n2);
        RunMonotone(m, f, i + 1, fr1, n2, n1 + n2);
      }
      n := n1 + n2 + 1;
    }
  }

  // ---------- runs that are not clean

  /** Where the VM goes on past an instruction that is not clean, the target faults. */
  lemma {:induction false} UncleanFaults(
    m: seq<Function>, p: seq<Target>, f: nat, i: nat, fr: Frame, mem: Memory, n: nat)
    requires Compiled(m, p) && f < |m| && Simulates(m, f, i, fr, mem)
    requires CleanRun(m, f, i, fr, n) == Fault && Run(m, f, i, fr, n) != Fault
    ensures f < |p| && RunAt(p, f, PosOf(m, f, i), mem, 4 * n) == Fault
    decreases n, 2
  {
    hide Compiled, Represents, PosOf, Leads, EndsIn, StepAt, InitialFrame, AfterCall, RunBlocks, RunAt, Simulates,
      Clean;
    SimulatesInRange(m, f, i, fr, mem);
    if !Clean(m[f], fr, m[f].code[i]) {
      UncleanStepFaults(m, p, f, i, fr, mem);
    } else {
      match CleanStepAt(m, f, i, fr)
      case Go(j, fr') =>
        var c, mem' := GoStep(m, p, f, i, fr, mem);
        UncleanFaults(m, p, f, j, fr', mem', n - 1);
        LeadsForward(p, f, PosOf(m, f, i), mem, c, PosOf(m, f, j), mem', 4 * (n - 1), 4 * n);
      case Enter(_, _, _) => UncleanCallFaults(m, p, f, i, fr, mem, n);
    }
  }

  lemma {:induction false} UncleanCallFaults(
    m: seq<Function>, p: seq<Target>, f: nat, i: nat, fr: Frame, mem: Memory, n: nat)
    requires Compiled(m, p) && f < |m| && Simulates(m, f, i, fr, mem) && CleanStepAt(m, f, i, fr).Enter?
    requires CleanRun(m, f, i, fr, n) == Fault && Run(m, f, i, fr, n) != Fault
    ensures f < |p| && RunAt(p, f, PosOf(m, f, i), mem, 4 * n) == Fault
    decreases n, 1
  {
    hide Compiled, Represents, PosOf, Leads, EndsIn, StepAt, InitialFrame, AfterCall, RunBlocks, RunAt, InitialMemory,
      AfterCallFunction, StackTypes, Passed, Dwords, AfterCallAt, Clean, Simulates;
    SimulatesInRange(m, f, i, fr, mem);
    var c, pos, args, values := MakeCall(m, p, f, i, fr, mem);
    var callee := m[f].code[i].callee;
    var sig := m[callee].sig;
    var fr0 := InitialFrame(m[callee], Passed(fr, Dwords(StackTypes(sig))), mem.globals);
    var mem0 := InitialMemory(p[callee], values, mem.globals);
    var x := 4 * n - c;
    CallRuns(p, f, pos, mem, callee, args, values, x);
    LeadsAt(p, f, PosOf(m, f, i), mem, c, pos, mem, x);
    var o := CleanRun(m, callee, 0, fr0, n - 1);
    if o == Fault {
      UncleanCalleeFaults(m, p, callee, fr0, mem0, n - 1, x - 1);
    } else {
      CleanRunIsRun(m, callee, 0, fr0, n - 1);
      CalleeForward(m, p, callee, fr0, mem0, n - 1, x - 1);
      ExceptionHasNoValue(m, callee, 0, fr0, n - 1);
      UncleanAfterCall(m, p, f, i, fr, mem, pos, o, n, x - 1);
    }
  }

  lemma {:induction false} UncleanCalleeFaults(
    m: seq<Function>, p: seq<Target>, f: nat, fr: Frame, mem: Memory, n: nat, x: nat)
    requires Compiled(m, p) && f < |m| && Represents(m[f], fr, mem, m[f].variableSpace)
    requires CleanRun(m, f, 0, fr, n) == Fault && Run(m, f, 0, fr, n) != Fault && x >= 4 * n + 1
    ensures f < |p| && RunAt(p, f, Pos(0, 0), mem, x) == Fault
    decreases n, 3
  {
    hide Compiled, Represents, PosOf, Leads, RunBlocks, RunAt, Simulates, CleanRun, Run;
    var c := StartReached(m, p, f, fr, mem);
    UncleanFaults(m, p, f, 0, fr, mem, n);
    LeadsForward(p, f, Pos(0, 0), mem, c, PosOf(m, f, 0), mem, 4 * n, x);
  }

  /** The caller goes on behind the call and meets the unclean instruction there. */
  lemma {:induction false} UncleanAfterCall(
    m: seq<Function>, p: seq<Target>, f: nat, i: nat, fr: Frame, mem: Memory, pos: Pos, o: Outcome, n: nat, x: nat)
    requires Compiled(m, p) && f < |m| == |p| && Simulates(m, f, i, fr, mem) && n > 0
    requires m[f].code[i].Call? && m[f].code[i].callee < |m|
    requires Dwords(StackTypes(m[m[f].code[i].callee].sig)) <= |fr.stack|
    requires AfterCallAt(m, p, f, i, pos)
    requires o.Done? && o.state == OK && x >= 4 * n - 2
    requires
      var sig := m[m[f].code[i].callee].sig;
      var fr1 := AfterCall(Drop(fr, Dwords(StackTypes(sig))), sig, o.ret, o.globals);
      CleanRun(m, f, i + 1, fr1, n - 1) == Fault && Run(m, f, i + 1, fr1, n - 1) != Fault
    ensures
      var sig := m[m[f].code[i].callee].sig;
      RunAt(p, f, Pos(pos.b, pos.k + 1), AfterCallFunction(mem, sig, o.state, o.ret, o.globals), x) == Fault
    decreases n, 0
  {
    hide Compiled, Represents, PosOf, Leads, StepAt, RunBlocks, RunAt, StackTypes, Dwords, AfterCallAt, AfterCall, Run,
      CleanRun;
    var sig := m[m[f].code[i].callee].sig;
    var mem1 := AfterCallFunction(mem, sig, o.state, o.ret, o.globals);
    var fr1 := AfterCall(Drop(fr, Dwords(StackTypes(sig))), sig, o.ret, o.globals);
    var c := AfterStep(m, p, f, i, fr, mem, pos, o.state, o.ret, o.globals);
    UncleanFaults(m, p, f, i + 1, fr1, mem1, n - 1);
    LeadsForward(p, f, Pos(pos.b, pos.k + 1), mem1, c, PosOf(m, f, i + 1), mem1, 4 * (n - 1), x);
  }

  // ---------- the main theorem

  /** The VM, started at the beginning of f, ends in the outcome. */
  ghost predicate SourceEnds(m: seq<Function>, f: nat, fr: Frame, o: Outcome)
    requires f < |m|
  {
    exists n: nat :: Run(m, f, 0, fr, n) == o
  }

  /** It does so without an instruction that is not clean. */
  ghost predicate CleanEnds(m: seq<Function>, f: nat, fr: Frame, o: Outcome)
    requires f < |m|
  {
    exists n: nat :: CleanRun(m, f, 0, fr, n) == o
  }

  /** The target ends in the outcome. */
  ghost predicate TargetEnds(p: seq<Target>, f: nat, mem: Memory, o: Outcome)
    requires f < |p|
  {
    exists n: nat :: RunAt(p, f, Pos(0, 0), mem, n) == o
  }

  /** The VM never meets an operation without meaning. */
  ghost predicate NeverFaults(m: seq<Function>, f: nat, fr: Frame)
    requires f < |m|
  {
    forall n: nat :: Run(m, f, 0, fr, n) != Fault
  }

  ghost predicate TargetNeverFaults(p: seq<Target>, f: nat, mem: Memory)
    requires f < |p|
  {
    forall x: nat :: RunAt(p, f, Pos(0, 0), mem, x) != Fault
  }

  /** What the VM does, the target does: same state, returned value, globals, locals and value register. */
  lemma {:induction false} SourceOutcomeReached(
    m: seq<Function>, p: seq<Target>, f: nat, fr: Frame, mem: Memory, o: Outcome)
    requires Compiled(m, p) && f < |m| && Represents(m[f], fr, mem, m[f].variableSpace)
    requires o.Done? && CleanEnds(m, f, fr, o)
    ensures f < |p| && TargetEnds(p, f, mem, o) && SourceEnds(m, f, fr, o)
  {
    hide Compiled, Represents, CleanRun, Run, RunAt;
    var n: nat :| CleanRun(m, f, 0, fr, n) == o;
    CalleeForward(m, p, f, fr, mem, n, 4 * n + 1);
    CleanRunIsRun(m, f, 0, fr, n);
  }

  /** In clean runs VM and target end in the same outcomes. */
  lemma {:induction false} CleanOutcomesAgree(
    m: seq<Function>, p: seq<Target>, f: nat, fr: Frame, mem: Memory, o: Outcome)
    requires Compiled(m, p) && f < |m| && Represents(m[f], fr, mem, m[f].variableSpace)
    requires StaysClean(m, f, 0, fr) && o.Done?
    ensures f < |p| && (SourceEnds(m, f, fr, o) <==> TargetEnds(p, f, mem, o))
  {
    hide Compiled, Represents, CleanRun, Run, RunAt;
    var c := StartReached(m, p, f, fr, mem);
    if SourceEnds(m, f, fr, o) {
      var n: nat :| Run(m, f, 0, fr, n) == o;
      CleanRunIsRun(m, f, 0, fr, n);
      SourceOutcomeReached(m, p, f, fr, mem, o);
    }
    if TargetEnds(p, f, mem, o) {
      var x: nat :| RunAt(p, f, Pos(0, 0), mem, x) == o;
      var n := CalleeBackward(m, p, f, fr, mem, x);
      CleanRunIsRun(m, f, 0, fr, n);
    }
  }

  /** Translation preserves meaning. For every compiled module, function and start state in which the VM never meets an
      operation without meaning: the target never meets one either if and only if no instruction on the way accesses a
      parameter narrower than a DWORD and every 64-bit shift has a clean count; and then the two end in exactly the same
      outcomes, so one terminates exactly when the other does. */
  lemma {:induction false} TranslationPreservesMeaning(m: seq<Function>, p: seq<Target>, f: nat, fr: Frame, mem: Memory)
    requires Compiled(m, p) && f < |m| && Represents(m[f], fr, mem, m[f].variableSpace)
    requires NeverFaults(m, f, fr)
    ensures f < |p|
    ensures TargetNeverFaults(p, f, mem) <==> StaysClean(m, f, 0, fr)
    ensures StaysClean(m, f, 0, fr) ==>
      forall o: Outcome :: o.Done? ==> (SourceEnds(m, f, fr, o) <==> TargetEnds(p, f, mem, o))
  {
    hide Compiled, Represents, CleanRun, Run, RunAt;
    var c := StartReached(m, p, f, fr, mem);
    if StaysClean(m, f, 0, fr) {
      forall x: nat
        ensures RunAt(p, f, Pos(0, 0), mem, x) != Fault
      {
        var n := CalleeBackward(m, p, f, fr, mem, x);
      }
      forall o: Outcome | o.Done?
        ensures SourceEnds(m, f, fr, o) <==> TargetEnds(p, f, mem, o)
      {
        CleanOutcomesAgree(m, p, f, fr, mem, o);
      }
    } else {
      var n: nat :| CleanRun(m, f, 0, fr, n) == Fault;
      UncleanCalleeFaults(m, p, f, fr, mem, n, 4 * n + 1);
    }
  }

  /** No 64-bit shift, and no access to a narrow parameter: what a module can be checked for before it is compiled. */
  predicate CleanCode(m: seq<Function>) {
    forall f, i :: 0 <= f < |m| && 0 <= i < |m[f].code| ==>
      !IsWideShift(m[f].code[i]) && WholeOperands(m[f], m[f].code[i])
  }

  /** All runs of such a module are clean, so the theorem holds for it outright. */
  lemma {:induction false} CleanCodeRuns(m: seq<Function>, f: nat, pc: nat, fr: Frame, n: nat)
    requires CleanCode(m) && f < |m|
    ensures CleanRun(m, f, pc, fr, n) == Run(m, f, pc, fr, n)
    decreases n
  {
    hide StepAt, InitialFrame, AfterCall, WholeOperands, IsWideShift;
    if n > 0 {
      match StepAt(m, f, pc, fr)
      case Bad =>
      case Stop(_, _) =>
      case Go(pc', fr') => CleanCodeRuns(m, f, pc', fr', n - 1);
      case Enter(callee, args, fr') =>
        if callee < |m| {
          CleanCodeRuns(m, callee, 0, InitialFrame(m[callee], args, fr'.globals), n - 1);
          var o := Run(m, callee, 0, InitialFrame(m[callee], args, fr'.globals), n - 1);
          if o.Done? {
            CleanCodeRuns(m, f, pc + 1, AfterCall(fr', m[callee].sig, o.ret, o.globals), n - 1);
          }
        }
    }
  }

  lemma {:induction false} CleanCodePreservesMeaning(m: seq<Function>, p: seq<Target>, f: nat, fr: Frame, mem: Memory)
    requires Compiled(m, p) && f < |m| && Represents(m[f], fr, mem, m[f].variableSpace)
    requires NeverFaults(m, f, fr) && CleanCode(m)
    ensures f < |p| && TargetNeverFaults(p, f, mem)
    ensures forall o: Outcome :: o.Done? ==> (SourceEnds(m, f, fr, o) <==> TargetEnds(p, f, mem, o))
  {
    hide Compiled, Represents, CleanRun, Run, RunAt, CleanCode, SourceEnds, TargetEnds;
    forall n: nat
      ensures CleanRun(m, f, 0, fr, n) != Fault
    {
      CleanCodeRuns(m, f, 0, fr, n);
    }
    TranslationPreservesMeaning(m, p, f, fr, mem);
  }

  /** A run has at most one outcome. */
  lemma {:induction false} OutcomeUnique(p: seq<Target>, f: nat, mem: Memory, o: Outcome, o': Outcome)
    requires f < |p| && o.Done? && o'.Done? && TargetEnds(p, f, mem, o) && TargetEnds(p, f, mem, o')
    ensures o == o'
  {
    var x: nat :| RunAt(p, f, Pos(0, 0), mem, x) == o;
    var x': nat :| RunAt(p, f, Pos(0, 0), mem, x') == o';
    RunBlocksMonotone(p, f, 0, 0, mem, x, x + x');
    RunBlocksMonotone(p, f, 0, 0, mem, x', x + x');
  }
}
