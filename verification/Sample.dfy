/** Modules that are compiled: a function that counts down in a loop, and one that passes an argument to another. */
module Sample {
  import opened Words
  import opened Signatures
  import opened Bytecode
  import opened Translation
  import opened Machine
  import opened Blocks
  import opened Frames
  import opened BlockPass
  import opened LabelPass
  import opened Positions
  import opened Simulation
  import opened Acceptance

  const VOID := Signature(None, false, None, [])

  const COUNT_DOWN := Function(
    VOID, 1, 1, [SetV(false, 1, 3), DecVi(1), CpyVtoR(false, 1), JCond(NotZero, 0 - 4), Ret])

  lemma {:induction false} Offsets()
    ensures Off(COUNT_DOWN.code, 0) == 0 && Off(COUNT_DOWN.code, 1) == 2 && Off(COUNT_DOWN.code, 2) == 3
    ensures Off(COUNT_DOWN.code, 3) == 4 && Off(COUNT_DOWN.code, 4) == 6 && Off(COUNT_DOWN.code, 5) == 7
  {
  }

  lemma {:induction false} SampleLabels()
    ensures
      var b := Labels(COUNT_DOWN);
      b.blocks == [[], [], []] && b.cur == 0 && b.jumpMap == map[6 := 1, 2 := 2] && b.sp == 1
  {
    Offsets();
    var fn := COUNT_DOWN;
    var start := Scan(Builder([[]], 0, map[], map[], 1, None), ScanContext(0, false));
    assert ScanTo(fn, 0) == start;
    assert ScanTo(fn, 1) == start;
    assert ScanTo(fn, 2) == start;
    assert ScanTo(fn, 3) == start;
    assert ScanTo(fn, 4).b == InsertLabel(InsertLabel(start.b, 6), 2);
    assert ScanTo(fn, 5).b == ScanTo(fn, 4).b;
  }

  ghost predicate Fine(b: Builder) {
    |b.blocks| == 3 && b.cur < 3 && b.jumpMap == map[6 := 1, 2 := 2] && b.sp == 1
  }

  /** The second pass has come to instruction i. */
  ghost predicate Reaches(i: nat)
    requires i <= |COUNT_DOWN.code|
  {
    StateAt(COUNT_DOWN, [VOID], i).Some? && Fine(StateAt(COUNT_DOWN, [VOID], i).value)
  }

  lemma {:induction false} SampleEnters(b: Builder, offset: nat)
    requires Fine(b)
    ensures EnterLabel(COUNT_DOWN, b, offset).Some? && Fine(EnterLabel(COUNT_DOWN, b, offset).value)
  {
  }

  lemma {:induction false} SampleEmits(b: Builder, ins: Ins, offset: nat)
    requires Fine(b)
    requires ins.SetV? || ins.DecVi? ==> ins.v == 1
    requires ins.CpyVtoR? ==> ins.v == 1
    requires ins.SetV? || ins.DecVi? || ins.CpyVtoR? || ins.Ret? || (ins == JCond(NotZero, 0 - 4) && offset == 4)
    ensures
      var r := Emit(COUNT_DOWN, [VOID], b, ins, offset);
      r.Some? && Fine(r.value)
  {
    if ins.JCond? || ins.Ret? {
      hide EmitBasic;
    } else {
      hide EmitControl;
    }
  }

  lemma {:induction false} SampleStep(i: nat)
    requires i < |COUNT_DOWN.code| && Reaches(i)
    ensures Reaches(i + 1)
  {
    hide Emit, EnterLabel;
    Offsets();
    var b := StateAt(COUNT_DOWN, [VOID], i).value;
    var ins, offset := COUNT_DOWN.code[i], Off(COUNT_DOWN.code, i);
    SampleEnters(b, offset);
    SampleEmits(EnterLabel(COUNT_DOWN, b, offset).value, ins, offset);
  }

  lemma {:induction false} SampleWellFormed()
    ensures WellFormed(COUNT_DOWN, 1)
  {
    Offsets();
    var fn := COUNT_DOWN;
    assert StackTypes(VOID) == [];
    IndexFromFinds(fn.code, 0, 1);
    forall i | 0 <= i < |fn.code|
      ensures InstructionOk(fn, 1, i)
    {
      assert fn.code[i] == [SetV(false, 1, 3), DecVi(1), CpyVtoR(false, 1), JCond(NotZero, 0 - 4), Ret][i];
    }
  }

  /** The hypotheses of the main theorem can be met, by a module with a loop. */
  lemma {:induction false} SampleCompiles()
    ensures exists p :: Compiled([COUNT_DOWN], p)
  {
    SampleLabels();
    assert Reaches(0);
    SampleStep(0);
    SampleStep(1);
    SampleStep(2);
    SampleStep(3);
    SampleStep(4);
    SampleWellFormed();
    var m := [COUNT_DOWN];
    assert Sigs(m) == [VOID];
    var target := Translate(COUNT_DOWN, [VOID]);
    assert target.Some?;
    assert CompiledFunction(m, [target.value], 0);
    assert Compiled(m, [target.value]);
  }

  // ---------- a call with an argument

  const INT := DataType(IntType(32), 1, false)

  /** Stores its parameter to the global variable at address 8. */
  const SET_GLOBAL := Function(Signature(None, false, None, [INT]), 0, 0, [CpyVtoG4(0, 8), Ret])

  /** Calls it with 7. */
  const CALLER := Function(VOID, 0, 1, [PshC(false, 7), Call(0), Ret])

  function CallModule(): (m: seq<Function>)
    ensures |m| == 2 && m[0] == SET_GLOBAL && m[1] == CALLER
  {
    [SET_GLOBAL, CALLER]
  }

  lemma {:induction false} CalleeSlots()
    ensures StackTypes(SET_GLOBAL.sig) == [INT] && StackTypes(VOID) == []
    ensures Dwords(StackTypes(SET_GLOBAL.sig)) == 1
    ensures ParameterStorage(SET_GLOBAL.sig) == map[0 := Parameter(0, INT)]
    ensures IsReadOffset([INT], 0)
  {
    assert ReadBefore([INT], 0) == 0 && ReadBefore([INT], 1) == 1;
    assert ParameterSlots([INT], 0, 0) == map[];
    assert ParameterSlots([INT], 0, 1) == map[0 := Parameter(0, INT)];
    assert FrameOffset(ReadBefore([INT], 0)) == 0;
  }

  lemma {:induction false} NoBranches(code: seq<Ins>, offset: int)
    requires forall k :: 0 <= k < |code| ==> !IsBranch(code[k]) && !IsConditional(code[k])
    ensures !IsLabel(code, offset)
  {
    forall k | 0 <= k < |code|
      ensures !MakesLabel(code, k, offset)
    {
    }
  }

  lemma {:induction false} CallModuleWellFormed()
    ensures WellFormed(SET_GLOBAL, 2) && WellFormed(CALLER, 2)
  {
    CalleeSlots();
    forall i | 0 <= i < 2
      ensures InstructionOk(SET_GLOBAL, 2, i)
    {
      assert SET_GLOBAL.code[i] == [CpyVtoG4(0, 8), Ret][i];
    }
    forall i | 0 <= i < 3
      ensures InstructionOk(CALLER, 2, i)
    {
      assert CALLER.code[i] == [PshC(false, 7), Call(0), Ret][i];
    }
  }

  /** The depth goes up by the argument and down by the call. */
  lemma {:induction false} CallModuleAccepted()
    ensures
      var sigs := [SET_GLOBAL.sig, VOID];
      Accepted(SET_GLOBAL, sigs) && Accepted(CALLER, sigs)
  {
    var sigs := [SET_GLOBAL.sig, VOID];
    CalleeSlots();
    hide IsLabel, StackTypes, Dwords;
    assert DepthBefore(SET_GLOBAL.code, sigs, 1) == 0;
    assert DepthBefore(SET_GLOBAL.code, sigs, 2) == 0;
    forall i | 0 <= i < 2
      ensures AcceptedAt(SET_GLOBAL, sigs, i)
    {
      NoBranches(SET_GLOBAL.code, Off(SET_GLOBAL.code, i));
      assert SET_GLOBAL.code[i] == [CpyVtoG4(0, 8), Ret][i];
    }
    assert DepthBefore(CALLER.code, sigs, 1) == 1;
    assert DepthBefore(CALLER.code, sigs, 2) == 0;
    assert DepthBefore(CALLER.code, sigs, 3) == 0;
    forall i | 0 <= i < 3
      ensures AcceptedAt(CALLER, sigs, i)
    {
      NoBranches(CALLER.code, Off(CALLER.code, i));
      assert CALLER.code[i] == [PshC(false, 7), Call(0), Ret][i];
    }
  }

  lemma {:induction false} CallModuleCompiles() returns (p: seq<Target>)
    ensures Compiled(CallModule(), p)
  {
    hide Translate, WellFormed, Accepted;
    var m, sigs := CallModule(), [SET_GLOBAL.sig, VOID];
    assert Sigs(m) == sigs;
    CallModuleWellFormed();
    CallModuleAccepted();
    TranslatesExactly(SET_GLOBAL, sigs);
    TranslatesExactly(CALLER, sigs);
    p := [Translate(SET_GLOBAL, sigs).value, Translate(CALLER, sigs).value];
    assert CompiledFunction(m, p, 0) && CompiledFunction(m, p, 1);
  }

  /** Frames of the caller and of the callee, with the global before or after the store. */
  function CallerFrame(stack: seq<Word>, globals: Globals): Frame {
    Frame([], [], stack, 0, globals)
  }

  function CalleeFrame(globals: Globals): Frame {
    Frame([7], [], [], 0, globals)
  }

  lemma {:induction false} StartFrames()
    ensures InitialFrame(CALLER, [], map[]) == CallerFrame([], map[])
    ensures InitialFrame(SET_GLOBAL, [7], map[]) == CalleeFrame(map[])
  {
  }

  lemma {:induction false} PushStep()
    ensures CleanStepAt(CallModule(), 1, 0, CallerFrame([], map[])) == Go(1, CallerFrame([7], map[]))
  {
    hide StackTypes;
    assert CALLER.code[0] == PshC(false, 7);
  }

  lemma {:induction false} CallEnters(fr: Frame)
    requires fr == CallerFrame([7], map[])
    ensures StepCall(fr, 0, SET_GLOBAL.sig) == Enter(0, [7], CallerFrame([], map[]))
  {
    CalleeSlots();
    hide StackTypes, Dwords;
    assert Passed(fr, 1) == [7] && Drop(fr, 1) == CallerFrame([], map[]);
  }

  lemma {:induction false} CallStep()
    ensures CleanStepAt(CallModule(), 1, 1, CallerFrame([7], map[])) == Enter(0, [7], CallerFrame([], map[]))
  {
    hide StepCall, StepBasic, CallerFrame;
    assert CALLER.code[1] == Call(0);
    CallEnters(CallerFrame([7], map[]));
  }

  lemma {:induction false} StoreStep()
    ensures CleanStepAt(CallModule(), 0, 0, CalleeFrame(map[])) == Go(1, CalleeFrame(map[8 := 7]))
  {
    CalleeSlots();
    hide StackTypes, Dwords, ParameterStorage;
    assert SET_GLOBAL.code[0] == CpyVtoG4(0, 8);
  }

  lemma {:induction false} ReturnSteps(fr: Frame)
    ensures CleanStepAt(CallModule(), 0, 1, fr) == Stop(OK, fr) && CleanStepAt(CallModule(), 1, 2, fr) == Stop(OK, fr)
  {
    assert SET_GLOBAL.code[1] == Ret && CALLER.code[2] == Ret;
  }

  /** In the VM the callee finds 7 in its parameter and leaves it in the global. */
  lemma {:induction false} CallModuleRuns()
    ensures CleanRun(CallModule(), 1, 0, InitialFrame(CALLER, [], map[]), 4) == Done(OK, None, map[8 := 7], [], 0)
  {
    hide CleanStepAt, InitialFrame;
    var m, o := CallModule(), Done(OK, None, map[8 := 7], [], 0);
    StartFrames();
    PushStep();
    CallStep();
    StoreStep();
    ReturnSteps(CalleeFrame(map[8 := 7]));
    ReturnSteps(CallerFrame([], map[8 := 7]));
    assert CleanRun(m, 0, 1, CalleeFrame(map[8 := 7]), 1) == o;
    assert CleanRun(m, 0, 0, CalleeFrame(map[]), 2) == o;
    assert CleanRun(m, 1, 2, CallerFrame([], map[8 := 7]), 2) == o;
    assert CleanRun(m, 1, 1, CallerFrame([7], map[]), 3) == o;
  }

  /** And so does the emitted code: the argument goes through the caller's stack and the callee's parameter. */
  lemma {:induction false} ArgumentArrives(p: seq<Target>, mem: Memory)
    requires Compiled(CallModule(), p) && Represents(CALLER, InitialFrame(CALLER, [], map[]), mem, 0)
    ensures 1 < |p| && TargetEnds(p, 1, mem, Done(OK, None, map[8 := 7], [], 0))
  {
    hide CleanRun, Compiled, Represents, InitialFrame, TargetEnds;
    CallModuleRuns();
    SourceOutcomeReached(
      CallModule(), p, 1, InitialFrame(CALLER, [], map[]), mem, Done(OK, None, map[8 := 7], [], 0));
  }
}
