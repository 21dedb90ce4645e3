/** Calls of registered native functions: the loop that pops arguments into their slots, for each calling convention. */
module SystemCalls {
  import opened Words
  import opened Signatures

  datatype CallConv = ThisCall | VirtualThisCall | CDeclObjFirst | CDeclObjLast | CDecl

  datatype SystemFunction = SystemFunction(
    callConv: CallConv, hostReturnInMemory: bool, returnsOnStack: bool, returnType: LlvmType,
    parameterTypes: seq<DataType>)

  const PTR_SIZE: nat := 2
  const PVOID := PointerTo(Opaque("void"))

  /** The object comes first among the arguments, but for the slot of a result in memory. */
  predicate ObjectFirst(f: SystemFunction) {
    f.callConv.ThisCall? || f.callConv.VirtualThisCall? || f.callConv.CDeclObjFirst?
  }

  predicate HasObject(f: SystemFunction) {
    ObjectFirst(f) || f.callConv.CDeclObjLast?
  }

  /** Plain C functions that return in memory have no branch in the loop. */
  predicate Supported(f: SystemFunction) {
    f.callConv.CDecl? ==> !f.hostReturnInMemory
  }

  function TypesOf(types: seq<DataType>): (r: seq<LlvmType>)
    ensures |r| == |types| && forall i :: 0 <= i < |types| ==> r[i] == types[i].llvm
  {
    seq(|types|, i requires 0 <= i < |types| => types[i].llvm)
  }

  /** ModuleBuilder::get_system_function_type */
  method GetSystemFunctionType(f: SystemFunction) returns (parameterTypes: seq<LlvmType>)
    ensures parameterTypes == SystemFunctionType(f)
  {
    parameterTypes := [];
    if f.hostReturnInMemory {
      parameterTypes := parameterTypes + [PointerTo(f.returnType)];
    }
    ghost var lead := parameterTypes;
    for i := 0 to |f.parameterTypes|
      invariant parameterTypes == lead + TypesOf(f.parameterTypes[..i])
    {
      parameterTypes := parameterTypes + [f.parameterTypes[i].llvm];
      assert f.parameterTypes[..i + 1] == f.parameterTypes[..i] + [f.parameterTypes[i]];
    }
    assert f.parameterTypes[..|f.parameterTypes|] == f.parameterTypes;
    match f.callConv {
      case ThisCall => parameterTypes := [PVOID] + parameterTypes;
      case VirtualThisCall => parameterTypes := [PVOID] + parameterTypes;
      case CDeclObjFirst => parameterTypes := [PVOID] + parameterTypes;
      case CDeclObjLast => parameterTypes := parameterTypes + [PVOID];
      case CDecl =>
    }
  }

  function SystemFunctionType(f: SystemFunction): (types: seq<LlvmType>) {
    (if ObjectFirst(f) then [PVOID] else [])
    + (if f.hostReturnInMemory then [PointerTo(f.returnType)] else [])
    + TypesOf(f.parameterTypes)
    + (if f.callConv.CDeclObjLast? then [PVOID] else [])
  }

  // ---------- where the arguments go

  function Pointers(n: nat): (r: seq<DataType>)
    ensures |r| == n && forall i :: 0 <= i < n ==> r[i] == DataType(PVOID, PTR_SIZE, false)
  {
    seq(n, i => DataType(PVOID, PTR_SIZE, false))
  }

  /** Pointers popped in the loop before the script parameters: the object, then the slot of a result in memory. */
  function PointerCount(f: SystemFunction): nat {
    (if HasObject(f) then 1 else 0) + (if f.hostReturnInMemory then 1 else 0)
  }

  /** The values the loop pops, topmost first. */
  function PoppedValues(f: SystemFunction): (r: seq<DataType>)
    ensures |r| == PointerCount(f) + |f.parameterTypes|
  {
    Pointers(PointerCount(f)) + f.parameterTypes
  }

  /** Popped before the loop: where a result that is not returned in memory by the host goes. */
  function PoppedBefore(f: SystemFunction): nat {
    if f.returnsOnStack && !f.hostReturnInMemory then PTR_SIZE else 0
  }

  /** The slot of the first script parameter. */
  function ParameterBase(f: SystemFunction): nat {
    (if ObjectFirst(f) then 1 else 0) + (if f.hostReturnInMemory then 1 else 0)
  }

  /** The slot that the j-th popped value goes to. */
  function SlotOfValue(f: SystemFunction, j: nat): nat
    requires Supported(f) && j < |PoppedValues(f)|
  {
    if HasObject(f) && j == 0 then
      if f.callConv.CDeclObjLast? then |PoppedValues(f)| - 1 else if f.hostReturnInMemory then 1 else 0
    else if f.hostReturnInMemory && j == 1 then 0
    else ParameterBase(f) + j - PointerCount(f)
  }

  /** The popped value that slot q holds. */
  function ValueOfSlot(f: SystemFunction, q: nat): nat
    requires Supported(f) && q < |PoppedValues(f)|
  {
    if f.hostReturnInMemory && q == 0 then 1
    else if ObjectFirst(f) && q == (if f.hostReturnInMemory then 1 else 0) then 0
    else if f.callConv.CDeclObjLast? && q == |PoppedValues(f)| - 1 then 0
    else q - ParameterBase(f) + PointerCount(f)
  }

  /** Slots and popped values correspond one to one. */
  lemma {:induction false} SlotsAreValues(f: SystemFunction)
    requires Supported(f)
    ensures |SystemFunctionType(f)| == |PoppedValues(f)|
    ensures forall j :: 0 <= j < |PoppedValues(f)| ==>
      0 <= SlotOfValue(f, j) < |PoppedValues(f)| && ValueOfSlot(f, SlotOfValue(f, j)) == j
    ensures forall q :: 0 <= q < |PoppedValues(f)| ==>
      0 <= ValueOfSlot(f, q) < |PoppedValues(f)| && SlotOfValue(f, ValueOfSlot(f, q)) == q
  {
  }

  /** Script parameters keep their order, side by side, and each gets the slot of its type. */
  lemma {:induction false} ParametersInOrder(f: SystemFunction, k: nat)
    requires Supported(f) && k < |f.parameterTypes|
    ensures SlotOfValue(f, PointerCount(f) + k) == ParameterBase(f) + k
    ensures SystemFunctionType(f)[ParameterBase(f) + k] == f.parameterTypes[k].llvm
  {
  }

  lemma {:induction false} PointersDwords(n: nat, params: seq<DataType>, k: nat)
    requires k <= n + |params|
    ensures ReadBefore(Pointers(n) + params, k) ==
      if k <= n then PTR_SIZE * k else PTR_SIZE * n + ReadBefore(params, k - n)
  {
    if k > 0 {
      PointersDwords(n, params, k - 1);
    }
  }

  /** Round i of the loop pops a script parameter: the rounds for the object and for a result in memory do not. */
  predicate PopsParameter(f: SystemFunction, i: nat) {
    f.callConv.CDecl? || (i != 0 && !(f.hostReturnInMemory && i == 1))
  }

  /** The script parameter that round i asks for if it pops one: rounds before it have counted up. */
  function ScriptParamIndex(f: SystemFunction, i: nat): nat {
    if i == 0 then 0 else ScriptParamIndex(f, i - 1) + if PopsParameter(f, i - 1) then 1 else 0
  }

  lemma {:induction false} ScriptParamIndexAt(f: SystemFunction, i: nat)
    ensures ScriptParamIndex(f, i) ==
      if f.callConv.CDecl? then i else if i <= PointerCount(f) then 0 else i - PointerCount(f)
  {
    if i > 0 {
      ScriptParamIndexAt(f, i - 1);
    }
  }

  /** Every round that pops a script parameter finds one. */
  ghost predicate StaysInParameters(f: SystemFunction) {
    forall i: nat :: i < |SystemFunctionType(f)| && PopsParameter(f, i) ==> ScriptParamIndex(f, i) < |f.parameterTypes|
  }

  /** The loop, which makes as many rounds as the native function has parameters, stays within the script parameters
      for exactly the supported functions: a plain C function that returns in memory asks for one parameter too many. */
  lemma {:induction false} LoopStaysInParameters(f: SystemFunction)
    ensures StaysInParameters(f) <==> Supported(f)
  {
    if Supported(f) {
      forall i: nat | i < |SystemFunctionType(f)| && PopsParameter(f, i)
        ensures ScriptParamIndex(f, i) < |f.parameterTypes|
      {
        ScriptParamIndexAt(f, i);
      }
    } else {
      var last: nat := |f.parameterTypes|;
      ScriptParamIndexAt(f, last);
      assert |SystemFunctionType(f)| == last + 1 && PopsParameter(f, last);
    }
  }

  datatype Slot = Empty | Filled(r: nat, llvm: LlvmType)

  /** The DWORDs that were popped before the j-th value. */
  function PoppedUpTo(f: SystemFunction, j: nat): nat
    requires j <= |PoppedValues(f)|
  {
    PoppedBefore(f) + ReadBefore(PoppedValues(f), j)
  }

  /** The slots after i values: each holds its value, read where it was on the stack, or nothing. */
  ghost predicate Placed(f: SystemFunction, args: seq<Slot>, i: nat)
    requires Supported(f)
  {
    && |args| == |SystemFunctionType(f)| == |PoppedValues(f)| && i <= |args|
    && forall q :: 0 <= q < |args| ==> 0 <= ValueOfSlot(f, q) < |args| && SlotHolds(f, args, q, i)
  }

  ghost predicate SlotHolds(f: SystemFunction, args: seq<Slot>, q: nat, i: nat)
    requires Supported(f) && q < |args| == |SystemFunctionType(f)| == |PoppedValues(f)|
    requires ValueOfSlot(f, q) < |args|
  {
    args[q] ==
      if ValueOfSlot(f, q) < i then Filled(PoppedUpTo(f, ValueOfSlot(f, q)), SystemFunctionType(f)[q]) else Empty
  }

  /** One more value goes to its slot, which was empty. */
  lemma {:induction false} PlaceNext(f: SystemFunction, args: seq<Slot>, i: nat, q: nat)
    requires Supported(f) && Placed(f, args, i) && i < |args| && q == SlotOfValue(f, i)
    ensures q < |args| && args[q] == Empty
    ensures Placed(f, args[q := Filled(PoppedUpTo(f, i), SystemFunctionType(f)[q])], i + 1)
  {
    hide SlotOfValue, ValueOfSlot, PoppedUpTo, SystemFunctionType, PoppedValues;
    SlotsAreValues(f);
    assert SlotHolds(f, args, q, i);
    var args' := args[q := Filled(PoppedUpTo(f, i), SystemFunctionType(f)[q])];
    forall p | 0 <= p < |args|
      ensures 0 <= ValueOfSlot(f, p) < |args| && SlotHolds(f, args', p, i + 1)
    {
      assert SlotHolds(f, args, p, i);
    }
  }

  // ---------- the same, spelled out

  /** The script parameters fill the slots from the given one on, read from DWORD r on, with their types. */
  ghost predicate ParametersAt(f: SystemFunction, args: seq<Slot>, slot: nat, r: nat) {
    && slot + |f.parameterTypes| <= |args|
    && forall k :: 0 <= k < |f.parameterTypes| ==>
      args[slot + k] == Filled(r + ReadBefore(f.parameterTypes, k), f.parameterTypes[k].llvm)
  }

  /** Which slot takes what, and where on the stack it is read: `start` is 2 behind a return pointer, which is not among
      the arguments, and 0 without one. A result in memory comes with a pointer to it, right behind the object. */
  ghost predicate ReadAsPassed(f: SystemFunction, args: seq<Slot>, start: nat, total: nat) {
    var params := |f.parameterTypes|;
    match f.callConv
    case CDecl =>
      && |args| == params
      && ParametersAt(f, args, 0, start)
      && total == start + Dwords(f.parameterTypes)
    case CDeclObjLast =>
      if f.hostReturnInMemory then
        && |args| == params + 2
        && args[params + 1] == Filled(0, PVOID)                          // the object
        && args[0] == Filled(2, PointerTo(f.returnType))                 // where the result goes
        && ParametersAt(f, args, 1, 4)
        && total == 4 + Dwords(f.parameterTypes)
      else
        && |args| == params + 1
        && args[params] == Filled(start, PVOID)
        && ParametersAt(f, args, 0, start + 2)
        && total == start + 2 + Dwords(f.parameterTypes)
    case _ =>
      if f.hostReturnInMemory then
        && |args| == params + 2
        && args[1] == Filled(0, PointerTo(f.returnType))                 // the object, with the type of its slot
        && args[0] == Filled(2, PVOID)                                   // where the result goes
        && ParametersAt(f, args, 2, 4)
        && total == 4 + Dwords(f.parameterTypes)
      else
        && |args| == params + 1
        && args[0] == Filled(start, PVOID)
        && ParametersAt(f, args, 1, start + 2)
        && total == start + 2 + Dwords(f.parameterTypes)
  }

  lemma {:induction false} PlacedSlot(f: SystemFunction, args: seq<Slot>, q: nat)
    requires Supported(f) && Placed(f, args, |PoppedValues(f)|) && q < |args|
    ensures q < |SystemFunctionType(f)| && ValueOfSlot(f, q) < |PoppedValues(f)|
    ensures
      var j := ValueOfSlot(f, q);
      args[q] == Filled(
        PoppedBefore(f)
        + if j <= PointerCount(f) then 2 * j
          else 2 * PointerCount(f) + ReadBefore(f.parameterTypes, j - PointerCount(f)),
        SystemFunctionType(f)[q])
  {
    hide ValueOfSlot, SystemFunctionType;
    assert SlotHolds(f, args, q, |PoppedValues(f)|);
    PointersDwords(PointerCount(f), f.parameterTypes, ValueOfSlot(f, q));
  }

  lemma {:induction false} PlacedParameters(f: SystemFunction, args: seq<Slot>)
    requires Supported(f) && Placed(f, args, |PoppedValues(f)|)
    ensures ParametersAt(f, args, ParameterBase(f), PoppedBefore(f) + 2 * PointerCount(f))
  {
    forall k | 0 <= k < |f.parameterTypes|
      ensures
        args[ParameterBase(f) + k] ==
          Filled(
            PoppedBefore(f) + 2 * PointerCount(f) + ReadBefore(f.parameterTypes, k), f.parameterTypes[k].llvm)
    {
      PlacedSlot(f, args, ParameterBase(f) + k);
      ParametersInOrder(f, k);
    }
  }

  lemma {:induction false} PlacedAsPassed(f: SystemFunction, args: seq<Slot>)
    requires Supported(f) && Placed(f, args, |PoppedValues(f)|)
    ensures ReadAsPassed(
      f, args, PoppedBefore(f), PoppedBefore(f) + 2 * PointerCount(f) + Dwords(f.parameterTypes))
  {
    hide ParametersAt, ReadBefore;
    PlacedParameters(f, args);
    if HasObject(f) {
      PlacedSlot(f, args, SlotOfValue(f, 0));
      if f.hostReturnInMemory {
        PlacedSlot(f, args, 0);
      }
    }
  }

  /** The argument loop of emit_system_call: `stackRead` counts the DWORDs popped so far. */
  class ArgumentPopper {
    const f: SystemFunction
    const types: seq<LlvmType>
    var returnPointer: Option<nat>                                       // the DWORD it was read at
    var args: seq<Slot>
    var stackRead: nat
    var insertIndex: nat
    var scriptParamIndex: nat

    constructor (f: SystemFunction, types: seq<LlvmType>)
      ensures this.f == f && this.types == types
      ensures args == seq(|types|, i => Empty) && stackRead == 0 && insertIndex == 0 && scriptParamIndex == 0
      ensures returnPointer == None
    {
      returnPointer := None;
      this.f := f;
      this.types := types;
      args := seq(|types|, i => Empty);
      stackRead, insertIndex, scriptParamIndex := 0, 0, 0;
    }

    method PopInto(slot: nat, dwords: nat)
      requires slot < |args| == |types|
      modifies `args, `stackRead
      ensures args == old(args)[slot := Filled(old(stackRead), types[slot])]
      ensures stackRead == old(stackRead) + dwords
    {
      args := args[slot := Filled(stackRead, types[slot])];
      stackRead := stackRead + dwords;
    }

    /** i rounds of the loop are done. */
    ghost predicate Done(i: nat)
      reads this
    {
      && Supported(f)
      && types == SystemFunctionType(f)
      && Placed(f, args, i)
      && stackRead == PoppedUpTo(f, i)
      && scriptParamIndex == ScriptParamIndex(f, i)
      && insertIndex == (if i < PointerCount(f) then 0 else ParameterBase(f) + scriptParamIndex)
    }

    method PopParameter(ghost i: nat)
      requires Done(i) && PointerCount(f) <= i < |args|
      modifies this
      ensures Done(i + 1) && |args| == old(|args|) && returnPointer == old(returnPointer)
    {
      hide SystemFunctionType, Placed, ScriptParamIndex;
      PlaceRound(i);
      ScriptParamIndexAt(f, i);
      ScriptParamIndexAt(f, i + 1);
      ParametersInOrder(f, scriptParamIndex);
      PopInto(insertIndex, f.parameterTypes[scriptParamIndex].dwords);
      insertIndex := insertIndex + 1;
      scriptParamIndex := scriptParamIndex + 1;
    }

    lemma {:induction false} PlaceRound(i: nat)
      requires Done(i) && i < |args|
      ensures |args| == |types| == |PoppedValues(f)|
      ensures
        var q := SlotOfValue(f, i);
        q < |args| && args[q] == Empty && Placed(f, args[q := Filled(stackRead, types[q])], i + 1)
      ensures PoppedUpTo(f, i + 1) == stackRead + PoppedValues(f)[i].dwords
    {
      PlaceNext(f, args, i, SlotOfValue(f, i));
    }

    /** One round of the loop. */
    method PopArgument(i: nat)
      requires Done(i) && i < |args|
      modifies this
      ensures Done(i + 1) && |args| == old(|args|) && returnPointer == old(returnPointer)
    {
      hide SystemFunctionType, Placed, ScriptParamIndex;
      PlaceRound(i);
      ScriptParamIndexAt(f, i);
      ScriptParamIndexAt(f, i + 1);
      match f.callConv {
        case CDecl => PopParameter(i);
        case CDeclObjLast =>
          if i == 0 {
            PopInto(|args| - 1, PTR_SIZE);
          } else if f.hostReturnInMemory && i == 1 {
            PopInto(0, PTR_SIZE);
            insertIndex := 1;
          } else {
            PopParameter(i);
          }
        case _ =>
          if f.hostReturnInMemory && i == 0 {
            PopInto(1, PTR_SIZE);
          } else if f.hostReturnInMemory && i == 1 {
            PopInto(0, PTR_SIZE);
            insertIndex := 2;
          } else if !f.hostReturnInMemory && i == 0 {
            PopInto(0, PTR_SIZE);
            insertIndex := 1;
          } else {
            PopParameter(i);
          }
      }
    }

    /** Every slot is filled exactly once, with the value the convention wants there. */
    method PopArguments()
      requires Supported(f) && types == SystemFunctionType(f)
      requires args == seq(|types|, i => Empty) && stackRead == 0 && insertIndex == 0 && scriptParamIndex == 0
      requires returnPointer == None
      modifies this
      ensures Placed(f, args, |PoppedValues(f)|)
      ensures f.returnsOnStack && !f.hostReturnInMemory ==>
        returnPointer == Some(0) && ReadAsPassed(f, args, 2, stackRead)
      ensures !(f.returnsOnStack && !f.hostReturnInMemory) ==>
        returnPointer == None && ReadAsPassed(f, args, 0, stackRead)
    {
      hide Placed, SlotOfValue, ValueOfSlot, SystemFunctionType, Pointers, ReadAsPassed;
      if f.returnsOnStack && !f.hostReturnInMemory {
        returnPointer := Some(stackRead);
        stackRead := stackRead + PTR_SIZE;
      }
      SlotsAreValues(f);
      NothingPlaced();
      for i := 0 to |args|
        invariant |args| == |types| == |PoppedValues(f)| && Done(i)
        invariant returnPointer == if f.returnsOnStack && !f.hostReturnInMemory then Some(0) else None
      {
        PopArgument(i);
      }
      PointersDwords(PointerCount(f), f.parameterTypes, |PoppedValues(f)|);
      PlacedAsPassed(f, args);
    }

    lemma {:induction false} NothingPlaced()
      requires Supported(f) && types == SystemFunctionType(f) && args == seq(|types|, i => Empty)
      ensures Placed(f, args, 0)
    {
      SlotsAreValues(f);
    }
  }
}
