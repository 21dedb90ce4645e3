/** Three layouts of one signature, each computed by its own loop in the compiler: the LLVM function type, the
    argument vector of a call, and the parameter slots of the callee's frame. */
module Signatures {
  import opened Words

  datatype LlvmType = IntType(bits: nat) | Opaque(name: string) | PointerTo(pointee: LlvmType)

  type Positive = n: nat | n >= 1 witness 1

  /** What the compiler asks of a script type: its LLVM type and its size on the stack in DWORDs. */
  datatype DataType = DataType(llvm: LlvmType, dwords: Positive, isObject: bool)

  /** `returnType` is None for void; `objectType` is the type of `this` for methods. */
  datatype Signature = Signature(
    returnType: Option<DataType>, returnsOnStack: bool, objectType: Option<DataType>, parameterTypes: seq<DataType>)

  /** One element of the argument vector: a register of the caller that receives the result, or a value read from the
      stack after `r` DWORDs have been read. */
  datatype Argument = ResultRegister(isObject: bool, llvm: LlvmType) | StackRead(r: nat, llvm: LlvmType)

  /** A slot of the callee's frame: which argument is stored there, with its type. */
  datatype Parameter = Parameter(argumentIndex: nat, dataType: DataType)

  function ArgumentType(a: Argument): LlvmType {
    a.llvm
  }

  /** The result travels through a pointer to a register of the caller. */
  predicate ReturnsInRegister(sig: Signature) {
    sig.returnType.Some? && !sig.returnsOnStack
  }

  function LeadCount(sig: Signature): nat {
    if ReturnsInRegister(sig) then 1 else 0
  }

  /** The types of the values a caller leaves on the stack, topmost first. */
  function StackTypes(sig: Signature): seq<DataType> {
    (if sig.returnType.Some? && sig.returnsOnStack then [sig.returnType.value] else [])
    + (if sig.objectType.Some? then [sig.objectType.value] else [])
    + sig.parameterTypes
  }

  /** DWORDs read before the k-th stack value. */
  function ReadBefore(types: seq<DataType>, k: nat): nat
    requires k <= |types|
  {
    if k == 0 then 0 else ReadBefore(types, k - 1) + types[k - 1].dwords
  }

  /** The DWORDs that all stack values take together. */
  function Dwords(types: seq<DataType>): nat {
    ReadBefore(types, |types|)
  }

  /** The frame offset of a value that was passed r DWORDs below the top of the caller's stack. */
  function FrameOffset(r: nat): int {
    0 - r
  }

  lemma {:induction false} ReadBeforeMonotone(types: seq<DataType>, j: nat, k: nat)
    requires j < k <= |types|
    ensures ReadBefore(types, j) + types[j].dwords <= ReadBefore(types, k)
    decreases k
  {
    if j < k - 1 {
      ReadBeforeMonotone(types, j, k - 1);
    }
  }

  function LeadTypes(sig: Signature): seq<LlvmType> {
    if ReturnsInRegister(sig) then [PointerTo(sig.returnType.value.llvm)] else []
  }

  function LeadArguments(sig: Signature): seq<Argument> {
    if ReturnsInRegister(sig)
    then [ResultRegister(sig.returnType.value.isObject, PointerTo(sig.returnType.value.llvm))] else []
  }

  /** The lead types followed by those of the first n stack values. */
  function TypesUpTo(lead: seq<LlvmType>, types: seq<DataType>, n: nat): (r: seq<LlvmType>)
    requires n <= |types|
    ensures |r| == |lead| + n
  {
    if n == 0 then lead else TypesUpTo(lead, types, n - 1) + [types[n - 1].llvm]
  }

  function FunctionType(sig: Signature): seq<LlvmType> {
    TypesUpTo(LeadTypes(sig), StackTypes(sig), |StackTypes(sig)|)
  }

  /** The lead arguments followed by the reads of the first n stack values. */
  function ArgumentsUpTo(lead: seq<Argument>, types: seq<DataType>, n: nat): (r: seq<Argument>)
    requires n <= |types|
    ensures |r| == |lead| + n
  {
    if n == 0 then lead
    else ArgumentsUpTo(lead, types, n - 1) + [StackRead(ReadBefore(types, n - 1), types[n - 1].llvm)]
  }

  function CallArguments(sig: Signature): seq<Argument> {
    ArgumentsUpTo(LeadArguments(sig), StackTypes(sig), |StackTypes(sig)|)
  }

  lemma {:induction false} TypeAt(lead: seq<LlvmType>, types: seq<DataType>, n: nat, i: nat)
    requires i < |lead| + n && n <= |types|
    ensures TypesUpTo(lead, types, n)[i] == if i < |lead| then lead[i] else types[i - |lead|].llvm
  {
    if n > 0 && i < |lead| + n - 1 {
      TypeAt(lead, types, n - 1, i);
    }
  }

  lemma {:induction false} ArgumentAt(lead: seq<Argument>, types: seq<DataType>, n: nat, i: nat)
    requires i < |lead| + n && n <= |types|
    ensures ArgumentsUpTo(lead, types, n)[i] ==
      if i < |lead| then lead[i] else StackRead(ReadBefore(types, i - |lead|), types[i - |lead|].llvm)
  {
    if n > 0 && i < |lead| + n - 1 {
      ArgumentAt(lead, types, n - 1, i);
    }
  }

  /** The slots of the first n stack values; `lead` arguments come before them. */
  function ParameterSlots(types: seq<DataType>, lead: nat, n: nat): map<int, Parameter>
    requires n <= |types|
  {
    if n == 0 then map[]
    else
      ParameterSlots(types, lead, n - 1)
        [FrameOffset(ReadBefore(types, n - 1)) := Parameter(lead + n - 1, types[n - 1])]
  }

  function ParameterStorage(sig: Signature): map<int, Parameter> {
    var types := StackTypes(sig);
    ParameterSlots(types, LeadCount(sig), |types|)
  }

  /** Value k of the stack is argument lead + k, has that argument's type, and is stored at the frame offset it was
      read from. */
  ghost predicate ArgumentLands(
    args: seq<Argument>, llvmTypes: seq<LlvmType>, slots: map<int, Parameter>, types: seq<DataType>, lead: nat, k: nat)
  {
    && k < |types| && lead + k < |args| && lead + k < |llvmTypes|
    && args[lead + k] == StackRead(ReadBefore(types, k), types[k].llvm)
    && llvmTypes[lead + k] == types[k].llvm
    && FrameOffset(args[lead + k].r) in slots
    && slots[FrameOffset(args[lead + k].r)] == Parameter(lead + k, types[k])
  }

  /** Some stack value is read where the frame offset points. */
  ghost predicate IsReadOffset(types: seq<DataType>, off: int) {
    exists k :: 0 <= k < |types| && off == FrameOffset(ReadBefore(types, k))
  }

  /** Every slot is at the offset of some stack value, which is returned. */
  lemma {:induction false} SlotKey(types: seq<DataType>, lead: nat, n: nat, off: int) returns (k: nat)
    requires n <= |types| && off in ParameterSlots(types, lead, n)
    ensures k < n && off == FrameOffset(ReadBefore(types, k))
  {
    k := n - 1;
    if off != FrameOffset(ReadBefore(types, n - 1)) {
      k := SlotKey(types, lead, n - 1, off);
    }
  }

  lemma {:induction false} SlotOf(types: seq<DataType>, lead: nat, n: nat, k: nat)
    requires k < n <= |types|
    ensures FrameOffset(ReadBefore(types, k)) in ParameterSlots(types, lead, n)
    ensures ParameterSlots(types, lead, n)[FrameOffset(ReadBefore(types, k))] == Parameter(lead + k, types[k])
  {
    if k < n - 1 {
      ReadBeforeMonotone(types, k, n - 1);
      SlotOf(types, lead, n - 1, k);
    }
  }

  lemma {:induction false} LayoutsAgreeAt(
    leadTypes: seq<LlvmType>, leadArgs: seq<Argument>, types: seq<DataType>, k: nat)
    requires k < |types| && |leadTypes| == |leadArgs|
    ensures ArgumentLands(
      ArgumentsUpTo(leadArgs, types, |types|), TypesUpTo(leadTypes, types, |types|),
      ParameterSlots(types, |leadArgs|, |types|), types, |leadArgs|, k)
  {
    hide ArgumentsUpTo, TypesUpTo, ParameterSlots;
    SlotOf(types, |leadArgs|, |types|, k);
    TypeAt(leadTypes, types, |types|, |leadArgs| + k);
    ArgumentAt(leadArgs, types, |types|, |leadArgs| + k);
  }

  lemma {:induction false} SlotIsNew(types: seq<DataType>, lead: nat, n: nat)
    requires n < |types|
    ensures FrameOffset(ReadBefore(types, n)) !in ParameterSlots(types, lead, n)
  {
    if FrameOffset(ReadBefore(types, n)) in ParameterSlots(types, lead, n) {
      var k := SlotKey(types, lead, n, FrameOffset(ReadBefore(types, n)));
      ReadBeforeMonotone(types, k, n);
    }
  }

  /** The k-th value a caller reads from its stack is argument LeadCount + k, has the type the function type gives it,
      and lands in the callee's frame at the offset that is minus the number of DWORDs read before it. */
  lemma {:induction false} ArgumentAgrees(sig: Signature, k: nat)
    requires k < |StackTypes(sig)|
    ensures ArgumentLands(
      CallArguments(sig), FunctionType(sig), ParameterStorage(sig), StackTypes(sig), LeadCount(sig), k)
  {
    LayoutsAgreeAt(LeadTypes(sig), LeadArguments(sig), StackTypes(sig), k);
  }

  /** Every slot of the callee's frame holds a value the caller read where the slot is. */
  lemma {:induction false} SlotIsFed(sig: Signature, off: int)
    requires off in ParameterStorage(sig)
    ensures IsReadOffset(StackTypes(sig), off)
  {
    var k := SlotKey(StackTypes(sig), LeadCount(sig), |StackTypes(sig)|, off);
  }

  /** The three layouts agree, position by position, and describe the same arguments: types match, every value read
      from the stack has its slot, and there is no other slot. */
  lemma {:induction false} LayoutsAgree(sig: Signature)
    ensures |FunctionType(sig)| == |CallArguments(sig)| == LeadCount(sig) + |StackTypes(sig)|
    ensures forall i :: 0 <= i < |CallArguments(sig)| ==> ArgumentType(CallArguments(sig)[i]) == FunctionType(sig)[i]
    ensures forall k :: 0 <= k < |StackTypes(sig)| ==>
      ArgumentLands(CallArguments(sig), FunctionType(sig), ParameterStorage(sig), StackTypes(sig), LeadCount(sig), k)
    ensures forall off :: off in ParameterStorage(sig) ==>
      IsReadOffset(StackTypes(sig), off)
  {
    forall k | 0 <= k < |StackTypes(sig)|
      ensures ArgumentLands(
        CallArguments(sig), FunctionType(sig), ParameterStorage(sig), StackTypes(sig), LeadCount(sig), k)
    {
      ArgumentAgrees(sig, k);
    }
    forall i | 0 <= i < |CallArguments(sig)|
      ensures ArgumentType(CallArguments(sig)[i]) == FunctionType(sig)[i]
    {
      TypeAt(LeadTypes(sig), StackTypes(sig), |StackTypes(sig)|, i);
      ArgumentAt(LeadArguments(sig), StackTypes(sig), |StackTypes(sig)|, i);
    }
    forall off | off in ParameterStorage(sig)
      ensures IsReadOffset(StackTypes(sig), off)
    {
      SlotIsFed(sig, off);
    }
  }

  /** The arguments in front of the declared parameters: the result, which comes first, and the object. */
  function HiddenCount(sig: Signature): nat {
    (if sig.returnType.Some? then 1 else 0) + (if sig.objectType.Some? then 1 else 0)
  }

  /** The DWORDs they take on the stack. */
  function HiddenDwords(sig: Signature): nat {
    (if HasReturnPointer(sig) then sig.returnType.value.dwords else 0)
    + (if sig.objectType.Some? then sig.objectType.value.dwords else 0)
  }

  lemma {:induction false} ReadBeforeTail(front: seq<DataType>, types: seq<DataType>, k: nat)
    requires k <= |types|
    ensures ReadBefore(front + types, |front| + k) == Dwords(front) + ReadBefore(types, k)
  {
    if k > 0 {
      ReadBeforeTail(front, types, k - 1);
    } else {
      ReadBeforeFront(front, types, |front|);
    }
  }

  lemma {:induction false} ReadBeforeFront(front: seq<DataType>, types: seq<DataType>, k: nat)
    requires k <= |front|
    ensures ReadBefore(front + types, k) == ReadBefore(front, k)
  {
    if k > 0 {
      ReadBeforeFront(front, types, k - 1);
    }
  }

  /** A value of the type, r DWORDs below the top of the stack, is argument i in all three layouts. */
  predicate Lands(sig: Signature, i: nat, r: nat, t: DataType) {
    && i < |CallArguments(sig)| == |FunctionType(sig)|
    && CallArguments(sig)[i] == StackRead(r, t.llvm)
    && FunctionType(sig)[i] == t.llvm
    && 0 - r in ParameterStorage(sig)
    && ParameterStorage(sig)[0 - r] == Parameter(i, t)
  }

  lemma {:induction false} ValueLands(sig: Signature, k: nat)
    requires k < |StackTypes(sig)|
    ensures Lands(sig, LeadCount(sig) + k, ReadBefore(StackTypes(sig), k), StackTypes(sig)[k])
  {
    hide StackTypes, ReadBefore, ParameterStorage, TypesUpTo, ArgumentsUpTo;
    ArgumentAgrees(sig, k);
  }

  /** The declared parameters follow the hidden ones. */
  lemma {:induction false} HiddenFirst(sig: Signature) returns (front: seq<DataType>)
    ensures StackTypes(sig) == front + sig.parameterTypes
    ensures LeadCount(sig) + |front| == HiddenCount(sig) && Dwords(front) == HiddenDwords(sig)
  {
    front := StackTypes(sig.(parameterTypes := []));
    assert |front| > 0 ==> ReadBefore(front, 1) == front[0].dwords;
  }

  /** Declared parameter k follows the result and the object, and is as deep on the stack as all before it are long. */
  lemma {:induction false} ParameterLands(sig: Signature, k: nat)
    requires k < |sig.parameterTypes|
    ensures Lands(
      sig, HiddenCount(sig) + k, HiddenDwords(sig) + ReadBefore(sig.parameterTypes, k), sig.parameterTypes[k])
  {
    hide Lands, StackTypes, HiddenCount, HiddenDwords, LeadCount;
    var front := HiddenFirst(sig);
    ReadBeforeTail(front, sig.parameterTypes, k);
    ValueLands(sig, |front| + k);
  }

  /** The object comes behind the result, and on the stack below a return pointer. */
  lemma {:induction false} ObjectLands(sig: Signature)
    requires sig.objectType.Some?
    ensures Lands(sig, if sig.returnType.Some? then 1 else 0, ObjectPosition(sig), sig.objectType.value)
  {
    hide Lands;
    var k := if HasReturnPointer(sig) then 1 else 0;
    assert StackTypes(sig)[k] == sig.objectType.value;
    assert ReadBefore(StackTypes(sig), k) == ObjectPosition(sig);
    ValueLands(sig, k);
  }

  /** The result comes first: the memory that the caller left a pointer to on top of the stack, or a register of the
      caller, whose address is passed. */
  lemma {:induction false} ResultLands(sig: Signature)
    requires sig.returnType.Some?
    ensures sig.returnsOnStack ==> Lands(sig, 0, 0, sig.returnType.value)
    ensures !sig.returnsOnStack ==>
      var t := sig.returnType.value;
      && |CallArguments(sig)| == |FunctionType(sig)| > 0
      && CallArguments(sig)[0] == ResultRegister(t.isObject, PointerTo(t.llvm))
      && FunctionType(sig)[0] == PointerTo(t.llvm)
  {
    hide Lands, ArgumentsUpTo, TypesUpTo;
    if sig.returnsOnStack {
      ValueLands(sig, 0);
    } else {
      TypeAt(LeadTypes(sig), StackTypes(sig), |StackTypes(sig)|, 0);
      ArgumentAt(LeadArguments(sig), StackTypes(sig), |StackTypes(sig)|, 0);
    }
  }

  /** The function type, spelled out. */
  lemma {:induction false} TypesSpelled(sig: Signature)
    ensures |FunctionType(sig)| == HiddenCount(sig) + |sig.parameterTypes|
    ensures sig.returnType.Some? ==>
      FunctionType(sig)[0] ==
        if sig.returnsOnStack then sig.returnType.value.llvm else PointerTo(sig.returnType.value.llvm)
    ensures sig.objectType.Some? ==>
      FunctionType(sig)[if sig.returnType.Some? then 1 else 0] == sig.objectType.value.llvm
    ensures forall k :: 0 <= k < |sig.parameterTypes| ==>
      FunctionType(sig)[HiddenCount(sig) + k] == sig.parameterTypes[k].llvm
  {
    hide FunctionType, HiddenDwords, ParameterStorage, CallArguments, StackTypes, LeadCount, HiddenCount;
    var front := HiddenFirst(sig);
    LayoutsAgree(sig);
    if sig.returnType.Some? {
      ResultLands(sig);
    }
    if sig.objectType.Some? {
      ObjectLands(sig);
    }
    forall k | 0 <= k < |sig.parameterTypes|
      ensures FunctionType(sig)[HiddenCount(sig) + k] == sig.parameterTypes[k].llvm
    {
      ParameterLands(sig, k);
    }
  }

  /** The position, in DWORDs below the top of the stack, of the `this` pointer of a method call. */
  function ObjectPosition(sig: Signature): nat {
    if sig.returnType.Some? && sig.returnsOnStack then sig.returnType.value.dwords else 0
  }

  predicate HasReturnPointer(sig: Signature) {
    sig.returnType.Some? && sig.returnsOnStack
  }

  /** Where the object is in the argument vector. */
  function ObjectIndex(sig: Signature): nat {
    LeadCount(sig) + if HasReturnPointer(sig) then 1 else 0
  }

  /** Virtual resolution looks at the value on top of the stack, which nothing has been popped from yet. That value is
      the object the call passes exactly when the callee does not return on the stack; otherwise the lookup reads the
      return pointer instead. */
  lemma {:induction false} VirtualLookupReadsObject(sig: Signature)
    requires sig.objectType.Some?
    ensures ObjectIndex(sig) < |CallArguments(sig)|
    ensures CallArguments(sig)[ObjectIndex(sig)] == StackRead(ObjectPosition(sig), sig.objectType.value.llvm)
    ensures CallArguments(sig)[ObjectIndex(sig)] == StackRead(0, sig.objectType.value.llvm) <==> !HasReturnPointer(sig)
  {
    var types := StackTypes(sig);
    var k := if HasReturnPointer(sig) then 1 else 0;
    assert types[k] == sig.objectType.value;
    ArgumentAgrees(sig, k);
    assert ReadBefore(types, k) == ObjectPosition(sig);
  }

  /** A method that returns an object on the stack: `this` is two DWORDs deep, and the lookup reads the value above. */
  lemma {:induction false} VirtualLookupMisreads(self: LlvmType, result: LlvmType)
    ensures
      var sig := Signature(Some(DataType(result, 2, true)), true, Some(DataType(self, 2, true)), []);
      CallArguments(sig) == [StackRead(0, result), StackRead(2, self)]
  {
    var sig := Signature(Some(DataType(result, 2, true)), true, Some(DataType(self, 2, true)), []);
    var types := StackTypes(sig);
    assert types == [DataType(result, 2, true), DataType(self, 2, true)];
    assert ReadBefore(types, 1) == 2;
    assert ArgumentsUpTo([], types, 1) == [StackRead(0, result)];
    assert ArgumentsUpTo([], types, 2) == [StackRead(0, result), StackRead(2, self)];
  }

  /** ModuleBuilder::get_script_function_type */
  method GetScriptFunctionType(sig: Signature) returns (parameterTypes: seq<LlvmType>)
    ensures parameterTypes == FunctionType(sig)
    ensures |parameterTypes| == HiddenCount(sig) + |sig.parameterTypes|
    ensures sig.returnType.Some? ==>
      var t := sig.returnType.value.llvm;
      parameterTypes[0] == if sig.returnsOnStack then t else PointerTo(t)
    ensures sig.objectType.Some? ==>
      parameterTypes[if sig.returnType.Some? then 1 else 0] == sig.objectType.value.llvm
    ensures forall k :: 0 <= k < |sig.parameterTypes| ==>
      parameterTypes[HiddenCount(sig) + k] == sig.parameterTypes[k].llvm
  {
    parameterTypes := [];
    if sig.returnType.Some? {
      if sig.returnsOnStack {
        parameterTypes := parameterTypes + [sig.returnType.value.llvm];
      } else {
        parameterTypes := parameterTypes + [PointerTo(sig.returnType.value.llvm)];
      }
    }
    if sig.objectType.Some? {
      parameterTypes := parameterTypes + [sig.objectType.value.llvm];
    }
    ghost var types := StackTypes(sig);
    ghost var start := |types| - |sig.parameterTypes|;
    for i := 0 to |sig.parameterTypes|
      invariant parameterTypes == TypesUpTo(LeadTypes(sig), types, start + i)
    {
      parameterTypes := parameterTypes + [sig.parameterTypes[i].llvm];
    }
    TypesSpelled(sig);
  }

  /** The compile-time frame of StackFrame: offsets at or below 0 name parameters. */
  class ParameterFrame {
    var parameters: map<int, Parameter>
    var stackOffset: int
    var nextArgument: nat

    constructor ()
      ensures parameters == map[] && stackOffset == 0 && nextArgument == 0
    {
      parameters := map[];
      stackOffset := 0;
      nextArgument := 0;
    }

    /** The frame after the first n of the given stack values were allocated. */
    ghost predicate Holds(types: seq<DataType>, lead: nat, n: nat)
      reads this
    {
      && n <= |types|
      && parameters == ParameterSlots(types, lead, n)
      && stackOffset == FrameOffset(ReadBefore(types, n))
      && nextArgument == lead + n
    }

    method AllocateParameter(dataType: DataType, ghost types: seq<DataType>, ghost lead: nat, ghost n: nat)
      requires n < |types| && types[n] == dataType
      requires Holds(types, lead, n)
      modifies this
      ensures Holds(types, lead, n + 1)
      // the slot is new, so the emplace succeeds
      ensures old(stackOffset) !in old(parameters)
    {
      SlotIsNew(types, lead, n);
      parameters := parameters[stackOffset := Parameter(nextArgument, dataType)];
      stackOffset := stackOffset - dataType.dwords;
      nextArgument := nextArgument + 1;
    }

    /** StackFrame::allocate_parameter_storage */
    method AllocateParameterStorage(sig: Signature)
      requires parameters == map[] && stackOffset == 0 && nextArgument == 0
      modifies this
      ensures parameters == ParameterStorage(sig)
      ensures stackOffset == FrameOffset(Dwords(StackTypes(sig)))
    {
      ghost var types := StackTypes(sig);
      ghost var lead := LeadCount(sig);
      ghost var n := 0;
      if sig.returnType.Some? && !sig.returnsOnStack {
        nextArgument := nextArgument + 1;
      }
      if sig.returnType.Some? {
        if sig.returnsOnStack {
          AllocateParameter(sig.returnType.value, types, lead, 0);
          n := 1;
        }
      }
      if sig.objectType.Some? {
        AllocateParameter(sig.objectType.value, types, lead, n);
        n := n + 1;
      }
      for i := 0 to |sig.parameterTypes|
        invariant Holds(types, lead, n + i)
        invariant n + |sig.parameterTypes| == |types|
      {
        AllocateParameter(sig.parameterTypes[i], types, lead, n + i);
      }
    }
  }
}
