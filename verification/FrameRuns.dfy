/** Any sequence of pushes, pops, loads and stores on the frame's DWORD array behaves as on separate variables and a
    list of pushed values. */
module FrameRuns {
  import opened Words
  import opened Bytecode
  import opened Machine
  import opened Blocks
  import opened Frames

  predicate Fits(d: nat, q: QWord) {
    d == 2 || (d == 1 && q < M32)
  }

  datatype Entry = Entry(d: nat, q: QWord)

  /** A pushed value of one or two DWORDs. */
  type Pushed = p: Entry | Fits(p.d, p.q) witness Entry(1, 0)

  datatype FrameOp =
    | PushOp(d: nat, q: QWord)
    | PopOp(d: nat)
    | TopOp(d: nat)
    | LoadOp(v: int, d: nat)
    | StoreOp(v: int, d: nat, q: QWord)

  /** The simple form: variables (parameters and locals of `fr`, whose stack stays empty) and a list of values. */
  datatype Simple = Simple(fr: Frame, values: seq<Pushed>)

  function Depth(values: seq<Pushed>): nat {
    if values == [] then 0 else Depth(values[..|values| - 1]) + values[|values| - 1].d
  }

  /** The operation on the simple form, with what it yields; None if it is out of bounds or pops another width. */
  function SimpleStep(fn: Function, s: Simple, op: FrameOp): Option<(Simple, Option<QWord>)> {
    match op
    case PushOp(d, q) =>
      if !Fits(d, q) || fn.variableSpace + Depth(s.values) + d > TotalSpace(fn) then None
      else Some((s.(values := s.values + [Entry(d, q)]), None))
    case PopOp(d) =>
      if s.values == [] || s.values[|s.values| - 1].d != d then None
      else Some((s.(values := s.values[..|s.values| - 1]), Some(s.values[|s.values| - 1].q)))
    case TopOp(d) =>
      if s.values == [] || s.values[|s.values| - 1].d != d then None
      else Some((s, Some(s.values[|s.values| - 1].q)))
    case LoadOp(v, d) =>
      if !VarOk(fn, v, d) || !Whole(fn, v) || d < 1 || d > 2 || !Accessible(s.fr, v, d) then None
      else Some((s, Some(ReadVar(s.fr, v, d))))
    case StoreOp(v, d, q) =>
      if !VarOk(fn, v, d) || !Whole(fn, v) || !Fits(d, q) || !Accessible(s.fr, v, d) then None
      else Some((s.(fr := WriteVar(s.fr, v, d, q)), None))
  }

  /** The same operation on the DWORD array, through the addresses and the stack pointer of StackFrame. */
  function ArrayStep(fn: Function, mem: Memory, sp: int, op: FrameOp): Option<(Memory, int, Option<nat>)> {
    match op
    case PushOp(d, q) =>
      var mem' := StoreTo(mem, SlotAddr(fn, sp + d), 32 * d, q);
      if mem'.None? then None else Some((mem'.value, sp + d, None))
    case PopOp(d) =>
      var q := LoadFrom(mem, SlotAddr(fn, sp), 32 * d);
      if q.None? then None else Some((mem, sp - d, q))
    case TopOp(d) =>
      var q := LoadFrom(mem, SlotAddr(fn, sp), 32 * d);
      if q.None? then None else Some((mem, sp, q))
    case LoadOp(v, d) =>
      var q := LoadFrom(mem, SlotAddr(fn, v), 32 * d);
      if q.None? then None else Some((mem, sp, q))
    case StoreOp(v, d, q) =>
      var mem' := StoreTo(mem, SlotAddr(fn, v), 32 * d, q);
      if mem'.None? then None else Some((mem'.value, sp, None))
  }

  function SimpleRun(fn: Function, s: Simple, ops: seq<FrameOp>): Option<(Simple, seq<Option<QWord>>)>
    decreases |ops|
  {
    if ops == [] then Some((s, []))
    else
      match SimpleStep(fn, s, ops[0])
      case None => None
      case Some((s', y)) =>
        match SimpleRun(fn, s', ops[1..])
        case None => None
        case Some((s2, ys)) => Some((s2, [y] + ys))
  }

  function ArrayRun(fn: Function, mem: Memory, sp: int, ops: seq<FrameOp>): Option<(Memory, int, seq<Option<nat>>)>
    decreases |ops|
  {
    if ops == [] then Some((mem, sp, []))
    else
      match ArrayStep(fn, mem, sp, ops[0])
      case None => None
      case Some((mem', sp', y)) =>
        match ArrayRun(fn, mem', sp', ops[1..])
        case None => None
        case Some((mem2, sp2, ys)) => Some((mem2, sp2, [y] + ys))
  }

  function PushedDwords(p: Pushed): (dwords: seq<Word>)
    ensures |dwords| == p.d
  {
    if p.d == 1 then [p.q] else [Hi(p.q), Lo(p.q)]
  }

  /** The operand DWORDs of a list of values: the high DWORD of a wide one lies below its low DWORD. */
  function Flatten(values: seq<Pushed>): (dwords: seq<Word>)
    ensures |dwords| == Depth(values)
  {
    if values == [] then [] else Flatten(values[..|values| - 1]) + PushedDwords(values[|values| - 1])
  }

  /** The array holds the variables and the list of values. */
  ghost predicate Refines(fn: Function, s: Simple, mem: Memory, sp: int) {
    && s.fr.stack == []
    && Represents(fn, s.fr.(stack := Flatten(s.values)), mem, sp)
  }

  lemma {:induction false} FlattenSnoc(values: seq<Pushed>, p: Pushed)
    ensures Flatten(values + [p]) == Flatten(values) + PushedDwords(p)
    ensures Depth(values + [p]) == Depth(values) + p.d
  {
    assert (values + [p])[..|values|] == values;
  }

  lemma {:induction false} PointerAtTop(fn: Function, fr: Frame, mem: Memory, sp: int)
    requires Represents(fn, fr, mem, sp)
    ensures sp == fn.variableSpace + |fr.stack|
  {
  }

  lemma {:induction false} PushRefines(fn: Function, s: Simple, mem: Memory, sp: int, d: nat, q: QWord)
    requires Refines(fn, s, mem, sp) && SimpleStep(fn, s, PushOp(d, q)).Some?
    ensures
      var r := ArrayStep(fn, mem, sp, PushOp(d, q));
      r.Some? && r.value.2 == None && Refines(fn, SimpleStep(fn, s, PushOp(d, q)).value.0, r.value.0, r.value.1)
  {
    hide Represents, StoreTo, LoadFrom, SlotAddr;
    FlattenSnoc(s.values, Entry(d, q));
    PointerAtTop(fn, s.fr.(stack := Flatten(s.values)), mem, sp);
    var mem' := StorePushed(fn, s.fr.(stack := Flatten(s.values)), mem, sp, d, q);
  }

  lemma {:induction false} PopRefines(fn: Function, s: Simple, mem: Memory, sp: int, d: nat)
    requires Refines(fn, s, mem, sp) && SimpleStep(fn, s, PopOp(d)).Some?
    ensures
      var r := ArrayStep(fn, mem, sp, PopOp(d));
      && r.Some? && r.value.2 == SimpleStep(fn, s, PopOp(d)).value.1
      && Refines(fn, SimpleStep(fn, s, PopOp(d)).value.0, r.value.0, r.value.1)
  {
    hide Represents, StoreTo, LoadFrom, SlotAddr;
    var n := |s.values| - 1;
    var fr := s.fr.(stack := Flatten(s.values));
    var below := Flatten(s.values[..n]);
    assert fr.stack == below + PushedDwords(s.values[n]);
    LoadOperand(fn, fr, mem, sp, 0, d);
    DropRepresents(fn, fr, mem, sp, d);
    assert fr.stack[..|fr.stack| - d] == below;
    assert Drop(fr, d) == s.fr.(stack := below);
  }

  lemma {:induction false} VariableRefines(fn: Function, s: Simple, mem: Memory, sp: int, op: FrameOp)
    requires Refines(fn, s, mem, sp) && (op.LoadOp? || op.StoreOp?) && SimpleStep(fn, s, op).Some?
    ensures
      var r := ArrayStep(fn, mem, sp, op);
      && r.Some? && r.value.2 == SimpleStep(fn, s, op).value.1
      && Refines(fn, SimpleStep(fn, s, op).value.0, r.value.0, r.value.1)
  {
    hide Represents, StoreTo, LoadFrom, Flatten, SlotAddr;
    var fr := s.fr.(stack := Flatten(s.values));
    match op
    case LoadOp(v, d) => LoadVariable(fn, fr, mem, sp, v, d);
    case StoreOp(v, d, q) => var mem' := StoreVariable(fn, fr, mem, sp, v, d, q);
  }

  /** The array refines the simple form: any sequence of operations within bounds yields the same values. */
  lemma {:induction false} ArrayRefinesValues(fn: Function, s: Simple, mem: Memory, sp: int, ops: seq<FrameOp>)
    requires Refines(fn, s, mem, sp) && SimpleRun(fn, s, ops).Some?
    ensures
      var r := ArrayRun(fn, mem, sp, ops);
      && r.Some?
      && r.value.2 == SimpleRun(fn, s, ops).value.1
      && Refines(fn, SimpleRun(fn, s, ops).value.0, r.value.0, r.value.1)
    decreases |ops|
  {
    if ops != [] {
      hide Refines, SimpleStep, ArrayStep;
      StepRefines(fn, s, mem, sp, ops[0]);
      var (s', _) := SimpleStep(fn, s, ops[0]).value;
      var (mem', sp', _) := ArrayStep(fn, mem, sp, ops[0]).value;
      ArrayRefinesValues(fn, s', mem', sp', ops[1..]);
    }
  }

  lemma {:induction false} StepRefines(fn: Function, s: Simple, mem: Memory, sp: int, op: FrameOp)
    requires Refines(fn, s, mem, sp) && SimpleStep(fn, s, op).Some?
    ensures
      var r := ArrayStep(fn, mem, sp, op);
      && r.Some? && r.value.2 == SimpleStep(fn, s, op).value.1
      && Refines(fn, SimpleStep(fn, s, op).value.0, r.value.0, r.value.1)
  {
    hide Refines, StoreTo, LoadFrom, SlotAddr, VarOk, Whole, Accessible, Fits, ReadVar, WriteVar;
    match op
    case PushOp(d, q) => PushRefines(fn, s, mem, sp, d, q);
    case PopOp(d) => PopRefines(fn, s, mem, sp, d);
    case TopOp(d) => PopRefines(fn, s, mem, sp, d);
    case LoadOp(_, _) => VariableRefines(fn, s, mem, sp, op);
    case StoreOp(_, _, _) => VariableRefines(fn, s, mem, sp, op);
  }
}
