/** The frame of a translated function is one DWORD array indexed from its far end, plus one allocation per parameter.
    It represents the VM's frame: locals and operands that never disturb each other. */
module Frames {
  import opened Words
  import opened Signatures
  import opened Bytecode
  import opened Machine
  import opened Blocks

  /** StackFrame::pointer_to */
  function SlotAddr(fn: Function, o: int): Addr {
    if o <= 0 then ParameterAlloca(o) else Storage(TotalSpace(fn) - o)
  }

  /** The DWORD at frame offset i + 1: a local, or an operand above the locals. */
  function Cell(fr: Frame, i: nat): Word
    requires i < |fr.locals| + |fr.stack|
  {
    if i < |fr.locals| then fr.locals[i] else fr.stack[i - |fr.locals|]
  }

  ghost predicate StorageRepresents(fr: Frame, storage: seq<Word>) {
    && |fr.locals| + |fr.stack| <= |storage|
    && forall i :: 0 <= i < |fr.locals| + |fr.stack| ==> storage[|storage| - 1 - i] == Cell(fr, i)
  }

  /** Parameter k of the stack types is held in its own allocation. */
  ghost predicate SlotRepresents(types: seq<DataType>, k: nat, args: seq<Word>, params: map<int, seq<Word>>)
    requires k < |types|
  {
    var r := ReadBefore(types, k);
    && r + types[k].dwords <= |args|
    && FrameOffset(r) in params
    && params[FrameOffset(r)] == args[r..r + WholeDwords(types[k])]
  }

  ghost predicate ParamsRepresent(types: seq<DataType>, args: seq<Word>, params: map<int, seq<Word>>) {
    && |args| == Dwords(types)
    && forall k :: 0 <= k < |types| ==> SlotRepresents(types, k, args, params)
  }

  /** The memory holds the frame when the operand stack ends at offset sp. */
  ghost predicate Represents(fn: Function, fr: Frame, mem: Memory, sp: int) {
    && |mem.storage| == TotalSpace(fn)
    && |fr.locals| == fn.variableSpace
    && sp == fn.variableSpace + |fr.stack|
    && StorageRepresents(fr, mem.storage)
    && ParamsRepresent(StackTypes(fn.sig), fr.args, mem.params)
    && mem.register == fr.register
    && mem.globals == fr.globals
    && mem.ret == None
  }

  /** The stack value whose slot a parameter variable names. */
  lemma {:induction false} SlotIndex(sig: Signature, v: int) returns (k: nat)
    requires v in ParameterStorage(sig)
    ensures k < |StackTypes(sig)|
    ensures v == FrameOffset(ReadBefore(StackTypes(sig), k)) && v <= 0
    ensures ParameterStorage(sig)[v].dataType == StackTypes(sig)[k]
  {
    k := SlotKey(StackTypes(sig), LeadCount(sig), |StackTypes(sig)|, v);
    SlotOf(StackTypes(sig), LeadCount(sig), |StackTypes(sig)|, k);
  }

  /** Reading a variable through its slot gives the variable of the VM's frame. */
  lemma {:induction false} LoadVariable(fn: Function, fr: Frame, mem: Memory, sp: int, v: int, d: nat)
    requires Represents(fn, fr, mem, sp) && VarOk(fn, v, d) && Whole(fn, v) && 1 <= d <= 2
    ensures Accessible(fr, v, d)
    ensures LoadFrom(mem, SlotAddr(fn, v), 32 * d) == Some(ReadVar(fr, v, d))
    ensures d == 1 ==> forall bits :: bits in {8, 16} ==>
      LoadFrom(mem, SlotAddr(fn, v), bits) == Some(Wrap(ReadVar(fr, v, d), bits))
  {
    if v > 0 {
      assert mem.storage[|mem.storage| - v] == Cell(fr, v - 1);
      if d == 2 {
        assert mem.storage[|mem.storage| - v + 1] == Cell(fr, v - 2);
      }
    } else {
      var k := SlotIndex(fn.sig, v);
      assert SlotRepresents(StackTypes(fn.sig), k, fr.args, mem.params);
      ReadBounds(fr, v, d);
    }
  }

  /** An allocation narrower than a DWORD gives no DWORD and takes none. */
  lemma {:induction false} NarrowVariable(fn: Function, fr: Frame, mem: Memory, sp: int, v: int, bits: nat, q: nat)
    requires Represents(fn, fr, mem, sp) && VarOk(fn, v, 1) && !Whole(fn, v)
    ensures LoadFrom(mem, SlotAddr(fn, v), bits) == None && StoreTo(mem, SlotAddr(fn, v), bits, q) == None
  {
    var k := SlotIndex(fn.sig, v);
    assert SlotRepresents(StackTypes(fn.sig), k, fr.args, mem.params);
  }

  /** A variable of two DWORDs is never narrow. */
  lemma {:induction false} PairIsWhole(fn: Function, v: int)
    requires NativeSignature(fn.sig) && VarOk(fn, v, 2)
    ensures Whole(fn, v)
  {
    if v <= 0 {
      var k := SlotIndex(fn.sig, v);
      assert NativeType(StackTypes(fn.sig)[k]);
    }
  }

  lemma {:induction false} StoreLocal(fn: Function, fr: Frame, mem: Memory, sp: int, v: int, d: nat, q: QWord)
    returns (mem': Memory)
    requires Represents(fn, fr, mem, sp) && VarOk(fn, v, d) && Whole(fn, v) && 1 <= d <= 2 && v > 0
    requires d == 1 ==> q < M32
    ensures Accessible(fr, v, d)
    ensures StoreTo(mem, SlotAddr(fn, v), 32 * d, q) == Some(mem')
    ensures Represents(fn, WriteVar(fr, v, d, q), mem', sp)
  {
    mem' := StoreTo(mem, SlotAddr(fn, v), 32 * d, q).value;
    var fr' := WriteVar(fr, v, d, q);
    forall i | 0 <= i < |fr'.locals| + |fr'.stack|
      ensures mem'.storage[|mem'.storage| - 1 - i] == Cell(fr', i)
    {
      assert mem.storage[|mem.storage| - 1 - i] == Cell(fr, i);
    }
  }

  /** Slots are disjoint: writing one leaves the others as they were. */
  lemma {:induction false} OtherSlotKept(
    types: seq<DataType>, j: nat, k: nat, args: seq<Word>, args': seq<Word>, params: map<int, seq<Word>>,
    params': map<int, seq<Word>>)
    requires j < |types| && k < |types| && j != k && |args| == |args'|
    requires SlotRepresents(types, j, args, params)
    requires SlotRepresents(types, k, args, params)
    requires forall i :: 0 <= i < |args| && !(ReadBefore(types, k) <= i < ReadBefore(types, k) + types[k].dwords) ==>
      args'[i] == args[i]
    requires forall off :: off in params && off != FrameOffset(ReadBefore(types, k)) ==>
      off in params' && params'[off] == params[off]
    ensures SlotRepresents(types, j, args', params')
  {
    if j < k {
      ReadBeforeMonotone(types, j, k);
    } else {
      ReadBeforeMonotone(types, k, j);
    }
  }

  lemma {:induction false} StoreParameter(fn: Function, fr: Frame, mem: Memory, sp: int, v: int, d: nat, q: QWord)
    returns (mem': Memory)
    requires Represents(fn, fr, mem, sp) && VarOk(fn, v, d) && Whole(fn, v) && 1 <= d <= 2 && v <= 0
    requires d == 1 ==> q < M32
    ensures Accessible(fr, v, d)
    ensures StoreTo(mem, SlotAddr(fn, v), 32 * d, q) == Some(mem')
    ensures Represents(fn, WriteVar(fr, v, d, q), mem', sp)
  {
    var types := StackTypes(fn.sig);
    var k := SlotIndex(fn.sig, v);
    assert SlotRepresents(types, k, fr.args, mem.params);
    mem' := StoreTo(mem, SlotAddr(fn, v), 32 * d, q).value;
    var fr' := WriteVar(fr, v, d, q);
    var r := ReadBefore(types, k);
    assert mem'.params[v] == fr'.args[r..r + WholeDwords(types[k])];
    forall j | 0 <= j < |types|
      ensures SlotRepresents(types, j, fr'.args, mem'.params)
    {
      assert SlotRepresents(types, j, fr.args, mem.params);
      if j != k {
        OtherSlotKept(types, j, k, fr.args, fr'.args, mem.params, mem'.params);
      }
    }
    assert StorageRepresents(fr', mem'.storage) by {
      assert forall i :: 0 <= i < |fr.locals| + |fr.stack| ==> Cell(fr', i) == Cell(fr, i);
    }
  }

  /** Writing a variable through its slot writes the variable of the VM's frame and nothing else. */
  lemma {:induction false} StoreVariable(fn: Function, fr: Frame, mem: Memory, sp: int, v: int, d: nat, q: QWord)
    returns (mem': Memory)
    requires Represents(fn, fr, mem, sp) && VarOk(fn, v, d) && Whole(fn, v) && 1 <= d <= 2
    requires d == 1 ==> q < M32
    ensures Accessible(fr, v, d)
    ensures StoreTo(mem, SlotAddr(fn, v), 32 * d, q) == Some(mem')
    ensures Represents(fn, WriteVar(fr, v, d, q), mem', sp)
  {
    if v > 0 {
      mem' := StoreLocal(fn, fr, mem, sp, v, d, q);
    } else {
      mem' := StoreParameter(fn, fr, mem, sp, v, d, q);
    }
  }

  /** Storing at the new top of the stack pushes: locals and deeper operands keep their values. */
  lemma {:induction false} StorePushed(fn: Function, fr: Frame, mem: Memory, sp: int, d: nat, q: QWord)
    returns (mem': Memory)
    requires Represents(fn, fr, mem, sp) && 1 <= d <= 2 && sp + d <= TotalSpace(fn)
    requires d == 1 ==> q < M32
    ensures StoreTo(mem, SlotAddr(fn, sp + d), 32 * d, q) == Some(mem')
    ensures Represents(fn, Push(fr, d, q), mem', sp + d)
  {
    mem' := StoreTo(mem, SlotAddr(fn, sp + d), 32 * d, q).value;
    var fr' := Push(fr, d, q);
    forall i | 0 <= i < |fr'.locals| + |fr'.stack|
      ensures mem'.storage[|mem'.storage| - 1 - i] == Cell(fr', i)
    {
      if i < sp {
        assert mem.storage[|mem.storage| - 1 - i] == Cell(fr, i);
      }
    }
  }

  /** A value of d DWORDs that ends r DWORDs below the top is loaded as the VM finds it there. */
  lemma {:induction false} LoadOperand(fn: Function, fr: Frame, mem: Memory, sp: int, r: nat, d: nat)
    requires Represents(fn, fr, mem, sp) && 1 <= d <= 2 && r + d <= |fr.stack|
    ensures
      var n := |fr.stack| - 1 - r;
      LoadFrom(mem, SlotAddr(fn, sp - r), 32 * d) ==
        Some(if d == 1 then fr.stack[n] else Join(fr.stack[n], fr.stack[n - 1]))
  {
    var o := sp - r;
    assert mem.storage[|mem.storage| - o] == Cell(fr, o - 1);
    if d == 2 {
      assert mem.storage[|mem.storage| - o + 1] == Cell(fr, o - 2);
    }
  }

  /** Moving the stack pointer down drops operands. */
  lemma {:induction false} DropRepresents(fn: Function, fr: Frame, mem: Memory, sp: int, n: nat)
    requires Represents(fn, fr, mem, sp) && n <= |fr.stack|
    ensures Represents(fn, Drop(fr, n), mem, sp - n)
  {
    var fr' := Drop(fr, n);
    assert forall i :: 0 <= i < |fr'.locals| + |fr'.stack| ==> Cell(fr', i) == Cell(fr, i);
  }

  /** What a push stored is what the matching pop loads, and the frame is back to what it was. */
  lemma {:induction false} PushThenPop(fn: Function, fr: Frame, mem: Memory, sp: int, q: QWord) returns (mem': Memory)
    requires Represents(fn, fr, mem, sp) && sp + 2 <= TotalSpace(fn)
    ensures StoreTo(mem, SlotAddr(fn, sp + 2), 64, q) == Some(mem')
    ensures LoadFrom(mem', SlotAddr(fn, sp + 2), 64) == Some(q)
    ensures Represents(fn, fr, mem', sp)
  {
    mem' := StorePushed(fn, fr, mem, sp, 2, q);
    var fr' := Push(fr, 2, q);
    LoadOperand(fn, fr', mem', sp + 2, 0, 2);
    DropRepresents(fn, fr', mem', sp + 2, 2);
    assert Drop(fr', 2) == fr by {
      assert fr'.stack[..|fr'.stack| - 2] == fr.stack;
    }
  }
}
