/** What the first pass finds: exactly the labels of the code, one block each, and every jump table. */
module LabelPass {
  import opened Words
  import opened Bytecode
  import opened Machine
  import opened Translation

  /** The instruction follows a JMPP with nothing but JMPs in between. */
  predicate AfterTableStart(code: seq<Ins>, k: nat)
    requires k <= |code|
  {
    k > 0 && (code[k - 1].JmpP? || (code[k - 1].Jmp? && AfterTableStart(code, k - 1)))
  }

  predicate InTable(code: seq<Ins>, k: nat)
    requires k < |code|
  {
    code[k].Jmp? && AfterTableStart(code, k)
  }

  /** Instruction k makes the offset a label: as the target of a branch, as the way on from a conditional branch, or
      because the instruction is an entry of a jump table. */
  predicate MakesLabel(code: seq<Ins>, k: nat, offset: int)
    requires k < |code|
  {
    || (IsBranch(code[k]) && offset == BranchTarget(code[k], Off(code, k)))
    || (IsConditional(code[k]) && offset == Off(code, k) + 2)
    || (InTable(code, k) && offset == Off(code, k))
  }

  ghost predicate IsLabelUpTo(code: seq<Ins>, n: nat, offset: int)
    requires n <= |code|
  {
    exists k :: 0 <= k < n && MakesLabel(code, k, offset)
  }

  ghost predicate IsLabel(code: seq<Ins>, offset: int) {
    IsLabelUpTo(code, |code|, offset)
  }

  /** Labels have blocks of their own, which are empty and distinct from the entry block. */
  ghost predicate LabelBlocks(b: Builder) {
    && b.cur == 0
    && |b.blocks| >= 1
    && (forall k :: 0 <= k < |b.blocks| ==> b.blocks[k] == [])
    && (forall off :: off in b.jumpMap ==> 1 <= b.jumpMap[off] < |b.blocks|)
    && (forall x, y :: x in b.jumpMap && y in b.jumpMap && x != y ==> b.jumpMap[x] != b.jumpMap[y])
  }

  lemma {:induction false} InsertLabelKeeps(b: Builder, offset: int)
    requires LabelBlocks(b)
    ensures LabelBlocks(InsertLabel(b, offset))
    ensures InsertLabel(b, offset).sp == b.sp && InsertLabel(b, offset).retPointer == b.retPointer
    ensures offset in InsertLabel(b, offset).jumpMap
  {
  }

  lemma {:induction false} AddTargetKeeps(b: Builder, switchOffset: int, block: nat)
    requires LabelBlocks(b)
    ensures LabelBlocks(AddTarget(b, switchOffset, block))
  {
  }

  lemma {:induction false} ScanJmpKeeps(s: Scan, ins: Ins, offset: nat)
    requires LabelBlocks(s.b) && ins.Jmp?
    ensures LabelBlocks(ScanJmp(s, ins, offset).b)
    ensures ScanJmp(s, ins, offset).b.sp == s.b.sp && ScanJmp(s, ins, offset).b.retPointer == s.b.retPointer
  {
    hide LabelBlocks, InsertLabel;
    var b := InsertLabel(s.b, BranchTarget(ins, offset));
    InsertLabelKeeps(s.b, BranchTarget(ins, offset));
    InsertLabelKeeps(b, offset);
    AddTargetKeeps(InsertLabel(b, offset), s.ctx.switchOffset, InsertLabel(b, offset).jumpMap[offset]);
  }

  lemma {:induction false} ScanKeeps(s: Scan, ins: Ins, offset: nat)
    requires LabelBlocks(s.b)
    ensures LabelBlocks(ScanIns(s, ins, offset).b)
    ensures ScanIns(s, ins, offset).b.sp == s.b.sp && ScanIns(s, ins, offset).b.retPointer == s.b.retPointer
  {
    hide LabelBlocks, InsertLabel, ScanJmp;
    if ins.Jmp? {
      ScanJmpKeeps(s, ins, offset);
    } else if IsConditional(ins) {
      InsertLabelKeeps(s.b, offset + 2);
      InsertLabelKeeps(InsertLabel(s.b, offset + 2), BranchTarget(ins, offset));
    }
  }

  lemma {:induction false} ScanLabelBlocks(fn: Function, i: nat)
    requires i <= |fn.code|
    ensures LabelBlocks(ScanTo(fn, i).b)
    ensures ScanTo(fn, i).b.sp == fn.variableSpace
    ensures ScanTo(fn, i).b.retPointer == None
  {
    hide ScanIns;
    if i > 0 {
      ScanLabelBlocks(fn, i - 1);
      ScanKeeps(ScanTo(fn, i - 1), fn.code[i - 1], Off(fn.code, i - 1));
    }
  }

  lemma {:induction false} HandlingExact(fn: Function, i: nat)
    requires i <= |fn.code|
    ensures ScanTo(fn, i).ctx.handlingJumpTable == AfterTableStart(fn.code, i)
  {
    if i > 0 {
      HandlingExact(fn, i - 1);
    }
  }

  /** One instruction adds exactly the labels it makes. */
  lemma {:induction false} ScanLabels(code: seq<Ins>, s: Scan, i: nat, offset: int)
    requires i < |code| && s.ctx.handlingJumpTable == AfterTableStart(code, i)
    ensures offset in ScanIns(s, code[i], Off(code, i)).b.jumpMap <==>
      offset in s.b.jumpMap || MakesLabel(code, i, offset)
  {
    hide AfterTableStart, Off;
  }

  /** After i instructions the jump map holds exactly the labels those instructions make. */
  lemma {:induction false} LabelsExactUpTo(fn: Function, i: nat, offset: int)
    requires i <= |fn.code|
    ensures offset in ScanTo(fn, i).b.jumpMap <==> IsLabelUpTo(fn.code, i, offset)
  {
    hide ScanIns, MakesLabel;
    if i > 0 {
      LabelsExactUpTo(fn, i - 1, offset);
      HandlingExact(fn, i - 1);
      ScanLabels(fn.code, ScanTo(fn, i - 1), i - 1, offset);
      if IsLabelUpTo(fn.code, i, offset) {
        var k :| 0 <= k < i && MakesLabel(fn.code, k, offset);
        assert k < i - 1 ==> IsLabelUpTo(fn.code, i - 1, offset);
      }
    }
  }

  /** The first pass inserts a label at exactly the offsets that are labels of the code. */
  lemma {:induction false} LabelsExact(fn: Function, offset: int)
    ensures offset in Labels(fn).jumpMap <==> IsLabel(fn.code, offset)
  {
    LabelsExactUpTo(fn, |fn.code|, offset);
  }

  lemma {:induction false} LabelInserted(fn: Function, k: nat, offset: int)
    requires k < |fn.code| && MakesLabel(fn.code, k, offset)
    ensures offset in Labels(fn).jumpMap
  {
    LabelsExact(fn, offset);
  }

  // ---------- jump tables

  lemma {:induction false} ScanNext(fn: Function, i: nat)
    requires i < |fn.code|
    ensures ScanTo(fn, i + 1) == ScanIns(ScanTo(fn, i), fn.code[i], Off(fn.code, i))
  {
  }

  /** A JMP scanned inside a table is added to it. */
  lemma {:induction false} ScanTableJmp(s: Scan, ins: Ins, offset: nat, start: int, n: nat)
    requires ins.Jmp? && s.ctx == ScanContext(start, true)
    requires offset == start + 1 + 2 * n && TableCollected(s.b, start, n)
    ensures ScanIns(s, ins, offset).ctx == s.ctx
    ensures TableCollected(ScanIns(s, ins, offset).b, start, n + 1)
  {
    hide TableCollected;
    var b' := ScanIns(s, ins, offset).b;
    TableExtended(s.b, b', start, n, b'.jumpMap[offset]);
  }

  /** Any other instruction leaves the table alone. */
  lemma {:induction false} ScanOutsideTable(s: Scan, ins: Ins, offset: nat, start: int, n: nat)
    requires s.ctx.handlingJumpTable && ins.Jmp? ==> s.ctx.switchOffset != start
    requires TableCollected(s.b, start, n)
    ensures TableCollected(ScanIns(s, ins, offset).b, start, n)
  {
    hide TableCollected;
    TableCarried(s.b, ScanIns(s, ins, offset).b, start, n);
  }

  /** Entry k recorded for the switch at an offset is the block of the label at offset + 1 + 2k. */
  ghost predicate Dispatches(b: Builder, offset: int, k: nat) {
    && offset in b.switchMap
    && k < |b.switchMap[offset]|
    && offset + 1 + 2 * k in b.jumpMap
    && b.switchMap[offset][k] == b.jumpMap[offset + 1 + 2 * k]
  }

  /** The table of the switch at an offset has n entries. */
  ghost predicate TableCollected(b: Builder, offset: int, n: nat) {
    if n == 0 then offset !in b.switchMap
    else
      && offset in b.switchMap
      && |b.switchMap[offset]| == n
      && forall k :: 0 <= k < n ==> Dispatches(b, offset, k)
  }

  /** A later state with the same table and at least the same labels. */
  lemma {:induction false} TableCarried(b: Builder, b': Builder, offset: int, n: nat)
    requires TableCollected(b, offset, n)
    requires offset in b.switchMap <==> offset in b'.switchMap
    requires offset in b.switchMap ==> b'.switchMap[offset] == b.switchMap[offset]
    requires forall x :: x in b.jumpMap ==> x in b'.jumpMap && b'.jumpMap[x] == b.jumpMap[x]
    ensures TableCollected(b', offset, n)
  {
    forall k | 0 <= k < n
      ensures Dispatches(b', offset, k)
    {
      assert Dispatches(b, offset, k);
    }
  }

  lemma {:induction false} TableExtended(b: Builder, b': Builder, offset: int, n: nat, block: nat)
    requires TableCollected(b, offset, n)
    requires offset in b'.switchMap
    requires b'.switchMap[offset] == (if offset in b.switchMap then b.switchMap[offset] else []) + [block]
    requires offset + 1 + 2 * n in b'.jumpMap && b'.jumpMap[offset + 1 + 2 * n] == block
    requires forall x :: x in b.jumpMap ==> x in b'.jumpMap && b'.jumpMap[x] == b.jumpMap[x]
    ensures TableCollected(b', offset, n + 1)
  {
    forall k | 0 <= k < n + 1
      ensures Dispatches(b', offset, k)
    {
      if k < n {
        assert Dispatches(b, offset, k);
      }
    }
  }

  lemma {:induction false} SwitchKeysBefore(fn: Function, i: nat)
    requires i <= |fn.code|
    ensures forall off :: off in ScanTo(fn, i).b.switchMap ==> off < Off(fn.code, i)
    ensures ScanTo(fn, i).ctx.handlingJumpTable ==> ScanTo(fn, i).ctx.switchOffset < Off(fn.code, i)
  {
    if i > 0 {
      SwitchKeysBefore(fn, i - 1);
    }
  }

  lemma {:induction false} TableStarts(fn: Function, q: nat)
    requires q < |fn.code| && fn.code[q].JmpP?
    ensures ScanTo(fn, q + 1).ctx == ScanContext(Off(fn.code, q), true)
    ensures TableCollected(ScanTo(fn, q + 1).b, Off(fn.code, q), 0)
  {
    SwitchKeysBefore(fn, q);
    ScanNext(fn, q);
    hide ScanTo;
  }

  /** While the JMPs of a table are scanned, each is added to the table. */
  lemma {:induction false} TableGrows(fn: Function, q: nat, n: nat)
    requires q + 1 + n <= |fn.code| && fn.code[q].JmpP?
    requires forall k :: q < k < q + 1 + n ==> fn.code[k].Jmp?
    ensures ScanTo(fn, q + 1 + n).ctx == ScanContext(Off(fn.code, q), true)
    ensures TableCollected(ScanTo(fn, q + 1 + n).b, Off(fn.code, q), n)
  {
    hide ScanTo, ScanIns, TableCollected;
    if n == 0 {
      TableStarts(fn, q);
    } else {
      TableGrows(fn, q, n - 1);
      TableOffsets(fn.code, q, n - 1);
      ScanNext(fn, q + n);
      ScanTableJmp(ScanTo(fn, q + n), fn.code[q + n], Off(fn.code, q + n), Off(fn.code, q), n - 1);
    }
  }

  /** Behind its last JMP no instruction is taken for an entry of the table any more. */
  lemma {:induction false} ContextLeaves(s: Scan, ins: Ins, offset: nat, start: int)
    requires start < offset && (!ins.Jmp? || (s.ctx.handlingJumpTable ==> s.ctx.switchOffset > start))
    ensures
      var ctx := ScanIns(s, ins, offset).ctx;
      ctx.handlingJumpTable ==> ctx.switchOffset > start
  {
    hide InsertLabel, AddTarget;
  }

  lemma {:induction false} ContextLeft(fn: Function, q: nat, e: nat, i: nat)
    requires q < e < i <= |fn.code| && !fn.code[e].Jmp?
    ensures ScanTo(fn, i).ctx.handlingJumpTable ==> ScanTo(fn, i).ctx.switchOffset > Off(fn.code, q)
    decreases i
  {
    hide ScanTo, ScanIns, Off;
    OffGrows(fn.code, q, i - 1);
    if i > e + 1 {
      ContextLeft(fn, q, e, i - 1);
    }
    ScanNext(fn, i - 1);
    ContextLeaves(ScanTo(fn, i - 1), fn.code[i - 1], Off(fn.code, i - 1), Off(fn.code, q));
  }

  lemma {:induction false} OffGrows(code: seq<Ins>, i: nat, j: nat)
    requires i < j <= |code|
    ensures Off(code, i) < Off(code, j)
  {
    hide Off;
    OffMonotone(code, i, j);
  }

  /** Once its last JMP is passed, a table is never touched again. */
  lemma {:induction false} TableKept(fn: Function, q: nat, n: nat, i: nat)
    requires q + 1 + n < i <= |fn.code| && fn.code[q].JmpP?
    requires forall k :: q < k < q + 1 + n ==> fn.code[k].Jmp?
    requires !fn.code[q + 1 + n].Jmp?
    ensures TableCollected(ScanTo(fn, i).b, Off(fn.code, q), n)
    decreases i
  {
    hide ScanTo, ScanIns, TableCollected, Off;
    if i == q + 2 + n {
      TableGrows(fn, q, n);
    } else {
      TableKept(fn, q, n, i - 1);
      ContextLeft(fn, q, q + 1 + n, i - 1);
    }
    ScanNext(fn, i - 1);
    ScanOutsideTable(ScanTo(fn, i - 1), fn.code[i - 1], Off(fn.code, i - 1), Off(fn.code, q), n);
  }

  lemma {:induction false} TableJumps(code: seq<Ins>, i: nat)
    requires i <= |code|
    ensures i + TableSize(code, i) <= |code|
    ensures forall k :: i <= k < i + TableSize(code, i) ==> code[k].Jmp?
    ensures i + TableSize(code, i) < |code| ==> !code[i + TableSize(code, i)].Jmp?
    decreases |code| - i
  {
    if i < |code| && code[i].Jmp? {
      TableJumps(code, i + 1);
    }
  }

  lemma {:induction false} TableOffsets(code: seq<Ins>, q: nat, k: nat)
    requires q + 1 + k <= |code| && code[q].JmpP?
    requires forall j :: q < j < q + 1 + k ==> code[j].Jmp?
    ensures Off(code, q + 1 + k) == Off(code, q) + 1 + 2 * k
  {
    if k > 0 {
      TableOffsets(code, q, k - 1);
    }
  }

  /** Jump tables dispatch as the VM does, however long they are and whatever other switches the code has: entry k of
      the table of a JMPP is the block of the instruction at JMPP offset + 1 + 2k. */
  lemma {:induction false} JumpTableExact(fn: Function, q: nat)
    requires q < |fn.code| && fn.code[q].JmpP?
    ensures TableCollected(Labels(fn), Off(fn.code, q), TableSize(fn.code, q + 1))
  {
    var n := TableSize(fn.code, q + 1);
    TableJumps(fn.code, q + 1);
    if q + 1 + n == |fn.code| {
      TableGrows(fn, q, n);
    } else {
      TableKept(fn, q, n, |fn.code|);
    }
  }
}
