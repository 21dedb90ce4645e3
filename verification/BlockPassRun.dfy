/** The second pass over a whole function: every state it goes through, how labels are entered, and the blocks it ends
    with. */
module BlockPassRun {
  import opened Words
  import opened Signatures
  import opened Bytecode
  import opened Machine
  import opened Blocks
  import opened Translation
  import opened LabelPass
  import opened BlockPass

  /** The builder once instruction i has been entered: after the label, before its code. */
  function EnteredAt(fn: Function, sigs: seq<Signature>, i: nat): Option<Builder>
    requires i < |fn.code|
  {
    match StateAt(fn, sigs, i)
    case None => None
    case Some(b) => if b.cur < |b.blocks| then EnterLabel(fn, b, Off(fn.code, i)) else None
  }

  lemma {:induction false} StateNext(fn: Function, sigs: seq<Signature>, i: nat)
    returns (b: Builder, w: Builder, b': Builder)
    requires i < |fn.code| && StateAt(fn, sigs, i + 1).Some?
    ensures StateAt(fn, sigs, i) == Some(b) && b.cur < |b.blocks|
    ensures EnterLabel(fn, b, Off(fn.code, i)) == Some(w) && w.cur < |w.blocks| && WithinBounds(fn, w.sp)
    ensures EnteredAt(fn, sigs, i) == Some(w)
    ensures Emit(fn, sigs, w, fn.code[i], Off(fn.code, i)) == Some(b')
    ensures StateAt(fn, sigs, i + 1) == Some(b')
  {
    b := StateAt(fn, sigs, i).value;
    w := EnterLabel(fn, b, Off(fn.code, i)).value;
    b' := StateAt(fn, sigs, i + 1).value;
  }

  lemma {:induction false} StateBefore(fn: Function, sigs: seq<Signature>, i: nat, j: nat)
    requires i <= j <= |fn.code| && StateAt(fn, sigs, j).Some?
    ensures StateAt(fn, sigs, i).Some?
    decreases j
  {
    hide TranslateIns, Labels;
    if i < j {
      StateBefore(fn, sigs, i, j - 1);
    }
  }

  /** Labels of well-formed code are the offsets of instructions. */
  lemma {:induction false} LabelOnBoundary(fn: Function, functions: nat, offset: int) returns (i: nat)
    requires WellFormed(fn, functions) && offset in Labels(fn).jumpMap
    ensures i < |fn.code| && offset == Off(fn.code, i)
  {
    LabelsExact(fn, offset);
    var k :| 0 <= k < |fn.code| && MakesLabel(fn.code, k, offset);
    assert InstructionOk(fn, functions, k);
    var ins := fn.code[k];
    if IsBranch(ins) && offset == BranchTarget(ins, Off(fn.code, k)) {
      i := IndexOf(fn.code, offset).value;
    } else if IsConditional(ins) && offset == Off(fn.code, k) + 2 {
      i := k + 1;
    } else {
      i := k;
    }
  }

  /** Where control cannot fall through, the next instruction has a label. */
  lemma {:induction false} LabelAfterEnd(fn: Function, functions: nat, i: nat)
    requires WellFormed(fn, functions) && 0 < i < |fn.code| && Ends(fn.code[i - 1])
    ensures Off(fn.code, i) in Labels(fn).jumpMap
  {
    assert InstructionOk(fn, functions, i - 1);
    if IsConditional(fn.code[i - 1]) {
      LabelInserted(fn, i - 1, Off(fn.code, i));
    } else {
      LabelsExact(fn, Off(fn.code, i));
    }
  }

  lemma {:induction false} ThresholdMoves(b: Builder, labels: Builder, t: int, t': int, open: bool)
    requires BlocksOk(b, labels, t, open) && t <= t'
    requires forall off :: off in b.jumpMap ==> !(t <= off < t')
    ensures BlocksOk(b, labels, t', open)
  {
    forall k
      ensures Pending(b, t, k) <==> Pending(b, t', k)
    {
      if Pending(b, t, k) {
        var off :| off in b.jumpMap && off >= t && b.jumpMap[off] == k;
        assert off >= t';
      }
    }
  }

  lemma {:induction false} JumpMapsAgree(b: Builder, labels: Builder, t: int, open: bool)
    requires BlocksOk(b, labels, t, open)
    ensures b.jumpMap == labels.jumpMap && b.switchMap == labels.switchMap && b.cur < |b.blocks|
  {
  }

  lemma {:induction false} NoLabelWithin(fn: Function, functions: nat, i: nat, offset: int)
    requires WellFormed(fn, functions) && i < |fn.code| && offset in Labels(fn).jumpMap
    ensures !(Off(fn.code, i) + 1 <= offset < Off(fn.code, i + 1))
  {
    var j := LabelOnBoundary(fn, functions, offset);
    if j < i {
      OffMonotone(fn.code, j, i);
    } else if i + 1 < j {
      OffMonotone(fn.code, i + 1, j);
    }
  }

  ghost predicate StateOpen(fn: Function, i: nat)
    requires i <= |fn.code|
  {
    i == 0 || !Ends(fn.code[i - 1])
  }

  lemma {:induction false} InitialBlocksOk(fn: Function, functions: nat)
    requires WellFormed(fn, functions)
    ensures BlocksOk(Labels(fn), Labels(fn), 0, true)
  {
    ScanLabelBlocks(fn, |fn.code|);
    var b := Labels(fn);
    hide ScanTo;
    forall k | 0 <= k < |b.blocks| && k != b.cur
      ensures Pending(b, 0, k)
    {
      var off := LabelOfBlock(fn, |fn.code|, k);
      var i := LabelOnBoundary(fn, functions, off);
    }
  }

  /** Every block of the first pass but the entry block belongs to a label. */
  lemma {:induction false} LabelOfBlock(fn: Function, i: nat, k: nat) returns (off: int)
    requires i <= |fn.code| && 0 < k < |ScanTo(fn, i).b.blocks|
    ensures off in ScanTo(fn, i).b.jumpMap && ScanTo(fn, i).b.jumpMap[off] == k
  {
    if k < |ScanTo(fn, i - 1).b.blocks| {
      off := LabelOfBlock(fn, i - 1, k);
    } else {
      var b, ins, offset := ScanTo(fn, i - 1).b, fn.code[i - 1], Off(fn.code, i - 1);
      var first := if IsConditional(ins) then offset + 2 else BranchTarget(ins, offset);
      var second := if IsConditional(ins) then BranchTarget(ins, offset) else offset;
      off := if first !in b.jumpMap && k == |b.blocks| then first else second;
    }
  }

  /** Between two instructions the blocks are in order. */
  lemma {:induction false} StateBlocksOk(fn: Function, functions: nat, sigs: seq<Signature>, i: nat)
    requires WellFormed(fn, functions) && i <= |fn.code| && StateAt(fn, sigs, i).Some?
    ensures BlocksOk(StateAt(fn, sigs, i).value, Labels(fn), Off(fn.code, i), StateOpen(fn, i))
  {
    hide BlocksOk, StateAt, WellFormed, Labels, Extends, EnterLabel, Emit;
    if i == 0 {
      InitialBlocksOk(fn, functions);
      InitialState(fn, sigs);
    } else {
      var b, w, b' := StateNext(fn, sigs, i - 1);
      StateBlocksOk(fn, functions, sigs, i - 1);
      EnteredBlocksOk(fn, functions, sigs, i - 1);
      var t := Off(fn.code, i - 1);
      EmitKeeps(fn, sigs, w, Labels(fn), t + 1, fn.code[i - 1], t);
      JumpMapsAgree(b', Labels(fn), t + 1, !Ends(fn.code[i - 1]));
      forall off | off in b'.jumpMap
        ensures !(t + 1 <= off < Off(fn.code, i))
      {
        NoLabelWithin(fn, functions, i - 1, off);
      }
      ThresholdMoves(b', Labels(fn), t + 1, Off(fn.code, i), !Ends(fn.code[i - 1]));
    }
  }

  lemma {:induction false} InitialState(fn: Function, sigs: seq<Signature>)
    ensures StateAt(fn, sigs, 0) == Some(Labels(fn))
  {
  }

  /** Once a label is entered its block is current and empty, and the current block has no terminator. */
  lemma {:induction false} EnteredBlocksOk(fn: Function, functions: nat, sigs: seq<Signature>, i: nat)
    requires WellFormed(fn, functions) && i < |fn.code| && EnteredAt(fn, sigs, i).Some?
    requires
      StateAt(fn, sigs, i).Some? ==>
      BlocksOk(StateAt(fn, sigs, i).value, Labels(fn), Off(fn.code, i), StateOpen(fn, i))
    ensures BlocksOk(EnteredAt(fn, sigs, i).value, Labels(fn), Off(fn.code, i) + 1, true)
    ensures Extends(StateAt(fn, sigs, i).value, EnteredAt(fn, sigs, i).value)
    ensures Off(fn.code, i) in Labels(fn).jumpMap ==>
      var w := EnteredAt(fn, sigs, i).value;
      w.cur == Labels(fn).jumpMap[Off(fn.code, i)] && w.cur < |w.blocks| && w.blocks[w.cur] == []
  {
    hide BlocksOk, StateAt, WellFormed, Labels, Extends, EnterLabel;
    var b := StateAt(fn, sigs, i).value;
    if !StateOpen(fn, i) {
      LabelAfterEnd(fn, functions, i);
    }
    JumpMapsAgree(b, Labels(fn), Off(fn.code, i), StateOpen(fn, i));
    EnterKeeps(fn, b, Labels(fn), Off(fn.code, i), StateOpen(fn, i));
    JumpMapsAgree(EnteredAt(fn, sigs, i).value, Labels(fn), Off(fn.code, i) + 1, true);
  }

  /** How a label is entered: its block, still empty, becomes the current one; the block before gets exactly one branch
      to it if control can fall through, and nothing otherwise; and no other label shares the block. */
  lemma {:induction false} LabelEntered(fn: Function, functions: nat, sigs: seq<Signature>, i: nat)
    requires WellFormed(fn, functions) && i < |fn.code| && EnteredAt(fn, sigs, i).Some?
    requires Off(fn.code, i) in Labels(fn).jumpMap
    ensures StateAt(fn, sigs, i).Some?
    ensures
      var b, w, l := StateAt(fn, sigs, i).value, EnteredAt(fn, sigs, i).value, Labels(fn).jumpMap[Off(fn.code, i)];
      && w.cur == l < |w.blocks| && w.blocks[l] == []
      && b.cur < |b.blocks|
      && w.blocks == if StateOpen(fn, i) then b.blocks[b.cur := b.blocks[b.cur] + [Br(l)]] else b.blocks
    ensures forall off :: off in Labels(fn).jumpMap && off != Off(fn.code, i) ==>
      Labels(fn).jumpMap[off] != Labels(fn).jumpMap[Off(fn.code, i)]
  {
    hide StateAt, WellFormed, Labels, Extends, Pending;
    StateBlocksOk(fn, functions, sigs, i);
    EnteredBlocksOk(fn, functions, sigs, i);
  }

  /** Later states keep the code of earlier ones as a prefix. */
  lemma {:induction false} StateExtends(fn: Function, functions: nat, sigs: seq<Signature>, i: nat, j: nat)
    requires WellFormed(fn, functions) && i <= j <= |fn.code| && StateAt(fn, sigs, j).Some?
    ensures StateAt(fn, sigs, i).Some?
    ensures Extends(StateAt(fn, sigs, i).value, StateAt(fn, sigs, j).value)
    decreases j
  {
    hide BlocksOk, StateAt, WellFormed, Labels, Extends, EnterLabel, Emit;
    if i == j {
      ExtendsReflexive(StateAt(fn, sigs, i).value);
    } else {
      var b, w, b' := StateNext(fn, sigs, j - 1);
      StateExtends(fn, functions, sigs, i, j - 1);
      StateBlocksOk(fn, functions, sigs, j - 1);
      EnteredBlocksOk(fn, functions, sigs, j - 1);
      EmitKeeps(fn, sigs, w, Labels(fn), Off(fn.code, j - 1) + 1, fn.code[j - 1], Off(fn.code, j - 1));
      ExtendsTransitive(StateAt(fn, sigs, i).value, b, w);
      ExtendsTransitive(StateAt(fn, sigs, i).value, w, b');
    }
  }

  /** The translated function is well formed: every block, reachable or not, has exactly one terminator, placed last. */
  lemma {:induction false} BlocksWellFormed(fn: Function, functions: nat, sigs: seq<Signature>)
    requires WellFormed(fn, functions) && Translate(fn, sigs).Some?
    ensures forall k :: 0 <= k < |Translate(fn, sigs).value.blocks| ==> Closed(Translate(fn, sigs).value.blocks[k])
  {
    var n := |fn.code|;
    var b := StateAt(fn, sigs, n).value;
    StateBlocksOk(fn, functions, sigs, n);
    forall k | 0 <= k < |b.blocks|
      ensures Closed(b.blocks[k])
    {
      if Pending(b, Off(fn.code, n), k) {
        var off :| off in b.jumpMap && off >= Off(fn.code, n) && b.jumpMap[off] == k;
        var i := LabelOnBoundary(fn, functions, off);
        OffMonotone(fn.code, i, n);
      }
    }
  }

  /** Every block a branch, a fall-through or a jump table needs was created by the first pass. */
  lemma {:induction false} LookupsSucceed(fn: Function, functions: nat, i: nat)
    requires WellFormed(fn, functions) && i < |fn.code|
    ensures IsBranch(fn.code[i]) ==> BranchTarget(fn.code[i], Off(fn.code, i)) in Labels(fn).jumpMap
    ensures IsConditional(fn.code[i]) ==> Off(fn.code, i) + 2 in Labels(fn).jumpMap
    ensures fn.code[i].JmpP? ==> (Off(fn.code, i) in Labels(fn).switchMap <==> TableSize(fn.code, i + 1) > 0)
  {
    var offset := Off(fn.code, i);
    if IsBranch(fn.code[i]) {
      LabelInserted(fn, i, BranchTarget(fn.code[i], offset));
    }
    if IsConditional(fn.code[i]) {
      LabelInserted(fn, i, offset + 2);
    }
    if fn.code[i].JmpP? {
      JumpTableExact(fn, i);
    }
  }
}
