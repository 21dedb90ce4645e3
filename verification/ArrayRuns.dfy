/** Any run of operations on any number of arrays of handles: no object is touched after its last reference, and every
    count is the outside references plus the slots that hold the object. */
module ArrayRuns {
  import opened Words
  import opened References
  import opened ScriptArrays

  /** The objects with their counts, and everything that holds handles: arrays, and list buffers not yet consumed. */
  datatype Heap = Heap(refs: Refs, holders: seq<seq<int>>)

  datatype ArrayOp =
    | SetValueOp(a: nat, i: nat, v: int)
    | InsertOp(a: nat, i: nat, v: int)
    | InsertArrayOp(a: nat, i: nat, b: nat)
    | ResizeOp(a: nat, delta: int, at: nat)
    | RemoveRangeOp(a: nat, start: nat, count: nat)
    | AssignOp(a: nat, b: nat)
    | RearrangeOp(a: nat, items: seq<int>)  // Sort and Reverse
    | DestroyOp(a: nat)
    | FromListOp(a: nat)                    // the buffer at a becomes a new array

  const HANDLE_SIZE: nat := 8

  predicate OpOk(h: Heap, op: ArrayOp) {
    && op.a < |h.holders|
    && (op.InsertArrayOp? || op.AssignOp? ==> op.b < |h.holders|)
    && (op.SetValueOp? || op.InsertOp? ==> op.v == 0 || Count(h.refs, op.v) >= 1)
    && (op.RearrangeOp? ==> multiset(op.items) == multiset(h.holders[op.a]))
  }

  function EffectOf(h: Heap, op: ArrayOp): (e: Effect)
    requires OpOk(h, op) && !op.FromListOp?
    ensures |e.taken| == |e.dropped|
  {
    var s := h.holders[op.a];
    match op
    case SetValueOp(_, i, v) => WithValue(s, i, v)
    case InsertOp(_, i, v) => WithInserted(s, i, v, HANDLE_SIZE)
    case InsertArrayOp(a, i, b) => WithArrayInserted(s, i, h.holders[b], a == b, HANDLE_SIZE)
    case ResizeOp(_, delta, at) => Resized(s, delta, at, HANDLE_SIZE)
    case RemoveRangeOp(_, start, count) => Removed(s, start, count)
    case AssignOp(a, b) => if a == b then Unchanged(s) else Assigned(s, h.holders[b], HANDLE_SIZE)
    case RearrangeOp(_, items) => Effect(items, [], [])
    case DestroyOp(_) => Destroyed(s)
    case FromListOp(_) => assert false; Unchanged(s)
  }

  /** None where an object would be used after its last reference went. */
  function StepHeap(h: Heap, op: ArrayOp): Option<Heap>
    requires OpOk(h, op)
  {
    if op.FromListOp? then
      var s := h.holders[op.a];
      if AllocationFits(HANDLE_SIZE, |s|) then Some(h.(holders := h.holders[op.a := Nulls(|s|)] + [s]))
      else Some(h.(holders := h.holders + [[]]))
    else
      var e := EffectOf(h, op);
      match SwapAll(h.refs, e.taken, e.dropped)
      case None => None
      case Some(refs) => Some(Heap(refs, h.holders[op.a := e.items]))
  }

  function HeldBy(holders: seq<seq<int>>, o: int): nat {
    if holders == [] then 0 else HeldBy(holders[..|holders| - 1], o) + Held(holders[|holders| - 1], o)
  }

  /** Each count is the outside references plus the slots that hold the object. */
  ghost predicate Conserved(h: Heap, outside: Refs) {
    forall o :: o != 0 ==> Count(h.refs, o) == Count(outside, o) + HeldBy(h.holders, o)
  }

  lemma {:induction false} HeldByUpdate(holders: seq<seq<int>>, a: nat, items: seq<int>, o: int)
    requires a < |holders|
    ensures HeldBy(holders[a := items], o) + Held(holders[a], o) == HeldBy(holders, o) + Held(items, o)
  {
    hide Held;
    var n := |holders| - 1;
    if a < n {
      HeldByUpdate(holders[..n], a, items, o);
      assert holders[a := items][..n] == holders[..n][a := items];
    } else {
      assert holders[a := items][..n] == holders[..n];
    }
  }

  lemma {:induction false} HeldByOne(holders: seq<seq<int>>, a: nat, o: int)
    requires a < |holders|
    ensures Held(holders[a], o) <= HeldBy(holders, o)
  {
    HeldByUpdate(holders, a, [], o);
    assert Held([], o) == 0;
  }

  lemma {:induction false} HeldByTwo(holders: seq<seq<int>>, a: nat, b: nat, o: int)
    requires a < |holders| && b < |holders| && a != b
    ensures Held(holders[a] + holders[b], o) <= HeldBy(holders, o)
  {
    HeldByUpdate(holders, a, [], o);
    HeldByOne(holders[a := []], b, o);
    HeldConcat(holders[a], holders[b], o);
    assert Held([], o) == 0;
  }

  lemma {:induction false} ArrayBacked(h: Heap, outside: Refs, a: nat)
    requires Conserved(h, outside) && a < |h.holders|
    ensures Backed(h.refs, h.holders[a])
  {
    forall o | o != 0
      ensures Held(h.holders[a], o) <= Count(h.refs, o)
    {
      HeldByOne(h.holders, a, o);
    }
  }

  lemma {:induction false} ArraysBacked(h: Heap, outside: Refs, a: nat, b: nat)
    requires Conserved(h, outside) && a < |h.holders| && b < |h.holders| && a != b
    ensures Backed(h.refs, h.holders[a] + h.holders[b])
  {
    forall o | o != 0
      ensures Held(h.holders[a] + h.holders[b], o) <= Count(h.refs, o)
    {
      HeldByTwo(h.holders, a, b, o);
    }
  }

  // ---------- no effect touches an object that is gone

  lemma {:induction false} HeldPart(s: seq<int>, i: nat, j: nat, o: int)
    requires i <= j <= |s|
    ensures Held(s[i..j], o) <= Held(s, o)
  {
    assert s == s[..i] + s[i..j] + s[j..];
  }

  /** Giving up part of the slots. */
  lemma {:induction false} DropSafe(refs: Refs, s: seq<int>, i: nat, j: nat)
    requires i <= j <= |s| && Backed(refs, s)
    ensures SwapAll(refs, Nulls(j - i), s[i..j]).Some?
  {
    forall o | o != 0
      ensures Held(s[i..j], o) <= Count(refs, o) && o !in Nulls(j - i)
    {
      HeldPart(s, i, j, o);
      HeldNulls(j - i, o);
    }
    SwapAllSafe(refs, Nulls(j - i), s[i..j]);
  }

  lemma {:induction false} ResizedSafe(refs: Refs, s: seq<int>, delta: int, at: nat)
    requires Backed(refs, s)
    ensures
      var e := Resized(s, delta, at, HANDLE_SIZE);
      SwapAll(refs, e.taken, e.dropped).Some?
  {
    if delta < 0 {
      var d := Min(0 - delta, |s|);
      var a := Min(at, |s| - d);
      DropSafe(refs, s, a, a + d);
    }
  }

  lemma {:induction false} RemovedSafe(refs: Refs, s: seq<int>, start: nat, count: nat)
    requires Backed(refs, s)
    ensures
      var e := Removed(s, start, count);
      SwapAll(refs, e.taken, e.dropped).Some?
  {
    if start <= |s| {
      DropSafe(refs, s, start, start + Min(count, |s| - start));
    }
  }

  lemma {:induction false} WithValueSafe(refs: Refs, s: seq<int>, i: nat, v: int)
    requires Backed(refs, s) && (v == 0 || Count(refs, v) >= 1)
    ensures
      var e := WithValue(s, i, v);
      SwapAll(refs, e.taken, e.dropped).Some?
  {
    if i < |s| {
      SetSafe(refs, s, i, v);
    }
  }

  /** Values that have a reference besides those of the slots can be assigned to the slots. */
  lemma {:induction false} OverwrittenSafe(refs: Refs, s: seq<int>, i: nat, t: seq<int>)
    requires Backed(refs, s)
    requires forall o :: o != 0 && o in t && i < |s| ==> Count(refs, o) > Held(s[i..i + Min(|t|, |s| - i)], o)
    ensures
      var e := Overwritten(s, i, t);
      SwapAll(refs, e.taken, e.dropped).Some?
  {
    if i < |s| {
      var c := Min(|t|, |s| - i);
      forall o | o != 0
        ensures Held(s[i..i + c], o) <= Count(refs, o)
      {
        HeldPart(s, i, i + c, o);
      }
      SwapAllSafe(refs, t[..c], s[i..i + c]);
    }
  }

  lemma {:induction false} OverwrittenByOther(refs: Refs, s: seq<int>, i: nat, t: seq<int>)
    requires Backed(refs, s + t)
    ensures
      var e := Overwritten(s, i, t);
      SwapAll(refs, e.taken, e.dropped).Some?
  {
    BackedPart(refs, s, t);
    forall o | o != 0 && o in t && i < |s|
      ensures Count(refs, o) > Held(s[i..i + Min(|t|, |s| - i)], o)
    {
      HeldPart(s, i, i + Min(|t|, |s| - i), o);
      HeldConcat(s, t, o);
      assert Held(t, o) >= 1;
    }
    OverwrittenSafe(refs, s, i, t);
  }

  lemma {:induction false} ThenSafe(refs: Refs, e: Effect, f: Effect)
    requires |e.taken| == |e.dropped| && |f.taken| == |f.dropped|
    requires SwapAll(refs, e.taken, e.dropped).Some?
    requires SwapAll(SwapAll(refs, e.taken, e.dropped).value, f.taken, f.dropped).Some?
    ensures SwapAll(refs, Then(e, f).taken, Then(e, f).dropped).Some?
  {
    SwapAllThen(refs, e.taken, e.dropped, f.taken, f.dropped);
  }

  lemma {:induction false} WithInsertedSafe(refs: Refs, s: seq<int>, i: nat, v: int)
    requires Backed(refs, s) && (v == 0 || Count(refs, v) >= 1)
    ensures
      var e := WithInserted(s, i, v, HANDLE_SIZE);
      SwapAll(refs, e.taken, e.dropped).Some? && Balanced(s, e)
  {
    hide Backed, Balanced, SwapAll;
    UnchangedBalanced(s);
    NoSwaps(refs);
    if i <= |s| {
      var r := Resized(s, 1, i, HANDLE_SIZE);
      ResizedBalanced(s, 1, i, HANDLE_SIZE);
      BackedAfter(refs, refs, s, r);
      WithValueSafe(refs, r.items, i, v);
      WithValueBalanced(r.items, i, v);
      ThenSafe(refs, r, WithValue(r.items, i, v));
      ThenBalanced(s, r, WithValue(r.items, i, v));
    }
  }

  lemma {:induction false} AssignedSafe(refs: Refs, s: seq<int>, t: seq<int>)
    requires Backed(refs, s + t)
    ensures
      var e := Assigned(s, t, HANDLE_SIZE);
      SwapAll(refs, e.taken, e.dropped).Some? && Balanced(s, e)
  {
    hide Backed, Balanced, SwapAll, Overwritten, Resized;
    BackedPart(refs, s, t);
    var r := Resized(s, |t| - |s|, 0xFFFF_FFFF, HANDLE_SIZE);
    ResizedSafe(refs, s, |t| - |s|, 0xFFFF_FFFF);
    ResizedBalanced(s, |t| - |s|, 0xFFFF_FFFF, HANDLE_SIZE);
    var refs' := SwapAll(refs, r.taken, r.dropped).value;
    StillBacked(refs, refs', s, r, t);
    OverwrittenByOther(refs', r.items, 0, t);
    OverwrittenBalanced(r.items, 0, t);
    ThenSafe(refs, r, Overwritten(r.items, 0, t));
    ThenBalanced(s, r, Overwritten(r.items, 0, t));
  }

  lemma {:induction false} OtherInsertedSafe(refs: Refs, s: seq<int>, i: nat, t: seq<int>)
    requires Backed(refs, s + t)
    ensures
      var e := WithArrayInserted(s, i, t, false, HANDLE_SIZE);
      SwapAll(refs, e.taken, e.dropped).Some? && Balanced(s, e)
  {
    hide Backed, Balanced, SwapAll, Overwritten;
    UnchangedBalanced(s);
    NoSwaps(refs);
    if i <= |s| {
      var r := Resized(s, |t|, i, HANDLE_SIZE);
      ResizedBalanced(s, |t|, i, HANDLE_SIZE);
      StillBacked(refs, refs, s, r, t);
      OverwrittenByOther(refs, r.items, i, t);
      OverwrittenBalanced(r.items, i, t);
      ThenSafe(refs, r, Overwritten(r.items, i, t));
      ThenBalanced(s, r, Overwritten(r.items, i, t));
    }
  }

  /** An array that cannot grow copies a front part over a part behind it. */
  lemma {:induction false} FrontCopyBacked(refs: Refs, s: seq<int>, i: nat, c: nat, o: int)
    requires Backed(refs, s) && i + c <= |s| && o != 0 && o in s[..i]
    ensures Count(refs, o) > Held(s[i..i + c], o)
  {
    assert o in multiset(s[..i]);
    assert s == s[..i] + s[i..i + c] + s[i + c..];
    assert Held(s, o) >= Held(s[..i], o) + Held(s[i..i + c], o);
  }

  /** An array that has grown copies itself to empty slots. */
  lemma {:induction false} GrownCopyBacked(refs: Refs, s: seq<int>, r: seq<int>, i: nat, o: int)
    requires Backed(refs, s) && i <= |s| && o != 0 && o in s
    requires r == s[..i] + Nulls(|s|) + s[i..]
    ensures Count(refs, o) > Held(r[i..i + |s|], o)
  {
    assert o in multiset(s);
    assert r[i..i + |s|] == Nulls(|s|);
    HeldNulls(|s|, o);
  }

  /** The values an array copies to itself have slots outside the ones that are written. */
  lemma {:induction false} SelfCopyBacked(refs: Refs, s: seq<int>, i: nat, o: int)
    requires Backed(refs, s) && i <= |s| && o != 0
    ensures
      var r := Resized(s, |s|, i, HANDLE_SIZE).items;
      var t := if AllocationFits(HANDLE_SIZE, |s| + |s|) then s else s[..i];
      o in t && i < |r| ==> Count(refs, o) > Held(r[i..i + Min(|t|, |r| - i)], o)
  {
    hide Held, Backed, Count;
    var fits := AllocationFits(HANDLE_SIZE, |s| + |s|);
    var r := Resized(s, |s|, i, HANDLE_SIZE).items;
    var t := if fits then s else s[..i];
    if o in t && i < |r| {
      if fits {
        GrownCopyBacked(refs, s, r, i, o);
      } else {
        FrontCopyBacked(refs, s, i, Min(|t|, |r| - i), o);
      }
    }
  }

  lemma {:induction false} SelfInsertedSafe(refs: Refs, s: seq<int>, i: nat)
    requires Backed(refs, s)
    ensures
      var e := WithArrayInserted(s, i, s, true, HANDLE_SIZE);
      SwapAll(refs, e.taken, e.dropped).Some? && Balanced(s, e)
  {
    hide Backed, Balanced, SwapAll, Overwritten, Resized, AllocationFits, Held, Count;
    UnchangedBalanced(s);
    NoSwaps(refs);
    if i <= |s| {
      var r := Resized(s, |s|, i, HANDLE_SIZE);
      var t := if AllocationFits(HANDLE_SIZE, |s| + |s|) then s else s[..i];
      GrowTakesNothing(s, |s|, i, HANDLE_SIZE);
      ResizedBalanced(s, |s|, i, HANDLE_SIZE);
      BackedAfter(refs, refs, s, r);
      forall o | o != 0 && o in t && i < |r.items|
        ensures Count(refs, o) > Held(r.items[i..i + Min(|t|, |r.items| - i)], o)
      {
        SelfCopyBacked(refs, s, i, o);
      }
      OverwrittenSafe(refs, r.items, i, t);
      OverwrittenBalanced(r.items, i, t);
      ThenSafe(refs, r, Overwritten(r.items, i, t));
      ThenBalanced(s, r, Overwritten(r.items, i, t));
    }
  }

  lemma {:induction false} EffectSafe(h: Heap, outside: Refs, op: ArrayOp)
    requires Conserved(h, outside) && OpOk(h, op) && !op.FromListOp?
    ensures
      var e := EffectOf(h, op);
      SwapAll(h.refs, e.taken, e.dropped).Some? && Balanced(h.holders[op.a], e)
  {
    hide Conserved, Backed, SwapAll, Overwritten, Resized, Removed, WithInserted, WithArrayInserted, Assigned,
      WithValue;
    var refs, s := h.refs, h.holders[op.a];
    ArrayBacked(h, outside, op.a);
    NoSwaps(refs);
    match op
    case SetValueOp(_, i, v) =>
      WithValueSafe(refs, s, i, v);
      WithValueBalanced(s, i, v);
    case InsertOp(_, i, v) => WithInsertedSafe(refs, s, i, v);
    case InsertArrayOp(a, i, b) =>
      if a == b {
        SelfInsertedSafe(refs, s, i);
      } else {
        ArraysBacked(h, outside, a, b);
        OtherInsertedSafe(refs, s, i, h.holders[b]);
      }
    case ResizeOp(_, delta, at) =>
      ResizedSafe(refs, s, delta, at);
      ResizedBalanced(s, delta, at, HANDLE_SIZE);
    case RemoveRangeOp(_, start, count) =>
      RemovedSafe(refs, s, start, count);
      RemovedBalanced(s, start, count);
    case AssignOp(a, b) =>
      if a == b {
        UnchangedBalanced(s);
      } else {
        ArraysBacked(h, outside, a, b);
        AssignedSafe(refs, s, h.holders[b]);
      }
    case RearrangeOp(_, items) =>
    case DestroyOp(_) =>
      assert s[0..|s|] == s;
      DropSafe(refs, s, 0, |s|);
      NothingHeld(|s|);
  }

  lemma {:induction false} EmptyHolds(holders: seq<seq<int>>)
    ensures forall o :: o != 0 ==> HeldBy(holders + [[]], o) == HeldBy(holders, o)
  {
    assert (holders + [[]])[..|holders|] == holders;
  }

  lemma {:induction false} FromListConserves(h: Heap, outside: Refs, op: ArrayOp)
    requires Conserved(h, outside) && OpOk(h, op) && op.FromListOp?
    ensures StepHeap(h, op).Some? && Conserved(StepHeap(h, op).value, outside)
  {
    hide Held, AllocationFits;
    var s := h.holders[op.a];
    forall o | o != 0
      ensures HeldBy(h.holders[op.a := Nulls(|s|)] + [s], o) == HeldBy(h.holders, o)
    {
      HeldByUpdate(h.holders, op.a, Nulls(|s|), o);
      NothingHeld(|s|);
      var rest := h.holders[op.a := Nulls(|s|)];
      assert (rest + [s])[..|rest|] == rest;
    }
    EmptyHolds(h.holders);
  }

  lemma {:induction false} StepConserves(h: Heap, outside: Refs, op: ArrayOp)
    requires Conserved(h, outside) && OpOk(h, op)
    ensures StepHeap(h, op).Some? && Conserved(StepHeap(h, op).value, outside)
  {
    hide Held, SwapAll, EffectOf;
    if op.FromListOp? {
      FromListConserves(h, outside, op);
    } else {
      var e := EffectOf(h, op);
      EffectSafe(h, outside, op);
      SwapAllMoves(h.refs, e.taken, e.dropped);
      forall o | o != 0
        ensures Count(StepHeap(h, op).value.refs, o) == Count(outside, o) + HeldBy(StepHeap(h, op).value.holders, o)
      {
        HeldByUpdate(h.holders, op.a, e.items, o);
      }
    }
  }

  /** Operations that may be run one after the other. */
  ghost predicate RunOk(h: Heap, ops: seq<ArrayOp>)
    decreases |ops|
  {
    ops != [] ==> OpOk(h, ops[0]) && (StepHeap(h, ops[0]).Some? ==> RunOk(StepHeap(h, ops[0]).value, ops[1..]))
  }

  function RunHeap(h: Heap, ops: seq<ArrayOp>): Option<Heap>
    requires RunOk(h, ops)
    decreases |ops|
  {
    if ops == [] then Some(h)
    else
      match StepHeap(h, ops[0])
      case None => None
      case Some(h') => RunHeap(h', ops[1..])
  }

  /** Over any run, no object is used after its last reference went, and every count stays the number of outside
      references plus the number of slots that hold the object. */
  lemma {:induction false} RunConserves(h: Heap, outside: Refs, ops: seq<ArrayOp>)
    requires Conserved(h, outside) && RunOk(h, ops)
    ensures RunHeap(h, ops).Some? && Conserved(RunHeap(h, ops).value, outside)
    decreases |ops|
  {
    if ops != [] {
      hide Conserved, StepHeap;
      StepConserves(h, outside, ops[0]);
      RunConserves(StepHeap(h, ops[0]).value, outside, ops[1..]);
    }
  }

  /** When every array has been destroyed, the outside references are all that is left. */
  lemma {:induction false} NothingLeaks(h: Heap, outside: Refs, o: int)
    requires Conserved(h, outside) && o != 0 && forall a :: 0 <= a < |h.holders| ==> h.holders[a] == []
    ensures Count(h.refs, o) == Count(outside, o)
  {
    NoneHeld(h.holders, o);
  }

  lemma {:induction false} NoneHeld(holders: seq<seq<int>>, o: int)
    requires forall a :: 0 <= a < |holders| ==> holders[a] == []
    ensures HeldBy(holders, o) == 0
  {
    if holders != [] {
      NoneHeld(holders[..|holders| - 1], o);
    }
  }
}
