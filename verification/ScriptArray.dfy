/** The script array: a growable buffer of primitives or of handles, edited in place. What every operation does to the
    elements, and which references it takes and gives up, is a function of the old elements. */
module ScriptArrays {
  import opened Words
  import opened References

  /** What an operation leaves in the array, and the handles that slots took and dropped on the way, in order. */
  datatype Effect = Effect(items: seq<int>, taken: seq<int>, dropped: seq<int>)

  function Min(a: int, b: int): int {
    if a < b then a else b
  }

  /** The allocation for n elements, whose header takes 11 bytes before the first element, fits 32 bits. */
  predicate AllocationFits(elementSize: nat, n: nat) {
    11 + elementSize * n < 0x1_0000_0000
  }

  function Unchanged(s: seq<int>): Effect {
    Effect(s, [], [])
  }

  function Then(first: Effect, second: Effect): Effect {
    Effect(second.items, first.taken + second.taken, first.dropped + second.dropped)
  }

  /** Default elements come in, or elements go out, at the clamped position. */
  function Resized(s: seq<int>, delta: int, at: nat, elementSize: nat): (e: Effect)
    ensures |e.taken| == |e.dropped|
  {
    if delta < 0 then
      var d := Min(0 - delta, |s|);
      var a := Min(at, |s| - d);
      Effect(s[..a] + s[a + d..], Nulls(d), s[a..a + d])
    else if delta == 0 || !AllocationFits(elementSize, |s| + delta) then Unchanged(s)
    else
      var a := Min(at, |s|);
      Effect(s[..a] + Nulls(delta) + s[a..], [], [])
  }

  function Removed(s: seq<int>, start: nat, count: nat): (e: Effect)
    ensures |e.taken| == |e.dropped|
  {
    if start > |s| then Unchanged(s)
    else
      var c := Min(count, |s| - start);
      Effect(s[..start] + s[start + c..], Nulls(c), s[start..start + c])
  }

  function WithValue(s: seq<int>, i: nat, v: int): (e: Effect)
    ensures |e.taken| == |e.dropped|
  {
    if i < |s| then Effect(s[i := v], [v], [s[i]]) else Unchanged(s)
  }

  /** The values t are assigned to the slots from i on; slots past the end are skipped. */
  function Overwritten(s: seq<int>, i: nat, t: seq<int>): (e: Effect)
    ensures |e.taken| == |e.dropped|
  {
    if i >= |s| then Unchanged(s)
    else
      var c := Min(|t|, |s| - i);
      Effect(s[..i] + t[..c] + s[i + c..], t[..c], s[i..i + c])
  }

  function WithInserted(s: seq<int>, i: nat, v: int, elementSize: nat): (e: Effect)
    ensures |e.taken| == |e.dropped|
  {
    if i > |s| then Unchanged(s)
    else
      var r := Resized(s, 1, i, elementSize);
      Then(r, WithValue(r.items, i, v))
  }

  /** Inserting t at i. An array that is inserted into itself but cannot grow copies only what is before i. */
  function WithArrayInserted(s: seq<int>, i: nat, t: seq<int>, self: bool, elementSize: nat): (e: Effect)
    ensures |e.taken| == |e.dropped|
  {
    if i > |s| then Unchanged(s)
    else
      var r := Resized(s, |t|, i, elementSize);
      Then(r, Overwritten(r.items, i, if self && !AllocationFits(elementSize, |s| + |t|) then s[..i] else t))
  }

  function Assigned(s: seq<int>, t: seq<int>, elementSize: nat): (e: Effect)
    ensures |e.taken| == |e.dropped|
  {
    var r := Resized(s, |t| - |s|, 0xFFFF_FFFF, elementSize);
    Then(r, Overwritten(r.items, 0, t))
  }

  function Destroyed(s: seq<int>): (e: Effect)
    ensures |e.taken| == |e.dropped|
  {
    Effect([], Nulls(|s|), s)
  }

  function Reversed(s: seq<int>): (r: seq<int>)
    ensures |r| == |s| && forall k :: 0 <= k < |s| ==> r[k] == s[|s| - 1 - k]
  {
    seq(|s|, k requires 0 <= k < |s| => s[|s| - 1 - k])
  }

  // ---------- what the effects mean

  /** A value is spliced in exactly when the array may grow; an array that may not overwrites the element at i. */
  lemma {:induction false} InsertSplices(s: seq<int>, i: nat, v: int, elementSize: nat)
    requires i <= |s|
    ensures WithInserted(s, i, v, elementSize).items ==
      if AllocationFits(elementSize, |s| + 1) then s[..i] + [v] + s[i..]
      else if i < |s| then s[i := v] else s
    ensures WithInserted(s, i, v, elementSize).items == s[..i] + [v] + s[i..] <==> AllocationFits(elementSize, |s| + 1)
  {
    var r := Resized(s, 1, i, elementSize).items;
    if AllocationFits(elementSize, |s| + 1) {
      assert r[i := v] == s[..i] + [v] + s[i..];
    } else {
      assert |WithInserted(s, i, v, elementSize).items| == |s|;
    }
  }

  /** An array is spliced in, also into itself, exactly when there is room to grow or nothing to insert. */
  lemma {:induction false} InsertArraySplices(s: seq<int>, i: nat, t: seq<int>, self: bool, elementSize: nat)
    requires i <= |s| && (self ==> t == s)
    ensures WithArrayInserted(s, i, t, self, elementSize).items == s[..i] + t + s[i..] <==>
      (AllocationFits(elementSize, |s| + |t|) || t == [])
  {
    var r := WithArrayInserted(s, i, t, self, elementSize).items;
    if AllocationFits(elementSize, |s| + |t|) {
      assert r == s[..i] + t + s[i..];
    } else if t == [] {
      assert r == s == s[..i] + t + s[i..];
    } else {
      assert |r| == |s|;
    }
  }

  /** An array that may not grow has its elements overwritten from i on, with as much as there is room for; an array
      inserted into itself with its first i elements only. */
  lemma {:induction false} InsertArrayOverwrites(s: seq<int>, i: nat, t: seq<int>, self: bool, elementSize: nat)
    requires i <= |s| && !AllocationFits(elementSize, |s| + |t|)
    ensures
      var r, u := WithArrayInserted(s, i, t, self, elementSize).items, if self then s[..i] else t;
      |r| == |s| && forall k :: 0 <= k < |s| ==> r[k] == if i <= k < i + |u| then u[k - i] else s[k]
  {
    hide Overwritten, AllocationFits;
    OverwrittenMeans(s, i, if self then s[..i] else t);
    if t == [] {
      OverwriteStart(s, i, t);
    }
  }

  lemma {:induction false} AssignCopies(s: seq<int>, t: seq<int>, elementSize: nat)
    requires AllocationFits(elementSize, |t|)
    ensures Assigned(s, t, elementSize).items == t
  {
  }

  /** What resizing by delta at a position leaves: defaults come in, or elements go out, at the position or, where that
      is past the end, at the end. */
  predicate IsResized(s: seq<int>, delta: int, at: nat, elementSize: nat, r: seq<int>) {
    if delta >= 0 && AllocationFits(elementSize, |s| + delta) then
      if at <= |s| then r == s[..at] + Nulls(delta) + s[at..] else r == s + Nulls(delta)
    else if delta >= 0 then r == s
    else if |s| <= 0 - delta then r == []
    else if at <= |s| + delta then r == s[..at] + s[at - delta..]
    else r == s[..|s| + delta]
  }

  /** What resizing to n elements leaves: the first n, or all with defaults behind them. */
  predicate IsResizedTo(s: seq<int>, n: nat, elementSize: nat, r: seq<int>) {
    if !AllocationFits(elementSize, n) then r == s
    else if n <= |s| then r == s[..n]
    else r == s + Nulls(n - |s|)
  }

  lemma {:induction false} ResizedIs(s: seq<int>, delta: int, at: nat, elementSize: nat)
    ensures IsResized(s, delta, at, elementSize, Resized(s, delta, at, elementSize).items)
  {
    if delta == 0 && at <= |s| {
      assert s[..at] + [] + s[at..] == s;
    } else if delta == 0 {
      assert s + [] == s;
    } else if delta > 0 && at > |s| {
      assert s[..|s|] + Nulls(delta) + s[|s|..] == s + Nulls(delta);
    } else if delta < 0 && |s| > 0 - delta && at > |s| + delta {
      assert s[|s|..] == [];
    }
  }

  lemma {:induction false} ResizedToIs(s: seq<int>, n: nat, elementSize: nat)
    requires |s| < 0x8000_0000
    requires n <= |s| ==> AllocationFits(elementSize, n)
    ensures IsResizedTo(s, n, elementSize, Resized(s, n - |s|, 0xFFFF_FFFF, elementSize).items)
  {
    ResizedIs(s, n - |s|, 0xFFFF_FFFF, elementSize);
    assert s + [] == s && s[..|s|] == s;
  }

  lemma {:induction false} RefusedSize(s: seq<int>, n: nat, elementSize: nat)
    requires n > |s| && !AllocationFits(elementSize, n)
    ensures Resized(s, n - |s|, 0xFFFF_FFFF, elementSize) == Unchanged(s) && IsResizedTo(s, n, elementSize, s)
  {
  }

  /** The elements that go out are the ones that are released. */
  lemma {:induction false} ShrunkDrops(s: seq<int>, d: nat, at: nat, elementSize: nat)
    requires 0 < d
    ensures Resized(s, 0 - d, at, elementSize).dropped ==
      if d >= |s| then s else if at <= |s| - d then s[at..at + d] else s[|s| - d..]
  {
  }

  lemma {:induction false} RemovedMeans(s: seq<int>, start: nat, count: nat)
    ensures
      var e := Removed(s, start, count);
      if start >= |s| then e.items == s && e.dropped == []
      else if start + count <= |s| then
        e.items == s[..start] + s[start + count..] && e.dropped == s[start..start + count]
      else e.items == s[..start] && e.dropped == s[start..]
    ensures Removed(s, start, count).taken == Nulls(|Removed(s, start, count).dropped|)
  {
  }

  /** Assignment to a range of slots: the values where they fall, everything else as it was. */
  lemma {:induction false} OverwrittenMeans(s: seq<int>, i: nat, t: seq<int>)
    ensures |Overwritten(s, i, t).items| == |s|
    ensures forall k :: 0 <= k < |s| ==>
      Overwritten(s, i, t).items[k] == if i <= k < i + |t| then t[k - i] else s[k]
  {
  }

  /** RemoveRange and Resize agree exactly when the range ends within the array or starts at its beginning, or when
      there is nothing to remove. */
  lemma {:induction false} RemoveRangeAgrees(s: seq<int>, start: nat, count: nat, elementSize: nat)
    ensures Removed(s, start, count).items == Resized(s, 0 - count, start, elementSize).items
      <==> (start + count <= |s| || start == 0 || count == 0 || s == [])
  {
    if start + count > |s| && start > 0 && count > 0 && s != [] {
      assert |Removed(s, start, count).items| != |Resized(s, 0 - count, start, elementSize).items|;
    }
  }

  /** The last two of three elements are taken off when three are asked for from index 1 on; Resize takes off all. */
  lemma {:induction false} RemoveRangeDiffers()
    ensures Removed([1, 2, 3], 1, 3).items == [1] && Resized([1, 2, 3], 0 - 3, 1, 4).items == []
  {
    assert [1, 2, 3][..1] + [1, 2, 3][3..] == [1];
  }

  /** An array of 8-byte elements that is as long as it may be: inserting 9 in front overwrites the first element. */
  lemma {:induction false} InsertOverwrites(s: seq<int>)
    requires |s| == 0x1FFF_FFFE && s[0] != 9
    ensures WithInserted(s, 0, 9, 8).items == s[0 := 9] != s[..0] + [9] + s[0..]
  {
    InsertSplices(s, 0, 9, 8);
  }

  // ---------- references

  /** What leaves the slots and what stays is what was there and what came in. */
  ghost predicate Balanced(s: seq<int>, e: Effect) {
    forall o :: o != 0 ==> Held(e.items, o) + Held(e.dropped, o) == Held(s, o) + Held(e.taken, o)
  }

  lemma {:induction false} SpliceHeld(s: seq<int>, i: nat, j: nat, t: seq<int>, o: int)
    requires i <= j <= |s|
    ensures Held(s[..i] + t + s[j..], o) + Held(s[i..j], o) == Held(s, o) + Held(t, o)
  {
    assert s == s[..i] + s[i..j] + s[j..];
  }

  /** Replacing s[i..j] by t, where t was taken or is null, and s[i..j] was dropped or null. */
  lemma {:induction false} SpliceBalanced(s: seq<int>, i: nat, j: nat, t: seq<int>, e: Effect)
    requires i <= j <= |s| && e.items == s[..i] + t + s[j..]
    requires forall o :: o != 0 ==> Held(e.dropped, o) == Held(s[i..j], o) && Held(e.taken, o) == Held(t, o)
    ensures Balanced(s, e)
  {
    hide Held;
    forall o | o != 0
      ensures Held(e.items, o) + Held(e.dropped, o) == Held(s, o) + Held(e.taken, o)
    {
      SpliceHeld(s, i, j, t, o);
    }
  }

  lemma {:induction false} NothingHeld(n: nat)
    ensures forall o :: o != 0 ==> Held(Nulls(n), o) == 0 == Held([], o)
  {
    forall o | o != 0
      ensures Held(Nulls(n), o) == 0
    {
      HeldNulls(n, o);
    }
  }

  lemma {:induction false} GrowTakesNothing(s: seq<int>, delta: nat, at: nat, elementSize: nat)
    ensures Resized(s, delta, at, elementSize).taken == Resized(s, delta, at, elementSize).dropped == []
    ensures at <= |s| ==> at <= |Resized(s, delta, at, elementSize).items|
  {
  }

  lemma {:induction false} UnchangedBalanced(s: seq<int>)
    ensures Balanced(s, Unchanged(s))
  {
  }

  lemma {:induction false} ResizedBalanced(s: seq<int>, delta: int, at: nat, elementSize: nat)
    ensures Balanced(s, Resized(s, delta, at, elementSize))
  {
    hide Held, Balanced;
    var e := Resized(s, delta, at, elementSize);
    if delta < 0 {
      var d := Min(0 - delta, |s|);
      var a := Min(at, |s| - d);
      NothingHeld(d);
      assert e.items == s[..a] + [] + s[a + d..];
      SpliceBalanced(s, a, a + d, [], e);
    } else if delta > 0 && e != Unchanged(s) {
      var a := Min(at, |s|);
      NothingHeld(delta);
      assert s[a..a] == [];
      SpliceBalanced(s, a, a, Nulls(delta), e);
    } else {
      UnchangedBalanced(s);
    }
  }

  lemma {:induction false} RemovedBalanced(s: seq<int>, start: nat, count: nat)
    ensures Balanced(s, Removed(s, start, count))
  {
    if start <= |s| {
      var c := Min(count, |s| - start);
      NothingHeld(c);
      assert s[..start] + [] + s[start + c..] == s[..start] + s[start + c..];
      SpliceBalanced(s, start, start + c, [], Removed(s, start, count));
    }
  }

  lemma {:induction false} OverwrittenBalanced(s: seq<int>, i: nat, t: seq<int>)
    ensures Balanced(s, Overwritten(s, i, t))
  {
    if i < |s| {
      var c := Min(|t|, |s| - i);
      SpliceBalanced(s, i, i + c, t[..c], Overwritten(s, i, t));
    }
  }

  lemma {:induction false} WithValueBalanced(s: seq<int>, i: nat, v: int)
    ensures Balanced(s, WithValue(s, i, v))
  {
    if i < |s| {
      assert s[i := v] == s[..i] + [v] + s[i + 1..];
      assert s[i..i + 1] == [s[i]];
      SpliceBalanced(s, i, i + 1, [v], WithValue(s, i, v));
    }
  }

  lemma {:induction false} ThenBalanced(s: seq<int>, e: Effect, f: Effect)
    requires Balanced(s, e) && Balanced(e.items, f)
    ensures Balanced(s, Then(e, f))
  {
  }

  lemma {:induction false} SwapAllThen(refs: Refs, t: seq<int>, d: seq<int>, t': seq<int>, d': seq<int>)
    requires |t| == |d| && |t'| == |d'|
    requires SwapAll(refs, t, d).Some?
    ensures SwapAll(refs, t + t', d + d') == SwapAll(SwapAll(refs, t, d).value, t', d')
  {
    hide Swap;
    if t' == [] {
      assert t + t' == t && d + d' == d;
    } else {
      var n := |t'| - 1;
      SwapAllThen(refs, t, d, t'[..n], d'[..n]);
      assert (t + t')[..|t + t'| - 1] == t + t'[..n];
      assert (d + d')[..|t + t'| - 1] == d + d'[..n];
    }
  }

  /** After a balanced effect the handles of the array, and of another array beside it, are still backed. */
  lemma {:induction false} StillBacked(refs: Refs, refs': Refs, s: seq<int>, e: Effect, other: seq<int>)
    requires |e.taken| == |e.dropped| && Balanced(s, e) && Backed(refs, s + other)
    requires SwapAll(refs, e.taken, e.dropped) == Some(refs')
    ensures Backed(refs', e.items + other)
  {
    SwapAllMoves(refs, e.taken, e.dropped);
    forall o | o != 0
      ensures Held(e.items + other, o) <= Count(refs', o)
    {
      HeldConcat(s, other, o);
      HeldConcat(e.items, other, o);
    }
  }

  lemma {:induction false} BackedAfter(refs: Refs, refs': Refs, s: seq<int>, e: Effect)
    requires |e.taken| == |e.dropped| && Balanced(s, e) && Backed(refs, s)
    requires SwapAll(refs, e.taken, e.dropped) == Some(refs')
    ensures Backed(refs', e.items)
  {
    hide Backed, Balanced, SwapAll;
    assert s + [] == s && e.items + [] == e.items;
    StillBacked(refs, refs', s, e, []);
  }

  lemma {:induction false} NoSwaps(refs: Refs)
    ensures SwapAll(refs, [], []) == Some(refs)
  {
  }

  lemma {:induction false} BackedThen(refs: Refs, refs': Refs, refs'': Refs, e: Effect, f: Effect)
    requires |e.taken| == |e.dropped| && |f.taken| == |f.dropped|
    requires SwapAll(refs, e.taken, e.dropped) == Some(refs')
    requires SwapAll(refs', f.taken, f.dropped) == Some(refs'')
    ensures SwapAll(refs, Then(e, f).taken, Then(e, f).dropped) == Some(refs'')
  {
    SwapAllThen(refs, e.taken, e.dropped, f.taken, f.dropped);
  }

  /** One more value is assigned to its slot. */
  lemma {:induction false} OverwriteNext(s: seq<int>, i: nat, t: seq<int>, n: nat)
    requires n < |t|
    ensures
      var e := Overwritten(s, i, t[..n]);
      Then(e, WithValue(e.items, i + n, t[n])) == Overwritten(s, i, t[..n + 1])
  {
    var e, e' := Overwritten(s, i, t[..n]), Overwritten(s, i, t[..n + 1]);
    if i + n < |s| {
      assert t[..n][..n] == t[..n] && t[..n + 1][..n + 1] == t[..n + 1] == t[..n] + [t[n]];
      assert e.items[i + n := t[n]] == e'.items;
      assert e.taken + [t[n]] == e'.taken;
      assert e.dropped + [e.items[i + n]] == e'.dropped;
    } else {
      assert e'.items == e.items;
    }
  }

  lemma {:induction false} OverwriteStart(s: seq<int>, i: nat, t: seq<int>)
    requires i <= |s|
    ensures Overwritten(s, i, t[..0]) == Unchanged(s)
  {
    assert s[..i] + [] + s[i..] == s;
  }

  lemma {:induction false} BackedPart(refs: Refs, s: seq<int>, other: seq<int>)
    requires Backed(refs, s + other)
    ensures Backed(refs, s) && Backed(refs, other)
  {
    forall o | o != 0
      ensures Held(s, o) <= Count(refs, o) && Held(other, o) <= Count(refs, o)
    {
      HeldConcat(s, other, o);
    }
  }

  lemma {:induction false} BackedMember(refs: Refs, s: seq<int>, k: nat)
    requires Backed(refs, s) && k < |s| && s[k] != 0
    ensures Count(refs, s[k]) >= 1
  {
    assert s[k] in multiset(s);
  }

  /** The object a slot drops is alive when it is released, also if the slot takes the handle it already holds. */
  lemma {:induction false} SetSafe(refs: Refs, s: seq<int>, i: nat, v: int)
    requires Backed(refs, s) && i < |s| && (v == 0 || Count(refs, v) >= 1)
    ensures AddRef(refs, v).Some? && (s[i] == 0 || Count(AddRef(refs, v).value, s[i]) >= 1)
    ensures SwapAll(refs, [v], [s[i]]) == Swap(refs, v, s[i])
  {
    if s[i] != 0 {
      BackedMember(refs, s, i);
    }
    SwapAllSnoc(refs, [], [], v, s[i]);
    assert [] + [v] == [v] && [] + [s[i]] == [s[i]];
  }

  // ---------- memory

  /** The elements with n of t, from src on, put over those from dst on. */
  function Copied(s: seq<int>, dst: nat, t: seq<int>, src: nat, n: nat): (r: seq<int>)
    requires dst + n <= |s| && src + n <= |t|
    ensures |r| == |s|
  {
    s[..dst] + t[src..src + n] + s[dst + n..]
  }

  lemma {:induction false} CopiedIs(s: seq<int>, dst: nat, t: seq<int>, src: nat, n: nat, r: seq<int>)
    requires dst + n <= |s| && src + n <= |t| && |r| == |s|
    requires r[..dst] == s[..dst] && r[dst..dst + n] == t[src..src + n] && r[dst + n..] == s[dst + n..]
    ensures r == Copied(s, dst, t, src, n)
  {
    assert r == r[..dst] + r[dst..dst + n] + r[dst + n..];
  }

  method MemMove(a: array<int>, dst: nat, src: nat, n: nat)
    requires dst + n <= a.Length && src + n <= a.Length
    modifies a
    ensures a[..] == Copied(old(a[..]), dst, old(a[..]), src, n)
  {
    hide Copied;
    ghost var s := a[..];
    forall k | 0 <= k < n {
      a[dst + k] := a[src + k];
    }
    ghost var r := a[..];
    assert r[..dst] == s[..dst];
    assert r[dst..dst + n] == s[src..src + n];
    assert r[dst + n..] == s[dst + n..];
    CopiedIs(s, dst, s, src, n, r);
  }

  method MemCopy(a: array<int>, dst: nat, b: array<int>, src: nat, n: nat)
    requires a != b && dst + n <= a.Length && src + n <= b.Length
    modifies a
    ensures a[..] == Copied(old(a[..]), dst, b[..], src, n)
  {
    hide Copied;
    ghost var s, t := a[..], b[..];
    forall k | 0 <= k < n {
      a[dst + k] := b[src + k];
    }
    ghost var r := a[..];
    assert b[..] == t;
    assert r[..dst] == s[..dst];
    assert r[dst..dst + n] == t[src..src + n];
    assert r[dst + n..] == s[dst + n..];
    CopiedIs(s, dst, t, src, n, r);
  }

  method MemZero(a: array<int>, start: nat, end: nat)
    requires start <= end <= a.Length
    modifies a
    ensures a[..] == Copied(old(a[..]), start, Nulls(end - start), 0, end - start)
  {
    hide Copied;
    ghost var s := a[..];
    forall k | start <= k < end {
      a[k] := 0;
    }
    ghost var r, n := a[..], end - start;
    assert r[..start] == s[..start];
    assert r[start..start + n] == Nulls(n)[0..0 + n];
    assert r[start + n..] == s[start + n..];
    CopiedIs(s, start, Nulls(n), 0, n, r);
  }

  /** Moving the elements from at on and zeroing the gap, as both leave the buffer. */
  lemma {:induction false} GapOpened(d: seq<int>, n: nat, at: nat, delta: nat)
    requires at <= n && n + delta <= |d|
    ensures
      var filled := Copied(Copied(d, at + delta, d, at, n - at), at, Nulls(delta), 0, delta);
      filled[..n + delta] == d[..n][..at] + Nulls(delta) + d[..n][at..]
  {
    var moved := Copied(d, at + delta, d, at, n - at);
    assert moved[..at] == d[..at];
    assert moved[at + delta..] == d[at..n] + d[n + delta..];
    assert Nulls(delta)[0..delta] == Nulls(delta);
    var filled := d[..at] + Nulls(delta) + (d[at..n] + d[n + delta..]);
    assert filled == (d[..at] + Nulls(delta) + d[at..n]) + d[n + delta..];
    assert d[..n][at..] == d[at..n];
  }

  lemma {:induction false} GapClosed(d: seq<int>, n: nat, at: nat, count: nat)
    requires at + count <= n <= |d|
    ensures Copied(d, at, d, at + count, n - (at + count))[..n - count] == d[..n][..at] + d[..n][at + count..]
  {
    assert d[..n][at + count..] == d[at + count..n];
    assert |d[..at] + d[at + count..n]| == n - count;
  }

  /** Filling a new buffer from an old one, with a gap. */
  lemma {:induction false} GapCopied(z: seq<int>, d: seq<int>, n: nat, at: nat, delta: nat)
    requires at <= n <= |d| && |z| == n + delta
    ensures
      var front := Copied(z, 0, d, 0, at);
      var both := if at < n then Copied(front, at + delta, d, at, n - at) else front;
      Copied(both, at, Nulls(delta), 0, delta) == d[..n][..at] + Nulls(delta) + d[..n][at..]
  {
    var front := Copied(z, 0, d, 0, at);
    var both := if at < n then Copied(front, at + delta, d, at, n - at) else front;
    assert front[..at] == d[..at];
    assert both[..at] == d[..at];
    assert both[at + delta..] == d[at..n];
    assert Nulls(delta)[0..delta] == Nulls(delta);
    assert d[..n][at..] == d[at..n];
  }

  class CScriptArray {
    const engine: Engine
    const objType: nat
    const handles: bool
    const elementSize: nat
    const built: bool                       // false where the constructor refused its list: there is no buffer
    var data: array<int>
    var numElements: nat
    var maxElements: nat

    ghost predicate Valid()
      reads this
    {
      && built
      && 0 < elementSize
      && numElements <= maxElements == data.Length
      && numElements < 0x8000_0000
      && AllocationFits(elementSize, maxElements)
    }

    ghost function Contents(): (s: seq<int>)
      requires Valid()
      reads this, data
      ensures |s| == numElements
    {
      data[..numElements]
    }

    /** The elements and the reference counts are what the effect says. */
    twostate predicate Applied(e: Effect)
      requires old(allocated(this)) && |e.taken| == |e.dropped|
      requires Valid()
      reads this, data, engine
    {
      && Contents() == e.items
      && if handles then SwapAll(old(engine.refs), e.taken, e.dropped) == Some(engine.refs)
         else engine.refs == old(engine.refs)
    }

    ghost predicate HandlesBacked()
      requires Valid()
      reads this, data, engine
    {
      handles ==> Backed(engine.refs, Contents())
    }

    /** The array constructor for a list that a script wrote: handles move out of the list. A list that CheckMaxSize
        refuses is left alone, and so is the array, which stays without a buffer. */
    constructor FromList(engine: Engine, objType: nat, handles: bool, elementSize: nat, list: array<int>)
      requires 0 < elementSize && list.Length < 0x8000_0000
      modifies list
      ensures fresh(data) && built == AllocationFits(elementSize, list.Length)
      ensures this.engine == engine && this.objType == objType
      ensures this.handles == handles && this.elementSize == elementSize
      ensures built ==> Valid() && Contents() == old(list[..])
      ensures list[..] == if built && handles then Nulls(list.Length) else old(list[..])
    {
      this.engine := engine;
      this.objType := objType;
      this.handles := handles;
      this.elementSize := elementSize;
      var length := list.Length;
      var ok := SizeFits(elementSize, length);
      built := ok;
      var buffer := new int[if ok then length else 0];
      data := buffer;
      numElements := buffer.Length;
      maxElements := buffer.Length;
      new;
      if !ok {
        return;
      }
      forall k | 0 <= k < length {
        buffer[k] := list[k];
      }
      if handles {
        forall k | 0 <= k < length {
          list[k] := 0;
        }
      }
    }

    static method SizeFits(elementSize: nat, n: nat) returns (ok: bool)
      requires 0 < elementSize
      ensures ok == AllocationFits(elementSize, n)
    {
      var maxSize := 0xFFFF_FFFF - 12 + 1;
      maxSize := maxSize / elementSize;
      MaxSizeExact(elementSize, n);
      return n <= maxSize;
    }

    method CheckMaxSize(n: nat) returns (ok: bool)
      requires 0 < elementSize
      ensures ok == AllocationFits(elementSize, n)
    {
      ok := SizeFits(elementSize, n);
    }

    static lemma {:induction false} MaxSizeExact(elementSize: nat, n: nat)
      requires 0 < elementSize
      ensures n <= 0xFFFF_FFF4 / elementSize <==> AllocationFits(elementSize, n)
    {
      var q := 0xFFFF_FFF4 / elementSize;
      if n <= q {
        assert elementSize * n <= elementSize * q;
      } else {
        assert elementSize * n >= elementSize * (q + 1);
      }
    }

    /** Objects let go of their handles; the slots themselves are not written. */
    method Destruct(start: nat, end: nat)
      requires Valid() && start <= end <= numElements && HandlesBacked()
      modifies engine
      ensures handles ==> SwapAll(old(engine.refs), Nulls(end - start), Contents()[start..end]) == Some(engine.refs)
      ensures !handles ==> engine.refs == old(engine.refs)
    {
      hide Backed, SwapAll, Count, Release, AllocationFits;
      if handles {
        ghost var refs, s := engine.refs, Contents();
        NoSwaps(refs);
        assert Nulls(0) == [] == s[start..start];
        for d := start to end
          invariant SwapAll(refs, Nulls(d - start), s[start..d]) == Some(engine.refs)
        {
          DestructStep(refs, s, start, d, engine.refs);
          if data[d] != 0 {
            engine.ReleaseScriptObject(data[d]);
          } else {
            NullReleased(engine.refs);
          }
        }
      }
    }

    lemma {:induction false} DestructStep(refs: Refs, s: seq<int>, start: nat, d: nat, refs': Refs)
      requires start <= d < |s| && Backed(refs, s)
      requires SwapAll(refs, Nulls(d - start), s[start..d]) == Some(refs')
      ensures s[d] == 0 || Count(refs', s[d]) >= 1
      ensures SwapAll(refs, Nulls(d + 1 - start), s[start..d + 1]) == Release(refs', s[d])
    {
      SwapAllMoves(refs, Nulls(d - start), s[start..d]);
      if s[d] != 0 {
        HeldInRange(s, start, d);
        HeldNulls(d - start, s[d]);
      }
      assert Nulls(d - start) + [0] == Nulls(d + 1 - start);
      assert s[start..d] + [s[d]] == s[start..d + 1];
      SwapAllSnoc(refs, Nulls(d - start), s[start..d], 0, s[d]);
    }

    /** The handles before position d leave room for the one at d. */
    lemma {:induction false} HeldInRange(s: seq<int>, start: nat, d: nat)
      requires start <= d < |s|
      ensures Held(s[start..d], s[d]) < Held(s, s[d])
    {
      assert s == s[..start] + s[start..d] + [s[d]] + s[d + 1..];
    }

    method Reserve(n: nat)
      requires Valid()
      modifies this
      ensures Valid() && Contents() == old(Contents())
      ensures maxElements == if n > old(maxElements) && AllocationFits(elementSize, n) then n else old(maxElements)
      ensures data == old(data) || fresh(data)
    {
      if n <= maxElements {
        return;
      }
      var ok := CheckMaxSize(n);
      if !ok {
        return;
      }
      var newBuffer := new int[n];
      MemCopy(newBuffer, 0, data, 0, numElements);
      assert newBuffer[..numElements] == data[..numElements];
      data := newBuffer;
      maxElements := n;
    }

    /** A new buffer with defaults in the gap. */
    method GrowBuffer(delta: nat, at: nat) returns (newBuffer: array<int>)
      requires Valid() && at <= numElements
      ensures fresh(newBuffer) && newBuffer.Length == numElements + delta
      ensures newBuffer[..] == Contents()[..at] + Nulls(delta) + Contents()[at..]
    {
      hide Copied;
      newBuffer := new int[numElements + delta];
      GapCopied(newBuffer[..], data[..], numElements, at, delta);
      MemCopy(newBuffer, 0, data, 0, at);
      if at < numElements {
        MemCopy(newBuffer, at + delta, data, at, numElements - at);
      }
      MemZero(newBuffer, at, at + delta);
      assert Contents() == data[..][..numElements];
    }

    method GrowInPlace(delta: nat, at: nat)
      requires Valid() && at <= numElements && numElements + delta <= maxElements
      modifies data
      ensures data[..numElements + delta] == old(Contents()[..at]) + Nulls(delta) + old(Contents()[at..])
    {
      hide Copied;
      GapOpened(data[..], numElements, at, delta);
      assert Contents() == data[..][..numElements];
      MemMove(data, at + delta, at, numElements - at);
      MemZero(data, at, at + delta);
      assert data[..numElements + delta] == data[..][..numElements + delta];
    }

    /** Elements move up and defaults fill the gap, in a new buffer if the old one is full. */
    method Grow(delta: nat, at: nat)
      requires Valid() && 0 < delta && at <= numElements && numElements + delta < 0x8000_0000
      requires AllocationFits(elementSize, numElements + delta)
      modifies this, data
      ensures Valid() && Contents() == old(Contents()[..at]) + Nulls(delta) + old(Contents()[at..])
      ensures data == old(data) || fresh(data)
    {
      if maxElements < numElements + delta {
        data := GrowBuffer(delta, at);
        maxElements := numElements + delta;
      } else {
        GrowInPlace(delta, at);
      }
      numElements := numElements + delta;
    }

    method CloseGap(d: nat, at: nat)
      requires Valid() && at + d <= numElements
      modifies data
      ensures data[..numElements - d] == old(Contents()[..at]) + old(Contents()[at + d..])
    {
      hide Copied;
      GapClosed(data[..], numElements, at, d);
      assert Contents() == data[..][..numElements];
      MemMove(data, at, at + d, numElements - (at + d));
      assert data[..numElements - d] == data[..][..numElements - d];
    }

    method Shrink(d: nat, at: nat)
      requires Valid() && at + d <= numElements && HandlesBacked()
      modifies this, data, engine
      ensures Valid() && data == old(data)
      ensures Contents() == old(Contents()[..at]) + old(Contents()[at + d..])
      ensures handles ==>
        SwapAll(old(engine.refs), Nulls(d), old(Contents()[at..at + d])) == Some(engine.refs)
      ensures !handles ==> engine.refs == old(engine.refs)
    {
      hide SwapAll, Backed, AllocationFits;
      Destruct(at, at + d);
      CloseGap(d, at);
      numElements := numElements - d;
    }

    /** The internal Resize. */
    method ResizeAt(delta: int, at: nat)
      requires Valid() && HandlesBacked() && -0x8000_0000 < delta && numElements + delta < 0x8000_0000
      modifies this, data, engine
      ensures Valid() && Applied(Resized(old(Contents()), delta, at, elementSize))
      ensures HandlesBacked()
      ensures data == old(data) || fresh(data)
      ensures IsResized(old(Contents()), delta, at, elementSize, Contents())
    {
      hide Balanced, Backed, SwapAll, AllocationFits, IsResized;
      ghost var s := Contents();
      ghost var e := Resized(s, delta, at, elementSize);
      ResizedIs(s, delta, at, elementSize);
      NoSwaps(engine.refs);
      ResizedBalanced(s, delta, at, elementSize);
      if delta < 0 {
        var d := if 0 - delta > numElements then numElements else 0 - delta;
        var a := if at > numElements - d then numElements - d else at;
        Shrink(d, a);
      } else if delta > 0 {
        var ok := CheckMaxSize(numElements + delta);
        if !ok {
          return;
        }
        var a := if at > numElements then numElements else at;
        Grow(delta, a);
      }
      if handles {
        BackedAfter(old(engine.refs), engine.refs, s, e);
      }
    }

    /** The public Resize. */
    method Resize(n: nat)
      requires Valid() && HandlesBacked() && n < 0x8000_0000
      modifies this, data, engine
      ensures Valid() && HandlesBacked()
      ensures Applied(Resized(old(Contents()), n - |old(Contents())|, 0xFFFF_FFFF, elementSize))
      ensures data == old(data) || fresh(data)
      ensures IsResizedTo(old(Contents()), n, elementSize, Contents())
    {
      hide Resized, IsResized, IsResizedTo, AllocationFits, SwapAll, Backed;
      var ok := CheckMaxSize(n);
      if !ok {
        NoSwaps(engine.refs);
        TooLarge(n);
        RefusedSize(Contents(), n, elementSize);
        return;
      }
      ResizedToIs(Contents(), n, elementSize);
      ResizeAt(n - numElements, 0xFFFF_FFFF);
    }

    lemma {:induction false} Scaled(k: nat, m: nat, n: nat)
      requires m <= n
      ensures k * m <= k * n
    {
    }

    lemma {:induction false} TooLarge(n: nat)
      requires Valid() && !AllocationFits(elementSize, n)
      ensures n > maxElements
    {
      if n <= maxElements {
        Scaled(elementSize, n, maxElements);
      }
    }

    method RemoveRange(start: nat, count: nat)
      requires Valid() && HandlesBacked() && start + count < 0x1_0000_0000
      modifies this, data, engine
      ensures Valid() && HandlesBacked() && data == old(data)
      ensures Applied(Removed(old(Contents()), start, count))
      ensures start >= old(numElements) ==> Contents() == old(Contents())
      ensures start + count <= old(numElements) ==>
        Contents() == old(Contents()[..start]) + old(Contents()[start + count..])
      ensures start <= old(numElements) < start + count ==> Contents() == old(Contents()[..start])
    {
      hide Balanced, Backed, SwapAll, AllocationFits;
      RemovedMeans(Contents(), start, count);
      ghost var s := Contents();
      NoSwaps(engine.refs);
      RemovedBalanced(s, start, count);
      if count == 0 {
        return;
      }
      if start > numElements {
        return;
      }
      var c := if start + count > numElements then numElements - start else count;
      Shrink(c, start);
      if handles {
        BackedAfter(old(engine.refs), engine.refs, s, Removed(s, start, count));
      }
    }

    method SetValue(index: nat, value: int)
      requires Valid() && HandlesBacked()
      requires handles && value != 0 ==> Count(engine.refs, value) >= 1
      modifies data, engine
      ensures Valid() && HandlesBacked() && Applied(WithValue(old(Contents()), index, value))
      ensures Contents() == if index < old(numElements) then old(Contents())[index := value] else old(Contents())
      ensures handles && index < old(numElements) ==>
        Swap(old(engine.refs), value, old(Contents())[index]) == Some(engine.refs)
    {
      hide Backed, Balanced, SwapAll, Count, AddRef, Release, AllocationFits;
      ghost var s := Contents();
      WithValueBalanced(s, index, value);
      NoSwaps(engine.refs);
      if index >= numElements {
        return;
      }
      if handles {
        SetSafe(engine.refs, s, index, value);
        var tmp := data[index];
        data[index] := value;
        engine.AddRefScriptObject(value);
        engine.ReleaseScriptObject(tmp);
        BackedAfter(old(engine.refs), engine.refs, s, WithValue(s, index, value));
      } else {
        data[index] := value;
      }
    }

    method InsertAt(index: nat, value: int)
      requires Valid() && HandlesBacked() && numElements + 1 < 0x8000_0000
      requires handles && value != 0 ==> Count(engine.refs, value) >= 1
      modifies this, data, engine
      ensures Valid() && HandlesBacked()
      ensures Applied(WithInserted(old(Contents()), index, value, elementSize))
      ensures data == old(data) || fresh(data)
      ensures index <= old(numElements) && AllocationFits(elementSize, old(numElements) + 1) ==>
        Contents() == old(Contents()[..index]) + [value] + old(Contents()[index..])
      ensures index < old(numElements) && !AllocationFits(elementSize, old(numElements) + 1) ==>
        Contents() == old(Contents())[index := value]
      ensures index > old(numElements) ==> Contents() == old(Contents())
    {
      if index <= numElements {
        InsertSplices(Contents(), index, value, elementSize);
      }
      hide Balanced, Backed, SwapAll, Resized, AllocationFits;
      ghost var s := Contents();
      NoSwaps(engine.refs);
      if index > numElements {
        return;
      }
      ResizeAt(1, index);
      ghost var r := Resized(s, 1, index, elementSize);
      assert handles ==> SwapAll(old(engine.refs), [], []) == Some(engine.refs) by {
        GrowTakesNothing(s, 1, index, elementSize);
      }
      ghost var refs := engine.refs;
      SetValue(index, value);
      if handles {
        BackedThen(old(engine.refs), refs, engine.refs, r, WithValue(r.items, index, value));
      }
    }

    /** Whether this array and another one share what the operations on both rely on. */
    ghost predicate Compatible(arr: CScriptArray)
      reads this, data, arr, arr.data, engine
    {
      && Valid() && arr.Valid() && HandlesBacked()
      && arr.engine == engine
      && (arr.objType == objType ==> arr.handles == handles && arr.elementSize == elementSize)
      && (arr != this ==> arr.data != data)
      && (arr != this && handles && arr.objType == objType ==> Backed(engine.refs, Contents() + arr.Contents()))
    }

    /** The slots of this array from index on have taken n of the values t, starting from a base. */
    ghost predicate Filled(base: seq<int>, refs: Refs, index: nat, t: seq<int>, n: nat)
      requires Valid() && n <= |t|
      reads this, data, engine
    {
      var e := Overwritten(base, index, t[..n]);
      && Contents() == e.items
      && if handles then SwapAll(refs, e.taken, e.dropped) == Some(engine.refs) else engine.refs == refs
    }

    method Fill(ghost base: seq<int>, ghost refs: Refs, index: nat, ghost t: seq<int>, n: nat, value: int)
      requires Valid() && HandlesBacked() && n < |t| && t[n] == value && Filled(base, refs, index, t, n)
      requires handles && value != 0 ==> Count(engine.refs, value) >= 1
      modifies data, engine
      ensures Valid() && HandlesBacked() && Filled(base, refs, index, t, n + 1)
      ensures Applied(WithValue(old(Contents()), index + n, value))
    {
      hide SwapAll, Backed, Overwritten;
      SetValue(index + n, value);
      ghost var e := Overwritten(base, index, t[..n]);
      OverwriteNext(base, index, t, n);
      if handles {
        BackedThen(refs, old(engine.refs), engine.refs, e, WithValue(e.items, index + n, value));
      }
    }

    /** The loop of InsertAt over the elements of another array. */
    method FillFromOther(index: nat, arr: CScriptArray)
      requires Compatible(arr) && arr != this && arr.objType == objType && index <= numElements
      modifies data, engine
      ensures Valid() && HandlesBacked()
      ensures Applied(Overwritten(old(Contents()), index, old(arr.Contents())))
    {
      hide Backed, SwapAll, Overwritten, Balanced, AllocationFits;
      ghost var base, t, refs := Contents(), arr.Contents(), engine.refs;
      OverwriteStart(base, index, t);
      NoSwaps(refs);
      for n := 0 to arr.numElements
        invariant Valid() && HandlesBacked() && Filled(base, refs, index, t, n)
        invariant handles ==> Backed(engine.refs, Contents() + t)
      {
        ghost var before, refs' := Contents(), engine.refs;
        if handles {
          BackedPart(engine.refs, Contents(), t);
          if t[n] != 0 {
            BackedMember(engine.refs, t, n);
          }
        }
        Fill(base, refs, index, t, n, arr.data[n]);
        if handles {
          WithValueBalanced(before, index + n, t[n]);
          StillBacked(refs', engine.refs, before, WithValue(before, index + n, t[n]), t);
        }
      }
      assert t[..|t|] == t;
    }

    /** An element that the insertion has not overwritten yet. */
    lemma {:induction false} NotYetOverwritten(base: seq<int>, index: nat, t: seq<int>, n: nat, k: nat)
      requires n <= |t| && k < |base| && (k < index || index + n <= k)
      ensures Overwritten(base, index, t[..n]).items[k] == base[k]
    {
    }

    /** The first loop of InsertAt over the array itself: the elements before the gap. */
    method FillFront(ghost base: seq<int>, ghost refs: Refs, index: nat, ghost s: seq<int>)
      requires Valid() && HandlesBacked() && index <= |s| && index <= numElements == |base|
      requires Contents() == base && engine.refs == refs && forall k :: 0 <= k < index ==> base[k] == s[k]
      modifies data, engine
      ensures Valid() && HandlesBacked() && Filled(base, refs, index, s, index)
    {
      hide Backed, SwapAll, Overwritten, Balanced, AllocationFits;
      OverwriteStart(base, index, s);
      NoSwaps(refs);
      for n := 0 to index
        invariant Valid() && HandlesBacked() && Filled(base, refs, index, s, n)
      {
        NotYetOverwritten(base, index, s, n, n);
        if handles && data[n] != 0 {
          BackedMember(engine.refs, Contents(), n);
        }
        Fill(base, refs, index, s, n, data[n]);
      }
    }

    /** The second loop: the elements behind the gap, if there is one. */
    method FillBack(ghost base: seq<int>, ghost refs: Refs, index: nat, elements: nat, ghost s: seq<int>)
      requires Valid() && HandlesBacked() && index <= elements == |s| && numElements == |base|
      requires Filled(base, refs, index, s, index)
      requires |base| == elements || |base| == 2 * elements
      requires forall k :: index + elements <= k < |base| ==> base[k] == s[k - elements]
      modifies data, engine
      ensures Valid() && HandlesBacked()
      ensures Filled(base, refs, index, s, if |base| == 2 * elements then elements else index)
    {
      hide Backed, SwapAll, Overwritten, Balanced, AllocationFits;
      var n, m := index + elements, 0;
      while n < numElements
        invariant Valid() && HandlesBacked() && numElements == |base| && n == index + elements + m
        invariant index + m <= elements && (|base| == elements ==> m == 0)
        invariant Filled(base, refs, index, s, index + m)
      {
        NotYetOverwritten(base, index, s, index + m, n);
        if handles && data[n] != 0 {
          BackedMember(engine.refs, Contents(), n);
        }
        Fill(base, refs, index, s, index + m, data[n]);
        n, m := n + 1, m + 1;
      }
    }

    /** The loops of InsertAt over the elements of the array itself, which has made room if it could. */
    method FillFromSelf(index: nat, elements: nat, ghost s: seq<int>)
      requires Valid() && HandlesBacked() && index <= elements == |s|
      requires Contents() == s[..index] + Nulls(elements) + s[index..] || Contents() == s
      modifies data, engine
      ensures Valid() && HandlesBacked()
      ensures Applied(Overwritten(old(Contents()), index, if old(numElements) == 2 * elements then s else s[..index]))
    {
      hide Backed, SwapAll, Overwritten, Balanced, AllocationFits;
      ghost var base, refs := Contents(), engine.refs;
      FillFront(base, refs, index, s);
      FillBack(base, refs, index, elements, s);
      assert s[..|s|] == s;
    }

    /** InsertAt for an array, which may be this one. */
    method InsertArrayAt(index: nat, arr: CScriptArray)
      requires Compatible(arr) && numElements + arr.numElements < 0x8000_0000
      modifies this, data, engine
      ensures Valid() && HandlesBacked()
      ensures arr.objType == objType ==>
        Applied(WithArrayInserted(old(Contents()), index, old(arr.Contents()), arr == this, elementSize))
      ensures arr.objType != objType ==> Applied(Unchanged(old(Contents())))
      ensures data == old(data) || fresh(data)
      ensures
        arr.objType == objType && index <= old(numElements)
        && AllocationFits(elementSize, old(numElements) + old(arr.numElements)) ==>
        Contents() == old(Contents()[..index]) + old(arr.Contents()) + old(Contents()[index..])
      ensures arr.objType != objType || index > old(numElements) ==> Contents() == old(Contents())
    {
      if index <= numElements {
        InsertArraySplices(Contents(), index, arr.Contents(), arr == this, elementSize);
      }
      hide Backed, SwapAll, Balanced, Overwritten, AllocationFits, Resized;
      NoSwaps(engine.refs);
      if index > numElements || objType != arr.objType {
        return;
      }
      if arr != this {
        InsertOther(index, arr);
      } else {
        InsertSelf(index);
      }
    }

    method InsertOther(index: nat, arr: CScriptArray)
      requires Compatible(arr) && numElements + arr.numElements < 0x8000_0000 && arr != this
      requires index <= numElements && objType == arr.objType
      modifies this, data, engine
      ensures Valid() && HandlesBacked()
      ensures Applied(WithArrayInserted(old(Contents()), index, old(arr.Contents()), false, elementSize))
      ensures data == old(data) || fresh(data)
    {
      hide Backed, SwapAll, Balanced, Overwritten, AllocationFits;
      ghost var s, t, refs := Contents(), arr.Contents(), engine.refs;
      NoSwaps(refs);
      var elements := arr.numElements;
      ghost var e := Resized(s, elements, index, elementSize);
      GrowTakesNothing(s, elements, index, elementSize);
      ResizeAt(elements, index);
      assert handles ==> engine.refs == refs;
      ghost var f := Overwritten(e.items, index, t);
      if handles {
        ResizedBalanced(s, elements, index, elementSize);
        StillBacked(refs, refs, s, e, t);
      }
      FillFromOther(index, arr);
      if handles {
        BackedThen(refs, refs, engine.refs, e, f);
      }
    }

    method InsertSelf(index: nat)
      requires Valid() && HandlesBacked() && numElements + numElements < 0x8000_0000 && index <= numElements
      modifies this, data, engine
      ensures Valid() && HandlesBacked()
      ensures Applied(WithArrayInserted(old(Contents()), index, old(Contents()), true, elementSize))
      ensures data == old(data) || fresh(data)
    {
      hide Backed, SwapAll, Balanced, Overwritten, AllocationFits;
      ghost var s, refs := Contents(), engine.refs;
      NoSwaps(refs);
      var elements := numElements;
      ghost var e := Resized(s, elements, index, elementSize);
      GrowTakesNothing(s, elements, index, elementSize);
      ResizeAt(elements, index);
      assert handles ==> engine.refs == refs;
      ghost var f := Overwritten(e.items, index, if AllocationFits(elementSize, |s| + |s|) then s else s[..index]);
      FillFromSelf(index, elements, s);
      if handles {
        BackedThen(refs, refs, engine.refs, e, f);
      }
    }

    /** One round of the loop in CopyBuffer. */
    method CopyHandle(d: nat, src: CScriptArray)
      requires Valid() && HandlesBacked() && handles && src.Valid() && src.data != data
      requires d < numElements && d < src.numElements
      requires src.data[d] == 0 || Count(engine.refs, src.data[d]) >= 1
      modifies data, engine
      ensures Valid() && HandlesBacked() && Applied(WithValue(old(Contents()), d, src.data[d]))
    {
      hide Backed, Balanced, SwapAll, Count, AddRef, Release, AllocationFits;
      ghost var s := Contents();
      WithValueBalanced(s, d, src.data[d]);
      SetSafe(engine.refs, s, d, src.data[d]);
      var tmp := data[d];
      data[d] := src.data[d];
      if data[d] != 0 {
        engine.AddRefScriptObject(data[d]);
      } else {
        NullAdded(engine.refs);
      }
      // the old reference goes last, in case it is the same object
      if tmp != 0 {
        engine.ReleaseScriptObject(tmp);
      } else {
        NullReleased(engine.refs);
      }
      BackedAfter(old(engine.refs), engine.refs, s, WithValue(s, d, src.data[d]));
    }

    lemma {:induction false} NullAdded(refs: Refs)
      ensures AddRef(refs, 0) == Some(refs)
    {
    }

    lemma {:induction false} NullReleased(refs: Refs)
      ensures Release(refs, 0) == Some(refs)
    {
    }

    method CopyHandles(count: nat, src: CScriptArray)
      requires Compatible(src) && src != this && src.objType == objType && handles
      requires count == Min(numElements, src.numElements)
      modifies data, engine
      ensures Valid() && HandlesBacked()
      ensures Applied(Overwritten(old(Contents()), 0, old(src.Contents())))
    {
      hide Backed, SwapAll, Balanced, Overwritten, AllocationFits;
      ghost var s, t, refs := Contents(), src.Contents(), engine.refs;
      OverwriteStart(s, 0, t);
      NoSwaps(refs);
      for d := 0 to count
        invariant Valid() && HandlesBacked() && Filled(s, refs, 0, t, d)
        invariant Backed(engine.refs, Contents() + t)
      {
        ghost var before, refs' := Contents(), engine.refs;
        BackedPart(refs', before, t);
        if t[d] != 0 {
          BackedMember(refs', t, d);
        }
        CopyHandle(d, src);
        OverwriteNext(s, 0, t, d);
        WithValueBalanced(before, d, t[d]);
        BackedThen(refs, refs', engine.refs, Overwritten(s, 0, t[..d]), WithValue(before, d, t[d]));
        StillBacked(refs', engine.refs, before, WithValue(before, d, t[d]), t);
      }
      OverwriteEnd(s, t, count);
    }

    method CopyElements(src: CScriptArray)
      requires Compatible(src) && src != this && src.objType == objType
      modifies data, engine
      ensures Valid() && HandlesBacked()
      ensures Applied(Overwritten(old(Contents()), 0, old(src.Contents())))
    {
      ghost var s, t := Contents(), src.Contents();
      var count := if numElements > src.numElements then src.numElements else numElements;
      if handles {
        CopyHandles(count, src);
      } else {
        MemCopy(data, 0, src.data, 0, count);
        assert Contents() == Overwritten(s, 0, t).items;
      }
    }

    method CopyBuffer(src: CScriptArray)
      requires Compatible(src) && src != this && src.objType == objType
      modifies data, engine
      ensures Valid() && HandlesBacked()
      ensures Applied(Overwritten(old(Contents()), 0, old(src.Contents())))
      ensures forall k :: 0 <= k < old(numElements) ==>
        Contents()[k] == old(if k < src.numElements then src.Contents()[k] else Contents()[k])
    {
      hide Overwritten, Backed, SwapAll, Count;
      OverwrittenMeans(Contents(), 0, src.Contents());
      CopyElements(src);
    }

    lemma {:induction false} OverwriteEnd(s: seq<int>, t: seq<int>, n: nat)
      requires n == Min(|s|, |t|)
      ensures Overwritten(s, 0, t[..n]) == Overwritten(s, 0, t)
    {
      assert t[..n][..n] == t[..n];
    }

    /** operator= */
    lemma {:induction false} AssignFits(other: CScriptArray)
      requires Compatible(other)
      ensures other.objType == objType ==> Assigned(Contents(), other.Contents(), elementSize).items == other.Contents()
    {
      if other.objType == objType {
        AllocationMonotone(elementSize, other.numElements, other.maxElements);
        AssignCopies(Contents(), other.Contents(), elementSize);
      }
    }

    static lemma {:induction false} AllocationMonotone(elementSize: nat, n: nat, max: nat)
      requires n <= max && AllocationFits(elementSize, max)
      ensures AllocationFits(elementSize, n)
    {
      assert elementSize * n <= elementSize * max;
    }

    method Assign(other: CScriptArray)
      requires Compatible(other)
      modifies this, data, engine
      ensures Valid() && HandlesBacked()
      ensures Applied(
        if other != this && other.objType == objType
        then Assigned(old(Contents()), old(other.Contents()), elementSize) else Unchanged(old(Contents())))
      ensures data == old(data) || fresh(data)
      ensures Contents() == if other.objType == objType then old(other.Contents()) else old(Contents())
    {
      hide Backed, SwapAll, Assigned, AllocationFits;
      NoSwaps(engine.refs);
      if other == this || other.objType != objType {
        return;
      }
      AssignFits(other);
      AssignElements(other);
    }

    method AssignElements(other: CScriptArray)
      requires Compatible(other) && other != this && other.objType == objType
      modifies this, data, engine
      ensures Valid() && HandlesBacked()
      ensures Applied(Assigned(old(Contents()), old(other.Contents()), elementSize))
      ensures data == old(data) || fresh(data)
    {
      hide Backed, SwapAll, Balanced, Overwritten, AllocationFits, IsResizedTo;
      ghost var s, t, refs := Contents(), other.Contents(), engine.refs;
      ghost var e := Resized(s, |t| - |s|, 0xFFFF_FFFF, elementSize);
      Resize(other.numElements);
      ghost var refs' := engine.refs;
      if handles {
        ResizedBalanced(s, |t| - |s|, 0xFFFF_FFFF, elementSize);
        StillBacked(refs, refs', s, e, t);
      }
      CopyBuffer(other);
      if handles {
        BackedThen(refs, refs', engine.refs, e, Overwritten(e.items, 0, t));
      }
    }

    /** The destructor. */
    method Destroy()
      requires Valid() && HandlesBacked()
      modifies this, engine
      ensures Valid() && HandlesBacked() && Applied(Destroyed(old(Contents())))
      ensures Contents() == []
      ensures handles ==>
        SwapAll(old(engine.refs), Nulls(old(numElements)), old(Contents())) == Some(engine.refs)
      ensures !handles ==> engine.refs == old(engine.refs)
    {
      assert Contents()[0..numElements] == Contents();
      Destruct(0, numElements);
      NothingHeld(0);
      data := new int[0];
      numElements := 0;
      maxElements := 0;
    }

    method Reverse()
      requires Valid()
      modifies data
      ensures Valid() && Contents() == Reversed(old(Contents()))
    {
      ghost var s := Contents();
      ghost var r := Reversed(s);
      if numElements >= 2 {
        for i := 0 to numElements / 2
          invariant forall k :: 0 <= k < numElements ==> data[k] == if k < i || k >= numElements - i then r[k] else s[k]
        {
          var tmp := data[i];
          data[i] := data[numElements - i - 1];
          data[numElements - i - 1] := tmp;
        }
      }
    }
  }
}
