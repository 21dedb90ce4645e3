/** The insertion sorts of the script array: one compares primitives, the other asks a script function, whose answers
    may be anything and may fail. */
module ArraySorting {
  import opened ScriptArrays

  // ---------- orders

  /** Irreflexive and transitive, with incomparability transitive too. */
  ghost predicate StrictWeakOrder(less: (int, int) -> bool) {
    && (forall x :: !less(x, x))
    && (forall x, y, z :: less(x, y) && less(y, z) ==> less(x, z))
    && (forall x, y, z :: !less(x, y) && !less(y, z) ==> !less(x, z))
  }

  ghost predicate SortedBy(s: seq<int>, less: (int, int) -> bool) {
    forall i, j :: 0 <= i < j < |s| ==> !less(s[j], s[i])
  }

  predicate Equivalent(x: int, y: int, less: (int, int) -> bool) {
    !less(x, y) && !less(y, x)
  }

  /** The elements of s that are equivalent to x, in the order of s. */
  function ClassOf(s: seq<int>, x: int, less: (int, int) -> bool): seq<int> {
    if s == [] then []
    else
      var n := |s| - 1;
      ClassOf(s[..n], x, less) + if Equivalent(s[n], x, less) then [s[n]] else []
  }

  /** Equivalent elements are in the same order in both. */
  ghost predicate SameOrder(s: seq<int>, t: seq<int>, less: (int, int) -> bool) {
    forall x :: ClassOf(s, x, less) == ClassOf(t, x, less)
  }

  lemma {:induction false} ClassConcat(s: seq<int>, t: seq<int>, x: int, less: (int, int) -> bool)
    ensures ClassOf(s + t, x, less) == ClassOf(s, x, less) + ClassOf(t, x, less)
  {
    if t == [] {
      assert s + t == s;
    } else {
      var n := |t| - 1;
      assert (s + t)[..|s + t| - 1] == s + t[..n];
      ClassConcat(s, t[..n], x, less);
    }
  }

  lemma {:induction false} NoneEquivalent(s: seq<int>, x: int, less: (int, int) -> bool)
    requires forall k :: 0 <= k < |s| ==> !Equivalent(s[k], x, less)
    ensures ClassOf(s, x, less) == []
  {
    if s != [] {
      NoneEquivalent(s[..|s| - 1], x, less);
    }
  }

  lemma {:induction false} GreaterIsOther(t: int, y: int, x: int, less: (int, int) -> bool)
    requires StrictWeakOrder(less) && less(t, y) && Equivalent(t, x, less)
    ensures !Equivalent(y, x, less)
  {
  }

  /** An element that moves before greater elements passes none that it is equivalent to. */
  lemma {:induction false} MoveKeepsOrder(a: seq<int>, b: seq<int>, t: int, x: int, less: (int, int) -> bool)
    requires StrictWeakOrder(less)
    requires forall k :: 0 <= k < |b| ==> less(t, b[k])
    ensures ClassOf(a + [t] + b, x, less) == ClassOf(a + b + [t], x, less)
  {
    hide StrictWeakOrder, Equivalent, ClassOf;
    ClassConcat(a + [t], b, x, less);
    ClassConcat(a, [t], x, less);
    ClassConcat(a + b, [t], x, less);
    ClassConcat(a, b, x, less);
    if Equivalent(t, x, less) {
      forall k | 0 <= k < |b|
        ensures !Equivalent(b[k], x, less)
      {
        GreaterIsOther(t, b[k], x, less);
      }
      NoneEquivalent(b, x, less);
    } else {
      NoneEquivalent([t], x, less);
    }
  }

  /** Inserting t where every element behind it is greater, and the one before it is not, keeps the range sorted. */
  lemma {:induction false} InsertSorted(a: seq<int>, b: seq<int>, t: int, less: (int, int) -> bool)
    requires StrictWeakOrder(less) && SortedBy(a + b, less)
    requires forall k :: 0 <= k < |b| ==> less(t, b[k])
    requires a == [] || !less(t, a[|a| - 1])
    ensures SortedBy(a + [t] + b, less)
  {
    var ab, r := a + b, a + [t] + b;
    forall i, j | 0 <= i < j < |r|
      ensures !less(r[j], r[i])
    {
      if i != |a| && j != |a| {
        var i', j' := if i < |a| then i else i - 1, if j < |a| then j else j - 1;
        assert r[i] == ab[i'] && r[j] == ab[j'];
      } else if i == |a| {
        assert r[j] == b[j - |a| - 1];
      } else {
        assert r[i] == ab[i];
        if i < |a| - 1 {
          assert ab[|a| - 1] == a[|a| - 1];
          assert !less(ab[|a| - 1], ab[i]);
        }
      }
    }
  }

  // ---------- what both sorts keep

  /** The same elements before element i of the range, and nothing else touched. */
  ghost predicate GoneThrough(s: seq<int>, r: seq<int>, start: nat, i: nat) {
    && start <= i <= |s| == |r|
    && r[..start] == s[..start]
    && r[i..] == s[i..]
    && multiset(r[start..i]) == multiset(s[start..i])
  }

  ghost predicate SortedFrom(s: seq<int>, r: seq<int>, less: (int, int) -> bool) {
    SortedBy(r, less) && SameOrder(r, s, less)
  }

  ghost predicate SortedSoFar(s: seq<int>, r: seq<int>, start: nat, i: nat, ordered: bool, less: (int, int) -> bool) {
    GoneThrough(s, r, start, i) && (ordered ==> SortedFrom(s[start..i], r[start..i], less))
  }

  /** Element i went to position p, and the elements from there on moved up by one. */
  ghost predicate Inserted(r: seq<int>, r': seq<int>, start: nat, i: nat, p: nat) {
    && start <= p <= i < |r|
    && r' == r[..p] + [r[i]] + r[p..i] + r[i + 1..]
  }

  /** As far as the order goes, p is the right place. */
  ghost predicate RightPlace(r: seq<int>, start: nat, i: nat, p: nat, less: (int, int) -> bool)
    requires start <= p <= i < |r|
  {
    && (forall k :: p <= k < i ==> less(r[i], r[k]))
    && (p == start || !less(r[i], r[p - 1]))
  }

  lemma {:induction false} InsertKeeps(
    s: seq<int>, r: seq<int>, r': seq<int>, start: nat, i: nat, p: nat, ordered: bool, less: (int, int) -> bool)
    requires SortedSoFar(s, r, start, i, ordered, less) && Inserted(r, r', start, i, p)
    requires ordered ==> StrictWeakOrder(less) && RightPlace(r, start, i, p, less)
    ensures SortedSoFar(s, r', start, i + 1, ordered, less)
  {
    hide SortedFrom, StrictWeakOrder, RightPlace;
    InsertGoesThrough(s, r, r', start, i, p);
    if ordered {
      InsertInOrder(s, r, r', start, i, p, less);
    }
  }

  lemma {:induction false} InsertGoesThrough(s: seq<int>, r: seq<int>, r': seq<int>, start: nat, i: nat, p: nat)
    requires GoneThrough(s, r, start, i) && Inserted(r, r', start, i, p)
    ensures GoneThrough(s, r', start, i + 1)
    ensures s[start..i + 1] == s[start..i] + [r[i]]
  {
    InsertShape(r, r', start, i, p);
    SuffixNext(s, r, i);
    assert s[start..i + 1] == s[start..i] + [r[i]];
    hide Inserted;
    assert multiset(r'[start..i + 1]) == multiset(r[start..i]) + multiset{r[i]};
  }

  lemma {:induction false} InsertInOrder(
    s: seq<int>, r: seq<int>, r': seq<int>, start: nat, i: nat, p: nat, less: (int, int) -> bool)
    requires Inserted(r, r', start, i, p) && StrictWeakOrder(less) && RightPlace(r, start, i, p, less)
    requires i < |s| && SortedFrom(s[start..i], r[start..i], less) && s[start..i + 1] == s[start..i] + [r[i]]
    ensures SortedFrom(s[start..i + 1], r'[start..i + 1], less)
  {
    hide SortedBy, SameOrder, StrictWeakOrder;
    var a, b, t := r[start..p], r[p..i], r[i];
    InsertShape(r, r', start, i, p);
    InsertSorted(a, b, t, less);
    InsertStable(a, b, t, s[start..i], less);
  }

  lemma {:induction false} InsertShape(r: seq<int>, r': seq<int>, start: nat, i: nat, p: nat)
    requires Inserted(r, r', start, i, p)
    ensures |r'| == |r| && r'[..start] == r[..start] && r'[i + 1..] == r[i + 1..]
    ensures r[start..i] == r[start..p] + r[p..i]
    ensures r'[start..i + 1] == r[start..p] + [r[i]] + r[p..i]
  {
  }

  lemma {:induction false} SuffixNext(s: seq<int>, r: seq<int>, i: nat)
    requires i < |s| == |r| && s[i..] == r[i..]
    ensures s[i] == r[i] && s[i + 1..] == r[i + 1..]
  {
    assert s[i] == s[i..][0] && r[i] == r[i..][0];
    assert s[i + 1..] == s[i..][1..] && r[i + 1..] == r[i..][1..];
  }

  lemma {:induction false} InsertStable(a: seq<int>, b: seq<int>, t: int, s: seq<int>, less: (int, int) -> bool)
    requires StrictWeakOrder(less) && SameOrder(a + b, s, less)
    requires forall k :: 0 <= k < |b| ==> less(t, b[k])
    ensures SameOrder(a + [t] + b, s + [t], less)
  {
    forall x
      ensures ClassOf(a + [t] + b, x, less) == ClassOf(s + [t], x, less)
    {
      MoveKeepsOrder(a, b, t, x, less);
      ClassConcat(a + b, [t], x, less);
      ClassConcat(s, [t], x, less);
    }
  }

  lemma {:induction false} SortStart(s: seq<int>, start: nat, ordered: bool, less: (int, int) -> bool)
    requires start < |s|
    ensures SortedSoFar(s, s, start, start + 1, ordered, less)
  {
    assert |s[start..start + 1]| == 1;
  }

  /** What a sort of the range leaves, whatever the comparisons said: the same elements, and the rest untouched. If the
      comparisons followed an order, the range is sorted and equivalent elements keep their order. */
  ghost predicate SortedRange(s: seq<int>, r: seq<int>, start: nat, end: nat, ordered: bool, less: (int, int) -> bool) {
    && start <= end <= |s| == |r|
    && multiset(r) == multiset(s)
    && r[..start] == s[..start]
    && r[end..] == s[end..]
    && (ordered ==> SortedBy(r[start..end], less) && SameOrder(r[start..end], s[start..end], less))
  }

  lemma {:induction false} SortDone(
    s: seq<int>, r: seq<int>, start: nat, end: nat, ordered: bool, less: (int, int) -> bool)
    requires SortedSoFar(s, r, start, end, ordered, less)
    ensures SortedRange(s, r, start, end, ordered, less)
  {
    assert s == s[..start] + s[start..end] + s[end..];
    assert r == r[..start] + r[start..end] + r[end..];
  }

  // ---------- the callback sort

  datatype Answer = Yes | No | Failed

  /** The answer to the n-th call, for the operands of that call. */
  type Callback = (nat, int, int) -> Answer

  /** Every call finishes and answers by the order. */
  ghost predicate Follows(answers: Callback, less: (int, int) -> bool) {
    forall n, a, b :: answers(n, a, b) == if less(a, b) then Yes else No
  }

  /** The unsigned j goes from 0 to 0xFFFFFFFF, which stands for -1. */
  function AsIndex(j: int): int {
    if j == 0xFFFF_FFFF then -1 else j
  }

  function WrappingNext(j: int): (k: int)
    requires 0 <= j < 0x1_0000_0000
    ensures k == AsIndex(j) + 1
  {
    (j + 1) % 0x1_0000_0000
  }

  function WrappingPrevious(j: int): (k: int)
    requires 0 <= j < 0x1_0000_0000 && j != 0xFFFF_FFFF
    ensures 0 <= k < 0x1_0000_0000 && AsIndex(k) == AsIndex(j) - 1
  {
    (j - 1) % 0x1_0000_0000
  }

  /** The elements behind the hole moved up by one: it is at p, and was at i. */
  ghost predicate Shifted(r: seq<int>, data: seq<int>, p: int, i: nat) {
    && 0 <= p <= i < |r| <= |data|
    && (forall k :: 0 <= k < p || i < k < |r| ==> data[k] == r[k])
    && (forall k :: p <= k < i ==> MovedUp(r, data, k))
  }

  ghost predicate MovedUp(r: seq<int>, data: seq<int>, k: int) {
    0 <= k < |r| && k + 1 < |data| && data[k + 1] == r[k]
  }

  lemma {:induction false} ShiftNext(r: seq<int>, data: seq<int>, p: int, i: nat)
    requires Shifted(r, data, p, i) && p > 0
    ensures Shifted(r, data[p := data[p - 1]], p - 1, i)
    ensures data[p - 1] == r[p - 1]
  {
    var data' := data[p := data[p - 1]];
    forall k | p - 1 <= k < i
      ensures MovedUp(r, data', k)
    {
      if k >= p {
        assert MovedUp(r, data, k);
      }
    }
  }

  lemma {:induction false} ShiftStart(r: seq<int>, data: seq<int>, i: nat)
    requires i < |r| <= |data| && r == data[..|r|]
    ensures Shifted(r, data, i, i)
  {
  }

  lemma {:induction false} ShiftEnd(r: seq<int>, data: seq<int>, start: nat, p: int, i: nat)
    requires Shifted(r, data, p, i) && start <= p
    ensures Inserted(r, data[p := r[i]][..|r|], start, i, p)
  {
    var r', q := data[p := r[i]][..|r|], r[..p] + [r[i]] + r[p..i] + r[i + 1..];
    forall k | 0 <= k < |r|
      ensures r'[k] == q[k]
    {
      if p < k <= i {
        var h := k - 1;
        assert MovedUp(r, data, h);
      }
    }
  }

  /** One round of the outer loop. */
  method InsertByCallback(
    arr: CScriptArray, answers: Callback, calls: nat, start: nat, i: nat, ghost ordered: bool,
    ghost less: (int, int) -> bool)
    returns (calls': nat, ghost p: nat)
    requires arr.Valid() && start < i < arr.numElements
    requires ordered ==> Follows(answers, less)
    modifies arr.data
    ensures arr.Valid() && Inserted(old(arr.Contents()), arr.Contents(), start, i, p)
    ensures ordered ==> RightPlace(old(arr.Contents()), start, i, p, less)
  {
    hide StrictWeakOrder, Shifted, Inserted, AllocationFits, WrappingNext, WrappingPrevious;
    ghost var r := arr.Contents();
    calls' := calls;
    var data := arr.data;
    var tmp := data[i];
    var j := i - 1;
    ShiftStart(r, data[..], i);
    while j != 0xFFFF_FFFF && j >= start
      invariant 0 <= j < 0x1_0000_0000 && start - 1 <= AsIndex(j) < i
      invariant Shifted(r, data[..], AsIndex(j) + 1, i)
      invariant ordered ==> forall k :: AsIndex(j) < k < i ==> less(tmp, r[k])
      decreases AsIndex(j)
    {
      ShiftNext(r, data[..], AsIndex(j) + 1, i);
      var answer := answers(calls', tmp, data[j]);
      calls' := calls' + 1;
      if answer != Yes {
        break;
      }
      data[WrappingNext(j)] := data[j];
      j := WrappingPrevious(j);
    }
    p := AsIndex(j) + 1;
    ShiftEnd(r, data[..], start, p, i);
    data[WrappingNext(j)] := tmp;
  }

  /** Sort with a script function. */
  method SortByCallback(
    arr: CScriptArray, answers: Callback, startAt: nat, count: nat, ghost ordered: bool, ghost less: (int, int) -> bool)
    requires arr.Valid() && startAt < 0x1_0000_0000 && count < 0x1_0000_0000
    requires ordered ==> Follows(answers, less) && StrictWeakOrder(less)
    modifies arr.data
    ensures arr.Valid()
    ensures
      if count < 2 || startAt >= old(arr.numElements) then arr.Contents() == old(arr.Contents())
      else
        SortedRange(
          old(arr.Contents()), arr.Contents(), startAt, Min(startAt + count, arr.numElements), ordered, less)
  {
    hide StrictWeakOrder, SortedSoFar, SortedRange, Inserted, RightPlace, Follows;
    if count < 2 {
      return;
    }
    var start := startAt;
    var end := if startAt + count >= 0x1_0000_0000 then 0xFFFF_FFFF else startAt + count;
    if end > arr.numElements {
      end := arr.numElements;
    }
    if start >= arr.numElements {
      return;
    }
    ghost var s := arr.Contents();
    SortStart(s, start, ordered, less);
    var calls: nat := 0;
    var i := start + 1;
    while i < end
      invariant arr.Valid() && start < i <= end <= arr.numElements == |s|
      invariant SortedSoFar(s, arr.Contents(), start, i, ordered, less)
    {
      ghost var r := arr.Contents();
      ghost var p;
      calls, p := InsertByCallback(arr, answers, calls, start, i, ordered, less);
      InsertKeeps(s, r, arr.Contents(), start, i, p, ordered, less);
      i := i + 1;
    }
    SortDone(s, arr.Contents(), start, end, ordered, less);
  }
  // ---------- the sort of primitives

  predicate PrimitiveLess(a: int, b: int, asc: bool) {
    if asc then a < b else b < a
  }

  function PrimitiveOrder(asc: bool): (int, int) -> bool {
    (a, b) => PrimitiveLess(a, b, asc)
  }

  predicate Ascending(s: seq<int>) {
    forall k, l :: 0 <= k < l < |s| ==> s[k] <= s[l]
  }

  predicate Descending(s: seq<int>) {
    forall k, l :: 0 <= k < l < |s| ==> s[k] >= s[l]
  }

  lemma {:induction false} SortedUpOrDown(s: seq<int>, r: seq<int>, start: nat, end: nat, asc: bool)
    requires SortedRange(s, r, start, end, true, PrimitiveOrder(asc))
    ensures start <= end <= |r| && if asc then Ascending(r[start..end]) else Descending(r[start..end])
  {
    hide SameOrder;
  }

  lemma {:induction false} PrimitiveOrderStrict(asc: bool)
    ensures StrictWeakOrder(PrimitiveOrder(asc))
  {
  }

  method InsertPrimitive(arr: CScriptArray, start: int, i: int, asc: bool) returns (ghost p: nat)
    requires arr.Valid() && 0 <= start < i < arr.numElements
    modifies arr.data
    ensures arr.Valid() && Inserted(old(arr.Contents()), arr.Contents(), start, i, p)
    ensures RightPlace(old(arr.Contents()), start, i, p, PrimitiveOrder(asc))
  {
    hide Shifted, Inserted, AllocationFits;
    ghost var r := arr.Contents();
    var data := arr.data;
    var tmp := data[i];
    var j := i - 1;
    ShiftStart(r, data[..], i);
    while j >= start && PrimitiveLess(tmp, data[j], asc)
      invariant start - 1 <= j < i
      invariant Shifted(r, data[..], j + 1, i)
      invariant j >= start ==> data[j] == r[j]
      invariant forall k :: j < k < i ==> PrimitiveLess(tmp, r[k], asc)
    {
      ShiftNext(r, data[..], j + 1, i);
      data[j + 1] := data[j];
      j := j - 1;
      if j >= start {
        ShiftNext(r, data[..], j + 1, i);
      }
    }
    p := j + 1;
    ShiftEnd(r, data[..], start, p, i);
    data[j + 1] := tmp;
  }

  /** Sort of primitives, ascending or descending. */
  method SortPrimitives(arr: CScriptArray, startAt: nat, count: nat, asc: bool)
    requires arr.Valid() && !arr.handles && startAt + count < 0x8000_0000
    modifies arr.data
    ensures arr.Valid()
    ensures
      if count < 2 || startAt + count > old(arr.numElements) then arr.Contents() == old(arr.Contents())
      else
        && SortedRange(old(arr.Contents()), arr.Contents(), startAt, startAt + count, true, PrimitiveOrder(asc))
        && if asc then Ascending(arr.Contents()[startAt..startAt + count])
           else Descending(arr.Contents()[startAt..startAt + count])
  {
    hide StrictWeakOrder, SortedSoFar, SortedRange, Inserted, RightPlace, PrimitiveOrder;
    if count < 2 {
      return;
    }
    var start, end := startAt, startAt + count;
    if start >= arr.numElements || end > arr.numElements {
      return;
    }
    ghost var s := arr.Contents();
    SortStart(s, start, true, PrimitiveOrder(asc));
    PrimitiveOrderStrict(asc);
    var i := start + 1;
    while i < end
      invariant arr.Valid() && start < i <= end <= arr.numElements == |s|
      invariant SortedSoFar(s, arr.Contents(), start, i, true, PrimitiveOrder(asc))
    {
      ghost var r := arr.Contents();
      ghost var p := InsertPrimitive(arr, start, i, asc);
      InsertKeeps(s, r, arr.Contents(), start, i, p, true, PrimitiveOrder(asc));
      i := i + 1;
    }
    SortDone(s, arr.Contents(), start, end, true, PrimitiveOrder(asc));
    SortedUpOrDown(s, arr.Contents(), start, end, asc);
  }
}
