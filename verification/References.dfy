/** Reference counts of script objects. A handle is the number of an object, 0 the null handle. */
module References {
  import opened Words

  /** Objects by number; an object that is not listed is gone. */
  type Refs = map<int, nat>

  function Count(refs: Refs, o: int): nat {
    if o in refs then refs[o] else 0
  }

  /** A reference can only be added to, or taken from, an object that still has one. */
  function AddRef(refs: Refs, o: int): Option<Refs> {
    if o == 0 then Some(refs) else if Count(refs, o) < 1 then None else Some(refs[o := Count(refs, o) + 1])
  }

  function Release(refs: Refs, o: int): Option<Refs> {
    if o == 0 then Some(refs) else if Count(refs, o) < 1 then None else Some(refs[o := Count(refs, o) - 1])
  }

  /** A slot gives up one handle for another; the new object is counted before the old one is let go. */
  function Swap(refs: Refs, taken: int, dropped: int): Option<Refs> {
    match AddRef(refs, taken)
    case None => None
    case Some(r) => Release(r, dropped)
  }

  /** Slot after slot. */
  function SwapAll(refs: Refs, taken: seq<int>, dropped: seq<int>): Option<Refs>
    requires |taken| == |dropped|
  {
    if taken == [] then Some(refs)
    else
      var n := |taken| - 1;
      match SwapAll(refs, taken[..n], dropped[..n])
      case None => None
      case Some(r) => Swap(r, taken[n], dropped[n])
  }

  function Nulls(n: nat): (s: seq<int>)
    ensures |s| == n && forall i :: 0 <= i < n ==> s[i] == 0
  {
    seq(n, i => 0)
  }

  /** How often a handle occurs. */
  function Held(s: seq<int>, o: int): nat {
    multiset(s)[o]
  }

  /** Every handle of s is backed by a reference. */
  ghost predicate Backed(refs: Refs, s: seq<int>) {
    forall o :: o != 0 ==> Held(s, o) <= Count(refs, o)
  }

  /** The counts moved by exactly what the slots took and dropped. */
  ghost predicate Moved(refs: Refs, refs': Refs, taken: seq<int>, dropped: seq<int>) {
    forall o :: o != 0 ==> Count(refs', o) == Count(refs, o) + Held(taken, o) - Held(dropped, o)
  }

  lemma {:induction false} HeldLast(s: seq<int>, o: int)
    requires |s| > 0
    ensures Held(s, o) == Held(s[..|s| - 1], o) + if s[|s| - 1] == o then 1 else 0
  {
    assert s == s[..|s| - 1] + [s[|s| - 1]];
  }

  lemma {:induction false} HeldConcat(s: seq<int>, t: seq<int>, o: int)
    ensures Held(s + t, o) == Held(s, o) + Held(t, o)
  {
  }

  lemma {:induction false} HeldNulls(n: nat, o: int)
    requires o != 0
    ensures Held(Nulls(n), o) == 0
  {
    if o in Nulls(n) {
      assert false;
    }
  }

  lemma {:induction false} SwapAllMoves(refs: Refs, taken: seq<int>, dropped: seq<int>)
    requires |taken| == |dropped| && SwapAll(refs, taken, dropped).Some?
    ensures Moved(refs, SwapAll(refs, taken, dropped).value, taken, dropped)
  {
    if taken != [] {
      var n := |taken| - 1;
      SwapAllMoves(refs, taken[..n], dropped[..n]);
      forall o | o != 0
        ensures Count(SwapAll(refs, taken, dropped).value, o) == Count(refs, o) + Held(taken, o) - Held(dropped, o)
      {
        HeldLast(taken, o);
        HeldLast(dropped, o);
      }
    }
  }

  /** No object is touched after its last reference went, if every handle taken has a reference besides those of the
      slots, and the slots are backed. */
  lemma {:induction false} SwapAllSafe(refs: Refs, taken: seq<int>, dropped: seq<int>)
    requires |taken| == |dropped| && Backed(refs, dropped)
    requires forall o :: o != 0 && o in taken ==> Count(refs, o) > Held(dropped, o)
    ensures SwapAll(refs, taken, dropped).Some?
  {
    if taken != [] {
      var n := |taken| - 1;
      forall o | o != 0
        ensures Held(dropped[..n], o) + (if dropped[n] == o then 1 else 0) == Held(dropped, o)
      {
        HeldLast(dropped, o);
      }
      forall o | o != 0
        ensures Held(dropped[..n], o) <= Count(refs, o)
      {
      }
      SwapAllSafe(refs, taken[..n], dropped[..n]);
      SwapAllMoves(refs, taken[..n], dropped[..n]);
    }
  }

  lemma {:induction false} SwapAllSnoc(refs: Refs, taken: seq<int>, dropped: seq<int>, t: int, d: int)
    requires |taken| == |dropped| && SwapAll(refs, taken, dropped).Some?
    ensures SwapAll(refs, taken + [t], dropped + [d]) == Swap(SwapAll(refs, taken, dropped).value, t, d)
  {
    assert (taken + [t])[..|taken|] == taken;
    assert (dropped + [d])[..|dropped|] == dropped;
  }

  /** The script engine as the array sees it. */
  class Engine {
    var refs: Refs

    method AddRefScriptObject(o: int)
      requires o == 0 || Count(refs, o) >= 1
      modifies this
      ensures AddRef(old(refs), o) == Some(refs)
    {
      if o != 0 {
        refs := refs[o := Count(refs, o) + 1];
      }
    }

    method ReleaseScriptObject(o: int)
      requires o == 0 || Count(refs, o) >= 1
      modifies this
      ensures Release(old(refs), o) == Some(refs)
    {
      if o != 0 {
        refs := refs[o := Count(refs, o) - 1];
      }
    }
  }
}
