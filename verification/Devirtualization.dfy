/** Static resolution of virtual calls against the lookup in the table of the object's class. */
module Devirtualization {
  import opened Words

  /** The implementation of a method; its declaration names the class it belongs to. */
  datatype Function = Function(id: nat, declaration: string, isFinal: bool)

  /** What a call of a method refers to: the class that introduced the method and the method's slot in the tables of
      that class and of all that derive from it. */
  datatype Stub = Stub(objectType: nat, declaration: string, vfTableIdx: nat, isFinal: bool)

  datatype ClassType = ClassType(base: Option<nat>, noInherit: bool, methods: seq<Stub>, vtable: seq<Function>)

  type Hierarchy = seq<ClassType>

  /** Base classes are compiled before the classes that derive from them. */
  ghost predicate BasesFirst(h: Hierarchy) {
    forall d :: 0 <= d < |h| && h[d].base.Some? ==> h[d].base.value < d
  }

  /** The table of a derived class starts with the slots of its base: inherited, or overridden where the base's method
      is not final. */
  ghost predicate ExtendsTable(base: ClassType, derived: ClassType) {
    && |base.vtable| <= |derived.vtable|
    && forall k :: 0 <= k < |base.vtable| && base.vtable[k].isFinal ==> derived.vtable[k] == base.vtable[k]
  }

  ghost predicate InheritsWell(h: Hierarchy, d: nat)
    requires BasesFirst(h) && d < |h|
  {
    h[d].base.Some? ==> !h[h[d].base.value].noInherit && ExtendsTable(h[h[d].base.value], h[d])
  }

  ghost predicate WellFormed(h: Hierarchy) {
    BasesFirst(h) && forall d :: 0 <= d < |h| ==> InheritsWell(h, d)
  }

  /** d is c or derives from it. */
  predicate Derives(h: Hierarchy, d: nat, c: nat)
    requires BasesFirst(h) && d < |h|
    decreases d
  {
    d == c || (h[d].base.Some? && Derives(h, h[d].base.value, c))
  }

  /** A method that class c introduced, with the slots of its methods in order. */
  ghost predicate Introduced(h: Hierarchy, callee: Stub) {
    && callee.objectType < |h|
    && callee in h[callee.objectType].methods
    && (forall i :: 0 <= i < |h[callee.objectType].methods| ==>
      h[callee.objectType].methods[i].vfTableIdx < |h[callee.objectType].vtable|)
    && h[callee.objectType].vtable[callee.vfTableIdx].declaration == callee.declaration
    && h[callee.objectType].vtable[callee.vfTableIdx].isFinal == callee.isFinal
  }

  /** No other method of the class is implemented by a function with the callee's declaration. */
  ghost predicate UniqueDeclaration(h: Hierarchy, callee: Stub)
    requires Introduced(h, callee)
  {
    var c := h[callee.objectType];
    forall i :: 0 <= i < |c.methods| && c.vtable[c.methods[i].vfTableIdx].declaration == callee.declaration ==>
      c.methods[i].vfTableIdx == callee.vfTableIdx
  }

  /** script_vtable_lookup */
  function VtableLookup(h: Hierarchy, dynamicType: nat, callee: Stub): Function
    requires dynamicType < |h| && callee.vfTableIdx < |h[dynamicType].vtable|
  {
    h[dynamicType].vtable[callee.vfTableIdx]
  }

  lemma {:induction false} SlotInDerived(h: Hierarchy, d: nat, callee: Stub)
    requires WellFormed(h) && Introduced(h, callee) && d < |h| && Derives(h, d, callee.objectType)
    ensures callee.vfTableIdx < |h[d].vtable|
    decreases d
  {
    if d == callee.objectType {
      var i :| 0 <= i < |h[d].methods| && h[d].methods[i] == callee;
    } else {
      assert InheritsWell(h, d);
      SlotInDerived(h, h[d].base.value, callee);
    }
  }

  /** get_nonvirtual_match: the first method of the callee's class whose implementation has its declaration. */
  method GetNonvirtualMatch(h: Hierarchy, callee: Stub) returns (found: Option<Function>)
    requires Introduced(h, callee)
    ensures found.Some? && found.value.declaration == callee.declaration
    ensures UniqueDeclaration(h, callee) ==> found == Some(h[callee.objectType].vtable[callee.vfTableIdx])
  {
    var c := h[callee.objectType];
    var methodCount := |c.methods|;
    var declaration := callee.declaration;
    for i := 0 to methodCount
      invariant forall j :: 0 <= j < i ==> c.methods[j] != callee
    {
      var potentialMatch := c.vtable[c.methods[i].vfTableIdx];
      if declaration == potentialMatch.declaration {
        return Some(potentialMatch);
      }
    }
    return None;
  }

  /** The class gives the callee's slot another implementation than its base does. */
  ghost predicate Overrides(h: Hierarchy, d: nat, slot: nat)
    requires BasesFirst(h) && d < |h|
  {
    && h[d].base.Some?
    && slot < |h[d].vtable| && slot < |h[h[d].base.value].vtable|
    && h[d].vtable[slot] != h[h[d].base.value].vtable[slot]
  }

  ghost predicate OverriddenBelow(h: Hierarchy, callee: Stub)
    requires WellFormed(h)
  {
    exists d :: 0 <= d < |h| && OverridesBelow(h, d, callee)
  }

  ghost predicate OverridesBelow(h: Hierarchy, d: nat, callee: Stub)
    requires BasesFirst(h) && d < |h|
  {
    d != callee.objectType && Derives(h, d, callee.objectType) && Overrides(h, d, callee.vfTableIdx)
  }

  /** The lookup gives the same function for every object of the class and of those that derive from it. */
  ghost predicate SameForAll(h: Hierarchy, callee: Stub, f: Function)
    requires WellFormed(h) && Introduced(h, callee)
  {
    forall d :: 0 <= d < |h| && Derives(h, d, callee.objectType) ==> LooksUp(h, d, callee, f)
  }

  ghost predicate LooksUp(h: Hierarchy, d: nat, callee: Stub, f: Function)
    requires d < |h|
  {
    callee.vfTableIdx < |h[d].vtable| && VtableLookup(h, d, callee) == f
  }

  lemma {:induction false} NotOverridden(h: Hierarchy, d: nat, callee: Stub)
    requires WellFormed(h) && Introduced(h, callee) && !OverriddenBelow(h, callee)
    requires d < |h| && Derives(h, d, callee.objectType)
    ensures LooksUp(h, d, callee, h[callee.objectType].vtable[callee.vfTableIdx])
    decreases d
  {
    SlotInDerived(h, d, callee);
    if d != callee.objectType {
      assert !OverridesBelow(h, d, callee);
      NotOverridden(h, h[d].base.value, callee);
    }
  }

  /** Resolving a call statically is right for every object exactly when no class below overrides the method. */
  lemma {:induction false} StaticResolutionExact(h: Hierarchy, callee: Stub)
    requires WellFormed(h) && Introduced(h, callee)
    ensures SameForAll(h, callee, h[callee.objectType].vtable[callee.vfTableIdx]) <==> !OverriddenBelow(h, callee)
  {
    var f := h[callee.objectType].vtable[callee.vfTableIdx];
    if !OverriddenBelow(h, callee) {
      forall d | 0 <= d < |h| && Derives(h, d, callee.objectType)
        ensures LooksUp(h, d, callee, f)
      {
        NotOverridden(h, d, callee);
      }
    }
    if SameForAll(h, callee, f) {
      forall d | 0 <= d < |h|
        ensures !OverridesBelow(h, d, callee)
      {
        if d != callee.objectType && Derives(h, d, callee.objectType) {
          assert LooksUp(h, d, callee, f) && LooksUp(h, h[d].base.value, callee, f);
        }
      }
    }
  }

  /** is_final in resolve_virtual_script_function */
  predicate IsFinal(h: Hierarchy, callee: Stub)
    requires callee.objectType < |h|
  {
    callee.isFinal || h[callee.objectType].noInherit
  }

  /** Nothing derives from a class that may not be inherited from. */
  lemma {:induction false} OnlyItself(h: Hierarchy, d: nat, c: nat)
    requires WellFormed(h) && d < |h| && c < |h| && h[c].noInherit && Derives(h, d, c)
    ensures d == c
    decreases d
  {
    if d != c {
      assert InheritsWell(h, d);
      OnlyItself(h, h[d].base.value, c);
    }
  }

  /** A final method keeps its implementation in every class below. */
  lemma {:induction false} FinalKept(h: Hierarchy, d: nat, callee: Stub)
    requires WellFormed(h) && Introduced(h, callee) && callee.isFinal
    requires d < |h| && Derives(h, d, callee.objectType)
    ensures LooksUp(h, d, callee, h[callee.objectType].vtable[callee.vfTableIdx])
    decreases d
  {
    SlotInDerived(h, d, callee);
    if d != callee.objectType {
      assert InheritsWell(h, d);
      FinalKept(h, h[d].base.value, callee);
    }
  }

  /** The condition under which the compiler devirtualizes rules overriding out. */
  lemma {:induction false} FinalIsNotOverridden(h: Hierarchy, callee: Stub)
    requires WellFormed(h) && Introduced(h, callee) && IsFinal(h, callee)
    ensures SameForAll(h, callee, h[callee.objectType].vtable[callee.vfTableIdx])
    ensures !OverriddenBelow(h, callee)
  {
    var c := callee.objectType;
    forall d | 0 <= d < |h| && Derives(h, d, c)
      ensures LooksUp(h, d, callee, h[c].vtable[callee.vfTableIdx])
    {
      SlotInDerived(h, d, callee);
      if callee.isFinal {
        FinalKept(h, d, callee);
      } else {
        OnlyItself(h, d, c);
      }
    }
    StaticResolutionExact(h, callee);
  }

  /** The code for a virtual call: a direct call, or a lookup at run time. */
  datatype Resolved = Direct(f: Function) | Lookup(slot: nat)

  /** The function the resolved call runs on an object. */
  function Dispatched(h: Hierarchy, r: Resolved, dynamicType: nat): Option<Function>
    requires dynamicType < |h|
  {
    match r
    case Direct(f) => Some(f)
    case Lookup(slot) => if slot < |h[dynamicType].vtable| then Some(h[dynamicType].vtable[slot]) else None
  }

  /** resolve_virtual_script_function, with and without devirtualization, runs what the object's class says. */
  method ResolveVirtualScriptFunction(h: Hierarchy, callee: Stub, allowDevirtualization: bool) returns (r: Resolved)
    requires WellFormed(h) && Introduced(h, callee) && UniqueDeclaration(h, callee)
    ensures r.Direct? <==> allowDevirtualization && IsFinal(h, callee)
    ensures forall d :: 0 <= d < |h| && Derives(h, d, callee.objectType) ==>
      callee.vfTableIdx < |h[d].vtable| && Dispatched(h, r, d) == Some(VtableLookup(h, d, callee))
  {
    if allowDevirtualization && (callee.isFinal || h[callee.objectType].noInherit) {
      var resolved := GetNonvirtualMatch(h, callee);
      FinalIsNotOverridden(h, callee);
      r := Direct(resolved.value);
      forall d | 0 <= d < |h| && Derives(h, d, callee.objectType)
        ensures callee.vfTableIdx < |h[d].vtable| && Dispatched(h, r, d) == Some(VtableLookup(h, d, callee))
      {
        assert LooksUp(h, d, callee, resolved.value);
      }
    } else {
      r := Lookup(callee.vfTableIdx);
      forall d | 0 <= d < |h| && Derives(h, d, callee.objectType)
        ensures callee.vfTableIdx < |h[d].vtable|
      {
        SlotInDerived(h, d, callee);
      }
    }
  }
}
