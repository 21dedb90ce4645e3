/** Searching strings as the C++ standard library does. */
module Strings {
  import opened Words

  predicate OccursAt(s: string, pattern: string, k: int) {
    0 <= k && k + |pattern| <= |s| && s[k..k + |pattern|] == pattern
  }

  /** std::string::find */
  function Find(s: string, pattern: string, from: nat): (r: Option<nat>)
    ensures r.Some? ==> r.value >= from && OccursAt(s, pattern, r.value)
    ensures r.Some? ==> forall j :: from <= j < r.value ==> !OccursAt(s, pattern, j)
    ensures r.None? ==> forall j :: from <= j ==> !OccursAt(s, pattern, j)
    decreases |s| - from
  {
    if from > |s| then None
    else if OccursAt(s, pattern, from) then Some(from)
    else Find(s, pattern, from + 1)
  }

  /** Searching a suffix. */
  lemma {:induction false} FindInSuffix(s: string, pattern: string, from: nat)
    requires from <= |s|
    ensures Find(s, pattern, from).None? <==> Find(s[from..], pattern, 0).None?
    ensures Find(s, pattern, from).Some? ==> Find(s, pattern, from).value == from + Find(s[from..], pattern, 0).value
  {
    forall j: nat
      ensures OccursAt(s[from..], pattern, j) <==> OccursAt(s, pattern, from + j)
    {
      if from + j + |pattern| <= |s| {
        assert s[from..][j..j + |pattern|] == s[from + j..from + j + |pattern|];
      }
    }
    var r, r' := Find(s, pattern, from), Find(s[from..], pattern, 0);
    if r.Some? {
      var j := r.value - from;
      assert OccursAt(s[from..], pattern, j);
    }
    if r'.Some? {
      assert OccursAt(s, pattern, from + r'.value);
    }
  }
}
