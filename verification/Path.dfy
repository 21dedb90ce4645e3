/** Rewriting a file name to an absolute path by finding and erasing "/./" and "/../", against the evaluation of its
    components on a stack. */
module Paths {
  import opened Words
  import opened Strings

  /** std::string::rfind of a slash at or before a position */
  function FindSlashBack(s: string, last: int): (r: Option<nat>)
    requires last < |s|
    ensures r.Some? ==> r.value <= last && s[r.value] == '/' && forall j :: r.value < j <= last ==> s[j] != '/'
    ensures r.None? ==> forall j :: 0 <= j <= last ==> s[j] != '/'
    decreases last + 1
  {
    if last < 0 then None else if s[last] == '/' then Some(last) else FindSlashBack(s, last - 1)
  }

  /** std::string::erase; a count that passes the end erases up to it. */
  function Erase(s: string, from: nat, count: nat): string
    requires from <= |s|
  {
    if from + count >= |s| then s[..from] else s[..from] + s[from + count..]
  }

  // ---------- paths as components

  predicate Plain(part: string) {
    forall k :: 0 <= k < |part| ==> part[k] != '/'
  }

  ghost predicate PlainParts(parts: seq<string>) {
    |parts| > 0 && forall i :: 0 <= i < |parts| ==> Plain(parts[i])
  }

  function Join(parts: seq<string>): string
    requires |parts| > 0
  {
    var n := |parts| - 1;
    if n == 0 then parts[0] else Join(parts[..n]) + "/" + parts[n]
  }

  function Parts(s: string): (parts: seq<string>)
    ensures |parts| > 0
  {
    if s == "" then [""]
    else
      var c, parts := s[|s| - 1], Parts(s[..|s| - 1]);
      var n := |parts| - 1;
      if c == '/' then parts + [""] else parts[..n] + [parts[n] + [c]]
  }

  lemma {:induction false} PartsJoin(s: string)
    ensures PlainParts(Parts(s)) && Join(Parts(s)) == s
  {
    if s != "" {
      var rest := s[..|s| - 1];
      PartsJoin(rest);
      var parts, c := Parts(rest), s[|s| - 1];
      var n := |parts| - 1;
      assert s == rest + [c];
      if c == '/' {
        assert (parts + [""])[..n + 1] == parts;
      } else {
        var parts' := parts[..n] + [parts[n] + [c]];
        assert parts'[..n] == parts[..n];
        assert Parts(s) == parts';
      }
    }
  }

  /** Where the slash before component k is. */
  function SlashBefore(parts: seq<string>, k: nat): nat
    requires 0 < k < |parts|
  {
    |Join(parts[..k])|
  }

  lemma {:induction false} JoinPrefix(parts: seq<string>, k: nat) returns (tail: string)
    requires 0 < k < |parts|
    ensures Join(parts) == Join(parts[..k]) + "/" + tail
    ensures tail == Join(parts[k..])
    decreases |parts|
  {
    var n := |parts| - 1;
    if k == n {
      tail := parts[n];
    } else {
      var tail' := JoinPrefix(parts[..n], k);
      assert parts[..n][..k] == parts[..k];
      assert parts[..n][k..] == parts[k..][..n - k];
      tail := tail' + "/" + parts[n];
      assert Join(parts) == Join(parts[..k]) + "/" + tail;
    }
  }

  lemma {:induction false} SlashesIncrease(parts: seq<string>, j: nat, k: nat)
    requires 0 < j < k < |parts|
    ensures SlashBefore(parts, j) < SlashBefore(parts, k)
  {
    var tail := JoinPrefix(parts[..k], j);
    assert parts[..k][..j] == parts[..j];
  }

  /** The text around component k. */
  lemma {:induction false} AroundPart(parts: seq<string>, k: nat)
    requires 0 < k < |parts| - 1
    ensures Join(parts) == Join(parts[..k]) + "/" + parts[k] + "/" + Join(parts[k + 1..])
  {
    var tail := JoinPrefix(parts, k + 1);
    assert parts[..k + 1][..k] == parts[..k];
  }

  lemma {:induction false} WithoutPart(parts: seq<string>, j: nat, k: nat)
    requires 0 < j <= k < |parts|
    ensures Join(parts[..j] + parts[k..]) == Join(parts[..j]) + "/" + Join(parts[k..])
  {
    var p := parts[..j] + parts[k..];
    var tail := JoinPrefix(p, j);
    assert p[..j] == parts[..j] && p[j..] == parts[k..];
  }

  /** The last slash of a path separates its last component. */
  lemma {:induction false} LastSlash(parts: seq<string>, q: nat)
    requires PlainParts(parts)
    requires q < |Join(parts)| && Join(parts)[q] == '/' && Plain(Join(parts)[q + 1..])
    ensures |parts| >= 2 && q == SlashBefore(parts, |parts| - 1) && Join(parts)[q + 1..] == parts[|parts| - 1]
  {
    var n, s := |parts| - 1, Join(parts);
    forall j | q < j < |s|
      ensures s[j] != '/'
    {
      assert s[j] == s[q + 1..][j - q - 1];
    }
    assert Plain(parts[n]);
    if n > 0 {
      var l := |Join(parts[..n])|;
      assert s[l] == '/' && s[l + 1..] == parts[n];
      forall j | l < j < |s|
        ensures s[j] != '/'
      {
        assert s[j] == s[l + 1..][j - l - 1];
      }
    }
  }

  function Between(name: string): string {
    "/" + name + "/"
  }

  /** Component k is an inner one with the given name. */
  predicate NamedAt(parts: seq<string>, name: string, k: int) {
    0 < k < |parts| - 1 && parts[k] == name
  }

  lemma {:induction false} NamedOccurs(parts: seq<string>, name: string, k: nat)
    requires NamedAt(parts, name, k)
    ensures OccursAt(Join(parts), Between(name), SlashBefore(parts, k))
  {
    AroundPart(parts, k);
    var s, q := Join(parts), SlashBefore(parts, k);
    assert s == s[..q] + Between(name) + Join(parts[k + 1..]);
  }

  lemma {:induction false} MiddleOfOccurrence(s: string, name: string, q: nat)
    requires OccursAt(s, Between(name), q)
    ensures s[q] == '/' && s[q + |name| + 1] == '/' && s[q + 1..q + |name| + 1] == name
  {
    var t := s[q..q + |name| + 2];
    assert t == Between(name);
    assert s[q] == t[0] && s[q + |name| + 1] == t[|name| + 1];
    forall i | 0 <= i < |name|
      ensures s[q + 1 + i] == name[i]
    {
      assert t[i + 1] == Between(name)[i + 1];
    }
    assert s[q + 1..q + |name| + 1] == name;
  }

  /** A name between two slashes is an inner component. */
  lemma {:induction false} OccursNamed(parts: seq<string>, name: string, q: nat) returns (k: nat)
    requires PlainParts(parts) && Plain(name) && OccursAt(Join(parts), Between(name), q)
    ensures NamedAt(parts, name, k) && q == SlashBefore(parts, k)
    decreases |parts|
  {
    var n, s := |parts| - 1, Join(parts);
    var e := q + |name| + 1;
    MiddleOfOccurrence(s, name, q);
    assert Plain(parts[n]);
    if n > 0 {
      var front := Join(parts[..n]);
      assert s == front + "/" + parts[n];
      forall j | |front| < j < |s|
        ensures s[j] != '/'
      {
        assert s[j] == parts[n][j - |front| - 1];
      }
      if e < |front| {
        assert s[q..e + 1] == front[q..e + 1];
        k := OccursNamed(parts[..n], name, q);
        assert parts[..n][..k] == parts[..k];
      } else {
        assert front[q + 1..] == s[q + 1..e];
        LastSlash(parts[..n], q);
        k := n - 1;
        assert parts[..n][..k] == parts[..k];
      }
    }
  }
  // ---------- evaluation on a stack

  /** Either the path is reached, or ".." is met with only the root left; the path up to there is evaluated. */
  datatype Evaluation = Reached(parts: seq<string>) | Climbs(parts: seq<string>)

  /** The components without "."; the last one stays. */
  function NoDots(todo: seq<string>): (r: seq<string>)
    ensures todo != [] ==> r != []
    decreases |todo|
  {
    if |todo| <= 1 then todo
    else if todo[0] == "." then NoDots(todo[1..])
    else [todo[0]] + NoDots(todo[1..])
  }

  /** Components go on the stack, "." is dropped, ".." pops; the last component is left as it is. */
  function Evaluate(stack: seq<string>, todo: seq<string>): (e: Evaluation)
    requires |stack| > 0
    ensures |e.parts| > 0 && e.parts[0] == stack[0]
    decreases |todo|
  {
    if |todo| <= 1 then Reached(stack + todo)
    else if todo[0] == "." then Evaluate(stack, todo[1..])
    else if todo[0] == ".." then
      if |stack| == 1 then Climbs(stack + NoDots(todo)) else Evaluate(stack[..|stack| - 1], todo[1..])
    else Evaluate(stack + [todo[0]], todo[1..])
  }

  /** The path without its inner ".". */
  function Undotted(parts: seq<string>): (r: seq<string>)
    requires |parts| > 0
    ensures |r| > 0
  {
    parts[..1] + NoDots(parts[1..])
  }

  /** The root, then the components. */
  function EvaluateParts(parts: seq<string>): Evaluation
    requires |parts| > 0
  {
    Evaluate(parts[..1], parts[1..])
  }

  lemma {:induction false} NoDotsSkips(a: seq<string>, b: seq<string>)
    requires |b| > 0
    ensures NoDots(a + ["."] + b) == NoDots(a + b)
    decreases |a|
  {
    if a == [] {
      assert (["."] + b)[1..] == b;
      assert [] + ["."] + b == ["."] + b && [] + b == b;
    } else {
      NoDotsSkips(a[1..], b);
      assert (a + ["."] + b)[1..] == a[1..] + ["."] + b;
      assert (a + b)[1..] == a[1..] + b;
    }
  }

  /** "." means nothing. */
  lemma {:induction false} DotSkipped(stack: seq<string>, a: seq<string>, b: seq<string>)
    requires |stack| > 0 && |b| > 0
    ensures Evaluate(stack, a + ["."] + b) == Evaluate(stack, a + b)
    decreases |a|
  {
    if a == [] {
      assert (["."] + b)[1..] == b;
      assert [] + ["."] + b == ["."] + b && [] + b == b;
    } else {
      assert (a + ["."] + b)[1..] == a[1..] + ["."] + b;
      assert (a + b)[1..] == a[1..] + b;
      if a[0] == "." {
        DotSkipped(stack, a[1..], b);
      } else if a[0] == ".." {
        if |stack| == 1 {
          NoDotsSkips(a, b);
        } else {
          DotSkipped(stack[..|stack| - 1], a[1..], b);
        }
      } else {
        DotSkipped(stack + [a[0]], a[1..], b);
      }
    }
  }

  predicate Ordinary(part: string) {
    part != "." && part != ".."
  }

  /** The first ".." takes the component before it. */
  lemma {:induction false} PairSkipped(stack: seq<string>, a: seq<string>, x: string, b: seq<string>)
    requires |stack| > 0 && |b| > 0 && Ordinary(x)
    requires forall i :: 0 <= i < |a| ==> Ordinary(a[i])
    ensures Evaluate(stack, a + [x] + [".."] + b) == Evaluate(stack, a + b)
    decreases |a|
  {
    if a == [] {
      var todo := [x] + [".."] + b;
      assert [] + [x] + [".."] + b == todo && [] + b == b;
      assert todo[1..] == [".."] + b;
      assert ([".."] + b)[1..] == b;
      assert (stack + [x])[..|stack|] == stack;
      assert Evaluate(stack, todo) == Evaluate(stack + [x], [".."] + b);
    } else {
      PairSkipped(stack + [a[0]], a[1..], x, b);
      assert (a + [x] + [".."] + b)[1..] == a[1..] + [x] + [".."] + b;
      assert (a + b)[1..] == a[1..] + b;
    }
  }

  lemma {:induction false} NothingSkipped(stack: seq<string>, todo: seq<string>)
    requires |stack| > 0 && forall i :: 0 <= i < |todo| - 1 ==> Ordinary(todo[i])
    ensures Evaluate(stack, todo) == Reached(stack + todo)
    decreases |todo|
  {
    if |todo| > 1 {
      NothingSkipped(stack + [todo[0]], todo[1..]);
      assert stack + [todo[0]] + todo[1..] == stack + todo;
    }
  }

  lemma {:induction false} NoDotsLeft(todo: seq<string>)
    requires forall i :: 0 <= i < |todo| - 1 ==> todo[i] != "."
    ensures NoDots(todo) == todo
    decreases |todo|
  {
    if |todo| > 1 {
      NoDotsLeft(todo[1..]);
    }
  }

  // ---------- the loops

  function Slashed(s: string): (r: string)
    ensures |r| == |s| && forall k :: 0 <= k < |s| ==> r[k] == if s[k] == '\\' then '/' else s[k]
  {
    seq(|s|, k requires 0 <= k < |s| => if s[k] == '\\' then '/' else s[k])
  }

  /** No inner component of the name starts before pos. */
  ghost predicate NoneBefore(parts: seq<string>, name: string, pos: int) {
    forall k :: NamedAt(parts, name, k) ==> pos <= SlashBefore(parts, k)
  }

  method ReplaceBackslashes(s: string) returns (str: string)
    ensures str == Slashed(s)
  {
    str := s;
    var pos := 0;
    var found := Find(str, "\\", pos);
    while found.Some?
      invariant |str| == |s| && 0 <= pos <= |s|
      invariant found == Find(str, "\\", pos)
      invariant Slashed(str) == Slashed(s)
      invariant forall k :: 0 <= k < pos ==> str[k] != '\\'
      decreases |s| - pos, if pos < |s| && str[pos] == '\\' then 1 else 0
    {
      NotBefore(str, pos, found.value);
      pos := found.value;
      str := str[pos := '/'];
      found := Find(str, "\\", pos);
    }
    NotAfter(str, pos);
  }

  lemma {:induction false} NotBefore(str: string, pos: nat, q: nat)
    requires Find(str, "\\", pos) == Some(q)
    ensures pos <= q < |str| && str[q] == '\\' && forall k :: pos <= k < q ==> str[k] != '\\'
  {
    assert OccursAt(str, "\\", q);
    assert str[q] == str[q..q + 1][0];
    forall k | pos <= k < q
      ensures str[k] != '\\'
    {
      assert !OccursAt(str, "\\", k);
      assert str[k..k + 1] == [str[k]];
    }
  }

  lemma {:induction false} NotAfter(str: string, pos: nat)
    requires Find(str, "\\", pos).None?
    ensures forall k :: pos <= k < |str| ==> str[k] != '\\'
  {
    forall k | pos <= k < |str|
      ensures str[k] != '\\'
    {
      assert !OccursAt(str, "\\", k);
      assert str[k..k + 1] == [str[k]];
    }
  }

  /** Erasing an inner "." erases that component. */
  lemma {:induction false} DotErased(parts: seq<string>, q: nat, pos: nat) returns (k: nat, parts': seq<string>)
    requires PlainParts(parts) && Find(Join(parts), "/./", pos) == Some(q) && NoneBefore(parts, ".", pos)
    ensures 0 < k < |parts| - 1 && parts' == parts[..k] + parts[k + 1..] && PlainParts(parts')
    ensures q + 3 <= |Join(parts)| && Erase(Join(parts), q + 1, 2) == Join(parts')
    ensures NoneBefore(parts', ".", q)
    ensures parts'[..1] == parts[..1] && NoDots(parts'[1..]) == NoDots(parts[1..])
    ensures EvaluateParts(parts') == EvaluateParts(parts)
  {
    assert Between(".") == "/./";
    k := OccursNamed(parts, ".", q);
    parts' := parts[..k] + parts[k + 1..];
    DotTextErased(parts, k);
    DotKeepsMeaning(parts, k);
    hide EvaluateParts, Join, Erase, Plain, NoDots;
    forall j | NamedAt(parts', ".", j)
      ensures q <= SlashBefore(parts', j)
    {
      DotsAfter(parts, k, q, pos, j);
    }
  }

  lemma {:induction false} DotTextErased(parts: seq<string>, k: nat)
    requires NamedAt(parts, ".", k)
    ensures
      var s, q := Join(parts), SlashBefore(parts, k);
      q + 3 <= |s| && Erase(s, q + 1, 2) == Join(parts[..k] + parts[k + 1..])
  {
    var s, q := Join(parts), SlashBefore(parts, k);
    AroundPart(parts, k);
    WithoutPart(parts, k, k + 1);
    hide Join;
    assert s[q + 3..] == Join(parts[k + 1..]);
    assert s[..q + 1] == Join(parts[..k]) + "/";
  }

  lemma {:induction false} DotKeepsMeaning(parts: seq<string>, k: nat)
    requires NamedAt(parts, ".", k)
    ensures
      var parts' := parts[..k] + parts[k + 1..];
      && parts'[..1] == parts[..1]
      && NoDots(parts'[1..]) == NoDots(parts[1..])
      && EvaluateParts(parts') == EvaluateParts(parts)
  {
    var parts' := parts[..k] + parts[k + 1..];
    var a, b := parts[1..k], parts[k + 1..];
    assert parts[1..] == a + ["."] + b;
    assert parts'[1..] == a + b && parts'[..1] == parts[..1];
    DotSkipped(parts[..1], a, b);
    NoDotsSkips(a, b);
  }

  /** An inner "." that is still there is not before the erased one. */
  lemma {:induction false} DotsAfter(parts: seq<string>, k: nat, q: nat, pos: nat, j: nat)
    requires 0 < k < |parts| - 1 && q == SlashBefore(parts, k)
    requires Find(Join(parts), "/./", pos) == Some(q) && NoneBefore(parts, ".", pos)
    requires NamedAt(parts[..k] + parts[k + 1..], ".", j)
    ensures q <= SlashBefore(parts[..k] + parts[k + 1..], j)
  {
    var parts' := parts[..k] + parts[k + 1..];
    if j < k {
      assert parts'[..j] == parts[..j];
      NamedOccurs(parts, ".", j);
      assert Between(".") == "/./";
      assert pos <= SlashBefore(parts, j);
    } else if j == k {
      assert parts'[..k] == parts[..k];
    } else {
      assert parts'[..k] == parts[..k];
      SlashesIncrease(parts', k, j);
    }
  }

  ghost predicate DotsGone(parts: seq<string>) {
    forall k :: !NamedAt(parts, ".", k)
  }

  /** "/./" is erased until every inner "." is gone. */
  method EraseDots(s: string, ghost parts: seq<string>) returns (str: string)
    requires PlainParts(parts) && s == Join(parts)
    ensures str == Join(Undotted(parts))
    ensures PlainParts(Undotted(parts)) && DotsGone(Undotted(parts))
    ensures EvaluateParts(Undotted(parts)) == EvaluateParts(parts)
  {
    hide Join, Erase, EvaluateParts, Plain, NamedAt, NoDots;
    str := s;
    ghost var parts' := parts;
    assert Between(".") == "/./";
    var pos := 0;
    var found := Find(str, "/./", pos);
    while found.Some?
      invariant PlainParts(parts') && str == Join(parts') && 0 <= pos
      invariant found == Find(str, "/./", pos)
      invariant NoneBefore(parts', ".", pos)
      invariant Undotted(parts') == Undotted(parts) && EvaluateParts(parts') == EvaluateParts(parts)
      decreases |parts'|
    {
      ghost var k;
      k, parts' := DotErased(parts', found.value, pos);
      pos := found.value;
      str := Erase(str, pos + 1, 2);
      found := Find(str, "/./", pos);
    }
    NoneFound(parts', ".", pos);
    NothingToUndot(parts');
  }

  lemma {:induction false} NothingToUndot(parts: seq<string>)
    requires |parts| > 0 && DotsGone(parts)
    ensures Undotted(parts) == parts
  {
    forall i | 0 <= i < |parts[1..]| - 1
      ensures parts[1..][i] != "."
    {
      var j := i + 1;
      assert !NamedAt(parts, ".", j);
    }
    NoDotsLeft(parts[1..]);
    assert parts[..1] + parts[1..] == parts;
  }

  lemma {:induction false} NoneFound(parts: seq<string>, name: string, pos: nat)
    requires PlainParts(parts) && NoneBefore(parts, name, pos) && Find(Join(parts), Between(name), pos).None?
    ensures forall k :: !NamedAt(parts, name, k)
  {
    forall k
      ensures !NamedAt(parts, name, k)
    {
      if NamedAt(parts, name, k) {
        NamedOccurs(parts, name, k);
        assert false;
      }
    }
  }

  // ---------- parent directories

  /** One round of the last loop: no "/../" left, no slash before it, or the path after erasing. */
  datatype Round = Finished | Broken | Next(str: string)

  /** std::string::rfind from pos - 1, which for pos 0 is the end of the string. */
  function SlashBeforePosition(str: string, pos: nat): (r: Option<nat>)
    requires pos < |str|
  {
    FindSlashBack(str, if pos == 0 then |str| - 1 else pos - 1)
  }

  /** The count is unsigned: if the slash lies behind, it wraps around and everything from there on is erased. */
  function EraseCount(str: string, pos: nat, pos2: nat): nat {
    if pos2 <= pos + 3 then pos + 3 - pos2 else |str|
  }

  function ParentRound(str: string): Round {
    match Find(str, "/../", 0)
    case None => Finished
    case Some(pos) =>
      match SlashBeforePosition(str, pos)
      case None => Broken
      case Some(pos2) => Next(Erase(str, pos2, EraseCount(str, pos, pos2)))
  }

  /** The first ".." is component k. */
  lemma {:induction false} FirstParent(parts: seq<string>, q: nat) returns (k: nat)
    requires PlainParts(parts) && Find(Join(parts), "/../", 0) == Some(q)
    ensures NamedAt(parts, "..", k) && q == SlashBefore(parts, k)
    ensures forall j :: 0 < j < k ==> parts[j] != ".."
  {
    assert Between("..") == "/../";
    k := OccursNamed(parts, "..", q);
    forall j | 0 < j < k
      ensures parts[j] != ".."
    {
      SlashesIncrease(parts, j, k);
      if NamedAt(parts, "..", j) {
        NamedOccurs(parts, "..", j);
        assert false;
      }
    }
  }

  /** With a component before it, the first ".." is erased together with that component. */
  lemma {:induction false} ParentErased(parts: seq<string>, k: nat) returns (parts': seq<string>)
    requires PlainParts(parts) && NamedAt(parts, "..", k) && k >= 2
    requires Find(Join(parts), "/../", 0) == Some(SlashBefore(parts, k))
    ensures parts' == parts[..k - 1] + parts[k + 1..] && PlainParts(parts')
    ensures ParentRound(Join(parts)) == Next(Join(parts'))
  {
    hide Join, Find, Plain;
    var s, q, p := Join(parts), SlashBefore(parts, k), SlashBefore(parts, k - 1);
    parts' := parts[..k - 1] + parts[k + 1..];
    ParentText(parts, k);
    SlashFound(s, p, q);
    WithoutPart(parts, k - 1, k + 1);
  }

  /** The text around a component and the ".." behind it. */
  lemma {:induction false} ParentText(parts: seq<string>, k: nat)
    requires PlainParts(parts) && NamedAt(parts, "..", k) && k >= 2
    ensures
      var s, q, p := Join(parts), SlashBefore(parts, k), SlashBefore(parts, k - 1);
      && p < q && q + 3 < |s|
      && s[p] == '/' && s[p + 1..q] == parts[k - 1]
      && s[..p] == Join(parts[..k - 1])
      && s[q + 3..] == "/" + Join(parts[k + 1..])
  {
    AroundPart(parts, k);
    assert parts[..k][..k - 1] == parts[..k - 1];
    assert Join(parts[..k]) == Join(parts[..k - 1]) + "/" + parts[k - 1];
    hide Join, PlainParts, NamedAt;
    var s, a := Join(parts), Join(parts[..k - 1]);
    assert s == a + "/" + parts[k - 1] + "/" + ".." + "/" + Join(parts[k + 1..]);
  }

  lemma {:induction false} SlashFound(s: string, p: nat, q: nat)
    requires p < q < |s| && s[p] == '/' && Plain(s[p + 1..q])
    ensures SlashBeforePosition(s, q) == Some(p)
  {
    forall j | p < j < q
      ensures s[j] != '/'
    {
      assert s[j] == s[p + 1..q][j - p - 1];
    }
  }

  lemma {:induction false} ParentKeepsMeaning(parts: seq<string>, k: nat)
    requires NamedAt(parts, "..", k) && k >= 2 && DotsGone(parts)
    requires forall j :: 0 < j < k ==> parts[j] != ".."
    ensures EvaluateParts(parts[..k - 1] + parts[k + 1..]) == EvaluateParts(parts)
    ensures DotsGone(parts[..k - 1] + parts[k + 1..])
  {
    var parts' := parts[..k - 1] + parts[k + 1..];
    var a, x, b := parts[1..k - 1], parts[k - 1], parts[k + 1..];
    assert parts[1..] == a + [x] + [".."] + b;
    assert parts'[1..] == a + b && parts'[..1] == parts[..1];
    forall j | 0 < j < k
      ensures Ordinary(parts[j])
    {
      assert !NamedAt(parts, ".", j);
    }
    PairSkipped(parts[..1], a, x, b);
    forall j
      ensures !NamedAt(parts', ".", j)
    {
      assert !NamedAt(parts, ".", j) && !NamedAt(parts, ".", j + 2);
    }
  }

  /** The first ".." right behind the root. */
  lemma {:induction false} ClimbAtRoot(parts: seq<string>)
    requires PlainParts(parts) && NamedAt(parts, "..", 1) && DotsGone(parts)
    requires Find(Join(parts), "/../", 0) == Some(SlashBefore(parts, 1))
    ensures EvaluateParts(parts) == Climbs(parts)
    ensures parts[0] != "" ==> ParentRound(Join(parts)) == Broken
    ensures parts[0] == "" ==> OccursAt(Join(parts), "/../", 0)
  {
    forall i | 0 <= i < |parts[1..]| - 1
      ensures parts[1..][i] != "."
    {
      var j := i + 1;
      assert !NamedAt(parts, ".", j);
    }
    NoDotsLeft(parts[1..]);
    assert parts[..1] + parts[1..] == parts;
    RootText(parts);
    hide Join, Find;
    assert parts[..1] == [parts[0]];
  }

  lemma {:induction false} RootText(parts: seq<string>)
    requires PlainParts(parts) && |parts| >= 2
    ensures |parts[0]| < |Join(parts)| && Join(parts)[..|parts[0]|] == parts[0]
    ensures |parts[0]| == SlashBefore(parts, 1)
    ensures parts[0] != "" ==> SlashBeforePosition(Join(parts), |parts[0]|).None?
  {
    var tail := JoinPrefix(parts, 1);
    assert parts[..1] == [parts[0]];
    hide Join;
    var s, n := Join(parts), |parts[0]|;
    assert s[..n] == parts[0];
    forall j | 0 <= j < n
      ensures s[j] != '/'
    {
      assert s[j] == s[..n][j];
    }
  }

  lemma {:induction false} NoParents(parts: seq<string>)
    requires PlainParts(parts) && DotsGone(parts) && Find(Join(parts), "/../", 0).None?
    ensures EvaluateParts(parts) == Reached(parts)
  {
    assert Between("..") == "/../";
    NoneFound(parts, "..", 0);
    forall i | 0 <= i < |parts[1..]| - 1
      ensures Ordinary(parts[1..][i])
    {
      var j := i + 1;
      assert !NamedAt(parts, ".", j) && !NamedAt(parts, "..", j);
    }
    NothingSkipped(parts[..1], parts[1..]);
    assert parts[..1] + parts[1..] == parts;
  }

  /** A rooted path that climbs. */
  predicate ClimbsAboveRoot(e: Evaluation)
    requires |e.parts| > 0
  {
    e.Climbs? && e.parts[0] == ""
  }

  method EraseParents(s: string, ghost parts: seq<string>) returns (str: string)
    requires PlainParts(parts) && s == Join(parts) && DotsGone(parts)
    requires !ClimbsAboveRoot(EvaluateParts(parts))
    ensures str == Join(EvaluateParts(parts).parts)
  {
    hide Join, Plain, EvaluateParts, DotsGone, NamedAt;
    str := s;
    ghost var p := parts;
    var found := Find(str, "/../", 0);
    while found.Some?
      invariant PlainParts(p) && str == Join(p) && DotsGone(p)
      invariant found == Find(str, "/../", 0)
      invariant EvaluateParts(p) == EvaluateParts(parts)
      decreases |p|
    {
      var pos := found.value;
      ghost var k := FirstParent(p, pos);
      NamedInside(p, "..", k);
      if k == 1 {
        ClimbAtRoot(p);
      }
      var pos2 := SlashBeforePosition(str, pos);
      if pos2.None? {
        NoSlashMeansRoot(p, k);
        return;
      }
      ghost var p' := ParentErased(p, k);
      ParentKeepsMeaning(p, k);
      p := p';
      str := Erase(str, pos2.value, EraseCount(str, pos, pos2.value));
      found := Find(str, "/../", 0);
    }
    NoParents(p);
  }

  lemma {:induction false} NamedInside(parts: seq<string>, name: string, k: nat)
    requires NamedAt(parts, name, k)
    ensures 0 < k < |parts| - 1
  {
  }

  lemma {:induction false} NoSlashMeansRoot(parts: seq<string>, k: nat)
    requires PlainParts(parts) && NamedAt(parts, "..", k)
    requires Find(Join(parts), "/../", 0) == Some(SlashBefore(parts, k))
    requires SlashBeforePosition(Join(parts), SlashBefore(parts, k)).None?
    ensures k == 1
  {
    if k >= 2 {
      var parts' := ParentErased(parts, k);
      assert false;
    }
  }

  // ---------- the whole rewriting

  function EvaluatePath(s: string): (e: Evaluation)
    ensures |e.parts| > 0
  {
    EvaluateParts(Parts(s))
  }

  /** Names that start with neither slash nor backslash and contain no colon. */
  predicate IsRelative(file: string) {
    (file == "" || (file[0] != '/' && file[0] != '\\')) && ':' !in file
  }

  lemma {:induction false} ColonFound(file: string)
    ensures Find(file, ":", 0).Some? <==> ':' in file
  {
    if ':' in file {
      var k :| 0 <= k < |file| && file[k] == ':';
      assert file[k..k + 1] == ":";
      assert OccursAt(file, ":", k);
    }
    var found := Find(file, ":", 0);
    if found.Some? {
      assert file[found.value..found.value + 1][0] == ':';
    }
  }

  function WithChar(parts: seq<string>, c: char): seq<string>
    requires |parts| > 0
  {
    if c == '/' then parts + [""] else parts[..|parts| - 1] + [parts[|parts| - 1] + [c]]
  }

  lemma {:induction false} PartsNext(s: string, c: char)
    ensures Parts(s + [c]) == WithChar(Parts(s), c)
  {
    assert (s + [c])[..|s|] == s;
  }

  lemma {:induction false} WithCharOfBoth(p: seq<string>, q: seq<string>, c: char)
    requires |p| > 0 && |q| > 0
    ensures WithChar(p + q, c) == p + WithChar(q, c)
  {
    var n := |q| - 1;
    assert (p + q)[..|p| + n] == p + q[..n];
  }

  lemma {:induction false} EmptyPart()
    ensures Parts("") == [""]
  {
  }

  /** The components of two paths with a slash between them. */
  lemma {:induction false} PartsOfBoth(a: string, b: string)
    ensures Parts(a + "/" + b) == Parts(a) + Parts(b)
  {
    hide Parts, WithChar;
    if b == "" {
      EmptyPart();
      PartsNext(a, '/');
      SlashAdds(Parts(a));
      assert a + "/" + b == a + ['/'];
    } else {
      var b', c := b[..|b| - 1], b[|b| - 1];
      assert b == b' + [c];
      PartsOfBoth(a, b');
      PartsNext(b', c);
      PartsNext(a + "/" + b', c);
      assert a + "/" + b == (a + "/" + b') + [c];
      WithCharOfBoth(Parts(a), Parts(b'), c);
    }
  }

  lemma {:induction false} SlashAdds(p: seq<string>)
    requires |p| > 0
    ensures WithChar(p, '/') == p + [""]
  {
  }

  lemma {:induction false} SlashedBoth(a: string, b: string)
    ensures Slashed(a + "/" + b) == Slashed(a) + "/" + Slashed(b)
  {
  }

  /** A relative name means the components of the current directory, whose first one is the root, followed by its own;
      any other name means its own components, wherever the program runs. They are evaluated on a stack. A path that
      climbs above a drive is left with the ".." that climbs. The loops end for every path but rooted ones that
      climb. */
  method GetAbsolutePath(file: string, cwd: string) returns (str: string)
    requires IsRelative(file) ==> !ClimbsAboveRoot(EvaluateParts(Parts(Slashed(cwd)) + Parts(Slashed(file))))
    requires !IsRelative(file) ==> !ClimbsAboveRoot(EvaluateParts(Parts(Slashed(file))))
    ensures IsRelative(file) ==> str == Join(EvaluateParts(Parts(Slashed(cwd)) + Parts(Slashed(file))).parts)
    ensures !IsRelative(file) ==> str == Join(EvaluateParts(Parts(Slashed(file))).parts)
  {
    hide Parts, EvaluateParts, Join, Plain, NamedAt, Undotted, DotsGone;
    ColonFound(file);
    str := file;
    if !((|str| > 0 && (str[0] == '/' || str[0] == '\\')) || Find(str, ":", 0).Some?) {
      SlashedBoth(cwd, file);
      PartsOfBoth(Slashed(cwd), Slashed(file));
      str := cwd + "/" + str;
    }
    str := ReplaceBackslashes(str);
    ghost var parts := Parts(str);
    PartsJoin(str);
    str := EraseDots(str, parts);
    str := EraseParents(str, Undotted(parts));
  }

  /** Evaluation changes nothing in a path without inner "." and "..". */
  lemma {:induction false} OrdinaryPathKept(s: string)
    requires forall i :: 0 < i < |Parts(s)| - 1 ==> Ordinary(Parts(s)[i])
    ensures Join(EvaluatePath(s).parts) == s
  {
    var parts := Parts(s);
    PartsJoin(s);
    NothingSkipped(parts[..1], parts[1..]);
    assert parts[..1] + parts[1..] == parts;
  }

  lemma {:induction false} OfParts(s: string)
    ensures EvaluatePath(s) == EvaluateParts(Parts(s))
  {
  }

  lemma {:induction false} OnePart(s: string)
    requires Plain(s)
    ensures Parts(s) == [s]
  {
    if s != "" {
      var rest := s[..|s| - 1];
      OnePart(rest);
      assert s == rest + [s[|s| - 1]];
      assert [rest][..0] + [rest + [s[|s| - 1]]] == [s];
    }
  }

  /** "lib/a.as" in "/home/u" is "/home/u/lib/a.as". */
  lemma {:induction false} CompletedName()
    ensures
      var cwd, file := "/home/u", "lib/a.as";
      && IsRelative(file)
      && Join(EvaluateParts(Parts(Slashed(cwd)) + Parts(Slashed(file))).parts) == "/home/u/lib/a.as"
  {
    hide Parts, EvaluateParts, Join, EvaluatePath;
    var cwd, file := "/home/u", "lib/a.as";
    assert Slashed(cwd) == cwd && Slashed(file) == file;
    PartsOfBoth("", "home/u");
    PartsOfBoth("home", "u");
    PartsOfBoth("lib", "a.as");
    OnePart("");
    OnePart("home");
    OnePart("u");
    OnePart("lib");
    OnePart("a.as");
    assert cwd == "" + "/" + "home/u" && "home/u" == "home" + "/" + "u" && file == "lib" + "/" + "a.as";
    PartsOfBoth(cwd, file);
    assert cwd + "/" + file == "/home/u/lib/a.as";
    assert Parts("/home/u/lib/a.as") == ["", "home", "u", "lib", "a.as"];
    OrdinaryPathKept("/home/u/lib/a.as");
    OfParts("/home/u/lib/a.as");
  }

  // ---------- termination

  /** The string after n rounds of the last loop, if the loop is still running then. */
  function AfterRounds(str: string, n: nat): Option<string> {
    if n == 0 then Some(str)
    else
      match AfterRounds(str, n - 1)
      case None => None
      case Some(s) => if ParentRound(s).Next? then Some(ParentRound(s).str) else None
  }

  /** A rooted path that climbs goes through the loop forever: the wrapped count erases from the last slash on, and the
      "/../" it starts with stays. */
  lemma {:induction false} ClimbingRound(s: string)
    requires OccursAt(s, "/../", 0)
    ensures ParentRound(s).Next? && OccursAt(ParentRound(s).str, "/../", 0)
  {
    assert Find(s, "/../", 0) == Some(0);
    assert s[3] == s[0..4][3] == '/';
    var pos2 := SlashBeforePosition(s, 0).value;
    var s' := Erase(s, pos2, EraseCount(s, 0, pos2));
    if pos2 == 3 {
      assert s' == s;
    } else {
      assert s'[0..4] == s[0..4];
    }
  }

  lemma {:induction false} ClimbingForever(s: string, n: nat)
    requires OccursAt(s, "/../", 0)
    ensures AfterRounds(s, n).Some? && OccursAt(AfterRounds(s, n).value, "/../", 0)
  {
    hide ParentRound, OccursAt;
    if n > 0 {
      ClimbingForever(s, n - 1);
      ClimbingRound(AfterRounds(s, n - 1).value);
    }
  }

  /** A path of this kind. */
  lemma {:induction false} HangsOnRootedClimb()
    ensures RunsForever("/../lib/script.as")
  {
    assert "/../lib/script.as"[0..4] == "/../";
    RootClimbs("/../lib/script.as");
  }

  lemma {:induction false} RoundsThen(s: string, n: nat)
    requires ParentRound(s).Next?
    ensures AfterRounds(s, n + 1) == AfterRounds(ParentRound(s).str, n)
  {
    hide ParentRound;
    if n > 0 {
      RoundsThen(s, n - 1);
    }
  }

  ghost predicate RunsFor(s: string, n: nat) {
    AfterRounds(s, n).Some?
  }

  ghost predicate RunsForever(s: string) {
    forall n: nat :: RunsFor(s, n)
  }

  lemma {:induction false} RunsOn(s: string)
    requires ParentRound(s).Next?
    ensures RunsForever(s) <==> RunsForever(ParentRound(s).str)
  {
    var s' := ParentRound(s).str;
    if RunsForever(s') {
      forall n: nat
        ensures RunsFor(s, n)
      {
        if n > 0 {
          RoundsThen(s, n - 1);
          assert RunsFor(s', n - 1);
        }
      }
    }
    if RunsForever(s) {
      forall n: nat
        ensures RunsFor(s', n)
      {
        RoundsThen(s, n);
        var n' := n + 1;
        assert RunsFor(s, n');
      }
    }
  }

  lemma {:induction false} RunEnds(s: string)
    requires !ParentRound(s).Next?
    ensures !RunsForever(s)
  {
    hide ParentRound;
    assert AfterRounds(s, 0) == Some(s);
    assert !RunsFor(s, 1);
  }

  /** The loop that erases parent directories runs forever on exactly the rooted paths that climb above their root. */
  lemma {:induction false} EndsUnlessClimbing(parts: seq<string>)
    requires PlainParts(parts) && DotsGone(parts)
    ensures RunsForever(Join(parts)) <==> ClimbsAboveRoot(EvaluateParts(parts))
    decreases |parts|
  {
    hide Join, Plain, EvaluateParts, DotsGone, NamedAt, AfterRounds, RunsForever, Erase;
    var s := Join(parts);
    var found := Find(s, "/../", 0);
    if found.None? {
      NoParents(parts);
      RunEnds(s);
    } else {
      var k := FirstParent(parts, found.value);
      NamedInside(parts, "..", k);
      if k >= 2 {
        var parts' := ParentErased(parts, k);
        ParentKeepsMeaning(parts, k);
        RunsOn(s);
        EndsUnlessClimbing(parts');
      } else {
        ClimbAtRoot(parts);
        if parts[0] == "" {
          RootClimbs(s);
        } else {
          RunEnds(s);
        }
      }
    }
  }

  lemma {:induction false} RootClimbs(s: string)
    requires OccursAt(s, "/../", 0)
    ensures RunsForever(s)
  {
    forall n: nat
      ensures RunsFor(s, n)
    {
      ClimbingForever(s, n);
    }
  }
}
