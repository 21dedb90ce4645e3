/** Splitting a string at a delimiter and joining strings with one: each undoes the other on exactly the inputs that the
    conditions here describe. */
module SplitJoin {
  import opened Words
  import opened Strings

  /** The part of s before its first NUL: what is left of s when it is copied as a C string. */
  function CString(s: string): string {
    if s == "" || s[0] == '\0' then "" else [s[0]] + CString(s[1..])
  }

  predicate NulFree(s: string) {
    forall k :: 0 <= k < |s| ==> s[k] != '\0'
  }

  /** The parts between delimiters; the last one is copied as a C string. */
  function Split(s: string, delim: string): (parts: seq<string>)
    requires delim != ""
    ensures |parts| > 0
    decreases |s|
  {
    match Find(s, delim, 0)
    case None => [CString(s)]
    case Some(k) => [s[..k]] + Split(s[k + |delim|..], delim)
  }

  /** What follows the last delimiter. */
  function Rest(s: string, delim: string): string
    requires delim != ""
    decreases |s|
  {
    match Find(s, delim, 0)
    case None => s
    case Some(k) => Rest(s[k + |delim|..], delim)
  }

  function Joined(parts: seq<string>, delim: string): string {
    if parts == [] then ""
    else if |parts| == 1 then parts[0]
    else parts[0] + delim + Joined(parts[1..], delim)
  }

  /** The delimiter occurs in part + delim only at the end. */
  ghost predicate Separated(part: string, delim: string) {
    forall j :: 0 <= j < |part| ==> !OccursAt(part + delim, delim, j)
  }

  ghost predicate Lacks(s: string, delim: string) {
    forall j :: !OccursAt(s, delim, j)
  }

  lemma {:induction false} CStringWhole(s: string)
    ensures CString(s) == s <==> NulFree(s)
    ensures |CString(s)| <= |s| && NulFree(CString(s))
  {
    if s != "" {
      CStringWhole(s[1..]);
      assert s == [s[0]] + s[1..];
      if NulFree(s) {
        assert NulFree(s[1..]);
      }
    }
  }

  lemma {:induction false} JoinedCons(part: string, rest: seq<string>, delim: string)
    requires rest != []
    ensures Joined([part] + rest, delim) == part + delim + Joined(rest, delim)
  {
    assert ([part] + rest)[1..] == rest;
  }

  /** Joining what was split gives the string back exactly when no NUL follows the last delimiter. */
  lemma {:induction false} JoinUndoesSplit(s: string, delim: string)
    requires delim != ""
    ensures Joined(Split(s, delim), delim) == s <==> NulFree(Rest(s, delim))
    decreases |s|
  {
    hide Joined, NulFree;
    var found := Find(s, delim, 0);
    if found.None? {
      CStringWhole(s);
      JoinedOne(CString(s), delim);
    } else {
      var k := found.value;
      var tail := s[k + |delim|..];
      JoinUndoesSplit(tail, delim);
      var parts := Split(tail, delim);
      JoinedCons(s[..k], parts, delim);
      assert s == s[..k] + delim + tail;
      if Joined(parts, delim) != tail {
        Appended(s[..k] + delim, Joined(parts, delim), tail);
      }
    }
  }

  lemma {:induction false} JoinedOne(part: string, delim: string)
    ensures Joined([part], delim) == part
  {
  }

  lemma {:induction false} Appended(a: string, b: string, c: string)
    requires b != c
    ensures a + b != a + c
  {
    assert (a + b)[|a|..] == b && (a + c)[|a|..] == c;
  }

  lemma {:induction false} SplitAtFirst(part: string, delim: string, tail: string)
    requires delim != ""
    ensures Find(part + delim + tail, delim, 0) == Some(|part|) <==> Separated(part, delim)
  {
    var s := part + delim + tail;
    assert s[|part|..|part| + |delim|] == delim;
    forall j | 0 <= j < |part|
      ensures OccursAt(s, delim, j) <==> OccursAt(part + delim, delim, j)
    {
      assert s[j..j + |delim|] == (part + delim)[j..j + |delim|];
    }
    assert OccursAt(s, delim, |part|);
  }

  /** Splitting what was joined gives the parts back exactly when no part lets the delimiter start early and the last
      part holds neither delimiter nor NUL. */
  lemma {:induction false} SplitUndoesJoin(parts: seq<string>, delim: string)
    requires delim != "" && parts != []
    ensures
      var last := parts[|parts| - 1];
      Split(Joined(parts, delim), delim) == parts <==>
        && (forall i :: 0 <= i < |parts| - 1 ==> Separated(parts[i], delim))
        && Lacks(last, delim) && NulFree(last)
    decreases |parts|
  {
    hide Split, Joined, Separated, Lacks, NulFree, Find;
    var s := Joined(parts, delim);
    assert parts == [parts[0]] + parts[1..];
    if |parts| == 1 {
      assert parts == [parts[0]];
      JoinedOne(parts[0], delim);
      OnePart(s, delim);
    } else {
      var tail := Joined(parts[1..], delim);
      JoinedCons(parts[0], parts[1..], delim);
      SplitUndoesJoin(parts[1..], delim);
      SplitAtFirst(parts[0], delim, tail);
      SplitHead(parts, delim, tail);
      OthersSeparated(parts, delim);
    }
  }

  lemma {:induction false} OnePart(s: string, delim: string)
    requires delim != ""
    ensures Split(s, delim) == [s] <==> Lacks(s, delim) && NulFree(s)
  {
    hide NulFree;
    CStringWhole(s);
    var found := Find(s, delim, 0);
    if found.Some? {
      assert OccursAt(s, delim, found.value);
      assert |Split(s, delim)| > 1;
    } else {
      hide Find;
      assert Split(s, delim) == [CString(s)];
    }
  }

  lemma {:induction false} OthersSeparated(parts: seq<string>, delim: string)
    requires |parts| > 1
    ensures (forall i :: 0 <= i < |parts| - 1 ==> Separated(parts[i], delim)) <==>
      Separated(parts[0], delim) && forall i :: 0 <= i < |parts[1..]| - 1 ==> Separated(parts[1..][i], delim)
  {
    if Separated(parts[0], delim) && forall i :: 0 <= i < |parts[1..]| - 1 ==> Separated(parts[1..][i], delim) {
      forall i | 0 <= i < |parts| - 1
        ensures Separated(parts[i], delim)
      {
        if i > 0 {
          assert parts[i] == parts[1..][i - 1];
        }
      }
    }
  }

  /** The first part comes back exactly when it ends at the first delimiter. */
  lemma {:induction false} SplitHead(parts: seq<string>, delim: string, tail: string)
    requires delim != "" && |parts| > 1 && tail == Joined(parts[1..], delim)
    ensures Split(parts[0] + delim + tail, delim) == parts <==>
      Find(parts[0] + delim + tail, delim, 0) == Some(|parts[0]|) && Split(tail, delim) == parts[1..]
  {
    var s := parts[0] + delim + tail;
    var found := Find(s, delim, 0);
    assert parts == [parts[0]] + parts[1..];
    if found.Some? {
      var k := found.value;
      var rest := Split(s[k + |delim|..], delim);
      assert ([s[..k]] + rest)[0] == s[..k] && ([s[..k]] + rest)[1..] == rest;
      if k == |parts[0]| {
        assert s[..k] == parts[0] && s[k + |delim|..] == tail;
      }
    }
  }

  // ---------- the loops

  method StringSplit(delim: string, str: string) returns (parts: seq<string>)
    requires delim != "" && |str| < 0x8000_0000
    ensures parts == Split(str, delim)
  {
    hide Split, CString;
    parts := [];
    var prev := 0;
    assert str[0..] == str;
    var pos := Find(str, delim, prev);
    while pos.Some?
      invariant 0 <= prev <= |str| && pos == Find(str, delim, prev)
      invariant parts + Split(str[prev..], delim) == Split(str, delim)
      decreases |str| - prev
    {
      FindInSuffix(str, delim, prev);
      SplitAt(str, delim, prev, pos.value);
      parts := parts + [str[prev..pos.value]];
      prev := pos.value + |delim|;
      pos := Find(str, delim, prev);
    }
    FindInSuffix(str, delim, prev);
    SplitLast(str[prev..], delim);
    parts := parts + [CString(str[prev..])];
  }

  lemma {:induction false} SplitLast(s: string, delim: string)
    requires delim != "" && Find(s, delim, 0).None?
    ensures Split(s, delim) == [CString(s)]
  {
  }

  lemma {:induction false} SplitAt(s: string, delim: string, prev: nat, pos: nat)
    requires delim != "" && prev <= |s| && Find(s, delim, prev) == Some(pos)
    ensures Split(s[prev..], delim) == [s[prev..pos]] + Split(s[pos + |delim|..], delim)
  {
    FindInSuffix(s, delim, prev);
    var t, k := s[prev..], pos - prev;
    assert Find(t, delim, 0) == Some(k);
    hide Find;
    assert t[..k] == s[prev..pos] && t[k + |delim|..] == s[pos + |delim|..];
  }

  method StringJoin(items: seq<string>, delim: string) returns (str: string)
    ensures str == Joined(items, delim)
  {
    str := "";
    if |items| > 0 {
      var n := 0;
      while n < |items| - 1
        invariant 0 <= n < |items|
        invariant str + Joined(items[n..], delim) == Joined(items, delim)
      {
        assert items[n..][1..] == items[n + 1..];
        str := str + items[n];
        str := str + delim;
        n := n + 1;
      }
      str := str + items[n];
    }
  }

  // ---------- does the loop end

  /** Where the splitting loop is: the position it searches from, and the parts so far. */
  datatype Progress = Progress(prev: nat, parts: seq<string>)

  function SplitRound(str: string, delim: string, p: Progress): (r: Option<Progress>)
    requires p.prev <= |str|
    ensures r.Some? ==> p.prev + |delim| <= r.value.prev <= |str|
  {
    match Find(str, delim, p.prev)
    case None => None
    case Some(pos) => Some(Progress(pos + |delim|, p.parts + [str[p.prev..pos]]))
  }

  /** The loop after n rounds, if it goes through as many. */
  function AfterSplits(str: string, delim: string, n: nat): (r: Option<Progress>)
    ensures r.Some? ==> n * |delim| <= r.value.prev <= |str|
  {
    if n == 0 then Some(Progress(0, []))
    else
      match AfterSplits(str, delim, n - 1)
      case None => None
      case Some(p) => SplitRound(str, delim, p)
  }

  ghost predicate RunsFor(str: string, delim: string, n: nat) {
    AfterSplits(str, delim, n).Some?
  }

  ghost predicate RunsForever(str: string, delim: string) {
    forall n: nat :: RunsFor(str, delim, n)
  }

  function EmptyParts(n: nat): (parts: seq<string>)
    ensures |parts| == n && forall k :: 0 <= k < n ==> parts[k] == ""
  {
    seq(n, _ => "")
  }

  /** With an empty delimiter every round finds position 0 again and adds an empty part. */
  lemma {:induction false} EmptyDelimiterNeverAdvances(str: string, n: nat)
    ensures AfterSplits(str, "", n) == Some(Progress(0, EmptyParts(n)))
  {
    if n == 0 {
      assert EmptyParts(0) == [];
    } else {
      EmptyDelimiterNeverAdvances(str, n - 1);
      assert OccursAt(str, "", 0);
      assert Find(str, "", 0) == Some(0);
      assert str[0..0] == "";
      assert EmptyParts(n - 1) + [""] == EmptyParts(n);
    }
  }

  /** The splitting loop runs forever on exactly the empty delimiter, whatever the string. */
  lemma {:induction false} RunsForeverOnEmptyDelimiter(str: string, delim: string)
    ensures RunsForever(str, delim) <==> delim == ""
  {
    if delim == "" {
      forall n: nat
        ensures RunsFor(str, delim, n)
      {
        EmptyDelimiterNeverAdvances(str, n);
      }
    } else {
      var n := |str| + 1;
      assert n * |delim| >= n;
      assert !RunsFor(str, delim, n);
    }
  }

  // ---------- where the round trips fail

  /** No parts are joined to the empty string, which is split into one empty part. */
  lemma {:induction false} NoPartsIsLost(delim: string)
    requires delim != ""
    ensures Joined([], delim) == "" && Split("", delim) == [""]
  {
    assert Find("", delim, 0).None?;
  }

  /** A NUL in the last part: joining gives the string up to it. */
  lemma {:induction false} NulIsLost()
    ensures Split("a,b\0c", ",") == ["a", "b"] && Joined(Split("a,b\0c", ","), ",") == "a,b"
  {
    var s := "a,b\0c";
    assert s[0..1][0] == 'a' && s[1..2] == ",";
    assert OccursAt(s, ",", 1) && !OccursAt(s, ",", 0);
    assert Find(s, ",", 0) == Some(1);
    assert s[..1] == "a" && s[2..] == "b\0c";
    var t := "b\0c";
    assert t[0..1][0] == 'b' && t[1..2][0] == '\0' && t[2..3][0] == 'c';
    assert !OccursAt(t, ",", 0) && !OccursAt(t, ",", 1) && !OccursAt(t, ",", 2);
    assert Find(t, ",", 0) == None;
    assert t[1..] == "\0c" && CString(t[1..]) == "";
    assert CString(t) == "b";
    assert Split(t, ",") == ["b"];
    assert Joined(["a", "b"], ",") == "a" + "," + Joined(["b"], ",");
  }

  /** A part that lets the delimiter start early: the parts come back differently cut. */
  lemma {:induction false} EarlyDelimiter()
    ensures Joined(["a-", "b"], "--") == "a---b" && Split("a---b", "--") == ["a", "-b"]
  {
    assert ["a-", "b"][1..] == ["b"];
    var s := "a---b";
    assert s[0..2][0] == 'a';
    assert !OccursAt(s, "--", 0) && s[1..3] == "--" && OccursAt(s, "--", 1);
    assert Find(s, "--", 0) == Some(1);
    var t := "-b";
    assert s[..1] == "a" && s[3..] == t;
    assert t[0..2][1] == 'b';
    assert !OccursAt(t, "--", 0);
    assert Find(t, "--", 0) == None;
    assert t[1..] == "b" && "b"[1..] == "" && CString("b") == "b" && CString(t) == "-b";
    assert Split(t, "--") == ["-b"];
  }
}
