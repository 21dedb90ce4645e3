/** Conditional compilation in the script builder: two loops with counters of their own blank #if directives and what
    they exclude, against the tree of nested blocks. The engine's lexer is given. */
module Preprocessor {
  import opened Words

  datatype TokenClass = Unknown | Keyword | Value | Identifier | Comment | Whitespace

  datatype Lexeme = Lexeme(cls: TokenClass, len: nat)

  /** The class and length of the first token of a text. */
  type Lexer = string -> Lexeme

  predicate IsSpace(c: char) {
    c == ' ' || c == '\t' || c == '\r' || c == '\n'
  }

  predicate AllSpace(s: string) {
    forall k :: 0 <= k < |s| ==> IsSpace(s[k])
  }

  /** Tokens are not empty and end within the text; '#' starts no token of the language, so it stands alone; a line
      break starts white space. */
  ghost predicate LexerOk(lex: Lexer) {
    && lex("") == Lexeme(Unknown, 0)
    && (forall s :: s != "" ==> 1 <= lex(s).len <= |s|)
    && (forall s :: s != "" && s[0] == '#' ==> lex(s) == Lexeme(Unknown, 1))
    && (forall s :: s != "" && s[0] == '\n' ==> AllSpace(s[..lex(s).len]))
  }

  datatype Token = Token(text: string, cls: TokenClass)

  ghost function Tokens(lex: Lexer, s: string): (ts: seq<Token>)
    requires LexerOk(lex)
    ensures s != "" ==> ts != []
    decreases |s|
  {
    if s == "" then [] else [Token(s[..lex(s).len], lex(s).cls)] + Tokens(lex, s[lex(s).len..])
  }

  predicate IsHash(t: Token) {
    t.text != "" && t.text[0] == '#'
  }

  function Text(ts: seq<Token>): string {
    if ts == [] then "" else ts[0].text + Text(ts[1..])
  }

  function BlankChar(c: char): char {
    if c != '\n' then ' ' else c
  }

  function Blank(s: string): (r: string)
    ensures |r| == |s| && forall k :: 0 <= k < |s| ==> r[k] == BlankChar(s[k])
  {
    seq(|s|, k requires 0 <= k < |s| => BlankChar(s[k]))
  }

  /** Excluded tokens are blanked, but for white space that starts with a line break. */
  function BlankToken(s: string): (r: string)
    ensures |r| == |s|
  {
    if s != "" && s[0] == '\n' then s else Blank(s)
  }

  // ---------- what the loops compute on tokens

  datatype Excluded = Excluded(out: string, left: seq<Token>)

  function NestedAfter(word: string, nested: nat): nat {
    if word == "if" then nested + 1 else if word == "endif" && nested > 0 then nested - 1 else nested
  }

  /** ExcludeCode: up to the matching #endif. */
  function Exclude(ts: seq<Token>, nested: nat): (e: Excluded)
    ensures |e.left| <= |ts|
    decreases |ts|
  {
    if ts == [] then Excluded("", [])
    else if IsHash(ts[0]) then
      if |ts| == 1 then Excluded(" ", [])
      else if ts[1].text == "endif" && nested == 0 then Excluded(" " + Blank(ts[1].text), ts[2..])
      else
        var e := Exclude(ts[2..], NestedAfter(ts[1].text, nested));
        Excluded(" " + Blank(ts[1].text) + e.out, e.left)
    else
      var e := Exclude(ts[1..], nested);
      Excluded(BlankToken(ts[0].text) + e.out, e.left)
  }

  /** Where the word of an #if is, behind at most one white space. */
  function WordIndex(ts: seq<Token>): nat {
    if |ts| > 0 && ts[0].cls.Whitespace? then 1 else 0
  }

  predicate HasWord(ts: seq<Token>) {
    WordIndex(ts) < |ts| && ts[WordIndex(ts)].cls.Identifier?
  }

  /** The first loop of ProcessScriptSection. */
  function Process(ts: seq<Token>, nested: nat, defined: set<string>): string
    decreases |ts|
  {
    if ts == [] then ""
    else if IsHash(ts[0]) && |ts| > 1 then
      var rest := ts[2..];
      var k := WordIndex(rest);
      if ts[1].text == "if" && HasWord(rest) then
        var head := Blank(ts[0].text + ts[1].text + Text(rest[..k + 1]));
        if rest[k].text in defined then head + Process(rest[k + 1..], nested + 1, defined)
        else
          var e := Exclude(rest[k + 1..], 0);
          head + e.out + Process(e.left, nested, defined)
      else if ts[1].text == "if" then
        ts[0].text + ts[1].text + Text(rest[..k]) + Process(rest[k..], nested, defined)
      else if ts[1].text == "endif" && nested > 0 then
        Blank(ts[0].text + ts[1].text) + Process(rest, nested - 1, defined)
      else ts[0].text + ts[1].text + Process(rest, nested, defined)
    else ts[0].text + Process(ts[1..], nested, defined)
  }

  // ---------- the nesting tree

  datatype Node =
    | Plain(token: Token)
    | Directive(word: Token)                                    // '#' and a word that is neither if nor endif
    | Block(space: Option<Token>, word: Token, body: seq<Node>) // #if word ... #endif

  const HASH := Token("#", Unknown)
  const IF_WORD: string := "if"
  const ENDIF_WORD: string := "endif"
  const IF := Token("if", Keyword)
  const ENDIF := Token("endif", Identifier)

  predicate NodeOk(n: Node)
    decreases n
  {
    match n
    case Plain(t) => t.text != "" && !IsHash(t)
    case Directive(w) => w.text != IF_WORD && w.text != ENDIF_WORD
    case Block(space, word, body) =>
      && (space.Some? ==> space.value.cls.Whitespace? && space.value.text != "" && !IsHash(space.value))
      && word.cls.Identifier? && word.text != "" && !IsHash(word)
      && forall i :: 0 <= i < |body| ==> NodeOk(body[i])
  }

  /** The tokens of a #if directive behind the word "if". */
  function Condition(space: Option<Token>, word: Token): seq<Token> {
    (if space.Some? then [space.value] else []) + [word]
  }

  function Flat(n: Node): seq<Token>
    decreases n
  {
    match n
    case Plain(t) => [t]
    case Directive(w) => [HASH, w]
    case Block(space, word, body) =>
      [HASH, IF] + Condition(space, word) + FlatAll(body)
      + [HASH, ENDIF]
  }

  function FlatAll(ns: seq<Node>): seq<Token>
    decreases ns
  {
    if ns == [] then [] else Flat(ns[0]) + FlatAll(ns[1..])
  }

  /** Everything in an excluded body is blanked. */
  function BlankNode(n: Node): string
    decreases n
  {
    match n
    case Plain(t) => BlankToken(t.text)
    case Directive(w) => " " + Blank(w.text)
    case Block(space, word, body) =>
      " " + Blank(IF_WORD) + (if space.Some? then BlankToken(space.value.text) else "") + BlankToken(word.text)
      + BlankAll(body) + " " + Blank(ENDIF_WORD)
  }

  function BlankAll(ns: seq<Node>): string
    decreases ns
  {
    if ns == [] then "" else BlankNode(ns[0]) + BlankAll(ns[1..])
  }

  /** The meaning of the tree: directives of blocks are blanked, and so are the bodies of undefined ones. */
  function Keep(n: Node, defined: set<string>): string
    decreases n
  {
    match n
    case Plain(t) => t.text
    case Directive(w) => HASH.text + w.text
    case Block(space, word, body) =>
      Blank(HASH.text + IF_WORD + Text(Condition(space, word)))
      + (if word.text in defined then KeepAll(body, defined) + Blank(HASH.text + ENDIF_WORD)
         else BlankAll(body) + " " + Blank(ENDIF_WORD))
  }

  function KeepAll(ns: seq<Node>, defined: set<string>): string
    decreases ns
  {
    if ns == [] then "" else Keep(ns[0], defined) + KeepAll(ns[1..], defined)
  }

  // ---------- the loops follow the tree

  lemma {:induction false} ExcludePlain(t: Token, rest: seq<Token>, nested: nat)
    requires !IsHash(t)
    ensures
      var e := Exclude(rest, nested);
      Exclude([t] + rest, nested) == Excluded(BlankToken(t.text) + e.out, e.left)
  {
    assert ([t] + rest)[1..] == rest;
  }

  lemma {:induction false} ExcludeDirective(w: Token, rest: seq<Token>, nested: nat)
    requires w.text != ENDIF_WORD || nested > 0
    ensures
      var e := Exclude(rest, NestedAfter(w.text, nested));
      Exclude([HASH, w] + rest, nested) == Excluded(" " + Blank(w.text) + e.out, e.left)
  {
    assert ([HASH, w] + rest)[2..] == rest;
  }

  lemma {:induction false} ExcludeEnd(rest: seq<Token>)
    ensures Exclude([HASH, ENDIF] + rest, 0) == Excluded(" " + Blank(ENDIF_WORD), rest)
  {
    assert ([HASH, ENDIF] + rest)[2..] == rest;
  }

  lemma {:induction false} ExcludeCondition(space: Option<Token>, word: Token, rest: seq<Token>, nested: nat)
    requires !IsHash(word) && (space.Some? ==> !IsHash(space.value))
    ensures
      var e := Exclude(rest, nested);
      Exclude(Condition(space, word) + rest, nested) ==
        Excluded((if space.Some? then BlankToken(space.value.text) else "") + BlankToken(word.text) + e.out, e.left)
  {
    hide Exclude, BlankToken, IsHash;
    ExcludePlain(word, rest, nested);
    if space.Some? {
      ExcludePlain(space.value, [word] + rest, nested);
      assert Condition(space, word) + rest == [space.value] + ([word] + rest);
    } else {
      assert Condition(space, word) + rest == [word] + rest;
    }
  }

  lemma {:induction false} FlatBlock(space: Option<Token>, word: Token, body: seq<Node>, rest: seq<Token>)
    ensures Flat(Block(space, word, body)) + rest ==
      [HASH, IF] + (Condition(space, word) + (FlatAll(body) + ([HASH, ENDIF] + rest)))
  {
    hide Condition, FlatAll;
    assert Flat(Block(space, word, body)) == [HASH, IF] + Condition(space, word) + FlatAll(body) + [HASH, ENDIF];
    SeqOfFive([HASH, IF], Condition(space, word), FlatAll(body), [HASH, ENDIF], rest);
  }

  lemma {:induction false} SeqOfFive<T>(a: seq<T>, b: seq<T>, c: seq<T>, d: seq<T>, e: seq<T>)
    ensures a + b + c + d + e == a + (b + (c + (d + e)))
  {
  }

  lemma {:induction false} BlockText(a: string, b: string, c: string, d: string, e: string, f: string, g: string)
    ensures a + b + c + d + e + f + g == a + (b + c + (d + (e + f + g)))
  {
  }

  /** Inside an excluded region every node is blanked, and the counter is back where it was. */
  lemma {:induction false} ExcludeNode(n: Node, rest: seq<Token>, nested: nat)
    requires NodeOk(n)
    ensures
      var e := Exclude(rest, nested);
      Exclude(Flat(n) + rest, nested) == Excluded(BlankNode(n) + e.out, e.left)
    decreases n, 0
  {
    hide Exclude, Blank, BlankToken, Condition, IsHash;
    match n
    case Plain(t) => ExcludePlain(t, rest, nested);
    case Directive(w) => ExcludeDirective(w, rest, nested);
    case Block(space, word, body) =>
      var tail := [HASH, ENDIF] + rest;
      ExcludeDirective(ENDIF, rest, nested + 1);
      ExcludeNodes(body, tail, nested + 1);
      ExcludeCondition(space, word, FlatAll(body) + tail, nested + 1);
      ExcludeDirective(IF, Condition(space, word) + (FlatAll(body) + tail), nested);
      BlockText(
        " " + Blank(IF_WORD), if space.Some? then BlankToken(space.value.text) else "", BlankToken(word.text),
        BlankAll(body), " ", Blank(ENDIF_WORD), Exclude(rest, nested).out);
      FlatBlock(space, word, body, rest);
  }

  lemma {:induction false} ExcludeNodes(ns: seq<Node>, rest: seq<Token>, nested: nat)
    requires forall i :: 0 <= i < |ns| ==> NodeOk(ns[i])
    ensures
      var e := Exclude(rest, nested);
      Exclude(FlatAll(ns) + rest, nested) == Excluded(BlankAll(ns) + e.out, e.left)
    decreases ns, 1
  {
    hide Exclude, BlankNode, Flat;
    if ns == [] {
      assert FlatAll(ns) + rest == rest;
      assert "" + Exclude(rest, nested).out == Exclude(rest, nested).out;
    } else {
      ExcludeNodes(ns[1..], rest, nested);
      ExcludeNode(ns[0], FlatAll(ns[1..]) + rest, nested);
      SeqOfThree(Flat(ns[0]), FlatAll(ns[1..]), rest);
      SeqOfThree(BlankNode(ns[0]), BlankAll(ns[1..]), Exclude(rest, nested).out);
    }
  }

  lemma {:induction false} ProcessPlain(t: Token, rest: seq<Token>, nested: nat, defined: set<string>)
    requires !IsHash(t)
    ensures Process([t] + rest, nested, defined) == t.text + Process(rest, nested, defined)
  {
    assert ([t] + rest)[1..] == rest;
  }

  lemma {:induction false} ProcessDirective(w: Token, rest: seq<Token>, nested: nat, defined: set<string>)
    requires w.text != IF_WORD && w.text != ENDIF_WORD
    ensures Process([HASH, w] + rest, nested, defined) == HASH.text + w.text + Process(rest, nested, defined)
  {
    assert ([HASH, w] + rest)[2..] == rest;
  }

  lemma {:induction false} ProcessEnd(rest: seq<Token>, nested: nat, defined: set<string>)
    requires nested > 0
    ensures Process([HASH, ENDIF] + rest, nested, defined) ==
      Blank(HASH.text + ENDIF_WORD) + Process(rest, nested - 1, defined)
  {
    assert ([HASH, ENDIF] + rest)[2..] == rest;
  }

  lemma {:induction false} ConditionRead(space: Option<Token>, word: Token, rest: seq<Token>)
    requires word.cls.Identifier? && (space.Some? ==> space.value.cls.Whitespace?)
    ensures
      var ts := Condition(space, word) + rest;
      && HasWord(ts) && ts[WordIndex(ts)] == word
      && ts[..WordIndex(ts) + 1] == Condition(space, word) && ts[WordIndex(ts) + 1..] == rest
  {
  }

  lemma {:induction false} ProcessIf(
    space: Option<Token>, word: Token, rest: seq<Token>, nested: nat, defined: set<string>)
    requires word.cls.Identifier? && (space.Some? ==> space.value.cls.Whitespace?)
    ensures Process([HASH, IF] + (Condition(space, word) + rest), nested, defined) ==
      Blank(HASH.text + IF_WORD + Text(Condition(space, word)))
      + if word.text in defined then Process(rest, nested + 1, defined)
        else Exclude(rest, 0).out + Process(Exclude(rest, 0).left, nested, defined)
  {
    ConditionRead(space, word, rest);
    var ts := [HASH, IF] + (Condition(space, word) + rest);
    assert ts[2..] == Condition(space, word) + rest;
  }

  lemma {:induction false} ProcessNode(n: Node, rest: seq<Token>, nested: nat, defined: set<string>)
    requires NodeOk(n)
    ensures Process(Flat(n) + rest, nested, defined) == Keep(n, defined) + Process(rest, nested, defined)
    decreases n, 0
  {
    hide Exclude, Process, Blank, BlankToken, Condition, IsHash;
    match n
    case Plain(t) => ProcessPlain(t, rest, nested, defined);
    case Directive(w) => ProcessDirective(w, rest, nested, defined);
    case Block(space, word, body) =>
      var tail := [HASH, ENDIF] + rest;
      ProcessIf(space, word, FlatAll(body) + tail, nested, defined);
      FlatBlock(space, word, body, rest);
      if word.text in defined {
        ProcessNodes(body, tail, nested + 1, defined);
        ProcessEnd(rest, nested + 1, defined);
      } else {
        ExcludeNodes(body, tail, 0);
        ExcludeEnd(rest);
      }
  }

  lemma {:induction false} ProcessNodes(ns: seq<Node>, rest: seq<Token>, nested: nat, defined: set<string>)
    requires forall i :: 0 <= i < |ns| ==> NodeOk(ns[i])
    ensures Process(FlatAll(ns) + rest, nested, defined) == KeepAll(ns, defined) + Process(rest, nested, defined)
    decreases ns, 1
  {
    hide Process, Keep, Flat;
    if ns == [] {
      assert FlatAll(ns) + rest == rest;
      assert "" + Process(rest, nested, defined) == Process(rest, nested, defined);
    } else {
      ProcessNodes(ns[1..], rest, nested, defined);
      ProcessNode(ns[0], FlatAll(ns[1..]) + rest, nested, defined);
      SeqOfThree(Flat(ns[0]), FlatAll(ns[1..]), rest);
      SeqOfThree(Keep(ns[0], defined), KeepAll(ns[1..], defined), Process(rest, nested, defined));
    }
  }

  /** For every well-nested token sequence the loops compute the meaning of its tree. */
  lemma {:induction false} CountersFollowTree(ns: seq<Node>, defined: set<string>)
    requires forall i :: 0 <= i < |ns| ==> NodeOk(ns[i])
    ensures Process(FlatAll(ns), 0, defined) == KeepAll(ns, defined)
  {
    ProcessNodes(ns, [], 0, defined);
    assert FlatAll(ns) + [] == FlatAll(ns);
  }

  /** An #endif without an open #if stays as it is. */
  lemma {:induction false} StrayEndifStays(rest: seq<Token>, defined: set<string>)
    ensures Process([HASH, ENDIF] + rest, 0, defined) == "#endif" + Process(rest, 0, defined)
  {
    hide Process;
    assert ([HASH, ENDIF] + rest)[2..] == rest;
    ProcessAtWord([HASH, ENDIF] + rest, 0, defined);
    assert "#" + "endif" == "#endif";
  }

  /** An #if without a word stays, and opens nothing. */
  lemma {:induction false} BareIfStays(space: Option<Token>, rest: seq<Token>, nested: nat, defined: set<string>)
    requires space.Some? ==> space.value.cls.Whitespace?
    requires space.None? && rest != [] ==> !rest[0].cls.Whitespace?
    requires rest != [] ==> !rest[0].cls.Identifier?
    ensures
      var front := if space.Some? then [space.value] else [];
      Process([HASH, IF] + (front + rest), nested, defined) == "#if" + Text(front) + Process(rest, nested, defined)
  {
    hide Process, Text;
    var front := if space.Some? then [space.value] else [];
    var ts := [HASH, IF] + (front + rest);
    assert ts[2..] == front + rest;
    assert WordIndex(front + rest) == |front|;
    assert (front + rest)[..|front|] == front && (front + rest)[|front|..] == rest;
    ProcessAtBareIf(ts, nested, defined);
    assert "#" + "if" == "#if";
  }

  // ---------- nothing moves

  /** Every character is the one it was or a blank in place of one that is not a line break. */
  ghost predicate OnlyBlanked(s: string, r: string) {
    |r| == |s| && forall k :: 0 <= k < |s| ==> r[k] == s[k] || (s[k] != '\n' && r[k] == ' ')
  }

  lemma {:induction false} BlankedParts(s: string, r: string, s': string, r': string)
    requires OnlyBlanked(s, r) && OnlyBlanked(s', r')
    ensures OnlyBlanked(s + s', r + r')
  {
  }

  lemma {:induction false} TextTakes(ts: seq<Token>, k: nat)
    requires k <= |ts|
    ensures Text(ts) == Text(ts[..k]) + Text(ts[k..])
  {
    if k > 0 {
      TextTakes(ts[1..], k - 1);
      assert ts[..k][1..] == ts[1..][..k - 1];
      assert ts[k..] == ts[1..][k - 1..];
    }
  }

  lemma {:induction false} TextOne(t: Token)
    ensures Text([t]) == t.text
  {
    assert Text([t][1..]) == "";
  }

  /** What ExcludeCode has gone through. */
  ghost predicate ExcludedBlanks(ts: seq<Token>, e: Excluded) {
    |e.left| <= |ts| && e.left == ts[|ts| - |e.left|..] && OnlyBlanked(Text(ts[..|ts| - |e.left|]), e.out)
  }

  /** More tokens in front, of which as much is blanked. */
  lemma {:induction false} MoreExcluded(front: seq<Token>, text: string, out: string, ts: seq<Token>, e: Excluded)
    requires ExcludedBlanks(ts, e) && OnlyBlanked(text, out)
    requires forall rest :: Text(front + rest) == text + Text(rest)
    ensures ExcludedBlanks(front + ts, Excluded(out + e.out, e.left))
  {
    hide OnlyBlanked, Text;
    var n, all := |ts| - |e.left|, front + ts;
    assert all[..|all| - |e.left|] == front + ts[..n];
    assert all[|all| - |e.left|..] == ts[n..];
    assert Text(front + ts[..n]) == text + Text(ts[..n]);
    BlankedParts(text, out, Text(ts[..n]), e.out);
  }

  lemma {:induction false} HashExcluded(ts: seq<Token>, nested: nat)
    requires |ts| > 1 && IsHash(ts[0]) && ts[0].text == "#" && !(ts[1].text == "endif" && nested == 0)
    requires ExcludedBlanks(ts[2..], Exclude(ts[2..], NestedAfter(ts[1].text, nested)))
    ensures ExcludedBlanks(ts, Exclude(ts, nested))
  {
    hide OnlyBlanked, Text, Blank, ExcludedBlanks;
    var w, e := ts[1].text, Exclude(ts[2..], NestedAfter(ts[1].text, nested));
    HashBlanked();
    WordBlanked(w);
    BlankedParts("#", " ", w, Blank(w));
    forall rest
      ensures Text([ts[0], ts[1]] + rest) == "#" + w + Text(rest)
    {
      TwoTokens(ts[0], ts[1], rest);
    }
    MoreExcluded([ts[0], ts[1]], "#" + w, " " + Blank(w), ts[2..], e);
    assert ts == [ts[0], ts[1]] + ts[2..];
  }

  lemma {:induction false} OtherExcluded(ts: seq<Token>, nested: nat)
    requires ts != [] && !IsHash(ts[0])
    requires ExcludedBlanks(ts[1..], Exclude(ts[1..], nested))
    ensures ExcludedBlanks(ts, Exclude(ts, nested))
  {
    hide OnlyBlanked, Text, BlankToken, ExcludedBlanks;
    WordBlanked(ts[0].text);
    forall rest
      ensures Text([ts[0]] + rest) == ts[0].text + Text(rest)
    {
      OneToken(ts[0], rest);
    }
    MoreExcluded([ts[0]], ts[0].text, BlankToken(ts[0].text), ts[1..], Exclude(ts[1..], nested));
    assert ts == [ts[0]] + ts[1..];
  }

  lemma {:induction false} LastExcluded(ts: seq<Token>, nested: nat)
    requires ts == [] || (IsHash(ts[0]) && ts[0].text == "#" && (|ts| == 1 || (ts[1].text == "endif" && nested == 0)))
    ensures ExcludedBlanks(ts, Exclude(ts, nested))
  {
    hide OnlyBlanked, Text, Blank;
    NothingBlanked();
    HashBlanked();
    if |ts| == 1 {
      TextOne(ts[0]);
      assert ts[..1] == [ts[0]];
    } else if |ts| > 1 {
      var w := ts[1].text;
      WordBlanked(w);
      BlankedParts("#", " ", w, Blank(w));
      TwoTokens(ts[0], ts[1], []);
      assert ts[..2] == [ts[0], ts[1]];
    }
  }

  lemma {:induction false} ExcludeOnlyBlanks(ts: seq<Token>, nested: nat)
    requires forall i :: 0 <= i < |ts| && IsHash(ts[i]) ==> ts[i].text == "#"
    ensures ExcludedBlanks(ts, Exclude(ts, nested))
    decreases |ts|
  {
    hide Exclude, ExcludedBlanks, IsHash;
    if ts == [] || (IsHash(ts[0]) && (|ts| == 1 || (ts[1].text == "endif" && nested == 0))) {
      LastExcluded(ts, nested);
    } else if IsHash(ts[0]) {
      ExcludeOnlyBlanks(ts[2..], NestedAfter(ts[1].text, nested));
      HashExcluded(ts, nested);
    } else {
      ExcludeOnlyBlanks(ts[1..], nested);
      OtherExcluded(ts, nested);
    }
  }

  lemma {:induction false} NothingBlanked()
    ensures OnlyBlanked(Text([]), "")
  {
  }

  lemma {:induction false} HashBlanked()
    ensures OnlyBlanked("#", " ")
  {
  }

  lemma {:induction false} WordBlanked(s: string)
    ensures OnlyBlanked(s, Blank(s)) && OnlyBlanked(s, BlankToken(s)) && OnlyBlanked(s, s)
  {
  }

  lemma {:induction false} OneToken(a: Token, rest: seq<Token>)
    ensures Text([a] + rest) == a.text + Text(rest)
  {
    assert ([a] + rest)[1..] == rest;
  }

  lemma {:induction false} TwoTokens(a: Token, b: Token, rest: seq<Token>)
    ensures Text([a, b] + rest) == a.text + b.text + Text(rest)
    ensures Text([a, b]) == a.text + b.text
  {
    OneToken(b, rest);
    OneToken(a, [b] + rest);
    assert [a, b] + rest == [a] + ([b] + rest);
    OneToken(b, []);
    OneToken(a, [b]);
    assert [a, b] == [a] + [b] && [b] == [b] + [];
  }

  /** The loop at an #if with a word. */
  lemma {:induction false} ProcessAtIf(ts: seq<Token>, nested: nat, defined: set<string>)
    requires |ts| > 1 && IsHash(ts[0]) && ts[1].text == "if" && HasWord(ts[2..])
    ensures
      var rest, k := ts[2..], WordIndex(ts[2..]);
      var head := Blank(ts[0].text + ts[1].text + Text(rest[..k + 1]));
      var e := Exclude(rest[k + 1..], 0);
      Process(ts, nested, defined) ==
        if rest[k].text in defined then head + Process(rest[k + 1..], nested + 1, defined)
        else head + e.out + Process(e.left, nested, defined)
  {
  }

  /** At an #if without a word. */
  lemma {:induction false} ProcessAtBareIf(ts: seq<Token>, nested: nat, defined: set<string>)
    requires |ts| > 1 && IsHash(ts[0]) && ts[1].text == "if" && !HasWord(ts[2..])
    ensures
      var rest, k := ts[2..], WordIndex(ts[2..]);
      Process(ts, nested, defined) ==
        ts[0].text + ts[1].text + Text(rest[..k]) + Process(rest[k..], nested, defined)
  {
  }

  lemma {:induction false} ProcessAtWord(ts: seq<Token>, nested: nat, defined: set<string>)
    requires |ts| > 1 && IsHash(ts[0]) && ts[1].text != "if"
    ensures Process(ts, nested, defined) ==
      if ts[1].text == "endif" && nested > 0 then Blank(ts[0].text + ts[1].text) + Process(ts[2..], nested - 1, defined)
      else ts[0].text + ts[1].text + Process(ts[2..], nested, defined)
  {
  }

  lemma {:induction false} ProcessAtOther(ts: seq<Token>, nested: nat, defined: set<string>)
    requires ts != [] && (!IsHash(ts[0]) || |ts| == 1)
    ensures Process(ts, nested, defined) == ts[0].text + Process(ts[1..], nested, defined)
  {
  }

  /** A head and what follows it. */
  lemma {:induction false} HeadBlanked(h: string, w: string, a: string, b: string, head: string, r: string)
    requires head == Blank(h + w + a) || head == h + w + a
    requires OnlyBlanked(b, r)
    ensures OnlyBlanked(h + w + (a + b), head + r)
  {
    hide OnlyBlanked, Blank;
    WordBlanked(h + w + a);
    BlankedParts(h + w + a, head, b, r);
    assert h + w + a + b == h + w + (a + b);
  }

  lemma {:induction false} IfOnlyBlanks(
    ts: seq<Token>, nested: nat, defined: set<string>, left: seq<Token>, nested': nat)
    requires |ts| > 1 && IsHash(ts[0]) && ts[1].text == "if" && HasWord(ts[2..])
    requires forall i :: 0 <= i < |ts| && IsHash(ts[i]) ==> ts[i].text == "#"
    requires WordIndex(ts[2..]) < |ts[2..]|
    requires
      var after := ts[2..][WordIndex(ts[2..]) + 1..];
      if ts[2..][WordIndex(ts[2..])].text in defined then left == after && nested' == nested + 1
      else left == Exclude(after, 0).left && nested' == nested
    requires OnlyBlanked(Text(left), Process(left, nested', defined))
    ensures OnlyBlanked(Text(ts), Process(ts, nested, defined))
  {
    hide OnlyBlanked, Blank, Text, Exclude, Process, HasWord;
    var h, w, rest := ts[0].text, ts[1].text, ts[2..];
    assert ts == [ts[0], ts[1]] + rest;
    TwoTokens(ts[0], ts[1], rest);
    var k := WordIndex(rest);
    ProcessAtIf(ts, nested, defined);
    var after, a := rest[k + 1..], Text(rest[..k + 1]);
    TextTakes(rest, k + 1);
    if rest[k].text in defined {
      HeadBlanked(h, w, a, Text(after), Blank(h + w + a), Process(after, nested + 1, defined));
    } else {
      var e, r := Exclude(after, 0), Process(left, nested, defined);
      ExcludeOnlyBlanks(after, 0);
      TextTakes(after, |after| - |e.left|);
      BlankedParts(Text(after[..|after| - |e.left|]), e.out, Text(left), r);
      HeadBlanked(h, w, a, Text(after), Blank(h + w + a), e.out + r);
      SeqOfThree(Blank(h + w + a), e.out, r);
    }
  }

  lemma {:induction false} SeqOfThree<T>(a: seq<T>, b: seq<T>, c: seq<T>)
    ensures a + b + c == a + (b + c)
  {
  }

  lemma {:induction false} BareIfOnlyBlanks(ts: seq<Token>, nested: nat, defined: set<string>)
    requires |ts| > 1 && IsHash(ts[0]) && ts[1].text == "if" && !HasWord(ts[2..])
    requires
      var left := ts[2..][WordIndex(ts[2..])..];
      OnlyBlanked(Text(left), Process(left, nested, defined))
    ensures OnlyBlanked(Text(ts), Process(ts, nested, defined))
  {
    hide OnlyBlanked, Blank, Text, Exclude, Process, HasWord;
    var h, w, rest := ts[0].text, ts[1].text, ts[2..];
    assert ts == [ts[0], ts[1]] + rest;
    TwoTokens(ts[0], ts[1], rest);
    var k := WordIndex(rest);
    ProcessAtBareIf(ts, nested, defined);
    TextTakes(rest, k);
    var a := Text(rest[..k]);
    HeadBlanked(h, w, a, Text(rest[k..]), h + w + a, Process(rest[k..], nested, defined));
  }

  lemma {:induction false} WordOnlyBlanks(ts: seq<Token>, nested: nat, defined: set<string>, nested': nat)
    requires |ts| > 1 && IsHash(ts[0]) && ts[1].text != "if"
    requires nested' == if ts[1].text == "endif" && nested > 0 then nested - 1 else nested
    requires OnlyBlanked(Text(ts[2..]), Process(ts[2..], nested', defined))
    ensures OnlyBlanked(Text(ts), Process(ts, nested, defined))
  {
    hide OnlyBlanked, Blank, Text, Exclude, Process;
    var h, w, rest := ts[0].text, ts[1].text, ts[2..];
    assert ts == [ts[0], ts[1]] + rest;
    TwoTokens(ts[0], ts[1], rest);
    ProcessAtWord(ts, nested, defined);
    WordBlanked(h + w);
    BlankedParts(
      h + w, if w == "endif" && nested > 0 then Blank(h + w) else h + w, Text(rest), Process(rest, nested', defined));
  }

  lemma {:induction false} OtherOnlyBlanks(ts: seq<Token>, nested: nat, defined: set<string>)
    requires ts != [] && (!IsHash(ts[0]) || |ts| == 1)
    requires OnlyBlanked(Text(ts[1..]), Process(ts[1..], nested, defined))
    ensures OnlyBlanked(Text(ts), Process(ts, nested, defined))
  {
    hide OnlyBlanked, Blank, Text, Exclude, Process;
    ProcessAtOther(ts, nested, defined);
    assert ts == [ts[0]] + ts[1..];
    OneToken(ts[0], ts[1..]);
    WordBlanked(ts[0].text);
    BlankedParts(ts[0].text, ts[0].text, Text(ts[1..]), Process(ts[1..], nested, defined));
  }

  lemma {:induction false} ProcessOnlyBlanks(ts: seq<Token>, nested: nat, defined: set<string>)
    requires forall i :: 0 <= i < |ts| && IsHash(ts[i]) ==> ts[i].text == "#"
    ensures OnlyBlanked(Text(ts), Process(ts, nested, defined))
    decreases |ts|
  {
    hide OnlyBlanked, Blank, Text, Exclude, Process, HasWord;
    if ts == [] {
      NothingProcessed(nested, defined);
    } else if IsHash(ts[0]) && |ts| > 1 {
      var rest := ts[2..];
      var k := WordIndex(rest);
      if ts[1].text == "if" && HasWord(rest) {
        WordInside(rest);
        var after := rest[k + 1..];
        if rest[k].text in defined {
          ProcessOnlyBlanks(after, nested + 1, defined);
          IfOnlyBlanks(ts, nested, defined, after, nested + 1);
        } else {
          ExcludeOnlyBlanks(after, 0);
          ProcessOnlyBlanks(Exclude(after, 0).left, nested, defined);
          IfOnlyBlanks(ts, nested, defined, Exclude(after, 0).left, nested);
        }
      } else if ts[1].text == "if" {
        ProcessOnlyBlanks(rest[k..], nested, defined);
        BareIfOnlyBlanks(ts, nested, defined);
      } else {
        var nested' := if ts[1].text == "endif" && nested > 0 then nested - 1 else nested;
        ProcessOnlyBlanks(rest, nested', defined);
        WordOnlyBlanks(ts, nested, defined, nested');
      }
    } else {
      ProcessOnlyBlanks(ts[1..], nested, defined);
      OtherOnlyBlanks(ts, nested, defined);
    }
  }

  lemma {:induction false} WordInside(ts: seq<Token>)
    requires HasWord(ts)
    ensures WordIndex(ts) < |ts| && ts[WordIndex(ts)].cls.Identifier?
  {
  }

  lemma {:induction false} NothingProcessed(nested: nat, defined: set<string>)
    ensures OnlyBlanked(Text([]), Process([], nested, defined))
  {
  }

  // ---------- tokens of a text

  lemma {:induction false} TokensText(lex: Lexer, s: string)
    requires LexerOk(lex)
    ensures Text(Tokens(lex, s)) == s
    decreases |s|
  {
    if s != "" {
      var n := lex(s).len;
      TokensText(lex, s[n..]);
      OneToken(Token(s[..n], lex(s).cls), Tokens(lex, s[n..]));
      hide LexerOk, Tokens, Text;
      assert s == s[..n] + s[n..];
    }
  }

  lemma {:induction false} TokensHash(lex: Lexer, s: string, i: nat)
    requires LexerOk(lex) && i < |Tokens(lex, s)| && IsHash(Tokens(lex, s)[i])
    ensures Tokens(lex, s)[i].text == "#"
    decreases |s|
  {
    if s != "" {
      var n := lex(s).len;
      if i > 0 {
        TokensHash(lex, s[n..], i - 1);
      } else {
        assert s[..n][0] == s[0];
        assert s[..1] == [s[0]];
      }
    }
  }

  // ---------- nothing excluded is left

  ghost predicate BreaksAreSpace(ts: seq<Token>) {
    forall i :: 0 <= i < |ts| && ts[i].text != "" && ts[i].text[0] == '\n' ==> AllSpace(ts[i].text)
  }

  lemma {:induction false} TokensBreaks(lex: Lexer, s: string)
    requires LexerOk(lex)
    ensures BreaksAreSpace(Tokens(lex, s))
    decreases |s|
  {
    if s != "" {
      var n := lex(s).len;
      TokensBreaks(lex, s[n..]);
      assert s[..n] != "" && s[..n][0] == s[0];
    }
  }

  lemma {:induction false} BlankIsSpace(s: string)
    ensures AllSpace(Blank(s)) && AllSpace(" ")
    ensures (s != "" && s[0] == '\n' ==> AllSpace(s)) ==> AllSpace(BlankToken(s))
  {
  }

  lemma {:induction false} SpaceThen(a: string, b: string)
    requires AllSpace(a) && AllSpace(b)
    ensures AllSpace(a + b)
  {
  }

  lemma {:induction false} ExcludeLeavesSpace(ts: seq<Token>, nested: nat)
    requires BreaksAreSpace(ts)
    ensures AllSpace(Exclude(ts, nested).out)
    decreases |ts|
  {
    hide AllSpace, Blank, BlankToken;
    NothingIsSpace();
    if ts != [] {
      BlankIsSpace(ts[0].text);
      if !IsHash(ts[0]) {
        ExcludeLeavesSpace(ts[1..], nested);
        SpaceThen(BlankToken(ts[0].text), Exclude(ts[1..], nested).out);
      } else if |ts| > 1 {
        BlankIsSpace(ts[1].text);
        SpaceThen(" ", Blank(ts[1].text));
        if ts[1].text != "endif" || nested != 0 {
          var e := Exclude(ts[2..], NestedAfter(ts[1].text, nested));
          ExcludeLeavesSpace(ts[2..], NestedAfter(ts[1].text, nested));
          SpaceThen(" " + Blank(ts[1].text), e.out);
        }
      }
    }
  }

  lemma {:induction false} NothingIsSpace()
    ensures AllSpace("")
  {
  }

  /** Of an excluded region only white space is left, whatever its text and however it is nested. */
  lemma {:induction false} ExcludedIsBlank(lex: Lexer, s: string, nested: nat)
    requires LexerOk(lex)
    ensures AllSpace(Exclude(Tokens(lex, s), nested).out)
  {
    hide LexerOk, AllSpace, Exclude, BreaksAreSpace, Tokens;
    TokensBreaks(lex, s);
    ExcludeLeavesSpace(Tokens(lex, s), nested);
  }

  /** The result has the length of the text and its line breaks, and otherwise differs by blanks only. */
  lemma {:induction false} NothingMoves(lex: Lexer, s: string, defined: set<string>)
    requires LexerOk(lex)
    ensures OnlyBlanked(s, Process(Tokens(lex, s), 0, defined))
  {
    hide OnlyBlanked, Process, LexerOk;
    var ts := Tokens(lex, s);
    TokensText(lex, s);
    forall i | 0 <= i < |ts| && IsHash(ts[i])
      ensures ts[i].text == "#"
    {
      TokensHash(lex, s, i);
    }
    ProcessOnlyBlanks(ts, 0, defined);
  }

  ghost function ExcludeText(lex: Lexer, s: string, nested: nat): Excluded
    requires LexerOk(lex)
  {
    Exclude(Tokens(lex, s), nested)
  }

  ghost function ProcessText(lex: Lexer, s: string, nested: nat, defined: set<string>): string
    requires LexerOk(lex)
  {
    Process(Tokens(lex, s), nested, defined)
  }

  /** The word behind a '#', which may be missing. */
  function FirstWord(lex: Lexer, s: string): (word: string)
    ensures |word| <= |s|
  {
    s[..if lex(s).len <= |s| then lex(s).len else 0]
  }

  lemma {:induction false} HashTokens(lex: Lexer, s: string)
    requires LexerOk(lex) && s != "" && s[0] == '#'
    ensures lex(s).len == 1 && Tokens(lex, s) == [HASH] + Tokens(lex, s[1..])
  {
    assert s[..1] == "#";
  }

  lemma {:induction false} TokensCons(lex: Lexer, s: string)
    requires LexerOk(lex) && s != ""
    ensures Tokens(lex, s) == [Token(FirstWord(lex, s), lex(s).cls)] + Tokens(lex, s[|FirstWord(lex, s)|..])
  {
  }

  lemma {:induction false} HashWordTokens(lex: Lexer, s: string) returns (c: TokenClass)
    requires LexerOk(lex) && |s| > 1 && s[0] == '#'
    ensures
      var w := FirstWord(lex, s[1..]);
      Tokens(lex, s) == [HASH, Token(w, c)] + Tokens(lex, s[1 + |w|..])
  {
    hide LexerOk, Tokens, FirstWord;
    HashTokens(lex, s);
    var r := s[1..];
    c := lex(r).cls;
    TokensCons(lex, r);
    assert r[|FirstWord(lex, r)|..] == s[1 + |FirstWord(lex, r)|..];
  }

  lemma {:induction false} ExcludeTextHash(lex: Lexer, s: string, nested: nat)
    requires LexerOk(lex) && s != "" && s[0] == '#'
    ensures
      var w := FirstWord(lex, s[1..]);
      var t := s[1 + |w|..];
      if w == "endif" && nested == 0 then ExcludeText(lex, s, nested) == Excluded(" " + Blank(w), Tokens(lex, t))
      else
        var e := ExcludeText(lex, t, NestedAfter(w, nested));
        ExcludeText(lex, s, nested) == Excluded(" " + Blank(w) + e.out, e.left)
  {
    if |s| == 1 {
      LoneHash(lex, s, nested);
    } else {
      hide LexerOk, Tokens, FirstWord, Blank;
      var c := HashWordTokens(lex, s);
      var ts, rest := Tokens(lex, s), Tokens(lex, s[1 + |FirstWord(lex, s[1..])|..]);
      assert ts[2..] == rest;
    }
  }

  lemma {:induction false} LoneHash(lex: Lexer, s: string, nested: nat)
    requires LexerOk(lex) && |s| == 1 && s[0] == '#'
    ensures
      var w := FirstWord(lex, s[1..]);
      w == "" && ExcludeText(lex, s, nested) == Excluded(" " + Blank(w) + "", []) && Tokens(lex, s[1 + |w|..]) == []
  {
    HashTokens(lex, s);
    assert s[1..] == "" && Blank("") == "" && " " + "" + "" == " ";
  }

  lemma {:induction false} ExcludeTextPlain(lex: Lexer, s: string, nested: nat)
    requires LexerOk(lex) && s != "" && s[0] != '#'
    ensures 1 <= lex(s).len <= |s|
    ensures
      var n := lex(s).len;
      var e := ExcludeText(lex, s[n..], nested);
      ExcludeText(lex, s, nested) == Excluded(BlankToken(s[..n]) + e.out, e.left)
  {
    ExcludePlain(Token(s[..lex(s).len], lex(s).cls), Tokens(lex, s[lex(s).len..]), nested);
  }

  lemma {:induction false} ProcessTextPlain(lex: Lexer, s: string, nested: nat, defined: set<string>)
    requires LexerOk(lex) && s != "" && (s[0] != '#' || |s| == 1)
    ensures 1 <= lex(s).len <= |s|
    ensures
      var n := lex(s).len;
      ProcessText(lex, s, nested, defined) == s[..n] + ProcessText(lex, s[n..], nested, defined)
  {
    var ts := Tokens(lex, s);
    assert ts[1..] == Tokens(lex, s[lex(s).len..]);
  }

  lemma {:induction false} ProcessTextWord(lex: Lexer, s: string, nested: nat, defined: set<string>)
    requires LexerOk(lex) && |s| > 1 && s[0] == '#' && FirstWord(lex, s[1..]) != "if"
    ensures
      var w := FirstWord(lex, s[1..]);
      var t := s[1 + |w|..];
      ProcessText(lex, s, nested, defined) ==
        if w == "endif" && nested > 0 then Blank("#" + w) + ProcessText(lex, t, nested - 1, defined)
        else "#" + w + ProcessText(lex, t, nested, defined)
  {
    hide LexerOk, Tokens, Process, FirstWord, Blank;
    var c := HashWordTokens(lex, s);
    var ts, rest := Tokens(lex, s), Tokens(lex, s[1 + |FirstWord(lex, s[1..])|..]);
    assert ts[2..] == rest;
    ProcessAtWord(ts, nested, defined);
  }

  /** White space behind "if", if there is any. */
  function Space(lex: Lexer, t: string): (space: string)
    ensures |space| <= |t|
  {
    if lex(t).cls.Whitespace? then FirstWord(lex, t) else ""
  }

  lemma {:induction false} SpaceIsPrefix(lex: Lexer, t: string)
    ensures t[..|Space(lex, t)|] == Space(lex, t) && t[..|FirstWord(lex, t)|] == FirstWord(lex, t)
  {
  }

  lemma {:induction false} SpaceTokens(lex: Lexer, t: string)
    requires LexerOk(lex)
    ensures
      var ts, sp := Tokens(lex, t), Space(lex, t);
      && WordIndex(ts) <= |ts|
      && Text(ts[..WordIndex(ts)]) == sp
      && ts[WordIndex(ts)..] == Tokens(lex, t[|sp|..])
      && (HasWord(ts) <==> lex(t[|sp|..]).cls.Identifier?)
  {
    var ts, sp := Tokens(lex, t), Space(lex, t);
    if t == "" {
      assert t[|sp|..] == "";
    } else if lex(t).cls.Whitespace? {
      TextOne(ts[0]);
      assert ts[..1] == [ts[0]];
    } else {
      assert t[|sp|..] == t;
    }
  }

  lemma {:induction false} ProcessTextIf(lex: Lexer, s: string, nested: nat, defined: set<string>)
    requires LexerOk(lex) && |s| > 1 && s[0] == '#' && FirstWord(lex, s[1..]) == "if"
    ensures
      var t := s[3..];
      var sp := Space(lex, t);
      var u := t[|sp|..];
      var word := FirstWord(lex, u);
      var v := u[|word|..];
      ProcessText(lex, s, nested, defined) ==
        if !lex(u).cls.Identifier? then "#if" + sp + ProcessText(lex, u, nested, defined)
        else if word in defined then Blank("#if" + sp + word) + ProcessText(lex, v, nested + 1, defined)
        else
          Blank("#if" + sp + word) + ExcludeText(lex, v, 0).out + Process(ExcludeText(lex, v, 0).left, nested, defined)
  {
    hide Exclude, Blank, Process, HasWord, Text, Tokens, LexerOk, Space, FirstWord, WordIndex;
    var c := IfTokens(lex, s);
    var t := s[3..];
    var ts, rest := Tokens(lex, s), Tokens(lex, t);
    assert ts[2..] == rest;
    SpaceTokens(lex, t);
    assert "#" + "if" == "#if";
    if HasWord(rest) {
      WordTokens(lex, t);
      ProcessAtIf(ts, nested, defined);
      var sp := Space(lex, t);
      SeqOfThree("#if", sp, FirstWord(lex, t[|sp|..]));
    } else {
      ProcessAtBareIf(ts, nested, defined);
    }
  }

  lemma {:induction false} IfTokens(lex: Lexer, s: string) returns (c: TokenClass)
    requires LexerOk(lex) && |s| > 1 && s[0] == '#' && FirstWord(lex, s[1..]) == "if"
    ensures |s| >= 3 && Tokens(lex, s) == [HASH, Token("if", c)] + Tokens(lex, s[3..])
  {
    hide LexerOk, Tokens, FirstWord;
    c := HashWordTokens(lex, s);
  }

  /** The word of an #if, behind at most one white space. */
  lemma {:induction false} WordTokens(lex: Lexer, t: string)
    requires LexerOk(lex) && HasWord(Tokens(lex, t))
    ensures
      var ts, sp := Tokens(lex, t), Space(lex, t);
      var k, u := WordIndex(ts), t[|sp|..];
      var word := FirstWord(lex, u);
      && k < |ts|
      && ts[k].text == word
      && Text(ts[..k + 1]) == sp + word
      && ts[k + 1..] == Tokens(lex, u[|word|..])
  {
    var ts, sp := Tokens(lex, t), Space(lex, t);
    SpaceTokens(lex, t);
    WordInside(ts);
    var k, u := WordIndex(ts), t[|sp|..];
    var us := Tokens(lex, u);
    assert ts[k] == ts[k..][0] == us[0] && ts[k + 1..] == us[1..];
    FirstToken(lex, u);
    hide Tokens, Text, Space, FirstWord, WordIndex, HasWord, LexerOk;
    TextTakes(ts[..k + 1], k);
    assert ts[..k + 1][..k] == ts[..k] && ts[..k + 1][k..] == [ts[k]];
    TextOne(ts[k]);
  }

  lemma {:induction false} FirstToken(lex: Lexer, u: string)
    requires LexerOk(lex) && Tokens(lex, u) != []
    ensures Tokens(lex, u)[0].text == FirstWord(lex, u)
    ensures Tokens(lex, u)[1..] == Tokens(lex, u[|FirstWord(lex, u)|..])
  {
  }

  lemma {:induction false} SuffixParts(script: string, pos: nat, n: nat)
    requires pos + n <= |script|
    ensures script[pos..][n..] == script[pos + n..] && script[pos..][..n] == script[pos..pos + n]
  {
  }

  // ---------- the script builder

  class CScriptBuilder {
    const lex: Lexer
    const definedWords: set<string>
    var modifiedScript: string

    constructor (lex: Lexer, definedWords: set<string>, script: string)
      ensures this.lex == lex && this.definedWords == definedWords && modifiedScript == script
    {
      this.lex := lex;
      this.definedWords := definedWords;
      modifiedScript := script;
    }

    /** engine->ParseToken on the text from a position on */
    method ParseToken(pos: nat) returns (cls: TokenClass, len: nat)
      requires LexerOk(lex) && pos <= |modifiedScript|
      ensures lex(modifiedScript[pos..]) == Lexeme(cls, len) && pos + len <= |modifiedScript|
      ensures pos < |modifiedScript| ==> len > 0 && (modifiedScript[pos] == '#' ==> cls == Unknown && len == 1)
      ensures FirstWord(lex, modifiedScript[pos..]) == modifiedScript[pos..pos + len]
    {
      var l := lex(modifiedScript[pos..]);
      cls, len := l.cls, l.len;
    }

    /** Characters but line breaks become blanks. */
    method OverwriteCode(start: nat, len: nat)
      requires start + len <= |modifiedScript|
      modifies this
      ensures modifiedScript ==
        old(modifiedScript)[..start] + Blank(old(modifiedScript)[start..start + len])
        + old(modifiedScript)[start + len..]
    {
      ghost var s := modifiedScript;
      for n := 0 to len
        invariant |modifiedScript| == |s|
        invariant forall k :: 0 <= k < |s| ==>
          modifiedScript[k] == if start <= k < start + n then BlankChar(s[k]) else s[k]
      {
        if modifiedScript[start + n] != '\n' {
          modifiedScript := modifiedScript[start + n := ' '];
        }
      }
    }

    /** The text from pos on is still the script's, and what was gone through before it is `done`. */
    ghost predicate At(script: string, from: nat, done: string, pos: nat)
      reads this
    {
      from <= pos <= |script| && |done| == pos - from && modifiedScript == script[..from] + done + script[pos..]
    }

    /** The characters from pos on that stay as they are. */
    lemma {:induction false} Kept(script: string, from: nat, done: string, pos: nat, len: nat)
      requires At(script, from, done, pos) && pos + len <= |script|
      ensures At(script, from, done + script[pos..pos + len], pos + len)
    {
    }

    lemma {:induction false} AtStart(from: nat)
      requires from <= |modifiedScript|
      ensures At(modifiedScript, from, "", from)
    {
    }

    lemma {:induction false} Ahead(script: string, from: nat, done: string, pos: nat, k: nat)
      requires At(script, from, done, pos) && pos <= k <= |script|
      ensures |modifiedScript| == |script| && modifiedScript[k..] == script[k..]
      ensures forall j :: pos <= j < |script| ==> modifiedScript[j] == script[j]
    {
    }

    method BlankNext(pos: nat, len: nat, ghost script: string, ghost from: nat, ghost done: string)
      requires At(script, from, done, pos) && pos + len <= |script|
      modifies this
      ensures At(script, from, done + Blank(script[pos..pos + len]), pos + len)
    {
      hide Blank;
      ghost var before := modifiedScript;
      assert before[pos..pos + len] == script[pos..pos + len];
      OverwriteCode(pos, len);
      ghost var b := Blank(script[pos..pos + len]);
      assert before[..pos] == script[..from] + done;
      assert before[pos + len..] == script[pos + len..];
      assert modifiedScript == script[..from] + (done + b) + script[pos + len..];
    }

    method BlankHash(pos: nat, ghost script: string, ghost from: nat, ghost done: string)
      requires At(script, from, done, pos) && pos < |script|
      modifies this
      ensures At(script, from, done + " ", pos + 1)
    {
      ghost var before := modifiedScript;
      modifiedScript := modifiedScript[pos := ' '];
      assert modifiedScript == before[..pos] + " " + before[pos + 1..];
      assert before[..pos] == script[..from] + done && before[pos + 1..] == script[pos + 1..];
    }

    /** The branch of ExcludeCode for a '#' and the word behind it. */
    method ExcludeHash(pos: nat, ghost script: string, ghost from: nat, ghost done: string)
      returns (token: string, pos': nat)
      requires LexerOk(lex) && At(script, from, done, pos) && pos < |script| && script[pos] == '#'
      modifies this
      ensures token == FirstWord(lex, script[pos + 1..]) && pos' == pos + 1 + |token|
      ensures At(script, from, done + (" " + Blank(token)), pos')
    {
      hide LexerOk, FirstWord, Blank, At;
      BlankHash(pos, script, from, done);
      ghost var done' := done + " ";
      Ahead(script, from, done', pos + 1, pos + 1);
      var cls, len := ParseToken(pos + 1);
      token := modifiedScript[pos + 1..pos + 1 + len];
      assert token == script[pos + 1..pos + 1 + len];
      BlankNext(pos + 1, len, script, from, done');
      pos' := pos + 1 + len;
      SeqOfThree(done, " ", Blank(token));
    }

    /** The branch of ExcludeCode for any other token. */
    method ExcludeOther(pos: nat, ghost script: string, ghost from: nat, ghost done: string) returns (pos': nat)
      requires LexerOk(lex) && At(script, from, done, pos) && pos < |script|
      modifies this
      ensures pos' == pos + lex(script[pos..]).len && pos < pos' <= |script|
      ensures At(script, from, done + BlankToken(script[pos..pos']), pos')
    {
      hide LexerOk, FirstWord, Blank, BlankToken;
      Ahead(script, from, done, pos, pos);
      var cls, len := ParseToken(pos);
      PlainBlanked(script[pos..pos + len]);
      if modifiedScript[pos] != '\n' {
        BlankNext(pos, len, script, from, done);
      } else {
        Kept(script, from, done, pos, len);
      }
      pos' := pos + len;
    }

    /** What is left to exclude from pos on, and what came before it, make up everything. */
    ghost predicate Excluding(all: Excluded, script: string, done: string, pos: nat, nested: nat)
      requires LexerOk(lex) && pos <= |script|
    {
      var e := ExcludeText(lex, script[pos..], nested);
      e.left == all.left && done + e.out == all.out
    }

    lemma {:induction false} ExcludingOther(all: Excluded, script: string, done: string, pos: nat, nested: nat)
      requires LexerOk(lex) && pos < |script| && script[pos] != '#' && Excluding(all, script, done, pos, nested)
      ensures
        var pos' := pos + lex(script[pos..]).len;
        pos' <= |script| && Excluding(all, script, done + BlankToken(script[pos..pos']), pos', nested)
    {
      hide LexerOk, ExcludeText, BlankToken;
      var s, n := script[pos..], lex(script[pos..]).len;
      ExcludeTextPlain(lex, s, nested);
      SuffixParts(script, pos, n);
      SeqOfThree(done, BlankToken(s[..n]), ExcludeText(lex, script[pos + n..], nested).out);
    }

    lemma {:induction false} ExcludingHash(all: Excluded, script: string, done: string, pos: nat, nested: nat)
      requires LexerOk(lex) && pos < |script| && script[pos] == '#' && Excluding(all, script, done, pos, nested)
      ensures
        var w := FirstWord(lex, script[pos + 1..]);
        var done', pos' := done + (" " + Blank(w)), pos + 1 + |w|;
        && pos' <= |script|
        && if w == "endif" && nested == 0 then all == Excluded(done', Tokens(lex, script[pos'..]))
           else Excluding(all, script, done', pos', NestedAfter(w, nested))
    {
      hide LexerOk, ExcludeText, Blank, FirstWord;
      var s := script[pos..];
      ExcludeTextHash(lex, s, nested);
      SuffixParts(script, pos, 1);
      var w := FirstWord(lex, script[pos + 1..]);
      SuffixParts(script, pos, 1 + |w|);
      SeqOfThree(done, " " + Blank(w), ExcludeText(lex, script[pos + 1 + |w|..], NestedAfter(w, nested)).out);
    }

    /** Blank up to and including the matching #endif. */
    method ExcludeCode(from: nat) returns (pos: nat)
      requires LexerOk(lex) && from <= |modifiedScript|
      modifies this
      ensures At(old(modifiedScript), from, ExcludeText(lex, old(modifiedScript)[from..], 0).out, pos)
      ensures Tokens(lex, old(modifiedScript)[pos..]) == ExcludeText(lex, old(modifiedScript)[from..], 0).left
    {
      hide LexerOk, FirstWord, Blank, ExcludeText, BlankToken, Excluding, At, Tokens;
      ghost var script, done := modifiedScript, "";
      ghost var all := ExcludeText(lex, script[from..], 0);
      pos := from;
      var nested: int := 0;
      ExcludingStart(all, script, from);
      AtStart(from);
      while pos < |modifiedScript|
        invariant nested >= 0 && pos <= |script| == |modifiedScript| && At(script, from, done, pos)
        invariant Excluding(all, script, done, pos, nested)
        decreases |script| - pos
      {
        Ahead(script, from, done, pos, pos);
        if modifiedScript[pos] == '#' {
          ExcludingHash(all, script, done, pos, nested);
          var token;
          token, pos := ExcludeHash(pos, script, from, done);
          done := done + (" " + Blank(token));
          Ahead(script, from, done, pos, pos);
          if token == "if" {
            nested := nested + 1;
          } else if token == "endif" {
            if nested == 0 {
              return;
            }
            nested := nested - 1;
          }
        } else {
          ExcludingOther(all, script, done, pos, nested);
          ghost var before := pos;
          pos := ExcludeOther(pos, script, from, done);
          done := done + BlankToken(script[before..pos]);
          Ahead(script, from, done, pos, pos);
        }
      }
      ExcludingEnd(all, script, done, pos, nested);
    }

    lemma {:induction false} ExcludingStart(all: Excluded, script: string, from: nat)
      requires LexerOk(lex) && from <= |script| && all == ExcludeText(lex, script[from..], 0)
      ensures Excluding(all, script, "", from, 0)
    {
    }

    lemma {:induction false} ExcludingEnd(all: Excluded, script: string, done: string, pos: nat, nested: nat)
      requires LexerOk(lex) && pos == |script| && Excluding(all, script, done, pos, nested)
      ensures done == all.out && Tokens(lex, script[pos..]) == all.left
    {
      NothingLeft(script, pos, nested);
    }

    lemma {:induction false} PlainBlanked(s: string)
      requires s != ""
      ensures BlankToken(s) == if s[0] != '\n' then Blank(s) else s
    {
    }

    lemma {:induction false} NothingLeft(script: string, pos: nat, nested: nat)
      requires LexerOk(lex) && pos == |script|
      ensures script[pos..] == "" && ExcludeText(lex, script[pos..], nested) == Excluded("", [])
      ensures Tokens(lex, script[pos..]) == []
      ensures ProcessText(lex, script[pos..], nested, definedWords) == ""
    {
      assert script[pos..] == "";
    }

    // ---------- the main loop

    ghost predicate Processing(all: string, script: string, done: string, pos: nat, nested: nat)
      requires LexerOk(lex) && pos <= |script|
    {
      done + ProcessText(lex, script[pos..], nested, definedWords) == all
    }

    lemma {:induction false} ProcessingOther(all: string, script: string, done: string, pos: nat, nested: nat)
      requires LexerOk(lex) && pos < |script| && (script[pos] != '#' || pos + 1 == |script|)
      requires Processing(all, script, done, pos, nested)
      ensures
        var pos' := pos + lex(script[pos..]).len;
        pos' <= |script| && Processing(all, script, done + script[pos..pos'], pos', nested)
    {
      hide LexerOk, ProcessText;
      var s, n := script[pos..], lex(script[pos..]).len;
      ProcessTextPlain(lex, s, nested, definedWords);
      SuffixParts(script, pos, n);
      SeqOfThree(done, s[..n], ProcessText(lex, script[pos + n..], nested, definedWords));
    }

    lemma {:induction false} HashAndWord(script: string, pos: nat)
      requires pos + 1 < |script| && script[pos] == '#'
      ensures script[pos..pos + 1 + |FirstWord(lex, script[pos + 1..])|] == "#" + FirstWord(lex, script[pos + 1..])
    {
      var w := FirstWord(lex, script[pos + 1..]);
      assert script[pos + 1..][..|w|] == w;
    }

    /** A directive other than #if. */
    lemma {:induction false} ProcessingWord(all: string, script: string, done: string, pos: nat, nested: nat)
      requires LexerOk(lex) && pos + 1 < |script| && script[pos] == '#' && FirstWord(lex, script[pos + 1..]) != "if"
      requires Processing(all, script, done, pos, nested)
      ensures
        var w := FirstWord(lex, script[pos + 1..]);
        var pos' := pos + 1 + |w|;
        && pos' <= |script|
        && if w == "endif" && nested > 0
           then Processing(all, script, done + Blank(script[pos..pos']), pos', nested - 1)
           else Processing(all, script, done + script[pos..pos'], pos', nested)
    {
      hide LexerOk, ProcessText, Blank, FirstWord;
      var s := script[pos..];
      SuffixParts(script, pos, 1);
      ProcessTextWord(lex, s, nested, definedWords);
      var w := FirstWord(lex, script[pos + 1..]);
      var pos' := pos + 1 + |w|;
      SuffixParts(script, pos, 1 + |w|);
      HashAndWord(script, pos);
      if w == "endif" && nested > 0 {
        SeqOfThree(done, Blank("#" + w), ProcessText(lex, script[pos'..], nested - 1, definedWords));
      } else {
        SeqOfThree(done, "#" + w, ProcessText(lex, script[pos'..], nested, definedWords));
      }
    }

    /** Where the word of an #if starts. */
    function WordStart(script: string, pos: nat): (at: nat)
      requires pos + 3 <= |script|
      ensures pos < at <= |script|
    {
      pos + 3 + |Space(lex, script[pos + 3..])|
    }

    lemma {:induction false} IfText(script: string, pos: nat)
      requires LexerOk(lex) && pos + 1 < |script| && script[pos] == '#' && FirstWord(lex, script[pos + 1..]) == "if"
      ensures pos + 3 <= |script| && script[pos..pos + 3] == "#if"
    {
      assert script[pos + 1..][..2] == "if";
      assert script[pos..pos + 3] == [script[pos]] + script[pos + 1..][..2];
    }

    /** The text of an #if directive in parts. */
    lemma {:induction false} IfParts(script: string, pos: nat)
      requires pos + 3 <= |script| && script[pos..pos + 3] == "#if"
      ensures
        var t, at := script[pos + 3..], WordStart(script, pos);
        var sp, word := Space(lex, t), FirstWord(lex, script[at..]);
        && t[|sp|..] == script[at..]
        && script[at..][|word|..] == script[at + |word|..]
        && script[pos..at] == "#if" + sp
        && script[pos..at + |word|] == "#if" + sp + word
    {
      hide Space, FirstWord;
      var t, at := script[pos + 3..], WordStart(script, pos);
      var sp, word := Space(lex, t), FirstWord(lex, script[at..]);
      SpaceIsPrefix(lex, t);
      SpaceIsPrefix(lex, script[at..]);
      SuffixParts(script, pos + 3, |sp|);
      SuffixParts(script, at, |word|);
      assert script[pos..at] == script[pos..pos + 3] + script[pos + 3..at];
      assert script[pos..at + |word|] == script[pos..at] + script[at..at + |word|];
    }

    lemma {:induction false} ProcessingIf(all: string, script: string, done: string, pos: nat, nested: nat)
      requires LexerOk(lex) && pos + 1 < |script| && script[pos] == '#' && FirstWord(lex, script[pos + 1..]) == "if"
      requires Processing(all, script, done, pos, nested)
      ensures pos + 3 <= |script|
      ensures
        var at := WordStart(script, pos);
        var word := FirstWord(lex, script[at..]);
        var pos' := at + |word|;
        var done' := done + Blank(script[pos..pos']);
        if !lex(script[at..]).cls.Identifier? then Processing(all, script, done + script[pos..at], at, nested)
        else if word in definedWords then Processing(all, script, done', pos', nested + 1)
        else
          var e := ExcludeText(lex, script[pos'..], 0);
          all == done' + e.out + Process(e.left, nested, definedWords)
    {
      hide LexerOk, ProcessText, ExcludeText, Blank, FirstWord, Space, Process;
      var s, t := script[pos..], script[pos + 3..];
      IfText(script, pos);
      SuffixParts(script, pos, 1);
      SuffixParts(script, pos, 3);
      ProcessTextIf(lex, s, nested, definedWords);
      IfParts(script, pos);
      var at := WordStart(script, pos);
      var word := FirstWord(lex, script[at..]);
      var pos' := at + |word|;
      if !lex(script[at..]).cls.Identifier? {
        SeqOfThree(done, script[pos..at], ProcessText(lex, script[at..], nested, definedWords));
      } else if word in definedWords {
        SeqOfThree(done, Blank(script[pos..pos']), ProcessText(lex, script[pos'..], nested + 1, definedWords));
      } else {
        var e := ExcludeText(lex, script[pos'..], 0);
        var b, r := Blank(script[pos..pos']), Process(e.left, nested, definedWords);
        SeqOfThree(b, e.out, r);
        SeqOfThree(done, b, e.out + r);
        SeqOfThree(done + b, e.out, r);
      }
    }

    /** Overwrite a directive that has been read past. */
    method BlankDirective(start: nat, end: nat, ghost script: string, ghost done: string)
      requires At(script, 0, done, start) && start <= end <= |script|
      modifies this
      ensures At(script, 0, done + Blank(script[start..end]), end)
    {
      BlankNext(start, end - start, script, 0, done);
    }

    /** The word of an #if, behind at most one white space. */
    method ReadWord(pos: nat, ghost script: string, ghost done: string, ghost start: nat)
      returns (cls: TokenClass, at: nat, len: nat)
      requires LexerOk(lex) && At(script, 0, done, start) && start + 3 == pos <= |script|
      ensures at == WordStart(script, start) && at + len <= |script|
      ensures lex(script[at..]) == Lexeme(cls, len) && FirstWord(lex, script[at..]) == script[at..at + len]
    {
      hide LexerOk, FirstWord;
      at := pos;
      Ahead(script, 0, done, start, at);
      cls, len := ParseToken(at);
      if cls == Whitespace {
        at := at + len;
        Ahead(script, 0, done, start, at);
        cls, len := ParseToken(at);
      }
      Ahead(script, 0, done, start, at + len);
      assert modifiedScript[at..at + len] == script[at..at + len];
    }

    /** ExcludeCode behind an #if that has been gone past. */
    method ExcludeRegion(from: nat, ghost script: string, ghost done: string) returns (pos: nat)
      requires LexerOk(lex) && At(script, 0, done, from)
      modifies this
      ensures At(script, 0, done + ExcludeText(lex, script[from..], 0).out, pos) && pos >= from
      ensures Tokens(lex, script[pos..]) == ExcludeText(lex, script[from..], 0).left
    {
      hide LexerOk, ExcludeText;
      ghost var before := modifiedScript;
      Ahead(script, 0, done, from, from);
      assert before[..from] == done;
      pos := ExcludeCode(from);
      assert before[pos..] == script[pos..];
    }

    /** The branch for an #if; the region of an undefined one is excluded at once. */
    method ProcessIfDirective(start: nat, nested: nat, ghost all: string, ghost script: string, ghost done: string)
      returns (pos: nat, nested': nat, ghost done': string)
      requires LexerOk(lex) && At(script, 0, done, start) && Processing(all, script, done, start, nested)
      requires start + 1 < |script| && script[start] == '#' && FirstWord(lex, script[start + 1..]) == "if"
      modifies this
      ensures start < pos && At(script, 0, done', pos) && Processing(all, script, done', pos, nested')
    {
      hide LexerOk, FirstWord, Processing, Blank, ExcludeText, Process, Tokens, WordStart;
      ProcessingIf(all, script, done, start, nested);
      var cls, at, len := ReadWord(start + 3, script, done, start);
      nested' := nested;
      if cls == Identifier {
        var word := modifiedScript[at..at + len];
        Ahead(script, 0, done, start, at);
        assert word == script[at..at + len];
        pos := at + len;
        BlankDirective(start, pos, script, done);
        done' := done + Blank(script[start..pos]);
        if word !in definedWords {
          ghost var e := ExcludeText(lex, script[pos..], 0);
          pos := ExcludeRegion(pos, script, done');
          done' := done' + e.out;
          ProcessingFold(all, script, done', pos, nested, e.left);
        } else {
          nested' := nested + 1;
        }
      } else {
        pos := at;
        Kept(script, 0, done, start, pos - start);
        done' := done + script[start..pos];
      }
    }

    lemma {:induction false} ProcessingFold(
      all: string, script: string, done: string, pos: nat, nested: nat, left: seq<Token>)
      requires LexerOk(lex) && pos <= |script| && left == Tokens(lex, script[pos..])
      requires all == done + Process(left, nested, definedWords)
      ensures Processing(all, script, done, pos, nested)
    {
    }

    /** The branch for a '#': the word behind it decides. */
    method ProcessHash(start: nat, nested: nat, ghost all: string, ghost script: string, ghost done: string)
      returns (pos: nat, nested': nat, ghost done': string)
      requires LexerOk(lex) && At(script, 0, done, start) && Processing(all, script, done, start, nested)
      requires start + 1 < |script| && script[start] == '#'
      modifies this
      ensures start < pos && At(script, 0, done', pos) && Processing(all, script, done', pos, nested')
    {
      hide LexerOk, FirstWord, Processing, Blank;
      nested' := nested;
      pos := start + 1;
      Ahead(script, 0, done, start, pos);
      var cls, len := ParseToken(pos);
      var token := modifiedScript[pos..pos + len];
      pos := pos + len;
      if token == "if" {
        pos, nested', done' := ProcessIfDirective(start, nested, all, script, done);
      } else {
        ProcessingWord(all, script, done, start, nested);
        if token == "endif" && nested > 0 {
          BlankDirective(start, pos, script, done);
          done' := done + Blank(script[start..pos]);
          nested' := nested - 1;
        } else {
          Kept(script, 0, done, start, pos - start);
          done' := done + script[start..pos];
        }
      }
    }

    /** The first loop of ProcessScriptSection, which takes out what is not compiled. */
    method ProcessScriptSection()
      requires LexerOk(lex)
      modifies this
      ensures modifiedScript == Process(Tokens(lex, old(modifiedScript)), 0, definedWords)
    {
      hide LexerOk, FirstWord, Processing, Blank, At, Tokens, Process;
      ghost var script, done := modifiedScript, "";
      assert At(script, 0, done, 0) by {
        AtStart(0);
      }
      ghost var all := ProcessText(lex, script, 0, definedWords);
      ProcessingStart(all, script);
      var pos, nested := 0, 0;
      while pos < |modifiedScript|
        invariant 0 <= pos <= |script| == |modifiedScript| && At(script, 0, done, pos)
        invariant nested >= 0 && Processing(all, script, done, pos, nested)
        decreases |script| - pos
      {
        Ahead(script, 0, done, pos, pos);
        var cls, len := ParseToken(pos);
        if cls == Unknown && modifiedScript[pos] == '#' && pos + 1 < |modifiedScript| {
          pos, nested, done := ProcessHash(pos, nested, all, script, done);
        } else {
          ProcessingOther(all, script, done, pos, nested);
          Kept(script, 0, done, pos, len);
          done := done + script[pos..pos + len];
          pos := pos + len;
        }
        AtBounds(script, done, pos);
      }
      ProcessingEnd(all, script, done, pos, nested);
      AtEnd(script, done);
    }

    lemma {:induction false} AtBounds(script: string, done: string, pos: nat)
      requires At(script, 0, done, pos)
      ensures pos <= |script| == |modifiedScript|
    {
    }

    lemma {:induction false} AtEnd(script: string, done: string)
      requires At(script, 0, done, |script|)
      ensures modifiedScript == done
    {
    }

    lemma {:induction false} ProcessingStart(all: string, script: string)
      requires LexerOk(lex) && all == ProcessText(lex, script, 0, definedWords)
      ensures Processing(all, script, "", 0, 0)
    {
      assert script[0..] == script;
    }

    lemma {:induction false} ProcessingEnd(all: string, script: string, done: string, pos: nat, nested: nat)
      requires LexerOk(lex) && pos == |script| && Processing(all, script, done, pos, nested)
      ensures done == all
    {
      NothingLeft(script, pos, nested);
    }
  }
}
