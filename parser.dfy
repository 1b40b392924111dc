/**
 * 6_ParserASTBuild/ParserASTBuild.py: `parse` groups the values of a token list under the
 * keyword before them and builds a tree of `ASTNode` objects through `AST.insert`. The method is
 * proved against `Collect`, a fold of the token list, and the fold against reference definitions
 * that look at each token on its own.
 */
module ParserAst {

  /** The token types of ParserASTBuild.py:5-17. */
  datatype Kind = Keyword | Variable | Str | Number | Equals | Comma | LParen | RParen
                | LBracket | RBracket | Newline | Eof

  /** A token as `lex` makes it: every value is the matched text (EOF's None is written ""). */
  datatype Token = Token(kind: Kind, value: string)

  // ---- str.strip and str.isdigit ----

  /** The characters stripped from STRING and VARIABLE values (ParserASTBuild.py:109). */
  const Junk: set<char> := {'"', '\'', ',', ' '}

  /** `s` without its leading characters from `cs`. */
  function TrimStart(s: string, cs: set<char>): (r: string)
    ensures |r| <= |s| && r == s[|s| - |r|..]
    ensures forall i :: 0 <= i < |s| - |r| ==> s[i] in cs
    ensures r != [] ==> r[0] !in cs
    decreases |s|
  {
    if s != [] && s[0] in cs then
      var r := TrimStart(s[1..], cs);
      assert forall i :: 1 <= i < |s| - |r| ==> s[i] == s[1..][i - 1];
      r
    else s
  }

  /** `s` without its trailing characters from `cs`. */
  function TrimEnd(s: string, cs: set<char>): (r: string)
    ensures |r| <= |s| && r == s[..|r|]
    ensures forall i :: |r| <= i < |s| ==> s[i] in cs
    ensures r != [] ==> r[|r| - 1] !in cs
    decreases |s|
  {
    if s != [] && s[|s| - 1] in cs then TrimEnd(s[..|s| - 1], cs) else s
  }

  /** `str.strip(cs)`. */
  function Strip(s: string, cs: set<char>): string
  {
    TrimEnd(TrimStart(s, cs), cs)
  }

  /** The stripped text is the stretch of `s` that starts after the leading `cs` characters. */
  lemma StripSlice(s: string, cs: set<char>)
    ensures var r, i := Strip(s, cs), |s| - |TrimStart(s, cs)|;
      i + |r| <= |s| && r == s[i..i + |r|]
  {
    var t := TrimStart(s, cs);
    var r := TrimEnd(t, cs);
    var i := |s| - |t|;
    assert t == s[i..] && r == t[..|r|];
    assert s[i..][..|r|] == s[i..i + |r|];
  }

  /** Only `cs` characters lie before and after the stripped text. */
  lemma StripSurround(s: string, cs: set<char>)
    ensures var r, i := Strip(s, cs), |s| - |TrimStart(s, cs)|;
      i + |r| <= |s|
      && (forall k :: 0 <= k < i ==> s[k] in cs) && (forall k :: i + |r| <= k < |s| ==> s[k] in cs)
  {
    var t := TrimStart(s, cs);
    var r := TrimEnd(t, cs);
    var i := |s| - |t|;
    assert t == s[i..];
    forall k | i + |r| <= k < |s|
      ensures s[k] in cs
    {
      var j := k - i;
      assert |r| <= j < |t|;
      assert t[j] in cs;
      assert s[i..][j] == s[k];
    }
  }

  /** Neither end of the stripped text is in `cs`. */
  lemma StripEnds(s: string, cs: set<char>)
    ensures var r := Strip(s, cs); r != [] ==> r[0] !in cs && r[|r| - 1] !in cs
  {
    var t := TrimStart(s, cs);
    var r := TrimEnd(t, cs);
    if r != [] {
      assert r[0] == t[0];
    }
  }

  /** ASCII `str.isdigit`: at least one character, all of them digits. */
  predicate IsDigits(s: string)
  {
    s != [] && forall c :: c in s ==> '0' <= c <= '9'
  }

  // ---- The first loop of parse ----

  /** The locals of the first loop: `current_keyword` ("" for None, which is just as false),
      `current_values` and `keyword_stack`. */
  datatype Collector = Collector(current: string, values: map<string, seq<string>>, stack: seq<string>)

  /** The list of `kw` in `values`, with `dict.get(kw, [])`. */
  function Get(values: map<string, seq<string>>, kw: string): seq<string>
  {
    if kw in values then values[kw] else []
  }

  /** ParserASTBuild.py:110-113 and 116-119: a non-empty value goes to the list of the current
      keyword, if there is one. */
  function Append(st: Collector, v: string): Collector
  {
    if st.current != "" && v != "" then
      Collector(st.current, st.values[st.current := Get(st.values, st.current) + [v]], st.stack)
    else st
  }

  /** ParserASTBuild.py:103-119: one token of the first loop. */
  function Consume(st: Collector, t: Token): Collector
  {
    match t.kind
    case Keyword => Collector(t.value, st.values, st.stack + [t.value])
    case Str => Append(st, Strip(t.value, Junk))
    case Variable => Append(st, Strip(t.value, Junk))
    case Number => Append(st, t.value)
    case _ => st
  }

  /** The locals after the first loop has consumed `tokens`. */
  function Collect(tokens: seq<Token>): Collector
    decreases |tokens|
  {
    if tokens == [] then Collector("", map[], [])
    else Consume(Collect(tokens[..|tokens| - 1]), tokens[|tokens| - 1])
  }

  // ---- Reference definitions, token by token ----

  /** The values of the KEYWORD tokens, in input order. */
  function KeywordsOf(tokens: seq<Token>): seq<string>
    decreases |tokens|
  {
    if tokens == [] then []
    else (if tokens[0].kind == Keyword then [tokens[0].value] else []) + KeywordsOf(tokens[1..])
  }

  /** The keyword in force before position `i`: the value of the last KEYWORD token before it. */
  function Owner(tokens: seq<Token>, i: nat): string
    requires i <= |tokens|
    decreases i
  {
    if i == 0 then ""
    else if tokens[i - 1].kind == Keyword then tokens[i - 1].value
    else Owner(tokens, i - 1)
  }

  /** What a token offers as a value: STRING and VARIABLE stripped, NUMBER as it is. */
  function Offered(t: Token): string
  {
    match t.kind
    case Str => Strip(t.value, Junk)
    case Variable => Strip(t.value, Junk)
    case Number => t.value
    case _ => ""
  }

  /** The non-empty values offered by the tokens whose keyword in force is `kw`, in order. */
  function ValuesFor(tokens: seq<Token>, kw: string): seq<string>
    decreases |tokens|
  {
    if tokens == [] then []
    else
      var n := |tokens| - 1;
      var v := Offered(tokens[n]);
      ValuesFor(tokens[..n], kw)
        + (if kw != "" && Owner(tokens, n) == kw && v != "" then [v] else [])
  }

  lemma KeywordsOfSnoc(tokens: seq<Token>, t: Token)
    ensures KeywordsOf(tokens + [t]) == KeywordsOf(tokens) + (if t.kind == Keyword then [t.value] else [])
    decreases |tokens|
  {
    if tokens != [] {
      assert (tokens + [t])[1..] == tokens[1..] + [t];
      KeywordsOfSnoc(tokens[1..], t);
    }
  }

  lemma OwnerPrefix(tokens: seq<Token>, n: nat, i: nat)
    requires i <= n <= |tokens|
    ensures Owner(tokens[..n], i) == Owner(tokens, i)
    decreases i
  {
    if i > 0 {
      OwnerPrefix(tokens, n, i - 1);
    }
  }

  /** Every token is consumed as its offered value, except that a KEYWORD changes the keyword
      in force and is pushed. */
  lemma ConsumeOffered(st: Collector, t: Token)
    ensures Consume(st, t)
      == if t.kind == Keyword then Collector(t.value, st.values, st.stack + [t.value])
         else Append(st, Offered(t))
  {
  }

  /** Appending a value extends the list of the keyword in force and no other. */
  lemma AppendValues(st: Collector, v: string, kw: string)
    ensures Get(Append(st, v).values, kw)
      == Get(st.values, kw) + (if kw != "" && st.current == kw && v != "" then [v] else [])
    ensures Append(st, v).values.Keys
      == st.values.Keys + (if st.current != "" && v != "" then {st.current} else {})
    ensures Append(st, v).current == st.current && Append(st, v).stack == st.stack
  {
  }

  /** `keyword_stack` records every KEYWORD token, in input order. */
  lemma {:induction false} CollectStack(tokens: seq<Token>)
    ensures Collect(tokens).stack == KeywordsOf(tokens)
    decreases |tokens|
  {
    if tokens != [] {
      var n := |tokens| - 1;
      CollectStack(tokens[..n]);
      assert tokens == tokens[..n] + [tokens[n]];
      KeywordsOfSnoc(tokens[..n], tokens[n]);
      ConsumeOffered(Collect(tokens[..n]), tokens[n]);
    }
  }

  /** `current_keyword` is the keyword in force after the tokens, and one of the stack's. */
  lemma {:induction false} CollectCurrent(tokens: seq<Token>)
    ensures Collect(tokens).current == Owner(tokens, |tokens|)
    ensures Collect(tokens).current != "" ==> Collect(tokens).current in Collect(tokens).stack
    decreases |tokens|
  {
    if tokens != [] {
      var n := |tokens| - 1;
      CollectCurrent(tokens[..n]);
      OwnerPrefix(tokens, n, n);
      ConsumeOffered(Collect(tokens[..n]), tokens[n]);
    }
  }

  /** Only a keyword that occurred, and is not empty, gets a list. */
  lemma {:induction false} CollectKeys(tokens: seq<Token>, kw: string)
    ensures kw in Collect(tokens).values ==> kw != "" && kw in Collect(tokens).stack
    decreases |tokens|
  {
    if tokens != [] {
      var n := |tokens| - 1;
      var st := Collect(tokens[..n]);
      CollectKeys(tokens[..n], kw);
      CollectCurrent(tokens[..n]);
      ConsumeOffered(st, tokens[n]);
      if tokens[n].kind != Keyword {
        AppendValues(st, Offered(tokens[n]), kw);
      }
    }
  }

  /** The list of each keyword holds exactly the non-empty values offered while it was in
      force, in order. */
  lemma {:induction false} CollectValues(tokens: seq<Token>, kw: string)
    ensures Get(Collect(tokens).values, kw) == ValuesFor(tokens, kw)
    decreases |tokens|
  {
    if tokens != [] {
      var n := |tokens| - 1;
      var st := Collect(tokens[..n]);
      CollectValues(tokens[..n], kw);
      CollectCurrent(tokens[..n]);
      OwnerPrefix(tokens, n, n);
      ConsumeOffered(st, tokens[n]);
      if tokens[n].kind != Keyword {
        AppendValues(st, Offered(tokens[n]), kw);
      }
    }
  }

  /** Values that come before the first keyword are dropped. */
  lemma NoKeywordNoValues(tokens: seq<Token>)
    requires forall i :: 0 <= i < |tokens| ==> tokens[i].kind != Keyword
    ensures Collect(tokens) == Collector("", map[], [])
    decreases |tokens|
  {
    if tokens != [] {
      NoKeywordNoValues(tokens[..|tokens| - 1]);
    }
  }

  // ---- The second loop of parse ----

  /** ParserASTBuild.py:126-137: the type and value of the node built for one value. */
  function Classify(v: string): (Kind, string)
  {
    if IsDigits(v) then (Number, v)
    else if |v| > 0 && v[0] == '"' && v[|v| - 1] == '"' then (Str, Strip(v, {'"'}))
    else if |v| > 0 && v[0] == '\'' && v[|v| - 1] == '\'' then (Str, Strip(v, {'\''}))
    else (Str, v)
  }

  /** A value node is NUMBER exactly when the value is a string of digits, and STRING otherwise. */
  lemma ClassifyKind(v: string)
    ensures Classify(v).0 == Number <==> IsDigits(v)
    ensures Classify(v).0 != Number ==> Classify(v).0 == Str
  {
  }

  /** A STRING or VARIABLE value, once stripped, starts with no quote: the quote branches never
      apply to it and its node carries it unchanged. */
  lemma StrippedKeepsValue(s: string)
    requires Strip(s, Junk) != ""
    ensures Classify(Strip(s, Junk)).1 == Strip(s, Junk)
  {
    StripEnds(s, Junk);
  }

  /** Every value the first loop collects reaches its node unchanged, unless it is a NUMBER
      value written in quotes. */
  lemma OfferedKeepsValue(t: Token)
    requires Offered(t) != "" && t.kind != Number
    ensures Classify(Offered(t)).1 == Offered(t)
  {
    StrippedKeepsValue(t.value);
  }

  /** The (type, value) of the nodes built for a keyword's list. */
  function ValueNodes(vs: seq<string>): seq<(Kind, string)>
  {
    seq(|vs|, i requires 0 <= i < |vs| => Classify(vs[i]))
  }

  // ---- The tree ----

  class ASTNode {
    var kind: Kind
    var value: string
    var children: seq<ASTNode>

    /** ParserASTBuild.py:45-48. */
    constructor (kind: Kind, value: string)
      ensures this.kind == kind && this.value == value && children == []
    {
      this.kind := kind;
      this.value := value;
      children := [];
    }

    /** ParserASTBuild.py:50-51. */
    method AddChild(child: ASTNode)
      modifies this`children
      ensures children == old(children) + [child]
    {
      children := children + [child];
    }
  }

  /** `n` is a childless node of the given type and value. */
  ghost predicate IsLeaf(n: ASTNode, kv: (Kind, string))
    reads n
  {
    n.kind == kv.0 && n.value == kv.1 && n.children == []
  }

  /** `n` is a KEYWORD node for `kw` whose children are leaves for `leaves`, in order. */
  ghost predicate IsKeywordNode(n: ASTNode, kw: string, leaves: seq<(Kind, string)>)
    reads n, n.children
  {
    n.kind == Keyword && n.value == kw && |n.children| == |leaves|
    && forall i :: 0 <= i < |leaves| ==> IsLeaf(n.children[i], leaves[i])
  }

  class AST {
    var root: ASTNode?

    /** ParserASTBuild.py:54-55. */
    constructor ()
      ensures root == null
    {
      root := null;
    }

    /** ParserASTBuild.py:57-61: the first node becomes the root, any later one the root's
        last child. */
    method Insert(node: ASTNode)
      modifies this, root
      ensures old(root) == null ==> root == node
      ensures old(root) != null ==>
        (root == old(root) && root.children == old(root.children) + [node]
         && root.kind == old(root.kind) && root.value == old(root.value))
    {
      if root == null {
        root := node;
      } else {
        root.AddChild(node);
      }
    }
  }

  /** ParserASTBuild.py:122-138 for one keyword: a fresh KEYWORD node with one fresh leaf for
      each value. */
  method BuildKeywordNode(keyword: string, values: seq<string>) returns (node: ASTNode)
    ensures fresh(node) && IsKeywordNode(node, keyword, ValueNodes(values))
    ensures forall i :: 0 <= i < |node.children| ==> fresh(node.children[i]) && node.children[i] != node
  {
    node := new ASTNode(Keyword, keyword);
    var j := 0;
    while j < |values|
      invariant 0 <= j <= |values|
      invariant fresh(node) && node.kind == Keyword && node.value == keyword && |node.children| == j
      invariant forall i :: 0 <= i < j ==> IsLeaf(node.children[i], Classify(values[i]))
      invariant forall i :: 0 <= i < j ==> fresh(node.children[i]) && node.children[i] != node
    {
      var kv := Classify(values[j]);
      var valueNode := new ASTNode(kv.0, kv.1);
      node.AddChild(valueNode);
      j := j + 1;
    }
  }

  /** ParserASTBuild.py:96-141: the tree of the keywords and values that `Collect` finds. */
  method Parse(tokens: seq<Token>) returns (ast: AST)
    ensures fresh(ast)
    ensures var st := Collect(tokens); st.stack == [] <==> ast.root == null
    ensures ast.root != null ==>
      var st := Collect(tokens); var first := ValueNodes(Get(st.values, st.stack[0]));
        ast.root.kind == Keyword && ast.root.value == st.stack[0]
        && |ast.root.children| == |first| + |st.stack| - 1
        && (forall i :: 0 <= i < |first| ==> IsLeaf(ast.root.children[i], first[i]))
        && forall k :: 1 <= k < |st.stack| ==>
             IsKeywordNode(ast.root.children[|first| + k - 1], st.stack[k],
                           ValueNodes(Get(st.values, st.stack[k])))
  {
    ast := new AST();
    var st := Collector("", map[], []);
    var i := 0;
    while i < |tokens|
      invariant 0 <= i <= |tokens| && st == Collect(tokens[..i])
    {
      assert tokens[..i + 1][..i] == tokens[..i];
      st := Consume(st, tokens[i]);
      i := i + 1;
    }
    assert tokens[..|tokens|] == tokens;
    InsertKeywordNodes(ast, st.stack, st.values);
  }

  /** ParserASTBuild.py:122-139: one KEYWORD node per entry of `stack`, inserted in order. */
  method InsertKeywordNodes(ast: AST, stack: seq<string>, values: map<string, seq<string>>)
    requires ast.root == null
    modifies ast
    ensures stack == [] <==> ast.root == null
    ensures ast.root != null ==>
      var first := ValueNodes(Get(values, stack[0]));
        fresh(ast.root) && ast.root.kind == Keyword && ast.root.value == stack[0]
        && |ast.root.children| == |first| + |stack| - 1
        && (forall i :: 0 <= i < |first| ==> IsLeaf(ast.root.children[i], first[i]))
        && forall k :: 1 <= k < |stack| ==>
             IsKeywordNode(ast.root.children[|first| + k - 1], stack[k], ValueNodes(Get(values, stack[k])))
  {
    ghost var lead: seq<(Kind, string)> := [];
    var k := 0;
    while k < |stack|
      invariant 0 <= k <= |stack|
      invariant k == 0 <==> ast.root == null
      invariant k > 0 ==> lead == ValueNodes(Get(values, stack[0]))
      invariant ast.root != null ==>
        (fresh(ast.root) && ast.root.kind == Keyword && ast.root.value == stack[0]
         && |ast.root.children| == |lead| + k - 1
         && (forall i :: 0 <= i < |lead| ==> IsLeaf(ast.root.children[i], lead[i]))
         && forall j :: 1 <= j < k ==>
              IsKeywordNode(ast.root.children[|lead| + j - 1], stack[j], ValueNodes(Get(values, stack[j]))))
      invariant ast.root != null ==> forall i :: 0 <= i < |ast.root.children| ==>
        ast.root.children[i] != ast.root && forall m :: 0 <= m < |ast.root.children[i].children| ==>
          ast.root.children[i].children[m] != ast.root
    {
      var node := BuildKeywordNode(stack[k], Get(values, stack[k]));
      ast.Insert(node);
      if k == 0 {
        lead := ValueNodes(Get(values, stack[0]));
      }
      k := k + 1;
    }
  }
}
