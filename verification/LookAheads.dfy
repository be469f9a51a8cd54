/** What a lookahead of a rule means: some derivation of the rule begins with it; and the steps from
    the lookaheads of a rule's elements to those of the rule. */
module LookAheads {
  import opened Options
  import opened Graphs
  import opened Grammar

  datatype LookAhead = LaChar(c: char) | LaString(s: string) | LaToken(tokenId: nat) | LaIdentifier | LaLiteral

  // A grammar with the two rules, identifier and literal, that are not looked into.
  datatype LaGrammar = LaGrammar(rules: Rules, identifier: nat, literal: nat)

  predicate IsLeafRule(g: LaGrammar, r: nat) {
    r == g.identifier || r == g.literal
  }

  // The detector asserts that rules look as they should and have elements of four kinds only.
  predicate Allowed(g: LaGrammar) {
    && WellFormed(g.rules) && g.identifier != g.literal
    && forall u, d :: 0 <= u < |g.rules| && !IsLeafRule(g, u) && d in g.rules[u].mData ==>
         d.Char? || d.Str? || d.Token? || d.Subtable?
  }

  // The grammar as the detector sees it: identifiers and literals have nothing in them.
  const SHUT := RuleTable(Data, [NoData])

  function Shut(g: LaGrammar): LaGrammar {
    g.(rules := seq(|g.rules|, u requires 0 <= u < |g.rules| => if IsLeafRule(g, u) then SHUT else g.rules[u]))
  }

  predicate WellFormedLa(g: LaGrammar) {
    Allowed(g) && forall u :: 0 <= u < |g.rules| && IsLeafRule(g, u) ==> g.rules[u] == SHUT
  }

  lemma ShutIsWellFormed(g: LaGrammar)
    requires Allowed(g)
    ensures WellFormedLa(Shut(g))
  {
    var h := Shut(g);
    forall u | 0 <= u < |h.rules|
      ensures WellFormedRule(|h.rules|, h.rules[u])
    {
      assert WellFormedRule(|g.rules|, g.rules[u]);
    }
  }

  predicate Matches(g: LaGrammar, la: LookAhead, d: TableData) {
    match la
    case LaChar(c) => d == Char(c)
    case LaString(s) => d == Str(s)
    case LaToken(id) => d == Token(id)
    case LaIdentifier => d == Subtable(g.identifier)
    case LaLiteral => d == Subtable(g.literal)
  }

  ghost predicate BeginsTree(g: LaGrammar, t: Tree, la: LookAhead) {
    Derivation(g.rules, t) && Yield(t) != [] && Matches(g, la, Yield(t)[0])
  }

  // Some derivation of the rule begins with the lookahead.
  ghost predicate Begins(g: LaGrammar, r: nat, la: LookAhead) {
    exists t :: Root(t) == Subtable(r) && BeginsTree(g, t, la)
  }

  // All elements of the rule before element `k` can be empty, if they come before it at all.
  ghost predicate LeftPos(g: Rules, u: nat, k: nat) {
    && u < |g| && k < |g[u].mData|
    && (g[u].mType.Concatenate? ==> forall i :: 0 <= i < k ==> g[u].mData[i].Subtable? && Nullable(g, g[u].mData[i].entry))
  }

  ghost predicate LeftEdge(g: Rules, u: nat, v: nat) {
    exists k: nat :: LeftPos(g, u, k) && g[u].mData[k] == Subtable(v)
  }

  ghost function LeftEdges(g: Rules): (h: Graph)
    requires WellFormed(g)
    ensures |h| == |g|
    ensures forall u: nat, v: nat :: Step(h, u, v) <==> LeftEdge(g, u, v)
  {
    var h := seq(|g|, u requires 0 <= u < |g| => set v | v in Below(|g|) && LeftEdge(g, u, v));
    assert forall u: nat, v: nat :: LeftEdge(g, u, v) ==> WellFormedRule(|g|, g[u]) && v < |g|;
    h
  }

  function Leaves(ds: seq<TableData>): (ts: seq<Tree>)
    ensures |ts| == |ds| && forall i :: 0 <= i < |ts| ==> ts[i] == Leaf(ds[i])
  {
    seq(|ds|, i requires 0 <= i < |ds| => Leaf(ds[i]))
  }

  lemma {:induction false} YieldsOfTwo(a: seq<Tree>, b: seq<Tree>)
    ensures Yields(a + b) == Yields(a) + Yields(b)
  {
    if a == [] {
      assert a + b == b;
    } else {
      assert (a + b)[1..] == a[1..] + b;
      YieldsOfTwo(a[1..], b);
    }
  }

  // A tree for element `k` that begins with the lookahead, with empty trees before it, makes one for the rule.
  lemma BeginsFromElement(g: LaGrammar, u: nat, k: nat, t: Tree, la: LookAhead)
    requires WellFormed(g.rules) && LeftPos(g.rules, u, k) && Root(t) == g.rules[u].mData[k] && BeginsTree(g, t, la)
    ensures Begins(g, u, la)
  {
    hide WellFormed, Matches, Yields;
    var r := g.rules[u];
    var kids := [t];
    if r.mType.Concatenate? {
      kids := Kids(g.rules, u, k, t);
    } else {
      OneElement(g.rules, u, k);
      assert Roots(kids) == [r.mData[k]];
      YieldsOne(t);
    }
    var whole := Node(u, kids);
    assert Derivation(g.rules, whole) && Root(whole) == Subtable(u) && Yield(whole) == Yields(kids);
  }

  lemma YieldsOne(t: Tree)
    ensures Yields([t]) == Yield(t)
  {
    assert [t][1..] == [];
  }

  // The trees of a concatenation around element `k`: empty ones before it, bare leaves after it.
  lemma Kids(g: Rules, u: nat, k: nat, t: Tree) returns (kids: seq<Tree>)
    requires LeftPos(g, u, k) && g[u].mType.Concatenate? && Root(t) == g[u].mData[k] && Derivation(g, t) && Yield(t) != []
    ensures Roots(kids) == g[u].mData && Yields(kids) != [] && Yields(kids)[0] == Yield(t)[0]
    ensures forall x :: x in kids ==> Derivation(g, x)
  {
    hide Yields, Yield, Nullable;
    var ds := g[u].mData;
    var before := EmptyForest(g, ds[..k]);
    var after := Leaves(ds[k + 1..]);
    kids := before + [t] + after;
    assert ds == ds[..k] + [ds[k]] + ds[k + 1..];
    YieldsOfTwo(before, [t]);
    YieldsOfTwo(before + [t], after);
    YieldsOne(t);
  }

  lemma OneElement(g: Rules, u: nat, k: nat)
    requires WellFormed(g) && u < |g| && k < |g[u].mData| && !g[u].mType.Concatenate?
    ensures Expands(g[u], [g[u].mData[k]])
  {
    assert WellFormedRule(|g|, g[u]);
  }

  // An element that is itself the lookahead.
  lemma BeginsWithData(g: LaGrammar, u: nat, k: nat, la: LookAhead)
    requires WellFormed(g.rules) && LeftPos(g.rules, u, k) && Matches(g, la, g.rules[u].mData[k])
    ensures Begins(g, u, la)
  {
    var t := Leaf(g.rules[u].mData[k]);
    assert BeginsTree(g, t, la);
    BeginsFromElement(g, u, k, t, la);
  }

  lemma BeginsOnEdge(g: LaGrammar, u: nat, v: nat, la: LookAhead)
    requires WellFormed(g.rules) && LeftEdge(g.rules, u, v) && Begins(g, v, la)
    ensures Begins(g, u, la)
  {
    var k: nat :| LeftPos(g.rules, u, k) && g.rules[u].mData[k] == Subtable(v);
    var t :| Root(t) == Subtable(v) && BeginsTree(g, t, la);
    BeginsFromElement(g, u, k, t, la);
  }

  // Lookaheads travel against chains of left edges.
  lemma {:induction false} BeginsOnPath(g: LaGrammar, u: nat, v: nat, la: LookAhead)
    requires WellFormed(g.rules) && Reach(LeftEdges(g.rules), u, v) && Begins(g, v, la)
    ensures Begins(g, u, la)
  {
    hide LeftEdge, Begins, WellFormed;
    var h := LeftEdges(g.rules);
    var p :| IsPath(h, p) && p[0] == u && p[|p| - 1] == v;
    var i := |p| - 1;
    while i > 0
      invariant 0 <= i < |p| && Begins(g, p[i], la)
    {
      assert Step(h, p[i - 1], p[i]);
      BeginsOnEdge(g, p[i - 1], p[i], la);
      i := i - 1;
    }
  }

  // An identifier or a literal, left as it is.
  lemma BeginsItself(g: LaGrammar)
    ensures Begins(g, g.identifier, LaIdentifier) && Begins(g, g.literal, LaLiteral)
  {
    var t, t' := Leaf(Subtable(g.identifier)), Leaf(Subtable(g.literal));
    assert BeginsTree(g, t, LaIdentifier) && BeginsTree(g, t', LaLiteral);
  }
}
