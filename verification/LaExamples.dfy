/** Walks of the lookahead detector that go wrong: one never ends, one leaves a lookahead out. */
module LaExamples {
  import opened Options
  import opened Graphs
  import opened ContTrees
  import opened Grammar
  import opened LookAheads
  import opened LaStates
  import opened LaFlow
  import opened LaPatch
  import opened LaComplete
  import opened LaOnce
  import opened LaWalk
  import opened LaDetect

  // -------- A rule that is an element of itself: R: "a" or R

  const SELF := LaGrammar([RuleTable(Oneof, [Str("a"), Subtable(0)])], 1, 2)

  // The string is listed; then R, which is in process, has its list copied to itself. That never ends,
  // because the string is not found in the list.
  lemma SelfElements()
    ensures WellFormedLa(SELF)
    ensures OfOneof(SELF, Walk([0], [], [], [], map[], [], [TreeNode(0, None)]), 0, 0, 0, NA) == Stuck
  {
    var g, a := SELF, LaString("a");
    assert WellFormedLa(g);
    var w := Walk([0], [], [], [], map[], [], [TreeNode(0, None)]);
    var w1 := w.(las := map[0 := [a]]);
    Adding();
    assert AddRuleLa(map[], 0, a) == map[0 := [a]];
    assert OfElement(g, w, 0, 0, 0) == Came(w1, NA);
    assert OfRule(g, w1, 0, Some(0)) == Came(w1, NA);
    assert a in [a] && !Found([a], a);
    assert OfElement(g, w1, 0, 1, 0) == Stuck;
    assert OfOneof(g, w1, 0, 0, 1, NA) == Stuck;
  }

  lemma SelfWalk()
    ensures Allowed(SELF) && Shut(SELF) == SELF && WellFormedLa(SELF)
    ensures WalkOf(SELF, [0]) == None
  {
    hide OfOneof;
    SelfElements();
    var g, w := SELF, Walk([], [], [], [], map[], [], []);
    assert [] + [0] == [0] && [] + [TreeNode(0, None)] == [TreeNode(0, None)];
    assert LookingInto(g, w.(inProcess := [0]), 0, None) == Stuck;
    assert OfRule(g, w, 0, None) == Stuck;
    assert [0][1..] == [];
    assert OfFront(g, w.(toDo := [0])) == None;
  }

  // What adding to short lists comes to.
  lemma Adding()
    ensures forall la :: AddLookAhead([], la) == [la]
    ensures AddLookAhead([B], B) == [B] && AddLookAhead([B], X) == [B, X]
  {
    assert forall la: LookAhead :: [] + [la] == [la];
    assert B in [B] && Found([B], B) && !Found([B], X);
  }

  method SelfCopyHangs() returns (d: LADetector)
    ensures fresh(d) && d.g == SELF && d.mHung
  {
    SelfWalk();
    d := new LADetector(SELF, [0]);
    d.Detect();
  }

  // -------- A missed lookahead. A: B or C or 'x'. B: A or 'b'. C: B

  const MISSED := LaGrammar([RuleTable(Oneof, [Subtable(1), Subtable(2), Char('x')]), RuleTable(Oneof, [Subtable(0), Char('b')]),
                             RuleTable(Oneof, [Subtable(1)])], 3, 4)
  const TREE := [TreeNode(0, None), TreeNode(1, Some(0)), TreeNode(2, Some(0))]
  const B := LaChar('b')
  const X := LaChar('x')

  function At(inProcess: seq<nat>, done: seq<nat>, las: RuleLookAheads, pendings: seq<Pending>, nodes: nat): Walk
    requires nodes <= 3
  {
    Walk(inProcess, done, [], [], las, pendings, TREE[..nodes])
  }

  // B looks into A, which is in process, and waits for it; B lists 'b'.
  lemma ElementsOfB()
    ensures WellFormedLa(MISSED)
    ensures OfOneof(MISSED, At([0, 1], [], map[], [], 2), 1, 1, 0, NA) == Came(At([0, 1], [], map[1 := [B]], [Pending(0, [1])], 2), NA)
  {
    var g, p := MISSED, [Pending(0, [1])];
    assert WellFormedLa(g);
    var w := At([0, 1], [], map[], [], 2);
    var w1 := w.(pendings := p);
    assert [0, 1][..1] == [0];
    assert PendingAdded([], 0, 1) == p;
    assert Told(p, [0], 0) == p;
    assert Told([], [0, 1], 0) == p;
    assert OfRule(g, w, 0, Some(1)) == Came(w1, NA);
    assert OfElement(g, w, 1, 0, 1) == Came(w1, NA);
    var w2 := w1.(las := map[1 := [B]]);
    Adding();
    assert OfElement(g, w1, 1, 1, 1) == Came(w2, NA);
    assert OfOneof(g, w2, 1, 1, 2, NA) == Came(w2, NA);
    assert OfOneof(g, w1, 1, 1, 1, NA) == Came(w2, NA);
    assert OfOneof(g, w, 1, 1, 0, NA) == Came(w2, NA);
  }

  lemma WalkOfB()
    ensures WellFormedLa(MISSED)
    ensures OfElement(MISSED, At([0], [], map[], [], 1), 0, 0, 0)
         == Came(At([0], [1], map[0 := [B], 1 := [B]], [Pending(0, [1])], 2), NA)
  {
    hide OfOneof;
    var g, p := MISSED, [Pending(0, [1])];
    ElementsOfB();
    var w, w2 := At([0, 1], [], map[], [], 2), At([0, 1], [], map[1 := [B]], p, 2);
    var v := At([0], [], map[], [], 1);
    assert v.tree + [TreeNode(1, Some(0))] == w.tree;
    assert [0] + [1] == [0, 1] && [] + [1] == [1] && [0, 1][..1] == [0];
    assert LookingInto(g, v.(inProcess := [0, 1]), 1, Some(0)) == Came(w2, NA);
    var v1 := At([0], [1], map[1 := [B]], p, 2);
    assert Left(w2, 1, NA) == v1;
    assert OfRule(g, v, 1, Some(0)) == Came(v1, NA);
    CopyOne(v1.las, 0, 1);
  }

  lemma CopyOne(las: RuleLookAheads, to: nat, from: nat)
    requires to != from && from in las && las[from] == [B]
    ensures Copy(las, to, from) == Some(las[to := AddLookAhead(LasOf(las, to), B)])
    ensures AddLookAhead([], B) == [B] && AddLookAhead([B], B) == [B]
  {
    Adding();
    assert [B][1..] == [];
    assert B in [B] && Found([B], B);
    assert ListAdded(AddRuleLa(las, to, B), to, []) == AddRuleLa(las, to, B);
  }

  // C copies from B, which is done, and does not wait.
  lemma WalkOfC()
    ensures WellFormedLa(MISSED)
    ensures OfElement(MISSED, At([0], [1], map[0 := [B], 1 := [B]], [Pending(0, [1])], 2), 0, 1, 0)
         == Came(At([0], [1, 2], map[0 := [B], 1 := [B], 2 := [B]], [Pending(0, [1])], 3), NA)
  {
    var g, p := MISSED, [Pending(0, [1])];
    assert WellFormedLa(g);
    var v := At([0], [1], map[0 := [B], 1 := [B]], p, 2);
    var w := At([0, 2], [1], map[0 := [B], 1 := [B]], p, 3);
    var w1 := w.(las := map[0 := [B], 1 := [B], 2 := [B]]);
    assert OfRule(g, w, 1, Some(2)) == Came(w, NA);
    CopyOne(w.las, 2, 1);
    assert w.las[2 := [B]] == w1.las;
    assert OfElement(g, w, 2, 0, 2) == Came(w1, NA);
    assert OfOneof(g, w1, 2, 2, 1, NA) == Came(w1, NA);
    assert OfOneof(g, w, 2, 2, 0, NA) == Came(w1, NA);
    assert v.tree + [TreeNode(2, Some(0))] == w.tree;
    assert [0] + [2] == [0, 2] && [1] + [2] == [1, 2] && [0, 2][..1] == [0];
    assert LookingInto(g, v.(inProcess := [0, 2]), 2, Some(0)) == Came(w1, NA);
    var v1 := At([0], [1, 2], w1.las, p, 3);
    assert Left(w1, 2, NA) == v1;
    assert OfRule(g, v, 2, Some(0)) == Came(v1, NA);
    CopyOne(v1.las, 0, 2);
    assert v1.las[0 := [B]] == v1.las;
  }

  // A lists 'x' at last.
  lemma WalkOfA()
    ensures WellFormedLa(MISSED)
    ensures OfRule(MISSED, At([], [], map[], [], 0), 0, None)
         == Came(At([], [1, 2, 0], map[0 := [B, X], 1 := [B], 2 := [B]], [Pending(0, [1])], 3), NA)
  {
    hide OfElement;
    var g, p := MISSED, [Pending(0, [1])];
    assert WellFormedLa(g);
    WalkOfB();
    WalkOfC();
    var w := At([0], [], map[], [], 1);
    var w1 := At([0], [1], map[0 := [B], 1 := [B]], p, 2);
    var w2 := At([0], [1, 2], map[0 := [B], 1 := [B], 2 := [B]], p, 3);
    var w3 := w2.(las := map[0 := [B, X], 1 := [B], 2 := [B]]);
    LastOfA(w2, w3);
    assert OfOneof(g, w3, 0, 0, 3, NA) == Came(w3, NA);
    assert OfOneof(g, w2, 0, 0, 2, NA) == Came(w3, NA);
    assert OfOneof(g, w1, 0, 0, 1, NA) == Came(w3, NA);
    assert OfOneof(g, w, 0, 0, 0, NA) == Came(w3, NA);
    var v := At([], [], map[], [], 0);
    assert v.tree + [TreeNode(0, None)] == w.tree && [] + [0] == [0];
    assert LookingInto(g, v.(inProcess := [0]), 0, None) == Came(w3, NA);
    assert [1, 2] + [0] == [1, 2, 0];
  }

  lemma LastOfA(w2: Walk, w3: Walk)
    requires Fits(MISSED, w2) && w2.las == map[0 := [B], 1 := [B], 2 := [B]]
    requires w3 == w2.(las := map[0 := [B, X], 1 := [B], 2 := [B]])
    ensures OfElement(MISSED, w2, 0, 2, 0) == Came(w3, NA)
  {
    assert MISSED.rules[0].mData[2] == Char('x');
    Adding();
    assert AddRuleLa(w2.las, 0, X) == w3.las;
  }

  lemma CopyToB()
    ensures var las := map[0 := [B, X], 1 := [B], 2 := [B]]; Copy(las, 1, 0) == Some(las[1 := [B, X]])
  {
    var las := map[0 := [B, X], 1 := [B], 2 := [B]];
    var las1 := las[1 := [B, X]];
    Adding();
    assert [B, X][1..] == [X] && [X][1..] == [];
    assert AddRuleLa(las, 1, B) == las && AddRuleLa(las, 1, X) == las1;
    assert ListAdded(las1, 1, []) == las1;
    assert ListAdded(las, 1, [X]) == las1;
  }

  // The patch hands 'x' to B, not to C.
  lemma PatchOfA()
    ensures var las := map[0 := [B, X], 1 := [B], 2 := [B]];
            PatchTree(las, [Pending(0, [1])], TREE, [0], 3) == Some(las[1 := [B, X]])
  {
    hide Copy, ChildrenOf;
    CopyToB();
    Kids();
    var las, p := map[0 := [B, X], 1 := [B], 2 := [B]], [Pending(0, [1])];
    var las1 := las[1 := [B, X]];
    assert [1][1..] == [] && p[1..] == [];
    assert PatchEach(las1, [], 0) == Some(las1);
    assert Patch(las, p, 0) == Some(las1);
    assert Patch(las1, p, 1) == Some(las1) && Patch(las1, p, 2) == Some(las1);
    assert [2][1..] == [] && [1, 2][1..] == [2] && [0][1..] == [] && [] + [1, 2] == [1, 2] && [2] + [] == [2];
    assert PatchTree(las1, p, TREE, [], 0) == Some(las1);
    assert PatchTree(las1, p, TREE, [2], 1) == Some(las1);
    assert PatchTree(las1, p, TREE, [1, 2], 2) == Some(las1);
  }

  lemma Kids()
    ensures ChildrenOf(TREE, 0, 3) == [1, 2] && ChildrenOf(TREE, 1, 3) == [] && ChildrenOf(TREE, 2, 3) == []
  {
    forall x: nat | x < 3
      ensures ChildrenOf(TREE, x, 3) == if x == 0 then [1, 2] else []
    {
      assert ChildrenOf(TREE, x, 0) == [];
      assert ChildrenOf(TREE, x, 1) == [];
      assert ChildrenOf(TREE, x, 2) == if x == 0 then [1] else [];
    }
  }

  lemma MissedWalk()
    ensures Allowed(MISSED) && Shut(MISSED) == MISSED && WellFormedLa(MISSED)
    ensures var las := map[0 := [B, X], 1 := [B, X], 2 := [B]];
            WalkOf(MISSED, [0]) == Some(Walk([], [1, 2, 0], [], [], las, [Pending(0, [1])], TREE))
  {
    hide OfRule, PatchTree;
    var g := MISSED;
    WalkOfA();
    PatchOfA();
    var las, las1 := map[0 := [B, X], 1 := [B], 2 := [B]], map[0 := [B, X], 1 := [B, X], 2 := [B]];
    assert las[1 := [B, X]] == las1 && TREE[..3] == TREE && TREE[..0] == [];
    var w := Walk([], [], [0], [], map[], [], []);
    var w1 := Walk([], [1, 2, 0], [], [], las1, [Pending(0, [1])], TREE);
    assert At([], [], map[], [], 0) == Walk([], [], [], [], map[], [], []);
    assert At([], [1, 2, 0], las, [Pending(0, [1])], 3) == w1.(las := las);
    assert [0][1..] == [] && FirstNode(TREE) == [0];
    assert OfFront(g, w) == Some(w1);
    assert OfAll(g, w1) == Some(w1);
  }

  // C can begin with 'x', as B can, which C looks into.
  lemma AllBeginWithX()
    ensures Begins(MISSED, 2, X)
  {
    hide Begins;
    var r := MISSED.rules;
    assert WellFormed(r);
    assert LeftPos(r, 0, 2);
    BeginsWithData(MISSED, 0, 2, X);
    assert LeftPos(r, 1, 0) && r[1].mData[0] == Subtable(0);
    BeginsOnEdge(MISSED, 1, 0, X);
    assert LeftPos(r, 2, 0) && r[2].mData[0] == Subtable(1);
    BeginsOnEdge(MISSED, 2, 1, X);
  }

  method LookAheadIsMissed() returns (d: LADetector)
    ensures fresh(d) && d.g == MISSED && !d.mHung && 2 in d.mDone
    ensures LasOf(d.mRuleLookAheads, 0) == LasOf(d.mRuleLookAheads, 1) == [LaChar('b'), LaChar('x')]
    ensures LasOf(d.mRuleLookAheads, 2) == [LaChar('b')] && Begins(MISSED, 2, LaChar('x'))
  {
    hide OfAll, Begins;
    MissedWalk();
    AllBeginWithX();
    d := new LADetector(MISSED, [0]);
    d.Detect();
    assert d.Now().done == [1, 2, 0];
  }

  // -------- A left recursion in which nothing is missed. E: P or T. P: E '+' T. T: 'x'

  const EXPR := LaGrammar([RuleTable(Oneof, [Subtable(1), Subtable(2)]), RuleTable(Concatenate, [Subtable(0), Char('+'), Subtable(2)]),
                           RuleTable(Data, [Char('x')])], 3, 4)

  // The grammar is left-recursive, and the detector finds all lookaheads of its rules.
  lemma ExprIsTame()
    ensures WellFormedLa(EXPR) && WellFormed(EXPR.rules) && LeftRecursive(EXPR) && Tame(EXPR, [0]) && NoEmptyCycle(EXPR)
  {
    hide Reach, LeftEdge, Nullable;
    ExprEdges();
    var h := LeftEdges(EXPR.rules);
    assert Step(h, 0, 1) && Step(h, 1, 0);
    ReachStep(h, 1, 0);
    assert OnCycle(h, 0);
    forall v: nat, w: nat | v != w && Mutual(h, v, w)
      ensures Private(EXPR, [0], v) || Private(EXPR, [0], w)
    {
      ReachSplit(h, v, w);
      ReachSplit(h, w, v);
      assert v == 1 || w == 1;
    }
    forall u: nat | OnCycle(h, u)
      ensures !Nullable(EXPR.rules, u)
    {
      ExprNotNullable(u);
    }
  }

  lemma ExprEdges()
    ensures WellFormedLa(EXPR) && WellFormed(EXPR.rules) && Private(EXPR, [0], 1)
    ensures LeftEdge(EXPR.rules, 0, 1) && LeftEdge(EXPR.rules, 1, 0) && forall u: nat, v: nat :: LeftEdge(EXPR.rules, u, v) ==> u < 2
  {
    hide Nullable;
    var r := EXPR.rules;
    assert LeftPos(r, 0, 0) && r[0].mData[0] == Subtable(1);
    assert LeftPos(r, 1, 0) && r[1].mData[0] == Subtable(0);
  }

  lemma ExprNotNullable(u: nat)
    ensures !Nullable(EXPR.rules, u)
  {
    if Nullable(EXPR.rules, u) {
      var t :| Derivation(EXPR.rules, t) && Root(t) == Subtable(u) && Yield(t) == [];
      ExprYields(t);
    }
  }

  lemma {:induction false} ExprYields(t: Tree)
    requires Derivation(EXPR.rules, t)
    ensures Yield(t) != []
    decreases t
  {
    if t.Node? {
      EmptyYields(t.kids);
      var ds := Roots(t.kids);
      assert Expands(EXPR.rules[t.rule], ds);
      var k := t.kids[0];
      assert k in t.kids;
      ExprYields(k);
    }
  }
}
