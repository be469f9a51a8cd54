/** A program the data flow analysis may be given: class A { m(x) { let y = 1; } } */
module DfaExamples {
  import opened Options
  import opened Graphs
  import opened CfgBlocks
  import opened Cfa
  import opened Dfa
  import opened DfaDefs
  import opened DfaHomes
  import opened AstDfa

  // Blocks 0 to 2 are the module's, 3 to 5 those of the method. Statement 10 is the class, which
  // mentions all identifiers in it: the parameter, node 21, and the variable, node 22.
  const CLASS_A := Handler(
    [CfgBB(Uncond, [], [2], []), CfgBB(Join, [], [], [2]), CfgBB(Uncond, [10], [1], [0]),
     CfgBB(Uncond, [], [5], []), CfgBB(Join, [], [], [5]), CfgBB(Uncond, [11], [4], [3])],
    map[10 := Statement(OtherNode, [21, 22]), 11 := Statement(Decl(2, true, 22), [22])],
    [CfgFunc(false, 1, [], 0), CfgFunc(true, 20, [Param(true, 21, 1)], 3)],
    [0, 2, 1, 3, 5, 4])

  // The analysis takes it, although the class mentions what belongs to the method.
  lemma ClassWithMethod()
    ensures ValidHandler(CLASS_A)
    ensures Mentions(CLASS_A.nodes, 10, 21) && IsParam(CLASS_A.funcs[1], 21)
    ensures Mentions(CLASS_A.nodes, 10, 22) && (2, 22) in StmtDefs(CLASS_A.nodes, 11)
  {
    hide OneHome, FromEntry, FlowGraph, Linked;
    var h := CLASS_A;
    ClassBlocks();
    ClassHomes();
    assert h.funcs[1].params[0] == Param(true, 21, 1);
  }

  lemma ClassBlocks()
    ensures var h := CLASS_A; forall b: nat :: b in h.ids <==> FromEntry(h.bbs, EntryOf(h.funcs), b)
    ensures Linked(CLASS_A.bbs, Elems(CLASS_A.ids))
  {
    hide FlowGraph, FromEntry, Linked;
    ClassLinked();
    ClassReached();
    forall b: nat | FromEntry(CLASS_A.bbs, EntryOf(CLASS_A.funcs), b)
      ensures b in CLASS_A.ids
    {
      ClassReaches(b);
    }
  }

  lemma ClassReaches(b: nat)
    requires FromEntry(CLASS_A.bbs, EntryOf(CLASS_A.funcs), b)
    ensures b < 6 && b in CLASS_A.ids
  {
    hide FlowGraph, Reach;
    var x :| x in EntryOf(CLASS_A.funcs) && Reach(FlowGraph(CLASS_A.bbs), x, b);
    StaysBelow(CLASS_A.bbs, x, b);
  }

  lemma ClassReached()
    ensures forall b: nat :: b in CLASS_A.ids ==> FromEntry(CLASS_A.bbs, EntryOf(CLASS_A.funcs), b)
  {
    hide FlowGraph, Reach;
    var g, e := FlowGraph(CLASS_A.bbs), EntryOf(CLASS_A.funcs);
    assert e[0] == 0 && e[1] == 3;
    ThreeInRow(g, 0, 2, 1);
    ThreeInRow(g, 3, 5, 4);
  }

  lemma StaysBelow(bbs: Blocks, x: nat, b: nat)
    requires forall c, d :: 0 <= c < |bbs| && d in bbs[c].succs ==> d < |bbs|
    requires x < |bbs| && Reach(FlowGraph(bbs), x, b)
    ensures b < |bbs|
  {
    hide Reach;
    ClosedKeepsReach(FlowGraph(bbs), Below(|bbs|), x, b);
  }

  lemma ThreeInRow(g: Graph, a: nat, b: nat, c: nat)
    requires Step(g, a, b) && Step(g, b, c)
    ensures Reach(g, a, a) && Reach(g, a, b) && Reach(g, a, c)
  {
    hide Reach;
    ReachRefl(g, a);
    ReachStep(g, a, b);
    ReachStep(g, b, c);
    ReachTrans(g, a, b, c);
  }

  lemma ClassLinked()
    ensures Linked(CLASS_A.bbs, Elems(CLASS_A.ids))
  {
    assert forall b: nat :: b in Elems(CLASS_A.ids) <==> b < 6;
  }

  lemma ClassHomes()
    ensures var h := CLASS_A; OneHome(h.bbs, h.nodes, h.funcs, h.ids)
  {
    var h := CLASS_A;
    ClassSites();
    assert LastMention(h.nodes, [Site(2, 10), Site(5, 11)], 22) == Some(11);
    var sites := Sites(h.bbs, h.ids);
    forall x, d | x in sites && d in StmtDefs(h.nodes, x.stmt)
      ensures x == Site(5, 11) && d == (2, 22)
    {
    }
  }

  lemma ClassSites()
    ensures Sites(CLASS_A.bbs, CLASS_A.ids) == [Site(2, 10), Site(5, 11)]
  {
    var h := CLASS_A;
    assert SitesOf(0, []) == [] && SitesOf(1, []) == [] && SitesOf(3, []) == [] && SitesOf(4, []) == [];
    assert SitesOf(2, [10]) == [Site(2, 10)] && SitesOf(5, [11]) == [Site(5, 11)];
    assert Sites(h.bbs, []) == [];
    assert [0][..0] == [] && Sites(h.bbs, [0]) == [];
    assert [0, 2][..1] == [0] && Sites(h.bbs, [0, 2]) == [Site(2, 10)];
    assert [0, 2, 1][..2] == [0, 2] && Sites(h.bbs, [0, 2, 1]) == [Site(2, 10)];
    assert [0, 2, 1, 3][..3] == [0, 2, 1] && Sites(h.bbs, [0, 2, 1, 3]) == [Site(2, 10)];
    assert [0, 2, 1, 3, 5][..4] == [0, 2, 1, 3] && Sites(h.bbs, [0, 2, 1, 3, 5]) == [Site(2, 10), Site(5, 11)];
    assert h.ids[..5] == [0, 2, 1, 3, 5];
  }
}
