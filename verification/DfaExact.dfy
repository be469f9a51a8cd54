/** The solved vectors are exact: a bit is on just where a path brings the definition, past no other
    definition of its name. */
module DfaExact {
  import opened Graphs
  import opened CfgBlocks
  import opened Cfa
  import opened Dfa
  import opened DfaDefs

  // Block `c` makes the definition, by a statement or as the entry of a function that has the parameter.
  ghost predicate MadeIn(bbs: Blocks, nodes: Statements, funcs: seq<CfgFunc>, c: nat, d: DefPosition) {
    (c < |bbs| && d in Defs(nodes, bbs[c].stmts)) || exists f :: f in funcs && f.entry == c && d in FuncDefs(f)
  }

  predicate Redefines(bbs: Blocks, nodes: Statements, b: nat, name: nat) {
    b < |bbs| && exists e :: e in Defs(nodes, bbs[b].stmts) && e.0 == name
  }

  // A path from the block that makes the definition; no block between its ends redefines the name.
  ghost predicate Brings(bbs: Blocks, nodes: Statements, funcs: seq<CfgFunc>, ids: seq<nat>, d: DefPosition, p: seq<nat>) {
    && IsPath(FlowGraph(bbs), p) && |p| > 1 && p[0] in ids && MadeIn(bbs, nodes, funcs, p[0], d)
    && forall k :: 0 < k < |p| - 1 ==> !Redefines(bbs, nodes, p[k], d.0)
  }

  ghost predicate ComesTo(bbs: Blocks, nodes: Statements, funcs: seq<CfgFunc>, ids: seq<nat>, d: DefPosition, b: nat) {
    exists p :: Brings(bbs, nodes, funcs, ids, d, p) && p[|p| - 1] == b
  }

  lemma HomeIs(bbs: Blocks, nodes: Statements, funcs: seq<CfgFunc>, ids: seq<nat>, pos: seq<DefPosition>,
               node2stmt: map<nat, nat>, stmt2bb: map<nat, nat>, i: nat, c: nat)
    requires Collected(bbs, nodes, funcs, ids, pos) && HomesRight(bbs, nodes, funcs, ids, node2stmt, stmt2bb)
    requires i < |pos| && c in ids
    ensures Home(node2stmt, stmt2bb, pos[i]) == c <==> MadeIn(bbs, nodes, funcs, c, pos[i])
  {
    hide Home, Defs, FuncDefs;
    assert FromSource(bbs, nodes, funcs, ids, pos[i]);
  }

  // The blocks of a path that preserve the definition are those that do not redefine its name.
  lemma PrsvStep(bbs: Blocks, nodes: Statements, ids: seq<nat>, pos: seq<DefPosition>, node2stmt: map<nat, nat>,
                 stmt2bb: map<nat, nat>, gen: BVMap, prsv: BVMap, i: nat, u: nat, v: nat)
    requires VectorsRight(bbs, nodes, ids, pos, node2stmt, stmt2bb, gen, prsv) && i < |pos| && u in ids
    ensures Step(PrsvGraph(bbs, prsv, i), u, v) <==> Step(FlowGraph(bbs), u, v) && !Redefines(bbs, nodes, u, pos[i].0)
  {
    hide Home, Defs;
    BlockEffect(bbs, nodes, ids, pos, node2stmt, stmt2bb, gen, prsv, i, u);
  }

  lemma ReachesIs(bbs: Blocks, nodes: Statements, funcs: seq<CfgFunc>, ids: seq<nat>, pos: seq<DefPosition>,
                  node2stmt: map<nat, nat>, stmt2bb: map<nat, nat>, gen: BVMap, prsv: BVMap, i: nat, b: nat)
    requires Linked(bbs, Elems(ids)) && VectorsRight(bbs, nodes, ids, pos, node2stmt, stmt2bb, gen, prsv)
    requires Collected(bbs, nodes, funcs, ids, pos) && HomesRight(bbs, nodes, funcs, ids, node2stmt, stmt2bb)
    requires i < |pos|
    ensures Reaches(bbs, Elems(ids), gen, prsv, i, b) <==> ComesTo(bbs, nodes, funcs, ids, pos[i], b)
  {
    hide VectorsRight, Collected, HomesRight, Linked, MadeIn, Redefines, Home;
    if Reaches(bbs, Elems(ids), gen, prsv, i, b) {
      var c: nat, d: nat :| GenEdge(bbs, Elems(ids), gen, i, c, d) && Reach(PrsvGraph(bbs, prsv, i), d, b);
      var q :| IsPath(PrsvGraph(bbs, prsv, i), q) && q[0] == d && q[|q| - 1] == b;
      ReachedIsBrought(bbs, nodes, funcs, ids, pos, node2stmt, stmt2bb, gen, prsv, i, c, q);
      assert ([c] + q)[|q|] == b;
    }
    if ComesTo(bbs, nodes, funcs, ids, pos[i], b) {
      var p :| Brings(bbs, nodes, funcs, ids, pos[i], p) && p[|p| - 1] == b;
      BroughtIsReached(bbs, nodes, funcs, ids, pos, node2stmt, stmt2bb, gen, prsv, i, p);
    }
  }

  lemma ReachedIsBrought(bbs: Blocks, nodes: Statements, funcs: seq<CfgFunc>, ids: seq<nat>, pos: seq<DefPosition>,
                         node2stmt: map<nat, nat>, stmt2bb: map<nat, nat>, gen: BVMap, prsv: BVMap, i: nat, c: nat, q: seq<nat>)
    requires Linked(bbs, Elems(ids)) && VectorsRight(bbs, nodes, ids, pos, node2stmt, stmt2bb, gen, prsv)
    requires Collected(bbs, nodes, funcs, ids, pos) && HomesRight(bbs, nodes, funcs, ids, node2stmt, stmt2bb)
    requires i < |pos| && IsPath(PrsvGraph(bbs, prsv, i), q) && GenEdge(bbs, Elems(ids), gen, i, c, q[0])
    ensures Brings(bbs, nodes, funcs, ids, pos[i], [c] + q)
  {
    hide VectorsRight, Collected, HomesRight, Linked, MadeIn, Redefines, Home;
    var p := [c] + q;
    BlockEffect(bbs, nodes, ids, pos, node2stmt, stmt2bb, gen, prsv, i, c);
    HomeIs(bbs, nodes, funcs, ids, pos, node2stmt, stmt2bb, i, c);
    forall k | 0 <= k < |p| - 1
      ensures Step(FlowGraph(bbs), p[k], p[k + 1])
    {
      if k > 0 { assert Step(PrsvGraph(bbs, prsv, i), q[k - 1], q[k]); }
    }
    PathPrefixInIds(bbs, ids, p);
    forall k | 0 < k < |p| - 1
      ensures !Redefines(bbs, nodes, p[k], pos[i].0)
    {
      assert p[k] in p && Step(PrsvGraph(bbs, prsv, i), q[k - 1], q[k]);
      PrsvStep(bbs, nodes, ids, pos, node2stmt, stmt2bb, gen, prsv, i, p[k], p[k + 1]);
    }
  }

  lemma BroughtIsReached(bbs: Blocks, nodes: Statements, funcs: seq<CfgFunc>, ids: seq<nat>, pos: seq<DefPosition>,
                         node2stmt: map<nat, nat>, stmt2bb: map<nat, nat>, gen: BVMap, prsv: BVMap, i: nat, p: seq<nat>)
    requires Linked(bbs, Elems(ids)) && VectorsRight(bbs, nodes, ids, pos, node2stmt, stmt2bb, gen, prsv)
    requires Collected(bbs, nodes, funcs, ids, pos) && HomesRight(bbs, nodes, funcs, ids, node2stmt, stmt2bb)
    requires i < |pos| && Brings(bbs, nodes, funcs, ids, pos[i], p)
    ensures Reaches(bbs, Elems(ids), gen, prsv, i, p[|p| - 1])
  {
    hide VectorsRight, Collected, HomesRight, Linked, MadeIn, Redefines, Home;
    PathPrefixInIds(bbs, ids, p);
    BlockEffect(bbs, nodes, ids, pos, node2stmt, stmt2bb, gen, prsv, i, p[0]);
    HomeIs(bbs, nodes, funcs, ids, pos, node2stmt, stmt2bb, i, p[0]);
    assert Step(FlowGraph(bbs), p[0], p[1]);
    assert GenEdge(bbs, Elems(ids), gen, i, p[0], p[1]);
    var q := p[1..];
    forall k | 0 <= k < |q| - 1
      ensures Step(PrsvGraph(bbs, prsv, i), q[k], q[k + 1])
    {
      assert p[k + 1] in p && Step(FlowGraph(bbs), p[k + 1], p[k + 2]);
      PrsvStep(bbs, nodes, ids, pos, node2stmt, stmt2bb, gen, prsv, i, p[k + 1], p[k + 2]);
    }
    assert IsPath(PrsvGraph(bbs, prsv, i), q) && q[0] == p[1] && q[|q| - 1] == p[|p| - 1];
  }
}
