/** Definitions of variables: where they are, the bit vectors built from them, and the theorem that
    the solved vectors are sound for runs of the control flow graph. */
module DfaDefs {
  import opened Options
  import opened Graphs
  import opened CfgBlocks
  import opened Cfa
  import opened Dfa

  datatype OprId = Assign | AddAssign | SubAssign | MulAssign | DivAssign | ModAssign | ShlAssign | ShrAssign
                 | BandAssign | BorAssign | BxorAssign | ZextAssign | Inc | Dec | PreInc | PreDec | OtherOpr

  // An operand: its node id, the name it carries (0 for none) and, for a field access, what is left of it.
  datatype Operand = Operand(nid: nat, stridx: nat, upper: Option<Operand>)

  datatype Node = Decl(stridx: nat, hasInit: bool, varId: nat) | BinOperator(bop: OprId, opndA: Operand)
                | UnaOperator(uop: OprId, opnd: Operand) | Function | OtherNode

  // A statement, with the node ids of the identifiers found inside it.
  datatype Statement = Statement(node: Node, idents: seq<nat>)

  type Statements = map<nat, Statement>

  datatype Param = Param(isIdent: bool, nid: nat, stridx: nat)

  // A function of the module: the node it came from, its parameters and its entry block.
  datatype CfgFunc = CfgFunc(isFunction: bool, nid: nat, params: seq<Param>, entry: nat)

  // The name defined and the node id of the place where it is.
  type DefPosition = (nat, nat)

  // A field assignment defines the variable left of the field.
  function Defined(lhs: Operand): DefPosition {
    if lhs.upper.Some? then (lhs.upper.value.stridx, lhs.upper.value.nid) else (lhs.stridx, lhs.nid)
  }

  // What a statement defines; name 0 when it defines nothing.
  function DefOf(node: Node): DefPosition {
    match node
    case Decl(stridx, hasInit, varId) => if hasInit then (stridx, varId) else (0, 0)
    case BinOperator(op, a) => if op in {Inc, Dec, PreInc, PreDec, OtherOpr} then (0, 0) else Defined(a)
    case UnaOperator(op, a) => if op in {Inc, Dec, PreInc, PreDec} then (a.stridx, a.nid) else (0, 0)
    case _ => (0, 0)
  }

  function StmtDefs(nodes: Statements, s: nat): seq<DefPosition> {
    if s in nodes && DefOf(nodes[s].node).0 != 0 then [DefOf(nodes[s].node)] else []
  }

  // The definitions of a list of statements, in order.
  function Defs(nodes: Statements, stmts: seq<nat>): seq<DefPosition> {
    if stmts == [] then [] else Defs(nodes, stmts[..|stmts| - 1]) + StmtDefs(nodes, stmts[|stmts| - 1])
  }

  function ParamDefs(params: seq<Param>): seq<DefPosition> {
    if params == [] then []
    else
      var p := params[|params| - 1];
      ParamDefs(params[..|params| - 1]) + if p.isIdent then [(p.stridx, p.nid)] else []
  }

  function FuncDefs(f: CfgFunc): seq<DefPosition> {
    if f.isFunction then ParamDefs(f.params) else []
  }

  // -------- Homes: the block a definition is taken to be in

  function Look(m: map<nat, nat>, x: nat): nat {
    if x in m then m[x] else 0
  }

  function Home(node2stmt: map<nat, nat>, stmt2bb: map<nat, nat>, d: DefPosition): nat {
    Look(stmt2bb, Look(node2stmt, d.1))
  }

  function EntryOf(funcs: seq<CfgFunc>): (r: seq<nat>)
    ensures |r| == |funcs| && forall i :: 0 <= i < |r| ==> r[i] == funcs[i].entry
  {
    seq(|funcs|, i requires 0 <= i < |funcs| => funcs[i].entry)
  }

  // The maps tell the right block for every definition.
  ghost predicate HomesRight(bbs: Blocks, nodes: Statements, funcs: seq<CfgFunc>, ids: seq<nat>,
                             node2stmt: map<nat, nat>, stmt2bb: map<nat, nat>) {
    && (forall f, d :: f in funcs && d in FuncDefs(f) ==> Home(node2stmt, stmt2bb, d) == f.entry)
    && forall b, d :: b in ids && b < |bbs| && d in Defs(nodes, bbs[b].stmts) ==> Home(node2stmt, stmt2bb, d) == b
  }

  // -------- The vectors

  // The definitions that sit in block `b`.
  function GenOf(pos: seq<DefPosition>, node2stmt: map<nat, nat>, stmt2bb: map<nat, nat>, b: nat): BitVector {
    set i: nat | i < |pos| && Home(node2stmt, stmt2bb, pos[i]) == b
  }

  // The definitions of names that `defs` do not define.
  function PrsvOf(pos: seq<DefPosition>, defs: seq<DefPosition>): BitVector {
    set i: nat | i < |pos| && forall d :: d in defs ==> d.0 != pos[i].0
  }

  // Every definition of a parameter or of a statement has a position, and no position has any other source.
  ghost predicate Collected(bbs: Blocks, nodes: Statements, funcs: seq<CfgFunc>, ids: seq<nat>, pos: seq<DefPosition>) {
    && (forall f, d :: f in funcs && d in FuncDefs(f) ==> d in pos)
    && (forall b, d :: b in ids && b < |bbs| && d in Defs(nodes, bbs[b].stmts) ==> d in pos)
    && forall d :: d in pos ==> FromSource(bbs, nodes, funcs, ids, d)
  }

  ghost predicate FromSource(bbs: Blocks, nodes: Statements, funcs: seq<CfgFunc>, ids: seq<nat>, d: DefPosition) {
    || (exists f :: f in funcs && d in FuncDefs(f))
    || exists b :: b in ids && b < |bbs| && d in Defs(nodes, bbs[b].stmts)
  }

  ghost predicate VectorsRight(bbs: Blocks, nodes: Statements, ids: seq<nat>, pos: seq<DefPosition>,
                               node2stmt: map<nat, nat>, stmt2bb: map<nat, nat>, gen: BVMap, prsv: BVMap) {
    forall b :: b in ids ==>
      && b < |bbs| && b in gen && b in prsv
      && gen[b] == GenOf(pos, node2stmt, stmt2bb, b)
      && prsv[b] == PrsvOf(pos, Defs(nodes, bbs[b].stmts))
  }

  // -------- Runs

  // The definitions executed by the blocks of a path, in order.
  function PathDefs(bbs: Blocks, nodes: Statements, p: seq<nat>): seq<DefPosition> {
    if p == [] then []
    else
      var b := p[|p| - 1];
      PathDefs(bbs, nodes, p[..|p| - 1]) + if b < |bbs| then Defs(nodes, bbs[b].stmts) else []
  }

  // A call of `f` that has run through the blocks `p[..|p| - 1]` and stands before block `p[|p| - 1]`.
  ghost predicate IsRun(bbs: Blocks, f: CfgFunc, p: seq<nat>) {
    IsPath(FlowGraph(bbs), p) && p[0] == f.entry && |p| > 1
  }

  function RunDefs(bbs: Blocks, nodes: Statements, f: CfgFunc, p: seq<nat>): seq<DefPosition>
    requires p != []
  {
    FuncDefs(f) + PathDefs(bbs, nodes, p[..|p| - 1])
  }

  // `d` is the most recent definition of its name.
  ghost predicate IsLastDef(defs: seq<DefPosition>, d: DefPosition) {
    exists k :: 0 <= k < |defs| && defs[k] == d && forall j :: k < j < |defs| ==> defs[j].0 != d.0
  }

  lemma LastDefSplit(a: seq<DefPosition>, b: seq<DefPosition>, d: DefPosition)
    requires IsLastDef(a + b, d)
    ensures d in b || (d in a && IsLastDef(a, d) && forall x :: x in b ==> x.0 != d.0)
  {
    var k :| 0 <= k < |a + b| && (a + b)[k] == d && forall j :: k < j < |a + b| ==> (a + b)[j].0 != d.0;
    if k < |a| {
      assert a[k] == d;
      forall j | k < j < |a|
        ensures a[j].0 != d.0
      {
        assert (a + b)[j] == a[j];
      }
      forall x | x in b
        ensures x.0 != d.0
      {
        var j :| 0 <= j < |b| && b[j] == x;
        assert (a + b)[|a| + j] == x;
      }
    } else {
      assert b[k - |a|] == d;
    }
  }

  lemma BlockEffect(bbs: Blocks, nodes: Statements, ids: seq<nat>, pos: seq<DefPosition>, node2stmt: map<nat, nat>,
                    stmt2bb: map<nat, nat>, gen: BVMap, prsv: BVMap, i: nat, b: nat)
    requires VectorsRight(bbs, nodes, ids, pos, node2stmt, stmt2bb, gen, prsv) && b in ids && i < |pos|
    ensures b < |bbs| && b in gen && b in prsv && b in Elems(ids)
    ensures i in gen[b] <==> Home(node2stmt, stmt2bb, pos[i]) == b
    ensures i in prsv[b] <==> forall d :: d in Defs(nodes, bbs[b].stmts) ==> d.0 != pos[i].0
  {
    hide Home, Defs;
  }

  // A definition that is the last of its name after block `b` was last before it, or sits in it.
  lemma StepReaches(bbs: Blocks, nodes: Statements, ids: seq<nat>, pos: seq<DefPosition>, node2stmt: map<nat, nat>,
                    stmt2bb: map<nat, nat>, gen: BVMap, prsv: BVMap, i: nat, b: nat, next: nat, before: seq<DefPosition>)
    requires VectorsRight(bbs, nodes, ids, pos, node2stmt, stmt2bb, gen, prsv) && b in ids && b < |bbs| && i < |pos|
    requires next in bbs[b].succs && IsLastDef(before + Defs(nodes, bbs[b].stmts), pos[i])
    requires forall d :: d in Defs(nodes, bbs[b].stmts) ==> Home(node2stmt, stmt2bb, d) == b
    requires (forall d :: d in before ==> Home(node2stmt, stmt2bb, d) == b)
             || (IsLastDef(before, pos[i]) ==> Reaches(bbs, Elems(ids), gen, prsv, i, b))
    ensures Reaches(bbs, Elems(ids), gen, prsv, i, next)
  {
    hide Reaches, VectorsRight, IsLastDef, Home, Defs;
    BlockEffect(bbs, nodes, ids, pos, node2stmt, stmt2bb, gen, prsv, i, b);
    LastDefSplit(before, Defs(nodes, bbs[b].stmts), pos[i]);
    if i in gen[b] {
      ReachesGen(bbs, Elems(ids), gen, prsv, i, b, next);
    } else {
      ReachesOn(bbs, Elems(ids), gen, prsv, i, b, next);
    }
  }

  // The last definition of its name is generated by a block of the path, and every later block preserves it.
  lemma {:induction false} LastDefReaches(bbs: Blocks, nodes: Statements, f: CfgFunc, ids: seq<nat>, pos: seq<DefPosition>,
                                          node2stmt: map<nat, nat>, stmt2bb: map<nat, nat>, gen: BVMap, prsv: BVMap,
                                          p: seq<nat>, i: nat)
    requires Linked(bbs, Elems(ids)) && VectorsRight(bbs, nodes, ids, pos, node2stmt, stmt2bb, gen, prsv)
    requires IsRun(bbs, f, p) && f.entry in ids && i < |pos|
    requires forall d :: d in FuncDefs(f) ==> Home(node2stmt, stmt2bb, d) == f.entry
    requires forall b, d :: b in ids && b < |bbs| && d in Defs(nodes, bbs[b].stmts) ==> Home(node2stmt, stmt2bb, d) == b
    requires IsLastDef(RunDefs(bbs, nodes, f, p), pos[i])
    ensures p[|p| - 1] in ids && Reaches(bbs, Elems(ids), gen, prsv, i, p[|p| - 1])
    decreases |p|
  {
    hide Reaches, VectorsRight, IsLastDef, Home, Defs, FuncDefs, Linked;
    var n := |p| - 1;
    var q := p[..n];
    var b := q[n - 1];
    assert Step(FlowGraph(bbs), p[n - 1], p[n]);
    PathPrefixInIds(bbs, ids, p);
    assert b in p && p[n] in p && b in ids;
    var before := FuncDefs(f) + PathDefs(bbs, nodes, q[..n - 1]);
    assert RunDefs(bbs, nodes, f, p) == before + Defs(nodes, bbs[b].stmts);
    if n > 1 {
      PathPrefix(bbs, p);
      if IsLastDef(before, pos[i]) {
        LastDefReaches(bbs, nodes, f, ids, pos, node2stmt, stmt2bb, gen, prsv, q, i);
      }
    } else {
      assert q[..0] == [] && before == FuncDefs(f);
    }
    StepReaches(bbs, nodes, ids, pos, node2stmt, stmt2bb, gen, prsv, i, b, p[n], before);
  }

  lemma PathPrefix(bbs: Blocks, p: seq<nat>)
    requires IsPath(FlowGraph(bbs), p) && |p| > 1
    ensures IsPath(FlowGraph(bbs), p[..|p| - 1])
  {
    var q := p[..|p| - 1];
    forall i | 0 <= i < |q| - 1
      ensures Step(FlowGraph(bbs), q[i], q[i + 1])
    {
      assert Step(FlowGraph(bbs), p[i], p[i + 1]);
    }
  }

  lemma {:induction false} PathPrefixInIds(bbs: Blocks, ids: seq<nat>, p: seq<nat>)
    requires Linked(bbs, Elems(ids)) && |p| > 0 && p[0] in ids
    requires forall i :: 0 <= i < |p| - 1 ==> Step(FlowGraph(bbs), p[i], p[i + 1])
    ensures forall x :: x in p ==> x in ids
  {
    var i := 0;
    while i < |p| - 1
      invariant 0 <= i < |p| && forall j :: 0 <= j <= i ==> p[j] in ids
    {
      assert Step(FlowGraph(bbs), p[i], p[i + 1]);
      assert p[i + 1] in Elems(ids);
      i := i + 1;
    }
  }
}
