/** Where definitions live: the two maps from node to statement and from statement to block, and why
    they name the right block for every definition. */
module DfaHomes {
  import opened Options
  import opened Graphs
  import opened CfgBlocks
  import opened DfaDefs

  // A statement in a block.
  datatype Site = Site(bb: nat, stmt: nat)

  function SitesOf(b: nat, stmts: seq<nat>): (r: seq<Site>)
    ensures |r| == |stmts| && forall i :: 0 <= i < |r| ==> r[i] == Site(b, stmts[i])
  {
    seq(|stmts|, i requires 0 <= i < |stmts| => Site(b, stmts[i]))
  }

  // All statements of the blocks `ids`, in order.
  function Sites(bbs: Blocks, ids: seq<nat>): seq<Site> {
    if ids == [] then []
    else
      var b := ids[|ids| - 1];
      Sites(bbs, ids[..|ids| - 1]) + if b < |bbs| then SitesOf(b, bbs[b].stmts) else []
  }

  lemma {:induction false} SiteIn(bbs: Blocks, ids: seq<nat>, x: Site)
    ensures x in Sites(bbs, ids) <==> x.bb in ids && x.bb < |bbs| && x.stmt in bbs[x.bb].stmts
  {
    if ids != [] {
      var b := ids[|ids| - 1];
      assert ids == ids[..|ids| - 1] + [b];
      SiteIn(bbs, ids[..|ids| - 1], x);
      if b < |bbs| {
        var r := SitesOf(b, bbs[b].stmts);
        if x.bb == b && x.stmt in bbs[b].stmts {
          var i :| 0 <= i < |bbs[b].stmts| && bbs[b].stmts[i] == x.stmt;
          assert r[i] == x;
        }
      }
    }
  }

  // -------- The maps

  function SetParams(m: map<nat, nat>, params: seq<Param>, sid: nat): map<nat, nat> {
    if params == [] then m
    else
      var p, m' := params[|params| - 1], SetParams(m, params[..|params| - 1], sid);
      if p.isIdent then m'[p.nid := sid] else m'
  }

  // The parameters of all functions belong to their functions, whatever they belonged to before.
  function ParamMap(m: map<nat, nat>, funcs: seq<CfgFunc>): map<nat, nat> {
    if funcs == [] then m
    else
      var f, m' := funcs[|funcs| - 1], ParamMap(m, funcs[..|funcs| - 1]);
      if f.isFunction then SetParams(m', f.params, f.nid) else m'
  }

  function FuncStmtMap(funcs: seq<CfgFunc>): map<nat, nat> {
    if funcs == [] then map[]
    else
      var f, m := funcs[|funcs| - 1], FuncStmtMap(funcs[..|funcs| - 1]);
      if f.isFunction then m[f.nid := f.entry] else m
  }

  function SetAll(m: map<nat, nat>, keys: seq<nat>, v: nat): map<nat, nat> {
    if keys == [] then m else SetAll(m, keys[..|keys| - 1], v)[keys[|keys| - 1] := v]
  }

  // Nested functions are skipped: they have their own entry in the function list.
  predicate Skipped(nodes: Statements, s: nat) {
    s !in nodes || nodes[s].node.Function?
  }

  function NodeMap(m: map<nat, nat>, nodes: Statements, sites: seq<Site>): map<nat, nat> {
    if sites == [] then m
    else
      var s, m' := sites[|sites| - 1].stmt, NodeMap(m, nodes, sites[..|sites| - 1]);
      if Skipped(nodes, s) then m' else SetAll(m', nodes[s].idents, s)
  }

  function StmtMap(m: map<nat, nat>, nodes: Statements, sites: seq<Site>): map<nat, nat> {
    if sites == [] then m
    else
      var x, m' := sites[|sites| - 1], StmtMap(m, nodes, sites[..|sites| - 1]);
      if Skipped(nodes, x.stmt) then m' else m'[x.stmt := x.bb]
  }

  // -------- One home for every definition

  predicate IsParam(f: CfgFunc, nid: nat) {
    f.isFunction && exists p :: p in f.params && p.isIdent && p.nid == nid
  }

  predicate Mentions(nodes: Statements, s: nat, nid: nat) {
    !Skipped(nodes, s) && nid in nodes[s].idents
  }

  // Functions have their own ids, parameters, and entry blocks.
  ghost predicate FuncsApart(funcs: seq<CfgFunc>) {
    forall i, j :: 0 <= i < j < |funcs| ==>
      && funcs[i].nid != funcs[j].nid && funcs[i].entry != funcs[j].entry
      && forall nid :: !(IsParam(funcs[i], nid) && IsParam(funcs[j], nid))
  }

  // The nodes of functions are skipped.
  ghost predicate FuncsSkipped(nodes: Statements, funcs: seq<CfgFunc>, sites: seq<Site>) {
    forall f, x :: f in funcs && f.isFunction && x in sites && x.stmt == f.nid ==> Skipped(nodes, x.stmt)
  }

  // The last statement that mentions a node.
  function LastMention(nodes: Statements, sites: seq<Site>, nid: nat): Option<nat> {
    if sites == [] then None
    else if Mentions(nodes, sites[|sites| - 1].stmt, nid) then Some(sites[|sites| - 1].stmt)
    else LastMention(nodes, sites[..|sites| - 1], nid)
  }

  // A defining statement sits in one block. Its defining node is no parameter's node, and no later
  // statement mentions it; earlier ones may, as a class does whose methods hold the statement.
  ghost predicate DefsApart(nodes: Statements, funcs: seq<CfgFunc>, sites: seq<Site>) {
    forall x, d :: x in sites && d in StmtDefs(nodes, x.stmt) ==>
      && (forall y :: y in sites && y.stmt == x.stmt ==> y.bb == x.bb)
      && LastMention(nodes, sites, d.1) == Some(x.stmt)
      && forall f :: f in funcs ==> !IsParam(f, d.1)
  }

  ghost predicate OneHome(bbs: Blocks, nodes: Statements, funcs: seq<CfgFunc>, ids: seq<nat>) {
    FuncsApart(funcs) && FuncsSkipped(nodes, funcs, Sites(bbs, ids)) && DefsApart(nodes, funcs, Sites(bbs, ids))
  }

  // -------- Lemmas

  lemma {:induction false} SetParamsAt(m: map<nat, nat>, f: CfgFunc, params: seq<Param>, x: nat)
    ensures var hit := exists p :: p in params && p.isIdent && p.nid == x;
            && (hit ==> x in SetParams(m, params, f.nid) && SetParams(m, params, f.nid)[x] == f.nid)
            && (!hit ==> (x in SetParams(m, params, f.nid) <==> x in m) && Look(SetParams(m, params, f.nid), x) == Look(m, x))
  {
    if params != [] {
      var p := params[|params| - 1];
      assert params == params[..|params| - 1] + [p];
      SetParamsAt(m, f, params[..|params| - 1], x);
      if p.isIdent && p.nid == x { assert p in params; }
    }
  }

  lemma {:induction false} ParamDefIs(params: seq<Param>, d: DefPosition)
    requires d in ParamDefs(params)
    ensures exists p :: p in params && p.isIdent && p.nid == d.1
  {
    var p := params[|params| - 1];
    if d !in ParamDefs(params[..|params| - 1]) {
      assert p in params;
    } else {
      ParamDefIs(params[..|params| - 1], d);
      var q :| q in params[..|params| - 1] && q.isIdent && q.nid == d.1;
      assert q in params;
    }
  }

  lemma {:induction false} FuncStmtMapAt(funcs: seq<CfgFunc>, f: CfgFunc)
    requires FuncsApart(funcs) && f in funcs && f.isFunction
    ensures Look(FuncStmtMap(funcs), f.nid) == f.entry
  {
    var n := |funcs| - 1;
    var g, rest := funcs[n], funcs[..n];
    assert funcs == rest + [g];
    if f in rest {
      var i :| 0 <= i < n && rest[i] == f;
      assert funcs[i] == f && funcs[n] == g;
      FuncStmtMapAt(rest, f);
    }
  }

  lemma ParamMapStep(m: map<nat, nat>, funcs: seq<CfgFunc>, i: nat)
    requires i < |funcs|
    ensures var f, m' := funcs[i], ParamMap(m, funcs[..i]);
            ParamMap(m, funcs[..i + 1]) == if f.isFunction then SetParams(m', f.params, f.nid) else m'
  {
    assert funcs[..i + 1][..i] == funcs[..i];
  }

  // A parameter belongs to its function, any other node to what it belonged to.
  lemma ParamMapAt(m: map<nat, nat>, funcs: seq<CfgFunc>, x: nat)
    requires FuncsApart(funcs)
    ensures forall f :: f in funcs && IsParam(f, x) ==> Look(ParamMap(m, funcs), x) == f.nid
    ensures (forall f :: f in funcs ==> !IsParam(f, x)) ==> Look(ParamMap(m, funcs), x) == Look(m, x)
  {
    hide ParamMap, SetParams, IsParam;
    ParamsFrom(m, funcs, x, |funcs|);
    assert funcs[..|funcs|] == funcs;
    forall f | f in funcs && IsParam(f, x)
      ensures Look(ParamMap(m, funcs), x) == f.nid
    {
      var i :| 0 <= i < |funcs| && funcs[i] == f;
    }
  }

  lemma {:induction false} ParamsFrom(m: map<nat, nat>, funcs: seq<CfgFunc>, x: nat, n: nat)
    requires FuncsApart(funcs) && n <= |funcs|
    ensures forall i :: 0 <= i < n && IsParam(funcs[i], x) ==> Look(ParamMap(m, funcs[..n]), x) == funcs[i].nid
    ensures (forall i :: 0 <= i < n ==> !IsParam(funcs[i], x)) ==> Look(ParamMap(m, funcs[..n]), x) == Look(m, x)
    decreases n
  {
    hide SetParams, IsParam;
    if n > 0 {
      var f := funcs[n - 1];
      ParamsFrom(m, funcs, x, n - 1);
      ParamMapStep(m, funcs, n - 1);
      OneFunc(ParamMap(m, funcs[..n - 1]), f, x);
      forall i | 0 <= i < n && IsParam(funcs[i], x)
        ensures Look(ParamMap(m, funcs[..n]), x) == funcs[i].nid
      {
        assert i < n - 1 ==> !(IsParam(funcs[i], x) && IsParam(funcs[n - 1], x));
      }
    }
  }

  lemma OneFunc(m: map<nat, nat>, f: CfgFunc, x: nat)
    ensures Look(if f.isFunction then SetParams(m, f.params, f.nid) else m, x) == if IsParam(f, x) then f.nid else Look(m, x)
  {
    SetParamsAt(m, f, f.params, x);
  }

  lemma {:induction false} SetAllAt(m: map<nat, nat>, keys: seq<nat>, v: nat, x: nat)
    ensures x in keys ==> Look(SetAll(m, keys, v), x) == v
    ensures x !in keys ==> Look(SetAll(m, keys, v), x) == Look(m, x) && (x in SetAll(m, keys, v) <==> x in m)
  {
    if keys != [] {
      assert keys == keys[..|keys| - 1] + [keys[|keys| - 1]];
      SetAllAt(m, keys[..|keys| - 1], v, x);
    }
  }

  // A node belongs to the last statement that mentions it.
  lemma {:induction false} NodeMapAt(m: map<nat, nat>, nodes: Statements, sites: seq<Site>, x: nat)
    ensures var s := LastMention(nodes, sites, x); Look(NodeMap(m, nodes, sites), x) == if s.Some? then s.value else Look(m, x)
  {
    if sites != [] {
      var z, rest := sites[|sites| - 1], sites[..|sites| - 1];
      NodeMapAt(m, nodes, rest, x);
      if !Skipped(nodes, z.stmt) { SetAllAt(NodeMap(m, nodes, rest), nodes[z.stmt].idents, z.stmt, x); }
    }
  }

  // A statement belongs to a block it sits in.
  lemma {:induction false} StmtMapAt(m: map<nat, nat>, nodes: Statements, sites: seq<Site>, s: nat)
    ensures if exists y :: y in sites && y.stmt == s && !Skipped(nodes, s)
            then exists y :: y in sites && y.stmt == s && Look(StmtMap(m, nodes, sites), s) == y.bb
            else Look(StmtMap(m, nodes, sites), s) == Look(m, s)
  {
    if sites != [] {
      var z, rest := sites[|sites| - 1], sites[..|sites| - 1];
      assert sites == rest + [z];
      StmtMapAt(m, nodes, rest, s);
      if z.stmt == s && !Skipped(nodes, s) {
        assert z in sites && Look(StmtMap(m, nodes, sites), s) == z.bb;
      } else if exists y :: y in rest && y.stmt == s && !Skipped(nodes, s) {
        var y :| y in rest && y.stmt == s && Look(StmtMap(m, nodes, rest), s) == y.bb;
        assert y in sites && Look(StmtMap(m, nodes, sites), s) == y.bb;
      }
    }
  }

  lemma {:induction false} DefInStmt(nodes: Statements, stmts: seq<nat>, d: DefPosition) returns (s: nat)
    requires d in Defs(nodes, stmts)
    ensures s in stmts && d in StmtDefs(nodes, s)
  {
    var n := |stmts| - 1;
    if d in StmtDefs(nodes, stmts[n]) {
      s := stmts[n];
    } else {
      s := DefInStmt(nodes, stmts[..n], d);
    }
  }

  lemma {:induction false} LastMentionIn(nodes: Statements, sites: seq<Site>, nid: nat)
    ensures var s := LastMention(nodes, sites, nid);
            s.Some? ==> Mentions(nodes, s.value, nid) && exists x :: x in sites && x.stmt == s.value
  {
    if sites != [] {
      var z, rest := sites[|sites| - 1], sites[..|sites| - 1];
      assert sites == rest + [z];
      LastMentionIn(nodes, rest, nid);
      if Mentions(nodes, z.stmt, nid) {
        assert z in sites;
      } else if LastMention(nodes, rest, nid).Some? {
        var x :| x in rest && x.stmt == LastMention(nodes, rest, nid).value;
        assert x in sites;
      }
    }
  }

  // With one home for every definition, the maps find it once the parameters are entered again.
  lemma MapsRight(bbs: Blocks, nodes: Statements, funcs: seq<CfgFunc>, ids: seq<nat>)
    requires OneHome(bbs, nodes, funcs, ids)
    ensures var n2s := ParamMap(NodeMap(ParamMap(map[], funcs), nodes, Sites(bbs, ids)), funcs);
            HomesRight(bbs, nodes, funcs, ids, n2s, StmtMap(FuncStmtMap(funcs), nodes, Sites(bbs, ids)))
  {
    hide NodeMap, StmtMap, ParamMap, FuncStmtMap, LastMention, Sites;
    var sites := Sites(bbs, ids);
    var m := NodeMap(ParamMap(map[], funcs), nodes, sites);
    var n2s, s2b := ParamMap(m, funcs), StmtMap(FuncStmtMap(funcs), nodes, sites);
    forall f, d | f in funcs && d in FuncDefs(f)
      ensures Home(n2s, s2b, d) == f.entry
    {
      ParamDefIs(f.params, d);
      assert IsParam(f, d.1);
      ParamMapAt(m, funcs, d.1);
      FuncStmtMapAt(funcs, f);
      StmtMapAt(FuncStmtMap(funcs), nodes, sites, f.nid);
    }
    forall b, d | b in ids && b < |bbs| && d in Defs(nodes, bbs[b].stmts)
      ensures Home(n2s, s2b, d) == b
    {
      var s := DefInStmt(nodes, bbs[b].stmts, d);
      SiteIn(bbs, ids, Site(b, s));
      assert Site(b, s) in sites;
      LastMentionIn(nodes, sites, d.1);
      NodeMapAt(ParamMap(map[], funcs), nodes, sites, d.1);
      ParamMapAt(m, funcs, d.1);
      StmtMapAt(FuncStmtMap(funcs), nodes, sites, s);
    }
  }
}
