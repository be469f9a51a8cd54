/** The graph of a whole function: entry and exit blocks, the theorem that the graph means the
    function body, and the symmetry of its edges. */
module CfgFunction {
  import opened Options
  import opened CfgBlocks
  import opened CfgSource
  import opened CfgSim
  import opened CfgSpec
  import opened CfgFrame
  import opened CfgCorrect

  // The entry block, the exit block and the first block of the body are the next three blocks.
  function Begin(bbs: Blocks): (st: St)
    ensures |st.bbs| == |bbs| + 3 && st.cur == |bbs| + 2
  {
    var bbs1 := NewBB(NewBB(NewBB(bbs, Uncond), Join), Uncond);
    St(AddSuccessor(bbs1, |bbs|, |bbs| + 2), |bbs| + 2)
  }

  function BodyEnv(exit: nat): Env {
    Env([], [], [Target(exit, 0, false)], exit)
  }

  function BuildFunction(bbs: Blocks, body: Stmt): Blocks {
    var st := Visit(Begin(bbs), body, BodyEnv(|bbs| + 1));
    AddSuccessor(st.bbs, st.cur, |bbs| + 1)
  }

  const NO_SCOPE := Scope([], [])

  lemma BeginEffect(bbs: Blocks)
    ensures var st, n := Begin(bbs), |bbs|;
            && Keeps(bbs, st.bbs, {}) && Starts(st, BodyEnv(n + 1)) && ScopeOf(BodyEnv(n + 1)) == NO_SCOPE
            && st.bbs[n].stmts == [] && st.bbs[n].succs == [n + 2]
            && st.bbs[n + 1].stmts == [] && st.bbs[n + 1].succs == [] && Stmts(st) == 0
  {
    var n := |bbs|;
    AddSuccessorEffect(NewBB(NewBB(NewBB(bbs, Uncond), Join), Uncond), n, n + 2);
    ResolvePush([], Target(n + 1, 0, false), 0);
    assert [] + [Target(n + 1, 0, false)] == [Target(n + 1, 0, false)];
  }

  // From the entry block, which is followed by the exit block, the walk lists what the run lists. It
  // ends at the exit block, stops at a branch where the run has no decision left, or goes on for ever.
  ghost predicate Matches(f: Blocks, entry: nat, o: seq<bool>, r: Run) {
    var c, end := Conf(entry, 0, o, []), Conf(entry + 1, 0, r.rest, r.tr);
    match r.out
    case Stuck => StopsAtBranch(f, c, r)
    case Spin => GoesOn(f, c)
    case Normal => Leads(f, c, end) && Halted(f, end)
    case Leave => Leads(f, c, end) && Halted(f, end)
    case _ => false
  }

  // The graph of a function runs as its body does when read as it is built. Blocks of other functions
  // stay as they were.
  lemma GraphRuns(bbs: Blocks, body: Stmt, o: seq<bool>)
    requires Tidy(body) && Scoped(body, NO_SCOPE)
    ensures Matches(BuildFunction(bbs, body), |bbs|, o, Exec(AsBuilt, body, o))
    ensures Keeps(bbs, BuildFunction(bbs, body), {})
  {
    hide Visit, Scoped, Tidy, Begin, Exec, Resolve, Matches;
    var n, st := |bbs|, Begin(bbs);
    var env, f := BodyEnv(n + 1), BuildFunction(bbs, body);
    BeginEffect(bbs);
    VisitFrame(st, body, env);
    var st1 := Visit(st, body, env);
    AddSuccessorEffect(st1.bbs, st1.cur, n + 1);
    FunctionAgrees(st, st1, f, body, n);
    VisitSim(st, body, env, f);
    BodyToExit(f, n, body, st1.cur, Stmts(st1), env, o);
  }

  lemma FunctionAgrees(st: St, st1: St, f: Blocks, body: Stmt, n: nat)
    requires Frame(st, st1, body) && st.cur == n + 2 && |st.bbs| == n + 3 && OpenBB(st.bbs[n + 2]) && Tidy(body)
    requires Keeps(st1.bbs, f, {st1.cur}) && Grows(st1.bbs[st1.cur], f[st1.cur])
    requires f[st1.cur].stmts == st1.bbs[st1.cur].stmts
    requires !st1.bbs[st1.cur].kind.Terminated? ==> f[st1.cur].succs == st1.bbs[st1.cur].succs + [n + 1]
    ensures Agrees(f, st1.bbs, |st.bbs|, st.cur, st1.cur)
    ensures Same(st.bbs[n], f[n]) && Same(st.bbs[n + 1], f[n + 1])
    ensures Continues1(f, body, st1.cur, |st1.bbs[st1.cur].stmts|, n + 1)
    ensures forall bbs :: |bbs| == n && Keeps(bbs, st.bbs, {}) ==> Keeps(bbs, f, {})
  {
  }

  lemma BodyToExit(f: Blocks, n: nat, body: Stmt, b: nat, k: nat, env: Env, o: seq<bool>)
    requires n + 1 < |f| && f[n].stmts == [] && f[n].succs == [n + 2]
    requires f[n + 1].stmts == [] && f[n + 1].succs == []
    requires env == BodyEnv(n + 1)
    requires Simulates(f, n + 2, 0, body, b, k, env) && Continues1(f, body, b, k, n + 1)
    ensures Matches(f, n, o, Exec(AsBuilt, body, o))
  {
    BodyFollows(f, n + 2, body, b, k, n + 1, env, o, []);
    EdgeThen(f, n, 0, n + 2, Exec(AsBuilt, body, o), n + 1, 0, env, o, []);
    assert [] + Exec(AsBuilt, body, o).tr == Exec(AsBuilt, body, o).tr;
  }

  // -------- Symmetry

  lemma NewBBSymmetric(bbs: Blocks, kind: BBKind)
    requires Symmetric(bbs)
    ensures Symmetric(NewBB(bbs, kind))
  {
    var r := NewBB(bbs, kind);
    forall b: nat, c: nat | b < |r| && c < |r|
      ensures OutCount(r, b, c) == InCount(r, c, b)
    {
      if b < |bbs| && c < |bbs| {
        assert OutCount(bbs, b, c) == InCount(bbs, c, b);
      } else if b < |bbs| {
        assert c !in bbs[b].succs;
      } else if c < |bbs| {
        assert b !in bbs[c].preds;
      }
    }
  }

  // Edges are untouched by changes of kind and statements.
  lemma SameEdgesSymmetric(a: Blocks, b: Blocks)
    requires Symmetric(a) && |a| == |b|
    requires forall i :: 0 <= i < |a| ==> a[i].succs == b[i].succs && a[i].preds == b[i].preds
    ensures Symmetric(b)
  {
    forall x: nat, y: nat | x < |b| && y < |b|
      ensures OutCount(b, x, y) == InCount(b, y, x)
    {
      assert OutCount(a, x, y) == InCount(a, y, x);
    }
  }

  lemma AddAllSymmetric(st: St, stmts: seq<nat>)
    requires st.cur < |st.bbs| && Symmetric(st.bbs)
    ensures Symmetric(AddAll(st, stmts).bbs)
  {
    SameEdgesSymmetric(st.bbs, AddAll(st, stmts).bbs);
  }

  lemma JumpSymmetric(st: St, stmt: nat, target: Option<nat>)
    requires st.cur < |st.bbs| && (target.Some? ==> target.value < |st.bbs|) && Symmetric(st.bbs)
    ensures Symmetric(JumpTo(st, stmt, target).bbs)
  {
    var bbs1 := AddStatement(st.bbs, st.cur, stmt);
    SameEdgesSymmetric(st.bbs, bbs1);
    if target.Some? { AddSuccessorSymmetric(bbs1, st.cur, target.value); }
    var bbs2 := if target.Some? then AddSuccessor(bbs1, st.cur, target.value) else bbs1;
    SameEdgesSymmetric(bbs2, SetKind(bbs2, st.cur, Terminated));
  }

  lemma OpenSymmetric(st: St, kind: BBKind, stmts: seq<nat>, a: BBKind, b: BBKind, into: nat)
    requires st.cur < |st.bbs| && |st.bbs| <= into < |st.bbs| + 2 && Symmetric(st.bbs)
    ensures Symmetric(Open(st, kind, stmts, a, b, into).bbs)
  {
    var bbs1 := AddStatements(SetKind(st.bbs, st.cur, kind), st.cur, stmts);
    SameEdgesSymmetric(st.bbs, bbs1);
    NewBBSymmetric(bbs1, a);
    NewBBSymmetric(NewBB(bbs1, a), b);
    AddSuccessorSymmetric(NewBB(NewBB(bbs1, a), b), st.cur, into);
  }

  lemma {:induction false} VisitSymmetric(st: St, s: Stmt, env: Env)
    requires OkSt(st, env) && Symmetric(st.bbs)
    ensures Symmetric(Visit(st, s, env).bbs)
    decreases s, 2
  {
    hide Symmetric;
    match s {
      case Simple(id) => AddAllSymmetric(st, [id]);
      case Return(id) => JumpSymmetric(st, id, Some(env.exit));
      case Throw(id) => ResolveOk(env.throws, 0, |st.bbs|); JumpSymmetric(st, id, Resolve(env.throws, 0));
      case Break(id, t) => ResolveOk(env.breaks, t, |st.bbs|); JumpSymmetric(st, id, Resolve(env.breaks, t));
      case Continue(id, t) => ResolveOk(env.conts, t, |st.bbs|); JumpSymmetric(st, id, Resolve(env.conts, t));
      case If(_, _, _, _) => IfSymmetric(st, s, env);
      case While(cond, body, lab) => LoopSymmetric(st, cond, body, [], lab, env);
      case For(inits, cond, body, updates, lab) =>
        AddAllSymmetric(st, inits);
        LoopSymmetric(AddAll(st, inits), cond, body, updates, lab, env);
      case Do(_, _, _) => DoSymmetric(st, s, env);
      case BlockOf(stmts, lab, lexical) =>
        if !lexical && lab.None? {
          AllSymmetric(st, stmts, env);
        } else {
          BlockSymmetric(st, s, env);
        }
    }
  }

  lemma {:induction false} AllSymmetric(st: St, ss: seq<Stmt>, env: Env)
    requires OkSt(st, env) && Symmetric(st.bbs)
    ensures Symmetric(VisitAll(st, ss, env).bbs)
    decreases ss, 0
  {
    hide Symmetric;
    if ss != [] {
      VisitSymmetric(st, ss[0], env);
      AllSymmetric(Visit(st, ss[0], env), ss[1..], env);
    }
  }

  lemma {:induction false} BlockSymmetric(st: St, s: Stmt, env: Env)
    requires OkSt(st, env) && Symmetric(st.bbs) && s.BlockOf?
    ensures Symmetric(VisitBlock(st, s.stmts, s.lab, env).bbs)
    decreases s, 1
  {
    hide Symmetric, Open, AddSuccessor, VisitAll;
    var n := |st.bbs|;
    OpenSymmetric(st, Block, [], Join2, Uncond, n + 1);
    PushOk(env, s.lab, n, 0, n, n + 2);
    var st1 := Open(st, Block, [], Join2, Uncond, n + 1);
    AllSymmetric(st1, s.stmts, PushBreak(env, s.lab, n));
    var st2 := VisitAll(st1, s.stmts, PushBreak(env, s.lab, n));
    AddSuccessorSymmetric(st2.bbs, st2.cur, n);
  }

  lemma {:induction false} IfSymmetric(st: St, s: Stmt, env: Env)
    requires OkSt(st, env) && Symmetric(st.bbs) && s.If?
    ensures Symmetric(VisitIf(st, s, env).bbs)
    decreases s, 1
  {
    hide Symmetric, Open, AddSuccessor, Visit;
    var n := |st.bbs|;
    var env1 := PushBreak(env, s.lab, n + 1);
    OpenSymmetric(st, Branch, CondList(s.cond), Uncond, Join2, n);
    PushOk(env, s.lab, n + 1, 0, n, n + 2);
    var st1 := Open(st, Branch, CondList(s.cond), Uncond, Join2, n);
    VisitSymmetric(st1, s.thn, env1);
    var st2 := Visit(st1, s.thn, env1);
    AddSuccessorSymmetric(st2.bbs, st2.cur, n + 1);
    var st3 := Close(st2, n + 1);
    if s.els.None? {
      AddSuccessorSymmetric(st3.bbs, st.cur, n + 1);
    } else {
      NewBBSymmetric(st3.bbs, Uncond);
      AddSuccessorSymmetric(NewBB(st3.bbs, Uncond), st.cur, |st3.bbs|);
      var st4 := Branch2(st3, st.cur);
      VisitSymmetric(st4, s.els.value, env1);
      var st5 := Visit(st4, s.els.value, env1);
      AddSuccessorSymmetric(st5.bbs, st5.cur, n + 1);
    }
  }

  lemma EnterSymmetric(st: St, stmts: seq<nat>)
    requires st.cur < |st.bbs| && Symmetric(st.bbs)
    ensures Symmetric(Open(EnterLoop(st), LoopHeader, stmts, Uncond, Join, |st.bbs| + 1).bbs)
  {
    hide Symmetric, Open, AddSuccessor;
    NewBBSymmetric(st.bbs, LoopHeader);
    AddSuccessorSymmetric(NewBB(st.bbs, LoopHeader), st.cur, |st.bbs|);
    OpenSymmetric(EnterLoop(st), LoopHeader, stmts, Uncond, Join, |st.bbs| + 1);
  }

  lemma {:induction false} LoopSymmetric(st: St, cond: Option<nat>, body: Stmt, updates: seq<nat>, lab: Option<nat>, env: Env)
    requires OkSt(st, env) && Symmetric(st.bbs)
    ensures Symmetric(VisitLoop(st, cond, body, updates, lab, env).bbs)
    decreases body, 3
  {
    hide Symmetric, Open, AddSuccessor, Visit, EnterLoop, AddAll;
    var n := |st.bbs|;
    EnterSymmetric(st, CondList(cond));
    PushOk(env, lab, n + 2, n, n, n + 3);
    var st1 := Open(EnterLoop(st), LoopHeader, CondList(cond), Uncond, Join, n + 1);
    VisitSymmetric(st1, body, PushLoop(env, lab, n + 2, n));
    var st2 := Visit(st1, body, PushLoop(env, lab, n + 2, n));
    AddAllSymmetric(st2, updates);
    var st3 := AddAll(st2, updates);
    AddSuccessorSize(st3.bbs, st3.cur, n);
    AddSuccessorSymmetric(st3.bbs, st3.cur, n);
    AddSuccessorSymmetric(AddSuccessor(st3.bbs, st3.cur, n), n, n + 2);
  }

  lemma {:induction false} DoSymmetric(st: St, s: Stmt, env: Env)
    requires OkSt(st, env) && Symmetric(st.bbs) && s.Do?
    ensures Symmetric(VisitDo(st, s.body, s.cond, s.lab, env).bbs)
    decreases s, 1
  {
    hide Symmetric, Open, AddSuccessor, Visit, EnterLoop, AddAll;
    var n := |st.bbs|;
    EnterSymmetric(st, []);
    PushOk(env, s.lab, n + 2, n, n, n + 3);
    var st1 := Open(EnterLoop(st), LoopHeader, [], Uncond, Join, n + 1);
    VisitSymmetric(st1, s.body, PushLoop(env, s.lab, n + 2, n));
    var st2 := Visit(st1, s.body, PushLoop(env, s.lab, n + 2, n));
    AddAllSymmetric(st2, CondList(s.cond));
    var st3 := AddAll(st2, CondList(s.cond));
    AddSuccessorSize(st3.bbs, st3.cur, n);
    AddSuccessorSymmetric(st3.bbs, st3.cur, n);
    AddSuccessorSymmetric(AddSuccessor(st3.bbs, st3.cur, n), st3.cur, n + 2);
  }

  lemma FunctionSymmetric(bbs: Blocks, body: Stmt)
    requires Symmetric(bbs)
    ensures Symmetric(BuildFunction(bbs, body))
  {
    hide Symmetric, AddSuccessor, Visit;
    var n := |bbs|;
    var a := NewBB(bbs, Uncond);
    NewBBSymmetric(bbs, Uncond);
    NewBBSymmetric(a, Join);
    NewBBSymmetric(NewBB(a, Join), Uncond);
    AddSuccessorSymmetric(NewBB(NewBB(a, Join), Uncond), n, n + 2);
    var env := BodyEnv(n + 1);
    VisitSymmetric(Begin(bbs), body, env);
    var st := Visit(Begin(bbs), body, env);
    AddSuccessorSymmetric(st.bbs, st.cur, n + 1);
  }
}
