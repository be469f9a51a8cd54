/** Building a statement leaves the blocks made before alone, except the one it starts in. */
module CfgFrame {
  import opened Options
  import opened CfgBlocks
  import opened CfgSource
  import opened CfgSim
  import opened CfgSpec

  // -------- Frames

  // Between opening and leaving a compound statement only new blocks change: `x` is where its body
  // was built, `y` what leaving changed, `exit` where building goes on.
  lemma CompoundKeeps(o: Blocks, a: Blocks, b: Blocks, c: Blocks, cur: nat, x: nat, y: set<nat>, exit: nat)
    requires cur < |o| && Keeps(o, a, {cur}) && Keeps(a, b, {x}) && Keeps(b, c, y)
    requires x >= |o| && (forall i :: i in y ==> i >= |o|) && |o| <= exit < |a| && exit != x && exit !in y
    ensures Keeps(o, c, {cur}) && Same(a[cur], c[cur]) && Same(a[exit], c[exit])
  {
  }

  // The frame of a statement that makes blocks: building goes on in a fresh, open block.
  ghost predicate Compound(st: St, st': St) {
    && Keeps(st.bbs, st'.bbs, {st.cur}) && |st.bbs| <= st'.cur < |st'.bbs| && st.cur < |st.bbs|
    && st.bbs[st.cur].stmts <= st'.bbs[st.cur].stmts && OpenBB(st'.bbs[st'.cur])
  }

  lemma {:induction false} VisitFrame(st: St, s: Stmt, env: Env)
    requires OkSt(st, env) && Scoped(s, ScopeOf(env)) && Resolve(env.throws, 0) == Some(env.exit)
    ensures Frame(st, Visit(st, s, env), s)
    decreases s, 2
  {
    match s {
      case Simple(id) => AddStatementsEffect(st.bbs, st.cur, [id]);
      case Return(id) => JumpEffect(st, id, env.exit);
      case Throw(id) => JumpEffect(st, id, env.exit);
      case Break(id, t) =>
        ResolveSome(env.breaks, t);
        ResolveOk(env.breaks, t, |st.bbs|);
        JumpEffect(st, id, Resolve(env.breaks, t).value);
      case Continue(id, t) =>
        ResolveSome(env.conts, t);
        ResolveOk(env.conts, t, |st.bbs|);
        JumpEffect(st, id, Resolve(env.conts, t).value);
      case If(_, _, _, _) => IfFrame(st, s, env);
      case While(cond, body, lab) => VisitLoopFrame(st, cond, body, [], lab, env);
      case For(inits, cond, body, updates, lab) =>
        AddStatementsEffect(st.bbs, st.cur, inits);
        VisitLoopFrame(AddAll(st, inits), cond, body, updates, lab, env);
      case Do(body, cond, lab) => DoFrame(st, s, env);
      case BlockOf(stmts, lab, lexical) =>
        if !lexical && lab.None? {
          AllFrame(st, stmts, env);
        } else {
          BlockFrame(st, s, env);
        }
    }
  }

  ghost predicate FrameAll(st: St, st': St, ss: seq<Stmt>) {
    && Keeps(st.bbs, st'.bbs, {st.cur}) && st'.cur < |st'.bbs| && st.cur < |st.bbs|
    && (st'.cur == st.cur || st'.cur >= |st.bbs|)
    && (st.bbs[st.cur].kind.Terminated? && (forall t :: t in ss ==> LeavesEnded(t)) ==>
          && Same(st.bbs[st.cur], st'.bbs[st.cur])
          && ((forall t :: t in ss ==> Tidy(t)) && JumpsLast(ss) ==> EndOK(st'.bbs[st'.cur])))
    && (OpenBB(st.bbs[st.cur]) && (forall t :: t in ss ==> Tidy(t)) && JumpsLast(ss) ==>
          && st.bbs[st.cur].stmts <= st'.bbs[st.cur].stmts && EndOK(st'.bbs[st'.cur])
          && ((exists t :: t in ss && EndsInJump(t)) || OpenBB(st'.bbs[st'.cur])))
  }

  lemma {:induction false} AllFrame(st: St, ss: seq<Stmt>, env: Env)
    requires OkSt(st, env) && Resolve(env.throws, 0) == Some(env.exit)
    requires forall t :: t in ss ==> Scoped(t, ScopeOf(env))
    ensures FrameAll(st, VisitAll(st, ss, env), ss)
    decreases ss, 0
  {
    if ss != [] {
      var st1 := Visit(st, ss[0], env);
      VisitFrame(st, ss[0], env);
      AllFrame(st1, ss[1..], env);
      assert ss == [ss[0]] + ss[1..];
      KeepsTrans(st.bbs, st1.bbs, VisitAll(st, ss, env).bbs, {st.cur}, {st1.cur});
    }
  }

  lemma {:induction false} BlockFrame(st: St, s: Stmt, env: Env)
    requires OkSt(st, env) && Scoped(s, ScopeOf(env)) && Resolve(env.throws, 0) == Some(env.exit)
    requires s.BlockOf? && !(!s.lexical && s.lab.None?)
    ensures Compound(st, VisitBlock(st, s.stmts, s.lab, env))
    decreases s, 1
  {
    hide Visit, VisitAll, AddStatements, AddStatement, AddSuccessor, Open, EnterLoop, Resolve, ScopeOf, CondList;
    var n := |st.bbs|;
    var env1 := PushBreak(env, s.lab, n);
    var st1 := Open(st, Block, [], Join2, Uncond, n + 1);
    OpenEffect(st, Block, [], Join2, Uncond, n + 1);
    PushOk(env, s.lab, n, 0, n, |st1.bbs|);
    AllFrame(st1, s.stmts, env1);
    var st2 := VisitAll(st1, s.stmts, env1);
    AddSuccessorEffect(st2.bbs, st2.cur, n);
  }

  lemma {:induction false} IfFrame(st: St, s: Stmt, env: Env)
    requires OkSt(st, env) && Scoped(s, ScopeOf(env)) && Resolve(env.throws, 0) == Some(env.exit)
    requires s.If?
    ensures Compound(st, VisitIf(st, s, env))
    decreases s, 1
  {
    hide Visit, VisitAll, AddStatements, AddStatement, AddSuccessor, Open, Resolve, ScopeOf, CondList;
    var n := |st.bbs|;
    var env1 := PushBreak(env, s.lab, n + 1);
    var st1 := Open(st, Branch, CondList(s.cond), Uncond, Join2, n);
    OpenEffect(st, Branch, CondList(s.cond), Uncond, Join2, n);
    PushOk(env, s.lab, n + 1, 0, n, |st1.bbs|);
    VisitFrame(st1, s.thn, env1);
    var st2 := Visit(st1, s.thn, env1);
    AddSuccessorEffect(st2.bbs, st2.cur, n + 1);
    var st3 := Close(st2, n + 1);
    IfThenKeeps(st.bbs, st1.bbs, st2.bbs, st3.bbs, st.cur, n, st2.cur);
    if s.els.None? {
      AddSuccessorEffect(st3.bbs, st.cur, n + 1);
    } else {
      ElseFrame(st, st3, s.els.value, env1, n + 1);
    }
  }

  lemma IfThenKeeps(o: Blocks, a: Blocks, b: Blocks, c: Blocks, cur: nat, n: nat, x: nat)
    requires cur < |o| == n && Keeps(o, a, {cur}) && |a| == n + 2 && Keeps(a, b, {n}) && Keeps(b, c, {x})
    requires x == n || x >= n + 2
    ensures Keeps(o, c, {cur}) && Same(a[cur], c[cur]) && Same(a[n + 1], c[n + 1])
  {
  }

  // The false branch of an if whose true branch is built.
  lemma {:induction false} ElseFrame(st: St, st3: St, s: Stmt, env: Env, join: nat)
    requires st.cur < |st.bbs| && Keeps(st.bbs, st3.bbs, {st.cur}) && !st3.bbs[st.cur].kind.Terminated?
    requires OkEnv(env, |st3.bbs|) && |st.bbs| <= join < |st3.bbs|
    requires Scoped(s, ScopeOf(env)) && Resolve(env.throws, 0) == Some(env.exit)
    ensures var st6 := Close(Visit(Branch2(st3, st.cur), s, env), join);
            && Keeps(st.bbs, st6.bbs, {st.cur}) && Same(st3.bbs[join], st6.bbs[join])
            && st6.bbs[st.cur].stmts == st3.bbs[st.cur].stmts
    decreases s, 3
  {
    hide Visit, VisitAll, AddStatements, AddStatement, AddSuccessor, Open, Resolve, ScopeOf, CondList;
    var st4 := Branch2(st3, st.cur);
    AddSuccessorEffect(NewBB(st3.bbs, Uncond), st.cur, |st3.bbs|);
    VisitFrame(st4, s, env);
    var st5 := Visit(st4, s, env);
    AddSuccessorEffect(st5.bbs, st5.cur, join);
  }

  lemma {:induction false} VisitLoopFrame(st: St, cond: Option<nat>, body: Stmt, updates: seq<nat>, lab: Option<nat>, env: Env)
    requires OkSt(st, env) && Scoped(body, InLoop(ScopeOf(env), lab)) && Resolve(env.throws, 0) == Some(env.exit)
    ensures var st' := VisitLoop(st, cond, body, updates, lab, env);
            Compound(st, st') && (st.bbs[st.cur].kind.Terminated? ==> Same(st.bbs[st.cur], st'.bbs[st.cur]))
    decreases body, 3
  {
    hide Visit, VisitAll, AddStatements, AddStatement, AddSuccessor, Open, EnterLoop, Resolve, ScopeOf, CondList;
    hide LeaveLoop, LeaveDo, AddAll, PushLoop, InLoop;
    var n := |st.bbs|;
    var st1 := Open(EnterLoop(st), LoopHeader, CondList(cond), Uncond, Join, n + 1);
    LoopOpens(st, CondList(cond));
    var env1 := PushLoop(env, lab, n + 2, n);
    PushOk(env, lab, n + 2, n, n, |st1.bbs|);
    VisitFrame(st1, body, env1);
    var st2 := Visit(st1, body, env1);
    LeaveEffect(st2, updates, n, n + 2);
    CompoundKeeps(st.bbs, st1.bbs, st2.bbs, LeaveLoop(AddAll(st2, updates), n, n + 2).bbs, st.cur, n + 1, {st2.cur, n}, n + 2);
  }

  lemma LoopOpens(st: St, stmts: seq<nat>)
    requires st.cur < |st.bbs|
    ensures var r, n := Open(EnterLoop(st), LoopHeader, stmts, Uncond, Join, |st.bbs| + 1), |st.bbs|;
            && Keeps(st.bbs, r.bbs, {st.cur}) && Grows(st.bbs[st.cur], r.bbs[st.cur])
            && r.bbs[st.cur].stmts == st.bbs[st.cur].stmts
            && (!st.bbs[st.cur].kind.Terminated? ==> r.bbs[st.cur].succs == st.bbs[st.cur].succs + [n])
            && r.bbs[n].kind == LoopHeader && r.bbs[n].stmts == stmts && r.bbs[n].succs == [n + 1]
            && r.bbs[n + 1].kind == Uncond && r.bbs[n + 1].stmts == [] && r.bbs[n + 1].succs == []
            && r.bbs[n + 2].kind == Join && r.bbs[n + 2].stmts == [] && r.bbs[n + 2].succs == []
  {
    EnterLoopEffect(st);
    OpenEffect(EnterLoop(st), LoopHeader, stmts, Uncond, Join, |st.bbs| + 1);
  }

  lemma LeaveEffect(st: St, stmts: seq<nat>, header: nat, exit: nat)
    requires st.cur < |st.bbs| && header < |st.bbs| && exit < |st.bbs| && st.cur != header
    ensures var r := LeaveLoop(AddAll(st, stmts), header, exit);
            && Keeps(st.bbs, r.bbs, {st.cur, header}) && Grows(st.bbs[st.cur], r.bbs[st.cur])
            && (!st.bbs[st.cur].kind.Terminated? ==> r.bbs[st.cur].stmts == st.bbs[st.cur].stmts + stmts
                                                     && r.bbs[st.cur].succs == st.bbs[st.cur].succs + [header])
            && r.bbs[header].stmts == st.bbs[header].stmts
            && (!st.bbs[header].kind.Terminated? ==> r.bbs[header].succs == st.bbs[header].succs + [exit])
  {
    AddStatementsEffect(st.bbs, st.cur, stmts);
    var st3 := AddAll(st, stmts);
    AddSuccessorEffect(st3.bbs, st3.cur, header);
    AddSuccessorEffect(AddSuccessor(st3.bbs, st3.cur, header), header, exit);
  }

  lemma LeaveDoEffect(st: St, stmts: seq<nat>, header: nat, exit: nat)
    requires st.cur < |st.bbs| && header < |st.bbs| && exit < |st.bbs|
    ensures var r := LeaveDo(AddAll(st, stmts), header, exit);
            && Keeps(st.bbs, r.bbs, {st.cur}) && Grows(st.bbs[st.cur], r.bbs[st.cur])
            && (!st.bbs[st.cur].kind.Terminated? ==> r.bbs[st.cur].stmts == st.bbs[st.cur].stmts + stmts
                                                     && r.bbs[st.cur].succs == st.bbs[st.cur].succs + [header, exit])
  {
    AddStatementsEffect(st.bbs, st.cur, stmts);
    var st3 := AddAll(st, stmts);
    AddSuccessorEffect(st3.bbs, st3.cur, header);
    AddSuccessorEffect(AddSuccessor(st3.bbs, st3.cur, header), st3.cur, exit);
    assert st.bbs[st.cur].succs + [header] + [exit] == st.bbs[st.cur].succs + [header, exit];
  }

  lemma {:induction false} DoFrame(st: St, s: Stmt, env: Env)
    requires OkSt(st, env) && Scoped(s, ScopeOf(env)) && Resolve(env.throws, 0) == Some(env.exit)
    requires s.Do?
    ensures var st' := VisitDo(st, s.body, s.cond, s.lab, env);
            Compound(st, st') && (st.bbs[st.cur].kind.Terminated? ==> Same(st.bbs[st.cur], st'.bbs[st.cur]))
    decreases s, 1
  {
    hide Visit, VisitAll, AddStatements, AddStatement, AddSuccessor, Open, EnterLoop, Resolve, ScopeOf, CondList;
    hide LeaveLoop, LeaveDo, AddAll, PushLoop, InLoop, LeavesEnded, Tidy, EndsInJump, Resolve;
    var n := |st.bbs|;
    var st1 := Open(EnterLoop(st), LoopHeader, [], Uncond, Join, n + 1);
    LoopOpens(st, []);
    var env1 := PushLoop(env, s.lab, n + 2, n);
    PushOk(env, s.lab, n + 2, n, n, |st1.bbs|);
    VisitFrame(st1, s.body, env1);
    var st2 := Visit(st1, s.body, env1);
    LeaveDoEffect(st2, CondList(s.cond), n, n + 2);
    CompoundKeeps(st.bbs, st1.bbs, st2.bbs, LeaveDo(AddAll(st2, CondList(s.cond)), n, n + 2).bbs, st.cur, n + 1, {st2.cur}, n + 2);
  }
}
