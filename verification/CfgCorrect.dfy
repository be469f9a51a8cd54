/** The graph built for a statement does what the statement does. */
module CfgCorrect {
  import opened Options
  import opened CfgBlocks
  import opened CfgSource
  import opened CfgSim
  import opened CfgSpec
  import opened CfgFrame

  // Block `fb` of the finished graph is `bb`, or continues it if `bb` is still open.
  predicate AgreesAt(fb: CfgBB, bb: CfgBB, open: bool) {
    if open && !bb.kind.Terminated? then bb.stmts <= fb.stmts else fb.stmts == bb.stmts && fb.succs == bb.succs
  }

  // The finished graph agrees with the blocks a visit worked on: its first block `b0` and those
  // from `lo` on; `cur` is where building goes on.
  ghost predicate Agrees(f: Blocks, bbs: Blocks, lo: nat, b0: nat, cur: nat) {
    && |bbs| <= |f| && b0 < |bbs|
    && forall i: nat :: i < |bbs| && (i == b0 || i >= lo) ==> AgreesAt(f[i], bbs[i], i == cur)
  }

  // Agreement at the end of a construct gives agreement at the end of a part of it.
  lemma PartAgrees(f: Blocks, fin: Blocks, lo: nat, b0: nat, fcur: nat, part: Blocks, lo': nat, b0': nat, pcur: nat)
    requires Agrees(f, fin, lo, b0, fcur) && |part| <= |fin| && lo <= lo' && b0' < |part|
    requires b0' == b0 || b0' >= lo
    requires forall i: nat :: i < |part| && (i == b0' || i >= lo') && i != pcur ==> Same(part[i], fin[i]) && i != fcur
    requires pcur < |part| && (pcur == b0' || pcur >= lo')
    requires part[pcur].stmts <= fin[pcur].stmts && (part[pcur].kind.Terminated? ==> Same(part[pcur], fin[pcur]))
    ensures Agrees(f, part, lo', b0', pcur)
  {
    forall i: nat | i < |part| && (i == b0' || i >= lo')
      ensures AgreesAt(f[i], part[i], i == pcur)
    {
      assert AgreesAt(f[i], fin[i], i == fcur);
    }
  }

  ghost predicate Starts(st: St, env: Env) {
    OkSt(st, env) && OpenBB(st.bbs[st.cur]) && Resolve(env.throws, 0) == Some(env.exit)
  }

  function Stmts(st: St): nat
    requires st.cur < |st.bbs|
  {
    |st.bbs[st.cur].stmts|
  }

  lemma {:induction false} VisitSim(st: St, s: Stmt, env: Env, f: Blocks)
    requires Starts(st, env) && Scoped(s, ScopeOf(env)) && Tidy(s)
    requires Agrees(f, Visit(st, s, env).bbs, |st.bbs|, st.cur, Visit(st, s, env).cur)
    ensures Simulates(f, st.cur, Stmts(st), s, Visit(st, s, env).cur, Stmts(Visit(st, s, env)), env)
    decreases s, 2
  {
    var st', b := Visit(st, s, env), st.cur;
    assert AgreesAt(f[b], st'.bbs[b], b == st'.cur);
    match s {
      case Simple(id) =>
        AddStatementsEffect(st.bbs, b, [id]);
        SimSimple(f, b, Stmts(st), id, env);
      case Return(id) =>
        JumpEffect(st, id, env.exit);
        SimJump(f, b, Stmts(st), s, env.exit, b, Stmts(st'), env);
      case Throw(id) =>
        JumpEffect(st, id, env.exit);
        SimJump(f, b, Stmts(st), s, env.exit, b, Stmts(st'), env);
      case Break(id, t) =>
        ResolveSome(env.breaks, t);
        ResolveOk(env.breaks, t, |st.bbs|);
        JumpEffect(st, id, Resolve(env.breaks, t).value);
        SimJump(f, b, Stmts(st), s, Resolve(env.breaks, t).value, b, Stmts(st'), env);
      case Continue(id, t) =>
        ResolveSome(env.conts, t);
        ResolveOk(env.conts, t, |st.bbs|);
        JumpEffect(st, id, Resolve(env.conts, t).value);
        SimJump(f, b, Stmts(st), s, Resolve(env.conts, t).value, b, Stmts(st'), env);
      case If(_, _, _, _) => IfSim(st, s, env, f);
      case While(cond, body, lab) => LoopSim(st, cond, body, [], lab, env, f);
      case For(_, _, _, _, _) => ForSim(st, s, env, f);
      case Do(_, _, _) => DoSim(st, s, env, f);
      case BlockOf(stmts, lab, lexical) =>
        if !lexical && lab.None? {
          AllSim(st, stmts, env, f);
          InPlaceSim(f, b, Stmts(st), s, st'.cur, Stmts(st'), env);
        } else {
          BlockSim(st, s, env, f);
        }
    }
  }

  lemma InPlaceSim(f: Blocks, b0: nat, k0: nat, s: Stmt, b: nat, k: nat, env: Env)
    requires s.BlockOf? && s.lab.None? && SimulatesAll(f, b0, k0, s.stmts, b, k, env)
    ensures Simulates(f, b0, k0, s, b, k, env)
  {
    forall o, tr
      ensures Follows(f, Conf(b0, k0, o, tr), Exec(AsBuilt, s, o), b, k, env)
    {
      assert Follows(f, Conf(b0, k0, o, tr), ExecAll(AsBuilt, s.stmts, o), b, k, env);
    }
  }

  lemma {:induction false} AllSim(st: St, ss: seq<Stmt>, env: Env, f: Blocks)
    requires Starts(st, env) && JumpsLast(ss)
    requires forall t :: t in ss ==> Tidy(t) && Scoped(t, ScopeOf(env))
    requires Agrees(f, VisitAll(st, ss, env).bbs, |st.bbs|, st.cur, VisitAll(st, ss, env).cur)
    ensures SimulatesAll(f, st.cur, Stmts(st), ss, VisitAll(st, ss, env).cur, Stmts(VisitAll(st, ss, env)), env)
    decreases ss, 0
  {
    var st' := VisitAll(st, ss, env);
    if ss == [] {
      SimNil(f, st.cur, Stmts(st), env);
    } else {
      hide Visit, Scoped, Simulates, SimulatesAll, Tidy, LeavesEnded, EndsInJump;
      var st1 := Visit(st, ss[0], env);
      assert ss == [ss[0]] + ss[1..];
      VisitFrame(st, ss[0], env);
      AllFrame(st1, ss[1..], env);
      assert forall t :: t in ss[1..] ==> t in ss;
      if EndsInJump(ss[0]) {
        assert forall t :: t in ss[1..] ==> LeavesEnded(t);
      }
      PartAgrees(f, st'.bbs, |st.bbs|, st.cur, st'.cur, st1.bbs, |st.bbs|, st.cur, st1.cur);
      VisitSim(st, ss[0], env, f);
      if !EndsInJump(ss[0]) {
        AllSim(st1, ss[1..], env, f);
      }
      SimCons(f, st.cur, Stmts(st), ss[0], st1.cur, Stmts(st1), ss[1..], st'.cur, Stmts(st'), env);
    }
  }

  // -------- Blocks with a join

  lemma BlockStart(st: St, s: Stmt, env: Env)
    requires Starts(st, env) && Scoped(s, ScopeOf(env)) && Tidy(s) && s.BlockOf?
    ensures var n := |st.bbs|;
            var env1, st1 := PushBreak(env, s.lab, n), Open(st, Block, [], Join2, Uncond, n + 1);
            && Starts(st1, env1) && Stmts(st1) == 0
            && (forall t :: t in s.stmts ==> Scoped(t, ScopeOf(env1)) && Tidy(t)) && JumpsLast(s.stmts)
  {
    var n := |st.bbs|;
    OpenEffect(st, Block, [], Join2, Uncond, n + 1);
    PushOk(env, s.lab, n, 0, n, n + 2);
    ScopedTidyBlock(s, ScopeOf(env));
  }

  lemma ScopedTidyBlock(s: Stmt, sc: Scope)
    requires s.BlockOf? && Scoped(s, sc) && Tidy(s)
    ensures forall t :: t in s.stmts ==> Scoped(t, InLabel(sc, s.lab)) && Tidy(t)
    ensures JumpsLast(s.stmts)
  {
  }

  lemma BlockParts(st: St, s: Stmt, env: Env, f: Blocks, env1: Env, st1: St, st2: St, fin: St)
    requires Starts(st, env) && s.BlockOf? && JumpsLast(s.stmts)
    requires st1 == Open(st, Block, [], Join2, Uncond, |st.bbs| + 1) && Starts(st1, env1)
    requires forall t :: t in s.stmts ==> Scoped(t, ScopeOf(env1)) && Tidy(t)
    requires st2 == VisitAll(st1, s.stmts, env1) && fin == Close(st2, |st.bbs|)
    requires Agrees(f, fin.bbs, |st.bbs|, st.cur, fin.cur)
    ensures Agrees(f, st2.bbs, |st1.bbs|, st1.cur, st2.cur)
    ensures |f[st.cur].stmts| == Stmts(st) && f[st.cur].succs == [|st.bbs| + 1]
    ensures (exists t :: t in s.stmts && EndsInJump(t)) || (|f[st2.cur].stmts| == Stmts(st2) && f[st2.cur].succs == [|st.bbs|])
    ensures Stmts(fin) == 0
  {
    hide Open, AddSuccessor, Tidy, Scoped, VisitAll, Resolve;
    var n := |st.bbs|;
    OpenEffect(st, Block, [], Join2, Uncond, n + 1);
    AllFrame(st1, s.stmts, env1);
    AddSuccessorEffect(st2.bbs, st2.cur, n);
    CompoundKeeps(st.bbs, st1.bbs, st2.bbs, fin.bbs, st.cur, n + 1, {st2.cur}, n);
    PartAgrees(f, fin.bbs, n, st.cur, n, st2.bbs, n + 2, n + 1, st2.cur);
    assert AgreesAt(f[st.cur], fin.bbs[st.cur], false);
    assert AgreesAt(f[st2.cur], fin.bbs[st2.cur], false);
  }

  lemma {:induction false} BlockSim(st: St, s: Stmt, env: Env, f: Blocks)
    requires Starts(st, env) && Scoped(s, ScopeOf(env)) && Tidy(s) && s.BlockOf?
    requires var st' := VisitBlock(st, s.stmts, s.lab, env); Agrees(f, st'.bbs, |st.bbs|, st.cur, st'.cur)
    ensures var st' := VisitBlock(st, s.stmts, s.lab, env); Simulates(f, st.cur, Stmts(st), s, st'.cur, Stmts(st'), env)
    decreases s, 1
  {
    hide Open, Follows, VisitAll, Tidy, Scoped, Close;
    var n := |st.bbs|;
    var env1 := PushBreak(env, s.lab, n);
    var st1 := Open(st, Block, [], Join2, Uncond, n + 1);
    BlockStart(st, s, env);
    var st2 := VisitAll(st1, s.stmts, env1);
    BlockParts(st, s, env, f, env1, st1, st2, Close(st2, n));
    AllSim(st1, s.stmts, env1, f);
    forall o, tr
      ensures Follows(f, Conf(st.cur, Stmts(st), o, tr), Exec(AsBuilt, s, o), n, 0, env)
    {
      var r := ExecAll(AsBuilt, s.stmts, o);
      var c1 := Conf(n + 1, 0, o, tr);
      assert Follows(f, c1, r, st2.cur, Stmts(st2), env1);
      if exists t :: t in s.stmts && EndsInJump(t) {
        NeverNormalAll(s.stmts, o);
        FollowsElsewhere(f, c1, r, st2.cur, Stmts(st2), n, 0, env1);
      } else {
        FollowsEdge(f, c1, r, st2.cur, Stmts(st2), n, env1);
      }
      FollowsLabel(f, c1, r, s.lab, n, env);
      EdgeThen(f, st.cur, Stmts(st), n + 1, AfterLabel(s.lab, r), n, 0, env, o, tr);
    }
  }

  // The walk stands at the end of a block with one edge.
  lemma EdgeThen(f: Blocks, b0: nat, k0: nat, b1: nat, r: Run, b: nat, k: nat, env: Env, o: seq<bool>, tr: seq<nat>)
    requires b0 < |f| && k0 == |f[b0].stmts| && f[b0].succs == [b1]
    requires Follows(f, Conf(b1, 0, o, tr), r, b, k, env)
    ensures Follows(f, Conf(b0, k0, o, tr), r, b, k, env)
  {
    LeadsNext(f, Conf(b0, k0, o, tr));
    assert tr + [] == tr;
    FollowsAfter(f, Conf(b0, k0, o, tr), [], Conf(b1, 0, o, tr), r, b, k, env);
    assert Prefix([], r) == r;
  }

  // -------- Loops

  lemma LoopStart(st: St, stmts: seq<nat>, lab: Option<nat>, env: Env)
    requires Starts(st, env)
    ensures var n := |st.bbs|;
            var env1, st1 := PushLoop(env, lab, n + 2, n), Open(EnterLoop(st), LoopHeader, stmts, Uncond, Join, n + 1);
            Starts(st1, env1) && Stmts(st1) == 0 && ScopeOf(env1) == InLoop(ScopeOf(env), lab)
  {
    LoopOpens(st, stmts);
    PushOk(env, lab, |st.bbs| + 2, |st.bbs|, |st.bbs|, |st.bbs| + 3);
  }

  // The part of a loop its body was built in.
  lemma LoopAgrees(f: Blocks, o: Blocks, a: Blocks, b: Blocks, c: Blocks, cur: nat, x: nat)
    requires cur < |o| && |a| == |o| + 3 && Keeps(a, b, {|o| + 1}) && Keeps(b, c, {x, |o|}) && |b| <= |c|
    requires (x == |o| + 1 || x >= |o| + 3) && x < |b| && Grows(b[x], c[x])
    requires Agrees(f, c, |o|, cur, |o| + 2)
    ensures Agrees(f, b, |o| + 3, |o| + 1, x) && |c| <= |f|
    ensures AgreesAt(f[cur], c[cur], false) && AgreesAt(f[|o|], c[|o|], false) && AgreesAt(f[x], c[x], false)
  {
    PartAgrees(f, c, |o|, cur, |o| + 2, b, |o| + 3, |o| + 1, x);
  }

  lemma LoopParts(st: St, cond: Option<nat>, body: Stmt, updates: seq<nat>, env: Env, f: Blocks,
                  env1: Env, st1: St, st2: St, fin: St)
    requires Starts(st, env) && Starts(st1, env1) && Scoped(body, ScopeOf(env1)) && Tidy(body)
    requires st1 == Open(EnterLoop(st), LoopHeader, CondList(cond), Uncond, Join, |st.bbs| + 1)
    requires st2 == Visit(st1, body, env1) && |st2.bbs| >= |st.bbs| + 3
    requires fin == LeaveLoop(AddAll(st2, updates), |st.bbs|, |st.bbs| + 2)
    requires Agrees(f, fin.bbs, |st.bbs|, st.cur, fin.cur)
    ensures Agrees(f, st2.bbs, |st1.bbs|, st1.cur, st2.cur)
    ensures |f[st.cur].stmts| == Stmts(st) && f[st.cur].succs == [|st.bbs|]
    ensures Branches(f, |st.bbs|, 0, cond, |st.bbs| + 1, |st.bbs| + 2)
    ensures LoopsBack(f, body, st2.cur, Stmts(st2), updates, |st.bbs|)
    ensures Stmts(fin) == 0
  {
    hide Visit, Open, EnterLoop, LeaveLoop, AddAll, Scoped, Resolve, Tidy, Frame, Agrees, EndsInJump, Keeps;
    var n := |st.bbs|;
    LoopOpens(st, CondList(cond));
    BodyFrame(st1, st2, body, env1);
    LeaveEffect(st2, updates, n, n + 2);
    HeaderKept(st1.bbs, st2.bbs, n);
    LoopShape(st.bbs, st1.bbs, st2.bbs, fin.bbs, f, st.cur, st2.cur, {st2.cur, n});
  }

  lemma HeaderKept(a: Blocks, b: Blocks, n: nat)
    requires |a| == n + 3 && Keeps(a, b, {n + 1})
    ensures Same(a[n], b[n]) && Same(a[n + 2], b[n + 2])
  {
  }

  // What a finished graph has of a loop: the block before it, its header and the end of its body.
  lemma LoopShape(o: Blocks, a: Blocks, b: Blocks, c: Blocks, f: Blocks, cur: nat, x: nat, y: set<nat>)
    requires cur < |o| && |a| == |o| + 3 && a[cur].succs == [|o|] && a[cur].stmts == o[cur].stmts && a[|o| + 2].stmts == []
    requires Keeps(a, b, {|o| + 1}) && Keeps(b, c, y) && (y == {x, |o|} || y == {x})
    requires (x == |o| + 1 || x >= |o| + 3) && x < |b| && Grows(b[x], c[x])
    requires Agrees(f, c, |o|, cur, |o| + 2)
    ensures Agrees(f, b, |a|, |o| + 1, x)
    ensures f[cur].stmts == o[cur].stmts && f[cur].succs == [|o|]
    ensures f[|o|].stmts == c[|o|].stmts && f[|o|].succs == c[|o|].succs
    ensures f[x].stmts == c[x].stmts && f[x].succs == c[x].succs
    ensures c[|o| + 2].stmts == []
  {
    LoopAgrees(f, o, a, b, c, cur, x);
  }

  // What the frame says of a loop body.
  lemma BodyFrame(st: St, st': St, s: Stmt, env: Env)
    requires Starts(st, env) && Scoped(s, ScopeOf(env)) && Tidy(s) && st' == Visit(st, s, env)
    ensures Keeps(st.bbs, st'.bbs, {st.cur}) && st'.cur < |st'.bbs|
    ensures st'.cur == st.cur || st'.cur >= |st.bbs|
    ensures EndsInJump(s) || OpenBB(st'.bbs[st'.cur])
  {
    VisitFrame(st, s, env);
  }

  lemma {:induction false} LoopSim(st: St, cond: Option<nat>, body: Stmt, updates: seq<nat>, lab: Option<nat>, env: Env, f: Blocks)
    requires Starts(st, env) && Scoped(body, InLoop(ScopeOf(env), lab)) && Tidy(body)
    requires var st' := VisitLoop(st, cond, body, updates, lab, env); Agrees(f, st'.bbs, |st.bbs|, st.cur, st'.cur)
    ensures var st' := VisitLoop(st, cond, body, updates, lab, env);
            forall o, tr :: Follows(f, Conf(st.cur, Stmts(st), o, tr), ExecLoop(AsBuilt, cond, body, updates, lab, o), st'.cur, Stmts(st'), env)
    decreases body, 3
  {
    hide Visit, Open, EnterLoop, LeaveLoop, AddAll, Exec, ExecLoop, Scoped, Follows, Simulates;
    var n := |st.bbs|;
    var env1 := PushLoop(env, lab, n + 2, n);
    var st1 := Open(EnterLoop(st), LoopHeader, CondList(cond), Uncond, Join, n + 1);
    LoopStart(st, CondList(cond), lab, env);
    var st2 := Visit(st1, body, env1);
    LoopParts(st, cond, body, updates, env, f, env1, st1, st2, LeaveLoop(AddAll(st2, updates), n, n + 2));
    VisitSim(st1, body, env1, f);
    forall o, tr
      ensures Follows(f, Conf(st.cur, Stmts(st), o, tr), ExecLoop(AsBuilt, cond, body, updates, lab, o), n + 2, 0, env)
    {
      SimLoop(f, n, cond, body, updates, lab, n + 1, n + 2, st2.cur, Stmts(st2), env, o, tr);
      EdgeThen(f, st.cur, Stmts(st), n, ExecLoop(AsBuilt, cond, body, updates, lab, o), n + 2, 0, env, o, tr);
    }
  }

  lemma {:induction false} ForSim(st: St, s: Stmt, env: Env, f: Blocks)
    requires Starts(st, env) && s.For? && Scoped(s.body, InLoop(ScopeOf(env), s.lab)) && Tidy(s.body)
    requires var st' := VisitLoop(AddAll(st, s.inits), s.cond, s.body, s.updates, s.lab, env);
             Agrees(f, st'.bbs, |st.bbs|, st.cur, st'.cur)
    ensures var st' := VisitLoop(AddAll(st, s.inits), s.cond, s.body, s.updates, s.lab, env);
            Simulates(f, st.cur, Stmts(st), s, st'.cur, Stmts(st'), env)
    decreases s, 1
  {
    hide VisitLoop, Exec, ExecLoop, Follows, Scoped, Resolve, Open;
    var st1, b := AddAll(st, s.inits), st.cur;
    var st' := VisitLoop(st1, s.cond, s.body, s.updates, s.lab, env);
    AddStatementsEffect(st.bbs, b, s.inits);
    VisitLoopFrame(st1, s.cond, s.body, s.updates, s.lab, env);
    LoopSim(st1, s.cond, s.body, s.updates, s.lab, env, f);
    assert AgreesAt(f[b], st'.bbs[b], false);
    forall o, tr
      ensures Follows(f, Conf(b, Stmts(st), o, tr), Exec(AsBuilt, s, o), st'.cur, Stmts(st'), env)
    {
      LeadsStmts(f, b, Stmts(st), o, tr, s.inits);
      var c1 := Conf(b, Stmts(st1), o, tr + s.inits);
      var r := ExecLoop(AsBuilt, s.cond, s.body, s.updates, s.lab, o);
      assert Follows(f, c1, r, st'.cur, Stmts(st'), env);
      FollowsAfter(f, Conf(b, Stmts(st), o, tr), s.inits, c1, r, st'.cur, Stmts(st'), env);
      ExecFor(s, o);
    }
  }

  lemma ExecFor(s: Stmt, o: seq<bool>)
    requires s.For?
    ensures Exec(AsBuilt, s, o) == Prefix(s.inits, ExecLoop(AsBuilt, s.cond, s.body, s.updates, s.lab, o))
  {
  }

  lemma DoParts(st: St, cond: Option<nat>, body: Stmt, env: Env, f: Blocks, env1: Env, st1: St, st2: St, fin: St)
    requires Starts(st, env) && Starts(st1, env1) && Scoped(body, ScopeOf(env1)) && Tidy(body)
    requires st1 == Open(EnterLoop(st), LoopHeader, [], Uncond, Join, |st.bbs| + 1)
    requires st2 == Visit(st1, body, env1) && |st2.bbs| >= |st.bbs| + 3
    requires fin == LeaveDo(AddAll(st2, CondList(cond)), |st.bbs|, |st.bbs| + 2)
    requires Agrees(f, fin.bbs, |st.bbs|, st.cur, fin.cur)
    ensures Agrees(f, st2.bbs, |st1.bbs|, st1.cur, st2.cur)
    ensures |f[st.cur].stmts| == Stmts(st) && f[st.cur].succs == [|st.bbs|]
    ensures f[|st.bbs|].stmts == [] && f[|st.bbs|].succs == [|st.bbs| + 1]
    ensures LoopsDown(f, body, st2.cur, Stmts(st2), cond, |st.bbs|, |st.bbs| + 2)
    ensures Stmts(fin) == 0
  {
    hide Visit, Open, EnterLoop, LeaveDo, AddAll, Scoped, Resolve, Tidy, Frame, Agrees, EndsInJump, Keeps;
    var n := |st.bbs|;
    LoopOpens(st, []);
    BodyFrame(st1, st2, body, env1);
    LeaveDoEffect(st2, CondList(cond), n, n + 2);
    HeaderKept(st1.bbs, st2.bbs, n);
    DoHeaderKept(st2.bbs, fin.bbs, n, st2.cur);
    LoopShape(st.bbs, st1.bbs, st2.bbs, fin.bbs, f, st.cur, st2.cur, {st2.cur});
  }

  lemma DoHeaderKept(a: Blocks, b: Blocks, n: nat, x: nat)
    requires n < |a| && n != x && Keeps(a, b, {x})
    ensures Same(a[n], b[n])
  {
  }

  lemma {:induction false} DoSim(st: St, s: Stmt, env: Env, f: Blocks)
    requires Starts(st, env) && Scoped(s, ScopeOf(env)) && Tidy(s) && s.Do?
    requires var st' := VisitDo(st, s.body, s.cond, s.lab, env); Agrees(f, st'.bbs, |st.bbs|, st.cur, st'.cur)
    ensures var st' := VisitDo(st, s.body, s.cond, s.lab, env); Simulates(f, st.cur, Stmts(st), s, st'.cur, Stmts(st'), env)
    decreases s, 1
  {
    hide Visit, Open, EnterLoop, LeaveDo, AddAll, ExecDo, Follows;
    var n := |st.bbs|;
    var env1 := PushLoop(env, s.lab, n + 2, n);
    var st1 := Open(EnterLoop(st), LoopHeader, [], Uncond, Join, n + 1);
    LoopStart(st, [], s.lab, env);
    var st2 := Visit(st1, s.body, env1);
    DoParts(st, s.cond, s.body, env, f, env1, st1, st2, LeaveDo(AddAll(st2, CondList(s.cond)), n, n + 2));
    VisitSim(st1, s.body, env1, f);
    forall o, tr
      ensures Follows(f, Conf(st.cur, Stmts(st), o, tr), Exec(AsBuilt, s, o), n + 2, 0, env)
    {
      SimDo(f, n, s.body, s.cond, s.lab, n + 1, n + 2, st2.cur, Stmts(st2), env, o, tr);
      EdgeThen(f, st.cur, Stmts(st), n, ExecDo(AsBuilt, s.body, s.cond, s.lab, o), n + 2, 0, env, o, tr);
    }
  }

  // -------- Branches

  lemma ScopedTidyIf(s: Stmt, sc: Scope)
    requires s.If? && Scoped(s, sc) && Tidy(s)
    ensures Scoped(s.thn, InLabel(sc, s.lab)) && Tidy(s.thn)
    ensures s.els.Some? ==> Scoped(s.els.value, InLabel(sc, s.lab)) && Tidy(s.els.value)
  {
  }

  lemma IfStart(st: St, s: Stmt, env: Env)
    requires Starts(st, env) && s.If?
    ensures var n := |st.bbs|;
            var env1, st1 := PushBreak(env, s.lab, n + 1), Open(st, Branch, CondList(s.cond), Uncond, Join2, n);
            Starts(st1, env1) && Stmts(st1) == 0 && ScopeOf(env1) == InLabel(ScopeOf(env), s.lab)
  {
    OpenEffect(st, Branch, CondList(s.cond), Uncond, Join2, |st.bbs|);
    PushOk(env, s.lab, |st.bbs| + 1, 0, |st.bbs|, |st.bbs| + 2);
  }

  // After the true branch: `a` once the branch is open, `b` and `c` before and after its end leads
  // to the join, `fin` when all is built.
  lemma ThenAgrees(f: Blocks, a: Blocks, b: Blocks, c: Blocks, fin: Blocks, n: nat, cur: nat, x: nat)
    requires cur < n && |a| == n + 2 && Keeps(a, b, {n}) && Keeps(b, c, {x}) && Keeps(c, fin, {cur})
    requires (x == n || x >= n + 2) && x < |b| && Grows(b[x], c[x]) && |c| <= |fin|
    requires Agrees(f, fin, n, cur, n + 1)
    ensures Agrees(f, b, n + 2, n, x)
    ensures AgreesAt(f[cur], fin[cur], false) && AgreesAt(f[x], c[x], false)
    ensures Same(a[n + 1], c[n + 1]) && Same(c[n + 1], fin[n + 1])
  {
    assert Same(c[x], fin[x]);
    PartAgrees(f, fin, n, cur, n + 1, b, n + 2, n, x);
    assert AgreesAt(f[x], fin[x], false);
  }

  // `fin` continues `st3`, reached when the true branch is closed, by an edge to `no`.
  lemma ThenParts(st: St, s: Stmt, env: Env, f: Blocks, env1: Env, st1: St, st2: St, st3: St, fin: Blocks, no: nat)
    requires Starts(st, env) && s.If? && Starts(st1, env1) && Scoped(s.thn, ScopeOf(env1)) && Tidy(s.thn)
    requires st1 == Open(st, Branch, CondList(s.cond), Uncond, Join2, |st.bbs|)
    requires st2 == Visit(st1, s.thn, env1) && st3 == Close(st2, |st.bbs| + 1)
    requires Keeps(st3.bbs, fin, {st.cur}) && fin[st.cur].stmts == st3.bbs[st.cur].stmts
    requires fin[st.cur].succs == st3.bbs[st.cur].succs + [no]
    requires Agrees(f, fin, |st.bbs|, st.cur, |st.bbs| + 1)
    ensures Agrees(f, st2.bbs, |st1.bbs|, st1.cur, st2.cur)
    ensures Continues1(f, s.thn, st2.cur, Stmts(st2), |st.bbs| + 1)
    ensures Branches(f, st.cur, Stmts(st), s.cond, |st.bbs|, no)
    ensures fin[|st.bbs| + 1].stmts == []
  {
    hide Visit, Open, AddSuccessor, Scoped, Resolve, Tidy;
    var n := |st.bbs|;
    OpenEffect(st, Branch, CondList(s.cond), Uncond, Join2, n);
    VisitFrame(st1, s.thn, env1);
    AddSuccessorEffect(st2.bbs, st2.cur, n + 1);
    IfThenKeeps(st.bbs, st1.bbs, st2.bbs, st3.bbs, st.cur, n, st2.cur);
    ThenAgrees(f, st1.bbs, st2.bbs, st3.bbs, fin, n, st.cur, st2.cur);
  }

  // The true branch is closed; the block that branches has one edge so far.
  lemma ThenEnds(st: St, s: Stmt, env: Env, env1: Env, st1: St, st2: St, st3: St)
    requires Starts(st, env) && s.If? && Starts(st1, env1) && Scoped(s.thn, ScopeOf(env1)) && Tidy(s.thn)
    requires st1 == Open(st, Branch, CondList(s.cond), Uncond, Join2, |st.bbs|)
    requires st2 == Visit(st1, s.thn, env1) && st3 == Close(st2, |st.bbs| + 1)
    ensures Keeps(st.bbs, st3.bbs, {st.cur}) && st3.bbs[st.cur].kind == Branch && OkEnv(env1, |st3.bbs|)
  {
    hide Visit, Open, AddSuccessor, Scoped, Resolve, Tidy;
    var n := |st.bbs|;
    OpenEffect(st, Branch, CondList(s.cond), Uncond, Join2, n);
    VisitFrame(st1, s.thn, env1);
    AddSuccessorEffect(st2.bbs, st2.cur, n + 1);
    IfThenKeeps(st.bbs, st1.bbs, st2.bbs, st3.bbs, st.cur, n, st2.cur);
  }

  // Building the false branch changes the block that branches, and new blocks.
  lemma ElseKeeps(st: St, st3: St, s: Stmt, env: Env, join: nat, st4: St, st5: St, fin: Blocks)
    requires st.cur < |st.bbs| && Keeps(st.bbs, st3.bbs, {st.cur}) && st3.bbs[st.cur].kind == Branch
    requires OkEnv(env, |st3.bbs|) && |st.bbs| <= join < |st3.bbs|
    requires Scoped(s, ScopeOf(env)) && Resolve(env.throws, 0) == Some(env.exit)
    requires st4 == Branch2(st3, st.cur) && OkSt(st4, env) && st5 == Visit(st4, s, env) && fin == Close(st5, join).bbs
    ensures Keeps(st3.bbs, fin, {st.cur}) && fin[st.cur].stmts == st3.bbs[st.cur].stmts
    ensures fin[st.cur].succs == st3.bbs[st.cur].succs + [|st3.bbs|]
    ensures Starts(st4, env) && Stmts(st4) == 0
    ensures Frame(st4, st5, s) && Keeps(st5.bbs, fin, {st5.cur}) && Grows(st5.bbs[st5.cur], fin[st5.cur])
    ensures fin[st5.cur].stmts == st5.bbs[st5.cur].stmts
    ensures !st5.bbs[st5.cur].kind.Terminated? ==> fin[st5.cur].succs == st5.bbs[st5.cur].succs + [join]
  {
    hide Visit, AddSuccessor, Scoped, Resolve, Tidy, LeavesEnded, EndsInJump;
    AddSuccessorEffect(NewBB(st3.bbs, Uncond), st.cur, |st3.bbs|);
    VisitFrame(st4, s, env);
    AddSuccessorEffect(st5.bbs, st5.cur, join);
  }

  lemma ElseAgrees(f: Blocks, st4: St, st5: St, s: Stmt, fin: Blocks, n: nat, cur: nat)
    requires Frame(st4, st5, s) && Tidy(s) && OpenBB(st4.bbs[st4.cur]) && n + 1 < st4.cur == |st4.bbs| - 1 && cur < n
    requires Keeps(st5.bbs, fin, {st5.cur}) && Grows(st5.bbs[st5.cur], fin[st5.cur])
    requires fin[st5.cur].stmts == st5.bbs[st5.cur].stmts
    requires !st5.bbs[st5.cur].kind.Terminated? ==> fin[st5.cur].succs == st5.bbs[st5.cur].succs + [n + 1]
    requires Agrees(f, fin, n, cur, n + 1)
    ensures Agrees(f, st5.bbs, |st4.bbs|, st4.cur, st5.cur)
    ensures Continues1(f, s, st5.cur, |st5.bbs[st5.cur].stmts|, n + 1)
  {
    hide Tidy, LeavesEnded;
    PartAgrees(f, fin, n, cur, n + 1, st5.bbs, |st4.bbs|, st4.cur, st5.cur);
    assert AgreesAt(f[st5.cur], fin[st5.cur], false);
  }

  lemma {:induction false} IfSim(st: St, s: Stmt, env: Env, f: Blocks)
    requires Starts(st, env) && Scoped(s, ScopeOf(env)) && Tidy(s) && s.If?
    requires Agrees(f, VisitIf(st, s, env).bbs, |st.bbs|, st.cur, VisitIf(st, s, env).cur)
    ensures Simulates(f, st.cur, Stmts(st), s, VisitIf(st, s, env).cur, Stmts(VisitIf(st, s, env)), env)
    decreases s, 1
  {
    hide Visit, Open, AddSuccessor, Simulates, Agrees, Scoped, Tidy, Branches, Continues1, Follows, Resolve;
    var n := |st.bbs|;
    var env1 := PushBreak(env, s.lab, n + 1);
    var st1 := Open(st, Branch, CondList(s.cond), Uncond, Join2, n);
    ScopedTidyIf(s, ScopeOf(env));
    IfStart(st, s, env);
    var st2 := Visit(st1, s.thn, env1);
    var st3 := Close(st2, n + 1);
    ThenEnds(st, s, env, env1, st1, st2, st3);
    if s.els.None? {
      AddSuccessorEffect(st3.bbs, st.cur, n + 1);
      ThenParts(st, s, env, f, env1, st1, st2, st3, AddSuccessor(st3.bbs, st.cur, n + 1), n + 1);
      VisitSim(st1, s.thn, env1, f);
      SimIf(f, st.cur, Stmts(st), s, n, st2.cur, Stmts(st2), n + 1, 0, 0, n + 1, env);
    } else {
      var st4 := Branch2(st3, st.cur);
      var st5 := Visit(st4, s.els.value, env1);
      var fin := Close(st5, n + 1).bbs;
      ElseKeeps(st, st3, s.els.value, env1, n + 1, st4, st5, fin);
      ThenParts(st, s, env, f, env1, st1, st2, st3, fin, |st3.bbs|);
      VisitSim(st1, s.thn, env1, f);
      ElseAgrees(f, st4, st5, s.els.value, fin, n, st.cur);
      VisitSim(st4, s.els.value, env1, f);
      SimIf(f, st.cur, Stmts(st), s, n, st2.cur, Stmts(st2), |st3.bbs|, st5.cur, Stmts(st5), n + 1, env);
    }
  }
}
