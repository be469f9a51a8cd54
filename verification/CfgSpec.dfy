/** The graph the builder makes for a statement, as a function of the blocks made before. */
module CfgSpec {
  import opened Options
  import opened CfgBlocks
  import opened CfgSource
  import opened CfgSim

  // The blocks made so far, and the one that receives the next statement.
  datatype St = St(bbs: Blocks, cur: nat)

  predicate OkTargets(stack: seq<Target>, n: nat) {
    forall e :: e in stack ==> e.bb < n
  }

  predicate OkEnv(env: Env, n: nat) {
    OkTargets(env.breaks, n) && OkTargets(env.conts, n) && OkTargets(env.throws, n) && env.exit < n
  }

  lemma ResolveOk(stack: seq<Target>, t: nat, n: nat)
    requires OkTargets(stack, n)
    ensures Resolve(stack, t).Some? ==> Resolve(stack, t).value < n
    decreases |stack|
  {
    if stack != [] { ResolveOk(stack[..|stack| - 1], t, n); }
  }

  predicate OkSt(st: St, env: Env) {
    st.cur < |st.bbs| && OkEnv(env, |st.bbs|)
  }

  lemma PushOk(env: Env, lab: Option<nat>, exit: nat, header: nat, n: nat, m: nat)
    requires OkEnv(env, n) && n <= m && exit < m && header < m
    ensures OkEnv(PushLoop(env, lab, exit, header), m) && OkEnv(PushBreak(env, lab, exit), m)
    ensures PushLoop(env, lab, exit, header).throws == PushBreak(env, lab, exit).throws == env.throws
    ensures PushLoop(env, lab, exit, header).exit == PushBreak(env, lab, exit).exit == env.exit
    ensures ScopeOf(PushBreak(env, lab, exit)) == InLabel(ScopeOf(env), lab)
    ensures ScopeOf(PushLoop(env, lab, exit, header)) == InLoop(ScopeOf(env), lab)
  {
    ScopePush(env, lab, exit, header);
  }

  // The current block ends in `stmt` and an edge to `target`.
  function JumpTo(st: St, stmt: nat, target: Option<nat>): (r: St)
    requires st.cur < |st.bbs| && (target.Some? ==> target.value < |st.bbs|)
    ensures |r.bbs| == |st.bbs| && r.cur == st.cur
  {
    var bbs1 := AddStatement(st.bbs, st.cur, stmt);
    var bbs2 := if target.Some? then AddSuccessor(bbs1, st.cur, target.value) else bbs1;
    St(SetKind(bbs2, st.cur, Terminated), st.cur)
  }

  // The current block becomes a `kind` block ending in `stmts`; two blocks are made, and the
  // current block leads into one of them.
  function Open(st: St, kind: BBKind, stmts: seq<nat>, a: BBKind, b: BBKind, into: nat): (r: St)
    requires st.cur < |st.bbs| && |st.bbs| <= into < |st.bbs| + 2
    ensures |r.bbs| == |st.bbs| + 2 && r.cur == into
  {
    var bbs1 := AddStatements(SetKind(st.bbs, st.cur, kind), st.cur, stmts);
    St(AddSuccessor(NewBB(NewBB(bbs1, a), b), st.cur, into), into)
  }

  // Make a block for an edge from block `from`, and go on there.
  function Branch2(st: St, from: nat): (r: St)
    requires from < |st.bbs|
    ensures |r.bbs| == |st.bbs| + 1 && r.cur == |st.bbs|
  {
    St(AddSuccessor(NewBB(st.bbs, Uncond), from, |st.bbs|), |st.bbs|)
  }

  // The current block leads to `next`, where building goes on.
  function Close(st: St, next: nat): (r: St)
    requires st.cur < |st.bbs| && next < |st.bbs|
    ensures |r.bbs| == |st.bbs| && r.cur == next
  {
    St(AddSuccessor(st.bbs, st.cur, next), next)
  }

  function AddAll(st: St, stmts: seq<nat>): (r: St)
    requires st.cur < |st.bbs|
    ensures |r.bbs| == |st.bbs| && r.cur == st.cur
  {
    St(AddStatements(st.bbs, st.cur, stmts), st.cur)
  }

  // Enter a loop header.
  function EnterLoop(st: St): (r: St)
    requires st.cur < |st.bbs|
    ensures |r.bbs| == |st.bbs| + 1 && r.cur == |st.bbs|
  {
    var bbs1 := NewBB(st.bbs, LoopHeader);
    St(AddSuccessor(bbs1, st.cur, |st.bbs|), |st.bbs|)
  }

  // The last block of the body leads back to the header; building goes on at the loop exit.
  function LeaveLoop(st: St, header: nat, exit: nat): (r: St)
    requires st.cur < |st.bbs| && header < |st.bbs| && exit < |st.bbs|
    ensures |r.bbs| == |st.bbs| && r.cur == exit
  {
    St(AddSuccessor(AddSuccessor(st.bbs, st.cur, header), header, exit), exit)
  }

  function LeaveDo(st: St, header: nat, exit: nat): (r: St)
    requires st.cur < |st.bbs| && header < |st.bbs| && exit < |st.bbs|
    ensures |r.bbs| == |st.bbs| && r.cur == exit
  {
    St(AddSuccessor(AddSuccessor(st.bbs, st.cur, header), st.cur, exit), exit)
  }

  function Visit(st: St, s: Stmt, env: Env): (st': St)
    requires OkSt(st, env)
    ensures |st.bbs| <= |st'.bbs| && st'.cur < |st'.bbs|
    decreases s, 2
  {
    ResolveOk(env.throws, 0, |st.bbs|);
    match s
    case Simple(id) => AddAll(st, [id])
    case Return(id) => JumpTo(st, id, Some(env.exit))
    case Throw(id) => JumpTo(st, id, Resolve(env.throws, 0))
    case Break(id, t) => ResolveOk(env.breaks, t, |st.bbs|); JumpTo(st, id, Resolve(env.breaks, t))
    case Continue(id, t) => ResolveOk(env.conts, t, |st.bbs|); JumpTo(st, id, Resolve(env.conts, t))
    case If(_, _, _, _) => VisitIf(st, s, env)
    case While(cond, body, lab) => VisitLoop(st, cond, body, [], lab, env)
    case For(inits, cond, body, updates, lab) => VisitLoop(AddAll(st, inits), cond, body, updates, lab, env)
    case Do(body, cond, lab) => VisitDo(st, body, cond, lab, env)
    case BlockOf(stmts, lab, lexical) =>
      if !lexical && lab.None? then VisitAll(st, stmts, env) else VisitBlock(st, stmts, lab, env)
  }

  function VisitIf(st: St, s: Stmt, env: Env): (st': St)
    requires OkSt(st, env) && s.If?
    ensures |st.bbs| <= |st'.bbs| && st'.cur < |st'.bbs|
    decreases s, 1
  {
    var n := |st.bbs|;
    var env1 := PushBreak(env, s.lab, n + 1);
    var st1 := Visit(Open(st, Branch, CondList(s.cond), Uncond, Join2, n), s.thn, env1);
    var st2 := Close(st1, n + 1);
    if s.els.None? then St(AddSuccessor(st2.bbs, st.cur, n + 1), n + 1)
    else Close(Visit(Branch2(st2, st.cur), s.els.value, env1), n + 1)
  }

  function VisitDo(st: St, body: Stmt, cond: Option<nat>, lab: Option<nat>, env: Env): (st': St)
    requires OkSt(st, env)
    ensures |st.bbs| <= |st'.bbs| && st'.cur < |st'.bbs|
    decreases body, 3
  {
    var n := |st.bbs|;
    var st1 := Open(EnterLoop(st), LoopHeader, [], Uncond, Join, n + 1);
    var st2 := Visit(st1, body, PushLoop(env, lab, n + 2, n));
    LeaveDo(AddAll(st2, CondList(cond)), n, n + 2)
  }

  function VisitBlock(st: St, stmts: seq<Stmt>, lab: Option<nat>, env: Env): (st': St)
    requires OkSt(st, env)
    ensures |st.bbs| <= |st'.bbs| && st'.cur < |st'.bbs|
    decreases stmts, 3
  {
    var n := |st.bbs|;
    Close(VisitAll(Open(st, Block, [], Join2, Uncond, n + 1), stmts, PushBreak(env, lab, n)), n)
  }

  function VisitLoop(st: St, cond: Option<nat>, body: Stmt, updates: seq<nat>, lab: Option<nat>, env: Env): (st': St)
    requires OkSt(st, env)
    ensures |st.bbs| <= |st'.bbs| && st'.cur < |st'.bbs|
    decreases body, 3
  {
    var n := |st.bbs|;
    var st1 := Open(EnterLoop(st), LoopHeader, CondList(cond), Uncond, Join, n + 1);
    var st2 := Visit(st1, body, PushLoop(env, lab, n + 2, n));
    LeaveLoop(AddAll(st2, updates), n, n + 2)
  }

  function VisitAll(st: St, ss: seq<Stmt>, env: Env): (st': St)
    requires OkSt(st, env)
    ensures |st.bbs| <= |st'.bbs| && st'.cur < |st'.bbs|
    decreases ss, 0
  {
    if ss == [] then st else VisitAll(Visit(st, ss[0], env), ss[1..], env)
  }

  // -------- What building keeps

  predicate Same(a: CfgBB, b: CfgBB) {
    a.kind == b.kind && a.stmts == b.stmts && a.succs == b.succs
  }

  predicate Grows(a: CfgBB, b: CfgBB) {
    a.stmts <= b.stmts && a.succs <= b.succs && (a.kind.Terminated? ==> b.kind.Terminated? && Same(a, b))
  }

  // Blocks outside `x` stay as they were, but for edges into them.
  ghost predicate Keeps(a: Blocks, b: Blocks, x: set<nat>) {
    |a| <= |b| && forall i: nat :: i < |a| && i !in x ==> Same(a[i], b[i])
  }

  predicate OpenBB(bb: CfgBB) {
    !bb.kind.Terminated? && bb.succs == []
  }

  lemma KeepsTrans(a: Blocks, b: Blocks, c: Blocks, x: set<nat>, y: set<nat>)
    requires Keeps(a, b, x) && Keeps(b, c, y)
    ensures Keeps(a, c, x + y)
  {
  }

  predicate EndOK(bb: CfgBB) {
    bb.kind.Terminated? || OpenBB(bb)
  }

  // What a visit does to the blocks: only the current block and new ones change, and the block it
  // ends in is open unless the statement ends in a jump.
  ghost predicate Frame(st: St, st': St, s: Stmt) {
    && Keeps(st.bbs, st'.bbs, {st.cur}) && st'.cur < |st'.bbs| && st.cur < |st.bbs|
    && (st'.cur == st.cur || st'.cur >= |st.bbs|)
    && (st.bbs[st.cur].kind.Terminated? && LeavesEnded(s) ==>
          Same(st.bbs[st.cur], st'.bbs[st.cur]) && (Tidy(s) ==> EndOK(st'.bbs[st'.cur])))
    && (OpenBB(st.bbs[st.cur]) && Tidy(s) ==>
          && st.bbs[st.cur].stmts <= st'.bbs[st.cur].stmts
          && EndOK(st'.bbs[st'.cur]) && (!EndsInJump(s) ==> OpenBB(st'.bbs[st'.cur])))
  }

  // The effect of the small steps on the blocks.
  lemma AddStatementsEffect(bbs: Blocks, b: nat, stmts: seq<nat>)
    requires b < |bbs|
    ensures var r := AddStatements(bbs, b, stmts);
            Keeps(bbs, r, {b}) && Grows(bbs[b], r[b]) && r[b].kind == bbs[b].kind && r[b].succs == bbs[b].succs
            && (!bbs[b].kind.Terminated? ==> r[b].stmts == bbs[b].stmts + stmts)
  {
  }

  lemma AddSuccessorEffect(bbs: Blocks, b: nat, c: nat)
    requires b < |bbs| && c < |bbs|
    ensures var r := AddSuccessor(bbs, b, c);
            Keeps(bbs, r, {b}) && Grows(bbs[b], r[b]) && r[b].kind == bbs[b].kind && r[b].stmts == bbs[b].stmts
            && (!bbs[b].kind.Terminated? ==> r[b].succs == bbs[b].succs + [c])
  {
  }

  lemma OpenEffect(st: St, kind: BBKind, stmts: seq<nat>, a: BBKind, b: BBKind, into: nat)
    requires st.cur < |st.bbs| && |st.bbs| <= into < |st.bbs| + 2 && !kind.Terminated?
    ensures var r, n := Open(st, kind, stmts, a, b, into), |st.bbs|;
            && Keeps(st.bbs, r.bbs, {st.cur}) && r.cur == into && |r.bbs| == n + 2
            && r.bbs[n].kind == a && r.bbs[n].stmts == [] && r.bbs[n].succs == []
            && r.bbs[n + 1].kind == b && r.bbs[n + 1].stmts == [] && r.bbs[n + 1].succs == []
            && r.bbs[st.cur].kind == kind && r.bbs[st.cur].stmts == st.bbs[st.cur].stmts + stmts
            && r.bbs[st.cur].succs == st.bbs[st.cur].succs + [into]
  {
    var bbs1 := SetKind(st.bbs, st.cur, kind);
    AddStatementsEffect(bbs1, st.cur, stmts);
    var bbs2 := AddStatements(bbs1, st.cur, stmts);
    var bbs3 := NewBB(NewBB(bbs2, a), b);
    AddSuccessorEffect(bbs3, st.cur, into);
  }

  lemma EnterLoopEffect(st: St)
    requires st.cur < |st.bbs|
    ensures var r, n := EnterLoop(st), |st.bbs|;
            && Keeps(st.bbs, r.bbs, {st.cur}) && Grows(st.bbs[st.cur], r.bbs[st.cur])
            && r.bbs[st.cur].stmts == st.bbs[st.cur].stmts
            && r.bbs[n].kind == LoopHeader && r.bbs[n].stmts == [] && r.bbs[n].succs == []
            && (!st.bbs[st.cur].kind.Terminated? ==> r.bbs[st.cur].succs == st.bbs[st.cur].succs + [n])
  {
    AddSuccessorEffect(NewBB(st.bbs, LoopHeader), st.cur, |st.bbs|);
  }

  lemma JumpEffect(st: St, stmt: nat, target: nat)
    requires st.cur < |st.bbs| && target < |st.bbs|
    ensures var r := JumpTo(st, stmt, Some(target));
            && Keeps(st.bbs, r.bbs, {st.cur}) && r.bbs[st.cur].kind == Terminated
            && (st.bbs[st.cur].kind.Terminated? ==> Same(st.bbs[st.cur], r.bbs[st.cur]))
            && (OpenBB(st.bbs[st.cur]) ==> r.bbs[st.cur].stmts == st.bbs[st.cur].stmts + [stmt]
                                           && r.bbs[st.cur].succs == [target])
  {
    var bbs1 := AddStatement(st.bbs, st.cur, stmt);
    AddSuccessorEffect(bbs1, st.cur, target);
  }
}
