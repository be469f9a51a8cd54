/** The builder itself: it walks the statements of a function, updates the table of blocks in place
    and keeps the target stacks of break, continue and throw. */
module CfgBuild {
  import opened Options
  import opened CfgBlocks
  import opened CfgSource
  import opened CfgSim
  import opened CfgSpec
  import opened CfgFrame
  import opened CfgCorrect
  import opened CfgFunction

  // A stack of blocks and label indexes stands for a stack of targets: a target only a labelled
  // jump can mean is a block of kind Join2.
  ghost predicate StackIs(stack: seq<(nat, nat)>, targets: seq<Target>, bbs: Blocks, cur: nat) {
    |stack| == |targets| && forall i :: 0 <= i < |stack| ==> EntryIs(stack[i], targets[i], bbs, cur)
  }

  ghost predicate EntryIs(e: (nat, nat), t: Target, bbs: Blocks, cur: nat) {
    && e == (t.bb, t.lab) && t.bb < |bbs| && t.bb != cur
    && (bbs[t.bb].kind.Join2? <==> t.plain)
  }

  lemma StackKept(stack: seq<(nat, nat)>, targets: seq<Target>, bbs: Blocks, cur: nat, bbs': Blocks, cur': nat)
    requires StackIs(stack, targets, bbs, cur)
    requires Keeps(bbs, bbs', {cur}) && (cur' == cur || cur' >= |bbs|)
    ensures StackIs(stack, targets, bbs', cur')
  {
    forall i | 0 <= i < |stack|
      ensures EntryIs(stack[i], targets[i], bbs', cur')
    {
      assert EntryIs(stack[i], targets[i], bbs, cur);
    }
  }

  // The same stack, seen after building moved on to a new block.
  lemma StackMoved(stack: seq<(nat, nat)>, targets: seq<Target>, bbs: Blocks, cur: nat, bbs': Blocks, cur': nat)
    requires StackIs(stack, targets, bbs, cur) && |bbs| <= |bbs'| && cur' >= |bbs|
    requires forall i :: 0 <= i < |bbs| ==> bbs'[i].kind == bbs[i].kind
    ensures StackIs(stack, targets, bbs', cur')
  {
    forall i | 0 <= i < |stack|
      ensures EntryIs(stack[i], targets[i], bbs', cur')
    {
      assert EntryIs(stack[i], targets[i], bbs, cur);
    }
  }

  lemma StackPushed(stack: seq<(nat, nat)>, targets: seq<Target>, bbs: Blocks, cur: nat, e: (nat, nat), t: Target)
    requires StackIs(stack, targets, bbs, cur) && EntryIs(e, t, bbs, cur)
    ensures StackIs(stack + [e], targets + [t], bbs, cur)
  {
  }

  lemma NewAfterEdge(bbs: Blocks, b: nat, s: nat, kind: BBKind)
    requires b < |bbs| && s < |bbs|
    ensures AddSuccessor(NewBB(bbs, kind), b, s) == NewBB(AddSuccessor(bbs, b, s), kind)
  {
  }

  // The three stacks stand for `env`.
  ghost predicate StacksAre(breaks: seq<(nat, nat)>, conts: seq<(nat, nat)>, throws: seq<(nat, nat)>, env: Env, st: St) {
    && StackIs(breaks, env.breaks, st.bbs, st.cur)
    && StackIs(conts, env.conts, st.bbs, st.cur)
    && StackIs(throws, env.throws, st.bbs, st.cur)
  }

  // A visit leaves the stacks standing for the same targets.
  lemma VisitKeepsStacks(breaks: seq<(nat, nat)>, conts: seq<(nat, nat)>, throws: seq<(nat, nat)>, env: Env, st: St, s: Stmt)
    requires OkSt(st, env) && Scoped(s, ScopeOf(env)) && Resolve(env.throws, 0) == Some(env.exit)
    requires StacksAre(breaks, conts, throws, env, st)
    ensures StacksAre(breaks, conts, throws, env, Visit(st, s, env)) && OkSt(Visit(st, s, env), env)
  {
    hide Visit, StackIs;
    VisitFrame(st, s, env);
    var st' := Visit(st, s, env);
    StackKept(breaks, env.breaks, st.bbs, st.cur, st'.bbs, st'.cur);
    StackKept(conts, env.conts, st.bbs, st.cur, st'.bbs, st'.cur);
    StackKept(throws, env.throws, st.bbs, st.cur, st'.bbs, st'.cur);
  }

  // The stacks after a labelled statement was opened.
  lemma OpenedLabel(breaks: seq<(nat, nat)>, conts: seq<(nat, nat)>, throws: seq<(nat, nat)>, env: Env,
                    st: St, st1: St, lab: Option<nat>, join: nat)
    requires OkSt(st, env) && StacksAre(breaks, conts, throws, env, st)
    requires Keeps(st.bbs, st1.bbs, {st.cur}) && |st.bbs| <= join < |st1.bbs|
    requires |st.bbs| <= st1.cur < |st1.bbs| && st1.cur != join && st1.bbs[join].kind.Join2?
    ensures var env1 := PushBreak(env, lab, join);
            && StacksAre(if lab.Some? then breaks + [(join, lab.value)] else breaks, conts, throws, env1, st1)
            && OkSt(st1, env1) && env1.throws == env.throws && env1.exit == env.exit
            && ScopeOf(env1) == InLabel(ScopeOf(env), lab)
  {
    PushOk(env, lab, join, 0, |st.bbs|, |st1.bbs|);
    StackKept2(breaks, conts, throws, env, st, st1);
    if lab.Some? {
      StackPushed(breaks, env.breaks, st1.bbs, st1.cur, (join, lab.value), Target(join, lab.value, true));
    }
  }

  lemma StackKept2(breaks: seq<(nat, nat)>, conts: seq<(nat, nat)>, throws: seq<(nat, nat)>, env: Env, st: St, st1: St)
    requires StacksAre(breaks, conts, throws, env, st)
    requires Keeps(st.bbs, st1.bbs, {st.cur}) && (st1.cur == st.cur || st1.cur >= |st.bbs|)
    ensures StacksAre(breaks, conts, throws, env, st1)
  {
    StackKept(breaks, env.breaks, st.bbs, st.cur, st1.bbs, st1.cur);
    StackKept(conts, env.conts, st.bbs, st.cur, st1.bbs, st1.cur);
    StackKept(throws, env.throws, st.bbs, st.cur, st1.bbs, st1.cur);
  }

  // The stacks after a loop was opened.
  lemma OpenedLoop(breaks: seq<(nat, nat)>, conts: seq<(nat, nat)>, throws: seq<(nat, nat)>, env: Env,
                   st: St, st1: St, lab: Option<nat>, exit: nat, header: nat)
    requires OkSt(st, env) && StacksAre(breaks, conts, throws, env, st)
    requires Keeps(st.bbs, st1.bbs, {st.cur})
    requires |st.bbs| <= exit < |st1.bbs| && |st.bbs| <= header < |st1.bbs| && |st.bbs| <= st1.cur < |st1.bbs|
    requires st1.cur != exit && st1.cur != header && !st1.bbs[exit].kind.Join2? && !st1.bbs[header].kind.Join2?
    ensures var env1 := PushLoop(env, lab, exit, header);
            && StacksAre(breaks + [(exit, LabelIdx(lab))], conts + [(header, LabelIdx(lab))], throws, env1, st1)
            && OkSt(st1, env1) && env1.throws == env.throws && env1.exit == env.exit
            && ScopeOf(env1) == InLoop(ScopeOf(env), lab)
  {
    PushOk(env, lab, exit, header, |st.bbs|, |st1.bbs|);
    StackKept2(breaks, conts, throws, env, st, st1);
    StackPushed(breaks, env.breaks, st1.bbs, st1.cur, (exit, LabelIdx(lab)), Target(exit, LabelIdx(lab), false));
    StackPushed(conts, env.conts, st1.bbs, st1.cur, (header, LabelIdx(lab)), Target(header, LabelIdx(lab), false));
  }

  class CfgBuilder {
    var mBBs: Blocks
    var mCurrentBB: nat
    var mExitBB: nat
    var mBreakBBs: seq<(nat, nat)>
    var mContinueBBs: seq<(nat, nat)>
    var mThrowBBs: seq<(nat, nat)>

    ghost function View(): St
      reads this
    {
      St(mBBs, mCurrentBB)
    }

    // The stacks stand for `env`.
    ghost predicate Running(env: Env)
      reads this
    {
      && OkSt(View(), env) && mExitBB == env.exit && Resolve(env.throws, 0) == Some(env.exit)
      && StacksAre(mBreakBBs, mContinueBBs, mThrowBBs, env, View())
    }

    constructor ()
      ensures mBBs == [] && mBreakBBs == [] && mContinueBBs == [] && mThrowBBs == []
    {
      mBBs, mCurrentBB, mExitBB := [], 0, 0;
      mBreakBBs, mContinueBBs, mThrowBBs := [], [], [];
    }

    // The innermost block the jump can mean: any label for a labelled jump, else the first that is
    // no Join2.
    method LookUp(stack: seq<(nat, nat)>, t: nat, ghost targets: seq<Target>) returns (found: bool, bb: nat)
      requires StackIs(stack, targets, mBBs, mCurrentBB)
      ensures found ==> Resolve(targets, t) == Some(bb)
      ensures !found ==> Resolve(targets, t) == None
    {
      var i := |stack|;
      assert targets[..i] == targets;
      while i > 0
        invariant 0 <= i <= |stack| && Resolve(targets, t) == Resolve(targets[..i], t)
      {
        i := i - 1;
        assert EntryIs(stack[i], targets[i], mBBs, mCurrentBB);
        assert targets[..i + 1] == targets[..i] + [targets[i]];
        ResolvePush(targets[..i], targets[i], t);
        if t == 0 {
          if !mBBs[stack[i].0].kind.Join2? {
            return true, stack[i].0;
          }
        } else if stack[i].1 == t {
          return true, stack[i].0;
        }
      }
      assert targets[..0] == [];
      return false, 0;
    }

    method VisitStmt(s: Stmt, ghost env: Env)
      requires Running(env) && Scoped(s, ScopeOf(env))
      modifies this
      ensures View() == Visit(old(View()), s, env) && mExitBB == old(mExitBB)
      ensures mBreakBBs == old(mBreakBBs) && mContinueBBs == old(mContinueBBs) && mThrowBBs == old(mThrowBBs)
      ensures Running(env)
      decreases s, 2
    {
      match s {
        case Simple(id) => mBBs := AddStatement(mBBs, mCurrentBB, id);
        case Return(id) => VisitReturn(id);
        case Throw(id) => VisitThrow(id, env);
        case Break(id, t) => VisitBreak(id, t, env);
        case Continue(id, t) => VisitContinue(id, t, env);
        case If(_, _, _, _) => VisitCondBranch(s, env);
        case While(_, _, _) => VisitWhileLoop(s, env);
        case For(_, _, _, _, _) => VisitForLoop(s, env);
        case Do(_, _, _) => VisitDoLoop(s, env);
        case BlockOf(stmts, lab, lexical) =>
          if !lexical && lab.None? {
            VisitChildren(stmts, env);
          } else {
            VisitBlockNode(s, env);
          }
      }
      VisitKeepsStacks(mBreakBBs, mContinueBBs, mThrowBBs, env, old(View()), s);
    }

    method VisitReturn(id: nat)
      requires mCurrentBB < |mBBs| && mExitBB < |mBBs|
      modifies this`mBBs
      ensures View() == JumpTo(old(View()), id, Some(mExitBB))
    {
      mBBs := AddStatement(mBBs, mCurrentBB, id);
      mBBs := AddSuccessor(mBBs, mCurrentBB, mExitBB);
      mBBs := SetKind(mBBs, mCurrentBB, Terminated);
    }

    method VisitThrow(id: nat, ghost env: Env)
      requires Running(env)
      modifies this`mBBs
      ensures View() == JumpTo(old(View()), id, Some(env.exit))
    {
      var found, target := LookUp(mThrowBBs, 0, env.throws);
      mBBs := AddStatement(mBBs, mCurrentBB, id);
      mBBs := AddSuccessor(mBBs, mCurrentBB, target);
      mBBs := SetKind(mBBs, mCurrentBB, Terminated);
    }

    method VisitBreak(id: nat, t: nat, ghost env: Env)
      requires Running(env) && HasTarget(Labels(env.breaks), t)
      modifies this`mBBs
      ensures Resolve(env.breaks, t).Some? && Resolve(env.breaks, t).value < |old(mBBs)|
      ensures View() == JumpTo(old(View()), id, Resolve(env.breaks, t))
    {
      ResolveSome(env.breaks, t);
      ResolveOk(env.breaks, t, |mBBs|);
      var found, exit := LookUp(mBreakBBs, t, env.breaks);
      mBBs := AddStatement(mBBs, mCurrentBB, id);
      mBBs := AddSuccessor(mBBs, mCurrentBB, exit);
      mBBs := SetKind(mBBs, mCurrentBB, Terminated);
    }

    method VisitContinue(id: nat, t: nat, ghost env: Env)
      requires Running(env) && HasTarget(Labels(env.conts), t)
      modifies this`mBBs
      ensures Resolve(env.conts, t).Some? && Resolve(env.conts, t).value < |old(mBBs)|
      ensures View() == JumpTo(old(View()), id, Resolve(env.conts, t))
    {
      ResolveSome(env.conts, t);
      ResolveOk(env.conts, t, |mBBs|);
      var found, header := LookUp(mContinueBBs, t, env.conts);
      mBBs := AddStatement(mBBs, mCurrentBB, id);
      mBBs := AddSuccessor(mBBs, mCurrentBB, header);
      mBBs := SetKind(mBBs, mCurrentBB, Terminated);
    }

    method VisitChildren(ss: seq<Stmt>, ghost env: Env)
      requires Running(env) && forall t :: t in ss ==> Scoped(t, ScopeOf(env))
      modifies this
      ensures View() == VisitAll(old(View()), ss, env) && mExitBB == old(mExitBB)
      ensures mBreakBBs == old(mBreakBBs) && mContinueBBs == old(mContinueBBs) && mThrowBBs == old(mThrowBBs)
      ensures Running(env)
      decreases ss, 0
    {
      if ss != [] {
        VisitStmt(ss[0], env);
        VisitChildren(ss[1..], env);
      }
    }

    // Two blocks are made, and the current block leads into the first.
    method OpenInto(stmts: seq<nat>, kind: BBKind, after: BBKind) returns (next: nat)
      requires mCurrentBB < |mBBs|
      modifies this`mBBs, this`mCurrentBB
      ensures View() == Open(old(View()), kind, stmts, Uncond, after, |old(mBBs)|)
      ensures next == |old(mBBs)| + 1
    {
      mBBs := SetKind(mBBs, mCurrentBB, kind);
      mBBs := AddStatements(mBBs, mCurrentBB, stmts);
      var currentBB := mCurrentBB;
      mBBs := NewBB(mBBs, Uncond);
      mCurrentBB := |mBBs| - 1;
      NewAfterEdge(mBBs, currentBB, mCurrentBB, after);
      mBBs := AddSuccessor(mBBs, currentBB, mCurrentBB);
      next := |mBBs|;
      mBBs := NewBB(mBBs, after);
    }

    method VisitCondBranch(s: Stmt, ghost env: Env)
      requires Running(env) && s.If? && Scoped(s, ScopeOf(env))
      modifies this
      ensures View() == VisitIf(old(View()), s, env) && mExitBB == old(mExitBB)
      ensures mBreakBBs == old(mBreakBBs) && mContinueBBs == old(mContinueBBs) && mThrowBBs == old(mThrowBBs)
      decreases s, 1
    {
      hide Open, AddSuccessor, Visit, Resolve, StackIs;
      ghost var st := View();
      OpenEffect(st, Branch, CondList(s.cond), Uncond, Join2, |mBBs|);
      var currentBB := mCurrentBB;
      var join := OpenInto(CondList(s.cond), Branch, Join2);
      if s.lab.Some? {
        mBreakBBs := mBreakBBs + [(join, s.lab.value)];
      }
      ghost var env1 := PushBreak(env, s.lab, join);
      OpenedLabel(old(mBreakBBs), mContinueBBs, mThrowBBs, env, old(View()), View(), s.lab, join);
      VisitStmt(s.thn, env1);
      LeadTo(join, env1);
      if s.els.None? {
        mBBs := AddSuccessor(mBBs, currentBB, join);
      } else {
        VisitElse(s, env1, currentBB, join);
      }
      if s.lab.Some? {
        mBreakBBs := mBreakBBs[..|mBreakBBs| - 1];
      }
      mCurrentBB := join;
    }

    // The current block leads to `join`.
    method LeadTo(join: nat, ghost env: Env)
      requires Running(env) && join < |mBBs|
      modifies this`mBBs
      ensures mBBs == AddSuccessor(old(mBBs), mCurrentBB, join) && |mBBs| == |old(mBBs)| && Running(env)
    {
      AddSuccessorSize(mBBs, mCurrentBB, join);
      AddSuccessorEffect(mBBs, mCurrentBB, join);
      ghost var bbs := mBBs;
      mBBs := AddSuccessor(mBBs, mCurrentBB, join);
      StackKept(mBreakBBs, env.breaks, bbs, mCurrentBB, mBBs, mCurrentBB);
      StackKept(mContinueBBs, env.conts, bbs, mCurrentBB, mBBs, mCurrentBB);
      StackKept(mThrowBBs, env.throws, bbs, mCurrentBB, mBBs, mCurrentBB);
    }

    // The false branch, in a block of its own.
    method VisitElse(s: Stmt, ghost env: Env, currentBB: nat, join: nat)
      requires s.If? && s.els.Some? && Scoped(s.els.value, ScopeOf(env)) && Running(env)
      requires currentBB < |mBBs| && join < |mBBs|
      modifies this
      ensures mBBs == Close(Visit(Branch2(St(old(mBBs), join), currentBB), s.els.value, env), join).bbs
      ensures mExitBB == old(mExitBB)
      ensures mBreakBBs == old(mBreakBBs) && mContinueBBs == old(mContinueBBs) && mThrowBBs == old(mThrowBBs)
      decreases s, 0
    {
      hide AddSuccessor, Visit, Resolve;
      ghost var bbs0, cur0 := mBBs, mCurrentBB;
      mBBs := NewBB(mBBs, Uncond);
      mCurrentBB := |mBBs| - 1;
      AddSuccessorSize(mBBs, currentBB, mCurrentBB);
      AddSuccessorEffect(mBBs, currentBB, mCurrentBB);
      mBBs := AddSuccessor(mBBs, currentBB, mCurrentBB);
      assert View() == Branch2(St(bbs0, join), currentBB);
      StackMoved(mBreakBBs, env.breaks, bbs0, cur0, mBBs, mCurrentBB);
      StackMoved(mContinueBBs, env.conts, bbs0, cur0, mBBs, mCurrentBB);
      StackMoved(mThrowBBs, env.throws, bbs0, cur0, mBBs, mCurrentBB);
      VisitStmt(s.els.value, env);
      mBBs := AddSuccessor(mBBs, mCurrentBB, join);
    }

    // A new loop header follows the current block; the body and exit blocks are made.
    method OpenLoop(cond: seq<nat>, lab: Option<nat>, ghost env: Env) returns (header: nat, exit: nat)
      requires Running(env)
      modifies this`mBBs, this`mCurrentBB, this`mBreakBBs, this`mContinueBBs
      ensures header == |old(mBBs)| && exit == header + 2
      ensures View() == Open(EnterLoop(old(View())), LoopHeader, cond, Uncond, Join, header + 1)
      ensures Running(PushLoop(env, lab, exit, header)) && ScopeOf(PushLoop(env, lab, exit, header)) == InLoop(ScopeOf(env), lab)
      ensures mBreakBBs == old(mBreakBBs) + [(exit, LabelIdx(lab))]
      ensures mContinueBBs == old(mContinueBBs) + [(header, LabelIdx(lab))]
    {
      hide AddSuccessor, Resolve, StackIs;
      var currentBB := mCurrentBB;
      LoopOpens(View(), cond);
      mBBs := NewBB(mBBs, LoopHeader);
      mCurrentBB := |mBBs| - 1;
      header := mCurrentBB;
      AddSuccessorSize(mBBs, currentBB, mCurrentBB);
      mBBs := AddSuccessor(mBBs, currentBB, mCurrentBB);
      assert View() == EnterLoop(old(View()));
      exit := OpenInto(cond, LoopHeader, Join);
      mBreakBBs := mBreakBBs + [(exit, LabelIdx(lab))];
      mContinueBBs := mContinueBBs + [(header, LabelIdx(lab))];
      OpenedLoop(old(mBreakBBs), old(mContinueBBs), mThrowBBs, env, old(View()), View(), lab, exit, header);
    }

    method PopLoop()
      requires mBreakBBs != [] && mContinueBBs != []
      modifies this`mBreakBBs, this`mContinueBBs
      ensures mBreakBBs == old(mBreakBBs)[..|old(mBreakBBs)| - 1]
      ensures mContinueBBs == old(mContinueBBs)[..|old(mContinueBBs)| - 1]
    {
      mContinueBBs := mContinueBBs[..|mContinueBBs| - 1];
      mBreakBBs := mBreakBBs[..|mBreakBBs| - 1];
    }

    // A loop that tests first, from its header on.
    method VisitTestFirst(cond: Option<nat>, body: Stmt, updates: seq<nat>, lab: Option<nat>, ghost env: Env)
      requires Running(env) && Scoped(body, InLoop(ScopeOf(env), lab))
      modifies this
      ensures View() == VisitLoop(old(View()), cond, body, updates, lab, env) && mExitBB == old(mExitBB)
      ensures mBreakBBs == old(mBreakBBs) && mContinueBBs == old(mContinueBBs) && mThrowBBs == old(mThrowBBs)
      decreases body, 3
    {
      hide Open, EnterLoop, AddSuccessor, Visit, Resolve, StackIs;
      var header, exit := OpenLoop(CondList(cond), lab, env);
      VisitStmt(body, PushLoop(env, lab, exit, header));
      PopLoop();
      mBBs := AddStatements(mBBs, mCurrentBB, updates);
      AddSuccessorSize(mBBs, mCurrentBB, header);
      mBBs := AddSuccessor(mBBs, mCurrentBB, header);
      mBBs := AddSuccessor(mBBs, header, exit);
      mCurrentBB := exit;
    }

    method VisitWhileLoop(s: Stmt, ghost env: Env)
      requires Running(env) && s.While? && Scoped(s, ScopeOf(env))
      modifies this
      ensures View() == Visit(old(View()), s, env) && mExitBB == old(mExitBB)
      ensures mBreakBBs == old(mBreakBBs) && mContinueBBs == old(mContinueBBs) && mThrowBBs == old(mThrowBBs)
      decreases s, 1
    {
      VisitTestFirst(s.cond, s.body, [], s.lab, env);
    }

    method VisitForLoop(s: Stmt, ghost env: Env)
      requires Running(env) && s.For? && Scoped(s, ScopeOf(env))
      modifies this
      ensures View() == Visit(old(View()), s, env) && mExitBB == old(mExitBB)
      ensures mBreakBBs == old(mBreakBBs) && mContinueBBs == old(mContinueBBs) && mThrowBBs == old(mThrowBBs)
      decreases s, 1
    {
      hide VisitLoop, Resolve;
      ghost var bbs := mBBs;
      AddStatementsEffect(mBBs, mCurrentBB, s.inits);
      mBBs := AddStatements(mBBs, mCurrentBB, s.inits);
      StackKept(mBreakBBs, env.breaks, bbs, mCurrentBB, mBBs, mCurrentBB);
      StackKept(mContinueBBs, env.conts, bbs, mCurrentBB, mBBs, mCurrentBB);
      StackKept(mThrowBBs, env.throws, bbs, mCurrentBB, mBBs, mCurrentBB);
      VisitTestFirst(s.cond, s.body, s.updates, s.lab, env);
    }

    method VisitDoLoop(s: Stmt, ghost env: Env)
      requires Running(env) && s.Do? && Scoped(s, ScopeOf(env))
      modifies this
      ensures View() == VisitDo(old(View()), s.body, s.cond, s.lab, env) && mExitBB == old(mExitBB)
      ensures mBreakBBs == old(mBreakBBs) && mContinueBBs == old(mContinueBBs) && mThrowBBs == old(mThrowBBs)
      decreases s, 1
    {
      hide Open, EnterLoop, AddSuccessor, Visit, Resolve, StackIs;
      var header, exit := OpenLoop([], s.lab, env);
      VisitStmt(s.body, PushLoop(env, s.lab, exit, header));
      PopLoop();
      mBBs := AddStatements(mBBs, mCurrentBB, CondList(s.cond));
      AddSuccessorSize(mBBs, mCurrentBB, header);
      mBBs := AddSuccessor(mBBs, mCurrentBB, header);
      mBBs := AddSuccessor(mBBs, mCurrentBB, exit);
      mCurrentBB := exit;
    }

    // A block with a label or with lexical declarations.
    method VisitBlockNode(s: Stmt, ghost env: Env)
      requires Running(env) && s.BlockOf? && Scoped(s, ScopeOf(env))
      modifies this
      ensures View() == VisitBlock(old(View()), s.stmts, s.lab, env) && mExitBB == old(mExitBB)
      ensures mBreakBBs == old(mBreakBBs) && mContinueBBs == old(mContinueBBs) && mThrowBBs == old(mThrowBBs)
      decreases s, 1
    {
      hide AddSuccessor, VisitAll, Resolve, StackIs;
      OpenEffect(View(), Block, [], Join2, Uncond, |mBBs| + 1);
      mBBs := SetKind(mBBs, mCurrentBB, Block);
      var join := |mBBs|;
      mBBs := NewBB(mBBs, Join2);
      if s.lab.Some? {
        mBreakBBs := mBreakBBs + [(join, s.lab.value)];
      }
      var currentBB := mCurrentBB;
      mBBs := NewBB(mBBs, Uncond);
      mCurrentBB := |mBBs| - 1;
      AddSuccessorSize(mBBs, currentBB, mCurrentBB);
      mBBs := AddSuccessor(mBBs, currentBB, mCurrentBB);
      assert View() == Open(old(View()), Block, [], Join2, Uncond, join + 1);
      OpenedLabel(old(mBreakBBs), mContinueBBs, mThrowBBs, env, old(View()), View(), s.lab, join);
      VisitChildren(s.stmts, PushBreak(env, s.lab, join));
      mBBs := AddSuccessor(mBBs, mCurrentBB, join);
      if s.lab.Some? {
        mBreakBBs := mBreakBBs[..|mBreakBBs| - 1];
      }
      mCurrentBB := join;
    }

    // Build the graph of one function after those built before.
    method Build(body: Stmt) returns (entry: nat, exit: nat)
      requires mBreakBBs == [] && mContinueBBs == [] && mThrowBBs == [] && Scoped(body, NO_SCOPE)
      modifies this
      ensures mBreakBBs == [] && mContinueBBs == [] && mThrowBBs == []
      ensures entry == |old(mBBs)| && exit == entry + 1
      ensures mBBs == BuildFunction(old(mBBs), body)
    {
      hide AddSuccessor, Visit, Resolve;
      ghost var bbs := mBBs;
      BeginEffect(mBBs);
      entry := |mBBs|;
      mBBs := NewBB(mBBs, Uncond);
      exit := |mBBs|;
      mBBs := NewBB(mBBs, Join);
      mThrowBBs := mThrowBBs + [(exit, 0)];
      mExitBB := exit;
      mCurrentBB := |mBBs|;
      mBBs := NewBB(mBBs, Uncond);
      AddSuccessorSize(mBBs, entry, mCurrentBB);
      AddSuccessorEffect(mBBs, entry, mCurrentBB);
      mBBs := AddSuccessor(mBBs, entry, mCurrentBB);
      assert View() == Begin(bbs);
      VisitStmt(body, BodyEnv(exit));
      mThrowBBs := mThrowBBs[..|mThrowBBs| - 1];
      mBBs := AddSuccessor(mBBs, mCurrentBB, exit);
    }
  }
}
