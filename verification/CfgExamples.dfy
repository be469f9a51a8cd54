/** Three concrete functions whose graphs do not do what the source does, and one with dead code that does no harm. */
module CfgExamples {
  import opened Options
  import opened CfgBlocks
  import opened CfgSource
  import opened CfgSim
  import opened CfgSpec
  import opened CfgCorrect
  import opened CfgFunction
  import opened CfgContinue

  // for (; 1; 3) continue;
  const SKIPPING := For([], Some(1), Continue(2, 0), [3], None)

  // A continue in a for loop skips the updates: its edge goes to the loop header. With decisions
  // "enter, leave" the source runs the update 3, the graph does not.
  lemma ContinueSkipsUpdates()
    ensures Tidy(SKIPPING) && !Plain(SKIPPING) && Scoped(SKIPPING, NO_SCOPE)
    ensures Exec(AsWritten, SKIPPING, [true, false]) == Run([1, 2, 3, 1], Normal, [])
    ensures var end := Conf(1, 0, [], [1, 2, 1]);
            Leads(BuildFunction([], SKIPPING), Conf(0, 0, [true, false], []), end) && Halted(BuildFunction([], SKIPPING), end)
  {
    hide BuildFunction, Leads;
    assert HasTarget(InLoop(NO_SCOPE, None).conts, 0) by { assert (0, false) in InLoop(NO_SCOPE, None).conts; }
    SkippingRuns();
    GraphRuns([], SKIPPING, [true, false]);
  }

  lemma SkippingRuns()
    ensures Exec(AsWritten, SKIPPING, [true, false]) == Run([1, 2, 3, 1], Normal, [])
    ensures Exec(AsBuilt, SKIPPING, [true, false]) == Run([1, 2, 1], Normal, [])
  {
    assert [true, false][1..] == [false] && [false][1..] == [];
    forall m
      ensures ExecLoop(m, Some(1), Continue(2, 0), [3], None, [false]) == Run([1], Normal, [])
      ensures Exec(m, Continue(2, 0), [false]) == Run([2], Cont(0), [false])
    {
    }
  }

  // do { if (1) continue; } while (3);
  const RETRYING := Do(RETRIED, Some(3), None)
  const RETRIED := If(Some(1), Continue(2, 0), None, None)

  // A continue in a do loop skips the condition. With decisions "yes, no" the source tests the condition
  // 3 and leaves; the graph starts the body again.
  lemma ContinueSkipsCondition()
    ensures Tidy(RETRYING) && !Plain(RETRYING) && Scoped(RETRYING, NO_SCOPE)
    ensures Exec(AsWritten, RETRYING, [true, false]) == Run([1, 2, 3], Normal, [])
    ensures StopsAtBranch(BuildFunction([], RETRYING), Conf(0, 0, [true, false], []), Run([1, 2, 1, 3], Stuck, []))
  {
    hide BuildFunction, StopsAtBranch;
    assert HasTarget(InLoop(NO_SCOPE, None).conts, 0) by { assert (0, false) in InLoop(NO_SCOPE, None).conts; }
    RetryingScoped();
    RetryingRuns();
    GraphRuns([], RETRYING, [true, false]);
  }

  lemma RetryingScoped()
    ensures Scoped(RETRYING, NO_SCOPE) && Tidy(RETRYING) && !Plain(RETRYING)
  {
    assert HasTarget(InLoop(NO_SCOPE, None).conts, 0) by { assert (0, false) in InLoop(NO_SCOPE, None).conts; }
    assert Scoped(Continue(2, 0), InLoop(NO_SCOPE, None));
    assert ContinuesTo(Continue(2, 0), None, true);
    assert Continues(RETRIED, None);
  }

  lemma RetryingRuns()
    ensures Exec(AsWritten, RETRYING, [true, false]) == Run([1, 2, 3], Normal, [])
    ensures Exec(AsBuilt, RETRYING, [true, false]) == Run([1, 2, 1, 3], Stuck, [])
  {
    var o := [true, false];
    assert o[1..] == [false] && [false][1..] == [];
    forall m
      ensures Exec(m, RETRIED, o) == Run([1, 2], Cont(0), [false]) && Exec(m, RETRIED, [false]) == Run([1], Normal, [])
    {
      assert Exec(m, Continue(2, 0), [false]) == Run([2], Cont(0), [false]);
    }
    assert ExecDo(AsBuilt, RETRIED, Some(3), None, [false]) == Run([1, 3], Stuck, []);
    assert ExecDo(AsBuilt, RETRIED, Some(3), None, o) == Run([1, 2, 1, 3], Stuck, []);
    assert ExecDo(AsWritten, RETRIED, Some(3), None, o) == Run([1, 2, 3], Normal, []);
  }

  // return 1; if (2) 3;
  const DEAD := BlockOf([Return(1), DEAD_IF], None, false)
  const DEAD_IF := If(Some(2), Simple(3), None, None)

  // The blocks of DEAD: the return sits in block 2, to which the conditional is then added.
  lemma DeadBlocks()
    ensures var f := BuildFunction([], DEAD);
            && |f| == 5 && f[0].stmts == [] && f[0].succs == [2] && f[2].stmts == [1, 2] && f[2].succs == [1, 3, 4]
            && f[3].stmts == [3] && f[3].succs == [4] && f[4].stmts == [] && f[4].succs == [1] && f[1].stmts == [] && f[1].succs == []
  {
    hide Begin, AddSuccessor, Open, JumpTo, Visit, AddAll;
    var st, env := Begin([]), BodyEnv(1);
    BeginEffect([]);
    DeadVisit(st, env);
    DeadOpened(st);
    var st3 := AddAll(Open(JumpTo(st, 1, Some(1)), Branch, [2], Uncond, Join2, 3), [3]);
    DeadClosed(st3.bbs);
  }

  lemma DeadOpened(st: St)
    requires |st.bbs| == 3 && st.cur == 2 && OpenBB(st.bbs[2]) && st.bbs[2].stmts == []
    ensures var r := AddAll(Open(JumpTo(st, 1, Some(1)), Branch, [2], Uncond, Join2, 3), [3]);
            && |r.bbs| == 5 && Same(st.bbs[0], r.bbs[0]) && Same(st.bbs[1], r.bbs[1])
            && r.bbs[2] == CfgBB(Branch, [1, 2], [1, 3], r.bbs[2].preds)
            && r.bbs[3] == CfgBB(Uncond, [3], [], r.bbs[3].preds) && r.bbs[4] == CfgBB(Join2, [], [], r.bbs[4].preds)
  {
    hide AddSuccessor, Open, JumpTo, AddStatements;
    JumpEffect(st, 1, 1);
    var st1 := JumpTo(st, 1, Some(1));
    OpenEffect(st1, Branch, [2], Uncond, Join2, 3);
    var st2 := Open(st1, Branch, [2], Uncond, Join2, 3);
    AddStatementsEffect(st2.bbs, 3, [3]);
  }

  lemma DeadClosed(bbs: Blocks)
    requires |bbs| == 5 && bbs[2] == CfgBB(Branch, [1, 2], [1, 3], bbs[2].preds) && bbs[3] == CfgBB(Uncond, [3], [], bbs[3].preds)
    requires bbs[4] == CfgBB(Join2, [], [], bbs[4].preds)
    ensures var r := AddSuccessor(AddSuccessor(AddSuccessor(bbs, 3, 4), 2, 4), 4, 1);
            && |r| == 5 && Same(bbs[0], r[0]) && Same(bbs[1], r[1])
            && r[2].stmts == [1, 2] && r[2].succs == [1, 3, 4] && r[3].stmts == [3] && r[3].succs == [4]
            && r[4].stmts == [] && r[4].succs == [1]
  {
  }

  lemma DeadVisit(st: St, env: Env)
    requires OkSt(st, env) && env == BodyEnv(1) && |st.bbs| == 3 && st.cur == 2
    ensures var st1 := JumpTo(st, 1, Some(1));
            var st3 := AddAll(Open(st1, Branch, [2], Uncond, Join2, 3), [3]);
            Visit(st, DEAD, env) == St(AddSuccessor(AddSuccessor(st3.bbs, 3, 4), 2, 4), 4)
  {
    hide AddSuccessor, Open, JumpTo, AddAll;
    var st1 := JumpTo(st, 1, Some(1));
    assert Visit(st, Return(1), env) == st1;
    var st2 := Open(st1, Branch, [2], Uncond, Join2, 3);
    assert Visit(st2, Simple(3), env) == AddAll(st2, [3]);
    var st4 := Visit(st1, DEAD_IF, env);
    assert VisitAll(st4, [], env) == st4;
    assert [Return(1), DEAD_IF][1..] == [DEAD_IF] && [DEAD_IF][1..] == [];
    assert VisitAll(st1, [DEAD_IF], env) == st4;
  }

  // A compound statement after a jump opens the block again that the jump has ended, and its branches
  // can be reached: the source returns, the graph goes on to statement 3.
  lemma DeadCodeRuns()
    ensures !Tidy(DEAD) && Scoped(DEAD, NO_SCOPE)
    ensures Exec(AsWritten, DEAD, [false]) == Run([1], Leave, [false])
    ensures var end := Conf(1, 0, [], [1, 2, 3]);
            Leads(BuildFunction([], DEAD), Conf(0, 0, [false], []), end) && Halted(BuildFunction([], DEAD), end)
  {
    hide BuildFunction, Leads;
    DeadShape();
    DeadBlocks();
    var f, o := BuildFunction([], DEAD), [false];
    assert [] + [1] == [1] && [1] + [2] == [1, 2] && [1, 2] + [3] == [1, 2, 3] && o[1..] == [];
    LeadsList(f, [Conf(0, 0, o, []), Conf(2, 0, o, []), Conf(2, 1, o, [1]), Conf(2, 2, o, [1, 2]), Conf(3, 0, [], [1, 2]),
                  Conf(3, 1, [], [1, 2, 3]), Conf(4, 0, [], [1, 2, 3]), Conf(1, 0, [], [1, 2, 3])]);
  }

  lemma DeadShape()
    ensures !Tidy(DEAD) && Scoped(DEAD, NO_SCOPE)
    ensures Exec(AsWritten, DEAD, [false]) == Run([1], Leave, [false])
  {
    var ss := [Return(1), DEAD_IF];
    assert EndsInJump(ss[0]) && !LeavesEnded(ss[1]);
    assert Scoped(Simple(3), NO_SCOPE);
    assert Exec(AsWritten, ss[0], [false]) == Run([1], Leave, [false]);
  }

  // -------- A loop after a return: return 1; while (2) if (3) 4;

  const DEAD_LOOP := BlockOf([Return(1), While(Some(2), If(Some(3), Simple(4), None, None), None)], None, false)

  // A loop leaves the ended block as it is, and what is in the loop cannot be reached.
  lemma DeadLoopIsHarmless(o: seq<bool>)
    ensures Tidy(DEAD_LOOP) && Scoped(DEAD_LOOP, NO_SCOPE)
    ensures Exec(AsWritten, DEAD_LOOP, o) == Run([1], Leave, o)
    ensures Matches(BuildFunction([], DEAD_LOOP), 0, o, Run([1], Leave, o))
  {
    hide Matches, BuildFunction;
    DeadLoopShape(o);
    GraphMeansBody([], DEAD_LOOP, o);
  }

  lemma DeadLoopShape(o: seq<bool>)
    ensures Tidy(DEAD_LOOP) && Scoped(DEAD_LOOP, NO_SCOPE)
    ensures forall m :: Exec(m, DEAD_LOOP, o) == Run([1], Leave, o)
  {
    var loop := DEAD_LOOP.stmts[1];
    assert Tidy(loop.body) && LeavesEnded(loop);
    assert Scoped(loop.body.thn, InLoop(NO_SCOPE, None));
    assert Scoped(loop, InLabel(NO_SCOPE, None));
    forall m
      ensures Exec(m, DEAD_LOOP, o) == Run([1], Leave, o)
    {
      assert Exec(m, DEAD_LOOP.stmts[0], o) == Run([1], Leave, o);
    }
  }
}
