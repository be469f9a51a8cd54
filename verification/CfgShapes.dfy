/** The blocks of small functions, one for each kind of statement: their order, kinds, statements and edges. */
module CfgShapes {
  import opened Options
  import opened CfgBlocks
  import opened CfgSource
  import opened CfgSim
  import opened CfgSpec
  import opened CfgFunction

  lemma EdgeIs(bbs: Blocks, b: nat, succ: nat, r: Blocks)
    requires b < |bbs| == |r| && succ < |bbs| && b != succ && !bbs[b].kind.Terminated?
    requires r[b] == bbs[b].(succs := bbs[b].succs + [succ]) && r[succ] == bbs[succ].(preds := bbs[succ].preds + [b])
    requires forall i :: 0 <= i < |r| && i != b && i != succ ==> r[i] == bbs[i]
    ensures AddSuccessor(bbs, b, succ) == r
  {
  }

  lemma OpenIs(st: St, kind: BBKind, stmts: seq<nat>, a: BBKind, b: BBKind, into: nat, r: St)
    requires st.cur < |st.bbs| && |st.bbs| <= into < |st.bbs| + 2 && !kind.Terminated?
    requires |r.bbs| == |st.bbs| + 2 && r.cur == into
    requires r.bbs[st.cur] == CfgBB(kind, st.bbs[st.cur].stmts + stmts, st.bbs[st.cur].succs + [into], st.bbs[st.cur].preds)
    requires forall i :: 0 <= i < |st.bbs| && i != st.cur ==> r.bbs[i] == st.bbs[i]
    requires r.bbs[|st.bbs|] == CfgBB(a, [], [], if into == |st.bbs| then [st.cur] else [])
    requires r.bbs[|st.bbs| + 1] == CfgBB(b, [], [], if into == |st.bbs| then [] else [st.cur])
    ensures Open(st, kind, stmts, a, b, into) == r
  {
    var bbs := SetKind(st.bbs, st.cur, kind);
    var bbs1 := AddStatements(bbs, st.cur, stmts);
    var bbs2 := NewBB(NewBB(bbs1, a), b);
    EdgeIs(bbs2, st.cur, into, r.bbs);
  }

  lemma JumpIs(st: St, stmt: nat, target: nat, r: Blocks)
    requires st.cur < |st.bbs| == |r| && target < |st.bbs| && target != st.cur && !st.bbs[st.cur].kind.Terminated?
    requires var bb := st.bbs[st.cur]; r[st.cur] == CfgBB(Terminated, bb.stmts + [stmt], bb.succs + [target], bb.preds)
    requires r[target] == st.bbs[target].(preds := st.bbs[target].preds + [st.cur])
    requires forall i :: 0 <= i < |r| && i != st.cur && i != target ==> r[i] == st.bbs[i]
    ensures JumpTo(st, stmt, Some(target)) == St(r, st.cur)
  {
  }

  // The entry block, the exit block, and the first block of the body.
  lemma BeginShape()
    ensures Begin([]) == St([CfgBB(Uncond, [], [2], []), CfgBB(Join, [], [], []), CfgBB(Uncond, [], [], [0])], 2)
  {
    EdgeIs([CfgBB(Uncond, [], [], []), CfgBB(Join, [], [], []), CfgBB(Uncond, [], [], [])], 0, 2,
           [CfgBB(Uncond, [], [2], []), CfgBB(Join, [], [], []), CfgBB(Uncond, [], [], [0])]);
  }

  // A loop header, and the blocks of its body and its exit.
  lemma LoopShape(cond: seq<nat>)
    ensures Open(EnterLoop(Begin([])), LoopHeader, cond, Uncond, Join, 4) ==
            St([CfgBB(Uncond, [], [2], []), CfgBB(Join, [], [], []), CfgBB(Uncond, [], [3], [0]),
                CfgBB(LoopHeader, cond, [4], [2]), CfgBB(Uncond, [], [], [3]), CfgBB(Join, [], [], [])], 4)
  {
    hide AddSuccessor, Open;
    BeginShape();
    var st := Begin([]);
    var entry, exit, first := CfgBB(Uncond, [], [2], []), CfgBB(Join, [], [], []), CfgBB(Uncond, [], [3], [0]);
    EdgeIs(NewBB(st.bbs, LoopHeader), 2, 3, [entry, exit, first, CfgBB(LoopHeader, [], [], [2])]);
    assert [] + cond == cond;
    OpenIs(EnterLoop(st), LoopHeader, cond, Uncond, Join, 4,
           St([entry, exit, first, CfgBB(LoopHeader, cond, [4], [2]), CfgBB(Uncond, [], [], [3]), CfgBB(Join, [], [], [])], 4));
  }

  const ENTRY := CfgBB(Uncond, [], [2], [])
  const EXIT := CfgBB(Join, [], [], [])
  const FIRST := CfgBB(Uncond, [], [3], [0])

  // while (1) 2;
  const WHILE := While(Some(1), Simple(2), None)

  lemma WhileShape()
    ensures BuildFunction([], WHILE) ==
            [ENTRY, CfgBB(Join, [], [], [5]), FIRST,
             CfgBB(LoopHeader, [1], [4, 5], [2, 4]), CfgBB(Uncond, [2], [3], [3]), CfgBB(Join, [], [1], [3])]
  {
    hide AddSuccessor, Begin, Visit, VisitLoop;
    var header, body := CfgBB(LoopHeader, [1], [4, 5], [2, 4]), CfgBB(Uncond, [2], [3], [3]);
    WhileVisit(Begin([]));
    WhileBlocks();
    EdgeIs([ENTRY, EXIT, FIRST, header, body, CfgBB(Join, [], [], [3])], 5, 1,
           [ENTRY, CfgBB(Join, [], [], [5]), FIRST, header, body, CfgBB(Join, [], [1], [3])]);
  }

  lemma WhileVisit(st: St)
    requires OkSt(st, BodyEnv(1))
    ensures Visit(st, WHILE, BodyEnv(1)) == VisitLoop(st, Some(1), Simple(2), [], None, BodyEnv(1))
  {
    hide VisitLoop;
  }

  lemma WhileBlocks()
    ensures VisitLoop(Begin([]), Some(1), Simple(2), [], None, BodyEnv(1)) ==
            St([ENTRY, EXIT, FIRST, CfgBB(LoopHeader, [1], [4, 5], [2, 4]), CfgBB(Uncond, [2], [3], [3]), CfgBB(Join, [], [], [3])], 5)
  {
    hide AddSuccessor, Open, Begin, EnterLoop, Visit, AddAll;
    LoopShape([1]);
    var st1 := Open(EnterLoop(Begin([])), LoopHeader, [1], Uncond, Join, 4);
    SimpleVisit(st1, 2, PushLoop(BodyEnv(1), None, 5, 3));
    var header, body := CfgBB(LoopHeader, [1], [4], [2, 4]), CfgBB(Uncond, [2], [3], [3]);
    var bbs2 := [ENTRY, EXIT, FIRST, CfgBB(LoopHeader, [1], [4], [2]), CfgBB(Uncond, [2], [], [3]), EXIT];
    AddAllIs(st1, [2], bbs2);
    AddAllIs(St(bbs2, 4), [], bbs2);
    EdgeIs(bbs2, 4, 3, [ENTRY, EXIT, FIRST, header, body, EXIT]);
    EdgeIs([ENTRY, EXIT, FIRST, header, body, EXIT], 3, 5,
           [ENTRY, EXIT, FIRST, CfgBB(LoopHeader, [1], [4, 5], [2, 4]), body, CfgBB(Join, [], [], [3])]);
  }

  lemma AddAllIs(st: St, stmts: seq<nat>, r: Blocks)
    requires st.cur < |st.bbs| == |r| && !st.bbs[st.cur].kind.Terminated?
    requires r[st.cur] == st.bbs[st.cur].(stmts := st.bbs[st.cur].stmts + stmts)
    requires forall i :: 0 <= i < |r| && i != st.cur ==> r[i] == st.bbs[i]
    ensures AddAll(st, stmts) == St(r, st.cur)
  {
  }

  // do 1; while (2);
  const DO := Do(Simple(1), Some(2), None)

  lemma DoShape()
    ensures BuildFunction([], DO) ==
            [ENTRY, CfgBB(Join, [], [], [5]), FIRST,
             CfgBB(LoopHeader, [], [4], [2, 4]), CfgBB(Uncond, [1, 2], [3, 5], [3]), CfgBB(Join, [], [1], [4])]
  {
    hide AddSuccessor, Begin, Visit, VisitDo;
    var header, body := CfgBB(LoopHeader, [], [4], [2, 4]), CfgBB(Uncond, [1, 2], [3, 5], [3]);
    DoVisit(Begin([]));
    DoBlocks();
    EdgeIs([ENTRY, EXIT, FIRST, header, body, CfgBB(Join, [], [], [4])], 5, 1,
           [ENTRY, CfgBB(Join, [], [], [5]), FIRST, header, body, CfgBB(Join, [], [1], [4])]);
  }

  lemma DoVisit(st: St)
    requires OkSt(st, BodyEnv(1))
    ensures Visit(st, DO, BodyEnv(1)) == VisitDo(st, Simple(1), Some(2), None, BodyEnv(1))
  {
    hide VisitDo;
  }

  lemma DoBlocks()
    ensures VisitDo(Begin([]), Simple(1), Some(2), None, BodyEnv(1)) ==
            St([ENTRY, EXIT, FIRST, CfgBB(LoopHeader, [], [4], [2, 4]), CfgBB(Uncond, [1, 2], [3, 5], [3]), CfgBB(Join, [], [], [4])], 5)
  {
    hide AddSuccessor, Open, Begin, EnterLoop, Visit, AddAll;
    LoopShape([]);
    var st1 := Open(EnterLoop(Begin([])), LoopHeader, [], Uncond, Join, 4);
    SimpleVisit(st1, 1, PushLoop(BodyEnv(1), None, 5, 3));
    var before, header := CfgBB(LoopHeader, [], [4], [2]), CfgBB(LoopHeader, [], [4], [2, 4]);
    var bbs2 := [ENTRY, EXIT, FIRST, before, CfgBB(Uncond, [1], [], [3]), EXIT];
    var bbs3 := [ENTRY, EXIT, FIRST, before, CfgBB(Uncond, [1, 2], [], [3]), EXIT];
    AddAllIs(st1, [1], bbs2);
    AddAllIs(St(bbs2, 4), [2], bbs3);
    EdgeIs(bbs3, 4, 3, [ENTRY, EXIT, FIRST, header, CfgBB(Uncond, [1, 2], [3], [3]), EXIT]);
    EdgeIs([ENTRY, EXIT, FIRST, header, CfgBB(Uncond, [1, 2], [3], [3]), EXIT], 4, 5,
           [ENTRY, EXIT, FIRST, header, CfgBB(Uncond, [1, 2], [3, 5], [3]), CfgBB(Join, [], [], [4])]);
  }

  // if (1) break 7; else 3;
  const CHOICE := If(Some(1), Break(2, 7), Some(Simple(3)), None)

  // 7: { if (1) break 7; else 3; }
  lemma BlockShape()
    ensures BuildFunction([], BlockOf([CHOICE], Some(7), true)) ==
            [CfgBB(Uncond, [], [2], []), CfgBB(Join, [], [], [3]), CfgBB(Block, [], [4], [0]), CfgBB(Join2, [], [1], [5, 6]),
             CfgBB(Branch, [1], [5, 7], [2]), CfgBB(Terminated, [2], [3], [4]), CfgBB(Join2, [], [3], [7]), CfgBB(Uncond, [3], [6], [4])]
  {
    hide AddSuccessor, Open, Visit;
    BeginShape();
    var st, env := Begin([]), PushBreak(BodyEnv(1), Some(7), 3);
    var entry, exit := CfgBB(Uncond, [], [2], []), CfgBB(Join, [], [], []);
    var st1 := St([entry, exit, CfgBB(Block, [], [4], [0]), CfgBB(Join2, [], [], []), CfgBB(Uncond, [], [], [2])], 4);
    OpenIs(st, Block, [], Join2, Uncond, 4, st1);
    ChoiceShape(st1, env);
    assert Visit(St(st.bbs, 2), BlockOf([CHOICE], Some(7), true), BodyEnv(1)) ==
           Close(VisitAll(st1, [CHOICE], env), 3) by { BlockVisit(st); }
    var st2 := VisitIf(st1, CHOICE, env);
    OneVisit(st1, CHOICE, env);
    var closed := st2.bbs[6 := CfgBB(Join2, [], [3], [7])][3 := CfgBB(Join2, [], [], [5, 6])];
    EdgeIs(st2.bbs, 6, 3, closed);
    EdgeIs(closed, 3, 1, closed[3 := CfgBB(Join2, [], [1], [5, 6])][1 := CfgBB(Join, [], [], [3])]);
  }

  lemma BlockVisit(st: St)
    requires OkSt(st, BodyEnv(1)) && |st.bbs| == 3
    ensures OkSt(Open(st, Block, [], Join2, Uncond, 4), PushBreak(BodyEnv(1), Some(7), 3))
    ensures Visit(st, BlockOf([CHOICE], Some(7), true), BodyEnv(1)) ==
            Close(VisitAll(Open(st, Block, [], Join2, Uncond, 4), [CHOICE], PushBreak(BodyEnv(1), Some(7), 3)), 3)
  {
    hide Open, VisitAll, Visit;
    assert Visit(st, BlockOf([CHOICE], Some(7), true), BodyEnv(1)) == VisitBlock(st, [CHOICE], Some(7), BodyEnv(1)) by {
      LabelledVisit(st, [CHOICE], 7, BodyEnv(1));
    }
  }

  lemma LabelledVisit(st: St, stmts: seq<Stmt>, lab: nat, env: Env)
    requires OkSt(st, env)
    ensures Visit(st, BlockOf(stmts, Some(lab), true), env) == VisitBlock(st, stmts, Some(lab), env)
  {
    hide VisitBlock;
  }

  lemma OneVisit(st: St, s: Stmt, env: Env)
    requires OkSt(st, env) && s.If?
    ensures VisitAll(st, [s], env) == VisitIf(st, s, env)
  {
    hide VisitIf;
    assert Visit(st, s, env) == VisitIf(st, s, env);
    assert [s][1..] == [];
  }

  lemma ChoiceShape(st: St, env: Env)
    requires env == PushBreak(BodyEnv(1), Some(7), 3) && st.cur == 4 && |st.bbs| == 5
    requires st.bbs[3] == CfgBB(Join2, [], [], []) && st.bbs[4] == CfgBB(Uncond, [], [], [2])
    ensures OkSt(st, env)
    ensures VisitIf(st, CHOICE, env) ==
            St(st.bbs[..3] + [CfgBB(Join2, [], [], [5]), CfgBB(Branch, [1], [5, 7], [2]), CfgBB(Terminated, [2], [3], [4]),
                              CfgBB(Join2, [], [], [7]), CfgBB(Uncond, [3], [6], [4])], 6)
  {
    hide AddSuccessor, Open, Visit, JumpTo;
    var before, join2 := st.bbs[..3], CfgBB(Join2, [], [], []);
    var st1 := St(before + [join2, CfgBB(Branch, [1], [5], [2]), CfgBB(Uncond, [], [], [4]), join2], 5);
    OpenIs(st, Branch, [1], Uncond, Join2, 5, st1);
    BreakVisit(st1, env);
    var st2 := St(before + [CfgBB(Join2, [], [], [5]), CfgBB(Branch, [1], [5], [2]), CfgBB(Terminated, [2], [3], [4]), join2], 5);
    JumpIs(st1, 2, 3, st2.bbs);
    assert Close(st2, 6) == St(st2.bbs, 6) by { AddSuccessorSize(st2.bbs, 5, 6); }
    var st3 := St(before + [CfgBB(Join2, [], [], [5]), CfgBB(Branch, [1], [5, 7], [2]), CfgBB(Terminated, [2], [3], [4]), join2,
                            CfgBB(Uncond, [], [], [4])], 7);
    EdgeIs(NewBB(st2.bbs, Uncond), 4, 7, st3.bbs);
    assert Branch2(St(st2.bbs, 6), 4) == st3;
    var st4 := AddAll(st3, [3]);
    assert Visit(st3, Simple(3), env) == st4 by { SimpleVisit(st3, 3, env); }
    var bbs4 := st3.bbs[7 := CfgBB(Uncond, [3], [], [4])];
    assert st4 == St(bbs4, 7);
    EdgeIs(bbs4, 7, 6, before + [CfgBB(Join2, [], [], [5]), CfgBB(Branch, [1], [5, 7], [2]), CfgBB(Terminated, [2], [3], [4]),
                                 CfgBB(Join2, [], [], [7]), CfgBB(Uncond, [3], [6], [4])]);
  }

  lemma BreakVisit(st: St, env: Env)
    requires env == PushBreak(BodyEnv(1), Some(7), 3) && OkSt(st, env)
    ensures Visit(st, Break(2, 7), env) == JumpTo(st, 2, Some(3))
  {
    hide JumpTo;
    ResolvePush([], Target(3, 7, true), 7);
    assert env.breaks == [] + [Target(3, 7, true)];
  }

  lemma SimpleVisit(st: St, id: nat, env: Env)
    requires OkSt(st, env)
    ensures Visit(st, Simple(id), env) == AddAll(st, [id])
  {
  }
}
