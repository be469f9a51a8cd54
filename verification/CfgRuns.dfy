/** Runs and their decisions: what a run did not need to decide, it passes on untouched. */
module CfgRuns {
  import opened Options
  import opened CfgSource

  // A run on the decisions `p`, and the run on `p + q`: the same with `q` left over as well, or the
  // first is stuck and the second takes a decision of `q`.
  predicate Longer(a: Run, b: Run, q: seq<bool>) {
    if a.out.Stuck? then a.rest == [] && |b.rest| <= |q| && (q != [] ==> |b.rest| < |q|)
    else b == a.(rest := a.rest + q)
  }

  lemma LongerMore(pre: seq<nat>, lab: Option<nat>, a: Run, b: Run, q: seq<bool>)
    requires Longer(a, b, q)
    ensures Longer(Prefix(pre, a), Prefix(pre, b), q)
    ensures Longer(AfterLabel(lab, a), AfterLabel(lab, b), q) && Longer(EndLoop(lab, a), EndLoop(lab, b), q)
  {
  }

  lemma {:induction false} RunLonger(m: Reading, s: Stmt, p: seq<bool>, q: seq<bool>)
    ensures Longer(Exec(m, s, p), Exec(m, s, p + q), q)
    decreases |p|, s, 1
  {
    hide Longer, AfterLabel, ExecAll, ExecLoop, ExecDo;
    match s {
      case If(_, _, _, _) => IfLonger(m, s, p, q);
      case While(cond, body, lab) => LoopLonger(m, cond, body, [], lab, p, q);
      case For(inits, cond, body, updates, lab) =>
        LoopLonger(m, cond, body, updates, lab, p, q);
        LongerMore(inits, lab, ExecLoop(m, cond, body, updates, lab, p), ExecLoop(m, cond, body, updates, lab, p + q), q);
      case Do(body, cond, lab) => DoLonger(m, body, cond, lab, p, q);
      case BlockOf(stmts, lab, _) =>
        AllLonger(m, stmts, p, q);
        LongerMore([], lab, ExecAll(m, stmts, p), ExecAll(m, stmts, p + q), q);
      case _ => NothingDecided(m, s, p, q);
    }
  }

  lemma NothingDecided(m: Reading, s: Stmt, p: seq<bool>, q: seq<bool>)
    requires s.Simple? || s.Return? || s.Throw? || s.Break? || s.Continue?
    ensures Longer(Exec(m, s, p), Exec(m, s, p + q), q)
  {
  }

  lemma {:induction false} IfLonger(m: Reading, s: Stmt, p: seq<bool>, q: seq<bool>)
    requires s.If?
    ensures Longer(Exec(m, s, p), Exec(m, s, p + q), q)
    decreases |p|, s, 0
  {
    hide ExecAll, ExecLoop, ExecDo;
    if p == [] {
      assert p + q == q;
    } else {
      assert (p + q)[1..] == p[1..] + q;
      var t := if p[0] then Some(s.thn) else s.els;
      if t.Some? {
        RunLonger(m, t.value, p[1..], q);
        var a, b := Exec(m, t.value, p[1..]), Exec(m, t.value, p[1..] + q);
        LongerMore([], s.lab, a, b, q);
        LongerMore(CondList(s.cond), s.lab, AfterLabel(s.lab, a), AfterLabel(s.lab, b), q);
      }
    }
  }

  lemma {:induction false} AllLonger(m: Reading, ss: seq<Stmt>, p: seq<bool>, q: seq<bool>)
    ensures Longer(ExecAll(m, ss, p), ExecAll(m, ss, p + q), q)
    decreases |p|, ss, 0
  {
    hide Exec;
    if ss != [] {
      RunLonger(m, ss[0], p, q);
      var r := Exec(m, ss[0], p);
      if r.out.Normal? { AllLonger(m, ss[1..], r.rest, q); }
    }
  }

  // A loop after the run of its body.
  function LoopOn(m: Reading, cond: Option<nat>, body: Stmt, updates: seq<nat>, lab: Option<nat>, r: Run): Run {
    if Continued(lab, r) && updates != [] && m.Watched? then Prefix(CondList(cond), r.(out := Lost))
    else if r.out.Normal? || Continued(lab, r) then
      Prefix(CondList(cond) + r.tr + (if r.out.Normal? || !m.AsBuilt? then updates else []),
             ExecLoop(m, cond, body, updates, lab, r.rest))
    else Prefix(CondList(cond), EndLoop(lab, r))
  }

  lemma LoopIs(m: Reading, cond: Option<nat>, body: Stmt, updates: seq<nat>, lab: Option<nat>, o: seq<bool>)
    requires o != [] && o[0]
    ensures ExecLoop(m, cond, body, updates, lab, o) == LoopOn(m, cond, body, updates, lab, Exec(m, body, o[1..]))
  {
    hide Exec;
    var r := Exec(m, body, o[1..]);
    assert CondList(cond) + r.tr + [] == CondList(cond) + r.tr;
  }

  lemma {:induction false} LoopLonger(m: Reading, cond: Option<nat>, body: Stmt, updates: seq<nat>, lab: Option<nat>,
                                      p: seq<bool>, q: seq<bool>)
    ensures Longer(ExecLoop(m, cond, body, updates, lab, p), ExecLoop(m, cond, body, updates, lab, p + q), q)
    decreases |p|, body, 2
  {
    if p == [] || !p[0] {
      LoopStops(m, cond, body, updates, lab, p, q);
    } else {
      hide Exec, ExecLoop, EndLoop, Continued;
      assert (p + q)[1..] == p[1..] + q;
      RunLonger(m, body, p[1..], q);
      LoopIs(m, cond, body, updates, lab, p);
      LoopIs(m, cond, body, updates, lab, p + q);
      var r, r' := Exec(m, body, p[1..]), Exec(m, body, p[1..] + q);
      if r.out.Stuck? {
        StuckGoesOn(m, cond, body, updates, lab, r, r', q);
      } else {
        assert Continued(lab, r') == Continued(lab, r) by { SameContinued(lab, r, r'); }
        if r.out.Normal? || Continued(lab, r) {
          LoopLonger(m, cond, body, updates, lab, r.rest, q);
          LongerMore(CondList(cond) + r.tr + (if r.out.Normal? || !m.AsBuilt? then updates else []), lab,
                     ExecLoop(m, cond, body, updates, lab, r.rest), ExecLoop(m, cond, body, updates, lab, r.rest + q), q);
        } else {
          LongerMore([], lab, r, r', q);
          LongerMore(CondList(cond), lab, EndLoop(lab, r), EndLoop(lab, r'), q);
        }
      }
    }
  }

  lemma SameContinued(lab: Option<nat>, r: Run, r': Run)
    requires r.out == r'.out
    ensures Continued(lab, r) == Continued(lab, r')
  {
  }

  lemma LoopStops(m: Reading, cond: Option<nat>, body: Stmt, updates: seq<nat>, lab: Option<nat>, p: seq<bool>, q: seq<bool>)
    requires p == [] || !p[0]
    ensures Longer(ExecLoop(m, cond, body, updates, lab, p), ExecLoop(m, cond, body, updates, lab, p + q), q)
  {
    hide Exec;
    if p == [] { assert p + q == q; } else { assert (p + q)[1..] == p[1..] + q; }
  }

  lemma StuckGoesOn(m: Reading, cond: Option<nat>, body: Stmt, updates: seq<nat>, lab: Option<nat>, r: Run, r': Run, q: seq<bool>)
    requires r.out.Stuck? && Longer(r, r', q)
    ensures Longer(LoopOn(m, cond, body, updates, lab, r), LoopOn(m, cond, body, updates, lab, r'), q)
  {
    hide Exec, ExecLoop;
  }

  // A do loop after the run of its body; `idle`: the run took no decision.
  function DoOn(m: Reading, body: Stmt, cond: Option<nat>, lab: Option<nat>, r: Run, idle: bool): Run {
    if Continued(lab, r) && m.Watched? then r.(out := Lost)
    else if Continued(lab, r) && m.AsBuilt? then
      if idle then r.(out := Spin) else Prefix(r.tr, ExecDo(m, body, cond, lab, r.rest))
    else if r.out.Normal? || Continued(lab, r) then TestLast(m, body, cond, lab, r)
    else EndLoop(lab, r)
  }

  function TestLast(m: Reading, body: Stmt, cond: Option<nat>, lab: Option<nat>, r: Run): Run {
    if r.rest == [] then Run(r.tr + CondList(cond), Stuck, [])
    else if !r.rest[0] then Run(r.tr + CondList(cond), Normal, r.rest[1..])
    else Prefix(r.tr + CondList(cond), ExecDo(m, body, cond, lab, r.rest[1..]))
  }

  lemma DoIs(m: Reading, body: Stmt, cond: Option<nat>, lab: Option<nat>, o: seq<bool>)
    ensures var r := Exec(m, body, o); ExecDo(m, body, cond, lab, o) == DoOn(m, body, cond, lab, r, |r.rest| == |o|)
  {
    hide Exec;
  }

  lemma {:induction false} DoLonger(m: Reading, body: Stmt, cond: Option<nat>, lab: Option<nat>, p: seq<bool>, q: seq<bool>)
    ensures Longer(ExecDo(m, body, cond, lab, p), ExecDo(m, body, cond, lab, p + q), q)
    decreases |p|, body, 2
  {
    hide Exec, ExecDo, EndLoop, Continued, TestLast;
    RunLonger(m, body, p, q);
    DoIs(m, body, cond, lab, p);
    DoIs(m, body, cond, lab, p + q);
    var r, r' := Exec(m, body, p), Exec(m, body, p + q);
    if r.out.Stuck? {
      StuckDoGoesOn(m, body, cond, lab, r, r', |r.rest| == |p|, |r'.rest| == |p + q|, q);
    } else {
      SameContinued(lab, r, r');
      if Continued(lab, r) && m.AsBuilt? {
        if |r.rest| < |p| {
          DoLonger(m, body, cond, lab, r.rest, q);
          LongerMore(r.tr, lab, ExecDo(m, body, cond, lab, r.rest), ExecDo(m, body, cond, lab, r.rest + q), q);
        }
      } else if (r.out.Normal? || Continued(lab, r)) && !(Continued(lab, r) && m.Watched?) {
        if r.rest != [] && r.rest[0] { DoLonger(m, body, cond, lab, r.rest[1..], q); }
        TestLonger(m, body, cond, lab, r, r', q);
      } else {
        LongerMore([], lab, r, r', q);
      }
    }
  }

  lemma TestLonger(m: Reading, body: Stmt, cond: Option<nat>, lab: Option<nat>, r: Run, r': Run, q: seq<bool>)
    requires r' == r.(rest := r.rest + q)
    requires r.rest != [] && r.rest[0] ==>
               Longer(ExecDo(m, body, cond, lab, r.rest[1..]), ExecDo(m, body, cond, lab, r.rest[1..] + q), q)
    ensures Longer(TestLast(m, body, cond, lab, r), TestLast(m, body, cond, lab, r'), q)
  {
    hide Exec, ExecDo;
    if r.rest == [] { assert r'.rest == q; } else { assert r'.rest[1..] == r.rest[1..] + q; }
  }

  lemma StuckDoGoesOn(m: Reading, body: Stmt, cond: Option<nat>, lab: Option<nat>, r: Run, r': Run, idle: bool, idle': bool,
                      q: seq<bool>)
    requires r.out.Stuck? && Longer(r, r', q)
    ensures Longer(DoOn(m, body, cond, lab, r, idle), DoOn(m, body, cond, lab, r', idle'), q)
  {
    hide Exec, ExecDo;
  }

  // A run that takes no decision leaves them all.
  lemma RestIsAll(m: Reading, s: Stmt, o: seq<bool>)
    requires |Exec(m, s, o).rest| == |o|
    ensures Exec(m, s, o).rest == o
  {
    RunLonger(m, s, [], o);
    assert [] + o == o;
  }
}
