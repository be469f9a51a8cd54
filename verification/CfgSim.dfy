/** Jump targets, and what it means for a stretch of the graph to behave like a statement. */
module CfgSim {
  import opened Options
  import opened CfgBlocks
  import opened CfgSource
  import opened CfgRuns

  // An entry of a target stack: the block, the string index of its label, and whether it is the
  // join of a statement that only a labelled jump can leave.
  datatype Target = Target(bb: nat, lab: nat, plain: bool)

  datatype Env = Env(breaks: seq<Target>, conts: seq<Target>, throws: seq<Target>, exit: nat)

  predicate Answers(e: Target, t: nat) {
    if t == 0 then !e.plain else e.lab == t
  }

  // The innermost entry that answers the jump.
  function Resolve(stack: seq<Target>, t: nat): Option<nat>
    decreases |stack|
  {
    if stack == [] then None
    else if Answers(stack[|stack| - 1], t) then Some(stack[|stack| - 1].bb)
    else Resolve(stack[..|stack| - 1], t)
  }

  lemma ResolvePush(stack: seq<Target>, e: Target, t: nat)
    ensures Resolve(stack + [e], t) == if Answers(e, t) then Some(e.bb) else Resolve(stack, t)
  {
    assert (stack + [e])[..|stack|] == stack;
  }

  // The labels of a target stack.
  function Labels(stack: seq<Target>): (r: seq<(nat, bool)>)
    ensures |r| == |stack|
    ensures forall i :: 0 <= i < |stack| ==> r[i] == (stack[i].lab, stack[i].plain)
  {
    seq(|stack|, i requires 0 <= i < |stack| => (stack[i].lab, stack[i].plain))
  }

  function ScopeOf(env: Env): Scope {
    Scope(Labels(env.breaks), Labels(env.conts))
  }

  lemma {:induction false} ResolveSome(stack: seq<Target>, t: nat)
    ensures Resolve(stack, t).Some? <==> HasTarget(Labels(stack), t)
    decreases |stack|
  {
    if stack != [] {
      var n := |stack| - 1;
      ResolveSome(stack[..n], t);
      assert Labels(stack) == Labels(stack[..n]) + [(stack[n].lab, stack[n].plain)];
    }
  }

  lemma ScopePush(env: Env, lab: Option<nat>, a: nat, b: nat)
    ensures ScopeOf(PushBreak(env, lab, a)) == InLabel(ScopeOf(env), lab)
    ensures ScopeOf(PushLoop(env, lab, a, b)) == InLoop(ScopeOf(env), lab)
  {
  }

  function PushBreak(env: Env, lab: Option<nat>, join: nat): Env {
    if lab.Some? then env.(breaks := env.breaks + [Target(join, lab.value, true)]) else env
  }

  function PushLoop(env: Env, lab: Option<nat>, exit: nat, header: nat): Env {
    env.(breaks := env.breaks + [Target(exit, LabelIdx(lab), false)],
         conts := env.conts + [Target(header, LabelIdx(lab), false)])
  }

  // -------- Runs of the graph that follow a run of the source

  ghost predicate LeadsTo(f: Blocks, c: Conf, r: Run, b: nat, k: nat) {
    Leads(f, c, Conf(b, k, r.rest, c.tr + r.tr))
  }

  ghost predicate LeadsToTarget(f: Blocks, c: Conf, r: Run, b: Option<nat>) {
    b.Some? && LeadsTo(f, c, r, b.value, 0)
  }

  ghost predicate StopsAtBranch(f: Blocks, c: Conf, r: Run) {
    r.rest == [] && exists c' :: Leads(f, c, c') && AtBranch(f, c') && c'.tr == c.tr + r.tr
  }

  // From `c` the graph does what `r` did: a normal end leads to statement `k` of block `b`, a jump
  // to the start of the block it resolves to.
  ghost predicate Follows(f: Blocks, c: Conf, r: Run, b: nat, k: nat, env: Env) {
    match r.out
    case Normal => LeadsTo(f, c, r, b, k)
    case Brk(t) => LeadsToTarget(f, c, r, Resolve(env.breaks, t))
    case Cont(t) => LeadsToTarget(f, c, r, Resolve(env.conts, t))
    case Leave => LeadsTo(f, c, r, env.exit, 0)
    case Stuck => StopsAtBranch(f, c, r)
    case Spin => GoesOn(f, c)
    case Lost => false
  }

  // The walk never ends.
  ghost predicate GoesOn(f: Blocks, c: Conf) {
    forall n: nat :: Walk(f, c, n).Some?
  }

  lemma GoesOnFrom(f: Blocks, c: Conf, c': Conf)
    requires Leads(f, c, c') && GoesOn(f, c')
    ensures GoesOn(f, c)
  {
    var m: nat :| Walk(f, c, m) == Some(c');
    forall n: nat
      ensures Walk(f, c, n).Some?
    {
      if n >= m {
        WalkAdd(f, c, m, c', n - m);
      } else if Walk(f, c, n).None? {
        WalkStops(f, c, n, m);
      }
    }
  }

  lemma {:induction false} WalkStops(f: Blocks, c: Conf, n: nat, m: nat)
    requires n <= m && Walk(f, c, n).None?
    ensures Walk(f, c, m).None?
    decreases n
  {
    if Next(f, c).Some? { WalkStops(f, Next(f, c).value, n - 1, m - 1); }
  }

  ghost predicate Simulates(f: Blocks, b0: nat, k0: nat, s: Stmt, b: nat, k: nat, env: Env) {
    forall o, tr :: Follows(f, Conf(b0, k0, o, tr), Exec(AsBuilt, s, o), b, k, env)
  }

  ghost predicate SimulatesAll(f: Blocks, b0: nat, k0: nat, ss: seq<Stmt>, b: nat, k: nat, env: Env) {
    forall o, tr :: Follows(f, Conf(b0, k0, o, tr), ExecAll(AsBuilt, ss, o), b, k, env)
  }

  // Walking first from `c` to `c'`, along the statements `pre`.
  lemma FollowsAfter(f: Blocks, c: Conf, pre: seq<nat>, c': Conf, r: Run, b: nat, k: nat, env: Env)
    requires Leads(f, c, c') && c'.tr == c.tr + pre && Follows(f, c', r, b, k, env)
    ensures Follows(f, c, Prefix(pre, r), b, k, env)
  {
    assert c.tr + (pre + r.tr) == c'.tr + r.tr;
    match r.out {
      case Normal => LeadsTrans(f, c, c', Conf(b, k, r.rest, c'.tr + r.tr));
      case Brk(t) => LeadsTrans(f, c, c', Conf(Resolve(env.breaks, t).value, 0, r.rest, c'.tr + r.tr));
      case Cont(t) => LeadsTrans(f, c, c', Conf(Resolve(env.conts, t).value, 0, r.rest, c'.tr + r.tr));
      case Leave => LeadsTrans(f, c, c', Conf(env.exit, 0, r.rest, c'.tr + r.tr));
      case Stuck =>
        var c'' :| Leads(f, c', c'') && AtBranch(f, c'') && c''.tr == c'.tr + r.tr;
        LeadsTrans(f, c, c', c'');
      case Spin => GoesOnFrom(f, c, c');
    }
  }

  // A run that did not end normally does not depend on where a normal end leads.
  lemma FollowsElsewhere(f: Blocks, c: Conf, r: Run, b: nat, k: nat, b': nat, k': nat, env: Env)
    requires Follows(f, c, r, b, k, env) && !r.out.Normal?
    ensures Follows(f, c, r, b', k', env)
  {
  }

  // The end block has one edge, to `b'`.
  lemma FollowsEdge(f: Blocks, c: Conf, r: Run, b: nat, k: nat, b': nat, env: Env)
    requires Follows(f, c, r, b, k, env)
    requires r.out.Normal? ==> b < |f| && k == |f[b].stmts| && f[b].succs == [b']
    ensures Follows(f, c, r, b', 0, env)
  {
    if r.out.Normal? {
      var d := Conf(b, k, r.rest, c.tr + r.tr);
      LeadsNext(f, d);
      LeadsTrans(f, c, d, Conf(b', 0, r.rest, c.tr + r.tr));
    }
  }

  // Leaving a labelled statement: a break with its label ends at its join.
  lemma FollowsLabel(f: Blocks, c: Conf, r: Run, lab: Option<nat>, join: nat, env: Env)
    requires Follows(f, c, r, join, 0, PushBreak(env, lab, join))
    ensures Follows(f, c, AfterLabel(lab, r), join, 0, env)
  {
    if lab.Some? && r.out.Brk? {
      ResolvePush(env.breaks, Target(join, lab.value, true), r.out.target);
    }
  }

  // -------- Sequences

  lemma SimNil(f: Blocks, b: nat, k: nat, env: Env)
    ensures SimulatesAll(f, b, k, [], b, k, env)
  {
    forall o, tr
      ensures Follows(f, Conf(b, k, o, tr), ExecAll(AsBuilt, [], o), b, k, env)
    {
      assert tr + [] == tr;
      LeadsRefl(f, Conf(b, k, o, tr));
    }
  }

  lemma SimCons(f: Blocks, b0: nat, k0: nat, s: Stmt, b1: nat, k1: nat, ss: seq<Stmt>, b2: nat, k2: nat, env: Env)
    requires Simulates(f, b0, k0, s, b1, k1, env)
    requires EndsInJump(s) || SimulatesAll(f, b1, k1, ss, b2, k2, env)
    ensures SimulatesAll(f, b0, k0, [s] + ss, b2, k2, env)
  {
    forall o, tr
      ensures Follows(f, Conf(b0, k0, o, tr), ExecAll(AsBuilt, [s] + ss, o), b2, k2, env)
    {
      var c, r := Conf(b0, k0, o, tr), Exec(AsBuilt, s, o);
      assert Follows(f, c, r, b1, k1, env);
      assert ([s] + ss)[1..] == ss;
      if r.out.Normal? {
        if EndsInJump(s) { NeverNormal(s, o); }
        var c' := Conf(b1, k1, r.rest, tr + r.tr);
        assert Follows(f, c', ExecAll(AsBuilt, ss, r.rest), b2, k2, env);
        FollowsAfter(f, c, r.tr, c', ExecAll(AsBuilt, ss, r.rest), b2, k2, env);
      } else {
        FollowsElsewhere(f, c, r, b1, k1, b2, k2, env);
      }
    }
  }

  lemma {:induction false} NeverNormal(s: Stmt, o: seq<bool>)
    requires EndsInJump(s)
    ensures !Exec(AsBuilt, s, o).out.Normal?
    decreases s, 1
  {
    if s.BlockOf? {
      NeverNormalAll(s.stmts, o);
    }
  }

  lemma {:induction false} NeverNormalAll(ss: seq<Stmt>, o: seq<bool>)
    requires exists t :: t in ss && EndsInJump(t)
    ensures !ExecAll(AsBuilt, ss, o).out.Normal?
    decreases ss, 0
  {
    if EndsInJump(ss[0]) {
      NeverNormal(ss[0], o);
    } else {
      assert ss == [ss[0]] + ss[1..];
      NeverNormalAll(ss[1..], Exec(AsBuilt, ss[0], o).rest);
    }
  }

  // -------- Single statements

  lemma SimSimple(f: Blocks, b: nat, k: nat, id: nat, env: Env)
    requires b < |f| && k < |f[b].stmts| && f[b].stmts[k] == id
    ensures Simulates(f, b, k, Simple(id), b, k + 1, env)
  {
    forall o, tr
      ensures Follows(f, Conf(b, k, o, tr), Exec(AsBuilt, Simple(id), o), b, k + 1, env)
    {
      LeadsNext(f, Conf(b, k, o, tr));
    }
  }

  lemma SimJump(f: Blocks, b: nat, k: nat, s: Stmt, target: nat, b1: nat, k1: nat, env: Env)
    requires s.Return? || s.Throw? || s.Break? || s.Continue?
    requires b < |f| && k + 1 == |f[b].stmts| && f[b].stmts[k] == s.id && f[b].succs == [target]
    requires s.Return? || s.Throw? ==> target == env.exit
    requires s.Break? ==> Resolve(env.breaks, s.target) == Some(target)
    requires s.Continue? ==> Resolve(env.conts, s.target) == Some(target)
    ensures Simulates(f, b, k, s, b1, k1, env)
  {
    forall o, tr
      ensures Follows(f, Conf(b, k, o, tr), Exec(AsBuilt, s, o), b1, k1, env)
    {
      var c := Conf(b, k, o, tr);
      LeadsNext(f, c);
      LeadsNext(f, Conf(b, k + 1, o, tr + [s.id]));
      LeadsTrans(f, c, Conf(b, k + 1, o, tr + [s.id]), Conf(target, 0, o, tr + [s.id]));
    }
  }

  // A block that ends in a branch, with the branch's condition as its last statement.
  ghost predicate Branches(f: Blocks, b: nat, k: nat, cond: Option<nat>, yes: nat, no: nat) {
    && b < |f| && k + |CondList(cond)| == |f[b].stmts|
    && f[b].stmts[k..] == CondList(cond) && f[b].succs == [yes, no]
  }

  lemma BranchLeads(f: Blocks, b: nat, k: nat, cond: Option<nat>, yes: nat, no: nat, o: seq<bool>, tr: seq<nat>)
    requires Branches(f, b, k, cond, yes, no)
    ensures o == [] ==> StopsAtBranch(f, Conf(b, k, o, tr), Run(CondList(cond), Stuck, []))
    ensures o != [] ==>
              Leads(f, Conf(b, k, o, tr), Conf(if o[0] then yes else no, 0, o[1..], tr + CondList(cond)))
  {
    var c := Conf(b, k, o, tr);
    assert f[b].stmts[k..k + |CondList(cond)|] == f[b].stmts[k..];
    LeadsStmts(f, b, k, o, tr, CondList(cond));
    var d := Conf(b, k + |CondList(cond)|, o, tr + CondList(cond));
    if o == [] {
      assert AtBranch(f, d);
    } else {
      LeadsNext(f, d);
      LeadsTrans(f, c, d, Conf(if o[0] then yes else no, 0, o[1..], tr + CondList(cond)));
    }
  }

  // The end of a branch or loop body: unless the body ends in a jump, one edge leads on.
  ghost predicate Continues1(f: Blocks, s: Stmt, b: nat, k: nat, next: nat) {
    EndsInJump(s) || (b < |f| && k == |f[b].stmts| && f[b].succs == [next])
  }

  lemma BodyFollows(f: Blocks, b0: nat, s: Stmt, b: nat, k: nat, next: nat, env: Env, o: seq<bool>, tr: seq<nat>)
    requires Simulates(f, b0, 0, s, b, k, env) && Continues1(f, s, b, k, next)
    ensures Follows(f, Conf(b0, 0, o, tr), Exec(AsBuilt, s, o), next, 0, env)
  {
    var c, r := Conf(b0, 0, o, tr), Exec(AsBuilt, s, o);
    assert Follows(f, c, r, b, k, env);
    if EndsInJump(s) {
      NeverNormal(s, o);
      FollowsElsewhere(f, c, r, b, k, next, 0, env);
    } else {
      FollowsEdge(f, c, r, b, k, next, env);
    }
  }

  lemma SimIf(f: Blocks, b0: nat, k0: nat, s: Stmt, yes: nat, b1: nat, k1: nat, no: nat, b2: nat, k2: nat,
              join: nat, env: Env)
    requires s.If? && Branches(f, b0, k0, s.cond, yes, no)
    requires Simulates(f, yes, 0, s.thn, b1, k1, PushBreak(env, s.lab, join)) && Continues1(f, s.thn, b1, k1, join)
    requires s.els.None? ==> no == join
    requires s.els.Some? ==> Simulates(f, no, 0, s.els.value, b2, k2, PushBreak(env, s.lab, join))
                             && Continues1(f, s.els.value, b2, k2, join)
    ensures Simulates(f, b0, k0, s, join, 0, env)
  {
    var env1 := PushBreak(env, s.lab, join);
    forall o, tr
      ensures Follows(f, Conf(b0, k0, o, tr), Exec(AsBuilt, s, o), join, 0, env)
    {
      var c, pre := Conf(b0, k0, o, tr), CondList(s.cond);
      BranchLeads(f, b0, k0, s.cond, yes, no, o, tr);
      if o != [] {
        var c' := Conf(if o[0] then yes else no, 0, o[1..], tr + pre);
        if o[0] {
          BodyFollows(f, yes, s.thn, b1, k1, join, env1, o[1..], tr + pre);
          FollowsLabel(f, c', Exec(AsBuilt, s.thn, o[1..]), s.lab, join, env);
          FollowsAfter(f, c, pre, c', AfterLabel(s.lab, Exec(AsBuilt, s.thn, o[1..])), join, 0, env);
        } else if s.els.Some? {
          BodyFollows(f, no, s.els.value, b2, k2, join, env1, o[1..], tr + pre);
          FollowsLabel(f, c', Exec(AsBuilt, s.els.value, o[1..]), s.lab, join, env);
          FollowsAfter(f, c, pre, c', AfterLabel(s.lab, Exec(AsBuilt, s.els.value, o[1..])), join, 0, env);
        }
      }
    }
  }

  // -------- Loops

  // The body of a loop, left normally or by a jump that stays in the loop, reaches `next`; a break
  // of the loop reaches its exit.
  lemma LoopBody(f: Blocks, c: Conf, r: Run, lab: Option<nat>, next: nat, header: nat, exit: nat, env: Env)
    requires Follows(f, c, r, next, 0, PushLoop(env, lab, exit, header))
    ensures Continued(lab, r) ==> LeadsTo(f, c, r, header, 0)
    ensures !r.out.Normal? && !Continued(lab, r) ==>
              Follows(f, c, EndLoop(lab, r), exit, 0, env)
  {
    if r.out.Brk? {
      ResolvePush(env.breaks, Target(exit, LabelIdx(lab), false), r.out.target);
    }
    if r.out.Cont? {
      ResolvePush(env.conts, Target(header, LabelIdx(lab), false), r.out.target);
    }
  }

  // The last block of a loop body holds the updates and leads back to the header.
  ghost predicate LoopsBack(f: Blocks, s: Stmt, b: nat, k: nat, updates: seq<nat>, header: nat) {
    EndsInJump(s)
    || (b < |f| && k + |updates| == |f[b].stmts| && f[b].stmts[k..] == updates && f[b].succs == [header])
  }

  lemma {:induction false} SimLoop(f: Blocks, header: nat, cond: Option<nat>, body: Stmt, updates: seq<nat>,
      lab: Option<nat>, first: nat, exit: nat, b: nat, k: nat, env: Env, o: seq<bool>, tr: seq<nat>)
    requires Branches(f, header, 0, cond, first, exit)
    requires Simulates(f, first, 0, body, b, k, PushLoop(env, lab, exit, header))
    requires LoopsBack(f, body, b, k, updates, header)
    ensures Follows(f, Conf(header, 0, o, tr), ExecLoop(AsBuilt, cond, body, updates, lab, o), exit, 0, env)
    decreases |o|
  {
    hide LoopsBack, Branches, Exec, ExecLoop, Simulates, LoopTarget, Follows, Leads, EndLoop;
    var c, pre := Conf(header, 0, o, tr), CondList(cond);
    if o == [] || !o[0] {
      LoopTested(f, header, cond, body, updates, lab, first, exit, env, o, tr);
    } else {
      LoopIs(AsBuilt, cond, body, updates, lab, o);
      BranchTaken(f, header, cond, first, exit, o, tr);
      var c1, r := Conf(first, 0, o[1..], tr + pre), Exec(AsBuilt, body, o[1..]);
      var env1 := PushLoop(env, lab, exit, header);
      BodyRun(f, first, body, b, k, env1, o[1..], tr + pre);
      if r.out.Normal? || Continued(lab, r) {
        var work := if r.out.Normal? then updates else [];
        RoundEnds(f, c1, body, r, updates, lab, header, exit, b, k, env);
        var c2 := Conf(header, 0, r.rest, tr + pre + r.tr + work);
        LeadsTrans(f, c, c1, c2);
        SimLoop(f, header, cond, body, updates, lab, first, exit, b, k, env, r.rest, c2.tr);
        assert c2.tr == tr + (pre + r.tr + work);
        FollowsAfter(f, c, pre + r.tr + work, c2, ExecLoop(AsBuilt, cond, body, updates, lab, r.rest), exit, 0, env);
      } else {
        FollowsElsewhere(f, c1, r, b, k, exit, 0, env1);
        LoopBody(f, c1, r, lab, exit, header, exit, env);
        FollowsAfter(f, c, pre, c1, EndLoop(lab, r), exit, 0, env);
      }
    }
  }

  lemma BranchTaken(f: Blocks, header: nat, cond: Option<nat>, first: nat, exit: nat, o: seq<bool>, tr: seq<nat>)
    requires Branches(f, header, 0, cond, first, exit) && o != [] && o[0]
    ensures Leads(f, Conf(header, 0, o, tr), Conf(first, 0, o[1..], tr + CondList(cond)))
  {
    BranchLeads(f, header, 0, cond, first, exit, o, tr);
  }

  lemma LoopTested(f: Blocks, header: nat, cond: Option<nat>, body: Stmt, updates: seq<nat>, lab: Option<nat>,
                   first: nat, exit: nat, env: Env, o: seq<bool>, tr: seq<nat>)
    requires Branches(f, header, 0, cond, first, exit) && (o == [] || !o[0])
    ensures Follows(f, Conf(header, 0, o, tr), ExecLoop(AsBuilt, cond, body, updates, lab, o), exit, 0, env)
  {
    BranchLeads(f, header, 0, cond, first, exit, o, tr);
  }

  lemma BodyRun(f: Blocks, b0: nat, s: Stmt, b: nat, k: nat, env: Env, o: seq<bool>, tr: seq<nat>)
    requires Simulates(f, b0, 0, s, b, k, env)
    ensures Follows(f, Conf(b0, 0, o, tr), Exec(AsBuilt, s, o), b, k, env)
  {
  }

  // One round of the loop ends at the header, with the updates done unless it was cut short.
  lemma RoundEnds(f: Blocks, c: Conf, body: Stmt, r: Run, updates: seq<nat>, lab: Option<nat>, header: nat,
                  exit: nat, b: nat, k: nat, env: Env)
    requires r == Exec(AsBuilt, body, c.o) && Follows(f, c, r, b, k, PushLoop(env, lab, exit, header))
    requires LoopsBack(f, body, b, k, updates, header)
    requires r.out.Normal? || Continued(lab, r)
    ensures Leads(f, c, Conf(header, 0, r.rest, c.tr + r.tr + if r.out.Normal? then updates else []))
  {
    if r.out.Normal? {
      var end := Conf(header, 0, r.rest, c.tr + r.tr + updates);
      if EndsInJump(body) { NeverNormal(body, c.o); }
      var d := Conf(b, k, r.rest, c.tr + r.tr);
      assert f[b].stmts[k..k + |updates|] == f[b].stmts[k..];
      LeadsStmts(f, b, k, r.rest, d.tr, updates);
      var d' := Conf(b, k + |updates|, r.rest, d.tr + updates);
      LeadsNext(f, d');
      LeadsTrans(f, c, d, d');
      LeadsTrans(f, c, d', end);
    } else {
      assert c.tr + r.tr + [] == c.tr + r.tr;
      FollowsElsewhere(f, c, r, b, k, exit, 0, PushLoop(env, lab, exit, header));
      LoopBody(f, c, r, lab, exit, header, exit, env);
    }
  }

  // The last block of a do loop's body holds its condition and branches to the header and the exit.
  ghost predicate LoopsDown(f: Blocks, s: Stmt, b: nat, k: nat, cond: Option<nat>, header: nat, exit: nat) {
    EndsInJump(s) || Branches(f, b, k, cond, header, exit)
  }

  // What a do loop's header leads to, and what its body does.
  ghost predicate DoShape(f: Blocks, header: nat, body: Stmt, cond: Option<nat>, lab: Option<nat>,
                          first: nat, exit: nat, b: nat, k: nat, env: Env) {
    && header < |f| && f[header].stmts == [] && f[header].succs == [first]
    && Simulates(f, first, 0, body, b, k, PushLoop(env, lab, exit, header))
    && LoopsDown(f, body, b, k, cond, header, exit)
  }

  // A round of a do loop that is cut short leads back to the header.
  lemma RoundBack(f: Blocks, header: nat, body: Stmt, cond: Option<nat>, lab: Option<nat>, first: nat, exit: nat,
                  b: nat, k: nat, env: Env, o: seq<bool>, tr: seq<nat>)
    requires DoShape(f, header, body, cond, lab, first, exit, b, k, env) && Continued(lab, Exec(AsBuilt, body, o))
    ensures var r := Exec(AsBuilt, body, o);
            && Next(f, Conf(header, 0, o, tr)) == Some(Conf(first, 0, o, tr))
            && Leads(f, Conf(first, 0, o, tr), Conf(header, 0, r.rest, tr + r.tr))
  {
    var c1, r := Conf(first, 0, o, tr), Exec(AsBuilt, body, o);
    assert Follows(f, c1, r, b, k, PushLoop(env, lab, exit, header));
    FollowsElsewhere(f, c1, r, b, k, exit, 0, PushLoop(env, lab, exit, header));
    LoopBody(f, c1, r, lab, exit, header, exit, env);
  }

  // A round that takes no decision and is cut short is repeated for ever.
  lemma {:induction false} RoundsGoOn(f: Blocks, header: nat, body: Stmt, cond: Option<nat>, lab: Option<nat>, first: nat,
                                      exit: nat, b: nat, k: nat, env: Env, o: seq<bool>, tr: seq<nat>, n: nat)
    requires DoShape(f, header, body, cond, lab, first, exit, b, k, env) && Continued(lab, Exec(AsBuilt, body, o))
    requires Exec(AsBuilt, body, o).rest == o
    ensures Walk(f, Conf(header, 0, o, tr), n).Some?
    decreases n
  {
    hide DoShape, Exec;
    var r := Exec(AsBuilt, body, o);
    RoundBack(f, header, body, cond, lab, first, exit, b, k, env, o, tr);
    if n > 0 {
      var c1, c2 := Conf(first, 0, o, tr), Conf(header, 0, o, tr + r.tr);
      var m: nat :| Walk(f, c1, m) == Some(c2);
      if n - 1 >= m {
        WalkAdd(f, c1, m, c2, n - 1 - m);
        RoundsGoOn(f, header, body, cond, lab, first, exit, b, k, env, o, tr + r.tr, n - 1 - m);
      } else if Walk(f, c1, n - 1).None? {
        WalkStops(f, c1, n - 1, m);
      }
    }
  }

  lemma {:induction false} SimDo(f: Blocks, header: nat, body: Stmt, cond: Option<nat>, lab: Option<nat>,
      first: nat, exit: nat, b: nat, k: nat, env: Env, o: seq<bool>, tr: seq<nat>)
    requires DoShape(f, header, body, cond, lab, first, exit, b, k, env)
    ensures Follows(f, Conf(header, 0, o, tr), ExecDo(AsBuilt, body, cond, lab, o), exit, 0, env)
    decreases |o|
  {
    var c, c1, r := Conf(header, 0, o, tr), Conf(first, 0, o, tr), Exec(AsBuilt, body, o);
    var env1 := PushLoop(env, lab, exit, header);
    LeadsNext(f, c);
    assert Follows(f, c1, r, b, k, env1);
    if Continued(lab, r) {
      DoCutShort(f, header, body, cond, lab, first, exit, b, k, env, o, tr);
      if |r.rest| < |o| {
        var c2 := Conf(header, 0, r.rest, tr + r.tr);
        SimDo(f, header, body, cond, lab, first, exit, b, k, env, r.rest, c2.tr);
        FollowsAfter(f, c, r.tr, c2, ExecDo(AsBuilt, body, cond, lab, r.rest), exit, 0, env);
      }
    } else if r.out.Normal? {
      if EndsInJump(body) { NeverNormal(body, o); }
      var d := Conf(b, k, r.rest, tr + r.tr);
      LeadsTrans(f, c, c1, d);
      BranchLeads(f, b, k, cond, header, exit, r.rest, d.tr);
      if r.rest == [] {
        FollowsAfter(f, c, r.tr, d, Run(CondList(cond), Stuck, []), exit, 0, env);
      } else {
        var c2 := Conf(if r.rest[0] then header else exit, 0, r.rest[1..], d.tr + CondList(cond));
        LeadsTrans(f, c, d, c2);
        assert c2.tr == tr + (r.tr + CondList(cond));
        if r.rest[0] {
          SimDo(f, header, body, cond, lab, first, exit, b, k, env, r.rest[1..], c2.tr);
          FollowsAfter(f, c, r.tr + CondList(cond), c2, ExecDo(AsBuilt, body, cond, lab, r.rest[1..]), exit, 0, env);
        }
      }
    } else {
      FollowsElsewhere(f, c1, r, b, k, exit, 0, env1);
      LoopBody(f, c1, r, lab, exit, header, exit, env);
      assert tr + [] == tr;
      FollowsAfter(f, c, [], c1, EndLoop(lab, r), exit, 0, env);
      assert Prefix([], EndLoop(lab, r)) == EndLoop(lab, r);
    }
  }

  lemma DoCutShort(f: Blocks, header: nat, body: Stmt, cond: Option<nat>, lab: Option<nat>, first: nat, exit: nat,
                   b: nat, k: nat, env: Env, o: seq<bool>, tr: seq<nat>)
    requires DoShape(f, header, body, cond, lab, first, exit, b, k, env) && Continued(lab, Exec(AsBuilt, body, o))
    ensures var c, r := Conf(header, 0, o, tr), Exec(AsBuilt, body, o);
            && Leads(f, c, Conf(header, 0, r.rest, tr + r.tr))
            && (|r.rest| == |o| ==> GoesOn(f, c))
  {
    hide DoShape, Exec;
    var c, r := Conf(header, 0, o, tr), Exec(AsBuilt, body, o);
    RoundBack(f, header, body, cond, lab, first, exit, b, k, env, o, tr);
    LeadsNext(f, c);
    LeadsTrans(f, c, Conf(first, 0, o, tr), Conf(header, 0, r.rest, tr + r.tr));
    if |r.rest| == |o| {
      RestIsAll(AsBuilt, body, o);
      forall n: nat
        ensures Walk(f, c, n).Some?
      {
        RoundsGoOn(f, header, body, cond, lab, first, exit, b, k, env, o, tr, n);
      }
    }
  }
}
