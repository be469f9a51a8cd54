/** Where the graph means the source: exactly when no run meets a continue that is meant for a for
    loop with updates or for a do loop. */
module CfgContinue {
  import opened Options
  import opened CfgBlocks
  import opened CfgSource
  import opened CfgRuns
  import opened CfgSim
  import opened CfgSpec
  import opened CfgFunction

  // -------- Runs that meet no such continue

  lemma {:induction false} ReadingsAgree(s: Stmt, o: seq<bool>)
    requires !Exec(Watched, s, o).out.Lost?
    ensures Exec(AsWritten, s, o) == Exec(Watched, s, o) == Exec(AsBuilt, s, o)
    decreases |o|, s, 1
  {
    hide ExecAll, ExecLoop, ExecDo;
    match s {
      case If(_, thn, els, _) =>
        if o != [] && o[0] { ReadingsAgree(thn, o[1..]); } else if o != [] && els.Some? { ReadingsAgree(els.value, o[1..]); }
      case While(cond, body, lab) => LoopsAgree(cond, body, [], lab, o);
      case For(_, cond, body, updates, lab) => LoopsAgree(cond, body, updates, lab, o);
      case Do(body, cond, lab) => DosAgree(body, cond, lab, o);
      case BlockOf(stmts, _, _) => ListsAgree(stmts, o);
      case _ =>
    }
  }

  lemma {:induction false} ListsAgree(ss: seq<Stmt>, o: seq<bool>)
    requires !ExecAll(Watched, ss, o).out.Lost?
    ensures ExecAll(AsWritten, ss, o) == ExecAll(Watched, ss, o) == ExecAll(AsBuilt, ss, o)
    decreases |o|, ss, 0
  {
    if ss != [] {
      ReadingsAgree(ss[0], o);
      var r := Exec(Watched, ss[0], o);
      if r.out.Normal? { ListsAgree(ss[1..], r.rest); }
    }
  }

  lemma {:induction false} LoopsAgree(cond: Option<nat>, body: Stmt, updates: seq<nat>, lab: Option<nat>, o: seq<bool>)
    requires !ExecLoop(Watched, cond, body, updates, lab, o).out.Lost?
    ensures ExecLoop(AsWritten, cond, body, updates, lab, o) == ExecLoop(Watched, cond, body, updates, lab, o)
    ensures ExecLoop(AsBuilt, cond, body, updates, lab, o) == ExecLoop(Watched, cond, body, updates, lab, o)
    decreases |o|, body, 2
  {
    hide Exec, ExecLoop, Continued, LoopOn;
    if o == [] || !o[0] {
      LoopsStopAlike(cond, body, updates, lab, o);
    } else {
      var r := Exec(Watched, body, o[1..]);
      LoopIs(Watched, cond, body, updates, lab, o);
      LoopIs(AsWritten, cond, body, updates, lab, o);
      LoopIs(AsBuilt, cond, body, updates, lab, o);
      NotLost(cond, body, updates, lab, r);
      ReadingsAgree(body, o[1..]);
      if r.out.Normal? || Continued(lab, r) { LoopsAgree(cond, body, updates, lab, r.rest); }
      RoundsAgree(AsWritten, cond, body, updates, lab, r);
      RoundsAgree(AsBuilt, cond, body, updates, lab, r);
    }
  }

  lemma NotLost(cond: Option<nat>, body: Stmt, updates: seq<nat>, lab: Option<nat>, r: Run)
    requires !LoopOn(Watched, cond, body, updates, lab, r).out.Lost?
    ensures !r.out.Lost? && (updates == [] || !Continued(lab, r))
    ensures r.out.Normal? || Continued(lab, r) ==> !ExecLoop(Watched, cond, body, updates, lab, r.rest).out.Lost?
  {
    hide ExecLoop;
  }

  lemma RoundsAgree(m: Reading, cond: Option<nat>, body: Stmt, updates: seq<nat>, lab: Option<nat>, r: Run)
    requires updates == [] || !Continued(lab, r)
    requires r.out.Normal? || Continued(lab, r) ==>
               ExecLoop(m, cond, body, updates, lab, r.rest) == ExecLoop(Watched, cond, body, updates, lab, r.rest)
    ensures LoopOn(m, cond, body, updates, lab, r) == LoopOn(Watched, cond, body, updates, lab, r)
  {
    hide ExecLoop, Continued;
  }

  lemma LoopsStopAlike(cond: Option<nat>, body: Stmt, updates: seq<nat>, lab: Option<nat>, o: seq<bool>)
    requires o == [] || !o[0]
    ensures forall m :: ExecLoop(m, cond, body, updates, lab, o) == ExecLoop(Watched, cond, body, updates, lab, o)
  {
    hide Exec;
  }

  lemma {:induction false} DosAgree(body: Stmt, cond: Option<nat>, lab: Option<nat>, o: seq<bool>)
    requires !ExecDo(Watched, body, cond, lab, o).out.Lost?
    ensures ExecDo(AsWritten, body, cond, lab, o) == ExecDo(Watched, body, cond, lab, o) == ExecDo(AsBuilt, body, cond, lab, o)
    decreases |o|, body, 2
  {
    hide Exec, ExecDo;
    var r := Exec(Watched, body, o);
    DoIs(Watched, body, cond, lab, o);
    DoIs(AsWritten, body, cond, lab, o);
    DoIs(AsBuilt, body, cond, lab, o);
    ReadingsAgree(body, o);
    if r.out.Normal? && r.rest != [] && r.rest[0] { DosAgree(body, cond, lab, r.rest[1..]); }
  }

  // The graph of a function does what its body does. Under any decisions that do not make the body meet
  // such a continue, the walk from the entry block lists the statements the body runs; it ends at the
  // exit block, or at a branch when the body has no decision left.
  lemma GraphMeansBody(bbs: Blocks, body: Stmt, o: seq<bool>)
    requires Tidy(body) && Scoped(body, NO_SCOPE) && !Exec(Watched, body, o).out.Lost?
    ensures Matches(BuildFunction(bbs, body), |bbs|, o, Exec(AsWritten, body, o))
    ensures Keeps(bbs, BuildFunction(bbs, body), {})
  {
    hide Matches, Exec, Tidy, Scoped, BuildFunction;
    ReadingsAgree(body, o);
    GraphRuns(bbs, body, o);
  }

  // -------- Bodies without such a continue

  // A run that ends in a continue has met one in the source.
  lemma {:induction false} ContinueSeen(s: Stmt, o: seq<bool>, lab: Option<nat>, bare: bool)
    requires Exec(Watched, s, o).out.Cont?
    requires (Exec(Watched, s, o).out.target == 0 && bare) || HasLabel(lab, Exec(Watched, s, o).out.target)
    ensures ContinuesTo(s, lab, bare)
    decreases |o|, s, 1
  {
    match s {
      case If(_, thn, els, _) =>
        if o[0] { ContinueSeen(thn, o[1..], lab, bare); } else { ContinueSeen(els.value, o[1..], lab, bare); }
      case While(cond, body, inner) => ContinueSeenLoop(cond, body, [], inner, o, lab);
      case For(_, cond, body, updates, inner) => ContinueSeenLoop(cond, body, updates, inner, o, lab);
      case Do(body, cond, inner) => ContinueSeenDo(body, cond, inner, o, lab);
      case BlockOf(stmts, _, _) => ContinueSeenAll(stmts, o, lab, bare);
      case _ =>
    }
  }

  lemma {:induction false} ContinueSeenAll(ss: seq<Stmt>, o: seq<bool>, lab: Option<nat>, bare: bool)
    requires ExecAll(Watched, ss, o).out.Cont?
    requires (ExecAll(Watched, ss, o).out.target == 0 && bare) || HasLabel(lab, ExecAll(Watched, ss, o).out.target)
    ensures exists t :: t in ss && ContinuesTo(t, lab, bare)
    decreases |o|, ss, 0
  {
    if Exec(Watched, ss[0], o).out.Normal? {
      ContinueSeenAll(ss[1..], Exec(Watched, ss[0], o).rest, lab, bare);
    } else {
      ContinueSeen(ss[0], o, lab, bare);
    }
  }

  lemma {:induction false} ContinueSeenLoop(cond: Option<nat>, body: Stmt, updates: seq<nat>, inner: Option<nat>,
                                            o: seq<bool>, lab: Option<nat>)
    requires ExecLoop(Watched, cond, body, updates, inner, o).out.Cont?
    requires HasLabel(lab, ExecLoop(Watched, cond, body, updates, inner, o).out.target)
             || ExecLoop(Watched, cond, body, updates, inner, o).out.target == 0
    ensures ContinuesTo(body, if inner == lab then None else lab, false)
    decreases |o|, body, 2
  {
    var r := Exec(Watched, body, o[1..]);
    if r.out.Normal? || (r.out.Cont? && LoopTarget(inner, r.out.target)) {
      ContinueSeenLoop(cond, body, updates, inner, r.rest, lab);
    } else {
      ContinueSeen(body, o[1..], if inner == lab then None else lab, false);
    }
  }

  lemma {:induction false} ContinueSeenDo(body: Stmt, cond: Option<nat>, inner: Option<nat>,
                                          o: seq<bool>, lab: Option<nat>)
    requires ExecDo(Watched, body, cond, inner, o).out.Cont?
    requires HasLabel(lab, ExecDo(Watched, body, cond, inner, o).out.target) || ExecDo(Watched, body, cond, inner, o).out.target == 0
    ensures ContinuesTo(body, if inner == lab then None else lab, false)
    decreases |o|, body, 2
  {
    var r := Exec(Watched, body, o);
    if r.out.Normal? || (r.out.Cont? && LoopTarget(inner, r.out.target)) {
      ContinueSeenDo(body, cond, inner, r.rest[1..], lab);
    } else {
      ContinueSeen(body, o, if inner == lab then None else lab, false);
    }
  }

  lemma {:induction false} PlainIsNeverLost(s: Stmt, o: seq<bool>)
    requires Plain(s)
    ensures !Exec(Watched, s, o).out.Lost?
    decreases |o|, s, 1
  {
    hide ExecAll, ExecLoop, ExecDo;
    match s {
      case If(_, thn, els, _) =>
        if o != [] && o[0] { PlainIsNeverLost(thn, o[1..]); } else if o != [] && els.Some? { PlainIsNeverLost(els.value, o[1..]); }
      case While(cond, body, lab) => PlainLoop(cond, body, [], lab, o);
      case For(_, cond, body, updates, lab) => PlainLoop(cond, body, updates, lab, o);
      case Do(body, cond, lab) => PlainDo(body, cond, lab, o);
      case BlockOf(stmts, _, _) => PlainList(stmts, o);
      case _ =>
    }
  }

  lemma {:induction false} PlainList(ss: seq<Stmt>, o: seq<bool>)
    requires forall t :: t in ss ==> Plain(t)
    ensures !ExecAll(Watched, ss, o).out.Lost?
    decreases |o|, ss, 0
  {
    if ss != [] {
      PlainIsNeverLost(ss[0], o);
      PlainList(ss[1..], Exec(Watched, ss[0], o).rest);
    }
  }

  lemma {:induction false} PlainLoop(cond: Option<nat>, body: Stmt, updates: seq<nat>, lab: Option<nat>, o: seq<bool>)
    requires Plain(body) && (updates == [] || !Continues(body, lab))
    ensures !ExecLoop(Watched, cond, body, updates, lab, o).out.Lost?
    decreases |o|, body, 2
  {
    if o != [] && o[0] {
      hide Exec, ExecLoop, Continues;
      var r := Exec(Watched, body, o[1..]);
      LoopIs(Watched, cond, body, updates, lab, o);
      PlainIsNeverLost(body, o[1..]);
      if Continued(lab, r) && updates != [] { NotContinued(body, lab, o[1..]); }
      PlainLoop(cond, body, updates, lab, r.rest);
    }
  }

  lemma {:induction false} PlainDo(body: Stmt, cond: Option<nat>, lab: Option<nat>, o: seq<bool>)
    requires Plain(body) && !Continues(body, lab)
    ensures !ExecDo(Watched, body, cond, lab, o).out.Lost?
    decreases |o|, body, 2
  {
    hide Exec, ExecDo, Continues;
    var r := Exec(Watched, body, o);
    DoIs(Watched, body, cond, lab, o);
    PlainIsNeverLost(body, o);
    NotContinued(body, lab, o);
    if r.rest != [] { PlainDo(body, cond, lab, r.rest[1..]); }
  }

  lemma NotContinued(body: Stmt, lab: Option<nat>, o: seq<bool>)
    requires !Continues(body, lab)
    ensures !Continued(lab, Exec(Watched, body, o))
  {
    hide Exec, ContinuesTo;
    if Continued(lab, Exec(Watched, body, o)) { ContinueSeen(body, o, lab, true); }
  }

  // -------- A run that meets one

  // All statements a statement can run.
  function Ids(s: Stmt): set<nat> {
    match s
    case If(cond, thn, els, _) => CondIds(cond) + Ids(thn) + if els.Some? then Ids(els.value) else {}
    case While(cond, body, _) => CondIds(cond) + Ids(body)
    case For(inits, cond, body, updates, _) => (set x | x in inits) + CondIds(cond) + Ids(body) + set x | x in updates
    case Do(body, cond, _) => Ids(body) + CondIds(cond)
    case BlockOf(stmts, _, _) => set t, x | t in stmts && x in Ids(t) :: x
    case _ => {s.id}
  }

  function CondIds(cond: Option<nat>): set<nat> {
    if cond.Some? then {cond.value} else {}
  }

  // Do loops have a condition, which is no statement of their body.
  predicate OwnTests(s: Stmt) {
    match s
    case If(_, thn, els, _) => OwnTests(thn) && (els.Some? ==> OwnTests(els.value))
    case While(_, body, _) => OwnTests(body)
    case For(_, _, body, _, _) => OwnTests(body)
    case Do(body, cond, _) => OwnTests(body) && cond.Some? && cond.value !in Ids(body)
    case BlockOf(stmts, _, _) => forall t :: t in stmts ==> OwnTests(t)
    case _ => true
  }

  ghost predicate Within(tr: seq<nat>, ids: set<nat>) {
    forall x :: x in tr ==> x in ids
  }

  lemma {:induction false} TraceWithin(m: Reading, s: Stmt, o: seq<bool>)
    ensures Within(Exec(m, s, o).tr, Ids(s))
    decreases |o|, s, 1
  {
    hide ExecAll, ExecLoop, ExecDo;
    match s {
      case If(_, thn, els, _) =>
        if o != [] && o[0] { TraceWithin(m, thn, o[1..]); } else if o != [] && els.Some? { TraceWithin(m, els.value, o[1..]); }
      case While(cond, body, lab) => LoopWithin(m, cond, body, [], lab, o);
      case For(_, cond, body, updates, lab) => LoopWithin(m, cond, body, updates, lab, o);
      case Do(body, cond, lab) => DoWithin(m, body, cond, lab, o);
      case BlockOf(stmts, _, _) => ListWithin(m, stmts, o, Ids(s));
      case _ =>
    }
  }

  lemma {:induction false} ListWithin(m: Reading, ss: seq<Stmt>, o: seq<bool>, ids: set<nat>)
    requires forall t :: t in ss ==> Ids(t) <= ids
    ensures Within(ExecAll(m, ss, o).tr, ids)
    decreases |o|, ss, 0
  {
    if ss != [] {
      TraceWithin(m, ss[0], o);
      ListWithin(m, ss[1..], Exec(m, ss[0], o).rest, ids);
    }
  }

  lemma {:induction false} LoopWithin(m: Reading, cond: Option<nat>, body: Stmt, updates: seq<nat>, lab: Option<nat>, o: seq<bool>)
    ensures Within(ExecLoop(m, cond, body, updates, lab, o).tr, CondIds(cond) + Ids(body) + set x | x in updates)
    decreases |o|, body, 2
  {
    if o != [] && o[0] {
      hide Exec, ExecLoop, LoopTarget, Ids;
      LoopIs(m, cond, body, updates, lab, o);
      TraceWithin(m, body, o[1..]);
      LoopWithin(m, cond, body, updates, lab, Exec(m, body, o[1..]).rest);
    }
  }

  lemma {:induction false} DoWithin(m: Reading, body: Stmt, cond: Option<nat>, lab: Option<nat>, o: seq<bool>)
    ensures Within(ExecDo(m, body, cond, lab, o).tr, Ids(body) + CondIds(cond))
    decreases |o|, body, 2
  {
    hide Exec, ExecDo, LoopTarget, Ids;
    var r := Exec(m, body, o);
    DoIs(m, body, cond, lab, o);
    TraceWithin(m, body, o);
    if |r.rest| < |o| { DoWithin(m, body, cond, lab, r.rest); }
    if r.rest != [] { DoWithin(m, body, cond, lab, r.rest[1..]); }
  }

  // The first run is stuck; the second is stuck after other statements, or never ends.
  predicate Parted(a: Run, b: Run) {
    a.out.Stuck? && (b.out.Spin? || (b.out.Stuck? && b.tr != a.tr))
  }

  lemma PartedMore(pre: seq<nat>, lab: Option<nat>, a: Run, b: Run)
    requires Parted(a, b)
    ensures Parted(Prefix(pre, a), Prefix(pre, b))
    ensures AfterLabel(lab, a) == a && AfterLabel(lab, b) == b && EndLoop(lab, a) == a && EndLoop(lab, b) == b
  {
    if a.tr != b.tr { TailsDiffer(pre, a.tr, b.tr); }
  }

  // With no decision left after it, the two readings part there.
  lemma {:induction false} ReadingsPart(s: Stmt, o: seq<bool>)
    requires OwnTests(s) && Exec(Watched, s, o).out.Lost? && Exec(Watched, s, o).rest == []
    ensures Parted(Exec(AsWritten, s, o), Exec(AsBuilt, s, o))
    decreases |o|, s, 1
  {
    hide ExecAll, ExecLoop, ExecDo, Parted;
    match s {
      case If(cond, thn, els, lab) =>
        var t := if o[0] then thn else els.value;
        ReadingsPart(t, o[1..]);
        PartedMore(CondList(cond), lab, Exec(AsWritten, t, o[1..]), Exec(AsBuilt, t, o[1..]));
      case While(cond, body, lab) => LoopsPart(cond, body, [], lab, o);
      case For(inits, cond, body, updates, lab) =>
        LoopsPart(cond, body, updates, lab, o);
        PartedMore(inits, lab, ExecLoop(AsWritten, cond, body, updates, lab, o), ExecLoop(AsBuilt, cond, body, updates, lab, o));
      case Do(body, cond, lab) => DosPart(body, cond, lab, o);
      case BlockOf(stmts, lab, _) =>
        ListsPart(stmts, o);
        PartedMore([], lab, ExecAll(AsWritten, stmts, o), ExecAll(AsBuilt, stmts, o));
    }
  }

  lemma {:induction false} ListsPart(ss: seq<Stmt>, o: seq<bool>)
    requires (forall t :: t in ss ==> OwnTests(t)) && ExecAll(Watched, ss, o).out.Lost? && ExecAll(Watched, ss, o).rest == []
    ensures Parted(ExecAll(AsWritten, ss, o), ExecAll(AsBuilt, ss, o))
    decreases |o|, ss, 0
  {
    hide Exec, Parted;
    var r := Exec(Watched, ss[0], o);
    if r.out.Lost? {
      ReadingsPart(ss[0], o);
      PartedStays(Exec(AsWritten, ss[0], o), Exec(AsBuilt, ss[0], o));
    } else {
      ReadingsAgree(ss[0], o);
      ListsPart(ss[1..], r.rest);
      PartedMore(r.tr, None, ExecAll(AsWritten, ss[1..], r.rest), ExecAll(AsBuilt, ss[1..], r.rest));
    }
  }

  lemma PartedStays(a: Run, b: Run)
    requires Parted(a, b)
    ensures !a.out.Normal? && !b.out.Normal? && forall lab :: !Continued(lab, a) && !Continued(lab, b)
  {
  }

  lemma {:induction false} LoopsPart(cond: Option<nat>, body: Stmt, updates: seq<nat>, lab: Option<nat>, o: seq<bool>)
    requires OwnTests(body)
    requires ExecLoop(Watched, cond, body, updates, lab, o).out.Lost? && ExecLoop(Watched, cond, body, updates, lab, o).rest == []
    ensures Parted(ExecLoop(AsWritten, cond, body, updates, lab, o), ExecLoop(AsBuilt, cond, body, updates, lab, o))
    decreases |o|, body, 2
  {
    assert o != [] && o[0];
    hide Exec, ExecLoop, Parted, LoopTarget, OwnTests;
    var r := Exec(Watched, body, o[1..]);
    LoopIs(Watched, cond, body, updates, lab, o);
    LoopIs(AsWritten, cond, body, updates, lab, o);
    LoopIs(AsBuilt, cond, body, updates, lab, o);
    if r.out.Lost? {
      ReadingsPart(body, o[1..]);
      var a, b := Exec(AsWritten, body, o[1..]), Exec(AsBuilt, body, o[1..]);
      PartedStays(a, b);
      PartedMore(CondList(cond), lab, a, b);
    } else {
      ReadingsAgree(body, o[1..]);
      if Continued(lab, r) && updates != [] {
        UpdatesTell(cond, body, updates, lab, r);
      } else {
        LoopsPart(cond, body, updates, lab, r.rest);
        PartedMore(CondList(cond) + r.tr + updates, lab, ExecLoop(AsWritten, cond, body, updates, lab, r.rest),
                   ExecLoop(AsBuilt, cond, body, updates, lab, r.rest));
      }
    }
  }

  // The source runs the updates before it is stuck, the graph does not.
  lemma UpdatesTell(cond: Option<nat>, body: Stmt, updates: seq<nat>, lab: Option<nat>, r: Run)
    requires Continued(lab, r) && updates != [] && r.rest == []
    ensures Parted(LoopOn(AsWritten, cond, body, updates, lab, r), LoopOn(AsBuilt, cond, body, updates, lab, r))
  {
    hide Exec;
  }

  lemma {:induction false} DosPart(body: Stmt, cond: Option<nat>, lab: Option<nat>, o: seq<bool>)
    requires OwnTests(body) && cond.Some? && cond.value !in Ids(body)
    requires ExecDo(Watched, body, cond, lab, o).out.Lost? && ExecDo(Watched, body, cond, lab, o).rest == []
    ensures Parted(ExecDo(AsWritten, body, cond, lab, o), ExecDo(AsBuilt, body, cond, lab, o))
    decreases |o|, body, 2
  {
    hide Exec, ExecDo, Parted, LoopTarget, OwnTests, Ids;
    var r := Exec(Watched, body, o);
    DoIs(Watched, body, cond, lab, o);
    DoIs(AsWritten, body, cond, lab, o);
    DoIs(AsBuilt, body, cond, lab, o);
    if r.out.Lost? {
      ReadingsPart(body, o);
      var a, b := Exec(AsWritten, body, o), Exec(AsBuilt, body, o);
      PartedStays(a, b);
      PartedMore([], lab, a, b);
    } else {
      ReadingsAgree(body, o);
      if Continued(lab, r) {
        ConditionTells(body, cond, lab, o);
      } else {
        DosPart(body, cond, lab, r.rest[1..]);
        PartedMore(r.tr + CondList(cond), lab, ExecDo(AsWritten, body, cond, lab, r.rest[1..]),
                   ExecDo(AsBuilt, body, cond, lab, r.rest[1..]));
      }
    }
  }

  // The source runs the condition before it is stuck, the graph starts the body again.
  lemma ConditionTells(body: Stmt, cond: Option<nat>, lab: Option<nat>, o: seq<bool>)
    requires cond.Some? && cond.value !in Ids(body)
    requires var r := Exec(AsBuilt, body, o); Continued(lab, r) && r.rest == [] && Exec(AsWritten, body, o) == r
    ensures Parted(ExecDo(AsWritten, body, cond, lab, o), ExecDo(AsBuilt, body, cond, lab, o))
  {
    hide Exec, LoopTarget, Ids;
    var r, g := Exec(AsBuilt, body, o), Exec(AsBuilt, body, []);
    RunLonger(AsBuilt, body, [], o);
    assert [] + o == o;
    TraceWithin(AsBuilt, body, []);
    assert cond.value !in g.tr && CondList(cond) == [cond.value];
    if o != [] {
      assert g.out.Stuck? && ExecDo(AsBuilt, body, cond, lab, []) == g;
      assert ExecDo(AsBuilt, body, cond, lab, o).tr == r.tr + g.tr;
      assert cond.value in [cond.value];
      TailsDiffer(r.tr, [cond.value], g.tr);
    }
  }

  lemma TailsDiffer(pre: seq<nat>, a: seq<nat>, b: seq<nat>)
    requires a != b
    ensures pre + a != pre + b
  {
    assert (pre + a)[|pre|..] == a && (pre + b)[|pre|..] == b;
  }

  // The decisions up to the first such continue.
  lemma UpToThere(s: Stmt, o: seq<bool>) returns (p: seq<bool>)
    requires Exec(Watched, s, o).out.Lost?
    ensures p <= o && Exec(Watched, s, p).out.Lost? && Exec(Watched, s, p).rest == []
  {
    hide Exec;
    var n := |o| - |Exec(Watched, s, o).rest|;
    p := o[..n];
    assert o == p + o[n..];
    RunLonger(Watched, s, p, o[n..]);
    if o[n..] == [] { assert p == o; }
  }

  // A run that meets such a continue tells the graph from the source: after the decisions up to there,
  // the walk does not stop where the body does.
  lemma ContinueGoesWrong(bbs: Blocks, body: Stmt, o: seq<bool>) returns (p: seq<bool>)
    requires Tidy(body) && Scoped(body, NO_SCOPE) && OwnTests(body) && Exec(Watched, body, o).out.Lost?
    ensures p <= o && !Matches(BuildFunction(bbs, body), |bbs|, p, Exec(AsWritten, body, p))
  {
    hide Exec, Tidy, Scoped, BuildFunction, OwnTests;
    p := UpToThere(body, o);
    ReadingsPart(body, p);
    GraphRuns(bbs, body, p);
    NotBoth(BuildFunction(bbs, body), |bbs|, p, Exec(AsWritten, body, p), Exec(AsBuilt, body, p));
  }

  lemma NotBoth(f: Blocks, entry: nat, o: seq<bool>, a: Run, b: Run)
    requires Parted(a, b) && Matches(f, entry, o, b)
    ensures !Matches(f, entry, o, a)
  {
    hide StopsAtBranch, GoesOn;
    var c := Conf(entry, 0, o, []);
    if StopsAtBranch(f, c, a) {
      if b.out.Spin? { StopsOnce(f, c, a, a); } else { StopsOnce(f, c, a, b); }
    }
  }

  lemma StopsOnce(f: Blocks, c: Conf, a: Run, b: Run)
    requires StopsAtBranch(f, c, a) && StopsAtBranch(f, c, b)
    ensures a.tr == b.tr && !GoesOn(f, c)
  {
    var x :| Leads(f, c, x) && AtBranch(f, x) && x.tr == c.tr + a.tr;
    var y :| Leads(f, c, y) && AtBranch(f, y) && y.tr == c.tr + b.tr;
    EndIsUnique(f, c, x, y);
    if a.tr != b.tr { TailsDiffer(c.tr, a.tr, b.tr); }
    var n: nat :| Walk(f, c, n) == Some(x);
    WalkAdd(f, c, n, x, 1);
    assert Walk(f, c, n + 1).None?;
  }

  // The graph means the source under all decisions exactly when no run meets such a continue.
  lemma MeaningIsKept(bbs: Blocks, body: Stmt)
    requires Tidy(body) && Scoped(body, NO_SCOPE) && OwnTests(body)
    ensures (forall o :: Matches(BuildFunction(bbs, body), |bbs|, o, Exec(AsWritten, body, o)))
            <==> forall o :: !Exec(Watched, body, o).out.Lost?
  {
    hide Matches, Exec, Tidy, Scoped, BuildFunction, OwnTests;
    if o :| Exec(Watched, body, o).out.Lost? {
      var p := ContinueGoesWrong(bbs, body, o);
    } else {
      forall o
        ensures Matches(BuildFunction(bbs, body), |bbs|, o, Exec(AsWritten, body, o))
      {
        GraphMeansBody(bbs, body, o);
      }
    }
  }
}
