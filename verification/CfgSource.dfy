/** Structured statements and their meaning, with the branch decisions given by a list. */
module CfgSource {
  import opened Options

  // A label (lab) is the string index of its identifier; 0 stands for a label that is no identifier.
  // A jump without a label has target 0.
  datatype Stmt =
    | Simple(id: nat)
    | Return(id: nat)
    | Throw(id: nat)
    | Break(id: nat, target: nat)
    | Continue(id: nat, target: nat)
    | If(cond: Option<nat>, thn: Stmt, els: Option<Stmt>, lab: Option<nat>)
    | While(cond: Option<nat>, body: Stmt, lab: Option<nat>)
    | For(inits: seq<nat>, cond: Option<nat>, body: Stmt, updates: seq<nat>, lab: Option<nat>)
    | Do(body: Stmt, cond: Option<nat>, lab: Option<nat>)
    | BlockOf(stmts: seq<Stmt>, lab: Option<nat>, lexical: bool)

  // How a continue that is meant for a loop with work between the round and the next test is taken:
  // as the source has it, the work is done; as the graph is built, it goes to the loop header; a
  // watched run ends there.
  datatype Reading = AsWritten | AsBuilt | Watched

  // Spin: the run goes on for ever without another decision. Lost: a watched run has met such a continue.
  datatype Outcome = Normal | Brk(target: nat) | Cont(target: nat) | Leave | Stuck | Spin | Lost

  // The statements run, how the run ended, and the decisions left over.
  datatype Run = Run(tr: seq<nat>, out: Outcome, rest: seq<bool>)

  function CondList(cond: Option<nat>): seq<nat> {
    if cond.Some? then [cond.value] else []
  }

  function LabelIdx(lab: Option<nat>): nat {
    if lab.Some? then lab.value else 0
  }

  // A labelled statement is the target of a jump with its label; an unlabelled jump goes to the
  // innermost loop.
  predicate HasLabel(lab: Option<nat>, target: nat) {
    target != 0 && lab == Some(target)
  }

  predicate LoopTarget(lab: Option<nat>, target: nat) {
    target == 0 || HasLabel(lab, target)
  }

  function Prefix(tr: seq<nat>, r: Run): Run {
    r.(tr := tr + r.tr)
  }

  function AfterLabel(lab: Option<nat>, r: Run): Run {
    if r.out.Brk? && HasLabel(lab, r.out.target) then r.(out := Normal) else r
  }

  function Exec(m: Reading, s: Stmt, o: seq<bool>): (r: Run)
    ensures |r.rest| <= |o|
    decreases |o|, s, 1
  {
    match s
    case Simple(id) => Run([id], Normal, o)
    case Return(id) => Run([id], Leave, o)
    case Throw(id) => Run([id], Leave, o)
    case Break(id, t) => Run([id], Brk(t), o)
    case Continue(id, t) => Run([id], Cont(t), o)
    case If(cond, thn, els, lab) =>
      if o == [] then Run(CondList(cond), Stuck, [])
      else if o[0] then Prefix(CondList(cond), AfterLabel(lab, Exec(m, thn, o[1..])))
      else if els.Some? then Prefix(CondList(cond), AfterLabel(lab, Exec(m, els.value, o[1..])))
      else Run(CondList(cond), Normal, o[1..])
    case While(cond, body, lab) => ExecLoop(m, cond, body, [], lab, o)
    case For(inits, cond, body, updates, lab) => Prefix(inits, ExecLoop(m, cond, body, updates, lab, o))
    case Do(body, cond, lab) => ExecDo(m, body, cond, lab, o)
    case BlockOf(stmts, lab, _) => AfterLabel(lab, ExecAll(m, stmts, o))
  }

  function ExecAll(m: Reading, ss: seq<Stmt>, o: seq<bool>): (r: Run)
    ensures |r.rest| <= |o|
    decreases |o|, ss, 0
  {
    if ss == [] then Run([], Normal, o)
    else
      var r := Exec(m, ss[0], o);
      if r.out.Normal? then Prefix(r.tr, ExecAll(m, ss[1..], r.rest)) else r
  }

  // The run continues the loop it is the body of.
  predicate Continued(lab: Option<nat>, r: Run) {
    r.out.Cont? && LoopTarget(lab, r.out.target)
  }

  // A loop that tests first; `updates` run after each round, in the source also after one cut short.
  function ExecLoop(m: Reading, cond: Option<nat>, body: Stmt, updates: seq<nat>, lab: Option<nat>, o: seq<bool>): (r: Run)
    ensures |r.rest| <= |o|
    decreases |o|, body, 2
  {
    if o == [] then Run(CondList(cond), Stuck, [])
    else if !o[0] then Run(CondList(cond), Normal, o[1..])
    else
      var r := Exec(m, body, o[1..]);
      if Continued(lab, r) && updates != [] && m.Watched? then Prefix(CondList(cond), r.(out := Lost))
      else if Continued(lab, r) && m.AsBuilt? then Prefix(CondList(cond) + r.tr, ExecLoop(m, cond, body, updates, lab, r.rest))
      else if r.out.Normal? || Continued(lab, r) then
        Prefix(CondList(cond) + r.tr + updates, ExecLoop(m, cond, body, updates, lab, r.rest))
      else Prefix(CondList(cond), EndLoop(lab, r))
  }

  function EndLoop(lab: Option<nat>, r: Run): Run {
    if r.out.Brk? && LoopTarget(lab, r.out.target) then r.(out := Normal) else r
  }

  // A loop that tests last, in the source also after a round cut short.
  function ExecDo(m: Reading, body: Stmt, cond: Option<nat>, lab: Option<nat>, o: seq<bool>): (r: Run)
    ensures |r.rest| <= |o|
    decreases |o|, body, 2
  {
    var r := Exec(m, body, o);
    if Continued(lab, r) && m.Watched? then r.(out := Lost)
    else if Continued(lab, r) && m.AsBuilt? then
      if |r.rest| == |o| then r.(out := Spin) else Prefix(r.tr, ExecDo(m, body, cond, lab, r.rest))
    else if r.out.Normal? || Continued(lab, r) then
      if r.rest == [] then Run(r.tr + CondList(cond), Stuck, [])
      else if !r.rest[0] then Run(r.tr + CondList(cond), Normal, r.rest[1..])
      else Prefix(r.tr + CondList(cond), ExecDo(m, body, cond, lab, r.rest[1..]))
    else EndLoop(lab, r)
  }

  // -------- The programs the graph is built for

  // The statement gets no block of its own and ends in a jump.
  predicate EndsInJump(s: Stmt) {
    match s
    case Return(_) => true
    case Throw(_) => true
    case Break(_, _) => true
    case Continue(_, _) => true
    case BlockOf(stmts, lab, lexical) => !lexical && lab.None? && exists t :: t in stmts && EndsInJump(t)
    case _ => false
  }

  // Building the statement does not open an ended block again: conditionals and blocks of their own do.
  predicate LeavesEnded(s: Stmt) {
    match s
    case If(_, _, _, _) => false
    case BlockOf(stmts, lab, lexical) => !lexical && lab.None? && forall t :: t in stmts ==> LeavesEnded(t)
    case _ => true
  }

  // No conditional and no block of its own follows a jump in the same list.
  predicate Tidy(s: Stmt) {
    match s
    case If(_, thn, els, _) => Tidy(thn) && (els.Some? ==> Tidy(els.value))
    case While(_, body, _) => Tidy(body)
    case For(_, _, body, _, _) => Tidy(body)
    case Do(body, _, _) => Tidy(body)
    case BlockOf(stmts, _, _) => (forall t :: t in stmts ==> Tidy(t)) && JumpsLast(stmts)
    case _ => true
  }

  // No continue is meant for a loop with work to do between the round and the next test.
  predicate Plain(s: Stmt) {
    match s
    case If(_, thn, els, _) => Plain(thn) && (els.Some? ==> Plain(els.value))
    case While(_, body, _) => Plain(body)
    case For(_, _, body, updates, lab) => Plain(body) && (updates == [] || !Continues(body, lab))
    case Do(body, _, lab) => Plain(body) && !Continues(body, lab)
    case BlockOf(stmts, _, _) => forall t :: t in stmts ==> Plain(t)
    case _ => true
  }

  predicate JumpsLast(ss: seq<Stmt>) {
    forall i, j :: 0 <= i < j < |ss| && EndsInJump(ss[i]) ==> LeavesEnded(ss[j])
  }

  // Some continue in the statement is meant for an enclosing loop with this label.
  predicate Continues(s: Stmt, lab: Option<nat>) {
    ContinuesTo(s, lab, true)
  }

  // `bare`: a continue without a label would still be meant for that loop.
  predicate ContinuesTo(s: Stmt, lab: Option<nat>, bare: bool) {
    match s
    case Continue(_, t) => (t == 0 && bare) || HasLabel(lab, t)
    case If(_, thn, els, _) => ContinuesTo(thn, lab, bare) || (els.Some? && ContinuesTo(els.value, lab, bare))
    case While(_, body, inner) => ContinuesTo(body, if inner == lab then None else lab, false)
    case For(_, _, body, _, inner) => ContinuesTo(body, if inner == lab then None else lab, false)
    case Do(body, _, inner) => ContinuesTo(body, if inner == lab then None else lab, false)
    case BlockOf(stmts, _, _) => exists t :: t in stmts && ContinuesTo(t, lab, bare)
    case _ => false
  }

  // -------- Scopes of jump targets

  // The enclosing statements a jump can name, outermost first: the label, and whether only a
  // labelled jump can mean it.
  datatype Scope = Scope(breaks: seq<(nat, bool)>, conts: seq<(nat, bool)>)

  predicate HasTarget(entries: seq<(nat, bool)>, t: nat) {
    exists e :: e in entries && if t == 0 then !e.1 else e.0 == t
  }

  function InLabel(sc: Scope, lab: Option<nat>): Scope {
    if lab.Some? then sc.(breaks := sc.breaks + [(lab.value, true)]) else sc
  }

  function InLoop(sc: Scope, lab: Option<nat>): Scope {
    Scope(sc.breaks + [(LabelIdx(lab), false)], sc.conts + [(LabelIdx(lab), false)])
  }

  // Every jump has a target.
  predicate Scoped(s: Stmt, sc: Scope) {
    match s
    case Break(_, t) => HasTarget(sc.breaks, t)
    case Continue(_, t) => HasTarget(sc.conts, t)
    case If(_, thn, els, lab) =>
      Scoped(thn, InLabel(sc, lab)) && (els.Some? ==> Scoped(els.value, InLabel(sc, lab)))
    case While(_, body, lab) => Scoped(body, InLoop(sc, lab))
    case For(_, _, body, _, lab) => Scoped(body, InLoop(sc, lab))
    case Do(body, _, lab) => Scoped(body, InLoop(sc, lab))
    case BlockOf(stmts, lab, _) => forall t :: t in stmts ==> Scoped(t, InLabel(sc, lab))
    case _ => true
  }
}
