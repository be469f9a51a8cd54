/** What nodes do to the variables of a run, and that definitions are what can change a variable. */
module DfaEffects {
  import opened Options
  import opened CfgBlocks
  import opened Dfa
  import opened DfaDefs

  // -------- Effects

  // A variable by its name, and the names of fields that lead from its value to a number.
  type Place = (nat, seq<nat>)

  // The number at every place.
  type Env = Place -> bv32

  // The place an operand stands for; without a name on the left it is no place of a variable.
  function PlaceOf(a: Operand): Place {
    match a.upper
    case None => (a.stridx, [])
    case Some(up) => (PlaceOf(up).0, PlaceOf(up).1 + [a.stridx])
  }

  // The identifier on the left.
  function Root(a: Operand): Operand {
    match a.upper
    case None => a
    case Some(up) => Root(up)
  }

  lemma {:induction false} RootIsPlace(a: Operand)
    ensures PlaceOf(a).0 == Root(a).stridx
  {
    if a.upper.Some? { RootIsPlace(a.upper.value); }
  }

  function Put(env: Env, p: Place, x: bv32): Env {
    (q: Place) => if q == p && p.0 != 0 then x else env(q)
  }

  // What `x op= y` leaves in `x`, on numbers of 32 bits, if the operator stores anything.
  function Stored(op: OprId, x: bv32, y: bv32): Option<bv32> {
    match op
    case Assign => Some(y)
    case AddAssign => Some(x + y)
    case SubAssign => Some(x - y)
    case MulAssign => Some(x * y)
    case DivAssign => Some(if y == 0 then 0 else x / y)
    case ModAssign => Some(if y == 0 then 0 else x % y)
    case ShlAssign => Some(x << (y & 31))
    case ShrAssign => Some(if x < 0x8000_0000 then x >> (y & 31) else !(!x >> (y & 31)))
    case ZextAssign => Some(x >> (y & 31))
    case BandAssign => Some(x & y)
    case BorAssign => Some(x | y)
    case BxorAssign => Some(x ^ y)
    case _ => None
  }

  // What the unary operator leaves in its operand, if it stores anything.
  function Stepped(op: OprId, x: bv32): Option<bv32> {
    match op
    case Inc => Some(x + 1)
    case PreInc => Some(x + 1)
    case Dec => Some(x - 1)
    case PreDec => Some(x - 1)
    case _ => None
  }

  // The places after the node; `y` is what its initial value or right operand has come to.
  function Effect(node: Node, env: Env, y: bv32): Env {
    match node
    case Decl(name, hasInit, _) => if hasInit then Put(env, (name, []), y) else env
    case BinOperator(op, a) =>
      (match Stored(op, env(PlaceOf(a)), y) case Some(x) => Put(env, PlaceOf(a), x) case None => env)
    case UnaOperator(op, a) =>
      (match Stepped(op, env(PlaceOf(a))) case Some(x) => Put(env, PlaceOf(a), x) case None => env)
    case _ => env
  }

  // In some state the node changes what the variable holds.
  ghost predicate Changes(node: Node, name: nat) {
    exists env: Env, y: bv32, path: seq<nat> :: ChangesAt(node, name, env, y, path)
  }

  ghost predicate ChangesAt(node: Node, name: nat, env: Env, y: bv32, path: seq<nat>) {
    Effect(node, env, y)((name, path)) != env((name, path))
  }

  // -------- Which variable can change

  // An operator that stores can store something else than was there.
  lemma StoresAnew(op: OprId) returns (x: bv32, y: bv32)
    ensures Stored(op, x, y).Some? ==> Stored(op, x, y).value != x
  {
    match op {
      case MulAssign => x, y := 1, 0;
      case DivAssign => x, y := 2, 2;
      case ModAssign => x, y := 1, 1;
      case ShlAssign => x, y := 1, 1;
      case ShrAssign => x, y := 2, 1;
      case ZextAssign => x, y := 2, 1;
      case BandAssign => x, y := 1, 0;
      case _ => x, y := 0, 1;
    }
  }

  predicate StoresAt(op: OprId) {
    Stored(op, 0, 0).Some?
  }

  predicate StepsAt(op: OprId) {
    Stepped(op, 0).Some?
  }

  lemma StoresOrNot(op: OprId, x: bv32, y: bv32)
    ensures Stored(op, x, y).Some? <==> StoresAt(op)
    ensures Stepped(op, x).Some? <==> StepsAt(op)
  {
    match op {
      case Assign =>
      case AddAssign =>
      case SubAssign =>
      case MulAssign =>
      case DivAssign =>
      case ModAssign =>
      case ShlAssign =>
      case ShrAssign =>
      case ZextAssign =>
      case BandAssign =>
      case BorAssign =>
      case BxorAssign =>
      case _ =>
    }
  }

  lemma BinChanges(op: OprId, a: Operand, name: nat)
    ensures Changes(BinOperator(op, a), name) <==> StoresAt(op) && name != 0 && name == Root(a).stridx
  {
    RootIsPlace(a);
    var node, p := BinOperator(op, a), PlaceOf(a);
    if StoresAt(op) && name != 0 && name == p.0 {
      var x, y := StoresAnew(op);
      StoresOrNot(op, x, y);
      var env: Env := (q: Place) => x;
      assert Effect(node, env, y) == Put(env, p, Stored(op, x, y).value);
      assert ChangesAt(node, name, env, y, p.1);
    }
    if Changes(node, name) {
      var env: Env, y: bv32, path: seq<nat> :| ChangesAt(node, name, env, y, path);
      StoresOrNot(op, env(p), y);
    }
  }

  lemma UnaChanges(op: OprId, a: Operand, name: nat)
    ensures Changes(UnaOperator(op, a), name) <==> StepsAt(op) && name != 0 && name == Root(a).stridx
  {
    RootIsPlace(a);
    var node, p := UnaOperator(op, a), PlaceOf(a);
    if StepsAt(op) && name != 0 && name == p.0 {
      var env: Env := (q: Place) => 5;
      StoresOrNot(op, 5, 0);
      assert ChangesAt(node, name, env, 0, p.1);
    }
    if Changes(node, name) {
      var env: Env, y: bv32, path: seq<nat> :| ChangesAt(node, name, env, y, path);
      StoresOrNot(op, env(p), y);
    }
  }

  lemma DeclChanges(stridx: nat, hasInit: bool, id: nat, name: nat)
    ensures Changes(Decl(stridx, hasInit, id), name) <==> hasInit && name != 0 && name == stridx
  {
    var node := Decl(stridx, hasInit, id);
    if hasInit && name != 0 && name == stridx {
      var env: Env := (q: Place) => 0;
      assert ChangesAt(node, name, env, 1, []);
    }
  }

  // -------- Definitions

  // The name the definition gives is that of the variable on the left: it is the target itself, or the
  // target is one of its fields (for `++` and `--` itself only), or the names happen to be the same.
  predicate Shallow(node: Node) {
    match node
    case BinOperator(op, a) =>
      StoresAt(op) ==> a.upper.None? || a.upper.value.upper.None? || a.upper.value.stridx == Root(a).stridx
    case UnaOperator(op, a) => StepsAt(op) ==> a.upper.None? || a.stridx == Root(a).stridx
    case _ => true
  }

  // The same without the coincidence.
  predicate Direct(node: Node) {
    match node
    case BinOperator(op, a) => StoresAt(op) ==> a.upper.None? || a.upper.value.upper.None?
    case UnaOperator(op, a) => StepsAt(op) ==> a.upper.None?
    case _ => true
  }

  // The identifier of the variable that is written.
  function WrittenId(node: Node): nat {
    match node
    case Decl(_, _, id) => id
    case BinOperator(_, a) => Root(a).nid
    case UnaOperator(_, a) => Root(a).nid
    case _ => 0
  }

  lemma RootOfShallow(a: Operand)
    ensures a.upper.None? ==> Root(a) == a
    ensures a.upper.Some? && a.upper.value.upper.None? ==> Root(a) == a.upper.value
  {
  }

  // The name a node defines is the one name it can change, exactly if its target is not too deep.
  lemma DefIsChange(node: Node)
    ensures (forall name: nat :: name != 0 ==> (Changes(node, name) <==> DefOf(node).0 == name)) <==> Shallow(node)
    ensures Direct(node) ==> Shallow(node) && (DefOf(node).0 != 0 ==> DefOf(node).1 == WrittenId(node))
  {
    hide Changes;
    match node {
      case Decl(stridx, hasInit, id) =>
        forall name: nat
          ensures Changes(node, name) <==> hasInit && name != 0 && name == stridx
        {
          DeclChanges(stridx, hasInit, id, name);
        }
      case BinOperator(op, a) =>
        RootOfShallow(a);
        StoringOps(op);
        forall name: nat
          ensures Changes(node, name) <==> StoresAt(op) && name != 0 && name == Root(a).stridx
        {
          BinChanges(op, a, name);
        }
        NamesAgree(node, if StoresAt(op) then Root(a).stridx else 0);
      case UnaOperator(op, a) =>
        RootOfShallow(a);
        StoringOps(op);
        forall name: nat
          ensures Changes(node, name) <==> StepsAt(op) && name != 0 && name == Root(a).stridx
        {
          UnaChanges(op, a, name);
        }
        NamesAgree(node, if StepsAt(op) then Root(a).stridx else 0);
      case _ =>
        forall name: nat
          ensures !Changes(node, name)
        {
          NothingChanges(node, name);
        }
    }
  }

  lemma NothingChanges(node: Node, name: nat)
    requires node.Function? || node.OtherNode?
    ensures !Changes(node, name)
  {
  }

  lemma NamesAgree(node: Node, root: nat)
    requires forall name: nat :: Changes(node, name) <==> name != 0 && name == root
    ensures (forall name: nat :: name != 0 ==> (Changes(node, name) <==> DefOf(node).0 == name)) <==> DefOf(node).0 == root
  {
    hide Changes;
    if DefOf(node).0 != root {
      var name := if root != 0 then root else DefOf(node).0;
      assert Changes(node, name) <==> name == root;
    }
  }

  lemma StoringOps(op: OprId)
    ensures StoresAt(op) <==> op !in {Inc, Dec, PreInc, PreDec, OtherOpr}
    ensures StepsAt(op) <==> op in {Inc, Dec, PreInc, PreDec}
  {
  }

  // x.f++ changes x, and is taken to define nothing; so is a.b.c = 1, which changes a. Field accesses
  // carry no name of their own.
  lemma DeepTargets()
    ensures var f := Operand(8, 0, Some(Operand(7, 3, None)));
            DefOf(UnaOperator(Inc, f)).0 == 0 && Changes(UnaOperator(Inc, f), 3)
    ensures var c := Operand(9, 0, Some(Operand(8, 0, Some(Operand(7, 3, None)))));
            DefOf(BinOperator(Assign, c)).0 == 0 && Changes(BinOperator(Assign, c), 3)
  {
    var f := Operand(8, 0, Some(Operand(7, 3, None)));
    var c := Operand(9, 0, Some(Operand(8, 0, Some(Operand(7, 3, None)))));
    UnaChanges(Inc, f, 3);
    BinChanges(Assign, c, 3);
  }

  // -------- Runs

  // A call binds its parameters; then nodes run.
  datatype Event = Bound(p: Param) | Ran(node: Node)

  function EventEffect(e: Event, env: Env, y: bv32): Env {
    match e
    case Bound(p) => if p.isIdent then Put(env, (p.stridx, []), y) else env
    case Ran(node) => Effect(node, env, y)
  }

  ghost predicate EventChanges(e: Event, name: nat) {
    exists env: Env, y: bv32, path: seq<nat> :: EventChangesAt(e, name, env, y, path)
  }

  ghost predicate EventChangesAt(e: Event, name: nat, env: Env, y: bv32, path: seq<nat>) {
    EventEffect(e, env, y)((name, path)) != env((name, path))
  }

  // Where the event writes.
  function EventId(e: Event): nat {
    match e case Bound(p) => p.nid case Ran(node) => WrittenId(node)
  }

  function BlockEvents(nodes: Statements, stmts: seq<nat>): seq<Event> {
    if stmts == [] then []
    else
      var s := stmts[|stmts| - 1];
      BlockEvents(nodes, stmts[..|stmts| - 1]) + if s in nodes then [Ran(nodes[s].node)] else []
  }

  function PathEvents(bbs: Blocks, nodes: Statements, p: seq<nat>): seq<Event> {
    if p == [] then []
    else
      var b := p[|p| - 1];
      PathEvents(bbs, nodes, p[..|p| - 1]) + if b < |bbs| then BlockEvents(nodes, bbs[b].stmts) else []
  }

  function CallEvents(params: seq<Param>): seq<Event> {
    if params == [] then [] else CallEvents(params[..|params| - 1]) + [Bound(params[|params| - 1])]
  }

  // What a call of `f` has done that has run through the blocks `p[..|p| - 1]`.
  function RunEvents(bbs: Blocks, nodes: Statements, f: CfgFunc, p: seq<nat>): seq<Event>
    requires p != []
  {
    (if f.isFunction then CallEvents(f.params) else []) + PathEvents(bbs, nodes, p[..|p| - 1])
  }

  // The last event that can change the variable has written it at `id`.
  ghost predicate IsLastChange(events: seq<Event>, name: nat, id: nat) {
    exists k :: 0 <= k < |events| && EventChanges(events[k], name) && EventId(events[k]) == id
                && forall j :: k < j < |events| ==> !EventChanges(events[j], name)
  }

  predicate AllDirect(events: seq<Event>) {
    forall e :: e in events && e.Ran? ==> Direct(e.node)
  }

  // After the last change the variable keeps its value.
  function After(events: seq<Event>, env: Env, ys: seq<bv32>): Env
    requires |ys| == |events|
  {
    if events == [] then env
    else
      var n := |events| - 1;
      EventEffect(events[n], After(events[..n], env, ys[..n]), ys[n])
  }

  lemma {:induction false} ValueStays(events: seq<Event>, env: Env, ys: seq<bv32>, name: nat, path: seq<nat>)
    requires |ys| == |events| && forall e :: e in events ==> !EventChanges(e, name)
    ensures After(events, env, ys)((name, path)) == env((name, path))
  {
    if events != [] {
      var n := |events| - 1;
      ValueStays(events[..n], env, ys[..n], name, path);
      assert events[n] in events && !EventChangesAt(events[n], name, After(events[..n], env, ys[..n]), ys[n], path);
    }
  }

  // -------- Last changes are last definitions

  function EventDefs(e: Event): seq<DefPosition> {
    match e
    case Bound(p) => if p.isIdent then [(p.stridx, p.nid)] else []
    case Ran(node) => if DefOf(node).0 != 0 then [DefOf(node)] else []
  }

  function AllDefs(events: seq<Event>): seq<DefPosition> {
    if events == [] then [] else AllDefs(events[..|events| - 1]) + EventDefs(events[|events| - 1])
  }

  lemma {:induction false} DefsOfTwo(a: seq<Event>, b: seq<Event>)
    ensures AllDefs(a + b) == AllDefs(a) + AllDefs(b)
    decreases |b|
  {
    hide EventDefs;
    if b == [] {
      assert a + b == a;
    } else {
      var n := |b| - 1;
      assert (a + b)[..|a| + n] == a + b[..n];
      DefsOfTwo(a, b[..n]);
    }
  }

  lemma {:induction false} BlockDefs(nodes: Statements, stmts: seq<nat>)
    ensures AllDefs(BlockEvents(nodes, stmts)) == Defs(nodes, stmts)
  {
    if stmts != [] {
      var n := |stmts| - 1;
      var s := stmts[n];
      BlockDefs(nodes, stmts[..n]);
      var more := if s in nodes then [Ran(nodes[s].node)] else [];
      DefsOfTwo(BlockEvents(nodes, stmts[..n]), more);
      if s in nodes { assert more[..0] == []; }
    }
  }

  lemma {:induction false} CallDefs(params: seq<Param>)
    ensures AllDefs(CallEvents(params)) == ParamDefs(params)
  {
    if params != [] {
      var n := |params| - 1;
      CallDefs(params[..n]);
      assert CallEvents(params)[..|CallEvents(params)| - 1] == CallEvents(params[..n]);
    }
  }

  lemma {:induction false} PathDefsAre(bbs: Blocks, nodes: Statements, p: seq<nat>)
    ensures AllDefs(PathEvents(bbs, nodes, p)) == PathDefs(bbs, nodes, p)
  {
    if p != [] {
      var n := |p| - 1;
      PathDefsAre(bbs, nodes, p[..n]);
      if p[n] < |bbs| {
        BlockDefs(nodes, bbs[p[n]].stmts);
        DefsOfTwo(PathEvents(bbs, nodes, p[..n]), BlockEvents(nodes, bbs[p[n]].stmts));
      } else {
        DefsOfTwo(PathEvents(bbs, nodes, p[..n]), []);
      }
    }
  }

  lemma RunDefsAre(bbs: Blocks, nodes: Statements, f: CfgFunc, p: seq<nat>)
    requires p != []
    ensures AllDefs(RunEvents(bbs, nodes, f, p)) == RunDefs(bbs, nodes, f, p)
  {
    hide PathEvents, PathDefs;
    CallDefs(f.params);
    PathDefsAre(bbs, nodes, p[..|p| - 1]);
    DefsOfTwo(if f.isFunction then CallEvents(f.params) else [], PathEvents(bbs, nodes, p[..|p| - 1]));
  }

  // An event defines the one variable it can change, where it writes it.
  lemma EventDefines(e: Event, name: nat)
    requires name != 0 && (e.Ran? ==> Direct(e.node))
    ensures EventChanges(e, name) ==> EventDefs(e) == [(name, EventId(e))]
    ensures !EventChanges(e, name) ==> forall d :: d in EventDefs(e) ==> d.0 != name
  {
    match e {
      case Bound(p) =>
        if p.isIdent && p.stridx == name {
          var env: Env := (q: Place) => 0;
          assert EventChangesAt(e, name, env, 1, []);
        }
      case Ran(node) =>
        DefIsChange(node);
        SameChanges(node, name);
    }
  }

  lemma SameChanges(node: Node, name: nat)
    ensures EventChanges(Ran(node), name) <==> Changes(node, name)
  {
    if EventChanges(Ran(node), name) {
      var env: Env, y: bv32, path: seq<nat> :| EventChangesAt(Ran(node), name, env, y, path);
      assert ChangesAt(node, name, env, y, path);
    }
    if Changes(node, name) {
      var env: Env, y: bv32, path: seq<nat> :| ChangesAt(node, name, env, y, path);
      assert EventChangesAt(Ran(node), name, env, y, path);
    }
  }

  lemma {:induction false} LastChangeIsLastDef(events: seq<Event>, name: nat, id: nat)
    requires name != 0 && AllDirect(events) && IsLastChange(events, name, id)
    ensures IsLastDef(AllDefs(events), (name, id))
  {
    hide EventChanges, Direct, EventDefs;
    var n := |events| - 1;
    var e, before := events[n], AllDefs(events[..n]);
    EventDefines(e, name);
    if EventChanges(e, name) {
      assert AllDefs(events)[|before|] == (name, id);
    } else {
      assert forall x :: x in events[..n] ==> x in events;
      LastChangeBefore(events, name, id);
      LastChangeIsLastDef(events[..n], name, id);
      NoneAfter(before, EventDefs(e), (name, id));
    }
  }

  lemma LastChangeBefore(events: seq<Event>, name: nat, id: nat)
    requires IsLastChange(events, name, id) && !EventChanges(events[|events| - 1], name)
    ensures IsLastChange(events[..|events| - 1], name, id)
  {
    hide EventChanges;
    var k :| 0 <= k < |events| && EventChanges(events[k], name) && EventId(events[k]) == id
             && forall j :: k < j < |events| ==> !EventChanges(events[j], name);
    assert events[..|events| - 1][k] == events[k];
  }

  lemma NoneAfter(a: seq<DefPosition>, b: seq<DefPosition>, d: DefPosition)
    requires IsLastDef(a, d) && forall x :: x in b ==> x.0 != d.0
    ensures IsLastDef(a + b, d)
  {
    var k :| 0 <= k < |a| && a[k] == d && forall j :: k < j < |a| ==> a[j].0 != d.0;
    assert (a + b)[k] == d;
    forall j | k < j < |a + b|
      ensures (a + b)[j].0 != d.0
    {
      if j >= |a| { assert (a + b)[j] in b; }
    }
  }
}
