/** The walk of the lookahead detector as a function of the grammar: what every step makes of the lists
    the detector keeps. The walk is stuck where an assertion fails or a list is copied to itself for ever. */
module LaWalk {
  import opened Options
  import opened Graphs
  import opened ContTrees
  import opened Grammar
  import opened LookAheads
  import opened LaStates
  import opened LaFlow
  import opened LaPatch

  datatype Walk = Walk(inProcess: seq<nat>, done: seq<nat>, toDo: seq<nat>, maybeZero: seq<nat>,
                       las: RuleLookAheads, pendings: seq<Pending>, tree: seq<TreeNode>)

  datatype Reply = Stuck | Came(w: Walk, res: TResult)

  // -------- Lists

  function ToDoAdded(w: Walk, r: nat): Walk {
    if r in w.inProcess || r in w.done || r in w.toDo then w else w.(toDo := w.toDo + [r])
  }

  // The rules among the elements of `u` from `k` on are put on the list.
  function RestToDo(g: LaGrammar, w: Walk, u: nat, k: nat): (r: Walk)
    requires Fits(g, w) && u < |g.rules| && k <= |g.rules[u].mData|
    ensures Fits(g, r) && r == w.(toDo := r.toDo)
    decreases |g.rules[u].mData| - k
  {
    if k == |g.rules[u].mData| then w
    else
      var d := g.rules[u].mData[k];
      assert WellFormedRule(|g.rules|, g.rules[u]) && d in g.rules[u].mData;
      RestToDo(g, if d.Subtable? then ToDoAdded(w, d.entry) else w, u, k + 1)
  }

  // `d` waits for `q`.
  function PendingAdded(pendings: seq<Pending>, q: nat, d: nat): seq<Pending> {
    if pendings == [] then [Pending(q, [d])]
    else
      var p := pendings[0];
      if p.mRule != q then [p] + PendingAdded(pendings[1..], q, d)
      else if d in p.mDependents then pendings
      else [Pending(q, p.mDependents + [d])] + pendings[1..]
  }

  // The rules in process after `q` wait for it, the last one first.
  function Told(pendings: seq<Pending>, path: seq<nat>, q: nat): seq<Pending>
    decreases path
  {
    if path == [] || path[|path| - 1] == q then pendings
    else Told(PendingAdded(pendings, q, path[|path| - 1]), path[..|path| - 1], q)
  }

  function ListAdded(las: RuleLookAheads, to: nat, list: seq<LookAhead>): RuleLookAheads
    decreases list
  {
    if list == [] then las else ListAdded(AddRuleLa(las, to, list[0]), to, list[1..])
  }

  function Copy(las: RuleLookAheads, to: nat, from: nat): Option<RuleLookAheads> {
    if from !in las then Some(las)
    else if to == from && exists la :: la in las[from] && !Found(las[from], la) then None
    else Some(ListAdded(las, to, las[from]))
  }

  // -------- One tree

  // Rules that are neither in process nor done.
  function Free(g: LaGrammar, w: Walk): set<nat> {
    Below(|g.rules|) - Elems(w.inProcess) - Elems(w.done)
  }

  ghost function Room(g: LaGrammar, w: Walk): nat {
    |Free(g, w)|
  }

  predicate Fits(g: LaGrammar, w: Walk) {
    WellFormedLa(g) && forall r :: r in w.toDo ==> r < |g.rules|
  }

  // What a step leaves as it is.
  predicate Goes(g: LaGrammar, w: Walk, o: Reply) {
    o.Came? ==> Fits(g, o.w) && o.w.inProcess == w.inProcess && forall r :: r in w.done ==> r in o.w.done
  }

  lemma RoomStays(g: LaGrammar, w: Walk, w': Walk)
    requires w'.inProcess == w.inProcess && forall r :: r in w.done ==> r in w'.done
    ensures Room(g, w') <= Room(g, w)
  {
    SubsetCard(Free(g, w'), Free(g, w));
  }

  lemma RoomTaken(g: LaGrammar, w: Walk, w': Walk, r: nat)
    requires r < |g.rules| && r !in w.inProcess && r !in w.done
    requires (forall x :: x in w.inProcess || x in w.done ==> x in w'.inProcess || x in w'.done) && (r in w'.inProcess || r in w'.done)
    ensures Room(g, w') < Room(g, w)
  {
    assert r in Free(g, w);
    SubsetCard(Free(g, w'), Free(g, w) - {r});
  }

  // A rule that is met, from tree node `p`.
  function OfRule(g: LaGrammar, w: Walk, rt: nat, p: Option<nat>): (o: Reply)
    requires Fits(g, w) && rt < |g.rules|
    ensures Goes(g, w, o) && (o.Came? ==> rt in o.w.done || rt in w.inProcess)
    decreases Room(g, w), 1
  {
    if rt in w.done then Came(w, if rt in w.maybeZero then MaybeZero else NA)
    else if rt in w.inProcess then Came(w.(pendings := Told(w.pendings, w.inProcess, rt)), NA)
    else
      var w1 := w.(inProcess := w.inProcess + [rt]);
      RoomTaken(g, w, w1, rt);
      match LookingInto(g, w1, rt, p)
      case Stuck => Stuck
      case Came(w2, res) => Came(Left(w2, rt, res), res)
  }

  function Left(w: Walk, rt: nat, res: TResult): Walk
    requires w.inProcess != []
  {
    w.(inProcess := w.inProcess[..|w.inProcess| - 1], done := w.done + [rt],
       maybeZero := if res.MaybeZero? then w.maybeZero + [rt] else w.maybeZero)
  }

  function LookingInto(g: LaGrammar, w: Walk, rt: nat, p: Option<nat>): (o: Reply)
    requires Fits(g, w) && rt < |g.rules|
    ensures Goes(g, w, o)
    decreases Room(g, w), 5
  {
    if rt == g.identifier then Came(w.(las := AddRuleLa(w.las, rt, LaIdentifier)), NA)
    else if rt == g.literal then Came(w.(las := AddRuleLa(w.las, rt, LaLiteral)), NA)
    else
      var w1 := w.(tree := w.tree + [TreeNode(rt, p)]);
      RoomStays(g, w, w1);
      ByType(g, w1, rt, |w.tree|)
  }

  function ByType(g: LaGrammar, w: Walk, rt: nat, p: nat): (o: Reply)
    requires Fits(g, w) && rt < |g.rules| && !IsLeafRule(g, rt)
    ensures Goes(g, w, o)
    decreases Room(g, w), 4
  {
    assert WellFormedRule(|g.rules|, g.rules[rt]);
    match g.rules[rt].mType
    case Oneof => OfOneof(g, w, rt, p, 0, NA)
    case Data => OfElement(g, w, rt, 0, p)
    case Concatenate => OfConcatenate(g, w, rt, p, 0)
    case Zeroorone => Anyway(OfElement(g, w, rt, 0, p))
    case Zeroormore => Anyway(OfElement(g, w, rt, 0, p))
  }

  // Zero times is always possible.
  function Anyway(o: Reply): Reply {
    match o
    case Stuck => Stuck
    case Came(w, _) => Came(w, MaybeZero)
  }

  // The elements from `i` on, each an alternative.
  function OfOneof(g: LaGrammar, w: Walk, rt: nat, p: nat, i: nat, res: TResult): (o: Reply)
    requires Fits(g, w) && rt < |g.rules| && !IsLeafRule(g, rt) && i <= |g.rules[rt].mData|
    ensures Goes(g, w, o)
    decreases Room(g, w), 3, |g.rules[rt].mData| - i
  {
    if i == |g.rules[rt].mData| then Came(w, res)
    else
      match OfElement(g, w, rt, i, p)
      case Stuck => Stuck
      case Came(w1, temp) =>
        RoomStays(g, w, w1);
        OfOneof(g, w1, rt, p, i + 1, if temp.MaybeZero? then MaybeZero else res)
  }

  // The elements from `i` on, up to the first that is not MaybeZero; the rest is for later.
  function OfConcatenate(g: LaGrammar, w: Walk, rt: nat, p: nat, i: nat): (o: Reply)
    requires Fits(g, w) && rt < |g.rules| && !IsLeafRule(g, rt) && i <= |g.rules[rt].mData|
    ensures Goes(g, w, o)
    decreases Room(g, w), 3, |g.rules[rt].mData| - i
  {
    if i == |g.rules[rt].mData| then Came(w, MaybeZero)
    else
      match OfElement(g, w, rt, i, p)
      case Stuck => Stuck
      case Came(w1, temp) =>
        RoomStays(g, w, w1);
        if temp.MaybeZero? then OfConcatenate(g, w1, rt, p, i + 1) else Came(RestToDo(g, w1, rt, i + 1), NA)
  }

  // A rule is walked and lends its lookaheads, anything else is a lookahead itself.
  function OfElement(g: LaGrammar, w: Walk, rt: nat, k: nat, p: nat): (o: Reply)
    requires Fits(g, w) && rt < |g.rules| && !IsLeafRule(g, rt) && k < |g.rules[rt].mData|
    ensures Goes(g, w, o)
    decreases Room(g, w), 2
  {
    var d := g.rules[rt].mData[k];
    assert WellFormedRule(|g.rules|, g.rules[rt]) && d in g.rules[rt].mData;
    if d.Subtable? then
      match OfRule(g, w, d.entry, Some(p))
      case Stuck => Stuck
      case Came(w1, res) =>
        match Copy(w1.las, rt, d.entry)
        case None => Stuck
        case Some(las) => Came(w1.(las := las), res)
    else Came(w.(las := AddRuleLa(w.las, rt, LaOf(d))), NA)
  }

  // -------- The patch

  function PatchEach(las: RuleLookAheads, deps: seq<nat>, q: nat): Option<RuleLookAheads>
    decreases deps
  {
    if deps == [] then Some(las)
    else
      match Copy(las, deps[0], q)
      case None => None
      case Some(las1) => PatchEach(las1, deps[1..], q)
  }

  // Those that wait for `q` get its lookaheads; it is asserted to have a list.
  function Patch(las: RuleLookAheads, pendings: seq<Pending>, q: nat): Option<RuleLookAheads> {
    if pendings == [] then Some(las)
    else if pendings[0].mRule != q then Patch(las, pendings[1..], q)
    else if q !in las then None
    else PatchEach(las, pendings[0].mDependents, q)
  }

  // Level by level; `n` nodes are left.
  function PatchTree(las: RuleLookAheads, pendings: seq<Pending>, tree: seq<TreeNode>, working: seq<nat>, n: nat): Option<RuleLookAheads>
    decreases n
  {
    if working == [] || n == 0 || working[0] >= |tree| then Some(las)
    else
      match Patch(las, pendings, tree[working[0]].data)
      case None => None
      case Some(las1) => PatchTree(las1, pendings, tree, working[1..] + ChildrenOf(tree, working[0], |tree|), n - 1)
  }

  function FirstNode(tree: seq<TreeNode>): seq<nat> {
    if tree == [] then [] else [0]
  }

  // -------- The main loop

  // The first rule of the list is walked, in a new tree, unless it is done.
  function OfFront(g: LaGrammar, w: Walk): (o: Option<Walk>)
    requires Fits(g, w) && w.toDo != []
    ensures o.Some? ==> Fits(g, o.value) && o.value.inProcess == [] && forall r :: r in w.done ==> r in o.value.done
    ensures o.Some? ==> (o.value.done == w.done && o.value.toDo == w.toDo[1..]) || (w.toDo[0] !in w.done && w.toDo[0] in o.value.done)
  {
    var front := w.toDo[0];
    var w1 := w.(tree := [], inProcess := [], pendings := [], toDo := w.toDo[1..]);
    assert front in w.toDo && forall r :: r in w1.toDo ==> r in w.toDo;
    if front in w.done then Some(w1)
    else
      match OfRule(g, w1, front, None)
      case Stuck => None
      case Came(w2, _) =>
        match PatchTree(w2.las, w2.pendings, w2.tree, FirstNode(w2.tree), |w2.tree|)
        case None => None
        case Some(las) => Some(w2.(las := las))
  }

  function OfAll(g: LaGrammar, w: Walk): Option<Walk>
    requires Fits(g, w) && w.inProcess == []
    decreases Room(g, w), |w.toDo|
  {
    if w.toDo == [] then Some(w)
    else
      match OfFront(g, w)
      case None => None
      case Some(w1) =>
        FrontGoes(g, w, w1);
        OfAll(g, w1)
  }

  lemma FrontGoes(g: LaGrammar, w: Walk, w1: Walk)
    requires Fits(g, w) && w.inProcess == [] && w.toDo != [] && OfFront(g, w) == Some(w1)
    ensures Room(g, w1) < Room(g, w) || (Room(g, w1) == Room(g, w) && |w1.toDo| < |w.toDo|)
  {
    hide OfFront;
    assert w.toDo[0] in w.toDo;
    if w1.done != w.done || w1.toDo != w.toDo[1..] { RoomTaken(g, w, w1, w.toDo[0]); }
  }

  // The whole walk, from the top rules on.
  function WalkOf(g: LaGrammar, tops: seq<nat>): Option<Walk>
    requires WellFormedLa(g) && forall t :: t in tops ==> t < |g.rules|
  {
    OfAll(g, Walk([], [], tops, [], map[], [], []))
  }
}
