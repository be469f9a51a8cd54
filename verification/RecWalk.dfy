/** The walk of the left-recursion detector as a function of the grammar: in which order rules are done
    and which class each is filed under. */
module RecWalk {
  import opened Graphs
  import opened Grammar
  import opened Recursions

  // Element `k` of rule `u` was in process when `u` looked into it; `rules` are the rules in process from
  // that rule down to `u`.
  datatype Edge = Edge(u: nat, k: nat, rules: seq<nat>)

  datatype Walk = Walk(inProcess: seq<nat>, done: seq<nat>, todo: seq<nat>, mz: seq<nat>, fail: seq<nat>, edges: seq<Edge>)

  datatype Reply = Came(w: Walk, res: TResult)

  predicate Fits(g: Rules, w: Walk) {
    WellFormed(g) && forall r :: r in w.todo ==> r < |g|
  }

  function ToDoAdded(w: Walk, r: nat): Walk {
    if r in w.inProcess || r in w.done || r in w.todo then w else w.(todo := w.todo + [r])
  }

  // The rules among the elements of `u` from `k` on are put on the list.
  function RestToDo(g: Rules, w: Walk, u: nat, k: nat): (r: Walk)
    requires WellFormed(g) && u < |g| && k <= |g[u].mData|
    ensures (Fits(g, w) ==> Fits(g, r)) && r == w.(todo := r.todo)
    decreases |g[u].mData| - k
  {
    if k == |g[u].mData| then w
    else
      var d := g[u].mData[k];
      assert WellFormedRule(|g|, g[u]) && d in g[u].mData;
      RestToDo(g, if d.Subtable? then ToDoAdded(w, d.entry) else w, u, k + 1)
  }

  // -------- One rule

  // Rules that are neither in process nor done.
  function Free(g: Rules, w: Walk): set<nat> {
    Below(|g|) - Elems(w.inProcess) - Elems(w.done)
  }

  ghost function Room(g: Rules, w: Walk): nat {
    |Free(g, w)|
  }

  // What a step leaves as it is.
  predicate Goes(g: Rules, w: Walk, w': Walk) {
    (Fits(g, w) ==> Fits(g, w')) && w'.inProcess == w.inProcess && forall r :: r in w.done ==> r in w'.done
  }

  lemma RoomStays(g: Rules, w: Walk, w': Walk)
    requires w'.inProcess == w.inProcess && forall r :: r in w.done ==> r in w'.done
    ensures Room(g, w') <= Room(g, w)
  {
    SubsetCard(Free(g, w'), Free(g, w));
  }

  lemma RoomTaken(g: Rules, w: Walk, w': Walk, r: nat)
    requires r < |g| && r !in w.inProcess && r !in w.done
    requires (forall x :: x in w.inProcess || x in w.done ==> x in w'.inProcess || x in w'.done) && (r in w'.inProcess || r in w'.done)
    ensures Room(g, w') < Room(g, w)
  {
    assert r in Free(g, w);
    SubsetCard(Free(g, w'), Free(g, w) - {r});
  }

  // The rules in process from `rt` on.
  function DownFrom(path: seq<nat>, rt: nat): seq<nat> {
    if path == [] || path[0] == rt then path else DownFrom(path[1..], rt)
  }

  // The rule in process that looks into its element `k`, which is `rt`, in process too.
  function Back(w: Walk, rt: nat, k: nat): Edge
    requires w.inProcess != []
  {
    Edge(w.inProcess[|w.inProcess| - 1], k, DownFrom(w.inProcess, rt))
  }

  // A rule that is met, as element `k` of the last rule in process. In process it counts as Fail.
  function OfRule(g: Rules, w: Walk, rt: nat, k: nat): (o: Reply)
    requires WellFormed(g) && rt < |g|
    ensures Goes(g, w, o.w) && !o.res.NA? && (rt in o.w.done || rt in w.inProcess)
    decreases Room(g, w), 1
  {
    if rt in w.done then Came(w, Done)
    else if rt in w.inProcess then Came(w.(edges := w.edges + [Back(w, rt, k)]), Fail)
    else
      var w1 := w.(inProcess := w.inProcess + [rt]);
      RoomTaken(g, w, w1, rt);
      var o := ByType(g, w1, rt);
      Came(Left(o.w, rt, o.res), o.res)
  }

  function Left(w: Walk, rt: nat, res: TResult): Walk
    requires w.inProcess != []
  {
    w.(inProcess := w.inProcess[..|w.inProcess| - 1], done := w.done + [rt],
       mz := if res.Fail? then w.mz else w.mz + [rt], fail := if res.Fail? then w.fail + [rt] else w.fail)
  }

  function ByType(g: Rules, w: Walk, rt: nat): (o: Reply)
    requires WellFormed(g) && rt < |g|
    ensures Goes(g, w, o.w) && !o.res.NA? && !o.res.Done?
    decreases Room(g, w), 4
  {
    assert WellFormedRule(|g|, g[rt]);
    match g[rt].mType
    case Oneof => OfOneof(g, w, rt, 0, NA)
    case Data => var o := OfElement(g, w, rt, 0); Came(o.w, Filed(o.w, g[rt].mData[0], o.res))
    case Zeroorone => Came(OfElement(g, w, rt, 0).w, MaybeZero)
    case Zeroormore => Came(OfElement(g, w, rt, 0).w, MaybeZero)
    case Concatenate => OfConcatenate(g, w, rt, 0)
  }

  // The class of an element, which may have been filed before.
  function Filed(w: Walk, d: TableData, res: TResult): (c: TResult)
    ensures !res.NA? ==> !c.NA? && !c.Done?
  {
    if res.Done? && d.Subtable? then (if d.entry in w.mz then MaybeZero else Fail)
    else if res.Done? then Fail else res
  }

  function OfElement(g: Rules, w: Walk, rt: nat, k: nat): (o: Reply)
    requires WellFormed(g) && rt < |g| && k < |g[rt].mData|
    ensures Goes(g, w, o.w) && !o.res.NA?
    decreases Room(g, w), 2
  {
    var d := g[rt].mData[k];
    assert WellFormedRule(|g|, g[rt]) && d in g[rt].mData;
    if d.Subtable? then OfRule(g, w, d.entry, k) else Came(w, Fail)
  }

  // The elements from `i` on, each an alternative.
  function OfOneof(g: Rules, w: Walk, rt: nat, i: nat, acc: TResult): (o: Reply)
    requires WellFormed(g) && rt < |g| && i <= |g[rt].mData| && !acc.Done? && (acc.NA? ==> i < |g[rt].mData|)
    ensures Goes(g, w, o.w) && !o.res.NA? && !o.res.Done?
    decreases Room(g, w), 3, |g[rt].mData| - i
  {
    if i == |g[rt].mData| then Came(w, acc)
    else
      var o := OfElement(g, w, rt, i);
      RoomStays(g, w, o.w);
      OfOneof(g, o.w, rt, i + 1, if acc.MaybeZero? || Filed(o.w, g[rt].mData[i], o.res).MaybeZero? then MaybeZero else Fail)
  }

  // The elements from `i` on, up to the first that fails; the rest is for later.
  function OfConcatenate(g: Rules, w: Walk, rt: nat, i: nat): (o: Reply)
    requires WellFormed(g) && rt < |g| && i <= |g[rt].mData|
    ensures Goes(g, w, o.w) && !o.res.NA? && !o.res.Done?
    decreases Room(g, w), 3, |g[rt].mData| - i
  {
    if i == |g[rt].mData| then Came(w, MaybeZero)
    else
      var d, o := g[rt].mData[i], OfElement(g, w, rt, i);
      RoomStays(g, w, o.w);
      if o.res.Fail? || (o.res.Done? && d.Subtable? && d.entry in o.w.fail) then Came(RestToDo(g, o.w, rt, i + 1), Fail)
      else OfConcatenate(g, o.w, rt, i + 1)
  }

  // -------- The steps one by one

  lemma RuleIs(g: Rules, w: Walk, rt: nat, k: nat)
    requires WellFormed(g) && rt < |g|
    ensures rt in w.done ==> OfRule(g, w, rt, k) == Came(w, Done)
    ensures rt !in w.done && rt in w.inProcess ==> OfRule(g, w, rt, k) == Came(w.(edges := w.edges + [Back(w, rt, k)]), Fail)
    ensures rt !in w.done && rt !in w.inProcess ==>
              var o := ByType(g, w.(inProcess := w.inProcess + [rt]), rt);
              OfRule(g, w, rt, k) == Came(Left(o.w, rt, o.res), o.res)
  {
    hide ByType;
  }

  lemma ElementIs(g: Rules, w: Walk, rt: nat, k: nat)
    requires WellFormed(g) && rt < |g| && k < |g[rt].mData|
    ensures WellFormedRule(|g|, g[rt])
    ensures var d := g[rt].mData[k];
            if d.Subtable? then d.entry < |g| && OfElement(g, w, rt, k) == OfRule(g, w, d.entry, k)
            else OfElement(g, w, rt, k) == Came(w, Fail)
  {
    hide OfRule;
    assert g[rt].mData[k] in g[rt].mData;
  }

  lemma OneofIs(g: Rules, w: Walk, rt: nat, i: nat, acc: TResult, w': Walk, res: TResult, acc': TResult)
    requires WellFormed(g) && rt < |g| && i < |g[rt].mData| && OfElement(g, w, rt, i) == Came(w', res) && !acc.Done?
    requires acc' == if acc.MaybeZero? || Filed(w', g[rt].mData[i], res).MaybeZero? then MaybeZero else Fail
    ensures OfOneof(g, w, rt, i, acc) == OfOneof(g, w', rt, i + 1, acc')
  {
    hide OfElement;
  }

  lemma ConcatenateIs(g: Rules, w: Walk, rt: nat, i: nat, w': Walk, res: TResult)
    requires WellFormed(g) && rt < |g| && i < |g[rt].mData| && OfElement(g, w, rt, i) == Came(w', res)
    ensures var d := g[rt].mData[i];
            OfConcatenate(g, w, rt, i) ==
              if res.Fail? || (res.Done? && d.Subtable? && d.entry in w'.fail) then Came(RestToDo(g, w', rt, i + 1), Fail)
              else OfConcatenate(g, w', rt, i + 1)
  {
    hide OfElement;
  }

  lemma NoMore(g: Rules, w: Walk, rt: nat, acc: TResult)
    requires WellFormed(g) && rt < |g|
    ensures !acc.NA? && !acc.Done? ==> OfOneof(g, w, rt, |g[rt].mData|, acc) == Came(w, acc)
    ensures OfConcatenate(g, w, rt, |g[rt].mData|) == Came(w, MaybeZero)
  {
  }

  // -------- The main loop

  // The first rule of the list is walked, unless it is done.
  function OfFront(g: Rules, w: Walk): (w': Walk)
    requires Fits(g, w) && w.todo != []
    ensures Fits(g, w') && w'.inProcess == [] && forall r :: r in w.done ==> r in w'.done
    ensures (w'.done == w.done && w'.todo == w.todo[1..]) || (w.todo[0] !in w.done && w.todo[0] in w'.done)
  {
    var front := w.todo[0];
    var w1 := w.(inProcess := [], todo := w.todo[1..]);
    assert front in w.todo && forall r :: r in w1.todo ==> r in w.todo;
    if front in w.done then w1 else OfRule(g, w1, front, 0).w
  }

  function OfAll(g: Rules, w: Walk): Walk
    requires Fits(g, w) && w.inProcess == []
    decreases Room(g, w), |w.todo|
  {
    if w.todo == [] then w
    else
      FrontGoes(g, w);
      OfAll(g, OfFront(g, w))
  }

  lemma FrontGoes(g: Rules, w: Walk)
    requires Fits(g, w) && w.inProcess == [] && w.todo != []
    ensures var w1 := OfFront(g, w); Room(g, w1) < Room(g, w) || (Room(g, w1) == Room(g, w) && |w1.todo| < |w.todo|)
  {
    hide OfFront;
    var w1 := OfFront(g, w);
    assert w.todo[0] in w.todo;
    if w1.done != w.done || w1.todo != w.todo[1..] { RoomTaken(g, w, w1, w.todo[0]); }
  }

  // The whole walk, from the top rules on.
  function WalkOf(g: Rules, tops: seq<nat>): Walk
    requires WellFormed(g) && forall t :: t in tops ==> t < |g|
  {
    OfAll(g, Walk([], [], tops, [], [], []))
  }
}
