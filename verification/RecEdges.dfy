/** The back edges of the walk: which elements they are, told from the order in which rules are done, and
    the paths recorded for them. */
module RecEdges {
  import opened Graphs
  import opened Grammar
  import opened Recursions
  import opened RecCycles
  import opened RecWalk

  // -------- Paths

  // Position of the first element that is `d`.
  function FirstIndex(ds: seq<TableData>, d: TableData): nat {
    if ds == [] || ds[0] == d then 0 else 1 + FirstIndex(ds[1..], d)
  }

  lemma {:induction false} FirstIndexIs(ds: seq<TableData>, d: TableData, k: nat)
    requires k < |ds| && ds[k] == d && d !in ds[..k]
    ensures FirstIndex(ds, d) == k
  {
    if k > 0 {
      assert ds[..k][0] == ds[0];
      assert ds[1..][..k - 1] == ds[..k][1..];
      FirstIndexIs(ds[1..], d, k - 1);
    }
  }

  predicate InRange(g: Rules, rs: seq<nat>) {
    forall i :: 0 <= i < |rs| ==> rs[i] < |g|
  }

  // The positions that lead from each of the rules to the next.
  function PathOf(g: Rules, rs: seq<nat>): (p: seq<nat>)
    requires InRange(g, rs)
  {
    if |rs| <= 1 then [] else [FirstIndex(g[rs[0]].mData, Subtable(rs[1]))] + PathOf(g, rs[1..])
  }

  lemma {:induction false} RouteIsPath(g: Rules, mz: seq<nat>, rs: seq<nat>, p: seq<nat>)
    requires IsRoute(g, mz, rs, p) && InRange(g, rs)
    ensures p == PathOf(g, rs)
    decreases |rs|
  {
    if |p| > 0 {
      assert FirstLeft(g, mz, rs[0], p[0], rs[1]);
      FirstIndexIs(g[rs[0]].mData, Subtable(rs[1]), p[0]);
      forall i | 0 <= i < |p[1..]|
        ensures FirstLeft(g, mz, rs[1..][i], p[1..][i], rs[1..][i + 1])
      {
        assert FirstLeft(g, mz, rs[i + 1], p[i + 1], rs[i + 2]);
      }
      RouteIsPath(g, mz, rs[1..], p[1..]);
    }
  }

  // -------- What is recorded

  // A lead and its paths.
  datatype Led = Led(lead: nat, paths: seq<seq<nat>>)

  function AddPath(ls: seq<Led>, lead: nat, path: seq<nat>): seq<Led> {
    if ls == [] then [Led(lead, [path])]
    else if ls[0].lead == lead then [Led(lead, ls[0].paths + [path])] + ls[1..]
    else [ls[0]] + AddPath(ls[1..], lead, path)
  }

  // The rules of the edge, and the one it goes back to again.
  function Round(e: Edge): seq<nat> {
    if e.rules == [] then [] else e.rules + [e.rules[0]]
  }

  function Target(e: Edge): nat {
    if e.rules == [] then 0 else e.rules[0]
  }

  predicate EdgesFit(g: Rules, es: seq<Edge>) {
    forall e :: e in es ==> e.rules != [] && InRange(g, e.rules)
  }

  // One path for every edge, with the rule it goes back to.
  function Recorded(g: Rules, es: seq<Edge>): seq<Led>
    requires EdgesFit(g, es)
  {
    if es == [] then []
    else
      var n := |es| - 1;
      assert es[n] in es;
      AddPath(Recorded(g, es[..n]), Target(es[n]), PathOf(g, Round(es[n])))
  }

  ghost predicate RecordedAs(recs: seq<Recursion>, ls: seq<Led>) {
    |recs| == |ls| && forall k :: 0 <= k < |ls| ==> recs[k].mLead == ls[k].lead && recs[k].mPaths == ls[k].paths
  }

  // Every edge has its path.
  ghost predicate PathsRecorded(g: Rules, recs: seq<Recursion>, es: seq<Edge>) {
    EdgesFit(g, es) && RecordedAs(recs, Recorded(g, es))
  }

  predicate LeadsDiffer(ls: seq<Led>) {
    forall i, j :: 0 <= i < j < |ls| ==> ls[i].lead != ls[j].lead
  }

  // Where the path goes: to the entry of its lead, or to a new one.
  lemma {:induction false} AddPathIs(ls: seq<Led>, lead: nat, path: seq<nat>, k: nat)
    requires k <= |ls| && (k < |ls| ==> ls[k].lead == lead) && forall j :: 0 <= j < k ==> ls[j].lead != lead
    ensures AddPath(ls, lead, path) == if k < |ls| then ls[k := Led(lead, ls[k].paths + [path])] else ls + [Led(lead, [path])]
  {
    if k > 0 {
      AddPathIs(ls[1..], lead, path, k - 1);
      assert ls == [ls[0]] + ls[1..];
    }
  }

  lemma OneMorePath(g: Rules, recs: seq<Recursion>, recs': seq<Recursion>, es: seq<Edge>, e: Edge, path: seq<nat>, rules: seq<nat>)
    requires PathsRecorded(g, recs, es) && e.rules != [] && InRange(g, e.rules) && DistinctLeads(recs')
    requires CycleRecorded(recs, recs', Target(e), path, rules) && path == PathOf(g, Round(e))
    ensures PathsRecorded(g, recs', es + [e])
  {
    hide PathOf, RecOK, InRange, AddPath, RecordedAs;
    assert (es + [e])[..|es|] == es;
    MoreRecorded(recs, recs', Recorded(g, es), Target(e), path, rules);
  }

  lemma MoreRecorded(recs: seq<Recursion>, recs': seq<Recursion>, ls: seq<Led>, lead: nat, path: seq<nat>, rules: seq<nat>)
    requires RecordedAs(recs, ls) && DistinctLeads(recs') && CycleRecorded(recs, recs', lead, path, rules)
    ensures RecordedAs(recs', AddPath(ls, lead, path))
  {
    var k: nat :| RecordedAt(recs, recs', k, lead, path, rules);
    forall j | 0 <= j < k && j < |ls|
      ensures ls[j].lead != lead
    {
      assert recs'[j] == recs[j];
    }
    AddPathIs(ls, lead, path, k);
  }

  // The edges that go back to `v`, in order.
  function EdgesTo(es: seq<Edge>, v: nat): seq<Edge> {
    if es == [] then []
    else EdgesTo(es[..|es| - 1], v) + if Target(es[|es| - 1]) == v then [es[|es| - 1]] else []
  }

  lemma {:induction false} EdgesToAre(es: seq<Edge>, v: nat)
    ensures forall e :: e in EdgesTo(es, v) <==> e in es && Target(e) == v
    ensures KeysDiffer(es) ==> KeysDiffer(EdgesTo(es, v))
  {
    if es != [] {
      var n := |es| - 1;
      EdgesToAre(es[..n], v);
      assert es == es[..n] + [es[n]];
      if KeysDiffer(es) {
        forall i | 0 <= i < |EdgesTo(es[..n], v)|
          ensures EdgesTo(es[..n], v)[i].u != es[n].u || EdgesTo(es[..n], v)[i].k != es[n].k
        {
          assert EdgesTo(es[..n], v)[i] in es[..n];
        }
      }
    }
  }

  // No two edges are of one element.
  predicate KeysDiffer(es: seq<Edge>) {
    forall i, j :: 0 <= i < j < |es| ==> es[i].u != es[j].u || es[i].k != es[j].k
  }

  predicate PathsAre(g: Rules, paths: seq<seq<nat>>, es: seq<Edge>)
    requires EdgesFit(g, es)
  {
    |paths| == |es| && forall i :: 0 <= i < |es| ==> es[i] in es && paths[i] == PathOf(g, Round(es[i]))
  }

  predicate HasLead(ls: seq<Led>, v: nat) {
    exists k :: 0 <= k < |ls| && ls[k].lead == v
  }

  // Every lead has the paths of the edges that go back to it, and no rule without edges is a lead.
  ghost predicate RecordedFits(g: Rules, es: seq<Edge>, ls: seq<Led>) {
    && LeadsDiffer(ls)
    && (forall v :: EdgesTo(es, v) != [] <==> HasLead(ls, v))
    && forall k :: 0 <= k < |ls| ==> HasPaths(g, es, ls[k])
  }

  ghost predicate HasPaths(g: Rules, es: seq<Edge>, l: Led) {
    EdgesFit(g, EdgesTo(es, l.lead)) && PathsAre(g, l.paths, EdgesTo(es, l.lead))
  }

  lemma {:induction false} RecordedIs(g: Rules, es: seq<Edge>)
    requires EdgesFit(g, es)
    ensures RecordedFits(g, es, Recorded(g, es))
  {
    hide PathOf, RecordedFits, AddPath;
    if es == [] {
      NothingRecorded(g);
    } else {
      var n := |es| - 1;
      assert es[n] in es && es == es[..n] + [es[n]];
      RecordedIs(g, es[..n]);
      OneMoreRecorded(g, es[..n], es[n], Recorded(g, es[..n]));
    }
  }

  lemma NothingRecorded(g: Rules)
    ensures RecordedFits(g, [], [])
  {
  }

  lemma OneMoreRecorded(g: Rules, es: seq<Edge>, e: Edge, ls: seq<Led>)
    requires RecordedFits(g, es, ls) && e.rules != [] && InRange(g, e.rules)
    ensures RecordedFits(g, es + [e], AddPath(ls, Target(e), PathOf(g, Round(e))))
  {
    hide PathOf, HasPaths, EdgesTo, HasLead;
    var lead, path := Target(e), PathOf(g, Round(e));
    var k := LeadPlace(ls, lead);
    AddPathIs(ls, lead, path, k);
    var ls' := AddPath(ls, lead, path);
    forall v
      ensures EdgesTo(es + [e], v) == EdgesTo(es, v) + (if v == lead then [e] else [])
    {
      OneMoreTo(es, e, v);
    }
    LeadsAfter(ls, ls', lead, k);
    forall j | 0 <= j < |ls'|
      ensures HasPaths(g, es + [e], ls'[j])
    {
      if j < |ls| { assert HasPaths(g, es, ls[j]); } else { NoPaths(g, es, lead); }
      HasPathsAfter(g, es, e, if j < |ls| then ls[j] else Led(lead, []), ls'[j]);
    }
  }

  lemma NoPaths(g: Rules, es: seq<Edge>, v: nat)
    requires EdgesTo(es, v) == []
    ensures HasPaths(g, es, Led(v, []))
  {
  }

  lemma OneMoreTo(es: seq<Edge>, e: Edge, v: nat)
    ensures EdgesTo(es + [e], v) == EdgesTo(es, v) + if v == Target(e) then [e] else []
  {
    assert (es + [e])[..|es|] == es;
  }

  lemma LeadsAfter(ls: seq<Led>, ls': seq<Led>, lead: nat, k: nat)
    requires LeadsDiffer(ls) && k <= |ls| && (k < |ls| ==> ls[k].lead == lead) && forall j :: 0 <= j < k ==> ls[j].lead != lead
    requires |ls'| == (if k < |ls| then |ls| else |ls| + 1) && ls'[k].lead == lead && forall j :: 0 <= j < |ls| && j != k ==> ls'[j] == ls[j]
    ensures LeadsDiffer(ls') && (HasLead(ls, lead) <==> k < |ls|) && forall v :: HasLead(ls', v) <==> HasLead(ls, v) || v == lead
  {
    forall v
      ensures HasLead(ls', v) <==> HasLead(ls, v) || v == lead
    {
      if HasLead(ls, v) {
        var j :| 0 <= j < |ls| && ls[j].lead == v;
        assert ls'[j].lead == v;
      }
    }
  }

  lemma HasPathsAfter(g: Rules, es: seq<Edge>, e: Edge, l: Led, l': Led)
    requires HasPaths(g, es, l) && e.rules != [] && InRange(g, e.rules) && l'.lead == l.lead
    requires l'.paths == l.paths + if l.lead == Target(e) then [PathOf(g, Round(e))] else []
    ensures HasPaths(g, es + [e], l')
  {
    hide PathOf;
    OneMoreTo(es, e, l.lead);
    var to, to' := EdgesTo(es, l.lead), EdgesTo(es + [e], l.lead);
    assert forall f :: f in to' ==> f in to || f == e;
  }

  lemma LeadPlace(ls: seq<Led>, lead: nat) returns (k: nat)
    ensures k <= |ls| && (k < |ls| ==> ls[k].lead == lead) && forall j :: 0 <= j < k ==> ls[j].lead != lead
  {
    k := 0;
    while k < |ls| && ls[k].lead != lead
      invariant k <= |ls| && forall j :: 0 <= j < k ==> ls[j].lead != lead
    {
      k := k + 1;
    }
  }

  // -------- Which elements are back edges

  predicate DoneBefore(done: seq<nat>, v: nat, u: nat) {
    exists i, j :: 0 <= i < j < |done| && done[i] == v && done[j] == u
  }

  // The walk of `u` comes to its element `k`: in a concatenation every element before it is a rule that
  // is MaybeZero and was done before.
  ghost predicate ComesTo(g: Rules, w: Walk, u: nat, k: nat) {
    u < |g| && k < |g[u].mData|
    && (g[u].mType.Concatenate? ==>
          forall j :: 0 <= j < k ==> var d := g[u].mData[j]; d.Subtable? && d.entry in w.mz && DoneBefore(w.done, d.entry, u))
  }

  // It is the rule `v`, which was not done before.
  ghost predicate GoesBack(g: Rules, w: Walk, u: nat, k: nat, v: nat) {
    u in w.done && ComesTo(g, w, u, k) && g[u].mData[k] == Subtable(v) && !DoneBefore(w.done, v, u)
  }

  predicate IsEdge(es: seq<Edge>, u: nat, k: nat, v: nat) {
    exists e :: e in es && e.u == u && e.k == k && Target(e) == v
  }

  // Each back edge is there, once, and nothing else.
  ghost predicate EdgesExact(g: Rules, w: Walk) {
    && KeysDiffer(w.edges)
    && forall u: nat, k: nat, v: nat :: IsEdge(w.edges, u, k, v) <==> GoesBack(g, w, u, k, v)
  }

  // The paths of a lead: one for every element that goes back to it, of rules from the lead down to the
  // rule the element is in, and no other.
  ghost predicate OnePathEach(g: Rules, w: Walk, lead: nat, paths: seq<seq<nat>>) {
    exists es :: PathsFor(g, w, lead, paths, es)
  }

  ghost predicate PathsFor(g: Rules, w: Walk, lead: nat, paths: seq<seq<nat>>, es: seq<Edge>) {
    && EdgesFit(g, es) && KeysDiffer(es) && PathsAre(g, paths, es)
    && (forall i :: 0 <= i < |es| ==> es[i].rules[0] == lead && es[i].rules[|es[i].rules| - 1] == es[i].u)
    && forall u: nat, k: nat :: IsEdge(es, u, k, lead) <==> GoesBack(g, w, u, k, lead)
  }

  lemma PathsAreExact(g: Rules, w: Walk, recs: seq<Recursion>)
    requires EdgesExact(g, w) && PathsRecorded(g, recs, w.edges)
    requires forall e :: e in w.edges ==> e.rules[|e.rules| - 1] == e.u
    ensures forall k :: 0 <= k < |recs| ==> OnePathEach(g, w, recs[k].mLead, recs[k].mPaths)
    ensures forall v: nat :: IsLead(recs, v) <==> exists u: nat, k: nat :: GoesBack(g, w, u, k, v)
  {
    hide GoesBack, PathOf, Recorded;
    RecordedIs(g, w.edges);
    var ls := Recorded(g, w.edges);
    assert forall k :: 0 <= k < |ls| ==> HasPaths(g, w.edges, ls[k]);
    forall k | 0 <= k < |recs|
      ensures OnePathEach(g, w, recs[k].mLead, recs[k].mPaths)
    {
      var lead := recs[k].mLead;
      var es := EdgesTo(w.edges, lead);
      EdgesToAre(w.edges, lead);
      forall i | 0 <= i < |es|
        ensures es[i].rules[0] == lead && es[i].rules[|es[i].rules| - 1] == es[i].u
      {
        assert es[i] in es;
      }
      forall a: nat, b: nat
        ensures IsEdge(es, a, b, lead) <==> GoesBack(g, w, a, b, lead)
      {
        assert IsEdge(es, a, b, lead) <==> IsEdge(w.edges, a, b, lead);
      }
      assert PathsFor(g, w, lead, recs[k].mPaths, es);
    }
    forall v: nat
      ensures IsLead(recs, v) <==> exists u: nat, k: nat :: GoesBack(g, w, u, k, v)
    {
      LeadHasEdge(g, w, recs, v);
    }
  }

  lemma LeadHasEdge(g: Rules, w: Walk, recs: seq<Recursion>, v: nat)
    requires EdgesExact(g, w) && PathsRecorded(g, recs, w.edges)
    requires forall x :: EdgesTo(w.edges, x) != [] <==> HasLead(Recorded(g, w.edges), x)
    ensures IsLead(recs, v) <==> exists u: nat, k: nat :: GoesBack(g, w, u, k, v)
  {
    hide GoesBack, PathOf, Recorded;
    EdgesToAre(w.edges, v);
    var ls := Recorded(g, w.edges);
    if IsLead(recs, v) {
      var k :| 0 <= k < |recs| && recs[k].mLead == v;
      assert ls[k].lead == v;
      var e := EdgesTo(w.edges, v)[0];
      assert e in EdgesTo(w.edges, v);
      assert IsEdge(w.edges, e.u, e.k, v);
    }
    if u: nat, k: nat :| GoesBack(g, w, u, k, v) {
      assert IsEdge(w.edges, u, k, v);
      var e :| e in w.edges && e.u == u && e.k == k && Target(e) == v;
      assert e in EdgesTo(w.edges, v);
      var i :| 0 <= i < |ls| && ls[i].lead == v;
      assert recs[i].mLead == v;
    }
  }

  // -------- The invariant of the walk

  ghost predicate EdgeFits(g: Rules, w: Walk, e: Edge) {
    && (e.u in w.inProcess || e.u in w.done)
    && e.rules != [] && InRange(g, e.rules) && e.rules[|e.rules| - 1] == e.u
  }

  ghost predicate WalkInv(g: Rules, w: Walk) {
    && WellFormed(g) && NoDup(w.done) && NoDup(w.inProcess) && (forall r :: r in w.inProcess ==> r < |g| && r !in w.done)
    && (forall r :: r in w.mz || r in w.fail ==> r in w.done) && (forall r :: r in w.done ==> (r in w.mz <==> r !in w.fail))
    && (forall e :: e in w.edges ==> EdgeFits(g, w, e))
    && KeysDiffer(w.edges)
    && forall u: nat, k: nat, v: nat :: u in w.done ==> (IsEdge(w.edges, u, k, v) <==> GoesBack(g, w, u, k, v))
  }

  // What a step leaves as it is: rules in process, done rules and their classes, edges.
  ghost predicate Later(w: Walk, w': Walk) {
    && w'.inProcess == w.inProcess && w.done <= w'.done && w.edges <= w'.edges
    && forall r :: r in w.done ==> (r in w.mz <==> r in w'.mz)
  }

  lemma LaterTrans(a: Walk, b: Walk, c: Walk)
    requires Later(a, b) && Later(b, c)
    ensures Later(a, c)
  {
    assert forall r :: r in a.done ==> r in b.done;
  }

  // These rules have got no edges.
  ghost predicate Quiet(path: seq<nat>, w: Walk, w': Walk) {
    forall e :: e in w'.edges && e.u in path ==> e in w.edges
  }

  lemma DoneBeforeStays(done: seq<nat>, done': seq<nat>, v: nat, u: nat)
    requires done <= done' && NoDup(done') && u in done
    ensures DoneBefore(done, v, u) <==> DoneBefore(done', v, u)
  {
    var j :| 0 <= j < |done| && done[j] == u;
    assert done'[j] == u;
    if DoneBefore(done', v, u) {
      var i, k :| 0 <= i < k < |done'| && done'[i] == v && done'[k] == u;
      assert k == j;
      assert done[i] == v;
    }
    if DoneBefore(done, v, u) {
      var i, k :| 0 <= i < k < |done| && done[i] == v && done[k] == u;
      assert done'[i] == v && done'[k] == u;
    }
  }

  // What is said of a done rule stays true.
  lemma GoesBackStays(g: Rules, w: Walk, w': Walk, u: nat, k: nat, v: nat)
    requires w.done <= w'.done && NoDup(w'.done) && u in w.done && forall r :: r in w.done ==> (r in w.mz <==> r in w'.mz)
    ensures GoesBack(g, w, u, k, v) <==> GoesBack(g, w', u, k, v)
  {
    hide DoneBefore;
    forall x
      ensures DoneBefore(w.done, x, u) <==> DoneBefore(w'.done, x, u)
    {
      DoneBeforeStays(w.done, w'.done, x, u);
    }
    forall x | DoneBefore(w.done, x, u)
      ensures x in w.mz <==> x in w'.mz
    {
      BeforeIsDone(w.done, x, u);
    }
  }

  lemma BeforeIsDone(done: seq<nat>, x: nat, u: nat)
    requires DoneBefore(done, x, u)
    ensures x in done
  {
  }

  // -------- The rule on top

  // The walk comes to element `k` of the rule on top: in a concatenation all before it are MaybeZero.
  predicate ComesNow(g: Rules, w: Walk, u: nat, k: nat) {
    u < |g| && k < |g[u].mData|
    && (g[u].mType.Concatenate? ==> forall j :: 0 <= j < k ==> g[u].mData[j].Subtable? && g[u].mData[j].entry in w.mz)
  }

  // The edges of `u` are the elements before `i` that are in process; elements before `i` the walk has
  // come to are in process or done.
  ghost predicate SoFar(g: Rules, w: Walk, u: nat, i: nat) {
    && u < |g|
    && (forall k: nat, v: nat :: IsEdge(w.edges, u, k, v) <==> k < i && ComesNow(g, w, u, k) && g[u].mData[k] == Subtable(v) && v in w.inProcess)
    && forall k: nat, v: nat :: k < i && ComesNow(g, w, u, k) && g[u].mData[k] == Subtable(v) ==> v in w.inProcess || v in w.done
  }

  ghost predicate OnTop(w: Walk, u: nat) {
    w.inProcess != [] && w.inProcess[|w.inProcess| - 1] == u
  }

  // The rule on top is popped.
  lemma PoppedEdges(g: Rules, w: Walk, u: nat, res: TResult)
    requires WalkInv(g, w) && OnTop(w, u) && u < |g| && SoFar(g, w, u, |g[u].mData|)
    ensures var w' := Left(w, u, res);
            WalkInv(g, w') && w'.inProcess == w.inProcess[..|w.inProcess| - 1]
  {
    hide IsEdge, GoesBack, WellFormed;
    var w', path := Left(w, u, res), w.inProcess;
    assert path == path[..|path| - 1] + [u];
    assert u in path;
    assert forall r :: r in path <==> r in w'.inProcess || r == u;
    forall e | e in w'.edges
      ensures EdgeFits(g, w', e)
    {
      assert EdgeFits(g, w, e);
    }
    forall a: nat, k: nat, v: nat | a in w'.done
      ensures IsEdge(w'.edges, a, k, v) <==> GoesBack(g, w', a, k, v)
    {
      if a == u { TopGoesBack(g, w, u, res, k, v); } else { GoesBackStays(g, w, w', a, k, v); }
    }
  }

  lemma TopGoesBack(g: Rules, w: Walk, u: nat, res: TResult, k: nat, v: nat)
    requires WalkInv(g, w) && OnTop(w, u) && u < |g| && SoFar(g, w, u, |g[u].mData|)
    ensures IsEdge(w.edges, u, k, v) <==> GoesBack(g, Left(w, u, res), u, k, v)
  {
    hide IsEdge, WellFormed;
    var w' := Left(w, u, res);
    forall x: nat
      ensures DoneBefore(w'.done, x, u) <==> x in w.done
    {
      LastDone(w.done, x, u);
    }
    assert u in w.inProcess;
    assert forall x :: x in w.mz ==> x in w.done;
    assert forall x :: x in w'.mz && x in w.done ==> x in w.mz;
    assert ComesTo(g, w', u, k) <==> ComesNow(g, w, u, k);
  }

  lemma LastDone(done: seq<nat>, x: nat, u: nat)
    requires u !in done
    ensures DoneBefore(done + [u], x, u) <==> x in done
  {
    var d := done + [u];
    if x in done {
      var i :| 0 <= i < |done| && done[i] == x;
      assert d[i] == x && d[|done|] == u;
    }
    if DoneBefore(d, x, u) {
      var i, j :| 0 <= i < j < |d| && d[i] == x && d[j] == u;
      assert done[i] == x;
    }
  }

  // -------- One element

  lemma {:induction false} DownFromIs(path: seq<nat>, rt: nat)
    requires rt in path
    ensures var d := DownFrom(path, rt);
            d != [] && d[0] == rt && d[|d| - 1] == path[|path| - 1] && forall i :: 0 <= i < |d| ==> d[i] in path
  {
    if path[0] != rt {
      assert path == [path[0]] + path[1..];
      DownFromIs(path[1..], rt);
    }
  }

  ghost predicate FreshFrom(w: Walk, u: nat, k: nat) {
    forall e :: e in w.edges && e.u == u ==> e.k < k
  }

  lemma OneMoreKey(es: seq<Edge>, e: Edge)
    requires KeysDiffer(es) && forall f :: f in es ==> f.u != e.u || f.k != e.k
    ensures KeysDiffer(es + [e])
  {
    var more := es + [e];
    assert forall i :: 0 <= i < |es| ==> more[i] in es;
  }

  // An element in process.
  lemma BackEdges(g: Rules, w: Walk, u: nat, k: nat, rt: nat)
    requires WalkInv(g, w) && OnTop(w, u) && rt in w.inProcess && FreshFrom(w, u, k)
    ensures var w' := w.(edges := w.edges + [Back(w, rt, k)]);
            && WalkInv(g, w') && Later(w, w') && Back(w, rt, k).u == u && Target(Back(w, rt, k)) == rt
            && forall a: nat, b: nat, v: nat :: IsEdge(w'.edges, a, b, v) <==> IsEdge(w.edges, a, b, v) || (a == u && b == k && v == rt)
  {
    hide WellFormed, GoesBack, KeysDiffer;
    DownFromIs(w.inProcess, rt);
    var e, w' := Back(w, rt, k), w.(edges := w.edges + [Back(w, rt, k)]);
    assert e in w'.edges && u in w.inProcess;
    forall f | f in w'.edges
      ensures EdgeFits(g, w', f)
    {
      if f in w.edges { assert EdgeFits(g, w, f); }
    }
    OneMoreKey(w.edges, e);
    forall a: nat, b: nat, v: nat
      ensures IsEdge(w'.edges, a, b, v) <==> IsEdge(w.edges, a, b, v) || (a == u && b == k && v == rt)
    {
      if IsEdge(w.edges, a, b, v) {
        var f :| f in w.edges && f.u == a && f.k == b && Target(f) == v;
        assert f in w'.edges;
      }
    }
    forall a: nat, b: nat, v: nat | a in w'.done
      ensures IsEdge(w'.edges, a, b, v) <==> GoesBack(g, w', a, b, v)
    {
      assert GoesBack(g, w', a, b, v) <==> GoesBack(g, w, a, b, v) by { GoesBackStays(g, w, w', a, b, v); }
    }
  }

  // Elements the walk has come to, or comes to next, it keeps coming to.
  lemma {:induction false} ComesStays(g: Rules, w: Walk, w': Walk, u: nat, i: nat, k: nat)
    requires WalkInv(g, w) && WalkInv(g, w') && Later(w, w') && SoFar(g, w, u, i) && k <= i
    ensures ComesNow(g, w, u, k) <==> ComesNow(g, w', u, k)
    decreases k
  {
    hide IsEdge, GoesBack, WellFormed, EdgeFits;
    if k > 0 && k < |g[u].mData| {
      ComesStays(g, w, w', u, i, k - 1);
      var d := g[u].mData[k - 1];
      if d.Subtable? && ComesNow(g, w, u, k - 1) {
        assert g[u].mData[k - 1] == Subtable(d.entry);
        assert d.entry in w.inProcess || d.entry in w.done;
      }
    }
  }

  lemma SoFarStays(g: Rules, w: Walk, w': Walk, u: nat, i: nat)
    requires WalkInv(g, w) && WalkInv(g, w') && Later(w, w') && SoFar(g, w, u, i) && Quiet([u], w, w')
    ensures SoFar(g, w', u, i)
  {
    hide GoesBack, WellFormed, EdgeFits, ComesNow;
    forall k: nat, v: nat
      ensures IsEdge(w'.edges, u, k, v) <==> IsEdge(w.edges, u, k, v)
    {
      if IsEdge(w'.edges, u, k, v) {
        var e :| e in w'.edges && e.u == u && e.k == k && Target(e) == v;
        assert e.u in [u] && e in w.edges;
      }
      if IsEdge(w.edges, u, k, v) {
        var e :| e in w.edges && e.u == u && e.k == k && Target(e) == v;
        assert e in w'.edges;
      }
    }
    forall k: nat | k < i
      ensures ComesNow(g, w, u, k) <==> ComesNow(g, w', u, k)
    {
      ComesStays(g, w, w', u, i, k);
    }
  }

  // What a rule met comes to.
  ghost predicate RuleMet(g: Rules, w: Walk, rt: nat, k: nat, o: Reply) {
    && WalkInv(g, o.w) && Later(w, o.w)
    && (rt in w.inProcess ==> w.inProcess != [] && o == Came(w.(edges := w.edges + [Back(w, rt, k)]), Fail))
    && (rt !in w.inProcess ==>
          && Quiet(w.inProcess, w, o.w) && rt in o.w.done
          && (o.res.MaybeZero? ==> rt in o.w.mz) && (o.res.Fail? ==> rt in o.w.fail))
  }

  // What looking into element `i` of the rule on top comes to.
  ghost predicate ElementMet(g: Rules, w: Walk, u: nat, i: nat, o: Reply)
    requires u < |g| && i < |g[u].mData|
  {
    var d := g[u].mData[i];
    && WalkInv(g, o.w) && Later(w, o.w) && OnTop(o.w, u) && SoFar(g, o.w, u, i + 1)
    && Quiet(w.inProcess[..|w.inProcess| - 1], w, o.w)
    && (ComesNow(g, w, u, i) ==> ComesNow(g, o.w, u, i))
    && (o.res.MaybeZero? ==> d.Subtable? && d.entry in o.w.mz)
    && (o.res.Fail? ==> !d.Subtable? || d.entry !in o.w.mz)
    && (o.res.Done? ==> d.Subtable? && d.entry in o.w.done)
  }

  // One element more.
  lemma NextElement(g: Rules, w: Walk, u: nat, i: nat, o: Reply)
    requires WalkInv(g, w) && OnTop(w, u) && u < |g| && i < |g[u].mData| && SoFar(g, w, u, i) && ComesNow(g, w, u, i)
    requires var d := g[u].mData[i];
             if d.Subtable? then RuleMet(g, w, d.entry, i, o) && !o.res.NA? && (o.res.Done? ==> d.entry in w.done) else o == Came(w, Fail)
    ensures ElementMet(g, w, u, i, o)
  {
    hide GoesBack, WellFormed, EdgeFits, IsEdge, ComesNow;
    var d, path := g[u].mData[i], w.inProcess[..|w.inProcess| - 1];
    assert w.inProcess == path + [u];
    if !d.Subtable? {
      NoMoreEdges(g, w, u, i);
    } else if d.entry in w.inProcess {
      NothingAfter(g, w, u, i);
      BackEdges(g, w, u, i, d.entry);
      BackIsQuiet(w, u, d.entry, i, path);
      OneMoreEdge(g, w, o.w, u, i, d.entry);
    } else {
      assert Quiet([u], w, o.w) && Quiet(path, w, o.w);
      SoFarStays(g, w, o.w, u, i);
      ComesStays(g, w, o.w, u, i, i);
      NoMoreEdges(g, o.w, u, i);
    }
  }

  lemma BackIsQuiet(w: Walk, u: nat, rt: nat, k: nat, path: seq<nat>)
    requires OnTop(w, u) && u !in path
    ensures Quiet(path, w, w.(edges := w.edges + [Back(w, rt, k)]))
  {
  }

  lemma NothingAfter(g: Rules, w: Walk, u: nat, i: nat)
    requires SoFar(g, w, u, i)
    ensures FreshFrom(w, u, i)
  {
    hide ComesNow;
    forall e | e in w.edges && e.u == u
      ensures e.k < i
    {
      assert IsEdge(w.edges, u, e.k, Target(e));
    }
  }

  // Element `i` is no rule in process.
  lemma NoMoreEdges(g: Rules, w: Walk, u: nat, i: nat)
    requires SoFar(g, w, u, i) && i < |g[u].mData|
    requires g[u].mData[i].Subtable? ==> g[u].mData[i].entry !in w.inProcess && g[u].mData[i].entry in w.done
    ensures SoFar(g, w, u, i + 1)
  {
    hide ComesNow, IsEdge;
  }

  lemma OneMoreEdge(g: Rules, w: Walk, w': Walk, u: nat, i: nat, rt: nat)
    requires SoFar(g, w, u, i) && i < |g[u].mData| && g[u].mData[i] == Subtable(rt) && rt in w.inProcess && ComesNow(g, w, u, i)
    requires w' == w.(edges := w'.edges)
    requires forall a: nat, b: nat, v: nat :: IsEdge(w'.edges, a, b, v) <==> IsEdge(w.edges, a, b, v) || (a == u && b == i && v == rt)
    ensures SoFar(g, w', u, i + 1) && ComesNow(g, w', u, i)
  {
    hide IsEdge;
    assert forall k :: ComesNow(g, w', u, k) <==> ComesNow(g, w, u, k);
  }

  // After an element that is not MaybeZero a concatenation comes to no other.
  lemma NoneAfter(g: Rules, w: Walk, u: nat, i: nat)
    requires SoFar(g, w, u, i + 1) && i < |g[u].mData| && g[u].mType.Concatenate?
    requires !g[u].mData[i].Subtable? || g[u].mData[i].entry !in w.mz
    ensures SoFar(g, w, u, |g[u].mData|)
  {
    hide IsEdge;
    assert forall k: nat :: k > i ==> !ComesNow(g, w, u, k);
  }

  // -------- The whole walk

  // What the walk of the rule on top comes to.
  ghost predicate Walked(g: Rules, w: Walk, u: nat, o: Reply)
    requires u < |g|
  {
    && WalkInv(g, o.w) && Later(w, o.w) && OnTop(o.w, u) && SoFar(g, o.w, u, |g[u].mData|)
    && Quiet(w.inProcess[..|w.inProcess| - 1], w, o.w)
  }

  lemma {:induction false} RuleEdges(g: Rules, w: Walk, rt: nat, k: nat)
    requires WalkInv(g, w) && rt < |g| && (w.inProcess != [] ==> FreshFrom(w, w.inProcess[|w.inProcess| - 1], k))
    ensures var o := OfRule(g, w, rt, k); RuleMet(g, w, rt, k, o) && (o.res.Done? ==> rt in w.done)
    decreases Room(g, w), 1
  {
    hide WalkInv, Later, Quiet, IsEdge, OfRule, ByType, Left, SoFar, WellFormed, RuleMet, FreshFrom, Walked, EdgeFits, Goes;
    InvTells(g, w);
    RuleIs(g, w, rt, k);
    if rt in w.done {
      MetDone(g, w, rt, k);
    } else if rt in w.inProcess {
      MetInProcess(g, w, rt, k);
    } else {
      var w1 := w.(inProcess := w.inProcess + [rt]);
      RoomTaken(g, w, w1, rt);
      PushedEdges(g, w, rt);
      TypeEdges(g, w1, rt);
      MetNew(g, w, rt, k, ByType(g, w1, rt));
    }
  }

  lemma MetDone(g: Rules, w: Walk, rt: nat, k: nat)
    requires WalkInv(g, w) && rt in w.done
    ensures RuleMet(g, w, rt, k, Came(w, Done))
  {
    hide EdgeFits, IsEdge, GoesBack, WellFormed;
  }

  lemma MetInProcess(g: Rules, w: Walk, rt: nat, k: nat)
    requires WalkInv(g, w) && rt in w.inProcess && FreshFrom(w, w.inProcess[|w.inProcess| - 1], k)
    ensures RuleMet(g, w, rt, k, Came(w.(edges := w.edges + [Back(w, rt, k)]), Fail))
  {
    hide WalkInv, IsEdge;
    BackEdges(g, w, w.inProcess[|w.inProcess| - 1], k, rt);
  }

  lemma MetNew(g: Rules, w: Walk, rt: nat, k: nat, o: Reply)
    requires WalkInv(g, w) && rt < |g| && rt !in w.inProcess && rt !in w.done && !o.res.Done?
    requires Walked(g, w.(inProcess := w.inProcess + [rt]), rt, o)
    ensures RuleMet(g, w, rt, k, Came(Left(o.w, rt, o.res), o.res))
  {
    hide WalkInv, Later, Quiet, SoFar, Left;
    var w1 := w.(inProcess := w.inProcess + [rt]);
    assert w1.inProcess[..|w1.inProcess| - 1] == w.inProcess;
    PoppedEdges(g, o.w, rt, o.res);
    LeftTells(w, w1, o.w, rt, o.res);
  }

  lemma InvTells(g: Rules, w: Walk)
    requires WalkInv(g, w)
    ensures WellFormed(g) && forall r :: r in w.inProcess ==> r !in w.done
  {
  }

  lemma LeftTells(w: Walk, w1: Walk, w2: Walk, rt: nat, res: TResult)
    requires w1 == w.(inProcess := w.inProcess + [rt]) && Later(w1, w2) && rt !in w.done
    requires Quiet(w.inProcess, w1, w2)
    ensures var w' := Left(w2, rt, res);
            && Later(w, w') && Quiet(w.inProcess, w, w') && rt in w'.done
            && (res.MaybeZero? ==> rt in w'.mz) && (res.Fail? ==> rt in w'.fail)
  {
  }

  lemma PushedEdges(g: Rules, w: Walk, rt: nat)
    requires WalkInv(g, w) && rt < |g| && rt !in w.inProcess && rt !in w.done
    ensures var w1 := w.(inProcess := w.inProcess + [rt]); WalkInv(g, w1) && OnTop(w1, rt) && SoFar(g, w1, rt, 0)
  {
    hide GoesBack, WellFormed;
    var w1 := w.(inProcess := w.inProcess + [rt]);
    forall e | e in w1.edges
      ensures EdgeFits(g, w1, e) && e.u != rt
    {
      assert EdgeFits(g, w, e);
    }
    forall a: nat, k: nat, v: nat | a in w1.done
      ensures IsEdge(w1.edges, a, k, v) <==> GoesBack(g, w1, a, k, v)
    {
      GoesBackStays(g, w, w1, a, k, v);
    }
  }

  lemma {:induction false} TypeEdges(g: Rules, w: Walk, u: nat)
    requires WalkInv(g, w) && OnTop(w, u) && u < |g| && SoFar(g, w, u, 0)
    ensures Walked(g, w, u, ByType(g, w, u))
    decreases Room(g, w), 4
  {
    hide GoesBack, EdgeFits, IsEdge, OfElement, OfOneof, OfConcatenate, SoFar, ComesNow, WellFormed;
    ElementIs1(g, u);
    match g[u].mType {
      case Oneof => OneofEdges(g, w, u, 0, NA);
      case Concatenate =>
        if |g[u].mData| > 0 { ComesFirst(g, w, u); }
        ConcatenateEdges(g, w, u, 0);
      case Data =>
        ComesAnyway(g, w, u, 0);
        ElementEdges(g, w, u, 0);
      case Zeroorone =>
        ComesAnyway(g, w, u, 0);
        ElementEdges(g, w, u, 0);
      case Zeroormore =>
        ComesAnyway(g, w, u, 0);
        ElementEdges(g, w, u, 0);
      case Null =>
    }
  }

  lemma ElementIs1(g: Rules, u: nat)
    requires WellFormed(g) && u < |g|
    ensures !g[u].mType.Null? && (g[u].mType.Oneof? ==> |g[u].mData| > 0)
    ensures !g[u].mType.Oneof? && !g[u].mType.Concatenate? ==> |g[u].mData| == 1
  {
    assert WellFormedRule(|g|, g[u]);
  }

  lemma ComesFirst(g: Rules, w: Walk, u: nat)
    requires u < |g| && |g[u].mData| > 0
    ensures ComesNow(g, w, u, 0)
  {
  }

  lemma ComesAnyway(g: Rules, w: Walk, u: nat, i: nat)
    requires u < |g| && i < |g[u].mData| && !g[u].mType.Concatenate?
    ensures ComesNow(g, w, u, i)
  {
  }

  lemma {:induction false} OneofEdges(g: Rules, w: Walk, u: nat, i: nat, acc: TResult)
    requires WalkInv(g, w) && OnTop(w, u) && u < |g| && i <= |g[u].mData| && SoFar(g, w, u, i) && g[u].mType.Oneof?
    requires !acc.Done? && (acc.NA? ==> i < |g[u].mData|)
    ensures Walked(g, w, u, OfOneof(g, w, u, i, acc))
    decreases Room(g, w), 3, |g[u].mData| - i
  {
    hide GoesBack, EdgeFits, IsEdge, OfElement, SoFar, ComesNow, WellFormed;
    if i < |g[u].mData| {
      ComesAnyway(g, w, u, i);
      ElementEdges(g, w, u, i);
      var o := OfElement(g, w, u, i);
      RoomStays(g, w, o.w);
      var acc' := if acc.MaybeZero? || Filed(o.w, g[u].mData[i], o.res).MaybeZero? then MaybeZero else Fail;
      OneofEdges(g, o.w, u, i + 1, acc');
      Together(g, w, o.w, u, OfOneof(g, o.w, u, i + 1, acc'));
    }
  }

  // Two parts of the walk of a rule.
  lemma Together(g: Rules, w: Walk, w1: Walk, u: nat, o: Reply)
    requires u < |g| && Later(w, w1) && w.inProcess != [] && Quiet(w.inProcess[..|w.inProcess| - 1], w, w1) && Walked(g, w1, u, o)
    ensures Walked(g, w, u, o)
  {
    hide WalkInv, SoFar;
    LaterTrans(w, w1, o.w);
  }

  lemma {:induction false} ConcatenateEdges(g: Rules, w: Walk, u: nat, i: nat)
    requires WalkInv(g, w) && OnTop(w, u) && u < |g| && i <= |g[u].mData| && SoFar(g, w, u, i) && g[u].mType.Concatenate?
    requires i < |g[u].mData| ==> ComesNow(g, w, u, i)
    ensures Walked(g, w, u, OfConcatenate(g, w, u, i))
    decreases Room(g, w), 3, |g[u].mData| - i
  {
    hide IsEdge, OfElement, SoFar, ComesNow, RestToDo, WellFormed, WalkInv, Later, Quiet, Goes;
    InvTells(g, w);
    if i < |g[u].mData| {
      ElementEdges(g, w, u, i);
      var d, o := g[u].mData[i], OfElement(g, w, u, i);
      ElementRoom(g, w, u, i, o);
      if o.res.Fail? || (o.res.Done? && d.Subtable? && d.entry in o.w.fail) {
        ConcatenateStops(g, w, u, i, o, RestToDo(g, o.w, u, i + 1));
      } else {
        ConcatenateGoesOn(g, w, u, i, o);
        ConcatenateEdges(g, o.w, u, i + 1);
        Together(g, w, o.w, u, OfConcatenate(g, o.w, u, i + 1));
      }
    } else {
      LaterSelf(w);
    }
  }

  lemma LaterSelf(w: Walk)
    ensures Later(w, w) && forall path :: Quiet(path, w, w)
  {
  }

  lemma ElementRoom(g: Rules, w: Walk, u: nat, i: nat, o: Reply)
    requires u < |g| && i < |g[u].mData| && ElementMet(g, w, u, i, o)
    ensures Room(g, o.w) <= Room(g, w) && WellFormed(g)
  {
    hide WalkInv, SoFar, ComesNow;
    InvTells(g, o.w);
    RoomStays(g, w, o.w);
  }

  lemma ConcatenateStops(g: Rules, w: Walk, u: nat, i: nat, o: Reply, w': Walk)
    requires u < |g| && i < |g[u].mData| && ElementMet(g, w, u, i, o) && g[u].mType.Concatenate? && w' == o.w.(todo := w'.todo)
    requires o.res.Fail? || (o.res.Done? && g[u].mData[i].Subtable? && g[u].mData[i].entry in o.w.fail)
    ensures Walked(g, w, u, Came(w', Fail))
  {
    hide IsEdge, SoFar, ComesNow, GoesBack, EdgeFits, WellFormed;
    NoneAfter(g, o.w, u, i);
    ToDoOnly(g, o.w, w', u);
  }

  lemma ConcatenateGoesOn(g: Rules, w: Walk, u: nat, i: nat, o: Reply)
    requires u < |g| && i < |g[u].mData| && ElementMet(g, w, u, i, o) && ComesNow(g, w, u, i) && !o.res.NA?
    requires !o.res.Fail? && !(o.res.Done? && g[u].mData[i].Subtable? && g[u].mData[i].entry in o.w.fail)
    ensures i + 1 < |g[u].mData| ==> ComesNow(g, o.w, u, i + 1)
  {
    hide IsEdge, SoFar, ComesNow, GoesBack, EdgeFits, WellFormed;
    ComesNext(g, o.w, u, i);
  }

  lemma ComesNext(g: Rules, w: Walk, u: nat, i: nat)
    requires ComesNow(g, w, u, i) && g[u].mData[i].Subtable? && g[u].mData[i].entry in w.mz
    ensures i + 1 < |g[u].mData| ==> ComesNow(g, w, u, i + 1)
  {
  }

  lemma ToDoOnly(g: Rules, w: Walk, w': Walk, u: nat)
    requires WalkInv(g, w) && OnTop(w, u) && u < |g| && SoFar(g, w, u, |g[u].mData|) && w' == w.(todo := w'.todo)
    ensures WalkInv(g, w') && OnTop(w', u) && SoFar(g, w', u, |g[u].mData|)
  {
    hide IsEdge, WellFormed;
    forall a: nat, k: nat, v: nat
      ensures GoesBack(g, w', a, k, v) <==> GoesBack(g, w, a, k, v)
    {
    }
    forall e | e in w'.edges
      ensures EdgeFits(g, w', e)
    {
      assert EdgeFits(g, w, e);
    }
    assert forall k :: ComesNow(g, w', u, k) <==> ComesNow(g, w, u, k);
  }

  lemma {:induction false} ElementEdges(g: Rules, w: Walk, u: nat, i: nat)
    requires WalkInv(g, w) && OnTop(w, u) && u < |g| && i < |g[u].mData| && SoFar(g, w, u, i) && ComesNow(g, w, u, i)
    ensures ElementMet(g, w, u, i, OfElement(g, w, u, i))
    decreases Room(g, w), 2
  {
    hide GoesBack, EdgeFits, IsEdge, OfElement, OfRule, SoFar, ComesNow, ElementMet, RuleMet, WellFormed;
    ElementIs(g, w, u, i);
    var d := g[u].mData[i];
    if d.Subtable? {
      NothingAfter(g, w, u, i);
      RuleEdges(g, w, d.entry, i);
    }
    NextElement(g, w, u, i, OfElement(g, w, u, i));
  }

  lemma FrontEdges(g: Rules, w: Walk)
    requires Fits(g, w) && w.todo != [] && w.inProcess == [] && WalkInv(g, w)
    ensures WalkInv(g, OfFront(g, w))
  {
    hide GoesBack, EdgeFits, IsEdge, OfRule;
    var w1 := w.(todo := w.todo[1..]);
    assert w.todo[0] in w.todo;
    OtherToDo(g, w, w1);
    if w.todo[0] !in w.done { RuleEdges(g, w1, w.todo[0], 0); }
  }

  lemma OtherToDo(g: Rules, w: Walk, w': Walk)
    requires WalkInv(g, w) && w' == w.(todo := w'.todo)
    ensures WalkInv(g, w')
  {
    hide IsEdge, WellFormed;
    forall a: nat, k: nat, v: nat
      ensures GoesBack(g, w', a, k, v) <==> GoesBack(g, w, a, k, v)
    {
    }
    forall e | e in w'.edges
      ensures EdgeFits(g, w', e)
    {
      assert EdgeFits(g, w, e);
    }
  }

  lemma {:induction false} AllEdges(g: Rules, w: Walk)
    requires Fits(g, w) && w.inProcess == [] && WalkInv(g, w)
    ensures var w' := OfAll(g, w); WalkInv(g, w') && w'.inProcess == [] && w'.todo == []
    decreases Room(g, w), |w.todo|
  {
    hide WalkInv, OfFront;
    if w.todo != [] {
      FrontEdges(g, w);
      FrontGoes(g, w);
      AllEdges(g, OfFront(g, w));
    }
  }

  // The edges of the walk are the elements that were not done before the rule they are in.
  lemma EdgesAreExact(g: Rules, tops: seq<nat>)
    requires WellFormed(g) && forall t :: t in tops ==> t < |g|
    ensures EdgesExact(g, WalkOf(g, tops)) && EdgesFit(g, WalkOf(g, tops).edges)
    ensures forall e :: e in WalkOf(g, tops).edges ==> e.rules[|e.rules| - 1] == e.u
  {
    hide OfAll, GoesBack, IsEdge;
    var start, w := Walk([], [], tops, [], [], []), WalkOf(g, tops);
    NoEdgesYet(g, start);
    AllEdges(g, start);
    forall e | e in w.edges
      ensures e.rules != [] && InRange(g, e.rules) && e.rules[|e.rules| - 1] == e.u
    {
      assert EdgeFits(g, w, e);
    }
    forall u: nat, k: nat, v: nat
      ensures IsEdge(w.edges, u, k, v) <==> GoesBack(g, w, u, k, v)
    {
      OnlyDone(g, w, u, k, v);
    }
  }

  lemma NoEdgesYet(g: Rules, w: Walk)
    requires WellFormed(g) && w.inProcess == w.done == w.mz == w.fail == [] && w.edges == []
    ensures WalkInv(g, w)
  {
  }

  lemma OnlyDone(g: Rules, w: Walk, u: nat, k: nat, v: nat)
    requires WalkInv(g, w) && w.inProcess == []
    ensures IsEdge(w.edges, u, k, v) || GoesBack(g, w, u, k, v) ==> u in w.done
  {
    if IsEdge(w.edges, u, k, v) {
      var e :| e in w.edges && e.u == u && e.k == k && Target(e) == v;
      assert EdgeFits(g, w, e);
    }
  }
}
