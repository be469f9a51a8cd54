/** What lookaheads are owed along the edges of the walk: either they have been handed over, or the
    rule waits for them, or the edge is on record as missed. Every step of the walk keeps this. */
module LaFlow {
  import opened Options
  import opened Graphs
  import opened ContTrees
  import opened Grammar
  import opened LookAheads
  import opened LaStates

  // -------- Waiting

  predicate Waits(pendings: seq<Pending>, d: nat, r: nat) {
    exists i :: 0 <= i < |pendings| && pendings[i].mRule == r && d in pendings[i].mDependents
  }

  // A rule has one entry, and the entry has dependents.
  predicate Entries(pendings: seq<Pending>) {
    && (forall i, j :: 0 <= i < j < |pendings| ==> pendings[i].mRule != pendings[j].mRule)
    && forall i :: 0 <= i < |pendings| ==> pendings[i].mDependents != []
  }

  predicate InTree(tree: seq<TreeNode>, r: nat) {
    exists b :: 0 <= b < |tree| && tree[b].data == r
  }

  // The tree holds rules in process or done, each once, below rules that have left edges to them.
  ghost predicate TreeFits(g: LaGrammar, s: LaState, tree: seq<TreeNode>) {
    && TreeOK(tree)
    && (forall i, j :: 0 <= i < j < |tree| ==> tree[i].data != tree[j].data)
    && (forall i :: 0 <= i < |tree| ==> tree[i].data in s.inProcess || tree[i].data in s.done)
    && forall i :: 0 < i < |tree| ==> tree[i].parent.Some? && LeftEdge(g.rules, tree[tree[i].parent.value].data, tree[i].data)
  }

  // The rule of node `b` waits for `q`; so does the rule above it, unless that is `q`.
  ghost predicate Under(tree: seq<TreeNode>, pendings: seq<Pending>, b: nat, q: nat)
    requires TreeOK(tree) && b < |tree|
  {
    && q != tree[b].data && tree[b].parent.Some?
    && (var a := tree[tree[b].parent.value].data; a == q || Waits(pendings, a, q))
  }

  // All that wait do so below the rule they wait for, except that rules above node `dep` may still
  // have to be told to wait for `rt`.
  ghost predicate PendingsFitBut(tree: seq<TreeNode>, pendings: seq<Pending>, rt: nat, dep: Option<nat>)
    requires TreeOK(tree)
  {
    && Entries(pendings)
    && (forall x: nat, q: nat :: Waits(pendings, x, q) ==> InTree(tree, x))
    && forall b: nat, q: nat :: b < |tree| && Waits(pendings, tree[b].data, q) ==>
         Under(tree, pendings, b, q) || (q == rt && dep.Some? && tree[b].parent == dep && tree[b].data != q)
  }

  ghost predicate PendingsFit(tree: seq<TreeNode>, pendings: seq<Pending>)
    requires TreeOK(tree)
  {
    PendingsFitBut(tree, pendings, 0, None)
  }

  // -------- Handing over

  function LaOf(d: TableData): LookAhead
    requires d.Char? || d.Str? || d.Token?
  {
    match d
    case Char(c) => LaChar(c)
    case Str(s) => LaString(s)
    case Token(t) => LaToken(t)
  }

  // Every lookahead of `v` is in the list of `u`.
  ghost predicate Offers(las: RuleLookAheads, v: nat, u: nat) {
    forall la :: la in LasOf(las, v) ==> Copied(LasOf(las, u), la)
  }

  // What `v` still waits for, `u` waits for as well.
  ghost predicate Follows(pendings: seq<Pending>, v: nat, u: nat) {
    forall q: nat :: Waits(pendings, v, q) ==> Waits(pendings, u, q) || u == q
  }

  ghost predicate Handed(s: LaState, u: nat, v: nat) {
    u == v || Waits(s.pendings, u, v) || (v in s.done && Offers(s.las, v, u) && Follows(s.pendings, v, u))
  }

  predicate IsElement(g: LaGrammar, u: nat, k: nat) {
    u < |g.rules| && !IsLeafRule(g, u) && k < |g.rules[u].mData|
    && (var d := g.rules[u].mData[k]; d.Char? || d.Str? || d.Token? || d.Subtable?)
  }

  // Element `k` of `u` has been looked into.
  ghost predicate Passed(g: LaGrammar, s: LaState, u: nat, k: nat)
    requires IsElement(g, u, k)
  {
    var d := g.rules[u].mData[k];
    if d.Subtable? then
      (d.entry in s.done || d.entry in s.inProcess) && ((u, d.entry) in s.missed || Handed(s, u, d.entry))
    else Copied(LasOf(s.las, u), LaOf(d))
  }

  ghost predicate WalkedFits(g: LaGrammar, s: LaState) {
    forall u: nat, k: nat :: (u, k) in s.walked ==> IsElement(g, u, k) && Passed(g, s, u, k)
  }

  // -------- Classes

  // Element `k` was not MaybeZero when `u` looked into it.
  predicate Stops(g: LaGrammar, s: LaState, u: nat, k: nat)
    requires u < |g.rules| && k < |g.rules[u].mData|
  {
    var d := g.rules[u].mData[k];
    d.Subtable? ==> (u, d.entry) in s.met || (d.entry in s.done && d.entry !in s.maybeZero)
  }

  predicate WalkedTo(s: LaState, u: nat, n: nat) {
    forall k: nat :: k < n ==> (u, k) in s.walked
  }

  // Why `u` is MaybeZero, or is not.
  ghost predicate Evidence(g: LaGrammar, s: LaState, u: nat, zero: bool)
    requires u < |g.rules|
  {
    var n := |g.rules[u].mData|;
    match g.rules[u].mType
    case Concatenate => if zero then WalkedTo(s, u, n)
                        else exists m: nat :: m < n && WalkedTo(s, u, m + 1) && Stops(g, s, u, m)
    case Oneof => WalkedTo(s, u, n) && (!zero ==> forall k :: 0 <= k < n ==> Stops(g, s, u, k))
    case Data => WalkedTo(s, u, n) && (!zero ==> forall k :: 0 <= k < n ==> Stops(g, s, u, k))
    case _ => WalkedTo(s, u, n) && zero
  }

  // What identifiers and literals begin with.
  predicate LeafListed(g: LaGrammar, s: LaState, u: nat) {
    && (u == g.identifier ==> Copied(LasOf(s.las, u), LaIdentifier))
    && (u == g.literal ==> Copied(LasOf(s.las, u), LaLiteral))
  }

  ghost predicate Complete(g: LaGrammar, s: LaState, u: nat) {
    if IsLeafRule(g, u) then LeafListed(g, s, u) && u !in s.maybeZero
    else u < |g.rules| && Evidence(g, s, u, u in s.maybeZero)
  }

  // Some rule can come to itself by left edges.
  ghost predicate LeftRecursive(g: LaGrammar)
    requires WellFormed(g.rules)
  {
    exists u: nat :: OnCycle(LeftEdges(g.rules), u)
  }

  // Both exceptions stem from left recursion.
  ghost predicate OnCycles(g: LaGrammar, pairs: set<(nat, nat)>)
    requires WellFormed(g.rules)
  {
    forall p :: p in pairs ==> OnCycle(LeftEdges(g.rules), p.1)
  }

  ghost predicate FlowInv(g: LaGrammar, s: LaState, tree: seq<TreeNode>) {
    && WellFormed(g.rules) && TreeFits(g, s, tree) && PendingsFit(tree, s.pendings) && WalkedFits(g, s)
    && (forall u :: u in s.done ==> Complete(g, s, u))
    && OnCycles(g, s.met) && OnCycles(g, s.missed)
  }

  // -------- Steps

  // Lists and records grow; done rules stay done, in their class.
  ghost predicate Later(s: LaState, s': LaState) {
    && s.walked <= s'.walked && s.met <= s'.met && (forall r :: r in s.done ==> r in s'.done)
    && (forall r :: r in s.done ==> (r in s.maybeZero <==> r in s'.maybeZero))
    && forall r :: LasOf(s.las, r) <= LasOf(s'.las, r)
  }

  lemma EvidenceStays(g: LaGrammar, s: LaState, s': LaState, u: nat, zero: bool)
    requires Later(s, s') && u < |g.rules| && Evidence(g, s, u, zero)
    ensures Evidence(g, s', u, zero)
  {
    assert forall k :: 0 <= k < |g.rules[u].mData| && Stops(g, s, u, k) ==> Stops(g, s', u, k);
    if g.rules[u].mType.Concatenate? && !zero {
      var m: nat :| m < |g.rules[u].mData| && WalkedTo(s, u, m + 1) && Stops(g, s, u, m);
      assert WalkedTo(s', u, m + 1);
    }
  }

  lemma CompleteStays(g: LaGrammar, s: LaState, s': LaState)
    requires Later(s, s') && forall u :: u in s.done ==> Complete(g, s, u)
    ensures forall u :: u in s.done ==> Complete(g, s', u)
  {
    hide Evidence, LookAheadEqual, Copied;
    forall u | u in s.done
      ensures Complete(g, s', u)
    {
      if IsLeafRule(g, u) {
        if u == g.identifier { CopiedStays(LasOf(s.las, u), LasOf(s'.las, u), LaIdentifier); }
        if u == g.literal { CopiedStays(LasOf(s.las, u), LasOf(s'.las, u), LaLiteral); }
      } else {
        EvidenceStays(g, s, s', u, u in s.maybeZero);
      }
    }
  }

  // Elements stay passed if rules that may be handed over are done already.
  lemma PassedStays(g: LaGrammar, s: LaState, s': LaState)
    requires WalkedFits(g, s) && s.missed <= s'.missed && s'.walked == s.walked
    requires forall r :: r in s.done ==> r in s'.done && LasOf(s'.las, r) == LasOf(s.las, r)
    requires forall r :: r in s.inProcess ==> r in s'.inProcess || r in s'.done
    requires forall r :: LasOf(s.las, r) <= LasOf(s'.las, r)
    requires forall x: nat, q: nat :: Waits(s.pendings, x, q) ==> Waits(s'.pendings, x, q)
    requires forall x: nat, q: nat :: Waits(s'.pendings, x, q) && x in s.done ==> Waits(s.pendings, x, q)
    ensures WalkedFits(g, s')
  {
    hide LookAheadEqual, Copied, Waits;
    forall u: nat, k: nat | (u, k) in s'.walked
      ensures IsElement(g, u, k) && Passed(g, s', u, k)
    {
      assert Passed(g, s, u, k);
      var d := g.rules[u].mData[k];
      if !d.Subtable? {
        CopiedStays(LasOf(s.las, u), LasOf(s'.las, u), LaOf(d));
      } else if d.entry in s.done && Offers(s.las, d.entry, u) {
        OffersStay(s.las, s'.las, d.entry, u);
      }
    }
  }

  lemma OffersStay(las: RuleLookAheads, las': RuleLookAheads, v: nat, u: nat)
    requires Offers(las, v, u) && LasOf(las', v) == LasOf(las, v) && LasOf(las, u) <= LasOf(las', u)
    ensures Offers(las', v, u)
  {
    hide LookAheadEqual, Copied;
    forall la | la in LasOf(las', v)
      ensures Copied(LasOf(las', u), la)
    {
      CopiedStays(LasOf(las, u), LasOf(las', u), la);
    }
  }

  // Rules to do do not matter, and more may be in process.
  lemma FlowStays(g: LaGrammar, s: LaState, s': LaState, tree: seq<TreeNode>)
    requires FlowInv(g, s, tree)
    requires s' == s.(toDo := s'.toDo, inProcess := s'.inProcess, taken := s'.taken) && s.inProcess <= s'.inProcess
    ensures FlowInv(g, s', tree)
  {
    hide OnCycle, LeftEdge, WellFormed, Offers, Waits, Under, Evidence, Complete, WalkedFits, PendingsFit, OnCycles;
    PassedStays(g, s, s');
    CompleteStays(g, s, s');
    forall i | 0 <= i < |tree|
      ensures tree[i].data in s'.inProcess || tree[i].data in s'.done
    {
      assert tree[i].data in s.inProcess ==> tree[i].data in s'.inProcess;
    }
  }

  // A rule in process gets its node.
  lemma NodeAdded(g: LaGrammar, s: LaState, tree: seq<TreeNode>, rt: nat, p: Option<nat>)
    requires FlowInv(g, s, tree) && rt in s.inProcess && !InTree(tree, rt)
    requires if p.None? then tree == [] else p.value < |tree| && LeftEdge(g.rules, tree[p.value].data, rt)
    ensures FlowInv(g, s, tree + [TreeNode(rt, p)])
  {
    hide OnCycle, LeftEdge, WellFormed, Waits, Complete, WalkedFits, OnCycles, PendingsFit, Entries, InTree, TreeFits;
    NodeFits(g, s, tree, rt, p);
    NodeWaits(tree, s.pendings, rt, p);
  }

  lemma NodeFits(g: LaGrammar, s: LaState, tree: seq<TreeNode>, rt: nat, p: Option<nat>)
    requires TreeFits(g, s, tree) && rt in s.inProcess && !InTree(tree, rt)
    requires if p.None? then tree == [] else p.value < |tree| && LeftEdge(g.rules, tree[p.value].data, rt)
    ensures TreeFits(g, s, tree + [TreeNode(rt, p)]) && TreeOK(tree) && TreeOK(tree + [TreeNode(rt, p)])
  {
    hide LeftEdge;
  }

  lemma NodeWaits(tree: seq<TreeNode>, pendings: seq<Pending>, rt: nat, p: Option<nat>)
    requires TreeOK(tree) && TreeOK(tree + [TreeNode(rt, p)]) && PendingsFit(tree, pendings) && !InTree(tree, rt)
    ensures PendingsFit(tree + [TreeNode(rt, p)], pendings)
  {
    hide Waits, Entries;
    var t := tree + [TreeNode(rt, p)];
    forall x: nat, q: nat | Waits(pendings, x, q)
      ensures InTree(t, x)
    {
      var b :| 0 <= b < |tree| && tree[b].data == x;
      assert t[b].data == x;
    }
    forall b: nat, q: nat | b < |t| && Waits(pendings, t[b].data, q)
      ensures Under(t, pendings, b, q)
    {
      assert InTree(tree, t[b].data);
      assert b < |tree| && Under(tree, pendings, b, q);
    }
  }

  // A rule in process is done.
  lemma PoppedFlow(g: LaGrammar, s: LaState, tree: seq<TreeNode>, rt: nat, zero: bool)
    requires FlowInv(g, s, tree) && s.inProcess != [] && s.inProcess[|s.inProcess| - 1] == rt
    requires rt !in s.done && forall r :: r in s.maybeZero ==> r in s.done
    requires if IsLeafRule(g, rt) then LeafListed(g, s, rt) && !zero else rt < |g.rules| && Evidence(g, s, rt, zero)
    ensures FlowInv(g, Popped(s, rt, zero), tree)
  {
    hide OnCycle, LeftEdge, WellFormed, Waits, WalkedFits, OnCycles, PendingsFit, Evidence, LeafListed;
    var s' := Popped(s, rt, zero);
    PassedStays(g, s, s');
    CompleteStays(g, s, s');
    assert s.inProcess == s.inProcess[..|s.inProcess| - 1] + [rt];
    assert rt in s'.maybeZero <==> zero;
    if IsLeafRule(g, rt) { LeafStays(g, s, s', rt); } else { EvidenceStays(g, s, s', rt, zero); }
    assert Complete(g, s', rt);
  }

  lemma LeafStays(g: LaGrammar, s: LaState, s': LaState, u: nat)
    requires s'.las == s.las && LeafListed(g, s, u)
    ensures LeafListed(g, s', u)
  {
  }

  // The list of a rule in process grows.
  lemma ListGrown(g: LaGrammar, s: LaState, tree: seq<TreeNode>, las: RuleLookAheads, rt: nat)
    requires FlowInv(g, s, tree) && rt !in s.done && LasOf(s.las, rt) <= LasOf(las, rt)
    requires forall r :: r != rt ==> LasOf(las, r) == LasOf(s.las, r)
    ensures FlowInv(g, s.(las := las), tree)
  {
    hide OnCycle, LeftEdge, WellFormed, Waits, WalkedFits, OnCycles, PendingsFit, Evidence, Complete, LasOf;
    PassedStays(g, s, s.(las := las));
    CompleteStays(g, s, s.(las := las));
  }

  // An element has been looked into.
  lemma WalkedAdded(g: LaGrammar, s: LaState, tree: seq<TreeNode>, u: nat, k: nat)
    requires FlowInv(g, s, tree) && IsElement(g, u, k) && Passed(g, s, u, k)
    ensures FlowInv(g, s.(walked := s.walked + {(u, k)}), tree)
  {
    hide OnCycle, LeftEdge, WellFormed, Waits, OnCycles, PendingsFit, Evidence, Complete, Offers, Follows, IsElement;
    var s' := s.(walked := s.walked + {(u, k)});
    CompleteStays(g, s, s');
    forall a: nat, b: nat | (a, b) in s'.walked
      ensures IsElement(g, a, b) && Passed(g, s', a, b)
    {
      assert IsElement(g, a, b) && Passed(g, s, a, b);
    }
  }

  lemma PairsRecorded(g: LaGrammar, s: LaState, tree: seq<TreeNode>, met: set<(nat, nat)>, missed: set<(nat, nat)>)
    requires FlowInv(g, s, tree) && WellFormed(g.rules) && OnCycles(g, met) && OnCycles(g, missed)
    ensures FlowInv(g, s.(met := s.met + met, missed := s.missed + missed), tree)
  {
    hide OnCycle, LeftEdge, WellFormed, Waits, PendingsFit, Evidence, Complete, WalkedFits;
    var s' := s.(met := s.met + met, missed := s.missed + missed);
    PassedStays(g, s, s');
    CompleteStays(g, s, s');
  }

  // Rules that are not done wait for more.
  lemma MoreWait(g: LaGrammar, s: LaState, tree: seq<TreeNode>, pendings: seq<Pending>)
    requires FlowInv(g, s, tree) && TreeOK(tree) && PendingsFit(tree, pendings)
    requires forall x: nat, q: nat :: Waits(s.pendings, x, q) ==> Waits(pendings, x, q)
    requires forall x: nat, q: nat :: Waits(pendings, x, q) && x in s.done ==> Waits(s.pendings, x, q)
    ensures FlowInv(g, s.(pendings := pendings), tree)
  {
    hide OnCycle, LeftEdge, WellFormed, Waits, OnCycles, PendingsFit, Evidence, Complete, WalkedFits;
    PassedStays(g, s, s.(pendings := pendings));
    CompleteStays(g, s, s.(pendings := pendings));
  }

  // Nobody waits any more, and a new tree begins.
  lemma NewTree(g: LaGrammar, s: LaState, tree: seq<TreeNode>, las: RuleLookAheads)
    requires FlowInv(g, s, tree) && s.inProcess == [] && forall r :: LasOf(s.las, r) <= LasOf(las, r)
    requires forall u: nat, k: nat :: (u, k) in s.walked ==> IsElement(g, u, k) && Given(g, las, s.missed, u, k)
    ensures FlowInv(g, s.(las := las, pendings := []), [])
  {
    hide OnCycle, LeftEdge, WellFormed, OnCycles, Evidence, Complete, Offers, IsElement, LasOf;
    var s' := s.(las := las, pendings := []);
    CompleteStays(g, s, s');
    forall u: nat, k: nat | (u, k) in s'.walked
      ensures IsElement(g, u, k) && Passed(g, s', u, k)
    {
      assert Passed(g, s, u, k) && Given(g, las, s.missed, u, k);
    }
  }

  // Whatever element `k` of `u` can begin with is in the list of `u`, unless that was missed.
  ghost predicate Given(g: LaGrammar, las: RuleLookAheads, missed: set<(nat, nat)>, u: nat, k: nat)
    requires IsElement(g, u, k)
  {
    var d := g.rules[u].mData[k];
    if d.Subtable? then (u, d.entry) in missed || Offers(las, d.entry, u) else Copied(LasOf(las, u), LaOf(d))
  }

  // -------- Around one element

  // What a rule waits for, the rule above its node waits for.
  lemma FollowsUp(g: LaGrammar, s: LaState, tree: seq<TreeNode>, rt: nat, p: nat, b: nat)
    requires FlowInv(g, s, tree) && p < |tree|
    requires InTree(tree, rt) ==> b < |tree| && tree[b] == TreeNode(rt, Some(p))
    ensures Follows(s.pendings, rt, tree[p].data)
  {
    hide OnCycle, LeftEdge, WellFormed, Waits, OnCycles, Complete, WalkedFits;
    forall q: nat | Waits(s.pendings, rt, q)
      ensures Waits(s.pendings, tree[p].data, q) || tree[p].data == q
    {
      assert InTree(tree, rt);
      assert Under(tree, s.pendings, b, q);
    }
  }

  // A rule that waits is on a left cycle, and so is the rule it waits for.
  lemma WaitsCycle(g: LaGrammar, s: LaState, tree: seq<TreeNode>, x: nat, q: nat)
    requires LaInv(g, s) && FlowInv(g, s, tree) && Waits(s.pendings, x, q)
    ensures WellFormed(g.rules) && OnCycle(LeftEdges(g.rules), x)
  {
    hide OnCycle, LeftEdge, WellFormed, OnCycles, Complete, WalkedFits, Lists, Sound, WellFormedLa, OnPath;
    var h := LeftEdges(g.rules);
    var b :| 0 <= b < |tree| && tree[b].data == x;
    WaitsBelow(g, s, tree, b, q);
    assert Reach(h, x, q);
    ClosesCycle(h, x, q);
  }

  lemma ClosesCycle(h: Graph, x: nat, q: nat)
    requires Reach(h, x, q) && exists w :: Reach(h, q, w) && Step(h, w, x)
    ensures OnCycle(h, x)
  {
    hide Reach;
    var w :| Reach(h, q, w) && Step(h, w, x);
    ReachTrans(h, x, q, w);
    if w == x {
      ReachRefl(h, x);
      assert Step(h, x, x) && Reach(h, x, x);
    } else {
      ReachSplit(h, x, w);
      var y :| Step(h, x, y) && Reach(h, y, w);
      ReachStep(h, w, x);
      ReachTrans(h, y, w, x);
    }
  }

  lemma {:induction false} WaitsBelow(g: LaGrammar, s: LaState, tree: seq<TreeNode>, b: nat, q: nat)
    requires FlowInv(g, s, tree) && b < |tree| && Waits(s.pendings, tree[b].data, q)
    ensures WellFormed(g.rules) && exists w :: Reach(LeftEdges(g.rules), q, w) && Step(LeftEdges(g.rules), w, tree[b].data)
    decreases b
  {
    hide OnCycle, LeftEdge, WellFormed, OnCycles, Complete, WalkedFits, Waits;
    var h := LeftEdges(g.rules);
    assert Under(tree, s.pendings, b, q);
    var a := tree[b].parent.value;
    assert Step(h, tree[a].data, tree[b].data);
    if tree[a].data == q {
      ReachRefl(h, q);
    } else {
      WaitsBelow(g, s, tree, a, q);
      var w :| Reach(h, q, w) && Step(h, w, tree[a].data);
      ReachStep(h, w, tree[a].data);
      ReachTrans(h, q, w, tree[a].data);
    }
  }
}
