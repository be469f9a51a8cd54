/** Every element is looked into once, or put off for good. From this: no lookahead is missed if of two
    rules that come to each other by left edges at most one is mentioned at several places. */
module LaOnce {
  import opened Options
  import opened Graphs
  import opened ContTrees
  import opened Grammar
  import opened LookAheads
  import opened LaStates
  import opened LaFlow

  // Elements that have been looked into, or are being looked into; and elements of concatenations that
  // have been put off. A rule and an index each.
  datatype Looks = Looks(looked: set<(nat, nat)>, skipped: set<(nat, nat)>)

  // Rule `u`, which is not `v`, has `v` as element `k`.
  predicate Mentions(g: LaGrammar, u: nat, k: nat, v: nat) {
    u != v && u < |g.rules| && k < |g.rules[u].mData| && g.rules[u].mData[k] == Subtable(v)
  }

  // No top rule, and mentioned at one place at most, but for elements of its own.
  ghost predicate Private(g: LaGrammar, tops: seq<nat>, v: nat) {
    v !in tops
    && forall u: nat, k: nat, w: nat, l: nat :: Mentions(g, u, k, v) && Mentions(g, w, l, v) ==> (u, k) == (w, l)
  }

  // Of two rules that come to each other by left edges one is private.
  ghost predicate Tame(g: LaGrammar, tops: seq<nat>)
    requires WellFormed(g.rules)
  {
    forall v: nat, w: nat :: v != w && Mutual(LeftEdges(g.rules), v, w) ==> Private(g, tops, v) || Private(g, tops, w)
  }

  ghost predicate LookedAt(g: LaGrammar, looked: set<(nat, nat)>, u: nat, v: nat) {
    exists k: nat :: (u, k) in looked && Mentions(g, u, k, v)
  }

  // -------- The invariant

  // Why a rule is to be walked from: it is a top rule, or an element that has been put off.
  ghost predicate Wanted(g: LaGrammar, tops: seq<nat>, l: Looks, r: nat) {
    r in tops || exists u: nat :: LookedAt(g, l.skipped, u, r)
  }

  // Tree nodes stem from elements looked into, the root from the list of rules to do.
  ghost predicate TreeLooked(g: LaGrammar, s: LaState, tree: seq<TreeNode>, l: Looks)
    requires TreeOK(tree)
  {
    && (tree != [] ==> tree[0].data in s.taken)
    && forall b :: 0 < b < |tree| ==> tree[b].parent.Some? && LookedAt(g, l.looked, tree[tree[b].parent.value].data, tree[b].data)
  }

  // Rule `u` is not the one above the node of `q`.
  ghost predicate NotAbove(tree: seq<TreeNode>, u: nat, q: nat)
    requires TreeOK(tree)
  {
    forall c :: 0 <= c < |tree| && tree[c].data == q && tree[c].parent.Some? ==> tree[tree[c].parent.value].data != u
  }

  // The rule waited for has been met by another rule than the one above it.
  ghost predicate Met(g: LaGrammar, tree: seq<TreeNode>, l: Looks, q: nat)
    requires TreeOK(tree)
  {
    InTree(tree, q) && exists u: nat :: LookedAt(g, l.looked, u, q) && NotAbove(tree, u, q)
  }

  ghost predicate OnceInv(g: LaGrammar, tops: seq<nat>, s: LaState, tree: seq<TreeNode>, l: Looks) {
    && WellFormed(g.rules) && TreeOK(tree)
    && (forall p :: p in l.looked || p in l.skipped ==> p.0 in s.inProcess || p.0 in s.done)
    && l.looked !! l.skipped
    && (forall r :: r in s.toDo || r in s.taken ==> Wanted(g, tops, l, r))
    && TreeLooked(g, s, tree, l)
    && (forall x: nat, q: nat :: Waits(s.pendings, x, q) ==> Met(g, tree, l, q))
    && (Tame(g, tops) ==> s.missed == {})
  }

  // Element `k` of `u` and those after it have not been looked into or put off.
  ghost predicate FreshFrom(l: Looks, u: nat, k: nat) {
    forall p :: p in l.looked || p in l.skipped ==> p.0 != u || p.1 < k
  }

  // No element of these rules has been looked into or put off since.
  ghost predicate KeepsLooks(path: seq<nat>, l: Looks, l': Looks) {
    forall p :: p in l'.looked || p in l'.skipped ==> p.0 !in path || p in l.looked || p in l.skipped
  }

  lemma KeepsTrans(path: seq<nat>, a: Looks, b: Looks, c: Looks)
    requires KeepsLooks(path, a, b) && KeepsLooks(path, b, c)
    ensures KeepsLooks(path, a, c)
  {
  }

  lemma KeepsFresh(path: seq<nat>, l: Looks, l': Looks, u: nat, k: nat)
    requires KeepsLooks(path, l, l') && u in path && FreshFrom(l, u, k)
    ensures FreshFrom(l', u, k)
  {
  }

  // -------- Nothing is missed

  // A rule that is done and waits, in a tame grammar, has no element left that leads to it.
  lemma NoneMissed(g: LaGrammar, tops: seq<nat>, s: LaState, tree: seq<TreeNode>, l: Looks, u: nat, k: nat, v: nat)
    requires LaInv(g, s) && FlowInv(g, s, tree) && OnceInv(g, tops, s, tree, l)
    requires Mentions(g, u, k, v) && FreshFrom(l, u, k) && Tame(g, tops)
    ensures forall q: nat :: !Waits(s.pendings, v, q)
  {
    hide LaInv, FlowInv, Waits, LeftEdge, WellFormed, Private, Mutual, LookedAt;
    forall q: nat
      ensures !Waits(s.pendings, v, q)
    {
      if Waits(s.pendings, v, q) {
        var b := WaitingNode(g, s, tree, v, q);
        var a := tree[tree[b].parent.value].data;
        SeenAgain(g, tops, l, a, u, k, v);
        RootsOnly(g, tops, s, tree, l, q);
      }
    }
  }

  // A rule that waits is in the tree below another, and on a left cycle with the one it waits for.
  lemma WaitingNode(g: LaGrammar, s: LaState, tree: seq<TreeNode>, v: nat, q: nat) returns (b: nat)
    requires LaInv(g, s) && FlowInv(g, s, tree) && Waits(s.pendings, v, q)
    ensures WellFormed(g.rules) && v != q && Mutual(LeftEdges(g.rules), v, q)
    ensures TreeOK(tree) && 0 < b < |tree| && tree[b].data == v && tree[b].parent.Some? && tree[tree[b].parent.value].data != v
  {
    hide OnCycle, LeftEdge, WellFormed, OnCycles, Complete, WalkedFits, Lists, Sound, WellFormedLa, OnPath, Reach;
    var h := LeftEdges(g.rules);
    b :| 0 <= b < |tree| && tree[b].data == v;
    assert Under(tree, s.pendings, b, q);
    WaitsBelow(g, s, tree, b, q);
    var w :| Reach(h, q, w) && Step(h, w, v);
    ReachStep(h, w, v);
    ReachTrans(h, q, w, v);
  }

  // A private rule is led to by one element only.
  lemma SeenAgain(g: LaGrammar, tops: seq<nat>, l: Looks, a: nat, u: nat, k: nat, v: nat)
    requires LookedAt(g, l.looked, a, v) && Mentions(g, u, k, v) && FreshFrom(l, u, k)
    ensures !Private(g, tops, v)
  {
    var j: nat :| (a, j) in l.looked && Mentions(g, a, j, v);
  }

  // No rule waits for a private one: it would be the root of the tree, which has been put off, and met too.
  lemma RootsOnly(g: LaGrammar, tops: seq<nat>, s: LaState, tree: seq<TreeNode>, l: Looks, q: nat)
    requires OnceInv(g, tops, s, tree, l) && exists x: nat :: Waits(s.pendings, x, q)
    ensures !Private(g, tops, q)
  {
    hide Waits, WellFormed, Tame;
    assert Met(g, tree, l, q);
    var c :| 0 <= c < |tree| && tree[c].data == q;
    var u: nat :| LookedAt(g, l.looked, u, q) && NotAbove(tree, u, q);
    var k: nat :| (u, k) in l.looked && Mentions(g, u, k, q);
    if c > 0 {
      var a := tree[tree[c].parent.value].data;
      assert LookedAt(g, l.looked, a, q);
      var j: nat :| (a, j) in l.looked && Mentions(g, a, j, q);
    } else {
      assert Wanted(g, tops, l, q);
      if q !in tops {
        var w: nat :| LookedAt(g, l.skipped, w, q);
        var j: nat :| (w, j) in l.skipped && Mentions(g, w, j, q);
      }
    }
  }

  // -------- Steps

  // Lists, records and rules to do may change.
  lemma OnceStays(g: LaGrammar, tops: seq<nat>, s: LaState, s': LaState, tree: seq<TreeNode>, l: Looks)
    requires OnceInv(g, tops, s, tree, l)
    requires s' == s.(inProcess := s'.inProcess, done := s'.done, toDo := s'.toDo, maybeZero := s'.maybeZero, las := s'.las,
                      walked := s'.walked, met := s'.met, missed := s'.missed)
    requires forall r :: r in s.inProcess || r in s.done ==> r in s'.inProcess || r in s'.done
    requires forall r :: r in s'.toDo ==> r in s.toDo || Wanted(g, tops, l, r)
    requires Tame(g, tops) ==> s'.missed == s.missed
    ensures OnceInv(g, tops, s', tree, l)
  {
    hide Wanted, Waits, WellFormed, Tame, Met;
  }

  lemma OncePopped(g: LaGrammar, tops: seq<nat>, s: LaState, tree: seq<TreeNode>, l: Looks, rt: nat, zero: bool)
    requires OnceInv(g, tops, s, tree, l) && s.inProcess != [] && s.inProcess[|s.inProcess| - 1] == rt
    ensures OnceInv(g, tops, Popped(s, rt, zero), tree, l)
  {
    hide Wanted, Waits, WellFormed, Tame, Met;
    assert s.inProcess == s.inProcess[..|s.inProcess| - 1] + [rt];
    OnceStays(g, tops, s, Popped(s, rt, zero), tree, l);
  }

  // A rule in process gets its node.
  lemma OnceNode(g: LaGrammar, tops: seq<nat>, s: LaState, tree: seq<TreeNode>, l: Looks, rt: nat, p: Option<nat>)
    requires OnceInv(g, tops, s, tree, l) && !InTree(tree, rt)
    requires if p.None? then tree == [] && rt in s.taken else p.value < |tree| && LookedAt(g, l.looked, tree[p.value].data, rt)
    ensures OnceInv(g, tops, s, tree + [TreeNode(rt, p)], l)
  {
    hide Wanted, Waits, WellFormed, Tame, LookedAt;
    var t := tree + [TreeNode(rt, p)];
    assert TreeOK(t);
    forall x: nat, q: nat | Waits(s.pendings, x, q)
      ensures Met(g, t, l, q)
    {
      assert Met(g, tree, l, q);
      var c :| 0 <= c < |tree| && tree[c].data == q;
      assert t[c].data == q;
      var u: nat :| LookedAt(g, l.looked, u, q) && NotAbove(tree, u, q);
      assert NotAbove(t, u, q);
    }
  }

  // Rules down to node `p` wait for `rt`, which its rule has met.
  lemma OnceTold(g: LaGrammar, tops: seq<nat>, s: LaState, tree: seq<TreeNode>, l: Looks, rt: nat, p: nat, pendings: seq<Pending>)
    requires OnceInv(g, tops, s, tree, l) && p < |tree| && rt in Chain(tree, Some(p))
    requires forall i, j :: 0 <= i < j < |tree| ==> tree[i].data != tree[j].data
    requires tree[p].data == rt || LookedAt(g, l.looked, tree[p].data, rt)
    requires forall x: nat, q: nat :: Waits(pendings, x, q) ==> Waits(s.pendings, x, q) || (q == rt && tree[p].data != rt)
    ensures OnceInv(g, tops, s.(pendings := pendings), tree, l)
  {
    hide Wanted, Waits, WellFormed, Tame, LookedAt, Chain;
    if tree[p].data != rt {
      var c := NodeOnChain(tree, p, rt);
      assert NotAbove(tree, tree[p].data, rt);
      assert Met(g, tree, l, rt);
    }
  }

  lemma {:induction false} NodeOnChain(tree: seq<TreeNode>, p: nat, rt: nat) returns (c: nat)
    requires TreeOK(tree) && p < |tree| && rt in Chain(tree, Some(p))
    ensures c <= p && tree[c].data == rt
    decreases p
  {
    if tree[p].data == rt {
      c := p;
    } else {
      c := NodeOnChain(tree, tree[p].parent.value, rt);
    }
  }

  // An element of a rule in process is looked into.
  lemma OnceLooked(g: LaGrammar, tops: seq<nat>, s: LaState, tree: seq<TreeNode>, l: Looks, u: nat, k: nat)
    requires OnceInv(g, tops, s, tree, l) && u in s.inProcess && FreshFrom(l, u, k)
    ensures var l' := l.(looked := l.looked + {(u, k)});
            OnceInv(g, tops, s, tree, l') && FreshFrom(l', u, k + 1) && forall path :: u !in path ==> KeepsLooks(path, l, l')
  {
    hide Waits, WellFormed, Tame;
    var l' := l.(looked := l.looked + {(u, k)});
    LooksGrow(g, tops, s, tree, l, l');
  }

  // More elements looked into or put off.
  lemma LooksGrow(g: LaGrammar, tops: seq<nat>, s: LaState, tree: seq<TreeNode>, l: Looks, l': Looks)
    requires OnceInv(g, tops, s, tree, l) && l.looked <= l'.looked && l.skipped <= l'.skipped && l'.looked !! l'.skipped
    requires forall p :: p in l'.looked || p in l'.skipped ==> p.0 in s.inProcess || p.0 in s.done
    ensures OnceInv(g, tops, s, tree, l')
  {
    hide Waits, WellFormed, Tame, Mentions;
    forall u: nat, v: nat | LookedAt(g, l.looked, u, v)
      ensures LookedAt(g, l'.looked, u, v)
    {
      var k: nat :| (u, k) in l.looked && Mentions(g, u, k, v);
      assert (u, k) in l'.looked;
    }
    forall u: nat, v: nat | LookedAt(g, l.skipped, u, v)
      ensures LookedAt(g, l'.skipped, u, v)
    {
      var k: nat :| (u, k) in l.skipped && Mentions(g, u, k, v);
      assert (u, k) in l'.skipped;
    }
    hide LookedAt;
    forall r | Wanted(g, tops, l, r)
      ensures Wanted(g, tops, l', r)
    {
    }
    forall q | Met(g, tree, l, q)
      ensures Met(g, tree, l', q)
    {
    }
  }

  // Elements `k` to `n` of `u`.
  function Rest(u: nat, k: nat, n: nat): (r: set<(nat, nat)>)
    ensures forall p :: p in r <==> p.0 == u && k <= p.1 < n
    decreases n
  {
    if n <= k then {} else Rest(u, k, n - 1) + {(u, n - 1)}
  }

  // The elements of a rule in process from `k` on are put off.
  lemma OnceSkipped(g: LaGrammar, tops: seq<nat>, s: LaState, tree: seq<TreeNode>, l: Looks, u: nat, k: nat, n: nat)
    requires OnceInv(g, tops, s, tree, l) && u in s.inProcess && FreshFrom(l, u, k)
    ensures var l' := l.(skipped := l.skipped + Rest(u, k, n));
            OnceInv(g, tops, s, tree, l') && forall path :: u !in path ==> KeepsLooks(path, l, l')
  {
    hide Waits, WellFormed, Tame;
    LooksGrow(g, tops, s, tree, l, l.(skipped := l.skipped + Rest(u, k, n)));
  }

  // An element that has been put off may be walked from.
  lemma SkippedIsWanted(g: LaGrammar, tops: seq<nat>, l: Looks, u: nat, k: nat, v: nat)
    requires (u, k) in l.skipped && Mentions(g, u, k, v)
    ensures Wanted(g, tops, l, v)
  {
    assert LookedAt(g, l.skipped, u, v);
  }

  // A new tree.
  lemma OnceNewTree(g: LaGrammar, tops: seq<nat>, s: LaState, s': LaState, tree: seq<TreeNode>, l: Looks)
    requires OnceInv(g, tops, s, tree, l) && s' == s.(toDo := s'.toDo, taken := s'.taken, pendings := [])
    requires forall r :: r in s'.toDo || r in s'.taken ==> r in s.toDo || r in s.taken
    ensures OnceInv(g, tops, s', [], l)
  {
    hide Wanted, WellFormed, Tame, Met;
  }

  lemma OnceStart(g: LaGrammar, tops: seq<nat>)
    requires WellFormed(g.rules)
    ensures OnceInv(g, tops, LaState([], [], tops, [], map[], [], [], {}, {}, {}), [], Looks({}, {}))
  {
  }
}
