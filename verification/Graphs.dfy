/** Finite directed graphs over the vertices 0, 1, 2, ...; vertex `u` has the successor set `g[u]`.
    Reachability is stated with explicit paths, so every worklist of the model is checked against
    the same definition. */
module Graphs {

  type Graph = seq<set<nat>>

  predicate Step(g: Graph, u: nat, v: nat) {
    u < |g| && v in g[u]
  }

  ghost predicate IsPath(g: Graph, p: seq<nat>) {
    && |p| > 0
    && forall i :: 0 <= i < |p| - 1 ==> Step(g, p[i], p[i + 1])
  }

  // Reachable in zero or more steps.
  ghost predicate Reach(g: Graph, u: nat, v: nat) {
    exists p :: IsPath(g, p) && p[0] == u && p[|p| - 1] == v
  }

  // Reachable in one or more steps back to itself.
  ghost predicate OnCycle(g: Graph, u: nat) {
    exists w :: Step(g, u, w) && Reach(g, w, u)
  }

  ghost predicate Mutual(g: Graph, u: nat, v: nat) {
    Reach(g, u, v) && Reach(g, v, u)
  }

  // Every edge of `g` is an edge of `h`.
  ghost predicate SubGraph(g: Graph, h: Graph) {
    |g| <= |h| && forall u :: 0 <= u < |g| ==> g[u] <= h[u]
  }

  ghost predicate NoDup(s: seq<nat>) {
    forall i, j :: 0 <= i < j < |s| ==> s[i] != s[j]
  }

  lemma ReachRefl(g: Graph, u: nat)
    ensures Reach(g, u, u)
  {
    assert IsPath(g, [u]);
  }

  lemma ReachStep(g: Graph, u: nat, v: nat)
    requires Step(g, u, v)
    ensures Reach(g, u, v)
  {
    var p := [u, v];
    assert IsPath(g, p) && p[0] == u && p[|p| - 1] == v;
  }

  lemma ReachTrans(g: Graph, u: nat, v: nat, w: nat)
    requires Reach(g, u, v) && Reach(g, v, w)
    ensures Reach(g, u, w)
  {
    var p :| IsPath(g, p) && p[0] == u && p[|p| - 1] == v;
    var q :| IsPath(g, q) && q[0] == v && q[|q| - 1] == w;
    var r := p + q[1..];
    forall i | 0 <= i < |r| - 1
      ensures Step(g, r[i], r[i + 1])
    {
      if i < |p| - 1 {
        assert Step(g, p[i], p[i + 1]);
      } else {
        assert Step(g, q[i + 1 - |p|], q[i + 2 - |p|]);
      }
    }
    assert IsPath(g, r) && r[0] == u && r[|r| - 1] == w;
  }

  lemma ReachMono(g: Graph, h: Graph, u: nat, v: nat)
    requires SubGraph(g, h) && Reach(g, u, v)
    ensures Reach(h, u, v)
  {
    var p :| IsPath(g, p) && p[0] == u && p[|p| - 1] == v;
    forall i | 0 <= i < |p| - 1
      ensures Step(h, p[i], p[i + 1])
    {
      assert Step(g, p[i], p[i + 1]);
    }
    assert IsPath(h, p);
  }

  // A set closed under the edges keeps everything reachable from its members.
  lemma {:induction false} ClosedKeepsReach(g: Graph, s: set<nat>, u: nat, v: nat)
    requires forall a, b :: a in s && Step(g, a, b) ==> b in s
    requires u in s && Reach(g, u, v)
    ensures v in s
  {
    var p :| IsPath(g, p) && p[0] == u && p[|p| - 1] == v;
    var i := 0;
    while i < |p| - 1
      invariant 0 <= i < |p| && p[i] in s
    {
      assert Step(g, p[i], p[i + 1]);
      i := i + 1;
    }
  }

  // A path that leaves a set leaves it along some edge.
  lemma LeavingEdge(g: Graph, s: set<nat>, u: nat, v: nat) returns (a: nat, b: nat)
    requires u in s && v !in s && Reach(g, u, v)
    ensures a in s && b !in s && Step(g, a, b) && Reach(g, u, a) && Reach(g, b, v)
  {
    var p :| IsPath(g, p) && p[0] == u && p[|p| - 1] == v;
    var i := 0;
    while p[i + 1] in s
      invariant 0 <= i < |p| - 1 && p[i] in s
      decreases |p| - i
    {
      if i + 1 == |p| - 1 { assert false; }
      i := i + 1;
    }
    a, b := p[i], p[i + 1];
    assert Step(g, p[i], p[i + 1]);
    PathReach(g, p, 0, i);
    PathReach(g, p, i + 1, |p| - 1);
  }

  lemma PathReach(g: Graph, p: seq<nat>, i: nat, j: nat)
    requires IsPath(g, p) && i <= j < |p|
    ensures Reach(g, p[i], p[j])
  {
    var q := p[i..j + 1];
    forall k | 0 <= k < |q| - 1
      ensures Step(g, q[k], q[k + 1])
    {
      assert Step(g, p[i + k], p[i + k + 1]);
    }
    assert IsPath(g, q) && q[0] == p[i] && q[|q| - 1] == p[j];
  }

  // Reach is a step followed by reach, unless it is empty.
  lemma ReachSplit(g: Graph, u: nat, v: nat)
    requires Reach(g, u, v) && u != v
    ensures exists w :: Step(g, u, w) && Reach(g, w, v)
  {
    var p :| IsPath(g, p) && p[0] == u && p[|p| - 1] == v;
    assert Step(g, p[0], p[1]);
    PathReach(g, p, 1, |p| - 1);
  }

  lemma CycleReach(g: Graph, u: nat, v: nat)
    requires OnCycle(g, u) && Mutual(g, u, v)
    ensures OnCycle(g, v)
  {
    if u != v {
      ReachSplit(g, v, u);
      var w :| Step(g, v, w) && Reach(g, w, u);
      ReachTrans(g, w, u, v);
    }
  }

  function Below(n: nat): (s: set<nat>)
    ensures forall x: nat :: x in s <==> x < n
    ensures |s| == n
  {
    if n == 0 then {} else Below(n - 1) + {n - 1}
  }

  lemma SubsetCard(a: set<nat>, b: set<nat>)
    requires a <= b
    ensures |a| <= |b|
  {
    if a != {} {
      var x :| x in a;
      SubsetCard(a - {x}, b - {x});
    }
  }

  lemma SubsetSmaller(all: set<nat>, done: set<nat>, x: nat)
    requires x in all && x !in done
    ensures |all - (done + {x})| < |all - done|
  {
    assert all - done == (all - (done + {x})) + {x};
  }

  function Elems(s: seq<nat>): set<nat> {
    set x | x in s
  }

  lemma {:induction false} NoDupCard(s: seq<nat>)
    requires NoDup(s)
    ensures |Elems(s)| == |s|
  {
    if s != [] {
      var last := |s| - 1;
      var t := s[..last];
      assert s == t + [s[last]];
      NoDupCard(t);
      assert s[last] !in t;
      assert Elems(s) == Elems(t) + {s[last]};
    }
  }

  lemma NoDupBound(s: seq<nat>, n: nat)
    requires NoDup(s)
    requires forall x :: x in s ==> x < n
    ensures |s| <= n
  {
    NoDupCard(s);
    assert Elems(s) <= Below(n);
    SubsetCard(Elems(s), Below(n));
  }

  // A duplicate-free list that misses some vertex below `n` is strictly shorter.
  lemma NoDupBoundStrict(s: seq<nat>, n: nat, x: nat)
    requires NoDup(s)
    requires forall y :: y in s ==> y < n
    requires x < n && x !in s
    ensures |s| < n
  {
    NoDupBound(s + [x], n);
  }
}
