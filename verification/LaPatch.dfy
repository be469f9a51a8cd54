/** Patching the rules that wait, from the root of the tree on: rules above are patched before rules
    below, so afterwards every list has what it is owed. */
module LaPatch {
  import opened Options
  import opened Graphs
  import opened ContTrees
  import opened Grammar
  import opened LookAheads
  import opened LaStates
  import opened LaFlow

  // -------- The order of the nodes

  function ChildrenOf(t: seq<TreeNode>, x: nat, n: nat): seq<nat>
    requires n <= |t|
  {
    if n == 0 then []
    else ChildrenOf(t, x, n - 1) + if t[n - 1].parent == Some(x) then [n - 1] else []
  }

  lemma {:induction false} ChildrenAre(t: seq<TreeNode>, x: nat, n: nat)
    requires n <= |t|
    ensures NoDup(ChildrenOf(t, x, n)) && forall c: nat :: c in ChildrenOf(t, x, n) <==> c < n && t[c].parent == Some(x)
  {
    if n > 0 { ChildrenAre(t, x, n - 1); }
  }

  // Tree nodes patched and tree nodes waiting: each once, after the node above it, and none left out.
  ghost predicate Queue(t: seq<TreeNode>, patched: seq<nat>, working: seq<nat>) {
    && NoDup(patched + working) && (t != [] ==> 0 in patched + working)
    && (forall c: nat :: c < |t| && t[c].parent.Some? && t[c].parent.value in patched ==> c in patched + working)
    && forall c :: c in patched + working ==> c < |t| && (c == 0 || (t[c].parent.Some? && t[c].parent.value in patched))
  }

  lemma QueueRoom(t: seq<TreeNode>, patched: seq<nat>, working: seq<nat>)
    requires Queue(t, patched, working) && working != []
    ensures working[0] < |t| && |patched| < |t|
  {
    var x := working[0];
    assert (patched + working)[|patched|] == x;
    assert x in patched + working;
    NoDupBound(patched + working, |t|);
  }

  // The children of the first node waiting are new.
  lemma KidsApart(t: seq<TreeNode>, patched: seq<nat>, working: seq<nat>, kids: seq<nat>)
    requires TreeOK(t) && Queue(t, patched, working) && working != [] && working[0] < |t|
    requires kids == ChildrenOf(t, working[0], |t|)
    ensures working[0] !in patched && NoDup(patched + working + kids)
  {
    var x, all := working[0], patched + working;
    ChildrenAre(t, x, |t|);
    assert all[|patched|] == x;
    forall k | 0 <= k < |patched|
      ensures patched[k] != x
    {
      assert all[k] == patched[k];
    }
    forall i, j | 0 <= i < j < |all + kids|
      ensures (all + kids)[i] != (all + kids)[j]
    {
      if i < |all| <= j {
        assert all[i] in all && kids[j - |all|] in kids;
        assert t[kids[j - |all|]].parent == Some(x) && t[all[i]].parent != Some(x);
      } else if |all| <= i {
        assert kids[i - |all|] != kids[j - |all|];
      }
    }
  }

  lemma QueueStep(t: seq<TreeNode>, patched: seq<nat>, working: seq<nat>)
    requires TreeOK(t) && Queue(t, patched, working) && working != [] && working[0] < |t|
    ensures Queue(t, patched + [working[0]], working[1..] + ChildrenOf(t, working[0], |t|))
  {
    hide NoDup, TreeOK;
    var x := working[0];
    var kids := ChildrenOf(t, x, |t|);
    ChildrenAre(t, x, |t|);
    var all := patched + working;
    assert all == patched + [x] + working[1..];
    assert (patched + [x]) + (working[1..] + kids) == all + kids;
    KidsApart(t, patched, working, kids);
    forall c | c in all + kids
      ensures c < |t| && (c == 0 || (t[c].parent.Some? && t[c].parent.value in patched + [x]))
    {
      assert c in all || c in kids;
    }
  }

  lemma QueueStart(t: seq<TreeNode>)
    requires TreeOK(t)
    ensures Queue(t, [], if t == [] then [] else [0])
  {
  }

  lemma QueueTells(t: seq<TreeNode>, patched: seq<nat>, working: seq<nat>)
    requires TreeOK(t) && Queue(t, patched, working)
    ensures working != [] ==> working[0] < |t| && working[0] !in patched
    ensures forall b :: b in patched && b < |t| && t[b].parent.Some? ==> t[b].parent.value in patched
  {
    if working != [] {
      var all := patched + working;
      assert all[|patched|] == working[0] && working[0] in all;
      forall i | 0 <= i < |patched|
        ensures patched[i] != working[0]
      {
        assert all[i] == patched[i];
      }
    }
    forall b | b in patched && b < |t| && t[b].parent.Some?
      ensures t[b].parent.value in patched
    {
      assert b in patched + working;
    }
  }

  lemma AllPatched(t: seq<TreeNode>, patched: seq<nat>)
    requires TreeOK(t) && Queue(t, patched, []) && forall i :: 0 < i < |t| ==> t[i].parent.Some?
    ensures forall c: nat :: c < |t| ==> c in patched
  {
    assert patched + [] == patched;
    var n := 0;
    while n < |t|
      invariant n <= |t| && forall c: nat :: c < n ==> c in patched
    {
      if n > 0 { assert t[n].parent.value < n; }
      n := n + 1;
    }
  }

  // A rule that waits has the rule it waits for above it; that is patched, if the rule itself is.
  lemma {:induction false} PatchedBefore(g: LaGrammar, s: LaState, tree: seq<TreeNode>, patched: seq<nat>, b: nat, c: nat)
    requires FlowInv(g, s, tree) && b < |tree| && c < |tree| && b in patched
    requires forall x :: x in patched && x < |tree| && tree[x].parent.Some? ==> tree[x].parent.value in patched
    requires Waits(s.pendings, tree[b].data, tree[c].data)
    ensures c in patched
    decreases b
  {
    hide OnCycle, LeftEdge, WellFormed, OnCycles, Complete, WalkedFits, Waits;
    assert Under(tree, s.pendings, b, tree[c].data);
    var a := tree[b].parent.value;
    if tree[a].data != tree[c].data { PatchedBefore(g, s, tree, patched, a, c); }
  }

  lemma {:induction false} WaitsForNode(g: LaGrammar, s: LaState, tree: seq<TreeNode>, b: nat, q: nat)
    requires FlowInv(g, s, tree) && b < |tree| && Waits(s.pendings, tree[b].data, q)
    ensures InTree(tree, q)
    decreases b
  {
    hide OnCycle, LeftEdge, WellFormed, OnCycles, Complete, WalkedFits, Waits;
    assert Under(tree, s.pendings, b, q);
    var a := tree[b].parent.value;
    if tree[a].data != q { WaitsForNode(g, s, tree, a, q); }
  }

  // -------- What is patched

  // All that wait for `q` have got its lookaheads, and nobody got anything else.
  ghost predicate PatchedBy(pendings: seq<Pending>, las: RuleLookAheads, las': RuleLookAheads, q: nat) {
    && (forall r :: LasOf(las, r) <= LasOf(las', r))
    && (forall r: nat :: !Waits(pendings, r, q) ==> LasOf(las', r) == LasOf(las, r))
    && (forall r: nat, la :: la in LasOf(las', r) ==> la in LasOf(las, r) || la in LasOf(las, q))
    && forall d: nat :: Waits(pendings, d, q) ==> Offers(las', q, d)
  }

  // With some nodes patched: their dependents have what they need, and what could be handed on was.
  ghost predicate Patching(s: LaState, tree: seq<TreeNode>, las: RuleLookAheads, patched: seq<nat>) {
    && (forall r :: LasOf(s.las, r) <= LasOf(las, r))
    && (forall c, x: nat :: c in patched && c < |tree| && Waits(s.pendings, x, tree[c].data) ==> Offers(las, tree[c].data, x))
    && forall u: nat, v: nat :: Offers(s.las, v, u) && Follows(s.pendings, v, u) ==> Offers(las, v, u)
  }

  lemma PatchStep(g: LaGrammar, s: LaState, tree: seq<TreeNode>, las: RuleLookAheads, las': RuleLookAheads,
                  patched: seq<nat>, c: nat)
    requires FlowInv(g, s, tree) && Patching(s, tree, las, patched) && c < |tree| && c !in patched
    requires forall b :: b in patched && b < |tree| && tree[b].parent.Some? ==> tree[b].parent.value in patched
    requires PatchedBy(s.pendings, las, las', tree[c].data)
    ensures Patching(s, tree, las', patched + [c])
  {
    hide FlowInv, Waits, Offers, Follows, LasOf;
    forall b, x: nat | b in patched + [c] && b < |tree| && Waits(s.pendings, x, tree[b].data)
      ensures Offers(las', tree[b].data, x)
    {
      if b in patched {
        if Waits(s.pendings, tree[b].data, tree[c].data) { PatchedBefore(g, s, tree, patched, b, c); }
        assert LasOf(las', tree[b].data) == LasOf(las, tree[b].data);
        OffersStay(las, las', tree[b].data, x);
      }
    }
    forall u: nat, v: nat | Offers(s.las, v, u) && Follows(s.pendings, v, u)
      ensures Offers(las', v, u)
    {
      HandedOn(s.pendings, las, las', tree[c].data, u, v);
    }
    assert forall r :: LasOf(s.las, r) <= LasOf(las, r) <= LasOf(las', r);
  }

  lemma HandedOn(pendings: seq<Pending>, las: RuleLookAheads, las': RuleLookAheads, q: nat, u: nat, v: nat)
    requires PatchedBy(pendings, las, las', q) && Offers(las, v, u) && Follows(pendings, v, u)
    ensures Offers(las', v, u)
  {
    hide Waits, LasOf, LookAheadEqual, Copied;
    forall la | la in LasOf(las', v)
      ensures Copied(LasOf(las', u), la)
    {
      if la in LasOf(las, v) {
        CopiedStays(LasOf(las, u), LasOf(las', u), la);
      } else {
        assert Waits(pendings, v, q) && la in LasOf(las, q);
        assert la in LasOf(las', q);
        if u == q { InIsCopied(LasOf(las', u), la); } else { assert Offers(las', q, u); }
      }
    }
  }

  lemma InIsCopied(list: seq<LookAhead>, la: LookAhead)
    requires la in list
    ensures Copied(list, la)
  {
  }

  // With all nodes patched, every element looked into has given its lookaheads.
  lemma AllGiven(g: LaGrammar, s: LaState, tree: seq<TreeNode>, las: RuleLookAheads, patched: seq<nat>)
    requires FlowInv(g, s, tree) && Patching(s, tree, las, patched) && forall c: nat :: c < |tree| ==> c in patched
    ensures forall u: nat, k: nat :: (u, k) in s.walked ==> IsElement(g, u, k) && Given(g, las, s.missed, u, k)
  {
    hide FlowInv, Waits, Offers, Follows, LasOf, Copied;
    forall u: nat, k: nat | (u, k) in s.walked
      ensures IsElement(g, u, k) && Given(g, las, s.missed, u, k)
    {
      WalkedTells(g, s, tree, u, k);
      var d := g.rules[u].mData[k];
      if !d.Subtable? {
        CopiedStays(LasOf(s.las, u), LasOf(las, u), LaOf(d));
      } else if u == d.entry {
        OffersItself(las, u);
      } else if Waits(s.pendings, u, d.entry) {
        var c := NodeOf(g, s, tree, u, d.entry);
      }
    }
  }

  lemma WalkedTells(g: LaGrammar, s: LaState, tree: seq<TreeNode>, u: nat, k: nat)
    requires FlowInv(g, s, tree) && (u, k) in s.walked
    ensures IsElement(g, u, k) && Passed(g, s, u, k)
  {
    hide Passed;
  }

  lemma OffersItself(las: RuleLookAheads, u: nat)
    ensures Offers(las, u, u)
  {
  }

  lemma NodeOf(g: LaGrammar, s: LaState, tree: seq<TreeNode>, x: nat, q: nat) returns (c: nat)
    requires FlowInv(g, s, tree) && Waits(s.pendings, x, q)
    ensures c < |tree| && tree[c].data == q
  {
    hide OnCycle, LeftEdge, WellFormed, OnCycles, Complete, WalkedFits, Waits, Under;
    var b :| 0 <= b < |tree| && tree[b].data == x;
    WaitsForNode(g, s, tree, b, q);
    c :| 0 <= c < |tree| && tree[c].data == q;
  }
}
