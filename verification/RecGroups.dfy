/** Groups of recursions: the classes of mutual left-reachability of their leads. */
module RecGroups {
  import opened Graphs
  import opened Grammar
  import opened Recursions

  ghost predicate InSomeGroup(groups: seq<seq<nat>>, k: nat) {
    exists a :: 0 <= a < |groups| && k in groups[a]
  }

  ghost predicate RuleInSome(recs: seq<Recursion>, group: seq<nat>, r: nat) {
    exists k :: k in group && k < |recs| && r in recs[k].mRuleTables
  }

  ghost predicate RuleInGroup(recs: seq<Recursion>, groups: seq<seq<nat>>, r: nat, a: nat) {
    a < |groups| && RuleInSome(recs, groups[a], r)
  }

  lemma SomeSplit(recs: seq<Recursion>, group: seq<nat>, k: nat)
    requires k < |recs|
    ensures forall r: nat :: RuleInSome(recs, group + [k], r) <==> RuleInSome(recs, group, r) || r in recs[k].mRuleTables
  {
    forall r: nat
      ensures RuleInSome(recs, group + [k], r) <==> RuleInSome(recs, group, r) || r in recs[k].mRuleTables
    {
      if r in recs[k].mRuleTables { assert k in group + [k]; }
      if RuleInSome(recs, group, r) {
        var k' :| k' in group && k' < |recs| && r in recs[k'].mRuleTables;
        assert k' in group + [k];
      }
    }
  }

  // A group is a full class of recursions with mutually reachable leads.
  ghost predicate GroupOK(h: Graph, recs: seq<Recursion>, group: seq<nat>) {
    && group != []
    && (forall k :: k in group ==> k < |recs|)
    && forall k, k' :: k in group && 0 <= k' < |recs| ==> (k' in group <==> Mutual(h, recs[k].mLead, recs[k'].mLead))
  }

  ghost predicate GroupsOK(h: Graph, recs: seq<Recursion>, groups: seq<seq<nat>>) {
    && (forall a :: 0 <= a < |groups| ==> GroupOK(h, recs, groups[a]))
    && forall a, b, k :: 0 <= a < |groups| && 0 <= b < |groups| && k in groups[a] && k in groups[b] ==> a == b
  }

  // The members of the group of `i` among the recursions before `j`.
  ghost predicate Drawn(h: Graph, recs: seq<Recursion>, group: seq<nat>, i: nat, j: nat)
    requires i < |recs|
  {
    && i in group
    && forall k :: k in group <==> i <= k < j && k < |recs| && Mutual(h, recs[i].mLead, recs[k].mLead)
  }

  lemma MutualTrans(h: Graph, u: nat, v: nat, w: nat)
    requires Mutual(h, u, v) && Mutual(h, v, w)
    ensures Mutual(h, u, w) && Mutual(h, w, u)
  {
    ReachTrans(h, u, v, w);
    ReachTrans(h, w, v, u);
  }

  lemma NotGroupedYet(h: Graph, recs: seq<Recursion>, groups0: seq<seq<nat>>, group: seq<nat>,
                      groups: seq<seq<nat>>, i: nat, j: nat)
    requires GroupsOK(h, recs, groups0) && groups == groups0 + [group]
    requires i < j < |recs| && !InSomeGroup(groups0, i) && Drawn(h, recs, group, i, j)
    requires Mutual(h, recs[i].mLead, recs[j].mLead)
    ensures !InSomeGroup(groups, j)
  {
    forall a | 0 <= a < |groups|
      ensures j !in groups[a]
    {
      if a < |groups0| {
        assert GroupOK(h, recs, groups0[a]);
        assert i !in groups0[a];
      }
    }
  }

  lemma GroupComplete(h: Graph, recs: seq<Recursion>, groups0: seq<seq<nat>>, group: seq<nat>,
                      groups: seq<seq<nat>>, i: nat)
    requires GroupsOK(h, recs, groups0) && groups == groups0 + [group]
    requires i < |recs| && !InSomeGroup(groups0, i) && Drawn(h, recs, group, i, |recs|)
    requires forall k: nat :: k < i ==> InSomeGroup(groups0, k)
    ensures GroupsOK(h, recs, groups)
    ensures forall k: nat :: k <= i ==> InSomeGroup(groups, k)
  {
    forall k: nat | k <= i
      ensures InSomeGroup(groups, k)
    {
      if k < i {
        assert InSomeGroup(groups0, k);
        var a :| 0 <= a < |groups0| && k in groups0[a];
        assert k in groups[a];
      } else {
        assert i in groups[|groups0|];
      }
    }
    // A recursion mutual with recursion i is in no older group, so it comes after i.
    forall k, a | 0 <= k < |recs| && 0 <= a < |groups0| && k in groups0[a]
      ensures !Mutual(h, recs[i].mLead, recs[k].mLead) && k !in group
    {
      assert GroupOK(h, recs, groups0[a]);
      assert i !in groups0[a];
    }
    forall k, k' | k in group && 0 <= k' < |recs|
      ensures k' in group <==> Mutual(h, recs[k].mLead, recs[k'].mLead)
    {
      if Mutual(h, recs[k].mLead, recs[k'].mLead) {
        MutualTrans(h, recs[i].mLead, recs[k].mLead, recs[k'].mLead);
        assert k' < i ==> InSomeGroup(groups0, k');
      } else if k' in group {
        MutualTrans(h, recs[k].mLead, recs[i].mLead, recs[k'].mLead);
      }
    }
    assert GroupOK(h, recs, group);
    forall a | 0 <= a < |groups|
      ensures GroupOK(h, recs, groups[a])
    {
      if a < |groups0| { assert groups[a] == groups0[a]; }
    }
  }

  lemma GroupsAreComponents(g: Rules, mz: seq<nat>, recs: seq<Recursion>, r2r: seq<Rule2Recursion>, groups: seq<seq<nat>>)
    requires WellFormed(g) && RecsInv(g, mz, recs, r2r)
    requires GroupsOK(LeftGraph(g, mz), recs, groups)
    requires forall k: nat :: k < |recs| ==> InSomeGroup(groups, k)
    ensures forall r: nat :: (exists a :: RuleInGroup(recs, groups, r, a)) <==> InSomeRec(recs, r)
    ensures forall r: nat, a: nat, r': nat, a': nat :: RuleInGroup(recs, groups, r, a) && RuleInGroup(recs, groups, r', a') ==>
              (a == a' <==> Mutual(LeftGraph(g, mz), r, r'))
  {
    forall r: nat
      ensures (exists a :: RuleInGroup(recs, groups, r, a)) <==> InSomeRec(recs, r)
    {
      if InSomeRec(recs, r) {
        var k :| 0 <= k < |recs| && r in recs[k].mRuleTables;
        assert InSomeGroup(groups, k);
        var a :| 0 <= a < |groups| && k in groups[a];
        assert RuleInGroup(recs, groups, r, a);
      }
    }
    forall r: nat, a: nat, r': nat, a': nat | RuleInGroup(recs, groups, r, a) && RuleInGroup(recs, groups, r', a')
      ensures a == a' <==> Mutual(LeftGraph(g, mz), r, r')
    {
      SameGroup(g, mz, recs, r2r, groups, r, a, r', a');
    }
  }

  lemma SameGroup(g: Rules, mz: seq<nat>, recs: seq<Recursion>, r2r: seq<Rule2Recursion>, groups: seq<seq<nat>>,
                  r: nat, a: nat, r': nat, a': nat)
    requires WellFormed(g) && RecsInv(g, mz, recs, r2r)
    requires GroupsOK(LeftGraph(g, mz), recs, groups)
    requires RuleInGroup(recs, groups, r, a) && RuleInGroup(recs, groups, r', a')
    ensures a == a' <==> Mutual(LeftGraph(g, mz), r, r')
  {
    hide Synced, LeftGraph, Reach;
    var h := LeftGraph(g, mz);
    var k :| k in groups[a] && k < |recs| && r in recs[k].mRuleTables;
    var k' :| k' in groups[a'] && k' < |recs| && r' in recs[k'].mRuleTables;
    var l, l' := recs[k].mLead, recs[k'].mLead;
    assert RecOK(g, mz, recs[k]) && RecOK(g, mz, recs[k']);
    assert GroupOK(h, recs, groups[a]);
    if Mutual(h, r, r') {
      MutualTrans(h, l, r, r');
      MutualTrans(h, l, r', l');
      assert k' in groups[a];
    }
    if a == a' {
      MutualTrans(h, r, l, l');
      MutualTrans(h, r, l', r');
    }
  }
}
