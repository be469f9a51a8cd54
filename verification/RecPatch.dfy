/** The back patch: when a rule joins the recursion of one of its elements, and why the passes end. */
module RecPatch {
  import opened Graphs
  import opened Grammar
  import opened Recursions
  import opened RecCycles

  // `recs'` has the recursions of `recs`, with possibly more rules in them.
  ghost predicate Wider(recs: seq<Recursion>, recs': seq<Recursion>) {
    && |recs| == |recs'|
    && forall k :: 0 <= k < |recs| ==> WiderRec(recs[k], recs'[k])
  }

  ghost predicate WiderRec(a: Recursion, b: Recursion) {
    && a.mLead == b.mLead && a.mPaths == b.mPaths
    && forall r :: r in a.mRuleTables ==> r in b.mRuleTables
  }

  // Some rule joined some recursion.
  ghost predicate Grown(recs: seq<Recursion>, recs': seq<Recursion>) {
    exists k, r :: 0 <= k < |recs| && k < |recs'| && r !in recs[k].mRuleTables && r in recs'[k].mRuleTables
  }

  ghost predicate KeepsRules(a: seq<Rule2Recursion>, b: seq<Rule2Recursion>) {
    |a| <= |b| && forall i :: 0 <= i < |a| ==> a[i].mRule == b[i].mRule
  }

  ghost predicate Share(recs: seq<Recursion>, u: nat, v: nat) {
    exists k :: 0 <= k < |recs| && u in recs[k].mRuleTables && v in recs[k].mRuleTables
  }

  ghost predicate Unrelated(g: Rules, mz: seq<nat>, lead: nat, u: nat, v: nat)
    requires WellFormed(g)
  {
    !(Reach(LeftGraph(g, mz), lead, u) && Reach(LeftGraph(g, mz), u, v))
  }

  // There is no recursion of element `v` that rule `u` should still join.
  ghost predicate Patched(g: Rules, mz: seq<nat>, recs: seq<Recursion>, u: nat, v: nat)
    requires WellFormed(g)
  {
    || Share(recs, u, v)
    || forall k :: 0 <= k < |recs| && v in recs[k].mRuleTables ==> Unrelated(g, mz, recs[k].mLead, u, v)
  }

  ghost predicate AllPatched(g: Rules, mz: seq<nat>, recs: seq<Recursion>, u: nat)
    requires WellFormed(g)
  {
    u < |g| && forall d :: d in g[u].mData && d.Subtable? ==> Patched(g, mz, recs, u, d.entry)
  }

  lemma WiderTrans(a: seq<Recursion>, b: seq<Recursion>, c: seq<Recursion>)
    requires Wider(a, b) && Wider(b, c)
    ensures Wider(a, c)
    ensures Grown(a, b) || Grown(b, c) ==> Grown(a, c)
  {
    forall k | 0 <= k < |a|
      ensures WiderRec(a[k], c[k])
    {
      assert WiderRec(a[k], b[k]) && WiderRec(b[k], c[k]);
    }
    if Grown(a, b) {
      var k, r :| 0 <= k < |a| && k < |b| && r !in a[k].mRuleTables && r in b[k].mRuleTables;
      assert r in c[k].mRuleTables;
    } else if Grown(b, c) {
      var k, r :| 0 <= k < |b| && k < |c| && r !in b[k].mRuleTables && r in c[k].mRuleTables;
      assert WiderRec(a[k], b[k]);
      assert r !in a[k].mRuleTables;
    }
  }

  lemma WiderRefl(a: seq<Recursion>)
    ensures Wider(a, a)
  {
  }

  lemma NoEntry(g: Rules, mz: seq<nat>, recs: seq<Recursion>, r2r: seq<Rule2Recursion>, u: nat)
    requires WellFormed(g) && RecsInv(g, mz, recs, r2r)
    requires forall i :: 0 <= i < |r2r| ==> r2r[i].mRule != u
    ensures !InSomeRec(recs, u)
  {
    assert forall k: nat :: k < |recs| ==> (Maps(r2r, u, k) <==> u in recs[k].mRuleTables);
  }

  // An entry of the map lists exactly the recursions its rule is in.
  lemma EntryIs(g: Rules, mz: seq<nat>, recs: seq<Recursion>, r2r: seq<Rule2Recursion>, i: nat)
    requires WellFormed(g) && RecsInv(g, mz, recs, r2r) && i < |r2r|
    ensures forall k: nat :: k in r2r[i].mRecursions <==> k < |recs| && r2r[i].mRule in recs[k].mRuleTables
  {
    forall k: nat
      ensures k in r2r[i].mRecursions <==> k < |recs| && r2r[i].mRule in recs[k].mRuleTables
    {
      assert k in r2r[i].mRecursions ==> Maps(r2r, r2r[i].mRule, k);
    }
  }

  lemma LeadInRange(g: Rules, mz: seq<nat>, recs: seq<Recursion>, r2r: seq<Rule2Recursion>, k: nat)
    requires WellFormed(g) && RecsInv(g, mz, recs, r2r) && k < |recs|
    ensures recs[k].mLead < |g|
  {
  }

  lemma JoinReady(g: Rules, mz: seq<nat>, recs0: seq<Recursion>, recs1: seq<Recursion>,
                  r2r1: seq<Rule2Recursion>, rec: nat, v: nat)
    requires WellFormed(g) && RecsInv(g, mz, recs1, r2r1) && Wider(recs0, recs1)
    requires rec < |recs0| && v in recs0[rec].mRuleTables
    ensures Synced(recs1, r2r1) && v in recs1[rec].mRuleTables
  {
    assert WiderRec(recs0[rec], recs1[rec]);
  }

  // Adding a rule between the lead of a recursion and one of its rules keeps the invariant.
  lemma JoinKeeps(g: Rules, mz: seq<nat>, recs0: seq<Recursion>, recs1: seq<Recursion>, r2r1: seq<Rule2Recursion>,
                  recs2: seq<Recursion>, r2r2: seq<Rule2Recursion>, rec: nat, u: nat, v: nat)
    requires WellFormed(g) && RecsInv(g, mz, recs1, r2r1) && Wider(recs0, recs1)
    requires Linked(recs1, recs2, rec, [u]) && Synced(recs2, r2r2)
    requires v in recs1[rec].mRuleTables && u < |g|
    requires Reach(LeftGraph(g, mz), recs1[rec].mLead, u) && Reach(LeftGraph(g, mz), u, v)
    ensures RecsInv(g, mz, recs2, r2r2) && Wider(recs0, recs2) && |recs0| == |recs2|
    ensures Grown(recs0, recs1) ==> Grown(recs0, recs2)
    ensures u !in recs0[rec].mRuleTables ==> Grown(recs0, recs2)
  {
    hide Reach, LeftGraph, Synced;
    LinkedGrows(recs1, recs2, rec, [u]);
    ReachTrans(LeftGraph(g, mz), u, v, recs1[rec].mLead);
    LinkWider(recs0, recs1, recs2, rec, u);
  }

  lemma LinkWider(recs0: seq<Recursion>, recs1: seq<Recursion>, recs2: seq<Recursion>, rec: nat, u: nat)
    requires Wider(recs0, recs1) && Linked(recs1, recs2, rec, [u])
    ensures Wider(recs0, recs2) && u in recs2[rec].mRuleTables
    ensures Grown(recs0, recs1) ==> Grown(recs0, recs2)
    ensures Wider(recs1, recs2)
  {
    forall k | 0 <= k < |recs1|
      ensures WiderRec(recs1[k], recs2[k])
    {
      if k != rec { assert recs2[k] == recs1[k]; }
    }
    WiderTrans(recs0, recs1, recs2);
  }

  // -------- Termination of the passes: pairs of a recursion and a rule not in it

  ghost function MissingIn(n: nat, rec: Recursion): set<nat> {
    Below(n) - Elems(rec.mRuleTables)
  }

  ghost function Missing(n: nat, recs: seq<Recursion>): nat {
    if recs == [] then 0 else |MissingIn(n, recs[0])| + Missing(n, recs[1..])
  }

  lemma {:induction false} MissingMono(n: nat, a: seq<Recursion>, b: seq<Recursion>)
    requires Wider(a, b)
    ensures Missing(n, b) <= Missing(n, a)
    ensures forall k, r: nat :: 0 <= k < |a| && r < n && r !in a[k].mRuleTables && r in b[k].mRuleTables
              ==> Missing(n, b) < Missing(n, a)
  {
    if a != [] {
      forall k | 0 <= k < |a[1..]|
        ensures WiderRec(a[1..][k], b[1..][k])
      {
        assert WiderRec(a[k + 1], b[k + 1]);
      }
      MissingMono(n, a[1..], b[1..]);
      assert WiderRec(a[0], b[0]);
      SubsetCard(MissingIn(n, b[0]), MissingIn(n, a[0]));
      forall k, r: nat | 0 <= k < |a| && r < n && r !in a[k].mRuleTables && r in b[k].mRuleTables
        ensures Missing(n, b) < Missing(n, a)
      {
        if k == 0 {
          SubsetCard(MissingIn(n, b[0]), MissingIn(n, a[0]) - {r});
        } else {
          assert r !in a[1..][k - 1].mRuleTables && r in b[1..][k - 1].mRuleTables;
        }
      }
    }
  }

  lemma MissingShrinks(g: Rules, mz: seq<nat>, a: seq<Recursion>, b: seq<Recursion>)
    requires WellFormed(g) && Wider(a, b) && Grown(a, b)
    requires forall k :: 0 <= k < |b| ==> RecOK(g, mz, b[k])
    ensures Missing(|g|, b) < Missing(|g|, a)
  {
    MissingMono(|g|, a, b);
    var k, r :| 0 <= k < |a| && k < |b| && r !in a[k].mRuleTables && r in b[k].mRuleTables;
    assert r < |g|;
  }
}
