/** Recording a cycle: the route walked by the back edge, and what adding its rules to a recursion keeps. */
module RecCycles {
  import opened Graphs
  import opened Grammar
  import opened Recursions

  // `recs'` is `recs` with the rules `rs` added to recursion `rec`.
  ghost predicate Linked(recs: seq<Recursion>, recs': seq<Recursion>, rec: nat, rs: seq<nat>) {
    && |recs'| == |recs| && rec < |recs|
    && (forall k :: 0 <= k < |recs| && k != rec ==> recs'[k] == recs[k])
    && recs'[rec].mLead == recs[rec].mLead && recs'[rec].mPaths == recs[rec].mPaths
    && forall r :: r in recs'[rec].mRuleTables <==> r in recs[rec].mRuleTables || r in rs
  }

  lemma LinkedGrows(recs: seq<Recursion>, recs': seq<Recursion>, rec: nat, rs: seq<nat>)
    requires Linked(recs, recs', rec, rs)
    ensures GrowRecs(recs, recs') && DistinctLeads(recs) == DistinctLeads(recs')
    ensures forall u: nat :: IsLead(recs', u) ==> IsLead(recs, u)
    ensures forall r :: r in rs ==> InSomeRec(recs', r)
  {
    forall u: nat | InSomeRec(recs, u)
      ensures InSomeRec(recs', u)
    {
      var k :| 0 <= k < |recs| && u in recs[k].mRuleTables;
      assert u in recs'[k].mRuleTables;
    }
    forall u: nat | IsLead(recs, u)
      ensures IsLead(recs', u)
    {
      var k :| 0 <= k < |recs| && recs[k].mLead == u;
      assert recs'[k].mLead == u;
    }
    assert forall k :: 0 <= k < |recs| ==> recs'[k].mLead == recs[k].mLead;
  }

  lemma MapsAfterAdd(a: seq<Rule2Recursion>, b: seq<Rule2Recursion>, rule: nat, rec: nat, i: nat)
    requires i < |b| && b[i].mRule == rule && rec in b[i].mRecursions
    requires |a| <= |b| <= |a| + 1 && i < |a| + 1 && (|b| == |a| + 1 ==> i == |a|)
    requires forall j :: 0 <= j < |a| && j != i ==> a[j] == b[j]
    requires i < |a| ==> a[i].mRule == rule && forall k :: k in b[i].mRecursions <==> k in a[i].mRecursions || k == rec
    requires i == |a| ==> b[i].mRecursions == [rec]
    ensures forall r: nat, k: nat :: Maps(b, r, k) <==> Maps(a, r, k) || (r == rule && k == rec)
  {
    forall r: nat, k: nat
      ensures Maps(b, r, k) <==> Maps(a, r, k) || (r == rule && k == rec)
    {
      if Maps(a, r, k) {
        var j :| 0 <= j < |a| && a[j].mRule == r && k in a[j].mRecursions;
        assert b[j].mRule == r && k in b[j].mRecursions;
      }
      if r == rule && k == rec {
        assert b[i].mRule == r && k in b[i].mRecursions;
      }
    }
  }

  // Recursion `rec` is the one led by `rule`; it is new if `recs` had none.
  ghost predicate Opened(recs: seq<Recursion>, recs': seq<Recursion>, rec: nat, rule: nat) {
    && rec < |recs'| && recs'[rec].mLead == rule && recs <= recs'
    && (rec < |recs| ==> recs' == recs)
    && (rec >= |recs| ==> recs' == recs + [Recursion(rule, [], [])])
  }

  // The recursion of `lead`, a new one if there was none, has got the path and its rules; nothing else changed.
  ghost predicate CycleRecorded(recs: seq<Recursion>, recs': seq<Recursion>, lead: nat, path: seq<nat>, rules: seq<nat>) {
    exists rec: nat :: RecordedAt(recs, recs', rec, lead, path, rules)
  }

  ghost predicate RecordedAt(recs: seq<Recursion>, recs': seq<Recursion>, rec: nat, lead: nat, path: seq<nat>, rules: seq<nat>) {
    && rec < |recs'| == (if rec < |recs| then |recs| else |recs| + 1)
    && (forall k :: 0 <= k < |recs| && k != rec ==> recs'[k] == recs[k])
    && recs'[rec].mLead == lead && (rec < |recs| ==> recs[rec].mLead == lead)
    && recs'[rec].mPaths == (if rec < |recs| then recs[rec].mPaths else []) + [path]
    && forall r :: r in recs'[rec].mRuleTables <==> r in rules || (rec < |recs| && r in recs[rec].mRuleTables)
  }

  lemma RecordedLeads(recs: seq<Recursion>, recs': seq<Recursion>, lead: nat, path: seq<nat>, rules: seq<nat>, u: nat)
    requires CycleRecorded(recs, recs', lead, path, rules) && u in rules
    ensures LedBy(recs', lead, u)
  {
  }

  // Opening the recursion, adding the path, adding the rules.
  lemma RecordedInSteps(recs: seq<Recursion>, recs1: seq<Recursion>, recs2: seq<Recursion>, recs3: seq<Recursion>,
                        rec: nat, lead: nat, path: seq<nat>, nodeList: seq<nat>)
    requires Opened(recs, recs1, rec, lead) && Linked(recs2, recs3, rec, nodeList)
    requires recs2 == recs1[rec := recs1[rec].(mPaths := recs1[rec].mPaths + [path])]
    ensures CycleRecorded(recs, recs3, lead, path, nodeList)
  {
    assert RecordedAt(recs, recs3, rec, lead, path, nodeList);
  }

  // The rules of the cycle, listed upwards, are those in process from its lead on.
  lemma SameRules(recs: seq<Recursion>, recs': seq<Recursion>, lead: nat, path: seq<nat>, nodeList: seq<nat>, rules: seq<nat>)
    requires CycleRecorded(recs, recs', lead, path, nodeList) && |nodeList| == |rules| > 0 && rules[0] == lead
    requires forall i :: 0 <= i < |nodeList| ==> nodeList[i] == (rules + [lead])[|nodeList| - i]
    ensures CycleRecorded(recs, recs', lead, path, rules)
  {
    var n := |rules|;
    assert nodeList[0] == lead;
    forall i | 0 <= i < n
      ensures rules[i] in nodeList && nodeList[i] in rules
    {
      if i > 0 { assert nodeList[n - i] == rules[i] && nodeList[i] == rules[n - i]; }
    }
    assert forall r :: r in nodeList <==> r in rules;
    var rec: nat :| RecordedAt(recs, recs', rec, lead, path, nodeList);
    assert RecordedAt(recs, recs', rec, lead, path, rules);
  }

  lemma SameTablesSynced(recs: seq<Recursion>, recs': seq<Recursion>, r2r: seq<Rule2Recursion>)
    requires Synced(recs, r2r) && |recs| == |recs'|
    requires forall k :: 0 <= k < |recs| ==> recs'[k].mRuleTables == recs[k].mRuleTables
    ensures Synced(recs', r2r)
  {
  }

  lemma SameTablesGrow(recs: seq<Recursion>, recs': seq<Recursion>)
    requires |recs| == |recs'|
    requires forall k :: 0 <= k < |recs| ==>
               recs'[k].mRuleTables == recs[k].mRuleTables && recs'[k].mLead == recs[k].mLead
    ensures GrowRecs(recs, recs') && DistinctLeads(recs) == DistinctLeads(recs')
    ensures forall u: nat :: IsLead(recs', u) ==> IsLead(recs, u)
  {
    forall u: nat | InSomeRec(recs, u)
      ensures InSomeRec(recs', u)
    {
      var k :| 0 <= k < |recs| && u in recs[k].mRuleTables;
      assert u in recs'[k].mRuleTables;
    }
    forall u: nat | IsLead(recs, u)
      ensures IsLead(recs', u)
    {
      var k :| 0 <= k < |recs| && recs[k].mLead == u;
      assert recs'[k].mLead == u;
    }
  }

  lemma GrowTrans(a: seq<Recursion>, b: seq<Recursion>, c: seq<Recursion>)
    requires GrowRecs(a, b) && GrowRecs(b, c)
    ensures GrowRecs(a, c)
  {
  }

  lemma OpenedKeeps(g: Rules, mz: seq<nat>, recs: seq<Recursion>, recs': seq<Recursion>, rec: nat, rule: nat)
    requires WellFormed(g) && Opened(recs, recs', rec, rule) && rule < |g| && OnCycle(LeftGraph(g, mz), rule)
    requires forall k :: 0 <= k < |recs| ==> RecOK(g, mz, recs[k]) && recs[k].mLead in recs[k].mRuleTables
    ensures forall k :: 0 <= k < |recs'| ==> RecOK(g, mz, recs'[k])
    ensures forall k :: 0 <= k < |recs'| && k != rec ==> recs'[k].mLead in recs'[k].mRuleTables
    ensures GrowRecs(recs, recs')
    ensures forall u: nat :: IsLead(recs', u) ==> IsLead(recs, u) || u == rule
  {
    assert forall k :: 0 <= k < |recs| ==> recs'[k] == recs[k];
    if rec >= |recs| { assert recs'[rec] == Recursion(rule, [], []); }
  }

  lemma CycleAdded(g: Rules, mz: seq<nat>, recs: seq<Recursion>, recs1: seq<Recursion>, recs2: seq<Recursion>,
                   rec: nat, path: seq<nat>, nodeList: seq<nat>)
    requires WellFormed(g) && rec < |recs| && recs[rec].mLead in nodeList
    requires DistinctLeads(recs)
    requires forall k :: 0 <= k < |recs| ==> RecOK(g, mz, recs[k])
    requires forall k :: 0 <= k < |recs| && k != rec ==> recs[k].mLead in recs[k].mRuleTables
    requires recs1 == recs[rec := recs[rec].(mPaths := recs[rec].mPaths + [path])]
    requires SimpleCycle(g, mz, recs[rec].mLead, path)
    requires forall r :: r in nodeList ==> r < |g| && Mutual(LeftGraph(g, mz), recs[rec].mLead, r)
    requires Linked(recs1, recs2, rec, nodeList)
    ensures DistinctLeads(recs2) && GrowRecs(recs, recs2) && IsLead(recs2, recs[rec].mLead)
    ensures forall u: nat :: IsLead(recs2, u) ==> IsLead(recs, u)
    ensures forall k :: 0 <= k < |recs2| ==> RecOK(g, mz, recs2[k]) && recs2[k].mLead in recs2[k].mRuleTables
    ensures forall r :: r in nodeList ==> InSomeRec(recs2, r)
  {
    SameTablesGrow(recs, recs1);
    LinkedGrows(recs1, recs2, rec, nodeList);
    assert RecOK(g, mz, recs2[rec]) by {
      assert recs2[rec].mPaths == recs[rec].mPaths + [path];
    }
  }

  // Consecutive rules on the path from the target, closed by the back edge, are left edges.
  lemma RouteSteps(g: Rules, mz: seq<nat>, path: seq<nat>, m: nat, rt: nat)
    requires WellFormed(g) && m < |path| && IsPath(LeftGraph(g, mz), path)
    requires LeftChild(g, mz, path[|path| - 1], rt)
    ensures forall i :: 0 <= i < |path| - m ==> LeftChild(g, mz, (path[m..] + [rt])[i], (path[m..] + [rt])[i + 1])
  {
    var rs := path[m..] + [rt];
    forall i | 0 <= i < |path| - m
      ensures LeftChild(g, mz, rs[i], rs[i + 1])
    {
      if m + i < |path| - 1 {
        assert Step(LeftGraph(g, mz), path[m + i], path[m + i + 1]);
      }
    }
  }

  lemma FirstIndexIsLeft(g: Rules, mz: seq<nat>, u: nat, k: nat, v: nat)
    requires WellFormed(g) && LeftChild(g, mz, u, v)
    requires k < |g[u].mData| && g[u].mData[k] == Subtable(v) && Subtable(v) !in g[u].mData[..k]
    ensures FirstLeft(g, mz, u, k, v)
  {
    var j :| 0 <= j < |g[u].mData| && LeftIndex(g, mz, u, j) && g[u].mData[j] == Subtable(v);
    assert forall i :: 0 <= i < k ==> g[u].mData[i] == g[u].mData[..k][i];
  }

  // All rules of a closed route are mutually reachable with its start.
  lemma RouteIsMutual(g: Rules, mz: seq<nat>, rs: seq<nat>)
    requires WellFormed(g) && |rs| > 1 && rs[0] == rs[|rs| - 1]
    requires forall i :: 0 <= i < |rs| - 1 ==> LeftChild(g, mz, rs[i], rs[i + 1])
    ensures OnCycle(LeftGraph(g, mz), rs[0])
    ensures forall r :: r in rs ==> r < |g| && Mutual(LeftGraph(g, mz), rs[0], r)
  {
    var h := LeftGraph(g, mz);
    assert forall i :: 0 <= i < |rs| - 1 ==> Step(h, rs[i], rs[i + 1]);
    assert IsPath(h, rs);
    forall r | r in rs
      ensures r < |g| && Mutual(h, rs[0], r)
    {
      var i :| 0 <= i < |rs| && rs[i] == r;
      PathReach(h, rs, 0, i);
      PathReach(h, rs, i, |rs| - 1);
      assert if i == 0 then Step(h, rs[0], rs[1]) else Step(h, rs[i - 1], rs[i]);
    }
    PathReach(h, rs, 1, |rs| - 1);
    assert Step(h, rs[0], rs[1]);
  }

  lemma ClosedRoute(g: Rules, mz: seq<nat>, stack: seq<nat>, m: nat, rt: nat, nodeList: seq<nat>, path: seq<nat>)
    requires WellFormed(g) && m < |stack| && stack[m] == rt && NoDup(stack)
    requires IsRoute(g, mz, stack[m..] + [rt], path)
    requires |nodeList| == |stack| - m
    requires forall i :: 0 <= i < |nodeList| ==> nodeList[i] == (stack[m..] + [rt])[|nodeList| - i]
    requires forall i :: 0 <= i < |stack| - m ==> LeftChild(g, mz, (stack[m..] + [rt])[i], (stack[m..] + [rt])[i + 1])
    ensures SimpleCycle(g, mz, rt, path) && OnCycle(LeftGraph(g, mz), rt)
    ensures rt < |g| && rt in nodeList && stack[|stack| - 1] in nodeList
    ensures forall r :: r in nodeList ==> r < |g| && Mutual(LeftGraph(g, mz), rt, r)
  {
    var rs := stack[m..] + [rt];
    assert rs[..|path|] == stack[m..];
    RouteIsMutual(g, mz, rs);
    assert forall i :: 0 <= i < |nodeList| ==> nodeList[i] in rs;
    assert nodeList[0] == rt;
    assert nodeList[if |nodeList| == 1 then 0 else 1] == stack[|stack| - 1];
  }
}
