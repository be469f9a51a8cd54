/** What the first phase has established when ToDo is empty, and what follows from it after the back patch. */
module RecTheorems {
  import opened Graphs
  import opened Grammar
  import opened Recursions
  import opened RecPatch
  import opened RecGroups

  lemma StartInv(g: Rules, tops: seq<nat>)
    requires WellFormed(g) && forall t :: t in tops ==> t < |g|
    ensures Inv(g, tops, State([], [], [], tops, [], [], [], []))
  {
    forall t | t in tops
      ensures Reached(g, tops, t)
    {
      ReachRefl(ChildGraph(g), t);
    }
  }

  lemma PopTodo(g: Rules, tops: seq<nat>, s: State)
    requires WellFormed(g) && Inv(g, tops, s) && s.todo != []
    ensures s.todo[0] < |g| && Reached(g, tops, s.todo[0])
    ensures s.taken == [] ==> Inv(g, tops, s.(todo := s.todo[1..], taken := [s.todo[0]]))
  {
    var s' := s.(todo := s.todo[1..], taken := [s.todo[0]]);
    assert Known(s, s.todo[0]);
    if s.taken == [] {
      forall x: nat
        ensures Known(s, x) <==> Known(s', x)
      {
        assert s.todo == [s.todo[0]] + s.todo[1..];
      }
      EvidenceMono(g, s, s');
    }
  }

  // A rule walked with nothing in process ends up done.
  lemma ChildDone(g: Rules, tops: seq<nat>, s: State, s': State, rt: nat, res: TResult)
    requires WellFormed(g) && Inv(g, tops, s') && ChildResult(s, s', rt, res) && s.inProcess == []
    ensures rt in s'.done
  {
  }

  // The rule taken off ToDo is done after its walk.
  lemma PutBack(g: Rules, tops: seq<nat>, s0: State, s1: State, s2: State)
    requires WellFormed(g) && s0.todo != [] && s0.taken == []
    requires s1 == s0.(todo := s0.todo[1..], taken := [s0.todo[0]])
    requires Inv(g, tops, s2) && Extends(s1, s2) && s0.todo[0] in s2.done
    ensures Inv(g, tops, s2.(taken := []))
    ensures forall x: nat :: Known(s0, x) ==> Known(s2.(taken := []), x)
    ensures s2.inProcess == s0.inProcess
    ensures |s0.done| < |s2.done| || (s2.done == s0.done && s0.todo[0] in s0.done)
  {
    var s' := s2.(taken := []);
    assert s2.taken == [s0.todo[0]];
    assert forall x: nat :: Known(s2, x) <==> Known(s', x);
    EvidenceMono(g, s2, s');
    forall x: nat | Known(s0, x)
      ensures Known(s', x)
    {
      assert s0.todo == [s0.todo[0]] + s0.todo[1..];
    }
  }

  lemma DoneCovered(g: Rules, tops: seq<nat>, s: State)
    requires WellFormed(g) && Inv(g, tops, s)
    ensures forall x :: x in s.done ==> Covered(g, s, x) && Reached(g, tops, x)
  {
    hide RecsInv, Settled, Failed, Nullable;
    assert forall x :: x in s.done ==> Known(s, x);
  }

  // With nothing left to do, exactly the rules reachable from the top rules are done.
  lemma AllDone(g: Rules, tops: seq<nat>, s: State)
    requires WellFormed(g) && s.todo == [] && s.inProcess == [] && s.taken == []
    requires forall x :: x in s.done ==> Covered(g, s, x) && Reached(g, tops, x)
    requires forall t :: t in tops ==> t in s.done
    ensures forall x: nat :: x in s.done <==> Reached(g, tops, x)
  {
    var done := Elems(s.done);
    forall a: nat, b: nat | a in done && Step(ChildGraph(g), a, b)
      ensures b in done
    {
      assert Covered(g, s, a);
      assert Known(s, b);
    }
    forall x: nat | Reached(g, tops, x)
      ensures x in s.done
    {
      var t :| t in tops && Reach(ChildGraph(g), t, x);
      ClosedKeepsReach(ChildGraph(g), done, t, x);
    }
  }

  // The vertex to push is new, so InProcess and Done do not hold all rules yet.
  lemma RoomLeft(g: Rules, tops: seq<nat>, s: State, u: nat)
    requires WellFormed(g) && Inv(g, tops, s) && u < |g| && u !in s.done && u !in s.inProcess
    ensures |s.inProcess| + |s.done| < |g|
  {
    var a := s.inProcess + s.done;
    assert forall x :: x in a ==> Known(s, x);
    NoDupBoundStrict(a, |g|, u);
  }

  // Element `i` of the rule on top of InProcess is reached from the top rules, and a left edge
  // leads to it.
  lemma ElementReached(g: Rules, tops: seq<nat>, s: State, u: nat, i: nat)
    requires WellFormed(g) && Inv(g, tops, s) && u in s.inProcess && u < |g|
    requires i < |g[u].mData| && g[u].mData[i].Subtable?
    requires g[u].mType.Concatenate? ==> ConcatSoFar(g, s, u, i)
    ensures g[u].mData[i].entry < |g| && Reached(g, tops, g[u].mData[i].entry)
    ensures LeftChild(g, s.mz, u, g[u].mData[i].entry)
  {
    assert Known(s, u);
    assert g[u].mData[i] == Subtable(g[u].mData[i].entry);
    ReachedChild(g, tops, u, g[u].mData[i].entry);
    assert LeftIndex(g, s.mz, u, i);
  }

  // -------- The recursions are exactly the left-recursive rules

  // A settled rule that is in no recursion leads, by left edges, only to rules done before it.
  lemma EdgesGoBack(g: Rules, s: State, j: nat, v: nat)
    requires WellFormed(g) && Classified(s) && Evidence(g, s) && j < |s.done|
    requires !InSomeRec(s.recs, s.done[j]) && Step(LeftGraph(g, s.mz), s.done[j], v)
    ensures v in s.done[..j]
  {
    var u := s.done[j];
    assert Settled(g, s.done[..j], s.fail, s.recs, u);
    var k :| 0 <= k < |g[u].mData| && LeftIndex(g, s.mz, u, k) && g[u].mData[k] == Subtable(v);
    if !WalkedAll(g, s.done[..j], u) {
      var stop :| 0 <= stop < |g[u].mData| && StopsAt(g[u].mData, s.done[..j], s.fail, stop);
      assert k <= stop;
    }
  }

  // Every left-edge cycle through a done rule meets a recursion.
  lemma {:induction false} CycleMeetsRecursion(g: Rules, s: State, u: nat, j: nat)
    requires WellFormed(g) && Classified(s) && Evidence(g, s) && j < |s.done|
    requires OnCycle(LeftGraph(g, s.mz), u) && Mutual(LeftGraph(g, s.mz), u, s.done[j])
    ensures exists z :: InSomeRec(s.recs, z) && Mutual(LeftGraph(g, s.mz), u, z)
    decreases j
  {
    var h := LeftGraph(g, s.mz);
    var w := s.done[j];
    if !InSomeRec(s.recs, w) {
      CycleReach(h, u, w);
      var v :| Step(h, w, v) && Reach(h, v, w);
      EdgesGoBack(g, s, j, v);
      var i :| 0 <= i < j && s.done[i] == v;
      ReachStep(h, w, v);
      MutualTrans(h, u, w, v);
      CycleMeetsRecursion(g, s, u, i);
    }
  }

  lemma ReachedLeft(g: Rules, tops: seq<nat>, mz: seq<nat>, u: nat, v: nat)
    requires WellFormed(g) && Reached(g, tops, u) && (u == v || Reach(LeftGraph(g, mz), u, v))
    requires forall t :: t in tops ==> t < |g|
    ensures Reached(g, tops, v) && v < |g|
  {
    var t :| t in tops && Reach(ChildGraph(g), t, u);
    if u != v { LeftInChild(g, mz, u, v); } else { ReachRefl(ChildGraph(g), u); }
    ReachTrans(ChildGraph(g), t, u, v);
    assert forall a: nat, b: nat :: a in Below(|g|) && Step(ChildGraph(g), a, b) ==> WellFormedRule(|g|, g[a]) && b in Below(|g|);
    ClosedKeepsReach(ChildGraph(g), Below(|g|), t, v);
  }

  // On a left-edge cycle the back patch carries recursions to every rule.
  lemma PatchReachesCycle(g: Rules, tops: seq<nat>, mz: seq<nat>, recs: seq<Recursion>, u: nat, z: nat)
    requires WellFormed(g) && forall t :: t in tops ==> t < |g|
    requires forall k :: 0 <= k < |recs| ==> RecOK(g, mz, recs[k])
    requires forall x: nat :: Reached(g, tops, x) ==> AllPatched(g, mz, recs, x)
    requires Reached(g, tops, u) && Mutual(LeftGraph(g, mz), u, z) && InSomeRec(recs, z)
    ensures InSomeRec(recs, u)
  {
    var h := LeftGraph(g, mz);
    if !InSomeRec(recs, u) {
      var out := set x | x in Below(|g|) && !InSomeRec(recs, x);
      ReachedLeft(g, tops, mz, u, u);
      var a, b := LeavingEdge(h, out, u, z);
      ReachTrans(h, u, a, b) by { ReachStep(h, a, b); }
      assert InSomeRec(recs, b);
      ReachedLeft(g, tops, mz, u, a);
      assert Subtable(b) in g[a].mData;
      assert Patched(g, mz, recs, a, b);
      assert !Share(recs, a, b);
      var k :| 0 <= k < |recs| && b in recs[k].mRuleTables;
      assert RecOK(g, mz, recs[k]);
      // lead -> b -> z -> u -> a -> b
      ReachTrans(h, recs[k].mLead, b, z);
      ReachTrans(h, recs[k].mLead, z, u);
      ReachTrans(h, recs[k].mLead, u, a);
      ReachStep(h, a, b);
      assert false;
    }
  }

  lemma RecursionsAreCycles(g: Rules, tops: seq<nat>, s: State, recs: seq<Recursion>, r2r: seq<Rule2Recursion>)
    requires WellFormed(g) && Inv(g, tops, s) && forall t :: t in tops ==> t < |g|
    requires forall x: nat :: x in s.done <==> Reached(g, tops, x)
    requires RecsInv(g, s.mz, recs, r2r) && Wider(s.recs, recs)
    requires forall x: nat :: Reached(g, tops, x) ==> AllPatched(g, s.mz, recs, x)
    ensures forall u: nat :: InSomeRec(recs, u) <==> Reached(g, tops, u) && OnCycle(LeftGraph(g, s.mz), u)
  {
    var h := LeftGraph(g, s.mz);
    InvParts(g, tops, s);
    forall u: nat | InSomeRec(recs, u)
      ensures Reached(g, tops, u) && OnCycle(h, u)
    {
      var k :| 0 <= k < |recs| && u in recs[k].mRuleTables;
      assert RecOK(g, s.mz, recs[k]) && WiderRec(s.recs[k], recs[k]);
      CycleReach(h, recs[k].mLead, u);
      assert IsLead(s.recs, recs[k].mLead);
      ReachedLeft(g, tops, s.mz, recs[k].mLead, u);
    }
    forall u: nat | Reached(g, tops, u) && OnCycle(h, u)
      ensures InSomeRec(recs, u)
    {
      var j :| 0 <= j < |s.done| && s.done[j] == u;
      ReachRefl(h, u);
      CycleMeetsRecursion(g, s, u, j);
      var z :| InSomeRec(s.recs, z) && Mutual(h, u, z);
      var k :| 0 <= k < |s.recs| && z in s.recs[k].mRuleTables;
      assert WiderRec(s.recs[k], recs[k]);
      PatchReachesCycle(g, tops, s.mz, recs, u, z);
    }
  }

  // A rule with a right-hand side of MaybeZero rules has no reason to fail.
  lemma NotFailed(g: Rules, s: State, u: nat, ds: seq<TableData>)
    requires WellFormed(g) && Classified(s) && u < |g| && Expands(g[u], ds)
    requires forall x: nat :: IsLead(s.recs, x) ==> x !in s.mz
    requires forall d :: d in ds && d in g[u].mData ==> d.Subtable? && d.entry in s.mz
    ensures !Failed(g, s.fail, s.recs, u)
  {
    forall d | d in ds && d in g[u].mData
      ensures !Blocks(s.fail, s.recs, u, d)
    {
    }
    assert WellFormedRule(|g|, g[u]);
    if g[u].mType.Oneof? || g[u].mType.Data? {
      assert ds[0] in ds && ds[0] in g[u].mData;
    }
  }

  // -------- When the classification is exact

  // If a nullable rule was classified as Fail, some lead was classified as MaybeZero: only the
  // answer given for a back edge can be wrong.
  lemma {:induction false} FailIsNotNullable(g: Rules, s: State, t: Tree)
    requires WellFormed(g) && Classified(s) && Evidence(g, s)
    requires forall x :: x in s.done ==> forall d :: d in g[x].mData && d.Subtable? ==> d.entry in s.done
    requires forall x :: x in s.done ==> x < |g|
    requires forall x: nat :: IsLead(s.recs, x) ==> x in s.done && x !in s.mz
    requires Derivation(g, t) && Yield(t) == [] && t.Node? && t.rule in s.done
    ensures t.rule in s.mz
    decreases t
  {
    var u := t.rule;
    EmptyYields(t.kids);
    forall k | k in t.kids && Root(k) in g[u].mData
      ensures Root(k).Subtable? && Root(k).entry in s.mz
    {
      assert Yield(k) == [];
      FailIsNotNullable(g, s, k);
    }
    forall k | k in t.kids
      ensures Root(k).Subtable?
    {
      assert Yield(k) == [];
    }
    assert forall i :: 0 <= i < |t.kids| ==> t.kids[i] in t.kids;
    NotFailed(g, s, u, Roots(t.kids));
  }

  lemma DoneInRange(g: Rules, tops: seq<nat>, s: State)
    requires WellFormed(g) && Inv(g, tops, s) && forall x: nat :: x in s.done <==> Reached(g, tops, x)
    ensures forall x :: x in s.done ==> x < |g|
    ensures forall x: nat :: IsLead(s.recs, x) ==> x in s.done
  {
    assert forall x :: x in s.done ==> Known(s, x);
  }

  lemma NullableIsExact(g: Rules, s: State, recs: seq<Recursion>)
    requires WellFormed(g) && Classified(s) && Evidence(g, s) && s.inProcess == [] && s.todo == [] && s.taken == []
    requires forall x :: x in s.done ==> x < |g|
    requires forall x: nat :: IsLead(s.recs, x) ==> x in s.done
    requires Wider(s.recs, recs)
    ensures (forall k :: 0 <= k < |recs| ==> recs[k].mLead !in s.mz) ==> forall u :: u in s.fail ==> !Nullable(g, u)
  {
    if forall k :: 0 <= k < |recs| ==> recs[k].mLead !in s.mz {
      forall u | u in s.fail
        ensures !Nullable(g, u)
      {
        assert forall k :: 0 <= k < |recs| ==> WiderRec(s.recs[k], recs[k]);
        assert forall x :: x in s.done ==> Covered(g, s, x);
        if Nullable(g, u) {
          var t :| Derivation(g, t) && Root(t) == Subtable(u) && Yield(t) == [];
          FailIsNotNullable(g, s, t);
          assert false;
        }
      }
    }
  }
}
