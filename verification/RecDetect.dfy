/** The left-recursion detector: a depth-first walk over the rule tables, a change-driven back
    patch, and the grouping of recursions. */
module RecDetect {
  import opened Options
  import opened Graphs
  import opened ContTrees
  import opened Grammar
  import opened Recursions
  import opened RecCycles
  import opened RecPatch
  import opened RecGroups
  import opened RecTheorems
  import opened RecExact
  import opened RecWalk
  import opened RecEdges

  // Index of the first element of `parent` that is the rule `child`.
  method RuleFindChildIndex(parent: RuleTable, child: nat) returns (found: bool, index: nat)
    ensures found <==> Subtable(child) in parent.mData
    ensures found ==> index < |parent.mData| && parent.mData[index] == Subtable(child)
    ensures found ==> Subtable(child) !in parent.mData[..index]
  {
    found, index := false, 0;
    while index < |parent.mData|
      invariant index <= |parent.mData| && !found
      invariant Subtable(child) !in parent.mData[..index]
    {
      if parent.mData[index] == Subtable(child) {
        return true, index;
      }
      index := index + 1;
    }
  }

  class RecDetector {
    const gRules: Rules
    const gTopRules: seq<nat>

    var mRecursions: seq<Recursion>
    var mInProcess: seq<nat>
    var mDone: seq<nat>
    var mToDo: seq<nat>
    var mMaybeZero: seq<nat>
    var mFail: seq<nat>
    var mTree: seq<TreeNode>
    var mChanged: bool
    var mRule2Recursions: seq<Rule2Recursion>
    var mRecursionGroups: seq<seq<nat>>
    var mRule2Group: seq<(nat, nat)>

    ghost var mTaken: seq<nat>  // the rule just taken off ToDo
    ghost var mEdges: seq<Edge>  // the elements that were in process when they were looked into

    ghost predicate Valid() {
      WellFormed(gRules) && forall t :: t in gTopRules ==> t < |gRules|
    }

    ghost function View(): State
      reads this
    {
      State(mTaken, mInProcess, mDone, mToDo, mMaybeZero, mFail, mRecursions, mRule2Recursions)
    }

    // What the walk works on.
    ghost function Now(): Walk
      reads this
    {
      Walk(mInProcess, mDone, mToDo, mMaybeZero, mFail, mEdges)
    }

    ghost predicate RecsValid()
      requires Valid()
      reads this
    {
      RecsInv(gRules, mMaybeZero, mRecursions, mRule2Recursions)
    }

    constructor (rules: Rules, tops: seq<nat>)
      requires WellFormed(rules) && forall t :: t in tops ==> t < |rules|
      ensures Valid() && gRules == rules && gTopRules == tops
      ensures View() == State([], [], [], [], [], [], [], []) && mRecursionGroups == [] && mRule2Group == [] && mTree == [] && mEdges == []
    {
      gRules, gTopRules := rules, tops;
      mRecursions, mRule2Recursions, mRecursionGroups, mRule2Group := [], [], [], [];
      mInProcess, mDone, mToDo, mMaybeZero, mFail, mTree := [], [], [], [], [], [];
      mChanged := false;
      mTaken, mEdges := [], [];
    }

    // -------- Bookkeeping

    method AddToDo(rule: nat)
      modifies this`mToDo
      ensures mToDo == if rule in mInProcess || rule in mDone || rule in old(mToDo)
                       then old(mToDo) else old(mToDo) + [rule]
      ensures Now() == ToDoAdded(old(Now()), rule)
    {
      if rule !in mInProcess && rule !in mDone && rule !in mToDo {
        mToDo := mToDo + [rule];
      }
    }

    // Add all child rules into ToDo, starting from index `start`.
    method AddToDoFrom(rule: nat, start: nat)
      requires Valid() && rule < |gRules| && start <= |gRules[rule].mData|
      modifies this`mToDo
      ensures old(mToDo) <= mToDo
      ensures forall x :: x in mToDo ==> x in old(mToDo) || Subtable(x) in gRules[rule].mData
      ensures forall i :: start <= i < |gRules[rule].mData| && gRules[rule].mData[i].Subtable?
                          ==> Known(View(), gRules[rule].mData[i].entry)
      ensures Now() == RestToDo(gRules, old(Now()), rule, start)
    {
      hide WellFormed;
      var ds := gRules[rule].mData;
      for i := start to |ds|
        invariant old(mToDo) <= mToDo
        invariant forall x :: x in mToDo ==> x in old(mToDo) || Subtable(x) in ds
        invariant forall j :: start <= j < i && ds[j].Subtable? ==> Known(View(), ds[j].entry)
        invariant RestToDo(gRules, Now(), rule, i) == RestToDo(gRules, old(Now()), rule, start)
      {
        EntryFits(gRules, rule, i);
        if ds[i].Subtable? {
          AddToDo(ds[i].entry);
        }
      }
    }

    method FindRule2Recursion(rule: nat) returns (r: Option<nat>)
      ensures r.Some? ==> r.value < |mRule2Recursions| && mRule2Recursions[r.value].mRule == rule
      ensures r.None? ==> forall i :: 0 <= i < |mRule2Recursions| ==> mRule2Recursions[i].mRule != rule
    {
      for i := 0 to |mRule2Recursions|
        invariant forall j :: 0 <= j < i ==> mRule2Recursions[j].mRule != rule
      {
        if mRule2Recursions[i].mRule == rule {
          return Some(i);
        }
      }
      return None;
    }

    // Add recursion `rec` to the Rule2Recursion of `rule`, and `rule` to the rule tables of `rec`.
    method AddRule2Recursion(rule: nat, rec: nat)
      requires Synced(mRecursions, mRule2Recursions) && rec < |mRecursions|
      modifies this`mRule2Recursions, this`mRecursions
      ensures Synced(mRecursions, mRule2Recursions)
      ensures Linked(old(mRecursions), mRecursions, rec, [rule])
      ensures |old(mRule2Recursions)| <= |mRule2Recursions|
      ensures forall i :: 0 <= i < |old(mRule2Recursions)| ==> mRule2Recursions[i].mRule == old(mRule2Recursions)[i].mRule
    {
      ghost var r2r0, recs0 := mRule2Recursions, mRecursions;
      var map0 := FindRule2Recursion(rule);
      if map0.None? {
        mRule2Recursions := mRule2Recursions + [Rule2Recursion(rule, [])];
        map0 := Some(|mRule2Recursions| - 1);
      }
      var m := mRule2Recursions[map0.value];
      if rec !in m.mRecursions {
        mRule2Recursions := mRule2Recursions[map0.value := m.(mRecursions := m.mRecursions + [rec])];
      }
      if rule !in mRecursions[rec].mRuleTables {
        mRecursions := mRecursions[rec := mRecursions[rec].(mRuleTables := mRecursions[rec].mRuleTables + [rule])];
      }
      MapsAfterAdd(r2r0, mRule2Recursions, rule, rec, map0.value);
    }

    // Find the recursion led by `rule`, or create one.
    method FindOrCreateRecursion(rule: nat) returns (rec: nat)
      requires DistinctLeads(mRecursions) && Synced(mRecursions, mRule2Recursions)
      modifies this`mRecursions
      ensures Opened(old(mRecursions), mRecursions, rec, rule)
      ensures DistinctLeads(mRecursions) && Synced(mRecursions, mRule2Recursions)
    {
      for i := 0 to |mRecursions|
        invariant forall j :: 0 <= j < i ==> mRecursions[j].mLead != rule
      {
        if mRecursions[i].mLead == rule {
          return i;
        }
      }
      mRecursions := mRecursions + [Recursion(rule, [], [])];
      return |mRecursions| - 1;
    }

    // Traverse upwards from `p` to the node of `rt`. The result lists the back edge's target, then
    // the rules met on the way, the lowest first.
    method CollectNodes(rt: nat, p: Option<nat>) returns (nodeList: seq<nat>)
      requires TreeOK(mTree)
      requires p.Some? && p.value < |mTree| && Chain(mTree, p) == mInProcess
      requires rt in mInProcess
      ensures 0 < |nodeList| <= |mInProcess| && mInProcess[|mInProcess| - |nodeList|] == rt
      ensures forall i :: 0 <= i < |nodeList| ==>
                nodeList[i] == (mInProcess[|mInProcess| - |nodeList|..] + [rt])[|nodeList| - i]
    {
      ghost var n := |mInProcess|;
      var node := p;
      nodeList := [rt];
      while mTree[node.value].data != rt
        invariant node.Some? && node.value < |mTree| && 0 < n <= |mInProcess|
        invariant Chain(mTree, node) == mInProcess[..n] && rt in mInProcess[..n]
        invariant |nodeList| == 1 + |mInProcess| - n && nodeList[0] == rt
        invariant forall i :: 1 <= i < |nodeList| ==> nodeList[i] == mInProcess[|mInProcess| - i]
        decreases n
      {
        nodeList := nodeList + [mTree[node.value].data];
        assert mInProcess[..n] == mInProcess[..n - 1] + [mInProcess[n - 1]];
        node := mTree[node.value].parent;
        n := n - 1;
      }
    }

    // There is a back edge from the rule of node `p` to `rt`, which is on the current path.
    method AddRecursion(rt: nat, p: Option<nat>)
      requires Valid() && RecsValid() && TreeOK(mTree)
      requires p.Some? && p.value < |mTree| && Chain(mTree, p) == mInProcess
      requires rt in mInProcess && NoDup(mInProcess)
      requires IsPath(LeftGraph(gRules, mMaybeZero), mInProcess)
      requires LeftChild(gRules, mMaybeZero, mInProcess[|mInProcess| - 1], rt)
      modifies this`mRecursions, this`mRule2Recursions
      ensures RecsValid() && GrowRecs(old(mRecursions), mRecursions)
      ensures LedBy(mRecursions, rt, mInProcess[|mInProcess| - 1])
      ensures forall u: nat :: IsLead(mRecursions, u) ==> IsLead(old(mRecursions), u) || u == rt
      ensures PathAdded(gRules, mMaybeZero, mInProcess, old(mRecursions), mRecursions, rt)
    {
      hide CycleRecorded, LedBy, Synced, RecOK;
      var nodeList := CollectNodes(rt, p);
      ghost var m := |mInProcess| - |nodeList|;
      ghost var rs := mInProcess[m..] + [rt];
      RouteSteps(gRules, mMaybeZero, mInProcess, m, rt);
      var path := RecordPath(rt, nodeList, rs);
      ClosedRoute(gRules, mMaybeZero, mInProcess, m, rt, nodeList, path);
      AddCycle(rt, path, nodeList);
      SameRules(old(mRecursions), mRecursions, rt, path, nodeList, mInProcess[m..]);
      assert mInProcess[m..][|mInProcess| - 1 - m] == mInProcess[|mInProcess| - 1];
      RecordedLeads(old(mRecursions), mRecursions, rt, path, mInProcess[m..], mInProcess[|mInProcess| - 1]);
    }

    // The positions of the rules of `nodeList`, read in reverse order, in their parent rules.
    method RecordPath(rt: nat, nodeList: seq<nat>, ghost rs: seq<nat>) returns (path: seq<nat>)
      requires Valid() && |rs| == |nodeList| + 1 && rs[0] == rt
      requires forall i :: 0 <= i < |nodeList| ==> nodeList[i] == rs[|nodeList| - i]
      requires forall i :: 0 <= i < |rs| - 1 ==> LeftChild(gRules, mMaybeZero, rs[i], rs[i + 1])
      ensures IsRoute(gRules, mMaybeZero, rs, path)
    {
      path := [];
      var parentRule := rt;
      var i := |nodeList|;
      while i > 0
        invariant 0 <= i <= |nodeList|
        invariant parentRule == rs[|nodeList| - i] && |path| == |nodeList| - i
        invariant forall j :: 0 <= j < |path| ==> FirstLeft(gRules, mMaybeZero, rs[j], path[j], rs[j + 1])
      {
        i := i - 1;
        var childRule := nodeList[i];
        ghost var j := |path|;
        assert LeftChild(gRules, mMaybeZero, rs[j], rs[j + 1]);
        var found, index := RuleFindChildIndex(gRules[parentRule], childRule);
        FirstIndexIsLeft(gRules, mMaybeZero, rs[j], index, rs[j + 1]);
        path := path + [index];
        parentRule := childRule;
      }
    }

    // Record the cycle `path` of `rt`, whose rules are `nodeList`.
    method AddCycle(rt: nat, path: seq<nat>, nodeList: seq<nat>)
      requires Valid() && RecsValid() && rt < |gRules| && rt in nodeList
      requires SimpleCycle(gRules, mMaybeZero, rt, path) && OnCycle(LeftGraph(gRules, mMaybeZero), rt)
      requires forall r :: r in nodeList ==> r < |gRules| && Mutual(LeftGraph(gRules, mMaybeZero), rt, r)
      modifies this`mRecursions, this`mRule2Recursions
      ensures RecsValid() && GrowRecs(old(mRecursions), mRecursions) && IsLead(mRecursions, rt)
      ensures forall u: nat :: IsLead(mRecursions, u) ==> IsLead(old(mRecursions), u) || u == rt
      ensures forall r :: r in nodeList ==> InSomeRec(mRecursions, r)
      ensures CycleRecorded(old(mRecursions), mRecursions, rt, path, nodeList)
    {
      hide RecOK, Mutual, WellFormed, Opened, Maps, LedBy, InSomeRec, Synced, SimpleCycle, OnCycle, Reach, LeftGraph,
           GrowRecs, IsLead, CycleRecorded;
      ghost var recs0 := mRecursions;
      var rec := FindOrCreateRecursion(rt);
      ghost var recs1 := mRecursions;
      mRecursions := mRecursions[rec := mRecursions[rec].(mPaths := mRecursions[rec].mPaths + [path])];
      ghost var recs2 := mRecursions;
      SameTablesSynced(recs1, recs2, mRule2Recursions);
      var i := |nodeList|;
      while i > 0
        invariant 0 <= i <= |nodeList| && Synced(mRecursions, mRule2Recursions)
        invariant Linked(recs2, mRecursions, rec, nodeList[i..])
      {
        i := i - 1;
        assert nodeList[i..] == [nodeList[i]] + nodeList[i + 1..];
        AddRule2Recursion(nodeList[i], rec);
      }
      assert nodeList[0..] == nodeList;
      RecordedInSteps(recs0, recs1, recs2, mRecursions, rec, rt, path, nodeList);
      OpenedKeeps(gRules, mMaybeZero, recs0, recs1, rec, rt);
      CycleAdded(gRules, mMaybeZero, recs1, recs2, mRecursions, rec, path, nodeList);
      GrowTrans(recs0, recs1, mRecursions);
    }

    // -------- The traversal

    // The traversal stands at tree node `p`, and InProcess is the path from the root to it.
    ghost predicate Running(p: Option<nat>)
      requires Valid()
      reads this
    {
      && Inv(gRules, gTopRules, View()) && TreeOK(mTree)
      && (p.Some? ==> p.value < |mTree|) && Chain(mTree, p) == mInProcess && PathsRecorded(gRules, mRecursions, mEdges)
    }

    lemma RunningParts(p: nat)
      requires Valid() && Running(Some(p))
      ensures Inv(gRules, gTopRules, View()) && p < |mTree|
      ensures mInProcess != [] && mInProcess[|mInProcess| - 1] == mTree[p].data
    {
    }

    // A rule met, as element `k` of the rule of node `p`.
    method DetectRuleTable(rt: nat, p: Option<nat>, ghost k: nat) returns (res: TResult)
      requires Valid() && Running(p) && rt < |gRules| && Reached(gRules, gTopRules, rt)
      requires p.Some? ==> LeftChild(gRules, mMaybeZero, mTree[p.value].data, rt)
      modifies this`mInProcess, this`mDone, this`mToDo, this`mMaybeZero, this`mFail,
               this`mRecursions, this`mRule2Recursions, this`mEdges, this`mTree
      ensures Running(p) && old(mTree) <= mTree && Extends(old(View()), View())
      ensures ChildResult(old(View()), View(), rt, res) && !res.NA?
      ensures Came(Now(), res) == OfRule(gRules, old(Now()), rt, k)
      ensures rt !in old(mDone) && rt in old(mInProcess) ==>
                PathAdded(gRules, mMaybeZero, mInProcess, old(mRecursions), mRecursions, rt)
      decreases |gRules| - |mInProcess| - |mDone|, 1
    {
      hide PathAdded, CycleRecorded, PathsRecorded, LedBy, InSomeRec, IsLead, Reach, RecOK, OfRule, ByType, Left, Inv, Extends, GrowRecs, RecsInv, Evidence,
           Nullable, Reached, LeftGraph, IsPath;
      hide Outcome, ChildResult, Known, Classified, LeftChild;
      ghost var s0 := View();
      ExtendsRefl(s0);
      InvParts(gRules, gTopRules, s0);
      RuleIs(gRules, Now(), rt, k);
      if rt in mDone {
        DoneResult(s0, rt);
        return Done;
      }
      if rt in mInProcess {
        ghost var w := Now();
        AddRecursion(rt, p);
        InProcessFits(gRules, gTopRules, s0);
        LeadsDistinct(gRules, mMaybeZero, mRecursions, mRule2Recursions);
        BackEdgeRecorded(gRules, mMaybeZero, w, s0.recs, mRecursions, rt, k);
        mEdges := mEdges + [Back(w, rt, k)];
        BackEdgeKeepsInv(gRules, gTopRules, s0, mRecursions, mRule2Recursions, rt);
        return Fail;
      }
      res := DetectNewRule(rt, p, k);
    }

    // A rule met for the first time: walk it, then file it under its class.
    method DetectNewRule(rt: nat, p: Option<nat>, ghost k: nat) returns (res: TResult)
      requires Valid() && Running(p) && rt < |gRules| && Reached(gRules, gTopRules, rt)
      requires rt !in mDone && rt !in mInProcess
      requires p.Some? ==> LeftChild(gRules, mMaybeZero, mTree[p.value].data, rt)
      modifies this`mInProcess, this`mDone, this`mToDo, this`mMaybeZero, this`mFail,
               this`mRecursions, this`mRule2Recursions, this`mEdges, this`mTree
      ensures Running(p) && old(mTree) <= mTree && Extends(old(View()), View())
      ensures ChildResult(old(View()), View(), rt, res) && !res.NA?
      ensures Came(Now(), res) == OfRule(gRules, old(Now()), rt, k)
      decreases |gRules| - |mInProcess| - |mDone|, 0
    {
      hide PathsRecorded, LedBy, InSomeRec, IsLead, Reach, RecOK, Finished, OfRule, ByType, Left, Inv, Extends, GrowRecs, RecsInv,
           Evidence, Nullable, Reached, LeftGraph, IsPath;
      hide Outcome, ChildResult, Known, Classified, LeftChild;
      ghost var s0 := View();
      RuleIs(gRules, Now(), rt, k);
      RoomLeft(gRules, gTopRules, s0, rt);
      PushKeepsInv(gRules, gTopRules, s0, rt);
      var node := Enter(rt, p);
      res := DetectByType(rt, node);
      ghost var s2 := View();
      FinishExtends(s0, s2, res.MaybeZero?, rt);
      FinishKeepsInv(gRules, gTopRules, s2, rt, res.MaybeZero?);
      Leave(rt, res);
      ChainPrefix(old(mTree), mTree, p);
    }

    // Put `rt` on InProcess, as a new tree node below `p`.
    method Enter(rt: nat, p: Option<nat>) returns (node: nat)
      requires TreeOK(mTree) && (p.Some? ==> p.value < |mTree|)
      modifies this`mInProcess, this`mTree
      ensures mInProcess == old(mInProcess) + [rt] && mTree == old(mTree) + [TreeNode(rt, p)]
      ensures TreeOK(mTree) && node == |old(mTree)|
      ensures Chain(mTree, Some(node)) == Chain(old(mTree), p) + [rt]
    {
      mInProcess := mInProcess + [rt];
      mTree := mTree + [TreeNode(rt, p)];
      node := |mTree| - 1;
      ChainPrefix(old(mTree), mTree, p);
    }

    // Take `rt` off InProcess; it is done and belongs to the class `res`.
    method Leave(rt: nat, res: TResult)
      requires mInProcess != [] && mInProcess[|mInProcess| - 1] == rt
      modifies this`mInProcess, this`mDone, this`mMaybeZero, this`mFail
      ensures View() == Finished(old(View()), !res.Fail?) && Now() == Left(old(Now()), rt, res)
    {
      mInProcess := mInProcess[..|mInProcess| - 1];
      mDone := mDone + [rt];
      if res.Fail? {
        mFail := mFail + [rt];
      } else {
        mMaybeZero := mMaybeZero + [rt];
      }
    }

    method DetectByType(rt: nat, p: nat) returns (res: TResult)
      requires Valid() && Running(Some(p)) && mTree[p].data == rt && rt < |gRules|
      modifies this`mInProcess, this`mDone, this`mToDo, this`mMaybeZero, this`mFail,
               this`mRecursions, this`mRule2Recursions, this`mEdges, this`mTree
      ensures Running(Some(p)) && old(mTree) <= mTree && Extends(old(View()), View())
      ensures Outcome(gRules, View(), rt, res) && (res.MaybeZero? || res.Fail?)
      ensures Came(Now(), res) == ByType(gRules, old(Now()), rt)
      decreases |gRules| - |mInProcess| - |mDone|, 3
    {
      hide PathsRecorded, OfOneof, OfElement, OfConcatenate, Inv, Extends, Outcome, IsPath;
      match gRules[rt].mType {
        case Oneof => res := DetectOneof(rt, p);
        case Data => res := DetectData(rt, p);
        case Zeroorone => res := DetectZeroorXXX(rt, p);
        case Zeroormore => res := DetectZeroorXXX(rt, p);
        case Concatenate => res := DetectConcatenate(rt, p);
        case Null => assert false;
      }
    }

    // The result of a Oneof rule so far, joined with the result of the next element.
    method MergeOneof(acc: TResult, tempRes: TResult, d: TableData) returns (res: TResult)
      requires !acc.Done? && !tempRes.NA? && (!d.Subtable? ==> tempRes.Fail?)
      ensures res == if acc.MaybeZero? || Class(View(), d, tempRes).MaybeZero? then MaybeZero else Fail
    {
      res := acc;
      if tempRes.MaybeZero? {
        res := MaybeZero;
      } else if tempRes.Fail? {
        if !res.MaybeZero? { res := Fail; }
      } else {
        if d.entry in mMaybeZero {
          res := MaybeZero;
        } else if !res.MaybeZero? {
          res := Fail;
        }
      }
    }

    // A Oneof rule is MaybeZero if some element is, else Fail.
    method DetectOneof(rt: nat, p: nat) returns (res: TResult)
      requires Valid() && Running(Some(p)) && mTree[p].data == rt && rt < |gRules| && gRules[rt].mType.Oneof?
      modifies this`mInProcess, this`mDone, this`mToDo, this`mMaybeZero, this`mFail,
               this`mRecursions, this`mRule2Recursions, this`mEdges, this`mTree
      ensures Running(Some(p)) && old(mTree) <= mTree && Extends(old(View()), View())
      ensures Outcome(gRules, View(), rt, res) && (res.MaybeZero? || res.Fail?)
      ensures Came(Now(), res) == OfOneof(gRules, old(Now()), rt, 0, NA)
      decreases |gRules| - |mInProcess| - |mDone|, 2
    {
      hide PathsRecorded, OfOneof, OfElement, OfRule, Filed, Inv, Extends, GrowRecs, RecsInv, Evidence, Nullable, Reached, LeftChild,
           LeftGraph;
      hide Running, Chain, Outcome, OneofSoFar, ConcatSoFar, WalkedTo, Classified, ChildResult, Settled, Covered, Failed,
           Known;
      ghost var s0 := View();
      RunningParts(p);
      ExtendsRefl(s0);
      InvParts(gRules, gTopRules, s0);
      assert WellFormedRule(|gRules|, gRules[rt]);
      var ds := gRules[rt].mData;
      NothingWalked(gRules, s0, rt);
      res := NA;
      for i := 0 to |ds|
        invariant Running(Some(p)) && old(mTree) <= mTree && mTree[p].data == rt && Extends(s0, View())
        invariant OneofSoFar(gRules, View(), rt, i, res) && !res.Done? && (res.NA? ==> i < |ds|)
        invariant OfOneof(gRules, Now(), rt, i, res) == OfOneof(gRules, old(Now()), rt, 0, NA)
      {
        var tempRes := Fail;
        ghost var s1, w := View(), Now();
        ElementIs(gRules, w, rt, i);
        RunningParts(p);
        ExtendsParts(s0, s1);
        if ds[i].Subtable? {
          ElementReached(gRules, gTopRules, s1, rt, i);
          tempRes := DetectRuleTable(ds[i].entry, Some(p), i);
        } else {
          ExtendsRefl(s1);
        }
        ExtendsTrans(s0, s1, View());
        RunningParts(p);
        InvParts(gRules, gTopRules, View());
        OneofStep(gRules, s1, View(), rt, i, res, tempRes);
        FiledIs(View(), Now(), ds[i], tempRes);
        ghost var acc := res;
        res := MergeOneof(res, tempRes, ds[i]);
        OneofIs(gRules, w, rt, i, acc, Now(), tempRes, res);
      }
      RunningParts(p);
      InvParts(gRules, gTopRules, View());
      OneofEnd(gRules, View(), rt, res);
      NoMore(gRules, Now(), rt, res);
    }

    // A Data rule has the class of its one element.
    method DetectData(rt: nat, p: nat) returns (res: TResult)
      requires Valid() && Running(Some(p)) && mTree[p].data == rt && rt < |gRules| && gRules[rt].mType.Data?
      modifies this`mInProcess, this`mDone, this`mToDo, this`mMaybeZero, this`mFail,
               this`mRecursions, this`mRule2Recursions, this`mEdges, this`mTree
      ensures Running(Some(p)) && old(mTree) <= mTree && Extends(old(View()), View())
      ensures Outcome(gRules, View(), rt, res) && (res.MaybeZero? || res.Fail?)
      ensures var o := OfElement(gRules, old(Now()), rt, 0); Came(Now(), res) == Came(o.w, Filed(o.w, gRules[rt].mData[0], o.res))
      decreases |gRules| - |mInProcess| - |mDone|, 2
    {
      hide PathsRecorded, OfRule, OfElement, Inv, Extends, GrowRecs, RecsInv, Evidence, Nullable, Reached, LeftChild, LeftGraph;
      hide Running, Chain, Outcome, OneofSoFar, ConcatSoFar, WalkedTo, Classified, ChildResult, Settled, Covered, Failed,
           Known;
      ghost var s0 := View();
      RunningParts(p);
      ExtendsRefl(s0);
      InvParts(gRules, gTopRules, s0);
      assert WellFormedRule(|gRules|, gRules[rt]);
      var d := gRules[rt].mData[0];
      NothingWalked(gRules, s0, rt);
      ElementIs(gRules, Now(), rt, 0);
      res := Fail;
      if d.Subtable? {
        ElementReached(gRules, gTopRules, s0, rt, 0);
        res := DetectRuleTable(d.entry, Some(p), 0);
      }
      RunningParts(p);
      InvParts(gRules, gTopRules, View());
      OneofStep(gRules, s0, View(), rt, 0, NA, res);
      if res.Done? {
        res := if d.entry in mMaybeZero then MaybeZero else Fail;
      }
      OneofEnd(gRules, View(), rt, res);
    }

    // Zeroormore and Zeroorone are MaybeZero whatever their element is.
    method DetectZeroorXXX(rt: nat, p: nat) returns (res: TResult)
      requires Valid() && Running(Some(p)) && mTree[p].data == rt && rt < |gRules| && (gRules[rt].mType.Zeroorone? || gRules[rt].mType.Zeroormore?)
      modifies this`mInProcess, this`mDone, this`mToDo, this`mMaybeZero, this`mFail,
               this`mRecursions, this`mRule2Recursions, this`mEdges, this`mTree
      ensures Running(Some(p)) && old(mTree) <= mTree && Extends(old(View()), View())
      ensures Outcome(gRules, View(), rt, res) && (res.MaybeZero? || res.Fail?)
      ensures Came(Now(), res) == Came(OfElement(gRules, old(Now()), rt, 0).w, MaybeZero)
      decreases |gRules| - |mInProcess| - |mDone|, 2
    {
      hide PathsRecorded, OfRule, OfElement, Inv, Extends, GrowRecs, RecsInv, Evidence, Nullable, Reached, LeftChild, LeftGraph;
      hide Running, Chain, Outcome, OneofSoFar, ConcatSoFar, WalkedTo, Classified, ChildResult, Settled, Covered, Failed,
           Known;
      ghost var s0 := View();
      RunningParts(p);
      ExtendsRefl(s0);
      InvParts(gRules, gTopRules, s0);
      assert WellFormedRule(|gRules|, gRules[rt]);
      var d := gRules[rt].mData[0];
      NothingWalked(gRules, s0, rt);
      ElementIs(gRules, Now(), rt, 0);
      res := Fail;
      if d.Subtable? {
        ElementReached(gRules, gTopRules, s0, rt, 0);
        res := DetectRuleTable(d.entry, Some(p), 0);
      }
      RunningParts(p);
      InvParts(gRules, gTopRules, View());
      WalkedToStep(gRules, s0, View(), rt, 0, res);
      ZeroorEnd(gRules, View(), rt);
      res := MaybeZero;
    }

    // A concatenation is walked up to the first element that fails; the rest goes to ToDo.
    method DetectConcatenate(rt: nat, p: nat) returns (res: TResult)
      requires Valid() && Running(Some(p)) && mTree[p].data == rt && rt < |gRules| && gRules[rt].mType.Concatenate?
      modifies this`mInProcess, this`mDone, this`mToDo, this`mMaybeZero, this`mFail,
               this`mRecursions, this`mRule2Recursions, this`mEdges, this`mTree
      ensures Running(Some(p)) && old(mTree) <= mTree && Extends(old(View()), View())
      ensures Outcome(gRules, View(), rt, res) && (res.MaybeZero? || res.Fail?)
      ensures res.MaybeZero? ==> forall d :: d in gRules[rt].mData ==> d.Subtable? && d.entry in mMaybeZero
      ensures Came(Now(), res) == OfConcatenate(gRules, old(Now()), rt, 0)
      decreases |gRules| - |mInProcess| - |mDone|, 2
    {
      hide PathsRecorded, Chain, TreeOK, OfConcatenate, OfElement, OfRule, RestToDo, Inv, Extends, GrowRecs, RecsInv, Evidence, Nullable,
           Reached, LeftChild, LeftGraph;
      hide Outcome, OneofSoFar, ConcatSoFar, WalkedTo, Classified, ChildResult, Settled, Covered, Failed, Known, WellFormed,
           Blocks;
      ghost var s0 := View();
      ExtendsRefl(s0);
      InvParts(gRules, gTopRules, s0);
      var ds := gRules[rt].mData;
      NothingWalked(gRules, s0, rt);
      for i := 0 to |ds|
        invariant Running(Some(p)) && old(mTree) <= mTree && mTree[p].data == rt && Extends(s0, View())
        invariant ConcatSoFar(gRules, View(), rt, i)
        invariant OfConcatenate(gRules, Now(), rt, i) == OfConcatenate(gRules, old(Now()), rt, 0)
      {
        var tempRes := Fail;
        ghost var s1, w := View(), Now();
        ElementIs(gRules, w, rt, i);
        RunningParts(p);
        ExtendsParts(s0, s1);
        if ds[i].Subtable? {
          ElementReached(gRules, gTopRules, s1, rt, i);
          tempRes := DetectRuleTable(ds[i].entry, Some(p), i);
        } else {
          ExtendsRefl(s1);
        }
        ghost var s2 := View();
        ExtendsTrans(s0, s1, s2);
        ConcatenateIs(gRules, w, rt, i, Now(), tempRes);
        InvParts(gRules, gTopRules, s2);
        ConcatMore(gRules, s1, s2, rt, i, tempRes);
        ClassBlocks(s1, s2, rt, ds[i], tempRes);
        if tempRes.Fail? || (tempRes.Done? && ds[i].entry in mFail) {
          AddToDoFrom(rt, i + 1);
          assert View() == s2.(todo := mToDo);
          StopsHere(gRules, gTopRules, s0, s1, s2, mToDo, rt, i, tempRes);
          return Fail;
        }
      }
      InvParts(gRules, gTopRules, View());
      ConcatEnd(gRules, View(), rt);
      NoMore(gRules, Now(), rt, MaybeZero);
      ConcatZero(gRules, View(), rt);
      res := MaybeZero;
    }

    // Take the first rule off ToDo and walk it, unless it is done.
    method DetectFront()
      requires Valid() && Inv(gRules, gTopRules, View()) && mInProcess == [] && mTaken == [] && mToDo != [] && Fits(gRules, Now())
      requires PathsRecorded(gRules, mRecursions, mEdges)
      modifies this`mInProcess, this`mDone, this`mToDo, this`mMaybeZero, this`mFail,
               this`mRecursions, this`mRule2Recursions, this`mEdges, this`mTree, this`mTaken
      ensures Inv(gRules, gTopRules, View()) && mInProcess == [] && mTaken == []
      ensures forall x: nat :: Known(old(View()), x) ==> Known(View(), x)
      ensures |old(mDone)| < |mDone| <= |gRules| || (mDone == old(mDone) && mToDo == old(mToDo)[1..])
      ensures Now() == OfFront(gRules, old(Now())) && PathsRecorded(gRules, mRecursions, mEdges)
    {
      hide PathsRecorded, OfRule, Inv, Reached, Extends, Classified, Evidence, RecsInv;
      ghost var s0 := View();
      InvParts(gRules, gTopRules, s0);
      PopTodo(gRules, gTopRules, s0);
      mTree, mInProcess := [], [];
      var front := mToDo[0];
      mTaken := [front];
      mToDo := mToDo[1..];
      ghost var s1 := View();
      ExtendsRefl(s1);
      if front !in mDone && front !in mInProcess {
        var res := DetectRuleTable(front, None, 0);
        ChildDone(gRules, gTopRules, s1, View(), front, res);
      }
      PutBack(gRules, gTopRules, s0, s1, View());
      mTaken := [];
      InvParts(gRules, gTopRules, View());
    }

    // Iterate until ToDo is empty, starting from the top rules.
    method TraverseAll()
      requires Valid() && View() == State([], [], [], [], [], [], [], []) && mEdges == []
      modifies this`mInProcess, this`mDone, this`mToDo, this`mMaybeZero, this`mFail,
               this`mRecursions, this`mRule2Recursions, this`mEdges, this`mTree, this`mTaken
      ensures Inv(gRules, gTopRules, View()) && mInProcess == [] && mToDo == [] && mTaken == []
      ensures forall x: nat :: x in mDone <==> Reached(gRules, gTopRules, x)
      ensures Now() == WalkOf(gRules, gTopRules) && PathsRecorded(gRules, mRecursions, mEdges)
    {
      hide OfFront, Inv, Covered, Reached;
      mDone := [];
      mToDo := mToDo + gTopRules;
      assert mToDo == gTopRules;
      StartInv(gRules, gTopRules);
      while mToDo != []
        invariant Inv(gRules, gTopRules, View()) && mInProcess == [] && mTaken == []
        invariant forall t :: t in gTopRules ==> Known(View(), t)
        invariant PathsRecorded(gRules, mRecursions, mEdges) && Fits(gRules, Now()) && OfAll(gRules, Now()) == WalkOf(gRules, gTopRules)
        decreases |gRules| - |mDone|, |mToDo|
      {
        DetectFront();
      }
      DoneCovered(gRules, gTopRules, View());
      AllDone(gRules, gTopRules, View());
    }

    // -------- Reachability

    // The rules `rt` can start with, added to the working list.
    method PushLeftChildren(rt: nat, working: seq<nat>) returns (res: seq<nat>)
      requires Valid() && rt < |gRules|
      ensures working <= res
      ensures forall v :: v in res <==> v in working || Step(LeftGraph(gRules, mMaybeZero), rt, v)
    {
      var ds := gRules[rt].mData;
      res := working;
      var i := 0;
      while i < |ds|
        invariant i <= |ds| && working <= res
        invariant forall j :: 0 <= j < i ==> LeftIndex(gRules, mMaybeZero, rt, j)
        invariant gRules[rt].mType.Concatenate? ==> ConcatSoFar(gRules, View(), rt, i)
        invariant forall j :: 0 <= j < i && ds[j].Subtable? ==> ds[j].entry in res
        invariant forall v :: v in res ==> v in working || Step(LeftGraph(gRules, mMaybeZero), rt, v)
      {
        assert LeftIndex(gRules, mMaybeZero, rt, i);
        if ds[i].Subtable? {
          assert ds[i] == Subtable(ds[i].entry);
          assert LeftChild(gRules, mMaybeZero, rt, ds[i].entry);
          res := res + [ds[i].entry];
          if gRules[rt].mType.Concatenate? && ds[i].entry !in mMaybeZero {
            assert forall j :: i < j < |ds| ==> !LeftIndex(gRules, mMaybeZero, rt, j);
            break;
          }
        } else if gRules[rt].mType.Concatenate? {
          assert forall j :: i < j < |ds| ==> !LeftIndex(gRules, mMaybeZero, rt, j);
          break;
        }
        i := i + 1;
      }
      forall v | Step(LeftGraph(gRules, mMaybeZero), rt, v)
        ensures v in res
      {
        var k :| 0 <= k < |ds| && LeftIndex(gRules, mMaybeZero, rt, k) && ds[k] == Subtable(v);
      }
    }

    // Is there a chain of left edges, possibly empty, from `from` to `to`?
    method LRReachable(from: nat, to: nat) returns (found: bool)
      requires Valid() && from < |gRules|
      ensures found <==> Reach(LeftGraph(gRules, mMaybeZero), from, to)
    {
      ghost var h := LeftGraph(gRules, mMaybeZero);
      found := false;
      var working := [from];
      var doneList: seq<nat> := [];
      ReachRefl(h, from);
      while working != []
        invariant NoDup(doneList) && to !in doneList && (from in doneList || from in working)
        invariant forall x :: x in working || x in doneList ==> x < |gRules| && Reach(h, from, x)
        invariant forall a: nat, b: nat :: a in doneList && Step(h, a, b) ==> b in doneList || b in working
        decreases |gRules| - |doneList|, |working|
      {
        var rt := working[0];
        ghost var working0 := working;
        working := working[1..];
        assert working0 == [rt] + working;
        assert forall v :: v in working ==> v in working0;
        if rt == to {
          return true;
        }
        if rt !in doneList {
          NoDupBoundStrict(doneList, |gRules|, rt);
          var working1 := working;
          working := PushLeftChildren(rt, working);
          forall v: nat | v in working
            ensures v < |gRules| && Reach(h, from, v)
          {
            if v !in working1 {
              assert Step(h, rt, v);
              ReachStep(h, rt, v);
              ReachTrans(h, from, rt, v);
            }
          }
          doneList := doneList + [rt];
        }
      }
      if Reach(h, from, to) {
        ClosedKeepsReach(h, Elems(doneList), from, to);
      }
    }

    // -------- Back patch

    method ShareRecursion(a: seq<nat>, b: seq<nat>) returns (found: bool)
      ensures found <==> exists x :: x in a && x in b
    {
      for j := 0 to |a|
        invariant forall x :: x in a[..j] ==> x !in b
      {
        for k := 0 to |b|
          invariant a[j] !in b[..k]
        {
          if a[j] == b[k] {
            assert a[j] in a && a[j] in b;
            return true;
          }
        }
      }
      return false;
    }

    // Patch one element `child` of `parent`. `parentMap` is the entry `parent` had when the back
    // patch of `parent` began; a missing entry stays missing even if one was added since.
    method BackPatchChild(parent: nat, parentMap: Option<nat>, child: nat) returns (ghost patched: bool)
      requires Valid() && RecsValid() && parent < |gRules|
      requires parentMap.Some? ==>
                 parentMap.value < |mRule2Recursions| && mRule2Recursions[parentMap.value].mRule == parent
      modifies this`mRecursions, this`mRule2Recursions, this`mChanged
      ensures RecsValid() && Wider(old(mRecursions), mRecursions)
      ensures KeepsRules(old(mRule2Recursions), mRule2Recursions)
      ensures mChanged == (old(mChanged) || patched)
      ensures !patched ==> mRecursions == old(mRecursions) && mRule2Recursions == old(mRule2Recursions)
                           && Patched(gRules, mMaybeZero, mRecursions, parent, child)
      ensures patched && (parentMap.Some? || !InSomeRec(old(mRecursions), parent))
              ==> Grown(old(mRecursions), mRecursions)
    {
      hide RecsInv, RecOK, Synced, LeftGraph, DistinctLeads, Linked, Wider, Grown;
      patched := false;
      ghost var recs0 := mRecursions;
      WiderRefl(recs0);
      var childMap := FindRule2Recursion(child);
      if childMap.None? {
        NoEntry(gRules, mMaybeZero, mRecursions, mRule2Recursions, child);
        return;
      }
      var childRecs := mRule2Recursions[childMap.value].mRecursions;
      EntryIs(gRules, mMaybeZero, mRecursions, mRule2Recursions, childMap.value);
      if parentMap.Some? {
        EntryIs(gRules, mMaybeZero, mRecursions, mRule2Recursions, parentMap.value);
        var found := ShareRecursion(mRule2Recursions[parentMap.value].mRecursions, childRecs);
        if found {
          return;
        }
      }
      ghost var joins := parentMap.Some? || !InSomeRec(recs0, parent);
      assert joins ==> forall rec :: rec in childRecs ==> parent !in recs0[rec].mRuleTables;
      for k := 0 to |childRecs|
        invariant RecsValid() && Wider(recs0, mRecursions) && |mRecursions| == |recs0|
        invariant KeepsRules(old(mRule2Recursions), mRule2Recursions)
        invariant mChanged == (old(mChanged) || patched)
        invariant !patched ==> mRecursions == recs0 && mRule2Recursions == old(mRule2Recursions)
        invariant forall i :: 0 <= i < k ==> childRecs[i] < |recs0|
        invariant !patched ==> forall i :: 0 <= i < k ==>
                                 Unrelated(gRules, mMaybeZero, recs0[childRecs[i]].mLead, parent, child)
        invariant patched && joins ==> Grown(recs0, mRecursions)
      {
        var rec := childRecs[k];
        assert rec in childRecs;
        var lead := mRecursions[rec].mLead;
        LeadInRange(gRules, mMaybeZero, mRecursions, mRule2Recursions, rec);
        var up := LRReachable(lead, parent);
        var down := LRReachable(parent, child);
        if up && down {
          ghost var recs1, r2r1 := mRecursions, mRule2Recursions;
          JoinReady(gRules, mMaybeZero, recs0, recs1, r2r1, rec, child);
          AddRule2Recursion(parent, rec);
          mChanged := true;
          JoinKeeps(gRules, mMaybeZero, recs0, recs1, r2r1, mRecursions, mRule2Recursions, rec, parent, child);
          patched := true;
        }
      }
    }

    // Only the direct elements of `parent` are checked.
    method BackPatch(parent: nat) returns (ghost patched: bool)
      requires Valid() && RecsValid() && parent < |gRules|
      modifies this`mRecursions, this`mRule2Recursions, this`mChanged, this`mToDo
      ensures RecsValid() && Wider(old(mRecursions), mRecursions)
      ensures old(mToDo) <= mToDo
      ensures forall x :: x in mToDo ==> x in old(mToDo) || Subtable(x) in gRules[parent].mData
      ensures forall d :: d in gRules[parent].mData && d.Subtable? ==> d.entry in mDone || d.entry in mToDo
      ensures mChanged == (old(mChanged) || patched)
      ensures !patched ==> mRecursions == old(mRecursions) && AllPatched(gRules, mMaybeZero, mRecursions, parent)
      ensures patched ==> Grown(old(mRecursions), mRecursions)
    {
      hide RecsInv, Patched, LeftGraph, Reach, Wider;
      ghost var recs0 := mRecursions;
      WiderRefl(recs0);
      var parentMap := FindRule2Recursion(parent);
      if parentMap.None? {
        NoEntry(gRules, mMaybeZero, mRecursions, mRule2Recursions, parent);
      }
      var ds := gRules[parent].mData;
      patched := false;
      for i := 0 to |ds|
        invariant RecsValid() && Wider(recs0, mRecursions)
        invariant KeepsRules(old(mRule2Recursions), mRule2Recursions)
        invariant old(mToDo) <= mToDo
        invariant forall x :: x in mToDo ==> x in old(mToDo) || Subtable(x) in ds
        invariant forall j :: 0 <= j < i && ds[j].Subtable? ==> ds[j].entry in mDone || ds[j].entry in mToDo
        invariant mChanged == (old(mChanged) || patched)
        invariant !patched ==> mRecursions == recs0
        invariant !patched ==> forall j :: 0 <= j < i && ds[j].Subtable? ==>
                                 Patched(gRules, mMaybeZero, recs0, parent, ds[j].entry)
        invariant patched ==> Grown(recs0, mRecursions)
      {
        if ds[i].Subtable? {
          if ds[i].entry !in mDone {
            mToDo := mToDo + [ds[i].entry];
          }
          ghost var recs1 := mRecursions;
          ghost var now := BackPatchChild(parent, parentMap, ds[i].entry);
          WiderTrans(recs0, recs1, mRecursions);
          patched := patched || now;
        }
      }
    }

    // One pass over all rules reachable from the top rules.
    method BackPatchPass()
      requires Valid() && RecsValid() && !mChanged
      modifies this`mRecursions, this`mRule2Recursions, this`mChanged, this`mToDo, this`mDone
      ensures RecsValid() && Wider(old(mRecursions), mRecursions)
      ensures !mChanged ==> mRecursions == old(mRecursions)
      ensures !mChanged ==> forall u: nat :: Reached(gRules, gTopRules, u) ==> AllPatched(gRules, mMaybeZero, mRecursions, u)
      ensures mChanged ==> Grown(old(mRecursions), mRecursions)
    {
      hide RecsInv, AllPatched, LeftGraph;
      ghost var recs0 := mRecursions;
      mDone, mToDo := [], [];
      mToDo := mToDo + gTopRules;
      while mToDo != []
        invariant RecsValid() && Wider(recs0, mRecursions) && NoDup(mDone)
        invariant forall x :: x in mDone || x in mToDo ==> x < |gRules|
        invariant forall t :: t in gTopRules ==> t in mDone || t in mToDo
        invariant forall u: nat, v: nat :: u in mDone && Step(ChildGraph(gRules), u, v) ==> v in mDone || v in mToDo
        invariant !mChanged ==> mRecursions == recs0 && forall u :: u in mDone ==> AllPatched(gRules, mMaybeZero, recs0, u)
        invariant mChanged ==> Grown(recs0, mRecursions)
        decreases |gRules| - |mDone|, |mToDo|
      {
        var front := mToDo[0];
        ghost var todo0 := mToDo;
        mToDo := mToDo[1..];
        assert todo0 == [front] + mToDo;
        assert forall x :: x in todo0 <==> x == front || x in mToDo;
        if front !in mDone {
          NoDupBoundStrict(mDone, |gRules|, front);
          ghost var recs1 := mRecursions;
          ghost var now := BackPatch(front);
          WiderTrans(recs0, recs1, mRecursions);
          mDone := mDone + [front];
          assert WellFormedRule(|gRules|, gRules[front]);
        }
      }
      forall u: nat | Reached(gRules, gTopRules, u)
        ensures u in mDone
      {
        var t :| t in gTopRules && Reach(ChildGraph(gRules), t, u);
        ClosedKeepsReach(ChildGraph(gRules), Elems(mDone), t, u);
      }
    }

    // Passes are repeated until one changes nothing.
    method BackPatchAll()
      requires Valid() && RecsValid()
      modifies this`mRecursions, this`mRule2Recursions, this`mChanged, this`mToDo, this`mDone
      ensures RecsValid() && Wider(old(mRecursions), mRecursions)
      ensures forall u: nat :: Reached(gRules, gTopRules, u) ==> AllPatched(gRules, mMaybeZero, mRecursions, u)
    {
      hide AllPatched, LeftGraph, DistinctLeads, Synced;
      ghost var recs0 := mRecursions;
      mChanged := true;
      while mChanged
        invariant RecsValid() && Wider(recs0, mRecursions)
        invariant !mChanged ==> forall u: nat :: Reached(gRules, gTopRules, u) ==> AllPatched(gRules, mMaybeZero, mRecursions, u)
        decreases Missing(|gRules|, mRecursions), if mChanged then 1 else 0
      {
        mChanged := false;
        ghost var recs1 := mRecursions;
        BackPatchPass();
        WiderTrans(recs0, recs1, mRecursions);
        if mChanged {
          MissingShrinks(gRules, mMaybeZero, recs1, mRecursions);
        }
      }
    }

    // All three phases of the search for recursions.
    method Detect()
      requires Valid() && View() == State([], [], [], [], [], [], [], []) && mEdges == []
      modifies this`mInProcess, this`mDone, this`mToDo, this`mMaybeZero, this`mFail,
               this`mRecursions, this`mRule2Recursions, this`mEdges, this`mTree, this`mTaken, this`mChanged
      ensures RecsValid()
      ensures forall u: nat :: InSomeRec(mRecursions, u) <==>
                Reached(gRules, gTopRules, u) && OnCycle(LeftGraph(gRules, mMaybeZero), u)
      ensures forall u: nat :: Reached(gRules, gTopRules, u) <==> u in mMaybeZero || u in mFail
      ensures forall u :: u in mMaybeZero ==> u !in mFail && Nullable(gRules, u)
      ensures (forall k :: 0 <= k < |mRecursions| ==> mRecursions[k].mLead !in mMaybeZero) ==>
                forall u :: u in mFail ==> !Nullable(gRules, u)
      ensures NullableOffCycles(gRules, gTopRules) ==> forall u :: u in mFail ==> !Nullable(gRules, u)
      ensures forall k :: 0 <= k < |mRecursions| ==>
                OnePathEach(gRules, WalkOf(gRules, gTopRules), mRecursions[k].mLead, mRecursions[k].mPaths)
      ensures forall v: nat :: IsLead(mRecursions, v) <==> exists u: nat, k: nat :: GoesBack(gRules, WalkOf(gRules, gTopRules), u, k, v)
      ensures PathsRecorded(gRules, mRecursions, WalkOf(gRules, gTopRules).edges)
      ensures mMaybeZero == WalkOf(gRules, gTopRules).mz && mFail == WalkOf(gRules, gTopRules).fail
    {
      hide PathsRecorded, OnePathEach, GoesBack, EdgesExact, Recorded, IsLead, WalkOf, NullableOffCycles, Inv, RecsInv, Evidence, LeftGraph, AllPatched, Reached, Nullable;
      TraverseAll();
      ghost var s := View();
      InvParts(gRules, gTopRules, s);
      if NullableOffCycles(gRules, gTopRules) { FailIsRight(gRules, gTopRules, s); }
      EdgesAreExact(gRules, gTopRules);
      BackPatchAll();
      PathsStay(gRules, s.recs, mRecursions, mEdges);
      PathsAreExact(gRules, WalkOf(gRules, gTopRules), mRecursions);
      RecursionsAreCycles(gRules, gTopRules, s, mRecursions, mRule2Recursions);
      DoneInRange(gRules, gTopRules, s);
      NullableIsExact(gRules, s, mRecursions);
    }

    // -------- Groups

    // The recursion group that contains `rec`.
    method FindRecursionGroup(rec: nat) returns (group: Option<nat>)
      ensures group.Some? ==> group.value < |mRecursionGroups| && rec in mRecursionGroups[group.value]
      ensures group.None? ==> !InSomeGroup(mRecursionGroups, rec)
    {
      for i := 0 to |mRecursionGroups|
        invariant forall a :: 0 <= a < i ==> rec !in mRecursionGroups[a]
      {
        for j := 0 to |mRecursionGroups[i]|
          invariant rec !in mRecursionGroups[i][..j]
        {
          if mRecursionGroups[i][j] == rec {
            return Some(i);
          }
        }
      }
      return None;
    }

    // A recursion in no group founds one and draws in every later recursion whose lead is mutually
    // left-reachable with its own.
    method GroupRecursions()
      requires Valid() && RecsValid() && mRecursionGroups == []
      modifies this`mRecursionGroups
      ensures GroupsOK(LeftGraph(gRules, mMaybeZero), mRecursions, mRecursionGroups)
      ensures forall k: nat :: k < |mRecursions| ==> InSomeGroup(mRecursionGroups, k)
    {
      hide LeftGraph, Reach;
      ghost var h := LeftGraph(gRules, mMaybeZero);
      for i := 0 to |mRecursions|
        invariant GroupsOK(h, mRecursions, mRecursionGroups)
        invariant forall k: nat :: k < i ==> InSomeGroup(mRecursionGroups, k)
      {
        var groupI := FindRecursionGroup(i);
        if groupI.None? {
          ghost var groups0 := mRecursionGroups;
          mRecursionGroups := mRecursionGroups + [[i]];
          var gi := |mRecursionGroups| - 1;
          for j := i + 1 to |mRecursions|
            invariant |mRecursionGroups| == gi + 1 && mRecursionGroups[..gi] == groups0
            invariant Drawn(h, mRecursions, mRecursionGroups[gi], i, j)
          {
            LeadInRange(gRules, mMaybeZero, mRecursions, mRule2Recursions, i);
            LeadInRange(gRules, mMaybeZero, mRecursions, mRule2Recursions, j);
            var there := LRReachable(mRecursions[i].mLead, mRecursions[j].mLead);
            var back := LRReachable(mRecursions[j].mLead, mRecursions[i].mLead);
            if there && back {
              var groupJ := FindRecursionGroup(j);
              NotGroupedYet(h, mRecursions, groups0, mRecursionGroups[gi], mRecursionGroups, i, j);
              assert groupJ.None?;
              mRecursionGroups := mRecursionGroups[gi := mRecursionGroups[gi] + [j]];
            }
          }
          GroupComplete(h, mRecursions, groups0, mRecursionGroups[gi], mRecursionGroups, i);
        } else {
          assert i in mRecursionGroups[groupI.value];
        }
      }
    }

    method AddRule2Group(rt: nat, group: nat)
      modifies this`mRule2Group
      ensures forall p :: p in mRule2Group <==> p in old(mRule2Group) || p == (rt, group)
    {
      for i := 0 to |mRule2Group|
      {
        if mRule2Group[i] == (rt, group) {
          return;
        }
      }
      mRule2Group := mRule2Group + [(rt, group)];
    }

    method DetectGroups()
      requires Valid() && RecsValid() && mRecursionGroups == [] && mRule2Group == []
      modifies this`mRecursionGroups, this`mRule2Group
      ensures GroupsOK(LeftGraph(gRules, mMaybeZero), mRecursions, mRecursionGroups)
      ensures forall k: nat :: k < |mRecursions| ==> InSomeGroup(mRecursionGroups, k)
      ensures forall r: nat, a: nat :: (r, a) in mRule2Group <==> RuleInGroup(mRecursions, mRecursionGroups, r, a)
    {
      GroupRecursions();
      BuildRule2Group();
    }

    method BuildRule2Group()
      requires Valid() && mRule2Group == []
      requires forall a :: 0 <= a < |mRecursionGroups| ==> GroupOK(LeftGraph(gRules, mMaybeZero), mRecursions, mRecursionGroups[a])
      modifies this`mRule2Group
      ensures forall r: nat, a: nat :: (r, a) in mRule2Group <==> RuleInGroup(mRecursions, mRecursionGroups, r, a)
    {
      hide LeftGraph, Mutual;
      ghost var recs, groups := mRecursions, mRecursionGroups;
      for i := 0 to |mRecursionGroups|
        invariant forall r: nat, a: nat :: (r, a) in mRule2Group <==> a < i && RuleInGroup(recs, groups, r, a)
      {
        var group := mRecursionGroups[i];
        assert GroupOK(LeftGraph(gRules, mMaybeZero), mRecursions, group);
        for j := 0 to |group|
          invariant forall r: nat, a: nat :: (r, a) in mRule2Group <==>
                      (a < i && RuleInGroup(recs, groups, r, a)) || (a == i && RuleInSome(recs, group[..j], r))
        {
          assert group[j] in group;
          var rec := mRecursions[group[j]];
          assert group[..j + 1] == group[..j] + [group[j]];
          for k := 0 to |rec.mRuleTables|
            invariant forall r: nat, a: nat :: (r, a) in mRule2Group <==>
                        (a < i && RuleInGroup(recs, groups, r, a))
                        || (a == i && (RuleInSome(recs, group[..j], r) || r in rec.mRuleTables[..k]))
          {
            AddRule2Group(rec.mRuleTables[k], i);
          }
          assert rec.mRuleTables[..|rec.mRuleTables|] == rec.mRuleTables;
          SomeSplit(recs, group[..j], group[j]);
        }
        assert group[..|group|] == group;
      }
    }
  }

  // -------- The whole detector

  // Running both passes maps exactly the left-recursive rules to groups, and two rules to the same
  // group exactly when each is left-reachable from the other: the groups are the strongly
  // connected components of left recursion, as the detector has classified the rules. If nullable
  // rules are so without the rules on left cycles with them, the classes are exact and the components
  // those of the grammar.
  method DetectAll(rules: Rules, tops: seq<nat>) returns (d: RecDetector)
    requires WellFormed(rules) && forall t :: t in tops ==> t < |rules|
    ensures fresh(d) && d.gRules == rules
    ensures AreComponents(rules, tops, LeftGraph(rules, d.mMaybeZero), d.mRule2Group)
    ensures NullableOffCycles(rules, tops) ==>
              ClassesExact(rules, tops, d.mMaybeZero) && AreComponents(rules, tops, TrueLeftGraph(rules), d.mRule2Group)
  {
    hide RecsInv, LeftGraph, TrueLeftGraph, Reached, Nullable, GroupsOK, OnCycle, NullableOffCycles, ClassesExact,
         WellFormed, AreComponents;
    d := new RecDetector(rules, tops);
    d.Detect();
    d.DetectGroups();
    TheyAreComponents(d, tops);
    if NullableOffCycles(rules, tops) {
      ClassesAreExact(rules, tops, d.mMaybeZero, d.mFail);
      SameGraph(rules, tops, d.mMaybeZero);
      SameComponents(rules, tops, LeftGraph(rules, d.mMaybeZero), TrueLeftGraph(rules), d.mRule2Group);
    }
  }

  // The rules of the map are the reached rules on cycles of the graph, and two of them have one group
  // exactly when each is reachable from the other.
  ghost predicate AreComponents(g: Rules, tops: seq<nat>, h: Graph, m: seq<(nat, nat)>)
    requires WellFormed(g)
  {
    && (forall r: nat :: (exists a :: (r, a) in m) <==> Reached(g, tops, r) && OnCycle(h, r))
    && forall p, q :: p in m && q in m ==> (p.1 == q.1 <==> Mutual(h, p.0, q.0))
  }

  lemma TheyAreComponents(d: RecDetector, tops: seq<nat>)
    requires d.Valid() && d.RecsValid() && d.gTopRules == tops
    requires forall u: nat :: InSomeRec(d.mRecursions, u) <==>
               Reached(d.gRules, tops, u) && OnCycle(LeftGraph(d.gRules, d.mMaybeZero), u)
    requires GroupsOK(LeftGraph(d.gRules, d.mMaybeZero), d.mRecursions, d.mRecursionGroups)
    requires forall k: nat :: k < |d.mRecursions| ==> InSomeGroup(d.mRecursionGroups, k)
    requires forall r: nat, a: nat :: (r, a) in d.mRule2Group <==> RuleInGroup(d.mRecursions, d.mRecursionGroups, r, a)
    ensures AreComponents(d.gRules, tops, LeftGraph(d.gRules, d.mMaybeZero), d.mRule2Group)
  {
    hide RecsInv, LeftGraph, Reached, GroupsOK, Mutual, OnCycle, WellFormed, InSomeRec, RuleInGroup;
    GroupsAreComponents(d.gRules, d.mMaybeZero, d.mRecursions, d.mRule2Recursions, d.mRecursionGroups);
    forall p, q | p in d.mRule2Group && q in d.mRule2Group
      ensures p.1 == q.1 <==> Mutual(LeftGraph(d.gRules, d.mMaybeZero), p.0, q.0)
    {
      assert (p.0, p.1) in d.mRule2Group && (q.0, q.1) in d.mRule2Group;
    }
  }

  lemma SameComponents(g: Rules, tops: seq<nat>, h: Graph, t: Graph, m: seq<(nat, nat)>)
    requires WellFormed(g) && AreComponents(g, tops, h, m)
    requires forall u: nat :: Reached(g, tops, u) ==> (OnCycle(h, u) <==> OnCycle(t, u))
    requires forall u: nat, v: nat :: Reached(g, tops, u) && Reached(g, tops, v) ==> (Mutual(h, u, v) <==> Mutual(t, u, v))
    ensures AreComponents(g, tops, t, m)
  {
    hide Reached, OnCycle, Mutual, WellFormed;
    forall p | p in m
      ensures Reached(g, tops, p.0)
    {
      assert (p.0, p.1) in m;
    }
  }

  // -------- Steps of the walk

  lemma {:induction false} DownFromAt(path: seq<nat>, m: nat)
    requires m < |path| && path[m] !in path[..m]
    ensures DownFrom(path, path[m]) == path[m..]
  {
    if m > 0 {
      assert path[..m][0] == path[0] && path[..m][1..] == path[1..][..m - 1];
      DownFromAt(path[1..], m - 1);
    }
  }

  lemma InProcessFits(g: Rules, tops: seq<nat>, s: State)
    requires WellFormed(g) && Inv(g, tops, s)
    ensures forall r :: r in s.inProcess ==> r < |g|
  {
    assert forall r :: r in s.inProcess ==> Known(s, r);
  }

  lemma LeadsDistinct(g: Rules, mz: seq<nat>, recs: seq<Recursion>, r2r: seq<Rule2Recursion>)
    requires WellFormed(g) && RecsInv(g, mz, recs, r2r)
    ensures DistinctLeads(recs)
  {
  }

  // The path recorded for a back edge is that of the edge.
  // The recursion of `rt` has got the path through the rules in process from `rt` on and back to it, and these rules.
  ghost predicate PathAdded(g: Rules, mz: seq<nat>, inProcess: seq<nat>, recs: seq<Recursion>, recs': seq<Recursion>, rt: nat) {
    exists m: nat, path :: m < |inProcess| && inProcess[m] == rt
      && IsRoute(g, mz, inProcess[m..] + [rt], path) && CycleRecorded(recs, recs', rt, path, inProcess[m..])
  }

  lemma BackEdgeRecorded(g: Rules, mz: seq<nat>, w: Walk, recs: seq<Recursion>, recs': seq<Recursion>, rt: nat, k: nat)
    requires PathsRecorded(g, recs, w.edges) && DistinctLeads(recs')
    requires NoDup(w.inProcess) && forall r :: r in w.inProcess ==> r < |g|
    requires PathAdded(g, mz, w.inProcess, recs, recs', rt)
    ensures w.inProcess != [] && PathsRecorded(g, recs', w.edges + [Back(w, rt, k)])
  {
    hide CycleRecorded, PathOf, IsRoute, Recorded, RecordedAs, DistinctLeads;
    var m: nat, path :| m < |w.inProcess| && w.inProcess[m] == rt
                        && IsRoute(g, mz, w.inProcess[m..] + [rt], path) && CycleRecorded(recs, recs', rt, path, w.inProcess[m..]);
    BackIs(g, w, rt, k, m);
    var e := Back(w, rt, k);
    RouteIsPath(g, mz, Round(e), path);
    OneMorePath(g, recs, recs', w.edges, e, path, w.inProcess[m..]);
  }

  lemma BackIs(g: Rules, w: Walk, rt: nat, k: nat, m: nat)
    requires NoDup(w.inProcess) && (forall r :: r in w.inProcess ==> r < |g|) && m < |w.inProcess| && w.inProcess[m] == rt
    ensures var e := Back(w, rt, k);
            && e.rules == w.inProcess[m..] && e.rules != [] && Target(e) == rt && Round(e) == w.inProcess[m..] + [rt]
            && InRange(g, e.rules) && InRange(g, Round(e))
  {
    DownFromAt(w.inProcess, m);
    assert forall i :: 0 <= i < |w.inProcess[m..]| ==> w.inProcess[m..][i] in w.inProcess;
  }

  // The back patch leaves leads and paths as they are.
  lemma PathsStay(g: Rules, recs: seq<Recursion>, recs': seq<Recursion>, es: seq<Edge>)
    requires PathsRecorded(g, recs, es) && Wider(recs, recs')
    ensures PathsRecorded(g, recs', es)
  {
    hide Recorded;
    assert forall k :: 0 <= k < |recs| ==> WiderRec(recs[k], recs'[k]);
  }

  // A concatenation ends at element `i`.
  lemma StopsHere(g: Rules, tops: seq<nat>, s0: State, s: State, s': State, todo: seq<nat>, u: nat, i: nat, res: TResult)
    requires WellFormed(g) && Inv(g, tops, s') && Extends(s0, s') && u < |g| && g[u].mType.Concatenate? && i < |g[u].mData|
    requires ConcatSoFar(g, s', u, i) && Extends(s, s') && Classified(s')
    requires s.inProcess != [] && s.inProcess[|s.inProcess| - 1] == u && u in s'.inProcess
    requires g[u].mData[i].Subtable? ==> ChildResult(s, s', g[u].mData[i].entry, res)
    requires Class(s', g[u].mData[i], res).Fail? && s'.todo <= todo
    requires forall x :: x in todo ==> x in s'.todo || Subtable(x) in g[u].mData
    requires forall j :: i < j < |g[u].mData| && g[u].mData[j].Subtable? ==> Known(s'.(todo := todo), g[u].mData[j].entry)
    ensures var s2 := s'.(todo := todo); Inv(g, tops, s2) && Extends(s0, s2) && Outcome(g, s2, u, Fail)
  {
    hide Inv, Extends, ConcatSoFar, Outcome, ChildResult, Classified, Class, Known;
    ExtendsTodo(s0, s', todo);
    TodoKeepsInv(g, tops, s', u, todo);
    ConcatStop(g, s, s', todo, u, i, res);
  }

  lemma EntryFits(g: Rules, u: nat, k: nat)
    requires WellFormed(g) && u < |g| && k < |g[u].mData|
    ensures g[u].mData[k].Subtable? ==> g[u].mData[k].entry < |g|
  {
    assert WellFormedRule(|g|, g[u]) && g[u].mData[k] in g[u].mData;
  }

  lemma FiledIs(s: State, w: Walk, d: TableData, res: TResult)
    requires w.mz == s.mz && (!d.Subtable? ==> res.Fail?)
    ensures Filed(w, d, res) == Class(s, d, res)
  {
  }
}
