/** The lookahead detector: a depth-first walk that collects what each rule can begin with, and the
    patch of rules that met a rule in process. */
module LaDetect {
  import opened Options
  import opened Graphs
  import opened ContTrees
  import opened Grammar
  import opened LookAheads
  import opened LaStates
  import opened LaFlow
  import opened LaPatch
  import opened LaComplete
  import opened LaOnce
  import opened LaWalk

  // Rules that the walk looks into.
  ghost function Walked(g: LaGrammar): (h: Graph)
    requires WellFormed(g.rules)
    ensures |h| == |g.rules|
    ensures forall u: nat, v: nat :: Step(h, u, v) <==> u < |g.rules| && !IsLeafRule(g, u) && Subtable(v) in g.rules[u].mData
  {
    var h := seq(|g.rules|, u requires 0 <= u < |g.rules| =>
      set v | v in Below(|g.rules|) && !IsLeafRule(g, u) && Subtable(v) in g.rules[u].mData);
    assert forall u: nat, v: nat :: u < |g.rules| && Subtable(v) in g.rules[u].mData ==> WellFormedRule(|g.rules|, g.rules[u]) && v < |g.rules|;
    h
  }

  class LADetector {
    const g: LaGrammar
    const gTopRules: seq<nat>
    var mRuleLookAheads: RuleLookAheads
    var mPendings: seq<Pending>
    var mInProcess: seq<nat>
    var mDone: seq<nat>
    var mToDo: seq<nat>
    var mMaybeZero: seq<nat>
    var mTree: seq<TreeNode>
    ghost var mTaken: seq<nat>   // the rule just taken off ToDo
    ghost var mWalked: set<(nat, nat)>   // the records of LaState
    ghost var mMet: set<(nat, nat)>
    ghost var mMissed: set<(nat, nat)>
    ghost var mLooks: Looks
    var mHung: bool   // an assertion has failed, or a list is being copied to itself for ever

    constructor (grammar: LaGrammar, tops: seq<nat>)
      requires Allowed(grammar) && forall t :: t in tops ==> t < |grammar.rules|
      ensures g == Shut(grammar) && WellFormedLa(g) && gTopRules == tops
      ensures New()
    {
      ShutIsWellFormed(grammar);
      g, gTopRules := Shut(grammar), tops;
      mRuleLookAheads, mPendings, mInProcess, mDone, mToDo, mMaybeZero, mTree, mHung := map[], [], [], [], [], [], [], false;
      mTaken, mWalked, mMet, mMissed, mLooks := [], {}, {}, {}, Looks({}, {});
    }

    ghost function View(): LaState
      reads this
    {
      LaState(mInProcess, mDone, mToDo, mMaybeZero, mRuleLookAheads, mPendings, mTaken, mWalked, mMet, mMissed)
    }

    // Nothing has been walked yet.
    ghost predicate New()
      reads this
    {
      !mHung && mTree == [] && mLooks == Looks({}, {}) && View() == LaState([], [], [], [], map[], [], [], {}, {}, {})
    }

    // What the walk works on, and what a call comes to.
    ghost function Now(): Walk
      reads this
    {
      Walk(mInProcess, mDone, mToDo, mMaybeZero, mRuleLookAheads, mPendings, mTree)
    }

    ghost function Comes(res: TResult): Reply
      reads this
    {
      if mHung then Stuck else Came(Now(), res)
    }

    // The invariants, at any time of a walk.
    ghost predicate Inv()
      reads this
    {
      !mHung && LaInv(g, View()) && FlowInv(g, View(), mTree) && TreeOK(mTree) && OnceInv(g, gTopRules, View(), mTree, mLooks)
    }

    // In the middle of a walk, at node `p` of the tree.
    ghost predicate Running(p: Option<nat>)
      reads this
    {
      Inv() && (p.Some? ==> p.value < |mTree|) && Chain(mTree, p) == mInProcess
    }

    // The walk goes on, or it is stuck; then it is in a left recursion.
    ghost predicate Sane()
      reads this
    {
      Sound(g, mRuleLookAheads) && WellFormed(g.rules) && (mHung ==> LeftRecursive(g))
    }

    ghost predicate After(p: Option<nat>, tree: seq<TreeNode>, s: LaState)
      reads this
    {
      Sane() && (!mHung ==> Running(p) && tree <= mTree && Extends(s, View()))
    }

    method AddRuleLookAhead(rule: nat, la: LookAhead)
      requires Sound(g, mRuleLookAheads) && Begins(g, rule, la)
      modifies this`mRuleLookAheads
      ensures mRuleLookAheads == AddRuleLa(old(mRuleLookAheads), rule, la) && Sound(g, mRuleLookAheads)
    {
      AddIsSound(g, mRuleLookAheads, rule, la);
      var list := LasOf(mRuleLookAheads, rule);
      mRuleLookAheads := mRuleLookAheads[rule := AddLookAhead(list, la)];
    }

    // All lookaheads of `from`, to `to` as well. A list copied to itself grows as it is read, if it
    // has a lookahead that is not found in it.
    method CopyRuleLookAhead(to: nat, from: nat)
      requires !mHung && Sound(g, mRuleLookAheads) && forall la :: Begins(g, from, la) ==> Begins(g, to, la)
      modifies this`mRuleLookAheads, this`mHung
      ensures Sound(g, mRuleLookAheads)
      ensures mHung <==> to == from && exists la :: la in LasOf(old(mRuleLookAheads), from) && !Found(LasOf(old(mRuleLookAheads), from), la)
      ensures forall r :: r != to ==> LasOf(mRuleLookAheads, r) == LasOf(old(mRuleLookAheads), r)
      ensures LasOf(old(mRuleLookAheads), to) <= LasOf(mRuleLookAheads, to)
      ensures forall la :: la in LasOf(mRuleLookAheads, to) ==> la in LasOf(old(mRuleLookAheads), to) || la in LasOf(old(mRuleLookAheads), from)
      ensures to != from ==> Offers(mRuleLookAheads, from, to)
      ensures to == from ==> LasOf(mRuleLookAheads, to) == LasOf(old(mRuleLookAheads), to)
      ensures Copy(old(mRuleLookAheads), to, from) == if mHung then None else Some(mRuleLookAheads)
    {
      hide Begins, Found, LookAheadEqual, Copied, AddRuleLa;
      if from !in mRuleLookAheads { return; }
      var list := mRuleLookAheads[from];
      for i := 0 to |list|
        invariant Sound(g, mRuleLookAheads) && !mHung && LasOf(old(mRuleLookAheads), from) == list
        invariant forall r :: r != to ==> LasOf(mRuleLookAheads, r) == LasOf(old(mRuleLookAheads), r)
        invariant to == from ==> LasOf(mRuleLookAheads, to) == list && forall j :: 0 <= j < i ==> Found(list, list[j])
        invariant LasOf(old(mRuleLookAheads), to) <= LasOf(mRuleLookAheads, to)
        invariant forall la :: la in LasOf(mRuleLookAheads, to) ==> la in LasOf(old(mRuleLookAheads), to) || la in list
        invariant forall j :: 0 <= j < i ==> Copied(LasOf(mRuleLookAheads, to), list[j])
        invariant ListAdded(mRuleLookAheads, to, list[i..]) == ListAdded(old(mRuleLookAheads), to, list)
      {
        assert list[i] in list && Begins(g, from, list[i]);
        if to == from && !Found(list, list[i]) {
          mHung := true;
          return;
        }
        ghost var before := LasOf(mRuleLookAheads, to);
        AddedIsCopied(before, list[i]);
        assert list[i..] == [list[i]] + list[i + 1..];
        ListedAs(mRuleLookAheads, to, list[i]);
        AddRuleLookAhead(to, list[i]);
        forall j | 0 <= j < i
          ensures Copied(LasOf(mRuleLookAheads, to), list[j])
        {
          CopiedStays(before, LasOf(mRuleLookAheads, to), list[j]);
        }
      }
      assert list[|list|..] == [];
    }

    method AddPending(pending: nat, dependent: nat)
      requires WellFormed(g.rules) && PendingsOK(g, mPendings) && Reach(LeftEdges(g.rules), dependent, pending)
      requires Entries(mPendings)
      modifies this`mPendings
      ensures PendingsOK(g, mPendings) && Entries(mPendings)
      ensures forall x: nat, q: nat :: Waits(mPendings, x, q) <==> Waits(old(mPendings), x, q) || (x == dependent && q == pending)
      ensures mPendings == PendingAdded(old(mPendings), pending, dependent)
    {
      hide WellFormed, Reach, Waits;
      for i := 0 to |mPendings|
        invariant mPendings == old(mPendings) && forall j :: 0 <= j < i ==> mPendings[j].mRule != pending
      {
        var p := mPendings[i];
        if p.mRule == pending {
          if dependent !in p.mDependents {
            mPendings := mPendings[i := Pending(pending, p.mDependents + [dependent])];
          }
          OneMoreWaits(old(mPendings), mPendings, i, pending, dependent);
          AddedAt(old(mPendings), i, pending, dependent);
          return;
        }
      }
      mPendings := mPendings + [Pending(pending, [dependent])];
      AddedAt(old(mPendings), |old(mPendings)|, pending, dependent);
      OneMoreEntry(old(mPendings), pending, dependent);
    }

    // A rule met while it is in process: the rules from it down to node `p` wait for its lookaheads.
    method AddDependents(rt: nat, p: nat)
      requires Running(Some(p)) && rt in mInProcess && LeftEdge(g.rules, mTree[p].data, rt)
      requires mTree[p].data == rt || LookedAt(g, mLooks.looked, mTree[p].data, rt)
      modifies this`mPendings
      ensures Running(Some(p)) && (mTree[p].data == rt || Waits(mPendings, mTree[p].data, rt))
      ensures View() == old(View()).(pendings := mPendings) && mPendings == Told(old(mPendings), mInProcess, rt)
    {
      hide OnceInv, LookedAt, PendingAdded, Told, LaInv, Lists, Sound, WellFormedLa, LeftEdge, Reach, PendingsOK, OnPath,
           Chain, WellFormed, LeftEdges, FlowInv, Waits, Entries, InTree;
      InvParts(g, View());
      FlowParts(g, View(), mTree);
      ChainEnd(mTree, p);
      ghost var path := mInProcess;
      var dep: nat := p;
      ghost var i: nat := |path| - 1;
      assert path[..i + 1] == path;
      NoneLeftOut(mTree, mPendings, rt, p);
      while mTree[dep].data != rt
        invariant dep < |mTree| && i < |path| && Chain(mTree, Some(dep)) == path[..i + 1] && rt in path[..i + 1]
        invariant PendingsOK(g, mPendings) && PendingsFitBut(mTree, mPendings, rt, Some(dep))
        invariant forall x: nat, q: nat :: Waits(old(mPendings), x, q) ==> Waits(mPendings, x, q)
        invariant forall x: nat, q: nat :: Waits(mPendings, x, q) && x !in path ==> Waits(old(mPendings), x, q)
        invariant forall x: nat, q: nat :: Waits(mPendings, x, q) ==> Waits(old(mPendings), x, q) || (q == rt && mTree[p].data != rt)
        invariant dep == p || mTree[p].data != rt
        invariant dep == p || Waits(mPendings, mTree[p].data, rt)
        invariant Told(mPendings, path[..i + 1], rt) == Told(old(mPendings), path, rt)
        decreases dep
      {
        StepUp(mTree, dep, path, i, rt);
        BackEdge(g, path, rt, i);
        ghost var pendings := mPendings;
        EntriesOf(mTree, mPendings, rt, dep);
        ToldMore(mPendings, path, i, rt);
        AddPending(rt, mTree[dep].data);
        OneUp(mTree, pendings, mPendings, rt, dep);
        dep := mTree[dep].parent.value;
        i := i - 1;
      }
      ChainEnd(mTree, dep);
      ToldAll(mPendings, path[..i + 1], rt);
      AllTold(mTree, mPendings, rt, dep);
      NotDone(g, old(View()));
      PendingsReplaced(g, old(View()), mPendings);
      MoreWait(g, old(View()), mTree, mPendings);
      OnceTold(g, gTopRules, old(View()), mTree, mLooks, rt, p, mPendings);
    }

    method AddToDo(rule: nat)
      requires Inv() && rule < |g.rules| && (rule !in mInProcess ==> Wanted(g, gTopRules, mLooks, rule))
      modifies this`mToDo
      ensures Inv() && Extends(old(View()), View()) && Known(View(), rule)
      ensures Now() == ToDoAdded(old(Now()), rule)
    {
      hide OnceInv, Wanted, LaInv, FlowInv;
      if rule !in mInProcess && rule !in mDone && rule !in mToDo {
        ToDoKeepsInv(g, View(), rule);
        mToDo := mToDo + [rule];
        FlowStays(g, old(View()), View(), mTree);
        OnceStays(g, gTopRules, old(View()), View(), mTree, mLooks);
      }
    }

    // The rules among the elements from `start` on.
    method AddToDoFrom(rule_table: nat, start: nat)
      requires Inv() && rule_table < |g.rules| && start <= |g.rules[rule_table].mData| && rule_table in mInProcess
      requires FreshFrom(mLooks, rule_table, start)
      modifies this`mToDo, this`mLooks
      ensures forall path :: rule_table !in path ==> KeepsLooks(path, old(mLooks), mLooks)
      ensures Inv() && Extends(old(View()), View())
      ensures forall k :: start <= k < |g.rules[rule_table].mData| && g.rules[rule_table].mData[k].Subtable? ==>
                Known(View(), g.rules[rule_table].mData[k].entry)
      ensures Now() == RestToDo(g, old(Now()), rule_table, start)
    {
      hide KeepsLooks, FreshFrom, OnceInv, Wanted, Rest, LaInv, FlowInv, Known, ToDoAdded, Fits;
      var data := g.rules[rule_table].mData;
      FitsNow(g, View(), Now());
      OnceSkipped(g, gTopRules, View(), mTree, mLooks, rule_table, start, |data|);
      mLooks := mLooks.(skipped := mLooks.skipped + Rest(rule_table, start, |data|));
      ghost var l := mLooks;
      for i := start to |data|
        invariant Inv() && Extends(old(View()), View()) && mLooks == l
        invariant forall k :: start <= k < i && data[k].Subtable? ==> Known(View(), data[k].entry)
        invariant Fits(g, Now()) && RestToDo(g, Now(), rule_table, i) == RestToDo(g, old(Now()), rule_table, start)
      {
        if data[i].Subtable? {
          assert data[i] in data;
          EntryInRange(g, View(), rule_table, i);
          ghost var s := View();
          assert (rule_table, i) in Rest(rule_table, start, |data|);
          if data[i].entry != rule_table { SkippedIsWanted(g, gTopRules, mLooks, rule_table, i, data[i].entry); }
          AddToDo(data[i].entry);
          FitsNow(g, View(), Now());
          ExtendsTrans(old(View()), s, View());
        }
      }
    }

    method DetectRuleTable(rt: nat, p: Option<nat>) returns (res: TResult)
      requires Running(p) && rt < |g.rules|
      requires if p.None? then mTree == [] && rt in mTaken
               else LeftEdge(g.rules, mTree[p.value].data, rt) && (mTree[p.value].data == rt || LookedAt(g, mLooks.looked, mTree[p.value].data, rt))
      modifies this
      ensures After(p, old(mTree), old(View()))
      ensures !mHung ==> (rt in old(mInProcess) && res.NA?) || (rt in mDone && (res.MaybeZero? <==> rt in mMaybeZero))
      ensures !mHung && p.Some? ==> Linked(old(View()), View(), mTree[p.value].data, rt)
      ensures !mHung ==> KeepsLooks(old(mInProcess), old(mLooks), mLooks)
      ensures Comes(res) == OfRule(g, old(Now()), rt, p)
      decreases |g.rules| - |mInProcess| - |mDone|, 1
    {
      hide OnceInv, LookedAt, LaInv, FlowInv, Lists, Nullable, LeftEdge, OnPath, Follows, LookingInto, Fits, Told;
      ghost var s := View();
      FitsNow(g, s, Now());
      InvParts(g, s);
      if rt in mDone {
        return if rt in mMaybeZero then MaybeZero else NA;
      }
      if rt in mInProcess {
        PathTop(mTree, p);
        AddDependents(rt, p.value);
        return NA;
      }
      if p.Some? { ChainEnd(mTree, p.value); }
      res := DetectNewRule(rt, p);
    }

    method DetectNewRule(rt: nat, p: Option<nat>) returns (res: TResult)
      requires Running(p) && rt < |g.rules| && rt !in mInProcess && rt !in mDone
      requires if p.None? then mTree == [] && rt in mTaken
               else LeftEdge(g.rules, mTree[p.value].data, rt) && LookedAt(g, mLooks.looked, mTree[p.value].data, rt)
      modifies this
      ensures After(p, old(mTree), old(View()))
      ensures !mHung ==> rt in mDone && (res.MaybeZero? <==> rt in mMaybeZero)
      ensures !mHung && p.Some? ==> Follows(mPendings, rt, mTree[p.value].data)
      ensures !mHung ==> KeepsLooks(old(mInProcess), old(mLooks), mLooks)
      ensures Comes(res) == OfRule(g, old(Now()), rt, p)
      decreases |g.rules| - |mInProcess| - |mDone|, 0
    {
      hide OnceInv, LookedAt, FreshFrom, KeepsLooks, LookingInto, Left, Fits, LaInv, FlowInv, Lists, Nullable, LeftEdge,
           OnPath, KidsKnown, Known, Sound, Chain, TreeOK, WellFormedLa, PendingsOK, Follows, Evidence, LeafListed, InTree,
           Extends, Waits, Popped;
      ghost var s0 := View();
      FitsNow(g, s0, Now());
      InvParts(g, s0);
      RoomLeft(g, s0, rt);
      NewToTree(g, s0, mTree, rt);
      NewIsFresh(g, gTopRules, s0, mTree, mLooks, rt);
      Enter(rt, p);
      assert mInProcess[..|mInProcess| - 1] == s0.inProcess;
      ghost var s1 := View();
      res := LookInto(rt, p);
      if mHung { return; }
      ChainPrefix(old(mTree), mTree, p);
      ghost var s2 := View();
      FinishRule(g, s0, s2, mTree, rt, res.MaybeZero?);
      OncePopped(g, gTopRules, s2, mTree, mLooks, rt, res.MaybeZero?);
      Leave(rt, res);
      InvParts(g, View());
      if p.Some? {
        NodeIsThere(old(mTree), mTree, rt, p);
        FollowsUp(g, View(), mTree, rt, p.value, |old(mTree)|);
      }
    }

    // Identifiers and literals are lookaheads; any other rule gets a node and is walked.
    method LookInto(rt: nat, p: Option<nat>) returns (res: TResult)
      requires Inv() && rt < |g.rules| && !InTree(mTree, rt)
      requires (p.Some? ==> p.value < |mTree|) && mInProcess == Chain(mTree, p) + [rt] && FreshFrom(mLooks, rt, 0)
      requires if p.None? then mTree == [] && rt in mTaken
               else LeftEdge(g.rules, mTree[p.value].data, rt) && LookedAt(g, mLooks.looked, mTree[p.value].data, rt)
      modifies this
      ensures Sane() && (!mHung ==> Inv() && Extends(old(View()), View()))
      ensures !mHung ==> mTree == old(mTree) || old(mTree) + [TreeNode(rt, p)] <= mTree
      ensures !mHung ==> if IsLeafRule(g, rt) then LeafListed(g, View(), rt) && res.NA? && mTree == old(mTree)
                         else KidsKnown(g, View(), rt) && Evidence(g, View(), rt, res.MaybeZero?)
      ensures !mHung && res.MaybeZero? ==> Nullable(g.rules, rt)
      ensures !mHung ==> KeepsLooks(old(mInProcess[..|mInProcess| - 1]), old(mLooks), mLooks)
      ensures Comes(res) == LookingInto(g, old(Now()), rt, p)
      decreases |g.rules| - |mInProcess| - |mDone|, 5
    {
      hide OnceInv, LookedAt, FreshFrom, ByType, Fits, AddRuleLa, LaInv, FlowInv, Lists, Nullable, LeftEdge, OnPath,
           KidsKnown, Known, Sound, Chain, WellFormedLa, PendingsOK, Evidence, InTree;
      res := NA;
      FitsNow(g, View(), Now());
      if rt == g.identifier {
        AddLeaf(rt, LaIdentifier);
      } else if rt == g.literal {
        AddLeaf(rt, LaLiteral);
      } else {
        ChainNew(mTree, p, rt);
        NodeAdded(g, View(), mTree, rt, p);
        OnceNode(g, gTopRules, View(), mTree, mLooks, rt, p);
        mTree := mTree + [TreeNode(rt, p)];
        res := DetectByType(rt, |mTree| - 1);
      }
    }

    method Enter(rt: nat, ghost p: Option<nat>)
      requires Running(p) && rt < |g.rules| && rt !in mInProcess && rt !in mDone
      requires p.Some? ==> LeftEdge(g.rules, mTree[p.value].data, rt)
      modifies this`mInProcess
      ensures View() == old(View()).(inProcess := old(mInProcess) + [rt]) && Inv()
    {
      hide OnceInv, LaInv, FlowInv, LeftEdge, Chain, TreeOK;
      EnterKeepsInv(g, View(), mTree, p, rt);
      mInProcess := mInProcess + [rt];
      FlowStays(g, old(View()), View(), mTree);
      OnceStays(g, gTopRules, old(View()), View(), mTree, mLooks);
    }

    method AddLeaf(rt: nat, la: LookAhead)
      requires Inv() && ((rt == g.identifier && la == LaIdentifier) || (rt == g.literal && la == LaLiteral)) && rt in mInProcess
      modifies this`mRuleLookAheads
      ensures Sane() && Inv() && Extends(old(View()), View()) && LeafListed(g, View(), rt)
      ensures Now() == old(Now()).(las := AddRuleLa(old(mRuleLookAheads), rt, la))
    {
      hide OnceInv, LaInv, FlowInv, Lists, Begins, Copied, AddLookAhead, Known;
      InvParts(g, View());
      BeginsItself(g);
      AddRuleLookAhead(rt, la);
      AddedIsCopied(LasOf(old(mRuleLookAheads), rt), la);
      LasReplaced(g, old(View()), mRuleLookAheads);
      NotDone(g, old(View()));
      ListGrown(g, old(View()), mTree, mRuleLookAheads, rt);
      OnceStays(g, gTopRules, old(View()), View(), mTree, mLooks);
    }

    method Leave(rt: nat, res: TResult)
      requires mInProcess != [] && mInProcess[|mInProcess| - 1] == rt
      modifies this`mInProcess, this`mDone, this`mMaybeZero
      ensures View() == Popped(old(View()), rt, res.MaybeZero?) && Now() == Left(old(Now()), rt, res)
    {
      mInProcess := mInProcess[..|mInProcess| - 1];
      mDone := mDone + [rt];
      if res.MaybeZero? { mMaybeZero := mMaybeZero + [rt]; }
    }

    // The rule at node `p`, by its type.
    method DetectByType(rt: nat, p: nat) returns (res: TResult)
      requires At(rt, p) && FreshFrom(mLooks, rt, 0)
      modifies this
      ensures Looked(rt, p, old(mTree), old(View()), res)
      ensures !mHung ==> KeepsLooks(old(mInProcess[..|mInProcess| - 1]), old(mLooks), mLooks)
      ensures Comes(res) == ByType(g, old(Now()), rt, p)
      decreases |g.rules| - |mInProcess| - |mDone|, 4
    {
      hide OnceInv, FreshFrom, KeepsLooks, OfOneof, OfConcatenate, OfElement, Fits, LaInv, FlowInv, Nullable, LeftEdge,
           Looked, Chain;
      RuleShape(g, View(), rt);
      FitsNow(g, View(), Now());
      match g.rules[rt].mType {
        case Oneof => res := DetectOneof(rt, p);
        case Data => res := DetectData(rt, p);
        case Zeroorone => res := DetectZeroorXXX(rt, p);
        case Zeroormore => res := DetectZeroorXXX(rt, p);
        case Concatenate => res := DetectConcatenate(rt, p);
      }
    }

    // The walk is at rule `rt`, which has node `p`.
    ghost predicate At(rt: nat, p: nat)
      reads this
    {
      Running(Some(p)) && mTree[p].data == rt && rt < |g.rules| && !IsLeafRule(g, rt)
    }

    // The elements of `rt` have been looked into, as far as it takes; the result has its reasons.
    ghost predicate Looked(rt: nat, p: nat, tree: seq<TreeNode>, s: LaState, res: TResult)
      requires rt < |g.rules|
      reads this
    {
      && After(Some(p), tree, s)
      && (!mHung ==> KidsKnown(g, View(), rt) && Evidence(g, View(), rt, res.MaybeZero?))
      && (!mHung && res.MaybeZero? ==> Nullable(g.rules, rt))
    }

    // Every element is an alternative.
    method DetectOneof(rt: nat, p: nat) returns (res: TResult)
      requires At(rt, p) && g.rules[rt].mType.Oneof? && FreshFrom(mLooks, rt, 0)
      modifies this
      ensures Looked(rt, p, old(mTree), old(View()), res)
      ensures !mHung ==> KeepsLooks(old(mInProcess[..|mInProcess| - 1]), old(mLooks), mLooks)
      ensures Comes(res) == OfOneof(g, old(Now()), rt, p, 0, NA)
      decreases |g.rules| - |mInProcess| - |mDone|, 3
    {
      hide OnceInv, FreshFrom, KeepsLooks, OfElement, Fits, LaInv, FlowInv, Lists, Nullable, LeftEdge, KidsKnown, Known,
           Stops, WalkedTo, Chain;
      ghost var s0 := View();
      InvParts(g, s0);
      Bounded(g, s0);
      FitsNow(g, s0, Now());
      ChainEnd(mTree, p);
      ghost var path, l0 := mInProcess[..|mInProcess| - 1], mLooks;
      LastIsNew(g, s0, rt);
      KeepsItself(path, l0);
      res := NA;
      var data := g.rules[rt].mData;
      NothingWalked(g, s0, rt);
      for i := 0 to |data|
        invariant Sane() && At(rt, p) && old(mTree) <= mTree && Extends(s0, View())
        invariant |mInProcess| == |s0.inProcess| && |s0.done| <= |mDone|
        invariant Walks(g, View(), rt, i) && (res.MaybeZero? ==> Nullable(g.rules, rt))
        invariant !res.MaybeZero? ==> forall j :: 0 <= j < i ==> Stops(g, View(), rt, j)
        invariant FreshFrom(mLooks, rt, i) && KeepsLooks(path, l0, mLooks) && mInProcess[..|mInProcess| - 1] == path
        invariant Fits(g, Now()) && OfOneof(g, Now(), rt, p, i, res) == OfOneof(g, old(Now()), rt, p, 0, NA)
      {
        OnlyPos(g.rules, rt, i);
        ghost var s1, l1 := View(), mLooks;
        var temp := DetectOneDataEntry(rt, i, p);
        if mHung { return; }
        OneMoreKid(g, s1, View(), rt, i, temp);
        ExtendsTrans(s0, s1, View());
        KeepsTrans(path, l0, l1, mLooks);
        FitsNow(g, View(), Now());
        if temp.MaybeZero? {
          res := MaybeZero;
          NullableByOne(g.rules, rt, i);
        }
      }
      AllKids(g, View(), rt);
    }

    method DetectData(rt: nat, p: nat) returns (res: TResult)
      requires At(rt, p) && g.rules[rt].mType.Data? && |g.rules[rt].mData| == 1 && FreshFrom(mLooks, rt, 0)
      modifies this
      ensures Looked(rt, p, old(mTree), old(View()), res)
      ensures !mHung ==> KeepsLooks(old(mInProcess[..|mInProcess| - 1]), old(mLooks), mLooks)
      ensures Comes(res) == OfElement(g, old(Now()), rt, 0, p)
      decreases |g.rules| - |mInProcess| - |mDone|, 3
    {
      hide OnceInv, FreshFrom, KeepsLooks, OfElement, Fits, LaInv, FlowInv, Nullable, LeftEdge, Known, KidsKnown, Stops,
           WalkedTo, Chain;
      ghost var s0 := View();
      OnlyPos(g.rules, rt, 0);
      NothingWalked(g, s0, rt);
      res := DetectOneDataEntry(rt, 0, p);
      if mHung { return; }
      OneMoreKid(g, s0, View(), rt, 0, res);
      AllKids(g, View(), rt);
      if res.MaybeZero? { NullableByOne(g.rules, rt, 0); }
    }

    // Zero times is always possible.
    method DetectZeroorXXX(rt: nat, p: nat) returns (res: TResult)
      requires At(rt, p) && (g.rules[rt].mType.Zeroorone? || g.rules[rt].mType.Zeroormore?) && |g.rules[rt].mData| == 1 && FreshFrom(mLooks, rt, 0)
      modifies this
      ensures Looked(rt, p, old(mTree), old(View()), res)
      ensures !mHung ==> KeepsLooks(old(mInProcess[..|mInProcess| - 1]), old(mLooks), mLooks)
      ensures Comes(res) == Anyway(OfElement(g, old(Now()), rt, 0, p))
      decreases |g.rules| - |mInProcess| - |mDone|, 3
    {
      hide OnceInv, FreshFrom, KeepsLooks, OfElement, Fits, LaInv, FlowInv, Nullable, LeftEdge, Known, KidsKnown, Stops,
           WalkedTo, Chain;
      ghost var s0 := View();
      OnlyPos(g.rules, rt, 0);
      NothingWalked(g, s0, rt);
      var temp := DetectOneDataEntry(rt, 0, p);
      NullableByNone(g.rules, rt);
      if !mHung {
        OneMoreKid(g, s0, View(), rt, 0, temp);
        AllKids(g, View(), rt);
      }
      return MaybeZero;
    }

    // Elements in order, up to the first that is not MaybeZero; the rest is for later.
    method DetectConcatenate(rt: nat, p: nat) returns (res: TResult)
      requires At(rt, p) && g.rules[rt].mType.Concatenate? && FreshFrom(mLooks, rt, 0)
      modifies this
      ensures Looked(rt, p, old(mTree), old(View()), res)
      ensures !mHung ==> KeepsLooks(old(mInProcess[..|mInProcess| - 1]), old(mLooks), mLooks)
      ensures Comes(res) == OfConcatenate(g, old(Now()), rt, p, 0)
      decreases |g.rules| - |mInProcess| - |mDone|, 3
    {
      hide OnceInv, FreshFrom, KeepsLooks, OfElement, Fits, RestToDo, LaInv, FlowInv, Lists, Nullable, LeftEdge, KidsKnown,
           Known, Stops, WalkedTo, Chain;
      ghost var s0 := View();
      InvParts(g, s0);
      Bounded(g, s0);
      FitsNow(g, s0, Now());
      ChainEnd(mTree, p);
      ghost var path, l0 := mInProcess[..|mInProcess| - 1], mLooks;
      LastIsNew(g, s0, rt);
      KeepsItself(path, l0);
      res := NA;
      var data := g.rules[rt].mData;
      NothingWalked(g, s0, rt);
      for i := 0 to |data|
        invariant Sane() && At(rt, p) && old(mTree) <= mTree && Extends(s0, View())
        invariant |mInProcess| == |s0.inProcess| && |s0.done| <= |mDone|
        invariant Walks(g, View(), rt, i) && forall j :: 0 <= j < i ==> data[j].Subtable? && Nullable(g.rules, data[j].entry)
        invariant FreshFrom(mLooks, rt, i) && KeepsLooks(path, l0, mLooks) && mInProcess[..|mInProcess| - 1] == path
        invariant Fits(g, Now()) && OfConcatenate(g, Now(), rt, p, i) == OfConcatenate(g, old(Now()), rt, p, 0)
      {
        ghost var s1, l1 := View(), mLooks;
        var temp := DetectOneDataEntry(rt, i, p);
        if mHung { return; }
        OneMoreKid(g, s1, View(), rt, i, temp);
        ExtendsTrans(s0, s1, View());
        KeepsTrans(path, l0, l1, mLooks);
        FitsNow(g, View(), Now());
        if !temp.MaybeZero? {
          ghost var s2, l2 := View(), mLooks;
          ChainEnd(mTree, p);
          assert mInProcess[|mInProcess| - 1] == rt && rt in mInProcess;
          AddToDoFrom(rt, i + 1);
          KeepsTrans(path, l0, l2, mLooks);
          ExtendsTrans(s0, s2, View());
          RestKids(g, s2, View(), rt, i + 1);
          return NA;
        }
      }
      AllKids(g, View(), rt);
      NullableByAll(g.rules, rt);
      return MaybeZero;
    }

    // One element: a rule is walked and lends its lookaheads, anything else is a lookahead itself.
    method DetectOneDataEntry(rt: nat, k: nat, p: nat) returns (res: TResult)
      requires At(rt, p) && LeftPos(g.rules, rt, k) && FreshFrom(mLooks, rt, k)
      modifies this
      ensures After(Some(p), old(mTree), old(View()))
      ensures !mHung ==> (rt, k) in mWalked && Outcome(g, View(), rt, k, res)
      ensures !mHung ==> FreshFrom(mLooks, rt, k + 1) && KeepsLooks(old(mInProcess[..|mInProcess| - 1]), old(mLooks), mLooks)
      ensures Comes(res) == OfElement(g, old(Now()), rt, k, p)
      decreases |g.rules| - |mInProcess| - |mDone|, 2
    {
      hide OnceInv, FreshFrom, KeepsLooks, OfRule, Fits, Copy, AddRuleLa, LaInv, FlowInv, Lists, Nullable, LeftPos, Begins,
           OnPath, Found, LeftEdge, Outcome, Chain, Passed, Extends;
      InvParts(g, View());
      PosInRange(g.rules, rt, k);
      DataShape(g, rt, k);
      FitsNow(g, View(), Now());
      ChainEnd(mTree, p);
      FreshLater(mLooks, rt, k);
      KeepsItself(mInProcess[..|mInProcess| - 1], mLooks);
      var data := g.rules[rt].mData[k];
      res := NA;
      match data {
        case Subtable(child) => res := DetectChild(rt, k, p, child);
        case Str(x) => AddData(rt, k, LaString(x));
        case Char(x) => AddData(rt, k, LaChar(x));
        case Token(x) => AddData(rt, k, LaToken(x));
      }
    }

    method DetectChild(rt: nat, k: nat, p: nat, child: nat) returns (res: TResult)
      requires At(rt, p) && LeftPos(g.rules, rt, k) && g.rules[rt].mData[k] == Subtable(child) && child < |g.rules| && FreshFrom(mLooks, rt, k)
      modifies this
      ensures After(Some(p), old(mTree), old(View()))
      ensures !mHung ==> (rt, k) in mWalked && Outcome(g, View(), rt, k, res)
      ensures !mHung ==> FreshFrom(mLooks, rt, k + 1) && KeepsLooks(old(mInProcess[..|mInProcess| - 1]), old(mLooks), mLooks)
      ensures Comes(res) == OfElement(g, old(Now()), rt, k, p)
      decreases |g.rules| - |mInProcess| - |mDone|, 2, 0
    {
      hide Tame, LookedAt, OnceInv, FreshFrom, KeepsLooks, OfRule, Fits, Copy, LaInv, FlowInv, Lists, Nullable, LeftPos,
           Begins, OnPath, Found, LeftEdge, Outcome, Chain, Offers, Passed, Follows, Waits, LasOf, Known, OnCycles,
           PendingsOK, Sound;
      ghost var s := View();
      FitsNow(g, s, Now());
      InvParts(g, s);
      PosInRange(g.rules, rt, k);
      EdgeOfPos(g.rules, rt, k, child);
      ChainEnd(mTree, p);
      ghost var path, l0 := mInProcess[..|mInProcess| - 1], mLooks;
      LastIsNew(g, s, rt);
      if Tame(g, gTopRules) && child != rt { NoneMissed(g, gTopRules, s, mTree, l0, rt, k, child); }
      OnceLooked(g, gTopRules, s, mTree, l0, rt, k);
      mLooks := l0.(looked := l0.looked + {(rt, k)});
      ghost var l1 := mLooks;
      if child != rt { IsLookedAt(g, mLooks.looked, rt, k, child); }
      res := DetectRuleTable(child, Some(p));
      if mHung { return; }
      ghost var s1, tree := View(), mTree;
      KeepsFresh(s.inProcess, l1, mLooks, rt, k + 1);
      KeepsFewer(s.inProcess, l1, mLooks);
      KeepsTrans(path, l0, l1, mLooks);
      InvParts(g, s1);
      forall la | Begins(g, child, la)
        ensures Begins(g, rt, la)
      {
        BeginsOnEdge(g, rt, child, la);
      }
      NotDone(g, s1);
      CopyRuleLookAhead(rt, child);
      LasReplaced(g, s1, mRuleLookAheads);
      if mHung {
        SelfCycle(g, rt);
        return;
      }
      ListGrown(g, s1, mTree, mRuleLookAheads, rt);
      OnceStays(g, gTopRules, s1, View(), mTree, mLooks);
      Record(s, s1, rt, k, child, res);
      ExtendsTrans(s, s1, View());
    }

    // Puts on record how the element was looked into.
    ghost method Record(s: LaState, s1: LaState, rt: nat, k: nat, child: nat, res: TResult)
      requires Inv() && WellFormed(g.rules) && LaInv(g, s) && LaInv(g, s1) && View() == s1.(las := mRuleLookAheads)
      requires rt < |g.rules| && !IsLeafRule(g, rt) && k < |g.rules[rt].mData| && g.rules[rt].mData[k] == Subtable(child)
      requires LeftEdge(g.rules, rt, child) && s.inProcess != [] && s.inProcess[|s.inProcess| - 1] == rt
      requires Extends(s, s1) && s1.inProcess == s.inProcess && Linked(s, s1, rt, child) && (rt != child ==> Offers(mRuleLookAheads, child, rt))
      requires (child in s.inProcess && res.NA?) || (child in s1.done && (res.MaybeZero? <==> child in s1.maybeZero))
      requires Tame(g, gTopRules) && child !in s.inProcess ==> forall q: nat :: !Waits(s.pendings, child, q)
      modifies this`mWalked, this`mMet, this`mMissed
      ensures Inv() && Extends(s1, View()) && (rt, k) in mWalked && Outcome(g, View(), rt, k, res)
      ensures Now() == old(Now())
    {
      hide OnceInv, Tame, LaInv, FlowInv, Nullable, LeftEdge, Offers, Follows, Waits, LasOf, OnCycles, Lists, Linked,
           Extends, Outcome, WellFormed;
      var v := View();
      DoneBefore(s, s1, rt, child);
      LasOnly(s1, v);
      var met := if child in s.inProcess then {(rt, child)} else {};
      var missed := if child !in s.inProcess && child in s.done && exists q: nat :: Waits(s.pendings, child, q) then {(rt, child)} else {};
      RecordsFit(g, s, v, mTree, rt, child, met, missed);
      mMet, mMissed := mMet + met, mMissed + missed;
      RecordsReplaced(g, v, View());
      PairsRecorded(g, v, mTree, met, missed);
      var w := View();
      OnceStays(g, gTopRules, v, w, mTree, mLooks);
      NotDone(g, s);
      NotDone(g, v);
      ChildPassed(g, s, s1, w, rt, k, child);
      mWalked := mWalked + {(rt, k)};
      RecordsReplaced(g, w, View());
      WalkedAdded(g, w, mTree, rt, k);
      OnceStays(g, gTopRules, w, View(), mTree, mLooks);
      ChildOutcome(g, View(), rt, k, child, res);
      ExtendsTrans(s1, v, w);
      ExtendsTrans(s1, w, View());
    }

    method AddData(rt: nat, k: nat, la: LookAhead)
      requires Inv() && LeftPos(g.rules, rt, k) && IsElement(g, rt, k) && rt in mInProcess
      requires !g.rules[rt].mData[k].Subtable? && la == LaOf(g.rules[rt].mData[k])
      modifies this`mRuleLookAheads, this`mWalked
      ensures Sane() && Inv() && Extends(old(View()), View()) && (rt, k) in mWalked && Outcome(g, View(), rt, k, NA)
      ensures Now() == old(Now()).(las := AddRuleLa(old(mRuleLookAheads), rt, la))
    {
      hide OnceInv, KeepsLooks, LaInv, FlowInv, Lists, Begins, LeftPos, Copied, AddLookAhead;
      InvParts(g, View());
      BeginsWithData(g, rt, k, la);
      AddRuleLookAhead(rt, la);
      AddedIsCopied(LasOf(old(mRuleLookAheads), rt), la);
      LasReplaced(g, old(View()), mRuleLookAheads);
      NotDone(g, old(View()));
      ListGrown(g, old(View()), mTree, mRuleLookAheads, rt);
      ghost var s := View();
      mWalked := mWalked + {(rt, k)};
      RecordsReplaced(g, s, View());
      WalkedAdded(g, s, mTree, rt, k);
      OnceStays(g, gTopRules, old(View()), View(), mTree, mLooks);
    }

    // -------- Back patching

    method GetPending(rt: nat) returns (found: bool, index: nat)
      ensures found ==> index < |mPendings| && mPendings[index].mRule == rt && forall i :: 0 <= i < index ==> mPendings[i].mRule != rt
      ensures !found ==> forall i :: 0 <= i < |mPendings| ==> mPendings[i].mRule != rt
    {
      for i := 0 to |mPendings|
        invariant forall j :: 0 <= j < i ==> mPendings[j].mRule != rt
      {
        if mPendings[i].mRule == rt { return true, i; }
      }
      return false, 0;
    }

    // The lookaheads of a rule, to those that wait for it. It is asserted to have a list.
    method PatchPending(pending: Pending)
      requires !mHung && Sound(g, mRuleLookAheads) && WellFormed(g.rules)
      requires Entries(mPendings) && pending in mPendings && !Waits(mPendings, pending.mRule, pending.mRule)
      requires forall d: nat :: d in pending.mDependents ==> Reach(LeftEdges(g.rules), d, pending.mRule)
      modifies this`mRuleLookAheads, this`mHung
      ensures Sound(g, mRuleLookAheads)
      ensures mHung <==> pending.mRule !in old(mRuleLookAheads)
      ensures !mHung ==> PatchedBy(mPendings, old(mRuleLookAheads), mRuleLookAheads, pending.mRule)
      ensures !mHung ==> PatchEach(old(mRuleLookAheads), pending.mDependents, pending.mRule) == Some(mRuleLookAheads)
    {
      hide Copy, Begins, WellFormed, Found, Reach, Copied, LasOf, Waits, Offers;
      var q := pending.mRule;
      ghost var las := mRuleLookAheads;
      WaitsForEntry(mPendings, pending);
      if q !in mRuleLookAheads {
        mHung := true;
        return;
      }
      var deps := pending.mDependents;
      for i := 0 to |deps|
        invariant !mHung && Sound(g, mRuleLookAheads) && LasOf(mRuleLookAheads, q) == LasOf(las, q)
        invariant forall r :: LasOf(las, r) <= LasOf(mRuleLookAheads, r)
        invariant forall r :: r !in deps ==> LasOf(mRuleLookAheads, r) == LasOf(las, r)
        invariant forall r, la :: la in LasOf(mRuleLookAheads, r) ==> la in LasOf(las, r) || la in LasOf(las, q)
        invariant forall j :: 0 <= j < i ==> Offers(mRuleLookAheads, q, deps[j])
        invariant PatchEach(mRuleLookAheads, deps[i..], q) == PatchEach(las, deps, q)
      {
        var dep := deps[i];
        assert deps[i..] == [dep] + deps[i + 1..];
        assert dep in deps && dep != q;
        forall la | Begins(g, q, la)
          ensures Begins(g, dep, la)
        {
          BeginsOnPath(g, dep, q, la);
        }
        ghost var before := mRuleLookAheads;
        CopyRuleLookAhead(dep, q);
        forall j | 0 <= j < i
          ensures Offers(mRuleLookAheads, q, deps[j])
        {
          OffersStay(before, mRuleLookAheads, q, deps[j]);
        }
      }
      assert deps[|deps|..] == [];
    }

    // From the root of the tree on, level by level. Afterwards nobody waits.
    method BackPatch()
      requires Inv() && mInProcess == []
      modifies this`mRuleLookAheads, this`mHung
      ensures Sane() && (!mHung ==> FlowInv(g, View().(pendings := []), []))
      ensures PatchTree(old(mRuleLookAheads), mPendings, mTree, FirstNode(mTree), |mTree|) == if mHung then None else Some(mRuleLookAheads)
    {
      hide Patching, Entries, LeftRecursive, PatchEach, OnceInv, Patch, PatchTree, ChildrenOf, Sound, WellFormed, Reach,
           FlowInv, LaInv, Waits, LasOf, Offers, Queue, PatchedBy, PendingsOK;
      ghost var s := View();
      InvParts(g, s);
      FlowParts(g, s, mTree);
      var working: seq<nat> := if mTree == [] then [] else [0];
      ghost var patched: seq<nat> := [];
      QueueStart(mTree);
      NothingPatched(s, mTree);
      while working != []
        invariant !mHung && Sound(g, mRuleLookAheads) && Queue(mTree, patched, working)
        invariant Patching(s, mTree, mRuleLookAheads, patched) && |patched| <= |mTree|
        invariant PatchTree(mRuleLookAheads, mPendings, mTree, working, |mTree| - |patched|)
               == PatchTree(old(mRuleLookAheads), mPendings, mTree, FirstNode(mTree), |mTree|)
        decreases |mTree| - |patched|
      {
        var node := working[0];
        QueueRoom(mTree, patched, working);
        QueueTells(mTree, patched, working);
        QueueStep(mTree, patched, working);
        ghost var las := mRuleLookAheads;
        PatchTreeStep(las, mPendings, mTree, working, |mTree| - |patched|);
        var found, i := GetPending(mTree[node].data);
        PatchAt(las, mPendings, mTree[node].data, found, i);
        if found {
          PendingTells(g, s, mTree, mPendings[i]);
          PatchPending(mPendings[i]);
          if mHung { return; }
        } else {
          NotWaitedFor(mPendings, las, mTree[node].data);
        }
        PatchStep(g, s, mTree, las, mRuleLookAheads, patched, node);
        working := working[1..] + ChildrenOf(mTree, node, |mTree|);
        patched := patched + [node];
      }
      PatchTreeEnd(mRuleLookAheads, mPendings, mTree, |mTree| - |patched|);
      AllPatched(mTree, patched);
      AllGiven(g, s, mTree, mRuleLookAheads, patched);
      ListsGrown(s, mTree, mRuleLookAheads, patched);
      NewTree(g, s, mTree, mRuleLookAheads);
    }

    // -------- The main loop

    // Between two trees.
    ghost predicate Between()
      reads this
    {
      && !mHung && LaInv(g, View()) && mInProcess == [] && mTaken == [] && TopsKnown(View(), gTopRules)
      && FlowInv(g, View().(pendings := []), []) && OnceInv(g, gTopRules, View().(pendings := []), [], mLooks)
    }

    // Take the first rule off ToDo and walk it, unless it is done.
    method DetectFront()
      requires Between() && mToDo != []
      modifies this
      ensures Sane() && (!mHung ==> Between())
      ensures !mHung ==> |old(mDone)| < |mDone| <= |g.rules| || (mDone == old(mDone) && mToDo == old(mToDo)[1..])
      ensures OfFront(g, old(Now())) == if mHung then None else Some(Now())
    {
      hide OnceInv, OfRule, PatchTree, Fits, LaInv, FlowInv, Lists, Nullable, LeftEdge, OnPath, Known, KidsKnown, Sound,
           TreeOK, WellFormedLa, PendingsOK, WellFormed, LeftRecursive, TopsKnown;
      ghost var s0 := View();
      FitsNow(g, s0, Now());
      TakeFront(g, s0, gTopRules);
      mTree, mInProcess, mPendings := [], [], [];
      var front := mToDo[0];
      mToDo, mTaken := mToDo[1..], [front];
      FlowStays(g, s0.(pendings := []), View(), []);
      assert front in s0.toDo && forall r :: r in mToDo ==> r in s0.toDo;
      OnceNewTree(g, gTopRules, s0.(pendings := []), View(), [], mLooks);
      InvParts(g, View());
      if front !in mDone && front !in mInProcess {
        StartTree();
        var _ := DetectRuleTable(front, None);
        if mHung { return; }
        TopsStay(Taken(s0), View(), gTopRules);
        DoneGrows(g, s0, View(), front);
        ghost var s1 := View();
        BackPatch();
        if mHung { return; }
        OnceStays(g, gTopRules, s1, View(), mTree, mLooks);
        LasReplaced(g, s1, mRuleLookAheads);
        TopsSame(s1, View(), gTopRules);
      }
      PutAway(g, View(), gTopRules, front);
      ghost var s2 := View();
      mTaken := [];
      FlowStays(g, s2.(pendings := []), View().(pendings := []), []);
      OnceNewTree(g, gTopRules, s2, View().(pendings := []), mTree, mLooks);
    }

    // All lookaheads are sound. Unless the walk gets stuck in a left recursion, every rule that can be
    // walked to is done and has what its elements begin with, but for what was missed. It has all that it
    // can begin with if there is no left recursion, or in a tame grammar whose left cycles have no rule
    // that derives the empty string. All lists are those of the walk as a function of the grammar.
    method Detect()
      requires New() && WellFormedLa(g)
      requires forall t :: t in gTopRules ==> t < |g.rules|
      modifies this
      ensures forall r, la :: r in mRuleLookAheads && la in mRuleLookAheads[r] ==> Begins(g, r, la)
      ensures WellFormed(g.rules) && (mHung ==> LeftRecursive(g))
      ensures !mHung ==> NoDup(mDone) && forall t: nat, r: nat :: t in gTopRules && Reach(Walked(g), t, r) ==> r in mDone
      ensures !mHung ==> OnCycles(g, mMet) && OnCycles(g, mMissed) && forall u :: u in mDone ==> ListIsComplete(g, View(), u)
      ensures !LeftRecursive(g) ==> forall u: nat, la :: u in mDone && Begins(g, u, la) ==> Listed(LasOf(mRuleLookAheads, u), la)
      ensures !mHung && Tame(g, gTopRules) && NoEmptyCycle(g) ==>
                forall u: nat, la :: u in mDone && Begins(g, u, la) ==> Listed(LasOf(mRuleLookAheads, u), la)
      ensures WalkOf(g, gTopRules) == if mHung then None else Some(Now())
    {
      hide OnceInv, Tame, NoEmptyCycle, OfFront, LaInv, FlowInv, Lists, Nullable, LeftEdge, OnPath, Known, KidsKnown, Sound,
           TreeOK, WellFormedLa, PendingsOK, NoDup, WellFormed, ListIsComplete, OnCycles, LeftRecursive, Listed, Begins,
           LasOf, Ended;
      Restart(g, View(), gTopRules);
      mDone := [];
      mToDo := mToDo + gTopRules;
      assert mToDo == gTopRules;
      FitsNow(g, View(), Now());
      InvParts(g, View());
      OnceStart(g, gTopRules);
      while mToDo != [] && !mHung
        invariant Sane() && (!mHung ==> Between() && Fits(g, Now()) && OfAll(g, Now()) == WalkOf(g, gTopRules))
        invariant mHung ==> WalkOf(g, gTopRules) == None
        decreases !mHung, |g.rules| - |mDone|, |mToDo|
      {
        DetectFront();
        if !mHung { FitsNow(g, View(), Now()); }
      }
      SoundTells(g, mRuleLookAheads);
      if !mHung {
        Finish(g, View(), gTopRules);
        NoneMissedAtAll(g, gTopRules, View(), mLooks);
        EndReached(g, View());
      }
    }

    lemma StartTree()
      requires mTree == []
      ensures TreeOK(mTree) && Chain(mTree, None) == []
    {
    }
  }

  // -------- Parts of the invariant

  lemma InvParts(g: LaGrammar, s: LaState)
    requires LaInv(g, s)
    ensures WellFormedLa(g) && WellFormed(g.rules) && Lists(g, s) && Sound(g, s.las) && PendingsOK(g, s.pendings) && OnPath(g, s.inProcess)
    ensures forall r :: r in s.inProcess || r in s.done ==> r < |g.rules|
  {
  }

  lemma FitsNow(g: LaGrammar, s: LaState, w: Walk)
    requires LaInv(g, s) && w.toDo == s.toDo
    ensures Fits(g, w)
  {
  }

  // -------- Elements looked into once

  lemma NewIsFresh(g: LaGrammar, tops: seq<nat>, s: LaState, tree: seq<TreeNode>, l: Looks, rt: nat)
    requires OnceInv(g, tops, s, tree, l) && rt !in s.inProcess && rt !in s.done
    ensures FreshFrom(l, rt, 0)
  {
    hide Wanted, Waits, WellFormed, Tame, Met, TreeLooked;
  }

  lemma FreshLater(l: Looks, u: nat, k: nat)
    requires FreshFrom(l, u, k)
    ensures FreshFrom(l, u, k + 1)
  {
  }

  lemma KeepsItself(path: seq<nat>, l: Looks)
    ensures KeepsLooks(path, l, l)
  {
  }

  lemma KeepsFewer(path: seq<nat>, l: Looks, l': Looks)
    requires path != [] && KeepsLooks(path, l, l')
    ensures KeepsLooks(path[..|path| - 1], l, l')
  {
  }

  lemma LastIsNew(g: LaGrammar, s: LaState, rt: nat)
    requires LaInv(g, s) && s.inProcess != [] && s.inProcess[|s.inProcess| - 1] == rt
    ensures rt !in s.inProcess[..|s.inProcess| - 1]
  {
  }

  lemma IsLookedAt(g: LaGrammar, looked: set<(nat, nat)>, u: nat, k: nat, v: nat)
    requires (u, k) in looked && Mentions(g, u, k, v)
    ensures LookedAt(g, looked, u, v)
  {
  }

  lemma NoneMissedAtAll(g: LaGrammar, tops: seq<nat>, s: LaState, l: Looks)
    requires OnceInv(g, tops, s.(pendings := []), [], l)
    ensures WellFormed(g.rules) && (Tame(g, tops) ==> s.missed == {})
  {
  }

  // -------- Steps of the walk

  lemma ListedAs(las: RuleLookAheads, to: nat, la: LookAhead)
    ensures AddRuleLa(las, to, la) == las[to := AddLookAhead(LasOf(las, to), la)]
    ensures LasOf(AddRuleLa(las, to, la), to) == AddLookAhead(LasOf(las, to), la)
    ensures forall r :: r != to ==> LasOf(AddRuleLa(las, to, la), r) == LasOf(las, r)
  {
    hide Found;
  }

  lemma ToldMore(pendings: seq<Pending>, path: seq<nat>, i: nat, q: nat)
    requires i < |path| && path[i] != q
    ensures Told(pendings, path[..i + 1], q) == Told(PendingAdded(pendings, q, path[i]), path[..i], q)
  {
    assert path[..i + 1][..i] == path[..i];
  }

  lemma ToldAll(pendings: seq<Pending>, path: seq<nat>, q: nat)
    requires path != [] && path[|path| - 1] == q
    ensures Told(pendings, path, q) == pendings
  {
  }

  lemma PatchTreeStep(las: RuleLookAheads, pendings: seq<Pending>, tree: seq<TreeNode>, working: seq<nat>, n: nat)
    requires working != [] && working[0] < |tree| && n > 0
    ensures PatchTree(las, pendings, tree, working, n) ==
              match Patch(las, pendings, tree[working[0]].data)
              case None => None
              case Some(las1) => PatchTree(las1, pendings, tree, working[1..] + ChildrenOf(tree, working[0], |tree|), n - 1)
  {
  }

  lemma PatchTreeEnd(las: RuleLookAheads, pendings: seq<Pending>, tree: seq<TreeNode>, n: nat)
    ensures PatchTree(las, pendings, tree, [], n) == Some(las)
  {
  }

  // The entry that is changed comes after others.
  lemma {:induction false} AddedAt(pendings: seq<Pending>, i: nat, q: nat, d: nat)
    requires i <= |pendings| && (i < |pendings| ==> pendings[i].mRule == q) && forall j :: 0 <= j < i ==> pendings[j].mRule != q
    ensures PendingAdded(pendings, q, d) ==
              if i == |pendings| then pendings + [Pending(q, [d])]
              else if d in pendings[i].mDependents then pendings
              else pendings[i := Pending(q, pendings[i].mDependents + [d])]
  {
    if i > 0 {
      AddedAt(pendings[1..], i - 1, q, d);
      assert pendings == [pendings[0]] + pendings[1..];
    } else if pendings != [] {
      assert pendings == [pendings[0]] + pendings[1..];
    }
  }

  lemma {:induction false} PatchAt(las: RuleLookAheads, pendings: seq<Pending>, q: nat, found: bool, i: nat)
    requires if found then i < |pendings| && pendings[i].mRule == q && forall j :: 0 <= j < i ==> pendings[j].mRule != q
             else forall j :: 0 <= j < |pendings| ==> pendings[j].mRule != q
    ensures Patch(las, pendings, q) ==
              if !found then Some(las) else if q !in las then None else PatchEach(las, pendings[i].mDependents, q)
    decreases pendings
  {
    if pendings != [] && pendings[0].mRule != q {
      PatchAt(las, pendings[1..], q, found, if found then i - 1 else 0);
    }
  }

  // The rules among the first `n` elements are known.
  ghost predicate KidsKnownTo(g: LaGrammar, s: LaState, u: nat, n: nat)
    requires u < |g.rules| && n <= |g.rules[u].mData|
  {
    forall k :: 0 <= k < n && g.rules[u].mData[k].Subtable? ==> Known(s, g.rules[u].mData[k].entry)
  }

  ghost predicate Walks(g: LaGrammar, s: LaState, u: nat, n: nat)
    requires u < |g.rules| && n <= |g.rules[u].mData|
  {
    KidsKnownTo(g, s, u, n) && WalkedTo(s, u, n)
  }

  // What looking into element `k` tells.
  ghost predicate Outcome(g: LaGrammar, s: LaState, u: nat, k: nat, res: TResult)
    requires u < |g.rules| && k < |g.rules[u].mData|
  {
    var d := g.rules[u].mData[k];
    && (d.Subtable? ==> Known(s, d.entry))
    && (if res.MaybeZero? then d.Subtable? && Nullable(g.rules, d.entry) else Stops(g, s, u, k))
  }

  lemma NothingWalked(g: LaGrammar, s: LaState, u: nat)
    requires u < |g.rules|
    ensures Walks(g, s, u, 0)
  {
  }

  lemma OneMoreKid(g: LaGrammar, s: LaState, s': LaState, u: nat, i: nat, res: TResult)
    requires u < |g.rules| && i < |g.rules[u].mData| && Walks(g, s, u, i) && Extends(s, s')
    requires (u, i) in s'.walked && Outcome(g, s', u, i, res)
    ensures Walks(g, s', u, i + 1) && forall j :: 0 <= j < i && Stops(g, s, u, j) ==> Stops(g, s', u, j)
    ensures if res.MaybeZero? then g.rules[u].mData[i].Subtable? && Nullable(g.rules, g.rules[u].mData[i].entry) else Stops(g, s', u, i)
  {
    hide Known, Nullable;
  }

  lemma AllKids(g: LaGrammar, s: LaState, u: nat)
    requires u < |g.rules| && Walks(g, s, u, |g.rules[u].mData|)
    ensures KidsKnown(g, s, u) && WalkedTo(s, u, |g.rules[u].mData|)
  {
    hide Known, WalkedTo;
    var data := g.rules[u].mData;
    forall v: nat | Subtable(v) in data
      ensures Known(s, v)
    {
      var k :| 0 <= k < |data| && data[k] == Subtable(v);
    }
  }

  lemma RestKids(g: LaGrammar, s: LaState, s': LaState, u: nat, i: nat)
    requires u < |g.rules| && 0 < i <= |g.rules[u].mData| && Walks(g, s, u, i) && Extends(s, s') && g.rules[u].mType.Concatenate?
    requires forall k :: i <= k < |g.rules[u].mData| && g.rules[u].mData[k].Subtable? ==> Known(s', g.rules[u].mData[k].entry)
    requires Stops(g, s, u, i - 1)
    ensures KidsKnown(g, s', u) && Evidence(g, s', u, false)
  {
    hide Known;
    var data := g.rules[u].mData;
    forall v: nat | Subtable(v) in data
      ensures Known(s', v)
    {
      var k :| 0 <= k < |data| && data[k] == Subtable(v);
    }
    assert WalkedTo(s', u, (i - 1) + 1) && Stops(g, s', u, i - 1);
  }

  lemma OnlyPos(g: Rules, u: nat, k: nat)
    requires u < |g| && k < |g[u].mData| && !g[u].mType.Concatenate?
    ensures LeftPos(g, u, k)
  {
  }

  lemma NullableByOne(g: Rules, u: nat, k: nat)
    requires u < |g| && k < |g[u].mData| && g[u].mData[k].Subtable? && Nullable(g, g[u].mData[k].entry)
    requires g[u].mType.Oneof? || (g[u].mType.Data? && |g[u].mData| == 1)
    ensures Nullable(g, u)
  {
    hide Nullable;
    assert g[u].mType.Data? ==> g[u].mData == [g[u].mData[k]];
    NullableIntro(g, u, [g[u].mData[k]]);
  }

  lemma NullableByNone(g: Rules, u: nat)
    requires u < |g| && (g[u].mType.Zeroorone? || g[u].mType.Zeroormore?)
    ensures Nullable(g, u)
  {
    hide Nullable;
    NullableIntro(g, u, []);
  }

  lemma NullableByAll(g: Rules, u: nat)
    requires u < |g| && g[u].mType.Concatenate?
    requires forall j :: 0 <= j < |g[u].mData| ==> g[u].mData[j].Subtable? && Nullable(g, g[u].mData[j].entry)
    ensures Nullable(g, u)
  {
    hide Nullable;
    NullableIntro(g, u, g[u].mData);
  }

  ghost predicate TopsKnown(s: LaState, tops: seq<nat>) {
    forall t :: t in tops ==> Known(s, t)
  }

  lemma Restart(g: LaGrammar, s: LaState, tops: seq<nat>)
    requires WellFormedLa(g) && forall t :: t in tops ==> t < |g.rules|
    requires s == LaState([], [], [], [], map[], [], [], {}, {}, {})
    ensures var s' := s.(toDo := s.toDo + tops); LaInv(g, s') && TopsKnown(s', tops) && FlowInv(g, s'.(pendings := []), [])
  {
    hide Nullable, OnCycle, LeftEdge;
  }

  // A new tree, for the first rule of the list.
  function Taken(s: LaState): LaState
    requires s.toDo != []
  {
    s.(inProcess := [], pendings := [], toDo := s.toDo[1..], taken := [s.toDo[0]])
  }

  lemma TakeFront(g: LaGrammar, s: LaState, tops: seq<nat>)
    requires LaInv(g, s) && s.inProcess == [] && s.taken == [] && s.toDo != [] && TopsKnown(s, tops)
    ensures LaInv(g, Taken(s)) && TopsKnown(Taken(s), tops) && s.toDo[0] < |g.rules| && |s.done| <= |g.rules|
  {
    hide WellFormedLa, Nullable, Sound;
    var s' := Taken(s);
    assert s.toDo[0] in s.toDo;
    assert s.toDo == [s.toDo[0]] + s.toDo[1..];
    assert forall r :: r in s.toDo <==> r == s.toDo[0] || r in s.toDo[1..];
    forall u | u in s.done && u < |g.rules| && !IsLeafRule(g, u)
      ensures KidsKnown(g, s', u)
    {
      assert KidsKnown(g, s, u);
    }
    Bounded(g, s);
  }

  lemma TopsStay(s: LaState, s': LaState, tops: seq<nat>)
    requires Extends(s, s') && TopsKnown(s, tops)
    ensures TopsKnown(s', tops)
  {
    hide Known;
  }

  lemma TopsSame(s: LaState, s': LaState, tops: seq<nat>)
    requires TopsKnown(s, tops) && forall r :: Known(s, r) <==> Known(s', r)
    ensures TopsKnown(s', tops)
  {
    hide Known;
  }

  lemma DoneGrows(g: LaGrammar, s: LaState, s': LaState, front: nat)
    requires s.done <= s'.done && front in s'.done && front !in s.done && LaInv(g, s')
    ensures |s.done| < |s'.done| <= |g.rules|
  {
    forall i | 0 <= i < |s.done|
      ensures s'.done[i] != front
    {
      assert s'.done[i] == s.done[i] && s.done[i] in s.done;
    }
    Bounded(g, s');
  }

  lemma PutAway(g: LaGrammar, s: LaState, tops: seq<nat>, front: nat)
    requires LaInv(g, s) && s.taken == [front] && front in s.done && TopsKnown(s, tops)
    ensures LaInv(g, s.(taken := [])) && TopsKnown(s.(taken := []), tops)
  {
    hide WellFormedLa, Nullable, Sound, PendingsOK, LeftEdge;
    var s' := s.(taken := []);
    assert forall r :: Known(s, r) ==> Known(s', r);
    forall u | u in s.done && u < |g.rules| && !IsLeafRule(g, u)
      ensures KidsKnown(g, s', u)
    {
      assert KidsKnown(g, s, u);
    }
  }

  lemma SoundTells(g: LaGrammar, las: RuleLookAheads)
    requires Sound(g, las)
    ensures forall r, la :: r in las && la in las[r] ==> Begins(g, r, la)
  {
    hide Begins;
  }

  // With nothing left to do, everything the walk can come to is done.
  lemma Finish(g: LaGrammar, s: LaState, tops: seq<nat>)
    requires LaInv(g, s) && s.inProcess == [] && s.toDo == [] && s.taken == [] && TopsKnown(s, tops) && WellFormed(g.rules)
    ensures NoDup(s.done) && forall t: nat, r: nat :: t in tops && Reach(Walked(g), t, r) ==> r in s.done
  {
    hide WellFormedLa, Nullable, Sound, PendingsOK, Reach;
    var done := Elems(s.done);
    forall u: nat, v: nat | u in done && Step(Walked(g), u, v)
      ensures v in done
    {
      assert KidsKnown(g, s, u);
    }
    forall t: nat, r: nat | t in tops && Reach(Walked(g), t, r)
      ensures r in s.done
    {
      ClosedKeepsReach(Walked(g), done, t, r);
    }
  }

  lemma PendingsReplaced(g: LaGrammar, s: LaState, pendings: seq<Pending>)
    requires LaInv(g, s) && PendingsOK(g, pendings)
    ensures LaInv(g, s.(pendings := pendings))
  {
    hide WellFormedLa, Sound, Nullable, LeftEdge, PendingsOK;
    KidsStay(g, s, s.(pendings := pendings));
  }

  lemma LasReplaced(g: LaGrammar, s: LaState, las: RuleLookAheads)
    requires LaInv(g, s) && Sound(g, las)
    ensures LaInv(g, s.(las := las)) && forall r :: Known(s, r) <==> Known(s.(las := las), r)
  {
    hide WellFormedLa, Sound, Nullable, LeftEdge, PendingsOK;
    KidsStay(g, s, s.(las := las));
  }

  lemma KidsStay(g: LaGrammar, s: LaState, s': LaState)
    requires s'.inProcess == s.inProcess && s'.done == s.done && s'.toDo == s.toDo && s'.taken == s.taken
    ensures forall u: nat :: u < |g.rules| && KidsKnown(g, s, u) ==> KidsKnown(g, s', u)
  {
  }

  lemma EntryInRange(g: LaGrammar, s: LaState, u: nat, k: nat)
    requires LaInv(g, s) && u < |g.rules| && k < |g.rules[u].mData| && g.rules[u].mData[k].Subtable?
    ensures g.rules[u].mData[k].entry < |g.rules|
  {
    assert WellFormedRule(|g.rules|, g.rules[u]) && g.rules[u].mData[k] in g.rules[u].mData;
  }

  lemma RuleShape(g: LaGrammar, s: LaState, u: nat)
    requires LaInv(g, s) && u < |g.rules|
    ensures WellFormedRule(|g.rules|, g.rules[u])
  {
  }

  lemma DataShape(g: LaGrammar, u: nat, k: nat)
    requires WellFormedLa(g) && u < |g.rules| && !IsLeafRule(g, u) && k < |g.rules[u].mData|
    ensures var d := g.rules[u].mData[k]; d.Char? || d.Str? || d.Token? || (d.Subtable? && d.entry < |g.rules|)
  {
    assert WellFormedRule(|g.rules|, g.rules[u]) && g.rules[u].mData[k] in g.rules[u].mData;
  }

  lemma PosInRange(g: Rules, u: nat, k: nat)
    requires LeftPos(g, u, k)
    ensures u < |g| && k < |g[u].mData|
  {
  }

  lemma EdgeOfPos(g: Rules, u: nat, k: nat, v: nat)
    requires LeftPos(g, u, k) && g[u].mData[k] == Subtable(v)
    ensures LeftEdge(g, u, v)
  {
  }

  lemma ChainEnd(t: seq<TreeNode>, p: nat)
    requires TreeOK(t) && p < |t|
    ensures var c := Chain(t, Some(p));
            c != [] && c[|c| - 1] == t[p].data && c[..|c| - 1] == Chain(t, t[p].parent)
  {
  }

  lemma ChainNew(t: seq<TreeNode>, p: Option<nat>, rt: nat)
    requires TreeOK(t) && (p.Some? ==> p.value < |t|)
    ensures TreeOK(t + [TreeNode(rt, p)]) && Chain(t + [TreeNode(rt, p)], Some(|t|)) == Chain(t, p) + [rt]
  {
    ChainPrefix(t, t + [TreeNode(rt, p)], p);
  }

  lemma EnterKeepsInv(g: LaGrammar, s: LaState, t: seq<TreeNode>, p: Option<nat>, rt: nat)
    requires LaInv(g, s) && rt < |g.rules| && rt !in s.inProcess && rt !in s.done
    requires TreeOK(t) && (p.Some? ==> p.value < |t|) && Chain(t, p) == s.inProcess
    requires p.Some? ==> LeftEdge(g.rules, t[p.value].data, rt)
    ensures LaInv(g, s.(inProcess := s.inProcess + [rt]))
  {
    hide LaInv, LeftEdge;
    if p.Some? { ChainEnd(t, p.value); }
    PushKeepsInv(g, s, rt);
  }

  // A node that is not the one looked for has a node above it.
  lemma StepUp(t: seq<TreeNode>, dep: nat, path: seq<nat>, i: nat, rt: nat)
    requires TreeOK(t) && dep < |t| && i < |path| && Chain(t, Some(dep)) == path[..i + 1]
    requires rt in path[..i + 1] && t[dep].data != rt
    ensures path[i] == t[dep].data && i > 0 && t[dep].parent.Some? && t[dep].parent.value < dep
    ensures Chain(t, t[dep].parent) == path[..i] && rt in path[..i]
  {
    ChainEnd(t, dep);
    assert path[..i + 1][i] == path[i] && path[..i + 1] == path[..i] + [path[i]];
    assert path[..i + 1][..i] == path[..i];
  }

  lemma PathTop(t: seq<TreeNode>, p: Option<nat>)
    requires TreeOK(t) && (p.Some? ==> p.value < |t|) && Chain(t, p) != []
    ensures p.Some?
  {
  }

  lemma EnterLeave(s0: LaState, s1: LaState, s2: LaState, rt: nat, zero: bool)
    requires s1 == s0.(inProcess := s0.inProcess + [rt]) && Extends(s1, s2) && rt !in s0.done
    ensures Extends(s0, Popped(s2, rt, zero)) && rt in Popped(s2, rt, zero).done
  {
    PopKnows(s2, rt, zero);
    assert s2.inProcess[..|s2.inProcess| - 1] == s0.inProcess;
    forall r | Known(s0, r)
      ensures Known(s1, r)
    {
    }
  }

  // A rule is entered, walked and left.
  lemma FinishRule(g: LaGrammar, s0: LaState, s2: LaState, tree: seq<TreeNode>, rt: nat, zero: bool)
    requires LaInv(g, s2) && FlowInv(g, s2, tree) && rt !in s0.done
    requires Extends(s0.(inProcess := s0.inProcess + [rt]), s2) && (zero ==> Nullable(g.rules, rt))
    requires if IsLeafRule(g, rt) then LeafListed(g, s2, rt) && !zero
             else rt < |g.rules| && KidsKnown(g, s2, rt) && Evidence(g, s2, rt, zero)
    ensures s2.inProcess != [] && s2.inProcess[|s2.inProcess| - 1] == rt
    ensures var s := Popped(s2, rt, zero);
            && LaInv(g, s) && FlowInv(g, s, tree) && Extends(s0, s) && s.inProcess == s0.inProcess
            && rt in s.done && (zero <==> rt in s.maybeZero)
  {
    hide LaInv, FlowInv, Nullable, KidsKnown, Evidence, LeafListed, Known;
    NotDone(g, s2);
    PopKeepsInv(g, s2, rt, zero);
    PoppedFlow(g, s2, tree, rt, zero);
    EnterLeave(s0, s0.(inProcess := s0.inProcess + [rt]), s2, rt, zero);
  }

  lemma AddedIsCopied(list: seq<LookAhead>, la: LookAhead)
    ensures list <= AddLookAhead(list, la) && Copied(AddLookAhead(list, la), la)
    ensures forall x :: x in AddLookAhead(list, la) ==> x in list || x == la
  {
    hide LookAheadEqual;
  }

  lemma NotDone(g: LaGrammar, s: LaState)
    requires LaInv(g, s)
    ensures forall r :: r in s.inProcess ==> r !in s.done
    ensures forall r :: r in s.maybeZero ==> r in s.done && Nullable(g.rules, r)
  {
    hide Nullable;
  }

  lemma RecordsReplaced(g: LaGrammar, s: LaState, s': LaState)
    requires LaInv(g, s) && s' == s.(walked := s'.walked, met := s'.met, missed := s'.missed)
    requires s.walked <= s'.walked && s.met <= s'.met && s.missed <= s'.missed
    ensures LaInv(g, s') && Extends(s, s')
  {
    hide WellFormedLa, Sound, Nullable, LeftEdge, PendingsOK;
    KidsStay(g, s, s');
  }

  // -------- The tree and those that wait

  lemma FlowParts(g: LaGrammar, s: LaState, tree: seq<TreeNode>)
    requires FlowInv(g, s, tree)
    ensures TreeOK(tree) && PendingsFit(tree, s.pendings) && Entries(s.pendings)
    ensures forall i, j :: 0 <= i < j < |tree| ==> tree[i].data != tree[j].data
    ensures forall i :: 0 < i < |tree| ==> tree[i].parent.Some?
  {
    hide PendingsFit, WalkedFits, Complete, OnCycles, LeftEdge, WellFormed;
    FitTells(tree, s.pendings);
  }

  lemma FitTells(tree: seq<TreeNode>, pendings: seq<Pending>)
    requires TreeOK(tree) && PendingsFit(tree, pendings)
    ensures Entries(pendings)
  {
    hide Waits, Under, Entries;
  }

  // What a call leaves of the edge from `u` to `v`.
  ghost predicate Linked(s: LaState, s': LaState, u: nat, v: nat) {
    if v in s.inProcess then u == v || Waits(s'.pendings, u, v)
    else if v in s.done then s' == s
    else v in s'.done && Follows(s'.pendings, v, u)
  }

  lemma NewToTree(g: LaGrammar, s: LaState, tree: seq<TreeNode>, rt: nat)
    requires FlowInv(g, s, tree) && rt !in s.inProcess && rt !in s.done
    ensures !InTree(tree, rt)
  {
    hide PendingsFit, WalkedFits, Complete, OnCycles, LeftEdge, WellFormed;
  }

  lemma NodeIsThere(tree: seq<TreeNode>, tree': seq<TreeNode>, rt: nat, p: Option<nat>)
    requires !InTree(tree, rt) && (tree' == tree || tree + [TreeNode(rt, p)] <= tree')
    ensures InTree(tree', rt) ==> |tree| < |tree'| && tree'[|tree|] == TreeNode(rt, p)
  {
  }

  lemma OneMoreWaits(pendings: seq<Pending>, pendings': seq<Pending>, i: nat, r: nat, d: nat)
    requires Entries(pendings) && i < |pendings| && pendings[i].mRule == r
    requires var p := pendings[i]; pendings' == if d in p.mDependents then pendings else pendings[i := Pending(r, p.mDependents + [d])]
    ensures Entries(pendings')
    ensures forall x: nat, q: nat :: Waits(pendings', x, q) <==> Waits(pendings, x, q) || (x == d && q == r)
  {
    assert forall j :: 0 <= j < |pendings| && j != i ==> pendings'[j] == pendings[j];
    forall x: nat, q: nat
      ensures Waits(pendings', x, q) <==> Waits(pendings, x, q) || (x == d && q == r)
    {
      if Waits(pendings, x, q) {
        var j :| 0 <= j < |pendings| && pendings[j].mRule == q && x in pendings[j].mDependents;
        assert pendings'[j].mRule == q && x in pendings'[j].mDependents;
      }
      if x == d && q == r { assert x in pendings'[i].mDependents; }
    }
  }

  lemma OneMoreEntry(pendings: seq<Pending>, r: nat, d: nat)
    requires Entries(pendings) && forall j :: 0 <= j < |pendings| ==> pendings[j].mRule != r
    ensures Entries(pendings + [Pending(r, [d])])
    ensures forall x: nat, q: nat :: Waits(pendings + [Pending(r, [d])], x, q) <==> Waits(pendings, x, q) || (x == d && q == r)
  {
    var pendings' := pendings + [Pending(r, [d])];
    assert pendings'[|pendings|] == Pending(r, [d]);
    forall x: nat, q: nat | Waits(pendings, x, q)
      ensures Waits(pendings', x, q)
    {
      var j :| 0 <= j < |pendings| && pendings[j].mRule == q && x in pendings[j].mDependents;
      assert pendings'[j] == pendings[j];
    }
  }

  lemma NoneLeftOut(tree: seq<TreeNode>, pendings: seq<Pending>, rt: nat, p: nat)
    requires TreeOK(tree) && PendingsFit(tree, pendings)
    ensures PendingsFitBut(tree, pendings, rt, Some(p))
  {
    hide Waits, Under, Entries, InTree;
  }

  lemma EntriesOf(tree: seq<TreeNode>, pendings: seq<Pending>, rt: nat, dep: nat)
    requires TreeOK(tree) && PendingsFitBut(tree, pendings, rt, Some(dep))
    ensures Entries(pendings)
  {
    hide Waits, Under, Entries, InTree;
  }

  // The rule of node `dep` waits now; next comes the rule above it.
  lemma OneUp(tree: seq<TreeNode>, pendings: seq<Pending>, pendings': seq<Pending>, rt: nat, dep: nat)
    requires TreeOK(tree) && PendingsFitBut(tree, pendings, rt, Some(dep)) && Entries(pendings')
    requires forall i, j :: 0 <= i < j < |tree| ==> tree[i].data != tree[j].data
    requires dep < |tree| && tree[dep].data != rt && tree[dep].parent.Some?
    requires forall x: nat, q: nat :: Waits(pendings', x, q) <==> Waits(pendings, x, q) || (x == tree[dep].data && q == rt)
    ensures PendingsFitBut(tree, pendings', rt, tree[dep].parent)
  {
    hide Waits, Entries;
    forall b: nat, q: nat | b < |tree| && Waits(pendings', tree[b].data, q)
      ensures Under(tree, pendings', b, q) || (q == rt && tree[b].parent == tree[dep].parent && tree[b].data != q)
    {
      if Waits(pendings, tree[b].data, q) {
        assert Under(tree, pendings, b, q) || tree[b].parent == Some(dep);
        assert Waits(pendings', tree[dep].data, rt);
      } else {
        assert b == dep;
      }
    }
  }

  lemma AllTold(tree: seq<TreeNode>, pendings: seq<Pending>, rt: nat, dep: nat)
    requires TreeOK(tree) && PendingsFitBut(tree, pendings, rt, Some(dep)) && dep < |tree| && tree[dep].data == rt
    ensures PendingsFit(tree, pendings)
  {
    hide Waits, Entries, InTree;
  }

  lemma WaitsForEntry(pendings: seq<Pending>, pending: Pending)
    requires Entries(pendings) && pending in pendings
    ensures forall d: nat :: Waits(pendings, d, pending.mRule) <==> d in pending.mDependents
  {
    var i :| 0 <= i < |pendings| && pendings[i] == pending;
  }

  lemma PendingTells(g: LaGrammar, s: LaState, tree: seq<TreeNode>, pending: Pending)
    requires LaInv(g, s) && FlowInv(g, s, tree) && pending in s.pendings
    ensures WellFormed(g.rules) && LeftRecursive(g) && !Waits(s.pendings, pending.mRule, pending.mRule)
    ensures forall d: nat :: d in pending.mDependents ==> Reach(LeftEdges(g.rules), d, pending.mRule)
  {
    hide LaInv, FlowInv, Waits, OnCycle, Reach, Under;
    InvParts(g, s);
    FlowParts(g, s, tree);
    var d := pending.mDependents[0];
    WaitsForEntry(s.pendings, pending);
    WaitsCycle(g, s, tree, d, pending.mRule);
    NoneForItself(tree, s.pendings, pending.mRule);
  }

  lemma NoneForItself(tree: seq<TreeNode>, pendings: seq<Pending>, q: nat)
    requires TreeOK(tree) && PendingsFit(tree, pendings)
    ensures !Waits(pendings, q, q)
  {
    hide Waits, Entries;
    if InTree(tree, q) {
      var b :| 0 <= b < |tree| && tree[b].data == q;
      assert Waits(pendings, q, q) ==> Under(tree, pendings, b, q);
    }
  }

  lemma NothingPatched(s: LaState, tree: seq<TreeNode>)
    ensures Patching(s, tree, s.las, [])
  {
    hide Waits, LasOf, Offers;
  }

  lemma ListsGrown(s: LaState, tree: seq<TreeNode>, las: RuleLookAheads, patched: seq<nat>)
    requires Patching(s, tree, las, patched)
    ensures forall r :: LasOf(s.las, r) <= LasOf(las, r)
  {
    hide Waits, LasOf, Offers;
  }

  lemma NotWaitedFor(pendings: seq<Pending>, las: RuleLookAheads, q: nat)
    requires forall i :: 0 <= i < |pendings| ==> pendings[i].mRule != q
    ensures PatchedBy(pendings, las, las, q)
  {
    hide LasOf, Offers;
  }

  // -------- One rule among the elements

  lemma SelfCycle(g: LaGrammar, u: nat)
    requires WellFormed(g.rules) && LeftEdge(g.rules, u, u)
    ensures LeftRecursive(g)
  {
    hide LeftEdge, WellFormed;
    var h := LeftEdges(g.rules);
    ReachRefl(h, u);
    assert Step(h, u, u) && Reach(h, u, u);
    assert OnCycle(h, u);
  }

  // A rule met in process is on a left cycle.
  lemma MetCycle(g: LaGrammar, s: LaState, v: nat)
    requires WellFormed(g.rules) && OnPath(g, s.inProcess) && v in s.inProcess
    requires LeftEdge(g.rules, s.inProcess[|s.inProcess| - 1], v)
    ensures OnCycle(LeftEdges(g.rules), v)
  {
    hide LeftEdge, WellFormed, Reach;
    var h, path := LeftEdges(g.rules), s.inProcess;
    var j :| 0 <= j < |path| && path[j] == v;
    if j == |path| - 1 {
      ReachRefl(h, v);
      assert Step(h, v, v) && Reach(h, v, v);
    } else {
      BackEdge(g, path, v, j + 1);
      assert Step(h, v, path[j + 1]) && Reach(h, path[j + 1], v);
    }
  }

  lemma RecordsFit(g: LaGrammar, s: LaState, v: LaState, tree: seq<TreeNode>, rt: nat, child: nat,
                   met: set<(nat, nat)>, missed: set<(nat, nat)>)
    requires LaInv(g, s) && LaInv(g, v) && FlowInv(g, v, tree) && WellFormed(g.rules)
    requires LeftEdge(g.rules, rt, child) && s.inProcess != [] && s.inProcess[|s.inProcess| - 1] == rt
    requires met == if child in s.inProcess then {(rt, child)} else {}
    requires missed == {} || (missed == {(rt, child)} && v.pendings == s.pendings && exists q: nat :: Waits(s.pendings, child, q))
    ensures OnCycles(g, met) && OnCycles(g, missed)
  {
    hide LaInv, FlowInv, Waits, OnCycle, LeftEdge, WellFormed;
    InvParts(g, s);
    if child in s.inProcess { MetCycle(g, s, child); }
    if missed != {} {
      var q: nat :| Waits(s.pendings, child, q);
      WaitsCycle(g, v, tree, child, q);
    }
  }

  lemma ChildPassed(g: LaGrammar, s: LaState, s1: LaState, w: LaState, rt: nat, k: nat, child: nat)
    requires rt < |g.rules| && !IsLeafRule(g, rt) && k < |g.rules[rt].mData| && g.rules[rt].mData[k] == Subtable(child)
    requires Extends(s, s1) && Linked(s, s1, rt, child) && rt in s.inProcess && forall r :: r in s1.inProcess ==> r !in s1.done
    requires w == s1.(las := w.las, met := w.met, missed := w.missed) && (rt != child ==> Offers(w.las, child, rt))
    requires child !in s.inProcess && child in s.done && (exists q: nat :: Waits(s.pendings, child, q)) ==> (rt, child) in w.missed
    ensures IsElement(g, rt, k) && Passed(g, w, rt, k)
  {
    hide Waits, Offers, Known;
  }

  lemma ChildOutcome(g: LaGrammar, s: LaState, rt: nat, k: nat, child: nat, res: TResult)
    requires LaInv(g, s) && rt < |g.rules| && k < |g.rules[rt].mData| && g.rules[rt].mData[k] == Subtable(child)
    requires (child in s.inProcess && res.NA? && (rt, child) in s.met) || (child in s.done && (res.MaybeZero? <==> child in s.maybeZero))
    ensures Outcome(g, s, rt, k, res)
  {
    hide LaInv, Nullable;
    NotDone(g, s);
  }

  lemma DoneBefore(s: LaState, s': LaState, u: nat, v: nat)
    requires Linked(s, s', u, v)
    ensures v !in s.inProcess && v in s.done ==> s' == s
  {
  }

  lemma LasOnly(s: LaState, s': LaState)
    requires s' == s.(las := s'.las)
    ensures Extends(s, s')
  {
  }

  // -------- The end

  lemma EndReached(g: LaGrammar, s: LaState)
    requires LaInv(g, s) && s.inProcess == [] && s.toDo == [] && s.taken == [] && FlowInv(g, s.(pendings := []), [])
    ensures WellFormed(g.rules) && OnCycles(g, s.met) && OnCycles(g, s.missed)
    ensures forall u :: u in s.done ==> ListIsComplete(g, s, u)
    ensures !LeftRecursive(g) || (NoEmptyCycle(g) && s.missed == {}) ==>
              forall u: nat, la :: u in s.done && Begins(g, u, la) ==> Listed(LasOf(s.las, u), la)
  {
    hide NoEmptyCycle, OnCycles, LeftRecursive, Listed, Begins, LasOf, IsElement, Given, Nullable, Sound, PendingsOK,
         OnPath, Complete, WalkedFits, PendingsFit, TreeFits;
    var e := s.(pendings := []);
    forall u: nat, v: nat | u in s.done && u < |g.rules| && !IsLeafRule(g, u) && Subtable(v) in g.rules[u].mData
      ensures v in s.done
    {
      assert KidsKnown(g, s, u);
    }
    assert Ended(g, e);
    forall u | u in s.done
      ensures ListIsComplete(g, s, u)
    {
      ListsAreComplete(g, e, u);
      assert ListIsComplete(g, e, u);
    }
    if !LeftRecursive(g) { NothingMet(g, e); }
    if NoEmptyCycle(g) && s.missed == {} { BeginningsAreListed(g, e); }
  }
}
