/** Control flow analysis: the blocks reachable from function entries, and the removal of edges from
    unreachable blocks out of the predecessor lists. */
module Cfa {
  import opened Graphs
  import opened CfgBlocks
  import opened CfgOrder

  function FlowGraph(bbs: Blocks): (g: Graph)
    ensures |g| == |bbs|
    ensures forall u: nat, v: nat :: Step(g, u, v) <==> u < |bbs| && v in bbs[u].succs
  {
    seq(|bbs|, u requires 0 <= u < |bbs| => set v | v in bbs[u].succs)
  }

  ghost predicate FromEntry(bbs: Blocks, entries: seq<nat>, b: nat) {
    exists e :: e in entries && Reach(FlowGraph(bbs), e, b)
  }

  // The list without the first occurrence of `x`.
  function Remove(s: seq<nat>, x: nat): (r: seq<nat>)
    ensures multiset(r) == multiset(s) - multiset{x}
  {
    if s == [] then []
    else if s[0] == x then
      assert s == [s[0]] + s[1..];
      s[1..]
    else
      assert s == [s[0]] + s[1..];
      [s[0]] + Remove(s[1..], x)
  }

  // Every block of `seen` belongs, and what follows it is in `seen` or still waits.
  ghost predicate Explored(bbs: Blocks, entries: seq<nat>, seen: set<nat>, waiting: seq<nat>) {
    && (forall b :: b in seen || b in waiting ==> b < |bbs| && FromEntry(bbs, entries, b))
    && (forall b, c: nat :: b in seen && Step(FlowGraph(bbs), b, c) ==> c in seen || c in waiting)
  }

  class AST_CFA {
    var mBBs: Blocks
    const mEntries: seq<nat>   // the entry blocks of the module's functions
    var mReachableBbIdx: set<nat>
    var mBbIdVec: seq<nat>

    constructor (bbs: Blocks, entries: seq<nat>)
      ensures mBBs == bbs && mEntries == entries && mReachableBbIdx == {} && mBbIdVec == []
    {
      mBBs, mEntries := bbs, entries;
      mReachableBbIdx, mBbIdVec := {}, [];
    }

    // A function at a time, blocks are visited breadth first from the entry on; each is listed once.
    method CollectReachableBB()
      requires Symmetric(mBBs) && (forall e :: e in mEntries ==> e < |mBBs|) && mBbIdVec == []
      modifies this`mReachableBbIdx, this`mBbIdVec
      ensures forall b: nat :: b in mReachableBbIdx <==> FromEntry(mBBs, mEntries, b)
      ensures NoDup(mBbIdVec) && forall b :: b in mBbIdVec <==> b in mReachableBbIdx
      ensures BreadthFirst(mBBs, mEntries, mBbIdVec)
    {
      hide Working, NextBlock, BreadthFirst, Explored, FromEntry, Queued, FlowGraph;
      mReachableBbIdx := {};
      NothingListed(mBBs, mEntries);
      NoneExplored(mBBs, mEntries);
      for i := 0 to |mEntries|
        invariant Explored(mBBs, mEntries, mReachableBbIdx, [])
        invariant forall j :: 0 <= j < i ==> mEntries[j] in mReachableBbIdx
        invariant NoDup(mBbIdVec) && forall b :: b in mBbIdVec <==> b in mReachableBbIdx
        invariant BreadthFirst(mBBs, mEntries, mBbIdVec) && Working(mBBs, mBbIdVec, [], [])
      {
        assert mEntries[i] in mEntries;
        StartsAt(mBBs, mEntries, mReachableBbIdx, i);
        EntryQueued(mBBs, mBbIdVec, mEntries[i]);
        var working := [mEntries[i]];
        ghost var places, first := [], true;
        while working != []
          invariant Explored(mBBs, mEntries, mReachableBbIdx, working)
          invariant forall j :: 0 <= j < i ==> mEntries[j] in mReachableBbIdx
          invariant mEntries[i] in mReachableBbIdx || mEntries[i] in working
          invariant NoDup(mBbIdVec) && forall b :: b in mBbIdVec <==> b in mReachableBbIdx
          invariant BreadthFirst(mBBs, mEntries, mBbIdVec) && Queued(mBBs, mBbIdVec, working, places, mEntries[i], first)
          decreases |mBBs| - |mBbIdVec|, |working|
        {
          var bb := working[0];
          assert working == [bb] + working[1..];
          assert forall j: nat :: j < i ==> mEntries[j] in mBbIdVec;
          places := Taken(mBBs, mEntries, mBbIdVec, working, places, i, first);
          first := false;
          if bb !in mReachableBbIdx {
            SeenInRange(mBBs, mEntries, mReachableBbIdx, working);
            NoDupBoundStrict(mBbIdVec, |mBBs|, bb);
            VisitKeeps(mBBs, mEntries, mReachableBbIdx, working, bb);
            assert (working + mBBs[bb].succs)[1..] == working[1..] + mBBs[bb].succs;
            working := working + mBBs[bb].succs;
            OneMore(mBBs, mEntries, mBbIdVec, bb);
            mBbIdVec := mBbIdVec + [bb];
            mReachableBbIdx := mReachableBbIdx + {bb};
          } else {
            DropKeeps(mBBs, mEntries, mReachableBbIdx, working);
          }
          working := working[1..];
        }
        NoneWaits(mBBs, mBbIdVec, places, mEntries[i], first);
      }
      AllFound(mBBs, mEntries, mReachableBbIdx);
    }

    // Unreachable predecessors of reachable blocks are taken out of all predecessor lists.
    method RemoveUnreachableBB()
      requires Symmetric(mBBs) && forall b :: b in mReachableBbIdx ==> b < |mBBs|
      modifies this`mBBs
      ensures |mBBs| == |old(mBBs)|
      ensures forall b :: 0 <= b < |mBBs| ==> mBBs[b].succs == old(mBBs)[b].succs && mBBs[b].stmts == old(mBBs)[b].stmts
      ensures forall b, p: nat :: b in mReachableBbIdx && p < |mBBs| ==>
                InCount(mBBs, b, p) == if p in mReachableBbIdx then OutCount(mBBs, p, b) else 0
      ensures forall b, p :: b in mReachableBbIdx && p in mBBs[b].preds ==> p < |mBBs|
    {
      var bbs0 := mBBs;
      var dead := set b, p | b in mReachableBbIdx && p in mBBs[b].preds && p !in mReachableBbIdx :: p;
      var left := dead;
      while left != {}
        invariant left <= dead && |mBBs| == |bbs0|
        invariant forall b :: 0 <= b < |mBBs| ==> mBBs[b].succs == bbs0[b].succs && mBBs[b].stmts == bbs0[b].stmts
        invariant forall b: nat, p: nat :: b < |mBBs| && p < |mBBs| ==>
                    InCount(mBBs, b, p) == if p in dead - left then 0 else InCount(bbs0, b, p)
        invariant forall b, p :: 0 <= b < |mBBs| && p in mBBs[b].preds ==> p < |mBBs|
        decreases |left|
      {
        var it :| it in left;
        ghost var bbs1 := mBBs;
        RemoveFromSuccessors(it);
        forall b: nat, p: nat | b < |mBBs| && p < |mBBs|
          ensures InCount(mBBs, b, p) == if p in dead - (left - {it}) then 0 else InCount(bbs0, b, p)
        {
          assert InCount(mBBs, b, p) <= InCount(bbs1, b, p);
          assert OutCount(bbs0, it, b) == InCount(bbs0, b, it);
        }
        left := left - {it};
      }
      forall b, p: nat | b in mReachableBbIdx && p < |mBBs|
        ensures InCount(mBBs, b, p) == if p in mReachableBbIdx then OutCount(mBBs, p, b) else 0
      {
        assert OutCount(bbs0, p, b) == InCount(bbs0, b, p);
        if p !in mReachableBbIdx && p !in dead { assert p !in bbs0[b].preds; }
      }
    }

    // Take `it` out of the predecessors of each of its successors, once for every edge.
    method RemoveFromSuccessors(it: nat)
      requires it < |mBBs| && forall s :: s in mBBs[it].succs ==> s < |mBBs|
      requires forall b, p :: 0 <= b < |mBBs| && p in mBBs[b].preds ==> p < |mBBs|
      modifies this`mBBs
      ensures |mBBs| == |old(mBBs)|
      ensures forall b :: 0 <= b < |mBBs| ==> mBBs[b].succs == old(mBBs)[b].succs && mBBs[b].stmts == old(mBBs)[b].stmts
      ensures forall b: nat, p: nat :: b < |mBBs| && p < |mBBs| ==>
                InCount(mBBs, b, p) == if p != it then InCount(old(mBBs), b, p)
                                       else Less(InCount(old(mBBs), b, it), OutCount(mBBs, it, b))
      ensures forall b, p :: 0 <= b < |mBBs| && p in mBBs[b].preds ==> p < |mBBs|
    {
      hide Remove, RemovePred, InCount;
      var succs := mBBs[it].succs;
      ghost var bbs0 := mBBs;
      for i := 0 to |succs|
        invariant |mBBs| == |bbs0|
        invariant forall b :: 0 <= b < |mBBs| ==> mBBs[b].succs == bbs0[b].succs && mBBs[b].stmts == bbs0[b].stmts
        invariant forall b: nat, p: nat :: b < |mBBs| && p < |mBBs| ==>
                    InCount(mBBs, b, p) == if p != it then InCount(bbs0, b, p)
                                           else Less(InCount(bbs0, b, it), multiset(succs[..i])[b])
        invariant forall b, p :: 0 <= b < |mBBs| && p in mBBs[b].preds ==> p < |mBBs|
      {
        var s := succs[i];
        assert s in succs && succs[..i + 1] == succs[..i] + [s];
        ghost var bbs1 := mBBs;
        mBBs := RemovePred(mBBs, s, it);
        forall b: nat, p: nat | b < |mBBs| && p < |mBBs|
          ensures InCount(mBBs, b, p) == if p != it then InCount(bbs0, b, p)
                                         else Less(InCount(bbs0, b, it), multiset(succs[..i + 1])[b])
        {
          RemovePredCount(bbs1, s, it, b, p);
        }
        forall b, p | 0 <= b < |mBBs| && p in mBBs[b].preds
          ensures p < |mBBs|
        {
          RemovePredCount(bbs1, s, it, b, p);
          assert p in bbs1[b].preds;
        }
      }
      assert succs[..|succs|] == succs;
    }
  }

  function RemovePred(bbs: Blocks, s: nat, it: nat): (r: Blocks)
    requires s < |bbs|
    ensures |r| == |bbs|
    ensures forall b :: 0 <= b < |bbs| ==> r[b].succs == bbs[b].succs && r[b].stmts == bbs[b].stmts
  {
    bbs[s := bbs[s].(preds := Remove(bbs[s].preds, it))]
  }

  lemma RemovePredCount(bbs: Blocks, s: nat, it: nat, b: nat, p: nat)
    requires s < |bbs| && b < |bbs|
    ensures InCount(RemovePred(bbs, s, it), b, p) ==
              if b == s && p == it then Less(InCount(bbs, b, p), 1) else InCount(bbs, b, p)
    ensures p in RemovePred(bbs, s, it)[b].preds ==> p in bbs[b].preds
  {
    assert p in RemovePred(bbs, s, it)[b].preds <==> InCount(RemovePred(bbs, s, it), b, p) > 0;
    assert p in bbs[b].preds <==> InCount(bbs, b, p) > 0;
  }

  function Less(a: nat, b: nat): nat {
    if a <= b then 0 else a - b
  }

  lemma DropKeeps(bbs: Blocks, entries: seq<nat>, done: set<nat>, working: seq<nat>)
    requires Explored(bbs, entries, done, working) && working != [] && working[0] in done
    ensures Explored(bbs, entries, done, working[1..])
  {
    hide FromEntry, FlowGraph;
    var rest := working[1..];
    assert working == [working[0]] + rest;
    assert forall x :: x in rest ==> x in working;
    assert forall x :: x in working ==> x == working[0] || x in rest;
  }

  lemma NoneExplored(bbs: Blocks, entries: seq<nat>)
    ensures Explored(bbs, entries, {}, [])
  {
  }

  lemma StartsAt(bbs: Blocks, entries: seq<nat>, seen: set<nat>, i: nat)
    requires i < |entries| && entries[i] < |bbs| && Explored(bbs, entries, seen, [])
    ensures Explored(bbs, entries, seen, [entries[i]])
  {
    ReachRefl(FlowGraph(bbs), entries[i]);
    assert entries[i] in entries && FromEntry(bbs, entries, entries[i]);
  }

  lemma SeenInRange(bbs: Blocks, entries: seq<nat>, seen: set<nat>, working: seq<nat>)
    requires Explored(bbs, entries, seen, working)
    ensures forall b :: b in seen || b in working ==> b < |bbs|
  {
  }

  lemma AllFound(bbs: Blocks, entries: seq<nat>, seen: set<nat>)
    requires Explored(bbs, entries, seen, []) && forall j :: 0 <= j < |entries| ==> entries[j] in seen
    ensures forall b: nat :: b in seen <==> FromEntry(bbs, entries, b)
  {
    forall b: nat | FromEntry(bbs, entries, b)
      ensures b in seen
    {
      var e :| e in entries && Reach(FlowGraph(bbs), e, b);
      ClosedKeepsReach(FlowGraph(bbs), seen, e, b);
    }
  }

  lemma VisitKeeps(bbs: Blocks, entries: seq<nat>, seen: set<nat>, waiting: seq<nat>, bb: nat)
    requires forall b, s :: 0 <= b < |bbs| && s in bbs[b].succs ==> s < |bbs|
    requires Explored(bbs, entries, seen, waiting) && waiting != [] && waiting[0] == bb
    ensures bb < |bbs| && Explored(bbs, entries, seen + {bb}, (waiting + bbs[bb].succs)[1..])
  {
    hide FromEntry, Reach;
    assert bb in waiting && FromEntry(bbs, entries, bb);
    var next := (waiting + bbs[bb].succs)[1..];
    assert next == waiting[1..] + bbs[bb].succs && waiting == [bb] + waiting[1..];
    forall b | b in seen + {bb} || b in next
      ensures b < |bbs| && FromEntry(bbs, entries, b)
    {
      if b !in seen && b !in waiting { SuccReached(bbs, entries, bb, b); }
    }
    forall b, c: nat | b in seen + {bb} && Step(FlowGraph(bbs), b, c)
      ensures c in seen + {bb} || c in next
    {
      if b == bb { assert c in bbs[bb].succs; }
    }
  }

  lemma SuccReached(bbs: Blocks, entries: seq<nat>, b: nat, c: nat)
    requires b < |bbs| && c in bbs[b].succs && c < |bbs| && FromEntry(bbs, entries, b)
    ensures FromEntry(bbs, entries, c)
  {
    var e :| e in entries && Reach(FlowGraph(bbs), e, b);
    ReachStep(FlowGraph(bbs), b, c);
    ReachTrans(FlowGraph(bbs), e, b, c);
  }
}
