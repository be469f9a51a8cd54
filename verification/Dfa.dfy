/** Reaching definitions: the worklist over bit vectors, and what its result says about paths and
    runs of the control flow graph. A bit vector is the set of its positions that are on. */
module Dfa {
  import opened Graphs
  import opened CfgBlocks
  import opened Cfa

  type BitVector = set<nat>

  type BVMap = map<nat, BitVector>

  // The blocks under analysis: closed under edges both ways, with the two ends of each edge agreeing.
  ghost predicate Linked(bbs: Blocks, ids: set<nat>) {
    && (forall b :: b in ids ==> b < |bbs|)
    && (forall b, s: nat :: b in ids && s in bbs[b].succs ==> s in ids && b in bbs[s].preds)
    && (forall b, p: nat :: b in ids && p in bbs[b].preds ==> p in ids && b in bbs[p].succs)
  }

  ghost predicate HasMaps(ids: set<nat>, n: nat, gen: BVMap, prsv: BVMap) {
    && (forall b :: b in ids ==> b in gen && b in prsv)
    && forall b, i :: b in ids && i in gen[b] ==> i < n
  }

  // What the control flow analysis leaves: the blocks reached from entries, the predecessor lists
  // holding just the edges between them.
  lemma PrunedIsLinked(bbs: Blocks, entries: seq<nat>, ids: set<nat>)
    requires forall b: nat :: b in ids <==> FromEntry(bbs, entries, b)
    requires forall e :: e in entries ==> e < |bbs|
    requires forall b, s :: 0 <= b < |bbs| && s in bbs[b].succs ==> s < |bbs|
    requires forall b, p: nat :: b in ids && b < |bbs| && p < |bbs| ==>
               InCount(bbs, b, p) == if p in ids then OutCount(bbs, p, b) else 0
    requires forall b, p :: b in ids && b < |bbs| && p in bbs[b].preds ==> p < |bbs|
    ensures Linked(bbs, ids)
  {
    hide FlowGraph, FromEntry, InCount, OutCount;
    forall b: nat | b in ids
      ensures b < |bbs|
    {
      EntryInRange(bbs, entries, b);
    }
    forall b, s: nat | b in ids && s in bbs[b].succs
      ensures s in ids && b in bbs[s].preds
    {
      EntryOn(bbs, entries, b, s);
      assert InCount(bbs, s, b) == OutCount(bbs, b, s);
      CountsTell(bbs, b, s);
    }
    forall b, p: nat | b in ids && p in bbs[b].preds
      ensures p in ids && b in bbs[p].succs
    {
      CountsTell(bbs, p, b);
    }
  }

  lemma EntryInRange(bbs: Blocks, entries: seq<nat>, b: nat)
    requires FromEntry(bbs, entries, b) && forall e :: e in entries ==> e < |bbs|
    requires forall b, s :: 0 <= b < |bbs| && s in bbs[b].succs ==> s < |bbs|
    ensures b < |bbs|
  {
    var e :| e in entries && Reach(FlowGraph(bbs), e, b);
    ClosedKeepsReach(FlowGraph(bbs), Below(|bbs|), e, b);
  }

  lemma EntryOn(bbs: Blocks, entries: seq<nat>, b: nat, s: nat)
    requires FromEntry(bbs, entries, b) && b < |bbs| && s in bbs[b].succs
    ensures FromEntry(bbs, entries, s)
  {
    var e :| e in entries && Reach(FlowGraph(bbs), e, b);
    ReachStep(FlowGraph(bbs), b, s);
    ReachTrans(FlowGraph(bbs), e, b, s);
  }

  lemma CountsTell(bbs: Blocks, p: nat, b: nat)
    requires p < |bbs| && b < |bbs|
    ensures (b in bbs[p].succs <==> OutCount(bbs, p, b) > 0) && (p in bbs[b].preds <==> InCount(bbs, b, p) > 0)
  {
  }

  // -------- Paths

  // The edges that lead out of blocks preserving definition `i`.
  function PrsvGraph(bbs: Blocks, prsv: BVMap, i: nat): (g: Graph)
    ensures |g| == |bbs|
    ensures forall u: nat, v: nat :: Step(g, u, v) <==> u < |bbs| && v in bbs[u].succs && u in prsv && i in prsv[u]
  {
    seq(|bbs|, u requires 0 <= u < |bbs| => if u in prsv && i in prsv[u] then set v | v in bbs[u].succs else {})
  }

  // Some path leads from a block that generates `i` to `b`, through blocks that all preserve `i`.
  ghost predicate Reaches(bbs: Blocks, ids: set<nat>, gen: BVMap, prsv: BVMap, i: nat, b: nat) {
    exists c, d :: GenEdge(bbs, ids, gen, i, c, d) && Reach(PrsvGraph(bbs, prsv, i), d, b)
  }

  ghost predicate GenEdge(bbs: Blocks, ids: set<nat>, gen: BVMap, i: nat, c: nat, d: nat) {
    c in ids && c < |bbs| && c in gen && i in gen[c] && d in bbs[c].succs
  }

  lemma ReachesGen(bbs: Blocks, ids: set<nat>, gen: BVMap, prsv: BVMap, i: nat, p: nat, b: nat)
    requires GenEdge(bbs, ids, gen, i, p, b)
    ensures Reaches(bbs, ids, gen, prsv, i, b)
  {
    ReachRefl(PrsvGraph(bbs, prsv, i), b);
  }

  lemma ReachesOn(bbs: Blocks, ids: set<nat>, gen: BVMap, prsv: BVMap, i: nat, p: nat, b: nat)
    requires Reaches(bbs, ids, gen, prsv, i, p) && p < |bbs| && p in prsv && i in prsv[p] && b in bbs[p].succs
    ensures Reaches(bbs, ids, gen, prsv, i, b)
  {
    var g := PrsvGraph(bbs, prsv, i);
    var c, d :| GenEdge(bbs, ids, gen, i, c, d) && Reach(g, d, p);
    ReachStep(g, p, b);
    ReachTrans(g, d, p, b);
  }

  // -------- The equations

  // What predecessor `p` sends to `b`. A block sends itself only what it generates: what it
  // preserves of its own set is no news.
  function Sends(rchIn: BVMap, gen: BVMap, prsv: BVMap, p: nat, b: nat): BitVector
    requires p in rchIn && p in gen && p in prsv
  {
    if p == b then gen[p] else rchIn[p] * prsv[p] + gen[p]
  }

  ghost predicate Sent(bbs: Blocks, rchIn: BVMap, gen: BVMap, prsv: BVMap, b: nat, i: nat)
    requires b < |bbs|
  {
    exists p :: p in bbs[b].preds && p in rchIn && p in gen && p in prsv && i in Sends(rchIn, gen, prsv, p, b)
  }

  ghost predicate Settled(bbs: Blocks, rchIn: BVMap, gen: BVMap, prsv: BVMap, b: nat)
    requires b < |bbs| && b in rchIn
  {
    forall i :: Sent(bbs, rchIn, gen, prsv, b, i) ==> i in rchIn[b]
  }

  // No set holds more than a path justifies, or more than its predecessors send.
  ghost predicate Justified(bbs: Blocks, ids: set<nat>, n: nat, rchIn: BVMap, gen: BVMap, prsv: BVMap) {
    forall b, i :: b in ids && b in rchIn && i in rchIn[b] ==>
                     i < n && Reaches(bbs, ids, gen, prsv, i, b) && b < |bbs| && Sent(bbs, rchIn, gen, prsv, b, i)
  }

  // A block whose set lacks something waits.
  ghost predicate Waits(bbs: Blocks, ids: set<nat>, rchIn: BVMap, gen: BVMap, prsv: BVMap, working: seq<nat>) {
    && (forall b :: b in working ==> b in ids)
    && forall b :: b in ids ==> b in working || (b < |bbs| && b in rchIn && Settled(bbs, rchIn, gen, prsv, b))
  }

  // The state of the worklist.
  ghost predicate Progress(bbs: Blocks, ids: set<nat>, n: nat, rchIn: BVMap, gen: BVMap, prsv: BVMap, working: seq<nat>) {
    && Linked(bbs, ids) && HasMaps(ids, n, gen, prsv) && rchIn.Keys == ids
    && Justified(bbs, ids, n, rchIn, gen, prsv)
    && Waits(bbs, ids, rchIn, gen, prsv, working)
  }

  // Bits on, over all blocks.
  ghost function Bits(rchIn: BVMap): set<(nat, nat)> {
    set b, i | b in rchIn && i in rchIn[b] :: (b, i)
  }

  ghost function AllBits(ids: set<nat>, n: nat): set<(nat, nat)> {
    set b, i | b in ids && i in Below(n) :: (b, i)
  }

  lemma BitOn(rchIn: BVMap, x: (nat, nat))
    ensures x in Bits(rchIn) <==> x.0 in rchIn && x.1 in rchIn[x.0]
  {
    if x.0 in rchIn && x.1 in rchIn[x.0] { assert (x.0, x.1) in Bits(rchIn); }
  }

  lemma SubsetCardPairs(a: set<(nat, nat)>, b: set<(nat, nat)>)
    requires a <= b
    ensures |a| <= |b|
  {
    if a != {} {
      var x :| x in a;
      SubsetCardPairs(a - {x}, b - {x});
    }
  }

  // A recomputed set that gained a bit leaves fewer bits off.
  lemma MoreBits(ids: set<nat>, n: nat, rchIn: BVMap, b: nat, bv: BitVector)
    requires rchIn.Keys == ids && b in ids && rchIn[b] < bv && forall i :: i in bv ==> i < n
    ensures |AllBits(ids, n) - Bits(rchIn[b := bv])| < |AllBits(ids, n) - Bits(rchIn)|
  {
    hide Bits;
    var all, r := AllBits(ids, n), rchIn[b := bv];
    var i :| i in bv && i !in rchIn[b];
    var x: (nat, nat) := (b, i);
    assert x in all;
    BitOn(rchIn, x);
    BitOn(r, x);
    forall y: (nat, nat) | y in all - Bits(r)
      ensures y in all - Bits(rchIn) - {x}
    {
      BitOn(rchIn, y);
      BitOn(r, y);
    }
    SubsetCardPairs(all - Bits(r), all - Bits(rchIn) - {x});
  }

  // The set of the first block of the worklist has been recomputed as `bv`.
  ghost predicate Recomputed(bbs: Blocks, rchIn: BVMap, gen: BVMap, prsv: BVMap, b: nat, bv: BitVector) {
    b < |bbs| && forall i :: i in bv <==> Sent(bbs, rchIn, gen, prsv, b, i)
  }

  // What a block is sent does not depend on its own set, and grows with the sets of the others.
  lemma SentMono(bbs: Blocks, rchIn: BVMap, gen: BVMap, prsv: BVMap, b: nat, bv: BitVector, c: nat, i: nat)
    requires c < |bbs| && b in rchIn
    ensures rchIn[b] <= bv && Sent(bbs, rchIn, gen, prsv, c, i) ==> Sent(bbs, rchIn[b := bv], gen, prsv, c, i)
    ensures (b !in bbs[c].preds || b == c) ==>
              (Sent(bbs, rchIn[b := bv], gen, prsv, c, i) <==> Sent(bbs, rchIn, gen, prsv, c, i))
  {
    var r := rchIn[b := bv];
    if Sent(bbs, rchIn, gen, prsv, c, i) {
      var p :| p in bbs[c].preds && p in rchIn && p in gen && p in prsv && i in Sends(rchIn, gen, prsv, p, c);
      if rchIn[b] <= bv { assert i in Sends(r, gen, prsv, p, c); }
      if b !in bbs[c].preds || b == c { assert i in Sends(r, gen, prsv, p, c); }
    }
    if Sent(bbs, r, gen, prsv, c, i) && (b !in bbs[c].preds || b == c) {
      var p :| p in bbs[c].preds && p in r && p in gen && p in prsv && i in Sends(r, gen, prsv, p, c);
      assert i in Sends(rchIn, gen, prsv, p, c);
    }
  }

  lemma SentReaches(bbs: Blocks, ids: set<nat>, n: nat, rchIn: BVMap, gen: BVMap, prsv: BVMap, b: nat, i: nat)
    requires Linked(bbs, ids) && HasMaps(ids, n, gen, prsv) && rchIn.Keys == ids
    requires Justified(bbs, ids, n, rchIn, gen, prsv) && b in ids && Sent(bbs, rchIn, gen, prsv, b, i)
    ensures i < n && Reaches(bbs, ids, gen, prsv, i, b)
  {
    hide Reaches;
    var p :| p in bbs[b].preds && p in rchIn && p in gen && p in prsv && i in Sends(rchIn, gen, prsv, p, b);
    assert p in ids && b in bbs[p].succs;
    if i in gen[p] {
      ReachesGen(bbs, ids, gen, prsv, i, p, b);
    } else {
      ReachesOn(bbs, ids, gen, prsv, i, p, b);
    }
  }

  // One step of the worklist: the set of its first block only grows.
  lemma StepGrows(bbs: Blocks, ids: set<nat>, n: nat, rchIn: BVMap, gen: BVMap, prsv: BVMap, b: nat, bv: BitVector)
    requires Linked(bbs, ids) && HasMaps(ids, n, gen, prsv) && rchIn.Keys == ids
    requires Justified(bbs, ids, n, rchIn, gen, prsv) && b in ids && Recomputed(bbs, rchIn, gen, prsv, b, bv)
    ensures rchIn[b] <= bv && (forall i :: i in bv ==> i < n)
    ensures Justified(bbs, ids, n, rchIn[b := bv], gen, prsv)
  {
    hide Reaches, Sent;
    forall i | i in bv
      ensures i < n && Reaches(bbs, ids, gen, prsv, i, b)
    {
      SentReaches(bbs, ids, n, rchIn, gen, prsv, b, i);
    }
    assert rchIn[b] <= bv;
    var r := rchIn[b := bv];
    forall c, i | c in ids && c in r && i in r[c]
      ensures i < n && Reaches(bbs, ids, gen, prsv, i, c) && c < |bbs| && Sent(bbs, r, gen, prsv, c, i)
    {
      SentMono(bbs, rchIn, gen, prsv, b, bv, c, i);
    }
  }

  // If it did grow, its successors wait.
  lemma StepWaits(bbs: Blocks, ids: set<nat>, rchIn: BVMap, gen: BVMap, prsv: BVMap, working: seq<nat>, b: nat, bv: BitVector)
    requires Linked(bbs, ids) && rchIn.Keys == ids && b in ids
    requires Waits(bbs, ids, rchIn, gen, prsv, working) && working != [] && working[0] == b
    requires Recomputed(bbs, rchIn, gen, prsv, b, bv)
    ensures Waits(bbs, ids, rchIn[b := bv], gen, prsv, if bv == rchIn[b] then working[1..] else working[1..] + bbs[b].succs)
  {
    hide Sent;
    var r := rchIn[b := bv];
    var rest := if bv == rchIn[b] then working[1..] else working[1..] + bbs[b].succs;
    assert working == [b] + working[1..];
    assert forall c :: c in rest ==> c in working || c in bbs[b].succs;
    forall c | c in ids && c !in rest
      ensures Settled(bbs, r, gen, prsv, c)
    {
      forall i | Sent(bbs, r, gen, prsv, c, i)
        ensures i in r[c]
      {
        if bv == rchIn[b] {
          assert r == rchIn;
        } else if c == b {
          SentMono(bbs, rchIn, gen, prsv, b, bv, b, i);
        } else {
          assert b !in bbs[c].preds && c !in working;
          SentMono(bbs, rchIn, gen, prsv, b, bv, c, i);
        }
      }
    }
  }

  // A bit that is on at a block with nothing waiting is on at the next one, if preserved.
  lemma OnStep(bbs: Blocks, ids: set<nat>, rchIn: BVMap, gen: BVMap, prsv: BVMap, i: nat, u: nat, v: nat)
    requires Linked(bbs, ids) && rchIn.Keys == ids && Waits(bbs, ids, rchIn, gen, prsv, [])
    requires u in ids && u < |bbs| && v in bbs[u].succs && u in gen && u in prsv
    requires i in gen[u] || (i in rchIn[u] && i in prsv[u])
    ensures v in ids && i in rchIn[v]
  {
    assert v in ids && u in bbs[v].preds;
    if u != v || i in gen[u] {
      assert i in Sends(rchIn, gen, prsv, u, v);
      assert Sent(bbs, rchIn, gen, prsv, v, i) && Settled(bbs, rchIn, gen, prsv, v);
    }
  }

  // With nothing waiting, every bit a path justifies is on.
  lemma AllReach(bbs: Blocks, ids: set<nat>, n: nat, rchIn: BVMap, gen: BVMap, prsv: BVMap, i: nat, b: nat)
    requires Progress(bbs, ids, n, rchIn, gen, prsv, []) && b in ids && Reaches(bbs, ids, gen, prsv, i, b)
    ensures i in rchIn[b]
  {
    hide Linked, Waits, Justified, Reach;
    var g := PrsvGraph(bbs, prsv, i);
    var c, d := GenSource(bbs, ids, gen, prsv, i, b);
    OnStep(bbs, ids, rchIn, gen, prsv, i, c, d);
    var on := set u | u in ids && i in rchIn[u];
    forall u: nat, v: nat | u in on && Step(g, u, v)
      ensures v in on
    {
      OnStep(bbs, ids, rchIn, gen, prsv, i, u, v);
    }
    ClosedKeepsReach(g, on, d, b);
  }

  lemma GenSource(bbs: Blocks, ids: set<nat>, gen: BVMap, prsv: BVMap, i: nat, b: nat) returns (c: nat, d: nat)
    requires Reaches(bbs, ids, gen, prsv, i, b)
    ensures GenEdge(bbs, ids, gen, i, c, d) && Reach(PrsvGraph(bbs, prsv, i), d, b)
  {
    c, d :| GenEdge(bbs, ids, gen, i, c, d) && Reach(PrsvGraph(bbs, prsv, i), d, b);
  }

  // `rchIn` satisfies the equations of reaching definitions.
  ghost predicate Solves(bbs: Blocks, ids: set<nat>, rchIn: BVMap, gen: BVMap, prsv: BVMap) {
    rchIn.Keys == ids && forall b, i :: b in ids && b < |bbs| ==> (i in rchIn[b] <==> Flows(bbs, rchIn, gen, prsv, b, i))
  }

  ghost predicate Flows(bbs: Blocks, rchIn: BVMap, gen: BVMap, prsv: BVMap, b: nat, i: nat)
    requires b < |bbs|
  {
    exists p :: p in bbs[b].preds && p in gen && (i in gen[p] || (p in rchIn && p in prsv && i in rchIn[p] && i in prsv[p]))
  }

  // The bits that paths justify solve the equations, and every solution contains them.
  lemma PathsAreLeastSolution(bbs: Blocks, ids: set<nat>, n: nat, gen: BVMap, prsv: BVMap, rchIn: BVMap)
    requires Linked(bbs, ids) && HasMaps(ids, n, gen, prsv) && rchIn.Keys == ids
    requires forall b: nat, i: nat :: b in ids ==> (i in rchIn[b] <==> Reaches(bbs, ids, gen, prsv, i, b))
    ensures Solves(bbs, ids, rchIn, gen, prsv)
    ensures forall r, b :: Solves(bbs, ids, r, gen, prsv) && b in ids ==> rchIn[b] <= r[b]
  {
    hide Reaches, Flows, Linked, HasMaps;
    forall b, i: nat | b in ids && b < |bbs|
      ensures i in rchIn[b] <==> Flows(bbs, rchIn, gen, prsv, b, i)
    {
      if i in rchIn[b] { ReachesFlows(bbs, ids, n, gen, prsv, rchIn, b, i); }
      if Flows(bbs, rchIn, gen, prsv, b, i) { FlowsReaches(bbs, ids, n, gen, prsv, rchIn, b, i); }
    }
    forall r, b, i: nat | Solves(bbs, ids, r, gen, prsv) && b in ids && i in rchIn[b]
      ensures i in r[b]
    {
      SolutionHolds(bbs, ids, n, gen, prsv, r, b, i);
    }
  }

  lemma ReachesFlows(bbs: Blocks, ids: set<nat>, n: nat, gen: BVMap, prsv: BVMap, rchIn: BVMap, b: nat, i: nat)
    requires Linked(bbs, ids) && HasMaps(ids, n, gen, prsv) && rchIn.Keys == ids && b in ids && b < |bbs|
    requires forall b: nat, i: nat :: b in ids ==> (i in rchIn[b] <==> Reaches(bbs, ids, gen, prsv, i, b))
    requires Reaches(bbs, ids, gen, prsv, i, b)
    ensures Flows(bbs, rchIn, gen, prsv, b, i)
  {
    var g := PrsvGraph(bbs, prsv, i);
    var c, d := GenSource(bbs, ids, gen, prsv, i, b);
    EdgeEnds(bbs, ids, c, d);
    if d != b {
      var p := LastStep(g, d, b);
      ClosedKeepsReach(g, ids, d, p);
      EdgeEnds(bbs, ids, p, b);
      assert Reaches(bbs, ids, gen, prsv, i, p);
    }
  }

  lemma EdgeEnds(bbs: Blocks, ids: set<nat>, u: nat, v: nat)
    requires Linked(bbs, ids) && u in ids && u < |bbs| && v in bbs[u].succs
    ensures v in ids && v < |bbs| && u in bbs[v].preds
  {
  }

  lemma LastStep(g: Graph, u: nat, v: nat) returns (p: nat)
    requires Reach(g, u, v) && u != v
    ensures Reach(g, u, p) && Step(g, p, v)
  {
    var q :| IsPath(g, q) && q[0] == u && q[|q| - 1] == v;
    p := q[|q| - 2];
    PathReach(g, q, 0, |q| - 2);
    assert Step(g, q[|q| - 2], q[|q| - 1]);
  }

  lemma FlowsReaches(bbs: Blocks, ids: set<nat>, n: nat, gen: BVMap, prsv: BVMap, rchIn: BVMap, b: nat, i: nat)
    requires Linked(bbs, ids) && HasMaps(ids, n, gen, prsv) && rchIn.Keys == ids && b in ids && b < |bbs|
    requires forall b: nat, i: nat :: b in ids ==> (i in rchIn[b] <==> Reaches(bbs, ids, gen, prsv, i, b))
    requires Flows(bbs, rchIn, gen, prsv, b, i)
    ensures Reaches(bbs, ids, gen, prsv, i, b)
  {
    hide Reaches;
    var p :| p in bbs[b].preds && p in gen && (i in gen[p] || (p in rchIn && p in prsv && i in rchIn[p] && i in prsv[p]));
    assert p in ids && b in bbs[p].succs;
    if i in gen[p] {
      ReachesGen(bbs, ids, gen, prsv, i, p, b);
    } else {
      ReachesOn(bbs, ids, gen, prsv, i, p, b);
    }
  }

  lemma SolutionHolds(bbs: Blocks, ids: set<nat>, n: nat, gen: BVMap, prsv: BVMap, r: BVMap, b: nat, i: nat)
    requires Linked(bbs, ids) && HasMaps(ids, n, gen, prsv) && Solves(bbs, ids, r, gen, prsv)
    requires b in ids && Reaches(bbs, ids, gen, prsv, i, b)
    ensures i in r[b]
  {
    hide Reach, Linked;
    var g := PrsvGraph(bbs, prsv, i);
    var c, d := GenSource(bbs, ids, gen, prsv, i, b);
    EdgeEnds(bbs, ids, c, d);
    assert Flows(bbs, r, gen, prsv, d, i);
    var on := set u | u in ids && i in r[u];
    forall u: nat, v: nat | u in on && Step(g, u, v)
      ensures v in on
    {
      EdgeEnds(bbs, ids, u, v);
      assert Flows(bbs, r, gen, prsv, v, i);
    }
    ClosedKeepsReach(g, on, d, b);
  }

  lemma StepKeeps(bbs: Blocks, ids: set<nat>, n: nat, rchIn: BVMap, gen: BVMap, prsv: BVMap, working: seq<nat>, b: nat, bv: BitVector)
    requires Progress(bbs, ids, n, rchIn, gen, prsv, working) && working != [] && working[0] == b && b < |bbs|
    requires Recomputed(bbs, rchIn, gen, prsv, b, bv)
    ensures b in rchIn && rchIn.Keys == ids && b in ids && rchIn[b] <= bv && forall i :: i in bv ==> i < n
    ensures Progress(bbs, ids, n, rchIn[b := bv], gen, prsv, if bv == rchIn[b] then working[1..] else working[1..] + bbs[b].succs)
  {
    hide Linked, HasMaps, Justified, Recomputed, Settled;
    assert b in working;
    StepGrows(bbs, ids, n, rchIn, gen, prsv, b, bv);
    StepWaits(bbs, ids, rchIn, gen, prsv, working, b, bv);
  }

  lemma Start(bbs: Blocks, order: seq<nat>, n: nat, rchIn: BVMap, gen: BVMap, prsv: BVMap)
    requires Linked(bbs, Elems(order)) && HasMaps(Elems(order), n, gen, prsv)
    requires rchIn.Keys == Elems(order) && forall b :: b in rchIn ==> rchIn[b] == {}
    ensures Progress(bbs, Elems(order), n, rchIn, gen, prsv, order)
  {
    hide Linked, HasMaps, Sent, Reaches, Settled;
  }

  lemma Finish(bbs: Blocks, ids: set<nat>, n: nat, rchIn: BVMap, gen: BVMap, prsv: BVMap)
    requires Progress(bbs, ids, n, rchIn, gen, prsv, [])
    ensures rchIn.Keys == ids
    ensures forall b: nat, i: nat :: b in ids ==> (i in rchIn[b] <==> Reaches(bbs, ids, gen, prsv, i, b))
  {
    hide Linked, HasMaps, Waits, Reaches, Sent;
    forall b: nat, i: nat | b in ids && Reaches(bbs, ids, gen, prsv, i, b)
      ensures i in rchIn[b]
    {
      AllReach(bbs, ids, n, rchIn, gen, prsv, i, b);
    }
  }

  lemma InRange(bbs: Blocks, ids: set<nat>, n: nat, rchIn: BVMap, gen: BVMap, prsv: BVMap, working: seq<nat>, b: nat)
    requires Progress(bbs, ids, n, rchIn, gen, prsv, working) && b in working
    ensures b in ids && b < |bbs| && b in rchIn
    ensures forall p :: p in bbs[b].preds ==> p in rchIn && p in gen && p in prsv
  {
  }

  // The worklist. Each block's set is wiped and recomputed from its predecessors, in their order.
  method SolveRchIn(bbs: Blocks, order: seq<nat>, n: nat, gen: BVMap, prsv: BVMap) returns (rchIn: BVMap)
    requires Linked(bbs, Elems(order)) && HasMaps(Elems(order), n, gen, prsv)
    ensures rchIn.Keys == Elems(order)
    ensures forall b: nat, i: nat :: b in order ==> (i in rchIn[b] <==> Reaches(bbs, Elems(order), gen, prsv, i, b))
  {
    hide Linked, HasMaps, Progress, Recomputed, Bits, AllBits, Reaches;
    ghost var ids := Elems(order);
    rchIn := map b | b in order :: {};
    var working := order;
    Start(bbs, order, n, rchIn, gen, prsv);
    while working != []
      invariant Progress(bbs, ids, n, rchIn, gen, prsv, working)
      decreases |AllBits(ids, n) - Bits(rchIn)|, |working|
    {
      var bb := working[0];
      InRange(bbs, ids, n, rchIn, gen, prsv, working, bb);
      ghost var rchIn0, rest := rchIn, working[1..];
      var old_bv := rchIn[bb];
      rchIn := Recompute(bbs, n, rchIn, gen, prsv, bb);
      StepKeeps(bbs, ids, n, rchIn0, gen, prsv, working, bb, rchIn[bb]);
      working := working[1..];
      if rchIn[bb] != old_bv {
        MoreBits(ids, n, rchIn0, bb, rchIn[bb]);
        working := working + bbs[bb].succs;
      } else {
        assert rchIn == rchIn0;
      }
    }
    Finish(bbs, ids, n, rchIn, gen, prsv);
  }

  method Recompute(bbs: Blocks, n: nat, rchIn0: BVMap, gen: BVMap, prsv: BVMap, bb: nat) returns (rchIn: BVMap)
    requires bb < |bbs| && bb in rchIn0
    requires forall p :: p in bbs[bb].preds ==> p in rchIn0 && p in gen && p in prsv
    ensures bb in rchIn && rchIn == rchIn0[bb := rchIn[bb]]
    ensures Recomputed(bbs, rchIn0, gen, prsv, bb, rchIn[bb])
  {
    rchIn := rchIn0[bb := {}];
    var preds := bbs[bb].preds;
    for i := 0 to |preds|
      invariant bb in rchIn && rchIn == rchIn0[bb := rchIn[bb]]
      invariant forall k :: k in rchIn[bb] <==> exists j :: 0 <= j < i && k in Sends(rchIn0, gen, prsv, preds[j], bb)
    {
      var pid := preds[i];
      ghost var before := rchIn[bb];
      var tmp_bv := rchIn[pid] * prsv[pid] + gen[pid];
      rchIn := rchIn[bb := rchIn[bb] + tmp_bv];
      assert before + tmp_bv == before + Sends(rchIn0, gen, prsv, pid, bb);
    }
    forall k
      ensures k in rchIn[bb] <==> Sent(bbs, rchIn0, gen, prsv, bb, k)
    {
      if k in rchIn[bb] {
        var j :| 0 <= j < |preds| && k in Sends(rchIn0, gen, prsv, preds[j], bb);
        assert preds[j] in preds;
      }
    }
    assert Recomputed(bbs, rchIn0, gen, prsv, bb, rchIn[bb]);
  }
}
