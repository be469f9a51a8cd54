/** The data flow analysis: collects definitions, builds the gen and preserve vectors and solves for
    the definitions that reach each block. */
module AstDfa {
  import opened Options
  import opened Graphs
  import opened CfgBlocks
  import opened CfgOrder
  import opened Cfa
  import opened Dfa
  import opened DfaDefs
  import opened DfaExact
  import opened DfaEffects
  import opened DfaHomes

  const DUMMY_BBID: nat := 0xffffffff

  // What the module handler provides: blocks, statements, functions, and the reachable blocks in order.
  datatype Handler = Handler(bbs: Blocks, nodes: Statements, funcs: seq<CfgFunc>, ids: seq<nat>)

  ghost predicate ValidHandler(h: Handler) {
    && |h.bbs| < DUMMY_BBID
    && (forall b, s :: 0 <= b < |h.bbs| && s in h.bbs[b].succs ==> s < |h.bbs|)
    && (forall f :: f in h.funcs ==> f.entry < |h.bbs|)
    && (forall b: nat :: b in h.ids <==> FromEntry(h.bbs, EntryOf(h.funcs), b))
    && Linked(h.bbs, Elems(h.ids))
    && (forall b, s :: b in h.ids && b < |h.bbs| && s in h.bbs[b].stmts ==> s in h.nodes)
    && OneHome(h.bbs, h.nodes, h.funcs, h.ids)
  }

  // The positions collected so far: those of the functions `fs` and of the blocks `done`.
  ghost predicate SoFar(h: Handler, fs: seq<CfgFunc>, done: set<nat>, pos: seq<DefPosition>) {
    && (forall f, d :: f in fs && d in FuncDefs(f) ==> d in pos)
    && (forall b, d :: b in done && b < |h.bbs| && d in Defs(h.nodes, h.bbs[b].stmts) ==> d in pos)
    && forall d :: d in pos ==> || (exists f :: f in fs && d in FuncDefs(f))
                                || exists b :: b in done && b < |h.bbs| && d in Defs(h.nodes, h.bbs[b].stmts)
  }

  lemma SoFarFunc(h: Handler, fs: seq<CfgFunc>, f: CfgFunc, done: set<nat>, pos: seq<DefPosition>)
    requires SoFar(h, fs, done, pos)
    ensures SoFar(h, fs + [f], done, pos + FuncDefs(f))
  {
  }

  lemma SoFarBlock(h: Handler, fs: seq<CfgFunc>, b: nat, done: set<nat>, pos: seq<DefPosition>)
    requires SoFar(h, fs, done, pos) && b < |h.bbs|
    ensures SoFar(h, fs, done + {b}, pos + Defs(h.nodes, h.bbs[b].stmts))
  {
  }

  // -------- The order of the positions

  // Blocks from position `a` of the order to position `b`.
  function Slice(order: seq<nat>, a: nat, b: nat): seq<nat> {
    if a <= b <= |order| then order[a..b] else []
  }

  function CutBefore(cuts: seq<nat>, i: nat): nat {
    if 0 < i <= |cuts| then cuts[i - 1] else 0
  }

  // For one function after the other its parameters, then the definitions of its blocks.
  function Positions(h: Handler, order: seq<nat>, cuts: seq<nat>, n: nat): seq<DefPosition>
    requires n <= |h.funcs| && n <= |cuts|
  {
    if n == 0 then []
    else Positions(h, order, cuts, n - 1) + FuncDefs(h.funcs[n - 1])
         + PathDefs(h.bbs, h.nodes, Slice(order, CutBefore(cuts, n - 1), cuts[n - 1]))
  }

  // From position `a` on there is the entry, and blocks after listed blocks.
  ghost predicate Segment(bbs: Blocks, order: seq<nat>, a: nat, entry: nat) {
    forall k :: a <= k < |order| ==> Follows(bbs, order[..k], entry, order[k])
  }

  // The blocks in the order visited, and how many of them after each function: every function's blocks are
  // those from its entry on that are not listed yet.
  ghost predicate Visited(h: Handler, order: seq<nat>, cuts: seq<nat>, n: nat) {
    && n == |cuts| && n <= |h.funcs| && NoDup(order) && BreadthFirst(h.bbs, EntryOf(h.funcs), order)
    && CutBefore(cuts, n) == |order|
    && forall i: nat :: i < n ==> CutFits(h, order, cuts, i)
  }

  ghost predicate CutFits(h: Handler, order: seq<nat>, cuts: seq<nat>, i: nat)
    requires i < |cuts| && i < |h.funcs|
  {
    && CutBefore(cuts, i) <= cuts[i] <= |order| && h.funcs[i].entry in order[..cuts[i]]
    && Working(h.bbs, order[..cuts[i]], [], []) && Segment(h.bbs, order[..cuts[i]], CutBefore(cuts, i), h.funcs[i].entry)
  }

  lemma NoneVisited(h: Handler)
    ensures Visited(h, [], [], 0) && Positions(h, [], [], 0) == []
  {
  }

  lemma {:induction false} PositionsStay(h: Handler, order: seq<nat>, cuts: seq<nat>, order': seq<nat>, c: nat, n: nat)
    requires n <= |cuts| && n <= |h.funcs| && order <= order' && forall i: nat :: i < |cuts| ==> cuts[i] <= |order|
    ensures Positions(h, order', cuts + [c], n) == Positions(h, order, cuts, n)
  {
    if n > 0 {
      PositionsStay(h, order, cuts, order', c, n - 1);
      var a, b := CutBefore(cuts, n - 1), cuts[n - 1];
      assert CutBefore(cuts + [c], n - 1) == a && (cuts + [c])[n - 1] == b;
      if a <= b { assert order'[a..b] == order[a..b]; }
    }
  }

  // The blocks of one function more.
  lemma OneMoreCut(h: Handler, order: seq<nat>, cuts: seq<nat>, order': seq<nat>, n: nat)
    requires n < |h.funcs| && Visited(h, order, cuts, n) && order <= order' && NoDup(order') && BreadthFirst(h.bbs, EntryOf(h.funcs), order')
    requires h.funcs[n].entry in order' && Working(h.bbs, order', [], []) && Segment(h.bbs, order', |order|, h.funcs[n].entry)
    ensures Visited(h, order', cuts + [|order'|], n + 1)
    ensures Positions(h, order', cuts + [|order'|], n + 1) ==
              Positions(h, order, cuts, n) + FuncDefs(h.funcs[n]) + PathDefs(h.bbs, h.nodes, order'[|order|..])
  {
    hide Working, Segment, BreadthFirst, FuncDefs, PathDefs;
    var cuts' := cuts + [|order'|];
    forall i: nat | i < n
      ensures cuts[i] <= |order|
    {
      assert CutFits(h, order, cuts, i);
    }
    PositionsStay(h, order, cuts, order', |order'|, n);
    assert order'[|order|..|order'|] == order'[|order|..] && order'[..|order'|] == order';
    forall i: nat | i < n + 1
      ensures CutFits(h, order', cuts', i)
    {
      if i < n {
        assert CutFits(h, order, cuts, i) && cuts'[i] == cuts[i] && CutBefore(cuts', i) == CutBefore(cuts, i);
        assert order'[..cuts[i]] == order[..cuts[i]];
      }
    }
  }

  lemma SegmentGrows(bbs: Blocks, order: seq<nat>, a: nat, entry: nat, b: nat)
    requires Segment(bbs, order, a, entry) && Follows(bbs, order, entry, b)
    ensures Segment(bbs, order + [b], a, entry)
  {
    hide Follows;
    var more := order + [b];
    forall k | a <= k < |more|
      ensures Follows(bbs, more[..k], entry, more[k])
    {
      assert more[..k] == order[..k];
      if k == |order| { assert more[..k] == order; }
    }
  }

  // A block is visited.
  lemma OneMoreVisited(h: Handler, order: seq<nat>, a: nat, b: nat, pos: seq<DefPosition>)
    requires b < |h.bbs| && a <= |order| && NoDup(order) && b !in order
    ensures NoDup(order + [b]) && Elems(order + [b]) == Elems(order) + {b}
    ensures pos + PathDefs(h.bbs, h.nodes, (order + [b])[a..]) == pos + PathDefs(h.bbs, h.nodes, order[a..]) + Defs(h.nodes, h.bbs[b].stmts)
  {
    hide Defs;
    var rest := order[a..];
    assert (order + [b])[a..] == rest + [b] && (rest + [b])[..|rest|] == rest;
  }

  // The collecting of one function's blocks: what is done and in which order, and what waits.
  datatype Collection = Collection(done: set<nat>, order: seq<nat>, working: seq<nat>, places: seq<(nat, nat)>, first: bool)

  // The function, those up to it, and the blocks and positions before it.
  datatype Start = Start(i: nat, fs: seq<CfgFunc>, order: seq<nat>, pos: seq<DefPosition>)

  ghost predicate Collecting(h: Handler, s: Start, c: Collection, pos: seq<DefPosition>) {
    && s.i < |h.funcs| && SoFar(h, s.fs, c.done, pos) && Explored(h.bbs, EntryOf(h.funcs), c.done, c.working)
    && (h.funcs[s.i].entry in c.done || h.funcs[s.i].entry in c.working)
    && (forall j :: 0 <= j < s.i ==> h.funcs[j].entry in c.order)
    && Listing(h, s, c) && pos == s.pos + PathDefs(h.bbs, h.nodes, c.order[|s.order|..])
  }

  ghost predicate Listing(h: Handler, s: Start, c: Collection) {
    && s.i < |h.funcs| && s.order <= c.order && c.done == Elems(c.order) && NoDup(c.order)
    && Segment(h.bbs, c.order, |s.order|, h.funcs[s.i].entry) && BreadthFirst(h.bbs, EntryOf(h.funcs), c.order)
    && Queued(h.bbs, c.order, c.working, c.places, h.funcs[s.i].entry, c.first)
  }

  lemma StartCollecting(h: Handler, s: Start)
    requires ValidHandler(h) && s.i < |h.funcs| && SoFar(h, s.fs, Elems(s.order), s.pos)
    requires Explored(h.bbs, EntryOf(h.funcs), Elems(s.order), [])
    requires NoDup(s.order) && (forall j :: 0 <= j < s.i ==> h.funcs[j].entry in s.order)
    requires BreadthFirst(h.bbs, EntryOf(h.funcs), s.order) && Working(h.bbs, s.order, [], [])
    ensures Collecting(h, s, Collection(Elems(s.order), s.order, [h.funcs[s.i].entry], [], true), s.pos)
  {
    hide ValidHandler, Explored, SoFar, Working, BreadthFirst;
    EntryReached(h, h.funcs[s.i], Elems(s.order));
    NoSegment(h, s.order, h.funcs[s.i].entry, s.pos);
  }

  // The first block that waits is visited, and its successors wait.
  lemma TakeBlock(h: Handler, s: Start, c: Collection, pos: seq<DefPosition>) returns (places: seq<(nat, nat)>)
    requires ValidHandler(h) && Collecting(h, s, c, pos) && c.working != [] && c.working[0] !in c.done
    ensures BlockFits(h, c.working[0], c.done)
    ensures Collecting(h, s, Collection(c.done + {c.working[0]}, c.order + [c.working[0]],
                                        (c.working + h.bbs[c.working[0]].succs)[1..], places, false),
                       pos + Defs(h.nodes, h.bbs[c.working[0]].stmts))
  {
    hide ValidHandler, Explored, SoFar, Listing, PathDefs, NoDup, Defs;
    var bb := c.working[0];
    assert c.working == [bb] + c.working[1..];
    VisitStep(h, s.fs, EntryOf(h.funcs), c.done, c.working, pos, bb);
    assert (c.working + h.bbs[bb].succs)[1..] == c.working[1..] + h.bbs[bb].succs;
    places := ListBlock(h, s, c);
    OneMoreVisited(h, c.order, |s.order|, bb, s.pos);
  }

  lemma ListBlock(h: Handler, s: Start, c: Collection) returns (places: seq<(nat, nat)>)
    requires Listing(h, s, c) && c.working != [] && c.working[0] !in c.done && c.working[0] < |h.bbs|
    requires forall j :: 0 <= j < s.i ==> h.funcs[j].entry in c.order
    ensures |s.order| <= |c.order| && NoDup(c.order) && c.working[0] !in c.order
    ensures Listing(h, s, Collection(c.done + {c.working[0]}, c.order + [c.working[0]],
                                     (c.working + h.bbs[c.working[0]].succs)[1..], places, false))
  {
    hide Queued, Segment, BreadthFirst, NextBlock, Follows;
    var bb := c.working[0];
    places := Taken(h.bbs, EntryOf(h.funcs), c.order, c.working, c.places, s.i, c.first);
    OneMoreVisited(h, c.order, |s.order|, bb, []);
    OneMore(h.bbs, EntryOf(h.funcs), c.order, bb);
    SegmentGrows(h.bbs, c.order, |s.order|, h.funcs[s.i].entry, bb);
    assert (c.working + h.bbs[bb].succs)[1..] == c.working[1..] + h.bbs[bb].succs;
  }

  ghost predicate BlockFits(h: Handler, bb: nat, done: set<nat>) {
    && bb < |h.bbs| && bb != DUMMY_BBID && (forall s :: s in h.bbs[bb].stmts ==> s in h.nodes)
    && |Below(|h.bbs|) - (done + {bb})| < |Below(|h.bbs|) - done|
  }

  lemma DropBlock(h: Handler, s: Start, c: Collection, pos: seq<DefPosition>) returns (places: seq<(nat, nat)>)
    requires Collecting(h, s, c, pos) && c.working != [] && c.working[0] in c.done
    ensures Collecting(h, s, c.(working := c.working[1..], places := places, first := false), pos)
  {
    hide Explored, SoFar, Queued, Segment, BreadthFirst, PathDefs, NextBlock, Follows, NoDup;
    assert c.working == [c.working[0]] + c.working[1..];
    places := Taken(h.bbs, EntryOf(h.funcs), c.order, c.working, c.places, s.i, c.first);
    DropKeeps(h.bbs, EntryOf(h.funcs), c.done, c.working);
  }

  lemma EndCollecting(h: Handler, s: Start, c: Collection, pos: seq<DefPosition>)
    requires Collecting(h, s, c, pos) && c.working == []
    ensures SoFar(h, s.fs, c.done, pos) && Explored(h.bbs, EntryOf(h.funcs), c.done, []) && h.funcs[s.i].entry in c.done
    ensures Listing(h, s, c) && Working(h.bbs, c.order, [], [])
    ensures pos == s.pos + PathDefs(h.bbs, h.nodes, c.order[|s.order|..])
  {
    hide Explored, SoFar, Queued, Segment, BreadthFirst, PathDefs, NoDup;
    NoneWaits(h.bbs, c.order, c.places, h.funcs[s.i].entry, c.first);
  }

  // What the collecting passes found.
  datatype Info = Info(pos: seq<DefPosition>, node2stmt: map<nat, nat>, stmt2bb: map<nat, nat>, entries: map<nat, CfgFunc>)

  ghost predicate HasParams(info: Info, bb: nat) {
    bb in info.entries && exists p :: p in info.entries[bb].params && p.isIdent
  }

  function HomedAt(info: Info, b: nat): BitVector {
    GenOf(info.pos, info.node2stmt, info.stmt2bb, b)
  }

  // The bits a block turns on: those of the definitions that sit in it, once it has anything to turn them on.
  ghost function BlockGen(h: Handler, info: Info, b: nat): BitVector
    requires b < |h.bbs|
  {
    if Defs(h.nodes, h.bbs[b].stmts) != [] || HasParams(info, b) then HomedAt(info, b) else {}
  }

  function BlockPrsv(h: Handler, info: Info, b: nat): BitVector
    requires b < |h.bbs|
  {
    PrsvOf(info.pos, Defs(h.nodes, h.bbs[b].stmts))
  }

  // Every block is done or waits.
  ghost predicate Covers(ids: seq<nat>, done: set<nat>, working: seq<nat>) {
    && (forall b :: b in working || b in done ==> b in ids)
    && (forall b :: b in ids ==> b in done || b in working)
  }

  // The vectors while blocks are taken one by one.
  ghost predicate Built(h: Handler, info: Info, gen: BVMap, prsv: BVMap, done: set<nat>) {
    forall b :: b in h.ids ==>
      && b < |h.bbs| && b in gen && b in prsv
      && gen[b] == (if b in done then BlockGen(h, info, b) else {})
      && prsv[b] == (if b in done then BlockPrsv(h, info, b) else Below(|info.pos|))
  }

  ghost predicate Building(h: Handler, info: Info, gen: BVMap, prsv: BVMap, done: set<nat>, working: seq<nat>) {
    Covers(h.ids, done, working) && Built(h, info, gen, prsv, done)
  }

  ghost predicate EntriesRight(h: Handler, entries: map<nat, CfgFunc>) {
    && (forall f :: f in h.funcs && f.isFunction ==> f.entry in entries && entries[f.entry] == f)
    && forall b :: b in entries ==> entries[b] in h.funcs && entries[b].isFunction && entries[b].entry == b
  }

  class AST_DFA {
    const mHandler: Handler
    var mNodeId2StmtIdMap: map<nat, nat>
    var mStmtId2BbIdMap: map<nat, nat>
    var mEntryBbId2FuncMap: map<nat, CfgFunc>
    var mDefPositionVec: seq<DefPosition>
    var mPrsvMap: BVMap
    var mGenMap: BVMap
    var mRchInMap: BVMap

    constructor (h: Handler)
      ensures mHandler == h && mDefPositionVec == []
      ensures mNodeId2StmtIdMap == map[] && mStmtId2BbIdMap == map[] && mEntryBbId2FuncMap == map[]
    {
      mHandler := h;
      mNodeId2StmtIdMap, mStmtId2BbIdMap, mEntryBbId2FuncMap := map[], map[], map[];
      mDefPositionVec, mPrsvMap, mGenMap, mRchInMap := [], map[], map[], map[];
    }

    ghost function View(): Info
      reads this`mDefPositionVec, this`mNodeId2StmtIdMap, this`mStmtId2BbIdMap, this`mEntryBbId2FuncMap
    {
      Info(mDefPositionVec, mNodeId2StmtIdMap, mStmtId2BbIdMap, mEntryBbId2FuncMap)
    }

    function GetStmtIdFromNodeId(id: nat): nat
      reads this`mNodeId2StmtIdMap
    {
      Look(mNodeId2StmtIdMap, id)
    }

    function GetBbIdFromStmtId(id: nat): nat
      reads this`mStmtId2BbIdMap
    {
      Look(mStmtId2BbIdMap, id)
    }

    // Which statement each node is in, and which block each statement; parameters are at the entry.
    method CollectInfo()
      requires mNodeId2StmtIdMap == map[] && mStmtId2BbIdMap == map[] && mEntryBbId2FuncMap == map[]
      requires forall b, s :: b in mHandler.ids && b < |mHandler.bbs| && s in mHandler.bbs[b].stmts ==> s in mHandler.nodes
      requires forall b :: b in mHandler.ids ==> b < |mHandler.bbs|
      requires FuncsApart(mHandler.funcs)
      modifies this`mNodeId2StmtIdMap, this`mStmtId2BbIdMap, this`mEntryBbId2FuncMap
      ensures var h := mHandler;
              && mNodeId2StmtIdMap == NodeMap(ParamMap(map[], h.funcs), h.nodes, Sites(h.bbs, h.ids))
              && mStmtId2BbIdMap == StmtMap(FuncStmtMap(h.funcs), h.nodes, Sites(h.bbs, h.ids))
      ensures EntriesRight(mHandler, mEntryBbId2FuncMap)
    {
      hide NodeMap, StmtMap, Sites, SetParams, SetAll;
      var h := mHandler;
      for i := 0 to |h.funcs|
        invariant mNodeId2StmtIdMap == ParamMap(map[], h.funcs[..i]) && mStmtId2BbIdMap == FuncStmtMap(h.funcs[..i])
        invariant forall j :: 0 <= j < i && h.funcs[j].isFunction ==> h.funcs[j].entry in mEntryBbId2FuncMap
        invariant forall j :: 0 <= j < i && h.funcs[j].isFunction ==> mEntryBbId2FuncMap[h.funcs[j].entry] == h.funcs[j]
        invariant forall b :: b in mEntryBbId2FuncMap ==>
                                exists j :: 0 <= j < i && mEntryBbId2FuncMap[b] == h.funcs[j] && h.funcs[j].isFunction && h.funcs[j].entry == b
      {
        var f := h.funcs[i];
        assert h.funcs[..i + 1][..i] == h.funcs[..i];
        if f.isFunction {
          mStmtId2BbIdMap := mStmtId2BbIdMap[f.nid := f.entry];
          mEntryBbId2FuncMap := mEntryBbId2FuncMap[f.entry := f];
          SetNodeIds(f);
        }
      }
      assert h.funcs[..|h.funcs|] == h.funcs;
      SiteMaps();
    }

    method SetNodeIds(f: CfgFunc)
      modifies this`mNodeId2StmtIdMap
      ensures mNodeId2StmtIdMap == SetParams(old(mNodeId2StmtIdMap), f.params, f.nid)
    {
      for i := 0 to |f.params|
        invariant mNodeId2StmtIdMap == SetParams(old(mNodeId2StmtIdMap), f.params[..i], f.nid)
      {
        assert f.params[..i + 1][..i] == f.params[..i];
        if f.params[i].isIdent { mNodeId2StmtIdMap := mNodeId2StmtIdMap[f.params[i].nid := f.nid]; }
      }
      assert f.params[..|f.params|] == f.params;
    }

    method SiteMaps()
      requires forall b, s :: b in mHandler.ids && b < |mHandler.bbs| && s in mHandler.bbs[b].stmts ==> s in mHandler.nodes
      requires forall b :: b in mHandler.ids ==> b < |mHandler.bbs|
      modifies this`mNodeId2StmtIdMap, this`mStmtId2BbIdMap
      ensures mNodeId2StmtIdMap == NodeMap(old(mNodeId2StmtIdMap), mHandler.nodes, Sites(mHandler.bbs, mHandler.ids))
      ensures mStmtId2BbIdMap == StmtMap(old(mStmtId2BbIdMap), mHandler.nodes, Sites(mHandler.bbs, mHandler.ids))
    {
      hide SetAll;
      var h := mHandler;
      for k := 0 to |h.ids|
        invariant mNodeId2StmtIdMap == NodeMap(old(mNodeId2StmtIdMap), h.nodes, Sites(h.bbs, h.ids[..k]))
        invariant mStmtId2BbIdMap == StmtMap(old(mStmtId2BbIdMap), h.nodes, Sites(h.bbs, h.ids[..k]))
      {
        var bbid := h.ids[k];
        assert bbid in h.ids;
        var stmts := h.bbs[bbid].stmts;
        BlockMaps(bbid, stmts, Sites(h.bbs, h.ids[..k]), old(mNodeId2StmtIdMap), old(mStmtId2BbIdMap));
        assert h.ids[..k + 1][..k] == h.ids[..k];
      }
      assert h.ids[..|h.ids|] == h.ids;
    }

    method BlockMaps(bbid: nat, stmts: seq<nat>, ghost before: seq<Site>, ghost n2s: map<nat, nat>, ghost s2b: map<nat, nat>)
      requires forall s :: s in stmts ==> s in mHandler.nodes
      requires mNodeId2StmtIdMap == NodeMap(n2s, mHandler.nodes, before) && mStmtId2BbIdMap == StmtMap(s2b, mHandler.nodes, before)
      modifies this`mNodeId2StmtIdMap, this`mStmtId2BbIdMap
      ensures mNodeId2StmtIdMap == NodeMap(n2s, mHandler.nodes, before + SitesOf(bbid, stmts))
      ensures mStmtId2BbIdMap == StmtMap(s2b, mHandler.nodes, before + SitesOf(bbid, stmts))
    {
      hide NodeMap, StmtMap, SetAll;
      assert before + SitesOf(bbid, stmts[..0]) == before;
      for i := 0 to |stmts|
        invariant mNodeId2StmtIdMap == NodeMap(n2s, mHandler.nodes, before + SitesOf(bbid, stmts[..i]))
        invariant mStmtId2BbIdMap == StmtMap(s2b, mHandler.nodes, before + SitesOf(bbid, stmts[..i]))
      {
        var stmt := stmts[i];
        assert before + SitesOf(bbid, stmts[..i + 1]) == before + SitesOf(bbid, stmts[..i]) + [Site(bbid, stmt)];
        OneMoreSite(n2s, s2b, mHandler.nodes, before + SitesOf(bbid, stmts[..i]), Site(bbid, stmt));
        if !mHandler.nodes[stmt].node.Function? {
          mStmtId2BbIdMap := mStmtId2BbIdMap[stmt := bbid];
          VisitIdentifiers(stmt, mHandler.nodes[stmt].idents);
        }
      }
      assert stmts[..|stmts|] == stmts;
    }

    // Every identifier inside the statement belongs to it.
    method VisitIdentifiers(stmt: nat, idents: seq<nat>)
      modifies this`mNodeId2StmtIdMap
      ensures mNodeId2StmtIdMap == SetAll(old(mNodeId2StmtIdMap), idents, stmt)
    {
      for i := 0 to |idents|
        invariant mNodeId2StmtIdMap == SetAll(old(mNodeId2StmtIdMap), idents[..i], stmt)
      {
        assert idents[..i + 1][..i] == idents[..i];
        mNodeId2StmtIdMap := mNodeId2StmtIdMap[idents[i] := stmt];
      }
      assert idents[..|idents|] == idents;
    }

    // Records what `node` defines. With the dummy block it only reports the name, in the bit number.
    method AddDef(node: Node, bitnum0: nat, bbid: nat) returns (nodeid: nat, bitnum: nat)
      modifies this`mDefPositionVec
      ensures nodeid == DefOf(node).1
      ensures DefOf(node).0 == 0 ==> bitnum == bitnum0 && mDefPositionVec == old(mDefPositionVec)
      ensures DefOf(node).0 != 0 && bbid == DUMMY_BBID ==> bitnum == DefOf(node).0 && mDefPositionVec == old(mDefPositionVec)
      ensures DefOf(node).0 != 0 && bbid != DUMMY_BBID ==>
                bitnum == bitnum0 + 1 && mDefPositionVec == old(mDefPositionVec) + [DefOf(node)]
      ensures (forall name: nat :: name != 0 ==> (Changes(node, name) <==> DefOf(node).0 == name)) <==> Shallow(node)
      ensures Direct(node) && DefOf(node).0 != 0 ==> nodeid == WrittenId(node)
    {
      hide Changes;
      DefIsChange(node);
      var stridx: nat := 0;
      nodeid, bitnum := 0, bitnum0;
      match node {
        case Decl(s, hasInit, varId) =>
          if hasInit { stridx, nodeid := s, varId; }
        case BinOperator(op, lhs) =>
          match op {
            case Assign | AddAssign | SubAssign | MulAssign | DivAssign | ModAssign | ShlAssign | ShrAssign
            | BandAssign | BorAssign | BxorAssign | ZextAssign =>
              var v := lhs;
              if v.upper.Some? { v := v.upper.value; }
              stridx, nodeid := v.stridx, v.nid;
            case _ =>
          }
        case UnaOperator(op, lhs) =>
          if op == Inc || op == Dec || op == PreInc || op == PreDec { stridx, nodeid := lhs.stridx, lhs.nid; }
        case _ =>
      }
      if stridx != 0 {
        if bbid == DUMMY_BBID {
          bitnum := stridx;
        } else {
          bitnum := bitnum + 1;
          mDefPositionVec := mDefPositionVec + [(stridx, nodeid)];
        }
      }
    }

    method GetDefStrIdx(node: Node) returns (stridx: nat)
      modifies this`mDefPositionVec
      ensures stridx == DefOf(node).0 && mDefPositionVec == old(mDefPositionVec)
      ensures (forall name: nat :: name != 0 ==> (Changes(node, name) <==> stridx == name)) <==> Shallow(node)
    {
      var _, s := AddDef(node, 0, DUMMY_BBID);
      stridx := s;
    }

    method CollectBlock(bb: nat, bitnum0: nat) returns (bitnum: nat)
      requires bb < |mHandler.bbs| && bb != DUMMY_BBID && forall s :: s in mHandler.bbs[bb].stmts ==> s in mHandler.nodes
      modifies this`mDefPositionVec
      ensures mDefPositionVec == old(mDefPositionVec) + Defs(mHandler.nodes, mHandler.bbs[bb].stmts)
      ensures bitnum - bitnum0 == |mDefPositionVec| - |old(mDefPositionVec)|
    {
      var stmts := mHandler.bbs[bb].stmts;
      bitnum := bitnum0;
      for i := 0 to |stmts|
        invariant mDefPositionVec == old(mDefPositionVec) + Defs(mHandler.nodes, stmts[..i])
        invariant bitnum - bitnum0 == |mDefPositionVec| - |old(mDefPositionVec)|
      {
        assert stmts[..i + 1][..i] == stmts[..i] && stmts[i] in stmts;
        var _, b := AddDef(mHandler.nodes[stmts[i]].node, bitnum, bb);
        bitnum := b;
      }
      assert stmts[..|stmts|] == stmts;
    }

    // Parameters are entered again, in case a statement around the function has mentioned them.
    method CollectParams(f: CfgFunc, bitnum0: nat) returns (bitnum: nat)
      requires f.isFunction
      modifies this`mDefPositionVec, this`mNodeId2StmtIdMap
      ensures mDefPositionVec == old(mDefPositionVec) + FuncDefs(f)
      ensures mNodeId2StmtIdMap == SetParams(old(mNodeId2StmtIdMap), f.params, f.nid)
      ensures bitnum - bitnum0 == |mDefPositionVec| - |old(mDefPositionVec)|
    {
      bitnum := bitnum0;
      for i := 0 to |f.params|
        invariant mDefPositionVec == old(mDefPositionVec) + ParamDefs(f.params[..i])
        invariant mNodeId2StmtIdMap == SetParams(old(mNodeId2StmtIdMap), f.params[..i], f.nid)
        invariant bitnum - bitnum0 == |mDefPositionVec| - |old(mDefPositionVec)|
      {
        var arg := f.params[i];
        assert f.params[..i + 1][..i] == f.params[..i];
        if arg.isIdent {
          bitnum := bitnum + 1;
          mDefPositionVec := mDefPositionVec + [(arg.stridx, arg.nid)];
          mNodeId2StmtIdMap := mNodeId2StmtIdMap[arg.nid := f.nid];
        }
      }
      assert f.params[..|f.params|] == f.params;
    }

    // Parameters first, then the blocks reached from the entry, for one function after the other.
    method CollectDefNodes() returns (bitnum: nat, ghost order: seq<nat>, ghost cuts: seq<nat>)
      requires ValidHandler(mHandler) && mDefPositionVec == []
      modifies this`mDefPositionVec, this`mNodeId2StmtIdMap
      ensures Collected(mHandler.bbs, mHandler.nodes, mHandler.funcs, mHandler.ids, mDefPositionVec)
      ensures mNodeId2StmtIdMap == ParamMap(old(mNodeId2StmtIdMap), mHandler.funcs) && bitnum == |mDefPositionVec|
      ensures Visited(mHandler, order, cuts, |mHandler.funcs|) && forall b: nat :: b in order <==> b in mHandler.ids
      ensures mDefPositionVec == Positions(mHandler, order, cuts, |mHandler.funcs|)
    {
      hide OneHome, Linked, Defs, FuncDefs, SoFar, SetParams, ParamMap, Working, Segment, BreadthFirst, PathDefs, Explored, Visited, Positions;
      var h := mHandler;
      ghost var entries := EntryOf(h.funcs);
      var done: set<nat> := {};
      bitnum, order, cuts := 0, [], [];
      Nothing(h);
      NoneExplored(h.bbs, entries);
      NoneVisited(h);
      NothingListed(h.bbs, entries);
      NoFuncs(mNodeId2StmtIdMap, h.funcs);
      for i := 0 to |h.funcs|
        invariant SoFar(h, h.funcs[..i], done, mDefPositionVec) && Explored(h.bbs, entries, done, [])
        invariant forall j :: 0 <= j < i ==> entries[j] in done
        invariant mNodeId2StmtIdMap == ParamMap(old(mNodeId2StmtIdMap), h.funcs[..i]) && bitnum == |mDefPositionVec|
        invariant Visited(h, order, cuts, i) && done == Elems(order) && Working(h.bbs, order, [], [])
        invariant NoDup(order) && BreadthFirst(h.bbs, entries, order) && |cuts| == i
        invariant mDefPositionVec == Positions(h, order, cuts, i)
      {
        var f := h.funcs[i];
        SoFarFunc(h, h.funcs[..i], f, done, mDefPositionVec);
        assert h.funcs[..i] + [f] == h.funcs[..i + 1];
        ParamMapStep(old(mNodeId2StmtIdMap), h.funcs, i);
        if f.isFunction {
          bitnum := CollectParams(f, bitnum);
        } else {
          NoParams(f, mDefPositionVec);
        }
        ghost var order0 := order;
        bitnum, done, order := CollectFrom(f, Start(i, h.funcs[..i + 1], order0, mDefPositionVec), done, bitnum);
        OneMoreCut(h, order0, cuts, order, i);
        cuts := cuts + [|order|];
      }
      assert h.funcs[..|h.funcs|] == h.funcs;
      AllDone(h, done);
      AllCollected(h, done, mDefPositionVec);
    }

    // The blocks reached from the entry of `f`, breadth first, each once.
    method CollectFrom(f: CfgFunc, ghost s: Start, done0: set<nat>, bitnum0: nat)
        returns (bitnum: nat, done: set<nat>, ghost order: seq<nat>)
      requires ValidHandler(mHandler) && s.i < |mHandler.funcs| && mHandler.funcs[s.i] == f && s.pos == mDefPositionVec
      requires SoFar(mHandler, s.fs, done0, mDefPositionVec) && Explored(mHandler.bbs, EntryOf(mHandler.funcs), done0, [])
      requires done0 == Elems(s.order) && NoDup(s.order) && forall j :: 0 <= j < s.i ==> mHandler.funcs[j].entry in s.order
      requires BreadthFirst(mHandler.bbs, EntryOf(mHandler.funcs), s.order) && Working(mHandler.bbs, s.order, [], [])
      requires bitnum0 == |mDefPositionVec|
      modifies this`mDefPositionVec
      ensures SoFar(mHandler, s.fs, done, mDefPositionVec) && Explored(mHandler.bbs, EntryOf(mHandler.funcs), done, [])
      ensures done0 <= done && f.entry in done && bitnum == |mDefPositionVec|
      ensures s.order <= order && done == Elems(order) && NoDup(order) && Segment(mHandler.bbs, order, |s.order|, f.entry)
      ensures BreadthFirst(mHandler.bbs, EntryOf(mHandler.funcs), order) && Working(mHandler.bbs, order, [], [])
      ensures mDefPositionVec == old(mDefPositionVec) + PathDefs(mHandler.bbs, mHandler.nodes, order[|s.order|..])
    {
      hide ValidHandler, Collecting, Defs, SoFar, Explored, Working, BreadthFirst, Segment, NoDup, PathDefs, Queued;
      var h := mHandler;
      ghost var places, first := [], true;
      bitnum, done, order := bitnum0, done0, s.order;
      var working_list := [f.entry];
      StartCollecting(h, s);
      while working_list != []
        invariant Collecting(h, s, Collection(done, order, working_list, places, first), mDefPositionVec)
        invariant done0 <= done && bitnum == |mDefPositionVec|
        decreases |Below(|h.bbs|) - done|, |working_list|
      {
        var bb := working_list[0];
        ghost var c := Collection(done, order, working_list, places, first);
        if bb !in done {
          places := TakeBlock(h, s, c, mDefPositionVec);
          bitnum := CollectBlock(bb, bitnum);
          working_list := working_list + h.bbs[bb].succs;
          done := done + {bb};
          order := order + [bb];
        } else {
          places := DropBlock(h, s, c, mDefPositionVec);
        }
        first := false;
        working_list := working_list[1..];
      }
      EndCollecting(h, s, Collection(done, order, [], places, first), mDefPositionVec);
    }

    method InitVectors()
      modifies this`mPrsvMap, this`mGenMap
      ensures forall b :: b in mHandler.ids ==> b in mPrsvMap && mPrsvMap[b] == Below(|mDefPositionVec|) && b in mGenMap && mGenMap[b] == {}
    {
      mPrsvMap := map b | b in mHandler.ids :: Below(|mDefPositionVec|);
      mGenMap := map b | b in mHandler.ids :: {};
    }

    // Set the bits of the definitions that sit in block `bbid`.
    method SetGenBits(bbid: nat)
      requires bbid in mGenMap
      modifies this`mGenMap
      ensures mGenMap == old(mGenMap)[bbid := old(mGenMap)[bbid] + GenOf(mDefPositionVec, mNodeId2StmtIdMap, mStmtId2BbIdMap, bbid)]
    {
      for i := 0 to |mDefPositionVec|
        invariant bbid in mGenMap && mGenMap == old(mGenMap)[bbid := mGenMap[bbid]]
        invariant mGenMap[bbid] ==
                    old(mGenMap)[bbid] + set j: nat | j < i && Home(mNodeId2StmtIdMap, mStmtId2BbIdMap, mDefPositionVec[j]) == bbid
      {
        var nid := mDefPositionVec[i].1;
        var sid := GetStmtIdFromNodeId(nid);
        var bid := GetBbIdFromStmtId(sid);
        if bid == bbid { mGenMap := mGenMap[bbid := mGenMap[bbid] + {i}]; }
      }
    }

    // Clear the bits of the definitions of `stridx`.
    method ClearPrsvBits(bbid: nat, stridx: nat)
      requires bbid in mPrsvMap
      modifies this`mPrsvMap
      ensures mPrsvMap == old(mPrsvMap)[bbid := old(mPrsvMap)[bbid] - Named(mDefPositionVec, stridx)]
    {
      for i := 0 to |mDefPositionVec|
        invariant bbid in mPrsvMap && mPrsvMap == old(mPrsvMap)[bbid := mPrsvMap[bbid]]
        invariant mPrsvMap[bbid] == old(mPrsvMap)[bbid] - Named(mDefPositionVec[..i], stridx)
      {
        if mDefPositionVec[i].0 == stridx { mPrsvMap := mPrsvMap[bbid := mPrsvMap[bbid] - {i}]; }
        assert Named(mDefPositionVec[..i + 1], stridx) ==
               Named(mDefPositionVec[..i], stridx) + if mDefPositionVec[i].0 == stridx then {i} else {};
      }
      assert mDefPositionVec[..|mDefPositionVec|] == mDefPositionVec;
    }

    // The vectors of one block. Every definition in it turns on the bits of all of them.
    method BlockVectors(bb: nat)
      requires bb < |mHandler.bbs| && bb in mGenMap && bb in mPrsvMap
      requires forall s :: s in mHandler.bbs[bb].stmts ==> s in mHandler.nodes
      requires mGenMap[bb] == {} && mPrsvMap[bb] == Below(|mDefPositionVec|)
      modifies this`mGenMap, this`mPrsvMap, this`mDefPositionVec
      ensures View() == old(View())
      ensures mPrsvMap == old(mPrsvMap)[bb := BlockPrsv(mHandler, View(), bb)]
      ensures mGenMap == old(mGenMap)[bb := BlockGen(mHandler, View(), bb)]
    {
      hide GenOf, Defs, PrsvOf, Named, HasParams;
      var stmts := mHandler.bbs[bb].stmts;
      ghost var nodes, pos, prsv0 := mHandler.nodes, mDefPositionVec, mPrsvMap;
      ghost var all, gen0, par := HomedAt(View(), bb), mGenMap, HasParams(View(), bb);
      EntryVectors(bb);
      NoDefs(nodes, pos);
      assert mPrsvMap == prsv0[bb := mPrsvMap[bb]];
      for i := 0 to |stmts|
        invariant View() == old(View())
        invariant mPrsvMap == prsv0[bb := PrsvOf(pos, Defs(nodes, stmts[..i]))]
        invariant mGenMap == gen0[bb := if Defs(nodes, stmts[..i]) != [] || par then all else {}]
      {
        StatementVectors(bb, stmts, i, prsv0, gen0, par);
      }
      assert stmts[..|stmts|] == stmts;
    }

    // What one statement of the block adds.
    method StatementVectors(bb: nat, stmts: seq<nat>, i: nat, ghost prsv0: BVMap, ghost gen0: BVMap, ghost par: bool)
      requires i < |stmts| && stmts[i] in mHandler.nodes
      requires mPrsvMap == prsv0[bb := PrsvOf(mDefPositionVec, Defs(mHandler.nodes, stmts[..i]))]
      requires mGenMap == gen0[bb := if Defs(mHandler.nodes, stmts[..i]) != [] || par then HomedAt(View(), bb) else {}]
      modifies this`mGenMap, this`mPrsvMap, this`mDefPositionVec
      ensures View() == old(View())
      ensures mPrsvMap == prsv0[bb := PrsvOf(mDefPositionVec, Defs(mHandler.nodes, stmts[..i + 1]))]
      ensures mGenMap == gen0[bb := if Defs(mHandler.nodes, stmts[..i + 1]) != [] || par then HomedAt(View(), bb) else {}]
    {
      hide GenOf, Defs, PrsvOf, Named;
      ghost var all := HomedAt(View(), bb);
      OneMoreDef(mDefPositionVec, mHandler.nodes, stmts, i);
      var stridx := GetDefStrIdx(mHandler.nodes[stmts[i]].node);
      if stridx != 0 {
        ghost var prsv1, gen1 := mPrsvMap, mGenMap;
        ClearPrsvBits(bb, stridx);
        SetGenBits(bb);
        SetTwice(prsv0, bb, prsv1[bb], mPrsvMap[bb]);
        SetTwice(gen0, bb, gen1[bb], mGenMap[bb]);
        assert gen1[bb] + all == all;
      }
    }

    // The vectors of every block, one worklist step each.
    method BuildVectors() returns (done: set<nat>)
      requires ValidHandler(mHandler)
      modifies this`mGenMap, this`mPrsvMap, this`mDefPositionVec
      ensures View() == old(View()) && Building(mHandler, View(), mGenMap, mPrsvMap, done, [])
    {
      hide ValidHandler, Building, BlockGen, BlockPrsv;
      var h := mHandler;
      InitVectors();
      done := {};
      var working_list := h.ids;
      ghost var info := View();
      BuildStart(h, info, mGenMap, mPrsvMap);
      while working_list != []
        invariant View() == info && Building(h, info, mGenMap, mPrsvMap, done, working_list)
        decreases |Elems(h.ids) - done|, |working_list|
      {
        var bb := working_list[0];
        if bb !in done {
          BlockInfo(h, info, mGenMap, mPrsvMap, done, working_list, bb);
          BuildStep(h, info, mGenMap, mPrsvMap, done, working_list, bb);
          working_list := working_list + h.bbs[bb].succs;
          BlockVectors(bb);
          done := done + {bb};
        } else {
          BuildSkip(h, info, mGenMap, mPrsvMap, done, working_list, bb);
        }
        working_list := working_list[1..];
      }
    }

    // Vectors, then the worklist over all blocks, in whatever order the done set yields them.
    method BuildBitVectors()
      requires ValidHandler(mHandler) && EntriesRight(mHandler, mEntryBbId2FuncMap)
      requires Collected(mHandler.bbs, mHandler.nodes, mHandler.funcs, mHandler.ids, mDefPositionVec)
      requires HomesRight(mHandler.bbs, mHandler.nodes, mHandler.funcs, mHandler.ids, mNodeId2StmtIdMap, mStmtId2BbIdMap)
      modifies this`mGenMap, this`mPrsvMap, this`mRchInMap, this`mDefPositionVec
      ensures View() == old(View())
      ensures VectorsRight(mHandler.bbs, mHandler.nodes, mHandler.ids, mDefPositionVec, mNodeId2StmtIdMap, mStmtId2BbIdMap, mGenMap, mPrsvMap)
      ensures Solved(mHandler, mGenMap, mPrsvMap, mRchInMap)
    {
      hide Solved, ValidHandler, Building, EntriesRight, Collected, HomesRight, VectorsRight, HasMaps, Linked, Reaches;
      var h := mHandler;
      var done := BuildVectors();
      VectorsAre(h, View(), mGenMap, mPrsvMap, done);
      var order: seq<nat>, left := [], done;
      while left != {}
        invariant left <= done && Elems(order) == done - left
        decreases |left|
      {
        var it :| it in left;
        assert Elems(order + [it]) == Elems(order) + {it};
        order, left := order + [it], left - {it};
      }
      MapsFit(h, View(), mGenMap, mPrsvMap);
      assert Elems(order) == Elems(h.ids);
      mRchInMap := SolveRchIn(h.bbs, order, |mDefPositionVec|, mGenMap, mPrsvMap);
      IsSolved(h, order, mGenMap, mPrsvMap, mRchInMap);
    }

    // Parameters count as defined at the entry block.
    method EntryVectors(bb: nat)
      requires bb in mGenMap && mGenMap[bb] == {}
      modifies this`mGenMap
      ensures mGenMap == old(mGenMap)[bb := if HasParams(View(), bb) then HomedAt(View(), bb) else {}]
    {
      hide GenOf;
      ghost var gen0 := mGenMap;
      assert gen0 == gen0[bb := gen0[bb]];
      if bb in mEntryBbId2FuncMap {
        var params := mEntryBbId2FuncMap[bb].params;
        ghost var all := HomedAt(View(), bb);
        ghost var hit := false;
        for i := 0 to |params|
          invariant hit <==> exists j :: 0 <= j < i && params[j].isIdent
          invariant mGenMap == gen0[bb := if hit then all else {}]
        {
          if params[i].isIdent {
            ghost var gen1 := mGenMap;
            SetGenBits(bb);
            SetTwice(gen0, bb, gen1[bb], mGenMap[bb]);
            assert gen1[bb] + all == all;
            hit := true;
          }
        }
        if HasParams(View(), bb) {
          var p :| p in params && p.isIdent;
          var j :| 0 <= j < |params| && params[j] == p;
          assert params[j].isIdent;
        }
      }
    }

    // The whole analysis. A bit is on at a block exactly when a path justifies it; whatever run of a
    // function leads to the block, the most recent definition of each name has its bit on.
    method DataFlowAnalysis()
      requires ValidHandler(mHandler) && mDefPositionVec == []
      requires mNodeId2StmtIdMap == map[] && mStmtId2BbIdMap == map[] && mEntryBbId2FuncMap == map[]
      modifies this
      ensures Solved(mHandler, mGenMap, mPrsvMap, mRchInMap)
      ensures VectorsRight(mHandler.bbs, mHandler.nodes, mHandler.ids, mDefPositionVec, mNodeId2StmtIdMap, mStmtId2BbIdMap, mGenMap, mPrsvMap)
      ensures Sound(mHandler, mDefPositionVec, mRchInMap) && SoundForChanges(mHandler, mDefPositionVec, mRchInMap)
      ensures Exact(mHandler, mDefPositionVec, mRchInMap)
    {
      hide Exact, SoundForChanges, Visited, Positions, ValidHandler, EntriesRight, Collected, HomesRight, VectorsRight, Solved, Sound, NodeMap, StmtMap, ParamMap, FuncStmtMap, Sites;
      HandlerFits(mHandler);
      CollectInfo();
      MapsRight(mHandler.bbs, mHandler.nodes, mHandler.funcs, mHandler.ids);
      var bitnum, _, _ := CollectDefNodes();
      BuildBitVectors();
      RunsAreSound(mHandler, View(), mGenMap, mPrsvMap, mRchInMap);
      ChangesAreSound(mHandler, mDefPositionVec, mRchInMap);
      BitsAreExact(mHandler, View(), mGenMap, mPrsvMap, mRchInMap);
    }
  }

  // A bit is on for a block just where a path brings its definition there, past no other of its name.
  ghost predicate Exact(h: Handler, pos: seq<DefPosition>, rchIn: BVMap) {
    && rchIn.Keys == Elems(h.ids)
    && forall b: nat, i: nat :: b in h.ids ==>
         (i in rchIn[b] <==> i < |pos| && ComesTo(h.bbs, h.nodes, h.funcs, h.ids, pos[i], b))
  }

  lemma BitsAreExact(h: Handler, info: Info, gen: BVMap, prsv: BVMap, rchIn: BVMap)
    requires ValidHandler(h) && Solved(h, gen, prsv, rchIn)
    requires Collected(h.bbs, h.nodes, h.funcs, h.ids, info.pos)
    requires HomesRight(h.bbs, h.nodes, h.funcs, h.ids, info.node2stmt, info.stmt2bb)
    requires VectorsRight(h.bbs, h.nodes, h.ids, info.pos, info.node2stmt, info.stmt2bb, gen, prsv)
    ensures Exact(h, info.pos, rchIn)
  {
    hide ValidHandler, Collected, HomesRight, VectorsRight, Linked, Reaches, ComesTo;
    BlocksLinked(h);
    forall b: nat, i: nat | b in h.ids
      ensures i in rchIn[b] <==> i < |info.pos| && ComesTo(h.bbs, h.nodes, h.funcs, h.ids, info.pos[i], b)
    {
      if i < |info.pos| {
        ReachesIs(h.bbs, h.nodes, h.funcs, h.ids, info.pos, info.node2stmt, info.stmt2bb, gen, prsv, i, b);
      } else if i in rchIn[b] {
        NoBitBeyond(h, info, gen, prsv, i, b);
      }
    }
  }

  lemma NoBitBeyond(h: Handler, info: Info, gen: BVMap, prsv: BVMap, i: nat, b: nat)
    requires VectorsRight(h.bbs, h.nodes, h.ids, info.pos, info.node2stmt, info.stmt2bb, gen, prsv)
    requires Reaches(h.bbs, Elems(h.ids), gen, prsv, i, b)
    ensures i < |info.pos|
  {
    hide Home, Defs;
    var c: nat, d: nat :| GenEdge(h.bbs, Elems(h.ids), gen, i, c, d) && Reach(PrsvGraph(h.bbs, prsv, i), d, b);
  }

  // In every run, the most recent definition of a name has a position, and its bit is on where the run stands.
  ghost predicate Sound(h: Handler, pos: seq<DefPosition>, rchIn: BVMap) {
    forall f, p, d :: f in h.funcs && IsRun(h.bbs, f, p) && IsLastDef(RunDefs(h.bbs, h.nodes, f, p), d) ==>
      && d in pos && p[|p| - 1] in rchIn
      && forall i :: 0 <= i < |pos| && pos[i] == d ==> i in rchIn[p[|p| - 1]]
  }

  // In every run whose targets are variables or fields of variables, the last event that can change a
  // variable has a position where it writes, and its bit is on where the run stands.
  ghost predicate SoundForChanges(h: Handler, pos: seq<DefPosition>, rchIn: BVMap) {
    forall f, p, name: nat, id: nat :: f in h.funcs && IsRun(h.bbs, f, p) && LastChangeIs(h, f, p, name, id) ==>
      && (name, id) in pos && p[|p| - 1] in rchIn
      && forall i :: 0 <= i < |pos| && pos[i] == (name, id) ==> i in rchIn[p[|p| - 1]]
  }

  ghost predicate LastChangeIs(h: Handler, f: CfgFunc, p: seq<nat>, name: nat, id: nat) {
    && p != [] && name != 0 && AllDirect(RunEvents(h.bbs, h.nodes, f, p))
    && IsLastChange(RunEvents(h.bbs, h.nodes, f, p), name, id)
  }

  lemma ChangesAreSound(h: Handler, pos: seq<DefPosition>, rchIn: BVMap)
    requires Sound(h, pos, rchIn)
    ensures SoundForChanges(h, pos, rchIn)
  {
    hide IsRun, IsLastDef, IsLastChange, RunEvents, RunDefs, AllDirect;
    forall f, p, name: nat, id: nat | f in h.funcs && IsRun(h.bbs, f, p) && LastChangeIs(h, f, p, name, id)
      ensures (name, id) in pos && p[|p| - 1] in rchIn
      ensures forall i :: 0 <= i < |pos| && pos[i] == (name, id) ==> i in rchIn[p[|p| - 1]]
    {
      LastChangeIsLastDef(RunEvents(h.bbs, h.nodes, f, p), name, id);
      RunDefsAre(h.bbs, h.nodes, f, p);
      var d := (name, id);
      assert IsLastDef(RunDefs(h.bbs, h.nodes, f, p), d);
    }
  }

  lemma HandlerFits(h: Handler)
    requires ValidHandler(h)
    ensures FuncsApart(h.funcs) && OneHome(h.bbs, h.nodes, h.funcs, h.ids)
    ensures forall b :: b in h.ids ==> b < |h.bbs|
    ensures forall b, s :: b in h.ids && b < |h.bbs| && s in h.bbs[b].stmts ==> s in h.nodes
  {
    assert forall b :: b in h.ids ==> b in Elems(h.ids);
  }

  lemma RunsAreSound(h: Handler, info: Info, gen: BVMap, prsv: BVMap, rchIn: BVMap)
    requires ValidHandler(h) && Solved(h, gen, prsv, rchIn)
    requires Collected(h.bbs, h.nodes, h.funcs, h.ids, info.pos)
    requires HomesRight(h.bbs, h.nodes, h.funcs, h.ids, info.node2stmt, info.stmt2bb)
    requires VectorsRight(h.bbs, h.nodes, h.ids, info.pos, info.node2stmt, info.stmt2bb, gen, prsv)
    ensures Sound(h, info.pos, rchIn)
  {
    hide ValidHandler, Solved, Collected, HomesRight, VectorsRight, IsPath, IsLastDef;
    forall f, p, d | f in h.funcs && IsRun(h.bbs, f, p) && IsLastDef(RunDefs(h.bbs, h.nodes, f, p), d)
      ensures d in info.pos && p[|p| - 1] in rchIn
      ensures forall i :: 0 <= i < |info.pos| && info.pos[i] == d ==> i in rchIn[p[|p| - 1]]
    {
      RunIsSound(h, info, gen, prsv, rchIn, f, p, d);
    }
  }

  lemma RunIsSound(h: Handler, info: Info, gen: BVMap, prsv: BVMap, rchIn: BVMap, f: CfgFunc, p: seq<nat>, d: DefPosition)
    requires ValidHandler(h) && Solved(h, gen, prsv, rchIn) && f in h.funcs
    requires Collected(h.bbs, h.nodes, h.funcs, h.ids, info.pos)
    requires HomesRight(h.bbs, h.nodes, h.funcs, h.ids, info.node2stmt, info.stmt2bb)
    requires VectorsRight(h.bbs, h.nodes, h.ids, info.pos, info.node2stmt, info.stmt2bb, gen, prsv)
    requires IsRun(h.bbs, f, p) && IsLastDef(RunDefs(h.bbs, h.nodes, f, p), d)
    ensures d in info.pos && p[|p| - 1] in rchIn
    ensures forall i :: 0 <= i < |info.pos| && info.pos[i] == d ==> i in rchIn[p[|p| - 1]]
  {
    hide ValidHandler, Collected, VectorsRight, IsLastDef, Linked, Reaches, Home, Defs, FuncDefs, RunDefs;
    EntryListed(h, f);
    BlocksLinked(h);
    LastDefCollected(h, f, p, d, info.pos);
    assert forall b :: b in rchIn <==> b in Elems(h.ids);
    forall i | 0 <= i < |info.pos| && info.pos[i] == d
      ensures p[|p| - 1] in h.ids && i in rchIn[p[|p| - 1]]
    {
      LastDefReaches(h.bbs, h.nodes, f, h.ids, info.pos, info.node2stmt, info.stmt2bb, gen, prsv, p, i);
    }
  }

  lemma BlocksLinked(h: Handler)
    requires ValidHandler(h)
    ensures Linked(h.bbs, Elems(h.ids))
  {
    hide OneHome, FromEntry, Linked;
  }

  lemma EntryListed(h: Handler, f: CfgFunc)
    requires ValidHandler(h) && f in h.funcs
    ensures f.entry in h.ids
  {
    var i :| 0 <= i < |h.funcs| && h.funcs[i] == f;
    assert EntryOf(h.funcs)[i] == f.entry;
    ReachRefl(FlowGraph(h.bbs), f.entry);
  }

  lemma LastDefCollected(h: Handler, f: CfgFunc, p: seq<nat>, d: DefPosition, pos: seq<DefPosition>)
    requires Linked(h.bbs, Elems(h.ids)) && Collected(h.bbs, h.nodes, h.funcs, h.ids, pos)
    requires f in h.funcs && f.entry in h.ids && IsRun(h.bbs, f, p) && IsLastDef(RunDefs(h.bbs, h.nodes, f, p), d)
    ensures d in pos
  {
    PathPrefixInIds(h.bbs, h.ids, p);
    if d !in FuncDefs(f) {
      var b := DefOnPath(h.bbs, h.nodes, p[..|p| - 1], d);
    }
  }

  lemma {:induction false} DefOnPath(bbs: Blocks, nodes: Statements, p: seq<nat>, d: DefPosition) returns (b: nat)
    requires d in PathDefs(bbs, nodes, p)
    ensures b in p && b < |bbs| && d in Defs(nodes, bbs[b].stmts)
  {
    b := p[|p| - 1];
    if !(b < |bbs| && d in Defs(nodes, bbs[b].stmts)) {
      b := DefOnPath(bbs, nodes, p[..|p| - 1], d);
    }
  }

  lemma OneMoreSite(n2s: map<nat, nat>, s2b: map<nat, nat>, nodes: Statements, sites: seq<Site>, x: Site)
    ensures var m := NodeMap(n2s, nodes, sites);
            NodeMap(n2s, nodes, sites + [x]) == if Skipped(nodes, x.stmt) then m else SetAll(m, nodes[x.stmt].idents, x.stmt)
    ensures var m := StmtMap(s2b, nodes, sites);
            StmtMap(s2b, nodes, sites + [x]) == if Skipped(nodes, x.stmt) then m else m[x.stmt := x.bb]
  {
    assert (sites + [x])[..|sites|] == sites;
  }

  lemma VisitStep(h: Handler, fs: seq<CfgFunc>, entries: seq<nat>, done: set<nat>, working: seq<nat>, pos: seq<DefPosition>, bb: nat)
    requires ValidHandler(h) && entries == EntryOf(h.funcs) && SoFar(h, fs, done, pos)
    requires Explored(h.bbs, entries, done, working) && working != [] && working[0] == bb && bb !in done
    ensures bb < |h.bbs| && bb != DUMMY_BBID && forall s :: s in h.bbs[bb].stmts ==> s in h.nodes
    ensures SoFar(h, fs, done + {bb}, pos + Defs(h.nodes, h.bbs[bb].stmts))
    ensures Explored(h.bbs, entries, done + {bb}, (working + h.bbs[bb].succs)[1..])
    ensures |Below(|h.bbs|) - (done + {bb})| < |Below(|h.bbs|) - done|
  {
    hide OneHome, Linked, Defs, FuncDefs, SoFar, FlowGraph, FromEntry;
    assert bb in working;
    assert bb in h.ids;
    SoFarBlock(h, fs, bb, done, pos);
    VisitKeeps(h.bbs, entries, done, working, bb);
    SubsetSmaller(Below(|h.bbs|), done, bb);
  }

  lemma EntryReached(h: Handler, f: CfgFunc, done: set<nat>)
    requires ValidHandler(h) && f in h.funcs && Explored(h.bbs, EntryOf(h.funcs), done, [])
    ensures Explored(h.bbs, EntryOf(h.funcs), done, [f.entry])
  {
    var i :| 0 <= i < |h.funcs| && h.funcs[i] == f;
    assert EntryOf(h.funcs)[i] == f.entry;
    ReachRefl(FlowGraph(h.bbs), f.entry);
  }

  lemma NoSegment(h: Handler, order: seq<nat>, entry: nat, pos: seq<DefPosition>)
    ensures Segment(h.bbs, order, |order|, entry) && pos + PathDefs(h.bbs, h.nodes, order[|order|..]) == pos
  {
    assert order[|order|..] == [];
  }

  lemma Nothing(h: Handler)
    ensures SoFar(h, h.funcs[..0], {}, [])
  {
  }

  lemma NoFuncs(m: map<nat, nat>, funcs: seq<CfgFunc>)
    ensures ParamMap(m, funcs[..0]) == m
  {
  }

  lemma NoParams(f: CfgFunc, pos: seq<DefPosition>)
    requires !f.isFunction
    ensures pos + FuncDefs(f) == pos
  {
  }

  lemma AllDone(h: Handler, done: set<nat>)
    requires ValidHandler(h) && Explored(h.bbs, EntryOf(h.funcs), done, [])
    requires forall e :: e in EntryOf(h.funcs) ==> e in done
    ensures forall b: nat :: b in done <==> b in h.ids
  {
    forall b | b in h.ids
      ensures b in done
    {
      var e :| e in EntryOf(h.funcs) && Reach(FlowGraph(h.bbs), e, b);
      ClosedKeepsReach(FlowGraph(h.bbs), done, e, b);
    }
  }

  lemma AllCollected(h: Handler, done: set<nat>, pos: seq<DefPosition>)
    requires SoFar(h, h.funcs, done, pos) && forall b: nat :: b in done <==> b in h.ids
    ensures Collected(h.bbs, h.nodes, h.funcs, h.ids, pos)
  {
    forall d | d in pos
      ensures FromSource(h.bbs, h.nodes, h.funcs, h.ids, d)
    {
      if b :| b in done && b < |h.bbs| && d in Defs(h.nodes, h.bbs[b].stmts) {
        assert b in h.ids;
      }
    }
  }

  // The positions that define `stridx`.
  function Named(pos: seq<DefPosition>, stridx: nat): BitVector {
    set i: nat | i < |pos| && pos[i].0 == stridx
  }

  lemma NoDefs(nodes: Statements, pos: seq<DefPosition>)
    ensures Defs(nodes, []) == [] && PrsvOf(pos, []) == Below(|pos|)
  {
  }

  lemma OneMoreDef(pos: seq<DefPosition>, nodes: Statements, stmts: seq<nat>, i: nat)
    requires i < |stmts| && stmts[i] in nodes
    ensures var defs, d := Defs(nodes, stmts[..i]), DefOf(nodes[stmts[i]].node);
            if d.0 == 0 then Defs(nodes, stmts[..i + 1]) == defs
            else Defs(nodes, stmts[..i + 1]) == defs + [d] && PrsvOf(pos, defs + [d]) == PrsvOf(pos, defs) - Named(pos, d.0)
  {
    var defs, d := Defs(nodes, stmts[..i]), DefOf(nodes[stmts[i]].node);
    assert stmts[..i + 1][..i] == stmts[..i];
    assert forall x :: x in defs + [d] <==> x in defs || x == d;
  }

  lemma SetTwice(m: BVMap, b: nat, x: BitVector, y: BitVector)
    ensures m[b := x][b := y] == m[b := y]
  {
  }

  lemma BlockInfo(h: Handler, info: Info, gen: BVMap, prsv: BVMap, done: set<nat>, working: seq<nat>, b: nat)
    requires ValidHandler(h) && Building(h, info, gen, prsv, done, working) && b in working && b !in done
    ensures b < |h.bbs| && forall s :: s in h.bbs[b].stmts ==> s in h.nodes
    ensures b in gen && b in prsv && gen[b] == {} && prsv[b] == Below(|info.pos|)
  {
    hide OneHome, FromEntry, Linked;
  }

  lemma BuildStart(h: Handler, info: Info, gen: BVMap, prsv: BVMap)
    requires ValidHandler(h)
    requires forall b :: b in h.ids ==> b in prsv && prsv[b] == Below(|info.pos|) && b in gen && gen[b] == {}
    ensures Building(h, info, gen, prsv, {}, h.ids)
  {
    hide OneHome, FromEntry;
    assert forall b :: b in h.ids <==> b in Elems(h.ids);
  }

  lemma SuccsIn(h: Handler, b: nat)
    requires ValidHandler(h) && b in h.ids && b < |h.bbs|
    ensures b in Elems(h.ids) && forall c :: c in h.bbs[b].succs ==> c in h.ids
  {
    hide OneHome, FromEntry;
    forall c | c in h.bbs[b].succs
      ensures c in h.ids
    {
      assert b in Elems(h.ids) && c in Elems(h.ids);
    }
  }

  lemma BuildStep(h: Handler, info: Info, gen: BVMap, prsv: BVMap, done: set<nat>, working: seq<nat>, b: nat)
    requires ValidHandler(h) && Building(h, info, gen, prsv, done, working) && working != [] && working[0] == b
    requires b !in done && b < |h.bbs|
    ensures Building(h, info, gen[b := BlockGen(h, info, b)], prsv[b := BlockPrsv(h, info, b)],
                     done + {b}, (working + h.bbs[b].succs)[1..])
    ensures |Elems(h.ids) - (done + {b})| < |Elems(h.ids) - done|
  {
    hide ValidHandler, Built;
    assert b in working;
    SuccsIn(h, b);
    CoverStep(h.ids, done, working, b, h.bbs[b].succs);
    BuiltStep(h, info, gen, prsv, done, b);
    SubsetSmaller(Elems(h.ids), done, b);
  }

  lemma CoverStep(ids: seq<nat>, done: set<nat>, working: seq<nat>, b: nat, succs: seq<nat>)
    requires Covers(ids, done, working) && working != [] && working[0] == b && forall c :: c in succs ==> c in ids
    ensures Covers(ids, done + {b}, (working + succs)[1..])
  {
    assert working == [b] + working[1..];
    var next := (working + succs)[1..];
    assert next == working[1..] + succs;
    assert forall c :: c in next <==> c in working[1..] || c in succs;
  }

  lemma BuiltStep(h: Handler, info: Info, gen: BVMap, prsv: BVMap, done: set<nat>, b: nat)
    requires Built(h, info, gen, prsv, done) && b < |h.bbs|
    ensures Built(h, info, gen[b := BlockGen(h, info, b)], prsv[b := BlockPrsv(h, info, b)], done + {b})
  {
    hide BlockGen, BlockPrsv;
  }

  lemma BuildSkip(h: Handler, info: Info, gen: BVMap, prsv: BVMap, done: set<nat>, working: seq<nat>, b: nat)
    requires Building(h, info, gen, prsv, done, working) && working != [] && working[0] == b && b in done
    ensures Building(h, info, gen, prsv, done, working[1..])
  {
    hide BlockGen, BlockPrsv;
    assert working == [b] + working[1..];
  }

  // A block with nothing to turn its bits on has no definition whose bit could be on.
  lemma VectorsAre(h: Handler, info: Info, gen: BVMap, prsv: BVMap, done: set<nat>)
    requires ValidHandler(h) && EntriesRight(h, info.entries) && Building(h, info, gen, prsv, done, [])
    requires Collected(h.bbs, h.nodes, h.funcs, h.ids, info.pos)
    requires HomesRight(h.bbs, h.nodes, h.funcs, h.ids, info.node2stmt, info.stmt2bb)
    ensures VectorsRight(h.bbs, h.nodes, h.ids, info.pos, info.node2stmt, info.stmt2bb, gen, prsv)
    ensures done == Elems(h.ids)
  {
    hide ValidHandler, Defs, Home, PrsvOf;
    forall b, i: nat | b in h.ids && i < |info.pos| && Home(info.node2stmt, info.stmt2bb, info.pos[i]) == b
      ensures Defs(h.nodes, h.bbs[b].stmts) != [] || HasParams(info, b)
    {
      assert FromSource(h.bbs, h.nodes, h.funcs, h.ids, info.pos[i]);
      if f :| f in h.funcs && info.pos[i] in FuncDefs(f) {
        ParamDefIs(f.params, info.pos[i]);
      }
    }
  }

  lemma MapsFit(h: Handler, info: Info, gen: BVMap, prsv: BVMap)
    requires ValidHandler(h) && VectorsRight(h.bbs, h.nodes, h.ids, info.pos, info.node2stmt, info.stmt2bb, gen, prsv)
    ensures Linked(h.bbs, Elems(h.ids)) && HasMaps(Elems(h.ids), |info.pos|, gen, prsv)
  {
    hide OneHome, FromEntry, Home, PrsvOf, Linked;
  }

  lemma IsSolved(h: Handler, order: seq<nat>, gen: BVMap, prsv: BVMap, rchIn: BVMap)
    requires Elems(order) == Elems(h.ids) && rchIn.Keys == Elems(order)
    requires forall b: nat, i: nat :: b in order ==> (i in rchIn[b] <==> Reaches(h.bbs, Elems(order), gen, prsv, i, b))
    ensures Solved(h, gen, prsv, rchIn)
  {
    hide Reaches;
    assert forall b :: b in Elems(order) <==> b in order;
    assert forall b :: b in Elems(h.ids) <==> b in h.ids;
  }

  // The solved vectors: exactly the bits that paths justify.
  ghost predicate Solved(h: Handler, gen: BVMap, prsv: BVMap, rchIn: BVMap) {
    && rchIn.Keys == Elems(h.ids)
    && forall b: nat, i: nat :: b in h.ids ==> (i in rchIn[b] <==> Reaches(h.bbs, Elems(h.ids), gen, prsv, i, b))
  }
}
