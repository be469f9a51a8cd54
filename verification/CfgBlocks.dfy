/** Basic blocks of a control flow graph, and what the graph means: a walk along its edges that
    lists the statements met. A block is named by its position in the table of blocks. */
module CfgBlocks {
  import opened Options

  datatype BBKind = Unknown | Uncond | Block | Branch | LoopHeader | Switch | Case | Try | Catch
                  | Finally | Yield | Terminated | Join | Join2

  datatype CfgBB = CfgBB(kind: BBKind, stmts: seq<nat>, succs: seq<nat>, preds: seq<nat>)

  type Blocks = seq<CfgBB>

  // -------- Building steps

  function NewBB(bbs: Blocks, kind: BBKind): Blocks {
    bbs + [CfgBB(kind, [], [], [])]
  }

  function SetKind(bbs: Blocks, b: nat, kind: BBKind): Blocks
    requires b < |bbs|
  {
    bbs[b := bbs[b].(kind := kind)]
  }

  // A statement after a jump is dropped.
  function AddStatement(bbs: Blocks, b: nat, stmt: nat): Blocks
    requires b < |bbs|
  {
    if bbs[b].kind.Terminated? then bbs else bbs[b := bbs[b].(stmts := bbs[b].stmts + [stmt])]
  }

  function AddStatements(bbs: Blocks, b: nat, stmts: seq<nat>): (r: Blocks)
    requires b < |bbs|
    decreases |stmts|
    ensures |r| == |bbs|
    ensures r == if bbs[b].kind.Terminated? then bbs else bbs[b := bbs[b].(stmts := bbs[b].stmts + stmts)]
  {
    if stmts == [] then
      assert bbs[b].stmts + stmts == bbs[b].stmts;
      bbs
    else
      assert bbs[b].stmts + stmts == bbs[b].stmts + [stmts[0]] + stmts[1..];
      AddStatements(AddStatement(bbs, b, stmts[0]), b, stmts[1..])
  }

  // An edge is recorded at both ends, unless its source already ended in a jump.
  function AddSuccessor(bbs: Blocks, b: nat, succ: nat): Blocks
    requires b < |bbs| && succ < |bbs|
  {
    if bbs[b].kind.Terminated? then bbs
    else
      var bbs' := bbs[b := bbs[b].(succs := bbs[b].succs + [succ])];
      bbs'[succ := bbs'[succ].(preds := bbs'[succ].preds + [b])]
  }

  // How often block `b` lists `c` as a successor, and as a predecessor.
  function OutCount(bbs: Blocks, b: nat, c: nat): nat
    requires b < |bbs|
  {
    multiset(bbs[b].succs)[c]
  }

  function InCount(bbs: Blocks, b: nat, c: nat): nat
    requires b < |bbs|
  {
    multiset(bbs[b].preds)[c]
  }

  // Every edge is recorded as often at its source as at its target.
  ghost predicate Symmetric(bbs: Blocks) {
    && (forall b, s :: 0 <= b < |bbs| && s in bbs[b].succs ==> s < |bbs|)
    && (forall b, p :: 0 <= b < |bbs| && p in bbs[b].preds ==> p < |bbs|)
    && forall b: nat, c: nat :: b < |bbs| && c < |bbs| ==> OutCount(bbs, b, c) == InCount(bbs, c, b)
  }

  lemma AddSuccessorCounts(bbs: Blocks, b: nat, succ: nat, x: nat, y: nat)
    requires b < |bbs| && succ < |bbs| && x < |bbs| && !bbs[b].kind.Terminated?
    ensures var r := AddSuccessor(bbs, b, succ);
            && OutCount(r, x, y) == OutCount(bbs, x, y) + (if x == b && y == succ then 1 else 0)
            && InCount(r, x, y) == InCount(bbs, x, y) + (if x == succ && y == b then 1 else 0)
            && r[x].succs == (if x == b then bbs[x].succs + [succ] else bbs[x].succs)
            && r[x].preds == (if x == succ then bbs[x].preds + [b] else bbs[x].preds)
  {
    assert multiset(bbs[x].succs + [succ]) == multiset(bbs[x].succs) + multiset{succ};
    assert multiset(bbs[x].preds + [b]) == multiset(bbs[x].preds) + multiset{b};
  }

  lemma AddSuccessorSymmetric(bbs: Blocks, b: nat, succ: nat)
    requires Symmetric(bbs) && b < |bbs| && succ < |bbs|
    ensures Symmetric(AddSuccessor(bbs, b, succ))
  {
    hide AddSuccessor, OutCount, InCount;
    var r := AddSuccessor(bbs, b, succ);
    if !bbs[b].kind.Terminated? {
      AddSuccessorSize(bbs, b, succ);
      forall x: nat, y: nat | x < |r| && y < |r|
        ensures OutCount(r, x, y) == InCount(r, y, x)
      {
        AddSuccessorCounts(bbs, b, succ, x, y);
        AddSuccessorCounts(bbs, b, succ, y, x);
      }
      forall x | 0 <= x < |r|
        ensures (forall s :: s in r[x].succs ==> s < |r|) && (forall p :: p in r[x].preds ==> p < |r|)
      {
        AddSuccessorCounts(bbs, b, succ, x, 0);
      }
    } else {
      AddSuccessorSize(bbs, b, succ);
    }
  }

  lemma AddSuccessorSize(bbs: Blocks, b: nat, succ: nat)
    requires b < |bbs| && succ < |bbs|
    ensures |AddSuccessor(bbs, b, succ)| == |bbs|
    ensures bbs[b].kind.Terminated? ==> AddSuccessor(bbs, b, succ) == bbs
  {
  }

  // -------- Walking the graph

  // The walk stands before statement `k` of block `bb`; `o` decides the branches still to come,
  // `tr` lists the statements met so far.
  datatype Conf = Conf(bb: nat, k: nat, o: seq<bool>, tr: seq<nat>)

  // Successor 0 is taken on true, successor 1 on false.
  function Next(f: Blocks, c: Conf): Option<Conf> {
    if c.bb >= |f| then None
    else if c.k < |f[c.bb].stmts| then Some(Conf(c.bb, c.k + 1, c.o, c.tr + [f[c.bb].stmts[c.k]]))
    else if |f[c.bb].succs| == 0 then None
    else if |f[c.bb].succs| == 1 then Some(Conf(f[c.bb].succs[0], 0, c.o, c.tr))
    else if c.o == [] then None
    else Some(Conf(if c.o[0] then f[c.bb].succs[0] else f[c.bb].succs[1], 0, c.o[1..], c.tr))
  }

  function Walk(f: Blocks, c: Conf, n: nat): Option<Conf>
    decreases n
  {
    if n == 0 then Some(c)
    else
      var c' := Next(f, c);
      if c'.None? then None else Walk(f, c'.value, n - 1)
  }

  ghost predicate Leads(f: Blocks, c: Conf, c': Conf) {
    exists n: nat :: Walk(f, c, n) == Some(c')
  }

  // The walk can go no further because a branch has no decision left.
  predicate AtBranch(f: Blocks, c: Conf) {
    c.bb < |f| && c.k == |f[c.bb].stmts| && |f[c.bb].succs| >= 2 && c.o == []
  }

  // The walk has come to an end.
  predicate Halted(f: Blocks, c: Conf) {
    c.bb < |f| && c.k == |f[c.bb].stmts| && f[c.bb].succs == []
  }

  lemma LeadsRefl(f: Blocks, c: Conf)
    ensures Leads(f, c, c)
  {
    assert Walk(f, c, 0) == Some(c);
  }

  lemma {:induction false} WalkAdd(f: Blocks, c: Conf, n: nat, c': Conf, m: nat)
    requires Walk(f, c, n) == Some(c')
    ensures Walk(f, c, n + m) == Walk(f, c', m)
    decreases n
  {
    if n > 0 { WalkAdd(f, Next(f, c).value, n - 1, c', m); }
  }

  lemma LeadsTrans(f: Blocks, a: Conf, b: Conf, c: Conf)
    requires Leads(f, a, b) && Leads(f, b, c)
    ensures Leads(f, a, c)
  {
    var n: nat :| Walk(f, a, n) == Some(b);
    var m: nat :| Walk(f, b, m) == Some(c);
    WalkAdd(f, a, n, b, m);
    assert Walk(f, a, n + m) == Some(c);
  }

  lemma LeadsNext(f: Blocks, a: Conf)
    requires Next(f, a).Some?
    ensures Leads(f, a, Next(f, a).value)
  {
    assert Walk(f, a, 1) == Walk(f, Next(f, a).value, 0);
  }

  lemma {:induction false} LeadsList(f: Blocks, cs: seq<Conf>)
    requires cs != [] && forall i :: 0 <= i < |cs| - 1 ==> Next(f, cs[i]) == Some(cs[i + 1])
    ensures Leads(f, cs[0], cs[|cs| - 1])
  {
    if |cs| == 1 {
      LeadsRefl(f, cs[0]);
    } else {
      LeadsList(f, cs[1..]);
      LeadsNext(f, cs[0]);
      LeadsTrans(f, cs[0], cs[1], cs[|cs| - 1]);
    }
  }

  // Statements of one block are met in order.
  lemma {:induction false} LeadsStmts(f: Blocks, b: nat, k: nat, o: seq<bool>, tr: seq<nat>, stmts: seq<nat>)
    requires b < |f| && k + |stmts| <= |f[b].stmts| && f[b].stmts[k..k + |stmts|] == stmts
    ensures Leads(f, Conf(b, k, o, tr), Conf(b, k + |stmts|, o, tr + stmts))
    decreases |stmts|
  {
    var c := Conf(b, k, o, tr);
    if stmts == [] {
      assert tr + stmts == tr;
      LeadsRefl(f, c);
    } else {
      assert f[b].stmts[k] == stmts[0];
      LeadsNext(f, c);
      assert f[b].stmts[k + 1..k + 1 + |stmts[1..]|] == stmts[1..];
      LeadsStmts(f, b, k + 1, o, tr + [stmts[0]], stmts[1..]);
      assert tr + [stmts[0]] + stmts[1..] == tr + stmts;
      LeadsTrans(f, c, Conf(b, k + 1, o, tr + [stmts[0]]), Conf(b, k + |stmts|, o, tr + stmts));
    }
  }

  // The walk is deterministic: two ends of it from one start are the same.
  lemma {:induction false} EndIsUnique(f: Blocks, a: Conf, b: Conf, c: Conf)
    requires Leads(f, a, b) && Leads(f, a, c) && Next(f, b).None? && Next(f, c).None?
    ensures b == c
  {
    var n: nat :| Walk(f, a, n) == Some(b);
    var m: nat :| Walk(f, a, m) == Some(c);
    if n < m {
      WalkAdd(f, a, n, b, m - n);
    } else if m < n {
      WalkAdd(f, a, m, c, n - m);
    }
  }
}
