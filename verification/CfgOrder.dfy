/** The order in which blocks are visited: breadth first from one entry after the other, each once. */
module CfgOrder {
  import opened CfgBlocks

  predicate SuccAt(bbs: Blocks, b: nat, j: nat, c: nat) {
    b < |bbs| && j < |bbs[b].succs| && bbs[b].succs[j] == c
  }

  // All successors of the block are in `before`.
  ghost predicate AllIn(bbs: Blocks, b: nat, before: seq<nat>) {
    forall j: nat, c: nat :: SuccAt(bbs, b, j, c) ==> c in before
  }

  // `c` is the first new successor of the block at position `p`, the earliest that has one.
  ghost predicate NextAt(bbs: Blocks, before: seq<nat>, p: nat, j: nat, c: nat) {
    && p < |before| && c !in before && SuccAt(bbs, before[p], j, c)
    && (forall i: nat, d: nat :: i < j && SuccAt(bbs, before[p], i, d) ==> d in before)
    && forall q: nat :: q < p ==> AllIn(bbs, before[q], before)
  }

  // `c` is the first new entry, and no block before has a new successor.
  ghost predicate EntryNext(bbs: Blocks, entries: seq<nat>, before: seq<nat>, k: nat, c: nat) {
    && k < |entries| && entries[k] == c && c !in before && (forall i: nat :: i < k ==> entries[i] in before)
    && forall q: nat :: q < |before| ==> AllIn(bbs, before[q], before)
  }

  ghost predicate NextBlock(bbs: Blocks, entries: seq<nat>, before: seq<nat>, c: nat) {
    (exists p: nat, j: nat :: NextAt(bbs, before, p, j, c)) || exists k: nat :: EntryNext(bbs, entries, before, k, c)
  }

  // Always the first new successor of the earliest block that has one, or else the first new entry.
  ghost predicate BreadthFirst(bbs: Blocks, entries: seq<nat>, order: seq<nat>) {
    forall k :: 0 <= k < |order| ==> NextBlock(bbs, entries, order[..k], order[k])
  }

  lemma OneMore(bbs: Blocks, entries: seq<nat>, order: seq<nat>, c: nat)
    requires BreadthFirst(bbs, entries, order) && NextBlock(bbs, entries, order, c)
    ensures BreadthFirst(bbs, entries, order + [c])
  {
    hide NextBlock;
    var more := order + [c];
    forall k | 0 <= k < |more|
      ensures NextBlock(bbs, entries, more[..k], more[k])
    {
      assert more[..k] == order[..k];
      if k == |order| { assert more[..k] == order; }
    }
  }

  lemma NextIsUnique(bbs: Blocks, entries: seq<nat>, before: seq<nat>, c: nat, d: nat)
    requires NextBlock(bbs, entries, before, c) && NextBlock(bbs, entries, before, d)
    ensures c == d
  {
    hide NextAt, EntryNext;
    if p: nat, j: nat :| NextAt(bbs, before, p, j, c) {
      NoEntry(bbs, entries, before, p, j, c);
      var q: nat, i: nat :| NextAt(bbs, before, q, i, d);
      SameNext(bbs, before, p, j, c, q, i, d);
    } else {
      var k: nat :| EntryNext(bbs, entries, before, k, c);
      if q: nat, i: nat :| NextAt(bbs, before, q, i, d) { NoEntry(bbs, entries, before, q, i, d); }
      var l: nat :| EntryNext(bbs, entries, before, l, d);
      SameEntry(bbs, entries, before, k, c, l, d);
    }
  }

  lemma NoEntry(bbs: Blocks, entries: seq<nat>, before: seq<nat>, p: nat, j: nat, c: nat)
    requires NextAt(bbs, before, p, j, c)
    ensures forall k: nat, d: nat :: !EntryNext(bbs, entries, before, k, d)
  {
    assert !AllIn(bbs, before[p], before);
  }

  lemma SameNext(bbs: Blocks, before: seq<nat>, p: nat, j: nat, c: nat, q: nat, i: nat, d: nat)
    requires NextAt(bbs, before, p, j, c) && NextAt(bbs, before, q, i, d)
    ensures c == d
  {
    assert !AllIn(bbs, before[p], before) && !AllIn(bbs, before[q], before);
  }

  lemma SameEntry(bbs: Blocks, entries: seq<nat>, before: seq<nat>, k: nat, c: nat, l: nat, d: nat)
    requires EntryNext(bbs, entries, before, k, c) && EntryNext(bbs, entries, before, l, d)
    ensures c == d
  {
  }

  // Two such orders of one length are the same.
  lemma {:induction false} OrderIsUnique(bbs: Blocks, entries: seq<nat>, order: seq<nat>, other: seq<nat>)
    requires BreadthFirst(bbs, entries, order) && BreadthFirst(bbs, entries, other) && |order| == |other|
    ensures order == other
    decreases |order|
  {
    hide NextBlock;
    if order != [] {
      var n := |order| - 1;
      Shorter(bbs, entries, order, n);
      Shorter(bbs, entries, other, n);
      OrderIsUnique(bbs, entries, order[..n], other[..n]);
      NextIsUnique(bbs, entries, order[..n], order[n], other[n]);
    }
  }

  lemma Shorter(bbs: Blocks, entries: seq<nat>, order: seq<nat>, n: nat)
    requires BreadthFirst(bbs, entries, order) && n <= |order|
    ensures BreadthFirst(bbs, entries, order[..n])
  {
    hide NextBlock;
    forall k | 0 <= k < n
      ensures NextBlock(bbs, entries, order[..n][..k], order[..n][k])
    {
      assert order[..n][..k] == order[..k];
    }
  }

  // -------- The working list

  // A place in the lists of successors: the position of a block, and that of its successor.
  predicate Earlier(a: (nat, nat), b: (nat, nat)) {
    a.0 < b.0 || (a.0 == b.0 && a.1 < b.1)
  }

  ghost predicate Waiting(working: seq<nat>, places: seq<(nat, nat)>, p: nat, j: nat) {
    exists i :: 0 <= i < |working| && i < |places| && places[i] == (p, j)
  }

  // The working list has successors of listed blocks, in the order of their places; a successor of a listed
  // block is listed or waits.
  ghost predicate Working(bbs: Blocks, order: seq<nat>, working: seq<nat>, places: seq<(nat, nat)>) {
    && |places| == |working|
    && (forall i :: 0 <= i < |places| ==> places[i].0 < |order| && SuccAt(bbs, order[places[i].0], places[i].1, working[i]))
    && (forall i, k :: 0 <= i < k < |places| ==> Earlier(places[i], places[k]))
    && forall p: nat, j: nat, c: nat :: p < |order| && SuccAt(bbs, order[p], j, c) ==> c in order || Waiting(working, places, p, j)
  }

  // The first on the working list is next, if it is not listed yet.
  lemma FirstIsNext(bbs: Blocks, entries: seq<nat>, order: seq<nat>, working: seq<nat>, places: seq<(nat, nat)>)
    requires Working(bbs, order, working, places) && working != [] && working[0] !in order
    ensures NextBlock(bbs, entries, order, working[0])
  {
    var at := places[0];
    forall p: nat, j: nat, c: nat | p < |order| && SuccAt(bbs, order[p], j, c) && Earlier((p, j), at)
      ensures c in order
    {
      forall i | 0 <= i < |working|
        ensures places[i] != (p, j)
      {
        if i > 0 { assert Earlier(places[0], places[i]); }
      }
    }
    assert NextAt(bbs, order, at.0, at.1, working[0]);
  }

  // The block is the entry, or comes after a listed block.
  ghost predicate Follows(bbs: Blocks, order: seq<nat>, entry: nat, b: nat) {
    b == entry || exists p: nat, j: nat :: p < |order| && SuccAt(bbs, order[p], j, b)
  }

  lemma FirstFollows(bbs: Blocks, order: seq<nat>, working: seq<nat>, places: seq<(nat, nat)>)
    requires Working(bbs, order, working, places) && working != []
    ensures forall entry :: Follows(bbs, order, entry, working[0])
  {
    assert SuccAt(bbs, order[places[0].0], places[0].1, working[0]);
  }

  lemma Dropped(bbs: Blocks, order: seq<nat>, working: seq<nat>, places: seq<(nat, nat)>)
    requires Working(bbs, order, working, places) && working != [] && working[0] in order
    ensures |places| == |working| && Working(bbs, order, working[1..], places[1..])
  {
    forall p: nat, j: nat, c: nat | p < |order| && SuccAt(bbs, order[p], j, c) && c !in order
      ensures Waiting(working[1..], places[1..], p, j)
    {
      var i :| 0 <= i < |working| && places[i] == (p, j);
      assert i > 0;
      assert places[1..][i - 1] == (p, j);
    }
  }

  // The places of the successors of the block at position `p`.
  function Places(p: nat, n: nat): (r: seq<(nat, nat)>)
    ensures |r| == n && forall j :: 0 <= j < n ==> r[j] == (p, j)
  {
    seq(n, j requires 0 <= j < n => (p, j))
  }

  // A block is listed, and its successors wait.
  lemma Listed(bbs: Blocks, order: seq<nat>, working: seq<nat>, places: seq<(nat, nat)>, b: nat)
    requires Working(bbs, order, working, places) && b < |bbs|
    ensures Working(bbs, order + [b], working + bbs[b].succs, places + Places(|order|, |bbs[b].succs|))
  {
    var order', working', places' := order + [b], working + bbs[b].succs, places + Places(|order|, |bbs[b].succs|);
    forall p: nat, j: nat, c: nat | p < |order'| && SuccAt(bbs, order'[p], j, c) && c !in order'
      ensures Waiting(working', places', p, j)
    {
      if p < |order| {
        assert SuccAt(bbs, order[p], j, c) && c !in order;
        var i :| 0 <= i < |working| && places[i] == (p, j);
        assert places'[i] == (p, j);
      } else {
        assert places'[|places| + j] == (p, j);
      }
    }
  }

  // At the start of a function its entry waits alone; later only successors wait.
  ghost predicate Queued(bbs: Blocks, order: seq<nat>, working: seq<nat>, places: seq<(nat, nat)>, entry: nat, first: bool) {
    if first then working == [entry] && Working(bbs, order, [], []) else Working(bbs, order, working, places)
  }

  // The first on the working list is taken off; it is listed unless it has been.
  lemma Taken(bbs: Blocks, entries: seq<nat>, order: seq<nat>, working: seq<nat>, places: seq<(nat, nat)>, k: nat, first: bool)
      returns (places': seq<(nat, nat)>)
    requires k < |entries| && Queued(bbs, order, working, places, entries[k], first) && working != []
    requires forall i: nat :: i < k ==> entries[i] in order
    ensures working[0] !in order ==> Follows(bbs, order, entries[k], working[0])
    ensures working[0] in order ==> Queued(bbs, order, working[1..], places', entries[k], false)
    ensures working[0] !in order ==> NextBlock(bbs, entries, order, working[0])
    ensures working[0] !in order && working[0] < |bbs| ==>
              Queued(bbs, order + [working[0]], working[1..] + bbs[working[0]].succs, places', entries[k], false)
  {
    hide Working, NextBlock;
    var b := working[0];
    places' := if first || places == [] then [] else places[1..];
    assert first ==> working[1..] == [];
    if first && b !in order {
      EntryIsNext(bbs, entries, order, k);
      if b < |bbs| {
        Listed(bbs, order, [], [], b);
        places' := [] + Places(|order|, |bbs[b].succs|);
        assert working[1..] + bbs[b].succs == [] + bbs[b].succs;
      }
    } else if !first && b in order {
      Dropped(bbs, order, working, places);
    } else if !first {
      FirstIsNext(bbs, entries, order, working, places);
      FirstFollows(bbs, order, working, places);
      if b < |bbs| {
        Listed(bbs, order, working, places, b);
        var more := places + Places(|order|, |bbs[b].succs|);
        Dropped(bbs, order + [b], working + bbs[b].succs, more);
        places' := more[1..];
        assert (working + bbs[b].succs)[1..] == working[1..] + bbs[b].succs;
      }
    }
  }

  // Nothing waits: the next entry is next, if it is not listed.
  lemma EntryIsNext(bbs: Blocks, entries: seq<nat>, order: seq<nat>, k: nat)
    requires Working(bbs, order, [], []) && k < |entries| && entries[k] !in order && forall i: nat :: i < k ==> entries[i] in order
    ensures NextBlock(bbs, entries, order, entries[k])
  {
    assert EntryNext(bbs, entries, order, k, entries[k]);
  }

  lemma NothingListed(bbs: Blocks, entries: seq<nat>)
    ensures BreadthFirst(bbs, entries, []) && Working(bbs, [], [], [])
  {
  }

  lemma EntryQueued(bbs: Blocks, order: seq<nat>, entry: nat)
    requires Working(bbs, order, [], [])
    ensures Queued(bbs, order, [entry], [], entry, true)
  {
  }

  lemma NoneWaits(bbs: Blocks, order: seq<nat>, places: seq<(nat, nat)>, entry: nat, first: bool)
    requires Queued(bbs, order, [], places, entry, first)
    ensures Working(bbs, order, [], [])
  {
  }
}
