/** The order in which nodes are stored: preorder, children from left to right, each node once. */
module AstOrder {
  import opened Options
  import opened AstData

  // -------- The children of a node

  function Items(f: Field): seq<Item> {
    match f
    case Single(x) => [x]
    case List(xs) => xs
  }

  function ItemKids(xs: seq<Item>): seq<nat> {
    if xs == [] then []
    else (if xs[0].Ref? && xs[0].target.Some? then [xs[0].target.value] else []) + ItemKids(xs[1..])
  }

  function Kids(fields: seq<Field>): seq<nat> {
    if fields == [] then [] else ItemKids(Items(fields[0])) + Kids(fields[1..])
  }

  // The field holds the reference.
  predicate HasRef(f: Field, j: nat) {
    match f
    case Single(x) => x == Ref(Some(j))
    case List(xs) => Ref(Some(j)) in xs
  }

  lemma {:induction false} ItemKidsAre(xs: seq<Item>, j: nat)
    ensures j in ItemKids(xs) <==> Ref(Some(j)) in xs
  {
    if xs != [] {
      assert xs == [xs[0]] + xs[1..];
      ItemKidsAre(xs[1..], j);
    }
  }

  lemma {:induction false} KidsAre(fields: seq<Field>, j: nat)
    ensures j in Kids(fields) <==> exists i :: 0 <= i < |fields| && HasRef(fields[i], j)
  {
    if fields != [] {
      KidsAre(fields[1..], j);
      ItemKidsAre(Items(fields[0]), j);
      if exists i :: 0 <= i < |fields[1..]| && HasRef(fields[1..][i], j) {
        var i :| 0 <= i < |fields[1..]| && HasRef(fields[1..][i], j);
        assert HasRef(fields[i + 1], j);
      }
      if exists i :: 0 <= i < |fields| && HasRef(fields[i], j) {
        var i :| 0 <= i < |fields| && HasRef(fields[i], j);
        if i > 0 { assert fields[1..][i - 1] == fields[i]; }
      }
    }
  }

  // -------- Preorder

  // Item `j` of field `i` is the child `c`.
  predicate ChildAt(fs: seq<Field>, i: nat, j: nat, c: nat) {
    i < |fs| && j < |Items(fs[i])| && Items(fs[i])[j] == Ref(Some(c))
  }

  predicate Left(i: nat, j: nat, k: nat, l: nat) {
    i < k || (i == k && j < l)
  }

  // The children left of this place are in `before`.
  ghost predicate LeftIn(fs: seq<Field>, i: nat, j: nat, before: seq<nat>) {
    forall k: nat, l: nat, c: nat :: ChildAt(fs, k, l, c) && Left(k, l, i, j) ==> c in before
  }

  // The first child, from left to right, that is not in `before`.
  ghost predicate FirstNew(fs: seq<Field>, before: seq<nat>, c: nat) {
    c !in before && exists i: nat, j: nat :: ChildAt(fs, i, j, c) && LeftIn(fs, i, j, before)
  }

  ghost predicate AllIn(fs: seq<Field>, before: seq<nat>) {
    forall i: nat, j: nat, c: nat :: ChildAt(fs, i, j, c) ==> c in before
  }

  // The children of the nodes from position `k` on are in `before`.
  ghost predicate DoneFrom(a: Ast, before: seq<nat>, k: nat) {
    forall q :: k <= q < |before| && before[q] in a.nodes ==> AllIn(a.nodes[before[q]].fields, before)
  }

  // `c` is the first new child of the node at position `p`, the latest that has one.
  ghost predicate NextAt(a: Ast, before: seq<nat>, p: nat, c: nat) {
    p < |before| && before[p] in a.nodes && FirstNew(a.nodes[before[p]].fields, before, c) && DoneFrom(a, before, p + 1)
  }

  ghost predicate Next(a: Ast, before: seq<nat>, c: nat) {
    exists p: nat :: NextAt(a, before, p, c)
  }

  // The root comes first; after it, always the first new child of the latest node that has one.
  ghost predicate Preorder(a: Ast, root: nat, order: seq<nat>) {
    && (order != [] ==> order[0] == root)
    && forall k :: 0 < k < |order| ==> Next(a, order[..k], order[k])
  }

  lemma {:induction false} ItemPlace(xs: seq<Item>, m: nat) returns (j: nat)
    requires m < |ItemKids(xs)|
    ensures j < |xs| && xs[j] == Ref(Some(ItemKids(xs)[m]))
    ensures forall l, c: nat :: 0 <= l < j && xs[l] == Ref(Some(c)) ==> c in ItemKids(xs)[..m]
  {
    var here := xs[0].Ref? && xs[0].target.Some?;
    if here && m == 0 {
      j := 0;
    } else {
      var rest := ItemKids(xs[1..]);
      var k := ItemPlace(xs[1..], if here then m - 1 else m);
      j := k + 1;
      forall l, c: nat | 0 <= l < j && xs[l] == Ref(Some(c))
        ensures c in ItemKids(xs)[..m]
      {
        if l == 0 {
          assert ItemKids(xs)[..m][0] == c;
        } else {
          assert xs[1..][l - 1] == Ref(Some(c));
          if here { assert ItemKids(xs)[..m] == [ItemKids(xs)[0]] + rest[..m - 1]; } else { assert ItemKids(xs) == rest; }
        }
      }
    }
  }

  // A child in the list has a place in the fields, and those left of it are in the list before it.
  lemma {:induction false} KidPlace(fs: seq<Field>, m: nat) returns (i: nat, j: nat)
    requires m < |Kids(fs)|
    ensures ChildAt(fs, i, j, Kids(fs)[m]) && LeftIn(fs, i, j, Kids(fs)[..m])
  {
    var first, rest := ItemKids(Items(fs[0])), Kids(fs[1..]);
    if m < |first| {
      i := 0;
      j := ItemPlace(Items(fs[0]), m);
      assert Kids(fs)[..m] == first[..m];
    } else {
      var k, l := KidPlace(fs[1..], m - |first|);
      i, j := k + 1, l;
      assert Kids(fs)[..m] == first + rest[..m - |first|];
      forall x: nat, y: nat, c: nat | ChildAt(fs, x, y, c) && Left(x, y, i, j)
        ensures c in Kids(fs)[..m]
      {
        if x == 0 {
          ItemKidsAre(Items(fs[0]), c);
        } else {
          assert ChildAt(fs[1..], x - 1, y, c) && Left(x - 1, y, k, l);
        }
      }
    }
  }

  lemma ChildIsKid(fs: seq<Field>, i: nat, j: nat, c: nat)
    requires ChildAt(fs, i, j, c)
    ensures c in Kids(fs)
  {
    KidsAre(fs, c);
    assert HasRef(fs[i], c);
  }

  // -------- Steps of the visit

  // The children of node `p` are being visited from left to right; those before number `m` have been.
  lemma KidIsNext(a: Ast, order: seq<nat>, p: nat, m: nat)
    requires p < |order| && order[p] in a.nodes && DoneFrom(a, order, p + 1)
    requires var kids := Kids(a.nodes[order[p]].fields);
             m < |kids| && kids[m] !in order && forall n :: 0 <= n < m ==> kids[n] in order
    ensures Next(a, order, Kids(a.nodes[order[p]].fields)[m])
  {
    var fs := a.nodes[order[p]].fields;
    var i, j := KidPlace(fs, m);
    forall k: nat, l: nat, c: nat | ChildAt(fs, k, l, c) && Left(k, l, i, j)
      ensures c in order
    {
      assert c in Kids(fs)[..m];
      var n :| 0 <= n < m && Kids(fs)[..m][n] == c;
      assert Kids(fs)[n] == c;
    }
    assert LeftIn(fs, i, j, order);
    assert FirstNew(fs, order, Kids(fs)[m]);
    assert NextAt(a, order, p, Kids(fs)[m]);
  }

  lemma AllKidsIn(a: Ast, order: seq<nat>, p: nat)
    requires p < |order| && order[p] in a.nodes && DoneFrom(a, order, p + 1)
    requires forall n :: 0 <= n < |Kids(a.nodes[order[p]].fields)| ==> Kids(a.nodes[order[p]].fields)[n] in order
    ensures DoneFrom(a, order, p)
  {
    var fs := a.nodes[order[p]].fields;
    forall i: nat, j: nat, c: nat | ChildAt(fs, i, j, c)
      ensures c in order
    {
      ChildIsKid(fs, i, j, c);
    }
  }

  // Nodes that are done stay so when others follow.
  lemma DoneStays(a: Ast, order: seq<nat>, more: seq<nat>, k: nat)
    requires order <= more && k <= |order| && DoneFrom(a, order, k) && DoneFrom(a, more, |order|)
    ensures DoneFrom(a, more, k)
  {
    assert forall x :: x in order ==> x in more;
    forall q | k <= q < |more| && more[q] in a.nodes
      ensures AllIn(a.nodes[more[q]].fields, more)
    {
      if q < |order| { assert order[q] == more[q]; }
    }
  }

  lemma PreorderGrows(a: Ast, root: nat, order: seq<nat>, c: nat)
    requires Preorder(a, root, order) && (if order == [] then c == root else Next(a, order, c))
    ensures Preorder(a, root, order + [c])
  {
    hide Next;
    var more := order + [c];
    forall k | 0 < k < |more|
      ensures Next(a, more[..k], more[k])
    {
      assert more[..k] == order[..k];
      if k == |order| { assert more[..k] == order; }
    }
  }

  // The order is the only one: two preorders of one length are the same.
  lemma {:induction false} PreorderIsUnique(a: Ast, root: nat, order: seq<nat>, other: seq<nat>)
    requires Preorder(a, root, order) && Preorder(a, root, other) && |order| == |other|
    ensures order == other
    decreases |order|
  {
    hide Next;
    if order != [] {
      var n := |order| - 1;
      PreorderShorter(a, root, order, n);
      PreorderShorter(a, root, other, n);
      PreorderIsUnique(a, root, order[..n], other[..n]);
      if n > 0 { NextIsUnique(a, order[..n], order[n], other[n]); }
    }
  }

  lemma PreorderShorter(a: Ast, root: nat, order: seq<nat>, n: nat)
    requires Preorder(a, root, order) && n <= |order|
    ensures Preorder(a, root, order[..n])
  {
    hide Next;
    forall k | 0 < k < n
      ensures Next(a, order[..n][..k], order[..n][k])
    {
      assert order[..n][..k] == order[..k];
    }
  }

  lemma NextIsUnique(a: Ast, before: seq<nat>, c: nat, d: nat)
    requires Next(a, before, c) && Next(a, before, d)
    ensures c == d
  {
    var p: nat :| NextAt(a, before, p, c);
    var q: nat :| NextAt(a, before, q, d);
    var fs, gs := a.nodes[before[p]].fields, a.nodes[before[q]].fields;
    var i: nat, j: nat :| ChildAt(fs, i, j, c) && LeftIn(fs, i, j, before);
    var k: nat, l: nat :| ChildAt(gs, k, l, d) && LeftIn(gs, k, l, before);
    assert p < q ==> AllIn(gs, before);
    assert q < p ==> AllIn(fs, before);
    assert Left(i, j, k, l) || Left(k, l, i, j) || (i == k && j == l);
  }
}
