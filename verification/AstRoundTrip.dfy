/** Loading undoes storing: the loaded nodes are the stored ones under a renumbering of ids and string
    indices, whatever follows the module in the buffer. */
module AstRoundTrip {
  import opened Options
  import opened Graphs
  import opened Leb128
  import opened AstData
  import opened AstReading

  // -------- Renaming

  function RenameItem(s: Schema, r: Renumber, x: Item): Item {
    match x
    case Ref(target) => Ref(if target.None? then None else NewRef(r, target.value))
    case Name(idx) => Name(NewIndex(r, idx))
    case Lit(ty, raw) => if ty == s.stringLiteral then Lit(ty, NewIndex(r, raw)) else x
    case _ => x
  }

  function RenameItems(s: Schema, r: Renumber, xs: seq<Item>): (ys: seq<Item>)
    ensures |ys| == |xs| && forall i :: 0 <= i < |ys| ==> ys[i] == RenameItem(s, r, xs[i])
  {
    seq(|xs|, i requires 0 <= i < |xs| => RenameItem(s, r, xs[i]))
  }

  function RenameField(s: Schema, r: Renumber, f: Field): Field {
    match f
    case Single(x) => Single(RenameItem(s, r, x))
    case List(xs) => List(RenameItems(s, r, xs))
  }

  function RenameFields(s: Schema, r: Renumber, fs: seq<Field>): (gs: seq<Field>)
    ensures |gs| == |fs| && forall i :: 0 <= i < |gs| ==> gs[i] == RenameField(s, r, fs[i])
  {
    seq(|fs|, i requires 0 <= i < |fs| => RenameField(s, r, fs[i]))
  }

  // -------- Items and fields come back

  lemma TextBack(cs: Option<CString>, rest: seq<byte>, pool: seq<CString>)
    requires ValidText(cs) && PoolOK(pool)
    ensures var p := ReadText(EncodeText(cs) + rest, pool);
            p.Got? && p.rest == rest && p.value.0 == cs && PoolOK(p.value.1) && (cs.Some? ==> cs.value in p.value.1[1..])
  {
    hide Encode, Decode;
    var bs := EncodeText(cs) + rest;
    match cs {
      case None =>
        assert bs[1..] == Encode(0) + rest;
        DecodeEncode(0, rest);
      case Some(x) =>
        var after := x + [0] + rest;
        assert bs[1..] == Encode(|x| + 1) + after;
        DecodeEncode(|x| + 1, after);
        UpToNullOf(x, rest);
        assert after[|x| + 1..] == rest;
        InternKeeps(pool, x);
        var (i, pool') := Intern(pool, x);
        assert pool'[1..][i - 1] == x;
    }
  }

  lemma ItemBack(s: Schema, a: Ast, t: ItemType, x: Item, rest: seq<byte>, r: Renumber, pool: seq<CString>)
    requires ValidItem(s, a, t, x) && PoolOK(pool) && forall id :: id in a.nodes ==> id < UINT32_END
    ensures var p := ReadItem(s, t, EncodeItem(x) + rest, r, pool);
            p.Got? && p.rest == rest && p.value.0 == RenameItem(s, r, x) && PoolOK(p.value.1)
  {
    hide Distinct, ReadText, Encode, Decode, EncodeText, Intern;
    match t {
      case Child(_) =>
        DecodeEncode(if x.target.None? then -1 else x.target.value, rest);
      case Scalar(w) =>
        DecodeEncode(ToInt64(x.v), rest);
        CastBack(w, x.v);
      case StringIndex =>
        DecodeEncode(x.idx, rest);
      case Literal =>
        assert EncodeItem(x) + rest == Encode(x.ty) + (Encode(x.raw) + rest);
        DecodeEncode(x.ty, Encode(x.raw) + rest);
        DecodeEncode(x.raw, rest);
      case CharStar =>
        TextBack(x.s, rest, pool);
      case RegExpr =>
        assert EncodeItem(x) + rest == EncodeText(x.expr) + (EncodeText(x.flags) + rest);
        TextBack(x.expr, EncodeText(x.flags) + rest, pool);
        TextBack(x.flags, rest, ReadText(EncodeText(x.expr) + (EncodeText(x.flags) + rest), pool).value.1);
      case Scope =>
        assert EncodeItem(x) + rest == rest;
    }
  }

  lemma {:induction false} ItemsBack(s: Schema, a: Ast, t: ItemType, xs: seq<Item>, rest: seq<byte>, r: Renumber,
                                     pool: seq<CString>, acc: seq<Item>)
    requires forall i :: 0 <= i < |xs| ==> ValidItem(s, a, t, xs[i])
    requires PoolOK(pool) && forall id :: id in a.nodes ==> id < UINT32_END
    ensures var p := ReadItems(s, t, |xs|, Flat(ItemParts(xs)) + rest, r, pool, acc);
            p.Got? && p.rest == rest && p.value.0 == acc + RenameItems(s, r, xs) && PoolOK(p.value.1)
    decreases |xs|
  {
    hide Distinct, ReadItem, EncodeItem, RenameItem;
    if xs == [] {
      assert Flat(ItemParts(xs)) + rest == rest;
      assert acc + RenameItems(s, r, xs) == acc;
    } else {
      var more := Flat(ItemParts(xs[1..])) + rest;
      assert ItemParts(xs)[1..] == ItemParts(xs[1..]);
      assert Flat(ItemParts(xs)) + rest == EncodeItem(xs[0]) + more;
      ItemBack(s, a, t, xs[0], more, r, pool);
      var x := RenameItem(s, r, xs[0]);
      ItemsBack(s, a, t, xs[1..], rest, r, ReadItem(s, t, EncodeItem(xs[0]) + more, r, pool).value.1, acc + [x]);
      assert acc + [x] + RenameItems(s, r, xs[1..]) == acc + RenameItems(s, r, xs);
    }
  }

  lemma FieldBack(s: Schema, a: Ast, t: FieldType, f: Field, rest: seq<byte>, r: Renumber, pool: seq<CString>)
    requires ValidField(s, a, t, f) && PoolOK(pool) && forall id :: id in a.nodes ==> id < UINT32_END
    ensures var p := ReadField(s, t, EncodeField(f) + rest, r, pool);
            p.Got? && p.rest == rest && p.value.0 == RenameField(s, r, f) && PoolOK(p.value.1)
  {
    hide Distinct, ReadItem, ReadItems, EncodeItem, RenameItem, ValidItem, Encode, Decode, Flat;
    match f {
      case Single(x) =>
        ItemBack(s, a, t.t, x, rest, r, pool);
      case List(xs) =>
        var after := Flat(ItemParts(xs)) + rest;
        var bs := EncodeField(f) + rest;
        assert bs[0] == 'L' as byte && bs[1..] == Encode(|xs|) + after;
        DecodeEncode(|xs|, after);
        ItemsBack(s, a, t.t, xs, rest, r, pool, []);
        assert [] + RenameItems(s, r, xs) == RenameItems(s, r, xs);
    }
  }

  // -------- Parents set by setters

  // The field holds a child that its setter adopts, under the id or number `j`.
  predicate FieldAdopts(t: FieldType, f: Field, j: nat) {
    t.t.Child? && t.t.adopts && match f { case Single(x) => x == Ref(Some(j)) case List(xs) => Ref(Some(j)) in xs }
  }

  ghost predicate FieldsAdopt(types: seq<FieldType>, fields: seq<Field>, j: nat) {
    exists i :: 0 <= i < |types| && i < |fields| && FieldAdopts(types[i], fields[i], j)
  }

  // `b` is `a` but for the parents of the nodes adopted by `k`.
  ghost predicate Adopted(s: Schema, a: seq<Node>, b: seq<Node>, k: nat, adopted: iset<nat>) {
    && |a| == |b|
    && forall j: nat :: j < |a| ==>
         b[j] == if j in adopted && a[j].kind != s.primType then a[j].(parent := Some(k)) else a[j]
  }

  lemma {:induction false} AdoptItemsIs(s: Schema, nodes: seq<Node>, t: ItemType, xs: seq<Item>, k: nat)
    ensures Adopted(s, nodes, AdoptItems(s, nodes, t, xs, k), k, iset j: nat | FieldAdopts(Many(t), List(xs), j))
    decreases |xs|
  {
    if xs != [] {
      AdoptItemsIs(s, AdoptItem(s, nodes, t, xs[0], k), t, xs[1..], k);
      assert xs == [xs[0]] + xs[1..];
    }
  }

  lemma AdoptFieldIs(s: Schema, nodes: seq<Node>, t: FieldType, f: Field, k: nat)
    ensures Adopted(s, nodes, AdoptField(s, nodes, t, f, k), k, iset j: nat | FieldAdopts(t, f, j))
  {
    if f.List? {
      AdoptItemsIs(s, nodes, t.t, f.items, k);
    }
  }

  // -------- Bodies

  lemma {:induction false} FieldsBack(s: Schema, a: Ast, types: seq<FieldType>, fs: seq<Field>, rest: seq<byte>, r: Renumber,
                                      pool: seq<CString>, nodes: seq<Node>, k: nat)
    requires |types| == |fs| && forall i :: 0 <= i < |fs| ==> ValidField(s, a, types[i], fs[i])
    requires PoolOK(pool) && k < |nodes| && forall id :: id in a.nodes ==> id < UINT32_END
    ensures var p, gs := ReadFields(s, types, Flat(FieldParts(fs)) + rest, r, pool, nodes, k), RenameFields(s, r, fs);
            && p.Got? && p.rest == rest && PoolOK(p.value.1)
            && Adopted(s, nodes[k := nodes[k].(fields := nodes[k].fields + gs)], p.value.0, k, iset j: nat | FieldsAdopt(types, gs, j))
    decreases |fs|
  {
    hide Distinct, ReadField, EncodeField, RenameField, ValidField, AdoptField, FieldAdopts;
    var gs := RenameFields(s, r, fs);
    if fs == [] {
      assert Flat(FieldParts(fs)) + rest == rest;
      assert nodes[k].fields + gs == nodes[k].fields;
    } else {
      var more := Flat(FieldParts(fs[1..])) + rest;
      assert FieldParts(fs)[1..] == FieldParts(fs[1..]);
      assert Flat(FieldParts(fs)) + rest == EncodeField(fs[0]) + more;
      FieldBack(s, a, types[0], fs[0], more, r, pool);
      var pool' := ReadField(s, types[0], EncodeField(fs[0]) + more, r, pool).value.1;
      var nodes1 := nodes[k := nodes[k].(fields := nodes[k].fields + [gs[0]])];
      var nodes2 := AdoptField(s, nodes1, types[0], gs[0], k);
      AdoptFieldIs(s, nodes1, types[0], gs[0], k);
      FieldsBack(s, a, types[1..], fs[1..], rest, r, pool', nodes2, k);
      AdoptMore(s, types, gs, nodes, nodes2, ReadFields(s, types[1..], more, r, pool', nodes2, k).value.0, k);
      assert RenameFields(s, r, fs[1..]) == gs[1..];
    }
  }

  lemma AdoptMore(s: Schema, types: seq<FieldType>, gs: seq<Field>, nodes: seq<Node>, nodes2: seq<Node>, nodes3: seq<Node>, k: nat)
    requires |types| == |gs| > 0 && k < |nodes|
    requires Adopted(s, nodes[k := nodes[k].(fields := nodes[k].fields + [gs[0]])], nodes2, k, iset j: nat | FieldAdopts(types[0], gs[0], j))
    requires Adopted(s, nodes2[k := nodes2[k].(fields := nodes2[k].fields + gs[1..])], nodes3, k, iset j: nat | FieldsAdopt(types[1..], gs[1..], j))
    ensures Adopted(s, nodes[k := nodes[k].(fields := nodes[k].fields + gs)], nodes3, k, iset j: nat | FieldsAdopt(types, gs, j))
  {
    hide FieldAdopts;
    assert nodes[k].fields + [gs[0]] + gs[1..] == nodes[k].fields + gs;
    forall j: nat
      ensures FieldsAdopt(types, gs, j) <==> FieldAdopts(types[0], gs[0], j) || FieldsAdopt(types[1..], gs[1..], j)
    {
      AdoptSplit(types, gs, j);
    }
  }

  lemma AdoptSplit(types: seq<FieldType>, gs: seq<Field>, j: nat)
    requires |types| == |gs| > 0
    ensures FieldsAdopt(types, gs, j) <==> FieldAdopts(types[0], gs[0], j) || FieldsAdopt(types[1..], gs[1..], j)
  {
    hide FieldAdopts;
    if FieldsAdopt(types, gs, j) {
      var i :| 0 <= i < |types| && i < |gs| && FieldAdopts(types[i], gs[i], j);
      if i > 0 { assert FieldAdopts(types[1..][i - 1], gs[1..][i - 1], j); }
    }
    if FieldsAdopt(types[1..], gs[1..], j) {
      var i :| 0 <= i < |types| - 1 && i < |gs| - 1 && FieldAdopts(types[1..][i], gs[1..][i], j);
      assert FieldAdopts(types[i + 1], gs[i + 1], j);
    }
  }

  // Node `k`, under new numbers, has a child that its setter adopts, and the child is node `j`.
  ghost predicate BodyAdopts(s: Schema, a: Ast, order: seq<nat>, r: Renumber, k: nat, j: nat)
    requires Stores(s, a, order) && k < |order| && j < |order|
  {
    && a.nodes[order[j]].kind != s.primType
    && FieldsAdopt(s.kinds[a.nodes[order[k]].kind], RenameFields(s, r, a.nodes[order[k]].fields), j)
  }

  // What is stored: nodes of a valid tree, each once, the root first.
  ghost predicate Stores(s: Schema, a: Ast, order: seq<nat>) {
    ValidAst(s, a) && NoDup(order) && order != [] && order[0] == a.root && forall id :: id in order ==> id in a.nodes
  }

  // The parent of node `j` once the first `upto` bodies are read: the stored one, until a setter of a
  // later body, or of its own, overwrites it.
  ghost function ParentAfter(s: Schema, a: Ast, order: seq<nat>, r: Renumber, j: nat, upto: nat): Option<nat>
    requires Stores(s, a, order) && j < |order| && upto <= |order|
  {
    if upto <= j then
      var p := a.nodes[order[j]].parent;
      if p.None? then None else NewRef(r, p.value)
    else if BodyAdopts(s, a, order, r, upto - 1, j) then Some(upto - 1)
    else ParentAfter(s, a, order, r, j, upto - 1)
  }

  ghost predicate BodiesRead(s: Schema, a: Ast, order: seq<nat>, r: Renumber, nodes: seq<Node>, k: nat)
    requires Stores(s, a, order)
  {
    && |nodes| == |order|
    && (forall j :: 0 <= j < |order| ==> nodes[j].kind == a.nodes[order[j]].kind)
    && (forall j :: 0 <= j < |order| ==>
          nodes[j].fields == if j < k then RenameFields(s, r, a.nodes[order[j]].fields) else [])
    && (forall j :: 0 <= j < k && j < |order| && k <= |order| ==> nodes[j].parent == ParentAfter(s, a, order, r, j, k))
  }

  lemma BodyBack(s: Schema, a: Ast, order: seq<nat>, r: Renumber, pool: seq<CString>, nodes: seq<Node>, k: nat, rest: seq<byte>)
    requires Stores(s, a, order) && k < |order| && PoolOK(pool) && BodiesRead(s, a, order, r, nodes, k)
    requires nodes[k].kind < |s.kinds|
    ensures var p := ReadBody(s, Body(order[k], a.nodes[order[k]]) + rest, r, pool, nodes, k);
            p.Got? && p.rest == rest && PoolOK(p.value.1) && BodiesRead(s, a, order, r, p.value.0, k + 1)
  {
    hide Distinct, ReadFields, Flat, ValidField, RenameField, FieldsAdopt, Body, ReadBody, ParentAfter;
    var n, id := a.nodes[order[k]], order[k];
    assert id in order && ValidNode(s, a, n);
    var fields, types, gs := Flat(FieldParts(n.fields)) + rest, s.kinds[n.kind], RenameFields(s, r, n.fields);
    var nodes0 := nodes[k := nodes[k].(parent := if n.parent.None? then None else NewRef(r, n.parent.value))];
    BodyFields(s, id, n, rest, r, pool, nodes, k);
    assert nodes[k].kind == n.kind && nodes0[k].fields == [];
    FieldsBack(s, a, types, n.fields, rest, r, pool, nodes0, k);
    assert nodes0[k].fields + gs == gs;
    BodyRead(s, a, order, r, nodes, ReadFields(s, types, fields, r, pool, nodes0, k).value.0, k);
  }

  // Reading a body comes down to reading its fields.
  lemma BodyFields(s: Schema, id: nat, n: Node, rest: seq<byte>, r: Renumber, pool: seq<CString>, nodes: seq<Node>, k: nat)
    requires |pool| >= 1 && k < |nodes| && nodes[k].kind < |s.kinds|
    requires n.kind < UINT32_END && id < UINT32_END && (n.parent.Some? ==> n.parent.value < UINT32_END)
    ensures var p := if n.parent.None? then None else NewRef(r, n.parent.value);
            ReadBody(s, Body(id, n) + rest, r, pool, nodes, k) ==
            ReadFields(s, s.kinds[nodes[k].kind], Flat(FieldParts(n.fields)) + rest, r, pool, nodes[k := nodes[k].(parent := p)], k)
  {
    hide Encode, Decode, ReadFields, Flat;
    var fields := Flat(FieldParts(n.fields)) + rest;
    var parent := EncodeRef(n.parent) + fields;
    assert Body(id, n) + rest == Encode(n.kind) + (Encode(id) + parent);
    DecodeEncode(n.kind, Encode(id) + parent);
    DecodeEncode(id, parent);
    DecodeEncode(if n.parent.None? then -1 else n.parent.value, fields);
  }

  lemma BodyRead(s: Schema, a: Ast, order: seq<nat>, r: Renumber, nodes: seq<Node>, nodes1: seq<Node>, k: nat)
    requires Stores(s, a, order) && k < |order| && BodiesRead(s, a, order, r, nodes, k)
    requires var n := a.nodes[order[k]];
             var p := if n.parent.None? then None else NewRef(r, n.parent.value);
             var gs := RenameFields(s, r, n.fields);
             && n.kind < |s.kinds|
             && Adopted(s, nodes[k := Node(n.kind, p, gs)], nodes1, k, iset j: nat | FieldsAdopt(s.kinds[n.kind], gs, j))
    ensures BodiesRead(s, a, order, r, nodes1, k + 1)
  {
    hide RenameField, FieldsAdopt, ValidAst, NewRef;
    forall j: nat | j <= k
      ensures nodes1[j].parent == ParentAfter(s, a, order, r, j, k + 1)
    {
      assert ParentAfter(s, a, order, r, j, k + 1) ==
             if BodyAdopts(s, a, order, r, k, j) then Some(k) else ParentAfter(s, a, order, r, j, k);
    }
  }

  lemma {:induction false} BodiesBack(s: Schema, a: Ast, order: seq<nat>, r: Renumber, pool: seq<CString>, nodes: seq<Node>, k: nat,
                                      rest: seq<byte>)
    requires Stores(s, a, order) && k <= |order| && PoolOK(pool) && BodiesRead(s, a, order, r, nodes, k)
    requires KindsOK(s, nodes)
    ensures var p := ReadBodies(s, Flat(Bodies(a, order)[k..]) + rest, r, pool, nodes, k);
            p.Got? && p.rest == rest && PoolOK(p.value.1) && BodiesRead(s, a, order, r, p.value.0, |order|)
    decreases |order| - k
  {
    hide Distinct, ValidAst, ReadBody, Body, BodyAdopts, ParentAfter, RenameField;
    var parts := Bodies(a, order);
    if k == |order| {
      assert Flat(parts[k..]) + rest == rest;
    } else {
      assert parts[k..][1..] == parts[k + 1..];
      var more := Flat(parts[k + 1..]) + rest;
      assert Flat(parts[k..]) + rest == parts[k] + more;
      BodyBack(s, a, order, r, pool, nodes, k, more);
      var p := ReadBody(s, parts[k] + more, r, pool, nodes, k);
      BodiesBack(s, a, order, r, p.value.1, p.value.0, k + 1, rest);
    }
  }

  // -------- Node table

  // Where each id went.
  function IdMap(order: seq<nat>): map<nat, nat> {
    if order == [] then map[] else IdMap(order[..|order| - 1])[order[|order| - 1] := |order| - 1]
  }

  lemma {:induction false} IdMapIs(order: seq<nat>)
    requires NoDup(order)
    ensures forall id :: id in IdMap(order) <==> id in order
    ensures forall k :: 0 <= k < |order| ==> IdMap(order)[order[k]] == k
  {
    if order != [] {
      var n := |order| - 1;
      assert order == order[..n] + [order[n]];
      IdMapIs(order[..n]);
      forall k | 0 <= k < |order|
        ensures IdMap(order)[order[k]] == k
      {
        if k < n { assert order[..n][k] == order[k]; }
      }
    }
  }

  function Blank(a: Ast, order: seq<nat>): (r: seq<Node>)
    requires forall id :: id in order ==> id in a.nodes
    ensures |r| == |order| && forall k :: 0 <= k < |r| ==> r[k] == Node(a.nodes[order[k]].kind, None, [])
  {
    seq(|order|, k requires 0 <= k < |order| => Node(a.nodes[order[k]].kind, None, []))
  }

  lemma {:induction false} NodesBack(s: Schema, a: Ast, order: seq<nat>, k: nat, rest: seq<byte>)
    requires ValidAst(s, a) && (forall id :: id in order ==> id in a.nodes) && k <= |order|
    requires rest != [] && rest[0] == 'T' as byte && KindsOK(s, Blank(a, order[..k]))
    ensures ReadNodes(s, Flat(Entries(a, order)[k..]) + rest, Blank(a, order[..k]), IdMap(order[..k]))
            == Got((Blank(a, order), IdMap(order)), rest)
    decreases |order| - k
  {
    hide ValidNode, Entry, ReadNodes, IdMap, Flat, KindsOK;
    var parts := Entries(a, order);
    if k == |order| {
      NoMoreNodes(s, parts[k..], rest, Blank(a, order[..k]), IdMap(order[..k]));
      assert order[..k] == order;
    } else {
      var id := order[k];
      KindInSchema(s, a, id);
      FlatHead(parts, k, rest);
      OneNode(s, id, a.nodes[id], Flat(parts[k + 1..]) + rest, Blank(a, order[..k]), IdMap(order[..k]));
      assert Blank(a, order[..k + 1]) == Blank(a, order[..k]) + [Node(a.nodes[id].kind, None, [])];
      IdMapStep(order, k);
      NodesBack(s, a, order, k + 1, rest);
    }
  }

  lemma NoMoreNodes(s: Schema, parts: seq<seq<byte>>, rest: seq<byte>, nodes: seq<Node>, m: map<nat, nat>)
    requires parts == [] && rest != [] && rest[0] == 'T' as byte && KindsOK(s, nodes)
    ensures ReadNodes(s, Flat(parts) + rest, nodes, m) == Got((nodes, m), rest)
  {
    assert Flat(parts) + rest == rest;
  }

  lemma OneNode(s: Schema, id: nat, n: Node, more: seq<byte>, nodes: seq<Node>, m: map<nat, nat>)
    requires id < UINT32_END && n.kind < |s.kinds| < UINT32_END && KindsOK(s, nodes)
    ensures KindsOK(s, nodes + [Node(n.kind, None, [])])
    ensures ReadNodes(s, Entry(id, n) + more, nodes, m) == ReadNodes(s, more, nodes + [Node(n.kind, None, [])], m[id := |nodes|])
  {
    hide Encode, Decode;
    var bs := Entry(id, n) + more;
    assert bs[0] == 'N' as byte && bs[1..] == Encode(n.kind) + (Encode(id) + more);
    DecodeEncode(n.kind, Encode(id) + more);
    DecodeEncode(id, more);
  }

  lemma IdMapStep(order: seq<nat>, k: nat)
    requires k < |order|
    ensures IdMap(order[..k + 1]) == IdMap(order[..k])[order[k] := k]
  {
    assert order[..k + 1][..k] == order[..k];
  }

  lemma KindInSchema(s: Schema, a: Ast, id: nat)
    requires ValidAst(s, a) && id in a.nodes
    ensures id < UINT32_END && a.nodes[id].kind < |s.kinds| < UINT32_END
  {
  }

  // -------- String table

  // The map leads every index of `ids` to the same string in the other pool.
  ghost predicate SameStrings(pool: seq<CString>, pool': seq<CString>, strMap: map<nat, nat>) {
    forall i :: i in strMap ==> i < |pool| && 1 <= strMap[i] < |pool'| && pool'[strMap[i]] == pool[i]
  }

  lemma {:induction false} StringsBack(pool0: seq<CString>, ids: seq<nat>, k: nat, rest: seq<byte>, pool: seq<CString>, m: map<nat, nat>)
    requires k <= |ids| && forall j :: 0 <= j < |ids| ==> ids[j] < |pool0| && ids[j] < UINT32_END && ValidString(pool0[ids[j]])
    requires PoolOK(pool) && SameStrings(pool0, pool, m)
    ensures var p := ReadStrings(|ids| - k, Flat(StringParts(pool0, ids)[k..]) + rest, pool, m);
            && p.Got? && p.rest == rest && PoolOK(p.value.1) && SameStrings(pool0, p.value.1, p.value.0)
            && m.Keys <= p.value.0.Keys <= m.Keys + Elems(ids) && forall j :: k <= j < |ids| ==> ids[j] in p.value.0
    decreases |ids| - k
  {
    hide Distinct, Encode, ReadStrings, EncodeText, ValidString, SameStrings, Flat, Elems;
    var parts := StringParts(pool0, ids);
    if k == |ids| {
      NoMoreStrings(parts[k..], rest, pool, m);
    } else {
      var id, more := ids[k], Flat(parts[k + 1..]) + rest;
      InElems(ids, k);
      FlatHead(parts, k, rest);
      var idx, pool2 := OneString(|ids| - k, pool0, id, more, pool, m);
      StringsBack(pool0, ids, k + 1, rest, pool2, m[id := idx]);
    }
  }

  lemma InElems(ids: seq<nat>, k: nat)
    requires k < |ids|
    ensures ids[k] in Elems(ids)
  {
  }

  lemma NoMoreStrings(parts: seq<seq<byte>>, rest: seq<byte>, pool: seq<CString>, m: map<nat, nat>)
    requires parts == [] && |pool| >= 1
    ensures ReadStrings(0, Flat(parts) + rest, pool, m) == Got((m, pool), rest)
  {
    assert Flat(parts) + rest == rest;
  }

  lemma FlatHead(parts: seq<seq<byte>>, k: nat, rest: seq<byte>)
    requires k < |parts|
    ensures Flat(parts[k..]) + rest == parts[k] + (Flat(parts[k + 1..]) + rest)
  {
    assert parts[k..][1..] == parts[k + 1..];
  }

  lemma OneString(n: int, pool0: seq<CString>, id: nat, more: seq<byte>, pool: seq<CString>, m: map<nat, nat>)
      returns (idx: nat, pool2: seq<CString>)
    requires n > 0 && id < |pool0| && id < UINT32_END && ValidString(pool0[id]) && PoolOK(pool) && SameStrings(pool0, pool, m)
    ensures PoolOK(pool2) && SameStrings(pool0, pool2, m[id := idx])
    ensures ReadStrings(n, Encode(id) + EncodeText(Some(pool0[id])) + more, pool, m) == ReadStrings(n - 1, more, pool2, m[id := idx])
  {
    hide Distinct, Encode, Decode, ReadText, Intern, EncodeText;
    var text := EncodeText(Some(pool0[id])) + more;
    assert Encode(id) + EncodeText(Some(pool0[id])) + more == Encode(id) + text;
    DecodeEncode(id, text);
    TextBack(Some(pool0[id]), more, pool);
    var pool1 := ReadText(text, pool).value.1;
    InternKeeps(pool1, pool0[id]);
    idx, pool2 := Intern(pool1, pool0[id]).0, Intern(pool1, pool0[id]).1;
    assert pool <= pool2;
  }
}
