/** The round trip of whole modules: what loading yields is the stored graph under other ids. */
module AstModules {
  import opened Options
  import opened Graphs
  import opened Leb128
  import opened AstData
  import opened AstReading
  import opened AstRoundTrip

  // Index `i` of one pool and index `j` of the other stand for the same string, or both for none.
  predicate SameString(pool: seq<CString>, pool': seq<CString>, i: nat, j: nat) {
    if i == 0 then j == 0 else i < |pool| && 1 <= j < |pool'| && pool'[j] == pool[i]
  }

  // A node id and the position in `order` it was loaded to; nodes that were not stored are lost.
  predicate SameRef(order: seq<nat>, t: Option<nat>, t': Option<nat>) {
    if t.None? || t.value !in order then t'.None? else t'.Some? && t'.value < |order| && order[t'.value] == t.value
  }

  // The loaded item `y` is the stored item `x`.
  predicate SameItem(s: Schema, a: Ast, order: seq<nat>, pool: seq<CString>, x: Item, y: Item) {
    match x
    case Ref(t) => y.Ref? && SameRef(order, t, y.target)
    case Name(i) => y.Name? && SameString(a.pool, pool, i, y.idx)
    case Lit(ty, raw) =>
      y.Lit? && y.ty == ty && if ty == s.stringLiteral then y.raw >= 0 && SameString(a.pool, pool, LitIndex(raw), y.raw) else y.raw == raw
    case _ => y == x
  }

  predicate SameField(s: Schema, a: Ast, order: seq<nat>, pool: seq<CString>, f: Field, g: Field) {
    match f
    case Single(x) => g.Single? && SameItem(s, a, order, pool, x, g.item)
    case List(xs) => g.List? && |g.items| == |xs| && forall i :: 0 <= i < |xs| ==> SameItem(s, a, order, pool, xs[i], g.items[i])
  }

  // Node `k` was stored with a child that its setter adopts, and the child is node `j`.
  ghost predicate Adopts(s: Schema, a: Ast, order: seq<nat>, k: nat, j: nat)
    requires Stores(s, a, order) && k < |order| && j < |order|
  {
    && a.nodes[order[j]].kind != s.primType
    && FieldsAdopt(s.kinds[a.nodes[order[k]].kind], a.nodes[order[k]].fields, order[j])
  }

  // `p` is the last node, from `j` on, that adopts node `j`; failing that, the stored parent.
  ghost predicate LoadedParent(s: Schema, a: Ast, order: seq<nat>, j: nat, p: Option<nat>)
    requires Stores(s, a, order) && j < |order|
  {
    || (p.Some? && j <= p.value < |order| && Adopts(s, a, order, p.value, j)
        && forall k :: p.value < k < |order| ==> !Adopts(s, a, order, k, j))
    || (SameRef(order, a.nodes[order[j]].parent, p) && forall k :: j <= k < |order| ==> !Adopts(s, a, order, k, j))
  }

  // The loaded nodes are the stored ones, in the order stored.
  ghost predicate Isomorphic(s: Schema, a: Ast, order: seq<nat>, nodes: seq<Node>, pool: seq<CString>)
    requires Stores(s, a, order)
  {
    && |nodes| == |order|
    && forall k :: 0 <= k < |order| ==>
         var n := a.nodes[order[k]];
         && nodes[k].kind == n.kind && |nodes[k].fields| == |n.fields|
         && (forall i :: 0 <= i < |n.fields| ==> SameField(s, a, order, pool, n.fields[i], nodes[k].fields[i]))
         && LoadedParent(s, a, order, k, nodes[k].parent)
  }

  // -------- The renumbering made by loading

  ghost predicate Renumbers(s: Schema, a: Ast, order: seq<nat>, r: Renumber, pool: seq<CString>)
    requires Stores(s, a, order)
  {
    && r.nodeMap == IdMap(order)
    && SameStrings(a.pool, pool, r.strMap)
    && r.strMap.Keys == Indices(s, a, order)
  }

  lemma {:induction false} IndexIsUsed(s: Schema, fields: seq<Field>, i: nat, idx: nat)
    requires i < |fields| && idx in FieldIndices(s, fields[i])
    ensures idx in FieldsIndices(s, fields)
  {
    var n := |fields| - 1;
    if i < n {
      assert fields[..n][i] == fields[i];
      IndexIsUsed(s, fields[..n], i, idx);
    }
  }

  lemma {:induction false} ListIndexIsUsed(s: Schema, xs: seq<Item>, i: nat, idx: nat)
    requires i < |xs| && idx in ItemIndices(s, xs[i])
    ensures idx in ItemsIndices(s, xs)
  {
    var n := |xs| - 1;
    if i < n {
      assert xs[..n][i] == xs[i];
      ListIndexIsUsed(s, xs[..n], i, idx);
    }
  }

  lemma {:induction false} NodeIndexIsUsed(s: Schema, a: Ast, order: seq<nat>, k: nat, idx: nat)
    requires (forall id :: id in order ==> id in a.nodes) && k < |order|
    requires idx in FieldsIndices(s, a.nodes[order[k]].fields)
    ensures idx in Indices(s, a, order)
  {
    var n := |order| - 1;
    if k < n {
      assert order[..n][k] == order[k];
      NodeIndexIsUsed(s, a, order[..n], k, idx);
    }
  }

  lemma {:induction false} ItemsIndexValid(s: Schema, a: Ast, t: ItemType, xs: seq<Item>, idx: nat)
    requires (forall i :: 0 <= i < |xs| ==> ValidItem(s, a, t, xs[i])) && idx in ItemsIndices(s, xs)
    ensures ValidIndex(a, idx) && idx != 0
  {
    var n := |xs| - 1;
    if idx in ItemIndices(s, xs[n]) {
      assert ValidItem(s, a, t, xs[n]);
    } else {
      ItemsIndexValid(s, a, t, xs[..n], idx);
    }
  }

  lemma {:induction false} FieldsIndexValid(s: Schema, a: Ast, types: seq<FieldType>, fs: seq<Field>, idx: nat)
    requires |types| == |fs| && (forall i :: 0 <= i < |fs| ==> ValidField(s, a, types[i], fs[i])) && idx in FieldsIndices(s, fs)
    ensures ValidIndex(a, idx) && idx != 0
  {
    var n := |fs| - 1;
    if idx in FieldIndices(s, fs[n]) {
      assert ValidField(s, a, types[n], fs[n]);
      if fs[n].List? { ItemsIndexValid(s, a, types[n].t, fs[n].items, idx); }
    } else {
      FieldsIndexValid(s, a, types[..n], fs[..n], idx);
    }
  }

  lemma {:induction false} IndexValid(s: Schema, a: Ast, order: seq<nat>, idx: nat)
    requires ValidAst(s, a) && (forall id :: id in order ==> id in a.nodes) && idx in Indices(s, a, order)
    ensures ValidIndex(a, idx) && idx != 0
  {
    var n := |order| - 1;
    var x := a.nodes[order[n]];
    if idx in FieldsIndices(s, x.fields) {
      assert order[n] in a.nodes && ValidNode(s, a, x);
      FieldsIndexValid(s, a, s.kinds[x.kind], x.fields, idx);
    } else {
      IndexValid(s, a, order[..n], idx);
    }
  }

  // -------- Renamed means same

  lemma RefIsSame(s: Schema, a: Ast, order: seq<nat>, r: Renumber, pool: seq<CString>, t: Option<nat>)
    requires Stores(s, a, order) && Renumbers(s, a, order, r, pool) && (t.Some? ==> t.value < UINT32_END)
    ensures SameRef(order, t, if t.None? then None else NewRef(r, t.value))
  {
    hide ValidAst, Indices, SameStrings;
    IdMapIs(order);
    if t.Some? && t.value in order {
      var k :| 0 <= k < |order| && order[k] == t.value;
      assert IdMap(order)[order[k]] == k;
    }
  }

  lemma IndexIsSame(s: Schema, a: Ast, order: seq<nat>, r: Renumber, pool: seq<CString>, idx: nat)
    requires Stores(s, a, order) && Renumbers(s, a, order, r, pool) && (idx == 0 || idx in Indices(s, a, order)) && idx < UINT32_END
    ensures SameString(a.pool, pool, idx, NewIndex(r, idx))
  {
    if idx == 0 && 0 in r.strMap { IndexValid(s, a, order, 0); }
  }

  lemma ItemIsSame(s: Schema, a: Ast, order: seq<nat>, r: Renumber, pool: seq<CString>, t: ItemType, x: Item)
    requires Stores(s, a, order) && Renumbers(s, a, order, r, pool) && ValidItem(s, a, t, x)
    requires ItemIndices(s, x) <= Indices(s, a, order)
    ensures SameItem(s, a, order, pool, x, RenameItem(s, r, x))
  {
    hide Renumbers, Indices, SameString, SameRef;
    match x {
      case Ref(target) => RefIsSame(s, a, order, r, pool, target);
      case Name(idx) => IndexIsSame(s, a, order, r, pool, idx);
      case Lit(ty, raw) =>
        if ty == s.stringLiteral {
          IndexIsSame(s, a, order, r, pool, LitIndex(raw));
          assert NewIndex(r, raw) == NewIndex(r, LitIndex(raw));
        }
      case _ =>
    }
  }

  lemma FieldIsSame(s: Schema, a: Ast, order: seq<nat>, r: Renumber, pool: seq<CString>, t: FieldType, f: Field)
    requires Stores(s, a, order) && Renumbers(s, a, order, r, pool) && ValidField(s, a, t, f)
    requires FieldIndices(s, f) <= Indices(s, a, order)
    ensures SameField(s, a, order, pool, f, RenameField(s, r, f))
  {
    hide Stores, Renumbers, Indices, SameItem, RenameItem, ItemIndices;
    match f {
      case Single(x) => ItemIsSame(s, a, order, r, pool, t.t, x);
      case List(xs) =>
        forall i | 0 <= i < |xs|
          ensures SameItem(s, a, order, pool, xs[i], RenameItem(s, r, xs[i]))
        {
          forall idx | idx in ItemIndices(s, xs[i])
            ensures idx in ItemsIndices(s, xs)
          {
            ListIndexIsUsed(s, xs, i, idx);
          }
          ItemIsSame(s, a, order, r, pool, t.t, xs[i]);
        }
    }
  }

  lemma NodeIsSame(s: Schema, a: Ast, order: seq<nat>, r: Renumber, pool: seq<CString>, k: nat, i: nat)
    requires Stores(s, a, order) && Renumbers(s, a, order, r, pool) && k < |order| && i < |a.nodes[order[k]].fields|
    ensures SameField(s, a, order, pool, a.nodes[order[k]].fields[i], RenameField(s, r, a.nodes[order[k]].fields[i]))
  {
    hide Renumbers, Indices, SameField, RenameField, FieldIndices, ValidField;
    var n := a.nodes[order[k]];
    assert order[k] in order && ValidNode(s, a, n);
    forall idx | idx in FieldIndices(s, n.fields[i])
      ensures idx in Indices(s, a, order)
    {
      IndexIsUsed(s, n.fields, i, idx);
      NodeIndexIsUsed(s, a, order, k, idx);
    }
    FieldIsSame(s, a, order, r, pool, s.kinds[n.kind][i], n.fields[i]);
  }

  // A field refers to a node under new numbers just when it did under the old ones.
  lemma RefersSame(s: Schema, a: Ast, order: seq<nat>, r: Renumber, pool: seq<CString>, t: FieldType, f: Field, j: nat)
    requires Stores(s, a, order) && Renumbers(s, a, order, r, pool) && ValidField(s, a, t, f) && j < |order|
    ensures FieldAdopts(t, RenameField(s, r, f), j) <==> FieldAdopts(t, f, order[j])
  {
    hide Renumbers, Indices;
    if t.t.Child? {
      match f {
        case Single(x) => RefersOne(s, a, order, r, pool, t.t, x, j);
        case List(xs) =>
          var ys := RenameItems(s, r, xs);
          if Ref(Some(order[j])) in xs {
            var i :| 0 <= i < |xs| && xs[i] == Ref(Some(order[j]));
            RefersOne(s, a, order, r, pool, t.t, xs[i], j);
            assert ys[i] == Ref(Some(j));
          }
          if Ref(Some(j)) in ys {
            var i :| 0 <= i < |ys| && ys[i] == Ref(Some(j));
            RefersOne(s, a, order, r, pool, t.t, xs[i], j);
            assert xs[i] == Ref(Some(order[j]));
          }
      }
    }
  }

  lemma RefersOne(s: Schema, a: Ast, order: seq<nat>, r: Renumber, pool: seq<CString>, t: ItemType, x: Item, j: nat)
    requires Stores(s, a, order) && Renumbers(s, a, order, r, pool) && ValidItem(s, a, t, x) && t.Child? && j < |order|
    ensures RenameItem(s, r, x) == Ref(Some(j)) <==> x == Ref(Some(order[j]))
  {
    hide Renumbers;
    RefIsSame(s, a, order, r, pool, x.target);
    if x == Ref(Some(order[j])) { assert order[j] in order; }
  }

  lemma AdoptsSame(s: Schema, a: Ast, order: seq<nat>, r: Renumber, pool: seq<CString>, k: nat, j: nat)
    requires Stores(s, a, order) && Renumbers(s, a, order, r, pool) && k < |order| && j < |order|
    ensures BodyAdopts(s, a, order, r, k, j) <==> Adopts(s, a, order, k, j)
  {
    hide Renumbers, RenameField, FieldAdopts, ValidField;
    var n := a.nodes[order[k]];
    assert order[k] in order && ValidNode(s, a, n);
    forall i | 0 <= i < |n.fields|
      ensures FieldAdopts(s.kinds[n.kind][i], RenameField(s, r, n.fields[i]), j) <==> FieldAdopts(s.kinds[n.kind][i], n.fields[i], order[j])
    {
      RefersSame(s, a, order, r, pool, s.kinds[n.kind][i], n.fields[i], j);
    }
    var gs := RenameFields(s, r, n.fields);
    assert forall i :: 0 <= i < |n.fields| ==> FieldAdopts(s.kinds[n.kind][i], gs[i], j) == FieldAdopts(s.kinds[n.kind][i], n.fields[i], order[j]);
  }

  // The parent after `upto` bodies, told by the last adopter among them.
  lemma {:induction false} ParentIs(s: Schema, a: Ast, order: seq<nat>, r: Renumber, pool: seq<CString>, j: nat, upto: nat)
    requires Stores(s, a, order) && Renumbers(s, a, order, r, pool) && j < |order| && upto <= |order|
    ensures var p := ParentAfter(s, a, order, r, j, upto);
            || (p.Some? && j <= p.value < upto && Adopts(s, a, order, p.value, j)
                && forall k :: p.value < k < upto ==> !Adopts(s, a, order, k, j))
            || (SameRef(order, a.nodes[order[j]].parent, p) && forall k :: j <= k < upto ==> !Adopts(s, a, order, k, j))
    decreases upto
  {
    hide Renumbers, Adopts, BodyAdopts, SameRef, ValidField;
    if upto <= j {
      assert order[j] in order && ValidNode(s, a, a.nodes[order[j]]);
      RefIsSame(s, a, order, r, pool, a.nodes[order[j]].parent);
    } else {
      AdoptsSame(s, a, order, r, pool, upto - 1, j);
      ParentIs(s, a, order, r, pool, j, upto - 1);
    }
  }

  lemma ReadIsIsomorphic(s: Schema, a: Ast, order: seq<nat>, r: Renumber, pool: seq<CString>, nodes: seq<Node>)
    requires Stores(s, a, order) && Renumbers(s, a, order, r, pool) && BodiesRead(s, a, order, r, nodes, |order|)
    ensures Isomorphic(s, a, order, nodes, pool)
  {
    hide ValidAst, Renumbers, ParentAfter, SameField, LoadedParent, RenameField;
    forall k | 0 <= k < |order|
      ensures LoadedParent(s, a, order, k, nodes[k].parent)
      ensures forall i :: 0 <= i < |a.nodes[order[k]].fields| ==>
                SameField(s, a, order, pool, a.nodes[order[k]].fields[i], nodes[k].fields[i])
    {
      ParentLoaded(s, a, order, r, pool, k);
      forall i | 0 <= i < |a.nodes[order[k]].fields|
        ensures SameField(s, a, order, pool, a.nodes[order[k]].fields[i], nodes[k].fields[i])
      {
        NodeIsSame(s, a, order, r, pool, k, i);
      }
    }
  }

  lemma ParentLoaded(s: Schema, a: Ast, order: seq<nat>, r: Renumber, pool: seq<CString>, k: nat)
    requires Stores(s, a, order) && Renumbers(s, a, order, r, pool) && k < |order|
    ensures LoadedParent(s, a, order, k, ParentAfter(s, a, order, r, k, |order|))
  {
    ParentIs(s, a, order, r, pool, k, |order|);
  }

  // -------- Load undoes store

  lemma HeaderBack(s: Schema, nodes: seq<byte>)
    requires ValidSchema(s)
    ensures var bs := Header(s) + nodes;
            |bs| > 2 && bs[0] == 'M' as byte && bs[1] == 'P' as byte && ReadTagged('L' as byte, bs[2..]) == Got(s.signature, nodes)
  {
    hide Encode, Decode;
    var bs := Header(s) + nodes;
    assert bs[2..][1..] == Encode(s.signature) + nodes;
    DecodeEncode(s.signature, nodes);
  }

  lemma NodeTableBack(s: Schema, a: Ast, order: seq<nat>, table: seq<byte>)
    requires Stores(s, a, order) && table != [] && table[0] == 'T' as byte
    ensures ReadNodes(s, Flat(Entries(a, order)) + table, [], map[]) == Got((Blank(a, order), IdMap(order)), table)
  {
    hide ValidAst, Flat, ReadNodes;
    assert Blank(a, order[..0]) == [] && IdMap(order[..0]) == map[];
    assert Entries(a, order)[0..] == Entries(a, order);
    NodesBack(s, a, order, 0, table);
  }

  lemma StringTableBack(s: Schema, a: Ast, order: seq<nat>, bodies: seq<byte>, pool: seq<CString>)
      returns (strMap: map<nat, nat>, pool': seq<CString>)
    requires Stores(s, a, order) && PoolOK(pool)
    ensures PoolOK(pool') && Renumbers(s, a, order, Renumber(strMap, IdMap(order)), pool')
    ensures var ids := Ascending(Indices(s, a, order));
            var table, strings := StringTable(a.pool, ids) + bodies, Flat(StringParts(a.pool, ids)) + bodies;
            && table != [] && table[0] == 'T' as byte && ReadTagged('T' as byte, table) == Got(|ids|, strings)
            && ReadStrings(|ids|, strings, pool, map[]) == Got((strMap, pool'), bodies)
  {
    hide Distinct, ValidAst, Flat, Indices, Ascending, ReadStrings, IdMap, ValidString, SameStrings, StringTable, ReadTagged, Elems, StringParts;
    var ids := Ascending(Indices(s, a, order));
    UsedStrings(s, a, order);
    TableHead(a.pool, ids, bodies);
    var strings := Flat(StringParts(a.pool, ids)) + bodies;
    assert ids[0..] == ids && StringParts(a.pool, ids)[0..] == StringParts(a.pool, ids);
    assert SameStrings(a.pool, pool, map[]) by { NoStrings(a.pool, pool); }
    StringsBack(a.pool, ids, 0, bodies, pool, map[]);
    var p := ReadStrings(|ids|, strings, pool, map[]);
    strMap, pool' := p.value.0, p.value.1;
    KeysAre(ids, strMap.Keys);
  }

  lemma NoStrings(pool: seq<CString>, pool': seq<CString>)
    ensures SameStrings(pool, pool', map[])
  {
  }

  lemma TableHead(pool: seq<CString>, ids: seq<nat>, bodies: seq<byte>)
    requires |ids| <= UINT32_END
    ensures var table, strings := StringTable(pool, ids) + bodies, Flat(StringParts(pool, ids)) + bodies;
            table != [] && table[0] == 'T' as byte && ReadTagged('T' as byte, table) == Got(|ids|, strings)
  {
    hide Encode, Decode, Flat;
    var strings := Flat(StringParts(pool, ids)) + bodies;
    var table := StringTable(pool, ids) + bodies;
    assert table[1..] == Encode(|ids|) + strings;
    DecodeEncode(|ids|, strings);
  }

  // The string table lists what is used, and there are fewer than 2 to the 32 of them.
  lemma UsedStrings(s: Schema, a: Ast, order: seq<nat>)
    requires Stores(s, a, order)
    ensures var ids := Ascending(Indices(s, a, order));
            && |ids| <= UINT32_END && Elems(ids) == Indices(s, a, order)
            && forall j :: 0 <= j < |ids| ==> ids[j] < |a.pool| && ids[j] < UINT32_END && ValidString(a.pool[ids[j]])
  {
    hide ValidAst, Indices, Ascending, ValidString;
    var used := Indices(s, a, order);
    AscendingIs(used);
    forall i | i in used
      ensures i in Below(UINT32_END) && i < |a.pool| && ValidString(a.pool[i])
    {
      IndexValid(s, a, order, i);
    }
    SubsetCard(used, Below(UINT32_END));
    forall j | 0 <= j < |Ascending(used)|
      ensures Ascending(used)[j] in used
    {
      assert Ascending(used)[j] in Ascending(used);
    }
  }

  lemma KeysAre(ids: seq<nat>, keys: set<nat>)
    requires keys <= Elems(ids) && forall j :: 0 <= j < |ids| ==> ids[j] in keys
    ensures keys == Elems(ids)
  {
  }

  lemma BlankRead(s: Schema, a: Ast, order: seq<nat>, r: Renumber)
    requires Stores(s, a, order)
    ensures KindsOK(s, Blank(a, order)) && BodiesRead(s, a, order, r, Blank(a, order), 0)
  {
    hide ValidField;
    forall k | 0 <= k < |order|
      ensures a.nodes[order[k]].kind < |s.kinds|
    {
      assert order[k] in order && ValidNode(s, a, a.nodes[order[k]]);
    }
  }

  lemma PoolGrows(s: Schema, a: Ast, order: seq<nat>, r: Renumber, pool: seq<CString>, pool': seq<CString>)
    requires Stores(s, a, order) && Renumbers(s, a, order, r, pool) && pool <= pool'
    ensures Renumbers(s, a, order, r, pool')
  {
    hide Indices, IdMap;
  }

  // Whatever follows it in the buffer, a stored module loads to an isomorphic one.
  lemma LoadUndoesStore(s: Schema, a: Ast, order: seq<nat>, pool: seq<CString>, rest: seq<byte>)
    requires Stores(s, a, order) && PoolOK(pool)
    ensures var l := NextModule(s, Stored(s, a, order) + rest, pool);
            l.Module? && l.rest == rest && PoolOK(l.pool) && Isomorphic(s, a, order, l.nodes, l.pool)
  {
    hide Distinct, ValidNode, Flat, ReadTagged, StringTable, ReadNodes, ReadStrings, ReadBodies, Indices, Ascending, Renumbers,
         KindsOK, IdMap, Isomorphic, BodiesRead, Header;
    var ids, blank := Ascending(Indices(s, a, order)), Blank(a, order);
    var bodies := Flat(Bodies(a, order)) + rest;
    var table := StringTable(a.pool, ids) + bodies;
    var nodes := Flat(Entries(a, order)) + table;
    assert Stored(s, a, order) + rest == Header(s) + nodes;
    HeaderBack(s, nodes);
    var strMap, pool' := StringTableBack(s, a, order, bodies, pool);
    NodeTableBack(s, a, order, table);
    var r := Renumber(strMap, IdMap(order));
    BlankRead(s, a, order, r);
    assert Bodies(a, order)[0..] == Bodies(a, order);
    BodiesBack(s, a, order, r, pool', blank, 0, rest);
    var p := ReadBodies(s, bodies, r, pool', blank, 0);
    PoolGrows(s, a, order, r, pool', p.value.1);
    ReadIsIsomorphic(s, a, order, r, p.value.1, p.value.0);
  }

  // -------- What isomorphism gives

  // Children are kept or shared as they were: two references load to one node just when they were
  // to one node, and two names to one index just when they were one string.
  lemma SharingIsKept(s: Schema, a: Ast, order: seq<nat>, pool: seq<CString>, x: Item, x': Item, y: Item, y': Item)
    requires Stores(s, a, order) && Distinct(pool)
    requires SameItem(s, a, order, pool, x, y) && SameItem(s, a, order, pool, x', y')
    ensures x.Ref? && x'.Ref? && x.target.Some? && x'.target.Some? && x.target.value in order && x'.target.value in order ==>
              (y.target == y'.target <==> x.target == x'.target)
    ensures x.Name? && x'.Name? && x.idx != 0 && x'.idx != 0 ==>
              (y.idx == y'.idx <==> a.pool[x.idx] == a.pool[x'.idx])
  {
    hide ValidAst;
  }

  // Node `j` keeps its parent exactly when the last node that adopts it, from `j` on, is that parent.
  lemma ParentKept(s: Schema, a: Ast, order: seq<nat>, j: nat, p: Option<nat>)
    requires Stores(s, a, order) && j < |order| && LoadedParent(s, a, order, j, p)
    ensures SameRef(order, a.nodes[order[j]].parent, p) <==>
            forall k :: j <= k < |order| && Adopts(s, a, order, k, j) && (forall m :: k < m < |order| ==> !Adopts(s, a, order, m, j)) ==>
              a.nodes[order[j]].parent == Some(order[k])
  {
    hide ValidAst, FieldsAdopt, Adopts;
    if p.Some? && j <= p.value < |order| && Adopts(s, a, order, p.value, j)
       && forall k :: p.value < k < |order| ==> !Adopts(s, a, order, k, j) {
      assert order[p.value] in order;
    }
  }

  // A tree and the order its nodes are stored in.
  datatype Module = Module(tree: Ast, order: seq<nat>)

  ghost predicate ValidModule(s: Schema, m: Module) {
    Stores(s, m.tree, m.order)
  }

  // Modules stored one after the other.
  ghost function StoredAll(s: Schema, ms: seq<Module>): seq<byte>
    requires forall i :: 0 <= i < |ms| ==> ValidModule(s, ms[i])
  {
    if ms == [] then []
    else
      assert ValidModule(s, ms[0]);
      Stored(s, ms[0].tree, ms[0].order) + StoredAll(s, ms[1..])
  }

  // They load one by one, and then the buffer is at its end.
  lemma ModulesLoadInTurn(s: Schema, ms: seq<Module>, pool: seq<CString>)
    requires (forall i :: 0 <= i < |ms| ==> ValidModule(s, ms[i])) && PoolOK(pool)
    ensures var l := NextModule(s, StoredAll(s, ms), pool);
            if ms == [] then l == AtEnd
            else
              && l.Module? && l.rest == StoredAll(s, ms[1..]) && PoolOK(l.pool)
              && ValidModule(s, ms[0]) && Isomorphic(s, ms[0].tree, ms[0].order, l.nodes, l.pool)
  {
    hide Isomorphic, Distinct, Stored;
    if ms != [] {
      assert ValidModule(s, ms[0]);
      LoadUndoesStore(s, ms[0].tree, ms[0].order, pool, StoredAll(s, ms[1..]));
    }
  }
}
