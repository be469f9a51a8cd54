/** Storing a tree: numbers, addresses and strings are appended to two buffers while the tree is
    visited; the string table goes between them. */
module AstStores {
  import opened Options
  import opened Graphs
  import opened Leb128
  import opened AstData
  import opened AstReading
  import opened AstRoundTrip
  import opened AstModules
  import opened AstOrder

  // The two buffers, and which of them is written to.
  datatype Output = Output(toNodes: bool, astBuf: seq<byte>, nodeBuf: seq<byte>)

  function Append(o: Output, x: seq<byte>): Output {
    if o.toNodes then o.(nodeBuf := o.nodeBuf + x) else o.(astBuf := o.astBuf + x)
  }

  lemma AppendTwice(o: Output, x: seq<byte>, y: seq<byte>)
    ensures Append(Append(o, x), y) == Append(o, x + y)
  {
    assert o.nodeBuf + x + y == o.nodeBuf + (x + y);
    assert o.astBuf + x + y == o.astBuf + (x + y);
  }

  function Tagged(tag: byte, x: int): seq<byte> {
    (if tag == 'A' as byte || tag == 'V' as byte then [] else [tag]) + Encode(x)
  }

  // What the buffers and sets hold once the nodes of `order` are stored.
  ghost predicate StoredSoFar(s: Schema, a: Ast, order: seq<nat>, o: Output, strIdx: set<nat>, visited: set<nat>) {
    && NoDup(order) && (forall id :: id in order ==> id in a.nodes) && visited == Elems(order)
    && o == Output(true, Header(s) + Flat(Entries(a, order)), Flat(Bodies(a, order)))
    && strIdx == Indices(s, a, order)
  }

  lemma OneMoreStored(s: Schema, a: Ast, order: seq<nat>, o: Output, strIdx: set<nat>, visited: set<nat>, id: nat)
    requires StoredSoFar(s, a, order, o, strIdx, visited) && id in a.nodes && id !in visited
    ensures var n := a.nodes[id];
            StoredSoFar(s, a, order + [id], Output(true, o.astBuf + Entry(id, n), o.nodeBuf + Body(id, n)),
                        strIdx + FieldsIndices(s, n.fields), visited + {id})
  {
    hide Entry, Body, FieldsIndices;
    var order' := order + [id];
    assert Entries(a, order') == Entries(a, order) + [Entry(id, a.nodes[id])];
    FlatSnoc(Entries(a, order), Entry(id, a.nodes[id]));
    assert Bodies(a, order') == Bodies(a, order) + [Body(id, a.nodes[id])];
    FlatSnoc(Bodies(a, order), Body(id, a.nodes[id]));
    assert order'[..|order|] == order;
    assert Elems(order') == Elems(order) + {id};
    assert o.astBuf + Entry(id, a.nodes[id]) == Header(s) + (Flat(Entries(a, order)) + Entry(id, a.nodes[id]));
  }

  class AstStore {
    const mSchema: Schema
    const mAst: Ast
    var mAstBuf: seq<byte>
    var node_buf: seq<byte>
    var mToNodes: bool          // the buffer written to is node_buf, not mAstBuf
    var mStrIdxSet: set<nat>
    var mVisited: set<nat>
    ghost var order: seq<nat>   // nodes stored, in order

    constructor (s: Schema, a: Ast)
      ensures mSchema == s && mAst == a && mAstBuf == ['M' as byte, 'P' as byte] && mVisited == {} && mStrIdxSet == {} && !mToNodes
    {
      mSchema, mAst := s, a;
      mAstBuf, node_buf, mToNodes := ['M' as byte, 'P' as byte], [], false;
      mStrIdxSet, mVisited, order := {}, {}, [];
    }

    ghost function Out(): Output
      reads this`mAstBuf, this`node_buf, this`mToNodes
    {
      Output(mToNodes, mAstBuf, node_buf)
    }

    method PushBack(b: byte)
      modifies this`mAstBuf, this`node_buf
      ensures Out() == Append(old(Out()), [b])
    {
      if mToNodes { node_buf := node_buf + [b]; } else { mAstBuf := mAstBuf + [b]; }
    }

    method WriteNum(tag: byte, x0: int)
      requires IsInt64(x0)
      modifies this`mAstBuf, this`node_buf
      ensures Out() == Append(old(Out()), Tagged(tag, x0))
    {
      hide Append, Encode, ToUint64;
      ghost var out := Out();
      ghost var head := if tag == 'A' as byte || tag == 'V' as byte then [] else [tag];
      var x := x0;
      if tag != 'A' as byte && tag != 'V' as byte { PushBack(tag); }
      assert Out() == Append(out, head) by { NothingAppended(out); }
      AppendTwice(out, head, Encode(x));
      while x < -0x40 || x >= 0x40
        invariant Append(Out(), Encode(x)) == Append(out, Tagged(tag, x0))
        decreases if x < 0 then -x else x
      {
        ghost var out1 := Out();
        LowBits(x);
        PushBack(ToUint64(x) % 128 + 0x80);
        MoreBytes(x);
        AppendTwice(out1, [x % 128 + 128], Encode(x / 128));
        x := x / 128;
      }
      LowBits(x);
      PushBack(ToUint64(x) % 128);
      LastBytes(x);
    }

    // The entry of a node goes to the node table, its body to the node buffer.
    method WriteNode(id: nat)
      requires ValidAst(mSchema, mAst) && id in mAst.nodes && mToNodes
      modifies this`mAstBuf, this`node_buf, this`mToNodes
      ensures var n := mAst.nodes[id];
              Out() == Output(true, old(mAstBuf) + Entry(id, n), old(node_buf) + (Encode(n.kind) + Encode(id) + EncodeRef(n.parent)))
    {
      hide ValidAst, Encode, EncodeRef;
      NumbersFit(mSchema, mAst, id);
      var n := mAst.nodes[id];
      var tmp := mToNodes;
      mToNodes := false;
      WriteNum('N' as byte, n.kind);
      WriteNum('V' as byte, id);
      mToNodes := tmp;
      WriteValue(n.kind);
      WriteValue(id);
      WriteAddress(n.parent);
    }

    method WriteAddress(t: Option<nat>)
      requires t.Some? ==> t.value < UINT32_END
      modifies this`mAstBuf, this`node_buf
      ensures Out() == Append(old(Out()), EncodeRef(t))
    {
      hide Encode;
      if t.Some? { WriteNum('A' as byte, t.value); } else { WriteNum('A' as byte, -1); }
    }

    method WriteValue(val: int)
      requires IsInt64(val)
      modifies this`mAstBuf, this`node_buf
      ensures Out() == Append(old(Out()), Encode(val))
    {
      hide Encode;
      WriteNum('V' as byte, val);
    }

    method WriteLength(len: nat)
      requires len < UINT32_END
      modifies this`mAstBuf, this`node_buf
      ensures Out() == Append(old(Out()), ['L' as byte] + Encode(len))
    {
      hide Encode;
      WriteNum('L' as byte, len);
    }

    // All characters, and the null character that ends them.
    method WriteString(str: Option<CString>)
      requires ValidText(str)
      modifies this`mAstBuf, this`node_buf
      ensures Out() == Append(old(Out()), EncodeText(str))
    {
      hide Encode, Append;
      ghost var out := Out();
      match str {
        case None => WriteNum('S' as byte, 0);
        case Some(s) =>
          WriteNum('S' as byte, |s| + 1);
          ghost var head := ['S' as byte] + Encode(|s| + 1);
          assert head + s[..0] == head;
          for p := 0 to |s|
            invariant Out() == Append(out, head + s[..p])
          {
            AppendTwice(out, head + s[..p], [s[p]]);
            assert head + s[..p] + [s[p]] == head + s[..p + 1];
            PushBack(s[p]);
          }
          assert s[..|s|] == s;
          AppendTwice(out, head + s, [0]);
          PushBack(0);
      }
    }

    method AddStrIdx(idx: nat)
      modifies this`mStrIdxSet
      ensures mStrIdxSet == old(mStrIdxSet) + if idx != 0 then {idx} else {}
    {
      if idx != 0 { mStrIdxSet := mStrIdxSet + {idx}; }
    }

    // A field or list element, by its type.
    method WriteItem(t: ItemType, x: Item)
      requires ValidItem(mSchema, mAst, t, x) && forall id :: id in mAst.nodes ==> id < UINT32_END
      modifies this`mAstBuf, this`node_buf, this`mStrIdxSet
      ensures Out() == Append(old(Out()), EncodeItem(x)) && mStrIdxSet == old(mStrIdxSet) + ItemIndices(mSchema, x)
    {
      hide Encode, EncodeText, Append, ToInt64;
      ghost var out := Out();
      match t {
        case Child(_) => WriteAddress(x.target);
        case Scalar(_) => WriteValue(ToInt64(x.v));
        case StringIndex => AddStrIdx(x.idx); WriteValue(x.idx);
        case Literal =>
          if x.ty == mSchema.stringLiteral { AddStrIdx(LitIndex(x.raw)); }
          WriteValue(x.ty);
          WriteValue(x.raw);
          AppendTwice(out, Encode(x.ty), Encode(x.raw));
        case CharStar => WriteString(x.s);
        case RegExpr =>
          WriteString(x.expr);
          WriteString(x.flags);
          AppendTwice(out, EncodeText(x.expr), EncodeText(x.flags));
        case Scope => NothingAppended(out);
      }
    }

    method WriteField(t: FieldType, f: Field)
      requires ValidField(mSchema, mAst, t, f) && forall id :: id in mAst.nodes ==> id < UINT32_END
      modifies this`mAstBuf, this`node_buf, this`mStrIdxSet
      ensures Out() == Append(old(Out()), EncodeField(f)) && mStrIdxSet == old(mStrIdxSet) + FieldIndices(mSchema, f)
    {
      hide Encode, EncodeItem, ItemIndices, Append, ValidItem;
      ghost var out, used := Out(), mStrIdxSet;
      match f {
        case Single(x) => WriteItem(t.t, x);
        case List(xs) =>
          WriteLength(|xs|);
          ghost var parts, head := ItemParts(xs), ['L' as byte] + Encode(|xs|);
          assert head + Flat(parts[..0]) == head;
          for i := 0 to |xs|
            invariant Out() == Append(out, head + Flat(parts[..i])) && mStrIdxSet == used + ItemsIndices(mSchema, xs[..i])
          {
            MoreFlat(parts, i);
            AppendTwice(out, head + Flat(parts[..i]), parts[i]);
            assert head + Flat(parts[..i]) + parts[i] == head + Flat(parts[..i + 1]);
            assert xs[..i + 1][..i] == xs[..i];
            WriteItem(t.t, xs[i]);
          }
          assert parts[..|xs|] == parts && xs[..|xs|] == xs;
      }
    }

    // A node and all its fields.
    method StoreTreeNode(id: nat)
      requires ValidAst(mSchema, mAst) && id in mAst.nodes && mToNodes
      modifies this`mAstBuf, this`node_buf, this`mToNodes, this`mStrIdxSet
      ensures var n := mAst.nodes[id];
              && Out() == Output(true, old(mAstBuf) + Entry(id, n), old(node_buf) + Body(id, n))
              && mStrIdxSet == old(mStrIdxSet) + FieldsIndices(mSchema, n.fields)
    {
      hide Encode, EncodeRef, EncodeField, FieldIndices, ValidField, Entry;
      var n := mAst.nodes[id];
      assert ValidNode(mSchema, mAst, n);
      ghost var used, head := mStrIdxSet, Encode(n.kind) + Encode(id) + EncodeRef(n.parent);
      WriteNode(id);
      ghost var out, parts := Out(), FieldParts(n.fields);
      var types := mSchema.kinds[n.kind];
      assert Append(out, Flat(parts[..0])) == out;
      for i := 0 to |n.fields|
        invariant Out() == Append(out, Flat(parts[..i])) && mStrIdxSet == used + FieldsIndices(mSchema, n.fields[..i])
      {
        MoreFlat(parts, i);
        AppendTwice(out, Flat(parts[..i]), parts[i]);
        assert n.fields[..i + 1][..i] == n.fields[..i];
        WriteField(types[i], n.fields[i]);
      }
      assert parts[..|n.fields|] == parts && n.fields[..|n.fields|] == n.fields;
      assert old(node_buf) + head + Flat(parts) == old(node_buf) + (head + Flat(parts));
    }

    ghost predicate Inv()
      reads this
    {
      StoredSoFar(mSchema, mAst, order, Out(), mStrIdxSet, mVisited)
    }

    // Depth first, each node once; a node is stored before its children are visited, from left to right.
    // The node is the next in preorder, unless it has been visited.
    method VisitTreeNode(id: nat)
      requires ValidAst(mSchema, mAst) && Inv() && id in mAst.nodes && Preorder(mAst, mAst.root, order)
      requires id !in mVisited ==> if order == [] then id == mAst.root else Next(mAst, order, id)
      modifies this`mAstBuf, this`node_buf, this`mToNodes, this`mStrIdxSet, this`mVisited, this`order
      ensures Inv() && old(order) <= order && id in order && Preorder(mAst, mAst.root, order)
      ensures DoneFrom(mAst, order, |old(order)|)
      ensures id !in old(mVisited) ==> |order| > |old(order)| && order[|old(order)|] == id
      ensures id in old(mVisited) ==> Out() == old(Out()) && order == old(order) && mStrIdxSet == old(mStrIdxSet)
      decreases |mAst.nodes.Keys - mVisited|, 0
    {
      hide ValidAst, StoredSoFar, Entry, Body, FieldsIndices, DoneFrom, Kids, Append, Next, Preorder;
      InvTells(mSchema, mAst, order, Out(), mStrIdxSet, mVisited);
      if id !in mVisited {
        SubsetSmaller(mAst.nodes.Keys, mVisited, id);
        OneMoreStored(mSchema, mAst, order, Out(), mStrIdxSet, mVisited, id);
        PreorderGrows(mAst, mAst.root, order, id);
        mVisited := mVisited + {id};
        StoreTreeNode(id);
        order := order + [id];
        VisitChildren(id);
      } else {
        DoneNone(mAst, order);
      }
    }

    // The children of the node that was stored last.
    method VisitChildren(id: nat)
      requires ValidAst(mSchema, mAst) && Inv() && id in mAst.nodes && Preorder(mAst, mAst.root, order)
      requires order != [] && order[|order| - 1] == id
      modifies this`mAstBuf, this`node_buf, this`mToNodes, this`mStrIdxSet, this`mVisited, this`order
      ensures Inv() && old(order) <= order && Preorder(mAst, mAst.root, order)
      ensures DoneFrom(mAst, order, |old(order)| - 1)
      decreases |mAst.nodes.Keys - mVisited|, 1
    {
      hide ValidAst, StoredSoFar, FieldsIndices, DoneFrom, Kids, Append, Next, Preorder;
      ghost var before, visited, p := order, mVisited, |order| - 1;
      var kids := Kids(mAst.nodes[id].fields);
      KidsStored(mSchema, mAst, id);
      DoneNone(mAst, order);
      for i := 0 to |kids|
        invariant Inv() && before <= order && visited <= mVisited && Preorder(mAst, mAst.root, order)
        invariant DoneFrom(mAst, order, p + 1) && order[p] == id
        invariant forall j :: 0 <= j < i ==> kids[j] in order
      {
        ghost var order1 := order;
        InvTells(mSchema, mAst, order, Out(), mStrIdxSet, mVisited);
        SubsetLeft(mAst.nodes.Keys, visited, mVisited);
        if kids[i] !in mVisited { KidIsNext(mAst, order, p, i); }
        VisitTreeNode(kids[i]);
        InvTells(mSchema, mAst, order, Out(), mStrIdxSet, mVisited);
        DoneStays(mAst, order1, order, p + 1);
      }
      AllKidsIn(mAst, order, p);
    }

    // The strings used, in ascending order of their indices.
    method WriteStrIdxTable()
      requires |mStrIdxSet| <= UINT32_END
      requires forall i :: i in mStrIdxSet ==> i < |mAst.pool| && i < UINT32_END && ValidString(mAst.pool[i])
      modifies this`mAstBuf, this`node_buf
      ensures Out() == Append(old(Out()), StringTable(mAst.pool, Ascending(mStrIdxSet)))
    {
      hide Encode, EncodeText, Append, Ascending, Flat, StringParts, ValidString, IsLeast;
      ghost var out, pool := Out(), mAst.pool;
      AscendingIs(mStrIdxSet);
      ghost var head := ['T' as byte] + Encode(|mStrIdxSet|);
      WriteNum('T' as byte, |mStrIdxSet|);
      var left := mStrIdxSet;
      AppendTwice(out, head, Flat(StringParts(pool, Ascending(left))));
      while left != {}
        invariant left <= mStrIdxSet
        invariant Append(Out(), Flat(StringParts(pool, Ascending(left)))) == Append(out, StringTable(pool, Ascending(mStrIdxSet)))
        decreases |left|
      {
        var s := First(left);
        NextString(pool, left, s, Out());
        WriteValue(s);
        WriteString(Some(mAst.pool[s]));
        left := left - {s};
      }
      NoStringsLeft(pool, Out());
    }

    // A whole module into mAstBuf, the signature first; its nodes in preorder.
    method StoreInAstBuf()
      requires ValidAst(mSchema, mAst) && mVisited == {} && mStrIdxSet == {}
      requires |mAstBuf| >= 2 && mAstBuf[0] == 'M' as byte && mAstBuf[1] == 'P' as byte
      modifies this
      ensures Stores(mSchema, mAst, order) && order != [] && Preorder(mAst, mAst.root, order) && DoneFrom(mAst, order, 0)
      ensures mAstBuf == Stored(mSchema, mAst, order) && mStrIdxSet == {}
    {
      hide ValidAst, Encode, Flat, StringTable, DoneFrom, Indices, Next;
      assert ValidSchema(mSchema) && mAst.root in mAst.nodes by { SchemaValid(mSchema, mAst); }
      node_buf := [];
      mAstBuf := mAstBuf[..2];
      mToNodes := false;
      WriteNum('L' as byte, mSchema.signature);
      mToNodes := true;
      order := [];
      NothingStored(mSchema, mAst, Out());
      VisitTreeNode(mAst.root);
      mToNodes := false;
      assert Stores(mSchema, mAst, order);
      UsedStrings(mSchema, mAst, order);
      AscendingIs(mStrIdxSet);
      ghost var strings := StringTable(mAst.pool, Ascending(mStrIdxSet));
      IndicesFit(mSchema, mAst, order);
      WriteStrIdxTable();
      mAstBuf := mAstBuf + node_buf;
      mStrIdxSet := {};
    }
  }

  // The first element of an ordered set.
  method First(s: set<nat>) returns (x: nat)
    requires s != {}
    ensures x in s && IsLeast(s, x)
  {
    LeastExists(s);
    x :| x in s && IsLeast(s, x);
  }

  lemma SchemaValid(s: Schema, a: Ast)
    requires ValidAst(s, a)
    ensures ValidSchema(s) && a.root in a.nodes
  {
  }

  lemma NothingStored(s: Schema, a: Ast, o: Output)
    requires o == Output(true, Header(s), [])
    ensures StoredSoFar(s, a, [], o, {}, {})
  {
    assert Header(s) + Flat([]) == Header(s);
  }

  lemma IndicesFit(s: Schema, a: Ast, order: seq<nat>)
    requires Stores(s, a, order)
    ensures forall i :: i in Indices(s, a, order) ==> i < |a.pool| && i < UINT32_END && ValidString(a.pool[i])
  {
    hide ValidAst, Indices, ValidString;
    forall i | i in Indices(s, a, order)
      ensures i < |a.pool| && i < UINT32_END && ValidString(a.pool[i])
    {
      IndexValid(s, a, order, i);
    }
  }

  lemma NextString(pool: seq<CString>, left: set<nat>, x: nat, o: Output)
    requires IsLeast(left, x) && x < |pool|
    ensures Append(Append(Append(o, Encode(x)), EncodeText(Some(pool[x]))), Flat(StringParts(pool, Ascending(left - {x})))) ==
            Append(o, Flat(StringParts(pool, Ascending(left))))
  {
    hide Encode, EncodeText, Ascending, Append, IsLeast, StringParts;
    AscendingStep(left, x);
    PartsStep(pool, x, Ascending(left - {x}));
    var text, rest := EncodeText(Some(pool[x])), Flat(StringParts(pool, Ascending(left - {x})));
    AppendTwice(o, Encode(x), text);
    AppendTwice(o, Encode(x) + text, rest);
  }

  lemma PartsStep(pool: seq<CString>, x: nat, ids: seq<nat>)
    requires x < |pool|
    ensures Flat(StringParts(pool, [x] + ids)) == Encode(x) + EncodeText(Some(pool[x])) + Flat(StringParts(pool, ids))
  {
    hide Encode, EncodeText;
    assert StringParts(pool, [x] + ids)[1..] == StringParts(pool, ids);
  }

  lemma NoStringsLeft(pool: seq<CString>, o: Output)
    ensures Append(o, Flat(StringParts(pool, Ascending({})))) == o
  {
    NothingAppended(o);
  }

  lemma InvTells(s: Schema, a: Ast, order: seq<nat>, o: Output, strIdx: set<nat>, visited: set<nat>)
    requires StoredSoFar(s, a, order, o, strIdx, visited)
    ensures o.toNodes && (forall x :: x in visited <==> x in order) && forall x :: x in order ==> x in a.nodes
  {
  }

  lemma SubsetLeft(all: set<nat>, a: set<nat>, b: set<nat>)
    requires a <= b
    ensures |all - b| <= |all - a|
  {
    SubsetCard(all - b, all - a);
  }

  lemma {:induction false} KidsStored(s: Schema, a: Ast, id: nat)
    requires ValidAst(s, a) && id in a.nodes
    ensures forall j :: j in Kids(a.nodes[id].fields) ==> j in a.nodes
  {
    hide ValidItem;
    var n := a.nodes[id];
    assert ValidNode(s, a, n);
    forall j | j in Kids(n.fields)
      ensures j in a.nodes
    {
      KidsAre(n.fields, j);
      var i :| 0 <= i < |n.fields| && HasRef(n.fields[i], j);
      assert ValidField(s, a, s.kinds[n.kind][i], n.fields[i]);
      KidValid(s, a, s.kinds[n.kind][i], n.fields[i], j);
    }
  }

  lemma KidValid(s: Schema, a: Ast, t: FieldType, f: Field, j: nat)
    requires ValidField(s, a, t, f) && HasRef(f, j)
    ensures j in a.nodes
  {
    if f.List? {
      var i :| 0 <= i < |f.items| && f.items[i] == Ref(Some(j));
      assert ValidItem(s, a, t.t, f.items[i]);
    }
  }

  lemma DoneNone(a: Ast, order: seq<nat>)
    ensures DoneFrom(a, order, |order|)
  {
  }

  lemma NothingAppended(o: Output)
    ensures Append(o, []) == o
  {
  }

  lemma LowBits(x: int)
    ensures ToUint64(x) % 128 == x % 128
  {
  }

  lemma MoreBytes(x: int)
    requires !(-0x40 <= x < 0x40)
    ensures Encode(x) == [x % 128 + 128] + Encode(x / 128)
  {
  }

  lemma LastBytes(x: int)
    requires -0x40 <= x < 0x40
    ensures Encode(x) == [x % 128]
  {
  }

  lemma NumbersFit(s: Schema, a: Ast, id: nat)
    requires ValidAst(s, a) && id in a.nodes
    ensures var n := a.nodes[id];
            id < UINT32_END && n.kind < UINT32_END && (n.parent.Some? ==> n.parent.value < UINT32_END)
  {
    assert ValidNode(s, a, a.nodes[id]);
  }

  lemma MoreFlat(parts: seq<seq<byte>>, i: nat)
    requires i < |parts|
    ensures Flat(parts[..i + 1]) == Flat(parts[..i]) + parts[i]
  {
    assert parts[..i + 1] == parts[..i] + [parts[i]];
    FlatSnoc(parts[..i], parts[i]);
  }
}
