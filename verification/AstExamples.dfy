/** The bytes of a small module: a block with a list of two children, one of them missing, and a node
    with a field of every other type. */
module AstExamples {
  import opened Options
  import opened Graphs
  import opened Leb128
  import opened AstData

  const KINDS: seq<seq<FieldType>> :=
    [[One(StringIndex), Many(Child(true))],
     [One(Literal), One(CharStar), One(RegExpr), One(Scalar(Bool)), One(Scope), One(Child(false))]]

  const SCHEMA := Schema(KINDS, 5, 9, 300)

  const BLOCK := Node(0, None, [Single(Name(3)), List([Ref(Some(21)), Ref(None)])])
  const LEAF := Node(1, Some(20), [Single(Lit(9, 2)), Single(Text(Some([97, 98]))), Single(Reg(Some([120]), None)),
                                   Single(Num(1)), Single(NoItem), Single(Ref(None))])
  const TREE := Ast(20, map[20 := BLOCK, 21 := LEAF], [[], [], [104, 105], [97]])

  lemma TreeIsValid()
    ensures ValidAst(SCHEMA, TREE)
  {
    assert ValidNode(SCHEMA, TREE, BLOCK) && ValidNode(SCHEMA, TREE, LEAF);
  }

  lemma Digits()
    ensures forall x :: 0 <= x < 0x40 ==> Encode(x) == [x]
    ensures Encode(-1) == [0x7f] && Encode(300) == [0xac, 2]
  {
  }

  lemma BlockBytes()
    ensures Entry(20, BLOCK) == ['N' as byte, 0, 20]
    ensures Body(20, BLOCK) == BLOCK_BODY
  {
    hide Encode;
    Digits();
    var items := BLOCK.fields[1].items;
    assert ItemParts(items) == [[21], [0x7f]];
    Flat2([21], [0x7f]);
    assert EncodeField(BLOCK.fields[1]) == ['L' as byte] + [2] + [21, 0x7f];
    assert EncodeField(BLOCK.fields[0]) == [3];
    var parts := FieldParts(BLOCK.fields);
    assert parts[0] == [3] && parts[1] == ['L' as byte, 2, 21, 0x7f];
    assert parts == [[3], ['L' as byte, 2, 21, 0x7f]];
    Flat2([3], ['L' as byte, 2, 21, 0x7f]);
  }

  lemma Flat2(x: seq<byte>, y: seq<byte>)
    ensures Flat([x, y]) == x + y
  {
    FlatSnoc([x], y);
    FlatSnoc([], x);
    assert [x] + [y] == [x, y] && [] + [x] == [x];
  }

  const TEXT: seq<byte> := ['S' as byte, 3, 97, 98, 0]
  const REG: seq<byte> := ['S' as byte, 2, 120, 0, 'S' as byte, 0]

  lemma LeafParts()
    ensures FieldParts(LEAF.fields) == [[9, 2], TEXT, REG, [1], [], [0x7f]]
  {
    hide Encode;
    Digits();
    assert EncodeText(Some([97, 98])) == ['S' as byte] + [3] + [97, 98] + [0] == TEXT;
    assert EncodeText(Some([120])) + EncodeText(None) == ['S' as byte] + [2] + [120] + [0] + (['S' as byte] + [0]) == REG;
    var fs := LEAF.fields;
    var parts := FieldParts(fs);
    hide EncodeText;
    assert parts[0] == [9] + [2] == [9, 2] && parts[1] == TEXT && parts[2] == REG;
    assert parts[3] == [1] && parts[4] == [] && parts[5] == [0x7f];
  }

  lemma LeafBytes()
    ensures Entry(21, LEAF) == ['N' as byte, 1, 21]
    ensures Body(21, LEAF) == LEAF_BODY
  {
    hide Encode, FieldParts, Flat;
    Digits();
    LeafParts();
    Flat2([9, 2], TEXT);
    FlatSnoc([[9, 2], TEXT], REG);
    assert [[9, 2], TEXT] + [REG] == [[9, 2], TEXT, REG];
    FlatSnoc([[9, 2], TEXT, REG], [1]);
    assert [[9, 2], TEXT, REG] + [[1]] == [[9, 2], TEXT, REG, [1]];
    FlatSnoc([[9, 2], TEXT, REG, [1]], []);
    assert [[9, 2], TEXT, REG, [1]] + [[]] == [[9, 2], TEXT, REG, [1], []];
    FlatSnoc([[9, 2], TEXT, REG, [1], []], [0x7f]);
    var fields := [9, 2] + TEXT + REG + [1] + [] + [0x7f];
    assert fields == [9, 2] + TEXT + REG + [1, 0x7f];
    assert [[9, 2], TEXT, REG, [1], []] + [[0x7f]] == [[9, 2], TEXT, REG, [1], [], [0x7f]];
    assert Body(21, LEAF) == [1] + [21] + [20] + fields;
  }

  lemma MoreIndices(fs: seq<Field>, f: Field, xs: seq<Item>, x: Item)
    ensures FieldsIndices(SCHEMA, fs + [f]) == FieldsIndices(SCHEMA, fs) + FieldIndices(SCHEMA, f)
    ensures ItemsIndices(SCHEMA, xs + [x]) == ItemsIndices(SCHEMA, xs) + ItemIndices(SCHEMA, x)
  {
    assert (fs + [f])[..|fs|] == fs && (xs + [x])[..|xs|] == xs;
  }

  lemma BlockStrings()
    ensures FieldsIndices(SCHEMA, BLOCK.fields) == {3}
  {
    hide FieldsIndices, ItemsIndices;
    var fs := BLOCK.fields;
    var xs := fs[1].items;
    assert ItemsIndices(SCHEMA, []) == {} && FieldsIndices(SCHEMA, []) == {} by { NoIndices(); }
    MoreIndices([], fs[0], [], xs[0]);
    MoreIndices([fs[0]], fs[1], [xs[0]], xs[1]);
    assert xs == [xs[0]] + [xs[1]] && fs == [fs[0]] + [fs[1]] && [] + [fs[0]] == [fs[0]] && [] + [xs[0]] == [xs[0]];
  }

  lemma NoIndices()
    ensures ItemsIndices(SCHEMA, []) == {} && FieldsIndices(SCHEMA, []) == {}
  {
  }

  lemma LeafStrings()
    ensures FieldsIndices(SCHEMA, LEAF.fields) == {2}
  {
    hide FieldsIndices, ItemsIndices;
    NoIndices();
    var fs := LEAF.fields;
    for i := 0 to 6
      invariant FieldsIndices(SCHEMA, fs[..i]) == if i == 0 then {} else {2}
    {
      MoreIndices(fs[..i], fs[i], [], NoItem);
      assert fs[..i] + [fs[i]] == fs[..i + 1];
    }
    assert fs[..6] == fs;
  }

  lemma UsedStrings()
    ensures Indices(SCHEMA, TREE, [20, 21]) == {2, 3} && Ascending({2, 3}) == [2, 3]
  {
    hide FieldsIndices;
    var order := [20, 21];
    assert order[..1] == [20] && [20][..0] == [];
    BlockStrings();
    LeafStrings();
    assert Indices(SCHEMA, TREE, []) == {};
    assert Indices(SCHEMA, TREE, [20]) == {3};
    AscendingStep({2, 3}, 2);
    assert {2, 3} - {2} == {3};
    AscendingStep({3}, 3);
    assert {3} - {3} == {};
  }

  const HEADER: seq<byte> := ['M' as byte, 'P' as byte, 'L' as byte, 0xac, 2]
  const ENTRIES: seq<byte> := ['N' as byte, 0, 20, 'N' as byte, 1, 21]
  const STRINGS: seq<byte> := ['T' as byte, 2, 2, 'S' as byte, 3, 104, 105, 0, 3, 'S' as byte, 2, 97, 0]
  const BLOCK_BODY: seq<byte> := [0, 20, 0x7f, 3, 'L' as byte, 2, 21, 0x7f]
  const LEAF_BODY: seq<byte> := [1, 21, 20, 9, 2] + TEXT + REG + [1, 0x7f]

  lemma StoredBytes()
    ensures Stored(SCHEMA, TREE, [20, 21]) == HEADER + ENTRIES + STRINGS + (BLOCK_BODY + LEAF_BODY)
  {
    hide Encode, Body, Entry, Indices, Ascending, StringTable, Flat;
    BlockBytes();
    LeafBytes();
    UsedStrings();
    TableBytes();
    var order := [20, 21];
    assert Entries(TREE, order) == [Entry(20, BLOCK), Entry(21, LEAF)];
    Flat2(Entry(20, BLOCK), Entry(21, LEAF));
    assert Entry(20, BLOCK) + Entry(21, LEAF) == ENTRIES;
    assert Bodies(TREE, order) == [Body(20, BLOCK), Body(21, LEAF)];
    Flat2(Body(20, BLOCK), Body(21, LEAF));
    assert Header(SCHEMA) == ['M' as byte, 'P' as byte, 'L' as byte] + [0xac, 2] == HEADER by { Digits(); }
  }

  lemma TableBytes()
    ensures StringTable(TREE.pool, [2, 3]) == STRINGS
  {
    hide Encode;
    Digits();
    var pool := TREE.pool;
    assert EncodeText(Some(pool[2])) == ['S' as byte] + [3] + [104, 105] + [0];
    assert EncodeText(Some(pool[3])) == ['S' as byte] + [2] + [97] + [0];
    var s2, s3 := [2, 'S' as byte, 3, 104, 105, 0], [3, 'S' as byte, 2, 97, 0];
    assert [2] + EncodeText(Some(pool[2])) == s2 && [3] + EncodeText(Some(pool[3])) == s3;
    assert StringParts(pool, [2, 3]) == [s2, s3];
    Flat2(s2, s3);
  }
}
