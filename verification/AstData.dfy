/** Nodes of an abstract syntax tree, described by a schema of the fields each kind has, and the
    bytes they are stored as. */
module AstData {
  import opened Options
  import opened Graphs
  import opened Leb128

  datatype Width = Bool | UInt32 | Int32 | Int64 | UInt64

  // What a field or list element is. A child's setter may also make the node the child's parent.
  datatype ItemType = Child(adopts: bool) | Scalar(width: Width) | StringIndex | Literal | CharStar | RegExpr | Scope

  datatype FieldType = One(t: ItemType) | Many(t: ItemType)

  // The fields of each kind of node: those all nodes have, after the parent, then its own. The
  // signature tells schemas apart.
  datatype Schema = Schema(kinds: seq<seq<FieldType>>, primType: nat, stringLiteral: nat, signature: int)

  // Characters up to, and without, the closing null character.
  type CString = seq<byte>

  datatype Item = Ref(target: Option<nat>) | Num(v: int) | Name(idx: nat) | Lit(ty: nat, raw: int)
                | Text(s: Option<CString>) | Reg(expr: Option<CString>, flags: Option<CString>) | NoItem

  datatype Field = Single(item: Item) | List(items: seq<Item>)

  datatype Node = Node(kind: nat, parent: Option<nat>, fields: seq<Field>)

  // Nodes by their ids, and the strings by their indices; index 0 stands for no string.
  datatype Ast = Ast(root: nat, nodes: map<nat, Node>, pool: seq<CString>)

  const UINT32_END: nat := 0x1_0000_0000

  // -------- Well-formed trees

  predicate InRange(w: Width, v: int) {
    match w
    case Bool => 0 <= v <= 1
    case UInt32 => 0 <= v < UINT32_END
    case Int32 => -0x8000_0000 <= v < 0x8000_0000
    case Int64 => IsInt64(v)
    case UInt64 => 0 <= v < TWO_TO_THE_64
  }

  predicate ValidString(s: CString) {
    0 !in s && |s| < INT64_MAX
  }

  predicate ValidText(s: Option<CString>) {
    s.Some? ==> ValidString(s.value)
  }

  predicate ValidIndex(a: Ast, idx: nat) {
    idx < UINT32_END && (idx == 0 || (idx < |a.pool| && ValidString(a.pool[idx])))
  }

  // The string index in a literal is the low half of its data.
  function LitIndex(raw: int): nat {
    raw % UINT32_END
  }

  predicate ValidItem(s: Schema, a: Ast, t: ItemType, x: Item) {
    match t
    case Child(_) => x.Ref? && (x.target.Some? ==> x.target.value in a.nodes)
    case Scalar(w) => x.Num? && InRange(w, x.v)
    case StringIndex => x.Name? && ValidIndex(a, x.idx)
    case Literal => x.Lit? && x.ty < UINT32_END && IsInt64(x.raw) && (x.ty == s.stringLiteral ==> ValidIndex(a, LitIndex(x.raw)))
    case CharStar => x.Text? && ValidText(x.s)
    case RegExpr => x.Reg? && ValidText(x.expr) && ValidText(x.flags)
    case Scope => x.NoItem?
  }

  predicate ValidField(s: Schema, a: Ast, t: FieldType, f: Field) {
    match t
    case One(i) => f.Single? && ValidItem(s, a, i, f.item)
    case Many(i) => f.List? && |f.items| < UINT32_END && forall k :: 0 <= k < |f.items| ==> ValidItem(s, a, i, f.items[k])
  }

  predicate ValidNode(s: Schema, a: Ast, n: Node) {
    && n.kind < |s.kinds| && |n.fields| == |s.kinds[n.kind]|
    && (n.parent.Some? ==> n.parent.value < UINT32_END)
    && forall i :: 0 <= i < |n.fields| ==> ValidField(s, a, s.kinds[n.kind][i], n.fields[i])
  }

  predicate ValidSchema(s: Schema) {
    |s.kinds| < UINT32_END && IsInt64(s.signature)
  }

  predicate ValidAst(s: Schema, a: Ast) {
    && ValidSchema(s) && a.root in a.nodes
    && forall id :: id in a.nodes ==> id < UINT32_END && ValidNode(s, a, a.nodes[id])
  }

  // -------- Bytes

  function Flat(parts: seq<seq<byte>>): seq<byte> {
    if parts == [] then [] else parts[0] + Flat(parts[1..])
  }

  lemma {:induction false} FlatSnoc(parts: seq<seq<byte>>, last: seq<byte>)
    ensures Flat(parts + [last]) == Flat(parts) + last
  {
    if parts == [] {
      assert parts + [last] == [last];
      assert [last][1..] == [];
    } else {
      assert (parts + [last])[1..] == parts[1..] + [last];
      FlatSnoc(parts[1..], last);
    }
  }

  function EncodeText(s: Option<CString>): seq<byte> {
    match s
    case None => ['S' as byte] + Encode(0)
    case Some(cs) => ['S' as byte] + Encode(|cs| + 1) + cs + [0]
  }

  function EncodeRef(target: Option<nat>): seq<byte> {
    match target
    case None => Encode(-1)
    case Some(id) => Encode(id)
  }

  function EncodeItem(x: Item): seq<byte> {
    match x
    case Ref(target) => EncodeRef(target)
    case Num(v) => Encode(ToInt64(v))
    case Name(idx) => Encode(idx)
    case Lit(ty, raw) => Encode(ty) + Encode(raw)
    case Text(s) => EncodeText(s)
    case Reg(e, f) => EncodeText(e) + EncodeText(f)
    case NoItem => []
  }

  function ItemParts(items: seq<Item>): (r: seq<seq<byte>>)
    ensures |r| == |items| && forall i :: 0 <= i < |r| ==> r[i] == EncodeItem(items[i])
  {
    seq(|items|, i requires 0 <= i < |items| => EncodeItem(items[i]))
  }

  function EncodeField(f: Field): seq<byte> {
    match f
    case Single(x) => EncodeItem(x)
    case List(items) => ['L' as byte] + Encode(|items|) + Flat(ItemParts(items))
  }

  function FieldParts(fields: seq<Field>): (r: seq<seq<byte>>)
    ensures |r| == |fields| && forall i :: 0 <= i < |r| ==> r[i] == EncodeField(fields[i])
  {
    seq(|fields|, i requires 0 <= i < |fields| => EncodeField(fields[i]))
  }

  // The entry of a node in the node table, and its body.
  function Entry(id: nat, n: Node): seq<byte> {
    ['N' as byte] + Encode(n.kind) + Encode(id)
  }

  function Body(id: nat, n: Node): seq<byte> {
    Encode(n.kind) + Encode(id) + EncodeRef(n.parent) + Flat(FieldParts(n.fields))
  }

  function Entries(a: Ast, order: seq<nat>): (r: seq<seq<byte>>)
    requires forall id :: id in order ==> id in a.nodes
    ensures |r| == |order| && forall i :: 0 <= i < |r| ==> r[i] == Entry(order[i], a.nodes[order[i]])
  {
    seq(|order|, i requires 0 <= i < |order| => Entry(order[i], a.nodes[order[i]]))
  }

  function Bodies(a: Ast, order: seq<nat>): (r: seq<seq<byte>>)
    requires forall id :: id in order ==> id in a.nodes
    ensures |r| == |order| && forall i :: 0 <= i < |r| ==> r[i] == Body(order[i], a.nodes[order[i]])
  {
    seq(|order|, i requires 0 <= i < |order| => Body(order[i], a.nodes[order[i]]))
  }

  // -------- The string table

  function ItemIndices(s: Schema, x: Item): set<nat> {
    match x
    case Name(idx) => if idx != 0 then {idx} else {}
    case Lit(ty, raw) => if ty == s.stringLiteral && LitIndex(raw) != 0 then {LitIndex(raw)} else {}
    case _ => {}
  }

  function ItemsIndices(s: Schema, items: seq<Item>): set<nat> {
    if items == [] then {} else ItemsIndices(s, items[..|items| - 1]) + ItemIndices(s, items[|items| - 1])
  }

  function FieldIndices(s: Schema, f: Field): set<nat> {
    if f.Single? then ItemIndices(s, f.item) else ItemsIndices(s, f.items)
  }

  function FieldsIndices(s: Schema, fields: seq<Field>): set<nat> {
    if fields == [] then {} else FieldsIndices(s, fields[..|fields| - 1]) + FieldIndices(s, fields[|fields| - 1])
  }

  // The string indices used by the nodes of `order`.
  function Indices(s: Schema, a: Ast, order: seq<nat>): set<nat>
    requires forall id :: id in order ==> id in a.nodes
  {
    if order == [] then {}
    else Indices(s, a, order[..|order| - 1]) + FieldsIndices(s, a.nodes[order[|order| - 1]].fields)
  }

  predicate IsLeast(s: set<nat>, x: nat) {
    x in s && forall y :: y in s ==> x <= y
  }

  lemma {:induction false} LeastExists(s: set<nat>)
    requires s != {}
    ensures exists x :: IsLeast(s, x)
  {
    var x :| x in s;
    if s == {x} {
      assert IsLeast(s, x);
    } else {
      LeastExists(s - {x});
      var z :| IsLeast(s - {x}, z);
      assert forall y :: y in s ==> y == x || y in s - {x};
      assert IsLeast(s, if z < x then z else x);
    }
  }

  // A set in ascending order.
  ghost function Ascending(s: set<nat>): seq<nat> {
    if s == {} then []
    else
      LeastExists(s);
      var x :| IsLeast(s, x);
      [x] + Ascending(s - {x})
  }

  lemma AscendingStep(s: set<nat>, x: nat)
    requires IsLeast(s, x)
    ensures Ascending(s) == [x] + Ascending(s - {x})
  {
  }

  lemma {:induction false} AscendingIs(s: set<nat>)
    ensures forall x :: x in Ascending(s) <==> x in s
    ensures |Ascending(s)| == |s|
  {
    if s != {} {
      LeastExists(s);
      var x :| IsLeast(s, x);
      AscendingStep(s, x);
      AscendingIs(s - {x});
    }
  }

  function StringParts(pool: seq<CString>, ids: seq<nat>): (r: seq<seq<byte>>)
    ensures |r| == |ids| && forall i :: 0 <= i < |r| ==>
              r[i] == if ids[i] < |pool| then Encode(ids[i]) + EncodeText(Some(pool[ids[i]])) else []
  {
    seq(|ids|, i requires 0 <= i < |ids| => if ids[i] < |pool| then Encode(ids[i]) + EncodeText(Some(pool[ids[i]])) else [])
  }

  function StringTable(pool: seq<CString>, ids: seq<nat>): seq<byte> {
    ['T' as byte] + Encode(|ids|) + Flat(StringParts(pool, ids))
  }

  function Header(s: Schema): seq<byte> {
    ['M' as byte, 'P' as byte, 'L' as byte] + Encode(s.signature)
  }

  // A whole module: header, node table, string table, node bodies.
  ghost function Stored(s: Schema, a: Ast, order: seq<nat>): seq<byte>
    requires forall id :: id in order ==> id in a.nodes
  {
    Header(s) + Flat(Entries(a, order)) + StringTable(a.pool, Ascending(Indices(s, a, order))) + Flat(Bodies(a, order))
  }
}
