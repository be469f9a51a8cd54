/** The form of what loads: a buffer from which a module is loaded starts with the module's tags, the
    signature of the schema, a node table, a string table and one body for each node, in this order. */
module AstFormat {
  import opened Options
  import opened Leb128
  import opened AstData
  import opened AstReading

  // -------- Forms

  predicate IsNumber(bs: seq<byte>, x: int) {
    Decode(bs) == Got(x, [])
  }

  ghost predicate HasNumber(bs: seq<byte>) {
    exists x :: IsNumber(bs, x)
  }

  // A tag, a length, and as many characters as it says.
  ghost predicate TextAt(bs: seq<byte>, len: nat, num: seq<byte>, chars: seq<byte>) {
    bs == ['S' as byte] + num + chars && IsNumber(num, len) && |chars| == len
  }

  ghost predicate IsText(bs: seq<byte>) {
    exists len: nat, num, chars :: TextAt(bs, len, num, chars)
  }

  ghost predicate TwoTexts(bs: seq<byte>, u: seq<byte>, v: seq<byte>) {
    bs == u + v && IsText(u) && IsText(v)
  }

  ghost predicate TwoNumbers(bs: seq<byte>, u: seq<byte>, v: seq<byte>) {
    bs == u + v && HasNumber(u) && HasNumber(v)
  }

  ghost predicate IsItem(t: ItemType, bs: seq<byte>) {
    match t
    case Scope => bs == []
    case CharStar => IsText(bs)
    case RegExpr => exists u, v :: TwoTexts(bs, u, v)
    case Literal => exists u, v :: TwoNumbers(bs, u, v)
    case _ => HasNumber(bs)
  }

  // A tag, a length, and as many items as it says.
  ghost predicate ListAt(t: ItemType, bs: seq<byte>, len: int, num: seq<byte>, parts: seq<seq<byte>>) {
    && bs == ['L' as byte] + num + Flat(parts) && IsNumber(num, len) && |parts| == len % UINT32_END
    && forall i :: 0 <= i < |parts| ==> IsItem(t, parts[i])
  }

  ghost predicate IsField(t: FieldType, bs: seq<byte>) {
    match t
    case One(i) => IsItem(i, bs)
    case Many(i) => exists len, num, parts :: ListAt(i, bs, len, num, parts)
  }

  // Kind, id and parent, then the fields of the kind.
  ghost predicate BodyAt(types: seq<FieldType>, bs: seq<byte>, kind: seq<byte>, id: seq<byte>, parent: seq<byte>, parts: seq<seq<byte>>) {
    && bs == kind + id + parent + Flat(parts) && HasNumber(kind) && HasNumber(id) && HasNumber(parent)
    && |parts| == |types| && forall i :: 0 <= i < |parts| ==> IsField(types[i], parts[i])
  }

  ghost predicate IsBody(types: seq<FieldType>, bs: seq<byte>) {
    exists kind, id, parent, parts :: BodyAt(types, bs, kind, id, parent, parts)
  }

  ghost predicate EntryAt(bs: seq<byte>, kind: nat, num: seq<byte>, id: seq<byte>) {
    bs == ['N' as byte] + num + id && IsNumber(num, kind) && HasNumber(id)
  }

  ghost predicate IsEntry(bs: seq<byte>, kind: nat) {
    exists num, id :: EntryAt(bs, kind, num, id)
  }

  ghost predicate NamedText(bs: seq<byte>, id: seq<byte>, text: seq<byte>) {
    bs == id + text && HasNumber(id) && IsText(text)
  }

  ghost predicate IsStringEntry(bs: seq<byte>) {
    exists id, text :: NamedText(bs, id, text)
  }

  datatype Parts = Parts(sig: seq<byte>, entries: seq<seq<byte>>, num: seq<byte>, strings: seq<seq<byte>>, bodies: seq<seq<byte>>)

  function Joined(p: Parts): seq<byte> {
    ['M' as byte, 'P' as byte, 'L' as byte] + p.sig + Flat(p.entries) + (['T' as byte] + p.num) + Flat(p.strings) + Flat(p.bodies)
  }

  ghost predicate IsModule(s: Schema, nodes: seq<Node>, p: Parts) {
    && IsNumber(p.sig, s.signature)
    && (exists n :: IsNumber(p.num, n) && |p.strings| == if n < 0 then 0 else n)
    && nodes != [] && |p.entries| == |p.bodies| == |nodes|
    && (forall i :: 0 <= i < |p.strings| ==> IsStringEntry(p.strings[i]))
    && forall i :: 0 <= i < |nodes| ==>
         nodes[i].kind < |s.kinds| && IsEntry(p.entries[i], nodes[i].kind) && IsBody(s.kinds[nodes[i].kind], p.bodies[i])
  }

  // -------- Reading takes such parts off the front

  lemma {:induction false} NumberFrom(bs: seq<byte>, n: nat, y: int)
    requires DecodeFrom(bs, n, y).Got?
    ensures var Got(x, rest) := DecodeFrom(bs, n, y);
            var k := |bs| - |rest|;
            bs[k..] == rest && DecodeFrom(bs[..k], n, y) == Got(x, [])
    decreases |bs|
  {
    hide ToInt64, Pow2;
    var Got(x, rest) := DecodeFrom(bs, n, y);
    var k := |bs| - |rest|;
    if bs[0] >= 128 {
      NumberFrom(bs[1..], n + 7, ToInt64(y + (bs[0] - 128) * Pow2(n)));
      assert bs[..k][1..] == bs[1..][..k - 1];
    } else {
      assert bs[..k][1..] == [];
    }
  }

  lemma NumberOf(bs: seq<byte>) returns (num: seq<byte>)
    requires Decode(bs).Got?
    ensures bs == num + Decode(bs).rest && IsNumber(num, Decode(bs).value)
  {
    NumberFrom(bs, 0, 0);
    num := bs[..|bs| - |Decode(bs).rest|];
  }

  lemma TextOf(bs: seq<byte>, pool: seq<CString>) returns (part: seq<byte>)
    requires |pool| >= 1 && ReadText(bs, pool).Got?
    ensures bs == part + ReadText(bs, pool).rest && IsText(part)
  {
    hide Decode, Intern;
    var num := NumberOf(bs[1..]);
    var Got(len, rest) := Decode(bs[1..]);
    var chars := rest[..len];
    part := ['S' as byte] + num + chars;
    assert rest == chars + rest[len..];
    assert TextAt(part, len, num, chars);
    assert bs == [bs[0]] + bs[1..];
  }

  lemma ItemOf(s: Schema, t: ItemType, bs: seq<byte>, r: Renumber, pool: seq<CString>) returns (part: seq<byte>)
    requires |pool| >= 1 && ReadItem(s, t, bs, r, pool).Got?
    ensures bs == part + ReadItem(s, t, bs, r, pool).rest && IsItem(t, part)
  {
    hide Decode, ReadText, IsNumber;
    match t {
      case Scope => part := [];
      case CharStar => part := TextOf(bs, pool);
      case RegExpr =>
        var p := ReadText(bs, pool);
        var u := TextOf(bs, pool);
        var v := TextOf(p.rest, p.value.1);
        part := u + v;
        assert TwoTexts(part, u, v);
      case Literal =>
        var u := NumberOf(bs);
        var v := NumberOf(Decode(bs).rest);
        part := u + v;
        assert TwoNumbers(part, u, v);
      case _ => part := NumberOf(bs);
    }
  }

  lemma FlatCons(x: seq<byte>, parts: seq<seq<byte>>, rest: seq<byte>)
    ensures Flat([x] + parts) == x + Flat(parts) && x + (Flat(parts) + rest) == Flat([x] + parts) + rest
  {
    assert ([x] + parts)[1..] == parts;
  }

  lemma {:induction false} ItemsOf(s: Schema, t: ItemType, n: nat, bs: seq<byte>, r: Renumber, pool: seq<CString>, acc: seq<Item>)
      returns (parts: seq<seq<byte>>)
    requires |pool| >= 1 && ReadItems(s, t, n, bs, r, pool, acc).Got?
    ensures bs == Flat(parts) + ReadItems(s, t, n, bs, r, pool, acc).rest && |parts| == n
    ensures forall i :: 0 <= i < |parts| ==> IsItem(t, parts[i])
    decreases n
  {
    hide ReadItem, IsItem;
    if n == 0 {
      parts := [];
    } else {
      var x := ItemOf(s, t, bs, r, pool);
      var p := ReadItem(s, t, bs, r, pool);
      var more := ItemsOf(s, t, n - 1, p.rest, r, p.value.1, acc + [p.value.0]);
      FlatCons(x, more, ReadItems(s, t, n, bs, r, pool, acc).rest);
      parts := [x] + more;
    }
  }

  lemma FieldOf(s: Schema, t: FieldType, bs: seq<byte>, r: Renumber, pool: seq<CString>) returns (part: seq<byte>)
    requires |pool| >= 1 && ReadField(s, t, bs, r, pool).Got?
    ensures bs == part + ReadField(s, t, bs, r, pool).rest && IsField(t, part)
  {
    hide Decode, ReadItem, ReadItems, IsItem;
    match t {
      case One(i) => part := ItemOf(s, i, bs, r, pool);
      case Many(i) =>
        var num := NumberOf(bs[1..]);
        var Got(n, rest) := Decode(bs[1..]);
        var parts := ItemsOf(s, i, n % UINT32_END, rest, r, pool, []);
        part := ['L' as byte] + num + Flat(parts);
        assert ListAt(i, part, n, num, parts);
        assert bs == [bs[0]] + bs[1..];
    }
  }

  lemma {:induction false} FieldsOf(s: Schema, types: seq<FieldType>, bs: seq<byte>, r: Renumber, pool: seq<CString>, nodes: seq<Node>, k: nat)
      returns (parts: seq<seq<byte>>)
    requires |pool| >= 1 && k < |nodes| && ReadFields(s, types, bs, r, pool, nodes, k).Got?
    ensures bs == Flat(parts) + ReadFields(s, types, bs, r, pool, nodes, k).rest && |parts| == |types|
    ensures forall i :: 0 <= i < |parts| ==> IsField(types[i], parts[i])
    decreases |types|
  {
    hide ReadField, IsField, AdoptField;
    if types == [] {
      parts := [];
    } else {
      var x := FieldOf(s, types[0], bs, r, pool);
      var p := ReadField(s, types[0], bs, r, pool);
      var nodes' := nodes[k := nodes[k].(fields := nodes[k].fields + [p.value.0])];
      var more := FieldsOf(s, types[1..], p.rest, r, p.value.1, AdoptField(s, nodes', types[0], p.value.0, k), k);
      FlatCons(x, more, ReadFields(s, types, bs, r, pool, nodes, k).rest);
      parts := [x] + more;
    }
  }

  lemma BodyOf(s: Schema, bs: seq<byte>, r: Renumber, pool: seq<CString>, nodes: seq<Node>, k: nat) returns (part: seq<byte>)
    requires |pool| >= 1 && k < |nodes| && nodes[k].kind < |s.kinds| && ReadBody(s, bs, r, pool, nodes, k).Got?
    ensures bs == part + ReadBody(s, bs, r, pool, nodes, k).rest && IsBody(s.kinds[nodes[k].kind], part)
  {
    hide Decode, ReadFields, IsField, IsNumber;
    var kind := NumberOf(bs);
    var bs1 := Decode(bs).rest;
    var id := NumberOf(bs1);
    var bs2 := Decode(bs1).rest;
    var parent := NumberOf(bs2);
    var Got(n, bs3) := Decode(bs2);
    var types := s.kinds[nodes[k].kind];
    var parts := FieldsOf(s, types, bs3, r, pool, nodes[k := nodes[k].(parent := NewRef(r, n))], k);
    part := kind + id + parent + Flat(parts);
    assert BodyAt(types, part, kind, id, parent, parts);
  }

  lemma {:induction false} BodiesOf(s: Schema, bs: seq<byte>, r: Renumber, pool: seq<CString>, nodes: seq<Node>, k: nat)
      returns (parts: seq<seq<byte>>)
    requires |pool| >= 1 && k <= |nodes| && KindsOK(s, nodes) && ReadBodies(s, bs, r, pool, nodes, k).Got?
    ensures bs == Flat(parts) + ReadBodies(s, bs, r, pool, nodes, k).rest && |parts| == |nodes| - k
    ensures forall i :: 0 <= i < |parts| ==> IsBody(s.kinds[nodes[k + i].kind], parts[i])
    decreases |nodes| - k
  {
    hide ReadBody, IsBody;
    if k == |nodes| {
      parts := [];
    } else {
      var x := BodyOf(s, bs, r, pool, nodes, k);
      var p := ReadBody(s, bs, r, pool, nodes, k);
      var more := BodiesOf(s, p.rest, r, p.value.1, p.value.0, k + 1);
      FlatCons(x, more, ReadBodies(s, bs, r, pool, nodes, k).rest);
      parts := [x] + more;
      forall i | 0 <= i < |parts|
        ensures IsBody(s.kinds[nodes[k + i].kind], parts[i])
      {
        if i > 0 { assert parts[i] == more[i - 1] && nodes[k + i].kind == p.value.0[k + 1 + (i - 1)].kind; }
      }
    }
  }

  lemma EntryOf(s: Schema, bs: seq<byte>) returns (part: seq<byte>, kind: int, rest: seq<byte>)
    requires ReadTagged('N' as byte, bs).Got? && Decode(ReadTagged('N' as byte, bs).rest).Got?
    requires ReadTagged('N' as byte, bs).value >= 0
    ensures kind == ReadTagged('N' as byte, bs).value && rest == Decode(ReadTagged('N' as byte, bs).rest).rest
    ensures bs == part + rest && kind >= 0 && IsEntry(part, kind)
  {
    hide Decode, IsNumber;
    var num := NumberOf(bs[1..]);
    kind := Decode(bs[1..]).value;
    var id := NumberOf(Decode(bs[1..]).rest);
    rest := Decode(Decode(bs[1..]).rest).rest;
    part := ['N' as byte] + num + id;
    assert EntryAt(part, kind, num, id);
    assert bs == [bs[0]] + bs[1..];
  }

  // The table's entries, and the nodes they made; it ends before a 'T'.
  lemma {:induction false} NodesOf(s: Schema, bs: seq<byte>, nodes: seq<Node>, nodeMap: map<nat, nat>) returns (parts: seq<seq<byte>>)
    requires KindsOK(s, nodes) && ReadNodes(s, bs, nodes, nodeMap).Got?
    ensures var Got((nodes', _), rest) := ReadNodes(s, bs, nodes, nodeMap);
            && bs == Flat(parts) + rest && |nodes'| == |nodes| + |parts| && nodes <= nodes'
            && forall i :: 0 <= i < |parts| ==> IsEntry(parts[i], nodes'[|nodes| + i].kind)
    decreases |bs|
  {
    hide Decode, ReadTagged, IsEntry;
    if bs[0] == 'T' as byte {
      parts := [];
    } else {
      var x, kind, rest := EntryOf(s, bs);
      var id := Decode(ReadTagged('N' as byte, bs).rest).value;
      var nodes1 := nodes + [Node(kind, None, [])];
      var more := NodesOf(s, rest, nodes1, nodeMap[id % UINT32_END := |nodes|]);
      FlatCons(x, more, ReadNodes(s, bs, nodes, nodeMap).rest);
      parts := [x] + more;
      var nodes' := ReadNodes(s, bs, nodes, nodeMap).value.0;
      assert nodes'[|nodes|] == nodes1[|nodes|];
      forall i | 0 <= i < |parts|
        ensures IsEntry(parts[i], nodes'[|nodes| + i].kind)
      {
        if i > 0 { assert parts[i] == more[i - 1] && nodes'[|nodes| + i] == nodes'[|nodes1| + (i - 1)]; }
      }
    }
  }

  lemma StringOf(bs: seq<byte>, pool: seq<CString>) returns (part: seq<byte>)
    requires |pool| >= 1 && Decode(bs).Got? && ReadText(Decode(bs).rest, pool).Got?
    ensures bs == part + ReadText(Decode(bs).rest, pool).rest && IsStringEntry(part)
  {
    hide Decode, ReadText, IsText, IsNumber;
    var id := NumberOf(bs);
    var text := TextOf(Decode(bs).rest, pool);
    part := id + text;
    assert NamedText(part, id, text);
  }

  lemma {:induction false} StringsOf(n: int, bs: seq<byte>, pool: seq<CString>, strMap: map<nat, nat>) returns (parts: seq<seq<byte>>)
    requires |pool| >= 1 && ReadStrings(n, bs, pool, strMap).Got?
    ensures bs == Flat(parts) + ReadStrings(n, bs, pool, strMap).rest && |parts| == if n < 0 then 0 else n
    ensures forall i :: 0 <= i < |parts| ==> IsStringEntry(parts[i])
    decreases if n < 0 then 0 else n
  {
    hide Decode, ReadText, Intern, IsStringEntry, Flat;
    if n <= 0 {
      parts := [];
      assert Flat(parts) == [] by { NoParts(); }
    } else {
      var x := StringOf(bs, pool);
      var id := Decode(bs).value;
      var p := ReadText(Decode(bs).rest, pool);
      var q := Intern(p.value.1, p.value.0.value);
      var strMap' := strMap[id % UINT32_END := q.0];
      assert ReadStrings(n, bs, pool, strMap) == ReadStrings(n - 1, p.rest, q.1, strMap');
      var more := StringsOf(n - 1, p.rest, q.1, strMap');
      FlatCons(x, more, ReadStrings(n, bs, pool, strMap).rest);
      parts := [x] + more;
    }
  }

  lemma NoParts()
    ensures Flat([]) == []
  {
  }

  // -------- The theorem

  // What loads has the form of a module, with an entry and a body for each node loaded; nothing behind
  // it is read.
  lemma LoadedHasForm(s: Schema, bs: seq<byte>, pool: seq<CString>) returns (p: Parts)
    requires |pool| >= 1 && NextModule(s, bs, pool).Module?
    ensures var Module(nodes, _, rest) := NextModule(s, bs, pool);
            IsModule(s, nodes, p) && bs == Joined(p) + rest
  {
    hide Decode, ReadNodes, ReadStrings, ReadBodies, IsEntry, IsBody, IsStringEntry, IsNumber, Flat, Joined;
    var bs3 := bs[2..][1..];
    var sig := NumberOf(bs3);
    var bs4 := Decode(bs3).rest;
    var entries := NodesOf(s, bs4, [], map[]);
    var Got((nodes, nodeMap), bs5) := ReadNodes(s, bs4, [], map[]);
    var num, strings, bodies := TablesOf(s, bs5, nodes, nodeMap, pool);
    p := Parts(sig, entries, num, strings, bodies);
    var rest := NextModule(s, bs, pool).rest;
    assert bs == ['M' as byte, 'P' as byte, 'L' as byte] + bs3;
    Join(p, rest);
  }

  // The string table and the bodies.
  lemma TablesOf(s: Schema, bs: seq<byte>, nodes: seq<Node>, nodeMap: map<nat, nat>, pool: seq<CString>)
      returns (num: seq<byte>, strings: seq<seq<byte>>, bodies: seq<seq<byte>>)
    requires |pool| >= 1 && KindsOK(s, nodes) && ReadTagged('T' as byte, bs).Got?
    requires var Got(n, bs') := ReadTagged('T' as byte, bs);
             ReadStrings(n, bs', pool, map[]).Got?
             && var Got((strMap, pool'), bs'') := ReadStrings(n, bs', pool, map[]);
             ReadBodies(s, bs'', Renumber(strMap, nodeMap), pool', nodes, 0).Got?
    ensures var Got(n, bs') := ReadTagged('T' as byte, bs);
            var Got((strMap, pool'), bs'') := ReadStrings(n, bs', pool, map[]);
            && bs == ['T' as byte] + num + (Flat(strings) + (Flat(bodies) + ReadBodies(s, bs'', Renumber(strMap, nodeMap), pool', nodes, 0).rest))
            && IsNumber(num, n) && |strings| == (if n < 0 then 0 else n) && |bodies| == |nodes|
    ensures forall i :: 0 <= i < |strings| ==> IsStringEntry(strings[i])
    ensures forall i :: 0 <= i < |bodies| ==> IsBody(s.kinds[nodes[i].kind], bodies[i])
  {
    hide Decode, ReadStrings, ReadBodies, IsBody, IsStringEntry, IsNumber, Flat;
    num := NumberOf(bs[1..]);
    var Got(n, bs') := Decode(bs[1..]);
    strings := StringsOf(n, bs', pool, map[]);
    var Got((strMap, pool'), bs'') := ReadStrings(n, bs', pool, map[]);
    bodies := BodiesOf(s, bs'', Renumber(strMap, nodeMap), pool', nodes, 0);
    assert bs == ['T' as byte] + bs[1..];
  }

  lemma Join(p: Parts, rest: seq<byte>)
    ensures ['M' as byte, 'P' as byte, 'L' as byte] + (p.sig + (Flat(p.entries) + (['T' as byte] + p.num
              + (Flat(p.strings) + (Flat(p.bodies) + rest))))) == Joined(p) + rest
  {
    hide Flat;
  }
}
