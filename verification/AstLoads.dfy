/** Loading modules from a buffer, one call of Next at a time. */
module AstLoads {
  import opened Options
  import opened Graphs
  import opened Leb128
  import opened AstData
  import opened AstReading
  import opened AstFormat
  import opened AstRoundTrip
  import opened AstModules

  // A reading method has done what the reading function says.
  predicate Did<T(==)>(p: Parse<T>, ok: bool, v: T, rest: seq<byte>) {
    match p
    case Bad => !ok
    case Got(value, left) => ok && v == value && rest == left
  }

  class AstLoad {
    const mSchema: Schema
    const mBuf: seq<byte>
    var it: nat
    var mStrMap: map<nat, nat>    // string indices in the buffer to string indices
    var mNodeMap: map<nat, nat>   // node ids in the buffer to nodes
    var mNodes: seq<Node>         // the nodes created for the module being loaded
    var mPool: seq<CString>       // the string pool

    constructor (s: Schema, buf: seq<byte>, pool: seq<CString>)
      requires |pool| >= 1
      ensures mSchema == s && mBuf == buf && mPool == pool && Ready() && Rest() == buf
    {
      mSchema, mBuf, mPool := s, buf, pool;
      it, mStrMap, mNodeMap, mNodes := 0, map[], map[], [];
    }

    ghost predicate Valid()
      reads this`it, this`mPool
    {
      it <= |mBuf| && |mPool| >= 1
    }

    ghost predicate Ready()
      reads this`it, this`mPool, this`mStrMap, this`mNodeMap
    {
      Valid() && mStrMap == map[] && mNodeMap == map[]
    }

    ghost function Rest(): seq<byte>
      requires Valid()
      reads this`it, this`mPool
    {
      mBuf[it..]
    }

    // A number, behind its tag unless that is left out.
    method ReadNum(tag: byte) returns (ok: bool, x: int)
      requires Valid()
      modifies this`it
      ensures Valid() && Did(ReadTagged(tag, old(Rest())), ok, x, Rest())
    {
      hide Decode;
      if tag != 'A' as byte && tag != 'V' as byte {
        if it == |mBuf| || mBuf[it] != tag { return false, 0; }
        assert mBuf[it..][1..] == mBuf[it + 1..];
        it := it + 1;
      }
      ok, x := ReadGroups();
    }

    // Seven bits from each byte, low bits first.
    method ReadGroups() returns (ok: bool, x: int)
      requires Valid()
      modifies this`it
      ensures Valid() && Did(Decode(old(Rest())), ok, x, Rest())
    {
      hide Pow2, ToInt64, SignedBits, DecodeFrom;
      ghost var bs := Rest();
      var n: nat, y: int := 0, 0;
      DecodeByte(bs, 0, 0);
      if it == |mBuf| { return false, 0; }
      var b := mBuf[it];
      while b >= 0x80
        invariant Valid() && it < |mBuf| && b == mBuf[it] && n < 64
        invariant DecodeFrom(Rest(), n, y) == DecodeFrom(bs, 0, 0)
        decreases |mBuf| - it
      {
        DecodeByte(Rest(), n, y);
        y := ToInt64(y + (b - 0x80) * Pow2(n));
        n := n + 7;
        assert mBuf[it..][1..] == mBuf[it + 1..];
        it := it + 1;
        if it == |mBuf| || n >= 64 {
          DecodeByte(Rest(), n, y);
          return false, 0;
        }
        b := mBuf[it];
      }
      DecodeByte(Rest(), n, y);
      assert mBuf[it..][1..] == mBuf[it + 1..];
      it := it + 1;
      return true, ToInt64(y + SignedBits(b) * Pow2(n));
    }

    // Null for -1, and for an id that no node was created for.
    method ReadAddress() returns (ok: bool, t: Option<nat>)
      requires Valid()
      modifies this`it
      ensures Valid()
      ensures match Decode(old(Rest()))
              case Bad => !ok
              case Got(n, rest) => ok && t == NewRef(Renumber(mStrMap, mNodeMap), n) && Rest() == rest
    {
      hide Decode;
      var good, n := ReadNum('A' as byte);
      if !good { return false, None; }
      var id: nat := n % UINT32_END;
      return true, if n != -1 && id in mNodeMap then Some(mNodeMap[id]) else None;
    }

    method ReadValue() returns (ok: bool, n: int)
      requires Valid()
      modifies this`it
      ensures Valid() && Did(Decode(old(Rest())), ok, n, Rest())
    {
      hide Decode;
      ok, n := ReadNum('V' as byte);
    }

    method ReadLength() returns (ok: bool, n: int)
      requires Valid()
      modifies this`it
      ensures Valid() && Did(ReadTagged('L' as byte, old(Rest())), ok, n, Rest())
    {
      hide ReadTagged;
      ok, n := ReadNum('L' as byte);
    }

    // The string is looked up in the pool; the length only says how far to go on.
    method ReadString() returns (ok: bool, s: Option<CString>)
      requires Valid()
      modifies this`it, this`mPool
      ensures Valid() && Did(ReadText(old(Rest()), old(mPool)), ok, (s, mPool), Rest())
    {
      hide ReadTagged, UpToNull, Intern;
      var good, len := ReadNum('S' as byte);
      if !good { return false, None; }
      if len == 0 { return true, None; }
      if len < 0 || len > |mBuf| - it { return false, None; }
      var res := UpToNull(mBuf[it..]);
      if res.None? { return false, None; }
      mPool := Intern(mPool, res.value).1;
      assert mBuf[it..][len..] == mBuf[it + len..];
      it := it + len;
      return true, res;
    }

    // Which index each string of the buffer has in the pool.
    method ReadStrIdxTable() returns (ok: bool)
      requires Valid()
      modifies this`it, this`mPool, this`mStrMap
      ensures Valid()
      ensures match ReadTagged('T' as byte, old(Rest()))
              case Bad => !ok
              case Got(num, rest) => Did(ReadStrings(num, rest, old(mPool), old(mStrMap)), ok, (mStrMap, mPool), Rest())
    {
      hide ReadTagged, ReadText, Decode, Intern;
      var good, num := ReadNum('T' as byte);
      if !good { return false; }
      ghost var bs, strMap := Rest(), mStrMap;
      var i: nat := 0;
      while i < num
        invariant Valid() && (num >= 0 ==> i <= num) && (num < 0 ==> i == 0)
        invariant ReadStrings(num - i, Rest(), mPool, mStrMap) == ReadStrings(num, bs, old(mPool), strMap)
        decreases num - i
      {
        var ok1, id := ReadValue();
        if !ok1 { return false; }
        var ok2, s := ReadString();
        if !ok2 || s.None? { return false; }
        var (nid, pool') := Intern(mPool, s.value);
        mPool := pool';
        mStrMap := mStrMap[id % UINT32_END := nid];
        i := i + 1;
      }
      return true;
    }

    // One entry of the node table.
    method CreateNode() returns (ok: bool)
      requires Valid()
      modifies this`it, this`mNodes, this`mNodeMap
      ensures Valid()
      ensures match ReadTagged('N' as byte, old(Rest()))
              case Bad => !ok
              case Got(kind, rest) =>
                match Decode(rest)
                case Bad => !ok
                case Got(id, rest') =>
                  if !(0 <= kind < |mSchema.kinds|) then !ok
                  else
                    && ok && Rest() == rest' && mNodes == old(mNodes) + [Node(kind, None, [])]
                    && mNodeMap == old(mNodeMap)[id % UINT32_END := |old(mNodes)|]
    {
      hide ReadTagged, Decode;
      var ok1, k := ReadNum('N' as byte);
      if !ok1 { return false; }
      TagLeftOut(Rest());
      var ok2, id := ReadNum('V' as byte);
      if !ok2 || k < 0 || k >= |mSchema.kinds| { return false; }
      mNodeMap := mNodeMap[id % UINT32_END := |mNodes|];
      mNodes := mNodes + [Node(k, None, [])];
      return true;
    }

    // A string index of the buffer, in the pool.
    function MapIndex(n: int): nat
      reads this`mStrMap
    {
      var idx: nat := n % UINT32_END;
      if idx in mStrMap then mStrMap[idx] else 0
    }

    // A field or list element, by its type.
    method LoadItem(t: ItemType) returns (ok: bool, x: Item)
      requires Valid()
      modifies this`it, this`mPool
      ensures Valid()
      ensures Did(ReadItem(mSchema, t, old(Rest()), Renumber(mStrMap, mNodeMap), old(mPool)), ok, (x, mPool), Rest())
    {
      hide ReadText, Decode, Cast;
      match t {
        case Scope => return true, NoItem;
        case CharStar =>
          var good, s := ReadString();
          return good, Text(s);
        case RegExpr =>
          var good, e := ReadString();
          if !good { return false, NoItem; }
          var good', f := ReadString();
          return good', Reg(e, f);
        case Literal =>
          var good, n := ReadValue();
          if !good { return false, NoItem; }
          var good', raw := ReadValue();
          var ty := n % UINT32_END;
          return good', Lit(ty, if ty == mSchema.stringLiteral then MapIndex(raw) else raw);
        case Child(_) =>
          var good, target := ReadAddress();
          return good, Ref(target);
        case Scalar(w) =>
          var good, n := ReadValue();
          return good, Num(Cast(w, n));
        case StringIndex =>
          var good, n := ReadValue();
          return good, Name(MapIndex(n));
      }
    }

    method LoadField(t: FieldType) returns (ok: bool, f: Field)
      requires Valid()
      modifies this`it, this`mPool
      ensures Valid()
      ensures Did(ReadField(mSchema, t, old(Rest()), Renumber(mStrMap, mNodeMap), old(mPool)), ok, (f, mPool), Rest())
    {
      hide ReadItem, ReadTagged;
      f := List([]);
      match t {
        case One(i) =>
          var good, x := LoadItem(i);
          return good, Single(x);
        case Many(i) =>
          var good, n := ReadLength();
          if !good { return false, f; }
          var num: nat := n % UINT32_END;
          ghost var bs, pool, r := Rest(), mPool, Renumber(mStrMap, mNodeMap);
          var xs: seq<Item> := [];
          for k := 0 to num
            invariant Valid()
            invariant ReadItems(mSchema, i, num - k, Rest(), r, mPool, xs) == ReadItems(mSchema, i, num, bs, r, pool, [])
          {
            var good', x := LoadItem(i);
            if !good' { return false, f; }
            xs := xs + [x];
          }
          return true, List(xs);
      }
    }

    // The body of a node. Its kind and id were in the node table, so here they are dropped.
    method LoadTreeNode(k: nat) returns (ok: bool)
      requires Valid() && k < |mNodes| && mNodes[k].kind < |mSchema.kinds|
      modifies this`it, this`mPool, this`mNodes
      ensures Valid()
      ensures Did(ReadBody(mSchema, old(Rest()), Renumber(mStrMap, mNodeMap), old(mPool), old(mNodes), k), ok, (mNodes, mPool), Rest())
    {
      hide ReadField, Decode, NewRef, AdoptField;
      var ok1, _ := ReadValue();
      if !ok1 { return false; }
      var ok2, _ := ReadValue();
      if !ok2 { return false; }
      var ok3, parent := ReadAddress();
      if !ok3 { return false; }
      mNodes := mNodes[k := mNodes[k].(parent := parent)];
      var types := mSchema.kinds[mNodes[k].kind];
      ghost var bs, pool, nodes, r := Rest(), mPool, mNodes, Renumber(mStrMap, mNodeMap);
      for i := 0 to |types|
        invariant Valid() && |mNodes| == |nodes|
        invariant ReadFields(mSchema, types[i..], Rest(), r, mPool, mNodes, k) == ReadFields(mSchema, types, bs, r, pool, nodes, k)
      {
        assert types[i..][0] == types[i] && types[i..][1..] == types[i + 1..];
        var good, f := LoadField(types[i]);
        if !good { return false; }
        mNodes := mNodes[k := mNodes[k].(fields := mNodes[k].fields + [f])];
        mNodes := AdoptField(mSchema, mNodes, types[i], f, k);
      }
      return true;
    }

    // The blank nodes of the node table.
    method ReadNodeTable() returns (ok: bool)
      requires Valid() && KindsOK(mSchema, mNodes)
      modifies this`it, this`mNodes, this`mNodeMap
      ensures Valid()
      ensures Did(ReadNodes(mSchema, old(Rest()), old(mNodes), old(mNodeMap)), ok, (mNodes, mNodeMap), Rest())
    {
      hide ReadTagged, Decode;
      ghost var bs := Rest();
      if it == |mBuf| { return false; }
      while mBuf[it] != 'T' as byte
        invariant Valid() && it < |mBuf| && KindsOK(mSchema, mNodes)
        invariant ReadNodes(mSchema, Rest(), mNodes, mNodeMap) == ReadNodes(mSchema, bs, old(mNodes), old(mNodeMap))
        decreases |mBuf| - it
      {
        ghost var it0 := it;
        var good := CreateNode();
        if !good { return false; }
        if it == |mBuf| { return false; }
      }
      return true;
    }

    method ReadNodeBodies() returns (ok: bool)
      requires Valid() && KindsOK(mSchema, mNodes)
      modifies this`it, this`mPool, this`mNodes
      ensures Valid()
      ensures Did(ReadBodies(mSchema, old(Rest()), Renumber(mStrMap, mNodeMap), old(mPool), old(mNodes), 0), ok, (mNodes, mPool), Rest())
    {
      hide ReadBody;
      ghost var bs, r := Rest(), Renumber(mStrMap, mNodeMap);
      var n := |mNodes|;
      for k := 0 to n
        invariant Valid() && |mNodes| == n && KindsOK(mSchema, mNodes)
        invariant ReadBodies(mSchema, Rest(), r, mPool, mNodes, k) == ReadBodies(mSchema, bs, r, old(mPool), old(mNodes), 0)
      {
        var good := LoadTreeNode(k);
        if !good { return false; }
      }
      return true;
    }

    // The next module. Afterwards the buffer stands behind it, and the maps are clear again.
    method Next() returns (more: bool, ok: bool)
      requires Ready()
      modifies this
      ensures Valid()
      ensures match NextModule(mSchema, old(Rest()), old(mPool))
              case AtEnd => !more && ok && Ready() && Rest() == [] && mPool == old(mPool)
              case Failed => !more && !ok
              case Module(nodes, pool, rest) => more && ok && Ready() && mNodes == nodes && mPool == pool && Rest() == rest
      ensures more ==> exists p :: IsModule(mSchema, mNodes, p) && old(Rest()) == Joined(p) + Rest()
    {
      hide IsModule, Joined, ReadTagged, ReadNodes, ReadStrings, ReadBodies;
      if it == |mBuf| { return false, true; }
      ghost var bs := Rest();
      if |mBuf| - it < 2 { return false, false; }
      var check := mBuf[it] == 'M' as byte && mBuf[it + 1] == 'P' as byte;
      it := it + 2;
      assert Rest() == bs[2..] && (check <==> bs[0] == 'M' as byte && bs[1] == 'P' as byte);
      if !check { return false, false; }
      var ok1, sig := ReadNum('L' as byte);
      if !ok1 || sig != mSchema.signature { return false, false; }
      mNodes := [];
      var ok2 := ReadNodeTable();
      if !ok2 { return false, false; }
      var ok3 := ReadStrIdxTable();
      if !ok3 || mNodes == [] { return false, false; }
      var ok4 := ReadNodeBodies();
      if !ok4 { return false, false; }
      mStrMap, mNodeMap := map[], map[];
      ghost var p := LoadedHasForm(mSchema, bs, old(mPool));
      return true, true;
    }
  }

  // What one byte does to a number being read.
  lemma DecodeByte(bs: seq<byte>, n: nat, y: int)
    ensures DecodeFrom(bs, n, y) ==
            if bs == [] || n >= 64 then Bad
            else if bs[0] >= 128 then DecodeFrom(bs[1..], n + 7, ToInt64(y + (bs[0] - 128) * Pow2(n)))
            else Got(ToInt64(y + SignedBits(bs[0]) * Pow2(n)), bs[1..])
  {
  }

  lemma TagLeftOut(bs: seq<byte>)
    ensures ReadTagged('V' as byte, bs) == Decode(bs)
  {
  }
}
