/** What reading a stored module means: each function takes bytes off the front of a buffer. A buffer
    that is cut short or has the wrong tag is bad. */
module AstReading {
  import opened Options
  import opened Leb128
  import opened AstData

  function ReadTag(tag: byte, bs: seq<byte>): (r: Parse<()>)
    ensures r.Got? ==> |r.rest| < |bs|
  {
    if bs != [] && bs[0] == tag then Got((), bs[1..]) else Bad
  }

  // A number behind a tag; the tags of addresses and values are left out.
  function ReadTagged(tag: byte, bs: seq<byte>): (r: Parse<int>)
    ensures r.Got? ==> |r.rest| < |bs|
  {
    if tag == 'A' as byte || tag == 'V' as byte then Decode(bs)
    else
      match ReadTag(tag, bs)
      case Bad => Bad
      case Got(_, rest) => Decode(rest)
  }

  // -------- Strings

  // The string pool holds strings under indices from 1 on.
  function FindFrom(pool: seq<CString>, s: CString, i: nat): (r: nat)
    requires 1 <= i <= |pool|
    ensures i <= r <= |pool| && (r < |pool| ==> pool[r] == s)
    decreases |pool| - i
  {
    if i == |pool| || pool[i] == s then i else FindFrom(pool, s, i + 1)
  }

  predicate PoolOK(pool: seq<CString>) {
    |pool| >= 2 && Distinct(pool)
  }

  predicate Distinct(pool: seq<CString>) {
    forall i, j :: 1 <= i < j < |pool| ==> pool[i] != pool[j]
  }

  // The index of a string, and the pool that has it.
  function Intern(pool: seq<CString>, s: CString): (r: (nat, seq<CString>))
    requires |pool| >= 1
    ensures pool <= r.1
  {
    var i := FindFrom(pool, s, 1);
    (i, if i < |pool| then pool else pool + [s])
  }

  lemma {:induction false} FindFromMisses(pool: seq<CString>, s: CString, i: nat)
    requires 1 <= i <= |pool|
    ensures forall j :: i <= j < FindFrom(pool, s, i) ==> pool[j] != s
    decreases |pool| - i
  {
    if i < |pool| && pool[i] != s { FindFromMisses(pool, s, i + 1); }
  }

  lemma InternKeeps(pool: seq<CString>, s: CString)
    requires PoolOK(pool)
    ensures var (i, pool') := Intern(pool, s);
            PoolOK(pool') && pool <= pool' && 1 <= i < |pool'| && pool'[i] == s
  {
    FindFromMisses(pool, s, 1);
  }

  // The characters before the first null character.
  function UpToNull(bs: seq<byte>): Option<CString> {
    if bs == [] then None
    else if bs[0] == 0 then Some([])
    else
      match UpToNull(bs[1..])
      case None => None
      case Some(s) => Some([bs[0]] + s)
  }

  lemma {:induction false} UpToNullOf(s: CString, rest: seq<byte>)
    requires 0 !in s
    ensures UpToNull(s + [0] + rest) == Some(s)
  {
    var bs := s + [0] + rest;
    if s != [] {
      assert bs[1..] == s[1..] + [0] + rest;
      UpToNullOf(s[1..], rest);
      assert s == [s[0]] + s[1..];
    }
  }

  // A string, put into the pool; length 0 stands for no string.
  function ReadText(bs: seq<byte>, pool: seq<CString>): (r: Parse<(Option<CString>, seq<CString>)>)
    requires |pool| >= 1
    ensures r.Got? ==> pool <= r.value.1
  {
    match ReadTagged('S' as byte, bs)
    case Bad => Bad
    case Got(len, rest) =>
      if len == 0 then Got((None, pool), rest)
      else if len < 0 || len > |rest| then Bad
      else
        match UpToNull(rest)
        case None => Bad
        case Some(s) => Got((Some(s), Intern(pool, s).1), rest[len..])
  }

  // -------- Items and fields

  // A number from the buffer cast to a field's type.
  function Cast(w: Width, n: int): (v: int)
    ensures InRange(w, n) && IsInt64(n) && w != UInt64 ==> v == n
  {
    match w
    case Bool => if n != 0 then 1 else 0
    case UInt32 => n % UINT32_END
    case Int32 => if n % UINT32_END < 0x8000_0000 then n % UINT32_END else n % UINT32_END - UINT32_END
    case Int64 => ToInt64(n)
    case UInt64 => ToUint64(n)
  }

  lemma CastBack(w: Width, v: int)
    requires InRange(w, v)
    ensures Cast(w, ToInt64(v)) == v
  {
  }

  // The renumbering in effect: old string indices and old node ids to new ones.
  datatype Renumber = Renumber(strMap: map<nat, nat>, nodeMap: map<nat, nat>)

  // Indices that are not in the map become 0, ids that are not become null.
  function NewIndex(r: Renumber, n: int): nat {
    var idx: nat := n % UINT32_END;
    if idx in r.strMap then r.strMap[idx] else 0
  }

  function NewRef(r: Renumber, n: int): Option<nat> {
    var id: nat := n % UINT32_END;
    if n == -1 || id !in r.nodeMap then None else Some(r.nodeMap[id])
  }

  function ReadItem(s: Schema, t: ItemType, bs: seq<byte>, r: Renumber, pool: seq<CString>): (p: Parse<(Item, seq<CString>)>)
    requires |pool| >= 1
    ensures p.Got? ==> pool <= p.value.1
  {
    match t
    case Scope => Got((NoItem, pool), bs)
    case CharStar =>
      (match ReadText(bs, pool)
       case Bad => Bad
       case Got((x, pool'), rest) => Got((Text(x), pool'), rest))
    case RegExpr =>
      (match ReadText(bs, pool)
       case Bad => Bad
       case Got((x, pool'), rest) =>
         match ReadText(rest, pool')
         case Bad => Bad
         case Got((y, pool''), rest') => Got((Reg(x, y), pool''), rest'))
    case Literal =>
      (match Decode(bs)
       case Bad => Bad
       case Got(ty, rest) =>
         match Decode(rest)
         case Bad => Bad
         case Got(raw, rest') =>
           var id := ty % UINT32_END;
           Got((Lit(id, if id == s.stringLiteral then NewIndex(r, raw) else raw), pool), rest'))
    case _ =>
      match Decode(bs)
      case Bad => Bad
      case Got(n, rest) =>
        var x := match t { case Child(_) => Ref(NewRef(r, n)) case Scalar(w) => Num(Cast(w, n)) case _ => Name(NewIndex(r, n)) };
        Got((x, pool), rest)
  }

  function ReadItems(s: Schema, t: ItemType, n: nat, bs: seq<byte>, r: Renumber, pool: seq<CString>, acc: seq<Item>)
      : (p: Parse<(seq<Item>, seq<CString>)>)
    requires |pool| >= 1
    ensures p.Got? ==> pool <= p.value.1
    decreases n
  {
    if n == 0 then Got((acc, pool), bs)
    else
      match ReadItem(s, t, bs, r, pool)
      case Bad => Bad
      case Got((x, pool'), rest) => ReadItems(s, t, n - 1, rest, r, pool', acc + [x])
  }

  function ReadField(s: Schema, t: FieldType, bs: seq<byte>, r: Renumber, pool: seq<CString>): (p: Parse<(Field, seq<CString>)>)
    requires |pool| >= 1
    ensures p.Got? ==> pool <= p.value.1
  {
    match t
    case One(i) =>
      (match ReadItem(s, i, bs, r, pool)
       case Bad => Bad
       case Got((x, pool'), rest) => Got((Single(x), pool'), rest))
    case Many(i) =>
      match ReadTagged('L' as byte, bs)
      case Bad => Bad
      case Got(n, rest) =>
        match ReadItems(s, i, n % UINT32_END, rest, r, pool, [])
        case Bad => Bad
        case Got((xs, pool'), rest') => Got((List(xs), pool'), rest')
  }

  // -------- Nodes

  predicate SameKinds(a: seq<Node>, b: seq<Node>) {
    |a| == |b| && forall i :: 0 <= i < |a| ==> a[i].kind == b[i].kind
  }

  // A setter that adopts makes node `k` the parent of the child, unless it is a primitive type.
  function AdoptItem(s: Schema, nodes: seq<Node>, t: ItemType, x: Item, k: nat): (r: seq<Node>)
    ensures SameKinds(nodes, r)
  {
    if t.Child? && t.adopts && x.Ref? && x.target.Some? && x.target.value < |nodes|
       && nodes[x.target.value].kind != s.primType
    then nodes[x.target.value := nodes[x.target.value].(parent := Some(k))]
    else nodes
  }

  function AdoptItems(s: Schema, nodes: seq<Node>, t: ItemType, xs: seq<Item>, k: nat): (r: seq<Node>)
    ensures SameKinds(nodes, r)
    decreases |xs|
  {
    if xs == [] then nodes else AdoptItems(s, AdoptItem(s, nodes, t, xs[0], k), t, xs[1..], k)
  }

  function AdoptField(s: Schema, nodes: seq<Node>, t: FieldType, f: Field, k: nat): (r: seq<Node>)
    ensures SameKinds(nodes, r)
  {
    match f
    case Single(x) => AdoptItem(s, nodes, t.t, x, k)
    case List(xs) => AdoptItems(s, nodes, t.t, xs, k)
  }

  // The remaining fields of node `k`, set one by one.
  function ReadFields(s: Schema, types: seq<FieldType>, bs: seq<byte>, r: Renumber, pool: seq<CString>, nodes: seq<Node>, k: nat)
      : (p: Parse<(seq<Node>, seq<CString>)>)
    requires |pool| >= 1 && k < |nodes|
    ensures p.Got? ==> pool <= p.value.1 && SameKinds(nodes, p.value.0)
    decreases |types|
  {
    if types == [] then Got((nodes, pool), bs)
    else
      match ReadField(s, types[0], bs, r, pool)
      case Bad => Bad
      case Got((f, pool'), rest) =>
        var nodes' := nodes[k := nodes[k].(fields := nodes[k].fields + [f])];
        ReadFields(s, types[1..], rest, r, pool', AdoptField(s, nodes', types[0], f, k), k)
  }

  // The body of node `k`. Its kind and id are read and dropped.
  function ReadBody(s: Schema, bs: seq<byte>, r: Renumber, pool: seq<CString>, nodes: seq<Node>, k: nat)
      : (p: Parse<(seq<Node>, seq<CString>)>)
    requires |pool| >= 1 && k < |nodes| && nodes[k].kind < |s.kinds|
    ensures p.Got? ==> pool <= p.value.1 && SameKinds(nodes, p.value.0)
  {
    match Decode(bs)
    case Bad => Bad
    case Got(_, rest) =>
      match Decode(rest)
      case Bad => Bad
      case Got(_, rest') =>
        match Decode(rest')
        case Bad => Bad
        case Got(n, rest'') =>
          ReadFields(s, s.kinds[nodes[k].kind], rest'', r, pool, nodes[k := nodes[k].(parent := NewRef(r, n))], k)
  }

  predicate KindsOK(s: Schema, nodes: seq<Node>) {
    forall k :: 0 <= k < |nodes| ==> nodes[k].kind < |s.kinds|
  }

  function ReadBodies(s: Schema, bs: seq<byte>, r: Renumber, pool: seq<CString>, nodes: seq<Node>, k: nat)
      : (p: Parse<(seq<Node>, seq<CString>)>)
    requires |pool| >= 1 && k <= |nodes| && KindsOK(s, nodes)
    ensures p.Got? ==> pool <= p.value.1 && SameKinds(nodes, p.value.0)
    decreases |nodes| - k
  {
    if k == |nodes| then Got((nodes, pool), bs)
    else
      match ReadBody(s, bs, r, pool, nodes, k)
      case Bad => Bad
      case Got((nodes', pool'), rest) => ReadBodies(s, rest, r, pool', nodes', k + 1)
  }

  // The node table: blank nodes, and where each id went.
  function ReadNodes(s: Schema, bs: seq<byte>, nodes: seq<Node>, nodeMap: map<nat, nat>)
      : (p: Parse<(seq<Node>, map<nat, nat>)>)
    requires KindsOK(s, nodes)
    ensures p.Got? ==> KindsOK(s, p.value.0)
    decreases |bs|
  {
    if bs == [] then Bad
    else if bs[0] == 'T' as byte then Got((nodes, nodeMap), bs)
    else
      match ReadTagged('N' as byte, bs)
      case Bad => Bad
      case Got(kind, rest) =>
        match Decode(rest)
        case Bad => Bad
        case Got(id, rest') =>
          if !(0 <= kind < |s.kinds|) then Bad
          else ReadNodes(s, rest', nodes + [Node(kind, None, [])], nodeMap[id % UINT32_END := |nodes|])
  }

  function ReadStrings(n: int, bs: seq<byte>, pool: seq<CString>, strMap: map<nat, nat>)
      : (p: Parse<(map<nat, nat>, seq<CString>)>)
    requires |pool| >= 1
    ensures p.Got? ==> pool <= p.value.1
    decreases if n < 0 then 0 else n
  {
    if n <= 0 then Got((strMap, pool), bs)
    else
      match Decode(bs)
      case Bad => Bad
      case Got(id, rest) =>
        match ReadText(rest, pool)
        case Bad => Bad
        case Got((s, pool'), rest') =>
          // There is no looking up a missing string.
          if s.None? then Bad
          else
            var (idx, pool'') := Intern(pool', s.value);
            ReadStrings(n - 1, rest', pool'', strMap[id % UINT32_END := idx])
  }

  // -------- Modules

  datatype Loaded = AtEnd | Failed | Module(nodes: seq<Node>, pool: seq<CString>, rest: seq<byte>)

  // The next module of a buffer; its first node is the module node.
  function NextModule(s: Schema, bs: seq<byte>, pool: seq<CString>): Loaded
    requires |pool| >= 1
  {
    if bs == [] then AtEnd
    else if |bs| < 2 || bs[0] != 'M' as byte || bs[1] != 'P' as byte then Failed
    else
      match ReadTagged('L' as byte, bs[2..])
      case Bad => Failed
      case Got(sig, rest) =>
        if sig != s.signature then Failed
        else
          match ReadNodes(s, rest, [], map[])
          case Bad => Failed
          case Got((nodes, nodeMap), rest') =>
            match ReadTagged('T' as byte, rest')
            case Bad => Failed
            case Got(num, rest'') =>
              match ReadStrings(num, rest'', pool, map[])
              case Bad => Failed
              case Got((strMap, pool'), bodies) =>
                if nodes == [] then Failed
                else
                  match ReadBodies(s, bodies, Renumber(strMap, nodeMap), pool', nodes, 0)
                  case Bad => Failed
                  case Got((nodes', pool''), left) => Module(nodes', pool'', left)
  }
}
