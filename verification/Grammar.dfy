/** Grammar rule tables, as the parser generator emits them, and their two semantics: derivation
    trees (what a rule can produce) and the left graph (what a rule can start with). */
module Grammar {
  import opened Graphs

  datatype EntryType = Oneof | Zeroormore | Zeroorone | Concatenate | Data | Null

  // Rule tables refer to each other by their index in the list of all tables.
  datatype TableData =
    | Char(c: char)
    | Str(s: string)
    | Type(typeId: nat)
    | Token(tokenId: nat)
    | Subtable(entry: nat)
    | NoData

  datatype RuleTable = RuleTable(mType: EntryType, mData: seq<TableData>)

  type Rules = seq<RuleTable>

  // What the detectors assert about their input: no rule is of type Null, a Data, Zeroorone or
  // Zeroormore rule has exactly one element, a Oneof rule has at least one.
  predicate WellFormedRule(n: nat, r: RuleTable) {
    && !r.mType.Null?
    && (r.mType.Data? || r.mType.Zeroormore? || r.mType.Zeroorone? ==> |r.mData| == 1)
    && (r.mType.Oneof? ==> |r.mData| >= 1)
    && forall d :: d in r.mData && d.Subtable? ==> d.entry < n
  }

  predicate WellFormed(g: Rules) {
    forall u :: 0 <= u < |g| ==> WellFormedRule(|g|, g[u])
  }

  // -------- Derivations

  // A leaf is a terminal, or a rule left unexpanded (a sentential form).
  datatype Tree = Leaf(d: TableData) | Node(rule: nat, kids: seq<Tree>)

  function Root(t: Tree): TableData {
    match t
    case Leaf(d) => d
    case Node(r, _) => Subtable(r)
  }

  function Roots(ts: seq<Tree>): (ds: seq<TableData>)
    ensures |ds| == |ts| && forall i :: 0 <= i < |ts| ==> ds[i] == Root(ts[i])
  {
    seq(|ts|, i requires 0 <= i < |ts| => Root(ts[i]))
  }

  // `ds` is one right-hand side of rule `r`.
  predicate Expands(r: RuleTable, ds: seq<TableData>) {
    match r.mType
    case Oneof => |ds| == 1 && ds[0] in r.mData
    case Data => ds == r.mData
    case Concatenate => ds == r.mData
    case Zeroorone => |ds| <= 1 && forall d :: d in ds ==> d in r.mData
    case Zeroormore => forall d :: d in ds ==> d in r.mData
    case Null => false
  }

  ghost predicate Derivation(g: Rules, t: Tree) {
    match t
    case Leaf(_) => true
    case Node(r, kids) =>
      r < |g| && Expands(g[r], Roots(kids)) && forall k :: k in kids ==> Derivation(g, k)
  }

  function Yield(t: Tree): seq<TableData>
    decreases t, 1
  {
    match t
    case Leaf(d) => [d]
    case Node(_, kids) => Yields(kids)
  }

  function Yields(ts: seq<Tree>): seq<TableData>
    decreases ts, 0
  {
    if ts == [] then [] else Yield(ts[0]) + Yields(ts[1..])
  }

  // Rule `r` derives the empty string.
  ghost predicate Nullable(g: Rules, r: nat) {
    exists t :: Derivation(g, t) && Root(t) == Subtable(r) && Yield(t) == []
  }

  lemma {:induction false} EmptyYields(ts: seq<Tree>)
    ensures Yields(ts) == [] <==> forall t :: t in ts ==> Yield(t) == []
  {
    if ts != [] {
      EmptyYields(ts[1..]);
      assert ts == [ts[0]] + ts[1..];
      assert |Yields(ts)| == |Yield(ts[0])| + |Yields(ts[1..])|;
    }
  }

  // Empty derivations for a list of nullable rules.
  lemma {:induction false} EmptyForest(g: Rules, ds: seq<TableData>) returns (ts: seq<Tree>)
    requires forall d :: d in ds ==> d.Subtable? && Nullable(g, d.entry)
    ensures Roots(ts) == ds && Yields(ts) == []
    ensures forall t :: t in ts ==> Derivation(g, t)
  {
    if ds == [] {
      ts := [];
    } else {
      var rest := EmptyForest(g, ds[1..]);
      assert ds[0] in ds;
      var t :| Derivation(g, t) && Root(t) == Subtable(ds[0].entry) && Yield(t) == [];
      ts := [t] + rest;
      assert ts[1..] == rest;
      assert Roots(ts) == [ds[0]] + ds[1..];
    }
  }

  // A rule is nullable if one of its right-hand sides consists of nullable rules only.
  lemma NullableIntro(g: Rules, r: nat, ds: seq<TableData>)
    requires r < |g| && Expands(g[r], ds)
    requires forall d :: d in ds ==> d.Subtable? && Nullable(g, d.entry)
    ensures Nullable(g, r)
  {
    var ts := EmptyForest(g, ds);
    var t := Node(r, ts);
    assert Derivation(g, t) && Root(t) == Subtable(r) && Yield(t) == [];
  }

  // -------- The left graph

  // Element `k` of rule `u` can be the first to produce a token: every element of a concatenation
  // before it is a rule in `mz`.
  predicate LeftIndex(g: Rules, mz: seq<nat>, u: nat, k: nat) {
    && u < |g| && k < |g[u].mData|
    && (g[u].mType.Concatenate? ==>
          forall i :: 0 <= i < k ==> g[u].mData[i].Subtable? && g[u].mData[i].entry in mz)
  }

  predicate LeftChild(g: Rules, mz: seq<nat>, u: nat, v: nat) {
    u < |g| && exists k :: 0 <= k < |g[u].mData| && LeftIndex(g, mz, u, k) && g[u].mData[k] == Subtable(v)
  }

  function LeftGraph(g: Rules, mz: seq<nat>): (h: Graph)
    requires WellFormed(g)
    ensures |h| == |g|
    ensures forall u: nat, v: nat :: Step(h, u, v) <==> LeftChild(g, mz, u, v)
    ensures forall u: nat, v: nat :: Step(h, u, v) ==> v < |g|
  {
    var h := seq(|g|, u requires 0 <= u < |g| => set v | v in Below(|g|) && LeftChild(g, mz, u, v));
    assert forall u: nat, v: nat :: LeftChild(g, mz, u, v) ==> WellFormedRule(|g|, g[u]) && v < |g|;
    h
  }

  // All elements of a rule, whether leftmost or not.
  function ChildGraph(g: Rules): (h: Graph)
    requires WellFormed(g)
    ensures |h| == |g|
    ensures forall u: nat, v: nat :: Step(h, u, v) <==> u < |g| && Subtable(v) in g[u].mData
  {
    var h := seq(|g|, u requires 0 <= u < |g| => set v | v in Below(|g|) && Subtable(v) in g[u].mData);
    assert forall u: nat, v: nat :: u < |g| && Subtable(v) in g[u].mData ==> WellFormedRule(|g|, g[u]) && v < |g|;
    h
  }

  lemma LeftGraphMono(g: Rules, mz: seq<nat>, mz': seq<nat>)
    requires WellFormed(g)
    requires forall x :: x in mz ==> x in mz'
    ensures SubGraph(LeftGraph(g, mz), LeftGraph(g, mz'))
  {
    var h, h' := LeftGraph(g, mz), LeftGraph(g, mz');
    forall u, v: nat | 0 <= u < |g| && v in h[u]
      ensures v in h'[u]
    {
      assert Step(h, u, v);
      var k :| 0 <= k < |g[u].mData| && LeftIndex(g, mz, u, k) && g[u].mData[k] == Subtable(v);
      assert LeftIndex(g, mz', u, k);
      assert Step(h', u, v);
    }
  }

  lemma LeftInChild(g: Rules, mz: seq<nat>, u: nat, v: nat)
    requires WellFormed(g) && Reach(LeftGraph(g, mz), u, v)
    ensures Reach(ChildGraph(g), u, v)
  {
    var h, h' := LeftGraph(g, mz), ChildGraph(g);
    forall a, b: nat | 0 <= a < |g| && b in h[a]
      ensures b in h'[a]
    {
      assert Step(h, a, b) && Step(h', a, b);
    }
    ReachMono(h, h', u, v);
  }
}
