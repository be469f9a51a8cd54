/** Renaming of variables that share a name: the list of scopes that declare each name, outer ones
    before inner ones, and the names after the lists have been worked off from their ends. */
module Renaming {
  import opened Options
  import opened VersionNames
  import opened Scopes

  type Lists = map<string, seq<nat>>

  // -------- The lists

  // Identifiers that make their scope one of those declaring their name.
  predicate Declares(p: Program, ns: Names, i: nat)
    requires i < |p.idents| && i < |ns.idents|
  {
    match p.idents[i].role
    case VarOf(d) => d < |ns.decls| && ns.decls[d] == ns.idents[i]
    case InitOf(d) => d < |ns.decls| && ns.decls[d] == ns.idents[i]
    case ParamOf => true
    case _ => false
  }

  function ScopeOf(p: Program, i: nat): nat {
    if i < |p.idents| then p.idents[i].scope else 0
  }

  // The scope of `i` goes before the first scope inside it, and nowhere if it is there already.
  function Insert(p: Program, list: seq<nat>, i: nat): seq<nat> {
    if list == [] then [i]
    else if ScopeOf(p, list[0]) == ScopeOf(p, i) then list
    else if IsAncestor(p, ScopeOf(p, list[0]), ScopeOf(p, i)) then [i] + list
    else [list[0]] + Insert(p, list[1..], i)
  }

  // No scope is listed twice, and none after a scope inside it.
  ghost predicate Ordered(p: Program, list: seq<nat>) {
    forall a, b :: 0 <= a < b < |list| ==> !IsAncestor(p, ScopeOf(p, list[a]), ScopeOf(p, list[b]))
  }

  function ListOf(m: Lists, name: string): seq<nat> {
    if name in m then m[name] else []
  }

  // The lists after the first `n` identifiers have been visited.
  function Collect(p: Program, ns: Names, n: nat): Lists
    requires n <= |p.idents| && |ns.idents| == |p.idents|
  {
    if n == 0 then map[]
    else
      var m, name := Collect(p, ns, n - 1), ns.idents[n - 1];
      if Declares(p, ns, n - 1) then m[name := Insert(p, ListOf(m, name), n - 1)] else m
  }

  ghost predicate HasScope(p: Program, list: seq<nat>, s: nat) {
    exists k :: 0 <= k < |list| && ScopeOf(p, list[k]) == s
  }

  lemma {:induction false} InsertKeepsOrder(p: Program, list: seq<nat>, i: nat)
    requires Ordered(p, list)
    ensures Ordered(p, Insert(p, list, i)) && HasScope(p, Insert(p, list, i), ScopeOf(p, i))
    ensures forall x :: x in Insert(p, list, i) ==> x == i || x in list
    ensures forall x :: x in list ==> x in Insert(p, list, i)
    decreases |list|
  {
    hide IsAncestor, ScopeOf;
    var r, s := Insert(p, list, i), ScopeOf(p, i);
    if list == [] {
      assert r[0] == i;
    } else if ScopeOf(p, list[0]) == s {
    } else if IsAncestor(p, ScopeOf(p, list[0]), s) {
      assert r[0] == i;
      forall b | 0 < b < |r|
        ensures !IsAncestor(p, s, ScopeOf(p, r[b]))
      {
        NoneInside(p, list, i, b - 1);
      }
    } else {
      var rest := Insert(p, list[1..], i);
      InsertKeepsOrder(p, list[1..], i);
      assert list == [list[0]] + list[1..];
      var k :| 0 <= k < |rest| && ScopeOf(p, rest[k]) == s;
      assert ScopeOf(p, r[k + 1]) == s;
      forall b | 0 < b < |r|
        ensures !IsAncestor(p, ScopeOf(p, r[0]), ScopeOf(p, r[b]))
      {
        assert r[b] == rest[b - 1] && rest[b - 1] in rest;
        if r[b] != i {
          var c :| 0 <= c < |list[1..]| && list[1..][c] == r[b];
          assert list[c + 1] == r[b];
        }
      }
    }
  }

  // A scope put at the front has none of the others around it.
  lemma NoneInside(p: Program, list: seq<nat>, i: nat, b: nat)
    requires Ordered(p, list) && b < |list| && ScopeOf(p, list[0]) != ScopeOf(p, i)
    requires IsAncestor(p, ScopeOf(p, list[0]), ScopeOf(p, i))
    ensures !IsAncestor(p, ScopeOf(p, i), ScopeOf(p, list[b]))
  {
    if IsAncestor(p, ScopeOf(p, i), ScopeOf(p, list[b])) {
      AncestorTrans(p, ScopeOf(p, list[0]), ScopeOf(p, i), ScopeOf(p, list[b]));
      AncestorIsBelow(p, ScopeOf(p, i), ScopeOf(p, list[b]));
      AncestorIsBelow(p, ScopeOf(p, list[0]), ScopeOf(p, i));
    }
  }

  // What pass 0 collects: for every name the scopes that declare it.
  ghost predicate RightLists(p: Program, ns: Names, m: Lists, n: nat)
    requires |ns.idents| == |p.idents| && n <= |p.idents|
  {
    && (forall v :: v in m ==> m[v] != [] && Ordered(p, m[v]) && AllDeclare(p, ns, m[v], v, n))
    && (forall i :: 0 <= i < n && Declares(p, ns, i) ==> ns.idents[i] in m && HasScope(p, m[ns.idents[i]], ScopeOf(p, i)))
  }

  ghost predicate AllDeclare(p: Program, ns: Names, list: seq<nat>, v: string, n: nat)
    requires |ns.idents| == |p.idents| && n <= |p.idents|
  {
    forall k :: 0 <= k < |list| ==> list[k] < n && ns.idents[list[k]] == v && Declares(p, ns, list[k])
  }

  lemma {:induction false} CollectIsRight(p: Program, ns: Names, n: nat)
    requires n <= |p.idents| && |ns.idents| == |p.idents|
    ensures RightLists(p, ns, Collect(p, ns, n), n)
  {
    if n > 0 {
      CollectIsRight(p, ns, n - 1);
      var m, v := Collect(p, ns, n - 1), ns.idents[n - 1];
      if Declares(p, ns, n - 1) {
        CollectStep(p, ns, m, n, v);
      }
    }
  }

  lemma CollectStep(p: Program, ns: Names, m: Lists, n: nat, v: string)
    requires 0 < n <= |p.idents| && |ns.idents| == |p.idents| && RightLists(p, ns, m, n - 1)
    requires Declares(p, ns, n - 1) && ns.idents[n - 1] == v
    ensures RightLists(p, ns, m[v := Insert(p, ListOf(m, v), n - 1)], n)
  {
    hide Declares, IsAncestor;
    var list := ListOf(m, v);
    var r := Insert(p, list, n - 1);
    assert Ordered(p, list);
    InsertKeepsOrder(p, list, n - 1);
    forall s | HasScope(p, list, s)
      ensures HasScope(p, r, s)
    {
      var k :| 0 <= k < |list| && ScopeOf(p, list[k]) == s;
      assert list[k] in r;
      var j :| 0 <= j < |r| && r[j] == list[k];
    }
    forall k | 0 <= k < |r|
      ensures r[k] < n && ns.idents[r[k]] == v && Declares(p, ns, r[k])
    {
      assert r[k] in r;
      if r[k] in list {
        var j :| 0 <= j < |list| && list[j] == r[k];
      }
    }
  }

  // Where a scope goes: before the first listed scope inside it, at the end if there is none.
  ghost predicate Placed(p: Program, list: seq<nat>, r: seq<nat>, i: nat, k: nat) {
    && k <= |list| && r == list[..k] + [i] + list[k..]
    && (k < |list| ==> IsAncestor(p, ScopeOf(p, list[k]), ScopeOf(p, i)))
    && forall j :: 0 <= j < k ==> !IsAncestor(p, ScopeOf(p, list[j]), ScopeOf(p, i))
  }

  ghost predicate PlacedOnce(p: Program, list: seq<nat>, r: seq<nat>, i: nat) {
    if HasScope(p, list, ScopeOf(p, i)) then r == list else exists k: nat :: Placed(p, list, r, i, k)
  }

  lemma {:induction false} InsertPlaces(p: Program, list: seq<nat>, i: nat)
    requires Ordered(p, list)
    ensures PlacedOnce(p, list, Insert(p, list, i), i)
    decreases |list|
  {
    hide IsAncestor, ScopeOf;
    var s, r := ScopeOf(p, i), Insert(p, list, i);
    if list == [] {
      assert Placed(p, list, r, i, 0);
    } else if ScopeOf(p, list[0]) == s {
    } else if IsAncestor(p, ScopeOf(p, list[0]), s) {
      assert list[..0] + [i] + list[0..] == [i] + list;
      assert Placed(p, list, r, i, 0);
    } else {
      var rest := list[1..];
      InsertPlaces(p, rest, i);
      HasScopeLater(p, list, s);
      if !HasScope(p, rest, s) {
        var k: nat :| Placed(p, rest, Insert(p, rest, i), i, k);
        PlacedLater(p, list, Insert(p, rest, i), i, k);
      }
    }
  }

  lemma HasScopeLater(p: Program, list: seq<nat>, s: nat)
    requires list != [] && ScopeOf(p, list[0]) != s
    ensures HasScope(p, list, s) <==> HasScope(p, list[1..], s)
  {
    if HasScope(p, list[1..], s) {
      var b :| 0 <= b < |list[1..]| && ScopeOf(p, list[1..][b]) == s;
      assert ScopeOf(p, list[b + 1]) == s;
    }
    if HasScope(p, list, s) {
      var b :| 0 <= b < |list| && ScopeOf(p, list[b]) == s;
      assert ScopeOf(p, list[1..][b - 1]) == s;
    }
  }

  lemma PlacedLater(p: Program, list: seq<nat>, r: seq<nat>, i: nat, k: nat)
    requires list != [] && !IsAncestor(p, ScopeOf(p, list[0]), ScopeOf(p, i)) && Placed(p, list[1..], r, i, k)
    ensures Placed(p, list, [list[0]] + r, i, k + 1)
  {
    hide IsAncestor, ScopeOf;
    assert list[..k + 1] == [list[0]] + list[1..][..k] && list[k + 1..] == list[1..][k..];
    assert forall j :: 0 < j < k + 1 ==> list[j] == list[1..][j - 1];
  }

  // -------- One scope renamed

  predicate Hit(p: Program, ns: Names, s: nat, old_: string, i: nat) {
    i < |p.idents| && i < |ns.idents| && !p.idents[i].role.Field? && ns.idents[i] == old_ && IsAncestor(p, p.idents[i].at, s)
  }

  // The identifiers named `old_` in the scope or inside it get the new name; so do the declaration
  // nodes they hang from.
  function RenameIn(p: Program, ns: Names, s: nat, old_: string, new_: string): Names {
    Names(seq(|ns.idents|, i requires 0 <= i < |ns.idents| => if Hit(p, ns, s, old_, i) then new_ else ns.idents[i]),
          seq(|ns.decls|, d requires 0 <= d < |ns.decls| => if HitDecl(p, ns, s, old_, d) then new_ else ns.decls[d]))
  }

  predicate HitDecl(p: Program, ns: Names, s: nat, old_: string, d: nat) {
    d < |p.decls| && (Hit(p, ns, s, old_, p.decls[d].v) || (p.decls[d].init.Some? && Hit(p, ns, s, old_, p.decls[d].init.value)))
  }

  // The scopes of the list from position `k` down to position 1, each with its own version.
  function RenameDown(p: Program, ns: Names, name: string, list: seq<nat>, k: nat): Names
    requires k == 0 || k < |list|
    decreases k
  {
    if k == 0 then ns
    else RenameDown(p, RenameIn(p, ns, ScopeOf(p, list[k]), name, Version(name, k)), name, list, k - 1)
  }

  function Last(list: seq<nat>): nat {
    if list == [] then 0 else |list| - 1
  }

  function RenameAll(p: Program, ns: Names, m: Lists, order: seq<string>): Names {
    if order == [] then ns
    else
      var name := order[|order| - 1];
      RenameDown(p, RenameAll(p, ns, m, order[..|order| - 1]), name, ListOf(m, name), Last(ListOf(m, name)))
  }

  // -------- What becomes of each name

  // The last listed scope, up to position `k`, that is `s` or around it; position 0 keeps its name.
  function Which(p: Program, list: seq<nat>, s: nat, k: nat): (r: nat)
    requires k == 0 || k < |list|
    ensures r <= k && (r > 0 ==> IsAncestor(p, s, ScopeOf(p, list[r])))
    ensures forall j :: r < j <= k ==> !IsAncestor(p, s, ScopeOf(p, list[j]))
    decreases k
  {
    if k == 0 then 0 else if IsAncestor(p, s, ScopeOf(p, list[k])) then k else Which(p, list, s, k - 1)
  }

  function NewNameIn(p: Program, list: seq<nat>, name: string, s: nat, k: nat): string
    requires k == 0 || k < |list|
  {
    var r := Which(p, list, s, k);
    if r == 0 then name else Version(name, r)
  }

  function IdentAfter(p: Program, ns: Names, name: string, list: seq<nat>, k: nat, i: nat): string
    requires Fits(p, ns) && i < |p.idents| && (k == 0 || k < |list|)
  {
    if p.idents[i].role.Field? || ns.idents[i] != name then ns.idents[i] else NewNameIn(p, list, name, p.idents[i].at, k)
  }

  function DeclAfter(p: Program, ns: Names, name: string, list: seq<nat>, k: nat, d: nat): string
    requires Fits(p, ns) && d < |p.decls| && (k == 0 || k < |list|)
  {
    if Touched(p, ns, name, d) then
      var r := Which(p, list, DeclAt(p, d), k);
      if r > 0 then Version(name, r) else ns.decls[d]
    else ns.decls[d]
  }

  // Working a list off from its end gives each identifier the version of the innermost listed scope.
  lemma {:induction false} RenameDownIs(p: Program, ns: Names, name: string, list: seq<nat>, k: nat)
    requires Valid(p) && Fits(p, ns) && (k == 0 || k < |list|)
    ensures var r := RenameDown(p, ns, name, list, k);
            && Fits(p, r)
            && (forall i :: 0 <= i < |p.idents| ==> r.idents[i] == IdentAfter(p, ns, name, list, k, i))
            && (forall d :: 0 <= d < |p.decls| ==> r.decls[d] == DeclAfter(p, ns, name, list, k, d))
    decreases k
  {
    hide Valid, IsAncestor;
    if k > 0 {
      var ns1 := RenameIn(p, ns, ScopeOf(p, list[k]), name, Version(name, k));
      RenameDownIs(p, ns1, name, list, k - 1);
      var r := RenameDown(p, ns, name, list, k);
      forall i | 0 <= i < |p.idents|
        ensures r.idents[i] == IdentAfter(p, ns, name, list, k, i)
      {
        VersionIsNew(name, k);
      }
      forall d | 0 <= d < |p.decls|
        ensures r.decls[d] == DeclAfter(p, ns, name, list, k, d)
      {
        VersionIsNew(name, k);
        DeclStep(p, ns, ns1, name, list, k, d);
      }
    }
  }

  // -------- The same said of the scopes

  // The scope at place `k` is around `s`, and every other listed scope around `s` is around it.
  ghost predicate Innermost(p: Program, list: seq<nat>, s: nat, k: nat) {
    && k < |list| && IsAncestor(p, s, ScopeOf(p, list[k]))
    && forall j :: 0 <= j < |list| && IsAncestor(p, s, ScopeOf(p, list[j])) ==> IsAncestor(p, ScopeOf(p, list[k]), ScopeOf(p, list[j]))
  }

  // The name an identifier called `name` gets in scope `s`: the number of the innermost listed scope
  // around it, counted from 0; without a scope of a number above 0 around it, it keeps its name.
  ghost predicate NamedFor(p: Program, list: seq<nat>, name: string, s: nat, new_: string) {
    && (forall k: nat :: k > 0 && Innermost(p, list, s, k) ==> IsVersion(new_, name, k))
    && ((forall k: nat :: k > 0 ==> !Innermost(p, list, s, k)) ==> new_ == name)
  }

  lemma NewNameIs(p: Program, list: seq<nat>, name: string, s: nat)
    requires Ordered(p, list)
    ensures NamedFor(p, list, name, s, NewNameIn(p, list, name, s, Last(list)))
  {
    hide IsAncestor, Version, ScopeOf;
    var r := Which(p, list, s, Last(list));
    VersionReads(name, r);
    forall k: nat | k > 0 && Innermost(p, list, s, k)
      ensures k == r
    {
      assert k <= r && IsAncestor(p, s, ScopeOf(p, list[r]));
    }
    if r > 0 { LastIsInnermost(p, list, s, r); }
  }

  lemma LastIsInnermost(p: Program, list: seq<nat>, s: nat, r: nat)
    requires Ordered(p, list) && r < |list| && IsAncestor(p, s, ScopeOf(p, list[r]))
    requires forall j :: r < j < |list| ==> !IsAncestor(p, s, ScopeOf(p, list[j]))
    ensures Innermost(p, list, s, r)
  {
    hide IsAncestor, ScopeOf;
    forall j | 0 <= j < |list| && IsAncestor(p, s, ScopeOf(p, list[j]))
      ensures IsAncestor(p, ScopeOf(p, list[r]), ScopeOf(p, list[j]))
    {
      Comparable(p, s, ScopeOf(p, list[r]), ScopeOf(p, list[j]));
    }
  }

  // An identifier named `name` hangs from the declaration node.
  predicate Touched(p: Program, ns: Names, name: string, d: nat) {
    d < |p.decls| && (Named(p, ns, p.decls[d].v, name) || (p.decls[d].init.Some? && Named(p, ns, p.decls[d].init.value, name)))
  }

  predicate Named(p: Program, ns: Names, i: nat, name: string) {
    i < |ns.idents| && ns.idents[i] == name
  }

  // Where the identifiers of the declaration node stand.
  function DeclAt(p: Program, d: nat): nat {
    if d < |p.decls| && p.decls[d].v < |p.idents| then p.idents[p.decls[d].v].at else 0
  }

  lemma DeclStep(p: Program, ns: Names, ns1: Names, name: string, list: seq<nat>, k: nat, d: nat)
    requires Valid(p) && Fits(p, ns) && 0 < k < |list| && d < |p.decls|
    requires ns1 == RenameIn(p, ns, ScopeOf(p, list[k]), name, Version(name, k)) && Version(name, k) != name
    ensures var under := IsAncestor(p, DeclAt(p, d), ScopeOf(p, list[k]));
            && ns1.decls[d] == (if Touched(p, ns, name, d) && under then Version(name, k) else ns.decls[d])
            && (Touched(p, ns1, name, d) <==> Touched(p, ns, name, d) && !under)
  {
    hide IsAncestor;
    assert ValidDecl(p, d);
  }
}
