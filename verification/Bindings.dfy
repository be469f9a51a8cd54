/** What renaming does to bindings: exactly when every identifier still stands for the declaration it
    stood for, in one order of the names and in all, and why declarations of one name in different
    scopes end with different names. */
module Bindings {
  import opened Options
  import opened VersionNames
  import opened Scopes
  import opened Renaming

  predicate Distinct(order: seq<string>) {
    forall i, j :: 0 <= i < j < |order| ==> order[i] != order[j]
  }

  // The version names are new: no identifier and no other declaration has one.
  ghost predicate Fresh(p: Program, ns: Names, m: Lists) {
    forall v, k: nat :: v in m && 0 < k < |m[v]| ==>
      && Version(v, k) !in ns.idents
      && forall s, e :: 0 <= s < |p.lists| && e in p.lists[s] && e.OfOther? ==> e.name != Version(v, k)
  }

  // Before renaming: the names of declaration nodes are those of their variables, and no variable is
  // hoisted out of a scope that declares its name itself.
  ghost predicate Start(p: Program, ns: Names) {
    && Valid(p) && Fits(p, ns)
    && (forall d :: 0 <= d < |p.decls| ==> p.decls[d].v < |ns.idents| && ns.decls[d] == ns.idents[p.decls[d].v])
    && forall i :: 0 <= i < |p.idents| ==> Hoists(p, ns, i)
  }

  // Scopes the identifier has been hoisted out of do not declare its name.
  ghost predicate Hoists(p: Program, ns: Names, i: nat)
    requires i < |p.idents| && Fits(p, ns)
  {
    forall t, e :: 0 <= t < |p.lists| && Between(p, i, t) && e in p.lists[t] ==> EntryName(p, ns, e) != ns.idents[i]
  }

  predicate Between(p: Program, i: nat, t: nat)
    requires i < |p.idents|
  {
    t != p.idents[i].scope && IsAncestor(p, p.idents[i].at, t) && IsAncestor(p, t, p.idents[i].scope)
  }

  lemma NotHoisted(p: Program, ns: Names, i: nat)
    requires i < |p.idents| && Fits(p, ns) && p.idents[i].at == p.idents[i].scope
    ensures Hoists(p, ns, i)
  {
    hide IsAncestor;
    forall t | 0 <= t < |p.lists|
      ensures !Between(p, i, t)
    {
      if Between(p, i, t) {
        AncestorIsBelow(p, p.idents[i].at, t);
        AncestorIsBelow(p, t, p.idents[i].scope);
      }
    }
  }

  function WhichOf(p: Program, m: Lists, name: string, s: nat): nat {
    Which(p, ListOf(m, name), s, Last(ListOf(m, name)))
  }

  function Versioned(p: Program, m: Lists, name: string, s: nat): string {
    var r := WhichOf(p, m, name, s);
    if r == 0 then name else Version(name, r)
  }

  predicate Renamed(p: Program, ns: Names, m: Lists, i: nat)
    requires Fits(p, ns) && i < |p.idents|
  {
    !p.idents[i].role.Field? && WhichOf(p, m, ns.idents[i], p.idents[i].at) > 0
  }

  function NewName(p: Program, ns: Names, m: Lists, i: nat): string
    requires Fits(p, ns) && i < |p.idents|
  {
    if p.idents[i].role.Field? then ns.idents[i] else Versioned(p, m, ns.idents[i], p.idents[i].at)
  }

  // The name of a declaration node after the names of `order`: each rename of an identifier that hangs
  // from it, the variable or the initial value, overwrites it.
  function DeclFinal(p: Program, ns: Names, m: Lists, order: seq<string>, d: nat): string
    requires Fits(p, ns) && d < |p.decls|
  {
    if order == [] then ns.decls[d]
    else
      var w := order[|order| - 1];
      if Touched(p, ns, w, d) && WhichOf(p, m, w, DeclAt(p, d)) > 0 then Version(w, WhichOf(p, m, w, DeclAt(p, d)))
      else DeclFinal(p, ns, m, order[..|order| - 1], d)
  }

  // Names still to be worked off have not changed.
  lemma {:induction false} NamesAfter(p: Program, ns: Names, m: Lists, order: seq<string>)
    requires Start(p, ns) && RightLists(p, ns, m, |p.idents|) && Fresh(p, ns, m)
    requires Distinct(order) && forall v :: v in order ==> v in m
    ensures var r := RenameAll(p, ns, m, order);
            && Fits(p, r)
            && (forall i :: 0 <= i < |p.idents| ==> r.idents[i] == if ns.idents[i] in order then NewName(p, ns, m, i) else ns.idents[i])
            && (forall d :: 0 <= d < |p.decls| ==> r.decls[d] == DeclFinal(p, ns, m, order, d))
  {
    hide Start, RightLists, Fresh, Which, NewName, IdentAfter, DeclAfter;
    StartTells(p, ns);
    if order != [] {
      var n := |order| - 1;
      var w, before := order[n], order[..n];
      assert order == before + [w];
      NamesAfter(p, ns, m, before);
      var ns1 := RenameAll(p, ns, m, before);
      var list := ListOf(m, w);
      RenameDownIs(p, ns1, w, list, Last(list));
      forall i | 0 <= i < |p.idents|
        ensures IdentAfter(p, ns1, w, list, Last(list), i) == if ns.idents[i] in order then NewName(p, ns, m, i) else ns.idents[i]
      {
        IdentStep(p, ns, m, before, w, ns1, i);
      }
      forall d | 0 <= d < |p.decls|
        ensures DeclAfter(p, ns1, w, list, Last(list), d) == DeclFinal(p, ns, m, order, d)
      {
        DeclStepIn(p, ns, m, before, w, ns1, order, d);
      }
    }
  }

  lemma IdentStep(p: Program, ns: Names, m: Lists, before: seq<string>, w: string, ns1: Names, i: nat)
    requires Fits(p, ns) && Fits(p, ns1) && RightLists(p, ns, m, |p.idents|) && Fresh(p, ns, m) && i < |p.idents|
    requires w in m && w !in before && forall v :: v in before ==> v in m
    requires ns1.idents[i] == if ns.idents[i] in before then NewName(p, ns, m, i) else ns.idents[i]
    ensures IdentAfter(p, ns1, w, ListOf(m, w), Last(ListOf(m, w)), i) ==
            if ns.idents[i] in before + [w] then NewName(p, ns, m, i) else ns.idents[i]
    ensures ns1.idents[i] == w <==> ns.idents[i] == w
  {
    hide Which, RightLists, Fresh;
    NotYet(p, ns, m, before, w, i);
  }

  lemma DeclStepIn(p: Program, ns: Names, m: Lists, before: seq<string>, w: string, ns1: Names, order: seq<string>, d: nat)
    requires Fits(p, ns) && Fits(p, ns1) && RightLists(p, ns, m, |p.idents|) && Fresh(p, ns, m) && d < |p.decls|
    requires w in m && w !in before && (forall v :: v in before ==> v in m) && order == before + [w]
    requires forall i :: 0 <= i < |p.idents| ==> ns1.idents[i] == if ns.idents[i] in before then NewName(p, ns, m, i) else ns.idents[i]
    requires ns1.decls[d] == DeclFinal(p, ns, m, before, d)
    ensures DeclAfter(p, ns1, w, ListOf(m, w), Last(ListOf(m, w)), d) == DeclFinal(p, ns, m, order, d)
  {
    hide Which, RightLists, Fresh, NewName;
    assert order[..|order| - 1] == before;
    forall i | 0 <= i < |p.idents|
      ensures ns1.idents[i] == w <==> ns.idents[i] == w
    {
      IdentStep(p, ns, m, before, w, ns1, i);
    }
  }

  lemma StartTells(p: Program, ns: Names)
    requires Start(p, ns)
    ensures Valid(p) && Fits(p, ns)
    ensures forall d :: 0 <= d < |p.decls| ==> p.decls[d].v < |p.idents| && ns.decls[d] == ns.idents[p.decls[d].v]
  {
  }

  lemma NotYet(p: Program, ns: Names, m: Lists, before: seq<string>, w: string, i: nat)
    requires Fits(p, ns) && RightLists(p, ns, m, |p.idents|) && Fresh(p, ns, m) && i < |p.idents|
    requires w in m && w !in before && forall v :: v in before ==> v in m
    ensures ns.idents[i] in before ==> NewName(p, ns, m, i) != w && ns.idents[i] != w
  {
    hide Which;
    assert m[w] != [] && AllDeclare(p, ns, m[w], w, |p.idents|);
    assert w == ns.idents[m[w][0]] && w in ns.idents;
  }

  // -------- Declaration nodes

  // The scope that lists the declaration node.
  function DeclScope(p: Program, d: nat): nat {
    if d < |p.decls| then ScopeOf(p, p.decls[d].v) else 0
  }

  predicate Before(order: seq<string>, a: string, b: string) {
    exists i, j :: 0 <= i < j < |order| && order[i] == a && order[j] == b
  }

  predicate InRange(p: Program, d: nat) {
    && d < |p.decls| && p.decls[d].v < |p.idents|
    && (p.decls[d].init.Some? ==> p.decls[d].init.value < |p.idents|)
  }

  // The initial value of the declaration is an identifier of another name that is renamed.
  predicate ForeignInit(p: Program, ns: Names, m: Lists, d: nat)
    requires Fits(p, ns) && InRange(p, d)
  {
    var n := p.decls[d];
    n.init.Some? && ns.idents[n.init.value] != ns.idents[n.v] && Renamed(p, ns, m, n.init.value)
  }

  // In addition the variable is not renamed after it.
  predicate Clobbered(p: Program, ns: Names, m: Lists, order: seq<string>, d: nat)
    requires Fits(p, ns) && InRange(p, d)
  {
    var n := p.decls[d];
    ForeignInit(p, ns, m, d) && !(Renamed(p, ns, m, n.v) && Before(order, ns.idents[n.init.value], ns.idents[n.v]))
  }

  // A name `x` overwritten, for each name of `order` in turn, by version `rx` of itself or `ra` of `a`.
  function Written(order: seq<string>, x: string, rx: nat, a: string, ra: nat): string {
    if order == [] then x
    else
      var w := order[|order| - 1];
      if w == x && rx > 0 then Version(x, rx)
      else if w == a && ra > 0 then Version(a, ra)
      else Written(order[..|order| - 1], x, rx, a, ra)
  }

  lemma {:induction false} WrittenIs(order: seq<string>, x: string, rx: nat, a: string, ra: nat)
    requires Distinct(order) && x != a
    ensures Written(order, x, rx, a, ra) ==
            if a in order && ra > 0 && !(x in order && rx > 0 && Before(order, a, x)) then Version(a, ra)
            else if x in order && rx > 0 then Version(x, rx) else x
  {
    hide Before, Version;
    if order != [] {
      var k := |order| - 1;
      assert order == order[..k] + [order[k]];
      WrittenIs(order[..k], x, rx, a, ra);
      BeforeStep(order, a, x);
    }
  }

  lemma {:induction false} WrittenAlone(order: seq<string>, x: string, rx: nat)
    ensures Written(order, x, rx, x, rx) == if x in order && rx > 0 then Version(x, rx) else x
  {
    hide Version;
    if order != [] {
      var k := |order| - 1;
      assert order == order[..k] + [order[k]];
      WrittenAlone(order[..k], x, rx);
    }
  }

  // The other identifier that hangs from a declaration node, if there is one.
  function Init(p: Program, d: nat): nat
    requires d < |p.decls|
  {
    if p.decls[d].init.Some? then p.decls[d].init.value else p.decls[d].v
  }

  lemma {:induction false} DeclIsWritten(p: Program, ns: Names, m: Lists, order: seq<string>, d: nat)
    requires Fits(p, ns) && d < |p.decls| && p.decls[d].v < |p.idents| && Init(p, d) < |p.idents|
    requires ns.decls[d] == ns.idents[p.decls[d].v]
    ensures var x, a, t := ns.idents[p.decls[d].v], ns.idents[Init(p, d)], DeclAt(p, d);
            DeclFinal(p, ns, m, order, d) == Written(order, x, WhichOf(p, m, x, t), a, WhichOf(p, m, a, t))
  {
    hide Which, Version;
    if order != [] { DeclIsWritten(p, ns, m, order[..|order| - 1], d); }
  }

  lemma BeforeStep(order: seq<string>, a: string, b: string)
    requires order != [] && Distinct(order) && a != b
    ensures var before, w := order[..|order| - 1], order[|order| - 1];
            (Before(order, a, b) <==> Before(before, a, b) || (w == b && a in before)) && (Before(before, a, b) ==> a in before && w != a)
  {
    var n := |order| - 1;
    var before := order[..n];
    if Before(order, a, b) {
      var i, j :| 0 <= i < j < |order| && order[i] == a && order[j] == b;
      assert before[i] == a;
      if j < n { assert before[j] == b; }
    }
    if Before(before, a, b) {
      var i, j :| 0 <= i < j < n && before[i] == a && before[j] == b;
      assert order[i] == a && order[j] == b && order[n] != order[i];
    }
    if order[n] == b && a in before {
      var i :| 0 <= i < n && before[i] == a;
      assert order[i] == a && order[n] == b;
    }
  }

  // Its node and its variable end with one name, unless the node is clobbered: then it ends with the
  // name of the initial value.
  lemma DeclKept(p: Program, ns: Names, m: Lists, order: seq<string>, d: nat)
    requires Start(p, ns) && RightLists(p, ns, m, |p.idents|) && Fresh(p, ns, m) && Distinct(order)
    requires (forall v :: v in order <==> v in m) && d < |p.decls| && ValidDecl(p, d)
    ensures DeclFinal(p, ns, m, order, d) == NewName(p, ns, m, p.decls[d].v) <==> !Clobbered(p, ns, m, order, d)
    ensures Clobbered(p, ns, m, order, d) ==> DeclFinal(p, ns, m, order, d) == NewName(p, ns, m, p.decls[d].init.value)
  {
    hide Start, Valid, RightLists, Fresh, Which, Version, Before;
    StartTells(p, ns);
    var n, i := p.decls[d], Init(p, d);
    var x, a, t := ns.idents[n.v], ns.idents[i], DeclAt(p, d);
    DeclIsWritten(p, ns, m, order, d);
    if x == a {
      WrittenAlone(order, x, WhichOf(p, m, x, t));
    } else {
      WrittenIs(order, x, WhichOf(p, m, x, t), a, WhichOf(p, m, a, t));
      if Renamed(p, ns, m, i) { NamesDiffer(p, ns, m, i, n.v); }
    }
  }

  // A renamed identifier has a name of its own.
  lemma NamesDiffer(p: Program, ns: Names, m: Lists, i: nat, j: nat)
    requires Fits(p, ns) && Fresh(p, ns, m) && i < |p.idents| && j < |p.idents|
    requires Renamed(p, ns, m, i) && ns.idents[i] != ns.idents[j]
    ensures NewName(p, ns, m, i) != NewName(p, ns, m, j)
  {
    hide Which;
    var v, w := ns.idents[i], ns.idents[j];
    var k, l := WhichOf(p, m, v, p.idents[i].at), WhichOf(p, m, w, p.idents[j].at);
    assert v in m && Version(v, k) !in ns.idents;
    if Version(v, k) == Version(w, l) { VersionIsInjective(v, k, w, l); }
  }

  // -------- Identifiers

  // Renaming is done: every listed name has been worked off.
  ghost predicate Done(p: Program, ns: Names, m: Lists, order: seq<string>, f: Names) {
    && Start(p, ns) && RightLists(p, ns, m, |p.idents|) && Fresh(p, ns, m) && Distinct(order)
    && (forall v :: v in order <==> v in m) && Fits(p, f)
    && (forall i :: 0 <= i < |p.idents| ==> f.idents[i] == NewName(p, ns, m, i))
    && (forall d :: 0 <= d < |p.decls| ==> f.decls[d] == DeclFinal(p, ns, m, order, d))
  }

  // The identifier stands for what it stood for.
  ghost predicate Kept(p: Program, ns: Names, f: Names, i: nat)
    requires i < |p.idents| && Fits(p, ns) && Fits(p, f)
  {
    FindDeclOf(p, f, p.idents[i].scope, f.idents[i]) == FindDeclOf(p, ns, p.idents[i].scope, ns.idents[i])
  }

  // The identifier stands for a function, class or import.
  predicate StandsForOther(p: Program, ns: Names, i: nat)
    requires i < |p.idents| && Fits(p, ns)
  {
    var r := FindDeclOf(p, ns, p.idents[i].scope, ns.idents[i]);
    r.Some? && r.value.1.OfOther?
  }

  // The identifier of a variable or parameter that is listed in a scope.
  function IdentOf(p: Program, e: Entry): nat
    requires !e.OfOther?
  {
    match e case OfDecl(d) => if d < |p.decls| then p.decls[d].v else 0 case OfParam(i) => i
  }

  // The entry is a declaration node that is clobbered.
  ghost predicate IsClobbered(p: Program, ns: Names, m: Lists, order: seq<string>, e: Entry)
    requires Fits(p, ns)
  {
    e.OfDecl? && InRange(p, e.d) && Clobbered(p, ns, m, order, e.d)
  }

  lemma EntryIs(p: Program, ns: Names, m: Lists, order: seq<string>, f: Names, s: nat, e: Entry)
    requires Done(p, ns, m, order, f) && s < |p.lists| && e in p.lists[s] && !e.OfOther?
    ensures var j := IdentOf(p, e);
            && j < |p.idents| && p.idents[j].scope == s && !p.idents[j].role.Field? && EntryName(p, ns, e) == ns.idents[j]
            && (!IsClobbered(p, ns, m, order, e) ==> EntryName(p, f, e) == NewName(p, ns, m, j))
    ensures IsClobbered(p, ns, m, order, e) ==> EntryName(p, f, e) == NewName(p, ns, m, p.decls[e.d].init.value)
  {
    hide RightLists, Fresh, Clobbered;
    assert Entered(p, s, e);
    if e.OfDecl? {
      assert ValidDecl(p, e.d);
      DeclKept(p, ns, m, order, e.d);
    }
  }

  // Only what had the same name has the same new name.
  lemma SameNewName(p: Program, ns: Names, m: Lists, i: nat, j: nat)
    requires Fits(p, ns) && Fresh(p, ns, m) && i < |p.idents| && j < |p.idents|
    requires NewName(p, ns, m, i) == NewName(p, ns, m, j)
    ensures ns.idents[i] == ns.idents[j]
  {
    hide Which;
    if ns.idents[i] != ns.idents[j] {
      if Renamed(p, ns, m, i) { NamesDiffer(p, ns, m, i, j); } else if Renamed(p, ns, m, j) { NamesDiffer(p, ns, m, j, i); }
    }
  }

  lemma OtherIsNoVersion(p: Program, ns: Names, m: Lists, i: nat, s: nat, e: Entry)
    requires Fits(p, ns) && Fresh(p, ns, m) && i < |p.idents| && Renamed(p, ns, m, i)
    requires s < |p.lists| && e in p.lists[s] && e.OfOther?
    ensures e.name != NewName(p, ns, m, i)
  {
    hide Which;
    assert ns.idents[i] in m;
  }

  // A listed scope declares its name, unless it is listed for an initial value whose variable, of the
  // same name, was hoisted.
  lemma ListedDeclares(p: Program, ns: Names, m: Lists, v: string, k: nat)
    requires Start(p, ns) && RightLists(p, ns, m, |p.idents|) && v in m && k < |m[v]|
    requires forall d :: 0 <= d < |p.decls| && InRange(p, d) ==> !HoistsItself(p, ns, d)
    ensures var t := ScopeOf(p, m[v][k]); t < |p.lists| && exists e :: e in p.lists[t] && EntryName(p, ns, e) == v
  {
    hide IsAncestor, Hoists;
    var i := m[v][k];
    assert AllDeclare(p, ns, m[v], v, |p.idents|);
    assert Declares(p, ns, i) && ns.idents[i] == v && ValidIdent(p, i);
    var t := ScopeOf(p, i);
    var role := p.idents[i].role;
    if role.ParamOf? {
      assert OfParam(i) in p.lists[t] && EntryName(p, ns, OfParam(i)) == v;
    } else {
      var d := role.d;
      assert ValidDecl(p, d);
      assert role.InitOf? ==> !HoistsItself(p, ns, d);
      assert OfDecl(d) in p.lists[t] && EntryName(p, ns, OfDecl(d)) == v;
    }
  }

  // A hoisted variable has itself as initial value, or another identifier of its name.
  predicate HoistsItself(p: Program, ns: Names, d: nat)
    requires InRange(p, d) && Fits(p, ns)
  {
    var n := p.decls[d];
    n.init.Some? && ns.idents[n.init.value] == ns.idents[n.v] && DeclAt(p, d) != DeclScope(p, d)
  }

  // If the identifier stands for a variable or parameter, both get the same version.
  predicate Follows(p: Program, ns: Names, m: Lists, i: nat)
    requires i < |p.idents| && Fits(p, ns)
  {
    var r := FindDeclOf(p, ns, p.idents[i].scope, ns.idents[i]);
    r.Some? && !r.value.1.OfOther? && IdentOf(p, r.value.1) < |p.idents| ==>
      WhichOf(p, m, ns.idents[i], p.idents[IdentOf(p, r.value.1)].at) == WhichOf(p, m, ns.idents[i], p.idents[i].at)
  }

  ghost predicate AllFollow(p: Program, ns: Names, m: Lists)
    requires Fits(p, ns)
  {
    forall i :: 0 <= i < |p.idents| && !p.idents[i].role.Field? ==> Follows(p, ns, m, i)
  }

  // Between an identifier and its declaration no scope is listed, so both get the same version, unless a
  // hoisted variable has its own name as initial value.
  lemma SameVersion(p: Program, ns: Names, m: Lists, i: nat)
    requires Start(p, ns) && RightLists(p, ns, m, |p.idents|) && i < |p.idents|
    requires forall d :: 0 <= d < |p.decls| && InRange(p, d) ==> !HoistsItself(p, ns, d)
    ensures Follows(p, ns, m, i)
  {
    hide RightLists, Which, FindDeclOf, EntryName, Valid, Hoists;
    StartTells(p, ns);
    var s, v := p.idents[i].scope, ns.idents[i];
    IdentShape(p, ns, i);
    FindDeclIs(p, ns, s, v);
    var r := FindDeclOf(p, ns, s, v);
    if r.Some? && !r.value.1.OfOther? && IdentOf(p, r.value.1) < |p.idents| {
      var t, list, j := r.value.0, ListOf(m, v), IdentOf(p, r.value.1);
      EntryShape(p, ns, t, r.value.1);
      IdentShape(p, ns, j);
      forall k | 0 <= k < |list|
        ensures IsAncestor(p, p.idents[i].at, ScopeOf(p, list[k])) <==> IsAncestor(p, p.idents[j].at, ScopeOf(p, list[k]))
      {
        var l := ScopeOf(p, list[k]);
        ListedDeclares(p, ns, m, v, k);
        ListedAround(p, ns, i, l);
        ListedAround(p, ns, j, l);
        if IsAncestor(p, t, l) { AncestorTrans(p, s, t, l); }
      }
      SameWhich(p, list, p.idents[i].at, p.idents[j].at, Last(list));
    }
  }

  lemma IdentShape(p: Program, ns: Names, i: nat)
    requires Start(p, ns) && i < |p.idents|
    ensures p.idents[i].scope < |p.parents| == |p.lists| && p.idents[i].at < |p.parents| && Hoists(p, ns, i)
    ensures IsAncestor(p, p.idents[i].at, p.idents[i].scope) && (p.idents[i].at != p.idents[i].scope ==> p.idents[i].role.VarOf?)
  {
    hide IsAncestor, Hoists;
    assert ValidIdent(p, i);
  }

  lemma EntryShape(p: Program, ns: Names, s: nat, e: Entry)
    requires Start(p, ns) && s < |p.lists| && e in p.lists[s] && !e.OfOther?
    ensures var j := IdentOf(p, e);
            && j < |p.idents| && p.idents[j].scope == s && !p.idents[j].role.Field? && EntryName(p, ns, e) == ns.idents[j]
            && Declares(p, ns, j)
  {
    hide IsAncestor, Hoists;
    assert Entered(p, s, e);
    if e.OfDecl? { assert ValidDecl(p, e.d); }
  }

  // A scope that declares the name of an identifier is around where it stands if it is around its scope.
  lemma ListedAround(p: Program, ns: Names, i: nat, l: nat)
    requires Start(p, ns) && i < |p.idents| && l < |p.lists| && exists e :: e in p.lists[l] && EntryName(p, ns, e) == ns.idents[i]
    ensures IsAncestor(p, p.idents[i].at, l) <==> IsAncestor(p, p.idents[i].scope, l)
  {
    hide IsAncestor, EntryName, Valid;
    IdentShape(p, ns, i);
    var a, s := p.idents[i].at, p.idents[i].scope;
    assert !Between(p, i, l);
    if IsAncestor(p, s, l) { AncestorTrans(p, a, s, l); }
    if IsAncestor(p, a, l) {
      Comparable(p, a, l, s);
      Itself(p, s);
    }
  }

  lemma {:induction false} SameWhich(p: Program, list: seq<nat>, s: nat, t: nat, k: nat)
    requires k == 0 || k < |list|
    requires forall j :: 0 <= j < |list| ==> (IsAncestor(p, s, ScopeOf(p, list[j])) <==> IsAncestor(p, t, ScopeOf(p, list[j])))
    ensures Which(p, list, s, k) == Which(p, list, t, k)
    decreases k
  {
    if k > 0 { SameWhich(p, list, s, t, k - 1); }
  }

  // -------- The first entry of a name

  lemma {:induction false} FirstEntry(p: Program, ns: Names, list: seq<Entry>, name: string, k: nat)
    requires k < |list| && EntryName(p, ns, list[k]) == name
    requires forall j :: 0 <= j < k ==> EntryName(p, ns, list[j]) != name
    ensures FindIn(p, ns, list, name) == Some(list[k])
    decreases k
  {
    if k > 0 { FirstEntry(p, ns, list[1..], name, k - 1); }
  }

  lemma {:induction false} FirstIndex(p: Program, ns: Names, list: seq<Entry>, name: string) returns (k: nat)
    requires FindIn(p, ns, list, name).Some?
    ensures k < |list| && FindIn(p, ns, list, name) == Some(list[k]) && EntryName(p, ns, list[k]) == name
    ensures forall j :: 0 <= j < k ==> EntryName(p, ns, list[j]) != name
  {
    if EntryName(p, ns, list[0]) == name {
      k := 0;
    } else {
      k := FirstIndex(p, ns, list[1..], name);
      k := k + 1;
      assert forall j :: 0 < j < k ==> list[j] == list[1..][j - 1];
    }
  }

  // An entry of that name comes before position `k`.
  predicate HasBefore(p: Program, ns: Names, list: seq<Entry>, k: nat, name: string) {
    exists j :: 0 <= j < k && j < |list| && EntryName(p, ns, list[j]) == name
  }

  // The initial value of a hoisted variable is declared inside the variable's scope.
  predicate BoundInside(p: Program, ns: Names, d: nat)
    requires Fits(p, ns) && InRange(p, d)
  {
    var r := FindDeclOf(p, ns, DeclAt(p, d), ns.idents[Init(p, d)]);
    r.Some? && r.value.0 != DeclScope(p, d) && IsAncestor(p, r.value.0, DeclScope(p, d))
  }

  // The scope has declared the variable before, so nothing stands for this declaration; and it has
  // declared the name of the initial value before, or that is declared further in, so nothing comes to
  // stand for this declaration.
  ghost predicate Repeated(p: Program, ns: Names, d: nat)
    requires Fits(p, ns) && InRange(p, d) && DeclScope(p, d) < |p.lists|
  {
    var list := p.lists[DeclScope(p, d)];
    forall k: nat :: k < |list| && list[k] == OfDecl(d) ==>
      HasBefore(p, ns, list, k, ns.idents[p.decls[d].v]) && (BoundInside(p, ns, d) || HasBefore(p, ns, list, k, ns.idents[Init(p, d)]))
  }

  lemma DeclShape(p: Program, d: nat)
    requires Valid(p) && d < |p.decls|
    ensures InRange(p, d) && ValidDecl(p, d) && DeclScope(p, d) < |p.lists| && OfDecl(d) in p.lists[DeclScope(p, d)]
  {
    assert ValidDecl(p, d);
  }

  // Every clobbered declaration is a repeated one.
  ghost predicate Harmless(p: Program, ns: Names, m: Lists, order: seq<string>)
    requires Start(p, ns)
  {
    forall d :: 0 <= d < |p.decls| && InRange(p, d) && DeclScope(p, d) < |p.lists| && Clobbered(p, ns, m, order, d) ==> Repeated(p, ns, d)
  }

  // No renamed identifier stands for a function, class or import.
  ghost predicate NoOther(p: Program, ns: Names, m: Lists)
    requires Fits(p, ns)
  {
    forall i :: 0 <= i < |p.idents| && Renamed(p, ns, m, i) ==> !StandsForOther(p, ns, i)
  }

  ghost predicate AllKept(p: Program, ns: Names, f: Names)
    requires Fits(p, ns) && Fits(p, f)
  {
    forall i :: 0 <= i < |p.idents| && !p.idents[i].role.Field? ==> Kept(p, ns, f, i)
  }

  // What it takes for all bindings to be kept.
  ghost predicate NothingLost(p: Program, ns: Names, m: Lists, order: seq<string>)
    requires Start(p, ns)
  {
    Harmless(p, ns, m, order) && NoOther(p, ns, m) && AllFollow(p, ns, m)
  }

  lemma DoneTells(p: Program, ns: Names, m: Lists, order: seq<string>, f: Names)
    requires Done(p, ns, m, order, f)
    ensures Start(p, ns) && Valid(p) && Fits(p, ns) && Fits(p, f) && Fresh(p, ns, m)
    ensures RightLists(p, ns, m, |p.idents|)
    ensures forall i :: 0 <= i < |p.idents| ==> p.idents[i].scope < |p.parents| == |p.lists| && f.idents[i] == NewName(p, ns, m, i)
  {
  }

  // The identifier is searched in scope `u` of the search.
  ghost predicate Searched(p: Program, ns: Names, i: nat, u: nat)
    requires i < |p.idents| && Fits(p, ns)
  {
    && IsAncestor(p, p.idents[i].scope, u) && u < |p.lists|
    && FindDeclOf(p, ns, p.idents[i].scope, ns.idents[i]) == FindDeclOf(p, ns, u, ns.idents[i])
  }

  // Up to an entry of the old name, no entry has the new name.
  lemma NotTaken(p: Program, ns: Names, m: Lists, order: seq<string>, f: Names, i: nat, u: nat, k: nat)
    requires Done(p, ns, m, order, f) && NothingLost(p, ns, m, order) && i < |p.idents| && !p.idents[i].role.Field?
    requires Searched(p, ns, i, u) && k < |p.lists[u]| && forall j :: 0 <= j <= k ==> EntryName(p, ns, p.lists[u][j]) != ns.idents[i]
    ensures EntryName(p, f, p.lists[u][k]) != f.idents[i]
  {
    hide Done, Which, EntryName, Start, Valid, Fresh, Clobbered, NewName, Renamed, Repeated, NoOther, AllFollow, FindDeclOf, IsAncestor;
    DoneTells(p, ns, m, order, f);
    var e := p.lists[u][k];
    assert e in p.lists[u] && EntryName(p, ns, e) != ns.idents[i];
    if e.OfOther? {
      OtherNotTaken(p, ns, m, f, i, u, e);
    } else {
      EntryIs(p, ns, m, order, f, u, e);
      if EntryName(p, f, e) == f.idents[i] {
        if IsClobbered(p, ns, m, order, e) {
          ClobberedComesAfter(p, ns, m, order, u, k, e.d);
          SameNewName(p, ns, m, p.decls[e.d].init.value, i);
          OutOfReach(p, ns, m, order, f, i, u, e.d);
        } else {
          SameNewName(p, ns, m, IdentOf(p, e), i);
        }
      }
    }
  }

  lemma OtherNotTaken(p: Program, ns: Names, m: Lists, f: Names, i: nat, u: nat, e: Entry)
    requires Fits(p, ns) && Fits(p, f) && Fresh(p, ns, m) && i < |p.idents| && f.idents[i] == NewName(p, ns, m, i)
    requires u < |p.lists| && e in p.lists[u] && e.OfOther? && EntryName(p, ns, e) != ns.idents[i]
    ensures EntryName(p, f, e) != f.idents[i]
  {
    if Renamed(p, ns, m, i) { OtherIsNoVersion(p, ns, m, i, u, e); }
  }

  lemma ClobberedComesAfter(p: Program, ns: Names, m: Lists, order: seq<string>, u: nat, k: nat, d: nat)
    requires Start(p, ns) && Harmless(p, ns, m, order) && u < |p.lists| && k < |p.lists[u]| && p.lists[u][k] == OfDecl(d)
    requires InRange(p, d) && Clobbered(p, ns, m, order, d)
    ensures HasBefore(p, ns, p.lists[u], k, ns.idents[p.decls[d].v]) && p.decls[d].init.Some?
    ensures BoundInside(p, ns, d) || HasBefore(p, ns, p.lists[u], k, ns.idents[p.decls[d].init.value])
  {
    hide EntryName, HasBefore, Renamed, Before, BoundInside;
    assert Entered(p, u, p.lists[u][k]);
  }

  // If the initial value is declared inside `u`, an identifier of its name and version is not searched in `u`.
  lemma OutOfReach(p: Program, ns: Names, m: Lists, order: seq<string>, f: Names, i: nat, u: nat, d: nat)
    requires Done(p, ns, m, order, f) && NoOther(p, ns, m) && i < |p.idents| && u < |p.lists|
    requires OfDecl(d) in p.lists[u] && InRange(p, d) && Clobbered(p, ns, m, order, d) && BoundInside(p, ns, d)
    requires f.idents[p.decls[d].init.value] == f.idents[i]
    ensures !Searched(p, ns, i, u)
  {
    hide Done, Which, EntryName, Start, Valid, Fresh, Before, NoOther, FindDeclOf, IsAncestor;
    DoneTells(p, ns, m, order, f);
    DeclShape(p, d);
    assert Entered(p, u, OfDecl(d)) && DeclScope(p, d) == u by { EntryIn(p, ns, u, d); }
    var a := p.decls[d].init.value;
    SameNewName(p, ns, m, a, i);
    var v := ns.idents[i];
    var t := FindDeclOf(p, ns, DeclAt(p, d), v).value.0;
    assert p.idents[a].scope == DeclAt(p, d) == p.idents[a].at;
    assert !StandsForOther(p, ns, a) by { NotOther(p, ns, m, a); }
    StandsInside(p, ns, m, order, f, a, i, t);
    TooFarOut(p, ns, i, u, t);
  }

  lemma EntryIn(p: Program, ns: Names, u: nat, d: nat)
    requires Start(p, ns) && u < |p.lists| && OfDecl(d) in p.lists[u] && InRange(p, d)
    ensures Entered(p, u, OfDecl(d)) && DeclScope(p, d) == u
  {
    assert Entered(p, u, OfDecl(d));
  }

  lemma NotOther(p: Program, ns: Names, m: Lists, a: nat)
    requires Fits(p, ns) && NoOther(p, ns, m) && a < |p.idents| && Renamed(p, ns, m, a)
    ensures !StandsForOther(p, ns, a)
  {
  }

  // A renamed identifier that stands for a variable or parameter of scope `t`: wherever its new name
  // is used, that is inside `t`.
  lemma StandsInside(p: Program, ns: Names, m: Lists, order: seq<string>, f: Names, a: nat, i: nat, t: nat)
    requires Done(p, ns, m, order, f) && a < |p.idents| && i < |p.idents| && Renamed(p, ns, m, a) && f.idents[a] == f.idents[i]
    requires var r := FindDeclOf(p, ns, p.idents[a].scope, ns.idents[a]); r.Some? && r.value.0 == t && !r.value.1.OfOther?
    ensures t < |p.lists| && IsAncestor(p, p.idents[a].at, t) && IsAncestor(p, p.idents[i].at, t)
    ensures ns.idents[a] == ns.idents[i] && exists e :: e in p.lists[t] && EntryName(p, ns, e) == ns.idents[i]
  {
    hide Done, EntryName, Start, Valid, Fresh, FindDeclOf, IsAncestor, Version, Declares;
    DoneTells(p, ns, m, order, f);
    SameNewName(p, ns, m, a, i);
    var v := ns.idents[a];
    FindDeclIs(p, ns, p.idents[a].scope, v);
    var e := FindDeclOf(p, ns, p.idents[a].scope, v).value.1;
    EntryShape(p, ns, t, e);
    IdentShape(p, ns, a);
    AncestorTrans(p, p.idents[a].at, p.idents[a].scope, t);
    var list := ListOf(m, v);
    var l := ListedAt(p, ns, m, IdentOf(p, e));
    var r := WhichOf(p, m, v, p.idents[a].at);
    InnermostListed(p, list, p.idents[a].at, l);
    SameVersionOf(p, ns, m, a, i);
    AncestorTrans(p, p.idents[i].at, ScopeOf(p, list[r]), t);
  }

  lemma ListedAt(p: Program, ns: Names, m: Lists, j: nat) returns (l: nat)
    requires Start(p, ns) && RightLists(p, ns, m, |p.idents|) && j < |p.idents| && Declares(p, ns, j)
    ensures ns.idents[j] in m && Ordered(p, m[ns.idents[j]])
    ensures l < |m[ns.idents[j]]| && ScopeOf(p, m[ns.idents[j]][l]) == p.idents[j].scope
  {
    hide Declares, IsAncestor, Valid, Hoists;
    var list := m[ns.idents[j]];
    l :| 0 <= l < |list| && ScopeOf(p, list[l]) == ScopeOf(p, j);
  }

  // The last listed scope around `s` is inside any other that is listed and around `s`.
  lemma InnermostListed(p: Program, list: seq<nat>, s: nat, l: nat)
    requires Ordered(p, list) && l < |list| && IsAncestor(p, s, ScopeOf(p, list[l]))
    ensures var r := Which(p, list, s, Last(list));
            r < |list| && IsAncestor(p, s, ScopeOf(p, list[r])) && IsAncestor(p, ScopeOf(p, list[r]), ScopeOf(p, list[l]))
  {
    hide IsAncestor, ScopeOf;
    var r := Which(p, list, s, Last(list));
    assert l <= r;
    Comparable(p, s, ScopeOf(p, list[r]), ScopeOf(p, list[l]));
    if r == l { Itself(p, ScopeOf(p, list[l])); }
  }

  lemma Itself(p: Program, s: nat)
    ensures IsAncestor(p, s, s)
  {
  }

  // Identifiers that end with one new name have the same version.
  lemma SameVersionOf(p: Program, ns: Names, m: Lists, a: nat, i: nat)
    requires Fits(p, ns) && a < |p.idents| && i < |p.idents| && Renamed(p, ns, m, a) && ns.idents[a] == ns.idents[i]
    requires NewName(p, ns, m, a) == NewName(p, ns, m, i)
    ensures WhichOf(p, m, ns.idents[a], p.idents[a].at) == WhichOf(p, m, ns.idents[a], p.idents[i].at)
    ensures ns.idents[a] in m && IsAncestor(p, p.idents[i].at, ScopeOf(p, ListOf(m, ns.idents[a])[WhichOf(p, m, ns.idents[a], p.idents[a].at)]))
  {
    hide IsAncestor;
    var v := ns.idents[a];
    var r, q := WhichOf(p, m, v, p.idents[a].at), WhichOf(p, m, v, p.idents[i].at);
    VersionIsNew(v, r);
    if q != 0 && q != r { VersionIsInjective(v, r, v, q); }
  }

  // The search does not come to `u` if the identifier stands inside a scope further in that declares its name.
  lemma TooFarOut(p: Program, ns: Names, i: nat, u: nat, t: nat)
    requires Start(p, ns) && i < |p.idents| && t < |p.lists| && u < |p.lists| && t != u && IsAncestor(p, t, u)
    requires IsAncestor(p, p.idents[i].at, t) && exists e :: e in p.lists[t] && EntryName(p, ns, e) == ns.idents[i]
    ensures !Searched(p, ns, i, u)
  {
    hide IsAncestor, EntryName, ValidIdent, ValidDecl, Entered, FindDeclOf, Hoists;
    ListedAround(p, ns, i, t);
    IdentShape(p, ns, i);
    var v := ns.idents[i];
    FindDeclIs(p, ns, p.idents[i].scope, v);
    FindDeclIs(p, ns, u, v);
    AncestorIsBelow(p, t, u);
    if Searched(p, ns, i, u) {
      var r := FindDeclOf(p, ns, u, v).value.0;
      AncestorIsBelow(p, r, t);
      AncestorIsBelow(p, u, r);
    }
  }

  // In the scope where the declaration is, and in scopes without one, the search comes to the same end.
  lemma ScopeSame(p: Program, ns: Names, m: Lists, order: seq<string>, f: Names, i: nat, u: nat)
    requires Done(p, ns, m, order, f) && NothingLost(p, ns, m, order) && i < |p.idents| && !p.idents[i].role.Field?
    requires Searched(p, ns, i, u)
    ensures FindIn(p, f, p.lists[u], f.idents[i]) == FindIn(p, ns, p.lists[u], ns.idents[i])
  {
    hide Done, Which, EntryName, Start, Valid, Fresh, Clobbered, NewName, FindDeclOf, IsClobbered, NothingLost, IsAncestor;
    DoneTells(p, ns, m, order, f);
    var list, v := p.lists[u], ns.idents[i];
    var n := |list|;
    if FindIn(p, ns, list, v).Some? {
      n := FirstIndex(p, ns, list, v);
      OwnScopeFirst(p, ns, u, v);
      FirstFollows(p, ns, m, order, f, i, u, n);
    }
    forall k | 0 <= k < n
      ensures EntryName(p, f, list[k]) != f.idents[i]
    {
      if n == |list| { assert forall e :: e in list ==> EntryName(p, ns, e) != v; }
      NotTaken(p, ns, m, order, f, i, u, k);
    }
    if n < |list| {
      FirstEntry(p, f, list, f.idents[i], n);
    } else {
      assert forall e :: e in list ==> EntryName(p, f, e) != f.idents[i];
    }
  }

  // The declaration an identifier stands for is renamed as the identifier is.
  lemma FirstFollows(p: Program, ns: Names, m: Lists, order: seq<string>, f: Names, i: nat, u: nat, n: nat)
    requires Done(p, ns, m, order, f) && NothingLost(p, ns, m, order) && i < |p.idents| && !p.idents[i].role.Field?
    requires u < |p.lists| && n < |p.lists[u]|
    requires EntryName(p, ns, p.lists[u][n]) == ns.idents[i] && forall j :: 0 <= j < n ==> EntryName(p, ns, p.lists[u][j]) != ns.idents[i]
    requires FindDeclOf(p, ns, p.idents[i].scope, ns.idents[i]) == Some((u, p.lists[u][n]))
    ensures EntryName(p, f, p.lists[u][n]) == f.idents[i]
  {
    hide RightLists, Fresh, DeclFinal, Which, FindDeclOf, ValidDecl, ValidIdent, Clobbered, Hoists;
    var e := p.lists[u][n];
    assert e in p.lists[u];
    if !e.OfOther? {
      EntryIs(p, ns, m, order, f, u, e);
      if IsClobbered(p, ns, m, order, e) { ClobberedComesAfter(p, ns, m, order, u, n, e.d); }
      assert Follows(p, ns, m, i);
    } else {
      assert StandsForOther(p, ns, i);
    }
  }

  lemma {:induction false} FindSame(p: Program, ns: Names, m: Lists, order: seq<string>, f: Names, i: nat, s: nat)
    requires Done(p, ns, m, order, f) && NothingLost(p, ns, m, order) && i < |p.idents| && !p.idents[i].role.Field?
    requires s < |p.parents| == |p.lists| && Searched(p, ns, i, s)
    ensures FindDeclOf(p, f, s, f.idents[i]) == FindDeclOf(p, ns, s, ns.idents[i])
    decreases s
  {
    hide Done, EntryName, Start, Valid, NewName, Renamed, FindIn, NothingLost;
    DoneTells(p, ns, m, order, f);
    ScopeSame(p, ns, m, order, f, i, s);
    if FindIn(p, ns, p.lists[s], ns.idents[i]).None? && p.parents[s].Some? && p.parents[s].value < s {
      AncestorTrans(p, p.idents[i].scope, s, p.parents[s].value);
      FindSame(p, ns, m, order, f, i, p.parents[s].value);
    }
  }

  lemma IdentKept(p: Program, ns: Names, m: Lists, order: seq<string>, f: Names, i: nat)
    requires Done(p, ns, m, order, f) && NothingLost(p, ns, m, order) && i < |p.idents| && !p.idents[i].role.Field?
    ensures Kept(p, ns, f, i)
  {
    hide Done, Which, FindDeclOf, NewName, Renamed, NothingLost;
    DoneTells(p, ns, m, order, f);
    FindSame(p, ns, m, order, f, i, p.idents[i].scope);
  }

  // -------- What is lost

  lemma OtherIsLost(p: Program, ns: Names, m: Lists, order: seq<string>, f: Names, i: nat)
    requires Done(p, ns, m, order, f) && i < |p.idents| && Renamed(p, ns, m, i) && StandsForOther(p, ns, i)
    ensures !Kept(p, ns, f, i)
  {
    hide RightLists, Fresh, DeclFinal, Which, FindDeclOf, ValidDecl, ValidIdent;
    FindDeclIs(p, ns, p.idents[i].scope, ns.idents[i]);
    FindDeclIs(p, f, p.idents[i].scope, f.idents[i]);
    VersionIsNew(ns.idents[i], WhichOf(p, m, ns.idents[i], p.idents[i].at));
  }

  // An identifier whose version is not that of the variable or parameter it stands for loses it.
  lemma StrayIsLost(p: Program, ns: Names, m: Lists, order: seq<string>, f: Names, i: nat)
    requires Done(p, ns, m, order, f) && i < |p.idents| && !p.idents[i].role.Field? && !Follows(p, ns, m, i)
    ensures !Kept(p, ns, f, i)
  {
    hide RightLists, Fresh, DeclFinal, FindDeclOf, Valid, Hoists, Clobbered, Which, Version;
    DoneTells(p, ns, m, order, f);
    var v, s := ns.idents[i], p.idents[i].scope;
    FindDeclIs(p, ns, s, v);
    FindDeclIs(p, f, s, f.idents[i]);
    var r := FindDeclOf(p, ns, s, v).value;
    var j := IdentOf(p, r.1);
    EntryIs(p, ns, m, order, f, r.0, r.1);
    var k, l := WhichOf(p, m, v, p.idents[i].at), WhichOf(p, m, v, p.idents[j].at);
    VersionIsNew(v, k);
    VersionIsNew(v, l);
    if Version(v, k) == Version(v, l) { VersionIsInjective(v, k, v, l); }
    if IsClobbered(p, ns, m, order, r.1) {
      ClobberedTells(p, ns, m, order, f, r.0, r.1.d);
      if f.idents[i] == EntryName(p, f, r.1) { SameNewName(p, ns, m, i, p.decls[r.1.d].init.value); }
    }
  }

  // An identifier for whose name its own scope has an entry stands for the first one.
  lemma OwnScopeFirst(p: Program, ns: Names, s: nat, name: string)
    requires Valid(p) && s < |p.lists| && FindIn(p, ns, p.lists[s], name).Some?
    ensures FindDeclOf(p, ns, s, name) == Some((s, FindIn(p, ns, p.lists[s], name).value))
  {
  }

  // A clobbered declaration with no entry of its name before it: its variable has lost it.
  lemma VariableIsLost(p: Program, ns: Names, m: Lists, order: seq<string>, f: Names, d: nat, k: nat)
    requires Done(p, ns, m, order, f) && InRange(p, d) && Clobbered(p, ns, m, order, d) && DeclScope(p, d) < |p.lists|
    requires k < |p.lists[DeclScope(p, d)]| && p.lists[DeclScope(p, d)][k] == OfDecl(d)
    requires !HasBefore(p, ns, p.lists[DeclScope(p, d)], k, ns.idents[p.decls[d].v])
    ensures !p.idents[p.decls[d].v].role.Field? && !Kept(p, ns, f, p.decls[d].v)
  {
    hide RightLists, Fresh, DeclFinal, Which, FindDeclOf, Clobbered, NewName;
    DeclShape(p, d);
    var i, s := p.decls[d].v, DeclScope(p, d);
    FirstEntry(p, ns, p.lists[s], ns.idents[i], k);
    OwnScopeFirst(p, ns, s, ns.idents[i]);
    FindDeclIs(p, f, s, f.idents[i]);
    DeclKept(p, ns, m, order, d);
  }

  // A clobbered declaration with no entry of the initial value's name before it or further in: the first
  // entry that ends with that name's version is clobbered too, and its initial value has come to stand for it.
  lemma InitialValueIsLost(p: Program, ns: Names, m: Lists, order: seq<string>, f: Names, d: nat, k: nat) returns (i: nat)
    requires Done(p, ns, m, order, f) && InRange(p, d) && Clobbered(p, ns, m, order, d) && DeclScope(p, d) < |p.lists|
    requires k < |p.lists[DeclScope(p, d)]| && p.lists[DeclScope(p, d)][k] == OfDecl(d)
    requires !HasBefore(p, ns, p.lists[DeclScope(p, d)], k, ns.idents[Init(p, d)]) && !BoundInside(p, ns, d)
    ensures i < |p.idents| && !p.idents[i].role.Field? && !Kept(p, ns, f, i)
  {
    hide Done, RightLists, Fresh, DeclFinal, Which, FindDeclOf, Clobbered, NewName, EntryName, Valid, Start, IsAncestor, BoundInside;
    DoneTells(p, ns, m, order, f);
    DeclShape(p, d);
    var s, a := DeclScope(p, d), Init(p, d);
    var list := p.lists[s];
    ClobberedTells(p, ns, m, order, f, s, d);
    var name := f.idents[a];
    assert list[k] in list && EntryName(p, f, list[k]) == name;
    var n := FirstIndex(p, f, list, name);
    var e := list[n];
    assert e in list;
    assert n <= k;
    NamedByInit(p, ns, m, order, f, s, e, a, n, k);
    DeclShape(p, e.d);
    ClobberedTells(p, ns, m, order, f, s, e.d);
    i := p.decls[e.d].init.value;
    SameNewName(p, ns, m, i, a);
    if StandsForOther(p, ns, i) {
      OtherIsLost(p, ns, m, order, f, i);
    } else {
      Captured(p, ns, m, order, f, d, a, e, i, s);
    }
  }

  // An identifier with the new name of `a` that is searched in the scope of `d` has come to stand for its
  // first entry of that name.
  lemma Captured(p: Program, ns: Names, m: Lists, order: seq<string>, f: Names, d: nat, a: nat, e: Entry, i: nat, s: nat)
    requires Done(p, ns, m, order, f) && a < |p.idents| && i < |p.idents| && InRange(p, d) && a == Init(p, d) && s == DeclScope(p, d) < |p.lists|
    requires p.idents[a].scope == p.idents[a].at == DeclAt(p, d) < |p.parents|
    requires FindIn(p, f, p.lists[s], f.idents[i]) == Some(e) && EntryName(p, ns, e) != ns.idents[i] && e in p.lists[s]
    requires IsAncestor(p, p.idents[i].scope, s) && p.idents[i].scope == p.idents[i].at
    requires f.idents[i] == f.idents[a] && ns.idents[i] == ns.idents[a] && Renamed(p, ns, m, i) && !StandsForOther(p, ns, i)
    requires !BoundInside(p, ns, d)
    ensures !Kept(p, ns, f, i)
  {
    hide Done, RightLists, Fresh, Which, FindDeclOf, NewName, EntryName, Valid, Start, IsAncestor, Renamed, FindIn;
    DoneTells(p, ns, m, order, f);
    FindDeclIs(p, f, p.idents[i].scope, f.idents[i]);
    FindDeclIs(p, ns, p.idents[i].scope, ns.idents[i]);
    FindsIn(p, f, p.idents[i].scope, f.idents[i]);
    assert EntryName(p, f, e) == f.idents[i];
    var r := FindDeclOf(p, f, p.idents[i].scope, f.idents[i]).value;
    if Kept(p, ns, f, i) {
      StandsInside(p, ns, m, order, f, i, a, r.0);
      FindDeclIs(p, ns, p.idents[a].scope, ns.idents[a]);
      var q := FindDeclOf(p, ns, p.idents[a].scope, ns.idents[a]).value;
      AncestorTrans(p, q.0, r.0, s);
      AncestorIsBelow(p, q.0, r.0);
      AncestorIsBelow(p, r.0, s);
    }
  }

  lemma {:induction false} FindsIn(p: Program, ns: Names, s: nat, name: string)
    requires Valid(p) && FindDeclOf(p, ns, s, name).Some?
    ensures var r := FindDeclOf(p, ns, s, name).value; r.0 < |p.lists| && FindIn(p, ns, p.lists[r.0], name) == Some(r.1)
    decreases s
  {
    if FindIn(p, ns, p.lists[s], name).None? { FindsIn(p, ns, p.parents[s].value, name); }
  }

  lemma ClobberedTells(p: Program, ns: Names, m: Lists, order: seq<string>, f: Names, s: nat, d: nat)
    requires Done(p, ns, m, order, f) && s < |p.lists| && OfDecl(d) in p.lists[s] && InRange(p, d) && Clobbered(p, ns, m, order, d)
    ensures p.decls[d].init.Some? && var a := p.decls[d].init.value;
            && p.idents[a].scope == p.idents[a].at == DeclAt(p, d) < |p.parents| && IsAncestor(p, DeclAt(p, d), s)
            && !p.idents[a].role.Field? && EntryName(p, f, OfDecl(d)) == f.idents[a]
            && EntryName(p, ns, OfDecl(d)) != ns.idents[a] && Renamed(p, ns, m, a)
  {
    hide RightLists, Fresh, DeclFinal, Which, NewName, Renamed, Before, Hoists, IsAncestor;
    DeclShape(p, d);
    assert Entered(p, s, OfDecl(d));
    IdentShape(p, ns, p.decls[d].v);
    EntryIs(p, ns, m, order, f, s, OfDecl(d));
  }

  lemma NamedByInit(p: Program, ns: Names, m: Lists, order: seq<string>, f: Names, s: nat, e: Entry, a: nat, n: nat, k: nat)
    requires Done(p, ns, m, order, f) && s < |p.lists| && n <= k < |p.lists[s]| && p.lists[s][n] == e
    requires a < |p.idents| && Renamed(p, ns, m, a) && EntryName(p, f, e) == f.idents[a]
    requires !HasBefore(p, ns, p.lists[s], k, ns.idents[a]) && EntryName(p, ns, p.lists[s][k]) != ns.idents[a]
    ensures IsClobbered(p, ns, m, order, e)
  {
    hide Done, RightLists, Fresh, DeclFinal, Which, Clobbered, NewName, EntryName, Valid, Start, Renamed;
    DoneTells(p, ns, m, order, f);
    assert e in p.lists[s] && EntryName(p, ns, e) != ns.idents[a];
    if e.OfOther? {
      OtherNotTaken(p, ns, m, f, a, s, e);
    } else {
      EntryIs(p, ns, m, order, f, s, e);
      if !IsClobbered(p, ns, m, order, e) { SameNewName(p, ns, m, IdentOf(p, e), a); }
    }
  }

  // A clobbered declaration that is no repeated one costs some identifier its declaration.
  lemma ClobberedIsLost(p: Program, ns: Names, m: Lists, order: seq<string>, f: Names, d: nat) returns (i: nat)
    requires Done(p, ns, m, order, f) && InRange(p, d) && Clobbered(p, ns, m, order, d) && DeclScope(p, d) < |p.lists|
    requires !Repeated(p, ns, d)
    ensures i < |p.idents| && !p.idents[i].role.Field? && !Kept(p, ns, f, i)
  {
    hide Done, Clobbered, HasBefore, Kept, Start, BoundInside;
    DoneTells(p, ns, m, order, f);
    var list := p.lists[DeclScope(p, d)];
    var k: nat :| k < |list| && list[k] == OfDecl(d)
                  && !(HasBefore(p, ns, list, k, ns.idents[p.decls[d].v])
                       && (BoundInside(p, ns, d) || HasBefore(p, ns, list, k, ns.idents[Init(p, d)])));
    if !HasBefore(p, ns, list, k, ns.idents[p.decls[d].v]) {
      VariableIsLost(p, ns, m, order, f, d, k);
      i := p.decls[d].v;
    } else {
      i := InitialValueIsLost(p, ns, m, order, f, d, k);
    }
  }

  // -------- Exactly when bindings are kept

  // Every identifier stands for what it stood for, exactly when every clobbered declaration is a
  // repeated one, no renamed identifier stood for something that is not a variable or parameter, and
  // every identifier gets the version of what it stands for.
  lemma BindingIsKept(p: Program, ns: Names, m: Lists, order: seq<string>, f: Names)
    requires Done(p, ns, m, order, f)
    ensures AllKept(p, ns, f) <==> NothingLost(p, ns, m, order)
  {
    hide Done, Start, Clobbered, Kept, StandsForOther, Renamed, Repeated, Follows;
    DoneTells(p, ns, m, order, f);
    if NothingLost(p, ns, m, order) {
      forall i | 0 <= i < |p.idents| && !p.idents[i].role.Field?
        ensures Kept(p, ns, f, i)
      {
        IdentKept(p, ns, m, order, f, i);
      }
    } else if d :| 0 <= d < |p.decls| && InRange(p, d) && DeclScope(p, d) < |p.lists| && Clobbered(p, ns, m, order, d) && !Repeated(p, ns, d) {
      var i := ClobberedIsLost(p, ns, m, order, f, d);
    } else if i :| 0 <= i < |p.idents| && Renamed(p, ns, m, i) && StandsForOther(p, ns, i) {
      NoField(p, ns, m, i);
      OtherIsLost(p, ns, m, order, f, i);
    } else {
      var i :| 0 <= i < |p.idents| && !p.idents[i].role.Field? && !Follows(p, ns, m, i);
      StrayIsLost(p, ns, m, order, f, i);
    }
  }

  lemma NoField(p: Program, ns: Names, m: Lists, i: nat)
    requires Fits(p, ns) && i < |p.idents| && Renamed(p, ns, m, i)
    ensures !p.idents[i].role.Field? && ns.idents[i] in m
  {
  }

  lemma AllDone(p: Program, ns: Names, m: Lists, order: seq<string>, f: Names)
    requires Start(p, ns) && RightLists(p, ns, m, |p.idents|) && Fresh(p, ns, m) && Distinct(order)
    requires (forall v :: v in order <==> v in m) && f == RenameAll(p, ns, m, order)
    ensures Done(p, ns, m, order, f)
  {
    hide Start, RightLists, Fresh, Which;
    StartTells(p, ns);
    NamesAfter(p, ns, m, order);
    forall i | 0 <= i < |p.idents| && ns.idents[i] !in order
      ensures NewName(p, ns, m, i) == ns.idents[i]
    {
      NotListed(p, m, ns.idents[i], p.idents[i].at);
    }
  }

  lemma NotListed(p: Program, m: Lists, name: string, s: nat)
    requires name !in m
    ensures Versioned(p, m, name, s) == name
  {
  }

  // The names in some order, with one of them at the end.
  lemma SomeOrder(names: set<string>, last: string) returns (order: seq<string>)
    ensures Distinct(order) && (forall v :: v in order <==> v in names)
    ensures last in names ==> order != [] && order[|order| - 1] == last
    decreases names
  {
    if names == {} {
      order := [];
    } else {
      var v :| v in names && (last in names ==> v == last);
      order := SomeOrder(names - {v}, last);
      order := order + [v];
    }
  }

  lemma SomeRun(p: Program, ns: Names, m: Lists)
    requires Start(p, ns) && RightLists(p, ns, m, |p.idents|) && Fresh(p, ns, m)
    ensures exists order, f :: Done(p, ns, m, order, f)
  {
    hide Start, RightLists, Fresh, Done;
    StartTells(p, ns);
    var order := SomeOrder(m.Keys, "");
    AllDone(p, ns, m, order, RenameAll(p, ns, m, order));
  }

  // Whatever the order, the lists tell in advance: all bindings are kept in all orders, exactly when every
  // declaration with a renamed initial value of another name is a repeated one, no renamed identifier
  // stands for a function, class or import, and every identifier gets the version of what it stands for.
  lemma KeptInAnyOrder(p: Program, ns: Names, m: Lists)
    requires Start(p, ns) && RightLists(p, ns, m, |p.idents|) && Fresh(p, ns, m)
    ensures (forall order, f :: Done(p, ns, m, order, f) ==> AllKept(p, ns, f)) <==> Foreseen(p, ns, m)
  {
    hide Start, RightLists, Fresh, AllKept, Clobbered, NewName, DeclFinal, ForeignInit, Repeated, Renamed, StandsForOther, RenameAll, AllFollow;
    StartTells(p, ns);
    if Foreseen(p, ns, m) {
      forall order, f | Done(p, ns, m, order, f)
        ensures AllKept(p, ns, f)
      {
        ForeseenIsHarmless(p, ns, m, order);
        BindingIsKept(p, ns, m, order, f);
      }
    } else if d :| 0 <= d < |p.decls| && InRange(p, d) && DeclScope(p, d) < |p.lists| && ForeignInit(p, ns, m, d) && !Repeated(p, ns, d) {
      var order := SomeOrder(m.Keys, ns.idents[Init(p, d)]);
      AllDone(p, ns, m, order, RenameAll(p, ns, m, order));
      LastClobbers(p, ns, m, order, d);
      BindingIsKept(p, ns, m, order, RenameAll(p, ns, m, order));
    } else {
      var order := SomeOrder(m.Keys, "");
      AllDone(p, ns, m, order, RenameAll(p, ns, m, order));
      BindingIsKept(p, ns, m, order, RenameAll(p, ns, m, order));
    }
  }

  ghost predicate Foreseen(p: Program, ns: Names, m: Lists)
    requires Fits(p, ns)
  {
    && (forall d :: 0 <= d < |p.decls| && InRange(p, d) && DeclScope(p, d) < |p.lists| && ForeignInit(p, ns, m, d) ==> Repeated(p, ns, d))
    && NoOther(p, ns, m) && AllFollow(p, ns, m)
  }

  lemma ForeseenIsHarmless(p: Program, ns: Names, m: Lists, order: seq<string>)
    requires Start(p, ns) && Foreseen(p, ns, m)
    ensures NothingLost(p, ns, m, order)
  {
    hide Repeated, Renamed, NoOther, AllFollow;
  }

  lemma LastClobbers(p: Program, ns: Names, m: Lists, order: seq<string>, d: nat)
    requires Fits(p, ns) && InRange(p, d) && ForeignInit(p, ns, m, d) && Distinct(order)
    requires ns.idents[Init(p, d)] in m ==> order != [] && order[|order| - 1] == ns.idents[Init(p, d)]
    ensures Clobbered(p, ns, m, order, d)
  {
    hide Renamed;
    NoField(p, ns, m, Init(p, d));
  }

  // -------- Distinct names

  predicate IsVariable(p: Program, i: nat) {
    i < |p.idents| && (p.idents[i].role.VarOf? || p.idents[i].role.ParamOf?)
  }

  // Variables and parameters of different scopes end with different names.
  lemma VariablesApart(p: Program, ns: Names, m: Lists, order: seq<string>, f: Names, i: nat, j: nat)
    requires Done(p, ns, m, order, f) && IsVariable(p, i) && IsVariable(p, j) && p.idents[i].scope != p.idents[j].scope
    ensures f.idents[i] != f.idents[j]
  {
    hide Fresh, DeclFinal, Which, Valid, IsAncestor, Hoists, Start;
    DoneTells(p, ns, m, order, f);
    if f.idents[i] == f.idents[j] {
      SameNewName(p, ns, m, i, j);
      var v := ns.idents[i];
      var k := OwnName(p, ns, m, i);
      var l := OwnName(p, ns, m, j);
      VersionIsNew(v, k);
      VersionIsNew(v, l);
      if k != 0 && l != 0 { VersionIsInjective(v, k, v, l); }
      var t := ScopeOf(p, m[v][k]);
      Comparable(p, t, p.idents[i].scope, p.idents[j].scope);
      if IsAncestor(p, p.idents[i].scope, p.idents[j].scope) { HoistedPast(p, ns, j, i, t); } else { HoistedPast(p, ns, i, j, t); }
    }
  }

  // A variable stands inside scope `t`, which is inside the scope of another one of its name: then it
  // would have been hoisted past that.
  lemma HoistedPast(p: Program, ns: Names, j: nat, i: nat, t: nat)
    requires Start(p, ns) && IsVariable(p, i) && IsVariable(p, j) && ns.idents[i] == ns.idents[j]
    requires IsAncestor(p, p.idents[j].at, t) && IsAncestor(p, t, p.idents[i].scope) && IsAncestor(p, p.idents[i].scope, p.idents[j].scope)
    ensures p.idents[i].scope == p.idents[j].scope
  {
    hide IsAncestor;
    AncestorTrans(p, p.idents[j].at, t, p.idents[i].scope);
    assert ValidIdent(p, i) && Hoists(p, ns, j);
    var s := p.idents[i].scope;
    var e := if p.idents[i].role.ParamOf? then OfParam(i) else OfDecl(p.idents[i].role.d);
    if e.OfDecl? { assert ValidDecl(p, e.d); }
    assert e in p.lists[s] && EntryName(p, ns, e) == ns.idents[i];
  }

  // A variable gets the version of a listed scope around it and inside its own.
  lemma OwnName(p: Program, ns: Names, m: Lists, i: nat) returns (k: nat)
    requires Start(p, ns) && RightLists(p, ns, m, |p.idents|) && IsVariable(p, i)
    ensures ns.idents[i] in m && k < |m[ns.idents[i]]|
    ensures IsAncestor(p, p.idents[i].at, ScopeOf(p, m[ns.idents[i]][k])) && IsAncestor(p, ScopeOf(p, m[ns.idents[i]][k]), p.idents[i].scope)
    ensures NewName(p, ns, m, i) == if k == 0 then ns.idents[i] else Version(ns.idents[i], k)
  {
    hide Which, IsAncestor, Hoists;
    IdentShape(p, ns, i);
    assert ValidIdent(p, i);
    assert Declares(p, ns, i);
    var l := ListedAt(p, ns, m, i);
    InnermostListed(p, m[ns.idents[i]], p.idents[i].at, l);
    k := WhichOf(p, m, ns.idents[i], p.idents[i].at);
  }
}
