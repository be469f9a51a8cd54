/** Scopes, what they declare, the identifiers in them, and which declaration a name stands for. */
module Scopes {
  import opened Options

  // What an identifier is to the node above it: the variable of a declaration, its initial value, a
  // parameter, a use anywhere else, or a field and the like, which renaming skips.
  datatype Role = VarOf(d: nat) | InitOf(d: nat) | ParamOf | UseIn | Field

  // The search for its declaration starts in `scope`; it stands in the tree of scope `at`. The two differ
  // only for a variable declared with var in an inner block, which belongs to the function around it.
  datatype Ident = Ident(scope: nat, at: nat, role: Role)

  // A declaration node: its variable, and its initial value when that is an identifier.
  datatype Decl = Decl(v: nat, init: Option<nat>)

  // A declaration listed in a scope: a declaration node, a parameter, or a function, class or import.
  datatype Entry = OfDecl(d: nat) | OfParam(i: nat) | OfOther(name: string)

  datatype Program = Program(parents: seq<Option<nat>>, lists: seq<seq<Entry>>, idents: seq<Ident>, decls: seq<Decl>)

  // Names change: those of identifiers, and those of declaration nodes, which have their own copy.
  datatype Names = Names(idents: seq<string>, decls: seq<string>)

  predicate Entered(p: Program, s: nat, e: Entry) {
    match e
    case OfDecl(d) => d < |p.decls| && p.decls[d].v < |p.idents| && p.idents[p.decls[d].v].scope == s
    case OfParam(i) => i < |p.idents| && p.idents[i].role.ParamOf? && p.idents[i].scope == s
    case OfOther(_) => true
  }

  // The scopes form a tree, made from the root down; every declaration node and parameter is listed
  // in its scope and nowhere else; the identifiers of a declaration node stand in one tree.
  ghost predicate Valid(p: Program) {
    && |p.lists| == |p.parents|
    && (forall s :: 0 <= s < |p.parents| && p.parents[s].Some? ==> p.parents[s].value < s)
    && (forall i :: 0 <= i < |p.idents| ==> p.idents[i].scope < |p.parents| && p.idents[i].at < |p.parents| && ValidIdent(p, i))
    && (forall d :: 0 <= d < |p.decls| ==> ValidDecl(p, d))
    && (forall s, e :: 0 <= s < |p.lists| && e in p.lists[s] ==> Entered(p, s, e))
  }

  ghost predicate ValidIdent(p: Program, i: nat)
    requires i < |p.idents| && |p.lists| == |p.parents| && p.idents[i].scope < |p.parents|
  {
    && IsAncestor(p, p.idents[i].at, p.idents[i].scope)
    && (p.idents[i].at != p.idents[i].scope ==> p.idents[i].role.VarOf?)
    && match p.idents[i].role
    case VarOf(d) => d < |p.decls| && p.decls[d].v == i
    case InitOf(d) => d < |p.decls| && p.decls[d].init == Some(i)
    case ParamOf => OfParam(i) in p.lists[p.idents[i].scope]
    case _ => true
  }

  ghost predicate ValidDecl(p: Program, d: nat)
    requires d < |p.decls| && |p.lists| == |p.parents|
    requires forall i :: 0 <= i < |p.idents| ==> p.idents[i].scope < |p.parents|
  {
    var n := p.decls[d];
    && n.v < |p.idents| && p.idents[n.v].role == VarOf(d) && OfDecl(d) in p.lists[p.idents[n.v].scope]
    && (n.init.Some? ==>
          n.init.value < |p.idents| && p.idents[n.init.value] == Ident(p.idents[n.v].at, p.idents[n.v].at, InitOf(d)))
  }

  predicate Fits(p: Program, ns: Names) {
    |ns.idents| == |p.idents| && |ns.decls| == |p.decls|
  }

  // -------- Scopes above a scope

  // `a` is `s` or a scope around it.
  predicate IsAncestor(p: Program, s: nat, a: nat)
    decreases s
  {
    s == a || (s < |p.parents| && p.parents[s].Some? && p.parents[s].value < s && IsAncestor(p, p.parents[s].value, a))
  }

  lemma {:induction false} AncestorIsBelow(p: Program, s: nat, a: nat)
    requires IsAncestor(p, s, a)
    ensures a <= s
    decreases s
  {
    if s != a { AncestorIsBelow(p, p.parents[s].value, a); }
  }

  lemma {:induction false} AncestorTrans(p: Program, s: nat, a: nat, b: nat)
    requires IsAncestor(p, s, a) && IsAncestor(p, a, b)
    ensures IsAncestor(p, s, b)
    decreases s
  {
    if s != a { AncestorTrans(p, p.parents[s].value, a, b); }
  }

  // Two scopes around one are one around the other.
  lemma {:induction false} Comparable(p: Program, s: nat, a: nat, b: nat)
    requires IsAncestor(p, s, a) && IsAncestor(p, s, b)
    ensures IsAncestor(p, a, b) || IsAncestor(p, b, a)
    decreases s
  {
    if s != a && s != b { Comparable(p, p.parents[s].value, a, b); }
  }

  // -------- Which declaration a name stands for

  function EntryName(p: Program, ns: Names, e: Entry): string {
    match e
    case OfDecl(d) => if d < |ns.decls| then ns.decls[d] else ""
    case OfParam(i) => if i < |ns.idents| then ns.idents[i] else ""
    case OfOther(name) => name
  }

  // The first entry of that name.
  function FindIn(p: Program, ns: Names, list: seq<Entry>, name: string): (r: Option<Entry>)
    ensures r.Some? ==> r.value in list && EntryName(p, ns, r.value) == name
    ensures r.None? ==> forall e :: e in list ==> EntryName(p, ns, e) != name
  {
    if list == [] then None
    else if EntryName(p, ns, list[0]) == name then Some(list[0])
    else FindIn(p, ns, list[1..], name)
  }

  // The declaration in the innermost scope that has one, and that scope.
  function FindDeclOf(p: Program, ns: Names, s: nat, name: string): Option<(nat, Entry)>
    decreases s
  {
    if s >= |p.lists| || s >= |p.parents| then None
    else
      match FindIn(p, ns, p.lists[s], name)
      case Some(e) => Some((s, e))
      case None => if p.parents[s].Some? && p.parents[s].value < s then FindDeclOf(p, ns, p.parents[s].value, name) else None
  }

  // The search finds the entry of the innermost scope; failing to find one, there is none.
  lemma {:induction false} FindDeclIs(p: Program, ns: Names, s: nat, name: string)
    requires Valid(p) && s < |p.parents|
    ensures var r := FindDeclOf(p, ns, s, name);
            && (r.Some? ==> IsAncestor(p, s, r.value.0) && r.value.0 < |p.lists|
                            && r.value.1 in p.lists[r.value.0] && EntryName(p, ns, r.value.1) == name)
            && forall t: nat, e :: IsAncestor(p, s, t) && t < |p.lists| && e in p.lists[t] && EntryName(p, ns, e) == name ==>
                 r.Some? && IsAncestor(p, r.value.0, t)
    decreases s
  {
    hide ValidIdent, ValidDecl, Entered, EntryName;
    var found := FindIn(p, ns, p.lists[s], name);
    if found.None? && p.parents[s].Some? {
      FindDeclIs(p, ns, p.parents[s].value, name);
    }
  }
}
