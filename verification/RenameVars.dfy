/** The renaming pass over a module: the first visit lists the scopes that declare each name, then each
    list is worked off from its end, visiting one scope's tree for each entry but the first. */
module RenameVars {
  import opened Options
  import opened VersionNames
  import opened Scopes
  import opened Renaming
  import opened Bindings

  class RenameVarVisitor {
    const mProgram: Program
    var mIdentNames: seq<string>
    var mDeclNames: seq<string>
    var mStridx2DeclIdMap: map<string, seq<nat>>
    var mOldStrIdx: string
    var mNewStrIdx: string

    constructor (p: Program, ns: Names)
      ensures mProgram == p && View() == ns && mStridx2DeclIdMap == map[]
    {
      mProgram := p;
      mIdentNames, mDeclNames, mStridx2DeclIdMap := ns.idents, ns.decls, map[];
      mOldStrIdx, mNewStrIdx := "", "";
    }

    function View(): Names
      reads this`mIdentNames, this`mDeclNames
    {
      Names(mIdentNames, mDeclNames)
    }

    // Scopes go before the first scope inside them.
    method InsertToStridx2DeclIdMap(stridx: string, node: nat)
      modifies this`mStridx2DeclIdMap
      ensures mStridx2DeclIdMap == old(mStridx2DeclIdMap)[stridx := Insert(mProgram, ListOf(old(mStridx2DeclIdMap), stridx), node)]
      ensures var list := ListOf(old(mStridx2DeclIdMap), stridx);
              Ordered(mProgram, list) ==> PlacedOnce(mProgram, list, mStridx2DeclIdMap[stridx], node)
    {
      hide IsAncestor, ScopeOf, PlacedOnce, Ordered;
      var list := ListOf(mStridx2DeclIdMap, stridx);
      if Ordered(mProgram, list) { InsertPlaces(mProgram, list, node); }
      var s0 := ScopeOf(mProgram, node);
      for it := 0 to |list|
        invariant mStridx2DeclIdMap == old(mStridx2DeclIdMap)
        invariant Insert(mProgram, list, node) == list[..it] + Insert(mProgram, list[it..], node)
      {
        var s1 := ScopeOf(mProgram, list[it]);
        assert list[it..][0] == list[it] && list[it..][1..] == list[it + 1..];
        if s1 == s0 {
          assert list[..it] + list[it..] == list;
          mStridx2DeclIdMap := mStridx2DeclIdMap[stridx := list];
          return;
        }
        if IsAncestor(mProgram, s1, s0) {
          mStridx2DeclIdMap := mStridx2DeclIdMap[stridx := list[..it] + [node] + list[it..]];
          assert list[..it] + [node] + list[it..] == list[..it] + ([node] + list[it..]);
          return;
        }
        assert list[..it] + ([list[it]] + Insert(mProgram, list[it + 1..], node)) == list[..it + 1] + Insert(mProgram, list[it + 1..], node);
      }
      assert list[..|list|] == list && list[|list|..] == [];
      mStridx2DeclIdMap := mStridx2DeclIdMap[stridx := list + [node]];
    }

    // Pass 0 at an identifier.
    method VisitDeclaring(node: nat)
      requires Fits(mProgram, View()) && node < |mProgram.idents|
      modifies this`mStridx2DeclIdMap
      ensures mStridx2DeclIdMap ==
              if Declares(mProgram, View(), node) then
                old(mStridx2DeclIdMap)[mIdentNames[node] := Insert(mProgram, ListOf(old(mStridx2DeclIdMap), mIdentNames[node]), node)]
              else old(mStridx2DeclIdMap)
    {
      hide Insert;
      var stridx := mIdentNames[node];
      match mProgram.idents[node].role {
        case Field =>
        case VarOf(d) => if d < |mDeclNames| && mDeclNames[d] == stridx { InsertToStridx2DeclIdMap(stridx, node); }
        case InitOf(d) => if d < |mDeclNames| && mDeclNames[d] == stridx { InsertToStridx2DeclIdMap(stridx, node); }
        case ParamOf => InsertToStridx2DeclIdMap(stridx, node);
        case UseIn =>
      }
    }

    // Pass 1 at an identifier: the new name, also for the declaration node it hangs from.
    method VisitRenaming(node: nat)
      requires Fits(mProgram, View()) && node < |mProgram.idents|
      modifies this`mIdentNames, this`mDeclNames
      ensures Fits(mProgram, View())
      ensures var hit := !mProgram.idents[node].role.Field? && old(mIdentNames[node]) == mOldStrIdx;
              var role := mProgram.idents[node].role;
              && mIdentNames == (if hit then old(mIdentNames)[node := mNewStrIdx] else old(mIdentNames))
              && mDeclNames == if hit && (role.VarOf? || role.InitOf?) && role.d < |mDeclNames| then old(mDeclNames)[role.d := mNewStrIdx]
                               else old(mDeclNames)
    {
      if !mProgram.idents[node].role.Field? && mIdentNames[node] == mOldStrIdx {
        mIdentNames := mIdentNames[node := mNewStrIdx];
        match mProgram.idents[node].role {
          case VarOf(d) => if d < |mDeclNames| { mDeclNames := mDeclNames[d := mNewStrIdx]; }
          case InitOf(d) => if d < |mDeclNames| { mDeclNames := mDeclNames[d := mNewStrIdx]; }
          case _ =>
        }
      }
    }

    // Pass 1 over the tree of a scope.
    method VisitScope(s: nat)
      requires Valid(mProgram) && Fits(mProgram, View()) && mNewStrIdx != mOldStrIdx
      modifies this`mIdentNames, this`mDeclNames
      ensures View() == RenameIn(mProgram, old(View()), s, mOldStrIdx, mNewStrIdx)
    {
      hide Valid, IsAncestor, Hit;
      ghost var ns := View();
      var p := mProgram;
      for i := 0 to |p.idents|
        invariant Fits(p, View())
        invariant forall j :: 0 <= j < |p.idents| ==>
                    mIdentNames[j] == if j < i && Hit(p, ns, s, mOldStrIdx, j) then mNewStrIdx else ns.idents[j]
        invariant forall d :: 0 <= d < |p.decls| ==> mDeclNames[d] == if HitBelow(p, ns, s, mOldStrIdx, d, i) then mNewStrIdx else ns.decls[d]
      {
        HitIs(p, ns, s, mOldStrIdx, i);
        if IsAncestor(p, p.idents[i].at, s) { VisitRenaming(i); }
      }
      forall d | 0 <= d < |p.decls|
        ensures HitBelow(p, ns, s, mOldStrIdx, d, |p.idents|) == HitDecl(p, ns, s, mOldStrIdx, d)
      {
        DeclInRange(p, d);
      }
    }

    // One name's list, from its end down to the second entry.
    method WorkOff(stridx: string)
      requires Valid(mProgram) && Fits(mProgram, View()) && stridx in mStridx2DeclIdMap
      modifies this`mIdentNames, this`mDeclNames, this`mOldStrIdx, this`mNewStrIdx
      ensures Fits(mProgram, View())
      ensures var list := mStridx2DeclIdMap[stridx];
              View() == RenameDown(mProgram, old(View()), stridx, list, Last(list))
      ensures Ordered(mProgram, mStridx2DeclIdMap[stridx]) ==>
                forall i :: 0 <= i < |mProgram.idents| ==>
                  NamedAfter(mProgram, old(View()), stridx, mStridx2DeclIdMap[stridx], i, mIdentNames[i])
    {
      hide Valid, RenameIn, Fits, NamedAfter;
      var list := mStridx2DeclIdMap[stridx];
      if |list| > 1 {
        var size: nat := |list| - 1;
        while size > 0
          invariant size < |list| && Fits(mProgram, View())
          invariant RenameDown(mProgram, View(), stridx, list, size) == RenameDown(mProgram, old(View()), stridx, list, |list| - 1)
        {
          mOldStrIdx, mNewStrIdx := stridx, Version(stridx, size);
          VersionIsNew(stridx, size);
          ghost var ns := View();
          VisitScope(ScopeOf(mProgram, list[size]));
          RenameInFits(mProgram, ns, ScopeOf(mProgram, list[size]), stridx, Version(stridx, size));
          size := size - 1;
        }
      }
      if Ordered(mProgram, list) { AllNamedAfter(mProgram, old(View()), stridx, list); }
    }

    // The whole pass. The names are worked off in some order, here with new version names. Every
    // identifier stands for what it stood for exactly when each declaration node that is clobbered in
    // this order is a repeated one, no renamed identifier stood for a function, class or import, and
    // every identifier gets the version of what it stands for. Whatever the order, the lists tell in
    // advance when that is so. Variables of different scopes end with different names.
    method RenameVar() returns (ghost order: seq<string>)
      requires Start(mProgram, View()) && mStridx2DeclIdMap == map[]
      requires Fresh(mProgram, View(), Collect(mProgram, View(), |mProgram.idents|))
      modifies this
      ensures mStridx2DeclIdMap == Collect(mProgram, old(View()), |mProgram.idents|)
      ensures Done(mProgram, old(View()), mStridx2DeclIdMap, order, View())
      ensures AllKept(mProgram, old(View()), View()) <==>
              NothingLost(mProgram, old(View()), mStridx2DeclIdMap, order)
      ensures Foreseen(mProgram, old(View()), mStridx2DeclIdMap) ==> AllKept(mProgram, old(View()), View())
      ensures Apart(mProgram, old(View()), View())
      ensures forall i :: 0 <= i < |mProgram.idents| ==>
                NamedRight(mProgram, old(View()), mStridx2DeclIdMap, i, View().idents[i])
      ensures forall d :: 0 <= d < |mProgram.decls| ==>
                DeclNamed(mProgram, old(View()), mStridx2DeclIdMap, order, View(), d)
    {
      hide NamedRight, DeclNamed, Start, Valid, Fresh, RenameDown, Collect, RightLists, AllKept, NothingLost, Foreseen, Declares, Done;
      ghost var ns := View();
      StartTells(mProgram, ns);
      CollectLists();
      ghost var m := mStridx2DeclIdMap;
      order := [];
      var left := mStridx2DeclIdMap.Keys;
      while left != {}
        invariant mStridx2DeclIdMap == m && left <= m.Keys && Fits(mProgram, View())
        invariant Distinct(order) && forall v :: v in order <==> v in m && v !in left
        invariant View() == RenameAll(mProgram, ns, m, order)
        decreases |left|
      {
        var it :| it in left;
        WorkOff(it);
        assert (order + [it])[..|order|] == order;
        order := order + [it];
        left := left - {it};
      }
      CollectIsRight(mProgram, ns, |mProgram.idents|);
      AllDone(mProgram, ns, m, order, View());
      DoneTells(mProgram, ns, m, order, View());
      BindingIsKept(mProgram, ns, m, order, View());
      if Foreseen(mProgram, ns, m) { ForeseenIsHarmless(mProgram, ns, m, order); }
      AllApart(mProgram, ns, m, order, View());
      AllNamedRight(mProgram, ns, m, order, View());
    }

    method CollectLists()
      requires Fits(mProgram, View()) && mStridx2DeclIdMap == map[]
      modifies this`mStridx2DeclIdMap
      ensures mStridx2DeclIdMap == Collect(mProgram, View(), |mProgram.idents|)
    {
      hide Insert, Declares;
      for n := 0 to |mProgram.idents|
        invariant mStridx2DeclIdMap == Collect(mProgram, View(), n)
      {
        VisitDeclaring(n);
      }
    }
  }

  // An identifier before position `i` that hangs from the declaration node is hit.
  predicate HitBelow(p: Program, ns: Names, s: nat, old_: string, d: nat, i: nat) {
    d < |p.decls| && ((p.decls[d].v < i && Hit(p, ns, s, old_, p.decls[d].v))
                      || (p.decls[d].init.Some? && p.decls[d].init.value < i && Hit(p, ns, s, old_, p.decls[d].init.value)))
  }

  lemma HitIs(p: Program, ns: Names, s: nat, old_: string, i: nat)
    requires Valid(p) && Fits(p, ns) && i < |p.idents|
    ensures Hit(p, ns, s, old_, i) <==> !p.idents[i].role.Field? && ns.idents[i] == old_ && IsAncestor(p, p.idents[i].at, s)
    ensures forall d :: 0 <= d < |p.decls| ==>
              ((p.decls[d].v == i || p.decls[d].init == Some(i)) <==> (p.idents[i].role == VarOf(d) || p.idents[i].role == InitOf(d)))
    ensures (p.idents[i].role.VarOf? || p.idents[i].role.InitOf?) ==> p.idents[i].role.d < |p.decls|
  {
    assert ValidIdent(p, i);
    forall d | 0 <= d < |p.decls|
      ensures (p.decls[d].v == i || p.decls[d].init == Some(i)) <==> (p.idents[i].role == VarOf(d) || p.idents[i].role == InitOf(d))
    {
      assert ValidDecl(p, d);
    }
  }

  lemma DeclInRange(p: Program, d: nat)
    requires Valid(p) && d < |p.decls|
    ensures p.decls[d].v < |p.idents| && (p.decls[d].init.Some? ==> p.decls[d].init.value < |p.idents|)
  {
    assert ValidDecl(p, d);
  }

  lemma RenameInFits(p: Program, ns: Names, s: nat, old_: string, new_: string)
    requires Fits(p, ns)
    ensures Fits(p, RenameIn(p, ns, s, old_, new_))
  {
  }

  // What an identifier is called once one name has been worked off.
  ghost predicate NamedAfter(p: Program, ns: Names, name: string, list: seq<nat>, i: nat, new_: string)
    requires Fits(p, ns) && i < |p.idents|
  {
    if p.idents[i].role.Field? || ns.idents[i] != name then new_ == ns.idents[i]
    else NamedFor(p, list, name, p.idents[i].at, new_)
  }

  lemma AllNamedAfter(p: Program, ns: Names, name: string, list: seq<nat>)
    requires Valid(p) && Fits(p, ns) && Ordered(p, list)
    ensures var r := RenameDown(p, ns, name, list, Last(list));
            Fits(p, r) && forall i :: 0 <= i < |p.idents| ==> NamedAfter(p, ns, name, list, i, r.idents[i])
  {
    hide Valid, RenameDown, Ordered, NamedFor, Which, IsAncestor;
    RenameDownIs(p, ns, name, list, Last(list));
    forall i | 0 <= i < |p.idents|
      ensures NamedAfter(p, ns, name, list, i, IdentAfter(p, ns, name, list, Last(list), i))
    {
      NewNameIs(p, list, name, p.idents[i].at);
    }
  }

  // What an identifier is called in the end: fields and names that nothing declares as before; others by
  // the place of the innermost scope around them in their name's list.
  ghost predicate NamedRight(p: Program, ns: Names, m: Lists, i: nat, new_: string)
    requires Fits(p, ns) && i < |p.idents|
  {
    if p.idents[i].role.Field? then new_ == ns.idents[i]
    else NamedFor(p, ListOf(m, ns.idents[i]), ns.idents[i], p.idents[i].at, new_)
  }

  lemma AllNamedRight(p: Program, ns: Names, m: Lists, order: seq<string>, f: Names)
    requires Done(p, ns, m, order, f)
    ensures Fits(p, ns) && Fits(p, f) && forall i :: 0 <= i < |p.idents| ==> NamedRight(p, ns, m, i, f.idents[i])
    ensures forall d :: 0 <= d < |p.decls| ==> DeclNamed(p, ns, m, order, f, d)
  {
    AllDeclsNamed(p, ns, m, order, f);
    hide Done, Which, Version, NamedFor, IsAncestor, Fresh, Start, Valid;
    DoneTells(p, ns, m, order, f);
    forall i | 0 <= i < |p.idents|
      ensures NamedRight(p, ns, m, i, f.idents[i])
    {
      assert Ordered(p, ListOf(m, ns.idents[i]));
      NewNameIs(p, ListOf(m, ns.idents[i]), ns.idents[i], p.idents[i].at);
    }
  }

  // A declaration node ends with the name of its variable, or of its initial value if it is clobbered.
  ghost predicate DeclNamed(p: Program, ns: Names, m: Lists, order: seq<string>, f: Names, d: nat)
    requires Fits(p, ns) && Fits(p, f) && d < |p.decls|
  {
    InRange(p, d) && f.decls[d] == f.idents[if Clobbered(p, ns, m, order, d) then Init(p, d) else p.decls[d].v]
  }

  lemma AllDeclsNamed(p: Program, ns: Names, m: Lists, order: seq<string>, f: Names)
    requires Done(p, ns, m, order, f)
    ensures forall d :: 0 <= d < |p.decls| ==> DeclNamed(p, ns, m, order, f, d)
  {
    hide RightLists, Fresh, Which, Version, DeclFinal, NewName, IsAncestor, Hoists, Renamed, Before;
    forall d | 0 <= d < |p.decls|
      ensures DeclNamed(p, ns, m, order, f, d)
    {
      DeclShape(p, d);
      DeclKept(p, ns, m, order, d);
    }
  }

  // Variables and parameters of different scopes have different names.
  ghost predicate Apart(p: Program, ns: Names, f: Names) {
    Fits(p, ns) && Fits(p, f) && forall i: nat, j: nat :: DeclareApart(p, ns, i, j) ==> f.idents[i] != f.idents[j]
  }

  predicate DeclareApart(p: Program, ns: Names, i: nat, j: nat) {
    && Fits(p, ns) && i < |p.idents| && j < |p.idents|
    && IsVariable(p, i) && IsVariable(p, j) && p.idents[i].scope != p.idents[j].scope
  }

  lemma AllApart(p: Program, ns: Names, m: Lists, order: seq<string>, f: Names)
    requires Done(p, ns, m, order, f)
    ensures Apart(p, ns, f)
  {
    hide Start, RightLists, Fresh, Declares, DeclFinal, NewName;
    StartTells(p, ns);
    forall i: nat, j: nat | DeclareApart(p, ns, i, j)
      ensures f.idents[i] != f.idents[j]
    {
      VariablesApart(p, ns, m, order, f, i, j);
    }
  }
}
