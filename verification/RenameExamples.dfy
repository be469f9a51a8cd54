/** Programs the renaming may be given: three in which it costs an identifier its declaration, one with a
    variable declared twice, and one with a hoisted variable. */
module RenameExamples {
  import opened Options
  import opened VersionNames
  import opened Scopes
  import opened Renaming
  import opened Bindings

  // An outer `y`; in the inner scope another `y`, and an `x` whose initial value is `y`.
  const SHADOWED := Program([None, Some(0)], [[OfDecl(0)], [OfDecl(1), OfDecl(2)]],
    [Ident(0, 0, VarOf(0)), Ident(1, 1, VarOf(1)), Ident(1, 1, VarOf(2)), Ident(1, 1, InitOf(2))],
    [Decl(0, None), Decl(1, None), Decl(2, Some(3))])

  const SHADOWED_NAMES := Names(["y", "y", "x", "y"], ["y", "y", "x"])

  const SHADOWED_LISTS: Lists := map["y" := [0, 1], "x" := [2]]

  lemma ShadowedLists()
    ensures Collect(SHADOWED, SHADOWED_NAMES, 4) == SHADOWED_LISTS
  {
    var p, ns := SHADOWED, SHADOWED_NAMES;
    assert IsAncestor(p, 1, 1) && !IsAncestor(p, 0, 1);
    assert Collect(p, ns, 1) == map["y" := [0]];
    assert Insert(p, [0], 1) == [0, 1] by { assert Insert(p, [], 1) == [1]; }
    assert Collect(p, ns, 2) == map["y" := [0, 1]];
    assert Collect(p, ns, 3) == map["y" := [0, 1], "x" := [2]];
    assert Insert(p, [0, 1], 3) == [0, 1] by { assert Insert(p, [1], 3) == [1]; }
  }

  // So no name of one letter is a version.
  lemma VersionIsLong(name: string, n: nat)
    ensures |Version(name, n)| > |name| + 1
  {
  }

  // The pass takes this program, and whatever the order of names, renaming the initial value overwrites
  // the name of x's declaration node: x is not found any more.
  lemma InitialValueClobbers()
    ensures Collect(SHADOWED, SHADOWED_NAMES, 4) == SHADOWED_LISTS
    ensures Start(SHADOWED, SHADOWED_NAMES) && Fresh(SHADOWED, SHADOWED_NAMES, SHADOWED_LISTS)
    ensures !Foreseen(SHADOWED, SHADOWED_NAMES, SHADOWED_LISTS)
    ensures FindDeclOf(SHADOWED, SHADOWED_NAMES, 1, "x") == Some((1, OfDecl(2)))
    ensures exists order, f :: Done(SHADOWED, SHADOWED_NAMES, SHADOWED_LISTS, order, f)
    ensures forall order, f :: Done(SHADOWED, SHADOWED_NAMES, SHADOWED_LISTS, order, f) ==> XIsLost(f)
  {
    hide Done, Start, Fresh, Foreseen, FindDeclOf, Collect, XIsLost;
    ShadowedLists();
    ShadowedStarts();
    CollectIsRight(SHADOWED, SHADOWED_NAMES, 4);
    SomeRun(SHADOWED, SHADOWED_NAMES, SHADOWED_LISTS);
    forall order, f | Done(SHADOWED, SHADOWED_NAMES, SHADOWED_LISTS, order, f)
      ensures XIsLost(f)
    {
      ShadowedEnds(order, f);
    }
  }

  predicate XIsLost(f: Names) {
    |f.idents| == 4 && f.idents[2] == "x" && FindDeclOf(SHADOWED, f, 1, "x") == None
  }

  lemma ShadowedStarts()
    ensures Start(SHADOWED, SHADOWED_NAMES) && Fresh(SHADOWED, SHADOWED_NAMES, SHADOWED_LISTS)
    ensures !Foreseen(SHADOWED, SHADOWED_NAMES, SHADOWED_LISTS)
    ensures FindDeclOf(SHADOWED, SHADOWED_NAMES, 1, "x") == Some((1, OfDecl(2)))
  {
    hide Hoists;
    var p, ns, m := SHADOWED, SHADOWED_NAMES, SHADOWED_LISTS;
    InPlace(p, ns);
    ShadowedFresh();
    ShadowedVersions();
    assert FindIn(p, ns, p.lists[1], "x") == Some(OfDecl(2));
    assert ForeignInit(p, ns, m, 2) && p.lists[1][1] == OfDecl(2);
    assert !HasBefore(p, ns, p.lists[1], 1, "x");
  }

  lemma InPlace(p: Program, ns: Names)
    requires Fits(p, ns) && forall i :: 0 <= i < |p.idents| ==> p.idents[i].at == p.idents[i].scope
    ensures forall i :: 0 <= i < |p.idents| ==> Hoists(p, ns, i)
  {
    forall i | 0 <= i < |p.idents|
      ensures Hoists(p, ns, i)
    {
      NotHoisted(p, ns, i);
    }
  }

  lemma ShadowedFresh()
    ensures Fresh(SHADOWED, SHADOWED_NAMES, SHADOWED_LISTS)
  {
    forall n
      ensures Version("y", n) !in SHADOWED_NAMES.idents && Version("x", n) !in SHADOWED_NAMES.idents
    {
      VersionIsLong("y", n);
      VersionIsLong("x", n);
    }
  }

  lemma ShadowedVersions()
    ensures WhichOf(SHADOWED, SHADOWED_LISTS, "y", 1) == 1 && WhichOf(SHADOWED, SHADOWED_LISTS, "y", 0) == 0
    ensures WhichOf(SHADOWED, SHADOWED_LISTS, "x", 1) == 0
  {
    assert IsAncestor(SHADOWED, 1, 1) && !IsAncestor(SHADOWED, 0, 1);
  }

  lemma ShadowedEnds(order: seq<string>, f: Names)
    requires Done(SHADOWED, SHADOWED_NAMES, SHADOWED_LISTS, order, f)
    ensures XIsLost(f)
  {
    var p, ns, m := SHADOWED, SHADOWED_NAMES, SHADOWED_LISTS;
    ShadowedVersions();
    DoneTells(p, ns, m, order, f);
    ShadowedNodes(order, f);
    assert FindIn(p, f, p.lists[1], "x") == None && FindIn(p, f, p.lists[0], "x") == None;
    assert FindDeclOf(p, f, 0, "x") == None;
  }

  lemma ShadowedNodes(order: seq<string>, f: Names)
    requires Done(SHADOWED, SHADOWED_NAMES, SHADOWED_LISTS, order, f)
    ensures f.decls == ["y", Version("y", 1), Version("y", 1)]
    ensures Version("y", 1) != "x"
  {
    hide DeclFinal, Which;
    var p, ns, m := SHADOWED, SHADOWED_NAMES, SHADOWED_LISTS;
    ShadowedVersions();
    DoneTells(p, ns, m, order, f);
    VersionIsLong("y", 1);
    forall d: nat | d < 3
      ensures InRange(p, d) && ValidDecl(p, d)
    {
      DeclShape(p, d);
    }
    DeclKept(p, ns, m, order, 0);
    DeclKept(p, ns, m, order, 1);
    DeclKept(p, ns, m, order, 2);
    assert Clobbered(p, ns, m, order, 2);
  }

  // An outer `g`, another `g` in the scope inside it, and in the innermost scope a function `g` that is used there.
  const SHADOWING := Program([None, Some(0), Some(1)], [[OfDecl(0)], [OfDecl(1)], [OfOther("g")]],
    [Ident(0, 0, VarOf(0)), Ident(1, 1, VarOf(1)), Ident(2, 2, UseIn)], [Decl(0, None), Decl(1, None)])

  const SHADOWING_NAMES := Names(["g", "g", "g"], ["g", "g"])

  const SHADOWING_LISTS: Lists := map["g" := [0, 1]]

  // The pass takes this program as well. The use of the function is renamed as if it were one of the
  // variable around it, and then stands for that.
  lemma FunctionIsLost()
    ensures Collect(SHADOWING, SHADOWING_NAMES, 3) == SHADOWING_LISTS
    ensures Start(SHADOWING, SHADOWING_NAMES) && Fresh(SHADOWING, SHADOWING_NAMES, SHADOWING_LISTS)
    ensures !Foreseen(SHADOWING, SHADOWING_NAMES, SHADOWING_LISTS)
    ensures FindDeclOf(SHADOWING, SHADOWING_NAMES, 2, "g") == Some((2, OfOther("g")))
    ensures exists order, f :: Done(SHADOWING, SHADOWING_NAMES, SHADOWING_LISTS, order, f)
    ensures forall order, f :: Done(SHADOWING, SHADOWING_NAMES, SHADOWING_LISTS, order, f) ==> UseIsVariable(f)
  {
    hide Done, Start, Fresh, Foreseen, FindDeclOf, Collect, UseIsVariable;
    ShadowingLists();
    ShadowingStarts();
    CollectIsRight(SHADOWING, SHADOWING_NAMES, 3);
    SomeRun(SHADOWING, SHADOWING_NAMES, SHADOWING_LISTS);
    forall order, f | Done(SHADOWING, SHADOWING_NAMES, SHADOWING_LISTS, order, f)
      ensures UseIsVariable(f)
    {
      ShadowingEnds(order, f);
    }
  }

  predicate UseIsVariable(f: Names) {
    |f.idents| == 3 && FindDeclOf(SHADOWING, f, 2, f.idents[2]) == Some((1, OfDecl(1)))
  }

  lemma ShadowingLists()
    ensures Collect(SHADOWING, SHADOWING_NAMES, 3) == SHADOWING_LISTS
  {
    var p, ns := SHADOWING, SHADOWING_NAMES;
    assert IsAncestor(p, 1, 1) && !IsAncestor(p, 0, 1);
    assert Collect(p, ns, 1) == map["g" := [0]];
    assert Insert(p, [0], 1) == [0, 1] by { assert Insert(p, [], 1) == [1]; }
    assert Collect(p, ns, 2) == map["g" := [0, 1]];
  }

  lemma ShadowingVersions()
    ensures WhichOf(SHADOWING, SHADOWING_LISTS, "g", 2) == 1 && WhichOf(SHADOWING, SHADOWING_LISTS, "g", 1) == 1
    ensures WhichOf(SHADOWING, SHADOWING_LISTS, "g", 0) == 0
  {
    assert IsAncestor(SHADOWING, 1, 1) && IsAncestor(SHADOWING, 2, 1) && !IsAncestor(SHADOWING, 0, 1);
  }

  lemma ShadowingStarts()
    ensures Start(SHADOWING, SHADOWING_NAMES) && Fresh(SHADOWING, SHADOWING_NAMES, SHADOWING_LISTS)
    ensures FindDeclOf(SHADOWING, SHADOWING_NAMES, 2, "g") == Some((2, OfOther("g")))
    ensures !Foreseen(SHADOWING, SHADOWING_NAMES, SHADOWING_LISTS)
  {
    hide Hoists;
    var p, ns, m := SHADOWING, SHADOWING_NAMES, SHADOWING_LISTS;
    InPlace(p, ns);
    forall n
      ensures Version("g", n) !in ns.idents && Version("g", n) != "g"
    {
      VersionIsLong("g", n);
    }
    ShadowingVersions();
    assert FindIn(p, ns, p.lists[2], "g") == Some(OfOther("g"));
    assert Renamed(p, ns, m, 2) && StandsForOther(p, ns, 2);
  }

  lemma ShadowingEnds(order: seq<string>, f: Names)
    requires Done(SHADOWING, SHADOWING_NAMES, SHADOWING_LISTS, order, f)
    ensures UseIsVariable(f)
  {
    hide DeclFinal, Which;
    var p, ns, m := SHADOWING, SHADOWING_NAMES, SHADOWING_LISTS;
    ShadowingVersions();
    DoneTells(p, ns, m, order, f);
    DeclShape(p, 1);
    DeclKept(p, ns, m, order, 1);
    VersionIsLong("g", 1);
    assert f.decls[1] == Version("g", 1) == f.idents[2];
    assert FindIn(p, f, p.lists[2], f.idents[2]) == None && FindIn(p, f, p.lists[1], f.idents[2]) == Some(OfDecl(1));
    assert FindDeclOf(p, f, 1, f.idents[2]) == Some((1, OfDecl(1)));
  }

  // { var x = x; } in a function that uses `x` after the block: the variable and its initial value stand
  // in the block, and the initial value makes the block one of the scopes that declare `x`.
  const ITSELF := Program([None, Some(0)], [[OfDecl(0)], []],
    [Ident(0, 1, VarOf(0)), Ident(1, 1, InitOf(0)), Ident(0, 0, UseIn)], [Decl(0, Some(1))])

  const ITSELF_NAMES := Names(["x", "x", "x"], ["x"])

  const ITSELF_LISTS: Lists := map["x" := [0, 1]]

  // The pass takes this program, and renames the variable in the block only: its use after it is lost.
  lemma HoistedItself()
    ensures Collect(ITSELF, ITSELF_NAMES, 3) == ITSELF_LISTS
    ensures Start(ITSELF, ITSELF_NAMES) && Fresh(ITSELF, ITSELF_NAMES, ITSELF_LISTS)
    ensures FindDeclOf(ITSELF, ITSELF_NAMES, 0, "x") == Some((0, OfDecl(0)))
    ensures exists order, f :: Done(ITSELF, ITSELF_NAMES, ITSELF_LISTS, order, f)
    ensures forall order, f :: Done(ITSELF, ITSELF_NAMES, ITSELF_LISTS, order, f) ==> UseIsLost(f)
  {
    hide Done, Start, Fresh, FindDeclOf, Collect, UseIsLost, Follows;
    ItselfLists();
    ItselfStarts();
    CollectIsRight(ITSELF, ITSELF_NAMES, 3);
    SomeRun(ITSELF, ITSELF_NAMES, ITSELF_LISTS);
    forall order, f | Done(ITSELF, ITSELF_NAMES, ITSELF_LISTS, order, f)
      ensures UseIsLost(f)
    {
      ItselfEnds(order, f);
    }
  }

  predicate UseIsLost(f: Names) {
    |f.idents| == 3 && f.idents[2] == "x" && FindDeclOf(ITSELF, f, 0, "x") != Some((0, OfDecl(0)))
  }

  lemma ItselfLists()
    ensures Collect(ITSELF, ITSELF_NAMES, 3) == ITSELF_LISTS
  {
    var p, ns := ITSELF, ITSELF_NAMES;
    assert Collect(p, ns, 1) == map["x" := [0]];
    assert !IsAncestor(p, 0, 1);
    assert Insert(p, [0], 1) == [0, 1] by { assert Insert(p, [], 1) == [1]; }
    assert Collect(p, ns, 2) == map["x" := [0, 1]];
  }

  lemma ItselfStarts()
    ensures Start(ITSELF, ITSELF_NAMES) && Fresh(ITSELF, ITSELF_NAMES, ITSELF_LISTS)
    ensures FindDeclOf(ITSELF, ITSELF_NAMES, 0, "x") == Some((0, OfDecl(0))) && !Follows(ITSELF, ITSELF_NAMES, ITSELF_LISTS, 2)
    ensures NewName(ITSELF, ITSELF_NAMES, ITSELF_LISTS, 2) == "x"
  {
    var p, ns := ITSELF, ITSELF_NAMES;
    assert IsAncestor(p, 1, 0) by { assert IsAncestor(p, 0, 0); }
    assert IsAncestor(p, 1, 1) && !IsAncestor(p, 0, 1);
    assert FindIn(p, ns, p.lists[0], "x") == Some(OfDecl(0));
    VersionIsLong("x", 1);
    assert ValidDecl(p, 0) && Entered(p, 0, OfDecl(0));
  }

  lemma ItselfEnds(order: seq<string>, f: Names)
    requires Done(ITSELF, ITSELF_NAMES, ITSELF_LISTS, order, f)
    ensures UseIsLost(f)
  {
    hide Done, Start, Fresh, FindDeclOf, Follows, NewName;
    ItselfStarts();
    DoneTells(ITSELF, ITSELF_NAMES, ITSELF_LISTS, order, f);
    StrayIsLost(ITSELF, ITSELF_NAMES, ITSELF_LISTS, order, f, 2);
  }

  // var y; { var x = y; } hoists a variable whose initial value stays in the block.
  const HOISTED := Program([None, Some(0)], [[OfDecl(0), OfDecl(1)], []],
    [Ident(0, 0, VarOf(0)), Ident(0, 1, VarOf(1)), Ident(1, 1, InitOf(1))], [Decl(0, None), Decl(1, Some(2))])

  const HOISTED_NAMES := Names(["y", "x", "y"], ["y", "x"])

  lemma HoistedVariable()
    ensures var p, ns, m := HOISTED, HOISTED_NAMES, Collect(HOISTED, HOISTED_NAMES, 3);
            Start(p, ns) && m == map["y" := [0], "x" := [1]] && Fresh(p, ns, m) && Foreseen(p, ns, m)
  {
    hide FindDeclOf, Valid, Hoists, Collect;
    HoistedLists();
    HoistedStarts();
  }

  lemma HoistedLists()
    ensures Collect(HOISTED, HOISTED_NAMES, 3) == map["y" := [0], "x" := [1]]
  {
    assert Collect(HOISTED, HOISTED_NAMES, 1) == map["y" := [0]];
    assert Collect(HOISTED, HOISTED_NAMES, 2) == map["y" := [0], "x" := [1]];
  }

  lemma HoistedStarts()
    ensures Valid(HOISTED) && forall i :: 0 <= i < 3 ==> Hoists(HOISTED, HOISTED_NAMES, i)
  {
    hide IsAncestor;
    var p, ns := HOISTED, HOISTED_NAMES;
    Itself(p, 0);
    Itself(p, 1);
    OneUp(p);
    NotHoisted(p, ns, 0);
    NotHoisted(p, ns, 2);
    assert p.lists[1] == [] && p.idents[1].scope == 0;
  }

  lemma OneUp(p: Program)
    requires p.parents == [None, Some(0)]
    ensures IsAncestor(p, 1, 0)
  {
    assert IsAncestor(p, 0, 0);
  }

  // var x = 1; var x = 2; declares one name twice in one scope.
  const TWICE := Program([None], [[OfDecl(0), OfDecl(1)]], [Ident(0, 0, VarOf(0)), Ident(0, 0, VarOf(1))], [Decl(0, None), Decl(1, None)])
  const TWICE_NAMES := Names(["x", "x"], ["x", "x"])

  lemma DeclaredTwice()
    ensures var p, ns, m := TWICE, TWICE_NAMES, Collect(TWICE, TWICE_NAMES, 2);
            Start(p, ns) && m == map["x" := [0]] && Fresh(p, ns, m) && Foreseen(p, ns, m)
  {
    hide Hoists, FindDeclOf;
    var p, ns := TWICE, TWICE_NAMES;
    assert Collect(p, ns, 1) == map["x" := [0]];
    assert Insert(p, [0], 1) == [0];
    InPlace(p, ns);
  }
}
