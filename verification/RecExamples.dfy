/** A rule filed under the wrong class: whether it happens depends on where the walk begins. */
module RecExamples {
  import opened Graphs
  import opened Grammar
  import opened Recursions
  import opened RecExact
  import opened RecWalk
  import opened RecEdges
  import opened RecDetect

  const BACK_TO_A := Edge(1, 0, [0, 1])
  const BACK_TO_B := Edge(0, 0, [1, 0])

  // From A on: B looks into A, which is in process, and is filed as Fail; then C makes A MaybeZero.
  lemma WalkFromA()
    ensures WellFormed(LOOP) && WalkOf(LOOP, [0]) == Walk([], [1, 2, 0], [], [2, 0], [1], [BACK_TO_A])
  {
    hide OfRule, ByType;
    var g := LOOP;
    ElementsOfA();
    var w := Walk([], [], [0], [], [], []);
    assert [] + [0] == [0] && [0][..0] == [] && [1, 2] + [0] == [1, 2, 0] && [2] + [0] == [2, 0];
    RuleIs(g, w.(todo := []), 0, 0);
    assert OfRule(g, w.(todo := []), 0, 0).w == Walk([], [1, 2, 0], [], [2, 0], [1], [BACK_TO_A]);
    assert [0][1..] == [];
    assert OfFront(g, w) == Walk([], [1, 2, 0], [], [2, 0], [1], [BACK_TO_A]);
  }

  lemma ElementsOfA()
    ensures WellFormed(LOOP)
    ensures ByType(LOOP, Walk([0], [], [], [], [], []), 0) == Came(Walk([0], [1, 2], [], [2], [1], [BACK_TO_A]), MaybeZero)
  {
    hide OfRule;
    var g := LOOP;
    BWithinA();
    CWithinA();
    var w, w1, w2 := Walk([0], [], [], [], [], []), Walk([0], [1], [], [], [1], [BACK_TO_A]), Walk([0], [1, 2], [], [2], [1], [BACK_TO_A]);
    assert OfOneof(g, w2, 0, 2, MaybeZero) == Came(w2, MaybeZero);
    assert OfOneof(g, w1, 0, 1, Fail) == Came(w2, MaybeZero);
    assert OfOneof(g, w, 0, 0, NA) == Came(w2, MaybeZero);
  }

  lemma BWithinA()
    ensures WellFormed(LOOP) && OfRule(LOOP, Walk([0], [], [], [], [], []), 1, 0) == Came(Walk([0], [1], [], [], [1], [BACK_TO_A]), Fail)
  {
    var g, b := LOOP, Walk([0, 1], [], [], [], [], []);
    assert WellFormed(g);
    var b1 := b.(edges := [BACK_TO_A]);
    assert DownFrom([0, 1], 0) == [0, 1] && [] + [BACK_TO_A] == [BACK_TO_A];
    assert OfElement(g, b, 1, 0) == Came(b1, Fail);
    assert ByType(g, b, 1) == Came(b1, Fail);
    assert [0] + [1] == [0, 1] && [0, 1][..1] == [0] && [] + [1] == [1];
  }

  lemma CWithinA()
    ensures WellFormed(LOOP) && OfRule(LOOP, Walk([0], [1], [], [], [1], [BACK_TO_A]), 2, 1) == Came(Walk([0], [1, 2], [], [2], [1], [BACK_TO_A]), MaybeZero)
  {
    hide ByType;
    OptionalToken(Walk([0, 2], [1], [], [], [1], [BACK_TO_A]));
    assert [0] + [2] == [0, 2] && [0, 2][..1] == [0] && [1] + [2] == [1, 2] && [] + [2] == [2];
    RuleIs(LOOP, Walk([0], [1], [], [], [1], [BACK_TO_A]), 2, 1);
  }

  // From B on: A looks into B, which is in process, but C makes A MaybeZero, and A makes B so.
  lemma WalkFromB()
    ensures WellFormed(LOOP) && WalkOf(LOOP, [1]) == Walk([], [2, 0, 1], [], [2, 0, 1], [], [BACK_TO_B])
  {
    hide OfRule, ByType;
    var g := LOOP;
    ElementsOfB();
    var w := Walk([], [], [1], [], [], []);
    assert [] + [1] == [1] && [1][..0] == [] && [2, 0] + [1] == [2, 0, 1];
    RuleIs(g, w.(todo := []), 1, 0);
    assert OfRule(g, w.(todo := []), 1, 0).w == Walk([], [2, 0, 1], [], [2, 0, 1], [], [BACK_TO_B]);
    assert [1][1..] == [];
    assert OfFront(g, w) == Walk([], [2, 0, 1], [], [2, 0, 1], [], [BACK_TO_B]);
  }

  lemma ElementsOfB()
    ensures WellFormed(LOOP)
    ensures ByType(LOOP, Walk([1], [], [], [], [], []), 1) == Came(Walk([1], [2, 0], [], [2, 0], [], [BACK_TO_B]), MaybeZero)
  {
    hide OfRule;
    var g := LOOP;
    AWithinB();
    var w, w1 := Walk([1], [], [], [], [], []), Walk([1], [2, 0], [], [2, 0], [], [BACK_TO_B]);
    assert OfConcatenate(g, w1, 1, 1) == Came(w1, MaybeZero);
    assert OfConcatenate(g, w, 1, 0) == Came(w1, MaybeZero);
  }

  lemma AWithinB()
    ensures WellFormed(LOOP) && OfRule(LOOP, Walk([1], [], [], [], [], []), 0, 0) == Came(Walk([1], [2, 0], [], [2, 0], [], [BACK_TO_B]), MaybeZero)
  {
    hide ByType;
    ElementsOfAWithinB();
    assert [1] + [0] == [1, 0] && [1, 0][..1] == [1] && [2] + [0] == [2, 0];
    RuleIs(LOOP, Walk([1], [], [], [], [], []), 0, 0);
  }

  lemma ElementsOfAWithinB()
    ensures WellFormed(LOOP) && ByType(LOOP, Walk([1, 0], [], [], [], [], []), 0) == Came(Walk([1, 0], [2], [], [2], [], [BACK_TO_B]), MaybeZero)
  {
    hide OfRule;
    CWithinB();
    var g, a, a1 := LOOP, Walk([1, 0], [], [], [], [], []), Walk([1, 0], [2], [], [2], [], [BACK_TO_B]);
    var a0 := a.(edges := [BACK_TO_B]);
    RuleIs(g, a, 1, 0);
    assert DownFrom([1, 0], 1) == [1, 0] && [] + [BACK_TO_B] == [BACK_TO_B];
    assert OfOneof(g, a1, 0, 2, MaybeZero) == Came(a1, MaybeZero);
    assert OfOneof(g, a0, 0, 1, Fail) == Came(a1, MaybeZero);
    assert OfOneof(g, a, 0, 0, NA) == Came(a1, MaybeZero);
  }

  lemma CWithinB()
    ensures WellFormed(LOOP) && OfRule(LOOP, Walk([1, 0], [], [], [], [], [BACK_TO_B]), 2, 1) == Came(Walk([1, 0], [2], [], [2], [], [BACK_TO_B]), MaybeZero)
  {
    hide ByType;
    var g, a, c := LOOP, Walk([1, 0], [], [], [], [], [BACK_TO_B]), Walk([1, 0, 2], [], [], [], [], [BACK_TO_B]);
    OptionalToken(c);
    assert [1, 0] + [2] == [1, 0, 2] && [1, 0, 2][..2] == [1, 0] && [] + [2] == [2];
    RuleIs(g, a, 2, 1);
  }

  lemma OptionalToken(w: Walk)
    ensures WellFormed(LOOP) && ByType(LOOP, w, 2) == Came(w, MaybeZero)
  {
    assert OfElement(LOOP, w, 2, 0) == Came(w, Fail);
  }

  // With A as top rule B is filed as Fail, although it derives the empty string.
  method Misjudged() returns (d: RecDetector)
    ensures fresh(d) && d.gRules == LOOP && d.gTopRules == [0] && d.mMaybeZero == [2, 0] && d.mFail == [1] && Nullable(LOOP, 1)
  {
    hide WalkOf, Nullable, NullableOffCycles;
    NullableOnCycle();
    WalkFromA();
    d := new RecDetector(LOOP, [0]);
    d.Detect();
  }

  // With B as top rule all three are MaybeZero.
  method JudgedRight() returns (d: RecDetector)
    ensures fresh(d) && d.gRules == LOOP && d.gTopRules == [1] && d.mMaybeZero == [2, 0, 1] && d.mFail == []
  {
    hide WalkOf, Nullable;
    WalkFromB();
    d := new RecDetector(LOOP, [1]);
    d.Detect();
  }

  // -------- Two paths. E: F or a token. F: G or E. G: E '+'

  const TWO := [RuleTable(Oneof, [Subtable(1), Token(0)]), RuleTable(Oneof, [Subtable(2), Subtable(0)]),
                RuleTable(Concatenate, [Subtable(0), Char('+')])]
  const BACK_FROM_G := Edge(2, 0, [0, 1, 2])
  const BACK_FROM_F := Edge(1, 1, [0, 1])

  lemma WalkOfG()
    ensures WellFormed(TWO) && OfRule(TWO, Walk([0, 1], [], [], [], [], []), 2, 0) == Came(Walk([0, 1], [2], [], [], [2], [BACK_FROM_G]), Fail)
  {
    var g, w := TWO, Walk([0, 1, 2], [], [], [], [], []);
    assert WellFormed(g);
    var w1 := w.(edges := [BACK_FROM_G]);
    assert DownFrom([0, 1, 2], 0) == [0, 1, 2] && [] + [BACK_FROM_G] == [BACK_FROM_G];
    assert OfElement(g, w, 2, 0) == Came(w1, Fail);
    assert RestToDo(g, w1, 2, 1) == w1;
    assert ByType(g, w, 2) == Came(w1, Fail);
    assert [0, 1] + [2] == [0, 1, 2] && [0, 1, 2][..2] == [0, 1] && [] + [2] == [2];
  }

  lemma WalkOfF()
    ensures WellFormed(TWO)
    ensures OfRule(TWO, Walk([0], [], [], [], [], []), 1, 0) == Came(Walk([0], [2, 1], [], [], [2, 1], [BACK_FROM_G, BACK_FROM_F]), Fail)
  {
    hide OfRule;
    WalkOfG();
    var g, w, w1 := TWO, Walk([0, 1], [], [], [], [], []), Walk([0, 1], [2], [], [], [2], [BACK_FROM_G]);
    var w2 := w1.(edges := [BACK_FROM_G, BACK_FROM_F]);
    assert DownFrom([0, 1], 0) == [0, 1] && [BACK_FROM_G] + [BACK_FROM_F] == [BACK_FROM_G, BACK_FROM_F];
    RuleIs(g, w1, 0, 1);
    assert OfOneof(g, w2, 1, 2, Fail) == Came(w2, Fail);
    assert OfOneof(g, w1, 1, 1, Fail) == Came(w2, Fail);
    assert OfOneof(g, w, 1, 0, NA) == Came(w2, Fail);
    assert [0] + [1] == [0, 1] && [0, 1][..1] == [0] && [2] + [1] == [2, 1];
    RuleIs(g, Walk([0], [], [], [], [], []), 1, 0);
  }

  lemma WalkOfE()
    ensures WellFormed(TWO) && WalkOf(TWO, [0]) == Walk([], [2, 1, 0], [], [], [2, 1, 0], [BACK_FROM_G, BACK_FROM_F])
  {
    hide OfRule;
    WalkOfF();
    var g, w, w1 := TWO, Walk([0], [], [], [], [], []), Walk([0], [2, 1], [], [], [2, 1], [BACK_FROM_G, BACK_FROM_F]);
    assert OfOneof(g, w1, 0, 2, Fail) == Came(w1, Fail);
    assert OfOneof(g, w1, 0, 1, Fail) == Came(w1, Fail);
    assert OfOneof(g, w, 0, 0, NA) == Came(w1, Fail);
    var front, end := Walk([], [], [0], [], [], []), Walk([], [2, 1, 0], [], [], [2, 1, 0], [BACK_FROM_G, BACK_FROM_F]);
    assert [] + [0] == [0] && [0][..0] == [] && [2, 1] + [0] == [2, 1, 0] && [0][1..] == [];
    RuleIs(g, front.(todo := []), 0, 0);
    assert OfFront(g, front) == end;
    assert OfAll(g, end) == end;
  }

  lemma TwoRounds()
    ensures PathOf(TWO, Round(BACK_FROM_G)) == [0, 0, 0] && PathOf(TWO, Round(BACK_FROM_F)) == [0, 1]
  {
    var g := TWO;
    assert Round(BACK_FROM_G) == [0, 1, 2, 0] && Round(BACK_FROM_F) == [0, 1, 0];
    assert [0, 1, 2, 0][1..] == [1, 2, 0] && [1, 2, 0][1..] == [2, 0] && [0, 1, 0][1..] == [1, 0] && [2, 0][1..] == [0] && [1, 0][1..] == [0];
    assert PathOf(g, [2, 0]) == [0] && PathOf(g, [1, 2, 0]) == [0, 0] && PathOf(g, [0, 1, 2, 0]) == [0, 0, 0];
    assert g[1].mData[1..] == [Subtable(0)];
    assert FirstIndex(g[1].mData, Subtable(0)) == 1;
    assert PathOf(g, [1, 0]) == [1] && PathOf(g, [0, 1, 0]) == [0, 1];
  }

  lemma TwoRecorded()
    ensures EdgesFit(TWO, [BACK_FROM_G, BACK_FROM_F])
    ensures Recorded(TWO, [BACK_FROM_G, BACK_FROM_F]) == [Led(0, [[0, 0, 0], [0, 1]])]
  {
    hide PathOf, FirstIndex;
    TwoRounds();
    var g, es := TWO, [BACK_FROM_G, BACK_FROM_F];
    assert es[..1] == [BACK_FROM_G] && [BACK_FROM_G][..0] == [];
    assert Recorded(g, [BACK_FROM_G]) == [Led(0, [[0, 0, 0]])];
    assert [[0, 0, 0]] + [[0, 1]] == [[0, 0, 0], [0, 1]];
  }

  // Both elements that are E, in G and in F, give E a path.
  method TwoPaths() returns (d: RecDetector)
    ensures fresh(d) && d.gRules == TWO && d.gTopRules == [0]
    ensures |d.mRecursions| == 1 && d.mRecursions[0].mLead == 0 && d.mRecursions[0].mPaths == [[0, 0, 0], [0, 1]]
  {
    hide WalkOf, Nullable, Recorded, EdgesFit;
    WalkOfE();
    TwoRecorded();
    d := new RecDetector(TWO, [0]);
    d.Detect();
  }
}
