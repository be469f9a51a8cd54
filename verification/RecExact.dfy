/** Left recursion as the grammar has it: if nullable rules are so without the rules on left cycles with
    them, the detector's classes and its left graph are the true ones. */
module RecExact {
  import opened Options
  import opened Graphs
  import opened Grammar
  import opened Recursions
  import opened RecTheorems

  ghost function NullableBelow(g: Rules, n: nat): (r: seq<nat>)
    ensures forall x: nat :: x in r <==> x < n && Nullable(g, x)
  {
    if n == 0 then [] else NullableBelow(g, n - 1) + if Nullable(g, n - 1) then [n - 1] else []
  }

  // The left graph of the grammar: what each rule can start with.
  ghost function TrueLeftGraph(g: Rules): Graph
    requires WellFormed(g)
  {
    LeftGraph(g, NullableBelow(g, |g|))
  }

  ghost predicate NoNullableCycle(g: Rules, tops: seq<nat>)
    requires WellFormed(g)
  {
    forall u: nat :: Reached(g, tops, u) && Nullable(g, u) ==> !OnCycle(TrueLeftGraph(g), u)
  }

  ghost predicate ClassesExact(g: Rules, tops: seq<nat>, mz: seq<nat>)
    requires WellFormed(g)
  {
    forall u: nat :: u in mz <==> Reached(g, tops, u) && Nullable(g, u)
  }

  lemma NullableInRange(g: Rules, x: nat)
    requires Nullable(g, x)
    ensures x < |g|
  {
  }

  // Cycles of the detector's graph are cycles of the grammar.
  lemma CycleIsTrue(g: Rules, mz: seq<nat>, u: nat)
    requires WellFormed(g) && (forall x :: x in mz ==> Nullable(g, x)) && OnCycle(LeftGraph(g, mz), u)
    ensures OnCycle(TrueLeftGraph(g), u)
  {
    hide Nullable, Reach, WellFormed;
    var h, t := LeftGraph(g, mz), TrueLeftGraph(g);
    forall x | x in mz
      ensures x in NullableBelow(g, |g|)
    {
      NullableInRange(g, x);
    }
    LeftGraphMono(g, mz, NullableBelow(g, |g|));
    var w :| Step(h, u, w) && Reach(h, w, u);
    ReachMono(h, t, w, u);
    assert Step(t, u, w);
  }

  // -------- When the classes are exact

  // The rule is nullable whatever the rules on left cycles with it are taken for.
  ghost predicate NullableApart(g: Rules, u: nat)
    requires WellFormed(g) && u < |g|
  {
    match g[u].mType
    case Oneof => exists v: nat :: Subtable(v) in g[u].mData && Nullable(g, v) && !Mutual(TrueLeftGraph(g), u, v)
    case Zeroorone => true
    case Zeroormore => true
    case _ => forall v: nat :: Subtable(v) in g[u].mData ==> !Mutual(TrueLeftGraph(g), u, v)
  }

  ghost predicate NullableOffCycles(g: Rules, tops: seq<nat>)
    requires WellFormed(g)
  {
    forall u: nat :: u < |g| && Reached(g, tops, u) && Nullable(g, u) ==> NullableApart(g, u)
  }

  lemma ClassesAreExact(g: Rules, tops: seq<nat>, mz: seq<nat>, fail: seq<nat>)
    requires WellFormed(g) && (forall u: nat :: Reached(g, tops, u) <==> u in mz || u in fail)
    requires (forall u :: u in mz ==> Nullable(g, u)) && forall u :: u in fail ==> !Nullable(g, u)
    ensures ClassesExact(g, tops, mz)
  {
    hide Nullable, Reached, WellFormed;
  }

  // No nullable rule is filed as Fail.
  lemma FailIsRight(g: Rules, tops: seq<nat>, s: State)
    requires WellFormed(g) && Inv(g, tops, s) && NullableOffCycles(g, tops)
    requires forall x: nat :: x in s.done <==> Reached(g, tops, x)
    ensures forall u :: u in s.fail ==> !Nullable(g, u)
  {
    hide Nullable, Reached, WellFormed, Inv;
    forall u | u in s.fail
      ensures !Nullable(g, u)
    {
      FailedIsRight(g, tops, s, u);
    }
  }

  lemma {:induction false} FailedIsRight(g: Rules, tops: seq<nat>, s: State, u: nat)
    requires WellFormed(g) && Inv(g, tops, s) && NullableOffCycles(g, tops) && u in s.fail
    requires forall x: nat :: x in s.done <==> Reached(g, tops, x)
    ensures !Nullable(g, u)
    decreases |From(g, u)|
  {
    hide Nullable, Reached, WellFormed, Inv, Mutual, TrueLeftGraph, RecsInv;
    InvParts(g, tops, s);
    if Nullable(g, u) {
      assert Failed(g, s.fail, s.recs, u);
      NullableElements(g, u);
      var d := BlockingElement(g, s, u);
      LeftElement(g, u, d);
      if LedBy(s.recs, d.entry, u) { LeadIsMutual(g, s, d.entry, u); }
      FromShrinks(g, u, d.entry);
      FailedIsRight(g, tops, s, d.entry);
    }
  }

  // The element that made the rule fail, off the left cycles of the rule.
  lemma BlockingElement(g: Rules, s: State, u: nat) returns (d: TableData)
    requires WellFormed(g) && u < |g| && Failed(g, s.fail, s.recs, u) && NullableApart(g, u)
    requires !g[u].mType.Oneof? ==> forall d :: d in g[u].mData ==> d.Subtable? && Nullable(g, d.entry)
    ensures d in g[u].mData && Blocks(s.fail, s.recs, u, d) && d.Subtable? && Nullable(g, d.entry)
    ensures !Mutual(TrueLeftGraph(g), u, d.entry)
  {
    hide Nullable, Mutual, TrueLeftGraph, Blocks;
    assert WellFormedRule(|g|, g[u]);
    if g[u].mType.Oneof? {
      var v: nat :| Subtable(v) in g[u].mData && Nullable(g, v) && !Mutual(TrueLeftGraph(g), u, v);
      d := Subtable(v);
    } else {
      d := if g[u].mType.Concatenate? then (var e :| e in g[u].mData && Blocks(s.fail, s.recs, u, e); e) else g[u].mData[0];
    }
  }

  // All elements of a nullable rule that needs them all are nullable.
  lemma NullableElements(g: Rules, u: nat)
    requires WellFormed(g) && Nullable(g, u)
    ensures u < |g| && (g[u].mType.Concatenate? || g[u].mType.Data? ==> forall d :: d in g[u].mData ==> d.Subtable? && Nullable(g, d.entry))
  {
    var t :| Derivation(g, t) && Root(t) == Subtable(u) && Yield(t) == [];
    EmptyYields(t.kids);
    var ds := Roots(t.kids);
    forall i | 0 <= i < |ds|
      ensures ds[i].Subtable? && Nullable(g, ds[i].entry)
    {
      assert t.kids[i] in t.kids && Yield(t.kids[i]) == [];
    }
  }

  lemma LeftElement(g: Rules, u: nat, d: TableData)
    requires WellFormed(g) && u < |g| && d in g[u].mData && d.Subtable?
    requires g[u].mType.Concatenate? ==> forall e :: e in g[u].mData ==> e.Subtable? && Nullable(g, e.entry)
    ensures d.entry < |g| && Step(TrueLeftGraph(g), u, d.entry)
  {
    hide Nullable;
    var k :| 0 <= k < |g[u].mData| && g[u].mData[k] == d;
    assert WellFormedRule(|g|, g[u]);
    forall i | 0 <= i < |g[u].mData| && g[u].mData[i].Subtable?
      ensures g[u].mData[i].entry < |g|
    {
      assert g[u].mData[i] in g[u].mData;
    }
    assert LeftIndex(g, NullableBelow(g, |g|), u, k);
    assert g[u].mData[k] == Subtable(d.entry);
  }

  // A rule and the lead of a recursion it is in come to each other.
  lemma LeadIsMutual(g: Rules, s: State, v: nat, u: nat)
    requires WellFormed(g) && RecsInv(g, s.mz, s.recs, s.r2r) && Evidence(g, s) && LedBy(s.recs, v, u)
    ensures Mutual(TrueLeftGraph(g), u, v)
  {
    hide Nullable, Reach, WellFormed, Failed, Settled;
    var k :| 0 <= k < |s.recs| && s.recs[k].mLead == v && u in s.recs[k].mRuleTables;
    assert RecOK(g, s.mz, s.recs[k]);
    var h, t := LeftGraph(g, s.mz), TrueLeftGraph(g);
    forall x | x in s.mz
      ensures x in NullableBelow(g, |g|)
    {
      NullableInRange(g, x);
    }
    LeftGraphMono(g, s.mz, NullableBelow(g, |g|));
    ReachMono(h, t, v, u);
    ReachMono(h, t, u, v);
  }

  // The rules a rule comes to by left edges.
  ghost function From(g: Rules, u: nat): set<nat>
    requires WellFormed(g)
  {
    set x | x in Below(|g|) && Reach(TrueLeftGraph(g), u, x)
  }

  lemma FromShrinks(g: Rules, u: nat, v: nat)
    requires WellFormed(g) && u < |g| && Step(TrueLeftGraph(g), u, v) && !Mutual(TrueLeftGraph(g), u, v)
    ensures |From(g, v)| < |From(g, u)|
  {
    hide Reach, WellFormed, LeftGraph;
    var t := TrueLeftGraph(g);
    ReachRefl(t, u);
    ReachStep(t, u, v);
    forall x | x in From(g, v)
      ensures x in From(g, u) - {u}
    {
      ReachTrans(t, u, v, x);
    }
    SubsetCard(From(g, v), From(g, u) - {u});
  }

  // It is enough that no nullable rule is on a left cycle.
  lemma NoCycleIsEnough(g: Rules, tops: seq<nat>)
    requires WellFormed(g) && NoNullableCycle(g, tops)
    ensures NullableOffCycles(g, tops)
  {
    hide Nullable, Reached, WellFormed, Mutual, TrueLeftGraph, OnCycle;
    forall u: nat | u < |g| && Reached(g, tops, u) && Nullable(g, u)
      ensures NullableApart(g, u)
    {
      NullableElements(g, u);
      if g[u].mType.Oneof? {
        var v := NullableElement(g, u);
        LeftElement(g, u, Subtable(v));
        EdgeOnCycle(g, u, v);
      } else if g[u].mType.Concatenate? || g[u].mType.Data? {
        forall v: nat | Subtable(v) in g[u].mData
          ensures !Mutual(TrueLeftGraph(g), u, v)
        {
          LeftElement(g, u, Subtable(v));
          EdgeOnCycle(g, u, v);
        }
      } else {
        NoNull(g, u);
      }
    }
  }

  lemma NoNull(g: Rules, u: nat)
    requires WellFormed(g) && u < |g|
    ensures !g[u].mType.Null?
  {
    assert WellFormedRule(|g|, g[u]);
  }

  lemma EdgeOnCycle(g: Rules, u: nat, v: nat)
    requires WellFormed(g) && Step(TrueLeftGraph(g), u, v) && !OnCycle(TrueLeftGraph(g), u)
    ensures !Mutual(TrueLeftGraph(g), u, v)
  {
  }

  lemma NullableElement(g: Rules, u: nat) returns (v: nat)
    requires WellFormed(g) && Nullable(g, u) && u < |g| && g[u].mType.Oneof?
    ensures Subtable(v) in g[u].mData && Nullable(g, v)
  {
    var t :| Derivation(g, t) && Root(t) == Subtable(u) && Yield(t) == [];
    EmptyYields(t.kids);
    var k := t.kids[0];
    assert k in t.kids && Yield(k) == [] && Roots(t.kids)[0] == Root(k);
    v := k.rule;
  }

  // From reached rules both graphs have the same edges.
  lemma SameSteps(g: Rules, tops: seq<nat>, mz: seq<nat>, u: nat, v: nat)
    requires WellFormed(g) && ClassesExact(g, tops, mz) && Reached(g, tops, u)
    ensures Step(LeftGraph(g, mz), u, v) <==> Step(TrueLeftGraph(g), u, v)
  {
    hide Nullable, Reached;
    var all := NullableBelow(g, |g|);
    if u < |g| {
      forall i | 0 <= i < |g[u].mData| && g[u].mData[i].Subtable?
        ensures g[u].mData[i].entry in mz <==> g[u].mData[i].entry in all
      {
        assert g[u].mData[i] == Subtable(g[u].mData[i].entry) && g[u].mData[i] in g[u].mData;
        ReachedChild(g, tops, u, g[u].mData[i].entry);
      }
      assert forall k: nat :: LeftIndex(g, mz, u, k) <==> LeftIndex(g, all, u, k);
    }
  }

  lemma SameReach(g: Rules, tops: seq<nat>, mz: seq<nat>, u: nat, v: nat)
    requires WellFormed(g) && ClassesExact(g, tops, mz) && Reached(g, tops, u) && forall t :: t in tops ==> t < |g|
    ensures Reach(LeftGraph(g, mz), u, v) <==> Reach(TrueLeftGraph(g), u, v)
  {
    hide Nullable, Reached, LeftGraph, WellFormed;
    var h, t := LeftGraph(g, mz), TrueLeftGraph(g);
    if Reach(h, u, v) {
      forall x | x in mz
        ensures x in NullableBelow(g, |g|)
      {
        ReachedLeft(g, tops, mz, x, x);
      }
      LeftGraphMono(g, mz, NullableBelow(g, |g|));
      ReachMono(h, t, u, v);
    }
    if Reach(t, u, v) {
      var p :| IsPath(t, p) && p[0] == u && p[|p| - 1] == v;
      SamePath(g, tops, mz, p);
    }
  }

  lemma SamePath(g: Rules, tops: seq<nat>, mz: seq<nat>, p: seq<nat>)
    requires WellFormed(g) && ClassesExact(g, tops, mz) && IsPath(TrueLeftGraph(g), p) && Reached(g, tops, p[0])
    requires forall t :: t in tops ==> t < |g|
    ensures IsPath(LeftGraph(g, mz), p)
  {
    hide Nullable, Reached, LeftGraph, TrueLeftGraph, WellFormed;
    var i := 0;
    while i < |p| - 1
      invariant 0 <= i < |p| && Reached(g, tops, p[i]) && forall j :: 0 <= j < i ==> Step(LeftGraph(g, mz), p[j], p[j + 1])
    {
      SameSteps(g, tops, mz, p[i], p[i + 1]);
      ReachStep(LeftGraph(g, mz), p[i], p[i + 1]);
      ReachedLeft(g, tops, mz, p[i], p[i + 1]);
      i := i + 1;
    }
  }

  lemma SameCycles(g: Rules, tops: seq<nat>, mz: seq<nat>, u: nat)
    requires WellFormed(g) && ClassesExact(g, tops, mz) && Reached(g, tops, u) && forall t :: t in tops ==> t < |g|
    ensures OnCycle(LeftGraph(g, mz), u) <==> OnCycle(TrueLeftGraph(g), u)
  {
    hide Nullable, Reached, LeftGraph, TrueLeftGraph, WellFormed, Reach, ClassesExact;
    var h, t := LeftGraph(g, mz), TrueLeftGraph(g);
    forall w: nat
      ensures Step(h, u, w) && Reach(h, w, u) <==> Step(t, u, w) && Reach(t, w, u)
    {
      SameSteps(g, tops, mz, u, w);
      if Step(h, u, w) {
        ReachStep(h, u, w);
        ReachedLeft(g, tops, mz, u, w);
        SameReach(g, tops, mz, w, u);
      }
    }
  }

  // The left graph the detector uses is then the true one, as far as the detector has gone.
  lemma SameGraph(g: Rules, tops: seq<nat>, mz: seq<nat>)
    requires WellFormed(g) && ClassesExact(g, tops, mz) && forall t :: t in tops ==> t < |g|
    ensures forall u: nat :: Reached(g, tops, u) ==> (OnCycle(LeftGraph(g, mz), u) <==> OnCycle(TrueLeftGraph(g), u))
    ensures forall u: nat, v: nat :: Reached(g, tops, u) && Reached(g, tops, v) ==>
              (Mutual(LeftGraph(g, mz), u, v) <==> Mutual(TrueLeftGraph(g), u, v))
  {
    hide Nullable, Reached, LeftGraph, TrueLeftGraph, WellFormed, Reach, ClassesExact, OnCycle;
    forall u: nat | Reached(g, tops, u)
      ensures OnCycle(LeftGraph(g, mz), u) <==> OnCycle(TrueLeftGraph(g), u)
    {
      SameCycles(g, tops, mz, u);
    }
    forall u: nat, v: nat | Reached(g, tops, u) && Reached(g, tops, v)
      ensures Mutual(LeftGraph(g, mz), u, v) <==> Mutual(TrueLeftGraph(g), u, v)
    {
      SameReach(g, tops, mz, u, v);
      SameReach(g, tops, mz, v, u);
    }
  }

  // -------- Why the proviso is there

  // A: B or C. B: A. C: an optional token. All three are nullable, and A and B are on a left cycle. Met
  // first, A is in process when B looks into it; the guess that it does not derive the empty string is wrong.
  const LOOP := [RuleTable(Oneof, [Subtable(1), Subtable(2)]), RuleTable(Concatenate, [Subtable(0)]), RuleTable(Zeroorone, [Token(0)])]

  lemma NullableOnCycle()
    ensures WellFormed(LOOP) && Nullable(LOOP, 0) && Nullable(LOOP, 1) && Mutual(TrueLeftGraph(LOOP), 1, 0)
    ensures !NullableOffCycles(LOOP, [0])
  {
    hide Nullable, Reach;
    NullableIntro(LOOP, 2, []);
    assert LOOP[0].mData[1] == Subtable(2);
    NullableIntro(LOOP, 0, [Subtable(2)]);
    NullableIntro(LOOP, 1, [Subtable(0)]);
    var t, all := TrueLeftGraph(LOOP), NullableBelow(LOOP, 3);
    assert LeftIndex(LOOP, all, 0, 0) && LOOP[0].mData[0] == Subtable(1);
    assert LeftIndex(LOOP, all, 1, 0) && LOOP[1].mData[0] == Subtable(0);
    assert Step(t, 0, 1) && Step(t, 1, 0);
    ReachStep(t, 0, 1);
    ReachStep(t, 1, 0);
    var c := ChildGraph(LOOP);
    assert Step(c, 0, 1);
    ReachStep(c, 0, 1);
    assert 0 in [0] && Reached(LOOP, [0], 1);
    assert Subtable(0) in LOOP[1].mData && !NullableApart(LOOP, 1);
  }
}
