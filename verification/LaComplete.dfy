/** Which lookaheads are recorded in the end: all that walked elements have, but for missed edges; and
    without left recursion all that the rule can begin with, strings up to their length. */
module LaComplete {
  import opened Options
  import opened Graphs
  import opened ContTrees
  import opened Grammar
  import opened LookAheads
  import opened LaStates
  import opened LaFlow

  // Everything is done, and what done rules refer to is done.
  ghost predicate Ended(g: LaGrammar, s: LaState) {
    && WellFormedLa(g) && FlowInv(g, s, []) && s.inProcess == [] && s.pendings == []
    && forall u: nat, v: nat :: u in s.done && u < |g.rules| && !IsLeafRule(g, u) && Subtable(v) in g.rules[u].mData ==> v in s.done
  }

  // Element `k` of `u` counts: in a concatenation all elements before it are MaybeZero, and `u` did not
  // meet them in process.
  predicate Counts(g: LaGrammar, maybeZero: seq<nat>, met: set<(nat, nat)>, u: nat, k: nat) {
    && u < |g.rules| && !IsLeafRule(g, u) && k < |g.rules[u].mData|
    && (g.rules[u].mType.Concatenate? ==>
          forall j :: 0 <= j < k ==> var d := g.rules[u].mData[j]; d.Subtable? && d.entry in maybeZero && (u, d.entry) !in met)
  }

  // Every element that counts has given its lookaheads to the rule.
  ghost predicate ListIsComplete(g: LaGrammar, s: LaState, u: nat) {
    forall k: nat :: Counts(g, s.maybeZero, s.met, u, k) ==> IsElement(g, u, k) && Given(g, s.las, s.missed, u, k)
  }

  lemma ListsAreComplete(g: LaGrammar, s: LaState, u: nat)
    requires Ended(g, s) && u in s.done
    ensures ListIsComplete(g, s, u)
  {
    hide Given, LeftEdge, OnCycle, WellFormed;
    forall k: nat | Counts(g, s.maybeZero, s.met, u, k)
      ensures IsElement(g, u, k) && Given(g, s.las, s.missed, u, k)
    {
      CountsIsWalked(g, s, u, k);
      assert IsElement(g, u, k) && Passed(g, s, u, k);
      PassedIsGiven(g, s, u, k);
    }
  }

  lemma CountsIsWalked(g: LaGrammar, s: LaState, u: nat, k: nat)
    requires u in s.done && Complete(g, s, u) && Counts(g, s.maybeZero, s.met, u, k)
    ensures (u, k) in s.walked
  {
    if g.rules[u].mType.Concatenate? && u !in s.maybeZero {
      var m: nat :| m < |g.rules[u].mData| && WalkedTo(s, u, m + 1) && Stops(g, s, u, m);
      assert k <= m;
    }
  }

  lemma PassedIsGiven(g: LaGrammar, s: LaState, u: nat, k: nat)
    requires IsElement(g, u, k) && Passed(g, s, u, k) && s.pendings == []
    ensures Given(g, s.las, s.missed, u, k)
  {
  }

  // -------- Rules that derive the empty string

  // No rule on a left cycle derives the empty string.
  ghost predicate NoEmptyCycle(g: LaGrammar)
    requires WellFormed(g.rules)
  {
    forall u: nat :: OnCycle(LeftEdges(g.rules), u) ==> !Nullable(g.rules, u)
  }

  // Rules met in process do not derive the empty string, as they were taken not to.
  ghost predicate MetNotEmpty(g: LaGrammar, s: LaState) {
    forall p :: p in s.met ==> !Nullable(g.rules, p.1)
  }

  lemma MetIsNotEmpty(g: LaGrammar, s: LaState)
    requires Ended(g, s) && NoEmptyCycle(g)
    ensures MetNotEmpty(g, s)
  {
    hide OnCycle, LeftEdge, TreeFits, PendingsFit, WalkedFits, Complete, Nullable;
  }

  lemma NothingMet(g: LaGrammar, s: LaState)
    requires Ended(g, s) && !LeftRecursive(g)
    ensures NoEmptyCycle(g) && s.missed == {}
  {
    hide OnCycle, LeftEdge, TreeFits, PendingsFit, WalkedFits, Complete, OnCycles, Nullable;
    NoPairs(g, s.missed);
  }

  lemma NoPairs(g: LaGrammar, pairs: set<(nat, nat)>)
    requires WellFormed(g.rules) && OnCycles(g, pairs) && !LeftRecursive(g)
    ensures pairs == {}
  {
    hide OnCycle;
  }

  // A rule with an empty derivation that leaves identifiers and literals alone is MaybeZero.
  lemma {:induction false} NullableIsKnown(g: LaGrammar, s: LaState, t: Tree)
    requires Ended(g, s) && MetNotEmpty(g, s) && t.Node? && t.rule in s.done && Derivation(g.rules, t) && Yield(t) == []
    ensures t.rule in s.maybeZero
    decreases t
  {
    hide OnCycle, LeftEdge, TreeFits, PendingsFit, WalkedFits, OnCycles, WellFormed, Yields;
    hide Nullable, MetNotEmpty;
    var u := t.rule;
    EmptyYields(t.kids);
    var ds := Roots(t.kids);
    forall i | 0 <= i < |ds|
      ensures ds[i].Subtable? && ds[i] in g.rules[u].mData && ds[i].entry in s.maybeZero && Nullable(g.rules, ds[i].entry)
    {
      EmptyKid(g, s, t, i);
      EmptyIsNullable(g, t.kids[i]);
      NullableIsKnown(g, s, t.kids[i]);
    }
    assert Complete(g, s, u);
    if t.kids != [] { EmptyKid(g, s, t, 0); }
    if u !in s.maybeZero { NotStopped(g, s, u, ds); }
  }

  lemma EmptyIsNullable(g: LaGrammar, t: Tree)
    requires t.Node? && Derivation(g.rules, t) && Yield(t) == []
    ensures Nullable(g.rules, t.rule)
  {
  }

  lemma EmptyKid(g: LaGrammar, s: LaState, t: Tree, i: nat)
    requires Ended(g, s) && t.Node? && t.rule in s.done && Derivation(g.rules, t) && i < |t.kids|
    requires forall k :: k in t.kids ==> Yield(k) == []
    ensures !IsLeafRule(g, t.rule) && Root(t.kids[i]) in g.rules[t.rule].mData
    ensures var k := t.kids[i]; k.Node? && k.rule in s.done && Derivation(g.rules, k) && Yield(k) == []
  {
    hide FlowInv, WellFormed;
    var k := t.kids[i];
    assert k in t.kids && Roots(t.kids)[i] == Root(k);
    assert Yield(k) == [];
    assert Root(k) in g.rules[t.rule].mData;
  }

  lemma NotStopped(g: LaGrammar, s: LaState, u: nat, ds: seq<TableData>)
    requires u < |g.rules| && MetNotEmpty(g, s) && Expands(g.rules[u], ds) && WellFormed(g.rules)
    requires forall i :: 0 <= i < |ds| ==> ds[i].Subtable? && ds[i].entry in s.maybeZero && Nullable(g.rules, ds[i].entry)
    ensures !Evidence(g, s, u, false)
  {
    hide Nullable;
    assert WellFormedRule(|g.rules|, g.rules[u]);
    if g.rules[u].mType.Concatenate? {
      assert forall m: nat :: m < |g.rules[u].mData| ==> ds[m].Subtable? && !Stops(g, s, u, m);
    } else if g.rules[u].mType.Oneof? || g.rules[u].mType.Data? {
      var k :| 0 <= k < |g.rules[u].mData| && g.rules[u].mData[k] == ds[0];
      assert !Stops(g, s, u, k);
    }
  }

  // -------- What a rule begins with is listed

  // Two strings of one length are taken for each other.
  predicate Alike(a: LookAhead, b: LookAhead) {
    a == b || (a.LaString? && b.LaString? && |a.s| == |b.s|)
  }

  predicate Listed(list: seq<LookAhead>, la: LookAhead) {
    exists x :: x in list && Alike(x, la)
  }

  lemma CopiedIsListed(list: seq<LookAhead>, x: LookAhead, la: LookAhead)
    requires Copied(list, x) && Alike(x, la)
    ensures Listed(list, la)
  {
    if x !in list {
      var y :| y in list && LookAheadEqual(x, y);
      assert Alike(y, la);
    }
  }

  // The first tree that is not empty.
  lemma {:induction false} FirstKid(ts: seq<Tree>) returns (i: nat)
    requires Yields(ts) != []
    ensures i < |ts| && Yield(ts[i]) != [] && Yields(ts)[0] == Yield(ts[i])[0]
    ensures forall j :: 0 <= j < i ==> Yield(ts[j]) == []
  {
    if Yield(ts[0]) != [] {
      i := 0;
    } else {
      var k := FirstKid(ts[1..]);
      i := k + 1;
      assert forall j :: 0 < j < i ==> ts[j] == ts[1..][j - 1];
    }
  }

  lemma {:induction false} BeginsIsListed(g: LaGrammar, s: LaState, t: Tree, u: nat, la: LookAhead)
    requires Ended(g, s) && MetNotEmpty(g, s) && s.missed == {} && u in s.done
    requires Root(t) == Subtable(u) && BeginsTree(g, t, la)
    ensures Listed(LasOf(s.las, u), la)
    decreases t
  {
    hide FlowInv, WellFormed, Listed, Complete, LasOf, Copied, Alike;
    if t.Leaf? {
      LeafIsListed(g, s, u, la);
    } else {
      var i := FirstKid(t.kids);
      var k := KidCounts(g, s, t, i);
      ListsAreComplete(g, s, u);
      var kid, d := t.kids[i], g.rules[u].mData[k];
      assert IsElement(g, u, k) && Given(g, s.las, s.missed, u, k);
      if d.Subtable? {
        BeginsIsListed(g, s, kid, d.entry, la);
        ListedStays(s.las, d.entry, u, la);
      } else {
        assert la == LaOf(d) && Copied(LasOf(s.las, u), la);
        AlikeItself(la);
        CopiedIsListed(LasOf(s.las, u), la, la);
      }
    }
  }

  lemma AlikeItself(la: LookAhead)
    ensures Alike(la, la)
  {
  }

  lemma ListedStays(las: RuleLookAheads, v: nat, u: nat, la: LookAhead)
    requires Listed(LasOf(las, v), la) && Offers(las, v, u)
    ensures Listed(LasOf(las, u), la)
  {
    hide Copied, LasOf;
    var x :| x in LasOf(las, v) && Alike(x, la);
    CopiedIsListed(LasOf(las, u), x, la);
  }

  // An identifier or a literal.
  lemma LeafIsListed(g: LaGrammar, s: LaState, u: nat, la: LookAhead)
    requires Ended(g, s) && u in s.done && Matches(g, la, Subtable(u))
    ensures Listed(LasOf(s.las, u), la)
  {
    hide TreeFits, PendingsFit, WalkedFits, OnCycles, WellFormed, Copied;
    assert Complete(g, s, u);
    CopiedIsListed(LasOf(s.las, u), la, la);
  }

  lemma KidCounts(g: LaGrammar, s: LaState, t: Tree, i: nat) returns (k: nat)
    requires Ended(g, s) && MetNotEmpty(g, s) && t.Node? && t.rule in s.done && Derivation(g.rules, t)
    requires i < |t.kids| && Yield(t.kids[i]) != [] && forall j :: 0 <= j < i ==> Yield(t.kids[j]) == []
    requires exists la :: Matches(g, la, Yield(t.kids[i])[0])
    ensures Counts(g, s.maybeZero, s.met, t.rule, k) && g.rules[t.rule].mData[k] == Root(t.kids[i])
    ensures Derivation(g.rules, t.kids[i]) && (Root(t.kids[i]).Subtable? ==> Root(t.kids[i]).entry in s.done)
  {
    hide FlowInv, WellFormed, Yield;
    var u, kid := t.rule, t.kids[i];
    assert kid in t.kids && Roots(t.kids)[i] == Root(kid);
    assert Root(kid) in g.rules[u].mData;
    if IsLeafRule(g, u) {
      LeafYields(g, kid);
      assert false;
    }
    if g.rules[u].mType.Concatenate? {
      k := i;
      forall j | 0 <= j < k
        ensures var d := g.rules[u].mData[j]; d.Subtable? && d.entry in s.maybeZero && (u, d.entry) !in s.met
      {
        EmptyBefore(g, s, t, j);
      }
    } else {
      k :| 0 <= k < |g.rules[u].mData| && g.rules[u].mData[k] == Root(kid);
    }
  }

  lemma LeafYields(g: LaGrammar, t: Tree)
    requires Root(t) == NoData
    ensures Yield(t) != [] && forall la :: !Matches(g, la, Yield(t)[0])
  {
  }

  lemma EmptyBefore(g: LaGrammar, s: LaState, t: Tree, j: nat)
    requires Ended(g, s) && MetNotEmpty(g, s) && t.Node? && t.rule in s.done && !IsLeafRule(g, t.rule) && Derivation(g.rules, t)
    requires g.rules[t.rule].mType.Concatenate? && j < |t.kids| && Yield(t.kids[j]) == []
    ensures var d := g.rules[t.rule].mData[j]; d.Subtable? && d.entry in s.maybeZero && (t.rule, d.entry) !in s.met
  {
    hide FlowInv, WellFormed, Yields, Nullable;
    var kid := t.kids[j];
    assert kid in t.kids && Roots(t.kids)[j] == Root(kid);
    assert kid.Node?;
    assert Subtable(kid.rule) in g.rules[t.rule].mData;
    NullableIsKnown(g, s, kid);
    EmptyIsNullable(g, kid);
  }

  // If nothing is missed and no rule on a left cycle derives the empty string, a list has all that the
  // rule can begin with, strings up to their length.
  lemma BeginningsAreListed(g: LaGrammar, s: LaState)
    requires Ended(g, s) && NoEmptyCycle(g) && s.missed == {}
    ensures forall u: nat, la :: u in s.done && Begins(g, u, la) ==> Listed(LasOf(s.las, u), la)
  {
    hide Ended, Listed, LasOf, BeginsTree, NoEmptyCycle;
    MetIsNotEmpty(g, s);
    forall u: nat, la | u in s.done && Begins(g, u, la)
      ensures Listed(LasOf(s.las, u), la)
    {
      var t :| Root(t) == Subtable(u) && BeginsTree(g, t, la);
      BeginsIsListed(g, s, t, u, la);
    }
  }
}
