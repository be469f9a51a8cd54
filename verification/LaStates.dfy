/** The state of the lookahead detector, what holds of it throughout, and the steps that keep it. */
module LaStates {
  import opened Options
  import opened Graphs
  import opened Grammar
  import opened LookAheads

  // A rule in process, and the rules that wait for its lookaheads.
  datatype Pending = Pending(mRule: nat, mDependents: seq<nat>)

  datatype TResult = MaybeZero | NA

  type RuleLookAheads = map<nat, seq<LookAhead>>

  // Besides what the detector keeps: `walked` has the elements it has looked into, a rule and an index
  // each; `met` the pairs of rules whose second was in process when the first looked into it; `missed`
  // those whose second was done but waited for lookaheads itself.
  datatype LaState = LaState(inProcess: seq<nat>, done: seq<nat>, toDo: seq<nat>, maybeZero: seq<nat>,
                             las: RuleLookAheads, pendings: seq<Pending>, taken: seq<nat>,
                             walked: set<(nat, nat)>, met: set<(nat, nat)>, missed: set<(nat, nat)>)

  // -------- Lists of lookaheads

  // Strings are compared by length, and then count as equal when they differ.
  predicate LookAheadEqual(a: LookAhead, b: LookAhead) {
    match a
    case LaString(s) => b.LaString? && |s| == |b.s| && s != b.s
    case _ => a == b
  }

  predicate Found(list: seq<LookAhead>, la: LookAhead) {
    exists x :: x in list && LookAheadEqual(la, x)
  }

  function AddLookAhead(list: seq<LookAhead>, la: LookAhead): seq<LookAhead> {
    if Found(list, la) then list else list + [la]
  }

  // The list has the lookahead, or one that it was taken to be equal to.
  predicate Copied(list: seq<LookAhead>, la: LookAhead) {
    la in list || Found(list, la)
  }

  lemma CopiedStays(list: seq<LookAhead>, more: seq<LookAhead>, la: LookAhead)
    requires list <= more && Copied(list, la)
    ensures Copied(more, la)
  {
    hide LookAheadEqual;
  }

  function LasOf(las: RuleLookAheads, r: nat): seq<LookAhead> {
    if r in las then las[r] else []
  }

  function AddRuleLa(las: RuleLookAheads, r: nat, la: LookAhead): RuleLookAheads {
    las[r := AddLookAhead(LasOf(las, r), la)]
  }

  // A string is never found to be there already, so copying a list to itself adds it again and again;
  // and it is dropped if another string of its length is there.
  lemma StringsGoWrong(list: seq<LookAhead>, s: string, t: string)
    requires |s| == |t| && s != t
    ensures Found(list + [LaString(s)], LaString(s)) == Found(list, LaString(s))
    ensures AddLookAhead([LaString(s)], LaString(s)) == [LaString(s), LaString(s)]
    ensures AddLookAhead([LaString(s)], LaString(t)) == [LaString(s)]
  {
    assert LaString(s) in [LaString(s)] && LookAheadEqual(LaString(t), LaString(s));
    assert forall x :: x in list + [LaString(s)] <==> x in list || x == LaString(s);
  }

  // -------- The invariant

  ghost predicate Sound(g: LaGrammar, las: RuleLookAheads) {
    forall r, la :: r in las && la in las[r] ==> Begins(g, r, la)
  }

  // Dependents reach the rule they wait for along left edges.
  ghost predicate PendingsOK(g: LaGrammar, pendings: seq<Pending>)
    requires WellFormed(g.rules)
  {
    forall i, d: nat :: 0 <= i < |pendings| && d in pendings[i].mDependents ==> Reach(LeftEdges(g.rules), d, pendings[i].mRule)
  }

  // The rules in process are a chain of left edges.
  ghost predicate OnPath(g: LaGrammar, path: seq<nat>) {
    forall i :: 0 <= i < |path| - 1 ==> LeftEdge(g.rules, path[i], path[i + 1])
  }

  predicate Known(s: LaState, r: nat) {
    r in s.inProcess || r in s.done || r in s.toDo || r in s.taken
  }

  ghost predicate KidsKnown(g: LaGrammar, s: LaState, u: nat)
    requires u < |g.rules|
  {
    forall v: nat :: Subtable(v) in g.rules[u].mData ==> Known(s, v)
  }

  ghost predicate Lists(g: LaGrammar, s: LaState) {
    && NoDup(s.inProcess) && NoDup(s.done)
    && (forall r :: r in s.inProcess ==> r < |g.rules| && r !in s.done)
    && (forall r :: r in s.done || r in s.toDo || r in s.maybeZero ==> r < |g.rules|)
    && (forall r :: r in s.maybeZero ==> r in s.done && Nullable(g.rules, r))
    && (forall u :: u in s.done && u < |g.rules| && !IsLeafRule(g, u) ==> KidsKnown(g, s, u))
  }

  ghost predicate LaInv(g: LaGrammar, s: LaState) {
    && WellFormedLa(g) && Lists(g, s) && Sound(g, s.las) && PendingsOK(g, s.pendings) && OnPath(g, s.inProcess)
  }

  // What a call leaves: rules in process as they were, nothing known forgotten, done rules in their class.
  ghost predicate Extends(s: LaState, s': LaState) {
    && s'.inProcess == s.inProcess && s.done <= s'.done && s'.taken == s.taken
    && s.walked <= s'.walked && s.met <= s'.met && s.missed <= s'.missed
    && (forall r :: r in s.done ==> (r in s.maybeZero <==> r in s'.maybeZero))
    && forall r :: Known(s, r) ==> Known(s', r)
  }

  lemma ExtendsTrans(a: LaState, b: LaState, c: LaState)
    requires Extends(a, b) && Extends(b, c)
    ensures Extends(a, c)
  {
  }

  // -------- Steps

  lemma AddIsSound(g: LaGrammar, las: RuleLookAheads, r: nat, la: LookAhead)
    requires Sound(g, las) && Begins(g, r, la)
    ensures Sound(g, AddRuleLa(las, r, la))
  {
    hide Begins, Found;
  }

  // Rules in process and rules done are all different.
  lemma ListsApart(g: LaGrammar, s: LaState)
    requires Lists(g, s)
    ensures NoDup(s.inProcess + s.done) && forall x :: x in s.inProcess + s.done ==> x < |g.rules|
  {
    hide KidsKnown, Nullable;
    var all := s.inProcess + s.done;
    forall i, j | 0 <= i < j < |all|
      ensures all[i] != all[j]
    {
      if i < |s.inProcess| <= j { assert all[i] in s.inProcess && all[j] in s.done; }
    }
    forall x | x in all
      ensures x < |g.rules|
    {
      assert x in s.inProcess || x in s.done;
    }
  }

  // Room for one more rule in process.
  lemma RoomLeft(g: LaGrammar, s: LaState, rt: nat)
    requires Lists(g, s) && rt < |g.rules| && rt !in s.inProcess && rt !in s.done
    ensures |s.inProcess| + |s.done| < |g.rules|
  {
    hide Lists;
    ListsApart(g, s);
    NoDupBoundStrict(s.inProcess + s.done, |g.rules|, rt);
  }

  lemma Bounded(g: LaGrammar, s: LaState)
    requires LaInv(g, s)
    ensures |s.inProcess| + |s.done| <= |g.rules|
  {
    hide Lists, WellFormedLa, Sound, PendingsOK, OnPath;
    ListsApart(g, s);
    NoDupBound(s.inProcess + s.done, |g.rules|);
  }

  lemma PushKeepsInv(g: LaGrammar, s: LaState, rt: nat)
    requires LaInv(g, s) && rt < |g.rules| && rt !in s.inProcess && rt !in s.done
    requires s.inProcess != [] ==> LeftEdge(g.rules, s.inProcess[|s.inProcess| - 1], rt)
    ensures LaInv(g, s.(inProcess := s.inProcess + [rt]))
  {
    hide WellFormedLa, LeftEdge, Nullable, Sound, PendingsOK;
    var s' := s.(inProcess := s.inProcess + [rt]);
    forall u | u in s'.done && u < |g.rules| && !IsLeafRule(g, u)
      ensures KidsKnown(g, s', u)
    {
      assert KidsKnown(g, s, u);
    }
  }

  function Popped(s: LaState, rt: nat, zero: bool): LaState
    requires s.inProcess != []
  {
    s.(inProcess := s.inProcess[..|s.inProcess| - 1], done := s.done + [rt],
       maybeZero := if zero then s.maybeZero + [rt] else s.maybeZero)
  }

  lemma PopKeepsInv(g: LaGrammar, s: LaState, rt: nat, zero: bool)
    requires LaInv(g, s) && s.inProcess != [] && s.inProcess[|s.inProcess| - 1] == rt
    requires (zero ==> Nullable(g.rules, rt)) && (IsLeafRule(g, rt) || (rt < |g.rules| && KidsKnown(g, s, rt)))
    ensures LaInv(g, Popped(s, rt, zero)) && forall r :: Known(s, r) ==> Known(Popped(s, rt, zero), r)
  {
    hide WellFormedLa, LeftEdge, Nullable, Sound, PendingsOK, Known, NoDup;
    var s', path := Popped(s, rt, zero), s.inProcess[..|s.inProcess| - 1];
    PopKnows(s, rt, zero);
    PopDistinct(s, rt);
    assert forall r :: r in s'.done <==> r in s.done || r == rt;
    forall r | r in path
      ensures r < |g.rules| && r !in s'.done
    {
      assert r in s.inProcess && r != rt;
    }
    forall r | r in s'.maybeZero
      ensures r < |g.rules| && r in s'.done && Nullable(g.rules, r)
    {
      if r !in s.maybeZero { assert r == rt && r in s.inProcess; }
    }
    forall u | u in s'.done && u < |g.rules| && !IsLeafRule(g, u)
      ensures KidsKnown(g, s', u)
    {
      assert KidsKnown(g, s, u);
    }
  }

  lemma PopKnows(s: LaState, rt: nat, zero: bool)
    requires s.inProcess != [] && s.inProcess[|s.inProcess| - 1] == rt
    ensures forall r :: Known(s, r) ==> Known(Popped(s, rt, zero), r)
  {
    assert s.inProcess == s.inProcess[..|s.inProcess| - 1] + [rt];
    assert forall r :: r in s.inProcess <==> r in s.inProcess[..|s.inProcess| - 1] || r == rt;
  }

  lemma PopDistinct(s: LaState, rt: nat)
    requires s.inProcess != [] && s.inProcess[|s.inProcess| - 1] == rt && NoDup(s.inProcess) && NoDup(s.done)
    requires forall r :: r in s.inProcess ==> r !in s.done
    ensures rt in s.inProcess && rt !in s.inProcess[..|s.inProcess| - 1]
    ensures NoDup(s.inProcess[..|s.inProcess| - 1]) && NoDup(s.done + [rt])
    ensures forall r :: r in s.inProcess[..|s.inProcess| - 1] ==> r in s.inProcess && r != rt
  {
    var path := s.inProcess[..|s.inProcess| - 1];
    forall r | r in path
      ensures r in s.inProcess && r != rt
    {
      var i :| 0 <= i < |path| && path[i] == r;
      assert s.inProcess[i] == r;
    }
    assert rt in s.inProcess;
  }

  lemma ToDoKeepsInv(g: LaGrammar, s: LaState, rt: nat)
    requires LaInv(g, s) && rt < |g.rules|
    ensures LaInv(g, s.(toDo := s.toDo + [rt])) && forall r :: Known(s, r) ==> Known(s.(toDo := s.toDo + [rt]), r)
  {
    hide WellFormedLa, LeftEdge, Nullable, Sound, PendingsOK;
    var s' := s.(toDo := s.toDo + [rt]);
    forall u | u in s'.done && u < |g.rules| && !IsLeafRule(g, u)
      ensures KidsKnown(g, s', u)
    {
      assert KidsKnown(g, s, u);
    }
  }

  // Every rule on the path from a rule in process on reaches it, once the last one has an edge to it.
  lemma BackEdge(g: LaGrammar, path: seq<nat>, rt: nat, i: nat)
    requires WellFormed(g.rules) && OnPath(g, path) && i < |path| && LeftEdge(g.rules, path[|path| - 1], rt)
    ensures Reach(LeftEdges(g.rules), path[i], rt)
  {
    hide LeftEdge, WellFormed;
    var h, p := LeftEdges(g.rules), path[i..] + [rt];
    forall k | 0 <= k < |p| - 1
      ensures Step(h, p[k], p[k + 1])
    {
      if k < |p| - 2 { assert p[k] == path[i + k] && p[k + 1] == path[i + k + 1]; } else { assert p[k] == path[|path| - 1]; }
    }
    assert IsPath(h, p) && p[0] == path[i] && p[|p| - 1] == rt;
  }
}
