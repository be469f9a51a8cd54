/** The data the recursion detector builds, and what it means: recursions, the rule-to-recursion
    map, and the invariants that tie them to the left graph. */
module Recursions {
  import opened Options
  import opened Graphs
  import opened Grammar

  // All recursions led by one rule. A path is the list of element positions of one cycle.
  datatype Recursion = Recursion(mLead: nat, mPaths: seq<seq<nat>>, mRuleTables: seq<nat>)

  // The recursions (by their index) a rule takes part in.
  datatype Rule2Recursion = Rule2Recursion(mRule: nat, mRecursions: seq<nat>)

  datatype TResult = MaybeZero | Fail | Done | NA

  ghost predicate InSomeRec(recs: seq<Recursion>, u: nat) {
    exists k :: 0 <= k < |recs| && u in recs[k].mRuleTables
  }

  ghost predicate IsLead(recs: seq<Recursion>, u: nat) {
    exists k :: 0 <= k < |recs| && recs[k].mLead == u
  }

  // Rule `u` is in a recursion led by `v`.
  ghost predicate LedBy(recs: seq<Recursion>, v: nat, u: nat) {
    exists k :: 0 <= k < |recs| && recs[k].mLead == v && u in recs[k].mRuleTables
  }

  ghost predicate Maps(r2r: seq<Rule2Recursion>, r: nat, k: nat) {
    exists i :: 0 <= i < |r2r| && r2r[i].mRule == r && k in r2r[i].mRecursions
  }

  // `rs` are the rules met by following the positions `p` from rs[0]; each position is the first
  // occurrence of the next rule and can start a match of the rule it is in.
  ghost predicate IsRoute(g: Rules, mz: seq<nat>, rs: seq<nat>, p: seq<nat>) {
    && |rs| == |p| + 1
    && forall i :: 0 <= i < |p| ==> FirstLeft(g, mz, rs[i], p[i], rs[i + 1])
  }

  ghost predicate FirstLeft(g: Rules, mz: seq<nat>, u: nat, k: nat, v: nat) {
    && LeftIndex(g, mz, u, k) && g[u].mData[k] == Subtable(v)
    && Subtable(v) !in g[u].mData[..k]
  }

  ghost predicate SimpleCycle(g: Rules, mz: seq<nat>, lead: nat, p: seq<nat>) {
    exists rs :: IsRoute(g, mz, rs, p) && |p| > 0 && rs[0] == lead && rs[|p|] == lead && NoDup(rs[..|p|])
  }

  ghost predicate RecOK(g: Rules, mz: seq<nat>, rec: Recursion)
    requires WellFormed(g)
  {
    && rec.mLead < |g|
    && OnCycle(LeftGraph(g, mz), rec.mLead)
    && (forall r :: r in rec.mRuleTables ==> r < |g| && Mutual(LeftGraph(g, mz), rec.mLead, r))
    && (forall p :: p in rec.mPaths ==> SimpleCycle(g, mz, rec.mLead, p))
  }

  ghost predicate DistinctLeads(recs: seq<Recursion>) {
    forall i, j :: 0 <= i < j < |recs| ==> recs[i].mLead != recs[j].mLead
  }

  // The map and the recursions' own rule lists are two views of one relation.
  ghost predicate Synced(recs: seq<Recursion>, r2r: seq<Rule2Recursion>) {
    && (forall i, j :: 0 <= i < j < |r2r| ==> r2r[i].mRule != r2r[j].mRule)
    && (forall r: nat, k: nat :: Maps(r2r, r, k) ==> k < |recs|)
    && (forall r: nat, k: nat :: k < |recs| ==> (Maps(r2r, r, k) <==> r in recs[k].mRuleTables))
  }

  ghost predicate RecsInv(g: Rules, mz: seq<nat>, recs: seq<Recursion>, r2r: seq<Rule2Recursion>)
    requires WellFormed(g)
  {
    && DistinctLeads(recs)
    && (forall k :: 0 <= k < |recs| ==> RecOK(g, mz, recs[k]) && recs[k].mLead in recs[k].mRuleTables)
    && Synced(recs, r2r)
  }

  lemma RecOKMono(g: Rules, mz: seq<nat>, mz': seq<nat>, rec: Recursion)
    requires WellFormed(g) && RecOK(g, mz, rec)
    requires forall x :: x in mz ==> x in mz'
    ensures RecOK(g, mz', rec)
  {
    var h, h' := LeftGraph(g, mz), LeftGraph(g, mz');
    LeftGraphMono(g, mz, mz');
    var w :| Step(h, rec.mLead, w) && Reach(h, w, rec.mLead);
    ReachMono(h, h', w, rec.mLead);
    assert Step(h', rec.mLead, w);
    forall r | r in rec.mRuleTables
      ensures Mutual(h', rec.mLead, r)
    {
      ReachMono(h, h', rec.mLead, r);
      ReachMono(h, h', r, rec.mLead);
    }
    forall p | p in rec.mPaths
      ensures SimpleCycle(g, mz', rec.mLead, p)
    {
      var rs :| IsRoute(g, mz, rs, p) && |p| > 0 && rs[0] == rec.mLead && rs[|p|] == rec.mLead && NoDup(rs[..|p|]);
      forall i | 0 <= i < |p|
        ensures FirstLeft(g, mz', rs[i], p[i], rs[i + 1])
      {
        assert FirstLeft(g, mz, rs[i], p[i], rs[i + 1]);
      }
      assert IsRoute(g, mz', rs, p);
    }
  }

  lemma RecsInvMono(g: Rules, mz: seq<nat>, mz': seq<nat>, recs: seq<Recursion>, r2r: seq<Rule2Recursion>)
    requires WellFormed(g) && RecsInv(g, mz, recs, r2r)
    requires forall x :: x in mz ==> x in mz'
    ensures RecsInv(g, mz', recs, r2r)
  {
    forall k | 0 <= k < |recs|
      ensures RecOK(g, mz', recs[k])
    {
      RecOKMono(g, mz, mz', recs[k]);
    }
  }

  // -------- Traversal evidence

  // What is known about a rule once it is done. Either it is in a recursion, or every rule it was
  // walked into was done before it, and the walk stopped for a reason that lasts: an element that
  // is no rule, or a rule classified as Fail.
  ghost predicate Settled(g: Rules, earlier: seq<nat>, fail: seq<nat>, recs: seq<Recursion>, u: nat) {
    u < |g| && (InSomeRec(recs, u) || WalkedAll(g, earlier, u) || WalkedPrefix(g, earlier, fail, u))
  }

  ghost predicate WalkedAll(g: Rules, earlier: seq<nat>, u: nat) {
    u < |g| && forall d :: d in g[u].mData && d.Subtable? ==> d.entry in earlier
  }

  ghost predicate WalkedPrefix(g: Rules, earlier: seq<nat>, fail: seq<nat>, u: nat) {
    && u < |g| && g[u].mType.Concatenate?
    && exists k :: 0 <= k < |g[u].mData| && StopsAt(g[u].mData, earlier, fail, k)
  }

  ghost predicate StopsAt(ds: seq<TableData>, earlier: seq<nat>, fail: seq<nat>, k: nat)
    requires k < |ds|
  {
    && (forall i :: 0 <= i <= k && ds[i].Subtable? ==> ds[i].entry in earlier)
    && (ds[k].Subtable? ==> ds[k].entry in fail)
  }

  // Why a rule was classified as Fail.
  ghost predicate Failed(g: Rules, fail: seq<nat>, recs: seq<Recursion>, u: nat) {
    && u < |g|
    && match g[u].mType
       case Oneof => forall d :: d in g[u].mData ==> Blocks(fail, recs, u, d)
       case Data => forall d :: d in g[u].mData ==> Blocks(fail, recs, u, d)
       case Concatenate => exists d :: d in g[u].mData && Blocks(fail, recs, u, d)
       case _ => false
  }

  // No rule, or one that has failed, or one that `u` met in process.
  ghost predicate Blocks(fail: seq<nat>, recs: seq<Recursion>, u: nat, d: TableData) {
    d.Subtable? ==> d.entry in fail || LedBy(recs, d.entry, u)
  }

  // The state of the first phase; `taken` is the rule just taken off ToDo, if any.
  datatype State = State(taken: seq<nat>, inProcess: seq<nat>, done: seq<nat>, todo: seq<nat>,
                         mz: seq<nat>, fail: seq<nat>, recs: seq<Recursion>, r2r: seq<Rule2Recursion>)

  ghost predicate Reached(g: Rules, tops: seq<nat>, u: nat)
    requires WellFormed(g)
  {
    exists t :: t in tops && Reach(ChildGraph(g), t, u)
  }

  // ToDo, InProcess and Done together hold every element of a done rule.
  ghost predicate Covered(g: Rules, s: State, u: nat) {
    u < |g| && forall d :: d in g[u].mData && d.Subtable? ==> Known(s, d.entry)
  }

  ghost predicate Known(s: State, v: nat) {
    v in s.done || v in s.inProcess || v in s.todo || v in s.taken
  }

  ghost predicate Classified(s: State) {
    && (forall x :: x in s.done <==> x in s.mz || x in s.fail)
    && (forall x :: x in s.mz ==> x !in s.fail)
  }

  ghost predicate Evidence(g: Rules, s: State)
    requires WellFormed(g)
  {
    && (forall x :: x in s.mz ==> Nullable(g, x))
    && (forall x :: x in s.fail ==> Failed(g, s.fail, s.recs, x))
    && (forall j :: 0 <= j < |s.done| ==> Settled(g, s.done[..j], s.fail, s.recs, s.done[j]))
    && (forall x :: x in s.done ==> Covered(g, s, x))
  }

  ghost predicate Inv(g: Rules, tops: seq<nat>, s: State)
    requires WellFormed(g)
  {
    && (forall x: nat :: Known(s, x) ==> x < |g| && Reached(g, tops, x))
    && NoDup(s.inProcess + s.done)
    && Classified(s)
    && (s.inProcess != [] ==> IsPath(LeftGraph(g, s.mz), s.inProcess))
    && RecsInv(g, s.mz, s.recs, s.r2r)
    && (forall u: nat :: IsLead(s.recs, u) ==> Reached(g, tops, u))
    && Evidence(g, s)
  }

  ghost predicate Extends(s: State, s': State) {
    && s'.inProcess == s.inProcess && s'.taken == s.taken
    && s.done <= s'.done && s.todo <= s'.todo && s.mz <= s'.mz && s.fail <= s'.fail
    && GrowRecs(s.recs, s'.recs)
  }

  ghost predicate GrowRecs(recs: seq<Recursion>, recs': seq<Recursion>) {
    && (forall u: nat :: InSomeRec(recs, u) ==> InSomeRec(recs', u))
    && (forall u: nat :: IsLead(recs, u) ==> IsLead(recs', u))
    && (forall v: nat, u: nat :: LedBy(recs, v, u) ==> LedBy(recs', v, u))
  }

  // -------- Steps of the first phase

  lemma SettledMono(g: Rules, earlier: seq<nat>, fail: seq<nat>, recs: seq<Recursion>, u: nat,
                    fail': seq<nat>, recs': seq<Recursion>)
    requires Settled(g, earlier, fail, recs, u)
    requires fail <= fail' && GrowRecs(recs, recs')
    ensures Settled(g, earlier, fail', recs', u)
  {
    if WalkedPrefix(g, earlier, fail, u) {
      var k :| 0 <= k < |g[u].mData| && StopsAt(g[u].mData, earlier, fail, k);
      assert StopsAt(g[u].mData, earlier, fail', k);
    }
  }

  lemma FailedMono(g: Rules, fail: seq<nat>, recs: seq<Recursion>, u: nat, fail': seq<nat>, recs': seq<Recursion>)
    requires Failed(g, fail, recs, u)
    requires fail <= fail' && GrowRecs(recs, recs')
    ensures Failed(g, fail', recs', u)
  {
    forall d | d in g[u].mData && Blocks(fail, recs, u, d)
      ensures Blocks(fail', recs', u, d)
    {
    }
  }

  // Growing the recursions, ToDo and InProcess keeps the evidence about done rules.
  lemma EvidenceMono(g: Rules, s: State, s': State)
    requires WellFormed(g) && Evidence(g, s)
    requires s'.done == s.done && s'.mz == s.mz && s'.fail == s.fail && GrowRecs(s.recs, s'.recs)
    requires forall v: nat :: Known(s, v) ==> Known(s', v)
    ensures Evidence(g, s')
  {
    forall x | x in s'.fail
      ensures Failed(g, s'.fail, s'.recs, x)
    {
      FailedMono(g, s.fail, s.recs, x, s'.fail, s'.recs);
    }
    forall j | 0 <= j < |s'.done|
      ensures Settled(g, s'.done[..j], s'.fail, s'.recs, s'.done[j])
    {
      SettledMono(g, s.done[..j], s.fail, s.recs, s.done[j], s'.fail, s'.recs);
    }
    forall x | x in s'.done
      ensures Covered(g, s', x)
    {
      assert Covered(g, s, x);
    }
  }

  lemma PushNoDup(a: seq<nat>, b: seq<nat>, u: nat)
    requires NoDup(a + b) && u !in a && u !in b
    ensures NoDup(a + [u] + b)
  {
    var c, d, n := a + b, a + [u] + b, |a|;
    forall i, j | 0 <= i < j < |d|
      ensures d[i] != d[j]
    {
      var i', j' := if i <= n then i else i - 1, if j <= n then j else j - 1;
      assert i != n ==> d[i] == c[i'];
      assert j != n ==> d[j] == c[j'];
    }
  }

  lemma PushKeepsInv(g: Rules, tops: seq<nat>, s: State, u: nat)
    requires WellFormed(g) && Inv(g, tops, s)
    requires u !in s.done && u !in s.inProcess && u < |g| && Reached(g, tops, u)
    requires s.inProcess != [] ==> LeftChild(g, s.mz, s.inProcess[|s.inProcess| - 1], u)
    ensures Inv(g, tops, s.(inProcess := s.inProcess + [u]))
  {
    var s' := s.(inProcess := s.inProcess + [u]);
    var h := LeftGraph(g, s.mz);
    forall x: nat | Known(s', x)
      ensures x < |g| && Reached(g, tops, x)
    {
      assert x == u || Known(s, x);
    }
    PushNoDup(s.inProcess, s.done, u);
    forall i | 0 <= i < |s'.inProcess| - 1
      ensures Step(h, s'.inProcess[i], s'.inProcess[i + 1])
    {
      if i < |s.inProcess| - 1 {
        assert Step(h, s.inProcess[i], s.inProcess[i + 1]);
      }
    }
    EvidenceMono(g, s, s');
  }

  function Finished(s: State, zero: bool): State
    requires s.inProcess != []
  {
    var last := |s.inProcess| - 1;
    var u := s.inProcess[last];
    s.(inProcess := s.inProcess[..last], done := s.done + [u],
       mz := if zero then s.mz + [u] else s.mz, fail := if zero then s.fail else s.fail + [u])
  }

  lemma FinishKeepsInv(g: Rules, tops: seq<nat>, s: State, u: nat, zero: bool)
    requires WellFormed(g) && Inv(g, tops, s)
    requires s.inProcess != [] && s.inProcess[|s.inProcess| - 1] == u
    requires Outcome(g, s, u, if zero then MaybeZero else Fail)
    ensures Inv(g, tops, Finished(s, zero))
  {
    var s' := Finished(s, zero);
    forall x: nat
      ensures Known(s', x) <==> Known(s, x)
    {
      assert s.inProcess == s'.inProcess + [u];
    }
    FinishNoDup(s, u, zero);
    forall j | 0 <= j < |s.done|
      ensures s.done[j] != u
    {
      var a := s.inProcess + s.done;
      assert a[|s.inProcess| - 1] == u && a[|s.inProcess| + j] == s.done[j];
    }
    if s'.inProcess != [] {
      var h, h' := LeftGraph(g, s.mz), LeftGraph(g, s'.mz);
      LeftGraphMono(g, s.mz, s'.mz);
      forall i | 0 <= i < |s'.inProcess| - 1
        ensures Step(h', s'.inProcess[i], s'.inProcess[i + 1])
      {
        assert Step(h, s.inProcess[i], s.inProcess[i + 1]);
      }
    }
    RecsInvMono(g, s.mz, s'.mz, s.recs, s.r2r);
    forall x | x in s'.fail
      ensures Failed(g, s'.fail, s'.recs, x)
    {
      FailedMono(g, s.fail, s.recs, x, s'.fail, s'.recs);
    }
    forall j | 0 <= j < |s'.done|
      ensures Settled(g, s'.done[..j], s'.fail, s'.recs, s'.done[j])
    {
      if j < |s.done| {
        assert s'.done[..j] == s.done[..j];
        SettledMono(g, s.done[..j], s.fail, s.recs, s.done[j], s'.fail, s'.recs);
      } else {
        assert s'.done[..j] == s.done;
        SettledMono(g, s.done, s.fail, s.recs, u, s'.fail, s'.recs);
      }
    }
    forall x | x in s'.done
      ensures Covered(g, s', x)
    {
      assert Covered(g, s, x);
    }
  }

  lemma FinishNoDup(s: State, u: nat, zero: bool)
    requires NoDup(s.inProcess + s.done)
    requires s.inProcess != [] && s.inProcess[|s.inProcess| - 1] == u
    ensures NoDup(Finished(s, zero).inProcess + Finished(s, zero).done)
  {
    var s' := Finished(s, zero);
    var a, b := s.inProcess + s.done, s'.inProcess + s'.done;
    var n := |s.inProcess| - 1;
    forall i, j | 0 <= i < j < |b|
      ensures b[i] != b[j]
    {
      var i' := if i < n then i else i + 1;
      var j' := if j < n then j else if j == |b| - 1 then n else j + 1;
      assert b[j] == a[j'];
      if i < |b| - 1 { assert b[i] == a[i']; }
    }
  }

  lemma ReachedChild(g: Rules, tops: seq<nat>, u: nat, v: nat)
    requires WellFormed(g) && Reached(g, tops, u) && u < |g| && Subtable(v) in g[u].mData
    ensures v < |g| && Reached(g, tops, v)
  {
    var t :| t in tops && Reach(ChildGraph(g), t, u);
    assert Step(ChildGraph(g), u, v);
    ReachStep(ChildGraph(g), u, v);
    ReachTrans(ChildGraph(g), t, u, v);
    assert WellFormedRule(|g|, g[u]);
  }

  lemma TodoKeepsInv(g: Rules, tops: seq<nat>, s: State, u: nat, todo: seq<nat>)
    requires WellFormed(g) && Inv(g, tops, s) && u in s.inProcess && u < |g| && s.todo <= todo
    requires forall x :: x in todo ==> x in s.todo || Subtable(x) in g[u].mData
    ensures Inv(g, tops, s.(todo := todo))
  {
    var s' := s.(todo := todo);
    assert Known(s, u);
    forall x: nat | Known(s', x)
      ensures x < |g| && Reached(g, tops, x)
    {
      if Known(s, x) {
      } else {
        ReachedChild(g, tops, u, x);
      }
    }
    EvidenceMono(g, s, s');
  }

  // -------- The result of walking into one element

  ghost predicate ChildResult(s: State, s': State, rt: nat, res: TResult) {
    && Known(s', rt)
    && match res
       case Done => rt in s.done && s' == s
       case MaybeZero => rt in s'.mz
       case Fail => rt in s'.fail
                    || (s.inProcess != [] && LedBy(s'.recs, rt, s.inProcess[|s.inProcess| - 1]))
       case NA => false
  }

  // What the walk of rule `u` reports when it is over, with `u` still on top of InProcess.
  ghost predicate Outcome(g: Rules, s: State, u: nat, res: TResult) {
    && Settled(g, s.done, s.fail, s.recs, u) && Covered(g, s, u)
    && match res
       case MaybeZero => Nullable(g, u)
       case Fail => Failed(g, s.fail, s.recs, u)
       case _ => false
  }

  // Elements before `i` of a rule that is no concatenation have been walked.
  ghost predicate WalkedTo(g: Rules, s: State, u: nat, i: nat) {
    && u < |g| && i <= |g[u].mData|
    && (forall j :: 0 <= j < i && g[u].mData[j].Subtable? ==> Known(s, g[u].mData[j].entry))
    && (InSomeRec(s.recs, u) || forall j :: 0 <= j < i && g[u].mData[j].Subtable? ==> g[u].mData[j].entry in s.done)
  }

  ghost predicate OneofSoFar(g: Rules, s: State, u: nat, i: nat, res: TResult) {
    && WalkedTo(g, s, u, i)
    && match res
       case MaybeZero => exists j :: 0 <= j < i && g[u].mData[j].Subtable? && g[u].mData[j].entry in s.mz
       case Fail => forall j :: 0 <= j < i ==> Blocks(s.fail, s.recs, u, g[u].mData[j])
       case NA => i == 0
       case Done => false
  }

  lemma NothingWalked(g: Rules, s: State, u: nat)
    requires u < |g|
    ensures WalkedTo(g, s, u, 0) && OneofSoFar(g, s, u, 0, NA) && ConcatSoFar(g, s, u, 0)
  {
  }

  lemma WalkedToStep(g: Rules, s: State, s': State, u: nat, i: nat, res: TResult)
    requires WalkedTo(g, s, u, i) && i < |g[u].mData| && Extends(s, s') && Classified(s')
    requires s.inProcess != [] && s.inProcess[|s.inProcess| - 1] == u
    requires g[u].mData[i].Subtable? ==> ChildResult(s, s', g[u].mData[i].entry, res)
    ensures WalkedTo(g, s', u, i + 1)
  {
  }

  // The class of element `i` after the walk: the result, or what Done stands for.
  ghost function Class(s: State, d: TableData, res: TResult): TResult {
    if !d.Subtable? then Fail
    else if !res.Done? then res
    else if d.entry in s.mz then MaybeZero else Fail
  }

  lemma ClassBlocks(s: State, s': State, u: nat, d: TableData, res: TResult)
    requires d.Subtable? ==> ChildResult(s, s', d.entry, res)
    requires Classified(s') && (s.inProcess != [] ==> s.inProcess[|s.inProcess| - 1] == u)
    ensures Class(s', d, res).MaybeZero? ==> d.Subtable? && d.entry in s'.mz
    ensures Class(s', d, res).Fail? ==> Blocks(s'.fail, s'.recs, u, d)
    ensures Class(s', d, res).MaybeZero? || Class(s', d, res).Fail?
    ensures d.Subtable? && res.Done? ==> (d.entry in s'.mz <==> d.entry !in s'.fail)
  {
  }

  lemma OneofStep(g: Rules, s: State, s': State, u: nat, i: nat, acc: TResult, res: TResult)
    requires OneofSoFar(g, s, u, i, acc) && i < |g[u].mData| && Extends(s, s') && Classified(s')
    requires s.inProcess != [] && s.inProcess[|s.inProcess| - 1] == u
    requires g[u].mData[i].Subtable? ==> ChildResult(s, s', g[u].mData[i].entry, res)
    ensures OneofSoFar(g, s', u, i + 1,
                       if acc.MaybeZero? || Class(s', g[u].mData[i], res).MaybeZero? then MaybeZero else Fail)
  {
    WalkedToStep(g, s, s', u, i, res);
    ClassBlocks(s, s', u, g[u].mData[i], res);
    if acc.MaybeZero? {
      var j :| 0 <= j < i && g[u].mData[j].Subtable? && g[u].mData[j].entry in s.mz;
      assert g[u].mData[j].entry in s'.mz;
    }
    if acc.Fail? {
      forall j | 0 <= j < i
        ensures Blocks(s'.fail, s'.recs, u, g[u].mData[j])
      {
        assert Blocks(s.fail, s.recs, u, g[u].mData[j]);
      }
    }
  }

  lemma WalkedToEnd(g: Rules, s: State, u: nat)
    requires u < |g| && WalkedTo(g, s, u, |g[u].mData|)
    ensures Settled(g, s.done, s.fail, s.recs, u) && Covered(g, s, u)
  {
  }

  // A Zeroorone or Zeroormore rule is over.
  lemma ZeroorEnd(g: Rules, s: State, u: nat)
    requires u < |g| && (g[u].mType.Zeroorone? || g[u].mType.Zeroormore?)
    requires WalkedTo(g, s, u, |g[u].mData|)
    ensures Outcome(g, s, u, MaybeZero)
  {
    WalkedToEnd(g, s, u);
    NullableIntro(g, u, []);
  }

  // A Oneof or Data rule is over.
  lemma OneofEnd(g: Rules, s: State, u: nat, res: TResult)
    requires WellFormed(g) && u < |g| && (g[u].mType.Oneof? || g[u].mType.Data?) && Evidence(g, s)
    requires OneofSoFar(g, s, u, |g[u].mData|, res)
    ensures Outcome(g, s, u, res)
  {
    WalkedToEnd(g, s, u);
    assert WellFormedRule(|g|, g[u]);
    if res.MaybeZero? {
      var j :| 0 <= j < |g[u].mData| && g[u].mData[j].Subtable? && g[u].mData[j].entry in s.mz;
      NullableIntro(g, u, [g[u].mData[j]]);
    }
  }

  // Elements before `i` of a concatenation are rules in MaybeZero.
  ghost predicate ConcatSoFar(g: Rules, s: State, u: nat, i: nat) {
    && u < |g| && i <= |g[u].mData|
    && forall j :: 0 <= j < i ==> g[u].mData[j].Subtable? && g[u].mData[j].entry in s.mz
  }

  lemma ConcatMore(g: Rules, s: State, s': State, u: nat, i: nat, res: TResult)
    requires ConcatSoFar(g, s, u, i) && i < |g[u].mData| && Extends(s, s')
    requires s.inProcess != [] && s.inProcess[|s.inProcess| - 1] == u
    requires g[u].mData[i].Subtable? ==> ChildResult(s, s', g[u].mData[i].entry, res)
    requires Classified(s')
    ensures ConcatSoFar(g, s', u, i)
    ensures Class(s', g[u].mData[i], res).MaybeZero? ==> ConcatSoFar(g, s', u, i + 1)
  {
    ClassBlocks(s, s', u, g[u].mData[i], res);
  }

  lemma ConcatStop(g: Rules, s: State, s': State, todo: seq<nat>, u: nat, i: nat, res: TResult)
    requires u < |g| && g[u].mType.Concatenate? && i < |g[u].mData|
    requires ConcatSoFar(g, s', u, i) && Extends(s, s') && Classified(s')
    requires s.inProcess != [] && s.inProcess[|s.inProcess| - 1] == u
    requires g[u].mData[i].Subtable? ==> ChildResult(s, s', g[u].mData[i].entry, res)
    requires Class(s', g[u].mData[i], res).Fail?
    requires s'.todo <= todo
    requires forall j :: i < j < |g[u].mData| && g[u].mData[j].Subtable? ==> Known(s'.(todo := todo), g[u].mData[j].entry)
    ensures Outcome(g, s'.(todo := todo), u, Fail)
  {
    var ds := g[u].mData;
    ClassBlocks(s, s', u, ds[i], res);
    assert ds[i] in ds && Blocks(s'.fail, s'.recs, u, ds[i]);
    if !InSomeRec(s'.recs, u) {
      assert StopsAt(ds, s'.done, s'.fail, i);
    }
    forall j | 0 <= j < |ds| && ds[j].Subtable?
      ensures Known(s'.(todo := todo), ds[j].entry)
    {
      if j < i { assert ds[j].entry in s'.mz; }
    }
  }

  lemma ConcatZero(g: Rules, s: State, u: nat)
    requires u < |g| && ConcatSoFar(g, s, u, |g[u].mData|)
    ensures forall d :: d in g[u].mData ==> d.Subtable? && d.entry in s.mz
  {
  }

  lemma ConcatEnd(g: Rules, s: State, u: nat)
    requires WellFormed(g) && u < |g| && g[u].mType.Concatenate? && Evidence(g, s) && Classified(s)
    requires ConcatSoFar(g, s, u, |g[u].mData|)
    ensures Outcome(g, s, u, MaybeZero)
  {
    NullableIntro(g, u, g[u].mData);
  }

  lemma ExtendsRefl(s: State)
    ensures Extends(s, s)
  {
  }

  lemma DoneResult(s: State, x: nat)
    requires x in s.done
    ensures ChildResult(s, s, x, Done)
  {
  }

  lemma ExtendsTrans(a: State, b: State, c: State)
    requires Extends(a, b) && Extends(b, c)
    ensures Extends(a, c)
  {
  }

  lemma ExtendsTodo(a: State, b: State, todo: seq<nat>)
    requires Extends(a, b) && b.todo <= todo
    ensures Extends(a, b.(todo := todo))
  {
  }

  lemma ExtendsParts(s: State, s': State)
    requires Extends(s, s')
    ensures s'.inProcess == s.inProcess && s'.taken == s.taken && |s.done| <= |s'.done|
    ensures forall x :: x in s.mz ==> x in s'.mz
  {
  }

  // The parts of the invariant that the walk itself reads.
  lemma InvParts(g: Rules, tops: seq<nat>, s: State)
    requires WellFormed(g) && Inv(g, tops, s)
    ensures Classified(s) && Evidence(g, s) && RecsInv(g, s.mz, s.recs, s.r2r) && NoDup(s.inProcess)
    ensures s.inProcess != [] ==> IsPath(LeftGraph(g, s.mz), s.inProcess)
    ensures |s.inProcess| + |s.done| <= |g|
  {
    var a := s.inProcess + s.done;
    assert forall x :: x in a ==> Known(s, x);
    NoDupBound(a, |g|);
    forall i, j | 0 <= i < j < |s.inProcess|
      ensures s.inProcess[i] != s.inProcess[j]
    {
      assert a[i] != a[j];
    }
  }

  // A back edge adds a recursion and nothing else.
  lemma BackEdgeKeepsInv(g: Rules, tops: seq<nat>, s: State, recs: seq<Recursion>, r2r: seq<Rule2Recursion>, rt: nat)
    requires WellFormed(g) && Inv(g, tops, s) && RecsInv(g, s.mz, recs, r2r) && GrowRecs(s.recs, recs)
    requires rt in s.inProcess && LedBy(recs, rt, s.inProcess[|s.inProcess| - 1])
    requires forall u: nat :: IsLead(recs, u) ==> IsLead(s.recs, u) || u == rt
    ensures ChildResult(s, s.(recs := recs, r2r := r2r), rt, Fail)
    ensures Inv(g, tops, s.(recs := recs, r2r := r2r)) && Extends(s, s.(recs := recs, r2r := r2r))
  {
    var s' := s.(recs := recs, r2r := r2r);
    assert Known(s, rt);
    assert forall x: nat :: Known(s', x) == Known(s, x);
    EvidenceMono(g, s, s');
  }

  lemma FinishExtends(s0: State, s: State, zero: bool, u: nat)
    requires Extends(s0.(inProcess := s0.inProcess + [u]), s)
    ensures Extends(s0, Finished(s, zero)) && Known(Finished(s, zero), u)
    ensures ChildResult(s0, Finished(s, zero), u, if zero then MaybeZero else Fail)
    ensures Finished(s, zero).inProcess == s.inProcess[..|s.inProcess| - 1] == s0.inProcess
  {
  }
}
