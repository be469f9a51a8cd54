/** The traversal tree of a depth-first walk over rule tables: every node knows the node above it. */
module ContTrees {
  import opened Options

  // A node of the traversal tree.
  datatype TreeNode = TreeNode(data: nat, parent: Option<nat>)

  ghost predicate TreeOK(t: seq<TreeNode>) {
    forall i :: 0 <= i < |t| && t[i].parent.Some? ==> t[i].parent.value < i
  }

  // The rules from the root of the traversal tree down to node `p`.
  ghost function Chain(t: seq<TreeNode>, p: Option<nat>): seq<nat>
    requires TreeOK(t) && (p.Some? ==> p.value < |t|)
    decreases if p.Some? then p.value + 1 else 0
  {
    if p.None? then [] else Chain(t, t[p.value].parent) + [t[p.value].data]
  }

  lemma {:induction false} ChainPrefix(t: seq<TreeNode>, t': seq<TreeNode>, p: Option<nat>)
    requires TreeOK(t) && TreeOK(t') && t <= t' && (p.Some? ==> p.value < |t|)
    ensures Chain(t, p) == Chain(t', p)
    decreases if p.Some? then p.value + 1 else 0
  {
    if p.Some? { ChainPrefix(t, t', t[p.value].parent); }
  }
}
