/** Graphs in which every node names at most one parent: manager chains, menu
    trees and organization trees are all of this shape. A graph is the finite
    map from a child to the parent it names; nothing requires the parent to be
    a node, and nothing rules out cycles. */
module ParentGraph {
  import opened Options
  import opened Ordering

  type Parents = map<string, string>

  /** The node reached from `u` by naming the parent `n` times. */
  function Climb(up: Parents, u: string, n: nat): Option<string>
    decreases n
  {
    if n == 0 then Some(u) else if u in up then Climb(up, up[u], n - 1) else None
  }

  ghost predicate OnCycle(up: Parents, u: string) {
    exists n: nat :: n >= 1 && Climb(up, u, n) == Some(u)
  }

  ghost predicate Acyclic(up: Parents) {
    forall u :: u in up ==> !OnCycle(up, u)
  }

  /** The chain above `u` runs out: it meets a node without a parent. */
  ghost predicate Ends(up: Parents, u: string) {
    exists n: nat :: Climb(up, u, n) == None
  }

  lemma {:induction false} DistinctFits<T>(s: seq<T>, bound: set<T>)
    requires Distinct(s)
    requires forall i :: 0 <= i < |s| ==> s[i] in bound
    ensures |s| <= |bound|
  {
    if s != [] {
      var last := s[|s| - 1];
      DistinctFits(s[..|s| - 1], bound - {last});
    }
  }

  lemma {:induction false} ClimbPlus(up: Parents, u: string, m: nat, n: nat)
    requires Climb(up, u, m).Some?
    ensures Climb(up, u, m + n) == Climb(up, Climb(up, u, m).value, n)
    decreases m
  {
    if m > 0 { ClimbPlus(up, up[u], m - 1, n); }
  }

  lemma {:induction false} ClimbStays(up: Parents, u: string, m: nat, n: nat)
    requires m <= n
    ensures Climb(up, u, m) == None ==> Climb(up, u, n) == None
    decreases m
  {
    if m > 0 && u in up { ClimbStays(up, up[u], m - 1, n - 1); }
  }

  /** One more step from the node reached after `n` steps. */
  lemma ClimbNext(up: Parents, u: string, n: nat)
    requires Climb(up, u, n).Some?
    ensures var v := Climb(up, u, n).value; Climb(up, u, n + 1) == if v in up then Some(up[v]) else None
  {
    ClimbPlus(up, u, n, 1);
    var v := Climb(up, u, n).value;
    assert Climb(up, v, 1) == if v in up then Climb(up, up[v], 0) else None;
  }

  /** A climb of more steps than there are edges meets some node twice, and that
      node lies on a cycle. */
  lemma LongClimbCycles(up: Parents, u: string)
    requires Climb(up, u, |up| + 1).Some?
    ensures exists v :: v in up && OnCycle(up, v)
  {
    forall i: nat | i <= |up| ensures Climb(up, u, i).Some? && Climb(up, u, i).value in up {
      ClimbStays(up, u, i, |up| + 1);
      ClimbStays(up, u, i + 1, |up| + 1);
      ClimbNext(up, u, i);
    }
    var walk := seq(|up| + 1, i requires 0 <= i <= |up| => Climb(up, u, i).value);
    if Distinct(walk) {
      DistinctFits(walk, up.Keys);
      assert false;
    }
    var i, j :| 0 <= i < j < |walk| && walk[i] == walk[j];
    ClimbPlus(up, u, i, j - i);
    assert Climb(up, walk[i], j - i) == Some(walk[i]);
    assert OnCycle(up, walk[i]);
  }

  lemma AcyclicEnds(up: Parents, u: string)
    requires Acyclic(up)
    ensures Ends(up, u) && Climb(up, u, |up| + 1) == None
  {
    if Climb(up, u, |up| + 1).Some? { LongClimbCycles(up, u); }
  }

  /** The number of steps from `u` to the last node of its chain. */
  ghost function Height(up: Parents, u: string): (h: nat)
    requires Ends(up, u)
    ensures Climb(up, u, h).Some? && Climb(up, u, h + 1) == None
    ensures Climb(up, u, h).value !in up
  {
    HeightExists(up, u);
    var h: nat :| Climb(up, u, h).Some? && Climb(up, u, h + 1) == None;
    ClimbNext(up, u, h);
    h
  }

  lemma HeightExists(up: Parents, u: string)
    requires Ends(up, u)
    ensures exists h: nat :: Climb(up, u, h).Some? && Climb(up, u, h + 1) == None
  {
    var n: nat :| Climb(up, u, n) == None;
    var h: nat := n;
    while Climb(up, u, h) == None
      invariant Climb(up, u, h) == None || Climb(up, u, h + 1) == None
      invariant h <= n
      decreases h
    {
      h := h - 1;
    }
  }

  lemma HeightUnique(up: Parents, u: string, h: nat)
    requires Climb(up, u, h).Some? && Climb(up, u, h + 1) == None
    ensures Ends(up, u) && Height(up, u) == h
  {
    var g := Height(up, u);
    if g < h { ClimbStays(up, u, g + 1, h); }
    if h < g { ClimbStays(up, u, h + 1, g); }
  }

  /** The parent is one step lower. */
  lemma HeightOfParent(up: Parents, u: string)
    requires Ends(up, u) && u in up
    ensures Ends(up, up[u]) && Height(up, u) == Height(up, up[u]) + 1
  {
    var h := Height(up, u);
    assert h > 0;
    assert Climb(up, up[u], h - 1) == Climb(up, u, h);
    assert Climb(up, up[u], h) == Climb(up, u, h + 1);
    HeightUnique(up, up[u], h - 1);
  }

  lemma HeightBound(up: Parents, u: string)
    requires Acyclic(up)
    ensures Ends(up, u) && Height(up, u) <= |up|
  {
    AcyclicEnds(up, u);
    if Height(up, u) > |up| { ClimbStays(up, u, |up| + 1, Height(up, u)); }
  }

  /** Nothing that ends lies on a cycle. */
  lemma EndsNoCycle(up: Parents, u: string)
    requires Ends(up, u)
    ensures !OnCycle(up, u)
  {
    if OnCycle(up, u) {
      var n: nat :| n >= 1 && Climb(up, u, n) == Some(u);
      ClimbPlus(up, u, n, Height(up, u) + 1);
      ClimbStays(up, u, Height(up, u) + 1, Height(up, u) + 1 + n);
      var h := Height(up, u);
      ClimbPlus(up, u, n, h);
      ClimbStays(up, u, h + 1, n + h);
    }
  }

  /** The nodes from the top of the chain down to `u`. */
  ghost function Chain(up: Parents, u: string): (c: seq<string>)
    requires Ends(up, u)
    ensures |c| == Height(up, u) + 1
    ensures c[|c| - 1] == u
    decreases Height(up, u)
  {
    if u in up then
      HeightOfParent(up, u);
      Chain(up, up[u]) + [u]
    else
      HeightUnique(up, u, 0);
      [u]
  }

  /** A list that starts at a node without a parent and steps from parent to
      child is the chain of the node it ends in: the chain is the only one. */
  lemma {:induction false} ChainUnique(up: Parents, path: seq<string>)
    requires path != []
    requires path[0] !in up
    requires forall i :: 0 < i < |path| ==> path[i] in up && up[path[i]] == path[i - 1]
    ensures Ends(up, path[|path| - 1]) && path == Chain(up, path[|path| - 1])
  {
    var u := path[|path| - 1];
    if |path| == 1 {
      HeightUnique(up, u, 0);
    } else {
      var rest := path[..|path| - 1];
      ChainUnique(up, rest);
      var h := Height(up, up[u]);
      assert Climb(up, u, h + 1) == Climb(up, up[u], h);
      assert Climb(up, u, h + 2) == Climb(up, up[u], h + 1);
      HeightUnique(up, u, h + 1);
      HeightOfParent(up, u);
      assert path == rest + [u];
    }
  }
}
