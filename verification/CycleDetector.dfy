/** Directed graphs given by their adjacency lists: node `u` has edges to the nodes of `g[u]`. */
module Digraph {

  type Graph = seq<seq<nat>>

  predicate InRange(g: Graph) {
    forall u, j :: 0 <= u < |g| && 0 <= j < |g[u]| ==> g[u][j] < |g|
  }

  predicate Edge(g: Graph, u: nat, v: nat) {
    u < |g| && v in g[u]
  }

  predicate Distinct<T(==)>(s: seq<T>) {
    forall i, j :: 0 <= i < j < |s| ==> s[i] != s[j]
  }

  /** Consecutive nodes of `p` are joined by edges. */
  ghost predicate IsWalk(g: Graph, p: seq<nat>) {
    && (forall i :: 0 <= i < |p| ==> p[i] < |g|)
    && forall i :: 0 < i < |p| ==> Edge(g, p[i - 1], p[i])
  }

  /** A closed walk: non-empty, and back where it started. */
  ghost predicate IsCycle(g: Graph, c: seq<nat>) {
    |c| >= 2 && IsWalk(g, c) && c[0] == c[|c| - 1]
  }

  /** A closed walk that meets no node twice, its end excepted. */
  ghost predicate IsSimpleCycle(g: Graph, c: seq<nat>) {
    IsCycle(g, c) && Distinct(c[..|c| - 1])
  }

  ghost predicate HasNoCycle(g: Graph) {
    forall c :: !IsCycle(g, c)
  }

  /** `rank` falls along every edge. */
  ghost predicate Ranks(g: Graph, rank: seq<nat>) {
    && |rank| == |g|
    && forall u: nat, v: nat :: Edge(g, u, v) ==> v < |g| && rank[v] < rank[u]
  }

  ghost predicate IsDag(g: Graph) {
    exists rank :: Ranks(g, rank)
  }

  lemma RankFallsAlongWalk(g: Graph, rank: seq<nat>, p: seq<nat>, k: nat)
    requires Ranks(g, rank) && IsWalk(g, p) && k < |p|
    ensures k > 0 ==> rank[p[k]] < rank[p[0]]
  {
    if k > 0 {
      RankFallsAlongWalk(g, rank, p, k - 1);
      assert Edge(g, p[k - 1], p[k]);
    }
  }

  /** A rank excludes every cycle. */
  lemma DagHasNoCycle(g: Graph)
    requires IsDag(g)
    ensures HasNoCycle(g)
  {
    var rank :| Ranks(g, rank);
    forall c | IsCycle(g, c) ensures false {
      RankFallsAlongWalk(g, rank, c, |c| - 1);
    }
  }
}

/** Depth-first cycle detection: `IsAcyclic`, `isAcyclic` and `cycleInfo` of internal/graph. */
module CycleDetector {
  import opened Digraph

  /** Finish order: every edge of a finished node leads to a node that finished before it. */
  ghost predicate Finished(g: Graph, fin: seq<nat>) {
    && Distinct(fin)
    && (forall i :: 0 <= i < |fin| ==> fin[i] < |g|)
    && forall i, v :: 0 <= i < |fin| && v in g[fin[i]] ==> v in fin[..i]
  }

  /** What the two marks say while `path` is being explored and `fin` is done. */
  ghost predicate Marked(g: Graph, visited: seq<bool>, onStack: seq<bool>, path: seq<nat>, fin: seq<nat>) {
    && |visited| == |onStack| == |g|
    && (forall x :: 0 <= x < |g| ==> (onStack[x] <==> x in path))
    && (forall x :: 0 <= x < |g| ==> (visited[x] <==> x in path || x in fin))
    && (forall x :: x in path ==> x !in fin)
    && Finished(g, fin)
    && IsWalk(g, path)
    && Distinct(path)
  }

  ghost function Unvisited(visited: seq<bool>): set<nat> {
    set x | 0 <= x < |visited| && !visited[x]
  }

  method IsAcyclic(g: Graph) returns (ok: bool, cycle: seq<nat>)
    requires InRange(g)
    ensures ok <==> HasNoCycle(g)
    ensures ok <==> IsDag(g)
    ensures ok ==> cycle == []
    ensures !ok ==> IsSimpleCycle(g, cycle)
  {
    var visited := new bool[|g|](_ => false);
    var onStack := new bool[|g|](_ => false);
    ghost var fin: seq<nat> := [];
    for i := 0 to |g|
      invariant Marked(g, visited[..], onStack[..], [], fin)
      invariant forall x :: 0 <= x < i ==> x in fin
    {
      Reset(onStack);
      cycle, fin := Explore(g, i, visited, onStack, [], fin);
      if |cycle| > 0 {
        if IsDag(g) { DagHasNoCycle(g); }
        return false, cycle;
      }
    }
    FinishOrderRanks(g, fin);
    DagHasNoCycle(g);
    return true, [];
  }

  method Reset(onStack: array<bool>)
    modifies onStack
    ensures forall x :: 0 <= x < onStack.Length ==> !onStack[x]
  {
    for i := 0 to onStack.Length
      invariant forall x :: 0 <= x < i ==> !onStack[x]
    {
      onStack[i] := false;
    }
  }

  /** Explores from `u`; an empty result means that `u` is finished and nothing new is left on the stack. */
  method Explore(g: Graph, u: nat, visited: array<bool>, onStack: array<bool>, path: seq<nat>, ghost fin: seq<nat>)
    returns (cycle: seq<nat>, ghost fin': seq<nat>)
    requires InRange(g) && u < |g| && visited != onStack
    requires Marked(g, visited[..], onStack[..], path, fin)
    requires u !in path
    requires path != [] ==> Edge(g, path[|path| - 1], u)
    modifies visited, onStack
    ensures cycle == [] ==> Marked(g, visited[..], onStack[..], path, fin') && u in fin'
    ensures cycle == [] ==> forall x :: x in fin ==> x in fin'
    ensures cycle != [] ==> IsSimpleCycle(g, cycle)
    ensures Unvisited(visited[..]) <= old(Unvisited(visited[..]))
    decreases Unvisited(visited[..])
  {
    cycle, fin' := [], fin;
    if visited[u] {
      return;
    }
    visited[u] := true;
    onStack[u] := true;
    var path' := path + [u];
    MarkedOnEntry(g, old(visited[..]), old(onStack[..]), path, fin, u);
    assert visited[..] == old(visited[..])[u := true];
    assert onStack[..] == old(onStack[..])[u := true];
    assert u in old(Unvisited(visited[..]));
    for j := 0 to |g[u]|
      invariant cycle == [] && Marked(g, visited[..], onStack[..], path', fin')
      invariant forall i :: 0 <= i < j ==> g[u][i] in fin'
      invariant forall x :: x in fin ==> x in fin'
      invariant Unvisited(visited[..]) < old(Unvisited(visited[..]))
    {
      var v := g[u][j];
      if !visited[v] {
        cycle, fin' := Explore(g, v, visited, onStack, path', fin');
        if |cycle| > 0 {
          return;
        }
      } else if onStack[v] {
        cycle := CloseCycle(g, path', v);
        return;
      }
    }
    MarkedOnExit(g, visited[..], onStack[..], path, fin', u);
    onStack[u] := false;
    fin' := fin' + [u];
    assert onStack[..] == old(onStack[..]);
  }

  /** Prunes `path` down to the part that starts at `v` and completes the cycle with `v`. */
  method CloseCycle(g: Graph, path: seq<nat>, v: nat) returns (cycle: seq<nat>)
    requires IsWalk(g, path) && Distinct(path) && v in path
    requires Edge(g, path[|path| - 1], v)
    ensures IsSimpleCycle(g, cycle) && cycle[0] == v
  {
    cycle := path;
    var i := |path| - 1;
    while i >= 0
      invariant -1 <= i < |path|
      invariant v in path[..i + 1]
    {
      if path[i] == v {
        cycle := path[i..];
        break;
      }
      i := i - 1;
    }
    cycle := cycle + [v];
    assert cycle[..|cycle| - 1] == path[i..];
    forall j | 0 < j < |cycle| ensures Edge(g, cycle[j - 1], cycle[j]) {
      if j < |cycle| - 1 { assert Edge(g, path[i + j - 1], path[i + j]); }
    }
    forall a, b | 0 <= a < b < |cycle| - 1 ensures cycle[a] != cycle[b] {
      assert path[i + a] != path[i + b];
    }
  }

  lemma MarkedOnEntry(g: Graph, visited: seq<bool>, onStack: seq<bool>, path: seq<nat>,
          fin: seq<nat>, u: nat)
    requires Marked(g, visited, onStack, path, fin) && u < |g| && !visited[u]
    requires path != [] ==> Edge(g, path[|path| - 1], u)
    ensures Marked(g, visited[u := true], onStack[u := true], path + [u], fin)
  {
    var path' := path + [u];
    forall i | 0 < i < |path'| ensures Edge(g, path'[i - 1], path'[i]) {
      if i < |path| { assert Edge(g, path[i - 1], path[i]); }
    }
  }

  lemma MarkedOnExit(g: Graph, visited: seq<bool>, onStack: seq<bool>, path: seq<nat>,
          fin: seq<nat>, u: nat)
    requires Marked(g, visited, onStack, path + [u], fin) && u < |g|
    requires forall v :: v in g[u] ==> v in fin
    ensures Marked(g, visited, onStack[u := false], path, fin + [u])
  {
    var path', fin' := path + [u], fin + [u];
    assert forall x :: x in path' <==> x in path || x == u;
    assert forall x :: x in fin' <==> x in fin || x == u;
    assert u == path'[|path|] && u !in fin;
    forall i | 0 <= i < |path| ensures path[i] != u {
      assert path'[i] != path'[|path|];
    }
    forall i | 0 < i < |path| ensures Edge(g, path[i - 1], path[i]) {
      assert Edge(g, path'[i - 1], path'[i]);
    }
    forall i, j | 0 <= i < j < |path| ensures path[i] != path[j] {
      assert path'[i] != path'[j];
    }
    forall i, v | 0 <= i < |fin'| && v in g[fin'[i]] ensures v in fin'[..i] {
      assert fin'[..i] == fin[..i];
      if i == |fin| { assert fin[..i] == fin; }
    }
    assert forall i :: 0 <= i < |path| ==> path[i] == path'[i];
  }

  ghost function IndexOf(fin: seq<nat>, x: nat): (i: nat)
    requires x in fin
    ensures i < |fin| && fin[i] == x
  {
    var i :| 0 <= i < |fin| && fin[i] == x;
    i
  }

  /** The position in the finish order is a rank that falls along every edge. */
  lemma FinishOrderRanks(g: Graph, fin: seq<nat>)
    requires Finished(g, fin) && forall x :: 0 <= x < |g| ==> x in fin
    ensures IsDag(g)
  {
    var rank := seq(|g|, x requires 0 <= x < |g| => IndexOf(fin, x));
    forall u: nat, v: nat | Edge(g, u, v) ensures v < |g| && rank[v] < rank[u] {
      var i := IndexOf(fin, u);
      assert v in g[fin[i]];
      var j :| 0 <= j < |fin[..i]| && fin[..i][j] == v;
      assert fin[j] == v;
    }
    assert Ranks(g, rank);
  }
}
