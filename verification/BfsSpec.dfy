/** Frontier scans and counts shared by the BFS variants of bfs/graph.cpp. */
module BfsSpec {
  import opened Csr
  import opened Distance

  /** The directed graph a CSR structure stands for. */
  ghost function GraphOf(g: Csr): (d: Digraph)
    requires ShapeOk(g)
    ensures d.n == g.n
  {
    Digraph(g.n, Arcs(g))
  }

  ghost function Arcs(g: Csr): set<(int, int)>
    requires ShapeOk(g)
  {
    set u, v | 0 <= u < g.n && 0 <= v < g.n && v in Out(g, u) :: (u, v)
  }

  lemma ArcOut(g: Csr, u: int, v: int)
    requires ShapeOk(g) && 0 <= u < g.n && 0 <= v < g.n
    ensures Arc(GraphOf(g), u, v) <==> v in Out(g, u)
  {
  }

  /** Indices below i whose depth is x, in order: the frontier scans of the source. */
  function Select(depth: seq<int>, x: int, i: nat): (f: seq<int>)
    requires i <= |depth|
    ensures forall j :: 0 <= j < |f| ==> 0 <= f[j] < i && depth[f[j]] == x
    ensures |f| <= i
  {
    if i == 0 then []
    else Select(depth, x, i - 1) + if depth[i - 1] == x then [i - 1] else []
  }

  lemma {:induction false} SelectAll(depth: seq<int>, x: int, i: nat, v: int)
    requires 0 <= v < i <= |depth| && depth[v] == x
    ensures v in Select(depth, x, i)
    decreases i
  {
    if v < i - 1 {
      SelectAll(depth, x, i - 1, v);
    }
  }

  lemma {:induction false} SelectSorted(depth: seq<int>, x: int, i: nat, a: nat, b: nat)
    requires i <= |depth| && a < b < |Select(depth, x, i)|
    ensures Select(depth, x, i)[a] < Select(depth, x, i)[b]
    decreases i
  {
    if b < |Select(depth, x, i - 1)| {
      SelectSorted(depth, x, i - 1, a, b);
    }
  }

  /** Vertices still to be finished: unvisited, or not below the current level. */
  function Pending(depth: seq<int>, level: int, i: nat): (r: nat)
    requires i <= |depth|
    ensures r <= i
  {
    if i == 0 then 0
    else Pending(depth, level, i - 1) + if depth[i - 1] == -1 || depth[i - 1] >= level then 1 else 0
  }

  /** The measure that makes every variant terminate: a level with someone on it finishes somebody. */
  lemma {:induction false} PendingDrops(g: Digraph, depth: seq<int>, level: nat, i: nat)
    requires |depth| == g.n && i <= g.n
    ensures Pending(NextDepth(g, depth, level), level + 1, i) <= Pending(depth, level, i)
    ensures (exists v :: 0 <= v < i && depth[v] == level)
            ==> Pending(NextDepth(g, depth, level), level + 1, i) < Pending(depth, level, i)
    decreases i
  {
    if i > 0 {
      PendingDrops(g, depth, level, i - 1);
    }
  }

  /** How many entries changed from a to b. */
  function Changed(a: seq<int>, b: seq<int>, i: nat): (r: nat)
    requires i <= |a| && i <= |b|
    ensures r <= i
  {
    if i == 0 then 0 else Changed(a, b, i - 1) + if a[i - 1] != b[i - 1] then 1 else 0
  }

  lemma {:induction false} ChangedZero(a: seq<int>, b: seq<int>, i: nat)
    requires i <= |a| && i <= |b|
    ensures Changed(a, b, i) == 0 <==> a[..i] == b[..i]
    decreases i
  {
    if i > 0 {
      ChangedZero(a, b, i - 1);
      assert a[..i] == a[..i - 1] + [a[i - 1]];
      assert b[..i] == b[..i - 1] + [b[i - 1]];
    }
  }

  lemma {:induction false} ChangedUpdate(a: seq<int>, b: seq<int>, v: int, x: int, i: nat)
    requires i <= |a| == |b| && 0 <= v < |b| && a[v] == b[v] && x != b[v]
    ensures Changed(a, b[v := x], i) == Changed(a, b, i) + if v < i then 1 else 0
    decreases i
  {
    if i > 0 {
      ChangedUpdate(a, b, v, x, i - 1);
    }
  }
}
