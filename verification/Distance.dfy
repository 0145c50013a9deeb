/** Shortest distances in a directed graph, and the level step every breadth-first search performs. */
module Distance {

  datatype Digraph = Digraph(n: nat, arcs: set<(int, int)>)

  ghost predicate Arc(g: Digraph, u: int, v: int) {
    0 <= u < g.n && 0 <= v < g.n && (u, v) in g.arcs
  }

  /** Vertex v can be reached from s along at most k edges. */
  ghost predicate Within(g: Digraph, s: int, v: int, k: nat)
    decreases k
  {
    if k == 0 then v == s && 0 <= s < g.n
    else Within(g, s, v, k - 1) || exists u :: Within(g, s, u, k - 1) && Arc(g, u, v)
  }

  lemma WithinStep(g: Digraph, s: int, u: int, v: int, k: nat)
    requires Within(g, s, u, k) && Arc(g, u, v)
    ensures Within(g, s, v, k + 1)
  {
  }

  lemma {:induction false} WithinRange(g: Digraph, s: int, v: int, k: nat)
    requires Within(g, s, v, k)
    ensures 0 <= v < g.n
    decreases k
  {
    if k > 0 && Within(g, s, v, k - 1) {
      WithinRange(g, s, v, k - 1);
    }
  }

  lemma WithinPred(g: Digraph, s: int, v: int, k: nat) returns (u: int)
    requires Within(g, s, v, k + 1) && !Within(g, s, v, k)
    ensures Within(g, s, u, k) && Arc(g, u, v)
  {
    u :| Within(g, s, u, k) && Arc(g, u, v);
  }

  ghost predicate Walk(g: Digraph, path: seq<int>)
  {
    && |path| > 0 && 0 <= path[0] < g.n
    && forall i :: 0 <= i < |path| - 1 ==> Arc(g, path[i], path[i + 1])
  }

  /** `Within` is reachability by a walk of at most k edges. */
  lemma {:induction false} WithinIffWalk(g: Digraph, s: int, v: int, k: nat)
    ensures Within(g, s, v, k) <==>
      exists path :: Walk(g, path) && |path| <= k + 1 && path[0] == s && path[|path| - 1] == v
    decreases k
  {
    if Within(g, s, v, k) {
      var path := WalkOf(g, s, v, k);
    }
    if path :| Walk(g, path) && |path| <= k + 1 && path[0] == s && path[|path| - 1] == v {
      if |path| == 1 {
        WithinMonotone(g, s, v, 0, k);
      } else {
        var init := path[..|path| - 1];
        WithinIffWalk(g, s, init[|init| - 1], k - 1);
        WithinStep(g, s, path[|path| - 2], v, k - 1);
      }
    }
  }

  lemma {:induction false} WalkOf(g: Digraph, s: int, v: int, k: nat) returns (path: seq<int>)
    requires Within(g, s, v, k)
    ensures Walk(g, path) && |path| <= k + 1 && path[0] == s && path[|path| - 1] == v
    decreases k
  {
    if k == 0 {
      path := [s];
    } else if Within(g, s, v, k - 1) {
      path := WalkOf(g, s, v, k - 1);
    } else {
      var u := WithinPred(g, s, v, k - 1);
      var init := WalkOf(g, s, u, k - 1);
      path := init + [v];
      forall i | 0 <= i < |path| - 1 ensures Arc(g, path[i], path[i + 1]) {
        if i < |init| - 1 {
          assert Arc(g, init[i], init[i + 1]);
        }
      }
    }
  }

  lemma {:induction false} WithinMonotone(g: Digraph, s: int, v: int, j: nat, k: nat)
    requires j <= k && Within(g, s, v, j)
    ensures Within(g, s, v, k)
    decreases k
  {
    if j < k {
      WithinMonotone(g, s, v, j, k - 1);
    }
  }

  /** depth[v] is v's distance from s, or -1 if v is farther than k. */
  ghost predicate DistAt(g: Digraph, s: int, d: int, v: int, k: nat)
  {
    if Within(g, s, v, k) then 0 <= d <= k && Within(g, s, v, d) && (d > 0 ==> !Within(g, s, v, d - 1))
    else d == -1
  }

  ghost predicate LevelExact(g: Digraph, s: int, depth: seq<int>, k: nat)
  {
    |depth| == g.n && forall v :: 0 <= v < g.n ==> DistAt(g, s, depth[v], v, k)
  }

  /** The result promised by every variant: the length of a shortest walk from s, or -1 if there is none. */
  ghost predicate Shortest(g: Digraph, s: int, depth: seq<int>)
  {
    && |depth| == g.n
    && forall v :: 0 <= v < g.n ==>
         if depth[v] == -1 then forall k: nat :: !Within(g, s, v, k)
         else depth[v] >= 0 && Within(g, s, v, depth[v]) && forall k: nat :: k < depth[v] ==> !Within(g, s, v, k)
  }

  /** Vertex v has an in-neighbour on the current level. */
  ghost predicate HasParent(g: Digraph, depth: seq<int>, level: int, v: int)
    requires |depth| == g.n
  {
    exists u :: 0 <= u < g.n && depth[u] == level && Arc(g, u, v)
  }

  /** One BFS level: every unvisited vertex with a parent on the current level gets the next depth. */
  ghost function NextDepth(g: Digraph, depth: seq<int>, level: int): (r: seq<int>)
    requires |depth| == g.n
    ensures |r| == g.n
    ensures forall v :: 0 <= v < g.n ==>
      r[v] == if depth[v] == -1 && HasParent(g, depth, level, v) then level + 1 else depth[v]
  {
    seq(g.n, v requires 0 <= v < g.n =>
      if depth[v] == -1 && HasParent(g, depth, level, v) then level + 1 else depth[v])
  }

  function StartDepth(g: Digraph, s: int): (r: seq<int>)
    requires 0 <= s < g.n
    ensures |r| == g.n
  {
    seq(g.n, v => if v == s then 0 else -1)
  }

  lemma StartExact(g: Digraph, s: int)
    requires 0 <= s < g.n
    ensures LevelExact(g, s, StartDepth(g, s), 0)
  {
  }

  lemma LevelStep(g: Digraph, s: int, depth: seq<int>, k: nat)
    requires LevelExact(g, s, depth, k)
    ensures LevelExact(g, s, NextDepth(g, depth, k), k + 1)
  {
    forall v | 0 <= v < g.n ensures DistAt(g, s, NextDepth(g, depth, k)[v], v, k + 1) {
      LevelStepAt(g, s, depth, k, v);
    }
  }

  lemma LevelStepAt(g: Digraph, s: int, depth: seq<int>, k: nat, v: int)
    requires LevelExact(g, s, depth, k) && 0 <= v < g.n
    ensures DistAt(g, s, NextDepth(g, depth, k)[v], v, k + 1)
  {
    assert DistAt(g, s, depth[v], v, k);
    if Within(g, s, v, k) {
      WithinMonotone(g, s, v, k, k + 1);
    } else if HasParent(g, depth, k, v) {
      ParentNear(g, s, depth, k, v);
    } else if Within(g, s, v, k + 1) {
      NearParent(g, s, depth, k, v);
    }
  }

  lemma ParentNear(g: Digraph, s: int, depth: seq<int>, k: nat, v: int)
    requires LevelExact(g, s, depth, k) && HasParent(g, depth, k, v)
    ensures Within(g, s, v, k + 1)
  {
    var u :| 0 <= u < g.n && depth[u] == k && Arc(g, u, v);
    assert DistAt(g, s, depth[u], u, k);
    WithinStep(g, s, u, v, k);
  }

  /** A vertex first reached at k+1 has a predecessor at distance exactly k. */
  lemma NearParent(g: Digraph, s: int, depth: seq<int>, k: nat, v: int)
    requires LevelExact(g, s, depth, k)
    requires Within(g, s, v, k + 1) && !Within(g, s, v, k)
    ensures HasParent(g, depth, k, v)
  {
    var u := WithinPred(g, s, v, k);
    WithinRange(g, s, u, k);
    assert DistAt(g, s, depth[u], u, k);
    if depth[u] < k {
      WithinStep(g, s, u, v, depth[u]);
      WithinMonotone(g, s, v, depth[u] + 1, k);
    }
  }

  ghost predicate LevelEmpty(depth: seq<int>, level: int) {
    forall v :: 0 <= v < |depth| ==> depth[v] != level
  }

  /** With nobody on level k, nothing is farther away. */
  lemma {:induction false} NothingFarther(g: Digraph, s: int, depth: seq<int>, k: nat, j: nat, v: int)
    requires LevelExact(g, s, depth, k) && LevelEmpty(depth, k) && j >= k && Within(g, s, v, j)
    ensures Within(g, s, v, k)
    decreases j
  {
    if j > k {
      if Within(g, s, v, j - 1) {
        NothingFarther(g, s, depth, k, j - 1, v);
      } else {
        var u := WithinPred(g, s, v, j - 1);
        WithinRange(g, s, u, j - 1);
        NothingFarther(g, s, depth, k, j - 1, u);
        assert DistAt(g, s, depth[u], u, k);
        WithinStep(g, s, u, v, depth[u]);
        WithinMonotone(g, s, v, depth[u] + 1, k);
      }
    }
  }

  lemma ExactShortest(g: Digraph, s: int, depth: seq<int>, k: nat)
    requires LevelExact(g, s, depth, k) && LevelEmpty(depth, k)
    ensures Shortest(g, s, depth)
  {
    forall v | 0 <= v < g.n
      ensures if depth[v] == -1 then forall j: nat :: !Within(g, s, v, j)
        else depth[v] >= 0 && Within(g, s, v, depth[v]) && forall j: nat :: j < depth[v] ==> !Within(g, s, v, j)
    {
      assert DistAt(g, s, depth[v], v, k);
      if depth[v] == -1 {
        forall j: nat ensures !Within(g, s, v, j) {
          if Within(g, s, v, j) {
            if j >= k {
              NothingFarther(g, s, depth, k, j, v);
            } else {
              WithinMonotone(g, s, v, j, k);
            }
          }
        }
      } else {
        forall j: nat | j < depth[v] ensures !Within(g, s, v, j) {
          if Within(g, s, v, j) {
            WithinMonotone(g, s, v, j, depth[v] - 1);
          }
        }
      }
    }
  }

  /** Nothing new on this level: the next one stays empty. */
  lemma NoNewEmpty(g: Digraph, s: int, depth: seq<int>, k: nat)
    requires LevelExact(g, s, depth, k) && NextDepth(g, depth, k) == depth
    ensures LevelEmpty(depth, k + 1)
  {
    forall v | 0 <= v < g.n ensures depth[v] != k + 1 {
      assert DistAt(g, s, depth[v], v, k);
    }
  }


  /** The depths after k levels. */
  ghost function DepthAt(g: Digraph, s: int, k: nat): (r: seq<int>)
    requires 0 <= s < g.n
    ensures |r| == g.n
  {
    if k == 0 then StartDepth(g, s) else NextDepth(g, DepthAt(g, s, k - 1), k - 1)
  }

  /** MAIN: k level steps from the start compute all distances up to k. */
  lemma {:induction false} DepthExact(g: Digraph, s: int, k: nat)
    requires 0 <= s < g.n
    ensures LevelExact(g, s, DepthAt(g, s, k), k)
  {
    if k == 0 {
      StartExact(g, s);
    } else {
      DepthExact(g, s, k - 1);
      LevelStep(g, s, DepthAt(g, s, k - 1), k - 1);
    }
  }

  /** MAIN: a level step that changes nothing leaves the shortest distances. */
  lemma StableShortest(g: Digraph, s: int, k: nat)
    requires 0 <= s < g.n && DepthAt(g, s, k + 1) == DepthAt(g, s, k)
    ensures Shortest(g, s, DepthAt(g, s, k))
  {
    DepthExact(g, s, k);
    DepthExact(g, s, k + 1);
    NoNewEmpty(g, s, DepthAt(g, s, k), k);
    ExactShortest(g, s, DepthAt(g, s, k + 1), k + 1);
  }

  lemma EmptyStable(g: Digraph, depth: seq<int>, level: int)
    requires |depth| == g.n && (LevelEmpty(depth, level) || LevelEmpty(depth, -1))
    ensures NextDepth(g, depth, level) == depth
  {
  }
}
