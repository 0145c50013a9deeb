/** The closed form of `buBfs`'s read counters: each vertex is searched once a level until its parent is found. */
module BfsBottomUp {
  import opened BfsBasic
  import opened BfsEngines
  import opened BfsPasses
  import opened BfsRun
  import opened BfsSpec
  import opened BfsTraffic
  import opened BfsTurns
  import opened BfsWeights
  import opened Csr
  import opened Distance

  /** Reads for a vertex in the first k levels: all its incoming edges on each level before its parent's, and those up
      to the first parent on that one; all of them on every level for a vertex that is not reached. */
  function Searches(g: Csr, u: Unit, depth: seq<int>, k: nat, v: int): int
    requires ShapeOk(g) && |depth| == g.n && 0 <= v < g.n
  {
    var d, all := depth[v], Search(g, u, v, |In(g, v)|);
    if d == -1 then k * all
    else if d <= 0 then 0
    else (d - 1) * all + Search(g, u, v, Looks(g, depth, v, d - 1))
  }

  function AllSearches(g: Csr, u: Unit, depth: seq<int>, k: nat, i: nat): int
    requires ShapeOk(g) && |depth| == g.n && i <= g.n
  {
    if i == 0 then 0 else AllSearches(g, u, depth, k, i - 1) + Searches(g, u, depth, k, i - 1)
  }

  /** One more level, for one vertex. */
  lemma SearchesStep(g: Csr, u: Unit, depth: seq<int>, k: nat, v: int)
    requires Valid(g) && |depth| == g.n && 0 <= v < g.n
    requires forall w :: 0 <= w < g.n ==> -1 <= depth[w] <= k
    ensures var next := NextDepth(GraphOf(g), depth, k);
      Searches(g, u, next, k + 1, v) == Searches(g, u, depth, k, v)
        + if depth[v] == -1 then Search(g, u, v, Looks(g, depth, v, k)) else 0
  {
    hide FirstAt, Search, GraphOf, Arc;
    var next := NextDepth(GraphOf(g), depth, k);
    var all := Search(g, u, v, |In(g, v)|);
    if depth[v] == -1 {
      FirstSame(depth, next, k, In(g, v));
      ParentInSources(g, depth, k, v);
      assert (k + 1) * all == k * all + all;
    } else if depth[v] > 0 {
      FirstSame(depth, next, depth[v] - 1, In(g, v));
    }
  }

  lemma {:induction false} AllStep(g: Csr, u: Unit, depth: seq<int>, k: nat, i: nat)
    requires Valid(g) && |depth| == g.n && i <= g.n
    requires forall w :: 0 <= w < g.n ==> -1 <= depth[w] <= k
    ensures AllSearches(g, u, NextDepth(GraphOf(g), depth, k), k + 1, i)
         == AllSearches(g, u, depth, k, i) + LevelSearches(g, u, depth, k, i)
    decreases i
  {
    hide Searches, Search, Looks;
    if i > 0 {
      AllStep(g, u, depth, k, i - 1);
      SearchesStep(g, u, depth, k, i - 1);
    }
  }

  lemma {:induction false} NoSearches(g: Csr, u: Unit, s: int, i: nat)
    requires ShapeOk(g) && 0 <= s < g.n && i <= g.n
    ensures AllSearches(g, u, Depths(g, s, 0), 0, i) == 0
    decreases i
  {
    if i > 0 {
      NoSearches(g, u, s, i - 1);
    }
  }

  const BOTTOM_UP := Params(NEVER, NEVER, 0, 0)

  lemma {:induction false} AlwaysUp(g: Csr, s: int, k: nat)
    requires ShapeOk(g) && 0 <= s < g.n
    ensures !ControlAt(g, BOTTOM_UP, s, false, k).topDown
    decreases k
  {
    if k > 0 {
      AlwaysUp(g, s, k - 1);
    }
  }

  /** What k bottom-up turns have read: a scan each, and the searches. */
  lemma {:induction false} BuTotal(g: Csr, u: Unit, s: int, k: nat)
    requires Valid(g) && 0 <= s < g.n
    ensures Reads(u, TrafficAt(g, BOTTOM_UP, s, false, k))
         == k * Reads(u, Scan(g)) + AllSearches(g, u, Depths(g, s, k), k, g.n)
    decreases k
  {
    hide Depths, AllSearches, LevelSearches, Scan, BuTraffic, NextControl;
    if k == 0 {
      NoSearches(g, u, s, g.n);
    } else {
      BuTotal(g, u, s, k - 1);
      AlwaysUp(g, s, k - 1);
      BuTurn(g, u, s, k - 1);
      assert k * Reads(u, Scan(g)) == (k - 1) * Reads(u, Scan(g)) + Reads(u, Scan(g));
    }
  }

  lemma BuTurn(g: Csr, u: Unit, s: int, k: nat)
    requires Valid(g) && 0 <= s < g.n
    ensures var depth := Depths(g, s, k);
      Reads(u, LevelTraffic(g, depth, k, false)) + AllSearches(g, u, depth, k, g.n)
      == Reads(u, Scan(g)) + AllSearches(g, u, Depths(g, s, k + 1), k + 1, g.n)
  {
    hide AllSearches, LevelSearches, BuTraffic, Select;
    var depth := Depths(g, s, k);
    assert Depths(g, s, k + 1) == NextDepth(GraphOf(g), depth, k);
    PassReads(g, u, depth, k, g.n);
    DepthBounds(g, s, k);
    AllStep(g, u, depth, k, g.n);
  }

  /** A bottom-up turn ends the loop exactly when it finds nobody. */
  lemma FindsNobody(g: Csr, s: int, k: nat)
    requires Valid(g) && 0 <= s < g.n && k > 0
    ensures ControlAt(g, BOTTOM_UP, s, false, k).done <==> Depths(g, s, k) == Depths(g, s, k - 1)
  {
    hide Changed, Select, Hubs;
    AlwaysUp(g, s, k - 1);
    var was, now := Depths(g, s, k - 1), Depths(g, s, k);
    if |Frontier(was, k - 1, false)| == 0 {
      IdleStable(g, s, k - 1, false);
    }
    if Changed(was, now, g.n) == 0 {
      SameWhenUnchanged(was, now);
    }
    ChangedZero(was, was, g.n);
  }

  lemma StartIn(g: Csr, s: int)
    requires ShapeOk(g) && 0 <= s < g.n
    ensures 0 in Depths(g, s, 0)
  {
    assert Depths(g, s, 0)[s] == 0;
  }

  /** `buBfs` stops one turn after the deepest level. */
  lemma BuDeepest(g: Csr, s: int, k: nat)
    requires Valid(g) && 0 <= s < g.n && Stops(g, BOTTOM_UP, s, false, k)
    ensures Deepest(Depths(g, s, k), k - 1)
  {
    hide Depths, ControlAt;
    FindsNobody(g, s, k);
    DepthBounds(g, s, k - 1);
    if k == 1 {
      StartIn(g, s);
    } else {
      FindsNobody(g, s, k - 1);
      NewDeepest(g, s, k - 2);
    }
  }

  /** A level that finds somebody puts it at the next depth. */
  lemma NewDeepest(g: Csr, s: int, k: nat)
    requires ShapeOk(g) && 0 <= s < g.n && Depths(g, s, k + 1) != Depths(g, s, k)
    ensures k + 1 in Depths(g, s, k + 1)
  {
    var was, now := Depths(g, s, k), Depths(g, s, k + 1);
    var v :| 0 <= v < g.n && was[v] != now[v];
    assert now[v] == k + 1;
  }

  /** MAIN: `buBfs` runs one turn past the deepest level; each turn scans all depths, and the rest of what it reads is
      the searches of the vertices: for a vertex at distance d all incoming edges d - 1 times, then those up to the
      first parent, and for a vertex out of reach all of them on every turn. */
  lemma BuClosedForm(g: Csr, s: int, k: nat)
    requires Valid(g) && 0 <= s < g.n && Stops(g, BOTTOM_UP, s, false, k)
    ensures Deepest(Depths(g, s, k), k - 1)
    ensures var t, depth := TrafficAt(g, BOTTOM_UP, s, false, k), Depths(g, s, k);
      && t.readBytes == k * g.n + AllSearches(g, Bytes, depth, k, g.n)
      && t.readBursts == k * Burst(g.n, 1) + AllSearches(g, Transfers, depth, k, g.n)
      && t.writeBytes == t.writeBursts == Count(g, Reached(depth)) - 1
  {
    hide Depths, AllSearches, Stops;
    BuDeepest(g, s, k);
    BuTotal(g, Bytes, s, k);
    BuTotal(g, Transfers, s, k);
    WritesAt(g, BOTTOM_UP, s, false, k);
  }
}
