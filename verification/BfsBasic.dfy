/** The frontier-list search `basicBfs`, and the closed forms of its and `tdBfs`'s traffic counters. */
module BfsBasic {
  import opened Csr
  import opened Distance
  import opened BfsSpec
  import opened BfsPasses
  import opened BfsRun
  import opened BfsEngines
  import opened BfsTraffic
  import opened BfsWeights

  /** The list `next` names exactly the vertices visited since d0, each once; the others kept their depth. */
  ghost predicate NewList(d0: seq<int>, d: seq<int>, next: seq<int>) {
    && |d| == |d0|
    && (forall i, j :: 0 <= i < j < |next| ==> next[i] != next[j])
    && (forall i :: 0 <= i < |next| ==> 0 <= next[i] < |d|)
    && forall v :: 0 <= v < |d| ==> if v in next then d0[v] == -1 && d[v] != -1 else d[v] == d0[v]
  }

  lemma NewListStep(d0: seq<int>, d: seq<int>, next: seq<int>, v: int, x: int)
    requires NewList(d0, d, next) && 0 <= v < |d| && d[v] == -1 && x != -1
    ensures NewList(d0, d[v := x], next + [v])
  {
    assert v !in next;
    forall i, j | 0 <= i < j < |next + [v]| ensures (next + [v])[i] != (next + [v])[j] {
      assert i < |next| && (next + [v])[i] in next;
    }
  }

  lemma NewListLength(g: Csr, d0: seq<int>, d: seq<int>, next: seq<int>)
    requires ShapeOk(g) && |d0| == g.n && NewList(d0, d, next)
    ensures |next| == Changed(d0, d, g.n)
  {
    ListIsSum(g, Linear(1, 0), next);
    ListLength(g, next);
    assert Elements(next) == Differ(d0, d);
    ChangedSum(g, d0, d, g.n);
  }

  /** One frontier vertex: its unvisited neighbours get the next depth and join the next frontier. */
  method BasicVertex(g: Csr, depth: array<int>, level: nat, vidx: int, next: seq<int>, ghost d0: seq<int>)
    returns (t: Traffic, next': seq<int>)
    requires ShapeOk(g) && depth.Length == g.n && 0 <= vidx < g.n && NewList(d0, depth[..], next)
    modifies depth
    ensures depth[..] == Mark(old(depth[..]), Out(g, vidx), level)
    ensures NewList(d0, depth[..], next')
    ensures t.readBytes == 12 + 5 * |Out(g, vidx)| && t.readBursts == Cost(g, Bursty, vidx)
    ensures t.writeBytes == 5 * (|next'| - |next|) && t.writeBursts == |next'| - |next|
  {
    hide NewList;
    assert RowOk(g.rpao, g.ciao, vidx);
    ghost var was, targets := depth[..], Out(g, vidx);
    var looks, writes := 0, 0;
    next' := next;
    for cidx := g.rpao[vidx] to g.rpao[vidx + 1]
      invariant depth[..] == Mark(was, targets[..cidx - g.rpao[vidx]], level)
      invariant looks == cidx - g.rpao[vidx] && writes == |next'| - |next|
      invariant NewList(d0, depth[..], next')
    {
      var outNgb := g.ciao[cidx];
      ghost var now, c := depth[..], cidx - g.rpao[vidx];
      assert targets[..c + 1][..c] == targets[..c] && targets[c] == outNgb;
      looks := looks + 1;
      if depth[outNgb] == -1 {
        NewListStep(d0, now, next', outNgb, level + 1);
        writes := writes + 1;
        depth[outNgb] := level + 1;
        next' := next' + [outNgb];
        assert depth[..] == now[outNgb := level + 1];
      }
    }
    assert targets[..|targets|] == targets;
    var degree := g.rpao[vidx + 1] - g.rpao[vidx];
    t := Traffic(12 + 5 * looks, 5 * writes, 1 + Burst(degree, 4) + looks, writes);
  }

  /** One level of the frontier search. */
  method BasicLevel(g: Csr, depth: array<int>, level: nat, f: seq<int>) returns (t: Traffic, next: seq<int>)
    requires DepthOk(g, depth[..], f)
    modifies depth
    ensures depth[..] == TdDepth(g, old(depth[..]), f, level)
    ensures NewList(old(depth[..]), depth[..], next)
    ensures t.readBytes == ListSum(g, Linear(12, 5), f) && t.writeBytes == 5 * |next|
    ensures t.readBursts == Burst(|f|, 4) + ListSum(g, Bursty, f)
    ensures t.writeBursts == |next| + Burst(|next|, 4)
  {
    hide NewList, Mark;
    ghost var d0 := depth[..];
    var bursts := GetBurstNum(|f|, 4);
    t, next := Traffic(0, 0, bursts, 0), [];
    assert NewList(d0, d0, []) by { NewListNone(d0); }
    for i := 0 to |f|
      invariant depth[..] == TdDepth(g, d0, f[..i], level) && NewList(d0, depth[..], next)
      invariant t.readBytes == ListSum(g, Linear(12, 5), f[..i]) && t.writeBytes == 5 * |next|
      invariant t.readBursts == Burst(|f|, 4) + ListSum(g, Bursty, f[..i]) && t.writeBursts == |next|
    {
      assert f[..i + 1][..i] == f[..i];
      var v: Traffic;
      v, next := BasicVertex(g, depth, level, f[i], next, d0);
      t := Plus(t, v);
    }
    assert f[..|f|] == f;
    bursts := GetBurstNum(|next|, 4);
    t := Plus(t, Traffic(0, 0, 0, bursts));
  }

  lemma NewListNone(d: seq<int>)
    ensures NewList(d, d, [])
  {
  }

  /** Bursts that move the frontiers of the first k levels. */
  ghost function FrontierBursts(g: Csr, s: int, k: nat): int
    requires ShapeOk(g) && 0 <= s < g.n
  {
    if k == 0 then 0
    else FrontierBursts(g, s, k - 1) + Burst(|Select(Depths(g, s, k - 1), k - 1, g.n)|, 4)
  }

  /** The counters of the frontier search after k levels. */
  ghost predicate BasicTotals(g: Csr, s: int, k: nat, t: Traffic)
    requires ShapeOk(g) && 0 <= s < g.n
  {
    var depth := Depths(g, s, k);
    && t.readBytes == Sum(g, Linear(12, 5), Done(depth, k), g.n)
    && t.writeBytes == 5 * (Count(g, Reached(depth)) - 1)
    && t.readBursts == FrontierBursts(g, s, k) + Sum(g, Bursty, Done(depth, k), g.n)
    && t.writeBursts == Count(g, Reached(depth)) - 1 + FrontierBursts(g, s, k + 1) - Burst(1, 4)
  }

  lemma SelectLength(g: Csr, f: seq<int>, depth: seq<int>, k: int)
    requires ShapeOk(g) && |depth| == g.n && Lists(f, depth, k)
    ensures |f| == |Select(depth, k, g.n)|
  {
    SelectLists(depth, k);
    LevelList(g, Linear(1, 0), f, depth, k);
    LevelList(g, Linear(1, 0), Select(depth, k, g.n), depth, k);
    ListLength(g, f);
    ListLength(g, Select(depth, k, g.n));
  }

  /** The next frontier list names the next level. */
  lemma NextLists(g: Csr, s: int, k: nat, next: seq<int>)
    requires ShapeOk(g) && 0 <= s < g.n && NewList(Depths(g, s, k), Depths(g, s, k + 1), next)
    ensures Lists(next, Depths(g, s, k + 1), k + 1)
  {
    var d0, d := Depths(g, s, k), Depths(g, s, k + 1);
    assert d == NextDepth(GraphOf(g), d0, k);
    DepthExact(GraphOf(g), s, k);
    forall v | 0 <= v < g.n ensures v in next <==> d[v] == k + 1 {
      assert DistAt(GraphOf(g), s, d0[v], v, k);
    }
  }

  /** What a level contributes to the sums, its vertices given as a list. */
  lemma LevelDone(g: Csr, w: Weight, s: int, k: nat, f: seq<int>)
    requires ShapeOk(g) && 0 <= s < g.n && Lists(f, Depths(g, s, k), k)
    ensures Sum(g, w, Done(Depths(g, s, k + 1), k + 1), g.n)
         == Sum(g, w, Done(Depths(g, s, k), k), g.n) + ListSum(g, w, f)
  {
    assert Depths(g, s, k + 1) == NextDepth(GraphOf(g), Depths(g, s, k), k);
    DoneStep(g, w, Depths(g, s, k), k);
    LevelList(g, w, f, Depths(g, s, k), k);
  }

  lemma BasicStep(g: Csr, s: int, k: nat, f: seq<int>, next: seq<int>, t: Traffic, u: Traffic)
    requires ShapeOk(g) && 0 <= s < g.n && Lists(f, Depths(g, s, k), k) && BasicTotals(g, s, k, t)
    requires NewList(Depths(g, s, k), Depths(g, s, k + 1), next)
    requires u.readBytes == ListSum(g, Linear(12, 5), f) && u.writeBytes == 5 * |next|
    requires u.readBursts == Burst(|f|, 4) + ListSum(g, Bursty, f) && u.writeBursts == |next| + Burst(|next|, 4)
    ensures Lists(next, Depths(g, s, k + 1), k + 1) && BasicTotals(g, s, k + 1, Plus(t, u))
  {
    hide NewList, Lists, Depths, NextDepth, ListSum, Sum, Changed, Select, Count, Done, Reached, Burst;
    NextLists(g, s, k, next);
    NewListLength(g, Depths(g, s, k), Depths(g, s, k + 1), next);
    LevelDone(g, Linear(12, 5), s, k, f);
    LevelDone(g, Bursty, s, k, f);
    LevelReached(g, s, k);
    SelectLength(g, f, Depths(g, s, k), k);
    SelectLength(g, next, Depths(g, s, k + 1), k + 1);
  }

  lemma BasicStart(g: Csr, s: int)
    requires ShapeOk(g) && 0 <= s < g.n
    ensures Lists([s], Depths(g, s, 0), 0) && BasicTotals(g, s, 0, NONE)
  {
    StartSums(g, Linear(12, 5), s);
    StartSums(g, Bursty, s);
    assert Depths(g, s, 0) == StartDepth(GraphOf(g), s);
    SelectLength(g, [s], Depths(g, s, 0), 0);
    assert FrontierBursts(g, s, 1) == Burst(1, 4);
  }

  /** When a level is empty, every reached vertex is finished. */
  lemma AllDone(g: Csr, s: int, k: nat)
    requires ShapeOk(g) && 0 <= s < g.n && LevelEmpty(Depths(g, s, k), k)
    ensures Done(Depths(g, s, k), k) == Reached(Depths(g, s, k))
    ensures Shortest(GraphOf(g), s, Depths(g, s, k))
  {
    var depth := Depths(g, s, k);
    DepthExact(GraphOf(g), s, k);
    ExactShortest(GraphOf(g), s, depth, k);
    forall v | 0 <= v < g.n ensures v in Done(depth, k) <==> v in Reached(depth) {
      assert DistAt(GraphOf(g), s, depth[v], v, k);
    }
  }

  /** MAIN: `basicBfs` returns the shortest distances, having read 12 bytes per reached vertex and 5 per edge out of
      one, and written 5 bytes per reached vertex but the start. */
  method BasicBfs(g: Csr, s: int) returns (depth: array<int>, level: nat, t: Traffic)
    requires Valid(g) && 0 <= s < g.n
    ensures depth[..] == Depths(g, s, level) && Shortest(GraphOf(g), s, depth[..])
    ensures var r := Reached(depth[..]);
      && t.readBytes == 12 * Count(g, r) + 5 * EdgesOf(g, r)
      && t.writeBytes == 5 * (Count(g, r) - 1)
      && t.readBursts == FrontierBursts(g, s, level) + Sum(g, Bursty, r, g.n)
      && t.writeBursts == Count(g, r) - 1 + FrontierBursts(g, s, level) - Burst(1, 4)
  {
    hide NewList, BasicTotals, Sum, ListSum, Pending, TdDepth;
    depth := NewDepth(g, s);
    level, t := 0, NONE;
    var frontier := [s];
    BasicStart(g, s);
    while |frontier| > 0
      invariant depth.Length == g.n && fresh(depth) && depth[..] == Depths(g, s, level)
      invariant Lists(frontier, depth[..], level) && BasicTotals(g, s, level, t)
      decreases Pending(depth[..], level, g.n)
    {
      ghost var d0 := depth[..];
      var turn, next := BasicLevel(g, depth, level, frontier);
      ListIsNext(g, d0, frontier, level);
      PendingFalls(g, d0, frontier, level);
      BasicStep(g, s, level, frontier, next, t, turn);
      t, frontier, level := Plus(t, turn), next, level + 1;
    }
    BasicEnd(g, s, level, t);
  }

  lemma PendingFalls(g: Csr, depth: seq<int>, f: seq<int>, level: nat)
    requires ShapeOk(g) && |depth| == g.n && |f| > 0 && Lists(f, depth, level)
    ensures Pending(NextDepth(GraphOf(g), depth, level), level + 1, g.n) < Pending(depth, level, g.n)
  {
    assert depth[f[0]] == level;
    PendingDrops(GraphOf(g), depth, level, g.n);
  }

  lemma BasicEnd(g: Csr, s: int, k: nat, t: Traffic)
    requires ShapeOk(g) && 0 <= s < g.n && Lists([], Depths(g, s, k), k) && BasicTotals(g, s, k, t)
    ensures Shortest(GraphOf(g), s, Depths(g, s, k))
    ensures var r := Reached(Depths(g, s, k));
      && t.readBytes == 12 * Count(g, r) + 5 * EdgesOf(g, r)
      && t.writeBytes == 5 * (Count(g, r) - 1)
      && t.readBursts == FrontierBursts(g, s, k) + Sum(g, Bursty, r, g.n)
      && t.writeBursts == Count(g, r) - 1 + FrontierBursts(g, s, k) - Burst(1, 4)
  {
    var depth := Depths(g, s, k);
    assert LevelEmpty(depth, k);
    AllDone(g, s, k);
    SumLinear(g, 12, 5, Reached(depth), g.n);
    SelectLength(g, [], depth, k);
    assert FrontierBursts(g, s, k + 1) == FrontierBursts(g, s, k) + Burst(0, 4);
  }

  /** What `tdBfs` has counted after k turns. */
  ghost predicate TdTotals(g: Csr, s: int, k: nat, t: Traffic)
    requires ShapeOk(g) && 0 <= s < g.n
  {
    var depth := Depths(g, s, k);
    && t.readBytes == k * g.n + Sum(g, Linear(8, 5), Done(depth, k), g.n)
    && t.readBursts == k * Burst(g.n, 1) + Sum(g, Bursty, Done(depth, k), g.n)
    && t.writeBytes == t.writeBursts == Count(g, Reached(depth)) - 1
  }

  lemma {:induction false} AlwaysDown(g: Csr, s: int, k: nat)
    requires ShapeOk(g) && 0 <= s < g.n
    ensures ControlAt(g, Params(NEVER, NEVER, 0, 0), s, true, k).topDown
  {
    if k > 0 {
      AlwaysDown(g, s, k - 1);
    }
  }

  /** One top-down scan, counted. */
  lemma TdLevelParts(g: Csr, s: int, k: nat)
    requires Valid(g) && 0 <= s < g.n
    ensures var depth := Depths(g, s, k);
      var f := Frontier(depth, k, true);
      var u := LevelTraffic(g, depth, k, true);
      && Lists(f, depth, k)
      && u.readBytes == g.n + ListSum(g, Linear(8, 5), f)
      && u.readBursts == Burst(g.n, 1) + ListSum(g, Bursty, f)
      && u.writeBytes == u.writeBursts == Changed(depth, Depths(g, s, k + 1), g.n)
  {
    var depth := Depths(g, s, k);
    SelectLists(depth, k);
    TdReads(g, depth, Frontier(depth, k, true), k);
    TdStep(g, depth, k);
    assert Depths(g, s, k + 1) == NextDepth(GraphOf(g), depth, k);
  }

  lemma TdLevelTotals(g: Csr, s: int, k: nat, t: Traffic)
    requires Valid(g) && 0 <= s < g.n && TdTotals(g, s, k, t)
    ensures TdTotals(g, s, k + 1, Plus(t, LevelTraffic(g, Depths(g, s, k), k, true)))
  {
    hide Depths, Lists, Frontier, LevelTraffic, ListSum, Sum, Changed, Count, Done, Reached, Burst;
    var f := Frontier(Depths(g, s, k), k, true);
    TdLevelParts(g, s, k);
    LevelDone(g, Linear(8, 5), s, k, f);
    LevelDone(g, Bursty, s, k, f);
    LevelReached(g, s, k);
    Grow(k, g.n);
    Grow(k, Burst(g.n, 1));
  }

  lemma Grow(k: int, x: int)
    ensures (k + 1) * x == k * x + x
  {
  }

  lemma {:induction false} TdTotal(g: Csr, s: int, k: nat)
    requires Valid(g) && 0 <= s < g.n
    ensures TdTotals(g, s, k, TrafficAt(g, Params(NEVER, NEVER, 0, 0), s, true, k))
  {
    hide TdTotals, LevelTraffic, ControlAt;
    if k == 0 {
      TdTotalStart(g, s);
    } else {
      TdTotal(g, s, k - 1);
      AlwaysDown(g, s, k - 1);
      TdLevelTotals(g, s, k - 1, TrafficAt(g, Params(NEVER, NEVER, 0, 0), s, true, k - 1));
    }
  }

  lemma TdTotalStart(g: Csr, s: int)
    requires ShapeOk(g) && 0 <= s < g.n
    ensures TdTotals(g, s, 0, NONE)
  {
    StartSums(g, Linear(8, 5), s);
    StartSums(g, Bursty, s);
    assert Depths(g, s, 0) == StartDepth(GraphOf(g), s);
  }

  /** The largest distance there is. */
  ghost predicate Deepest(depth: seq<int>, e: int) {
    e in depth && forall v :: 0 <= v < |depth| ==> depth[v] <= e
  }

  lemma IdleAt(g: Csr, s: int, k: nat)
    requires ShapeOk(g) && 0 <= s < g.n && k > 0
    ensures ControlAt(g, Params(NEVER, NEVER, 0, 0), s, true, k).done
       <==> LevelEmpty(Depths(g, s, k - 1), k - 1)
  {
    AlwaysDown(g, s, k - 1);
    var depth := Depths(g, s, k - 1);
    if |Select(depth, k - 1, g.n)| == 0 {
      EmptyFrontier(depth, k - 1);
    } else {
      assert depth[Select(depth, k - 1, g.n)[0]] == k - 1;
    }
  }

  lemma StepKeepsDepth(g: Csr, s: int, k: nat, v: int)
    requires ShapeOk(g) && 0 <= s < g.n && 0 <= v < g.n && Depths(g, s, k)[v] != -1
    ensures Depths(g, s, k + 1)[v] == Depths(g, s, k)[v]
  {
  }

  lemma StartsAtStart(g: Csr, s: int)
    requires ShapeOk(g) && 0 <= s < g.n
    ensures !LevelEmpty(Depths(g, s, 0), 0)
  {
    assert Depths(g, s, 0)[s] == 0;
  }

  lemma AtMostLevel(g: Csr, s: int, k: nat)
    requires ShapeOk(g) && 0 <= s < g.n && LevelEmpty(Depths(g, s, k), k)
    ensures forall v :: 0 <= v < g.n ==> Depths(g, s, k)[v] < k
  {
    DepthExact(GraphOf(g), s, k);
    forall v | 0 <= v < g.n ensures Depths(g, s, k)[v] < k {
      assert DistAt(GraphOf(g), s, Depths(g, s, k)[v], v, k);
    }
  }

  lemma StillThere(g: Csr, s: int, k: nat)
    requires ShapeOk(g) && 0 <= s < g.n && !LevelEmpty(Depths(g, s, k), k)
    ensures k in Depths(g, s, k + 1)
  {
    var v :| 0 <= v < g.n && Depths(g, s, k)[v] == k;
    StepKeepsDepth(g, s, k, v);
  }

  /** `tdBfs` stops two turns after the deepest level. */
  lemma StopDeepest(g: Csr, s: int, k: nat)
    requires ShapeOk(g) && 0 <= s < g.n && Stops(g, Params(NEVER, NEVER, 0, 0), s, true, k)
    ensures k >= 2 && Deepest(Depths(g, s, k), k - 2) && LevelEmpty(Depths(g, s, k), k)
  {
    hide LevelEmpty, ControlAt;
    IdleAt(g, s, k);
    StartsAtStart(g, s);
    if k > 1 {
      IdleAt(g, s, k - 1);
      StillThere(g, s, k - 2);
      AtMostLevel(g, s, k - 1);
      Settled(g, s, k - 1);
    }
  }

  lemma Settled(g: Csr, s: int, k: nat)
    requires ShapeOk(g) && 0 <= s < g.n && LevelEmpty(Depths(g, s, k), k)
    ensures Depths(g, s, k + 1) == Depths(g, s, k) && LevelEmpty(Depths(g, s, k), k + 1)
  {
    EmptyStable(GraphOf(g), Depths(g, s, k), k);
    AtMostLevel(g, s, k);
  }

  /** MAIN: `tdBfs` reads one byte per vertex and level scanned (two scans past the deepest level included), 8 per
      reached vertex and 5 per edge out of one, and writes one byte per reached vertex but the start. */
  lemma TdClosedForm(g: Csr, s: int, k: nat)
    requires Valid(g) && 0 <= s < g.n && Stops(g, Params(NEVER, NEVER, 0, 0), s, true, k)
    ensures k >= 2 && Deepest(Depths(g, s, k), k - 2)
    ensures var t := TrafficAt(g, Params(NEVER, NEVER, 0, 0), s, true, k);
      var r := Reached(Depths(g, s, k));
      && t.readBytes == g.n * k + 8 * Count(g, r) + 5 * EdgesOf(g, r)
      && t.readBursts == Burst(g.n, 1) * k + Sum(g, Bursty, r, g.n)
      && t.writeBytes == t.writeBursts == Count(g, r) - 1
  {
    TdTotal(g, s, k);
    StopDeepest(g, s, k);
    AllDone(g, s, k);
    SumLinear(g, 8, 5, Reached(Depths(g, s, k)), g.n);
  }
}
