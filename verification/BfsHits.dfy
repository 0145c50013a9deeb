/** How much the hub cache can save: unless a hub has more outgoing edges than incoming ones, the buffer hits of a whole
    run never exceed what `getPotentialCacheSaving` reports, the sum of the large in-degrees. */
module BfsHits {
  import opened Arith
  import opened Csr
  import opened Distance
  import opened BfsSpec
  import opened BfsPasses
  import opened BfsRun
  import opened BfsEngines

  /** Occurrences in s of the vertices of f. */
  function MultSum(f: seq<int>, s: seq<int>): nat {
    if |f| == 0 then 0 else MultSum(f[..|f| - 1], s) + Mult(s, f[|f| - 1])
  }

  lemma {:induction false} MultSumSnoc(f: seq<int>, s: seq<int>, y: int)
    requires Increasing(f)
    ensures MultSum(f, s + [y]) == MultSum(f, s) + if y in f then 1 else 0
    decreases |f|
  {
    if |f| > 0 {
      var init, last := f[..|f| - 1], f[|f| - 1];
      MultSumSnoc(init, s, y);
      MultSnoc(s, y, last);
      assert f == init + [last];
      assert last !in init;
    }
  }

  /** Distinct vertices together occur at most |s| times in s. */
  lemma {:induction false} MultSumBound(f: seq<int>, s: seq<int>)
    requires Increasing(f)
    ensures MultSum(f, s) <= |s|
    decreases |s|
  {
    if |s| == 0 {
      MultSumEmpty(f);
    } else {
      MultSumBound(f, s[..|s| - 1]);
      MultSumSnoc(f, s[..|s| - 1], s[|s| - 1]);
      assert s == s[..|s| - 1] + [s[|s| - 1]];
    }
  }

  lemma {:induction false} MultSumEmpty(f: seq<int>)
    ensures MultSum(f, []) == 0
    decreases |f|
  {
    if |f| > 0 {
      MultSumEmpty(f[..|f| - 1]);
    }
  }

  lemma {:induction false} HitsSnoc(s: seq<int>, buffer: seq<int>, h: int)
    requires h !in buffer
    ensures Hits(s, buffer + [h]) == Hits(s, buffer) + Mult(s, h)
    decreases |s|
  {
    if |s| > 0 {
      HitsSnoc(s[..|s| - 1], buffer, h);
    }
  }

  lemma {:induction false} HitsNone(s: seq<int>)
    ensures Hits(s, []) == 0
    decreases |s|
  {
    if |s| > 0 {
      HitsNone(s[..|s| - 1]);
    }
  }

  ghost predicate InRange(g: Csr, f: seq<int>) {
    forall i :: 0 <= i < |f| ==> 0 <= f[i] < g.n
  }

  /** Total degree of the buffered vertices. */
  function BufferWeight(g: Csr, buffer: seq<int>): nat
    requires ShapeOk(g) && InRange(g, buffer)
    decreases |buffer|
  {
    if |buffer| == 0 then 0 else BufferWeight(g, buffer[..|buffer| - 1]) + InDegree(g, buffer[|buffer| - 1])
  }

  /** One more buffered vertex adds at most its incoming edges to the top-down hits. */
  lemma {:induction false} TdHitsSnoc(g: Csr, f: seq<int>, buffer: seq<int>, h: int)
    requires Valid(g) && InRange(g, f) && 0 <= h < g.n && h !in buffer
    ensures TdHits(g, f, buffer + [h]) == TdHits(g, f, buffer) + MultSum(f, In(g, h))
    decreases |f|
  {
    if |f| > 0 {
      TdHitsSnoc(g, f[..|f| - 1], buffer, h);
      HitsSnoc(Out(g, f[|f| - 1]), buffer, h);
    }
  }

  lemma {:induction false} TdHitsNone(g: Csr, f: seq<int>)
    requires ShapeOk(g) && InRange(g, f)
    ensures TdHits(g, f, []) == 0
    decreases |f|
  {
    if |f| > 0 {
      TdHitsNone(g, f[..|f| - 1]);
      HitsNone(Out(g, f[|f| - 1]));
    }
  }

  lemma {:induction false} TdHitsBound(g: Csr, f: seq<int>, buffer: seq<int>)
    requires Valid(g) && InRange(g, f) && Increasing(f) && InRange(g, buffer) && Increasing(buffer)
    ensures TdHits(g, f, buffer) <= BufferWeight(g, buffer)
    decreases |buffer|
  {
    if |buffer| == 0 {
      TdHitsNone(g, f);
    } else {
      var init, h := buffer[..|buffer| - 1], buffer[|buffer| - 1];
      TdHitsBound(g, f, init);
      assert buffer == init + [h];
      TdHitsSnoc(g, f, init, h);
      MultSumBound(f, In(g, h));
    }
  }

  /** One more buffered vertex adds at most its outgoing edges to the bottom-up hits. */
  lemma {:induction false} BuHitsSnoc(g: Csr, depth: seq<int>, f: seq<int>, level: int, buffer: seq<int>, h: int)
    requires Valid(g) && DepthOk(g, depth, f) && 0 <= h < g.n
    ensures BuHits(g, depth, f, level, buffer + [h]) <= BuHits(g, depth, f, level, buffer) + MultSum(f, Out(g, h))
    decreases |f|
  {
    if |f| > 0 {
      var v := f[|f| - 1];
      BuHitsSnoc(g, depth, f[..|f| - 1], level, buffer, h);
      MultIn(In(g, v), h);
      assert Mult(Out(g, h), v) == Mult(In(g, v), h);
    }
  }

  lemma {:induction false} BuHitsNone(g: Csr, depth: seq<int>, f: seq<int>, level: int)
    requires DepthOk(g, depth, f)
    ensures BuHits(g, depth, f, level, []) == 0
    decreases |f|
  {
    if |f| > 0 {
      BuHitsNone(g, depth, f[..|f| - 1], level);
    }
  }

  /** No buffered vertex has more outgoing edges than incoming ones. */
  ghost predicate Fed(g: Csr, buffer: seq<int>)
    requires ShapeOk(g) && InRange(g, buffer)
  {
    forall i :: 0 <= i < |buffer| ==> Degree(g, buffer[i]) <= InDegree(g, buffer[i])
  }

  lemma {:induction false} BuHitsBound(g: Csr, depth: seq<int>, f: seq<int>, level: int, buffer: seq<int>)
    requires Valid(g) && DepthOk(g, depth, f) && Increasing(f) && InRange(g, buffer) && Fed(g, buffer)
    ensures BuHits(g, depth, f, level, buffer) <= BufferWeight(g, buffer)
    decreases |buffer|
  {
    if |buffer| == 0 {
      BuHitsNone(g, depth, f, level);
    } else {
      var init, h := buffer[..|buffer| - 1], buffer[|buffer| - 1];
      BuHitsBound(g, depth, f, level, init);
      assert buffer == init + [h];
      BuHitsSnoc(g, depth, f, level, init, h);
      MultSumBound(f, Out(g, h));
    }
  }

  /** `getPotentialCacheSaving`: the in-degrees of all vertices whose in-degree reaches the threshold. */
  function Potential(g: Csr, p: Params, i: nat): nat
    requires ShapeOk(g) && i <= g.n
  {
    if i == 0 then 0
    else Potential(g, p, i - 1) + if InDegree(g, i - 1) >= p.cacheThreshold then InDegree(g, i - 1) else 0
  }

  method GetPotentialCacheSaving(g: Csr, p: Params) returns (total: nat)
    requires ShapeOk(g)
    ensures total == Potential(g, p, g.n)
  {
    total := 0;
    for idx := 0 to g.n
      invariant total == Potential(g, p, idx)
    {
      assert RowOk(g.rpai, g.ciai, idx);
      var degree := g.rpai[idx + 1] - g.rpai[idx];
      if degree >= p.cacheThreshold {
        total := total + degree;
      }
    }
  }

  /** The hub degrees already spent: hubs below i whose depth lies in 0..level-1. */
  function Spent(g: Csr, p: Params, depth: seq<int>, level: int, i: nat): nat
    requires ShapeOk(g) && |depth| == g.n && i <= g.n
  {
    if i == 0 then 0
    else Spent(g, p, depth, level, i - 1)
         + if 0 <= depth[i - 1] < level && Degree(g, i - 1) >= p.cacheThreshold then InDegree(g, i - 1) else 0
  }

  /** The potential saving counts every hub. */
  ghost predicate HubsCounted(g: Csr, p: Params)
    requires ShapeOk(g)
  {
    forall v :: 0 <= v < g.n && Degree(g, v) >= p.cacheThreshold ==> InDegree(g, v) >= p.cacheThreshold
  }

  /** No hub has more outgoing edges than incoming ones. */
  ghost predicate HubsFed(g: Csr, p: Params)
    requires ShapeOk(g)
  {
    forall v :: 0 <= v < g.n && Degree(g, v) >= p.cacheThreshold ==> Degree(g, v) <= InDegree(g, v)
  }

  lemma {:induction false} SpentBound(g: Csr, p: Params, depth: seq<int>, level: int, i: nat)
    requires ShapeOk(g) && HubsCounted(g, p) && |depth| == g.n && i <= g.n
    ensures Spent(g, p, depth, level, i) <= Potential(g, p, i)
    decreases i
  {
    if i > 0 {
      SpentBound(g, p, depth, level, i - 1);
    }
  }

  lemma {:induction false} BufferFed(g: Csr, p: Params, depth: seq<int>, level: int, i: nat)
    requires ShapeOk(g) && HubsFed(g, p) && |depth| == g.n && i <= g.n
    ensures Fed(g, Buffer(g, p, depth, level, i))
    decreases i
  {
    if i > 0 {
      BufferFed(g, p, depth, level, i - 1);
    }
  }

  lemma {:induction false} BufferIncreasing(g: Csr, p: Params, depth: seq<int>, level: int, i: nat)
    requires ShapeOk(g) && |depth| == g.n && i <= g.n
    ensures Increasing(Buffer(g, p, depth, level, i))
    decreases i
  {
    if i > 0 {
      BufferIncreasing(g, p, depth, level, i - 1);
    }
  }

  lemma BufferSnoc(g: Csr, p: Params, depth: seq<int>, level: int, i: nat)
    requires ShapeOk(g) && |depth| == g.n && i < g.n
    ensures BufferWeight(g, Buffer(g, p, depth, level, i + 1)) == BufferWeight(g, Buffer(g, p, depth, level, i))
      + if depth[i] == level && Degree(g, i) >= p.cacheThreshold then InDegree(g, i) else 0
  {
    var b := Buffer(g, p, depth, level, i);
    if depth[i] == level && Degree(g, i) >= p.cacheThreshold {
      assert (b + [i])[..|b|] == b;
    } else {
      assert b + [] == b;
    }
  }

  lemma SpentOne(g: Csr, p: Params, depth: seq<int>, level: nat, i: nat)
    requires ShapeOk(g) && |depth| == g.n && i < g.n
    ensures var next := NextDepth(GraphOf(g), depth, level);
      && Spent(g, p, next, level + 1, i + 1) - Spent(g, p, next, level + 1, i)
         == Spent(g, p, depth, level, i + 1) - Spent(g, p, depth, level, i)
            + BufferWeight(g, Buffer(g, p, depth, level, i + 1)) - BufferWeight(g, Buffer(g, p, depth, level, i))
  {
    BufferSnoc(g, p, depth, level, i);
  }

  /** Buffering a level spends exactly its hubs' degrees: each hub is buffered on one level only. */
  lemma {:induction false} SpentStep(g: Csr, p: Params, depth: seq<int>, level: nat, i: nat)
    requires ShapeOk(g) && |depth| == g.n && i <= g.n
    ensures Spent(g, p, NextDepth(GraphOf(g), depth, level), level + 1, i)
         == Spent(g, p, depth, level, i) + BufferWeight(g, Buffer(g, p, depth, level, i))
    decreases i
  {
    if i > 0 {
      SpentStep(g, p, depth, level, i - 1);
      SpentOne(g, p, depth, level, i - 1);
    }
  }

  lemma LevelHitsBound(g: Csr, p: Params, depth: seq<int>, level: nat, topDown: bool)
    requires Valid(g) && (topDown || HubsFed(g, p)) && |depth| == g.n
    ensures LevelHits(g, p, depth, level, topDown) <= BufferWeight(g, Buffer(g, p, depth, level, g.n))
  {
    var f, buffer := Frontier(depth, level, topDown), Buffer(g, p, depth, level, g.n);
    BufferIncreasing(g, p, depth, level, g.n);
    forall a, b | 0 <= a < b < |f| ensures f[a] < f[b] {
      SelectSorted(depth, if topDown then level else -1, g.n, a, b);
    }
    if topDown {
      TdHitsBound(g, f, buffer);
    } else {
      BufferFed(g, p, depth, level, g.n);
      BuHitsBound(g, depth, f, level, buffer);
    }
  }

  /** The first k turns are all top-down. */
  ghost predicate OnlyDown(g: Csr, p: Params, s: int, topDown: bool, k: nat)
    requires ShapeOk(g) && 0 <= s < g.n
  {
    forall j: nat :: j < k ==> ControlAt(g, p, s, topDown, j).topDown
  }

  lemma HitsStep(g: Csr, p: Params, s: int, topDown: bool, k: nat)
    requires Valid(g) && 0 <= s < g.n && (HubsFed(g, p) || ControlAt(g, p, s, topDown, k).topDown)
    ensures HitsAt(g, p, s, topDown, k + 1)
         <= HitsAt(g, p, s, topDown, k) + BufferWeight(g, Buffer(g, p, Depths(g, s, k), k, g.n))
  {
    LevelHitsBound(g, p, Depths(g, s, k), k, ControlAt(g, p, s, topDown, k).topDown);
  }

  ghost function SpentAt(g: Csr, p: Params, s: int, k: nat): nat
    requires ShapeOk(g) && 0 <= s < g.n
  {
    Spent(g, p, Depths(g, s, k), k, g.n)
  }

  lemma SpentAtStep(g: Csr, p: Params, s: int, k: nat)
    requires ShapeOk(g) && 0 <= s < g.n
    ensures SpentAt(g, p, s, k + 1)
         == SpentAt(g, p, s, k) + BufferWeight(g, Buffer(g, p, Depths(g, s, k), k, g.n))
  {
    var depth := Depths(g, s, k);
    SpentStep(g, p, depth, k, g.n);
    assert Depths(g, s, k + 1) == NextDepth(GraphOf(g), depth, k);
  }

  lemma HitsSpentStep(g: Csr, p: Params, s: int, topDown: bool, k: nat)
    requires Valid(g) && 0 <= s < g.n && (HubsFed(g, p) || ControlAt(g, p, s, topDown, k).topDown)
    ensures HitsAt(g, p, s, topDown, k + 1) - HitsAt(g, p, s, topDown, k)
         <= SpentAt(g, p, s, k + 1) - SpentAt(g, p, s, k)
  {
    HitsStep(g, p, s, topDown, k);
    SpentAtStep(g, p, s, k);
  }

  lemma {:induction false} HitsSpent(g: Csr, p: Params, s: int, topDown: bool, k: nat)
    requires Valid(g) && 0 <= s < g.n && (HubsFed(g, p) || OnlyDown(g, p, s, topDown, k))
    ensures HitsAt(g, p, s, topDown, k) <= SpentAt(g, p, s, k)
    decreases k
  {
    hide SpentAt, LevelHits, Depths, ControlAt, HubsFed;
    if k > 0 {
      HitsSpent(g, p, s, topDown, k - 1);
      HitsSpentStep(g, p, s, topDown, k - 1);
    }
  }

  /** MAIN: if no hub has more outgoing edges than incoming ones, the hub cache's hits, over any number of turns and
      under any switching policy, never exceed the reported potential saving. As long as all turns are top-down it is
      enough that the report counts every hub. */
  lemma HitsWithinPotential(g: Csr, p: Params, s: int, topDown: bool, k: nat)
    requires Valid(g) && 0 <= s < g.n
    requires HubsFed(g, p) || (HubsCounted(g, p) && OnlyDown(g, p, s, topDown, k))
    ensures HitsAt(g, p, s, topDown, k) <= Potential(g, p, g.n)
  {
    HitsSpent(g, p, s, topDown, k);
    SpentBound(g, p, Depths(g, s, k), k, g.n);
  }

  /** On undirected graphs the condition always holds. */
  lemma UndirectedWithinPotential(g: Csr, p: Params, s: int, topDown: bool, k: nat)
    requires Valid(g) && Undirected(g) && 0 <= s < g.n
    ensures HubsFed(g, p) && HitsAt(g, p, s, topDown, k) <= Potential(g, p, g.n)
  {
    assert forall v :: 0 <= v < g.n ==> Out(g, v) == In(g, v);
    HitsWithinPotential(g, p, s, topDown, k);
  }

  /** Two edges, 0 -> 0 and 0 -> 1. */
  const LOOP := Csr(2, [0, 2, 2], [0, 1], [0, 1, 2], [0, 0])

  lemma LoopLists()
    ensures ShapeOk(LOOP) && Out(LOOP, 0) == [0, 1] && Out(LOOP, 1) == [] && In(LOOP, 0) == [0] && In(LOOP, 1) == [0]
  {
    var g := LOOP;
    assert RowOk(g.rpao, g.ciao, 0) && RowOk(g.rpao, g.ciao, 1) && RowOk(g.rpai, g.ciai, 0) && RowOk(g.rpai, g.ciai, 1);
    assert ShapeOk(g);
  }

  lemma LoopValid()
    ensures Valid(LOOP)
  {
    LoopLists();
    assert Mult([], 0) == Mult([], 1) == 0;
    MultSnoc([], 0, 0);
    MultSnoc([], 0, 1);
    MultSnoc([0], 1, 0);
    MultSnoc([0], 1, 1);
    assert [] + [0] == [0] && [0] + [1] == [0, 1];
    forall u, v | 0 <= u < 2 && 0 <= v < 2 ensures Mult(Out(LOOP, u), v) == Mult(In(LOOP, v), u) {
      assert (u == 0 || u == 1) && (v == 0 || v == 1);
    }
  }

  /** Without the condition the report can be too low: vertex 0 has two outgoing edges, enough for a threshold of 2, and
      finds itself in the cache, but no vertex has two incoming ones. */
  lemma PotentialExceeded(down: int -> bool, up: int -> bool, hubThreshold: int)
    ensures Valid(LOOP)
    ensures var p := Params(down, up, hubThreshold, 2);
      && !HubsCounted(LOOP, p) && HitsAt(LOOP, p, 0, true, 1) == 1 && Potential(LOOP, p, LOOP.n) == 0
  {
    var g, p := LOOP, Params(down, up, hubThreshold, 2);
    LoopValid();
    LoopLists();
    var depth := Depths(g, 0, 0);
    assert depth == [0, -1];
    assert Select(depth, 0, 1) == [0] && Select(depth, 0, 2) == [0];
    assert Frontier(depth, 0, true) == [0];
    assert Buffer(g, p, depth, 0, 1) == [0] && Buffer(g, p, depth, 0, 2) == [0];
    LoopHits();
    assert Potential(g, p, 1) == 0;
  }

  lemma LoopHits()
    ensures ShapeOk(LOOP) && TdHits(LOOP, [0], [0]) == 1
  {
    LoopLists();
    assert [0, 1][..1] == [0] && [0][..0] == [];
    assert Hits([], [0]) == 0 && Hits([0], [0]) == 1 && Hits([0, 1], [0]) == 1;
    assert TdHits(LOOP, [], [0]) == 0;
  }

  /** MAIN: the plain and the cached hybrid search run in lockstep: as many levels, the same depths, the same
      writes, and exactly one byte and one burst read less per buffer hit. */
  method Lockstep(g: Csr, p: Params, s: int, down: bool)
    returns (level: nat, depth: array<int>, depth': array<int>, t: Traffic, t': Traffic)
    requires Valid(g) && 0 <= s < g.n
    ensures Stops(g, p, s, down, level) && depth[..] == depth'[..] == Depths(g, s, level)
    ensures t'.writeBytes == t.writeBytes && t'.writeBursts == t.writeBursts
    ensures t.readBytes - t'.readBytes == t.readBursts - t'.readBursts == HitsAt(g, p, s, down, level)
    ensures HubsFed(g, p) ==> t.readBytes - t'.readBytes <= Potential(g, p, g.n)
    ensures Undirected(g) ==> HubsFed(g, p)
  {
    hide Stops, Potential, Depths;
    var level': nat;
    depth, level, t := HybridBfs(g, p, s, down);
    depth', level', t' := CacheHybridBfs(g, p, s, down);
    StopsOnce(g, p, s, down, level, level');
    if HubsFed(g, p) {
      HitsWithinPotential(g, p, s, down, level);
    }
    if Undirected(g) {
      UndirectedWithinPotential(g, p, s, down, level);
    }
  }
}
