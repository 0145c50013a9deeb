/** Sums over vertices, for the closed forms of the traffic counters. */
module BfsWeights {
  import opened Csr
  import opened Distance
  import opened BfsSpec
  import opened BfsPasses

  /** A cost linear in a vertex's out-degree, or the burst reads of one top-down vertex. */
  datatype Weight = Linear(a: int, b: int) | Bursty

  function Cost(g: Csr, w: Weight, v: int): int
    requires ShapeOk(g) && 0 <= v < g.n
  {
    var degree := |Out(g, v)|;
    match w
    case Linear(a, b) => a + b * degree
    case Bursty => 1 + Burst(degree, 4) + degree
  }

  /** Total cost of the vertices of s below i. */
  function Sum(g: Csr, w: Weight, s: set<int>, i: nat): int
    requires ShapeOk(g) && i <= g.n
  {
    if i == 0 then 0 else Sum(g, w, s, i - 1) + if i - 1 in s then Cost(g, w, i - 1) else 0
  }

  lemma {:induction false} SumUnion(g: Csr, w: Weight, s: set<int>, t: set<int>, i: nat)
    requires ShapeOk(g) && i <= g.n && s !! t
    ensures Sum(g, w, s + t, i) == Sum(g, w, s, i) + Sum(g, w, t, i)
    decreases i
  {
    if i > 0 {
      SumUnion(g, w, s, t, i - 1);
    }
  }

  lemma {:induction false} SumOne(g: Csr, w: Weight, v: int, i: nat)
    requires ShapeOk(g) && i <= g.n && 0 <= v < g.n
    ensures Sum(g, w, {v}, i) == if v < i then Cost(g, w, v) else 0
    decreases i
  {
    if i > 0 {
      SumOne(g, w, v, i - 1);
    }
  }

  lemma {:induction false} SumNone(g: Csr, w: Weight, i: nat)
    requires ShapeOk(g) && i <= g.n
    ensures Sum(g, w, {}, i) == 0
    decreases i
  {
    if i > 0 {
      SumNone(g, w, i - 1);
    }
  }

  lemma {:induction false} SumLinear(g: Csr, a: int, b: int, s: set<int>, i: nat)
    requires ShapeOk(g) && i <= g.n
    ensures Sum(g, Linear(a, b), s, i) == a * Sum(g, Linear(1, 0), s, i) + b * Sum(g, Linear(0, 1), s, i)
    decreases i
  {
    if i > 0 {
      SumLinear(g, a, b, s, i - 1);
      if i - 1 in s {
        var degree := |Out(g, i - 1)|;
        var x, y := Sum(g, Linear(1, 0), s, i - 1), Sum(g, Linear(0, 1), s, i - 1);
        assert a * (x + 1) == a * x + a && b * (y + degree) == b * y + b * degree;
      }
    }
  }

  ghost function Elements(f: seq<int>): set<int> {
    set v | v in f
  }

  function ListSum(g: Csr, w: Weight, f: seq<int>): int
    requires ShapeOk(g) && forall i :: 0 <= i < |f| ==> 0 <= f[i] < g.n
    decreases |f|
  {
    if |f| == 0 then 0 else ListSum(g, w, f[..|f| - 1]) + Cost(g, w, f[|f| - 1])
  }

  /** The order of a list of distinct vertices does not matter. */
  lemma {:induction false} ListIsSum(g: Csr, w: Weight, f: seq<int>)
    requires ShapeOk(g) && forall i :: 0 <= i < |f| ==> 0 <= f[i] < g.n
    requires forall i, j :: 0 <= i < j < |f| ==> f[i] != f[j]
    ensures ListSum(g, w, f) == Sum(g, w, Elements(f), g.n)
    decreases |f|
  {
    if |f| == 0 {
      assert Elements(f) == {};
      SumNone(g, w, g.n);
    } else {
      var init, v := f[..|f| - 1], f[|f| - 1];
      ListIsSum(g, w, init);
      assert f == init + [v];
      assert Elements(f) == Elements(init) + {v};
      SumUnion(g, w, Elements(init), {v}, g.n);
      SumOne(g, w, v, g.n);
    }
  }

  lemma {:induction false} ListLength(g: Csr, f: seq<int>)
    requires ShapeOk(g) && forall i :: 0 <= i < |f| ==> 0 <= f[i] < g.n
    ensures ListSum(g, Linear(1, 0), f) == |f|
    decreases |f|
  {
    if |f| > 0 {
      ListLength(g, f[..|f| - 1]);
    }
  }

  /** What a top-down pass reads depends on its vertices only. */
  lemma {:induction false} TdReads(g: Csr, depth: seq<int>, f: seq<int>, level: int)
    requires DepthOk(g, depth, f)
    ensures TdTraffic(g, depth, f, level).readBytes == ListSum(g, Linear(8, 5), f)
    ensures TdTraffic(g, depth, f, level).readBursts == ListSum(g, Bursty, f)
    decreases |f|
  {
    if |f| > 0 {
      TdReads(g, depth, f[..|f| - 1], level);
    }
  }

  ghost function LevelSet(depth: seq<int>, k: int): set<int> {
    set v | 0 <= v < |depth| && depth[v] == k
  }

  /** Vertices finished before level k, and vertices reached. */
  ghost function Done(depth: seq<int>, k: int): set<int> {
    set v | 0 <= v < |depth| && 0 <= depth[v] < k
  }

  ghost function Reached(depth: seq<int>): set<int> {
    set v | 0 <= v < |depth| && depth[v] != -1
  }

  ghost function Differ(a: seq<int>, b: seq<int>): set<int>
    requires |a| == |b|
  {
    set v | 0 <= v < |a| && a[v] != b[v]
  }

  ghost function Count(g: Csr, s: set<int>): int
    requires ShapeOk(g)
  {
    Sum(g, Linear(1, 0), s, g.n)
  }

  ghost function Below(s: set<int>, i: nat): set<int> {
    set v | v in s && 0 <= v < i
  }

  lemma BelowStep(s: set<int>, i: nat)
    requires i > 0
    ensures |Below(s, i)| == |Below(s, i - 1)| + if i - 1 in s then 1 else 0
  {
    assert Below(s, i) == if i - 1 in s then Below(s, i - 1) + {i - 1} else Below(s, i - 1);
  }

  lemma {:induction false} SumSize(g: Csr, s: set<int>, i: nat)
    requires ShapeOk(g) && i <= g.n
    ensures Sum(g, Linear(1, 0), s, i) == |Below(s, i)|
    decreases i
  {
    if i == 0 {
      assert Below(s, 0) == {};
    } else {
      hide Below;
      SumSize(g, s, i - 1);
      BelowStep(s, i);
    }
  }

  /** Counting vertices. */
  lemma CountSize(g: Csr, s: set<int>)
    requires ShapeOk(g) && forall v :: v in s ==> 0 <= v < g.n
    ensures Count(g, s) == |s|
  {
    SumSize(g, s, g.n);
    assert s == Below(s, g.n);
  }

  ghost function EdgesOf(g: Csr, s: set<int>): int
    requires ShapeOk(g)
  {
    Sum(g, Linear(0, 1), s, g.n)
  }

  lemma LevelList(g: Csr, w: Weight, f: seq<int>, depth: seq<int>, k: int)
    requires ShapeOk(g) && |depth| == g.n && Lists(f, depth, k)
    ensures ListSum(g, w, f) == Sum(g, w, LevelSet(depth, k), g.n)
  {
    ListIsSum(g, w, f);
    assert Elements(f) == LevelSet(depth, k);
  }

  /** A level step finishes exactly its level, and reaches exactly the vertices it changes. */
  lemma DoneStep(g: Csr, w: Weight, depth: seq<int>, k: nat)
    requires ShapeOk(g) && |depth| == g.n
    ensures var next := NextDepth(GraphOf(g), depth, k);
      Sum(g, w, Done(next, k + 1), g.n) == Sum(g, w, Done(depth, k), g.n) + Sum(g, w, LevelSet(depth, k), g.n)
  {
    var next := NextDepth(GraphOf(g), depth, k);
    assert Done(next, k + 1) == Done(depth, k) + LevelSet(depth, k);
    SumUnion(g, w, Done(depth, k), LevelSet(depth, k), g.n);
  }

  lemma {:induction false} ChangedSum(g: Csr, a: seq<int>, b: seq<int>, i: nat)
    requires ShapeOk(g) && |a| == |b| == g.n && i <= g.n
    ensures Changed(a, b, i) == Sum(g, Linear(1, 0), Differ(a, b), i)
    decreases i
  {
    if i > 0 {
      ChangedSum(g, a, b, i - 1);
    }
  }

  lemma ReachedStep(g: Csr, depth: seq<int>, k: nat)
    requires ShapeOk(g) && |depth| == g.n
    ensures var next := NextDepth(GraphOf(g), depth, k);
      Count(g, Reached(next)) == Count(g, Reached(depth)) + Changed(depth, next, g.n)
  {
    var next := NextDepth(GraphOf(g), depth, k);
    var fresh' := Differ(depth, next);
    assert Reached(next) == Reached(depth) + fresh';
    SumUnion(g, Linear(1, 0), Reached(depth), fresh', g.n);
    ChangedSum(g, depth, next, g.n);
  }

  lemma StartSums(g: Csr, w: Weight, s: int)
    requires ShapeOk(g) && 0 <= s < g.n
    ensures var depth := StartDepth(GraphOf(g), s);
      Sum(g, w, Done(depth, 0), g.n) == 0 && Count(g, Reached(depth)) == 1
  {
    var depth := StartDepth(GraphOf(g), s);
    assert Done(depth, 0) == {} && Reached(depth) == {s};
    SumNone(g, w, g.n);
    SumOne(g, Linear(1, 0), s, g.n);
  }
}
