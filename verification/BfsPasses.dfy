/** The two ways the BFS variants process a level, top-down over outgoing edges and bottom-up over incoming
    ones: what they do to the depths and what memory traffic they count. Both perform the same level step. */
module BfsPasses {
  import opened Csr
  import opened Distance
  import opened BfsSpec

  datatype Traffic = Traffic(readBytes: int, writeBytes: int, readBursts: int, writeBursts: int)

  const NONE := Traffic(0, 0, 0, 0)

  function Plus(a: Traffic, b: Traffic): Traffic {
    Traffic(a.readBytes + b.readBytes, a.writeBytes + b.writeBytes,
            a.readBursts + b.readBursts, a.writeBursts + b.writeBursts)
  }

  /** Traffic c is t with one byte read and one burst read saved per hit; writes are the same. */
  ghost predicate Saves(c: Traffic, t: Traffic, hits: int) {
    && c.readBytes == t.readBytes - hits && c.readBursts == t.readBursts - hits
    && c.writeBytes == t.writeBytes && c.writeBursts == t.writeBursts
  }

  lemma PlusSaves(a: Traffic, b: Traffic, c: Traffic, d: Traffic, x: int, y: int)
    requires Saves(a, b, x) && Saves(c, d, y)
    ensures Saves(Plus(a, c), Plus(b, d), x + y)
  {
  }

  /** Bursts of 64 bytes needed for `length` bytes. */
  function Bursts(length: int): nat
    decreases length
  {
    if length <= 0 then 0 else 1 + Bursts(length - 64)
  }

  function Burst(num: nat, size: nat): nat {
    Bursts(num * size)
  }

  lemma {:induction false} BurstsCover(length: int)
    requires length >= 0
    ensures 64 * Bursts(length) >= length > 64 * (Bursts(length) - 1)
    decreases length
  {
    if length > 64 {
      BurstsCover(length - 64);
    }
  }

  /** `getBurstNum`. */
  method GetBurstNum(num: nat, size: nat) returns (b: nat)
    ensures b == Burst(num, size)
    ensures 64 * b >= num * size > 64 * (b - 1)
  {
    var length := num * size;
    BurstsCover(length);
    if length % 64 == 0 {
      b := length / 64;
    } else {
      b := length / 64 + 1;
    }
  }

  ghost predicate DepthOk(g: Csr, depth: seq<int>, f: seq<int>) {
    ShapeOk(g) && |depth| == g.n && forall i :: 0 <= i < |f| ==> 0 <= f[i] < g.n
  }

  /** Give every unvisited target the next depth, in order. */
  function Mark(depth: seq<int>, targets: seq<int>, level: int): (r: seq<int>)
    requires forall i :: 0 <= i < |targets| ==> 0 <= targets[i] < |depth|
    ensures |r| == |depth|
    decreases |targets|
  {
    if |targets| == 0 then depth
    else
      var d := Mark(depth, targets[..|targets| - 1], level);
      var x := targets[|targets| - 1];
      if d[x] == -1 then d[x := level + 1] else d
  }

  function TdDepth(g: Csr, depth: seq<int>, f: seq<int>, level: int): (r: seq<int>)
    requires DepthOk(g, depth, f)
    ensures |r| == |depth|
    decreases |f|
  {
    if |f| == 0 then depth
    else Mark(TdDepth(g, depth, f[..|f| - 1], level), Out(g, f[|f| - 1]), level)
  }

  /** Traffic of one vertex with `degree` edges of which `scanned` were followed and `marked` led to a write. */
  function VertexTraffic(degree: nat, scanned: nat, marked: nat): Traffic {
    Traffic(8 + 5 * scanned, marked, 1 + Burst(degree, 4) + scanned, marked)
  }

  /** The same when `hits` of the followed edges were answered by the hub cache. */
  function CachedTraffic(degree: nat, scanned: nat, marked: nat, hits: nat): Traffic {
    Traffic(8 + 4 * scanned + (scanned - hits), marked, 1 + Burst(degree, 4) + (scanned - hits), marked)
  }

  lemma CachedTrafficSaves(degree: nat, scanned: nat, marked: nat, hits: nat)
    ensures Saves(CachedTraffic(degree, scanned, marked, hits), VertexTraffic(degree, scanned, marked), hits)
  {
  }

  function TdTraffic(g: Csr, depth: seq<int>, f: seq<int>, level: int): Traffic
    requires DepthOk(g, depth, f)
    decreases |f|
  {
    if |f| == 0 then NONE
    else
      var d := TdDepth(g, depth, f[..|f| - 1], level);
      var targets := Out(g, f[|f| - 1]);
      Plus(TdTraffic(g, depth, f[..|f| - 1], level),
           VertexTraffic(|targets|, |targets|, Changed(d, Mark(d, targets, level), |d|)))
  }

  /** How many elements of s are in the buffer. */
  function Hits(s: seq<int>, buffer: seq<int>): (h: nat)
    ensures h <= |s|
  {
    if |s| == 0 then 0 else Hits(s[..|s| - 1], buffer) + if s[|s| - 1] in buffer then 1 else 0
  }

  function TdHits(g: Csr, f: seq<int>, buffer: seq<int>): nat
    requires ShapeOk(g) && forall i :: 0 <= i < |f| ==> 0 <= f[i] < g.n
    decreases |f|
  {
    if |f| == 0 then 0 else TdHits(g, f[..|f| - 1], buffer) + Hits(Out(g, f[|f| - 1]), buffer)
  }

  /** Position of the first source on the current level, or |sources|. */
  function FirstAt(depth: seq<int>, level: int, sources: seq<int>): (j: nat)
    requires forall i :: 0 <= i < |sources| ==> 0 <= sources[i] < |depth|
    ensures j <= |sources|
    ensures j < |sources| ==> depth[sources[j]] == level
    ensures forall i :: 0 <= i < j ==> depth[sources[i]] != level
  {
    if |sources| == 0 || depth[sources[0]] == level then 0 else 1 + FirstAt(depth, level, sources[1..])
  }

  /** One vertex bottom-up: its depth, its traffic, and whether the hub cache answers the decisive look-up. */
  function BuMark(g: Csr, depth: seq<int>, v: int, level: int): (r: seq<int>)
    requires ShapeOk(g) && |depth| == g.n && 0 <= v < g.n
    ensures |r| == |depth|
  {
    if FirstAt(depth, level, In(g, v)) < |In(g, v)| then depth[v := level + 1] else depth
  }

  function BuVertex(g: Csr, depth: seq<int>, v: int, level: int): Traffic
    requires ShapeOk(g) && |depth| == g.n && 0 <= v < g.n
  {
    var degree := |In(g, v)|;
    var j := FirstAt(depth, level, In(g, v));
    VertexTraffic(degree, if j < degree then j + 1 else j, if j < degree then 1 else 0)
  }

  function BuHit(g: Csr, depth: seq<int>, v: int, level: int, buffer: seq<int>): nat
    requires ShapeOk(g) && |depth| == g.n && 0 <= v < g.n
  {
    var j := FirstAt(depth, level, In(g, v));
    if j < |In(g, v)| && In(g, v)[j] in buffer then 1 else 0
  }

  function BuDepth(g: Csr, depth: seq<int>, f: seq<int>, level: int): (r: seq<int>)
    requires DepthOk(g, depth, f)
    ensures |r| == |depth|
    decreases |f|
  {
    if |f| == 0 then depth else BuMark(g, BuDepth(g, depth, f[..|f| - 1], level), f[|f| - 1], level)
  }

  function BuTraffic(g: Csr, depth: seq<int>, f: seq<int>, level: int): Traffic
    requires DepthOk(g, depth, f)
    decreases |f|
  {
    if |f| == 0 then NONE
    else Plus(BuTraffic(g, depth, f[..|f| - 1], level),
              BuVertex(g, BuDepth(g, depth, f[..|f| - 1], level), f[|f| - 1], level))
  }

  function BuHits(g: Csr, depth: seq<int>, f: seq<int>, level: int, buffer: seq<int>): nat
    requires DepthOk(g, depth, f)
    decreases |f|
  {
    if |f| == 0 then 0
    else BuHits(g, depth, f[..|f| - 1], level, buffer) + BuHit(g, depth, f[|f| - 1], level, buffer)
  }

  /** The passes unfolded at their last vertex, for the loops that compute them. */
  lemma TdSnoc(g: Csr, depth: seq<int>, f: seq<int>, level: int, i: nat)
    requires DepthOk(g, depth, f) && i < |f|
    ensures var d := TdDepth(g, depth, f[..i], level);
      var targets := Out(g, f[i]);
      && TdDepth(g, depth, f[..i + 1], level) == Mark(d, targets, level)
      && TdTraffic(g, depth, f[..i + 1], level)
         == Plus(TdTraffic(g, depth, f[..i], level),
                 VertexTraffic(|targets|, |targets|, Changed(d, Mark(d, targets, level), |d|)))
  {
    assert f[..i + 1][..i] == f[..i];
  }

  /** A pass that asks the hub cache first. */
  function CachedTd(g: Csr, depth: seq<int>, f: seq<int>, level: int, buffer: seq<int>): Traffic
    requires DepthOk(g, depth, f)
    decreases |f|
  {
    if |f| == 0 then NONE
    else Plus(CachedTd(g, depth, f[..|f| - 1], level, buffer),
              CachedTdVertex(g, TdDepth(g, depth, f[..|f| - 1], level), f[|f| - 1], level, buffer))
  }

  function CachedTdVertex(g: Csr, depth: seq<int>, v: int, level: int, buffer: seq<int>): Traffic
    requires ShapeOk(g) && |depth| == g.n && 0 <= v < g.n
  {
    var targets := Out(g, v);
    CachedTraffic(|targets|, |targets|, Changed(depth, Mark(depth, targets, level), |depth|), Hits(targets, buffer))
  }

  function CachedBu(g: Csr, depth: seq<int>, f: seq<int>, level: int, buffer: seq<int>): Traffic
    requires DepthOk(g, depth, f)
    decreases |f|
  {
    if |f| == 0 then NONE
    else Plus(CachedBu(g, depth, f[..|f| - 1], level, buffer),
              CachedBuVertex(g, BuDepth(g, depth, f[..|f| - 1], level), f[|f| - 1], level, buffer))
  }

  function CachedBuVertex(g: Csr, depth: seq<int>, v: int, level: int, buffer: seq<int>): Traffic
    requires ShapeOk(g) && |depth| == g.n && 0 <= v < g.n
  {
    var degree := |In(g, v)|;
    var j := FirstAt(depth, level, In(g, v));
    CachedTraffic(degree, if j < degree then j + 1 else j, if j < degree then 1 else 0,
                  BuHit(g, depth, v, level, buffer))
  }

  /** A cached pass costs the plain pass's traffic less one byte and one burst read per buffer hit. */
  lemma {:induction false} CachedTdSaves(g: Csr, depth: seq<int>, f: seq<int>, level: int, buffer: seq<int>)
    requires DepthOk(g, depth, f)
    ensures Saves(CachedTd(g, depth, f, level, buffer), TdTraffic(g, depth, f, level), TdHits(g, f, buffer))
    decreases |f|
  {
    if |f| > 0 {
      var init, targets := f[..|f| - 1], Out(g, f[|f| - 1]);
      var d := TdDepth(g, depth, init, level);
      CachedTdSaves(g, depth, init, level, buffer);
      CachedTrafficSaves(|targets|, |targets|, Changed(d, Mark(d, targets, level), |d|), Hits(targets, buffer));
    }
  }

  lemma {:induction false} CachedBuSaves(g: Csr, depth: seq<int>, f: seq<int>, level: int, buffer: seq<int>)
    requires DepthOk(g, depth, f) && level >= 0
    requires forall j :: 0 <= j < |f| ==> depth[f[j]] == -1
    ensures Saves(CachedBu(g, depth, f, level, buffer), BuTraffic(g, depth, f, level),
                  BuHits(g, depth, f, level, buffer))
    decreases |f|
  {
    if |f| > 0 {
      var init, v := f[..|f| - 1], f[|f| - 1];
      CachedBuSaves(g, depth, init, level, buffer);
      BuView(g, depth, init, level);
      FirstSame(depth, BuDepth(g, depth, init, level), level, In(g, v));
      var degree, j := |In(g, v)|, FirstAt(depth, level, In(g, v));
      CachedTrafficSaves(degree, if j < degree then j + 1 else j, if j < degree then 1 else 0,
                         BuHit(g, depth, v, level, buffer));
    }
  }

  lemma CachedTdSnoc(g: Csr, depth: seq<int>, f: seq<int>, level: int, buffer: seq<int>, i: nat)
    requires DepthOk(g, depth, f) && i < |f|
    ensures var d := TdDepth(g, depth, f[..i], level);
      && TdDepth(g, depth, f[..i + 1], level) == Mark(d, Out(g, f[i]), level)
      && CachedTd(g, depth, f[..i + 1], level, buffer)
         == Plus(CachedTd(g, depth, f[..i], level, buffer), CachedTdVertex(g, d, f[i], level, buffer))
  {
    assert f[..i + 1][..i] == f[..i];
  }

  lemma CachedBuSnoc(g: Csr, depth: seq<int>, f: seq<int>, level: int, buffer: seq<int>, i: nat)
    requires DepthOk(g, depth, f) && i < |f|
    ensures var d := BuDepth(g, depth, f[..i], level);
      && BuDepth(g, depth, f[..i + 1], level) == BuMark(g, d, f[i], level)
      && CachedBu(g, depth, f[..i + 1], level, buffer)
         == Plus(CachedBu(g, depth, f[..i], level, buffer), CachedBuVertex(g, d, f[i], level, buffer))
  {
    assert f[..i + 1][..i] == f[..i];
  }

  lemma BuSnoc(g: Csr, depth: seq<int>, f: seq<int>, level: int, i: nat)
    requires DepthOk(g, depth, f) && i < |f|
    ensures var d := BuDepth(g, depth, f[..i], level);
      && BuDepth(g, depth, f[..i + 1], level) == BuMark(g, d, f[i], level)
      && BuTraffic(g, depth, f[..i + 1], level)
         == Plus(BuTraffic(g, depth, f[..i], level), BuVertex(g, d, f[i], level))
  {
    assert f[..i + 1][..i] == f[..i];
  }

  lemma {:induction false} MarkView(depth: seq<int>, targets: seq<int>, level: int)
    requires forall i :: 0 <= i < |targets| ==> 0 <= targets[i] < |depth|
    ensures forall v :: 0 <= v < |depth| ==>
      Mark(depth, targets, level)[v] == if depth[v] == -1 && v in targets then level + 1 else depth[v]
    decreases |targets|
  {
    if |targets| > 0 {
      var init := targets[..|targets| - 1];
      MarkView(depth, init, level);
      assert targets == init + [targets[|targets| - 1]];
    }
  }

  /** Some frontier vertex has an edge to v. */
  ghost predicate Hit(g: Csr, f: seq<int>, v: int)
    requires ShapeOk(g) && forall i :: 0 <= i < |f| ==> 0 <= f[i] < g.n
  {
    exists i :: 0 <= i < |f| && v in Out(g, f[i])
  }

  lemma HitSnoc(g: Csr, f: seq<int>, v: int)
    requires ShapeOk(g) && (forall i :: 0 <= i < |f| ==> 0 <= f[i] < g.n) && |f| > 0
    ensures Hit(g, f, v) <==> Hit(g, f[..|f| - 1], v) || v in Out(g, f[|f| - 1])
  {
    var init := f[..|f| - 1];
    if Hit(g, init, v) {
      var i :| 0 <= i < |init| && v in Out(g, init[i]);
      assert v in Out(g, f[i]);
    }
    if Hit(g, f, v) {
      var i :| 0 <= i < |f| && v in Out(g, f[i]);
      assert i < |init| ==> v in Out(g, init[i]);
    }
  }

  lemma {:induction false} TdView(g: Csr, depth: seq<int>, f: seq<int>, level: int, v: int)
    requires DepthOk(g, depth, f) && level >= 0 && 0 <= v < g.n
    ensures TdDepth(g, depth, f, level)[v] == if depth[v] == -1 && Hit(g, f, v) then level + 1 else depth[v]
    decreases |f|
  {
    if |f| > 0 {
      TdView(g, depth, f[..|f| - 1], level, v);
      MarkView(TdDepth(g, depth, f[..|f| - 1], level), Out(g, f[|f| - 1]), level);
      HitSnoc(g, f, v);
    }
  }

  /** The list f names exactly the vertices of depth x, each once, in any order. */
  ghost predicate Lists(f: seq<int>, depth: seq<int>, x: int) {
    && (forall i, j :: 0 <= i < j < |f| ==> f[i] != f[j])
    && (forall i :: 0 <= i < |f| ==> 0 <= f[i] < |depth| && depth[f[i]] == x)
    && forall v :: 0 <= v < |depth| && depth[v] == x ==> v in f
  }

  lemma SelectLists(depth: seq<int>, x: int)
    ensures Lists(Select(depth, x, |depth|), depth, x)
  {
    var f := Select(depth, x, |depth|);
    forall i, j | 0 <= i < j < |f| ensures f[i] != f[j] {
      SelectSorted(depth, x, |depth|, i, j);
    }
    forall v | 0 <= v < |depth| && depth[v] == x ensures v in f {
      SelectAll(depth, x, |depth|, v);
    }
  }

  /** The top-down pass over the vertices of a level, in any order, is the level step. */
  lemma ListIsNext(g: Csr, depth: seq<int>, f: seq<int>, level: int)
    requires ShapeOk(g) && |depth| == g.n && level >= 0 && Lists(f, depth, level)
    ensures TdDepth(g, depth, f, level) == NextDepth(GraphOf(g), depth, level)
  {
    var d := GraphOf(g);
    forall v | 0 <= v < g.n ensures TdDepth(g, depth, f, level)[v] == NextDepth(d, depth, level)[v] {
      TdView(g, depth, f, level, v);
      if Hit(g, f, v) {
        var i :| 0 <= i < |f| && v in Out(g, f[i]);
        ArcOut(g, f[i], v);
      }
      if HasParent(d, depth, level, v) {
        var u :| 0 <= u < d.n && depth[u] == level && Arc(d, u, v);
        ArcOut(g, u, v);
        var i :| 0 <= i < |f| && f[i] == u;
      }
    }
  }

  /** In particular over the scan of the depth array. */
  lemma TdIsNext(g: Csr, depth: seq<int>, level: int)
    requires ShapeOk(g) && |depth| == g.n && level >= 0
    ensures TdDepth(g, depth, Select(depth, level, g.n), level) == NextDepth(GraphOf(g), depth, level)
  {
    SelectLists(depth, level);
    ListIsNext(g, depth, Select(depth, level, g.n), level);
  }

  lemma InOut(g: Csr, u: int, v: int)
    requires Valid(g) && 0 <= u < g.n && 0 <= v < g.n
    ensures u in In(g, v) <==> v in Out(g, u)
  {
    MultIn(In(g, v), u);
    MultIn(Out(g, u), v);
  }

  /** Depths that a bottom-up pass may have produced so far put the same vertices on the current level. */
  ghost predicate SameLevel(a: seq<int>, b: seq<int>, level: int) {
    |a| == |b| && forall x :: 0 <= x < |a| ==> (a[x] == level <==> b[x] == level)
  }

  lemma FirstSame(a: seq<int>, b: seq<int>, level: int, sources: seq<int>)
    requires SameLevel(a, b, level) && forall i :: 0 <= i < |sources| ==> 0 <= sources[i] < |a|
    ensures FirstAt(a, level, sources) == FirstAt(b, level, sources)
  {
  }

  lemma BuMarkView(g: Csr, depth: seq<int>, d: seq<int>, v: int, level: int)
    requires ShapeOk(g) && |depth| == g.n && 0 <= v < g.n && level >= 0 && depth[v] == -1
    requires SameLevel(depth, d, level)
    ensures var found := FirstAt(depth, level, In(g, v)) < |In(g, v)|;
      var r := BuMark(g, d, v, level);
      && SameLevel(depth, r, level)
      && r == if found then d[v := level + 1] else d
  {
    FirstSame(depth, d, level, In(g, v));
  }

  lemma {:induction false} BuView(g: Csr, depth: seq<int>, f: seq<int>, level: int)
    requires DepthOk(g, depth, f) && level >= 0
    requires forall i :: 0 <= i < |f| ==> depth[f[i]] == -1
    ensures var r := BuDepth(g, depth, f, level);
      && SameLevel(depth, r, level)
      && forall v :: 0 <= v < g.n ==>
           r[v] == if v in f && FirstAt(depth, level, In(g, v)) < |In(g, v)| then level + 1 else depth[v]
    decreases |f|
  {
    hide FirstAt, BuMark;
    if |f| > 0 {
      var init, last := f[..|f| - 1], f[|f| - 1];
      BuView(g, depth, init, level);
      var d := BuDepth(g, depth, init, level);
      BuMarkView(g, depth, d, last, level);
      assert f == init + [last];
      assert forall v :: v in f <==> v in init || v == last;
    }
  }

  lemma ParentInSources(g: Csr, depth: seq<int>, level: int, v: int)
    requires Valid(g) && |depth| == g.n && 0 <= v < g.n
    ensures FirstAt(depth, level, In(g, v)) < |In(g, v)| <==> HasParent(GraphOf(g), depth, level, v)
  {
    var s := In(g, v);
    var j := FirstAt(depth, level, s);
    if j < |s| {
      InOut(g, s[j], v);
      ArcOut(g, s[j], v);
    }
    if HasParent(GraphOf(g), depth, level, v) {
      var u :| 0 <= u < g.n && depth[u] == level && Arc(GraphOf(g), u, v);
      ArcOut(g, u, v);
      InOut(g, u, v);
    }
  }

  /** The bottom-up pass over the unvisited vertices is the same level step. */
  lemma BuIsNext(g: Csr, depth: seq<int>, level: int)
    requires Valid(g) && |depth| == g.n && level >= 0
    ensures BuDepth(g, depth, Select(depth, -1, g.n), level) == NextDepth(GraphOf(g), depth, level)
  {
    var f := Select(depth, -1, g.n);
    BuView(g, depth, f, level);
    forall v | 0 <= v < g.n ensures BuDepth(g, depth, f, level)[v] == NextDepth(GraphOf(g), depth, level)[v] {
      ParentInSources(g, depth, level, v);
      if depth[v] == -1 {
        SelectAll(depth, -1, g.n, v);
      }
    }
  }

  lemma {:induction false} ChangedSplit(a: seq<int>, b: seq<int>, c: seq<int>, i: nat)
    requires i <= |a| == |b| == |c|
    requires forall v :: 0 <= v < |a| ==> a[v] == b[v] || (b[v] == c[v] && a[v] != c[v])
    ensures Changed(a, c, i) == Changed(a, b, i) + Changed(b, c, i)
    decreases i
  {
    if i > 0 {
      ChangedSplit(a, b, c, i - 1);
    }
  }

  /** The top-down pass writes once per newly visited vertex, and reads by degree. */
  lemma {:induction false} TdWrites(g: Csr, depth: seq<int>, f: seq<int>, level: int)
    requires DepthOk(g, depth, f) && level >= 0
    ensures var t := TdTraffic(g, depth, f, level);
      t.writeBytes == t.writeBursts == Changed(depth, TdDepth(g, depth, f, level), |depth|)
    decreases |f|
  {
    ChangedZero(depth, depth, |depth|);
    if |f| > 0 {
      var init := f[..|f| - 1];
      TdWrites(g, depth, init, level);
      var d := TdDepth(g, depth, init, level);
      forall v | 0 <= v < g.n
        ensures var now := TdDepth(g, depth, f, level)[v]; depth[v] == d[v] || (d[v] == now && depth[v] != now)
      {
        TdView(g, depth, init, level, v);
        TdView(g, depth, f, level, v);
        HitSnoc(g, f, v);
      }
      ChangedSplit(depth, d, TdDepth(g, depth, f, level), |depth|);
    }
  }

  /** The bottom-up pass writes once per newly visited vertex. */
  lemma {:induction false} BuWrites(g: Csr, depth: seq<int>, f: seq<int>, level: int)
    requires DepthOk(g, depth, f) && level >= 0
    requires forall i :: 0 <= i < |f| ==> depth[f[i]] == -1
    requires forall i, j :: 0 <= i < j < |f| ==> f[i] < f[j]
    ensures var t := BuTraffic(g, depth, f, level);
      t.writeBytes == t.writeBursts == Changed(depth, BuDepth(g, depth, f, level), |depth|)
    decreases |f|
  {
    ChangedZero(depth, depth, |depth|);
    if |f| > 0 {
      var init, v := f[..|f| - 1], f[|f| - 1];
      BuWrites(g, depth, init, level);
      BuView(g, depth, init, level);
      var d := BuDepth(g, depth, init, level);
      assert v !in init;
      ChangedUpdate(depth, d, v, level + 1, |depth|);
    }
  }
}
