/** The turns of the level loop as the graph's distances determine them: in which direction each goes, when the loop
    ends, and what a run reads. */
module BfsTurns {
  import opened BfsPasses
  import opened BfsRun
  import opened BfsSpec
  import opened BfsWeights
  import opened Csr
  import opened Distance

  /** The vertices at distance k from s. */
  ghost function AtDistance(g: Csr, s: int, k: nat): set<int>
    requires ShapeOk(g)
  {
    set v | 0 <= v < g.n && Within(GraphOf(g), s, v, k) && (k > 0 ==> !Within(GraphOf(g), s, v, k - 1))
  }

  /** Those of them that have enough outgoing edges. */
  ghost function Large(g: Csr, s: int, k: nat, threshold: int): set<int>
    requires ShapeOk(g)
  {
    set v | 0 <= v < g.n && v in AtDistance(g, s, k) && |Out(g, v)| >= threshold
  }

  /** The direction of turn k, the first one being given: a top-down turn is followed by a bottom-up one when `down`
      holds of the number of hubs on its level, a bottom-up one by a top-down one when `up` holds of the number of
      vertices it found. */
  ghost predicate GoesDown(g: Csr, p: Params, s: int, first: bool, k: nat)
    requires ShapeOk(g)
  {
    if k == 0 then first
    else if GoesDown(g, p, s, first, k - 1) then !p.down(|Large(g, s, k - 1, p.hubThreshold)|)
    else p.up(|AtDistance(g, s, k)|)
  }

  /** Turn k ends the loop: it goes top-down from no vertex, or bottom-up and finds none. */
  ghost predicate Last(g: Csr, p: Params, s: int, first: bool, k: nat)
    requires ShapeOk(g)
  {
    if GoesDown(g, p, s, first, k) then AtDistance(g, s, k) == {} else AtDistance(g, s, k + 1) == {}
  }

  /** The loop takes n turns. */
  ghost predicate Takes(g: Csr, p: Params, s: int, first: bool, n: nat)
    requires ShapeOk(g)
  {
    n > 0 && Last(g, p, s, first, n - 1) && forall k: nat :: k < n - 1 ==> !Last(g, p, s, first, k)
  }

  lemma OnLevel(g: Csr, s: int, k: nat, v: int)
    requires ShapeOk(g) && 0 <= s < g.n && 0 <= v < g.n
    ensures Depths(g, s, k)[v] == k <==> v in AtDistance(g, s, k)
    ensures Depths(g, s, k)[v] == -1 <==> !Within(GraphOf(g), s, v, k)
  {
    DepthExact(GraphOf(g), s, k);
    assert DistAt(GraphOf(g), s, Depths(g, s, k)[v], v, k);
    if Within(GraphOf(g), s, v, k) && Depths(g, s, k)[v] < k {
      WithinMonotone(GraphOf(g), s, v, Depths(g, s, k)[v], k - 1);
    }
  }

  lemma LevelIs(g: Csr, s: int, k: nat)
    requires ShapeOk(g) && 0 <= s < g.n
    ensures LevelSet(Depths(g, s, k), k) == AtDistance(g, s, k)
  {
    forall v | 0 <= v < g.n ensures Depths(g, s, k)[v] == k <==> v in AtDistance(g, s, k) {
      OnLevel(g, s, k, v);
    }
  }

  lemma {:induction false} HubsBelow(g: Csr, p: Params, s: int, k: nat, i: nat)
    requires ShapeOk(g) && 0 <= s < g.n && i <= g.n
    ensures Hubs(g, p, Depths(g, s, k), k, i) == |Below(Large(g, s, k, p.hubThreshold), i)|
    decreases i
  {
    hide Depths, AtDistance;
    if i == 0 {
      assert Below(Large(g, s, k, p.hubThreshold), 0) == {};
    } else {
      hide Below;
      HubsBelow(g, p, s, k, i - 1);
      OnLevel(g, s, k, i - 1);
      BelowStep(Large(g, s, k, p.hubThreshold), i);
    }
  }

  /** The hub count is the number of hubs at the level's distance. */
  lemma HubsCount(g: Csr, p: Params, s: int, k: nat)
    requires ShapeOk(g) && 0 <= s < g.n
    ensures Hubs(g, p, Depths(g, s, k), k, g.n) == |Large(g, s, k, p.hubThreshold)|
  {
    HubsBelow(g, p, s, k, g.n);
    assert Below(Large(g, s, k, p.hubThreshold), g.n) == Large(g, s, k, p.hubThreshold);
  }

  lemma {:induction false} BufferIn(g: Csr, p: Params, depth: seq<int>, level: int, i: nat, v: int)
    requires ShapeOk(g) && |depth| == g.n && i <= g.n
    ensures v in Buffer(g, p, depth, level, i) <==>
      0 <= v < i && depth[v] == level && |Out(g, v)| >= p.cacheThreshold
    decreases i
  {
    if i > 0 {
      BufferIn(g, p, depth, level, i - 1, v);
    }
  }

  lemma {:induction false} BufferOrder(g: Csr, p: Params, depth: seq<int>, level: int, i: nat, x: nat, y: nat)
    requires ShapeOk(g) && |depth| == g.n && i <= g.n && x < y < |Buffer(g, p, depth, level, i)|
    ensures Buffer(g, p, depth, level, i)[x] < Buffer(g, p, depth, level, i)[y]
    decreases i
  {
    if y < |Buffer(g, p, depth, level, i - 1)| {
      BufferOrder(g, p, depth, level, i - 1, x, y);
    }
  }

  /** The hub cache of a level holds the vertices at its distance whose degree reaches the cache threshold, in order. */
  lemma BufferHolds(g: Csr, p: Params, s: int, k: nat)
    requires ShapeOk(g) && 0 <= s < g.n
    ensures var b := Buffer(g, p, Depths(g, s, k), k, g.n);
      && (forall v :: v in b <==> v in Large(g, s, k, p.cacheThreshold))
      && forall x, y :: 0 <= x < y < |b| ==> b[x] < b[y]
  {
    hide Depths, AtDistance, Buffer;
    var depth := Depths(g, s, k);
    var b := Buffer(g, p, depth, k, g.n);
    forall v ensures v in b <==> v in Large(g, s, k, p.cacheThreshold) {
      BufferIn(g, p, depth, k, g.n, v);
      if 0 <= v < g.n {
        OnLevel(g, s, k, v);
      }
    }
    forall x, y | 0 <= x < y < |b| ensures b[x] < b[y] {
      BufferOrder(g, p, depth, k, g.n, x, y);
    }
  }

  lemma FoundThere(g: Csr, s: int, k: nat)
    requires ShapeOk(g) && 0 <= s < g.n
    ensures Differ(Depths(g, s, k), Depths(g, s, k + 1)) == LevelSet(Depths(g, s, k + 1), k + 1)
  {
    hide Within;
    var was, now := Depths(g, s, k), Depths(g, s, k + 1);
    assert now == NextDepth(GraphOf(g), was, k);
    DepthBounds(g, s, k);
    hide Depths, NextDepth;
    assert forall v :: 0 <= v < g.n ==> (was[v] != now[v] <==> now[v] == k + 1);
  }

  /** What a level changes are the vertices one step farther away. */
  lemma FoundCount(g: Csr, s: int, k: nat)
    requires ShapeOk(g) && 0 <= s < g.n
    ensures Changed(Depths(g, s, k), Depths(g, s, k + 1), g.n) == |AtDistance(g, s, k + 1)|
  {
    hide Depths, Sum, Changed;
    var was, now := Depths(g, s, k), Depths(g, s, k + 1);
    ChangedSum(g, was, now, g.n);
    CountSize(g, Differ(was, now));
    FoundThere(g, s, k);
    LevelIs(g, s, k + 1);
    assert Differ(was, now) == AtDistance(g, s, k + 1);
  }

  lemma DepthBounds(g: Csr, s: int, k: nat)
    requires ShapeOk(g) && 0 <= s < g.n
    ensures forall w :: 0 <= w < g.n ==> -1 <= Depths(g, s, k)[w] <= k
  {
    DepthExact(GraphOf(g), s, k);
    forall w | 0 <= w < g.n ensures -1 <= Depths(g, s, k)[w] <= k {
      assert DistAt(GraphOf(g), s, Depths(g, s, k)[w], w, k);
    }
  }

  datatype Unit = Bytes | Transfers

  /** Reads of one search of a vertex's incoming edges that looks at the first `looks` of them. */
  function Search(g: Csr, u: Unit, v: int, looks: int): int
    requires ShapeOk(g) && 0 <= v < g.n
  {
    match u
    case Bytes => 8 + 5 * looks
    case Transfers => 1 + Burst(|In(g, v)|, 4) + looks
  }

  function Looks(g: Csr, depth: seq<int>, v: int, level: int): int
    requires ShapeOk(g) && |depth| == g.n && 0 <= v < g.n
  {
    var j := FirstAt(depth, level, In(g, v));
    if j < |In(g, v)| then j + 1 else j
  }

  /** Reads of one level: the vertices not yet visited. */
  function LevelSearches(g: Csr, u: Unit, depth: seq<int>, level: int, i: nat): int
    requires ShapeOk(g) && |depth| == g.n && i <= g.n
  {
    if i == 0 then 0
    else LevelSearches(g, u, depth, level, i - 1)
         + if depth[i - 1] == -1 then Search(g, u, i - 1, Looks(g, depth, i - 1, level)) else 0
  }

  function Reads(u: Unit, t: Traffic): int {
    if u.Bytes? then t.readBytes else t.readBursts
  }

  lemma VertexReads(g: Csr, u: Unit, depth: seq<int>, d: seq<int>, v: int, level: int)
    requires ShapeOk(g) && |depth| == |d| == g.n && 0 <= v < g.n && SameLevel(depth, d, level)
    ensures Reads(u, BuVertex(g, d, v, level)) == Search(g, u, v, Looks(g, depth, v, level))
  {
    hide FirstAt, Burst;
    FirstSame(depth, d, level, In(g, v));
  }

  lemma PassSnoc(g: Csr, u: Unit, depth: seq<int>, f: seq<int>, v: int, level: nat)
    requires DepthOk(g, depth, f) && 0 <= v < g.n && forall i :: 0 <= i < |f| ==> depth[f[i]] == -1
    ensures DepthOk(g, depth, f + [v])
    ensures Reads(u, BuTraffic(g, depth, f + [v], level))
         == Reads(u, BuTraffic(g, depth, f, level)) + Search(g, u, v, Looks(g, depth, v, level))
  {
    hide BuVertex, SameLevel, Search, Looks, FirstAt;
    assert (f + [v])[..|f|] == f;
    BuView(g, depth, f, level);
    VertexReads(g, u, depth, BuDepth(g, depth, f, level), v, level);
  }

  lemma {:induction false} PassReads(g: Csr, u: Unit, depth: seq<int>, level: nat, i: nat)
    requires ShapeOk(g) && |depth| == g.n && i <= g.n
    ensures Reads(u, BuTraffic(g, depth, Select(depth, -1, i), level)) == LevelSearches(g, u, depth, level, i)
    decreases i
  {
    hide BuTraffic, Reads, Search, Looks;
    if i == 0 {
      NoReads(g, u, depth, level);
    } else {
      PassReads(g, u, depth, level, i - 1);
      var init := Select(depth, -1, i - 1);
      if depth[i - 1] == -1 {
        PassSnoc(g, u, depth, init, i - 1, level);
      } else {
        assert Select(depth, -1, i) == init + [] == init;
      }
    }
  }

  lemma NoReads(g: Csr, u: Unit, depth: seq<int>, level: int)
    requires ShapeOk(g) && |depth| == g.n
    ensures Reads(u, BuTraffic(g, depth, [], level)) == 0
  {
  }

  /** MAIN: the loop's direction on turn k, and whether the turn ends it, are those that the distances call for. */
  lemma {:induction false} ControlIs(g: Csr, p: Params, s: int, first: bool, k: nat)
    requires Valid(g) && 0 <= s < g.n
    ensures ControlAt(g, p, s, first, k).topDown == GoesDown(g, p, s, first, k)
    ensures k > 0 ==> (ControlAt(g, p, s, first, k).done <==> Last(g, p, s, first, k - 1))
    decreases k
  {
    hide Depths, Hubs, AtDistance, Large, Changed, Frontier;
    if k > 0 {
      ControlIs(g, p, s, first, k - 1);
      HubsCount(g, p, s, k - 1);
      FoundCount(g, s, k - 1);
      IdleIs(g, s, k - 1);
      ControlStep(g, p, s, first, k - 1);
    }
  }

  /** A turn has nobody to process when its level is empty, or everybody has been reached and so none is found. */
  lemma IdleIs(g: Csr, s: int, k: nat)
    requires ShapeOk(g) && 0 <= s < g.n
    ensures |Frontier(Depths(g, s, k), k, true)| == 0 <==> AtDistance(g, s, k) == {}
    ensures |Frontier(Depths(g, s, k), k, false)| == 0 ==> AtDistance(g, s, k + 1) == {}
    ensures |AtDistance(g, s, k + 1)| == 0 <==> AtDistance(g, s, k + 1) == {}
  {
    hide Depths, AtDistance;
    var depth := Depths(g, s, k);
    LevelIs(g, s, k);
    SelectEmpty(depth, k);
    if |Frontier(depth, k, false)| == 0 {
      IdleStable(g, s, k, false);
      FoundThere(g, s, k);
      LevelIs(g, s, k + 1);
      assert Differ(depth, depth) == {};
    }
  }

  lemma SelectEmpty(depth: seq<int>, x: int)
    ensures |Select(depth, x, |depth|)| == 0 <==> LevelSet(depth, x) == {}
  {
    var f := Select(depth, x, |depth|);
    if |f| == 0 {
      EmptyFrontier(depth, x);
    } else {
      assert f[0] in LevelSet(depth, x);
    }
  }

  /** The number of turns of a run is the one the distances call for. */
  lemma StopsIs(g: Csr, p: Params, s: int, first: bool, n: nat)
    requires Valid(g) && 0 <= s < g.n
    ensures Stops(g, p, s, first, n) <==> Takes(g, p, s, first, n)
  {
    hide ControlAt, Last;
    forall k: nat | 0 < k <= n ensures ControlAt(g, p, s, first, k).done <==> Last(g, p, s, first, k - 1) {
      ControlIs(g, p, s, first, k);
    }
    if Stops(g, p, s, first, n) {
      forall k: nat | k < n - 1 ensures !Last(g, p, s, first, k) {
        var k1 := k + 1;
        assert !ControlAt(g, p, s, first, k1).done;
      }
    }
  }

  /** What turn k reads: a scan of all depths; then top-down 8 bytes for each vertex at distance k and 5 for each edge
      out of it, and bottom-up the search of each vertex that is not yet reached. */
  ghost function TurnReads(g: Csr, u: Unit, s: int, k: nat, topDown: bool): int
    requires ShapeOk(g) && 0 <= s < g.n
  {
    (if u.Bytes? then g.n else Burst(g.n, 1))
    + if topDown then Sum(g, if u.Bytes? then Linear(8, 5) else Bursty, AtDistance(g, s, k), g.n)
      else LevelSearches(g, u, Depths(g, s, k), k, g.n)
  }

  /** And what the first n turns read. */
  ghost function RunReads(g: Csr, p: Params, u: Unit, s: int, first: bool, n: nat): int
    requires ShapeOk(g) && 0 <= s < g.n
  {
    if n == 0 then 0
    else RunReads(g, p, u, s, first, n - 1) + TurnReads(g, u, s, n - 1, GoesDown(g, p, s, first, n - 1))
  }

  /** Where a list of vertices names one of the hubs. */
  ghost function Positions(list: seq<int>, hubs: set<int>): set<int> {
    set e | 0 <= e < |list| && list[e] in hubs
  }

  /** Edges out of the vertices of a level below i that lead to one of the hubs. */
  ghost function EdgesInto(g: Csr, level: set<int>, hubs: set<int>, i: nat): nat
    requires ShapeOk(g) && i <= g.n
  {
    if i == 0 then 0
    else EdgesInto(g, level, hubs, i - 1)
         + if i - 1 in level then |Positions(Out(g, i - 1), hubs)| else 0
  }

  /** The first of v's incoming edges that comes from distance k. */
  ghost predicate FirstParent(g: Csr, s: int, k: nat, v: int, e: nat)
    requires ShapeOk(g) && 0 <= v < g.n
  {
    && e < |In(g, v)| && In(g, v)[e] in AtDistance(g, s, k)
    && forall x :: 0 <= x < e ==> In(g, v)[x] !in AtDistance(g, s, k)
  }

  /** The vertices not yet reached whose first parent is a hub. */
  ghost function FoundByHub(g: Csr, s: int, k: nat, hubs: set<int>): set<int>
    requires ShapeOk(g)
  {
    set v | 0 <= v < g.n && !Within(GraphOf(g), s, v, k)
            && exists e: nat :: FirstParent(g, s, k, v, e) && In(g, v)[e] in hubs
  }

  /** The reads of turn k that the hub cache answers: top-down the edges that lead to a hub of the level, bottom-up the
      decisive looks that find one. */
  ghost function TurnHits(g: Csr, p: Params, s: int, k: nat, topDown: bool): int
    requires ShapeOk(g) && 0 <= s < g.n
  {
    var hubs := Large(g, s, k, p.cacheThreshold);
    if topDown then EdgesInto(g, AtDistance(g, s, k), hubs, g.n) else |FoundByHub(g, s, k, hubs)|
  }

  /** And of the first n turns. */
  ghost function RunHits(g: Csr, p: Params, s: int, first: bool, n: nat): int
    requires ShapeOk(g) && 0 <= s < g.n
  {
    if n == 0 then 0
    else RunHits(g, p, s, first, n - 1) + TurnHits(g, p, s, n - 1, GoesDown(g, p, s, first, n - 1))
  }

  ghost predicate SameMembers(buffer: seq<int>, hubs: set<int>) {
    forall v :: v in buffer <==> v in hubs
  }

  lemma {:induction false} HitsCount(list: seq<int>, buffer: seq<int>, hubs: set<int>)
    requires SameMembers(buffer, hubs)
    ensures Hits(list, buffer) == |Positions(list, hubs)|
    decreases |list|
  {
    if |list| == 0 {
      assert Positions(list, hubs) == {};
    } else {
      var before, n := list[..|list| - 1], |list| - 1;
      HitsCount(before, buffer, hubs);
      var x := list[n];
      assert x in buffer <==> x in hubs;
      if x in hubs {
        assert Positions(list, hubs) == Positions(before, hubs) + {n} && n !in Positions(before, hubs);
      } else {
        assert Positions(list, hubs) == Positions(before, hubs);
      }
    }
  }

  lemma {:induction false} TdHitsCount(g: Csr, depth: seq<int>, level: int, buffer: seq<int>, hubs: set<int>, i: nat)
    requires ShapeOk(g) && |depth| == g.n && i <= g.n && SameMembers(buffer, hubs)
    ensures TdHits(g, Select(depth, level, i), buffer) == EdgesInto(g, LevelSet(depth, level), hubs, i)
    decreases i
  {
    hide Hits, SameMembers;
    if i > 0 {
      TdHitsCount(g, depth, level, buffer, hubs, i - 1);
      HitsCount(Out(g, i - 1), buffer, hubs);
      var f := Select(depth, level, i - 1);
      assert (f + [i - 1])[..|f|] == f && f + [] == f;
    }
  }

  lemma BuHitIs(g: Csr, s: int, k: nat, buffer: seq<int>, hubs: set<int>, v: int)
    requires ShapeOk(g) && 0 <= s < g.n && 0 <= v < g.n && SameMembers(buffer, hubs)
    ensures BuHit(g, Depths(g, s, k), v, k, buffer)
         == if exists e: nat :: FirstParent(g, s, k, v, e) && In(g, v)[e] in hubs then 1 else 0
  {
    hide Depths, AtDistance, FirstAt;
    var depth, list := Depths(g, s, k), In(g, v);
    var j := FirstAt(depth, k, list);
    forall x | 0 <= x < |list| ensures depth[list[x]] == k <==> list[x] in AtDistance(g, s, k) {
      OnLevel(g, s, k, list[x]);
    }
    if j < |list| {
      assert FirstParent(g, s, k, v, j);
      forall e: nat | FirstParent(g, s, k, v, e) ensures e == j {
      }
    }
  }

  lemma {:induction false} BuHitsCount(g: Csr, s: int, k: nat, buffer: seq<int>, hubs: set<int>, i: nat)
    requires ShapeOk(g) && 0 <= s < g.n && i <= g.n && SameMembers(buffer, hubs)
    ensures BuHits(g, Depths(g, s, k), Select(Depths(g, s, k), -1, i), k, buffer)
         == |Below(FoundByHub(g, s, k, hubs), i)|
    decreases i
  {
    hide Depths, BuHit, FirstParent, SameMembers;
    var found := FoundByHub(g, s, k, hubs);
    if i == 0 {
      assert Below(found, 0) == {};
    } else {
      hide Below;
      BuHitsCount(g, s, k, buffer, hubs, i - 1);
      OnLevel(g, s, k, i - 1);
      BuHitIs(g, s, k, buffer, hubs, i - 1);
      BelowStep(found, i);
      var f := Select(Depths(g, s, k), -1, i - 1);
      assert (f + [i - 1])[..|f|] == f && f + [] == f;
    }
  }

  lemma LevelHitsAre(g: Csr, p: Params, s: int, k: nat, topDown: bool)
    requires ShapeOk(g) && 0 <= s < g.n
    ensures LevelHits(g, p, Depths(g, s, k), k, topDown) == TurnHits(g, p, s, k, topDown)
  {
    hide Depths, TdHits, BuHits, Select, AtDistance, Buffer, FoundByHub, EdgesInto, Large;
    var depth, hubs := Depths(g, s, k), Large(g, s, k, p.cacheThreshold);
    var buffer := Buffer(g, p, depth, k, g.n);
    BufferHolds(g, p, s, k);
    if topDown {
      TdHitsCount(g, depth, k, buffer, hubs, g.n);
      LevelIs(g, s, k);
    } else {
      BuHitsCount(g, s, k, buffer, hubs, g.n);
      AllBelow(g, s, k, hubs);
    }
  }

  lemma AllBelow(g: Csr, s: int, k: nat, hubs: set<int>)
    requires ShapeOk(g)
    ensures Below(FoundByHub(g, s, k, hubs), g.n) == FoundByHub(g, s, k, hubs)
  {
  }

  lemma LevelReads(g: Csr, u: Unit, s: int, k: nat, topDown: bool)
    requires Valid(g) && 0 <= s < g.n
    ensures Reads(u, LevelTraffic(g, Depths(g, s, k), k, topDown)) == TurnReads(g, u, s, k, topDown)
  {
    hide Depths, TdTraffic, BuTraffic, Select, AtDistance, Sum, ListSum, LevelSearches;
    var depth := Depths(g, s, k);
    var f := Frontier(depth, k, topDown);
    if topDown {
      SelectLists(depth, k);
      TdReads(g, depth, f, k);
      LevelList(g, Linear(8, 5), f, depth, k);
      LevelList(g, Bursty, f, depth, k);
      LevelIs(g, s, k);
    } else {
      PassReads(g, u, depth, k, g.n);
    }
  }

  /** MAIN: what a run reads is the sum over its turns, each in the direction the distances call for; the hub cache
      answers the sum of what it answers on them. */
  lemma {:induction false} ReadsAre(g: Csr, p: Params, u: Unit, s: int, first: bool, n: nat)
    requires Valid(g) && 0 <= s < g.n
    ensures Reads(u, TrafficAt(g, p, s, first, n)) == RunReads(g, p, u, s, first, n)
    ensures HitsAt(g, p, s, first, n) == RunHits(g, p, s, first, n)
    decreases n
  {
    hide LevelTraffic, Depths, ControlAt, GoesDown, TurnReads, LevelHits, TurnHits;
    if n > 0 {
      ReadsAre(g, p, u, s, first, n - 1);
      ControlIs(g, p, s, first, n - 1);
      LevelReads(g, u, s, n - 1, GoesDown(g, p, s, first, n - 1));
      LevelHitsAre(g, p, s, n - 1, GoesDown(g, p, s, first, n - 1));
    }
  }
}
