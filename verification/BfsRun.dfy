/** The level loop shared by the scanning BFS variants as a state machine: scan, process top-down or bottom-up,
    advance, perhaps switch direction. The float comparisons that decide on switching are arbitrary predicates. */
module BfsRun {
  import opened Csr
  import opened Distance
  import opened BfsSpec
  import opened BfsPasses

  /** `down` is the test on the hub count of a top-down level, `up` the test on a bottom-up level's visit count. */
  datatype Params = Params(down: int -> bool, up: int -> bool, hubThreshold: int, cacheThreshold: int)

  function Degree(g: Csr, v: int): nat
    requires ShapeOk(g) && 0 <= v < g.n
  {
    |Out(g, v)|
  }

  function InDegree(g: Csr, v: int): nat
    requires ShapeOk(g) && 0 <= v < g.n
  {
    |In(g, v)|
  }

  /** Hub vertices among the current level's vertices below i. */
  function Hubs(g: Csr, p: Params, depth: seq<int>, level: int, i: nat): nat
    requires ShapeOk(g) && |depth| == g.n && i <= g.n
  {
    if i == 0 then 0
    else Hubs(g, p, depth, level, i - 1)
         + if depth[i - 1] == level && Degree(g, i - 1) >= p.hubThreshold then 1 else 0
  }

  /** The hub cache for a level: its vertices below i whose degree reaches the cache threshold. */
  function Buffer(g: Csr, p: Params, depth: seq<int>, level: int, i: nat): (b: seq<int>)
    requires ShapeOk(g) && |depth| == g.n && i <= g.n
    ensures forall j :: 0 <= j < |b| ==> 0 <= b[j] < i && depth[b[j]] == level
  {
    if i == 0 then []
    else Buffer(g, p, depth, level, i - 1)
         + if depth[i - 1] == level && Degree(g, i - 1) >= p.cacheThreshold then [i - 1] else []
  }

  function Scan(g: Csr): Traffic {
    Traffic(g.n, 0, Burst(g.n, 1), 0)
  }

  /** The vertices processed on a level: those on it when going top-down, the unvisited ones when bottom-up. */
  function Frontier(depth: seq<int>, level: int, topDown: bool): (f: seq<int>)
    ensures forall j :: 0 <= j < |f| ==> 0 <= f[j] < |depth| && depth[f[j]] == if topDown then level else -1
  {
    Select(depth, if topDown then level else -1, |depth|)
  }

  function LevelTraffic(g: Csr, depth: seq<int>, level: int, topDown: bool): Traffic
    requires ShapeOk(g) && |depth| == g.n
  {
    var f := Frontier(depth, level, topDown);
    Plus(Scan(g), if topDown then TdTraffic(g, depth, f, level) else BuTraffic(g, depth, f, level))
  }

  function LevelHits(g: Csr, p: Params, depth: seq<int>, level: int, topDown: bool): nat
    requires ShapeOk(g) && |depth| == g.n
  {
    var f := Frontier(depth, level, topDown);
    var buffer := Buffer(g, p, depth, level, g.n);
    if topDown then TdHits(g, f, buffer) else BuHits(g, depth, f, level, buffer)
  }

  /** What steers the level loop: the direction, the last bottom-up visit count, and the end test. */
  datatype Control = Control(topDown: bool, visited: int, done: bool)

  function NextControl(p: Params, c: Control, hubs: int, found: int, idle: bool): Control {
    var visited := if c.topDown then c.visited else found;
    Control(if c.topDown && p.down(hubs) then false else if !c.topDown && p.up(visited) then true else c.topDown,
            visited, idle || (!c.topDown && visited == 0))
  }

  /** The depths after k turns do not depend on the directions taken. */
  ghost function Depths(g: Csr, s: int, k: nat): (r: seq<int>)
    requires ShapeOk(g) && 0 <= s < g.n
    ensures |r| == g.n
  {
    DepthAt(GraphOf(g), s, k)
  }

  ghost function ControlAt(g: Csr, p: Params, s: int, topDown: bool, k: nat): Control
    requires ShapeOk(g) && 0 <= s < g.n
  {
    if k == 0 then Control(topDown, 0, false)
    else
      var c := ControlAt(g, p, s, topDown, k - 1);
      var depth := Depths(g, s, k - 1);
      NextControl(p, c, Hubs(g, p, depth, k - 1, g.n), Changed(depth, Depths(g, s, k), g.n),
                  |Frontier(depth, k - 1, c.topDown)| == 0)
  }

  ghost function TrafficAt(g: Csr, p: Params, s: int, topDown: bool, k: nat): Traffic
    requires ShapeOk(g) && 0 <= s < g.n
  {
    if k == 0 then NONE
    else Plus(TrafficAt(g, p, s, topDown, k - 1),
              LevelTraffic(g, Depths(g, s, k - 1), k - 1, ControlAt(g, p, s, topDown, k - 1).topDown))
  }

  /** Reads answered by the hub cache in the first k turns. */
  ghost function HitsAt(g: Csr, p: Params, s: int, topDown: bool, k: nat): nat
    requires ShapeOk(g) && 0 <= s < g.n
  {
    if k == 0 then 0
    else HitsAt(g, p, s, topDown, k - 1)
         + LevelHits(g, p, Depths(g, s, k - 1), k - 1, ControlAt(g, p, s, topDown, k - 1).topDown)
  }

  /** Whatever the direction, a pass performs the level step and writes once per newly visited vertex. */
  lemma TdStep(g: Csr, depth: seq<int>, level: nat)
    requires Valid(g) && |depth| == g.n
    ensures var f := Frontier(depth, level, true);
      var next := NextDepth(GraphOf(g), depth, level);
      && TdDepth(g, depth, f, level) == next
      && TdTraffic(g, depth, f, level).writeBytes == TdTraffic(g, depth, f, level).writeBursts
         == Changed(depth, next, g.n)
  {
    TdIsNext(g, depth, level);
    TdWrites(g, depth, Frontier(depth, level, true), level);
  }

  lemma BuStep(g: Csr, depth: seq<int>, level: nat)
    requires Valid(g) && |depth| == g.n
    ensures var f := Frontier(depth, level, false);
      var next := NextDepth(GraphOf(g), depth, level);
      && BuDepth(g, depth, f, level) == next
      && BuTraffic(g, depth, f, level).writeBytes == BuTraffic(g, depth, f, level).writeBursts
         == Changed(depth, next, g.n)
  {
    var f := Frontier(depth, level, false);
    BuIsNext(g, depth, level);
    forall a, b | 0 <= a < b < |f| ensures f[a] < f[b] {
      SelectSorted(depth, -1, g.n, a, b);
    }
    BuWrites(g, depth, f, level);
  }

  lemma EmptyFrontier(depth: seq<int>, x: int)
    requires |Select(depth, x, |depth|)| == 0
    ensures LevelEmpty(depth, x)
  {
    forall v | 0 <= v < |depth| ensures depth[v] != x {
      if depth[v] == x {
        SelectAll(depth, x, |depth|, v);
      }
    }
  }

  lemma SameWhenUnchanged(a: seq<int>, b: seq<int>)
    requires |a| == |b| && Changed(a, b, |a|) == 0
    ensures a == b
  {
    ChangedZero(a, b, |a|);
    assert a[..|a|] == a && b[..|b|] == b;
  }

  /** What the end test says about the level just processed: nobody to process, or nothing found. */
  lemma DoneMeans(g: Csr, p: Params, s: int, topDown: bool, k: nat) returns (direction: bool)
    requires ShapeOk(g) && 0 <= s < g.n && k > 0 && ControlAt(g, p, s, topDown, k).done
    ensures |Frontier(Depths(g, s, k - 1), k - 1, direction)| == 0
         || Changed(Depths(g, s, k - 1), Depths(g, s, k), g.n) == 0
  {
    direction := ControlAt(g, p, s, topDown, k - 1).topDown;
  }

  lemma IdleStable(g: Csr, s: int, k: nat, topDown: bool)
    requires ShapeOk(g) && 0 <= s < g.n && |Frontier(Depths(g, s, k), k, topDown)| == 0
    ensures Depths(g, s, k + 1) == Depths(g, s, k)
  {
    EmptyFrontier(Depths(g, s, k), if topDown then k else -1);
    EmptyStable(GraphOf(g), Depths(g, s, k), k);
  }

  lemma Stable(g: Csr, s: int, k: nat, topDown: bool)
    requires ShapeOk(g) && 0 <= s < g.n
    requires |Frontier(Depths(g, s, k), k, topDown)| == 0 || Changed(Depths(g, s, k), Depths(g, s, k + 1), g.n) == 0
    ensures Depths(g, s, k + 1) == Depths(g, s, k) && Shortest(GraphOf(g), s, Depths(g, s, k))
  {
    if |Frontier(Depths(g, s, k), k, topDown)| == 0 {
      IdleStable(g, s, k, topDown);
    } else {
      SameWhenUnchanged(Depths(g, s, k), Depths(g, s, k + 1));
    }
    StableShortest(GraphOf(g), s, k);
  }

  /** MAIN: when the loop's end test fires, under any switching policy, the depths are the shortest distances. */
  lemma DoneShortest(g: Csr, p: Params, s: int, topDown: bool, k: nat)
    requires ShapeOk(g) && 0 <= s < g.n && k > 0 && ControlAt(g, p, s, topDown, k).done
    ensures Depths(g, s, k) == Depths(g, s, k - 1)
    ensures Shortest(GraphOf(g), s, Depths(g, s, k))
  {
    hide Depths, ControlAt, Frontier, Changed;
    var direction := DoneMeans(g, p, s, topDown, k);
    Stable(g, s, k - 1, direction);
  }

  lemma SomeoneChanged(a: seq<int>, b: seq<int>, i: nat) returns (v: int)
    requires i <= |a| == |b| && Changed(a, b, i) > 0
    ensures 0 <= v < i && a[v] != b[v]
    decreases i
  {
    if a[i - 1] != b[i - 1] {
      v := i - 1;
    } else {
      v := SomeoneChanged(a, b, i - 1);
    }
  }

  lemma ParentOf(d: Digraph, depth: seq<int>, level: int, w: int) returns (v: int)
    requires |depth| == d.n && 0 <= w < d.n && depth[w] != NextDepth(d, depth, level)[w]
    ensures 0 <= v < d.n && depth[v] == level
  {
    v :| 0 <= v < d.n && depth[v] == level && Arc(d, v, w);
  }

  /** MAIN: every turn that does not end the loop lowers the number of unfinished vertices. */
  lemma TurnProgress(g: Csr, p: Params, s: int, topDown: bool, k: nat)
    requires ShapeOk(g) && 0 <= s < g.n && !ControlAt(g, p, s, topDown, k + 1).done
    ensures Pending(Depths(g, s, k + 1), k + 1, g.n) < Pending(Depths(g, s, k), k, g.n)
  {
    var c := ControlAt(g, p, s, topDown, k);
    var was, now := Depths(g, s, k), Depths(g, s, k + 1);
    var v: int;
    if c.topDown {
      v := Frontier(was, k, true)[0];
    } else {
      var w := SomeoneChanged(was, now, g.n);
      v := ParentOf(GraphOf(g), was, k, w);
    }
    assert 0 <= v < g.n && was[v] == k;
    PendingDrops(GraphOf(g), was, k, g.n);
  }

  /** The do-while loop ends after k turns. */
  ghost predicate Stops(g: Csr, p: Params, s: int, topDown: bool, k: nat)
    requires ShapeOk(g) && 0 <= s < g.n
  {
    && k > 0 && ControlAt(g, p, s, topDown, k).done
    && forall i: nat :: 0 < i < k ==> !ControlAt(g, p, s, topDown, i).done
  }

  /** The number of turns of a run is determined. */
  lemma StopsOnce(g: Csr, p: Params, s: int, topDown: bool, j: nat, k: nat)
    requires ShapeOk(g) && 0 <= s < g.n
    requires Stops(g, p, s, topDown, j) && Stops(g, p, s, topDown, k)
    ensures j == k
  {
  }

  /** Where the loop stands after k turns, none of the earlier ones having ended it. */
  ghost predicate At(g: Csr, p: Params, s: int, topDown: bool, k: nat, c: Control, depth: seq<int>)
    requires ShapeOk(g) && 0 <= s < g.n
  {
    && depth == Depths(g, s, k) && c == ControlAt(g, p, s, topDown, k)
    && forall i: nat :: 0 < i < k ==> !ControlAt(g, p, s, topDown, i).done
  }

  lemma AtStart(g: Csr, p: Params, s: int, topDown: bool)
    requires ShapeOk(g) && 0 <= s < g.n
    ensures At(g, p, s, topDown, 0, Control(topDown, 0, false), StartDepth(GraphOf(g), s))
    ensures TrafficAt(g, p, s, topDown, 0) == NONE && HitsAt(g, p, s, topDown, 0) == 0
  {
  }

  lemma ControlStep(g: Csr, p: Params, s: int, topDown: bool, k: nat)
    requires ShapeOk(g) && 0 <= s < g.n
    ensures Depths(g, s, k + 1) == NextDepth(GraphOf(g), Depths(g, s, k), k)
    ensures var c := ControlAt(g, p, s, topDown, k);
      var depth := Depths(g, s, k);
      ControlAt(g, p, s, topDown, k + 1)
      == NextControl(p, c, Hubs(g, p, depth, k, g.n), Changed(depth, Depths(g, s, k + 1), g.n),
                     |Frontier(depth, k, c.topDown)| == 0)
  {
  }

  /** The next place, from what one turn reports. */
  lemma TurnAt(g: Csr, p: Params, s: int, topDown: bool, k: nat, c: Control, depth: seq<int>, next: seq<int>,
               hubs: int, found: int, idle: bool)
    requires ShapeOk(g) && 0 <= s < g.n && At(g, p, s, topDown, k, c, depth) && !c.done
    requires next == NextDepth(GraphOf(g), depth, k)
    requires hubs == Hubs(g, p, depth, k, g.n) && found == Changed(depth, next, g.n)
    requires idle <==> |Frontier(depth, k, c.topDown)| == 0
    ensures At(g, p, s, topDown, k + 1, NextControl(p, c, hubs, found, idle), next)
  {
    ControlStep(g, p, s, topDown, k);
  }

  lemma TurnPending(g: Csr, p: Params, s: int, topDown: bool, k: nat, c: Control, depth: seq<int>, d: Control,
                    next: seq<int>)
    requires ShapeOk(g) && 0 <= s < g.n
    requires At(g, p, s, topDown, k, c, depth) && At(g, p, s, topDown, k + 1, d, next)
    ensures |depth| == |next| == g.n
    ensures !d.done ==> Pending(next, k + 1, g.n) < Pending(depth, k, g.n)
  {
    if !d.done {
      TurnProgress(g, p, s, topDown, k);
    }
  }

  lemma TurnTraffic(g: Csr, p: Params, s: int, topDown: bool, k: nat, c: Control, depth: seq<int>)
    requires ShapeOk(g) && 0 <= s < g.n && At(g, p, s, topDown, k, c, depth)
    ensures TrafficAt(g, p, s, topDown, k + 1)
         == Plus(TrafficAt(g, p, s, topDown, k), LevelTraffic(g, depth, k, c.topDown))
    ensures HitsAt(g, p, s, topDown, k + 1) == HitsAt(g, p, s, topDown, k) + LevelHits(g, p, depth, k, c.topDown)
  {
  }

  lemma AtDone(g: Csr, p: Params, s: int, topDown: bool, k: nat, c: Control, depth: seq<int>)
    requires ShapeOk(g) && 0 <= s < g.n && At(g, p, s, topDown, k, c, depth) && k > 0 && c.done
    ensures Stops(g, p, s, topDown, k) && Shortest(GraphOf(g), s, depth)
  {
    DoneShortest(g, p, s, topDown, k);
  }
}
