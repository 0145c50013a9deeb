/** The BFS variants of bfs/graph.cpp that scan the depth array: top-down, bottom-up, hybrid, and hybrid with
    the hub cache. Each returns the shortest distances, and its traffic counters are those of the level machine. */
module BfsEngines {
  import opened Csr
  import opened Distance
  import opened BfsSpec
  import opened BfsPasses
  import opened BfsRun
  import opened BfsLoops
  import opened BfsTraffic
  import opened BfsTurns
  import opened BfsWeights

  /** The scan over all depths: the frontier, and the hub count of the current level. */
  method Collect(g: Csr, p: Params, depth: array<int>, level: nat, topDown: bool) returns (f: seq<int>, hubs: nat)
    requires ShapeOk(g) && depth.Length == g.n
    ensures f == Frontier(depth[..], level, topDown)
    ensures hubs == Hubs(g, p, depth[..], level, g.n)
  {
    f, hubs := [], 0;
    for idx := 0 to g.n
      invariant f == Select(depth[..], if topDown then level else -1, idx)
      invariant hubs == Hubs(g, p, depth[..], level, idx)
    {
      if topDown {
        if depth[idx] == level {
          f := f + [idx];
        }
      } else if depth[idx] == -1 {
        f := f + [idx];
      }
      if depth[idx] == level && g.rpao[idx + 1] - g.rpao[idx] >= p.hubThreshold {
        hubs := hubs + 1;
      }
    }
  }

  /** The same scan filling the hub cache. */
  method CollectBuffer(g: Csr, p: Params, depth: array<int>, level: nat) returns (buffer: seq<int>)
    requires ShapeOk(g) && depth.Length == g.n
    ensures buffer == Buffer(g, p, depth[..], level, g.n)
  {
    buffer := [];
    for idx := 0 to g.n
      invariant buffer == Buffer(g, p, depth[..], level, idx)
    {
      if depth[idx] == level && g.rpao[idx + 1] - g.rpao[idx] >= p.cacheThreshold {
        buffer := buffer + [idx];
      }
    }
  }

  method ScanTraffic(g: Csr) returns (t: Traffic)
    ensures t == Scan(g)
  {
    var bursts := GetBurstNum(g.n, 1);
    t := Traffic(g.n, 0, bursts, 0);
  }

  method NewDepth(g: Csr, s: int) returns (depth: array<int>)
    requires ShapeOk(g) && 0 <= s < g.n
    ensures fresh(depth) && depth[..] == Depths(g, s, 0)
  {
    depth := new int[g.n](_ => -1);
    depth[s] := 0;
    assert depth[..] == StartDepth(GraphOf(g), s);
  }

  /** One plain level in the given direction. */
  method Level(g: Csr, p: Params, depth: array<int>, level: nat, topDown: bool)
    returns (t: Traffic, idle: bool, hubs: nat, found: int)
    requires Valid(g) && depth.Length == g.n
    modifies depth
    ensures depth[..] == NextDepth(GraphOf(g), old(depth[..]), level)
    ensures t == LevelTraffic(g, old(depth[..]), level, topDown)
    ensures idle <==> |Frontier(old(depth[..]), level, topDown)| == 0
    ensures hubs == Hubs(g, p, old(depth[..]), level, g.n)
    ensures found == Changed(old(depth[..]), depth[..], g.n)
  {
    hide NextDepth, TdDepth, BuDepth, TdTraffic, BuTraffic, CachedTd, CachedBu, TdHits, BuHits, Select, Hubs, Buffer;
    var f: seq<int>, pass: Traffic;
    ghost var d0 := depth[..];
    var scan := ScanTraffic(g);
    f, hubs := Collect(g, p, depth, level, topDown);
    if topDown {
      TdStep(g, d0, level);
      pass := TopDownPass(g, depth, level, f);
    } else {
      BuStep(g, d0, level);
      pass := BottomUpPass(g, depth, level, f);
    }
    t, idle, found := Plus(scan, pass), |f| == 0, pass.writeBytes;
  }

  /** One level with the hub cache: the same step, the same writes, and one read less per buffer hit. */
  method CachedLevel(g: Csr, p: Params, depth: array<int>, level: nat, topDown: bool)
    returns (t: Traffic, idle: bool, hubs: nat, found: int)
    requires Valid(g) && depth.Length == g.n
    modifies depth
    ensures depth[..] == NextDepth(GraphOf(g), old(depth[..]), level)
    ensures Saves(t, LevelTraffic(g, old(depth[..]), level, topDown), LevelHits(g, p, old(depth[..]), level, topDown))
    ensures idle <==> |Frontier(old(depth[..]), level, topDown)| == 0
    ensures hubs == Hubs(g, p, old(depth[..]), level, g.n)
    ensures found == Changed(old(depth[..]), depth[..], g.n)
  {
    hide NextDepth, TdDepth, BuDepth, TdTraffic, BuTraffic, CachedTd, CachedBu, TdHits, BuHits, Select, Hubs, Buffer;
    var f: seq<int>, pass: Traffic;
    ghost var d0 := depth[..];
    var scan := ScanTraffic(g);
    f, hubs := Collect(g, p, depth, level, topDown);
    var buffer := CollectBuffer(g, p, depth, level);
    if topDown {
      TdStep(g, d0, level);
      CachedTdSaves(g, d0, f, level, buffer);
      pass := CachedTopDownPass(g, depth, level, f, buffer);
    } else {
      BuStep(g, d0, level);
      CachedBuSaves(g, d0, f, level, buffer);
      pass := CachedBottomUpPass(g, depth, level, f, buffer);
    }
    t, idle, found := Plus(scan, pass), |f| == 0, pass.writeBytes;
  }

  /** The level loop: from either starting direction, with any switching policy. */
  method HybridBfs(g: Csr, p: Params, s: int, down: bool) returns (depth: array<int>, level: nat, t: Traffic)
    requires Valid(g) && 0 <= s < g.n
    ensures Stops(g, p, s, down, level) && Takes(g, p, s, down, level)
    ensures depth[..] == Depths(g, s, level) && Shortest(GraphOf(g), s, depth[..])
    ensures t == TrafficAt(g, p, s, down, level)
    ensures t.readBytes == RunReads(g, p, Bytes, s, down, level)
    ensures t.readBursts == RunReads(g, p, Transfers, s, down, level)
    ensures t.writeBytes == t.writeBursts == Count(g, Reached(depth[..])) - 1
  {
    hide TrafficAt, HitsAt, LevelTraffic, LevelHits, ControlAt, Shortest, Hubs, Changed, Frontier, Pending, NextDepth;
    hide Count, Reached, Takes, RunReads, RunHits;
    depth := NewDepth(g, s);
    AtStart(g, p, s, down);
    level, t := 0, NONE;
    var c := Control(down, 0, false);
    while !c.done
      invariant depth.Length == g.n && fresh(depth) && At(g, p, s, down, level, c, depth[..])
      invariant t == TrafficAt(g, p, s, down, level)
      invariant c.done ==> level > 0
      decreases if c.done then 0 else 1 + Pending(depth[..], level, g.n)
    {
      ghost var d0 := depth[..];
      TurnTraffic(g, p, s, down, level, c, d0);
      var turn, idle, hubs, found := Level(g, p, depth, level, c.topDown);
      TurnAt(g, p, s, down, level, c, d0, depth[..], hubs, found, idle);
      TurnPending(g, p, s, down, level, c, d0, NextControl(p, c, hubs, found, idle), depth[..]);
      c, t, level := NextControl(p, c, hubs, found, idle), Plus(t, turn), level + 1;
    }
    AtDone(g, p, s, down, level, c, depth[..]);
    WritesAt(g, p, s, down, level);
    StopsIs(g, p, s, down, level);
    ReadsAre(g, p, Bytes, s, down, level);
    ReadsAre(g, p, Transfers, s, down, level);
  }

  /** The same loop with the hub cache: same turns, same depths, same writes, reads fewer by the buffer hits. */
  method CacheHybridBfs(g: Csr, p: Params, s: int, down: bool) returns (depth: array<int>, level: nat, t: Traffic)
    requires Valid(g) && 0 <= s < g.n
    ensures Stops(g, p, s, down, level) && Takes(g, p, s, down, level)
    ensures depth[..] == Depths(g, s, level) && Shortest(GraphOf(g), s, depth[..])
    ensures Saves(t, TrafficAt(g, p, s, down, level), HitsAt(g, p, s, down, level))
    ensures var hits := RunHits(g, p, s, down, level);
      && t.readBytes == RunReads(g, p, Bytes, s, down, level) - hits
      && t.readBursts == RunReads(g, p, Transfers, s, down, level) - hits
    ensures t.writeBytes == t.writeBursts == Count(g, Reached(depth[..])) - 1
  {
    hide TrafficAt, HitsAt, LevelTraffic, LevelHits, ControlAt, Shortest, Hubs, Changed, Frontier, Pending, NextDepth;
    hide Count, Reached, Takes, RunReads, RunHits;
    depth := NewDepth(g, s);
    AtStart(g, p, s, down);
    level, t := 0, NONE;
    var c := Control(down, 0, false);
    while !c.done
      invariant depth.Length == g.n && fresh(depth) && At(g, p, s, down, level, c, depth[..])
      invariant Saves(t, TrafficAt(g, p, s, down, level), HitsAt(g, p, s, down, level))
      invariant c.done ==> level > 0
      decreases if c.done then 0 else 1 + Pending(depth[..], level, g.n)
    {
      ghost var d0 := depth[..];
      TurnTraffic(g, p, s, down, level, c, d0);
      var turn, idle, hubs, found := CachedLevel(g, p, depth, level, c.topDown);
      PlusSaves(t, TrafficAt(g, p, s, down, level), turn, LevelTraffic(g, d0, level, c.topDown),
                HitsAt(g, p, s, down, level), LevelHits(g, p, d0, level, c.topDown));
      TurnAt(g, p, s, down, level, c, d0, depth[..], hubs, found, idle);
      TurnPending(g, p, s, down, level, c, d0, NextControl(p, c, hubs, found, idle), depth[..]);
      c, t, level := NextControl(p, c, hubs, found, idle), Plus(t, turn), level + 1;
    }
    AtDone(g, p, s, down, level, c, depth[..]);
    WritesAt(g, p, s, down, level);
    StopsIs(g, p, s, down, level);
    ReadsAre(g, p, Bytes, s, down, level);
    ReadsAre(g, p, Transfers, s, down, level);
  }

  const NEVER := (_: int) => false

  /** `tdBfs`: the loop that starts top-down and never switches. */
  method TdBfs(g: Csr, s: int) returns (depth: array<int>, level: nat, t: Traffic)
    requires Valid(g) && 0 <= s < g.n
    ensures Stops(g, Params(NEVER, NEVER, 0, 0), s, true, level)
    ensures depth[..] == Depths(g, s, level) && Shortest(GraphOf(g), s, depth[..])
    ensures t == TrafficAt(g, Params(NEVER, NEVER, 0, 0), s, true, level)
    ensures t.writeBytes == t.writeBursts == Count(g, Reached(depth[..])) - 1
  {
    depth, level, t := HybridBfs(g, Params(NEVER, NEVER, 0, 0), s, true);
  }

  /** `buBfs`: the loop that starts bottom-up and never switches. */
  method BuBfs(g: Csr, s: int) returns (depth: array<int>, level: nat, t: Traffic)
    requires Valid(g) && 0 <= s < g.n
    ensures Stops(g, Params(NEVER, NEVER, 0, 0), s, false, level)
    ensures depth[..] == Depths(g, s, level) && Shortest(GraphOf(g), s, depth[..])
    ensures t == TrafficAt(g, Params(NEVER, NEVER, 0, 0), s, false, level)
    ensures t.writeBytes == t.writeBursts == Count(g, Reached(depth[..])) - 1
  {
    depth, level, t := HybridBfs(g, Params(NEVER, NEVER, 0, 0), s, false);
  }
}
