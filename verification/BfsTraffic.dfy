/** What the level loop writes, whichever way it goes. */
module BfsTraffic {
  import opened BfsPasses
  import opened BfsRun
  import opened BfsSpec
  import opened BfsWeights
  import opened Csr
  import opened Distance

  lemma LevelReached(g: Csr, s: int, k: nat)
    requires ShapeOk(g) && 0 <= s < g.n
    ensures Count(g, Reached(Depths(g, s, k + 1)))
         == Count(g, Reached(Depths(g, s, k))) + Changed(Depths(g, s, k), Depths(g, s, k + 1), g.n)
  {
    assert Depths(g, s, k + 1) == NextDepth(GraphOf(g), Depths(g, s, k), k);
    ReachedStep(g, Depths(g, s, k), k);
  }

  lemma LevelWrites(g: Csr, s: int, k: nat, topDown: bool)
    requires Valid(g) && 0 <= s < g.n
    ensures var u := LevelTraffic(g, Depths(g, s, k), k, topDown);
      u.writeBytes == u.writeBursts == Changed(Depths(g, s, k), Depths(g, s, k + 1), g.n)
  {
    hide TdTraffic, BuTraffic, Frontier, NextDepth;
    if topDown {
      TdStep(g, Depths(g, s, k), k);
    } else {
      BuStep(g, Depths(g, s, k), k);
    }
  }

  /** MAIN: after any number of turns in any directions, one byte and one burst have been written for each vertex
      reached but the start. */
  lemma {:induction false} WritesAt(g: Csr, p: Params, s: int, topDown: bool, k: nat)
    requires Valid(g) && 0 <= s < g.n
    ensures var t := TrafficAt(g, p, s, topDown, k);
      t.writeBytes == t.writeBursts == Count(g, Reached(Depths(g, s, k))) - 1
    decreases k
  {
    hide LevelTraffic, Depths, Count, Reached, Changed, NextControl;
    if k == 0 {
      WritesNone(g, s);
    } else {
      WritesAt(g, p, s, topDown, k - 1);
      LevelWrites(g, s, k - 1, ControlAt(g, p, s, topDown, k - 1).topDown);
      LevelReached(g, s, k - 1);
    }
  }

  lemma ReachedSize(g: Csr, s: int, k: nat)
    requires ShapeOk(g) && 0 <= s < g.n
    ensures Count(g, Reached(Depths(g, s, k))) == |Reached(Depths(g, s, k))|
  {
    hide Depths, Count;
    CountSize(g, Reached(Depths(g, s, k)));
  }

  /** In other words: */
  lemma WritesReached(g: Csr, p: Params, s: int, topDown: bool, k: nat)
    requires Valid(g) && 0 <= s < g.n
    ensures TrafficAt(g, p, s, topDown, k).writeBytes == |Reached(Depths(g, s, k))| - 1
  {
    hide Depths, Count, Reached, TrafficAt;
    WritesAt(g, p, s, topDown, k);
    ReachedSize(g, s, k);
  }

  lemma WritesNone(g: Csr, s: int)
    requires ShapeOk(g) && 0 <= s < g.n
    ensures Count(g, Reached(Depths(g, s, 0))) == 1
  {
    StartSums(g, Bursty, s);
    assert Depths(g, s, 0) == StartDepth(GraphOf(g), s);
  }
}
