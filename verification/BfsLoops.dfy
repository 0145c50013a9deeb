/** The inner loops of the BFS variants, over a depth array updated in place. */
module BfsLoops {
  import opened Csr
  import opened BfsSpec
  import opened BfsPasses

  /** Follow the outgoing edges of every frontier vertex. */
  method TopDownPass(g: Csr, depth: array<int>, level: nat, f: seq<int>) returns (t: Traffic)
    requires DepthOk(g, depth[..], f)
    modifies depth
    ensures depth[..] == TdDepth(g, old(depth[..]), f, level)
    ensures t == TdTraffic(g, old(depth[..]), f, level)
  {
    t := NONE;
    ghost var d0 := depth[..];
    for i := 0 to |f|
      invariant depth[..] == TdDepth(g, d0, f[..i], level)
      invariant t == TdTraffic(g, d0, f[..i], level)
    {
      TdSnoc(g, d0, f, level, i);
      var v := TopDownVertex(g, depth, level, f[i]);
      t := Plus(t, v);
    }
    assert f[..|f|] == f;
  }

  lemma NoEdges(depth: seq<int>, targets: seq<int>, level: nat, buffer: seq<int>)
    ensures Mark(depth, targets[..0], level) == depth && Changed(depth, depth, |depth|) == 0
    ensures Hits(targets[..0], buffer) == 0
  {
    ChangedZero(depth, depth, |depth|);
  }

  /** Following one more edge. */
  lemma EdgeStep(depth: seq<int>, targets: seq<int>, c: nat, level: nat, buffer: seq<int>)
    requires c < |targets| && forall i :: 0 <= i < |targets| ==> 0 <= targets[i] < |depth|
    ensures var was, now, x := Mark(depth, targets[..c], level), Mark(depth, targets[..c + 1], level), targets[c];
      && now == (if was[x] == -1 then was[x := level + 1] else was)
      && Changed(depth, now, |depth|) == Changed(depth, was, |depth|) + if was[x] == -1 then 1 else 0
    ensures Hits(targets[..c + 1], buffer) == Hits(targets[..c], buffer) + if targets[c] in buffer then 1 else 0
  {
    assert targets[..c + 1][..c] == targets[..c];
    var was := Mark(depth, targets[..c], level);
    if was[targets[c]] == -1 {
      MarkView(depth, targets[..c], level);
      ChangedUpdate(depth, was, targets[c], level + 1, |depth|);
    }
  }

  method TopDownVertex(g: Csr, depth: array<int>, level: nat, vidx: int) returns (t: Traffic)
    requires ShapeOk(g) && depth.Length == g.n && 0 <= vidx < g.n
    modifies depth
    ensures depth[..] == Mark(old(depth[..]), Out(g, vidx), level)
    ensures t == VertexTraffic(|Out(g, vidx)|, |Out(g, vidx)|, Changed(old(depth[..]), depth[..], g.n))
  {
    hide Mark, Changed, Hits;
    assert RowOk(g.rpao, g.ciao, vidx);
    ghost var d0, targets := depth[..], Out(g, vidx);
    var looks, writes := 0, 0;
    NoEdges(d0, targets, level, []);
    for cidx := g.rpao[vidx] to g.rpao[vidx + 1]
      invariant depth[..] == Mark(d0, targets[..cidx - g.rpao[vidx]], level)
      invariant looks == cidx - g.rpao[vidx]
      invariant writes == Changed(d0, depth[..], g.n)
    {
      var outNgb := g.ciao[cidx];
      ghost var was, c := depth[..], cidx - g.rpao[vidx];
      assert targets[c] == outNgb;
      EdgeStep(d0, targets, c, level, []);
      looks := looks + 1;
      if depth[outNgb] == -1 {
        writes := writes + 1;
        depth[outNgb] := level + 1;
        assert depth[..] == was[outNgb := level + 1];
      }
    }
    assert targets[..|targets|] == targets;
    var degree := g.rpao[vidx + 1] - g.rpao[vidx];
    t := Traffic(8 + 5 * looks, writes, 1 + Burst(degree, 4) + looks, writes);
  }

  /** The same with the hub cache: a cached neighbour is known to be visited and its depth is not read. */
  method CachedTopDownPass(g: Csr, depth: array<int>, level: nat, f: seq<int>, buffer: seq<int>) returns (t: Traffic)
    requires DepthOk(g, depth[..], f) && DepthOk(g, depth[..], buffer)
    requires forall j :: 0 <= j < |buffer| ==> depth[buffer[j]] == level
    modifies depth
    ensures depth[..] == TdDepth(g, old(depth[..]), f, level)
    ensures t == CachedTd(g, old(depth[..]), f, level, buffer)
  {
    t := NONE;
    ghost var d0 := depth[..];
    for i := 0 to |f|
      invariant depth[..] == TdDepth(g, d0, f[..i], level)
      invariant t == CachedTd(g, d0, f[..i], level, buffer)
    {
      CachedTdSnoc(g, d0, f, level, buffer, i);
      BufferStays(g, d0, f[..i], level, buffer);
      var v := CachedTopDownVertex(g, depth, level, f[i], buffer);
      t := Plus(t, v);
    }
    assert f[..|f|] == f;
  }

  lemma BufferStays(g: Csr, depth: seq<int>, f: seq<int>, level: nat, buffer: seq<int>)
    requires DepthOk(g, depth, f) && DepthOk(g, depth, buffer)
    requires forall j :: 0 <= j < |buffer| ==> depth[buffer[j]] == level
    ensures forall j :: 0 <= j < |buffer| ==> TdDepth(g, depth, f, level)[buffer[j]] == level
  {
    forall j | 0 <= j < |buffer| ensures TdDepth(g, depth, f, level)[buffer[j]] == level {
      TdView(g, depth, f, level, buffer[j]);
    }
  }

  method CachedTopDownVertex(g: Csr, depth: array<int>, level: nat, vidx: int, buffer: seq<int>) returns (t: Traffic)
    requires ShapeOk(g) && depth.Length == g.n && 0 <= vidx < g.n
    requires forall j :: 0 <= j < |buffer| ==> 0 <= buffer[j] < g.n && depth[buffer[j]] == level
    modifies depth
    ensures depth[..] == Mark(old(depth[..]), Out(g, vidx), level)
    ensures t == CachedTdVertex(g, old(depth[..]), vidx, level, buffer)
  {
    hide Mark, Changed, Hits;
    assert RowOk(g.rpao, g.ciao, vidx);
    ghost var d0, targets := depth[..], Out(g, vidx);
    var edges, looks, writes := 0, 0, 0;
    NoEdges(d0, targets, level, buffer);
    for cidx := g.rpao[vidx] to g.rpao[vidx + 1]
      invariant depth[..] == Mark(d0, targets[..cidx - g.rpao[vidx]], level)
      invariant edges == cidx - g.rpao[vidx]
      invariant looks == edges - Hits(targets[..edges], buffer)
      invariant writes == Changed(d0, depth[..], g.n)
      invariant forall j :: 0 <= j < |buffer| ==> depth[buffer[j]] == level
    {
      var outNgb := g.ciao[cidx];
      ghost var was, c := depth[..], cidx - g.rpao[vidx];
      assert targets[c] == outNgb;
      EdgeStep(d0, targets, c, level, buffer);
      edges := edges + 1;
      if outNgb !in buffer {
        looks := looks + 1;
        if depth[outNgb] == -1 {
          writes := writes + 1;
          depth[outNgb] := level + 1;
          assert depth[..] == was[outNgb := level + 1];
        }
      }
    }
    assert targets[..|targets|] == targets;
    var degree := g.rpao[vidx + 1] - g.rpao[vidx];
    t := Traffic(8 + 4 * edges + looks, writes, 1 + Burst(degree, 4) + looks, writes);
  }

  /** Search the incoming edges of every unvisited vertex for a parent on the current level. */
  method BottomUpPass(g: Csr, depth: array<int>, level: nat, f: seq<int>) returns (t: Traffic)
    requires DepthOk(g, depth[..], f)
    modifies depth
    ensures depth[..] == BuDepth(g, old(depth[..]), f, level)
    ensures t == BuTraffic(g, old(depth[..]), f, level)
  {
    t := NONE;
    ghost var d0 := depth[..];
    for i := 0 to |f|
      invariant depth[..] == BuDepth(g, d0, f[..i], level)
      invariant t == BuTraffic(g, d0, f[..i], level)
    {
      BuSnoc(g, d0, f, level, i);
      var v := BottomUpVertex(g, depth, level, f[i]);
      t := Plus(t, v);
    }
    assert f[..|f|] == f;
  }

  method BottomUpVertex(g: Csr, depth: array<int>, level: nat, vidx: int) returns (t: Traffic)
    requires ShapeOk(g) && depth.Length == g.n && 0 <= vidx < g.n
    modifies depth
    ensures depth[..] == BuMark(g, old(depth[..]), vidx, level)
    ensures t == BuVertex(g, old(depth[..]), vidx, level)
  {
    ghost var was := depth[..];
    var j := FindParent(g, depth, level, vidx);
    var degree := g.rpai[vidx + 1] - g.rpai[vidx];
    if j < degree {
      depth[vidx] := level + 1;
      assert depth[..] == was[vidx := level + 1];
      t := Traffic(8 + 5 * (j + 1), 1, 1 + Burst(degree, 4) + j + 1, 1);
    } else {
      t := Traffic(8 + 5 * j, 0, 1 + Burst(degree, 4) + j, 0);
    }
  }

  /** The scan over incoming edges up to its `break`. */
  method FindParent(g: Csr, depth: array<int>, level: nat, vidx: int) returns (j: nat)
    requires ShapeOk(g) && depth.Length == g.n && 0 <= vidx < g.n
    ensures j == FirstAt(depth[..], level, In(g, vidx))
  {
    assert RowOk(g.rpai, g.ciai, vidx);
    j := 0;
    var cidx := g.rpai[vidx];
    while cidx < g.rpai[vidx + 1]
      invariant g.rpai[vidx] <= cidx <= g.rpai[vidx + 1] && j == cidx - g.rpai[vidx]
      invariant forall i :: 0 <= i < j ==> depth[In(g, vidx)[i]] != level
    {
      if depth[g.ciai[cidx]] == level {
        return;
      }
      cidx, j := cidx + 1, j + 1;
    }
  }

  /** The same with the hub cache: a cached in-neighbour ends the search without reading its depth. */
  method CachedBottomUpPass(g: Csr, depth: array<int>, level: nat, f: seq<int>, buffer: seq<int>) returns (t: Traffic)
    requires DepthOk(g, depth[..], f) && DepthOk(g, depth[..], buffer)
    requires forall j :: 0 <= j < |buffer| ==> depth[buffer[j]] == level
    requires forall j :: 0 <= j < |f| ==> depth[f[j]] == -1
    modifies depth
    ensures depth[..] == BuDepth(g, old(depth[..]), f, level)
    ensures t == CachedBu(g, old(depth[..]), f, level, buffer)
  {
    t := NONE;
    ghost var d0 := depth[..];
    for i := 0 to |f|
      invariant depth[..] == BuDepth(g, d0, f[..i], level)
      invariant t == CachedBu(g, d0, f[..i], level, buffer)
    {
      CachedBuSnoc(g, d0, f, level, buffer, i);
      BuView(g, d0, f[..i], level);
      var v := CachedBottomUpVertex(g, depth, level, f[i], buffer);
      t := Plus(t, v);
    }
    assert f[..|f|] == f;
  }

  method CachedBottomUpVertex(g: Csr, depth: array<int>, level: nat, vidx: int, buffer: seq<int>) returns (t: Traffic)
    requires ShapeOk(g) && depth.Length == g.n && 0 <= vidx < g.n
    requires forall j :: 0 <= j < |buffer| ==> 0 <= buffer[j] < g.n && depth[buffer[j]] == level
    modifies depth
    ensures depth[..] == BuMark(g, old(depth[..]), vidx, level)
    ensures t == CachedBuVertex(g, old(depth[..]), vidx, level, buffer)
  {
    ghost var was := depth[..];
    var j, hit := CachedFindParent(g, depth, level, vidx, buffer);
    var degree := g.rpai[vidx + 1] - g.rpai[vidx];
    if j < degree {
      depth[vidx] := level + 1;
      assert depth[..] == was[vidx := level + 1];
      var looks := if hit then j else j + 1;
      t := Traffic(8 + 4 * (j + 1) + looks, 1, 1 + Burst(degree, 4) + looks, 1);
    } else {
      t := Traffic(8 + 5 * j, 0, 1 + Burst(degree, 4) + j, 0);
    }
  }

  method CachedFindParent(g: Csr, depth: array<int>, level: nat, vidx: int, buffer: seq<int>)
    returns (j: nat, hit: bool)
    requires ShapeOk(g) && depth.Length == g.n && 0 <= vidx < g.n
    requires forall i :: 0 <= i < |buffer| ==> 0 <= buffer[i] < g.n && depth[buffer[i]] == level
    ensures j == FirstAt(depth[..], level, In(g, vidx))
    ensures hit <==> j < |In(g, vidx)| && In(g, vidx)[j] in buffer
  {
    assert RowOk(g.rpai, g.ciai, vidx);
    j, hit := 0, false;
    var cidx := g.rpai[vidx];
    while cidx < g.rpai[vidx + 1]
      invariant g.rpai[vidx] <= cidx <= g.rpai[vidx + 1] && j == cidx - g.rpai[vidx] && !hit
      invariant forall i :: 0 <= i < j ==> depth[In(g, vidx)[i]] != level
    {
      var inNgb := g.ciai[cidx];
      assert inNgb == In(g, vidx)[j];
      if inNgb in buffer {
        return j, true;
      }
      if depth[inNgb] == level {
        return;
      }
      cidx, j := cidx + 1, j + 1;
    }
  }
}
