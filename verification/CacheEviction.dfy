/** Eviction: the victim leaves its level and everything above, and its dirtiness lands
    one level down, or in the memory queue when the last level evicts it. */
module CacheEviction {
  import opened Arith
  import opened CacheSets
  import opened CacheModel
  import opened CacheViews

  ghost predicate WroteBack(s: System, r: System, addr: int, dirty: bool) {
    if dirty then exists t :: r.waits == s.waits + [Timed(t, Request(addr, Write))] else r.waits == s.waits
  }

  ghost predicate Evicted(c: Config, s: System, r: System, k: nat, victim: Line)
    requires Fits(c, s) && Fits(c, r) && k < |c.geos|
  {
    var b := Block(c, victim.addr);
    && SetsOk(c, r)
    && (forall j, x :: 0 <= j < |c.geos| && x != b ==> Get(c, r, j, x) == Get(c, s, j, x))
    && (forall j :: 0 <= j <= k ==> Get(c, r, j, b) == None)
    && (k + 1 < |c.geos| ==>
          Get(c, r, k + 1, b) == Some(Line(victim.addr, Tag(c, k + 1, victim.addr), false, DirtyTo(c, s, k + 1, b))))
    && (forall j :: k + 1 < j < |c.geos| ==> Get(c, r, j, b) == Get(c, s, j, b))
    && SameMshrs(c, s, r)
    && r.fault == s.fault && r.hits == s.hits && r.clk == s.clk
    && WroteBack(s, r, victim.addr, k + 1 == |c.geos| && DirtyTo(c, s, k, b))
  }

  /** The first half of `evict`: the back-invalidation of the levels above. */
  function Above(c: Config, s: System, k: nat, victim: Line): (r: Invalidated)
    requires Fits(c, s) && k < |c.geos|
    ensures Fits(c, r.sys)
  {
    if k == 0 then Invalidated(s, 0, false) else Invalidate(c, s, k - 1, victim.addr)
  }

  lemma AboveView(c: Config, s: System, k: nat, addr: int, p: nat)
    requires Fits(c, s) && k < |c.geos| && SetsOk(c, s) && p < |Lines(c, s, k, addr)|
    requires var v := Lines(c, s, k, addr)[p];
      Evictable(c, s, k, v) && Stacked(c, s, |c.geos| - 1, Block(c, v.addr))
    ensures Raised(c, s, k, Lines(c, s, k, addr)[p], Above(c, s, k, Lines(c, s, k, addr)[p]))
  {
    var v := Lines(c, s, k, addr)[p];
    var b := Block(c, v.addr);
    LineBlock(c, s, k, addr, p);
    assert Get(c, s, k, b) == Some(v);
    if k > 0 {
      CheckUnlockMeaning(c, s, k - 1, v.addr);
      InvalidateView(c, s, k - 1, v.addr);
      DirtySplit(c, s, s, k, b);
    } else {
      assert DirtyTo(c, s, 0, b) <==> Dirty(c, s, 0, b);
    }
  }

  /** The second half: hand the dirty bit down (or to memory), then drop the line. */
  function Below(c: Config, up: Invalidated, k: nat, victim: Line): (r: System)
    requires Fits(c, up.sys) && k < |c.geos|
    ensures Fits(c, r)
  {
    var time := if k == 0 then 0 else Max(0, up.delay + if up.dirty then c.geos[k].latencyEach else 0);
    var dirty := victim.dirty || up.dirty;
    if k + 1 < |c.geos| then EvictLine(c, up.sys, k + 1, victim.addr, dirty)
    else if dirty then
      up.sys.(waits := up.sys.waits + [Timed(up.sys.clk + time + c.geos[k].latency, Request(victim.addr, Write))])
    else up.sys
  }

  lemma EvictSplit(c: Config, s: System, k: nat, addr: int, p: nat)
    requires Fits(c, s) && k < |c.geos| && p < |Lines(c, s, k, addr)|
    ensures var v := Lines(c, s, k, addr)[p];
      var m := Below(c, Above(c, s, k, v), k, v);
      var lines := Lines(c, m, k, addr);
      Evict(c, s, k, addr, p) == if p < |lines| then WithLines(c, m, k, addr, Erase(lines, p)) else m.(fault := true)
  {
  }

  ghost predicate Handed(c: Config, s: System, r: System, k: nat, victim: Line)
    requires Fits(c, s) && Fits(c, r) && k < |c.geos|
  {
    var b := Block(c, victim.addr);
    && SetsOk(c, r)
    && (forall j, x :: 0 <= j < |c.geos| && x != b ==> Get(c, r, j, x) == Get(c, s, j, x))
    && (forall j :: 0 <= j < k ==> Get(c, r, j, b) == None)
    && r.levels[k] == s.levels[k]
    && (k + 1 < |c.geos| ==>
          Get(c, r, k + 1, b) == Some(Line(victim.addr, Tag(c, k + 1, victim.addr), false, DirtyTo(c, s, k + 1, b))))
    && (forall j :: k + 1 < j < |c.geos| ==> Get(c, r, j, b) == Get(c, s, j, b))
    && SameMshrs(c, s, r)
    && r.fault == s.fault && r.hits == s.hits && r.clk == s.clk
    && WroteBack(s, r, victim.addr, k + 1 == |c.geos| && DirtyTo(c, s, k, b))
  }

  ghost predicate Raised(c: Config, s: System, k: nat, victim: Line, up: Invalidated)
    requires Fits(c, s) && Fits(c, up.sys) && k < |c.geos|
  {
    var b := Block(c, victim.addr);
    && Removed(c, s, up.sys, 0, k - 1, b)
    && up.sys.levels[k] == s.levels[k]
    && (victim.dirty || up.dirty <==> DirtyTo(c, s, k, b))
  }

  lemma BelowLast(c: Config, s: System, k: nat, victim: Line, up: Invalidated)
    requires Fits(c, s) && Fits(c, up.sys) && k + 1 == |c.geos| && Raised(c, s, k, victim, up)
    ensures Handed(c, s, Below(c, up, k, victim), k, victim)
  {
    var r := Below(c, up, k, victim);
    SameViews(c, up.sys, r);
    forall j, x | 0 <= j < |c.geos| && x != Block(c, victim.addr) ensures Get(c, r, j, x) == Get(c, s, j, x) {
      assert Get(c, r, j, x) == Get(c, up.sys, j, x);
    }
    forall j | 0 <= j < k ensures Get(c, r, j, Block(c, victim.addr)) == None {
      assert Get(c, r, j, Block(c, victim.addr)) == Get(c, up.sys, j, Block(c, victim.addr));
    }
  }

  lemma BelowNext(c: Config, s: System, k: nat, victim: Line, up: Invalidated)
    requires Fits(c, s) && Fits(c, up.sys) && k + 1 < |c.geos| && Raised(c, s, k, victim, up)
    requires Get(c, s, k + 1, Block(c, victim.addr)).Some?
    ensures Handed(c, s, Below(c, up, k, victim), k, victim)
  {
    var b := Block(c, victim.addr);
    assert Get(c, up.sys, k + 1, b) == Get(c, s, k + 1, b);
    EvictLineView(c, up.sys, k + 1, victim.addr, victim.dirty || up.dirty);
    DirtySplit(c, s, s, k + 1, b);
  }

  /** Dropping the victim at its own level completes the eviction. */
  lemma HandedEvicted(c: Config, s: System, m: System, k: nat, v: Line)
    requires Fits(c, s) && Fits(c, m) && k < |c.geos| && Handed(c, s, m, k, v)
    requires Pos(Lines(c, m, k, v.addr), Tag(c, k, v.addr)) < |Lines(c, m, k, v.addr)|
    ensures var lines := Lines(c, m, k, v.addr);
      Evicted(c, s, WithLines(c, m, k, v.addr, Erase(lines, Pos(lines, Tag(c, k, v.addr)))), k, v)
  {
    DropView(c, m, k, v.addr, Pos(Lines(c, m, k, v.addr), Tag(c, k, v.addr)));
  }

  lemma EvictView(c: Config, s: System, k: nat, addr: int, p: nat)
    requires Fits(c, s) && k < |c.geos| && SetsOk(c, s) && p < |Lines(c, s, k, addr)|
    requires var v := Lines(c, s, k, addr)[p];
      && Evictable(c, s, k, v)
      && Stacked(c, s, |c.geos| - 1, Block(c, v.addr))
    ensures Evicted(c, s, Evict(c, s, k, addr, p), k, Lines(c, s, k, addr)[p])
    ensures |Lines(c, Evict(c, s, k, addr, p), k, addr)| == |Lines(c, s, k, addr)| - 1
  {
    var v := Lines(c, s, k, addr)[p];
    var up := Above(c, s, k, v);
    var m := Below(c, up, k, v);
    AboveView(c, s, k, addr, p);
    LineBlock(c, s, k, addr, p);
    if k + 1 < |c.geos| {
      assert IncludedAt(c, s, k, Block(c, v.addr));
      BelowNext(c, s, k, v, up);
    } else {
      BelowLast(c, s, k, v, up);
    }
    EvictSplit(c, s, k, addr, p);
    assert Lines(c, m, k, v.addr) == Lines(c, s, k, addr);
    HandedEvicted(c, s, m, k, v);
  }
}
