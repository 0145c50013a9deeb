/** What each step of the cache chain does to the line held for every block at every level. */
module CacheViews {
  import opened Arith
  import opened CacheSets
  import opened CacheModel

  /** The levels the constructor can build: set counts are powers of two, and every set has a way. */
  ghost predicate Buildable(c: Config) {
    && c.blockSize > 0 && |c.geos| > 0
    && (forall k :: 0 <= k < |c.geos| ==> c.geos[k].blockNum > 0 && c.geos[k].assoc > 0)
    && forall k :: 0 <= k < |c.geos| ==> IsPow2(c.geos[k].blockNum)
  }

  /** In how many sets of the first level the blocks of one set of level k can lie. */
  function Spread(c: Config, k: nat): int
    requires 0 < |c.geos| && k < |c.geos| && c.geos[k].blockNum > 0
  {
    if c.geos[0].blockNum % c.geos[k].blockNum == 0 then c.geos[0].blockNum / c.geos[k].blockNum else 1
  }

  /** Level k has MSHR entries for all blocks the first level can be fetching at once, and ways for all of those that
      can fall into one of its sets. */
  ghost predicate Roomy(c: Config, k: nat)
    requires 0 < |c.geos| && k < |c.geos| && c.geos[k].blockNum > 0
  {
    var top := c.geos[0];
    && Min(top.mshrNum, top.blockNum * top.assoc) <= c.geos[k].mshrNum
    && Min(top.mshrNum, Spread(c, k) * top.assoc) <= c.geos[k].assoc
  }

  /** The chains that cannot get stuck. */
  ghost predicate ValidConfig(c: Config) {
    Buildable(c) && forall k :: 1 <= k < |c.geos| ==> Roomy(c, k)
  }

  /** The line held for block `b` at level `k`. */
  ghost function Get(c: Config, s: System, k: nat, b: int): Option<Line>
    requires Fits(c, s) && k < |c.geos|
  {
    Lookup(s.levels[k].sets[b % c.geos[k].blockNum], b / c.geos[k].blockNum)
  }

  ghost predicate Locked(c: Config, s: System, k: nat, b: int)
    requires Fits(c, s) && k < |c.geos|
  {
    Get(c, s, k, b).Some? && Get(c, s, k, b).value.lock
  }

  ghost predicate Dirty(c: Config, s: System, k: nat, b: int)
    requires Fits(c, s) && k < |c.geos|
  {
    Get(c, s, k, b).Some? && Get(c, s, k, b).value.dirty
  }

  ghost predicate SetOk(c: Config, k: nat, i: int, lines: seq<Line>)
    requires c.blockSize > 0 && k < |c.geos| && c.geos[k].blockNum > 0
  {
    && Distinct(lines)
    && |lines| <= c.geos[k].assoc
    && forall l :: l in lines ==> Index(c, k, l.addr) == i && l.tag == Tag(c, k, l.addr)
  }

  ghost predicate SetsOk(c: Config, s: System)
    requires Fits(c, s)
  {
    forall k, i :: 0 <= k < |c.geos| && 0 <= i < c.geos[k].blockNum ==> SetOk(c, k, i, s.levels[k].sets[i])
  }

  lemma DivModUnique(n: int, a: int, b: int)
    requires n > 0
    ensures a == b <==> a % n == b % n && a / n == b / n
  {
    assert a == n * (a / n) + a % n && b == n * (b / n) + b % n;
  }

  lemma GetLines(c: Config, s: System, k: nat, addr: int)
    requires Fits(c, s) && k < |c.geos|
    ensures Get(c, s, k, Block(c, addr)) == Lookup(Lines(c, s, k, addr), Tag(c, k, addr))
  {
  }

  lemma LineBlock(c: Config, s: System, k: nat, addr: int, p: nat)
    requires Fits(c, s) && k < |c.geos| && SetsOk(c, s) && p < |Lines(c, s, k, addr)|
    ensures var l := Lines(c, s, k, addr)[p];
      && Lines(c, s, k, l.addr) == Lines(c, s, k, addr)
      && Pos(Lines(c, s, k, addr), l.tag) == p
      && l.tag == Tag(c, k, l.addr)
      && Index(c, k, l.addr) == Index(c, k, addr)
      && Get(c, s, k, Block(c, l.addr)) == Some(l)
      && (Block(c, l.addr) == Block(c, addr) <==> l.tag == Tag(c, k, addr))
  {
    var lines := Lines(c, s, k, addr);
    var l := lines[p];
    assert SetOk(c, k, Index(c, k, addr), lines);
    assert l in lines;
    LookupAt(lines, p);
    DivModUnique(c.geos[k].blockNum, Block(c, l.addr), Block(c, addr));
  }

  lemma GetBlock(c: Config, s: System, k: nat, b: int)
    requires Fits(c, s) && k < |c.geos| && SetsOk(c, s) && Get(c, s, k, b).Some?
    ensures Block(c, Get(c, s, k, b).value.addr) == b
  {
    var i := b % c.geos[k].blockNum;
    var lines := s.levels[k].sets[i];
    var l := Get(c, s, k, b).value;
    assert SetOk(c, k, i, lines);
    assert l in lines;
    DivModUnique(c.geos[k].blockNum, Block(c, l.addr), b);
  }

  /** One set edit that changes the answer for one tag changes the view at one block only. */
  lemma EditView(c: Config, s: System, k: nat, addr: int, lines: seq<Line>, now: Option<Line>)
    requires Fits(c, s) && k < |c.geos| && SetsOk(c, s)
    requires SetOk(c, k, Index(c, k, addr), lines)
    requires forall t :: Lookup(lines, t) == if t == Tag(c, k, addr) then now else Lookup(Lines(c, s, k, addr), t)
    ensures var r := WithLines(c, s, k, addr, lines);
      && SetsOk(c, r)
      && (forall j, b :: 0 <= j < |c.geos| ==>
            Get(c, r, j, b) == if j == k && b == Block(c, addr) then now else Get(c, s, j, b))
      && (forall j :: 0 <= j < |c.geos| ==> r.levels[j].mshr == s.levels[j].mshr)
  {
    var r := WithLines(c, s, k, addr, lines);
    forall j, b | 0 <= j < |c.geos|
      ensures Get(c, r, j, b) == if j == k && b == Block(c, addr) then now else Get(c, s, j, b)
    {
      DivModUnique(c.geos[j].blockNum, b, Block(c, addr));
    }
  }

  /** Frame of the steps that only edit lines. */
  ghost predicate SameMshrs(c: Config, s: System, r: System)
    requires Fits(c, s) && Fits(c, r)
  {
    forall j :: 0 <= j < |c.geos| ==> r.levels[j].mshr == s.levels[j].mshr
  }

  /** The views depend on the levels only, not on clocks and queues. */
  lemma SameViews(c: Config, s: System, r: System)
    requires Fits(c, s) && SetsOk(c, s) && r.levels == s.levels
    ensures Fits(c, r) && SetsOk(c, r)
    ensures forall j, b :: 0 <= j < |c.geos| ==> Get(c, r, j, b) == Get(c, s, j, b)
  {
    forall j, i | 0 <= j < |c.geos| && 0 <= i < c.geos[j].blockNum ensures SetOk(c, j, i, r.levels[j].sets[i]) {
      assert SetOk(c, j, i, s.levels[j].sets[i]);
    }
  }

  /** Line edits at level k that drop the line of `addr`. */
  lemma DropView(c: Config, s: System, k: nat, addr: int, p: nat)
    requires Fits(c, s) && k < |c.geos| && SetsOk(c, s)
    requires p == Pos(Lines(c, s, k, addr), Tag(c, k, addr)) < |Lines(c, s, k, addr)|
    ensures var r := WithLines(c, s, k, addr, Erase(Lines(c, s, k, addr), p));
      && SetsOk(c, r)
      && (forall j, b :: 0 <= j < |c.geos| ==>
            Get(c, r, j, b) == if j == k && b == Block(c, addr) then None else Get(c, s, j, b))
      && SameMshrs(c, s, r)
  {
    var lines := Lines(c, s, k, addr);
    assert SetOk(c, k, Index(c, k, addr), lines);
    EraseView(lines, p);
    EditView(c, s, k, addr, Erase(lines, p), None);
  }

  /** Line edits at level k that move the line of `addr` to the MRU end with new bits. */
  lemma MoveView(c: Config, s: System, k: nat, addr: int, p: nat, line: Line)
    requires Fits(c, s) && k < |c.geos| && SetsOk(c, s)
    requires p == Pos(Lines(c, s, k, addr), Tag(c, k, addr)) < |Lines(c, s, k, addr)|
    requires line.addr == addr && line.tag == Tag(c, k, addr)
    ensures var r := WithLines(c, s, k, addr, Erase(Lines(c, s, k, addr) + [line], p));
      && SetsOk(c, r)
      && (forall j, b :: 0 <= j < |c.geos| ==>
            Get(c, r, j, b) == if j == k && b == Block(c, addr) then Some(line) else Get(c, s, j, b))
      && SameMshrs(c, s, r)
  {
    var lines := Lines(c, s, k, addr);
    assert SetOk(c, k, Index(c, k, addr), lines);
    TouchView(lines, p, line);
    EditView(c, s, k, addr, Erase(lines + [line], p), Some(line));
  }

  /** Line edits at level k that append a line for an absent block. */
  lemma AppendView(c: Config, s: System, k: nat, line: Line)
    requires Fits(c, s) && k < |c.geos| && SetsOk(c, s)
    requires Get(c, s, k, Block(c, line.addr)) == None
    requires |Lines(c, s, k, line.addr)| < c.geos[k].assoc
    requires line.tag == Tag(c, k, line.addr)
    ensures var r := WithLines(c, s, k, line.addr, Lines(c, s, k, line.addr) + [line]);
      && SetsOk(c, r)
      && (forall j, b :: 0 <= j < |c.geos| ==>
            Get(c, r, j, b) == if j == k && b == Block(c, line.addr) then Some(line) else Get(c, s, j, b))
      && SameMshrs(c, s, r)
  {
    var lines := Lines(c, s, k, line.addr);
    assert SetOk(c, k, Index(c, k, line.addr), lines);
    PushView(lines, line);
    EditView(c, s, k, line.addr, lines + [line], Some(line));
  }

  /** Rewriting the bits of the line an MSHR entry points at. */
  lemma WithLineView(c: Config, s: System, k: nat, addr: int, lock: bool, dirty: bool)
    requires Fits(c, s) && k < |c.geos| && SetsOk(c, s)
    requires Get(c, s, k, Block(c, addr)).Some?
    ensures var r := WithLine(c, s, k, addr, lock, dirty);
      var l := Get(c, s, k, Block(c, addr)).value;
      && SetsOk(c, r)
      && (forall j, b :: 0 <= j < |c.geos| ==>
            Get(c, r, j, b) == if j == k && b == Block(c, addr)
                               then Some(l.(lock := lock && l.lock, dirty := dirty || l.dirty))
                               else Get(c, s, j, b))
      && SameMshrs(c, s, r)
      && r.fault == s.fault && r.waits == s.waits && r.hits == s.hits && r.clk == s.clk
  {
    var lines := Lines(c, s, k, addr);
    var p := Pos(lines, Tag(c, k, addr));
    var l := lines[p];
    var l' := l.(lock := lock && l.lock, dirty := dirty || l.dirty);
    assert SetOk(c, k, Index(c, k, addr), lines);
    assert l in lines;
    UpdateView(lines, p, l');
    EditView(c, s, k, addr, lines[p := l'], Some(l'));
  }

  /** Inclusion and lock order of one block, from level `lo` up to level `hi`. */
  ghost predicate Stacked(c: Config, s: System, hi: nat, b: int)
    requires Fits(c, s) && hi < |c.geos|
  {
    forall j :: 0 <= j < hi ==> IncludedAt(c, s, j, b)
  }

  /** If level j holds block b, so does the level below. */
  ghost predicate IncludedAt(c: Config, s: System, j: nat, b: int)
    requires Fits(c, s) && j + 1 < |c.geos|
  {
    Get(c, s, j, b).Some? ==> Get(c, s, j + 1, b).Some?
  }

  /** If the level below level j has block b locked, so has level j. */
  ghost predicate OrderedAt(c: Config, s: System, j: nat, b: int)
    requires Fits(c, s) && j + 1 < |c.geos|
  {
    Locked(c, s, j + 1, b) ==> Locked(c, s, j, b)
  }

  ghost predicate UnlockedTo(c: Config, s: System, hi: nat, b: int)
    requires Fits(c, s) && hi < |c.geos|
  {
    forall j :: 0 <= j <= hi ==> !Locked(c, s, j, b)
  }

  /** If any of the levels 0..hi holds block b dirty. */
  ghost predicate DirtyTo(c: Config, s: System, hi: nat, b: int)
    requires Fits(c, s) && hi < |c.geos|
  {
    exists j :: 0 <= j <= hi && Dirty(c, s, j, b)
  }

  lemma {:induction false} AbsentAbove(c: Config, s: System, hi: nat, b: int, j: nat)
    requires Fits(c, s) && j <= hi < |c.geos| && Stacked(c, s, hi, b)
    requires Get(c, s, hi, b) == None
    ensures Get(c, s, j, b) == None
    decreases hi - j
  {
    if j < hi {
      assert IncludedAt(c, s, j, b);
      AbsentAbove(c, s, hi, b, j + 1);
    }
  }

  /** `check_unlock` walks up only while the block is present; under inclusion that covers all levels. */
  lemma {:induction false} CheckUnlockMeaning(c: Config, s: System, k: nat, addr: int)
    requires Fits(c, s) && k < |c.geos| && SetsOk(c, s) && Stacked(c, s, k, Block(c, addr))
    ensures CheckUnlock(c, s, k, addr) <==> UnlockedTo(c, s, k, Block(c, addr))
    decreases k
  {
    var b := Block(c, addr);
    var lines := Lines(c, s, k, addr);
    var p := Pos(lines, Tag(c, k, addr));
    GetLines(c, s, k, addr);
    if p == |lines| {
      forall j | 0 <= j <= k ensures !Locked(c, s, j, b) {
        AbsentAbove(c, s, k, b, j);
      }
    } else {
      LineBlock(c, s, k, addr, p);
      if k > 0 {
        CheckUnlockMeaning(c, s, k - 1, lines[p].addr);
        assert UnlockedTo(c, s, k, b) <==> !Locked(c, s, k, b) && UnlockedTo(c, s, k - 1, b);
      } else {
        assert UnlockedTo(c, s, k, b) <==> !Locked(c, s, 0, b);
      }
    }
  }

  /** r is s with the lines of block b gone from levels lo..hi and nothing else changed. */
  ghost predicate Removed(c: Config, s: System, r: System, lo: int, hi: int, b: int)
    requires Fits(c, s) && Fits(c, r)
  {
    && SetsOk(c, r)
    && (forall j, x :: 0 <= j < |c.geos| ==>
          Get(c, r, j, x) == if lo <= j <= hi && x == b then None else Get(c, s, j, x))
    && SameMshrs(c, s, r)
    && (forall j :: 0 <= j < |c.geos| && j > hi ==> r.levels[j] == s.levels[j])
    && r.fault == s.fault && r.waits == s.waits && r.hits == s.hits && r.clk == s.clk
  }

  lemma RemovedTrans(c: Config, s: System, m: System, r: System, k: nat, b: int)
    requires Fits(c, s) && Fits(c, m) && Fits(c, r) && 0 < k < |c.geos|
    requires Removed(c, s, m, k, k, b) && Removed(c, m, r, 0, k - 1, b)
    ensures Removed(c, s, r, 0, k, b)
  {
  }

  /** `invalidate`'s own erase at level k. */
  function Dropped(c: Config, s: System, k: nat, addr: int): (r: System)
    requires Fits(c, s) && k < |c.geos|
    requires Pos(Lines(c, s, k, addr), Tag(c, k, addr)) < |Lines(c, s, k, addr)|
    ensures Fits(c, r)
  {
    var lines := Lines(c, s, k, addr);
    var p := Pos(lines, Tag(c, k, addr));
    WithLines(c, s, k, addr, Erase(lines, p)).(fault := s.fault || lines[p].lock)
  }

  lemma DropRemoved(c: Config, s: System, k: nat, addr: int)
    requires Fits(c, s) && k < |c.geos| && SetsOk(c, s)
    requires Get(c, s, k, Block(c, addr)).Some? && !Locked(c, s, k, Block(c, addr))
    ensures Removed(c, s, Dropped(c, s, k, addr), k, k, Block(c, addr))
  {
    var p := Pos(Lines(c, s, k, addr), Tag(c, k, addr));
    GetLines(c, s, k, addr);
    DropView(c, s, k, addr, p);
    var w := WithLines(c, s, k, addr, Erase(Lines(c, s, k, addr), p));
    assert Dropped(c, s, k, addr) == w;
  }

  ghost predicate InvalidateOk(c: Config, s: System, k: nat, addr: int)
    requires Fits(c, s) && k < |c.geos|
  {
    var r := Invalidate(c, s, k, addr);
    && Removed(c, s, r.sys, 0, k, Block(c, addr))
    && (r.dirty <==> DirtyTo(c, s, k, Block(c, addr)))
  }

  lemma InvalidateAbsent(c: Config, s: System, k: nat, addr: int)
    requires Fits(c, s) && k < |c.geos| && SetsOk(c, s) && Stacked(c, s, k, Block(c, addr))
    requires Get(c, s, k, Block(c, addr)) == None
    ensures InvalidateOk(c, s, k, addr)
  {
    GetLines(c, s, k, addr);
    var r := Invalidate(c, s, k, addr);
    assert r.sys == s && !r.dirty;
    forall j | 0 <= j <= k ensures Get(c, s, j, Block(c, addr)) == None {
      AbsentAbove(c, s, k, Block(c, addr), j);
    }
  }

  lemma InvalidateFirst(c: Config, s: System, addr: int)
    requires Fits(c, s) && 0 < |c.geos| && SetsOk(c, s)
    requires Get(c, s, 0, Block(c, addr)).Some? && !Locked(c, s, 0, Block(c, addr))
    ensures InvalidateOk(c, s, 0, addr)
  {
    GetLines(c, s, 0, addr);
    DropRemoved(c, s, 0, addr);
    assert DirtyTo(c, s, 0, Block(c, addr)) <==> Dirty(c, s, 0, Block(c, addr));
  }

  /** Back-invalidation removes the block from levels 0..k and reports whether any copy was dirty. */
  lemma {:induction false} InvalidateView(c: Config, s: System, k: nat, addr: int)
    requires Fits(c, s) && k < |c.geos| && SetsOk(c, s)
    requires Stacked(c, s, k, Block(c, addr)) && UnlockedTo(c, s, k, Block(c, addr))
    ensures InvalidateOk(c, s, k, addr)
    decreases k
  {
    assert !Locked(c, s, k, Block(c, addr));
    if Get(c, s, k, Block(c, addr)) == None {
      InvalidateAbsent(c, s, k, addr);
    } else if k == 0 {
      InvalidateFirst(c, s, addr);
    } else {
      DropUpper(c, s, k, addr);
      InvalidateView(c, Dropped(c, s, k, addr), k - 1, addr);
      InvalidateCons(c, s, k, addr);
    }
  }

  lemma DropUpper(c: Config, s: System, k: nat, addr: int)
    requires Fits(c, s) && 0 < k < |c.geos| && SetsOk(c, s) && Get(c, s, k, Block(c, addr)).Some?
    requires Stacked(c, s, k, Block(c, addr)) && UnlockedTo(c, s, k, Block(c, addr))
    ensures var s1 := Dropped(c, s, k, addr);
      SetsOk(c, s1) && Stacked(c, s1, k - 1, Block(c, addr)) && UnlockedTo(c, s1, k - 1, Block(c, addr))
  {
    var b := Block(c, addr);
    var s1 := Dropped(c, s, k, addr);
    assert !Locked(c, s, k, b);
    DropRemoved(c, s, k, addr);
    forall j | 0 <= j < k - 1 ensures IncludedAt(c, s1, j, b) {
      assert IncludedAt(c, s, j, b);
    }
    forall j | 0 <= j <= k - 1 ensures !Locked(c, s1, j, b) {
      assert !Locked(c, s, j, b);
    }
  }

  lemma InvalidateCons(c: Config, s: System, k: nat, addr: int)
    requires Fits(c, s) && 0 < k < |c.geos| && SetsOk(c, s) && Get(c, s, k, Block(c, addr)).Some?
    requires !Locked(c, s, k, Block(c, addr))
    requires InvalidateOk(c, Dropped(c, s, k, addr), k - 1, addr)
    ensures InvalidateOk(c, s, k, addr)
  {
    var b := Block(c, addr);
    var s1 := Dropped(c, s, k, addr);
    var up := Invalidate(c, s1, k - 1, addr);
    GetLines(c, s, k, addr);
    DropRemoved(c, s, k, addr);
    RemovedTrans(c, s, s1, up.sys, k, b);
    DirtySplit(c, s, s1, k, b);
  }

  lemma DirtySplit(c: Config, s: System, s1: System, k: nat, b: int)
    requires Fits(c, s) && Fits(c, s1) && 0 < k < |c.geos|
    requires forall j :: 0 <= j < k ==> Get(c, s1, j, b) == Get(c, s, j, b)
    ensures DirtyTo(c, s, k, b) <==> Dirty(c, s, k, b) || DirtyTo(c, s1, k - 1, b)
  {
    if DirtyTo(c, s, k, b) && !Dirty(c, s, k, b) {
      var j :| 0 <= j <= k && Dirty(c, s, j, b);
      assert Dirty(c, s1, j, b);
    }
    if DirtyTo(c, s1, k - 1, b) {
      var j :| 0 <= j <= k - 1 && Dirty(c, s1, j, b);
      assert Dirty(c, s, j, b);
    }
  }

  lemma EvictLineView(c: Config, s: System, k: nat, addr: int, dirty: bool)
    requires Fits(c, s) && k < |c.geos| && SetsOk(c, s)
    requires Get(c, s, k, Block(c, addr)).Some?
    ensures var r := EvictLine(c, s, k, addr, dirty);
      var d := dirty || Get(c, s, k, Block(c, addr)).value.dirty;
      && SetsOk(c, r)
      && (forall j, b :: 0 <= j < |c.geos| ==>
            Get(c, r, j, b) == if j == k && b == Block(c, addr) then Some(Line(addr, Tag(c, k, addr), false, d))
                               else Get(c, s, j, b))
      && SameMshrs(c, s, r)
      && (forall j :: 0 <= j < |c.geos| && j != k ==> r.levels[j] == s.levels[j])
      && r.fault == s.fault && r.waits == s.waits && r.hits == s.hits && r.clk == s.clk
  {
    var lines := Lines(c, s, k, addr);
    var p := Pos(lines, Tag(c, k, addr));
    GetLines(c, s, k, addr);
    MoveView(c, s, k, addr, p, Line(addr, Tag(c, k, addr), false, dirty || lines[p].dirty));
  }
}
