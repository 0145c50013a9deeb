/** How long a back-invalidation takes, and so when the write-back of an evicted line is ready for the memory. */
module CacheDelay {
  import opened Arith
  import opened CacheEviction
  import opened CacheModel
  import opened CacheSets
  import opened CacheViews

  ghost predicate Costs(c: Config) {
    forall j :: 0 <= j < |c.geos| ==> c.geos[j].latencyEach >= 0
  }

  /** An invalidation that starts at level k gets to level i, and finds lines in the set there. */
  ghost predicate Pays(c: Config, s: System, k: nat, addr: int, i: nat)
    requires Fits(c, s) && i <= k < |c.geos|
  {
    (i == k || Get(c, s, i + 1, Block(c, addr)).Some?) && |Lines(c, s, i, addr)| > 0
  }

  /** The levels after lo, up to hi, that hear from the levels above them that a copy was dirty. */
  ghost function Doublings(c: Config, s: System, lo: nat, hi: nat, b: int): nat
    requires Fits(c, s) && lo <= hi < |c.geos|
    decreases hi
  {
    if hi == lo then 0 else Doublings(c, s, lo, hi - 1, b) + if DirtyTo(c, s, hi - 1, b) then 1 else 0
  }

  /** What the levels below i add to the delay: each that pays its own latency, doubled on every level on the way down
      that hears of a dirty copy. */
  ghost function Delay(c: Config, s: System, k: nat, addr: int, i: nat): int
    requires Fits(c, s) && i <= k + 1 && k < |c.geos|
  {
    if i == 0 then 0
    else
      Delay(c, s, k, addr, i - 1)
      + if Pays(c, s, k, addr, i - 1)
        then c.geos[i - 1].latencyEach * Pow2(Doublings(c, s, i - 1, k, Block(c, addr))) else 0
  }

  lemma {:induction false} DelayPositive(c: Config, s: System, k: nat, addr: int, i: nat)
    requires Fits(c, s) && i <= k + 1 && k < |c.geos| && Costs(c)
    ensures Delay(c, s, k, addr, i) >= 0
    decreases i
  {
    hide Pays, Doublings, Pow2;
    if i > 0 {
      DelayPositive(c, s, k, addr, i - 1);
      MulSign(Pow2(Doublings(c, s, i - 1, k, Block(c, addr))), c.geos[i - 1].latencyEach);
    }
  }

  /** Nothing above a level without the block is visited. */
  lemma {:induction false} DelayAbsent(c: Config, s: System, k: nat, addr: int, i: nat)
    requires Fits(c, s) && i <= k < |c.geos| && Stacked(c, s, k, Block(c, addr)) && Get(c, s, k, Block(c, addr)) == None
    ensures Delay(c, s, k, addr, i) == 0
    decreases i
  {
    hide Doublings;
    if i > 0 {
      DelayAbsent(c, s, k, addr, i - 1);
      AbsentAbove(c, s, k, Block(c, addr), i);
    }
  }

  lemma {:induction false} SameDoublings(c: Config, s: System, s1: System, lo: nat, hi: nat, b: int)
    requires Fits(c, s) && Fits(c, s1) && lo <= hi < |c.geos|
    requires forall j :: 0 <= j < hi ==> Get(c, s1, j, b) == Get(c, s, j, b)
    ensures Doublings(c, s1, lo, hi, b) == Doublings(c, s, lo, hi, b)
    decreases hi
  {
    hide Get;
    if lo < hi {
      SameDoublings(c, s, s1, lo, hi - 1, b);
      SameDirtyTo(c, s, s1, hi - 1, b);
    }
  }

  lemma SameDirtyTo(c: Config, s: System, s1: System, hi: nat, b: int)
    requires Fits(c, s) && Fits(c, s1) && hi < |c.geos|
    requires forall j :: 0 <= j <= hi ==> Get(c, s1, j, b) == Get(c, s, j, b)
    ensures DirtyTo(c, s1, hi, b) <==> DirtyTo(c, s, hi, b)
  {
    hide Get;
    forall j | 0 <= j <= hi ensures Dirty(c, s1, j, b) <==> Dirty(c, s, j, b) {
    }
  }

  /** Seen from one level farther down, the delay of the levels above is the same, or doubled. */
  lemma {:induction false} DelayDown(c: Config, s: System, s1: System, k: nat, addr: int, i: nat)
    requires Fits(c, s) && Fits(c, s1) && 0 < k < |c.geos| && i <= k
    requires Get(c, s, k, Block(c, addr)).Some?
    requires forall j :: 0 <= j < k ==>
      Get(c, s1, j, Block(c, addr)) == Get(c, s, j, Block(c, addr)) && s1.levels[j] == s.levels[j]
    ensures Delay(c, s, k, addr, i)
         == Delay(c, s1, k - 1, addr, i) * if DirtyTo(c, s, k - 1, Block(c, addr)) then 2 else 1
    decreases i
  {
    hide Get, DirtyTo, Pow2;
    if i > 0 {
      var b := Block(c, addr);
      DelayDown(c, s, s1, k, addr, i - 1);
      SameDoublings(c, s, s1, i - 1, k - 1, b);
      assert Pays(c, s, k, addr, i - 1) <==> Pays(c, s1, k - 1, addr, i - 1);
      var n := Doublings(c, s, i - 1, k - 1, b);
      Twice(c.geos[i - 1].latencyEach, n);
    }
  }

  lemma Twice(x: int, n: nat)
    ensures x * Pow2(n + 1) == x * Pow2(n) * 2
  {
  }

  /** MAIN: the delay that back-invalidation reports is the sum over the levels it gets to. */
  lemma {:induction false} InvalidateDelay(c: Config, s: System, k: nat, addr: int)
    requires Fits(c, s) && k < |c.geos| && SetsOk(c, s) && Costs(c)
    requires Stacked(c, s, k, Block(c, addr)) && UnlockedTo(c, s, k, Block(c, addr))
    ensures Invalidate(c, s, k, addr).delay == Delay(c, s, k, addr, k + 1)
    decreases k, 1
  {
    hide Delay, Stacked, UnlockedTo;
    var b := Block(c, addr);
    GetLines(c, s, k, addr);
    if Get(c, s, k, b) == None {
      DelayAbsent(c, s, k, addr, k);
      DelayHere(c, s, k, addr);
    } else if k == 0 {
      DelayHere(c, s, 0, addr);
      DelayNone(c, s, addr);
    } else {
      InvalidateDelayed(c, s, k, addr);
    }
  }

  /** The level where the invalidation starts pays once. */
  lemma DelayHere(c: Config, s: System, k: nat, addr: int)
    requires Fits(c, s) && k < |c.geos|
    ensures Delay(c, s, k, addr, k + 1)
         == Delay(c, s, k, addr, k) + if |Lines(c, s, k, addr)| > 0 then c.geos[k].latencyEach else 0
  {
    assert Doublings(c, s, k, k, Block(c, addr)) == 0 && Pow2(0) == 1;
  }

  lemma DelayNone(c: Config, s: System, addr: int)
    requires Fits(c, s) && 0 < |c.geos|
    ensures Delay(c, s, 0, addr, 0) == 0
  {
  }

  lemma {:induction false} InvalidateDelayed(c: Config, s: System, k: nat, addr: int)
    requires Fits(c, s) && 0 < k < |c.geos| && SetsOk(c, s) && Costs(c) && Get(c, s, k, Block(c, addr)).Some?
    requires Stacked(c, s, k, Block(c, addr)) && UnlockedTo(c, s, k, Block(c, addr))
    ensures Invalidate(c, s, k, addr).delay == Delay(c, s, k, addr, k + 1)
    decreases k, 0
  {
    hide Delay, Stacked, UnlockedTo, Get, SetsOk, DirtyTo, Invalidate;
    var b := Block(c, addr);
    GetLines(c, s, k, addr);
    var s1 := Dropped(c, s, k, addr);
    DropUpper(c, s, k, addr);
    DropAbove(c, s, k, addr);
    InvalidateDelay(c, s1, k - 1, addr);
    InvalidateView(c, s1, k - 1, addr);
    SameDirtyTo(c, s, s1, k - 1, b);
    DelayDown(c, s, s1, k, addr, k);
    DelayPositive(c, s1, k - 1, addr, k);
    DelayHere(c, s, k, addr);
    InvalidateUp(c, s, k, addr);
  }

  lemma DropAbove(c: Config, s: System, k: nat, addr: int)
    requires Fits(c, s) && 0 < k < |c.geos| && SetsOk(c, s) && Get(c, s, k, Block(c, addr)).Some?
    requires UnlockedTo(c, s, k, Block(c, addr))
    requires Pos(Lines(c, s, k, addr), Tag(c, k, addr)) < |Lines(c, s, k, addr)|
    ensures var s1 := Dropped(c, s, k, addr);
      forall j :: 0 <= j < k ==>
        Get(c, s1, j, Block(c, addr)) == Get(c, s, j, Block(c, addr)) && s1.levels[j] == s.levels[j]
  {
    hide Stacked, Lookup;
    assert !Locked(c, s, k, Block(c, addr));
    DropRemoved(c, s, k, addr);
  }

  /** What `invalidate` adds at its own level. */
  lemma InvalidateUp(c: Config, s: System, k: nat, addr: int)
    requires Fits(c, s) && 0 < k < |c.geos|
    requires Pos(Lines(c, s, k, addr), Tag(c, k, addr)) < |Lines(c, s, k, addr)|
    ensures var up, each := Invalidate(c, Dropped(c, s, k, addr), k - 1, addr), c.geos[k].latencyEach;
      Invalidate(c, s, k, addr).delay == Max(each, each + if up.dirty then up.delay * 2 else up.delay)
  {
  }

  /** When the write-back of a line of the last level is ready: after that level's latency, once the copies above have
      been invalidated, and after one more look-up of its own if a copy was dirty. */
  ghost function WriteBackTime(c: Config, s: System, addr: int): int
    requires Fits(c, s) && |c.geos| > 0
  {
    var k := |c.geos| - 1;
    s.clk + c.geos[k].latency
    + if k == 0 then 0
      else Delay(c, s, k - 1, addr, k) + if DirtyTo(c, s, k - 1, Block(c, addr)) then c.geos[k].latencyEach else 0
  }

  /** MAIN: the last level puts a victim that is dirty there or above on the memory queue, as a write that is ready at
      exactly that time, and queues nothing for any other. */
  lemma EvictTime(c: Config, s: System, addr: int, p: nat)
    requires Fits(c, s) && |c.geos| > 0 && SetsOk(c, s) && Costs(c) && p < |Lines(c, s, |c.geos| - 1, addr)|
    requires var v := Lines(c, s, |c.geos| - 1, addr)[p];
      Evictable(c, s, |c.geos| - 1, v) && Stacked(c, s, |c.geos| - 1, Block(c, v.addr))
    ensures var k := |c.geos| - 1;
      var v, r := Lines(c, s, k, addr)[p], Evict(c, s, k, addr, p);
      r.waits == if DirtyTo(c, s, k, Block(c, v.addr))
                 then s.waits + [Timed(WriteBackTime(c, s, v.addr), Request(v.addr, Write))] else s.waits
  {
    hide Delay, DirtyTo, Stacked, SetsOk, Get, Invalidate, Evict;
    var k := |c.geos| - 1;
    var v := Lines(c, s, k, addr)[p];
    EvictView(c, s, k, addr, p);
    EvictSplit(c, s, k, addr, p);
    AboveView(c, s, k, addr, p);
    if k > 0 {
      AboveReady(c, s, k, v);
      InvalidateDelay(c, s, k - 1, v.addr);
      DelayPositive(c, s, k - 1, v.addr, k);
    }
  }

  lemma AboveReady(c: Config, s: System, k: nat, v: Line)
    requires Fits(c, s) && 0 < k < |c.geos| && SetsOk(c, s) && Stacked(c, s, |c.geos| - 1, Block(c, v.addr))
    requires Evictable(c, s, k, v)
    ensures Stacked(c, s, k - 1, Block(c, v.addr)) && UnlockedTo(c, s, k - 1, Block(c, v.addr))
    ensures var up := Invalidate(c, s, k - 1, v.addr);
      (up.dirty <==> DirtyTo(c, s, k - 1, Block(c, v.addr))) && up.sys.clk == s.clk && up.sys.waits == s.waits
  {
    hide Invalidate;
    assert Stacked(c, s, k - 1, Block(c, v.addr)) by {
      assert forall j :: 0 <= j < k - 1 ==> IncludedAt(c, s, j, Block(c, v.addr));
    }
    CheckUnlockMeaning(c, s, k - 1, v.addr);
    InvalidateView(c, s, k - 1, v.addr);
  }
}
