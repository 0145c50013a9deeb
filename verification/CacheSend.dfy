/** One access: it keeps the invariant, is never refused below the first level, trips no assertion,
    and neither loses nor invents dirty data. */
module CacheSend {
  import opened CacheSets
  import opened CacheModel
  import opened CacheViews
  import opened CacheEviction
  import opened CacheInvariant

  /** Some level holds block b dirty. */
  ghost predicate AnyDirty(c: Config, s: System, b: int)
    requires Fits(c, s)
  {
    exists j :: 0 <= j < |c.geos| && Dirty(c, s, j, b)
  }

  /** A write of block b was put on the memory queue between s and r. */
  ghost predicate Pushed(c: Config, s: System, r: System, b: int)
    requires c.blockSize > 0
  {
    exists i :: |s.waits| <= i < |r.waits| && r.waits[i].req.kind == Write && Block(c, r.waits[i].req.addr) == b
  }

  /** Dirty data is conserved from s to r: block b is dirty or just written back afterwards exactly if it
      was dirty before or is the block x now being written; it is never both. */
  ghost predicate Conserved(c: Config, s: System, r: System, x: int, wrote: bool)
    requires Fits(c, s) && Fits(c, r)
  {
    && s.waits <= r.waits
    && forall b {:trigger AnyDirty(c, r, b)} {:trigger Pushed(c, s, r, b)} ::
      && (AnyDirty(c, r, b) || Pushed(c, s, r, b) <==> AnyDirty(c, s, b) || (wrote && b == x))
      && !(AnyDirty(c, r, b) && Pushed(c, s, r, b))
  }

  /** r differs from s at level k in the bits of block x only, its dirty bit gaining `wrote`. */
  ghost predicate Marked(c: Config, s: System, r: System, k: nat, x: int, wrote: bool)
    requires Fits(c, s) && Fits(c, r) && k < |c.geos|
  {
    && (forall j, b :: 0 <= j < |c.geos| && !(j == k && b == x) ==> Get(c, r, j, b) == Get(c, s, j, b))
    && (Dirty(c, r, k, x) <==> Dirty(c, s, k, x) || wrote)
  }

  lemma NothingPushed(c: Config, s: System, r: System, b: int)
    requires c.blockSize > 0
    requires r.waits == s.waits
          || exists w :: r.waits == s.waits + [w] && w.req.kind == Read
    ensures !Pushed(c, s, r, b)
  {
  }

  lemma MarkedConserved(c: Config, s: System, r: System, k: nat, x: int, wrote: bool)
    requires Fits(c, s) && Fits(c, r) && k < |c.geos| && Marked(c, s, r, k, x, wrote)
    requires r.waits == s.waits
    ensures Conserved(c, s, r, x, wrote)
  {
    forall b
      ensures AnyDirty(c, r, b) <==> AnyDirty(c, s, b) || (wrote && b == x)
      ensures !Pushed(c, s, r, b)
    {
      NothingPushed(c, s, r, b);
      if AnyDirty(c, r, b) {
        var j :| 0 <= j < |c.geos| && Dirty(c, r, j, b);
        assert Dirty(c, s, j, b) || (wrote && b == x);
      }
      if AnyDirty(c, s, b) {
        var j :| 0 <= j < |c.geos| && Dirty(c, s, j, b);
        assert Dirty(c, r, j, b);
      }
      if wrote && b == x {
        assert Dirty(c, r, k, b);
      }
    }
  }

  lemma ConservedTrans(c: Config, s: System, m: System, r: System, x: int, wrote: bool, wrote': bool)
    requires Fits(c, s) && Fits(c, m) && Fits(c, r)
    requires Conserved(c, s, m, x, wrote) && Conserved(c, m, r, x, wrote')
    requires wrote' ==> !Pushed(c, s, m, x)
    ensures Conserved(c, s, r, x, wrote || wrote')
  {
    forall b ensures Pushed(c, s, r, b) <==> Pushed(c, s, m, b) || Pushed(c, m, r, b) {
      assert m.waits == r.waits[..|m.waits|];
      if Pushed(c, s, m, b) {
        var i :| |s.waits| <= i < |m.waits| && m.waits[i].req.kind == Write && Block(c, m.waits[i].req.addr) == b;
        assert r.waits[i] == m.waits[i];
      }
      if Pushed(c, s, r, b) {
        var i :| |s.waits| <= i < |r.waits| && r.waits[i].req.kind == Write && Block(c, r.waits[i].req.addr) == b;
        if i < |m.waits| {
          assert m.waits[i] == r.waits[i];
        }
      }
    }
    assert s.waits <= r.waits;
  }

  /** Evicting an evictable line while the miss for x is in flight. */
  lemma EvictKeeps(c: Config, s: System, k: nat, x: int, addr: int, p: nat)
    requires InFlight(c, s, k, x) && k < |c.geos| && p < |Lines(c, s, k, addr)|
    requires Evictable(c, s, k, Lines(c, s, k, addr)[p])
    requires Get(c, s, k, x) == None
    ensures var r := Evict(c, s, k, addr, p);
      && InFlight(c, r, k, x)
      && Get(c, r, k, x) == None
      && |Lines(c, r, k, addr)| == |Lines(c, s, k, addr)| - 1
      && r.fault == s.fault
      && Conserved(c, s, r, x, false)
      && !Pushed(c, s, r, x)
  {
    var v := Lines(c, s, k, addr)[p];
    var b := Block(c, v.addr);
    var r := Evict(c, s, k, addr, p);
    LineBlock(c, s, k, addr, p);
    assert b != x;
    EvictView(c, s, k, addr, p);
    VictimUnlocked(c, s, k, v, x);
    EvictedLocks(c, s, r, k, v, x);
    EvictedConserved(c, s, r, k, v);
  }

  /** The victim is locked at no level. */
  lemma VictimUnlocked(c: Config, s: System, k: nat, v: Line, x: int)
    requires InFlight(c, s, k, x) && k < |c.geos|
    requires Get(c, s, k, Block(c, v.addr)) == Some(v) && Block(c, v.addr) != x && Evictable(c, s, k, v)
    ensures forall j :: 0 <= j < |c.geos| ==> !Locked(c, s, j, Block(c, v.addr))
  {
    var b := Block(c, v.addr);
    if k > 0 {
      CheckUnlockMeaning(c, s, k - 1, v.addr);
    }
    forall j | 0 <= j < |c.geos| ensures !Locked(c, s, j, b) {
      if Locked(c, s, j, b) && j >= k {
        LockedAbove(c, s, k, j, b);
      }
    }
  }

  lemma EvictedLocks(c: Config, s: System, r: System, k: nat, v: Line, x: int)
    requires InFlight(c, s, k, x) && k < |c.geos| && Fits(c, r)
    requires Block(c, v.addr) != x && Evicted(c, s, r, k, v) && Get(c, s, k, Block(c, v.addr)).Some?
    requires forall j :: 0 <= j < |c.geos| ==> !Locked(c, s, j, Block(c, v.addr))
    ensures InFlight(c, r, k, x)
  {
    EvictedSameLocks(c, s, r, k, v);
    LocksCarry(c, s, r);
    EvictedInclusion(c, s, r, k, v, x);
    forall j | 0 <= j < |c.geos| ensures Locked(c, r, j, x) <==> Locked(c, s, j, x) {
    }
  }

  lemma EvictedSameLocks(c: Config, s: System, r: System, k: nat, v: Line)
    requires Fits(c, s) && k < |c.geos| && Fits(c, r) && Evicted(c, s, r, k, v)
    requires forall j :: 0 <= j < |c.geos| ==> !Locked(c, s, j, Block(c, v.addr))
    ensures forall j, y :: 0 <= j < |c.geos| ==> (Locked(c, r, j, y) <==> Locked(c, s, j, y))
  {
    var b := Block(c, v.addr);
    forall j, y | 0 <= j < |c.geos| ensures Locked(c, r, j, y) <==> Locked(c, s, j, y) {
      if y == b {
        assert !Locked(c, s, j, b);
        if j > k + 1 {
          assert Get(c, r, j, b) == Get(c, s, j, b);
        } else if j <= k {
          assert Get(c, r, j, b) == None;
        }
      } else {
        assert Get(c, r, j, y) == Get(c, s, j, y);
      }
    }
  }

  lemma EvictedInclusion(c: Config, s: System, r: System, k: nat, v: Line, x: int)
    requires Fits(c, s) && k < |c.geos| && Fits(c, r) && Evicted(c, s, r, k, v)
    requires InclusionBut(c, s, k, x) && Block(c, v.addr) != x && Get(c, s, k, Block(c, v.addr)).Some?
    ensures InclusionBut(c, r, k, x)
  {
    var b := Block(c, v.addr);
    forall j, y | 0 <= j < |c.geos| - 1 && !(j + 1 == k && y == x) ensures IncludedAt(c, r, j, y) {
      assert IncludedAt(c, s, j, y);
      if y == b && j == k + 1 {
        assert IncludedAt(c, s, k, b);
      }
    }
  }

  lemma EvictedConserved(c: Config, s: System, r: System, k: nat, v: Line)
    requires Base(c, s) && k < |c.geos| && Fits(c, r) && Evicted(c, s, r, k, v)
    ensures forall x, wrote :: !wrote ==> Conserved(c, s, r, x, wrote)
    ensures forall x :: x != Block(c, v.addr) ==> !Pushed(c, s, r, x)
  {
    var b := Block(c, v.addr);
    var out := k + 1 == |c.geos| && DirtyTo(c, s, k, b);
    forall y ensures Pushed(c, s, r, y) <==> out && y == b {
      if out {
        var t :| r.waits == s.waits + [Timed(t, Request(v.addr, Write))];
        assert r.waits[|s.waits|].req == Request(v.addr, Write);
      } else {
        NothingPushed(c, s, r, y);
      }
    }
    forall y | y != b ensures AnyDirty(c, r, y) <==> AnyDirty(c, s, y) {
      if AnyDirty(c, r, y) {
        var j :| 0 <= j < |c.geos| && Dirty(c, r, j, y);
        assert Dirty(c, s, j, y);
      }
      if AnyDirty(c, s, y) {
        var j :| 0 <= j < |c.geos| && Dirty(c, s, j, y);
        assert Dirty(c, r, j, y);
      }
    }
    VictimDirty(c, s, r, k, v);
  }

  lemma VictimDirty(c: Config, s: System, r: System, k: nat, v: Line)
    requires Fits(c, s) && k < |c.geos| && Fits(c, r) && Evicted(c, s, r, k, v)
    ensures var b := Block(c, v.addr);
      && (k + 1 == |c.geos| ==> !AnyDirty(c, r, b) && (AnyDirty(c, s, b) <==> DirtyTo(c, s, k, b)))
      && (k + 1 < |c.geos| ==> (AnyDirty(c, r, b) <==> AnyDirty(c, s, b)))
  {
    var b := Block(c, v.addr);
    if AnyDirty(c, r, b) {
      var j :| 0 <= j < |c.geos| && Dirty(c, r, j, b);
      assert j > k;
      if j == k + 1 {
        var i :| 0 <= i <= k + 1 && Dirty(c, s, i, b);
      } else {
        assert Dirty(c, s, j, b);
      }
    }
    if AnyDirty(c, s, b) {
      var j :| 0 <= j < |c.geos| && Dirty(c, s, j, b);
      if k + 1 < |c.geos| {
        if j <= k + 1 {
          assert DirtyTo(c, s, k + 1, b);
          assert Dirty(c, r, k + 1, b);
        } else {
          assert Dirty(c, r, j, b);
        }
      }
    }
  }
}
