/** The inclusion invariant of the chain, and why no level below the first can ever refuse a miss. */
module CacheInvariant {
  import opened Arith
  import opened CacheSets
  import opened CacheModel
  import opened CacheViews

  ghost predicate InMshr(c: Config, mshr: seq<int>, b: int)
    requires c.blockSize > 0
  {
    exists i :: 0 <= i < |mshr| && Block(c, mshr[i]) == b
  }

  /** MSHR entries are for distinct blocks, and exactly the locked lines have one. */
  ghost predicate MshrOk(c: Config, s: System, k: nat)
    requires Fits(c, s) && k < |c.geos|
  {
    var mshr := s.levels[k].mshr;
    && |mshr| <= c.geos[k].mshrNum
    && (forall i, j :: 0 <= i < j < |mshr| ==> Block(c, mshr[i]) != Block(c, mshr[j]))
    && forall b :: Locked(c, s, k, b) <==> InMshr(c, mshr, b)
  }

  ghost predicate LockOrder(c: Config, s: System)
    requires Fits(c, s)
  {
    forall j, b :: 0 <= j < |c.geos| - 1 ==> OrderedAt(c, s, j, b)
  }

  /** Inclusion, except that block x may be missing at level k while its miss is on the way there. */
  ghost predicate InclusionBut(c: Config, s: System, k: nat, x: int)
    requires Fits(c, s)
  {
    forall j, b :: 0 <= j < |c.geos| - 1 && !(j + 1 == k && b == x) ==> IncludedAt(c, s, j, b)
  }

  ghost predicate Base(c: Config, s: System) {
    && ValidConfig(c) && Fits(c, s) && SetsOk(c, s) && LockOrder(c, s)
    && (forall k :: 0 <= k < |c.geos| ==> MshrOk(c, s, k))
  }

  /** What holds between requests: set sizes and tags, the MSHR bijection, lock order, inclusion. */
  ghost predicate Inv(c: Config, s: System) {
    Base(c, s) && InclusionBut(c, s, 0, 0)
  }

  /** What holds while the miss for block x is about to be sent to level k. */
  ghost predicate InFlight(c: Config, s: System, k: nat, x: int) {
    && Base(c, s) && k <= |c.geos| && InclusionBut(c, s, k, x)
    && (forall j :: 0 <= j < k ==> Locked(c, s, j, x))
    && (forall j :: k <= j < |c.geos| ==> !Locked(c, s, j, x))
  }

  lemma {:induction false} LockedAbove(c: Config, s: System, j: nat, k: nat, b: int)
    requires Fits(c, s) && LockOrder(c, s) && j <= k < |c.geos| && Locked(c, s, k, b)
    ensures Locked(c, s, j, b)
    decreases k
  {
    if j < k {
      assert OrderedAt(c, s, k - 1, b);
      LockedAbove(c, s, j, k - 1, b);
    }
  }

  /** Same lock bits and MSHRs: everything but inclusion carries over. */
  lemma LocksCarry(c: Config, s: System, r: System)
    requires Base(c, s) && Fits(c, r) && SetsOk(c, r) && SameMshrs(c, s, r)
    requires forall j, b :: 0 <= j < |c.geos| ==> (Locked(c, r, j, b) <==> Locked(c, s, j, b))
    ensures Base(c, r)
  {
    forall j | 0 <= j < |c.geos| ensures MshrOk(c, r, j) {
      assert MshrOk(c, s, j);
    }
    forall j, b | 0 <= j < |c.geos| - 1 ensures OrderedAt(c, r, j, b) {
      assert OrderedAt(c, s, j, b);
    }
  }

  lemma LaunchInFlight(c: Config, s: System, x: int)
    requires Inv(c, s) && !Locked(c, s, 0, x)
    ensures InFlight(c, s, 0, x)
  {
    forall j | 0 <= j < |c.geos| ensures !Locked(c, s, j, x) {
      if Locked(c, s, j, x) {
        LockedAbove(c, s, 0, j, x);
      }
    }
  }

  lemma LandInv(c: Config, s: System, x: int)
    requires InFlight(c, s, |c.geos|, x)
    ensures Inv(c, s)
  {
  }

  /** The blocks of a list of lines. */
  ghost function Blocks(c: Config, lines: seq<Line>): set<int>
    requires c.blockSize > 0
  {
    Images(lines, (l: Line) => if c.blockSize > 0 then Block(c, l.addr) else 0)
  }

  lemma BlocksCount(c: Config, k: nat, i: int, lines: seq<Line>)
    requires c.blockSize > 0 && k < |c.geos| && c.geos[k].blockNum > 0 && SetOk(c, k, i, lines)
    ensures |Blocks(c, lines)| == |lines|
  {
    forall p, q | 0 <= p < q < |lines| ensures Block(c, lines[p].addr) != Block(c, lines[q].addr) {
      assert lines[p] in lines && lines[q] in lines;
    }
    ImageCount(lines, (l: Line) => if c.blockSize > 0 then Block(c, l.addr) else 0);
  }

  /** Blocks held at the first level that fall into one set: no more than its ways. */
  lemma FiberBound(c: Config, s: System, f: set<int>, i: int)
    requires Buildable(c) && Fits(c, s) && SetsOk(c, s) && 0 <= i < c.geos[0].blockNum
    requires forall b :: b in f ==> Get(c, s, 0, b).Some? && b % c.geos[0].blockNum == i
    ensures |f| <= c.geos[0].assoc
  {
    var lines := s.levels[0].sets[i];
    assert SetOk(c, 0, i, lines);
    BlocksCount(c, 0, i, lines);
    forall b | b in f ensures b in Blocks(c, lines) {
      GetBlock(c, s, 0, b);
      var p := Pos(lines, b / c.geos[0].blockNum);
      assert Get(c, s, 0, b) == Some(lines[p]);
    }
    SubsetCount(f, Blocks(c, lines));
  }

  ghost function Fiber(s: set<int>, m: int, i: int): set<int>
    requires m > 0
  {
    set b | b in s && b % m == i
  }

  /** The first q members of an arithmetic progression. */
  ghost function Steps(r: int, d: int, q: nat): set<int> {
    if q == 0 then {} else Steps(r, d, q - 1) + {r + d * (q - 1)}
  }

  lemma {:induction false} StepsMember(r: int, d: int, q: nat, i: nat)
    requires i < q
    ensures r + d * i in Steps(r, d, q)
    decreases q
  {
    if i < q - 1 {
      StepsMember(r, d, q - 1, i);
    }
  }

  /** A set whose remainders take q values, each at most a times, has at most q * a elements. */
  lemma {:induction false} FibersBound(s: set<int>, m: int, r: int, d: int, q: nat, a: nat)
    requires m > 0 && forall b :: b in s ==> b % m in Steps(r, d, q)
    requires forall i :: |Fiber(s, m, i)| <= a
    ensures |s| <= q * a
    decreases q
  {
    if q == 0 {
      if b :| b in s {
        assert false;
      }
    } else {
      var i := r + d * (q - 1);
      var last := Fiber(s, m, i);
      var rest := s - last;
      forall j ensures |Fiber(rest, m, j)| <= a {
        SubsetCount(Fiber(rest, m, j), Fiber(s, m, j));
      }
      FibersBound(rest, m, r, d, q - 1, a);
      assert s == rest + last;
      OneMore(q - 1, a);
    }
  }

  lemma OneMore(n: int, a: int)
    ensures (n + 1) * a == n * a + a
  {
  }

  /** Everything being fetched: the blocks of the first level's MSHR entries, all locked there. */
  ghost function Fetching(c: Config, s: System): set<int>
    requires c.blockSize > 0 && |s.levels| > 0
  {
    Images(s.levels[0].mshr, (a: int) => if c.blockSize > 0 then Block(c, a) else 0)
  }

  lemma FetchingLocked(c: Config, s: System, b: int)
    requires Base(c, s)
    ensures b in Fetching(c, s) <==> Locked(c, s, 0, b)
  {
    assert MshrOk(c, s, 0);
    assert Locked(c, s, 0, b) <==> InMshr(c, s.levels[0].mshr, b);
  }

  lemma FetchingMshrs(c: Config, s: System)
    requires Base(c, s)
    ensures |Fetching(c, s)| <= c.geos[0].mshrNum
  {
    assert MshrOk(c, s, 0);
    ImageCount(s.levels[0].mshr, (a: int) => if c.blockSize > 0 then Block(c, a) else 0);
  }

  /** Blocks being fetched that lie in q sets of the first level. */
  lemma FetchingPart(c: Config, s: System, part: set<int>, r: int, d: int, q: nat)
    requires Base(c, s) && part <= Fetching(c, s)
    requires forall b :: b in part ==> b % c.geos[0].blockNum in Steps(r, d, q)
    ensures |part| <= q * c.geos[0].assoc
  {
    var n0 := c.geos[0].blockNum;
    forall i ensures |Fiber(part, n0, i)| <= c.geos[0].assoc {
      forall b | b in Fiber(part, n0, i) ensures Get(c, s, 0, b).Some? {
        FetchingLocked(c, s, b);
      }
      if 0 <= i < n0 {
        FiberBound(c, s, Fiber(part, n0, i), i);
      } else {
        assert Fiber(part, n0, i) == {};
      }
    }
    FibersBound(part, n0, r, d, q, c.geos[0].assoc);
  }

  /** How many blocks can be on their way at once. */
  lemma FetchingBound(c: Config, s: System)
    requires Base(c, s)
    ensures |Fetching(c, s)| <= Min(c.geos[0].mshrNum, c.geos[0].blockNum * c.geos[0].assoc)
  {
    var n := c.geos[0].blockNum;
    FetchingMshrs(c, s);
    forall b | b in Fetching(c, s) ensures b % n in Steps(0, 1, n) {
      StepsMember(0, 1, n, b % n);
    }
    FetchingPart(c, s, Fetching(c, s), 0, 1, n);
  }

  /** Where the blocks of one of n sets lie among n0: in every n-th set if n divides n0, */
  lemma CoarseSteps(b: int, n0: int, n: int, q: nat)
    requires n > 0 && n0 == n * q > 0
    ensures b % n0 in Steps(b % n, n, q)
  {
    DivModIs(n, n0, q, 0);
    ModMod(n0, n, b);
    QuotientBelow(b % n0, n, q);
    StepsMember(b % n, n, q, b % n0 / n);
  }

  /** and in a single one if n0 divides n. */
  lemma FineSteps(b: int, n0: int, n: int)
    requires n0 > 0 && n > 0 && n % n0 == 0
    ensures b % n0 in Steps(b % n % n0, 1, 1)
  {
    ModMod(n, n0, b);
    StepsMember(b % n % n0, 1, 1, 0);
  }

  /** Blocks of one set of level k that are being fetched. */
  lemma SameSetBound(c: Config, s: System, part: set<int>, k: nat, r: int)
    requires Base(c, s) && part <= Fetching(c, s) && k < |c.geos|
    requires forall b :: b in part ==> b % c.geos[k].blockNum == r
    ensures |part| <= Spread(c, k) * c.geos[0].assoc
  {
    hide MshrOk, LockOrder, SetsOk, IsPow2;
    var n0, n := c.geos[0].blockNum, c.geos[k].blockNum;
    if n0 % n == 0 {
      var q := n0 / n;
      assert n0 == n * q;
      MulSign(n, q);
      forall b | b in part ensures b % n0 in Steps(r, n, q) {
        CoarseSteps(b, n0, n, q);
      }
      FetchingPart(c, s, part, r, n, q);
    } else {
      Pow2Nested(n0, n);
      forall b | b in part ensures b % n0 in Steps(r % n0, 1, 1) {
        FineSteps(b, n0, n);
      }
      FetchingPart(c, s, part, r % n0, 1, 1);
    }
  }

  lemma QuotientBelow(x: int, n: int, q: int)
    requires n > 0 && 0 <= x < n * q
    ensures 0 <= x / n < q && x == x % n + n * (x / n)
  {
    assert n * (x / n - q) == n * (x / n) - n * q;
    MulSign(n, x / n - q);
    MulSign(n, x / n);
  }

  /** The MSHRs of level k cannot be exhausted while a forwarded miss is on its way to it. */
  lemma MshrFree(c: Config, s: System, k: nat, x: int)
    requires InFlight(c, s, k, x) && 0 < k < |c.geos|
    ensures |s.levels[k].mshr| < c.geos[k].mshrNum
  {
    var f := (a: int) => if c.blockSize > 0 then Block(c, a) else 0;
    var low := s.levels[k].mshr;
    assert MshrOk(c, s, k);
    ImageCount(low, f);
    forall b | b in Images(low, f) + {x} ensures b in Fetching(c, s) {
      if b != x {
        assert InMshr(c, low, b);
        LockedAbove(c, s, 0, k, b);
      }
      FetchingLocked(c, s, b);
    }
    assert x !in Images(low, f) by {
      assert !Locked(c, s, k, x);
    }
    SubsetCount(Images(low, f) + {x}, Fetching(c, s));
    FetchingBound(c, s);
    assert Roomy(c, k);
  }

  /** A line of level k that may not be evicted is locked at the first level. */
  lemma PinnedLocked(c: Config, s: System, k: nat, x: int, addr: int, p: nat)
    requires InFlight(c, s, k, x) && 0 < k < |c.geos| && p < |Lines(c, s, k, addr)|
    requires Block(c, Lines(c, s, k, addr)[p].addr) != x
    requires !Evictable(c, s, k, Lines(c, s, k, addr)[p])
    ensures Locked(c, s, 0, Block(c, Lines(c, s, k, addr)[p].addr))
  {
    var l := Lines(c, s, k, addr)[p];
    var b := Block(c, l.addr);
    LineBlock(c, s, k, addr, p);
    if l.lock {
      LockedAbove(c, s, 0, k, b);
    } else {
      CheckUnlockMeaning(c, s, k - 1, l.addr);
      var j :| 0 <= j <= k - 1 && Locked(c, s, j, b);
      LockedAbove(c, s, 0, j, b);
    }
  }

  /** If nothing in the set may be evicted, all of it and the new block are being fetched. */
  lemma PinnedSet(c: Config, s: System, k: nat, addr: int)
    requires c.blockSize > 0 && InFlight(c, s, k, Block(c, addr)) && 0 < k < |c.geos|
    requires Get(c, s, k, Block(c, addr)) == None
    requires FindVictim(c, s, k, Lines(c, s, k, addr)) == |Lines(c, s, k, addr)|
    ensures |Lines(c, s, k, addr)| + 1 <= Min(c.geos[0].mshrNum, Spread(c, k) * c.geos[0].assoc)
  {
    hide FindVictim, Spread;
    var x := Block(c, addr);
    var lines := Lines(c, s, k, addr);
    var all := Blocks(c, lines) + {x};
    PinnedParts(c, s, k, addr);
    SubsetCount(all, Fetching(c, s));
    FetchingMshrs(c, s);
    SameSetBound(c, s, all, k, Index(c, k, addr));
  }

  lemma PinnedParts(c: Config, s: System, k: nat, addr: int)
    requires c.blockSize > 0 && InFlight(c, s, k, Block(c, addr)) && 0 < k < |c.geos|
    requires Get(c, s, k, Block(c, addr)) == None
    requires FindVictim(c, s, k, Lines(c, s, k, addr)) == |Lines(c, s, k, addr)|
    ensures var all := Blocks(c, Lines(c, s, k, addr)) + {Block(c, addr)};
      && |all| == |Lines(c, s, k, addr)| + 1 && all <= Fetching(c, s)
      && forall b :: b in all ==> b % c.geos[k].blockNum == Index(c, k, addr)
  {
    var x := Block(c, addr);
    var lines := Lines(c, s, k, addr);
    assert SetOk(c, k, Index(c, k, addr), lines);
    BlocksCount(c, k, Index(c, k, addr), lines);
    forall p | 0 <= p < |lines|
      ensures Block(c, lines[p].addr) != x && Block(c, lines[p].addr) in Fetching(c, s)
      ensures Block(c, lines[p].addr) % c.geos[k].blockNum == Index(c, k, addr)
    {
      LineBlock(c, s, k, addr, p);
      PinnedLocked(c, s, k, x, addr, p);
      FetchingLocked(c, s, Block(c, lines[p].addr));
    }
    assert x !in Blocks(c, lines);
    assert Locked(c, s, 0, x);
    FetchingLocked(c, s, x);
  }

  /** A full set at level k always holds a line that may be evicted for a forwarded miss. */
  lemma VictimExists(c: Config, s: System, k: nat, addr: int)
    requires c.blockSize > 0 && InFlight(c, s, k, Block(c, addr)) && 0 < k < |c.geos|
    requires Get(c, s, k, Block(c, addr)) == None
    requires |Lines(c, s, k, addr)| >= c.geos[k].assoc
    ensures FindVictim(c, s, k, Lines(c, s, k, addr)) < |Lines(c, s, k, addr)|
  {
    if FindVictim(c, s, k, Lines(c, s, k, addr)) == |Lines(c, s, k, addr)| {
      assert Roomy(c, k);
      PinnedSet(c, s, k, addr);
    }
  }
}
