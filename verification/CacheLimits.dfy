/** Exactly which shapes of levels are safe. `CacheRuns` proves that no run of a roomy chain goes wrong; here every
    other chain gets a run of reads in which a lower level refuses a miss, and `send` ignores the refusal. */
module CacheLimits {
  import opened Arith
  import opened CacheSets
  import opened CacheModel
  import opened CacheViews
  import opened CacheInvariant
  import opened CacheRuns
  import F = CacheFaults

  /** The lines that reads of the blocks bs leave in set i of level k, all still being fetched. */
  function Held(c: Config, k: nat, bs: seq<int>, i: int): seq<Line>
    requires k < |c.geos| && c.geos[k].blockNum > 0
  {
    if |bs| == 0 then []
    else
      var b, n := bs[|bs| - 1], c.geos[k].blockNum;
      Held(c, k, bs[..|bs| - 1], i) + if b % n == i then [Line(b * c.blockSize, b / n, true, false)] else []
  }

  function Addrs(c: Config, bs: seq<int>): seq<int> {
    seq(|bs|, i requires 0 <= i < |bs| => bs[i] * c.blockSize)
  }

  function LevelOf(c: Config, k: nat, bs: seq<int>): (l: Level)
    requires k < |c.geos| && c.geos[k].blockNum > 0
    ensures l.mshr == Addrs(c, bs) && |l.sets| == c.geos[k].blockNum
    ensures forall i :: 0 <= i < |l.sets| ==> l.sets[i] == Held(c, k, bs, i)
  {
    Level(seq(c.geos[k].blockNum, i => Held(c, k, bs, i)), Addrs(c, bs))
  }

  function Waits(c: Config, bs: seq<int>): seq<Timed>
    requires |c.geos| > 0
  {
    seq(|bs|, i requires 0 <= i < |bs| => Timed(c.geos[|c.geos| - 1].latency, Request(bs[i] * c.blockSize, Read)))
  }

  ghost predicate Sets(c: Config) {
    c.blockSize > 0 && |c.geos| > 0 && forall k :: 0 <= k < |c.geos| ==> c.geos[k].blockNum > 0
  }

  function Part(bs: seq<int>, b: int, j: nat, k: nat): seq<int> {
    if j < k then bs + [b] else bs
  }

  /** The blocks bs are being fetched everywhere, block b so far at the levels above k only. */
  function Filling(c: Config, bs: seq<int>, b: int, k: nat): (s: System)
    requires Sets(c)
    ensures Fits(c, s)
  {
    System(seq(|c.geos|, j requires 0 <= j < |c.geos| => LevelOf(c, j, Part(bs, b, j, k))),
           0, Waits(c, bs), [], false)
  }

  function Filled(c: Config, bs: seq<int>): (s: System)
    requires Sets(c)
    ensures Fits(c, s)
  {
    System(seq(|c.geos|, j requires 0 <= j < |c.geos| => LevelOf(c, j, bs)), 0, Waits(c, bs), [], false)
  }

  lemma {:induction false} HeldLines(c: Config, k: nat, bs: seq<int>, i: int, j: nat)
    requires k < |c.geos| && c.geos[k].blockNum > 0 && j < |Held(c, k, bs, i)|
    ensures var l := Held(c, k, bs, i)[j];
      l.lock && exists m :: 0 <= m < |bs| && bs[m] % c.geos[k].blockNum == i && l.tag == bs[m] / c.geos[k].blockNum
    decreases |bs|
  {
    var init := bs[..|bs| - 1];
    if j < |Held(c, k, init, i)| {
      HeldLines(c, k, init, i, j);
      var m :| 0 <= m < |init| && init[m] % c.geos[k].blockNum == i
               && Held(c, k, init, i)[j].tag == init[m] / c.geos[k].blockNum;
      assert bs[m] == init[m];
    }
  }

  lemma BlockOf(c: Config, b: int)
    requires c.blockSize > 0
    ensures Block(c, b * c.blockSize) == b
  {
    DivModIs(c.blockSize, b * c.blockSize, b, 0);
  }

  /** A block not among those read is neither in its set nor in an MSHR entry. */
  lemma NotThere(c: Config, k: nat, bs: seq<int>, b: int)
    requires Sets(c) && k < |c.geos| && b !in bs
    ensures var lines := Held(c, k, bs, b % c.geos[k].blockNum);
      Pos(lines, b / c.geos[k].blockNum) == |lines|
    ensures HitMshr(c, Addrs(c, bs), b * c.blockSize) == |bs|
  {
    var n := c.geos[k].blockNum;
    var lines := Held(c, k, bs, b % n);
    if Pos(lines, b / n) < |lines| {
      HeldLines(c, k, bs, b % n, Pos(lines, b / n));
      var m :| 0 <= m < |bs| && bs[m] % n == b % n && b / n == bs[m] / n;
      DivModUnique(n, b, bs[m]);
      assert false;
    }
    BlockOf(c, b);
    forall i | 0 <= i < |bs| ensures Block(c, Addrs(c, bs)[i]) != b {
      BlockOf(c, bs[i]);
    }
  }

  /** Level k can still take a read of block b. */
  ghost predicate Takes(c: Config, k: nat, bs: seq<int>, b: int)
    requires Sets(c) && k < |c.geos|
  {
    |bs| != c.geos[k].mshrNum && |Held(c, k, bs, b % c.geos[k].blockNum)| < c.geos[k].assoc
  }

  lemma HeldSnoc(c: Config, k: nat, bs: seq<int>, b: int, i: int)
    requires k < |c.geos| && c.geos[k].blockNum > 0
    ensures var n := c.geos[k].blockNum;
      Held(c, k, bs + [b], i)
      == if b % n == i then Held(c, k, bs, i) + [Line(b * c.blockSize, b / n, true, false)] else Held(c, k, bs, i)
  {
    assert (bs + [b])[..|bs|] == bs;
  }

  /** Recording a read at one level. */
  lemma LevelSnoc(c: Config, k: nat, bs: seq<int>, b: int)
    requires k < |c.geos| && c.geos[k].blockNum > 0
    ensures var n, l, a := c.geos[k].blockNum, LevelOf(c, k, bs), b * c.blockSize;
      LevelOf(c, k, bs + [b])
      == Level(l.sets[b % n := l.sets[b % n] + [Line(a, b / n, true, false)]], l.mshr + [a])
  {
    var n, l, a := c.geos[k].blockNum, LevelOf(c, k, bs), b * c.blockSize;
    var sets := l.sets[b % n := l.sets[b % n] + [Line(a, b / n, true, false)]];
    forall i | 0 <= i < n ensures LevelOf(c, k, bs + [b]).sets[i] == sets[i] {
      HeldSnoc(c, k, bs, b, i);
    }
    assert LevelOf(c, k, bs + [b]).sets == sets;
    assert Addrs(c, bs + [b]) == Addrs(c, bs) + [a];
  }

  /** Recording the read at level k. */
  lemma Recorded(c: Config, bs: seq<int>, b: int, k: nat)
    requires Sets(c) && k < |c.geos|
    ensures var s, a := Filling(c, bs, b, k), b * c.blockSize;
      && Lines(c, s, k, a) == Held(c, k, bs, b % c.geos[k].blockNum)
      && s.levels[k].mshr == Addrs(c, bs)
      && Tag(c, k, a) == b / c.geos[k].blockNum
      && WithMshr(c, WithLines(c, s, k, a, Lines(c, s, k, a) + [Line(a, Tag(c, k, a), true, false)]), k,
                  s.levels[k].mshr + [a]) == Filling(c, bs, b, k + 1)
  {
    hide LevelOf, Held;
    BlockOf(c, b);
    LevelSnoc(c, k, bs, b);
    var s, a := Filling(c, bs, b, k), b * c.blockSize;
    var r := WithMshr(c, WithLines(c, s, k, a, Lines(c, s, k, a) + [Line(a, Tag(c, k, a), true, false)]), k,
                      s.levels[k].mshr + [a]);
    assert r.levels[k] == LevelOf(c, k, bs + [b]);
    assert r.levels == Filling(c, bs, b, k + 1).levels;
  }

  /** One read at one level: refused, or recorded and sent on. */
  lemma SendFilling(c: Config, bs: seq<int>, b: int, k: nat)
    requires Sets(c) && k < |c.geos| && b !in bs
    ensures var r := Send(c, Filling(c, bs, b, k), k, Request(b * c.blockSize, Read));
      if Takes(c, k, bs, b) then r == Forward(c, Filling(c, bs, b, k + 1), k, b * c.blockSize) else !r.ok
  {
    hide Filling;
    NotThere(c, k, bs, b);
    Recorded(c, bs, b, k);
    OneSend(c, Filling(c, bs, b, k), k, b * c.blockSize);
    if |Held(c, k, bs, b % c.geos[k].blockNum)| >= c.geos[k].assoc {
      forall j | 0 <= j < |Held(c, k, bs, b % c.geos[k].blockNum)|
        ensures Held(c, k, bs, b % c.geos[k].blockNum)[j].lock
      {
        HeldLines(c, k, bs, b % c.geos[k].blockNum, j);
      }
    }
  }

  /** `send` for an absent block, when its set has room or is all locked. */
  lemma OneSend(c: Config, s: System, k: nat, a: int)
    requires Fits(c, s) && k < |c.geos|
    requires Pos(Lines(c, s, k, a), Tag(c, k, a)) == |Lines(c, s, k, a)|
    requires HitMshr(c, s.levels[k].mshr, a) == |s.levels[k].mshr|
    ensures var r := Send(c, s, k, Request(a, Read));
      var s1 := WithLines(c, s, k, a, Lines(c, s, k, a) + [Line(a, Tag(c, k, a), true, false)]);
      && (|s.levels[k].mshr| == c.geos[k].mshrNum || AllLocked(c, k, Lines(c, s, k, a)) ==> !r.ok)
      && (|s.levels[k].mshr| != c.geos[k].mshrNum && |Lines(c, s, k, a)| < c.geos[k].assoc ==>
            r == Forward(c, WithMshr(c, s1, k, s.levels[k].mshr + [a]), k, a))
  {
    hide Forward;
  }

  /** From level k on the read either sets the fault or ends up recorded everywhere. */
  lemma {:induction false} SendFills(c: Config, bs: seq<int>, b: int, k: nat)
    requires Sets(c) && 0 < k <= |c.geos| && b !in bs
    ensures var r := Forward(c, Filling(c, bs, b, k), k - 1, b * c.blockSize).sys;
      r.fault || (r == Filled(c, bs + [b]) && forall j :: k <= j < |c.geos| ==> Takes(c, j, bs, b))
    decreases |c.geos| - k
  {
    hide Send, Takes, Held, Addrs;
    if k < |c.geos| {
      SendFilling(c, bs, b, k);
      if Takes(c, k, bs, b) {
        SendFills(c, bs, b, k + 1);
      }
    } else {
      var r := Forward(c, Filling(c, bs, b, k), k - 1, b * c.blockSize).sys;
      assert r.waits == Waits(c, bs + [b]);
      assert r.levels == Filled(c, bs + [b]).levels;
    }
  }

  /** A run that reads the blocks one after the other. */
  function Reads(c: Config, bs: seq<int>): seq<Step> {
    seq(|bs|, i requires 0 <= i < |bs| => Access(Request(bs[i] * c.blockSize, Read)))
  }

  ghost predicate NoRepeat(bs: seq<int>) {
    forall i, j :: 0 <= i < j < |bs| ==> bs[i] != bs[j]
  }

  lemma {:induction false} HeldGrows(c: Config, k: nat, bs: seq<int>, i: int, n: nat)
    requires k < |c.geos| && c.geos[k].blockNum > 0 && n <= |bs|
    ensures |Held(c, k, bs[..n], i)| <= |Held(c, k, bs, i)|
    decreases |bs|
  {
    if n < |bs| {
      HeldGrows(c, k, bs[..|bs| - 1], i, n);
      assert bs[..|bs| - 1][..n] == bs[..n];
    } else {
      assert bs[..n] == bs;
    }
  }

  lemma StartFilled(c: Config)
    requires Sets(c)
    ensures Initial(c) == Filled(c, [])
  {
    forall k | 0 <= k < |c.geos| ensures Initial(c).levels[k] == LevelOf(c, k, []) {
      assert LevelOf(c, k, []).sets == Initial(c).levels[k].sets;
    }
    assert Initial(c).levels == Filled(c, []).levels;
  }

  /** The first level takes what fits it. */
  lemma FirstTakes(c: Config, bs: seq<int>, b: int)
    requires Sets(c) && b !in bs && Takes(c, 0, bs, b)
    ensures var r := Send(c, Filled(c, bs), 0, Request(b * c.blockSize, Read)).sys;
      r.fault || (r == Filled(c, bs + [b]) && forall j :: 0 <= j < |c.geos| ==> Takes(c, j, bs, b))
  {
    hide Send, Takes, Held, Addrs;
    assert Filling(c, bs, b, 0) == Filled(c, bs) by {
      assert Filling(c, bs, b, 0).levels == Filled(c, bs).levels;
    }
    SendFilling(c, bs, b, 0);
    SendFills(c, bs, b, 1);
  }

  /** Everything the first level can take: distinct blocks, within its MSHRs and ways. */
  ghost predicate FitsFirst(c: Config, bs: seq<int>)
    requires Sets(c)
  {
    && NoRepeat(bs) && |bs| <= c.geos[0].mshrNum
    && forall i :: |Held(c, 0, bs, i)| <= c.geos[0].assoc
  }

  lemma FitsFirstInit(c: Config, bs: seq<int>)
    requires Sets(c) && |bs| > 0 && FitsFirst(c, bs)
    ensures var init, b := bs[..|bs| - 1], bs[|bs| - 1];
      FitsFirst(c, init) && b !in init && Takes(c, 0, init, b)
  {
    var init, b := bs[..|bs| - 1], bs[|bs| - 1];
    forall i ensures |Held(c, 0, init, i)| <= c.geos[0].assoc {
      HeldGrows(c, 0, bs, i, |bs| - 1);
    }
    assert |Held(c, 0, bs, b % c.geos[0].blockNum)| == |Held(c, 0, init, b % c.geos[0].blockNum)| + 1;
  }

  /** Level k has had room for all the blocks. */
  ghost predicate Took(c: Config, k: nat, bs: seq<int>)
    requires Sets(c) && k < |c.geos|
  {
    |bs| <= c.geos[k].mshrNum && forall i :: |Held(c, k, bs, i)| <= c.geos[k].assoc
  }

  lemma TookSnoc(c: Config, k: nat, bs: seq<int>, b: int)
    requires Sets(c) && k < |c.geos| && Took(c, k, bs) && Takes(c, k, bs, b)
    ensures Took(c, k, bs + [b])
  {
    forall i ensures |Held(c, k, bs + [b], i)| <= c.geos[k].assoc {
      HeldSnoc(c, k, bs, b, i);
    }
  }

  /** Reading blocks that fit the first level either goes wrong, or every level took all of them. */
  lemma {:induction false} ReadsFill(c: Config, bs: seq<int>)
    requires Sets(c) && FitsFirst(c, bs)
    ensures var r := Run(c, Initial(c), Reads(c, bs));
      r.fault || (r == Filled(c, bs) && forall j :: 0 <= j < |c.geos| ==> Took(c, j, bs))
    decreases |bs|
  {
    if |bs| == 0 {
      StartFilled(c);
    } else {
      var init, b := bs[..|bs| - 1], bs[|bs| - 1];
      FitsFirstInit(c, bs);
      ReadsFill(c, init);
      ReadsStep(c, init, b);
      assert bs == init + [b];
    }
  }

  lemma ReadsStep(c: Config, bs: seq<int>, b: int)
    requires Sets(c) && b !in bs && Takes(c, 0, bs, b)
    requires var s := Run(c, Initial(c), Reads(c, bs));
      s.fault || (s == Filled(c, bs) && forall j :: 0 <= j < |c.geos| ==> Took(c, j, bs))
    ensures var r := Run(c, Initial(c), Reads(c, bs + [b]));
      r.fault || (r == Filled(c, bs + [b]) && forall j :: 0 <= j < |c.geos| ==> Took(c, j, bs + [b]))
  {
    hide Send, Run, Filled, Initial, Takes, Took;
    var step := Access(Request(b * c.blockSize, Read));
    var s := Run(c, Initial(c), Reads(c, bs));
    assert Reads(c, bs + [b]) == Reads(c, bs) + [step];
    RunSnoc(c, Initial(c), Reads(c, bs), step);
    if s.fault {
      F.SendSticky(c, s, 0, step.req);
    } else {
      FirstTakes(c, bs, b);
      forall j | 0 <= j < |c.geos| ensures Takes(c, j, bs, b) && Took(c, j, bs) ==> Took(c, j, bs + [b]) {
        if Takes(c, j, bs, b) && Took(c, j, bs) {
          TookSnoc(c, j, bs, b);
        }
      }
    }
  }

  /** How many of n evenly spaced blocks fall into set i. */
  lemma {:induction false} HeldSpaced(c: Config, k: nat, d: nat, n: nat, i: int, p: nat)
    requires Sets(c) && k < |c.geos| && d > 0 && p > 0 && c.geos[k].blockNum == d * p
    ensures |Held(c, k, Spaced(d, n), i)| <= if i % d == 0 && 0 <= i < d * p then Turns(n, p, i / d) else 0
    decreases n
  {
    if n > 0 {
      HeldSpaced(c, k, d, n - 1, i, p);
      assert Spaced(d, n)[..n - 1] == Spaced(d, n - 1);
      SpacedIndex(d, p, n - 1);
      if d * (n - 1) % (d * p) == i {
        DivModIs(d, i, (n - 1) % p, 0);
      }
    }
  }

  function Spaced(d: nat, n: nat): seq<int> {
    seq(n, m => d * m)
  }

  lemma SpacedIndex(d: nat, p: nat, m: nat)
    requires d > 0 && p > 0
    ensures d * p > 0 && d * m % (d * p) == d * (m % p) && 0 <= d * (m % p) < d * p
  {
    MulSign(d, p);
    assert m == p * (m / p) + m % p;
    assert d * m == d * (p * (m / p)) + d * (m % p);
    assert d * (p * (m / p)) == (d * p) * (m / p);
    MulSign(d, m % p);
    MulSign(d, p - m % p);
    assert d * (p - m % p) == d * p - d * (m % p);
    DivModIs(d * p, d * m, m / p, d * (m % p));
  }

  lemma SpacedDistinct(d: nat, n: nat)
    requires d > 0
    ensures NoRepeat(Spaced(d, n))
  {
    forall i, j | 0 <= i < j < n ensures d * i != d * j {
      MulSign(d, j - i);
      assert d * (j - i) == d * j - d * i;
    }
  }

  /** Blocks spaced by the number of sets of level k all fall into its set 0. */
  lemma {:induction false} HeldTogether(c: Config, k: nat, n: nat)
    requires Sets(c) && k < |c.geos|
    ensures |Held(c, k, Spaced(c.geos[k].blockNum, n), 0)| == n
    decreases n
  {
    if n > 0 {
      var d := c.geos[k].blockNum;
      HeldTogether(c, k, n - 1);
      assert Spaced(d, n)[..n - 1] == Spaced(d, n - 1);
      DivModIs(d, d * (n - 1), n - 1, 0);
    }
  }

  lemma {:induction false} HeldAtMost(c: Config, k: nat, bs: seq<int>, i: int)
    requires k < |c.geos| && c.geos[k].blockNum > 0
    ensures |Held(c, k, bs, i)| <= |bs|
    decreases |bs|
  {
    if |bs| > 0 {
      HeldAtMost(c, k, bs[..|bs| - 1], i);
    }
  }

  /** n evenly spaced blocks fit the first level if its sets they fall into have the ways. */
  lemma SpacedFits(c: Config, d: nat, p: nat, n: nat)
    requires Sets(c) && d > 0 && p > 0 && c.geos[0].blockNum == d * p
    requires n <= c.geos[0].mshrNum && n <= p * c.geos[0].assoc
    ensures FitsFirst(c, Spaced(d, n))
  {
    SpacedDistinct(d, n);
    forall i ensures |Held(c, 0, Spaced(d, n), i)| <= c.geos[0].assoc {
      HeldSpaced(c, 0, d, n, i, p);
      if i % d == 0 && 0 <= i < d * p {
        QuotientBelow(i, d, p);
        TurnsBound(n, p, i / d, c.geos[0].assoc);
      }
    }
  }

  /** Too few MSHR entries at level k: one read more than it has. */
  lemma MshrsFault(c: Config, k: nat)
    requires Buildable(c) && k < |c.geos|
    requires c.geos[k].mshrNum < Min(c.geos[0].mshrNum, c.geos[0].blockNum * c.geos[0].assoc)
    ensures Run(c, Initial(c), Reads(c, Spaced(1, c.geos[k].mshrNum + 1))).fault
  {
    hide Run, Reads, Filled, FitsFirst, Held, IsPow2, Initial;
    var bs := Spaced(1, c.geos[k].mshrNum + 1);
    SpacedFits(c, 1, c.geos[0].blockNum, |bs|);
    ReadsFill(c, bs);
    assert !Took(c, k, bs);
  }

  lemma WaysFit(c: Config, k: nat)
    requires Buildable(c) && k < |c.geos|
    requires c.geos[k].assoc < Min(c.geos[0].mshrNum, Spread(c, k) * c.geos[0].assoc)
    ensures FitsFirst(c, Spaced(c.geos[k].blockNum, c.geos[k].assoc + 1))
  {
    hide Held, IsPow2;
    var n0, d, n := c.geos[0].blockNum, c.geos[k].blockNum, c.geos[k].assoc + 1;
    if n0 % d == 0 {
      assert n0 == d * (n0 / d);
      SpacedFits(c, d, n0 / d, n);
    } else {
      SpacedDistinct(d, n);
      forall i ensures |Held(c, 0, Spaced(d, n), i)| <= c.geos[0].assoc {
        HeldAtMost(c, 0, Spaced(d, n), i);
      }
    }
  }

  /** Too few ways at level k: one read more than it has, all into one of its sets. */
  lemma WaysFault(c: Config, k: nat)
    requires Buildable(c) && k < |c.geos|
    requires c.geos[k].assoc < Min(c.geos[0].mshrNum, Spread(c, k) * c.geos[0].assoc)
    ensures Run(c, Initial(c), Reads(c, Spaced(c.geos[k].blockNum, c.geos[k].assoc + 1))).fault
  {
    hide Run, Reads, Filled, FitsFirst, Held, IsPow2, Initial, Spread;
    var bs := Spaced(c.geos[k].blockNum, c.geos[k].assoc + 1);
    WaysFit(c, k);
    HeldTogether(c, k, |bs|);
    ReadsFill(c, bs);
    assert !Took(c, k, bs);
  }

  /** MAIN: of the chains that can be built, exactly those are safe in every run whose lower levels have MSHR entries
      for all blocks the first level can be fetching at once, and ways for all of those that can share one set. */
  lemma SafeIff(c: Config)
    requires Buildable(c)
    ensures ValidConfig(c) <==> forall steps: seq<Step> :: !Run(c, Initial(c), steps).fault
  {
    if ValidConfig(c) {
      forall steps: seq<Step> ensures !Run(c, Initial(c), steps).fault {
        ReachableSafe(c, steps);
      }
    } else {
      var k :| 1 <= k < |c.geos| && !Roomy(c, k);
      if c.geos[k].mshrNum < Min(c.geos[0].mshrNum, c.geos[0].blockNum * c.geos[0].assoc) {
        MshrsFault(c, k);
      } else {
        WaysFault(c, k);
      }
    }
  }

  /** Two levels with one-cycle latencies, given each one's sets, ways and MSHR entries. */
  function Pair(sets: int, ways: nat, mshrs: nat, sets': int, ways': nat, mshrs': nat): Config {
    Config(64, [Geometry(sets, ways, mshrs, 1, 1), Geometry(sets', ways', mshrs', 1, 1)])
  }

  ghost predicate GoesWrong(c: Config, bs: seq<int>) {
    Sets(c) && Run(c, Initial(c), Reads(c, bs)).fault
  }

  /** The smallest examples: fewer ways below, */
  lemma WaysNeeded()
    ensures GoesWrong(Pair(1, 2, 2, 1, 1, 2), [0, 1])
  {
    hide Run, Reads, Initial;
    var c := Pair(1, 2, 2, 1, 1, 2);
    assert Pow2(0) == 1;
    assert Spaced(1, 2) == [0, 1];
    WaysFault(c, 1);
  }

  /** fewer MSHR entries, */
  lemma MshrsNeeded()
    ensures GoesWrong(Pair(1, 2, 2, 1, 2, 1), [0, 1])
  {
    hide Run, Reads, Initial;
    assert Pow2(0) == 1;
    assert Spaced(1, 2) == [0, 1];
    MshrsFault(Pair(1, 2, 2, 1, 2, 1), 1);
  }

  /** or fewer sets of one way. */
  lemma SetsNeeded()
    ensures GoesWrong(Pair(2, 1, 2, 1, 1, 2), [0, 1])
  {
    hide Run, Reads, Initial;
    assert Pow2(0) == 1 && Pow2(1) == 2;
    assert Spaced(1, 2) == [0, 1];
    WaysFault(Pair(2, 1, 2, 1, 1, 2), 1);
  }
}
