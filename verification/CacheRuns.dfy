/** Whole runs of the chain: any interleaving of accesses, completed fetches and passing time. */
module CacheRuns {
  import opened Arith
  import opened CacheSets
  import opened CacheModel
  import opened CacheViews
  import opened CacheInvariant
  import opened CacheSend
  import opened CacheTheorems

  datatype Step = Access(req: Request) | Fetched(addr: int) | Wait(clk: int)

  function Do(c: Config, s: System, step: Step): (r: System)
    requires Fits(c, s) && |c.geos| > 0
    ensures Fits(c, r)
  {
    match step
    case Access(req) => Send(c, s, 0, req).sys
    case Fetched(addr) => Callback(c, s, |c.geos| - 1, addr)
    case Wait(clk) => s.(clk := clk)
  }

  function Run(c: Config, s: System, steps: seq<Step>): (r: System)
    requires Fits(c, s) && |c.geos| > 0
    ensures Fits(c, r)
    decreases |steps|
  {
    if |steps| == 0 then s else Run(c, Do(c, s, steps[0]), steps[1..])
  }

  lemma {:induction false} RunSnoc(c: Config, s: System, steps: seq<Step>, step: Step)
    requires Fits(c, s) && |c.geos| > 0
    ensures Run(c, s, steps + [step]) == Do(c, Run(c, s, steps), step)
    decreases |steps|
  {
    if |steps| == 0 {
      assert steps + [step] == [step] && [step][1..] == [];
    } else {
      assert (steps + [step])[1..] == steps[1..] + [step];
      RunSnoc(c, Do(c, s, steps[0]), steps[1..], step);
    }
  }

  lemma InitialInv(c: Config)
    requires ValidConfig(c)
    ensures Inv(c, Initial(c)) && !Initial(c).fault
    ensures forall b :: !AnyDirty(c, Initial(c), b)
  {
    var s := Initial(c);
    forall j, b | 0 <= j < |c.geos| ensures Get(c, s, j, b) == None {
    }
    forall j | 0 <= j < |c.geos| ensures MshrOk(c, s, j) {
    }
    forall j, b | 0 <= j < |c.geos| - 1 ensures OrderedAt(c, s, j, b) && IncludedAt(c, s, j, b) {
    }
  }

  /** The step is an accepted write of block b. */
  ghost predicate Writes(c: Config, s: System, step: Step, b: int)
    requires Fits(c, s) && |c.geos| > 0
  {
    step.Access? && step.req.kind == Write && Block(c, step.req.addr) == b && Send(c, s, 0, step.req).ok
  }

  lemma StepKeeps(c: Config, s: System, step: Step)
    requires Inv(c, s)
    ensures var r := Do(c, s, step);
      && Inv(c, r) && r.fault == s.fault && s.waits <= r.waits
      && forall b {:trigger Writes(c, s, step, b)} ::
           && (AnyDirty(c, r, b) || Pushed(c, s, r, b) <==> AnyDirty(c, s, b) || Writes(c, s, step, b))
           && !(AnyDirty(c, r, b) && Pushed(c, s, r, b))
  {
    var r := Do(c, s, step);
    match step
    case Access(req) =>
      AccessKeeps(c, s, req);
    case Fetched(addr) =>
      CallbackKeeps(c, s, |c.geos| - 1, addr);
    case Wait(_) =>
      SameLevels(c, s, r);
      assert Marked(c, s, r, 0, 0, false);
      MarkedConserved(c, s, r, 0, 0, false);
  }

  /** Some step of the run is an accepted write of block b. */
  ghost predicate WritesIn(c: Config, s: System, steps: seq<Step>, b: int)
    requires Fits(c, s) && |c.geos| > 0
    decreases |steps|
  {
    |steps| > 0 && (Writes(c, s, steps[0], b) || WritesIn(c, Do(c, s, steps[0]), steps[1..], b))
  }

  lemma PushedTrans(c: Config, s: System, m: System, r: System, b: int)
    requires c.blockSize > 0 && s.waits <= m.waits <= r.waits
    ensures Pushed(c, s, r, b) <==> Pushed(c, s, m, b) || Pushed(c, m, r, b)
  {
    if Pushed(c, s, m, b) {
      var i :| |s.waits| <= i < |m.waits| && m.waits[i].req.kind == Write && Block(c, m.waits[i].req.addr) == b;
      assert r.waits[i] == m.waits[i];
    }
    if Pushed(c, s, r, b) {
      var i :| |s.waits| <= i < |r.waits| && r.waits[i].req.kind == Write && Block(c, r.waits[i].req.addr) == b;
      if i < |m.waits| {
        assert m.waits[i] == r.waits[i];
      }
    }
  }

  /** MAIN: from any good state, after any run, the invariant holds and nothing has gone wrong; and a block is
      dirty in some level or has had a write put on the memory queue during the run exactly if it was dirty
      before or an access of the run wrote it. */
  lemma {:induction false} RunKeeps(c: Config, s: System, steps: seq<Step>, b: int)
    requires Inv(c, s)
    ensures var r := Run(c, s, steps);
      && Inv(c, r) && r.fault == s.fault && s.waits <= r.waits
      && (AnyDirty(c, r, b) || Pushed(c, s, r, b) <==> AnyDirty(c, s, b) || WritesIn(c, s, steps, b))
    decreases |steps|
  {
    if |steps| == 0 {
      NothingPushed(c, s, s, b);
    } else {
      var m := Do(c, s, steps[0]);
      StepKeeps(c, s, steps[0]);
      RunKeeps(c, m, steps[1..], b);
      assert Writes(c, s, steps[0], b) || !Writes(c, s, steps[0], b);
      PushedTrans(c, s, m, Run(c, m, steps[1..]), b);
    }
  }

  /** MAIN: no assertion of the cache code ever fires, no MSHR iterator dangles and no level below the first
      ever refuses a miss, in any run from the empty chain; each level's lines are included in the next. */
  lemma ReachableSafe(c: Config, steps: seq<Step>)
    requires ValidConfig(c)
    ensures var r := Run(c, Initial(c), steps);
      && !r.fault
      && Inv(c, r)
      && forall j, k, b :: 0 <= j <= k < |c.geos| ==>
           && (Get(c, r, j, b).Some? ==> Get(c, r, k, b).Some?)
           && (Locked(c, r, k, b) ==> Locked(c, r, j, b))
  {
    hide Get, Locked, Inv;
    InitialInv(c);
    RunKeeps(c, Initial(c), steps, 0);
    var r := Run(c, Initial(c), steps);
    forall j, k, b | 0 <= j <= k < |c.geos|
      ensures Get(c, r, j, b).Some? ==> Get(c, r, k, b).Some?
      ensures Locked(c, r, k, b) ==> Locked(c, r, j, b)
    {
      InvBelow(c, r, j, k, b);
    }
  }

  /** Inclusion and the order of the locks, over any number of levels. */
  lemma InvBelow(c: Config, s: System, j: nat, k: nat, b: int)
    requires Inv(c, s) && j <= k < |c.geos|
    ensures Get(c, s, j, b).Some? ==> Get(c, s, k, b).Some?
    ensures Locked(c, s, k, b) ==> Locked(c, s, j, b)
  {
    hide Get, Locked;
    if Get(c, s, j, b).Some? && Get(c, s, k, b) == None {
      forall i | 0 <= i < k ensures IncludedAt(c, s, i, b) {
      }
      AbsentAbove(c, s, k, b, j);
    }
    if Locked(c, s, k, b) {
      LockedAbove(c, s, j, k, b);
    }
  }

  /** MAIN: no written data is lost. Once a write of block b is accepted, then however the run goes on, some level
      holds b dirty or a write of b has been put on the memory queue since. */
  lemma NoWriteLost(c: Config, before: seq<Step>, req: Request, after: seq<Step>)
    requires ValidConfig(c) && req.kind == Write
    ensures var s := Run(c, Initial(c), before);
      var r := Run(c, s, [Access(req)] + after);
      Send(c, s, 0, req).ok ==> AnyDirty(c, r, Block(c, req.addr)) || Pushed(c, s, r, Block(c, req.addr))
  {
    InitialInv(c);
    RunKeeps(c, Initial(c), before, 0);
    var s := Run(c, Initial(c), before);
    var steps := [Access(req)] + after;
    RunKeeps(c, s, steps, Block(c, req.addr));
    if Send(c, s, 0, req).ok {
      assert Writes(c, s, steps[0], Block(c, req.addr));
    }
  }

  /** The sizes a single-core simulation is built with. */
  function DefaultConfig(): Config {
    Config(64, [Geometry(64, 8, 16, 4, 4), Geometry(512, 8, 16, 16, 12), Geometry(16384, 8, 16, 47, 31)])
  }

  function SetsOf(size: int, blockSize: int, assoc: int): int
    requires blockSize > 0 && assoc > 0
  {
    size / (blockSize * assoc)
  }

  /** Those sizes meet the conditions of the theorems above. */
  lemma DefaultConfigValid()
    ensures ValidConfig(DefaultConfig())
    ensures var c := DefaultConfig();
      && c.geos[0].blockNum == SetsOf(0x8000, 64, 8)
      && c.geos[1].blockNum == SetsOf(0x40000, 64, 8)
      && c.geos[2].blockNum == SetsOf(0x800000, 64, 8)
      && forall k :: 0 <= k < 3 ==> c.geos[k].latency == AccumulatedLatency(c, k + 1)
  {
    var c := DefaultConfig();
    assert Pow2(3) == 8 && Pow2(6) == 64 && Pow2(9) == 512 && Pow2(12) == 4096 && Pow2(14) == 16384;
    assert AccumulatedLatency(c, 1) == 4;
    assert AccumulatedLatency(c, 2) == 16;
    assert AccumulatedLatency(c, 3) == 47;
  }

  function AccumulatedLatency(c: Config, n: nat): int
    requires n <= |c.geos|
  {
    if n == 0 then 0 else AccumulatedLatency(c, n - 1) + c.geos[n - 1].latencyEach
  }
}
