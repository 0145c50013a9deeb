/** Hits: at which level an access finds its block, and on which tick it is answered. */
module CacheHits {
  import opened Arith
  import opened CacheEviction
  import opened CacheFlow
  import opened CacheInvariant
  import opened CacheModel
  import opened CacheSend
  import opened CacheSets
  import opened CacheTheorems
  import opened CacheViews
  import R = CacheRuns
  import W = CacheWait

  /** Level j is the first, from level k on, that holds block b. */
  ghost predicate FirstHolder(c: Config, s: System, k: nat, j: nat, b: int)
    requires Fits(c, s)
  {
    && k <= j < |c.geos| && Get(c, s, j, b).Some?
    && forall i :: k <= i < j ==> Get(c, s, i, b) == None
  }

  /** No level from k on holds it. */
  ghost predicate NoHolder(c: Config, s: System, k: nat, b: int)
    requires Fits(c, s)
  {
    forall i :: k <= i < |c.geos| ==> Get(c, s, i, b) == None
  }

  /** The hit that a read sent down to level k leaves behind, in the first level below that holds the block. */
  ghost predicate HitsBelow(c: Config, s: System, r: System, k: nat, addr: int)
    requires Fits(c, s)
  {
    && (forall j: nat :: FirstHolder(c, s, k, j, Block(c, addr)) ==>
          r.hits == s.hits + [Timed(s.clk + c.geos[j].latency, Request(addr, Read))])
    && (NoHolder(c, s, k, Block(c, addr)) ==> r.hits == s.hits)
  }

  /** Making room and recording the miss leaves the block's copies below alone. */
  lemma AllocateBelow(c: Config, s: System, k: nat, addr: int, dirty: bool)
    requires c.blockSize > 0 && InFlight(c, s, k, Block(c, addr)) && k < |c.geos|
    requires Get(c, s, k, Block(c, addr)) == None
    requires |Lines(c, s, k, addr)| >= c.geos[k].assoc
             ==> FindVictim(c, s, k, Lines(c, s, k, addr)) < |Lines(c, s, k, addr)|
    ensures var a := Allocate(c, s, k, addr, dirty);
      var m := WithMshr(c, a.sys, k, a.sys.levels[k].mshr + [addr]);
      && m.hits == s.hits && m.clk == s.clk
      && forall j :: k < j < |c.geos| ==> Get(c, m, j, Block(c, addr)) == Get(c, s, j, Block(c, addr))
  {
    var x := Block(c, addr);
    var lines := Lines(c, s, k, addr);
    var p := FindVictim(c, s, k, lines);
    GetLines(c, s, k, addr);
    if |lines| < c.geos[k].assoc {
      RecordedView(c, s, k, addr, dirty);
    } else {
      var t := Evict(c, s, k, addr, p);
      EvictKeeps(c, s, k, x, addr, p);
      LineBlock(c, s, k, addr, p);
      EvictMshrs(c, s, k, addr, p);
      EvictView(c, s, k, addr, p);
      assert SetOk(c, k, Index(c, k, addr), lines);
      RecordedView(c, t, k, addr, dirty);
    }
  }

  /** An unlocked copy at level k answers at level k. */
  lemma HitHere(c: Config, s: System, k: nat, req: Request)
    requires Fits(c, s) && SetsOk(c, s) && k < |c.geos|
    requires Get(c, s, k, Block(c, req.addr)).Some? && !Locked(c, s, k, Block(c, req.addr))
    ensures Send(c, s, k, req).sys.hits == s.hits + [Timed(s.clk + c.geos[k].latency, req)]
  {
    GetLines(c, s, k, req.addr);
  }

  /** A read on its way to level k is answered by the first level from there on that holds the block. */
  lemma {:induction false} SendHits(c: Config, s: System, k: nat, addr: int)
    requires c.blockSize > 0 && InFlight(c, s, k, Block(c, addr)) && 0 < k < |c.geos|
    ensures HitsBelow(c, s, Send(c, s, k, Request(addr, Read)).sys, k, addr)
    decreases |c.geos| - k, 1
  {
    var x := Block(c, addr);
    if Get(c, s, k, x).Some? {
      HitHere(c, s, k, Request(addr, Read));
    } else {
      GetLines(c, s, k, addr);
      NoMshr(c, s, k, addr);
      MshrFree(c, s, k, x);
      if |Lines(c, s, k, addr)| >= c.geos[k].assoc {
        VictimExists(c, s, k, addr);
      }
      AllocateBelow(c, s, k, addr, false);
      AllocateKeeps(c, s, k, addr, false);
      MissSend(c, s, k, Request(addr, Read));
      var a := Allocate(c, s, k, addr, false);
      var m := WithMshr(c, a.sys, k, a.sys.levels[k].mshr + [addr]);
      ForwardHits(c, s, m, k, addr);
    }
  }

  lemma {:induction false} ForwardHits(c: Config, s: System, m: System, k: nat, addr: int)
    requires c.blockSize > 0 && k < |c.geos| && InFlight(c, m, k + 1, Block(c, addr)) && Fits(c, s) && Fits(c, m)
    requires m.hits == s.hits && m.clk == s.clk && Get(c, s, k, Block(c, addr)) == None
    requires forall j :: k < j < |c.geos| ==> Get(c, m, j, Block(c, addr)) == Get(c, s, j, Block(c, addr))
    ensures HitsBelow(c, s, Forward(c, m, k, addr).sys, k, addr)
    decreases |c.geos| - k, 0
  {
    hide Send, Get, InFlight;
    var x := Block(c, addr);
    var r := Forward(c, m, k, addr).sys;
    if k + 1 < |c.geos| {
      SendHits(c, m, k + 1, addr);
      assert r.hits == Send(c, m, k + 1, Request(addr, Read)).sys.hits;
    }
    SameHolders(c, s, m, k, x);
  }

  /** The holders from level k on are those from the next level on. */
  lemma SameHolders(c: Config, s: System, m: System, k: nat, x: int)
    requires Fits(c, s) && Fits(c, m) && k < |c.geos| && Get(c, s, k, x) == None
    requires forall j :: k < j < |c.geos| ==> Get(c, m, j, x) == Get(c, s, j, x)
    ensures forall j: nat :: FirstHolder(c, s, k, j, x) <==> FirstHolder(c, m, k + 1, j, x)
    ensures NoHolder(c, s, k, x) <==> NoHolder(c, m, k + 1, x)
  {
    hide Get;
  }

  /** MAIN: an accepted access leaves exactly one hit behind if some level holds its block and the first level is not
      fetching it, and otherwise none; the hit is due the latency of the first level that holds it later. */
  lemma AccessHits(c: Config, s: System, req: Request)
    requires Inv(c, s)
    ensures var r, b := Send(c, s, 0, req), Block(c, req.addr);
      && (r.ok && !Locked(c, s, 0, b) ==>
            forall j: nat :: FirstHolder(c, s, 0, j, b) ==>
              r.sys.hits == s.hits
                + [Timed(s.clk + c.geos[j].latency, if j == 0 then req else Request(req.addr, Read))])
      && (!r.ok || Locked(c, s, 0, b) || NoHolder(c, s, 0, b) ==> r.sys.hits == s.hits)
  {
    hide Send, Get, SetsOk, LockOrder, InclusionBut, MshrOk, AllLocked;
    var b := Block(c, req.addr);
    AccessKeeps(c, s, req);
    if Locked(c, s, 0, b) {
      MergeHits(c, s, req);
    } else if Get(c, s, 0, b).Some? {
      HitHere(c, s, 0, req);
    } else if Send(c, s, 0, req).ok {
      MissHits(c, s, req);
    }
  }

  lemma MergeHits(c: Config, s: System, req: Request)
    requires Inv(c, s) && Locked(c, s, 0, Block(c, req.addr))
    ensures Send(c, s, 0, req).sys.hits == s.hits
  {
    var mshr := s.levels[0].mshr;
    GetLines(c, s, 0, req.addr);
    assert MshrOk(c, s, 0);
    assert InMshr(c, mshr, Block(c, req.addr));
    var m := HitMshr(c, mshr, req.addr);
    assert Send(c, s, 0, req) == Answer(WithLine(c, s, 0, mshr[m], true, req.kind == Write), true);
  }

  lemma MissHits(c: Config, s: System, req: Request)
    requires Inv(c, s) && Get(c, s, 0, Block(c, req.addr)) == None && !Refuses(c, s, req.addr)
    ensures HitsBelow(c, s, Send(c, s, 0, req).sys, 0, req.addr)
  {
    hide Send, HitsBelow;
    var x, lines, d := Block(c, req.addr), Lines(c, s, 0, req.addr), req.kind == Write;
    GetLines(c, s, 0, req.addr);
    LaunchInFlight(c, s, x);
    assert MshrOk(c, s, 0);
    NoMshr(c, s, 0, req.addr);
    if FindVictim(c, s, 0, lines) == |lines| {
      forall j | 0 <= j < |lines| ensures lines[j].lock {
        assert !Evictable(c, s, 0, lines[j]);
      }
    }
    AllocateKeeps(c, s, 0, req.addr, d);
    AllocateBelow(c, s, 0, req.addr, d);
    MissSend(c, s, 0, req);
    var a := Allocate(c, s, 0, req.addr, d);
    var m := WithMshr(c, a.sys, 0, a.sys.levels[0].mshr + [req.addr]);
    ForwardHits(c, s, m, 0, req.addr);
  }

  /** A hit and the tick of its answer. */
  datatype Reply = At(hit: Timed, tick: int)

  /** When the hits of a list are to be answered: once they are due, from the next cycle on. */
  function Expected(clk: int, list: seq<Timed>): seq<Reply> {
    if |list| == 0 then []
    else
      var e := list[|list| - 1];
      Expected(clk, list[..|list| - 1]) + [At(e, Max(e.ready, clk + 1))]
  }

  function Stamped(list: seq<Timed>, tick: int): seq<Reply> {
    if |list| == 0 then [] else Stamped(list[..|list| - 1], tick) + [At(list[|list| - 1], tick)]
  }

  /** The hits that a step answers, on the tick it makes. */
  function Answered(s: System, step: Step): seq<Reply> {
    if step.Cycle? then Stamped(W.Due(s.clk + 1, s.hits, true), s.clk + 1) else []
  }

  /** The hits that a step adds, each with the tick it is to be answered on. */
  function Added(c: Config, s: System, step: Step): seq<Reply>
    requires Fits(c, s) && |c.geos| > 0 && StepOk(s, step)
  {
    var r := Do(c, s, step);
    if !step.Cycle? && |s.hits| <= |r.hits| then Expected(s.clk, r.hits[|s.hits|..]) else []
  }

  function AllAnswered(c: Config, s: System, steps: seq<Step>): seq<Reply>
    requires Fits(c, s) && |c.geos| > 0 && RunOk(c, s, steps)
    decreases |steps|
  {
    if |steps| == 0 then [] else Answered(s, steps[0]) + AllAnswered(c, Do(c, s, steps[0]), steps[1..])
  }

  function AllAdded(c: Config, s: System, steps: seq<Step>): seq<Reply>
    requires Fits(c, s) && |c.geos| > 0 && RunOk(c, s, steps)
    decreases |steps|
  {
    if |steps| == 0 then [] else Added(c, s, steps[0]) + AllAdded(c, Do(c, s, steps[0]), steps[1..])
  }

  lemma {:induction false} ExpectedConcat(clk: int, a: seq<Timed>, b: seq<Timed>)
    ensures Expected(clk, a + b) == Expected(clk, a) + Expected(clk, b)
    decreases |b|
  {
    if |b| == 0 {
      assert a + b == a;
    } else {
      assert (a + b)[..|a + b| - 1] == a + b[..|b| - 1];
      ExpectedConcat(clk, a, b[..|b| - 1]);
    }
  }

  /** Together a and b hold what l does. */
  ghost predicate Parts(a: seq<Reply>, b: seq<Reply>, l: seq<Reply>) {
    multiset(a) + multiset(b) == multiset(l)
  }

  lemma OneMore(a: seq<Reply>, b: seq<Reply>, l: seq<Reply>, e: Reply)
    requires Parts(a, b, l)
    ensures Parts(a + [e], b, l + [e]) && Parts(a, b + [e], l + [e])
  {
  }

  lemma Snoc(clk: int, list: seq<Timed>, e: Timed, tick: int)
    ensures Expected(clk, list + [e]) == Expected(clk, list) + [At(e, Max(e.ready, clk + 1))]
    ensures Stamped(list + [e], tick) == Stamped(list, tick) + [At(e, tick)]
    ensures W.Due(clk, list + [e], true)
         == if e.ready <= clk then W.Due(clk, list, true) + [e] else W.Due(clk, list, true)
    ensures W.Due(clk, list + [e], false)
         == if e.ready <= clk then W.Due(clk, list, false) else W.Due(clk, list, false) + [e]
  {
    assert (list + [e])[..|list|] == list;
    assert W.Due(clk, list, true) + [] == W.Due(clk, list, true);
    assert W.Due(clk, list, false) + [] == W.Due(clk, list, false);
  }

  /** On the next tick the hits that are expected then are answered, and the others stay expected when they were. */
  lemma {:induction false} TickSplits(clk: int, list: seq<Timed>)
    ensures Parts(Stamped(W.Due(clk + 1, list, true), clk + 1), Expected(clk + 1, W.Due(clk + 1, list, false)),
                  Expected(clk, list))
    decreases |list|
  {
    hide Parts, Expected, Stamped, W.Due;
    if |list| == 0 {
      TickNone(clk);
    } else {
      var before, e := list[..|list| - 1], list[|list| - 1];
      assert list == before + [e];
      TickSplits(clk, before);
      TickMore(clk, before, e);
    }
  }

  lemma TickNone(clk: int)
    ensures Parts(Stamped(W.Due(clk + 1, [], true), clk + 1), Expected(clk + 1, W.Due(clk + 1, [], false)),
                  Expected(clk, []))
  {
  }

  lemma TickMore(clk: int, before: seq<Timed>, e: Timed)
    requires var a, b := W.Due(clk + 1, before, true), W.Due(clk + 1, before, false);
      Parts(Stamped(a, clk + 1), Expected(clk + 1, b), Expected(clk, before))
    ensures var a, b := W.Due(clk + 1, before + [e], true), W.Due(clk + 1, before + [e], false);
      Parts(Stamped(a, clk + 1), Expected(clk + 1, b), Expected(clk, before + [e]))
  {
    hide Parts, Expected, Stamped, W.Due;
    var a, b := W.Due(clk + 1, before, true), W.Due(clk + 1, before, false);
    Snoc(clk, before, e, clk + 1);
    Snoc(clk + 1, before, e, clk + 1);
    OneMore(Stamped(a, clk + 1), Expected(clk + 1, b), Expected(clk, before), At(e, Max(e.ready, clk + 1)));
    if e.ready <= clk + 1 {
      Snoc(clk + 1, a, e, clk + 1);
    } else {
      Snoc(clk + 1, b, e, clk + 1);
    }
  }

  /** A step of the caches leaves the hits that are under way as they are. */
  lemma ChainHits(c: Config, s: System, step: Step)
    requires Inv(c, s) && |c.geos| > 0 && !step.Cycle?
    ensures var r := Do(c, s, step);
      && s.hits <= r.hits && r.clk == s.clk
      && (step.Fetched? ==> r.hits == s.hits)
  {
    hide Send, Callback;
    match step {
      case Access(req) =>
        SameClock(c, s, R.Access(req));
        AccessHits(c, s, req);
        OneHolder(c, s, 0, Block(c, req.addr));
      case Fetched(addr) =>
        SameClock(c, s, R.Fetched(addr));
        CallbackHits(c, s, |c.geos| - 1, addr);
    }
  }

  lemma {:induction false} OneHolder(c: Config, s: System, k: nat, b: int)
    requires Fits(c, s) && k <= |c.geos|
    ensures NoHolder(c, s, k, b) || exists j: nat :: FirstHolder(c, s, k, j, b)
    decreases |c.geos| - k
  {
    hide Get;
    if k < |c.geos| {
      if Get(c, s, k, b).Some? {
        assert FirstHolder(c, s, k, k, b);
      } else {
        OneHolder(c, s, k + 1, b);
        if !NoHolder(c, s, k + 1, b) {
          var j: nat :| FirstHolder(c, s, k + 1, j, b);
          assert FirstHolder(c, s, k, j, b);
        }
      }
    }
  }

  lemma {:induction false} CallbackHits(c: Config, s: System, k: nat, addr: int)
    requires Fits(c, s) && k < |c.geos|
    ensures Callback(c, s, k, addr).hits == s.hits
    decreases k
  {
    hide HitMshr, Pos;
    if k > 0 {
      CallbackHits(c, CallbackOne(c, s, k, addr), k - 1, addr);
    }
  }

  /** What is answered and still expected after a run from a state with `pending` hits expected, and what was added. */
  ghost predicate Balanced(answered: seq<Reply>, expected: seq<Reply>, pending: seq<Reply>, added: seq<Reply>) {
    multiset(answered) + multiset(expected) == multiset(pending) + multiset(added)
  }

  lemma StepBalanced(c: Config, s: System, step: Step)
    requires Inv(c, s) && |c.geos| > 0 && StepOk(s, step)
    ensures var r := Do(c, s, step);
      Inv(c, r) && Balanced(Answered(s, step), Expected(r.clk, r.hits), Expected(s.clk, s.hits), Added(c, s, step))
  {
    hide Expected, Stamped, W.Due, W.Left, R.Do;
    var r := Do(c, s, step);
    if step.Cycle? {
      TickSplits(s.clk, s.hits);
      SameLevels(c, s, r);
    } else {
      ChainHits(c, s, step);
      R.StepKeeps(c, s, if step.Access? then R.Access(step.req) else R.Fetched(step.addr));
      assert r.hits == s.hits + r.hits[|s.hits|..];
      ExpectedConcat(s.clk, s.hits, r.hits[|s.hits|..]);
    }
  }

  lemma BalancedTrans(a0: seq<Reply>, a1: seq<Reply>, e0: seq<Reply>, e1: seq<Reply>, e2: seq<Reply>, q0: seq<Reply>,
                      q1: seq<Reply>)
    requires Balanced(a0, e1, e0, q0) && Balanced(a1, e2, e1, q1)
    ensures Balanced(a0 + a1, e2, e0, q0 + q1)
  {
    forall x ensures (multiset(a0 + a1) + multiset(e2))[x] == (multiset(e0) + multiset(q0 + q1))[x] {
      assert (multiset(a0) + multiset(e1))[x] == (multiset(e0) + multiset(q0))[x];
      assert (multiset(a1) + multiset(e2))[x] == (multiset(e1) + multiset(q1))[x];
    }
  }

  /** MAIN: over any run every hit is answered exactly once, on exactly its tick, or it is still expected then. */
  lemma {:induction false} RunBalanced(c: Config, s: System, steps: seq<Step>)
    requires Inv(c, s) && |c.geos| > 0 && RunOk(c, s, steps)
    ensures var r := Run(c, s, steps);
      && Inv(c, r)
      && Balanced(AllAnswered(c, s, steps), Expected(r.clk, r.hits), Expected(s.clk, s.hits), AllAdded(c, s, steps))
    decreases |steps|
  {
    hide Inv, Do, StepOk, Answered, Added, Expected;
    BlockPositive(c, s);
    if |steps| > 0 {
      hide Balanced;
      var m := Do(c, s, steps[0]);
      StepBalanced(c, s, steps[0]);
      RunBalanced(c, m, steps[1..]);
      var r := Run(c, m, steps[1..]);
      BalancedTrans(Answered(s, steps[0]), AllAnswered(c, m, steps[1..]), Expected(s.clk, s.hits),
                    Expected(m.clk, m.hits), Expected(r.clk, r.hits), Added(c, s, steps[0]),
                    AllAdded(c, m, steps[1..]));
    }
  }

  /** A hit queued at clock k by level j is expected on tick max(k + latency of j, k + 1). */
  lemma AccessAdds(c: Config, s: System, req: Request)
    requires Inv(c, s) && |c.geos| > 0
    ensures var b, ok, added := Block(c, req.addr), Send(c, s, 0, req).ok, Added(c, s, Access(req));
      && (ok && !Locked(c, s, 0, b) ==>
            forall j: nat :: FirstHolder(c, s, 0, j, b) ==>
              var due := s.clk + c.geos[j].latency;
              added == [At(Timed(due, if j == 0 then req else Request(req.addr, Read)), Max(due, s.clk + 1))])
      && (!ok || Locked(c, s, 0, b) || NoHolder(c, s, 0, b) ==> added == [])
  {
    hide Send, Get, Locked, Inv, Expected;
    BlockPositive(c, s);
    AccessHits(c, s, req);
    var r := Do(c, s, Access(req));
    assert r == Send(c, s, 0, req).sys;
    forall e | r.hits == s.hits + [e] ensures Added(c, s, Access(req)) == [At(e, Max(e.ready, s.clk + 1))] {
      assert r.hits[|s.hits|..] == [e];
      ExpectedOne(s.clk, e);
    }
    if r.hits == s.hits {
      assert r.hits[|s.hits|..] == [];
      ExpectedNone(s.clk);
    }
  }

  lemma ExpectedOne(clk: int, e: Timed)
    ensures Expected(clk, [e]) == [At(e, Max(e.ready, clk + 1))]
  {
    assert [e][..0] == [];
  }

  lemma ExpectedNone(clk: int)
    ensures Expected(clk, []) == []
  {
  }

  lemma {:induction false} ExpectedLater(clk: int, list: seq<Timed>, x: Reply)
    ensures x in Expected(clk, list) ==> x.tick > clk
    decreases |list|
  {
    if |list| > 0 {
      ExpectedLater(clk, list[..|list| - 1], x);
    }
  }

  lemma {:induction false} StampedAt(list: seq<Timed>, tick: int, x: Reply)
    ensures x in Stamped(list, tick) ==> x.tick == tick
    decreases |list|
  {
    if |list| > 0 {
      StampedAt(list[..|list| - 1], tick, x);
    }
  }

  lemma {:induction false} AnsweredBy(c: Config, s: System, steps: seq<Step>, x: Reply)
    requires Inv(c, s) && |c.geos| > 0 && RunOk(c, s, steps)
    ensures s.clk <= Run(c, s, steps).clk && (x in AllAnswered(c, s, steps) ==> x.tick <= Run(c, s, steps).clk)
    decreases |steps|
  {
    hide Inv, Do, StepOk, Expected, Added, Stamped;
    BlockPositive(c, s);
    if |steps| > 0 {
      var m := Do(c, s, steps[0]);
      StepBalanced(c, s, steps[0]);
      StepClock(c, s, steps[0]);
      AnsweredBy(c, m, steps[1..], x);
      if steps[0].Cycle? {
        StampedAt(W.Due(s.clk + 1, s.hits, true), s.clk + 1, x);
      }
    }
  }

  lemma StepClock(c: Config, s: System, step: Step)
    requires Inv(c, s) && |c.geos| > 0 && StepOk(s, step)
    ensures Do(c, s, step).clk == s.clk + if step.Cycle? then 1 else 0
  {
    if !step.Cycle? {
      ChainHits(c, s, step);
    }
  }

  /** MAIN: in every run from the empty chain each hit is answered exactly once, on exactly the tick it is expected:
      of the hits added with a tick, all are answered on it when the clock has got there, and none before. */
  lemma AnsweredOnTime(c: Config, steps: seq<Step>, x: Reply)
    requires ValidConfig(c) && RunOk(c, Initial(c), steps)
    ensures multiset(AllAnswered(c, Initial(c), steps))[x]
         == if x.tick <= Run(c, Initial(c), steps).clk then multiset(AllAdded(c, Initial(c), steps))[x] else 0
  {
    hide Inv, Run, RunOk, AllAnswered, AllAdded;
    var s := Initial(c);
    R.InitialInv(c);
    RunBalanced(c, s, steps);
    AnsweredBy(c, s, steps, x);
    var r := Run(c, s, steps);
    ExpectedLater(r.clk, r.hits, x);
    var a, e, q := AllAnswered(c, s, steps), Expected(r.clk, r.hits), AllAdded(c, s, steps);
    assert (multiset(a) + multiset(e))[x] == (multiset(Expected(s.clk, s.hits)) + multiset(q))[x];
    assert Expected(s.clk, s.hits) == [];
  }
}
