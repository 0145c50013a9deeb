/** The caches and the way to the memory together: accesses, completed fetches, and cycles on which the memory takes
    some of the delayed requests. */
module CacheFlow {
  import opened CacheModel
  import opened CacheSets
  import opened CacheViews
  import opened CacheInvariant
  import opened CacheSend
  import opened CacheTheorems
  import opened O = CacheOrder
  import R = CacheRuns
  import W = CacheWait

  datatype Step = Access(req: Request) | Fetched(addr: int) | Cycle(takes: seq<bool>)

  predicate StepOk(s: System, step: Step) {
    step.Cycle? ==> |s.waits| <= |step.takes|
  }

  function Do(c: Config, s: System, step: Step): (r: System)
    requires Fits(c, s) && |c.geos| > 0 && StepOk(s, step)
    ensures Fits(c, r)
  {
    match step
    case Access(req) => R.Do(c, s, R.Access(req))
    case Fetched(addr) => R.Do(c, s, R.Fetched(addr))
    case Cycle(takes) =>
      s.(clk := s.clk + 1, waits := W.Left(s.clk + 1, s.waits, takes, |s.waits|),
         hits := W.Due(s.clk + 1, s.hits, false))
  }

  /** What a step of the caches appends to the wait list. */
  function New(s: System, r: System): seq<Timed> {
    if |s.waits| <= |r.waits| then r.waits[|s.waits|..] else []
  }

  function Queues(es: seq<Timed>): (q: seq<W.Step>)
    ensures |q| == |es|
  {
    seq(|es|, i requires 0 <= i < |es| => W.Queue(es[i]))
  }

  /** What a step means to the wait list. */
  function Offers(c: Config, s: System, step: Step): seq<W.Step>
    requires Fits(c, s) && |c.geos| > 0 && StepOk(s, step)
  {
    if step.Cycle? then [W.Tick(step.takes)] else Queues(New(s, Do(c, s, step)))
  }

  predicate RunOk(c: Config, s: System, steps: seq<Step>)
    requires Fits(c, s) && |c.geos| > 0
    decreases |steps|
  {
    |steps| > 0 ==> StepOk(s, steps[0]) && RunOk(c, Do(c, s, steps[0]), steps[1..])
  }

  function Run(c: Config, s: System, steps: seq<Step>): (r: System)
    requires Fits(c, s) && |c.geos| > 0 && RunOk(c, s, steps)
    ensures Fits(c, r)
    decreases |steps|
  {
    if |steps| == 0 then s else Run(c, Do(c, s, steps[0]), steps[1..])
  }

  function AllOffers(c: Config, s: System, steps: seq<Step>): seq<W.Step>
    requires Fits(c, s) && |c.geos| > 0 && RunOk(c, s, steps)
    decreases |steps|
  {
    if |steps| == 0 then [] else Offers(c, s, steps[0]) + AllOffers(c, Do(c, s, steps[0]), steps[1..])
  }

  /** The numbered wait list belongs to the state of the caches. */
  ghost predicate Linked(s: System, t: Trace) {
    t.w.list == s.waits && t.w.clk == s.clk && TraceOk(t) && Once(t)
  }

  lemma {:induction false} FollowConcat(t: Trace, a: seq<W.Step>, b: seq<W.Step>)
    requires StepsOk(t, a) && StepsOk(FollowAll(t, a), b)
    ensures StepsOk(t, a + b) && FollowAll(t, a + b) == FollowAll(FollowAll(t, a), b)
    decreases |a|
  {
    hide Follow;
    if |a| == 0 {
      assert a + b == b;
    } else {
      assert (a + b)[1..] == a[1..] + b;
      FollowConcat(Follow(t, a[0]), a[1..], b);
    }
  }

  lemma {:induction false} QueueAll(t: Trace, es: seq<Timed>)
    requires TraceOk(t) && Once(t)
    ensures StepsOk(t, Queues(es))
    ensures var r := FollowAll(t, Queues(es));
      && TraceOk(r) && Once(r) && r.gone == t.gone
      && r.w == t.w.(list := t.w.list + es, queued := t.w.queued + es)
    decreases |es|
  {
    if |es| == 0 {
      assert t.w.list + es == t.w.list && t.w.queued + es == t.w.queued;
    } else {
      hide TraceOk, Once, Queues;
      QueuesFirst(es);
      FollowKeeps(t, W.Queue(es[0]));
      FollowOnce(t, W.Queue(es[0]));
      QueueAll(Follow(t, W.Queue(es[0])), es[1..]);
      assert (t.w.list + [es[0]]) + es[1..] == t.w.list + es;
      assert (t.w.queued + [es[0]]) + es[1..] == t.w.queued + es;
    }
  }

  lemma QueuesFirst(es: seq<Timed>)
    requires |es| > 0
    ensures Queues(es)[0] == W.Queue(es[0]) && Queues(es)[1..] == Queues(es[1..])
  {
  }

  /** A write of block b among the requests queued from number n on. */
  ghost predicate WriteQueued(c: Config, queued: seq<Timed>, n: nat, b: int)
    requires c.blockSize > 0
  {
    exists i :: n <= i < |queued| && queued[i].req.kind == Write && Block(c, queued[i].req.addr) == b
  }

  ghost predicate Writes(c: Config, s: System, step: Step, b: int)
    requires Fits(c, s) && |c.geos| > 0
  {
    step.Access? && R.Writes(c, s, R.Access(step.req), b)
  }

  lemma NewQueued(c: Config, s: System, r: System, queued: seq<Timed>, b: int)
    requires c.blockSize > 0 && s.waits <= r.waits
    ensures WriteQueued(c, queued + New(s, r), |queued|, b) <==> Pushed(c, s, r, b)
    ensures s.waits + New(s, r) == r.waits
  {
    var all := queued + New(s, r);
    if Pushed(c, s, r, b) {
      var i :| |s.waits| <= i < |r.waits| && r.waits[i].req.kind == Write && Block(c, r.waits[i].req.addr) == b;
      assert all[|queued| + i - |s.waits|] == r.waits[i];
    }
    if WriteQueued(c, all, |queued|, b) {
      var i :| |queued| <= i < |all| && all[i].req.kind == Write && Block(c, all[i].req.addr) == b;
      assert r.waits[|s.waits| + i - |queued|] == all[i];
    }
  }

  /** The caches leave the clock alone. */
  lemma {:induction false} InvalidateClock(c: Config, s: System, k: nat, addr: int)
    requires Fits(c, s) && k < |c.geos|
    ensures Invalidate(c, s, k, addr).sys.clk == s.clk
    decreases k
  {
    var lines := Lines(c, s, k, addr);
    var p := Pos(lines, Tag(c, k, addr));
    if p < |lines| && k > 0 {
      InvalidateClock(c, WithLines(c, s, k, addr, Erase(lines, p)).(fault := s.fault || lines[p].lock), k - 1, addr);
    }
  }

  lemma EvictClock(c: Config, s: System, k: nat, addr: int, p: nat)
    requires Fits(c, s) && k < |c.geos| && p < |Lines(c, s, k, addr)|
    ensures Evict(c, s, k, addr, p).clk == s.clk
  {
    hide Invalidate, Erase, Pos;
    if k > 0 {
      InvalidateClock(c, s, k - 1, Lines(c, s, k, addr)[p].addr);
    }
  }

  lemma AllocateClock(c: Config, s: System, k: nat, addr: int, dirty: bool)
    requires Fits(c, s) && k < |c.geos|
    ensures Allocate(c, s, k, addr, dirty).sys.clk == s.clk
  {
    hide Evict, FindVictim, Pos;
    var p := FindVictim(c, s, k, Lines(c, s, k, addr));
    if p < |Lines(c, s, k, addr)| {
      EvictClock(c, s, k, addr, p);
    }
  }

  lemma {:induction false} SendClock(c: Config, s: System, k: nat, req: Request)
    requires Fits(c, s) && k < |c.geos|
    ensures Send(c, s, k, req).sys.clk == s.clk
    decreases |c.geos| - k
  {
    hide Allocate, AllLocked, HitMshr, Pos, Erase;
    AllocateClock(c, s, k, req.addr, req.kind == Write);
    if k + 1 < |c.geos| {
      var a := Allocate(c, s, k, req.addr, req.kind == Write);
      SendClock(c, WithMshr(c, a.sys, k, a.sys.levels[k].mshr + [req.addr]), k + 1, Request(req.addr, Read));
    }
  }

  lemma {:induction false} CallbackClock(c: Config, s: System, k: nat, addr: int)
    requires Fits(c, s) && k < |c.geos|
    ensures Callback(c, s, k, addr).clk == s.clk
    decreases k
  {
    hide HitMshr, Pos;
    if k > 0 {
      CallbackClock(c, CallbackOne(c, s, k, addr), k - 1, addr);
    }
  }

  lemma SameClock(c: Config, s: System, step: R.Step)
    requires Fits(c, s) && |c.geos| > 0 && !step.Wait?
    ensures R.Do(c, s, step).clk == s.clk
  {
    match step {
      case Access(req) => SendClock(c, s, 0, req);
      case Fetched(addr) => CallbackClock(c, s, |c.geos| - 1, addr);
    }
  }

  /** One step, seen by the caches and by the wait list. */
  lemma StepFlows(c: Config, s: System, step: Step, t: Trace, b: int)
    requires Inv(c, s) && Linked(s, t) && StepOk(s, step)
    ensures StepsOk(t, Offers(c, s, step))
    ensures var r, u := Do(c, s, step), FollowAll(t, Offers(c, s, step));
      && Inv(c, r) && r.fault == s.fault && Linked(r, u) && t.w.queued <= u.w.queued
      && (AnyDirty(c, r, b) || WriteQueued(c, u.w.queued, |t.w.queued|, b)
          <==> AnyDirty(c, s, b) || Writes(c, s, step, b))
  {
    hide TraceOk, Once, Follow, Send, Callback, Inv, AnyDirty, WriteQueued, Pushed, W.Left, R.Do;
    BlockPositive(c, s);
    match step {
      case Cycle(takes) =>
        CycleFlows(c, s, takes, t, b);
        NoneQueued(c, t.w.queued, b);
      case Access(req) =>
        ChainFlows(c, s, R.Access(req), t, b);
      case Fetched(addr) =>
        ChainFlows(c, s, R.Fetched(addr), t, b);
    }
  }

  lemma ChainFlows(c: Config, s: System, step: R.Step, t: Trace, b: int)
    requires Inv(c, s) && Linked(s, t) && !step.Wait?
    ensures var r := R.Do(c, s, step);
      && StepsOk(t, Queues(New(s, r)))
      && var u := FollowAll(t, Queues(New(s, r)));
         && Inv(c, r) && r.fault == s.fault && Linked(r, u) && t.w.queued <= u.w.queued
         && (AnyDirty(c, r, b) || WriteQueued(c, u.w.queued, |t.w.queued|, b)
             <==> AnyDirty(c, s, b) || R.Writes(c, s, step, b))
  {
    hide TraceOk, Once, Follow, StepsOk, FollowAll, Queues, Inv, AnyDirty, R.Writes, WriteQueued, Pushed, R.Do;
    BlockPositive(c, s);
    var r := R.Do(c, s, step);
    R.StepKeeps(c, s, step);
    assert R.Writes(c, s, step, b) || !R.Writes(c, s, step, b);
    NewQueued(c, s, r, t.w.queued, b);
    QueueAll(t, New(s, r));
    SameClock(c, s, step);
  }

  lemma BlockPositive(c: Config, s: System)
    requires Inv(c, s)
    ensures c.blockSize > 0 && |c.geos| > 0 && Fits(c, s)
  {
  }

  lemma CycleFlows(c: Config, s: System, takes: seq<bool>, t: Trace, b: int)
    requires Inv(c, s) && Linked(s, t) && |s.waits| <= |takes|
    ensures StepsOk(t, [W.Tick(takes)])
    ensures var r, u := Do(c, s, Cycle(takes)), FollowAll(t, [W.Tick(takes)]);
      && Inv(c, r) && r.fault == s.fault && Linked(r, u) && u.w.queued == t.w.queued
      && (AnyDirty(c, r, b) <==> AnyDirty(c, s, b))
  {
    hide TraceOk, Once, W.Left, W.Sent, W.Due, Kept, Refusals, Inv, Get, AnyDirty;
    BlockPositive(c, s);
    var r := Do(c, s, Cycle(takes));
    FollowKeeps(t, W.Tick(takes));
    FollowOnce(t, W.Tick(takes));
    assert [W.Tick(takes)][1..] == [];
    SameLevels(c, s, r);
    SameDirty(c, s, r, b);
  }

  lemma SameDirty(c: Config, s: System, r: System, b: int)
    requires Fits(c, s) && Fits(c, r) && forall j :: 0 <= j < |c.geos| ==> Get(c, r, j, b) == Get(c, s, j, b)
    ensures AnyDirty(c, r, b) <==> AnyDirty(c, s, b)
  {
    hide Get;
    if AnyDirty(c, s, b) {
      var j :| 0 <= j < |c.geos| && Dirty(c, s, j, b);
      assert Dirty(c, r, j, b);
    }
    if AnyDirty(c, r, b) {
      var j :| 0 <= j < |c.geos| && Dirty(c, r, j, b);
      assert Dirty(c, s, j, b);
    }
  }

  /** An access of the run is an accepted write of block b. */
  ghost predicate WritesIn(c: Config, s: System, steps: seq<Step>, b: int)
    requires Fits(c, s) && |c.geos| > 0 && RunOk(c, s, steps)
    decreases |steps|
  {
    |steps| > 0 && (Writes(c, s, steps[0], b) || WritesIn(c, Do(c, s, steps[0]), steps[1..], b))
  }

  lemma QueuedTrans(c: Config, q0: seq<Timed>, q1: seq<Timed>, q2: seq<Timed>, b: int)
    requires c.blockSize > 0 && q0 <= q1 <= q2
    ensures WriteQueued(c, q2, |q0|, b) <==> WriteQueued(c, q1, |q0|, b) || WriteQueued(c, q2, |q1|, b)
  {
    if WriteQueued(c, q1, |q0|, b) {
      var i :| |q0| <= i < |q1| && q1[i].req.kind == Write && Block(c, q1[i].req.addr) == b;
      assert q2[i] == q1[i];
    }
    if WriteQueued(c, q2, |q0|, b) {
      var i :| |q0| <= i < |q2| && q2[i].req.kind == Write && Block(c, q2[i].req.addr) == b;
      assert i < |q1| ==> q1[i] == q2[i];
    }
  }

  /** MAIN: caches, write-backs and wait list over any run: everything queued is sent or waits, once; and a block is
      dirty in some level or a write of it has been queued during the run exactly if it was dirty before or the run
      wrote it. */
  lemma {:induction false} RunFlows(c: Config, s: System, steps: seq<Step>, t: Trace, b: int)
    requires Inv(c, s) && Linked(s, t) && RunOk(c, s, steps)
    ensures StepsOk(t, AllOffers(c, s, steps))
    ensures var r, u := Run(c, s, steps), FollowAll(t, AllOffers(c, s, steps));
      && Inv(c, r) && r.fault == s.fault && Linked(r, u) && t.w.queued <= u.w.queued
      && (AnyDirty(c, r, b) || WriteQueued(c, u.w.queued, |t.w.queued|, b)
          <==> AnyDirty(c, s, b) || WritesIn(c, s, steps, b))
    decreases |steps|
  {
    hide Inv, Linked, Do, StepOk, Offers, AnyDirty, Writes, Follow;
    BlockPositive(c, s);
    if |steps| == 0 {
      NoneQueued(c, t.w.queued, b);
    } else {
      hide StepsOk, FollowAll, WriteQueued;
      StepFlows(c, s, steps[0], t, b);
      var m, v := Do(c, s, steps[0]), FollowAll(t, Offers(c, s, steps[0]));
      RunFlows(c, m, steps[1..], v, b);
      FollowConcat(t, Offers(c, s, steps[0]), AllOffers(c, m, steps[1..]));
      QueuedTrans(c, t.w.queued, v.w.queued, FollowAll(v, AllOffers(c, m, steps[1..])).w.queued, b);
    }
  }

  lemma NoneQueued(c: Config, queued: seq<Timed>, b: int)
    requires c.blockSize > 0
    ensures !WriteQueued(c, queued, |queued|, b)
  {
  }

  lemma StartLinked(c: Config)
    requires ValidConfig(c)
    ensures Inv(c, Initial(c)) && Linked(Initial(c), Empty())
  {
    R.InitialInv(c);
  }

  /** The numbered wait list after a run from the empty chain. */
  ghost function TraceOf(c: Config, steps: seq<Step>): Trace
    requires ValidConfig(c) && RunOk(c, Initial(c), steps)
  {
    StartLinked(c);
    RunFlows(c, Initial(c), steps, Empty(), 0);
    FollowAll(Empty(), AllOffers(c, Initial(c), steps))
  }

  lemma TraceOfLinked(c: Config, steps: seq<Step>)
    requires ValidConfig(c) && RunOk(c, Initial(c), steps)
    ensures var s := Run(c, Initial(c), steps); Inv(c, s) && !s.fault && Linked(s, TraceOf(c, steps))
  {
    StartLinked(c);
    RunFlows(c, Initial(c), steps, Empty(), 0);
  }

  /** A write of block b queued from number n on, which waits or has been sent, and not both. */
  ghost predicate OnItsWay(c: Config, u: Trace, n: nat, b: int)
    requires c.blockSize > 0
  {
    exists i: nat :: n <= i < |u.w.queued| && u.w.queued[i].req.kind == Write && Block(c, u.w.queued[i].req.addr) == b
                     && (i in u.ids) != (i in u.gone)
  }

  lemma QueuedOnItsWay(c: Config, u: Trace, n: nat, b: int)
    requires c.blockSize > 0 && Once(u) && WriteQueued(c, u.w.queued, n, b)
    ensures OnItsWay(c, u, n, b)
  {
    var q := u.w.queued;
    var i :| n <= i < |q| && q[i].req.kind == Write && Block(c, q[i].req.addr) == b;
    assert multiset(u.gone)[i] + multiset(u.ids)[i] == 1;
    assert (i in u.ids) != (i in u.gone);
  }

  /** MAIN: no written data is lost on the way to the memory either. Once a write of block b is accepted, then however
      accesses, completed fetches and cycles follow, and whatever the memory takes, some level holds b dirty, or a write
      of b queued since waits or has been sent. */
  lemma NoWriteLost(c: Config, before: seq<Step>, req: Request, after: seq<Step>)
    requires ValidConfig(c) && req.kind == Write && RunOk(c, Initial(c), before)
    requires RunOk(c, Run(c, Initial(c), before), [Access(req)] + after)
    ensures var s, steps, t := Run(c, Initial(c), before), [Access(req)] + after, TraceOf(c, before);
      var r := Run(c, s, steps);
      && StepsOk(t, AllOffers(c, s, steps))
      && var u := FollowAll(t, AllOffers(c, s, steps));
         && Linked(r, u)
         && (Send(c, s, 0, req).ok ==>
               AnyDirty(c, r, Block(c, req.addr)) || OnItsWay(c, u, |t.w.queued|, Block(c, req.addr)))
  {
    hide Run, AllOffers, FollowAll, StepsOk, Send, AnyDirty, OnItsWay, WriteQueued, TraceOf, TraceOk;
    var b, s, steps, t := Block(c, req.addr), Run(c, Initial(c), before), [Access(req)] + after, TraceOf(c, before);
    TraceOfLinked(c, before);
    RunFlows(c, s, steps, t, b);
    if Send(c, s, 0, req).ok {
      assert Writes(c, s, steps[0], b);
      var u := FollowAll(t, AllOffers(c, s, steps));
      if WriteQueued(c, u.w.queued, |t.w.queued|, b) {
        QueuedOnItsWay(c, u, |t.w.queued|, b);
      }
    }
  }

  /** MAIN: in a run from the empty chain the caches' requests reach the memory as they were queued, so that no fetch
      overtakes a write-back, if and only if on every cycle the memory takes a prefix of what is ready. */
  lemma InOrderIff(c: Config, steps: seq<Step>)
    requires ValidConfig(c) && RunOk(c, Initial(c), steps)
    ensures StepsOk(Empty(), AllOffers(c, Initial(c), steps))
    ensures var u := TraceOf(c, steps);
      && (!Overtaken(u) <==> AllNeat(Empty(), AllOffers(c, Initial(c), steps)))
      && (!Overtaken(u) ==> u.w.sent + Run(c, Initial(c), steps).waits == u.w.queued)
  {
    hide Run, AllOffers, FollowAll, StepsOk, AllNeat, Inv;
    StartLinked(c);
    RunFlows(c, Initial(c), steps, Empty(), 0);
    EmptyInOrder();
    O.InOrderIff(Empty(), AllOffers(c, Initial(c), steps));
    InOrderMeans(TraceOf(c, steps));
  }

  lemma EmptyInOrder()
    ensures TraceOk(Empty()) && !Overtaken(Empty())
  {
  }
}
