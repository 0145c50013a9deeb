/** The smallest cache and a memory that refuses a write: the fetch of a block overtakes its own write-back. */
module CacheRefetch {
  import opened Arith
  import opened CacheFlow
  import opened CacheInvariant
  import opened CacheModel
  import opened CacheOrder
  import opened CacheSend
  import opened CacheSets
  import opened CacheViews
  import W = CacheWait

  /** One level of one line. */
  const TINY := Config(1, [Geometry(1, 1, 1, 1, 1)])

  function Held(lines: seq<Line>, mshr: seq<int>, clk: int, waits: seq<Timed>): (s: System)
    ensures Fits(TINY, s)
  {
    System([Level([lines], mshr)], clk, waits, [], false)
  }

  lemma TinyValid()
    ensures ValidConfig(TINY)
  {
    assert Pow2(0) == 1;
  }

  lemma TinyPlace(addr: int, lines: seq<Line>, mshr: seq<int>, clk: int, waits: seq<Timed>, lines': seq<Line>)
    ensures Block(TINY, addr) == addr && Index(TINY, 0, addr) == 0 && Tag(TINY, 0, addr) == addr
    ensures Lines(TINY, Held(lines, mshr, clk, waits), 0, addr) == lines
    ensures WithLines(TINY, Held(lines, mshr, clk, waits), 0, addr, lines') == Held(lines', mshr, clk, waits)
  {
    assert [lines][0 := lines'] == [lines'];
    assert [Level([lines], mshr)][0 := Level([lines'], mshr)] == [Level([lines'], mshr)];
  }

  /** What an eviction of the line puts on the wait list. */
  function Back(line: Line, clk: int): seq<Timed> {
    if line.dirty then [Timed(clk + 1, Request(line.addr, Write))] else []
  }

  lemma TinyEvict(line: Line, clk: int, waits: seq<Timed>, addr: int)
    requires Lines(TINY, Held([line], [], clk, waits), 0, addr) == [line]
    ensures Evict(TINY, Held([line], [], clk, waits), 0, addr, 0) == Held([], [], clk, waits + Back(line, clk))
  {
    TinyPlace(addr, [line], [], clk, waits + Back(line, clk), []);
    assert Erase([line], 0) == [];
    assert waits + [] == waits;
  }

  /** A miss of the tiny cache, whether it has to evict or not. */
  lemma TinyMiss(was: seq<Line>, clk: int, waits: seq<Timed>, req: Request)
    requires |was| <= 1 && (|was| == 1 ==> !was[0].lock && was[0].tag != req.addr)
    ensures var back := if |was| == 1 then Back(was[0], clk) else [];
      Send(TINY, Held(was, [], clk, waits), 0, req)
      == Answer(Held([Line(req.addr, req.addr, true, req.kind == Write)], [req.addr], clk,
                     waits + back + [Timed(clk + 1, Request(req.addr, Read))]), true)
  {
    hide Evict;
    var s, line := Held(was, [], clk, waits), Line(req.addr, req.addr, true, req.kind == Write);
    TinyPlace(req.addr, was, [], clk, waits, [line]);
    assert Pos(was, req.addr) == |was|;
    assert [] + [line] == [line] && [] + [req.addr] == [req.addr];
    if |was| == 1 {
      assert was == [was[0]] && FindVictim(TINY, s, 0, was) == 0;
      TinyEvict(was[0], clk, waits, req.addr);
      TinyPlace(req.addr, [], [], clk, waits + Back(was[0], clk), [line]);
    } else {
      assert was == [] && waits + [] == waits;
    }
  }

  /** The answer to its fetch unlocks the line. */
  lemma TinyFetched(line: Line, clk: int, waits: seq<Timed>)
    requires line.tag == line.addr
    ensures Callback(TINY, Held([line], [line.addr], clk, waits), 0, line.addr)
         == Held([line.(lock := false)], [], clk, waits)
  {
    TinyPlace(line.addr, [line], [line.addr], clk, waits, [line.(lock := false)]);
    assert HitMshr(TINY, [line.addr], line.addr) == 0;
    assert Pos([line], line.addr) == 0;
    assert [line][0 := line.(lock := false)] == [line.(lock := false)];
    assert [line.addr][..0] + [line.addr][1..] == [];
  }

  lemma RunCons(s: System, step: Step, rest: seq<Step>)
    requires Fits(TINY, s) && StepOk(s, step) && RunOk(TINY, Do(TINY, s, step), rest)
    ensures RunOk(TINY, s, [step] + rest)
    ensures Run(TINY, s, [step] + rest) == Run(TINY, Do(TINY, s, step), rest)
    ensures AllOffers(TINY, s, [step] + rest) == Offers(TINY, s, step) + AllOffers(TINY, Do(TINY, s, step), rest)
  {
    hide Do, Offers;
    assert ([step] + rest)[1..] == rest;
  }

  /** What a step does to the requests queued and sent. */
  lemma StepTrace(s: System, t: Trace, step: Step)
    requires Inv(TINY, s) && Linked(s, t) && StepOk(s, step) && Fits(TINY, s)
    ensures StepsOk(t, Offers(TINY, s, step))
    ensures var r, v := Do(TINY, s, step), FollowAll(t, Offers(TINY, s, step));
      && v.w.queued == t.w.queued + (if step.Cycle? then [] else New(s, r))
      && v.w.sent == t.w.sent + (if step.Cycle? then W.Sent(s.clk + 1, s.waits, step.takes, |s.waits|) else [])
  {
    hide Do, Inv, TraceOk, Once, W.Sent, W.Left, Kept, Refusals, New, Queues;
    if step.Cycle? {
      assert [W.Tick(step.takes)][1..] == [];
      CycleFlows(TINY, s, step.takes, t, 0);
    } else {
      QueueAll(t, New(s, Do(TINY, s, step)));
    }
  }

  /** One step of a run, on the caches and on the wait list. */
  lemma Onward(s: System, t: Trace, step: Step, rest: seq<Step>)
    requires Fits(TINY, s) && Inv(TINY, s) && Linked(s, t) && StepOk(s, step) && RunOk(TINY, Do(TINY, s, step), rest)
    ensures RunOk(TINY, s, [step] + rest) && StepsOk(t, Offers(TINY, s, step))
    ensures var r, v := Do(TINY, s, step), FollowAll(t, Offers(TINY, s, step));
      && Inv(TINY, r) && Linked(r, v) && StepsOk(v, AllOffers(TINY, r, rest))
      && StepsOk(t, AllOffers(TINY, s, [step] + rest))
      && FollowAll(t, AllOffers(TINY, s, [step] + rest)) == FollowAll(v, AllOffers(TINY, r, rest))
  {
    hide Do, Inv, Linked, Run, AllOffers, Offers, FollowAll, StepsOk, AnyDirty, Writes;
    RunCons(s, step, rest);
    StepFlows(TINY, s, step, t, 0);
    var v := FollowAll(t, Offers(TINY, s, step));
    RunFlows(TINY, Do(TINY, s, step), rest, v, 0);
    FollowConcat(t, Offers(TINY, s, step), AllOffers(TINY, Do(TINY, s, step), rest));
  }

  /** Write a, fetched at once; read b, which evicts a: the memory takes the fetch of b and refuses the write-back of a;
      read a again: the memory takes the fetch and still refuses the write-back. */
  function Story(a: int, b: int): seq<Step> {
    [Access(Request(a, Write)), Cycle([true]), Fetched(a), Access(Request(b, Read)), Cycle([false, true]), Fetched(b),
     Access(Request(a, Read)), Cycle([false, true])]
  }

  function Fetch(addr: int, ready: int): Timed {
    Timed(ready, Request(addr, Read))
  }

  function WriteBack(addr: int): Timed {
    Timed(2, Request(addr, Write))
  }

  function Stage(a: int, b: int, i: nat): (s: System)
    requires i <= 8
    ensures Fits(TINY, s)
  {
    if i == 0 then Held([], [], 0, [])
    else if i == 1 then Held([Line(a, a, true, true)], [a], 0, [Fetch(a, 1)])
    else if i == 2 then Held([Line(a, a, true, true)], [a], 1, [])
    else if i == 3 then Held([Line(a, a, false, true)], [], 1, [])
    else if i == 4 then Held([Line(b, b, true, false)], [b], 1, [WriteBack(a), Fetch(b, 2)])
    else if i == 5 then Held([Line(b, b, true, false)], [b], 2, [WriteBack(a)])
    else if i == 6 then Held([Line(b, b, false, false)], [], 2, [WriteBack(a)])
    else if i == 7 then Held([Line(a, a, true, false)], [a], 2, [WriteBack(a), Fetch(a, 3)])
    else Held([Line(a, a, true, false)], [a], 3, [WriteBack(a)])
  }

  /** All requests in the order they are queued, and in the order they are sent. */
  function AllQueued(a: int, b: int): (q: seq<Timed>)
    ensures |q| == 4
  {
    [Fetch(a, 1), WriteBack(a), Fetch(b, 2), Fetch(a, 3)]
  }

  function AllSent(a: int, b: int): (q: seq<Timed>)
    ensures |q| == 3
  {
    [Fetch(a, 1), Fetch(b, 2), Fetch(a, 3)]
  }

  /** How many have been queued, and sent, before step i. */
  function QueuedBy(i: nat): (k: nat)
    ensures k <= 4
  {
    if i == 0 then 0 else if i <= 3 then 1 else if i <= 6 then 3 else 4
  }

  function SentBy(i: nat): (k: nat)
    ensures k <= 3
  {
    if i <= 1 then 0 else if i <= 4 then 1 else if i <= 7 then 2 else 3
  }

  function QueuedAt(a: int, b: int, i: nat): seq<Timed> {
    if i == 0 then [Fetch(a, 1)] else if i == 3 then [WriteBack(a), Fetch(b, 2)] else if i == 6 then [Fetch(a, 3)]
    else []
  }

  function SentAt(a: int, b: int, i: nat): seq<Timed> {
    if i == 1 then [Fetch(a, 1)] else if i == 4 then [Fetch(b, 2)] else if i == 7 then [Fetch(a, 3)] else []
  }

  lemma AtSlice(a: int, b: int, i: nat)
    requires i < 8
    ensures QueuedBy(i) <= QueuedBy(i + 1) && AllQueued(a, b)[QueuedBy(i)..QueuedBy(i + 1)] == QueuedAt(a, b, i)
    ensures SentBy(i) <= SentBy(i + 1) && AllSent(a, b)[SentBy(i)..SentBy(i + 1)] == SentAt(a, b, i)
  {
    hide Fetch, WriteBack;
  }

  lemma SweepOne(clk: int, e: Timed)
    requires e.ready <= clk
    ensures W.Left(clk, [e], [true], 1) == [] && W.Sent(clk, [e], [true], 1) == [e]
  {
    assert W.Left(clk, [e], [true], 0) == [] && W.Sent(clk, [e], [true], 0) == [];
    assert W.Goes(clk, [e], [true], 0);
  }

  lemma SweepSecond(clk: int, x: Timed, y: Timed)
    requires x.ready <= clk && y.ready <= clk
    ensures W.Left(clk, [x, y], [false, true], 2) == [x] && W.Sent(clk, [x, y], [false, true], 2) == [y]
  {
    var list, takes := [x, y], [false, true];
    assert W.Left(clk, list, takes, 0) == [] && W.Sent(clk, list, takes, 0) == [];
    assert W.Left(clk, list, takes, 1) == [x] && W.Sent(clk, list, takes, 1) == [];
    assert W.Goes(clk, list, takes, 1);
  }

  lemma StageStep(a: int, b: int, i: nat)
    requires a != b && i < 8
    ensures StepOk(Stage(a, b, i), Story(a, b)[i])
    ensures var s, step := Stage(a, b, i), Story(a, b)[i];
      && Do(TINY, s, step) == Stage(a, b, i + 1)
      && (if step.Cycle? then [] else New(s, Do(TINY, s, step))) == QueuedAt(a, b, i)
      && (if step.Cycle? then W.Sent(s.clk + 1, s.waits, step.takes, |s.waits|) else []) == SentAt(a, b, i)
  {
    hide Send, Callback, W.Left, W.Sent;
    if i == 0 {
      TinyMiss([], 0, [], Request(a, Write));
    } else if i == 1 {
      SweepOne(1, Fetch(a, 1));
    } else if i == 2 {
      TinyFetched(Line(a, a, true, true), 1, []);
    } else if i == 3 {
      TinyMiss([Line(a, a, false, true)], 1, [], Request(b, Read));
    } else if i == 4 {
      SweepSecond(2, WriteBack(a), Fetch(b, 2));
    } else if i == 5 {
      TinyFetched(Line(b, b, true, false), 2, [WriteBack(a)]);
    } else if i == 6 {
      TinyMiss([Line(b, b, false, false)], 2, [WriteBack(a)], Request(a, Read));
    } else {
      SweepSecond(3, WriteBack(a), Fetch(a, 3));
    }
  }

  lemma {:induction false} StoryRuns(a: int, b: int, i: nat)
    requires a != b && i <= 8
    ensures RunOk(TINY, Stage(a, b, i), Story(a, b)[i..])
    ensures Run(TINY, Stage(a, b, i), Story(a, b)[i..]) == Stage(a, b, 8)
    decreases 8 - i
  {
    hide Stage, Do, StepOk;
    if i < 8 {
      StageStep(a, b, i);
      StoryRuns(a, b, i + 1);
      assert Story(a, b)[i..] == [Story(a, b)[i]] + Story(a, b)[i + 1..];
      RunCons(Stage(a, b, i), Story(a, b)[i], Story(a, b)[i + 1..]);
    }
  }

  /** One step of the story, on the requests queued and sent. */
  lemma StoryStep(a: int, b: int, i: nat, t: Trace)
    requires a != b && i < 8 && Inv(TINY, Stage(a, b, i)) && Linked(Stage(a, b, i), t)
    ensures StepOk(Stage(a, b, i), Story(a, b)[i]) && StepsOk(t, Offers(TINY, Stage(a, b, i), Story(a, b)[i]))
    ensures var v := FollowAll(t, Offers(TINY, Stage(a, b, i), Story(a, b)[i]));
      && RunOk(TINY, Stage(a, b, i), Story(a, b)[i..]) && RunOk(TINY, Stage(a, b, i + 1), Story(a, b)[i + 1..])
      && Inv(TINY, Stage(a, b, i + 1)) && Linked(Stage(a, b, i + 1), v)
      && v.w.queued == t.w.queued + QueuedAt(a, b, i) && v.w.sent == t.w.sent + SentAt(a, b, i)
      && StepsOk(t, AllOffers(TINY, Stage(a, b, i), Story(a, b)[i..]))
      && StepsOk(v, AllOffers(TINY, Stage(a, b, i + 1), Story(a, b)[i + 1..]))
      && FollowAll(t, AllOffers(TINY, Stage(a, b, i), Story(a, b)[i..]))
         == FollowAll(v, AllOffers(TINY, Stage(a, b, i + 1), Story(a, b)[i + 1..]))
  {
    hide Stage, Do, StepOk, Inv, Linked, Offers, QueuedAt, SentAt, New, W.Sent, FollowAll, AllOffers, RunOk, StepsOk;
    var s, step := Stage(a, b, i), Story(a, b)[i];
    assert Story(a, b)[i..] == [step] + Story(a, b)[i + 1..];
    StageStep(a, b, i);
    StoryRuns(a, b, i);
    StoryRuns(a, b, i + 1);
    StepTrace(s, t, step);
    Onward(s, t, step, Story(a, b)[i + 1..]);
  }

  lemma StoryEnd(a: int, b: int, t: Trace)
    requires a != b
    ensures RunOk(TINY, Stage(a, b, 8), Story(a, b)[8..])
    ensures StepsOk(t, AllOffers(TINY, Stage(a, b, 8), Story(a, b)[8..]))
    ensures FollowAll(t, AllOffers(TINY, Stage(a, b, 8), Story(a, b)[8..])) == t
  {
  }

  lemma {:induction false} StoryTrace(a: int, b: int, i: nat, t: Trace)
    requires a != b && i <= 8 && Inv(TINY, Stage(a, b, i)) && Linked(Stage(a, b, i), t)
    requires t.w.queued == AllQueued(a, b)[..QueuedBy(i)] && t.w.sent == AllSent(a, b)[..SentBy(i)]
    requires RunOk(TINY, Stage(a, b, i), Story(a, b)[i..])
    ensures StepsOk(t, AllOffers(TINY, Stage(a, b, i), Story(a, b)[i..]))
    ensures var u := FollowAll(t, AllOffers(TINY, Stage(a, b, i), Story(a, b)[i..]));
      u.w.queued == AllQueued(a, b) && u.w.sent == AllSent(a, b)
    decreases 8 - i
  {
    hide Stage, Do, StepOk, Inv, Linked, Offers, AllQueued, AllSent, QueuedAt, SentAt, FollowAll, AllOffers, RunOk,
         StepsOk;
    if i == 8 {
      StoryEnd(a, b, t);
      Whole(a, b);
    } else {
      StoryStep(a, b, i, t);
      Whole(a, b);
      AtSlice(a, b, i);
      Slice(AllQueued(a, b), QueuedBy(i), QueuedBy(i + 1));
      Slice(AllSent(a, b), SentBy(i), SentBy(i + 1));
      StoryTrace(a, b, i + 1, FollowAll(t, Offers(TINY, Stage(a, b, i), Story(a, b)[i])));
    }
  }

  lemma Slice(all: seq<Timed>, p: nat, q: nat)
    requires p <= q <= |all|
    ensures all[..p] + all[p..q] == all[..q]
  {
  }

  lemma Whole(a: int, b: int)
    ensures |AllQueued(a, b)| == 4 && |AllSent(a, b)| == 3
    ensures AllQueued(a, b)[..4] == AllQueued(a, b) && AllSent(a, b)[..3] == AllSent(a, b)
  {
  }

  /** MAIN: two blocks and a one-line cache, each fetch answered after it was sent: the caches queue the write-back of a
      before the second fetch of a, and the memory gets the fetch while the write-back still waits. */
  lemma RefetchOvertakes(a: int, b: int)
    requires a != b
    ensures ValidConfig(TINY) && RunOk(TINY, Initial(TINY), Story(a, b))
    ensures var s, u := Run(TINY, Initial(TINY), Story(a, b)), TraceOf(TINY, Story(a, b));
      && u.w.queued == AllQueued(a, b) && u.w.sent == AllSent(a, b)
      && s.waits == [WriteBack(a)]
      && Overtaken(u)
  {
    hide Run, AllOffers, FollowAll, StepsOk, Inv, Overtaken, RunOk, TraceOk, Once;
    TinyValid();
    TinyStart();
    StoryRuns(a, b, 0);
    assert Story(a, b)[0..] == Story(a, b);
    StartLinked(TINY);
    StoryTrace(a, b, 0, Empty());
    var u := TraceOf(TINY, Story(a, b));
    TraceOfLinked(TINY, Story(a, b));
    InOrderMeans(u);
    assert (u.w.sent + u.w.list)[1] != u.w.queued[1];
  }

  lemma TinyStart()
    ensures Initial(TINY) == Held([], [], 0, [])
  {
    var levels := Initial(TINY).levels;
    assert levels[0].sets == [[]];
    assert levels == [Level([[]], [])];
  }
}
