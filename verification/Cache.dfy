/** The cache objects themselves: mutable sets and MSHRs, linked to the caches above and below.
    Every method is proved to compute the corresponding transformer of CacheModel. `ghost chain` lists the
    caches from the first level down; the C++ assertions appear as Dafny assertions. */
module Cache {
  import opened Arith
  import opened CacheSets
  import opened M = CacheModel
  import opened CacheInvariant
  import opened CacheViews
  import T = CacheTheorems
  import R = CacheRuns
  import E = CacheEviction
  import F = CacheFaults
  import W = CacheWait

  class CacheSystem {
    var clk: int
    var waitList: seq<Timed>
    var hitList: seq<Timed>

    constructor ()
      ensures clk == 0 && waitList == [] && hitList == []
    {
      clk, waitList, hitList := 0, [], [];
    }

    /** `tick`: what the memory takes of the ready requests is sent, and the hits that are due are answered. */
    method Tick(takes: seq<bool>) returns (sent: seq<Timed>, answered: seq<Timed>)
      requires |takes| >= |waitList|
      modifies this
      ensures clk == old(clk) + 1
      ensures sent == W.Sent(clk, old(waitList), takes, |old(waitList)|)
      ensures waitList == W.Left(clk, old(waitList), takes, |old(waitList)|)
      ensures answered == W.Due(clk, old(hitList), true) && hitList == W.Due(clk, old(hitList), false)
      ensures W.Answers(clk, old(hitList), answered, hitList)
    {
      clk := clk + 1;
      sent := SendReady(takes);
      answered := AnswerHits();
    }

    method SendReady(takes: seq<bool>) returns (sent: seq<Timed>)
      requires |takes| >= |waitList|
      modifies this`waitList
      ensures sent == W.Sent(clk, old(waitList), takes, |old(waitList)|)
      ensures waitList == W.Left(clk, old(waitList), takes, |old(waitList)|)
    {
      ghost var list := waitList;
      var seen, left := 0, [];
      sent := [];
      while seen < |waitList| && clk >= waitList[seen].ready
        invariant seen <= |waitList| && waitList == list && W.Open(clk, list, seen)
        invariant sent == W.Sent(clk, list, takes, seen) && left == W.Left(clk, list, takes, seen)
      {
        if takes[seen] {
          sent := sent + [waitList[seen]];
        } else {
          left := left + [waitList[seen]];
        }
        seen := seen + 1;
      }
      W.Stuck(clk, list, takes, seen, |list|);
      waitList := left + waitList[seen..];
      assert list[seen..|list|] == list[seen..];
    }

    method AnswerHits() returns (answered: seq<Timed>)
      modifies this`hitList
      ensures answered == W.Due(clk, old(hitList), true) && hitList == W.Due(clk, old(hitList), false)
      ensures W.Answers(clk, old(hitList), answered, hitList)
    {
      hide W.Answers;
      var left := [];
      answered := [];
      for i := 0 to |hitList|
        invariant hitList == old(hitList)
        invariant answered == W.Due(clk, hitList[..i], true) && left == W.Due(clk, hitList[..i], false)
      {
        assert hitList[..i + 1][..i] == hitList[..i];
        if clk >= hitList[i].ready {
          answered := answered + [hitList[i]];
        } else {
          left := left + [hitList[i]];
        }
      }
      assert hitList[..|hitList|] == hitList;
      W.DueAnswers(clk, hitList);
      hitList := left;
    }
  }

  class CacheNode {
    const c: Config
    const k: nat
    const cachesys: CacheSystem
    var sets: seq<seq<Line>>
    var mshr: seq<int>
    var higher: CacheNode?
    var lower: CacheNode?

    constructor (c: Config, k: nat, cachesys: CacheSystem)
      requires c.blockSize > 0 && k < |c.geos| && c.geos[k].blockNum > 0
      ensures this.c == c && this.k == k && this.cachesys == cachesys
      ensures |sets| == c.geos[k].blockNum && (forall i :: 0 <= i < |sets| ==> sets[i] == []) && mshr == []
      ensures higher == null && lower == null
    {
      this.c, this.k, this.cachesys := c, k, cachesys;
      sets := seq(c.geos[k].blockNum, _ => []);
      mshr := [];
      higher, lower := null, null;
    }

    /** `concatlower`: one cache above is all a single-core chain has. */
    method ConcatLower(below: CacheNode)
      modifies this`lower, below`higher
      ensures lower == below && below.higher == this
    {
      lower := below;
      below.higher := this;
    }

    static ghost predicate Linked(c: Config, chain: seq<CacheNode>, sys: CacheSystem)
      reads chain
    {
      |chain| == |c.geos| && LinkedSoFar(c, chain, sys)
    }

    /** The first |chain| levels, each linked to its neighbours among them. */
    static ghost predicate LinkedSoFar(c: Config, chain: seq<CacheNode>, sys: CacheSystem)
      reads chain
    {
      && |chain| <= |c.geos| && c.blockSize > 0
      && (forall i :: 0 <= i < |chain| ==>
            && chain[i].c == c && chain[i].k == i && chain[i].cachesys == sys
            && c.geos[i].blockNum > 0 && |chain[i].sets| == c.geos[i].blockNum)
      && (forall i :: 0 <= i < |chain| ==> LinkOk(chain, i))
    }

    static ghost predicate LinkOk(chain: seq<CacheNode>, i: nat)
      requires i < |chain|
      reads chain[i]
    {
      && chain[i].lower == (if i + 1 < |chain| then chain[i + 1] else null)
      && chain[i].higher == (if i > 0 then chain[i - 1] else null)
    }

    static ghost function Levels(chain: seq<CacheNode>): (r: seq<Level>)
      reads chain
      ensures |r| == |chain| && forall i :: 0 <= i < |chain| ==> r[i] == Level(chain[i].sets, chain[i].mshr)
    {
      seq(|chain|, i requires 0 <= i < |chain| reads chain => Level(chain[i].sets, chain[i].mshr))
    }

    /** The abstract state of the chain. */
    static ghost function Abs(c: Config, chain: seq<CacheNode>, sys: CacheSystem): (r: System)
      requires Linked(c, chain, sys)
      reads chain, sys
      ensures Fits(c, r)
    {
      System(Levels(chain), sys.clk, sys.waitList, sys.hitList, false)
    }

    /** This node is level k of the chain; what that says about its neighbours. */
    ghost predicate In(chain: seq<CacheNode>)
      reads chain
      ensures In(chain) ==>
        && |chain| == |c.geos| && k < |chain| && chain[k] == this && c.blockSize > 0
        && c.geos[k].blockNum > 0 && |sets| == c.geos[k].blockNum
        && higher == (if k > 0 then chain[k - 1] else null)
        && lower == (if k + 1 < |chain| then chain[k + 1] else null)
        && (forall i :: 0 <= i < |chain| && i != k ==> chain[i] != this)
      ensures In(chain) && k > 0 ==> var h := chain[k - 1]; h.k == k - 1 && h.c == c && h.cachesys == cachesys
      ensures In(chain) && k + 1 < |chain| ==> var l := chain[k + 1]; l.k == k + 1 && l.c == c && l.cachesys == cachesys
    {
      Linked(c, chain, cachesys) && k < |chain| && chain[k] == this && LinkOk(chain, k)
    }

    ghost function State(chain: seq<CacheNode>): (r: System)
      requires In(chain)
      reads chain, cachesys
      ensures Fits(c, r)
    {
      Abs(c, chain, cachesys)
    }

    /** This node's part of the abstract state. */
    lemma Own(chain: seq<CacheNode>)
      requires In(chain)
      ensures State(chain).levels[k] == Level(sets, mshr) && !State(chain).fault
    {
    }

    /** `find_if` by tag. */
    static method FindTag(lines: seq<Line>, tag: int) returns (p: nat)
      ensures p == Pos(lines, tag)
    {
      p := 0;
      while p < |lines| && lines[p].tag != tag
        invariant p <= |lines|
        invariant Pos(lines, tag) == p + Pos(lines[p..], tag)
      {
        assert lines[p..][1..] == lines[p + 1..];
        p := p + 1;
      }
    }

    method HitMshr(addr: int) returns (m: nat)
      requires c.blockSize > 0
      ensures m == M.HitMshr(c, mshr, addr)
    {
      m := 0;
      while m < |mshr| && Block(c, mshr[m]) != Block(c, addr)
        invariant m <= |mshr|
        invariant M.HitMshr(c, mshr, addr) == m + M.HitMshr(c, mshr[m..], addr)
      {
        assert mshr[m..][1..] == mshr[m + 1..];
        m := m + 1;
      }
    }

    method CheckUnlock(addr: int, ghost chain: seq<CacheNode>) returns (r: bool)
      requires In(chain)
      ensures r == M.CheckUnlock(c, State(chain), k, addr)
      decreases k
    {
      var lines := sets[Index(c, k, addr)];
      var p := FindTag(lines, Tag(c, k, addr));
      if p == |lines| {
        return true;
      }
      r := !lines[p].lock;
      if r && higher != null {
        r := higher.CheckUnlock(lines[p].addr, chain);
      }
    }

    method FindVictim(lines: seq<Line>, ghost chain: seq<CacheNode>) returns (p: nat)
      requires In(chain)
      ensures p == M.FindVictim(c, State(chain), k, lines)
    {
      p := 0;
      while p < |lines|
        invariant p <= |lines|
        invariant M.FindVictim(c, State(chain), k, lines)
                  == p + M.FindVictim(c, State(chain), k, lines[p..])
      {
        var check := !lines[p].lock;
        if check && higher != null {
          check := higher.CheckUnlock(lines[p].addr, chain);
        }
        assert check == Evictable(c, State(chain), k, lines[p]);
        if check {
          return;
        }
        assert lines[p..][1..] == lines[p + 1..];
        p := p + 1;
      }
    }

    /** Replace one set of this cache. */
    method SetLines(addr: int, lines: seq<Line>, ghost chain: seq<CacheNode>)
      requires In(chain)
      modifies this`sets
      ensures In(chain)
      ensures State(chain) == WithLines(c, old(State(chain)), k, addr, lines)
    {
      sets := sets[Index(c, k, addr) := lines];
      assert Levels(chain) == old(Levels(chain))[k := Level(sets, mshr)];
    }

    method SetMshr(entries: seq<int>, ghost chain: seq<CacheNode>)
      requires In(chain)
      modifies this`mshr
      ensures In(chain)
      ensures State(chain) == WithMshr(c, old(State(chain)), k, entries)
    {
      mshr := entries;
      assert Levels(chain) == old(Levels(chain))[k := Level(sets, mshr)];
    }

    method Invalidate(addr: int, ghost chain: seq<CacheNode>) returns (delay: int, dirty: bool)
      requires In(chain)
      requires !M.Invalidate(c, State(chain), k, addr).sys.fault
      modifies chain`sets
      ensures In(chain)
      ensures Invalidated(State(chain), delay, dirty)
           == M.Invalidate(c, old(State(chain)), k, addr)
      decreases k, 2
    {
      var lines := sets[Index(c, k, addr)];
      if |lines| == 0 {
        return 0, false;
      }
      var p := FindTag(lines, Tag(c, k, addr));
      if p == |lines| {
        return c.geos[k].latencyEach, false;
      }
      delay, dirty := InvalidateHere(addr, p, chain);
    }

    method InvalidateHere(addr: int, p: nat, ghost chain: seq<CacheNode>) returns (delay: int, dirty: bool)
      requires In(chain)
      requires p == Pos(sets[Index(c, k, addr)], Tag(c, k, addr)) < |sets[Index(c, k, addr)]|
      requires !M.Invalidate(c, State(chain), k, addr).sys.fault
      modifies chain`sets
      ensures In(chain)
      ensures Invalidated(State(chain), delay, dirty)
           == M.Invalidate(c, old(State(chain)), k, addr)
      decreases k, 1
    {
      hide M.Invalidate, CacheNode.In, CacheNode.State, WithLines, Erase;
      ghost var s := State(chain);
      Own(chain);
      var lines := sets[Index(c, k, addr)];
      var each := c.geos[k].latencyEach;
      F.InvalidateFault(c, s, k, addr);
      assert !lines[p].lock;
      SetLines(addr, Erase(lines, p), chain);
      assert State(chain) == WithLines(c, s, k, addr, Erase(lines, p));
      if higher == null {
        return each, lines[p].dirty;
      }
      var d, w := InvalidateHigher(addr, chain);
      return Max(each, each + if w then d * 2 else d), lines[p].dirty || w;
    }

    method InvalidateHigher(addr: int, ghost chain: seq<CacheNode>) returns (delay: int, dirty: bool)
      requires In(chain) && higher != null
      requires !M.Invalidate(c, State(chain), k - 1, addr).sys.fault
      modifies chain`sets
      ensures In(chain)
      ensures Invalidated(State(chain), delay, dirty) == M.Invalidate(c, old(State(chain)), k - 1, addr)
      decreases k, 0
    {
      delay, dirty := higher.Invalidate(addr, chain);
    }

    method EvictLine(addr: int, dirty: bool, ghost chain: seq<CacheNode>)
      requires In(chain)
      requires !M.EvictLine(c, State(chain), k, addr, dirty).fault
      modifies this`sets
      ensures In(chain)
      ensures State(chain) == M.EvictLine(c, old(State(chain)), k, addr, dirty)
    {
      var lines := sets[Index(c, k, addr)];
      var p := FindTag(lines, Tag(c, k, addr));
      assert p < |lines|;
      SetLines(addr, Erase(lines + [Line(addr, Tag(c, k, addr), false, dirty || lines[p].dirty)], p), chain);
    }

    /** The back-invalidation half of `evict`. */
    method InvalidateAbove(victim: Line, ghost chain: seq<CacheNode>) returns (delay: int, dirty: bool)
      requires In(chain)
      requires !E.Above(c, State(chain), k, victim).sys.fault
      modifies chain`sets
      ensures In(chain)
      ensures Invalidated(State(chain), delay, dirty) == E.Above(c, old(State(chain)), k, victim)
    {
      delay, dirty := 0, false;
      if higher != null {
        delay, dirty := InvalidateHigher(victim.addr, chain);
      }
    }

    /** The half of `evict` that passes the dirty bit on. */
    method HandDown(victim: Line, delay: int, inherited: bool, ghost chain: seq<CacheNode>)
      requires In(chain)
      requires !E.Below(c, Invalidated(State(chain), delay, inherited), k, victim).fault
      modifies chain`sets, cachesys`waitList
      ensures In(chain)
      ensures State(chain) == E.Below(c, Invalidated(old(State(chain)), delay, inherited), k, victim)
    {
      var time := if higher == null then 0 else Max(0, delay + if inherited then c.geos[k].latencyEach else 0);
      var dirty := victim.dirty || inherited;
      if lower != null {
        lower.EvictLine(victim.addr, dirty, chain);
      } else if dirty {
        cachesys.waitList := cachesys.waitList
          + [Timed(cachesys.clk + time + c.geos[k].latency, Request(victim.addr, Write))];
        assert Levels(chain) == old(Levels(chain));
      }
    }

    method Evict(addr: int, p: nat, ghost chain: seq<CacheNode>)
      requires In(chain) && p < |sets[Index(c, k, addr)]|
      requires !M.Evict(c, State(chain), k, addr, p).fault
      modifies chain`sets, cachesys`waitList
      ensures In(chain)
      ensures State(chain) == M.Evict(c, old(State(chain)), k, addr, p)
    {
      ghost var s := State(chain);
      var victim := sets[Index(c, k, addr)][p];
      F.EvictFault(c, s, k, addr, p);
      E.EvictSplit(c, s, k, addr, p);
      var delay, dirty := InvalidateAbove(victim, chain);
      HandDown(victim, delay, dirty, chain);
      SetLines(addr, Erase(sets[Index(c, k, addr)], p), chain);
    }

    /** `allocate_line`, with the dirty bit `send` stores right after it. */
    method Allocate(addr: int, dirty: bool, ghost chain: seq<CacheNode>) returns (ok: bool)
      requires In(chain)
      requires !M.Allocate(c, State(chain), k, addr, dirty).sys.fault
      modifies chain`sets, cachesys`waitList
      ensures In(chain)
      ensures Answer(State(chain), ok) == M.Allocate(c, old(State(chain)), k, addr, dirty)
    {
      hide M.Evict;
      var lines := sets[Index(c, k, addr)];
      var here := FindTag(lines, Tag(c, k, addr));
      assert here == |lines|;
      if |lines| >= c.geos[k].assoc {
        var p := FindVictim(lines, chain);
        if p == |lines| {
          return false;
        }
        Evict(addr, p, chain);
      }
      SetLines(addr, sets[Index(c, k, addr)] + [Line(addr, Tag(c, k, addr), true, dirty)], chain);
      ok := true;
    }

    /** Change the bits of the line an MSHR entry points at. */
    method UpdateLine(addr: int, lock: bool, dirty: bool, ghost chain: seq<CacheNode>)
      requires In(chain)
      requires !M.WithLine(c, State(chain), k, addr, lock, dirty).fault
      modifies this`sets
      ensures In(chain)
      ensures State(chain) == M.WithLine(c, old(State(chain)), k, addr, lock, dirty)
    {
      var lines := sets[Index(c, k, addr)];
      var p := FindTag(lines, Tag(c, k, addr));
      assert p < |lines|;
      var l := lines[p];
      SetLines(addr, lines[p := l.(lock := lock && l.lock, dirty := dirty || l.dirty)], chain);
    }

    method Send(req: Request, ghost chain: seq<CacheNode>) returns (ok: bool)
      requires In(chain)
      requires !M.Send(c, State(chain), k, req).sys.fault
      modifies chain`sets, chain`mshr, cachesys`waitList, cachesys`hitList
      ensures In(chain)
      ensures Answer(State(chain), ok) == M.Send(c, old(State(chain)), k, req)
      decreases |c.geos| - k, 2
    {
      var lines := sets[Index(c, k, req.addr)];
      var p := FindTag(lines, Tag(c, k, req.addr));
      if p < |lines| && !lines[p].lock {
        Hit(req, p, chain);
        ok := true;
      } else {
        ok := Miss(req, chain);
      }
    }

    method Hit(req: Request, p: nat, ghost chain: seq<CacheNode>)
      requires In(chain)
      requires p == Pos(sets[Index(c, k, req.addr)], Tag(c, k, req.addr)) < |sets[Index(c, k, req.addr)]|
      requires !sets[Index(c, k, req.addr)][p].lock
      modifies this`sets, cachesys`hitList
      ensures In(chain)
      ensures Answer(State(chain), true) == M.Send(c, old(State(chain)), k, req)
    {
      ghost var s := State(chain);
      hide M.Send;
      F.HitSend(c, s, k, req);
      var lines := sets[Index(c, k, req.addr)];
      var line := Line(req.addr, Tag(c, k, req.addr), false, lines[p].dirty || req.kind == Write);
      SetLines(req.addr, Erase(lines + [line], p), chain);
      assert State(chain) == WithLines(c, s, k, req.addr, Erase(lines + [line], p));
      ghost var levels := Levels(chain);
      cachesys.hitList := cachesys.hitList + [Timed(cachesys.clk + c.geos[k].latency, req)];
      assert Levels(chain) == levels;
    }

    method Miss(req: Request, ghost chain: seq<CacheNode>) returns (ok: bool)
      requires In(chain)
      requires !M.Send(c, State(chain), k, req).sys.fault
      requires var lines := sets[Index(c, k, req.addr)];
        var p := Pos(lines, Tag(c, k, req.addr));
        p == |lines| || lines[p].lock
      modifies chain`sets, chain`mshr, cachesys`waitList, cachesys`hitList
      ensures In(chain)
      ensures Answer(State(chain), ok) == M.Send(c, old(State(chain)), k, req)
      decreases |c.geos| - k, 1
    {
      hide M.Send, M.Allocate, M.Forward, WithLine, M.HitMshr;
      ghost var s := State(chain);
      var m := HitMshr(req.addr);
      var full := AllSetsLocked(sets[Index(c, k, req.addr)]);
      F.MissParts(c, s, k, req);
      if m < |mshr| {
        UpdateLine(mshr[m], true, req.kind == Write, chain);
        return true;
      }
      if |mshr| == c.geos[k].mshrNum || full {
        return false;
      }
      F.SendFault(c, s, k, req);
      ok := Allocate(req.addr, req.kind == Write, chain);
      if ok {
        ghost var a := State(chain);
        SetMshr(mshr + [req.addr], chain);
        assert State(chain) == WithMshr(c, a, k, a.levels[k].mshr + [req.addr]);
        ok := Forward(req.addr, chain);
      }
    }

    method AllSetsLocked(lines: seq<Line>) returns (r: bool)
      requires k < |c.geos|
      ensures r == AllLocked(c, k, lines)
    {
      if |lines| < c.geos[k].assoc {
        return false;
      }
      for i := 0 to |lines|
        invariant forall j :: 0 <= j < i ==> lines[j].lock
      {
        if !lines[i].lock {
          return false;
        }
      }
      return true;
    }

    /** The end of `send`: the recorded miss goes on as a read, its answer unused. */
    method Forward(addr: int, ghost chain: seq<CacheNode>) returns (ok: bool)
      requires In(chain)
      requires !M.Forward(c, State(chain), k, addr).sys.fault
      modifies chain`sets, chain`mshr, cachesys`waitList, cachesys`hitList
      ensures In(chain)
      ensures Answer(State(chain), ok) == M.Forward(c, old(State(chain)), k, addr)
      decreases |c.geos| - k, 0
    {
      if lower != null {
        var accepted := lower.Send(Request(addr, Read), chain);
        assert accepted;
      } else {
        cachesys.waitList := cachesys.waitList + [Timed(cachesys.clk + c.geos[k].latency, Request(addr, Read))];
      }
      ok := true;
    }

    method Callback(addr: int, ghost chain: seq<CacheNode>)
      requires In(chain)
      requires !M.Callback(c, State(chain), k, addr).fault
      modifies chain`sets, chain`mshr
      ensures In(chain)
      ensures State(chain) == M.Callback(c, old(State(chain)), k, addr)
      decreases k, 1
    {
      F.CallbackFault(c, State(chain), k, addr);
      F.CallbackUnfold(c, State(chain), k, addr);
      Unlock(addr, chain);
      if higher != null {
        CallbackHigher(addr, chain);
      }
    }

    method CallbackHigher(addr: int, ghost chain: seq<CacheNode>)
      requires In(chain) && higher != null
      requires !M.Callback(c, State(chain), k - 1, addr).fault
      modifies chain`sets, chain`mshr
      ensures In(chain)
      ensures State(chain) == M.Callback(c, old(State(chain)), k - 1, addr)
      decreases k, 0
    {
      higher.Callback(addr, chain);
    }

    method Unlock(addr: int, ghost chain: seq<CacheNode>)
      requires In(chain)
      requires !CallbackOne(c, State(chain), k, addr).fault
      modifies this`sets, this`mshr
      ensures In(chain)
      ensures State(chain) == CallbackOne(c, old(State(chain)), k, addr)
    {
      hide WithLine;
      ghost var s := State(chain);
      var m := HitMshr(addr);
      if m < |mshr| {
        var entries := mshr[..m] + mshr[m + 1..];
        UpdateLine(mshr[m], false, false, chain);
        assert State(chain) == WithLine(c, s, k, s.levels[k].mshr[m], false, false);
        SetMshr(entries, chain);
      }
    }
  }

  ghost predicate Empty(nodes: seq<CacheNode>)
    reads nodes
  {
    forall j :: 0 <= j < |nodes| ==>
      (forall i :: 0 <= i < |nodes[j].sets| ==> nodes[j].sets[i] == []) && nodes[j].mshr == []
  }

  /** Create the next level down and hang it below the last one. */
  method Extend(c: Config, nodes: seq<CacheNode>, sys: CacheSystem) returns (node: CacheNode)
    requires ValidConfig(c) && |nodes| < |c.geos|
    requires CacheNode.LinkedSoFar(c, nodes, sys) && Empty(nodes)
    modifies nodes
    ensures fresh(node)
    ensures CacheNode.LinkedSoFar(c, nodes + [node], sys) && Empty(nodes + [node])
  {
    node := new CacheNode(c, |nodes|, sys);
    if |nodes| > 0 {
      nodes[|nodes| - 1].ConcatLower(node);
    }
    forall j | 0 <= j < |nodes| + 1 ensures CacheNode.LinkOk(nodes + [node], j) {
      assert j < |nodes| ==> old(CacheNode.LinkOk(nodes, j));
    }
  }

  method Build(c: Config) returns (sys: CacheSystem, nodes: seq<CacheNode>)
    requires ValidConfig(c)
    ensures fresh(sys) && fresh(nodes) && CacheNode.Linked(c, nodes, sys) && Empty(nodes)
    ensures sys.clk == 0 && sys.waitList == [] && sys.hitList == []
  {
    sys := new CacheSystem();
    nodes := [];
    for i := 0 to |c.geos|
      invariant |nodes| == i && fresh(nodes) && fresh(sys)
      invariant sys.clk == 0 && sys.waitList == [] && sys.hitList == []
      invariant CacheNode.LinkedSoFar(c, nodes, sys) && Empty(nodes)
    {
      var node := Extend(c, nodes, sys);
      nodes := nodes + [node];
    }
  }

  lemma EmptyInitial(c: Config, nodes: seq<CacheNode>, sys: CacheSystem)
    requires ValidConfig(c) && CacheNode.Linked(c, nodes, sys) && Empty(nodes)
    requires sys.clk == 0 && sys.waitList == [] && sys.hitList == []
    ensures CacheNode.Abs(c, nodes, sys) == Initial(c)
  {
    forall j | 0 <= j < |nodes| ensures CacheNode.Levels(nodes)[j] == Initial(c).levels[j] {
      assert nodes[j].sets == Initial(c).levels[j].sets;
    }
    assert CacheNode.Levels(nodes) == Initial(c).levels;
  }

  /** A core's caches, first level to last, as the simulator wires them up. */
  class Hierarchy {
    const c: Config
    const cachesys: CacheSystem
    const chain: seq<CacheNode>
    const first: CacheNode
    const last: CacheNode

    ghost predicate Linked()
      reads chain
    {
      && CacheNode.Linked(c, chain, cachesys) && |chain| > 0
      && first == chain[0] && last == chain[|chain| - 1]
    }

    ghost function State(): (s: System)
      requires Linked()
      reads chain, cachesys
      ensures Fits(c, s)
    {
      CacheNode.Abs(c, chain, cachesys)
    }

    ghost predicate Valid()
      reads chain, cachesys
    {
      Linked() && Inv(c, State())
    }

    constructor (c: Config)
      requires ValidConfig(c)
      ensures Valid() && State() == Initial(c) && fresh(chain) && fresh(cachesys)
    {
      var sys, nodes := Build(c);
      this.c, cachesys, chain := c, sys, nodes;
      first, last := nodes[0], nodes[|nodes| - 1];
      EmptyInitial(c, nodes, sys);
      R.InitialInv(c);
      new;
      assert Linked();
      assert State() == Initial(c);
    }

    /** A core's access: none of the assertions on the way can fail, whatever came before. */
    method Access(req: Request) returns (ok: bool)
      requires Valid()
      modifies chain, cachesys
      ensures Valid()
      ensures Answer(State(), ok) == Send(c, old(State()), 0, req)
    {
      T.AccessKeeps(c, State(), req);
      ok := first.Send(req, chain);
    }

    /** A cycle of the cache system leaves the caches alone. */
    method Tick(takes: seq<bool>) returns (sent: seq<Timed>, answered: seq<Timed>)
      requires Valid() && |takes| >= |cachesys.waitList|
      modifies cachesys
      ensures Valid()
      ensures var s, n := old(State()), |old(State()).waits|;
        State() == s.(clk := s.clk + 1, waits := W.Left(s.clk + 1, s.waits, takes, n),
                      hits := W.Due(s.clk + 1, s.hits, false))
      ensures sent == W.Sent(old(State()).clk + 1, old(State()).waits, takes, |old(State()).waits|)
      ensures answered == W.Due(old(State()).clk + 1, old(State()).hits, true)
      ensures W.Answers(old(State()).clk + 1, old(State()).hits, answered, State().hits)
    {
      hide W.Answers;
      ghost var s := State();
      sent, answered := cachesys.Tick(takes);
      T.SameLevels(c, s, State());
    }

    /** The memory system reports that a fetch has completed. */
    method Receive(addr: int)
      requires Valid()
      modifies chain
      ensures Valid()
      ensures State() == Callback(c, old(State()), |c.geos| - 1, addr)
    {
      T.CallbackKeeps(c, State(), |c.geos| - 1, addr);
      last.Callback(addr, chain);
    }
  }
}
