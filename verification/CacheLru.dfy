/** Every level evicts in least-recently-touched order: its set lists are sorted by last touch in every run, whatever
    the levels around it do. A level is touched by a hit, by an allocation and by a line handed down from above. */
module CacheLru {
  import opened CacheSets
  import opened CacheModel
  import opened CacheViews
  import opened CacheEviction
  import opened CacheInvariant
  import opened CacheSend
  import opened CacheTheorems
  import opened CacheRuns

  /** The last place of a block in a log of touches, or -1. */
  function LastAt(log: seq<int>, b: int): (t: int)
    ensures -1 <= t < |log|
  {
    if |log| == 0 then -1 else if log[|log| - 1] == b then |log| - 1 else LastAt(log[..|log| - 1], b)
  }

  lemma LastSnoc(log: seq<int>, x: int, b: int)
    ensures LastAt(log + [x], b) == if b == x then |log| else LastAt(log, b)
  {
    assert (log + [x])[..|log|] == log;
  }

  /** The lines stand in the order of their blocks' last touches. */
  ghost predicate Sorted(c: Config, lines: seq<Line>, log: seq<int>)
    requires c.blockSize > 0
  {
    forall i, j :: 0 <= i < j < |lines| ==> LastAt(log, Block(c, lines[i].addr)) < LastAt(log, Block(c, lines[j].addr))
  }

  /** So in every set of level l. */
  ghost predicate Ranked(c: Config, s: System, l: nat, log: seq<int>)
    requires Fits(c, s) && l < |c.geos|
  {
    forall i :: 0 <= i < |s.levels[l].sets| ==> Sorted(c, s.levels[l].sets[i], log)
  }

  lemma EraseSorted(c: Config, lines: seq<Line>, p: nat, log: seq<int>)
    requires c.blockSize > 0 && p < |lines| && Sorted(c, lines, log)
    ensures Sorted(c, Erase(lines, p), log)
  {
    var e := Erase(lines, p);
    assert forall i :: 0 <= i < |e| ==> e[i] == lines[if i < p then i else i + 1];
  }

  lemma WithLinesRanked(c: Config, s: System, k: nat, addr: int, lines: seq<Line>, l: nat, log: seq<int>)
    requires Fits(c, s) && k < |c.geos| && l < |c.geos| && Ranked(c, s, l, log)
    requires k == l ==> Sorted(c, lines, log)
    ensures Ranked(c, WithLines(c, s, k, addr, lines), l, log)
  {
    hide Sorted;
  }

  lemma EraseRanked(c: Config, s: System, k: nat, addr: int, p: nat, l: nat, log: seq<int>)
    requires Fits(c, s) && k < |c.geos| && l < |c.geos| && Ranked(c, s, l, log) && p < |Lines(c, s, k, addr)|
    ensures Ranked(c, WithLines(c, s, k, addr, Erase(Lines(c, s, k, addr), p)), l, log)
  {
    hide Sorted, Erase;
    if k == l {
      EraseSorted(c, Lines(c, s, k, addr), p, log);
    }
    WithLinesRanked(c, s, k, addr, Erase(Lines(c, s, k, addr), p), l, log);
  }

  /** Only the level's sets matter. */
  lemma SameSets(c: Config, s: System, r: System, l: nat, log: seq<int>)
    requires Fits(c, s) && Fits(c, r) && l < |c.geos| && Ranked(c, s, l, log) && r.levels[l].sets == s.levels[l].sets
    ensures Ranked(c, r, l, log)
  {
  }

  /** Appending the line of a block that is touched now. */
  lemma PushSorted(c: Config, lines: seq<Line>, line: Line, log: seq<int>)
    requires c.blockSize > 0 && Sorted(c, lines, log)
    requires forall i :: 0 <= i < |lines| ==> Block(c, lines[i].addr) != Block(c, line.addr)
    ensures Sorted(c, lines + [line], log + [Block(c, line.addr)])
  {
    hide LastAt;
    var all, x := lines + [line], Block(c, line.addr);
    forall i, j | 0 <= i < j < |all|
      ensures LastAt(log + [x], Block(c, all[i].addr)) < LastAt(log + [x], Block(c, all[j].addr))
    {
      LastSnoc(log, x, Block(c, all[i].addr));
      LastSnoc(log, x, Block(c, all[j].addr));
    }
  }

  lemma OtherSorted(c: Config, lines: seq<Line>, x: int, log: seq<int>)
    requires c.blockSize > 0 && Sorted(c, lines, log)
    requires forall i :: 0 <= i < |lines| ==> Block(c, lines[i].addr) != x
    ensures Sorted(c, lines, log + [x])
  {
    hide LastAt;
    forall i, j | 0 <= i < j < |lines|
      ensures LastAt(log + [x], Block(c, lines[i].addr)) < LastAt(log + [x], Block(c, lines[j].addr))
    {
      LastSnoc(log, x, Block(c, lines[i].addr));
      LastSnoc(log, x, Block(c, lines[j].addr));
    }
  }

  lemma HeldThere(c: Config, s: System, l: nat, i: int, j: int, addr: int)
    requires Fits(c, s) && SetsOk(c, s) && l < |c.geos|
    requires 0 <= i < |s.levels[l].sets| && 0 <= j < |s.levels[l].sets[i]|
    requires Block(c, s.levels[l].sets[i][j].addr) == Block(c, addr)
    ensures Get(c, s, l, Block(c, addr)).Some?
  {
    var lines := s.levels[l].sets[i];
    assert SetOk(c, l, i, lines) && lines[j] in lines;
    assert lines[j].tag == Tag(c, l, addr) && i == Index(c, l, addr);
  }

  /** Appending the line of block b to its set, from which b is absent. */
  lemma PushRanked(c: Config, s: System, l: nat, addr: int, line: Line, log: seq<int>)
    requires Fits(c, s) && SetsOk(c, s) && l < |c.geos| && Ranked(c, s, l, log)
    requires Get(c, s, l, Block(c, addr)) == None && line.addr == addr
    ensures Ranked(c, WithLines(c, s, l, addr, Lines(c, s, l, addr) + [line]), l, log + [Block(c, addr)])
  {
    hide Sorted, SetsOk, Get, LastAt;
    var b, i0 := Block(c, addr), Index(c, l, addr);
    var r := WithLines(c, s, l, addr, Lines(c, s, l, addr) + [line]);
    forall i | 0 <= i < |r.levels[l].sets| ensures Sorted(c, r.levels[l].sets[i], log + [b]) {
      var lines := s.levels[l].sets[i];
      forall j | 0 <= j < |lines| ensures Block(c, lines[j].addr) != b {
        if Block(c, lines[j].addr) == b {
          HeldThere(c, s, l, i, j, addr);
        }
      }
      if i == i0 {
        PushSorted(c, lines, line, log);
      } else {
        OtherSorted(c, lines, b, log);
      }
    }
  }

  /** Moving a line to the recent end: an erasure and an append. */
  lemma TouchRanked(c: Config, s: System, l: nat, addr: int, p: nat, line: Line, log: seq<int>)
    requires Fits(c, s) && SetsOk(c, s) && l < |c.geos| && Ranked(c, s, l, log) && line.addr == addr
    requires p == Pos(Lines(c, s, l, addr), Tag(c, l, addr)) < |Lines(c, s, l, addr)|
    ensures Ranked(c, WithLines(c, s, l, addr, Erase(Lines(c, s, l, addr) + [line], p)), l, log + [Block(c, addr)])
  {
    hide Ranked, SetsOk, Get;
    var lines := Lines(c, s, l, addr);
    var w := WithLines(c, s, l, addr, Erase(lines, p));
    EraseRanked(c, s, l, addr, p, l, log);
    DropView(c, s, l, addr, p);
    PushRanked(c, w, l, addr, line, log);
    assert Erase(lines + [line], p) == Erase(lines, p) + [line];
    var r := WithLines(c, w, l, addr, Lines(c, w, l, addr) + [line]);
    SameSets(c, r, WithLines(c, s, l, addr, Erase(lines + [line], p)), l, log + [Block(c, addr)]);
  }

  lemma {:induction false} InvalidateRanked(c: Config, s: System, k: nat, addr: int, l: nat, log: seq<int>)
    requires Fits(c, s) && k < |c.geos| && l < |c.geos| && Ranked(c, s, l, log)
    ensures Ranked(c, Invalidate(c, s, k, addr).sys, l, log)
    decreases k
  {
    hide Ranked, Erase;
    var lines := Lines(c, s, k, addr);
    var p := Pos(lines, Tag(c, k, addr));
    if p < |lines| {
      var s1 := WithLines(c, s, k, addr, Erase(lines, p));
      EraseRanked(c, s, k, addr, p, l, log);
      var s2 := s1.(fault := s.fault || lines[p].lock);
      SameSets(c, s1, s2, l, log);
      if k > 0 {
        InvalidateRanked(c, s2, k - 1, addr, l, log);
      }
    }
  }

  /** What a line handed down to level k touches at level l. */
  function Touch(k: nat, l: nat, b: int): seq<int> {
    if k == l then [b] else []
  }

  lemma EvictLineRanked(c: Config, s: System, k: nat, addr: int, dirty: bool, l: nat, log: seq<int>)
    requires Fits(c, s) && SetsOk(c, s) && k < |c.geos| && l < |c.geos| && Ranked(c, s, l, log)
    requires Get(c, s, k, Block(c, addr)).Some?
    ensures Ranked(c, EvictLine(c, s, k, addr, dirty), l, log + Touch(k, l, Block(c, addr)))
  {
    hide Ranked, SetsOk, Erase;
    var lines := Lines(c, s, k, addr);
    var p := Pos(lines, Tag(c, k, addr));
    GetLines(c, s, k, addr);
    if k == l {
      TouchRanked(c, s, k, addr, p, Line(addr, Tag(c, k, addr), false, dirty || lines[p].dirty), log);
    } else {
      assert log + [] == log;
      SameSets(c, s, EvictLine(c, s, k, addr, dirty), l, log);
    }
  }

  /** What the eviction of a line from level k touches at level l. */
  function Handed(c: Config, k: nat, victim: Line, l: nat): seq<int>
    requires c.blockSize > 0
  {
    Touch(k + 1, l, Block(c, victim.addr))
  }

  lemma BelowRanked(c: Config, s: System, k: nat, victim: Line, up: Invalidated, l: nat, log: seq<int>)
    requires Fits(c, s) && Fits(c, up.sys) && k < |c.geos| && l < |c.geos| && Raised(c, s, k, victim, up)
    requires k + 1 < |c.geos| ==> Get(c, s, k + 1, Block(c, victim.addr)).Some?
    requires Ranked(c, up.sys, l, log)
    ensures Ranked(c, Below(c, up, k, victim), l, log + Handed(c, k, victim, l))
  {
    hide Ranked, EvictLine;
    if k + 1 < |c.geos| {
      assert Get(c, up.sys, k + 1, Block(c, victim.addr)) == Get(c, s, k + 1, Block(c, victim.addr));
      EvictLineRanked(c, up.sys, k + 1, victim.addr, victim.dirty || up.dirty, l, log);
    } else {
      assert log + [] == log;
      SameSets(c, up.sys, Below(c, up, k, victim), l, log);
    }
  }

  lemma EvictRanked(c: Config, s: System, k: nat, addr: int, p: nat, l: nat, log: seq<int>)
    requires Fits(c, s) && k < |c.geos| && l < |c.geos| && SetsOk(c, s) && p < |Lines(c, s, k, addr)|
    requires var v := Lines(c, s, k, addr)[p];
      Evictable(c, s, k, v) && Stacked(c, s, |c.geos| - 1, Block(c, v.addr))
    requires Ranked(c, s, l, log)
    ensures Ranked(c, Evict(c, s, k, addr, p), l, log + Handed(c, k, Lines(c, s, k, addr)[p], l))
  {
    hide Ranked, SetsOk, Evict, Below, Evictable, Raised, Erase, Get, Invalidate;
    var v := Lines(c, s, k, addr)[p];
    var up := Above(c, s, k, v);
    AboveView(c, s, k, addr, p);
    LineBlock(c, s, k, addr, p);
    if k > 0 {
      InvalidateRanked(c, s, k - 1, v.addr, l, log);
    }
    assert k + 1 < |c.geos| ==> IncludedAt(c, s, k, Block(c, v.addr));
    BelowRanked(c, s, k, v, up, l, log);
    var m, log' := Below(c, up, k, v), log + Handed(c, k, v, l);
    EvictSplit(c, s, k, addr, p);
    if p < |Lines(c, m, k, addr)| {
      EraseRanked(c, m, k, addr, p, l, log');
    } else {
      SameSets(c, m, m.(fault := true), l, log');
    }
  }

  /** What bringing a block into level k touches at level l: the victim handed down, then the block itself. */
  function Brought(c: Config, s: System, k: nat, addr: int, l: nat): seq<int>
    requires Fits(c, s) && k < |c.geos|
  {
    var lines := Lines(c, s, k, addr);
    var p := FindVictim(c, s, k, lines);
    (if |lines| >= c.geos[k].assoc && p < |lines| then Handed(c, k, lines[p], l) else [])
    + Touch(k, l, Block(c, addr))
  }

  lemma AppendRanked(c: Config, s: System, k: nat, addr: int, line: Line, l: nat, log: seq<int>)
    requires Fits(c, s) && SetsOk(c, s) && k < |c.geos| && l < |c.geos| && Ranked(c, s, l, log)
    requires Get(c, s, k, Block(c, addr)) == None && line.addr == addr
    ensures Ranked(c, WithLines(c, s, k, addr, Lines(c, s, k, addr) + [line]), l, log + Touch(k, l, Block(c, addr)))
  {
    hide Ranked, SetsOk, Get;
    if k == l {
      PushRanked(c, s, k, addr, line, log);
    } else {
      assert log + [] == log;
      WithLinesRanked(c, s, k, addr, Lines(c, s, k, addr) + [line], l, log);
    }
  }

  lemma AllocateRanked(c: Config, s: System, k: nat, addr: int, dirty: bool, l: nat, log: seq<int>)
    requires c.blockSize > 0 && InFlight(c, s, k, Block(c, addr)) && k < |c.geos| && l < |c.geos|
    requires Get(c, s, k, Block(c, addr)) == None && Ranked(c, s, l, log)
    requires |Lines(c, s, k, addr)| >= c.geos[k].assoc
             ==> FindVictim(c, s, k, Lines(c, s, k, addr)) < |Lines(c, s, k, addr)|
    ensures Ranked(c, Allocate(c, s, k, addr, dirty).sys, l, log + Brought(c, s, k, addr, l))
  {
    hide Ranked, Evict, FindVictim, SetsOk, Get, Evictable;
    var lines := Lines(c, s, k, addr);
    var line := Line(addr, Tag(c, k, addr), true, dirty);
    GetLines(c, s, k, addr);
    if |lines| < c.geos[k].assoc {
      AppendRanked(c, s, k, addr, line, l, log);
      assert [] + Touch(k, l, Block(c, addr)) == Touch(k, l, Block(c, addr));
    } else {
      var p := FindVictim(c, s, k, lines);
      var handed := Handed(c, k, lines[p], l);
      VictimStacked(c, s, k, addr, p);
      EvictKeeps(c, s, k, Block(c, addr), addr, p);
      EvictRanked(c, s, k, addr, p, l, log);
      AppendRanked(c, Evict(c, s, k, addr, p), k, addr, line, l, log + handed);
      assert log + handed + Touch(k, l, Block(c, addr)) == log + (handed + Touch(k, l, Block(c, addr)));
    }
  }

  lemma VictimStacked(c: Config, s: System, k: nat, addr: int, p: nat)
    requires c.blockSize > 0 && InFlight(c, s, k, Block(c, addr)) && k < |c.geos| && p < |Lines(c, s, k, addr)|
    requires Get(c, s, k, Block(c, addr)) == None
    ensures Stacked(c, s, |c.geos| - 1, Block(c, Lines(c, s, k, addr)[p].addr))
  {
    LineBlock(c, s, k, addr, p);
    var b := Block(c, Lines(c, s, k, addr)[p].addr);
    assert b != Block(c, addr);
  }

  /** What a request to level k touches at level l, in order. */
  function Touches(c: Config, s: System, k: nat, req: Request, l: nat): seq<int>
    requires Fits(c, s) && k < |c.geos|
    decreases |c.geos| - k
  {
    var lines, mshr := Lines(c, s, k, req.addr), s.levels[k].mshr;
    var p := Pos(lines, Tag(c, k, req.addr));
    if p < |lines| && !lines[p].lock then Touch(k, l, Block(c, req.addr))
    else if HitMshr(c, mshr, req.addr) < |mshr| || |mshr| == c.geos[k].mshrNum || AllLocked(c, k, lines) then []
    else
      var a := Allocate(c, s, k, req.addr, req.kind == Write);
      if !a.ok then []
      else
        Brought(c, s, k, req.addr, l)
        + if k + 1 < |c.geos|
          then Touches(c, WithMshr(c, a.sys, k, a.sys.levels[k].mshr + [req.addr]), k + 1, Request(req.addr, Read), l)
          else []
  }

  lemma HitTouches(c: Config, s: System, k: nat, req: Request, l: nat)
    requires c.blockSize > 0 && Fits(c, s) && k < |c.geos|
    requires Get(c, s, k, Block(c, req.addr)).Some? && !Locked(c, s, k, Block(c, req.addr))
    ensures Touches(c, s, k, req, l) == Touch(k, l, Block(c, req.addr))
  {
    GetLines(c, s, k, req.addr);
  }

  lemma HitRanked(c: Config, s: System, k: nat, req: Request, l: nat, log: seq<int>)
    requires c.blockSize > 0 && InFlight(c, s, k, Block(c, req.addr)) && k < |c.geos| && l < |c.geos|
    requires Get(c, s, k, Block(c, req.addr)).Some? && Ranked(c, s, l, log)
    ensures Ranked(c, Send(c, s, k, req).sys, l, log + Touches(c, s, k, req, l))
  {
    hide Ranked, SetsOk, Erase, MshrOk, LockOrder, InclusionBut, HitMshr, AllLocked, Allocate;
    var x, lines := Block(c, req.addr), Lines(c, s, k, req.addr);
    var p := Pos(lines, Tag(c, k, req.addr));
    GetLines(c, s, k, req.addr);
    HitTouches(c, s, k, req, l);
    assert !Locked(c, s, k, x);
    var line := Line(req.addr, Tag(c, k, req.addr), false, lines[p].dirty || req.kind == Write);
    var w := WithLines(c, s, k, req.addr, Erase(lines + [line], p));
    if k == l {
      TouchRanked(c, s, k, req.addr, p, line, log);
    } else {
      assert log + [] == log;
      WithLinesRanked(c, s, k, req.addr, Erase(lines + [line], p), l, log);
    }
    SameSets(c, w, Send(c, s, k, req).sys, l, log + Touch(k, l, x));
  }

  /** A miss at level k that finds room, and what follows it further down. */
  lemma MissTouches(c: Config, s: System, k: nat, req: Request, l: nat)
    requires Fits(c, s) && k < |c.geos|
    requires Pos(Lines(c, s, k, req.addr), Tag(c, k, req.addr)) == |Lines(c, s, k, req.addr)|
    requires HitMshr(c, s.levels[k].mshr, req.addr) == |s.levels[k].mshr| < c.geos[k].mshrNum
    requires |Lines(c, s, k, req.addr)| >= c.geos[k].assoc
             ==> FindVictim(c, s, k, Lines(c, s, k, req.addr)) < |Lines(c, s, k, req.addr)|
    ensures var a := Allocate(c, s, k, req.addr, req.kind == Write);
      var m := WithMshr(c, a.sys, k, a.sys.levels[k].mshr + [req.addr]);
      Touches(c, s, k, req, l) == Brought(c, s, k, req.addr, l)
        + if k + 1 < |c.geos| then Touches(c, m, k + 1, Request(req.addr, Read), l) else []
  {
    hide Brought, Evict;
    MissSend(c, s, k, req);
  }

  /** A miss in flight, which level k finds or has room for. */
  lemma {:induction false} SendRanked(c: Config, s: System, k: nat, req: Request, l: nat, log: seq<int>)
    requires c.blockSize > 0 && InFlight(c, s, k, Block(c, req.addr)) && k < |c.geos| && l < |c.geos|
    requires Ranked(c, s, l, log) && (k == 0 ==> !Refuses(c, s, req.addr))
    ensures Ranked(c, Send(c, s, k, req).sys, l, log + Touches(c, s, k, req, l))
    decreases |c.geos| - k, 1
  {
    hide Ranked, Send, Touches, Allocate, Forward, Get, SetsOk, MshrOk, InclusionBut, LockOrder, Brought;
    if Get(c, s, k, Block(c, req.addr)).Some? {
      HitRanked(c, s, k, req, l, log);
    } else {
      RoomToAllocate(c, s, k, req.addr);
      AllocateKeeps(c, s, k, req.addr, req.kind == Write);
      AllocateRanked(c, s, k, req.addr, req.kind == Write, l, log);
      MissSend(c, s, k, req);
      MissTouches(c, s, k, req, l);
      var a := Allocate(c, s, k, req.addr, req.kind == Write).sys;
      var m := WithMshr(c, a, k, a.levels[k].mshr + [req.addr]);
      var log' := log + Brought(c, s, k, req.addr, l);
      SameSets(c, a, m, l, log');
      ForwardRanked(c, m, k, req.addr, l, log');
      var down := if k + 1 < |c.geos| then Touches(c, m, k + 1, Request(req.addr, Read), l) else [];
      assert log' + down == log + (Brought(c, s, k, req.addr, l) + down);
    }
  }

  lemma {:induction false} ForwardRanked(c: Config, s: System, k: nat, addr: int, l: nat, log: seq<int>)
    requires c.blockSize > 0 && k < |c.geos| && l < |c.geos| && InFlight(c, s, k + 1, Block(c, addr))
    requires Ranked(c, s, l, log)
    ensures var down := if k + 1 < |c.geos| then Touches(c, s, k + 1, Request(addr, Read), l) else [];
      Ranked(c, Forward(c, s, k, addr).sys, l, log + down)
    decreases |c.geos| - k, 0
  {
    hide Ranked, Send, Touches;
    if k + 1 < |c.geos| {
      SendRanked(c, s, k + 1, Request(addr, Read), l, log);
      var b := Send(c, s, k + 1, Request(addr, Read)).sys;
      SameSets(c, b, Forward(c, s, k, addr).sys, l, log + Touches(c, s, k + 1, Request(addr, Read), l));
    } else {
      assert log + [] == log;
      SameSets(c, s, Forward(c, s, k, addr).sys, l, log);
    }
  }

  /** A level that is not in the way of the miss has an MSHR entry and a victim. */
  lemma RoomToAllocate(c: Config, s: System, k: nat, addr: int)
    requires c.blockSize > 0 && InFlight(c, s, k, Block(c, addr)) && k < |c.geos|
    requires Get(c, s, k, Block(c, addr)) == None && (k == 0 ==> !Refuses(c, s, addr))
    ensures Pos(Lines(c, s, k, addr), Tag(c, k, addr)) == |Lines(c, s, k, addr)|
    ensures HitMshr(c, s.levels[k].mshr, addr) == |s.levels[k].mshr| < c.geos[k].mshrNum
    ensures |Lines(c, s, k, addr)| >= c.geos[k].assoc
            ==> FindVictim(c, s, k, Lines(c, s, k, addr)) < |Lines(c, s, k, addr)|
  {
    hide SetsOk, InclusionBut, LockOrder;
    GetLines(c, s, k, addr);
    NoMshr(c, s, k, addr);
    assert MshrOk(c, s, k);
    if k > 0 {
      MshrFree(c, s, k, Block(c, addr));
      if |Lines(c, s, k, addr)| >= c.geos[k].assoc {
        VictimExists(c, s, k, addr);
      }
    } else if FindVictim(c, s, 0, Lines(c, s, 0, addr)) == |Lines(c, s, 0, addr)| {
      forall j | 0 <= j < |Lines(c, s, 0, addr)| ensures Lines(c, s, 0, addr)[j].lock {
        assert !Evictable(c, s, 0, Lines(c, s, 0, addr)[j]);
      }
    }
  }

  /** A merge, or the answer to a fetch, changes bits only. */
  lemma BitsRanked(c: Config, s: System, k: nat, addr: int, lock: bool, dirty: bool, l: nat, log: seq<int>)
    requires Fits(c, s) && k < |c.geos| && l < |c.geos| && Ranked(c, s, l, log)
    ensures Ranked(c, WithLine(c, s, k, addr, lock, dirty), l, log)
  {
    var lines := Lines(c, s, k, addr);
    var p := Pos(lines, Tag(c, k, addr));
    if p < |lines| {
      var line := lines[p].(lock := lock && lines[p].lock, dirty := dirty || lines[p].dirty);
      WithLinesRanked(c, s, k, addr, lines[p := line], l, log);
    }
  }

  lemma MergeRanked(c: Config, s: System, req: Request, l: nat, log: seq<int>)
    requires Inv(c, s) && l < |c.geos| && Ranked(c, s, l, log) && Locked(c, s, 0, Block(c, req.addr))
    ensures Ranked(c, Send(c, s, 0, req).sys, l, log)
  {
    hide Ranked;
    var mshr := s.levels[0].mshr;
    var m := HitMshr(c, mshr, req.addr);
    GetLines(c, s, 0, req.addr);
    assert MshrOk(c, s, 0);
    assert InMshr(c, mshr, Block(c, req.addr));
    assert Send(c, s, 0, req) == Answer(WithLine(c, s, 0, mshr[m], true, req.kind == Write), true);
    BitsRanked(c, s, 0, mshr[m], true, req.kind == Write, l, log);
  }

  lemma MergeTouches(c: Config, s: System, req: Request, l: nat)
    requires Inv(c, s) && Locked(c, s, 0, Block(c, req.addr))
    ensures Touches(c, s, 0, req, l) == []
  {
    hide Allocate, Brought;
    GetLines(c, s, 0, req.addr);
    assert MshrOk(c, s, 0);
    assert InMshr(c, s.levels[0].mshr, Block(c, req.addr));
  }

  lemma RefusedTouches(c: Config, s: System, req: Request, l: nat)
    requires Inv(c, s) && Refuses(c, s, req.addr)
    ensures Touches(c, s, 0, req, l) == [] && Send(c, s, 0, req) == Answer(s, false)
  {
    hide Allocate, Brought;
    RefusedSend(c, s, req);
    GetLines(c, s, 0, req.addr);
  }

  /** An access moves what it touches at each level to the recent end there, in order, and disturbs nothing else. */
  lemma AccessRanked(c: Config, s: System, req: Request, l: nat, log: seq<int>)
    requires Inv(c, s) && l < |c.geos| && Ranked(c, s, l, log)
    ensures Ranked(c, Send(c, s, 0, req).sys, l, log + Touches(c, s, 0, req, l))
  {
    hide Ranked, Send, Touches, Refuses, Get, SetsOk, MshrOk, LockOrder, InclusionBut;
    assert log + [] == log;
    if Locked(c, s, 0, Block(c, req.addr)) {
      MergeTouches(c, s, req, l);
      MergeRanked(c, s, req, l, log);
    } else if Refuses(c, s, req.addr) {
      RefusedTouches(c, s, req, l);
    } else {
      LaunchInFlight(c, s, Block(c, req.addr));
      SendRanked(c, s, 0, req, l, log);
    }
  }

  lemma {:induction false} CallbackRanked(c: Config, s: System, k: nat, addr: int, l: nat, log: seq<int>)
    requires Fits(c, s) && k < |c.geos| && l < |c.geos| && Ranked(c, s, l, log)
    ensures Ranked(c, Callback(c, s, k, addr), l, log)
    decreases k
  {
    hide Ranked, WithLine, HitMshr;
    var s1 := CallbackOne(c, s, k, addr);
    var m := HitMshr(c, s.levels[k].mshr, addr);
    if m < |s.levels[k].mshr| {
      BitsRanked(c, s, k, s.levels[k].mshr[m], false, false, l, log);
      SameSets(c, WithLine(c, s, k, s.levels[k].mshr[m], false, false), s1, l, log);
    }
    if k > 0 {
      CallbackRanked(c, s1, k - 1, addr, l, log);
    }
  }

  /** What a step, and a run from the empty chain, touches at level l. */
  function StepTouches(c: Config, s: System, step: Step, l: nat): seq<int>
    requires Fits(c, s) && |c.geos| > 0
  {
    if step.Access? then Touches(c, s, 0, step.req, l) else []
  }

  ghost function RunTouches(c: Config, steps: seq<Step>, l: nat): seq<int>
    requires ValidConfig(c)
    decreases |steps|
  {
    if |steps| == 0 then []
    else
      var init, step := steps[..|steps| - 1], steps[|steps| - 1];
      RunTouches(c, init, l) + StepTouches(c, Run(c, Initial(c), init), step, l)
  }

  lemma StepRanked(c: Config, s: System, step: Step, l: nat, log: seq<int>)
    requires Inv(c, s) && l < |c.geos| && Ranked(c, s, l, log)
    ensures Ranked(c, Do(c, s, step), l, log + StepTouches(c, s, step, l))
  {
    hide Ranked, Send, Callback, Touches;
    assert log + [] == log;
    match step {
      case Access(req) => AccessRanked(c, s, req, l, log);
      case Fetched(addr) => CallbackRanked(c, s, |c.geos| - 1, addr, l, log);
      case Wait(_) => SameSets(c, s, Do(c, s, step), l, log);
    }
  }

  lemma {:induction false} RunRanked(c: Config, steps: seq<Step>, l: nat)
    requires ValidConfig(c) && l < |c.geos|
    ensures Ranked(c, Run(c, Initial(c), steps), l, RunTouches(c, steps, l))
    decreases |steps|
  {
    if |steps| > 0 {
      hide Ranked, Do, Inv, StepTouches;
      var init, step := steps[..|steps| - 1], steps[|steps| - 1];
      assert steps == init + [step];
      RunRanked(c, init, l);
      InitialInv(c);
      RunKeeps(c, Initial(c), init, 0);
      RunSnoc(c, Initial(c), init, step);
      StepRanked(c, Run(c, Initial(c), init), step, l, RunTouches(c, init, l));
    }
  }

  /** MAIN: in every reachable state the line that any level would evict from a set is, of the set's lines that it may
      evict, the one touched longest ago there. */
  lemma VictimLeastRecent(c: Config, steps: seq<Step>, k: nat, addr: int, q: nat)
    requires ValidConfig(c) && k < |c.geos|
    requires var s := Run(c, Initial(c), steps);
      q < |Lines(c, s, k, addr)| && Evictable(c, s, k, Lines(c, s, k, addr)[q])
    ensures var s, log := Run(c, Initial(c), steps), RunTouches(c, steps, k);
      var lines := Lines(c, s, k, addr);
      var p := FindVictim(c, s, k, lines);
      && p < |lines| && Evictable(c, s, k, lines[p])
      && (p != q ==> LastAt(log, Block(c, lines[p].addr)) < LastAt(log, Block(c, lines[q].addr)))
  {
    hide Run, RunTouches, Evictable;
    RunRanked(c, steps, k);
    assert Sorted(c, Lines(c, Run(c, Initial(c), steps), k, addr), RunTouches(c, steps, k));
  }

  /** A step uses block b: an accepted access of b that is not merged into a fetch under way. */
  ghost predicate Uses(c: Config, s: System, step: Step, b: int)
    requires Fits(c, s) && |c.geos| > 0
  {
    step.Access? && Block(c, step.req.addr) == b && Send(c, s, 0, step.req).ok && !Locked(c, s, 0, b)
  }

  lemma BroughtBelow(c: Config, s: System, k: nat, addr: int, l: nat)
    requires Fits(c, s) && l < k < |c.geos|
    ensures Brought(c, s, k, addr, l) == []
  {
    hide FindVictim;
  }

  lemma {:induction false} BelowUntouched(c: Config, s: System, k: nat, req: Request, l: nat)
    requires Fits(c, s) && l < k < |c.geos|
    ensures Touches(c, s, k, req, l) == []
    decreases |c.geos| - k
  {
    hide Allocate, AllLocked, HitMshr, Pos, Brought, Block, Index, Tag;
    BroughtBelow(c, s, k, req.addr, l);
    if k + 1 < |c.geos| {
      var a := Allocate(c, s, k, req.addr, req.kind == Write);
      BelowUntouched(c, WithMshr(c, a.sys, k, a.sys.levels[k].mshr + [req.addr]), k + 1, Request(req.addr, Read), l);
    }
  }

  lemma FirstUsed(c: Config, s: System, req: Request)
    requires c.blockSize > 0 && InFlight(c, s, 0, Block(c, req.addr)) && !Refuses(c, s, req.addr)
    ensures Touches(c, s, 0, req, 0) == [Block(c, req.addr)]
  {
    hide Touches, SetsOk, MshrOk, LockOrder, InclusionBut, Get, Allocate;
    if Get(c, s, 0, Block(c, req.addr)).Some? {
      HitTouches(c, s, 0, req, 0);
    } else {
      RoomToAllocate(c, s, 0, req.addr);
      MissTouches(c, s, 0, req, 0);
      if 1 < |c.geos| {
        var a := Allocate(c, s, 0, req.addr, req.kind == Write);
        var m := WithMshr(c, a.sys, 0, a.sys.levels[0].mshr + [req.addr]);
        BelowUntouched(c, m, 1, Request(req.addr, Read), 0);
      }
    }
  }

  /** The first level is touched by exactly the accesses that use a block. */
  lemma FirstTouches(c: Config, s: System, req: Request)
    requires Inv(c, s)
    ensures var b := Block(c, req.addr);
      Touches(c, s, 0, req, 0) == if Uses(c, s, Access(req), b) then [b] else []
  {
    hide Send, Touches, Refuses, Get, SetsOk, MshrOk, LockOrder, InclusionBut;
    var b := Block(c, req.addr);
    AccessKeeps(c, s, req);
    if Locked(c, s, 0, b) {
      MergeTouches(c, s, req, 0);
    } else if Refuses(c, s, req.addr) {
      RefusedTouches(c, s, req, 0);
    } else {
      LaunchInFlight(c, s, b);
      FirstUsed(c, s, req);
    }
  }
}
