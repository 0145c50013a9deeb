/** The inclusive write-back cache chain of src/Cache.cpp as pure state transformers.
    Level 0 is the cache next to the core, level |geos|-1 the last-level cache.
    `fault` records that an assertion of the source failed, that an MSHR iterator
    dangled, or that a lower level refused a miss forwarded to it (Cache::send drops that answer). */
module CacheModel {
  import opened Arith
  import opened CacheSets

  datatype Geometry = Geometry(blockNum: int, assoc: nat, mshrNum: nat, latency: int, latencyEach: int)

  datatype Config = Config(blockSize: int, geos: seq<Geometry>)

  datatype ReqType = Read | Write

  datatype Request = Request(addr: int, kind: ReqType)

  datatype Timed = Timed(ready: int, req: Request)

  /** `sets` is `cache_lines` with absent keys read as empty lists; an MSHR entry is the
      address it was made for, its iterator being the line with that address's tag. */
  datatype Level = Level(sets: seq<seq<Line>>, mshr: seq<int>)

  datatype System = System(levels: seq<Level>, clk: int, waits: seq<Timed>, hits: seq<Timed>, fault: bool)

  datatype Invalidated = Invalidated(sys: System, delay: int, dirty: bool)

  datatype Answer = Answer(sys: System, ok: bool)

  predicate Fits(c: Config, s: System) {
    && c.blockSize > 0
    && |s.levels| == |c.geos|
    && forall k :: 0 <= k < |c.geos| ==> c.geos[k].blockNum > 0 && |s.levels[k].sets| == c.geos[k].blockNum
  }

  function Block(c: Config, addr: int): int
    requires c.blockSize > 0
  {
    addr / c.blockSize
  }

  function Index(c: Config, k: nat, addr: int): int
    requires c.blockSize > 0 && k < |c.geos| && c.geos[k].blockNum > 0
  {
    Block(c, addr) % c.geos[k].blockNum
  }

  function Tag(c: Config, k: nat, addr: int): int
    requires c.blockSize > 0 && k < |c.geos| && c.geos[k].blockNum > 0
  {
    Block(c, addr) / c.geos[k].blockNum
  }

  function Lines(c: Config, s: System, k: nat, addr: int): seq<Line>
    requires Fits(c, s) && k < |c.geos|
  {
    s.levels[k].sets[Index(c, k, addr)]
  }

  function WithLines(c: Config, s: System, k: nat, addr: int, lines: seq<Line>): (r: System)
    requires Fits(c, s) && k < |c.geos|
    ensures Fits(c, r)
  {
    s.(levels := s.levels[k := s.levels[k].(sets := s.levels[k].sets[Index(c, k, addr) := lines])])
  }

  function WithMshr(c: Config, s: System, k: nat, mshr: seq<int>): (r: System)
    requires Fits(c, s) && k < |c.geos|
    ensures Fits(c, r)
  {
    s.(levels := s.levels[k := s.levels[k].(mshr := mshr)])
  }

  /** Position of the first MSHR entry for the block of `addr`, or |mshr|. */
  function HitMshr(c: Config, mshr: seq<int>, addr: int): (m: nat)
    requires c.blockSize > 0
    ensures m <= |mshr|
    ensures m < |mshr| ==> Block(c, mshr[m]) == Block(c, addr)
    ensures forall j :: 0 <= j < m ==> Block(c, mshr[j]) != Block(c, addr)
  {
    if |mshr| == 0 || Block(c, mshr[0]) == Block(c, addr) then 0 else 1 + HitMshr(c, mshr[1..], addr)
  }

  predicate AllLocked(c: Config, k: nat, lines: seq<Line>)
    requires k < |c.geos|
  {
    |lines| >= c.geos[k].assoc && forall j :: 0 <= j < |lines| ==> lines[j].lock
  }

  predicate CheckUnlock(c: Config, s: System, k: nat, addr: int)
    requires Fits(c, s) && k < |c.geos|
  {
    var lines := Lines(c, s, k, addr);
    var p := Pos(lines, Tag(c, k, addr));
    p == |lines| || (!lines[p].lock && (k > 0 ==> CheckUnlock(c, s, k - 1, lines[p].addr)))
  }

  predicate Evictable(c: Config, s: System, k: nat, line: Line)
    requires Fits(c, s) && k < |c.geos|
  {
    !line.lock && (k > 0 ==> CheckUnlock(c, s, k - 1, line.addr))
  }

  /** The least recently used evictable line, or |lines|. */
  function FindVictim(c: Config, s: System, k: nat, lines: seq<Line>): (p: nat)
    requires Fits(c, s) && k < |c.geos|
    ensures p <= |lines|
    ensures p < |lines| ==> Evictable(c, s, k, lines[p])
    ensures forall j :: 0 <= j < p ==> !Evictable(c, s, k, lines[j])
  {
    if |lines| == 0 || Evictable(c, s, k, lines[0]) then 0 else 1 + FindVictim(c, s, k, lines[1..])
  }

  function Invalidate(c: Config, s: System, k: nat, addr: int): (r: Invalidated)
    requires Fits(c, s) && k < |c.geos|
    ensures Fits(c, r.sys)
    decreases k
  {
    var lines := Lines(c, s, k, addr);
    var p := Pos(lines, Tag(c, k, addr));
    if |lines| == 0 then Invalidated(s, 0, false)
    else if p == |lines| then Invalidated(s, c.geos[k].latencyEach, false)
    else
      var each := c.geos[k].latencyEach;
      var s1 := WithLines(c, s, k, addr, Erase(lines, p)).(fault := s.fault || lines[p].lock);
      if k == 0 then Invalidated(s1, each, lines[p].dirty)
      else
        var up := Invalidate(c, s1, k - 1, addr);
        Invalidated(up.sys, Max(each, each + if up.dirty then up.delay * 2 else up.delay),
                    lines[p].dirty || up.dirty)
  }

  function EvictLine(c: Config, s: System, k: nat, addr: int, dirty: bool): (r: System)
    requires Fits(c, s) && k < |c.geos|
    ensures Fits(c, r)
  {
    var lines := Lines(c, s, k, addr);
    var p := Pos(lines, Tag(c, k, addr));
    if p == |lines| then s.(fault := true)
    else WithLines(c, s, k, addr, Erase(lines + [Line(addr, Tag(c, k, addr), false, dirty || lines[p].dirty)], p))
  }

  /** Evict the line at position `p` of the set that `addr` falls in. */
  function Evict(c: Config, s: System, k: nat, addr: int, p: nat): (r: System)
    requires Fits(c, s) && k < |c.geos| && p < |Lines(c, s, k, addr)|
    ensures Fits(c, r)
  {
    var victim := Lines(c, s, k, addr)[p];
    var up := if k == 0 then Invalidated(s, 0, false) else Invalidate(c, s, k - 1, victim.addr);
    var time := if k == 0 then 0 else Max(0, up.delay + if up.dirty then c.geos[k].latencyEach else 0);
    var dirty := victim.dirty || up.dirty;
    var s1 :=
      if k + 1 < |c.geos| then EvictLine(c, up.sys, k + 1, victim.addr, dirty)
      else if dirty then
        up.sys.(waits := up.sys.waits + [Timed(up.sys.clk + time + c.geos[k].latency, Request(victim.addr, Write))])
      else up.sys;
    var lines := Lines(c, s1, k, addr);
    if p < |lines| then WithLines(c, s1, k, addr, Erase(lines, p)) else s1.(fault := true)
  }

  /** Make room for `addr` and append its new, locked line; `ok` is false when no victim exists. */
  function Allocate(c: Config, s: System, k: nat, addr: int, dirty: bool): (r: Answer)
    requires Fits(c, s) && k < |c.geos|
    ensures Fits(c, r.sys)
  {
    var lines := Lines(c, s, k, addr);
    var line := Line(addr, Tag(c, k, addr), true, dirty);
    if Pos(lines, Tag(c, k, addr)) < |lines| then Answer(s.(fault := true), false)
    else if |lines| < c.geos[k].assoc then Answer(WithLines(c, s, k, addr, lines + [line]), true)
    else
      var p := FindVictim(c, s, k, lines);
      if p == |lines| then Answer(s, false)
      else
        var s1 := Evict(c, s, k, addr, p);
        Answer(WithLines(c, s1, k, addr, Lines(c, s1, k, addr) + [line]), true)
  }

  /** Overwrite the line an MSHR iterator points at. */
  function WithLine(c: Config, s: System, k: nat, addr: int, lock: bool, dirty: bool): (r: System)
    requires Fits(c, s) && k < |c.geos|
    ensures Fits(c, r)
  {
    var lines := Lines(c, s, k, addr);
    var p := Pos(lines, Tag(c, k, addr));
    if p == |lines| then s.(fault := true)
    else
      var line := lines[p].(lock := lock && lines[p].lock, dirty := dirty || lines[p].dirty);
      WithLines(c, s, k, addr, lines[p := line])
  }

  function Send(c: Config, s: System, k: nat, req: Request): (r: Answer)
    requires Fits(c, s) && k < |c.geos|
    ensures Fits(c, r.sys)
    decreases |c.geos| - k
  {
    var lines := Lines(c, s, k, req.addr);
    var tag := Tag(c, k, req.addr);
    var p := Pos(lines, tag);
    var mshr := s.levels[k].mshr;
    var due := s.clk + c.geos[k].latency;
    if p < |lines| && !lines[p].lock then
      var line := Line(req.addr, tag, false, lines[p].dirty || req.kind == Write);
      var s1 := WithLines(c, s, k, req.addr, Erase(lines + [line], p));
      Answer(s1.(hits := s1.hits + [Timed(due, req)]), true)
    else
      var m := HitMshr(c, mshr, req.addr);
      if m < |mshr| then Answer(WithLine(c, s, k, mshr[m], true, req.kind == Write), true)
      else if |mshr| == c.geos[k].mshrNum then Answer(s, false)
      else if AllLocked(c, k, lines) then Answer(s, false)
      else
        var a := Allocate(c, s, k, req.addr, req.kind == Write);
        if !a.ok then a
        else Forward(c, WithMshr(c, a.sys, k, a.sys.levels[k].mshr + [req.addr]), k, req.addr)
  }

  /** A recorded miss at level k goes on as a read: to the next level, or to the memory queue. */
  function Forward(c: Config, s: System, k: nat, addr: int): (r: Answer)
    requires Fits(c, s) && k < |c.geos|
    ensures Fits(c, r.sys) && r.ok
    decreases |c.geos| - k, 0
  {
    if k + 1 < |c.geos| then
      var below := Send(c, s, k + 1, Request(addr, Read));
      Answer(below.sys.(fault := below.sys.fault || !below.ok), true)
    else
      Answer(s.(waits := s.waits + [Timed(s.clk + c.geos[k].latency, Request(addr, Read))]), true)
  }

  /** The line of MSHR entry m is unlocked and the entry erased. */
  function Unlocked(c: Config, s: System, k: nat, m: nat): (r: System)
    requires Fits(c, s) && k < |c.geos| && m < |s.levels[k].mshr|
    ensures Fits(c, r)
  {
    var mshr := s.levels[k].mshr;
    WithMshr(c, WithLine(c, s, k, mshr[m], false, false), k, mshr[..m] + mshr[m + 1..])
  }

  function CallbackOne(c: Config, s: System, k: nat, addr: int): (r: System)
    requires Fits(c, s) && k < |c.geos|
    ensures Fits(c, r)
  {
    var m := HitMshr(c, s.levels[k].mshr, addr);
    if m == |s.levels[k].mshr| then s else Unlocked(c, s, k, m)
  }

  /** A completed fetch unlocks the block at level k and at every level above it. */
  function Callback(c: Config, s: System, k: nat, addr: int): (r: System)
    requires Fits(c, s) && k < |c.geos|
    ensures Fits(c, r)
    decreases k
  {
    var s1 := CallbackOne(c, s, k, addr);
    if k == 0 then s1 else Callback(c, s1, k - 1, addr)
  }

  function Initial(c: Config): (s: System)
    requires c.blockSize > 0 && forall k :: 0 <= k < |c.geos| ==> c.geos[k].blockNum > 0
    ensures Fits(c, s)
  {
    System(seq(|c.geos|, k requires 0 <= k < |c.geos| => Level(seq(c.geos[k].blockNum, _ => []), [])), 0, [], [], false)
  }
}
