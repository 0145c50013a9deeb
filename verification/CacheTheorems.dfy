/** The theorems about the cache chain: one access, one completed fetch, and whole runs of both. */
module CacheTheorems {
  import opened CacheSets
  import opened CacheModel
  import opened CacheViews
  import opened CacheEviction
  import opened CacheInvariant
  import opened CacheSend

  lemma HitKeeps(c: Config, s: System, k: nat, req: Request)
    requires c.blockSize > 0 && InFlight(c, s, k, Block(c, req.addr)) && k < |c.geos|
    requires Get(c, s, k, Block(c, req.addr)).Some?
    ensures var r := Send(c, s, k, req);
      && r.ok && Inv(c, r.sys) && r.sys.fault == s.fault
      && Conserved(c, s, r.sys, Block(c, req.addr), req.kind == Write)
  {
    var x := Block(c, req.addr);
    var lines := Lines(c, s, k, req.addr);
    var tag := Tag(c, k, req.addr);
    var p := Pos(lines, tag);
    GetLines(c, s, k, req.addr);
    assert !Locked(c, s, k, x);
    var line := Line(req.addr, tag, false, lines[p].dirty || req.kind == Write);
    MoveView(c, s, k, req.addr, p, line);
    var r := Send(c, s, k, req).sys;
    var w := WithLines(c, s, k, req.addr, Erase(lines + [line], p));
    assert r.levels == w.levels;
    forall j, b | 0 <= j < |c.geos|
      ensures Get(c, r, j, b) == if j == k && b == x then Some(line) else Get(c, s, j, b)
    {
      assert Get(c, w, j, b) == Get(c, r, j, b);
    }
    assert SetsOk(c, r);
    assert Marked(c, s, r, k, x, req.kind == Write);
    MarkedConserved(c, s, r, k, x, req.kind == Write);
    SameLocks(c, s, r, k, x);
  }

  /** Landing on an unlocked line of x restores full inclusion. */
  lemma SameLocks(c: Config, s: System, r: System, k: nat, x: int)
    requires InFlight(c, s, k, x) && k < |c.geos| && Fits(c, r) && SetsOk(c, r) && SameMshrs(c, s, r)
    requires forall j, b :: 0 <= j < |c.geos| && !(j == k && b == x) ==> Get(c, r, j, b) == Get(c, s, j, b)
    requires Get(c, s, k, x).Some? && Get(c, r, k, x).Some? && !Get(c, r, k, x).value.lock
    ensures Inv(c, r)
  {
    forall j, b | 0 <= j < |c.geos|
      ensures Locked(c, r, j, b) <==> Locked(c, s, j, b)
      ensures Get(c, r, j, b).Some? <==> Get(c, s, j, b).Some?
    {
      assert !Locked(c, s, k, x);
    }
    LocksCarry(c, s, r);
    forall j, b | 0 <= j < |c.geos| - 1 ensures IncludedAt(c, r, j, b) {
      assert !(j + 1 == k && b == x) ==> IncludedAt(c, s, j, b);
    }
  }

  /** A newly allocated line and its MSHR entry. */
  function Recorded(c: Config, s: System, k: nat, addr: int, dirty: bool): (r: System)
    requires Fits(c, s) && k < |c.geos|
    ensures Fits(c, r)
  {
    var w := WithLines(c, s, k, addr, Lines(c, s, k, addr) + [Line(addr, Tag(c, k, addr), true, dirty)]);
    WithMshr(c, w, k, w.levels[k].mshr + [addr])
  }

  lemma RecordedView(c: Config, s: System, k: nat, addr: int, dirty: bool)
    requires Fits(c, s) && SetsOk(c, s) && k < |c.geos|
    requires Get(c, s, k, Block(c, addr)) == None && |Lines(c, s, k, addr)| < c.geos[k].assoc
    ensures var r := Recorded(c, s, k, addr, dirty);
      && SetsOk(c, r)
      && (forall j, b :: 0 <= j < |c.geos| ==>
            Get(c, r, j, b) == if j == k && b == Block(c, addr) then Some(Line(addr, Tag(c, k, addr), true, dirty))
                               else Get(c, s, j, b))
      && (forall j :: 0 <= j < |c.geos| ==>
            r.levels[j].mshr == s.levels[j].mshr + if j == k then [addr] else [])
      && r.fault == s.fault && r.waits == s.waits
  {
    var line := Line(addr, Tag(c, k, addr), true, dirty);
    AppendView(c, s, k, line);
    var w := WithLines(c, s, k, addr, Lines(c, s, k, addr) + [line]);
    var r := Recorded(c, s, k, addr, dirty);
    forall j, b | 0 <= j < |c.geos| ensures Get(c, r, j, b) == Get(c, w, j, b) {
    }
    forall j, i | 0 <= j < |c.geos| && 0 <= i < c.geos[j].blockNum
      ensures SetOk(c, j, i, r.levels[j].sets[i])
    {
      assert SetOk(c, j, i, w.levels[j].sets[i]);
    }
  }

  lemma RecordKeeps(c: Config, s: System, k: nat, addr: int, dirty: bool)
    requires c.blockSize > 0 && InFlight(c, s, k, Block(c, addr)) && k < |c.geos|
    requires Get(c, s, k, Block(c, addr)) == None && |Lines(c, s, k, addr)| < c.geos[k].assoc
    requires |s.levels[k].mshr| < c.geos[k].mshrNum
    ensures var r := Recorded(c, s, k, addr, dirty);
      && InFlight(c, r, k + 1, Block(c, addr)) && r.fault == s.fault && r.waits == s.waits
      && Conserved(c, s, r, Block(c, addr), dirty)
  {
    var x := Block(c, addr);
    var r := Recorded(c, s, k, addr, dirty);
    RecordedView(c, s, k, addr, dirty);
    assert Marked(c, s, r, k, x, dirty);
    MarkedConserved(c, s, r, k, x, dirty);
    forall j, b | 0 <= j < |c.geos| && !(j == k && b == x) ensures Locked(c, r, j, b) <==> Locked(c, s, j, b) {
    }
    assert Locked(c, r, k, x);
    forall j | 0 <= j < |c.geos| ensures MshrOk(c, r, j) {
      RecordedMshr(c, s, r, j, k, addr);
    }
    forall j, b | 0 <= j < |c.geos| - 1 ensures OrderedAt(c, r, j, b) {
      assert OrderedAt(c, s, j, b);
    }
    forall j, b | 0 <= j < |c.geos| - 1 && !(j + 1 == k + 1 && b == x) ensures IncludedAt(c, r, j, b) {
      assert !(j + 1 == k && b == x) ==> IncludedAt(c, s, j, b);
    }
  }

  lemma RecordedMshr(c: Config, s: System, r: System, j: nat, k: nat, addr: int)
    requires Fits(c, s) && Fits(c, r) && j < |c.geos| && k < |c.geos| && MshrOk(c, s, j)
    requires r.levels[j].mshr == s.levels[j].mshr + if j == k then [addr] else []
    requires |s.levels[k].mshr| < c.geos[k].mshrNum && !Locked(c, s, k, Block(c, addr))
    requires forall b :: !(j == k && b == Block(c, addr)) ==> (Locked(c, r, j, b) <==> Locked(c, s, j, b))
    requires Locked(c, r, k, Block(c, addr))
    ensures MshrOk(c, r, j)
  {
    var x := Block(c, addr);
    var old_, new_ := s.levels[j].mshr, r.levels[j].mshr;
    if j == k {
      assert !InMshr(c, old_, x);
      forall b ensures InMshr(c, new_, b) <==> InMshr(c, old_, b) || b == x {
        if InMshr(c, old_, b) {
          var i :| 0 <= i < |old_| && Block(c, old_[i]) == b;
          assert new_[i] == old_[i];
        }
        if b == x {
          assert new_[|old_|] == addr;
        }
      }
    } else {
      assert new_ == old_;
    }
  }

  /** Making room and recording the miss at level k, once a victim is known to exist if one is needed. */
  lemma AllocateKeeps(c: Config, s: System, k: nat, addr: int, dirty: bool)
    requires c.blockSize > 0 && InFlight(c, s, k, Block(c, addr)) && k < |c.geos|
    requires Get(c, s, k, Block(c, addr)) == None && |s.levels[k].mshr| < c.geos[k].mshrNum
    requires |Lines(c, s, k, addr)| >= c.geos[k].assoc
             ==> FindVictim(c, s, k, Lines(c, s, k, addr)) < |Lines(c, s, k, addr)|
    ensures var a := Allocate(c, s, k, addr, dirty);
      var r := WithMshr(c, a.sys, k, a.sys.levels[k].mshr + [addr]);
      && a.ok
      && InFlight(c, r, k + 1, Block(c, addr)) && r.fault == s.fault
      && Conserved(c, s, r, Block(c, addr), dirty)
  {
    var x := Block(c, addr);
    var lines := Lines(c, s, k, addr);
    GetLines(c, s, k, addr);
    if |lines| < c.geos[k].assoc {
      RecordKeeps(c, s, k, addr, dirty);
    } else {
      EvictRecord(c, s, k, addr, dirty);
    }
  }

  lemma EvictRecord(c: Config, s: System, k: nat, addr: int, dirty: bool)
    requires c.blockSize > 0 && InFlight(c, s, k, Block(c, addr)) && k < |c.geos|
    requires Get(c, s, k, Block(c, addr)) == None && |s.levels[k].mshr| < c.geos[k].mshrNum
    requires FindVictim(c, s, k, Lines(c, s, k, addr)) < |Lines(c, s, k, addr)|
    ensures var r := Recorded(c, Evict(c, s, k, addr, FindVictim(c, s, k, Lines(c, s, k, addr))), k, addr, dirty);
      && InFlight(c, r, k + 1, Block(c, addr)) && r.fault == s.fault
      && Conserved(c, s, r, Block(c, addr), dirty)
  {
    var x := Block(c, addr);
    var p := FindVictim(c, s, k, Lines(c, s, k, addr));
    var m := Evict(c, s, k, addr, p);
    EvictKeeps(c, s, k, x, addr, p);
    assert SetOk(c, k, Index(c, k, addr), Lines(c, s, k, addr));
    LineBlock(c, s, k, addr, p);
    EvictMshrs(c, s, k, addr, p);
    RecordKeeps(c, m, k, addr, dirty);
    ConservedTrans(c, s, m, Recorded(c, m, k, addr, dirty), x, false, dirty);
  }

  lemma EvictMshrs(c: Config, s: System, k: nat, addr: int, p: nat)
    requires Base(c, s) && k < |c.geos| && p < |Lines(c, s, k, addr)|
    requires Evictable(c, s, k, Lines(c, s, k, addr)[p])
    requires Stacked(c, s, |c.geos| - 1, Block(c, Lines(c, s, k, addr)[p].addr))
    ensures Evict(c, s, k, addr, p).levels[k].mshr == s.levels[k].mshr
  {
    EvictView(c, s, k, addr, p);
  }

  /** A miss forwarded to a level below the first is always accepted. */
  lemma {:induction false} ForwardedAccepted(c: Config, s: System, k: nat, addr: int)
    requires c.blockSize > 0 && InFlight(c, s, k, Block(c, addr)) && 0 < k < |c.geos|
    ensures var r := Send(c, s, k, Request(addr, Read));
      && r.ok && Inv(c, r.sys) && r.sys.fault == s.fault
      && Conserved(c, s, r.sys, Block(c, addr), false)
    decreases |c.geos| - k, 1
  {
    var x := Block(c, addr);
    var lines := Lines(c, s, k, addr);
    if Get(c, s, k, x).Some? {
      HitKeeps(c, s, k, Request(addr, Read));
    } else {
      GetLines(c, s, k, addr);
      NoMshr(c, s, k, addr);
      MshrFree(c, s, k, x);
      if |lines| >= c.geos[k].assoc {
        VictimExists(c, s, k, addr);
      }
      AllocateKeeps(c, s, k, addr, false);
      var a := Allocate(c, s, k, addr, false);
      var m := WithMshr(c, a.sys, k, a.sys.levels[k].mshr + [addr]);
      ForwardKeeps(c, m, k, addr);
      ConservedTrans(c, s, m, Forward(c, m, k, addr).sys, x, false, false);
      MissSend(c, s, k, Request(addr, Read));
    }
  }

  lemma NoMshr(c: Config, s: System, k: nat, addr: int)
    requires Fits(c, s) && k < |c.geos| && MshrOk(c, s, k) && !Locked(c, s, k, Block(c, addr))
    ensures HitMshr(c, s.levels[k].mshr, addr) == |s.levels[k].mshr|
  {
    assert !InMshr(c, s.levels[k].mshr, Block(c, addr));
  }

  /** What `send` computes for an absent block with a free MSHR and room to be made. */
  lemma MissSend(c: Config, s: System, k: nat, req: Request)
    requires Fits(c, s) && k < |c.geos|
    requires Pos(Lines(c, s, k, req.addr), Tag(c, k, req.addr)) == |Lines(c, s, k, req.addr)|
    requires HitMshr(c, s.levels[k].mshr, req.addr) == |s.levels[k].mshr| < c.geos[k].mshrNum
    requires |Lines(c, s, k, req.addr)| >= c.geos[k].assoc
             ==> FindVictim(c, s, k, Lines(c, s, k, req.addr)) < |Lines(c, s, k, req.addr)|
    ensures var a := Allocate(c, s, k, req.addr, req.kind == Write);
      && a.ok
      && Send(c, s, k, req) == Forward(c, WithMshr(c, a.sys, k, a.sys.levels[k].mshr + [req.addr]), k, req.addr)
  {
  }

  lemma {:induction false} ForwardKeeps(c: Config, s: System, k: nat, addr: int)
    requires c.blockSize > 0 && k < |c.geos| && InFlight(c, s, k + 1, Block(c, addr))
    ensures var r := Forward(c, s, k, addr);
      && r.ok && Inv(c, r.sys) && r.sys.fault == s.fault
      && Conserved(c, s, r.sys, Block(c, addr), false)
    decreases |c.geos| - k, 0
  {
    hide Send, SetsOk, MshrOk, LockOrder, InclusionBut;
    var x := Block(c, addr);
    if k + 1 < |c.geos| {
      ForwardedAccepted(c, s, k + 1, addr);
      var b := Send(c, s, k + 1, Request(addr, Read)).sys;
      assert Forward(c, s, k, addr).sys == b;
    } else {
      LandInv(c, s, x);
      var r := Forward(c, s, k, addr).sys;
      SameLevels(c, s, r);
      forall b ensures AnyDirty(c, r, b) <==> AnyDirty(c, s, b) ensures !Pushed(c, s, r, b) {
        assert r.waits == s.waits + [r.waits[|s.waits|]];
        NothingPushed(c, s, r, b);
        assert forall j :: 0 <= j < |c.geos| ==> (Dirty(c, r, j, b) <==> Dirty(c, s, j, b));
      }
    }
  }

  lemma SameLevels(c: Config, s: System, r: System)
    requires Inv(c, s) && r.levels == s.levels
    ensures Inv(c, r)
    ensures forall j, b :: 0 <= j < |c.geos| ==> Get(c, r, j, b) == Get(c, s, j, b)
  {
    SameViews(c, s, r);
    SameGets(c, s, r);
  }

  lemma SameGets(c: Config, s: System, r: System)
    requires Inv(c, s) && Fits(c, r) && SetsOk(c, r) && SameMshrs(c, s, r)
    requires forall j, b :: 0 <= j < |c.geos| ==> Get(c, r, j, b) == Get(c, s, j, b)
    ensures Inv(c, r)
  {
    forall j, b | 0 <= j < |c.geos|
      ensures Locked(c, r, j, b) <==> Locked(c, s, j, b)
    {
    }
    LocksCarry(c, s, r);
    forall j, b | 0 <= j < |c.geos| - 1 ensures IncludedAt(c, r, j, b) {
      assert IncludedAt(c, s, j, b);
    }
  }

  lemma MergeView(c: Config, s: System, a: int, x: int, wrote: bool)
    requires Inv(c, s) && Block(c, a) == x && Locked(c, s, 0, x)
    ensures var r := WithLine(c, s, 0, a, true, wrote);
      && Inv(c, r) && r.fault == s.fault && Conserved(c, s, r, x, wrote)
  {
    WithLineView(c, s, 0, a, true, wrote);
    var r := WithLine(c, s, 0, a, true, wrote);
    assert Marked(c, s, r, 0, x, wrote);
    MarkedConserved(c, s, r, 0, x, wrote);
    forall j, b | 0 <= j < |c.geos|
      ensures Get(c, r, j, b).Some? <==> Get(c, s, j, b).Some?
      ensures Locked(c, r, j, b) <==> Locked(c, s, j, b)
    {
    }
    SameBits(c, s, r);
  }

  /** A second access to a block being fetched merges into its MSHR entry. */
  lemma MergeKeeps(c: Config, s: System, req: Request)
    requires Inv(c, s) && Locked(c, s, 0, Block(c, req.addr))
    ensures var r := Send(c, s, 0, req);
      && r.ok && Inv(c, r.sys) && r.sys.fault == s.fault
      && Conserved(c, s, r.sys, Block(c, req.addr), req.kind == Write)
  {
    var mshr := s.levels[0].mshr;
    var m := HitMshr(c, mshr, req.addr);
    GetLines(c, s, 0, req.addr);
    assert MshrOk(c, s, 0);
    assert InMshr(c, mshr, Block(c, req.addr));
    assert Send(c, s, 0, req) == Answer(WithLine(c, s, 0, mshr[m], true, req.kind == Write), true);
    MergeView(c, s, mshr[m], Block(c, req.addr), req.kind == Write);
  }

  /** Same presence and lock bits: the invariant carries over. */
  lemma SameBits(c: Config, s: System, r: System)
    requires Inv(c, s) && Fits(c, r) && SetsOk(c, r) && SameMshrs(c, s, r)
    requires forall j, b :: 0 <= j < |c.geos| ==>
      (Get(c, r, j, b).Some? <==> Get(c, s, j, b).Some?) && (Locked(c, r, j, b) <==> Locked(c, s, j, b))
    ensures Inv(c, r)
  {
    LocksCarry(c, s, r);
    forall j, b | 0 <= j < |c.geos| - 1 ensures IncludedAt(c, r, j, b) {
      assert IncludedAt(c, s, j, b);
    }
  }

  /** When the first level refuses: the block is neither held unlocked nor being fetched, and
      the MSHRs are used up or the whole set is locked. */
  ghost predicate Refuses(c: Config, s: System, addr: int)
    requires Fits(c, s) && 0 < |c.geos|
  {
    && Get(c, s, 0, Block(c, addr)) == None
    && (|s.levels[0].mshr| == c.geos[0].mshrNum || AllLocked(c, 0, Lines(c, s, 0, addr)))
  }

  /** MAIN: one access to the first level. It keeps the invariant, trips no assertion and is accepted by every
      level below; it is refused exactly in the cases of `Refuses`, and then changes nothing; dirty data is
      conserved. */
  lemma AccessKeeps(c: Config, s: System, req: Request)
    requires Inv(c, s)
    ensures var r := Send(c, s, 0, req);
      && Inv(c, r.sys) && r.sys.fault == s.fault
      && (r.ok <==> !Refuses(c, s, req.addr))
      && (!r.ok ==> r.sys == s)
      && Conserved(c, s, r.sys, Block(c, req.addr), r.ok && req.kind == Write)
  {
    var x := Block(c, req.addr);
    var lines := Lines(c, s, 0, req.addr);
    GetLines(c, s, 0, req.addr);
    if Locked(c, s, 0, x) {
      MergeKeeps(c, s, req);
    } else {
      LaunchInFlight(c, s, x);
      if Get(c, s, 0, x).Some? {
        HitKeeps(c, s, 0, req);
      } else {
        NoMshr(c, s, 0, req.addr);
        assert MshrOk(c, s, 0);
        if Refuses(c, s, req.addr) {
          RefusedSend(c, s, req);
        } else {
          MissKeeps(c, s, req);
        }
      }
    }
  }

  lemma RefusedSend(c: Config, s: System, req: Request)
    requires Inv(c, s) && Refuses(c, s, req.addr)
    ensures Send(c, s, 0, req) == Answer(s, false)
    ensures Conserved(c, s, s, Block(c, req.addr), false)
  {
    GetLines(c, s, 0, req.addr);
    assert !Locked(c, s, 0, Block(c, req.addr));
    assert MshrOk(c, s, 0);
    NoMshr(c, s, 0, req.addr);
    assert Marked(c, s, s, 0, Block(c, req.addr), false);
    MarkedConserved(c, s, s, 0, Block(c, req.addr), false);
  }

  lemma MissKeeps(c: Config, s: System, req: Request)
    requires Inv(c, s) && Get(c, s, 0, Block(c, req.addr)) == None && !Refuses(c, s, req.addr)
    ensures var r := Send(c, s, 0, req);
      && r.ok && Inv(c, r.sys) && r.sys.fault == s.fault
      && Conserved(c, s, r.sys, Block(c, req.addr), req.kind == Write)
  {
    var x := Block(c, req.addr);
    var lines := Lines(c, s, 0, req.addr);
    var d := req.kind == Write;
    GetLines(c, s, 0, req.addr);
    LaunchInFlight(c, s, x);
    assert MshrOk(c, s, 0);
    NoMshr(c, s, 0, req.addr);
    if FindVictim(c, s, 0, lines) == |lines| {
      forall j | 0 <= j < |lines| ensures lines[j].lock {
        assert !Evictable(c, s, 0, lines[j]);
      }
    }
    AllocateKeeps(c, s, 0, req.addr, d);
    MissSend(c, s, 0, req);
    var a := Allocate(c, s, 0, req.addr, d);
    var m := WithMshr(c, a.sys, 0, a.sys.levels[0].mshr + [req.addr]);
    ForwardKeeps(c, m, 0, req.addr);
    ConservedTrans(c, s, m, Forward(c, m, 0, req.addr).sys, x, d, false);
  }

  lemma UnlockView(c: Config, s: System, k: nat, addr: int)
    requires Inv(c, s) && k < |c.geos| && Locked(c, s, k, Block(c, addr))
    ensures var m := HitMshr(c, s.levels[k].mshr, addr);
      && m < |s.levels[k].mshr|
      && var r := Unlocked(c, s, k, m);
      && SetsOk(c, r)
      && (forall j, b :: 0 <= j < |c.geos| ==>
            Get(c, r, j, b) == if j == k && b == Block(c, addr) then Some(Get(c, s, j, b).value.(lock := false))
                               else Get(c, s, j, b))
      && (forall j :: 0 <= j < |c.geos| && j != k ==> r.levels[j].mshr == s.levels[j].mshr)
      && r.levels[k].mshr == s.levels[k].mshr[..m] + s.levels[k].mshr[m + 1..]
      && r.fault == s.fault && r.waits == s.waits
  {
    hide WithLine, HitMshr, LockOrder, InclusionBut, Lookup, Pos, SetOk;
    var b := Block(c, addr);
    var mshr := s.levels[k].mshr;
    assert MshrOk(c, s, k);
    assert InMshr(c, mshr, b);
    var m := HitMshr(c, mshr, addr);
    WithLineView(c, s, k, mshr[m], false, false);
    var w := WithLine(c, s, k, mshr[m], false, false);
    var r := Unlocked(c, s, k, m);
    forall j, y | 0 <= j < |c.geos| ensures Get(c, r, j, y) == Get(c, w, j, y) {
    }
    forall j, i | 0 <= j < |c.geos| && 0 <= i < c.geos[j].blockNum ensures SetOk(c, j, i, r.levels[j].sets[i]) {
      assert SetOk(c, j, i, w.levels[j].sets[i]);
    }
  }

  lemma ErasedMshr(c: Config, mshr: seq<int>, m: nat, b: int)
    requires c.blockSize > 0 && m < |mshr|
    requires forall i, j :: 0 <= i < j < |mshr| ==> Block(c, mshr[i]) != Block(c, mshr[j])
    ensures var e := mshr[..m] + mshr[m + 1..];
      && (forall i, j :: 0 <= i < j < |e| ==> Block(c, e[i]) != Block(c, e[j]))
      && (InMshr(c, e, b) <==> InMshr(c, mshr, b) && b != Block(c, mshr[m]))
  {
    var e := mshr[..m] + mshr[m + 1..];
    assert forall i :: 0 <= i < |e| ==> e[i] == mshr[if i < m then i else i + 1];
    if InMshr(c, mshr, b) && b != Block(c, mshr[m]) {
      var i :| 0 <= i < |mshr| && Block(c, mshr[i]) == b;
      assert e[if i < m then i else i - 1] == mshr[i];
    }
  }

  /** r is s with the locks on block b gone at levels lo..hi, and the invariant and dirty data kept. */
  ghost predicate Released(c: Config, s: System, r: System, lo: int, hi: int, b: int)
    requires Fits(c, s)
  {
    && Inv(c, r) && r.fault == s.fault && r.waits == s.waits
    && Conserved(c, s, r, 0, false)
    && forall j, y :: 0 <= j < |c.geos| ==>
         (Locked(c, r, j, y) <==> Locked(c, s, j, y) && !(lo <= j <= hi && y == b))
  }

  lemma UnlockedMshr(c: Config, s: System, k: nat, addr: int, j: nat)
    requires Inv(c, s) && k < |c.geos| && j < |c.geos| && Locked(c, s, k, Block(c, addr))
    ensures HitMshr(c, s.levels[k].mshr, addr) < |s.levels[k].mshr|
    ensures MshrOk(c, Unlocked(c, s, k, HitMshr(c, s.levels[k].mshr, addr)), j)
  {
    var b := Block(c, addr);
    UnlockView(c, s, k, addr);
    var m := HitMshr(c, s.levels[k].mshr, addr);
    var r := Unlocked(c, s, k, m);
    assert MshrOk(c, s, j);
    if j == k {
      forall y ensures Locked(c, r, k, y) <==> InMshr(c, r.levels[k].mshr, y) {
        ErasedMshr(c, s.levels[k].mshr, m, y);
        assert Locked(c, s, k, y) <==> InMshr(c, s.levels[k].mshr, y);
      }
      ErasedMshr(c, s.levels[k].mshr, m, b);
    } else {
      forall y ensures Locked(c, r, j, y) <==> Locked(c, s, j, y) {
      }
    }
  }

  lemma UnlockKeeps(c: Config, s: System, k: nat, addr: int)
    requires Inv(c, s) && k < |c.geos| && Locked(c, s, k, Block(c, addr))
    requires k + 1 < |c.geos| ==> !Locked(c, s, k + 1, Block(c, addr))
    ensures HitMshr(c, s.levels[k].mshr, addr) < |s.levels[k].mshr|
    ensures Released(c, s, Unlocked(c, s, k, HitMshr(c, s.levels[k].mshr, addr)), k, k, Block(c, addr))
  {
    var b := Block(c, addr);
    UnlockView(c, s, k, addr);
    var r := Unlocked(c, s, k, HitMshr(c, s.levels[k].mshr, addr));
    assert Marked(c, s, r, k, b, false);
    MarkedConserved(c, s, r, k, b, false);
    forall j | 0 <= j < |c.geos| ensures MshrOk(c, r, j) {
      UnlockedMshr(c, s, k, addr, j);
    }
    UnlockedOrder(c, s, r, k, b);
  }

  lemma UnlockedOrder(c: Config, s: System, r: System, k: nat, b: int)
    requires Inv(c, s) && Fits(c, r) && k < |c.geos| && Locked(c, s, k, b)
    requires k + 1 < |c.geos| ==> !Locked(c, s, k + 1, b)
    requires forall j, y :: 0 <= j < |c.geos| ==>
      Get(c, r, j, y) == if j == k && y == b then Some(Get(c, s, j, y).value.(lock := false)) else Get(c, s, j, y)
    ensures LockOrder(c, r) && InclusionBut(c, r, 0, 0)
  {
    forall j, y | 0 <= j < |c.geos| - 1 ensures OrderedAt(c, r, j, y) && IncludedAt(c, r, j, y) {
      assert OrderedAt(c, s, j, y) && IncludedAt(c, s, j, y);
    }
  }

  lemma ReleasedTrans(c: Config, s: System, m: System, r: System, k: nat, b: int)
    requires Fits(c, s) && 0 < k < |c.geos|
    requires Released(c, s, m, k, k, b) && Released(c, m, r, 0, k - 1, b)
    ensures Released(c, s, r, 0, k, b)
  {
    ConservedTrans(c, s, m, r, 0, false, false);
  }

  lemma NothingReleased(c: Config, s: System, k: nat, b: int)
    requires Inv(c, s) && k < |c.geos| && !Locked(c, s, k, b)
    ensures Released(c, s, s, k, k, b)
  {
    assert Marked(c, s, s, 0, b, false);
    MarkedConserved(c, s, s, 0, b, false);
    assert Conserved(c, s, s, 0, false);
  }

  /** MAIN: a completed fetch of a block, arriving at level k with the level below already done, keeps the
      invariant, leaves no level up to k holding the block locked and every other lock alone, and touches
      no dirty data. */
  lemma {:induction false} CallbackKeeps(c: Config, s: System, k: nat, addr: int)
    requires Inv(c, s) && k < |c.geos|
    requires k + 1 < |c.geos| ==> !Locked(c, s, k + 1, Block(c, addr))
    ensures Released(c, s, Callback(c, s, k, addr), 0, k, Block(c, addr))
    decreases k
  {
    var b := Block(c, addr);
    var s1 := CallbackOne(c, s, k, addr);
    CallbackOneKeeps(c, s, k, addr);
    if k > 0 {
      CallbackKeeps(c, s1, k - 1, addr);
      ReleasedTrans(c, s, s1, Callback(c, s1, k - 1, addr), k, b);
    }
  }

  lemma CallbackOneKeeps(c: Config, s: System, k: nat, addr: int)
    requires Inv(c, s) && k < |c.geos|
    requires k + 1 < |c.geos| ==> !Locked(c, s, k + 1, Block(c, addr))
    ensures Released(c, s, CallbackOne(c, s, k, addr), k, k, Block(c, addr))
    ensures Callback(c, s, k, addr) ==
      if k == 0 then CallbackOne(c, s, k, addr) else Callback(c, CallbackOne(c, s, k, addr), k - 1, addr)
  {
    assert MshrOk(c, s, k);
    if Locked(c, s, k, Block(c, addr)) {
      UnlockKeeps(c, s, k, addr);
    } else {
      NoMshr(c, s, k, addr);
      NothingReleased(c, s, k, Block(c, addr));
    }
  }
}
