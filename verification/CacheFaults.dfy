/** A fault never heals: a run of a transformer that ends without one had none on the way. */
module CacheFaults {
  import opened Arith
  import opened CacheSets
  import opened CacheModel
  import opened CacheEviction

  lemma {:induction false} InvalidateSticky(c: Config, s: System, k: nat, addr: int)
    requires Fits(c, s) && k < |c.geos| && s.fault
    ensures Invalidate(c, s, k, addr).sys.fault
    decreases k
  {
    var lines := Lines(c, s, k, addr);
    var p := Pos(lines, Tag(c, k, addr));
    if p < |lines| && k > 0 {
      InvalidateSticky(c, WithLines(c, s, k, addr, Erase(lines, p)), k - 1, addr);
    }
  }

  /** A fault-free `invalidate` that finds the line finds it unlocked and goes on without a fault. */
  lemma InvalidateFault(c: Config, s: System, k: nat, addr: int)
    requires Fits(c, s) && k < |c.geos| && !s.fault && !Invalidate(c, s, k, addr).sys.fault
    requires Pos(Lines(c, s, k, addr), Tag(c, k, addr)) < |Lines(c, s, k, addr)|
    ensures var lines := Lines(c, s, k, addr);
      var p := Pos(lines, Tag(c, k, addr));
      var each := c.geos[k].latencyEach;
      var s1 := WithLines(c, s, k, addr, Erase(lines, p));
      && !lines[p].lock
      && (k == 0 ==> Invalidate(c, s, k, addr) == Invalidated(s1, each, lines[p].dirty))
      && (k > 0 ==>
            var up := Invalidate(c, s1, k - 1, addr);
            && !up.sys.fault
            && Invalidate(c, s, k, addr)
            == Invalidated(up.sys, Max(each, each + if up.dirty then up.delay * 2 else up.delay),
                           lines[p].dirty || up.dirty))
  {
    var lines := Lines(c, s, k, addr);
    var p := Pos(lines, Tag(c, k, addr));
    var s1 := WithLines(c, s, k, addr, Erase(lines, p));
    var s2 := s1.(fault := s.fault || lines[p].lock);
    if k > 0 && s2.fault {
      InvalidateSticky(c, s2, k - 1, addr);
    }
    assert !lines[p].lock;
    assert s2 == s1;
  }

  lemma EvictFault(c: Config, s: System, k: nat, addr: int, p: nat)
    requires Fits(c, s) && k < |c.geos| && p < |Lines(c, s, k, addr)| && !Evict(c, s, k, addr, p).fault
    ensures var victim := Lines(c, s, k, addr)[p];
      var m := Below(c, Above(c, s, k, victim), k, victim);
      !Above(c, s, k, victim).sys.fault && !m.fault && p < |Lines(c, m, k, addr)|
  {
    EvictSplit(c, s, k, addr, p);
  }

  lemma EvictSticky(c: Config, s: System, k: nat, addr: int, p: nat)
    requires Fits(c, s) && k < |c.geos| && p < |Lines(c, s, k, addr)| && s.fault
    ensures Evict(c, s, k, addr, p).fault
  {
    EvictSplit(c, s, k, addr, p);
    if k > 0 {
      InvalidateSticky(c, s, k - 1, Lines(c, s, k, addr)[p].addr);
    }
  }

  lemma AllocateSticky(c: Config, s: System, k: nat, addr: int, dirty: bool)
    requires Fits(c, s) && k < |c.geos| && s.fault
    ensures Allocate(c, s, k, addr, dirty).sys.fault
  {
    var lines := Lines(c, s, k, addr);
    if FindVictim(c, s, k, lines) < |lines| {
      EvictSticky(c, s, k, addr, FindVictim(c, s, k, lines));
    }
  }

  lemma {:induction false} SendSticky(c: Config, s: System, k: nat, req: Request)
    requires Fits(c, s) && k < |c.geos| && s.fault
    ensures Send(c, s, k, req).sys.fault
    decreases |c.geos| - k
  {
    AllocateSticky(c, s, k, req.addr, req.kind == Write);
    var a := Allocate(c, s, k, req.addr, req.kind == Write);
    ForwardSticky(c, WithMshr(c, a.sys, k, a.sys.levels[k].mshr + [req.addr]), k, req.addr);
  }

  lemma {:induction false} ForwardSticky(c: Config, s: System, k: nat, addr: int)
    requires Fits(c, s) && k < |c.geos| && s.fault
    ensures Forward(c, s, k, addr).sys.fault
    decreases |c.geos| - k, 0
  {
    if k + 1 < |c.geos| {
      SendSticky(c, s, k + 1, Request(addr, Read));
    }
  }

  /** The two early outcomes of `send`. */
  lemma HitSend(c: Config, s: System, k: nat, req: Request)
    requires Fits(c, s) && k < |c.geos|
    requires var lines := Lines(c, s, k, req.addr);
      var p := Pos(lines, Tag(c, k, req.addr));
      p < |lines| && !lines[p].lock
    ensures var lines := Lines(c, s, k, req.addr);
      var p := Pos(lines, Tag(c, k, req.addr));
      var line := Line(req.addr, Tag(c, k, req.addr), false, lines[p].dirty || req.kind == Write);
      var s1 := WithLines(c, s, k, req.addr, Erase(lines + [line], p));
      Send(c, s, k, req) == Answer(s1.(hits := s1.hits + [Timed(s.clk + c.geos[k].latency, req)]), true)
  {
  }

  lemma MissParts(c: Config, s: System, k: nat, req: Request)
    requires Fits(c, s) && k < |c.geos|
    requires var lines := Lines(c, s, k, req.addr);
      var p := Pos(lines, Tag(c, k, req.addr));
      p == |lines| || lines[p].lock
    ensures var mshr := s.levels[k].mshr;
      var m := HitMshr(c, mshr, req.addr);
      && (m < |mshr| ==>
            Send(c, s, k, req) == Answer(WithLine(c, s, k, mshr[m], true, req.kind == Write), true))
      && (m == |mshr| && (|mshr| == c.geos[k].mshrNum || AllLocked(c, k, Lines(c, s, k, req.addr))) ==>
            Send(c, s, k, req) == Answer(s, false))
  {
  }

  /** A fault-free send that gets past its early exits had a fault-free allocation. */
  lemma SendFault(c: Config, s: System, k: nat, req: Request)
    requires Fits(c, s) && k < |c.geos| && !Send(c, s, k, req).sys.fault
    requires var lines := Lines(c, s, k, req.addr);
      var p := Pos(lines, Tag(c, k, req.addr));
      && (p == |lines| || lines[p].lock)
      && HitMshr(c, s.levels[k].mshr, req.addr) == |s.levels[k].mshr| != c.geos[k].mshrNum
      && !AllLocked(c, k, lines)
    ensures var a := Allocate(c, s, k, req.addr, req.kind == Write);
      var m := WithMshr(c, a.sys, k, a.sys.levels[k].mshr + [req.addr]);
      && !a.sys.fault
      && (a.ok ==> Send(c, s, k, req) == Forward(c, m, k, req.addr) && !Forward(c, m, k, req.addr).sys.fault)
      && (!a.ok ==> Send(c, s, k, req) == a)
  {
    var a := Allocate(c, s, k, req.addr, req.kind == Write);
    if a.ok && a.sys.fault {
      ForwardSticky(c, WithMshr(c, a.sys, k, a.sys.levels[k].mshr + [req.addr]), k, req.addr);
    }
  }

  lemma {:induction false} CallbackSticky(c: Config, s: System, k: nat, addr: int)
    requires Fits(c, s) && k < |c.geos| && s.fault
    ensures Callback(c, s, k, addr).fault
    decreases k
  {
    hide Callback, CallbackOne;
    CallbackUnfold(c, s, k, addr);
    if k > 0 {
      CallbackSticky(c, CallbackOne(c, s, k, addr), k - 1, addr);
    }
  }

  lemma CallbackUnfold(c: Config, s: System, k: nat, addr: int)
    requires Fits(c, s) && k < |c.geos|
    ensures Callback(c, s, k, addr) ==
      if k == 0 then CallbackOne(c, s, k, addr) else Callback(c, CallbackOne(c, s, k, addr), k - 1, addr)
    ensures s.fault ==> CallbackOne(c, s, k, addr).fault
  {
  }

  lemma CallbackFault(c: Config, s: System, k: nat, addr: int)
    requires Fits(c, s) && k < |c.geos| && !Callback(c, s, k, addr).fault
    ensures !CallbackOne(c, s, k, addr).fault
  {
    hide Callback, CallbackOne;
    CallbackUnfold(c, s, k, addr);
    if k > 0 && CallbackOne(c, s, k, addr).fault {
      CallbackSticky(c, CallbackOne(c, s, k, addr), k - 1, addr);
    }
  }
}
