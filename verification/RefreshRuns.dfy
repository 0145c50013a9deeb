/** Whole runs of the refresh scheduler: the rest of the controller may change the queues between ticks in any way. */
module RefreshRuns {
  import opened Arith
  import opened RefreshModel
  import opened RefreshCredit

  /** What the controller does before a tick: a new queue of other requests, and what the tick gets to see. */
  datatype Env = Env(otherq: seq<Other>, view: View)

  ghost predicate EnvOk(c: Config, e: Env) {
    |e.otherq| <= c.otherMax && ViewOk(c, e.view)
  }

  function Step(c: Config, s: State, e: Env): (t: State)
    requires Shape(c, s) && EnvOk(c, e)
    ensures Shape(c, t)
  {
    if s.ok then Tick(c, s.(otherq := e.otherq), e.view) else s
  }

  ghost predicate EnvsOk(c: Config, envs: seq<Env>) {
    forall i :: 0 <= i < |envs| ==> EnvOk(c, envs[i])
  }

  function Run(c: Config, envs: seq<Env>): (t: State)
    requires ConfigOk(c) && EnvsOk(c, envs)
    ensures Shape(c, t)
  {
    if |envs| == 0 then Initial(c) else Step(c, Run(c, envs[..|envs| - 1]), envs[|envs| - 1])
  }

  lemma QueueInv(c: Config, s: State, otherq: seq<Other>)
    requires Inv(c, s) && |otherq| <= c.otherMax
    ensures Inv(c, s.(otherq := otherq))
  {
    SameFull(c, s, s.(otherq := otherq), s.clk / c.interval);
  }

  lemma {:induction false} RunInv(c: Config, envs: seq<Env>)
    requires ConfigOk(c) && EnvsOk(c, envs) && Run(c, envs).ok
    ensures Inv(c, Run(c, envs)) && Run(c, envs).clk == |envs|
    decreases |envs|
  {
    hide Inv, Tick, ViewOk;
    if |envs| == 0 {
      InitialInv(c);
    } else {
      var s, e := Run(c, envs[..|envs| - 1]), envs[|envs| - 1];
      RunInv(c, envs[..|envs| - 1]);
      QueueInv(c, s, e.otherq);
      TickKeeps(c, s.(otherq := e.otherq), e.view);
    }
  }

  /** Slots due to a bank by a clock. */
  function DueAt(c: Config, clk: nat, b: int): int
    requires ConfigOk(c)
  {
    (clk / c.interval + c.banks - 1 - b) / c.banks
  }

  /** MAIN: after any run each bank's backlog is the refreshes issued to it less its slots due, and it lies in
      -7..8 for DARP and DSARP and is 0 for REFPB and SARP. */
  lemma RunBalanced(c: Config, envs: seq<Env>, r: int, b: int)
    requires ConfigOk(c) && EnvsOk(c, envs) && Run(c, envs).ok && 0 <= r < c.ranks && 0 <= b < c.banks
    ensures var s := Run(c, envs);
      && s.backlog[r][b] == Count(s.log, r, b) - DueAt(c, |envs|, b)
      && (if c.ooo then -7 <= s.backlog[r][b] <= 8 else s.backlog[r][b] == 0)
  {
    hide Run;
    RunInv(c, envs);
    var s := Run(c, envs);
    var k := s.clk / c.interval;
    assert RankBalanced(c, s, k, r);
    assert Balanced(c, s, k, r, b);
    TurnsClosed(k, c.banks, b);
  }

  lemma {:induction false} RunStops(c: Config, envs: seq<Env>, i: nat)
    requires ConfigOk(c) && EnvsOk(c, envs) && i <= |envs| && Run(c, envs).ok
    ensures Run(c, envs[..i]).ok
    decreases |envs|
  {
    if i < |envs| {
      assert envs[..|envs| - 1][..i] == envs[..i];
      RunStops(c, envs[..|envs| - 1], i);
    } else {
      assert envs[..i] == envs;
    }
  }

  /** MAIN: over any stretch of a run, a bank gets at most 15 refreshes more or fewer than slots due to it in that
      stretch; so 16 due slots never pass without a refresh. */
  lemma WindowRule(c: Config, envs: seq<Env>, i: nat, r: int, b: int)
    requires ConfigOk(c) && EnvsOk(c, envs) && Run(c, envs).ok && i <= |envs| && 0 <= r < c.ranks && 0 <= b < c.banks
    ensures var got := Count(Run(c, envs).log, r, b) - Count(Run(c, envs[..i]).log, r, b);
      var due := DueAt(c, |envs|, b) - DueAt(c, i, b);
      if c.ooo then due - 15 <= got <= due + 15 else got == due
  {
    hide Run;
    RunStops(c, envs, i);
    RunBalanced(c, envs, r, b);
    RunBalanced(c, envs[..i], r, b);
  }

  /** Refreshes of a bank that went to subarray x. */
  function Share(log: seq<Other>, r: int, b: int, x: int): nat {
    if |log| == 0 then 0
    else Share(log[..|log| - 1], r, b, x)
         + if log[|log| - 1].rank == r && log[|log| - 1].bank == b && log[|log| - 1].sa == x then 1 else 0
  }

  lemma RotatesInit(c: Config, log: seq<Other>)
    requires c.sas > 0 && |log| > 0 && Rotates(c, log)
    ensures Rotates(c, log[..|log| - 1]) && TurnOf(c, log, |log| - 1)
  {
    var l := log[..|log| - 1];
    forall i | 0 <= i < |l| ensures TurnOf(c, l, i) {
      assert TurnOf(c, log, i) && l[..i] == log[..i];
    }
  }

  /** A bank's refreshes are dealt out evenly: subarray x has had exactly its turns among them. */
  lemma {:induction false} EvenShare(c: Config, log: seq<Other>, r: int, b: int, x: int)
    requires c.sas > 0 && Rotates(c, log) && 0 <= x < c.sas
    ensures Share(log, r, b, x) == Turns(Count(log, r, b), c.sas, x)
    decreases |log|
  {
    if |log| > 0 {
      RotatesInit(c, log);
      EvenShare(c, log[..|log| - 1], r, b, x);
    }
  }

  /** MAIN: so it is for the refreshes of every run. */
  lemma RunShare(c: Config, envs: seq<Env>, r: int, b: int, x: int)
    requires ConfigOk(c) && EnvsOk(c, envs) && Run(c, envs).ok && 0 <= x < c.sas
    ensures var log := Run(c, envs).log;
      Share(log, r, b, x) == (Count(log, r, b) + c.sas - 1 - x) / c.sas
  {
    hide Run;
    RunInv(c, envs);
    var log := Run(c, envs).log;
    EvenShare(c, log, r, b, x);
    TurnsClosed(Count(log, r, b), c.sas, x);
  }

  /** Write-refresh parallelisation means to pick at random among idle banks. The loop tests the bank number where
      the demand was meant, so whatever rand() returns it picks the first bank of the order. */
  lemma WrpLeast(c: Config, v: View, r: int, order: seq<int>, draw: nat)
    requires c.banks > 0 && Sorted(c, v, r, order)
    ensures WrpBank(order, draw) == order[0]
    ensures forall b :: 0 <= b < c.banks ==> BankDemand(v, r, WrpBank(order, draw)) <= BankDemand(v, r, b)
  {
    var top := TopIdle(order, 0);
    if |order| > 1 {
      assert order[0] != order[1];
      assert order[0] == 0 ==> TopIdle(order, 1) == 1;
      assert top == if order[0] != 0 then 0 else 1;
    }
    forall b | 0 <= b < c.banks ensures BankDemand(v, r, order[0]) <= BankDemand(v, r, b) {
      assert b in order;
      var i :| 0 <= i < |order| && order[i] == b;
      assert i == 0 || BankDemand(v, r, order[0]) <= BankDemand(v, r, order[i]);
    }
  }

  lemma {:induction false} PullSearch(c: Config, s: State, v: View, r: int, start: nat, i: nat, k: nat)
    requires Shape(c, s) && 0 <= r < c.ranks && i <= k < c.banks && Pullable(s, v, r, (start + k) % c.banks)
    ensures PullFrom(c, s, v, r, start, i) <= k
    decreases k - i
  {
    if i < k {
      PullSearch(c, s, v, r, start, i + 1, k);
    }
  }

  /** The circular search from any starting bank finds a bank to pull in exactly when there is one. */
  lemma PullFinds(c: Config, s: State, v: View, r: int, draw: nat)
    requires Shape(c, s) && 0 <= r < c.ranks
    ensures PullFrom(c, s, v, r, draw % c.banks, 0) < c.banks <==>
      exists b :: 0 <= b < c.banks && Pullable(s, v, r, b)
  {
    var start := draw % c.banks;
    if b :| 0 <= b < c.banks && Pullable(s, v, r, b) {
      var k := if b >= start then b - start else b + c.banks - start;
      if b >= start {
        DivModIs(c.banks, start + k, 0, b);
      } else {
        DivModIs(c.banks, start + k, 1, b);
      }
      PullSearch(c, s, v, r, start, 0, k);
    }
  }
}
