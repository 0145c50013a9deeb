/** Which configurations of the refresh scheduler can read past their subarray counters, and runs that fail. */
module RefreshLimits {
  import opened Arith
  import opened RefreshCredit
  import opened RefreshFailures
  import opened RefreshModel
  import opened RefreshRuns

  lemma TickAtRun(c: Config, envs: seq<Env>, e: Env)
    requires ConfigOk(c) && EnvsOk(c, envs) && EnvOk(c, e) && Run(c, envs).ok
    ensures EnvsOk(c, envs + [e])
    ensures var q := Run(c, envs).(otherq := e.otherq, clk := |envs| + 1);
      && Shape(c, q) && InStep(c, q, 0, |envs| / c.interval % c.banks)
      && (Run(c, envs + [e]).wild <==> ReadsPast(c, q, e.view))
      && (Run(c, envs + [e]).ok <==> !ReadsPast(c, q, e.view) && !Overflows(c, q, e.view))
  {
    hide ReadsPast, Overflows, Tick, ViewOk, InStep, Balanced, Rotates;
    var s := Run(c, envs);
    RunInv(c, envs);
    QueueInv(c, s, e.otherq);
    TickFails(c, s.(otherq := e.otherq), e.view);
    ClockStep(c, s.(otherq := e.otherq));
    assert (envs + [e])[..|envs|] == envs;
  }

  /** With a counter for every bank nothing is read past the end, nor when even the first slot fails. */
  lemma {:induction false} RunTame(c: Config, envs: seq<Env>)
    requires ConfigOk(c) && EnvsOk(c, envs)
    requires c.ranks == 0 || c.banks <= c.sas || (!c.ooo && c.ranks > c.otherMax)
    ensures !Run(c, envs).wild
    ensures !c.ooo && c.ranks > c.otherMax && Run(c, envs).ok ==> |envs| < c.interval
    decreases |envs|
  {
    hide ViewOk, Shape, Tick;
    if |envs| > 0 {
      var init, e := envs[..|envs| - 1], envs[|envs| - 1];
      RunTame(c, init);
      assert envs == init + [e];
      if Run(c, init).ok {
        TickAtRun(c, init, e);
        TameTick(c, Run(c, init).(otherq := e.otherq, clk := |envs|), e.view);
      }
    }
  }

  lemma TameTick(c: Config, s: State, v: View)
    requires Shape(c, s) && ViewOk(c, v) && s.clk > 0
    requires c.ranks == 0 || c.banks <= c.sas || (!c.ooo && c.ranks > c.otherMax && s.clk <= c.interval)
    ensures !ReadsPast(c, s, v)
    ensures !c.ooo && c.ranks > c.otherMax && s.clk == c.interval ==> Overflows(c, s, v)
  {
    if c.ranks > 0 && c.banks > c.sas {
      DivModIs(c.interval, s.clk - 1, 0, s.clk - 1);
      DivModIs(c.banks, 0, 0, 0);
    }
    if s.clk == c.interval {
      DivModIs(c.interval, s.clk, 1, 0);
    }
  }

  /** Banks in order, but bank 0 last. */
  function ZeroLast(c: Config): seq<int> {
    seq(c.banks, i requires 0 <= i < c.banks => if i + 1 < c.banks then i + 1 else 0)
  }

  /** A cycle on which the controller drains no writes, with reads as given and nothing else waiting. */
  function Cycle(c: Config, readq: seq<Target>): Env {
    var zeros := seq(c.ranks, _ => 0);
    Env([], View(readq, [], true, seq(c.ranks, _ => ZeroLast(c)), zeros, zeros))
  }

  const FIRST_READ := [Target(0, 0)]

  lemma CycleOk(c: Config, readq: seq<Target>)
    requires ConfigOk(c) && c.ranks > 0 && (readq == [] || readq == FIRST_READ)
    ensures EnvOk(c, Cycle(c, readq))
  {
    var v, order := Cycle(c, readq).view, ZeroLast(c);
    forall r | 0 <= r < c.ranks ensures Sorted(c, v, r, v.order[r]) {
      forall b | 0 <= b < c.banks ensures b in order {
        assert order[if b == 0 then c.banks - 1 else b - 1] == b;
      }
      forall b | 0 < b < c.banks ensures BankDemand(v, r, b) == 0 {
      }
    }
  }

  /** No refresh ahead of its slot on such a cycle. */
  lemma CycleAsks(c: Config, s: State, readq: seq<Target>)
    requires Shape(c, s) && EnvOk(c, Cycle(c, readq))
    ensures var v := Cycle(c, readq).view; !Strays(c, s, v, c.ranks) && Taken(c, s, v, c.ranks) == 0
    ensures var v := Cycle(c, readq).view; forall r :: 0 <= r < c.ranks ==> Ask(c, s, v, r) == c.banks
  {
    NoneAsking(c, s, Cycle(c, readq).view, c.ranks);
  }

  lemma NoneDue(c: Config, n: nat)
    requires ConfigOk(c) && n / c.interval < c.banks
    ensures DueAt(c, n, n / c.interval) == 0 && n / c.interval % c.banks == n / c.interval
  {
    DivModIs(c.banks, n / c.interval, 0, n / c.interval);
    DivModIs(c.banks, c.banks - 1, 0, c.banks - 1);
  }

  /** A bank whose slots have not come yet owes nothing. */
  lemma NotYet(c: Config, envs: seq<Env>, r: int)
    requires ConfigOk(c) && EnvsOk(c, envs) && Run(c, envs).ok && 0 <= r < c.ranks && |envs| / c.interval < c.banks
    ensures var s := Run(c, envs); s.next[r] == |envs| / c.interval && s.backlog[r][s.next[r]] >= 0
  {
    hide Run, Balanced, Rotates, EnvsOk, DueAt, Count;
    RunInv(c, envs);
    NoneDue(c, |envs|);
    FullInStep(c, Run(c, envs), |envs| / c.interval);
    RunBalanced(c, envs, r, |envs| / c.interval);
  }

  lemma {:induction false} NoneMust(c: Config, s: State, v: View, n: nat)
    requires Shape(c, s) && ViewOk(c, v) && n <= c.ranks
    requires forall r :: 0 <= r < n ==> s.backlog[r][s.next[r]] >= 0
    ensures MustRanks(c, s, v, n) == 0
    decreases n
  {
    hide Shape, ViewOk, Ask, Asking;
    if n > 0 {
      NoneMust(c, s, v, n - 1);
    }
  }

  lemma {:induction false} MustFirst(c: Config, s: State, v: View, n: nat)
    requires Shape(c, s) && ViewOk(c, v) && 0 < n <= c.ranks && Must(c, s, v, 0)
    ensures MustRanks(c, s, v, n) > 0
    decreases n
  {
    hide Must, ViewOk;
    if n > 1 {
      MustFirst(c, s, v, n - 1);
    }
  }

  /** Shapes under which a run may read past the counters. */
  predicate Narrow(c: Config) {
    c.ranks > 0 && c.banks > c.sas && (c.ooo || c.ranks <= c.otherMax)
  }

  function Waiting(c: Config, n: nat): seq<Env> {
    seq(n, _ => Cycle(c, FIRST_READ))
  }

  lemma SlotOf(n: nat, interval: int, sas: nat)
    requires interval > 0 && 0 < n && n % interval == 0 && n < interval * (sas + 1)
    ensures (n - 1) / interval < sas
  {
    var q := n / interval;
    assert n == interval * q;
    DivModIs(interval, n - 1, q - 1, interval - 1);
    MulSign(interval, sas + 1 - q);
    assert interval * (sas + 1 - q) == interval * (sas + 1) - interval * q;
  }

  /** While a read waits, all slots before the first missing counter pass without failure. */
  lemma {:induction false} WaitingRun(c: Config, n: nat)
    requires ConfigOk(c) && Narrow(c) && n < c.interval * (c.sas + 1)
    ensures EnvsOk(c, Waiting(c, n)) && Run(c, Waiting(c, n)).ok
    decreases n
  {
    hide Shape, ViewOk, Strays, Taken, Overflows, ReadsPast, InStep, Run;
    CycleOk(c, FIRST_READ);
    if n == 0 {
      assert Waiting(c, n) == [];
      StartOk(c);
    } else {
      WaitingRun(c, n - 1);
      var e, w := Cycle(c, FIRST_READ), Waiting(c, n - 1);
      assert Waiting(c, n) == w + [e];
      TickAtRun(c, w, e);
      WaitingTick(c, w);
    }
  }

  lemma StartOk(c: Config)
    requires ConfigOk(c)
    ensures EnvsOk(c, []) && Run(c, []).ok
  {
  }

  lemma WaitingTick(c: Config, w: seq<Env>)
    requires ConfigOk(c) && Narrow(c) && EnvsOk(c, w) && Run(c, w).ok && |w| + 1 < c.interval * (c.sas + 1)
    requires EnvOk(c, Cycle(c, FIRST_READ))
    ensures var e := Cycle(c, FIRST_READ);
      var q := Run(c, w).(otherq := e.otherq, clk := |w| + 1);
      !ReadsPast(c, q, e.view) && !Overflows(c, q, e.view)
  {
    hide Shape, ViewOk, Strays, Taken, Run, Load, EnvsOk;
    var e := Cycle(c, FIRST_READ);
    var q := Run(c, w).(otherq := e.otherq, clk := |w| + 1);
    QueueShape(c, Run(c, w), q);
    CycleAsks(c, q, FIRST_READ);
    if SlotDue(c, q) {
      var k := |w| / c.interval;
      SlotOf(|w| + 1, c.interval, c.sas);
      DivModIs(c.banks, k, 0, k);
      forall r | 0 <= r < c.ranks ensures q.backlog[r][q.next[r]] >= 0 {
        NotYet(c, w, r);
      }
      WaitingLoad(c, q);
    }
  }

  lemma WaitingLoad(c: Config, q: State)
    requires Shape(c, q) && EnvOk(c, Cycle(c, FIRST_READ)) && Narrow(c)
    requires forall r :: 0 <= r < c.ranks ==> q.backlog[r][q.next[r]] >= 0
    ensures Load(c, q, Cycle(c, FIRST_READ).view) <= c.otherMax
  {
    hide Shape, ViewOk, Taken, Must;
    NoneMust(c, q, Cycle(c, FIRST_READ).view, c.ranks);
  }

  lemma QueueShape(c: Config, s: State, q: State)
    requires Shape(c, s) && q == s.(otherq := [], clk := q.clk)
    ensures Shape(c, q)
  {
  }

  /** Then the read is gone, and the slot of that bank is used. */
  function Straying(c: Config): seq<Env>
    requires ConfigOk(c)
  {
    MulSign(c.interval, c.sas + 1);
    Waiting(c, c.interval * (c.sas + 1) - 1) + [Cycle(c, [])]
  }

  lemma StrayingRun(c: Config)
    requires ConfigOk(c) && Narrow(c)
    ensures EnvsOk(c, Straying(c)) && Run(c, Straying(c)).wild
  {
    hide Shape, ViewOk, Strays, Taken, Overflows, InStep, Run;
    MulSign(c.interval, c.sas + 1);
    var n := c.interval * (c.sas + 1) - 1;
    var w, e := Waiting(c, n), Cycle(c, []);
    WaitingRun(c, n);
    CycleOk(c, []);
    TickAtRun(c, w, e);
    var q := Run(c, w).(otherq := e.otherq, clk := |w| + 1);
    CycleAsks(c, q, []);
    DivModIs(c.interval, n + 1, c.sas + 1, 0);
    DivModIs(c.interval, n, c.sas, c.interval - 1);
    DivModIs(c.banks, c.sas, 0, c.sas);
    if Must(c, q, e.view, 0) {
      MustFirst(c, q, e.view, c.ranks);
    }
  }

  /** MAIN: some run reads past the subarray counters if and only if there is a rank, a bank has no counter of its own,
      and the first slots do not already overflow the queue. */
  lemma StraysIff(c: Config)
    requires ConfigOk(c)
    ensures (exists envs :: EnvsOk(c, envs) && Run(c, envs).wild) <==> Narrow(c)
  {
    hide Run, EnvsOk;
    if Narrow(c) {
      StrayingRun(c);
      assert EnvsOk(c, Straying(c));
    } else {
      forall envs | EnvsOk(c, envs) ensures !Run(c, envs).wild {
        RunTame(c, envs);
      }
    }
  }

  /** Eight banks of four subarrays each, which the constructor of the standard accepts. */
  lemma FourSubarrays(ooo: bool, interval: int, otherMax: nat)
    requires interval > 0 && otherMax > 0
    ensures var c := Config(ooo, 1, 8, 4, interval, otherMax);
      EnvsOk(c, Straying(c)) && Run(c, Straying(c)).wild
  {
    StrayingRun(Config(ooo, 1, 8, 4, interval, otherMax));
  }

  /** A run in which the assertion fires: one place in the queue, another request in it, and a slot. */
  lemma OverflowRun()
    ensures var c := Config(false, 1, 8, 8, 1, 1);
      var e := Cycle(c, []).(otherq := [Other(false, 0, 0, 0)]);
      EnvsOk(c, [e]) && !Run(c, [e]).ok && !Run(c, [e]).wild
  {
    hide Shape, ViewOk, Strays, Taken, InStep, Run;
    var c := Config(false, 1, 8, 8, 1, 1);
    var e := Cycle(c, []).(otherq := [Other(false, 0, 0, 0)]);
    CycleOk(c, []);
    StartOk(c);
    TickAtRun(c, [], e);
    assert [] + [e] == [e];
    NoneAsking(c, Run(c, []).(otherq := e.otherq, clk := 1), e.view, 1);
  }
}
