/** The postpone / pull-in rule: at every clock each bank's backlog is exactly the refreshes issued to it less the
    slots that fell due for it, and it never leaves -7..8. */
module RefreshCredit {
  import opened Arith
  import opened RefreshModel

  /** Refreshes enqueued for one bank. */
  function Count(log: seq<Other>, r: int, b: int): nat {
    if |log| == 0 then 0
    else Count(log[..|log| - 1], r, b) + if log[|log| - 1].rank == r && log[|log| - 1].bank == b then 1 else 0
  }

  /** Bank b of rank r after k slots: its credit account is balanced and within the limits. */
  ghost predicate Balanced(c: Config, s: State, k: nat, r: int, b: int)
    requires Shape(c, s) && 0 <= r < c.ranks && 0 <= b < c.banks
  {
    && s.backlog[r][b] == Count(s.log, r, b) - Turns(k, c.banks, b)
    && (if c.ooo then -7 <= s.backlog[r][b] <= 8 else s.backlog[r][b] == 0)
    && (b < c.sas ==> s.sa[r][b] == Count(s.log, r, b) % c.sas)
  }

  ghost predicate RankBalanced(c: Config, s: State, k: nat, r: int)
    requires Shape(c, s) && 0 <= r < c.ranks
  {
    s.next[r] == k % c.banks && forall b :: 0 <= b < c.banks ==> Balanced(c, s, k, r, b)
  }

  /** Successive refreshes of a bank go to its subarrays in turn. */
  ghost predicate Rotates(c: Config, log: seq<Other>)
    requires c.sas > 0
  {
    forall i :: 0 <= i < |log| ==> TurnOf(c, log, i)
  }

  ghost predicate TurnOf(c: Config, log: seq<Other>, i: int)
    requires c.sas > 0 && 0 <= i < |log|
  {
    log[i].refresh && log[i].sa == Count(log[..i], log[i].rank, log[i].bank) % c.sas
  }

  lemma RotatesSnoc(c: Config, log: seq<Other>, e: Other)
    requires c.sas > 0 && Rotates(c, log) && e.refresh && e.sa == Count(log, e.rank, e.bank) % c.sas
    ensures Rotates(c, log + [e])
  {
    var l := log + [e];
    forall i | 0 <= i < |l| ensures TurnOf(c, l, i) {
      assert l[..i] == log[..i];
      if i < |log| {
        assert TurnOf(c, log, i);
      }
    }
  }

  /** What an issued refresh changes: one credit, one log entry, the subarray turn. */
  lemma IssueView(c: Config, s: State, r: int, b: int)
    requires Shape(c, s) && 0 <= r < c.ranks && 0 <= b < c.banks && b < c.sas && |s.otherq| < c.otherMax
    requires s.sa[r][b] == Count(s.log, r, b) % c.sas && Rotates(c, s.log)
    ensures var t := Issue(c, s, r, b);
      && t.next == s.next && t.clk == s.clk && t.refreshed == s.refreshed && t.wasWriting == s.wasWriting
      && t.ok == s.ok && t.wild == s.wild
      && Rotates(c, t.log) && |t.otherq| == |s.otherq| + 1 && AnyRefresh(t.otherq)
      && forall i, j :: 0 <= i < c.ranks && 0 <= j < c.banks ==>
           var d := if i == r && j == b then 1 else 0;
           && t.backlog[i][j] == s.backlog[i][j] + d && Count(t.log, i, j) == Count(s.log, i, j) + d
           && (j < c.sas ==> t.sa[i][j] == if i == r && j == b then Count(t.log, i, j) % c.sas else s.sa[i][j])
  {
    var t := Issue(c, s, r, b);
    var e := Other(true, r, b, s.sa[r][b]);
    assert t.log == s.log + [e] && t.log[..|s.log|] == s.log;
    assert t.otherq[|s.otherq|] == e;
    RotatesSnoc(c, s.log, e);
    ModNext(Count(s.log, r, b), c.sas);
  }

  /** Rank i's account is the same in both states. */
  ghost predicate RankSame(c: Config, s: State, t: State, i: int)
    requires Shape(c, s) && Shape(c, t) && 0 <= i < c.ranks
  {
    && t.next[i] == s.next[i]
    && forall j :: 0 <= j < c.banks ==>
         && t.backlog[i][j] == s.backlog[i][j] && Count(t.log, i, j) == Count(s.log, i, j)
         && (j < c.sas ==> t.sa[i][j] == s.sa[i][j])
  }

  lemma SameBalanced(c: Config, s: State, t: State, k: nat, i: int)
    requires Shape(c, s) && Shape(c, t) && 0 <= i < c.ranks && RankSame(c, s, t, i) && RankBalanced(c, s, k, i)
    ensures RankBalanced(c, t, k, i)
  {
    forall b | 0 <= b < c.banks ensures Balanced(c, t, k, i, b) {
      assert Balanced(c, s, k, i, b);
    }
  }

  /** Nothing but the ranks' accounts and the queue changes. */
  ghost predicate Frame(c: Config, s: State, t: State, r: int)
    requires Shape(c, s) && Shape(c, t)
  {
    && t.clk == s.clk && t.refreshed == s.refreshed && t.wasWriting == s.wasWriting && t.ok == s.ok && t.wild == s.wild
    && |t.otherq| >= |s.otherq|
    && forall i :: 0 <= i < c.ranks && i != r ==> RankSame(c, s, t, i)
  }

  /** A refresh ahead of its slot, where the credit allows it. */
  lemma AheadKeeps(c: Config, s: State, k: nat, r: int, b: int)
    requires Shape(c, s) && s.ok && c.ooo && 0 <= r < c.ranks && 0 <= b < c.banks && |s.otherq| < c.otherMax
    requires RankBalanced(c, s, k, r) && Rotates(c, s.log) && s.backlog[r][b] < BACKLOG_MAX
    ensures var t := Issue(c, s, r, b);
      t.ok ==> RankBalanced(c, t, k, r) && Rotates(c, t.log) && Frame(c, s, t, r)
  {
    assert Balanced(c, s, k, r, b);
    var t := Issue(c, s, r, b);
    if t.ok {
      IssueView(c, s, r, b);
      forall j | 0 <= j < c.banks ensures Balanced(c, t, k, r, j) {
        assert Balanced(c, s, k, r, j);
      }
    }
  }

  /** A due slot costs the next bank one credit. */
  lemma OweView(c: Config, s: State, r: int)
    requires Shape(c, s) && 0 <= r < c.ranks
    ensures var t := Owe(c, s, r);
      && t == s.(backlog := t.backlog, next := t.next) && t.next[r] == (s.next[r] + 1) % c.banks
      && (forall i :: 0 <= i < c.ranks && i != r ==> t.next[i] == s.next[i])
      && forall i, j :: 0 <= i < c.ranks && 0 <= j < c.banks ==>
           t.backlog[i][j] == s.backlog[i][j] - if i == r && j == s.next[r] then 1 else 0
  {
  }

  lemma DueBalanced(c: Config, s: State, t: State, k: nat, r: int, j: int, d: int)
    requires Shape(c, s) && Shape(c, t) && 0 <= r < c.ranks && 0 <= j < c.banks && Balanced(c, s, k, r, j)
    requires s.next[r] == k % c.banks && (d == 0 || (d == 1 && j == s.next[r]))
    requires t.backlog[r][j] == s.backlog[r][j] + d - if j == s.next[r] then 1 else 0
    requires d == 0 && c.ooo && j == s.next[r] ==> s.backlog[r][j] - 1 > BACKLOG_MIN
    requires !c.ooo && j == s.next[r] ==> d == 1
    requires Count(t.log, r, j) == Count(s.log, r, j) + d
    requires j < c.sas ==> t.sa[r][j] == if d == 1 then Count(t.log, r, j) % c.sas else s.sa[r][j]
    ensures Balanced(c, t, k + 1, r, j)
  {
  }

  /** A slot falls due, and is either used at once or, short of the limit, postponed. */
  lemma InjectRankKeeps(c: Config, s: State, v: View, k: nat, r: int)
    requires Shape(c, s) && s.ok && 0 <= r < c.ranks && RankBalanced(c, s, k, r) && Rotates(c, s.log)
    ensures var t := InjectRank(c, s, v, r);
      t.ok ==> RankBalanced(c, t, k + 1, r) && Rotates(c, t.log) && Frame(c, s, t, r)
  {
    hide Owe, Balanced, Rotates, Count, AnyRefresh;
    var b := s.next[r];
    var o, t := Owe(c, s, r), InjectRank(c, s, v, r);
    OweView(c, s, r);
    ModNext(k, c.banks);
    if t.ok {
      var used := MustRefresh(c, o, v, r, b);
      if used {
        assert Balanced(c, s, k, r, b);
        BalancedTurn(c, s, k, r, b);
        IssueView(c, o, r, b);
      }
      var k1 := k + 1;
      forall j | 0 <= j < c.banks ensures Balanced(c, t, k1, r, j) {
        assert Balanced(c, s, k, r, j);
        DueBalanced(c, s, t, k, r, j, if used && j == b then 1 else 0);
      }
    }
  }

  lemma BalancedTurn(c: Config, s: State, k: nat, r: int, b: int)
    requires Shape(c, s) && 0 <= r < c.ranks && 0 <= b < c.banks && b < c.sas && Balanced(c, s, k, r, b)
    ensures s.sa[r][b] == Count(s.log, r, b) % c.sas
  {
  }

  /** Rank r after k' slots if below n, else after k. */
  ghost predicate RankAt(c: Config, s: State, k: nat, k': nat, n: nat, r: int)
    requires Shape(c, s) && 0 <= r < c.ranks
  {
    RankBalanced(c, s, if r < n then k' else k, r)
  }

  ghost predicate Half(c: Config, s: State, k: nat, k': nat, n: nat)
    requires Shape(c, s)
  {
    Rotates(c, s.log) && forall r :: 0 <= r < c.ranks ==> RankAt(c, s, k, k', n, r)
  }

  ghost predicate Full(c: Config, s: State, k: nat)
    requires Shape(c, s)
  {
    Rotates(c, s.log) && forall r :: 0 <= r < c.ranks ==> RankBalanced(c, s, k, r)
  }

  lemma HalfFull(c: Config, s: State, k: nat, k': nat)
    requires Shape(c, s)
    ensures Half(c, s, k, k', 0) <==> Full(c, s, k)
    ensures Half(c, s, k, k', c.ranks) <==> Full(c, s, k')
  {
    if Full(c, s, k) {
      assert forall r :: 0 <= r < c.ranks ==> RankAt(c, s, k, k', 0, r);
    }
    if Full(c, s, k') {
      assert forall r :: 0 <= r < c.ranks ==> RankAt(c, s, k, k', c.ranks, r);
    }
    forall r | 0 <= r < c.ranks
      ensures RankAt(c, s, k, k', 0, r) <==> RankBalanced(c, s, k, r)
      ensures RankAt(c, s, k, k', c.ranks, r) <==> RankBalanced(c, s, k', r)
    {
    }
  }

  lemma HalfStep(c: Config, s: State, t: State, k: nat, k': nat, n: nat)
    requires Shape(c, s) && Shape(c, t) && n < c.ranks && Half(c, s, k, k', n)
    requires Frame(c, s, t, n) && Rotates(c, t.log) && RankBalanced(c, t, k', n)
    ensures Half(c, t, k, k', n + 1)
  {
    hide RankBalanced, RankSame, Rotates;
    var n1 := n + 1;
    forall r | 0 <= r < c.ranks ensures RankAt(c, t, k, k', n1, r) {
      assert RankAt(c, s, k, k', n, r);
      if r != n {
        SameBalanced(c, s, t, if r < n then k' else k, r);
      }
    }
  }

  lemma {:induction false} InjectKeeps(c: Config, s: State, v: View, k: nat, n: nat)
    requires Shape(c, s) && s.ok && n <= c.ranks && Half(c, s, k, k + 1, 0)
    ensures var t := Inject(c, s, v, n);
      t.ok ==> Half(c, t, k, k + 1, n) && t.clk == s.clk && t.refreshed == s.refreshed && t.wild == s.wild
    decreases n
  {
    hide RankBalanced, RankSame, Rotates, InjectRank;
    if n > 0 {
      InjectKeeps(c, s, v, k, n - 1);
      var m := Inject(c, s, v, n - 1);
      var t := InjectRank(c, m, v, n - 1);
      if !m.ok {
        InjectSticky(c, m, v, n - 1);
      } else {
        assert RankAt(c, m, k, k + 1, n - 1, n - 1);
        InjectRankKeeps(c, m, v, k, n - 1);
        if t.ok {
          HalfStep(c, m, t, k, k + 1, n - 1);
        }
      }
    }
  }

  lemma InjectSticky(c: Config, s: State, v: View, r: int)
    requires Shape(c, s) && 0 <= r < c.ranks && !s.ok
    ensures InjectRank(c, s, v, r) == s
  {
  }

  lemma AheadRankKeeps(c: Config, s: State, v: View, k: nat, r: int)
    requires Shape(c, s) && s.ok && ViewOk(c, v) && c.ooo && 0 <= r < c.ranks
    requires RankBalanced(c, s, k, r) && Rotates(c, s.log)
    ensures var t := AheadRank(c, s, v, r);
      t.ok ==> RankBalanced(c, t, k, r) && Rotates(c, t.log) && Frame(c, s, t, r)
  {
    hide RankBalanced, Rotates, ViewOk, PullFrom, WrpBank;
    var b := Pick(c, s, v, r);
    if b < c.banks && |s.otherq| < c.otherMax {
      AheadKeeps(c, s, k, r, b);
    }
  }

  lemma {:induction false} AheadRanksKeep(c: Config, s: State, v: View, k: nat, n: nat)
    requires Shape(c, s) && s.ok && ViewOk(c, v) && c.ooo && n <= c.ranks && Half(c, s, k, k, 0)
    ensures var t := AheadRanks(c, s, v, n);
      t.ok ==> Half(c, t, k, k, n) && t.clk == s.clk && t.refreshed == s.refreshed && t.wild == s.wild
    decreases n
  {
    hide RankBalanced, RankSame, Rotates, AheadRank, ViewOk;
    if n > 0 {
      AheadRanksKeep(c, s, v, k, n - 1);
      var m := AheadRanks(c, s, v, n - 1);
      if !m.ok {
        AheadSticky(c, m, v, n - 1);
      } else {
        assert RankAt(c, m, k, k, n - 1, n - 1);
        AheadRankKeeps(c, m, v, k, n - 1);
        if AheadRank(c, m, v, n - 1).ok {
          HalfStep(c, m, AheadRank(c, m, v, n - 1), k, k, n - 1);
        }
      }
    }
  }

  lemma AheadSticky(c: Config, s: State, v: View, r: int)
    requires Shape(c, s) && ViewOk(c, v) && 0 <= r < c.ranks && !s.ok
    ensures AheadRank(c, s, v, r) == s
  {
  }

  lemma SameFull(c: Config, s: State, t: State, k: nat)
    requires Shape(c, s) && Shape(c, t) && Full(c, s, k)
    requires t.next == s.next && t.backlog == s.backlog && t.sa == s.sa && t.log == s.log
    ensures Full(c, t, k)
  {
    forall r | 0 <= r < c.ranks ensures RankBalanced(c, t, k, r) {
      SameBalanced(c, s, t, k, r);
    }
  }

  lemma AheadFull(c: Config, s: State, v: View, k: nat)
    requires Shape(c, s) && s.ok && ViewOk(c, v) && Full(c, s, k)
    ensures var t := Ahead(c, s, v);
      t.ok ==> Full(c, t, k) && t.clk == s.clk && t.refreshed == s.refreshed && t.wild == s.wild
  {
    hide Full, Half, AheadRanks, ViewOk;
    if c.ooo {
      var s1 := if s.wasWriting && v.writeMode then s else AheadRanks(c, s, v, c.ranks);
      HalfFull(c, s, k, k);
      AheadRanksKeep(c, s, v, k, c.ranks);
      if s1.ok {
        HalfFull(c, s1, k, k);
        SameFull(c, s1, s1.(wasWriting := v.writeMode), k);
      }
    }
  }

  /** What holds between ticks. */
  ghost predicate Inv(c: Config, s: State) {
    && Shape(c, s) && s.ok && !s.wild && s.clk >= 0
    && s.refreshed == s.clk / c.interval * c.interval
    && Full(c, s, s.clk / c.interval)
  }

  /** The next slot begins exactly when the interval has run out. */
  lemma SlotBegins(clk: nat, interval: int)
    requires interval > 0
    ensures var was := clk / interval * interval;
      if clk + 1 - was >= interval
      then (clk + 1) / interval == clk / interval + 1 && (clk + 1) / interval * interval == clk + 1
      else (clk + 1) / interval == clk / interval
  {
    ModNext(clk, interval);
    assert clk == clk / interval * interval + clk % interval;
    if clk % interval == interval - 1 {
      assert (clk / interval + 1) * interval == clk / interval * interval + interval;
    }
  }

  lemma InitialInv(c: Config)
    requires ConfigOk(c)
    ensures Inv(c, Initial(c))
  {
    var s := Initial(c);
    DivModIs(c.interval, 0, 0, 0);
    DivModIs(c.banks, 0, 0, 0);
    DivModIs(c.sas, 0, 0, 0);
    forall r | 0 <= r < c.ranks ensures RankBalanced(c, s, 0, r) {
      assert forall b :: 0 <= b < c.banks ==> Balanced(c, s, 0, r, b);
    }
  }

  lemma ScheduleKeeps(c: Config, s: State, v: View, k: nat)
    requires Shape(c, s) && s.ok && Full(c, s, k)
    ensures var t := Schedule(c, s, v);
      t.ok ==> (t.clk == s.clk && t.wild == s.wild
                && if s.clk - s.refreshed >= c.interval then Full(c, t, k + 1) && t.refreshed == s.clk
                   else Full(c, t, k) && t.refreshed == s.refreshed)
  {
    hide Full, Half, Inject;
    if s.clk - s.refreshed >= c.interval {
      HalfFull(c, s, k, k + 1);
      InjectKeeps(c, s, v, k, c.ranks);
      var t := Inject(c, s, v, c.ranks);
      if t.ok {
        HalfFull(c, t, k, k + 1);
        SameFull(c, t, Schedule(c, s, v), k + 1);
      }
    }
  }

  lemma ScheduleSticky(c: Config, s: State, v: View)
    requires Shape(c, s) && !s.ok
    ensures Schedule(c, s, v) == s
  {
  }

  /** MAIN: a tick that does not fail keeps every account balanced and within the limits. */
  lemma TickKeeps(c: Config, s: State, v: View)
    requires Inv(c, s) && ViewOk(c, v)
    ensures var t := Tick(c, s, v);
      t.ok ==> Inv(c, t) && t.clk == s.clk + 1
  {
    hide Full, Ahead, Schedule, ViewOk;
    var k := s.clk / c.interval;
    var s1 := NextClock(c, s);
    SameFull(c, s, s1, k);
    AheadFull(c, s1, v, k);
    SlotBegins(s.clk, c.interval);
    if Ahead(c, s1, v).ok {
      ScheduleKeeps(c, Ahead(c, s1, v), v, k);
    } else {
      ScheduleSticky(c, Ahead(c, s1, v), v);
    }
  }
}
