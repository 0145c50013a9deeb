/** When the refresh scheduler fails: the assertion that enqueueing succeeded, and the subarray counters, which a rank
    has one of for each subarray but which are indexed by bank. */
module RefreshFailures {
  import opened Arith
  import opened RefreshCredit
  import opened RefreshModel

  /** The bank that rank r asks to refresh ahead of its slot on this tick; c.banks for none. */
  function Ask(c: Config, s: State, v: View, r: int): (b: int)
    requires Shape(c, s) && ViewOk(c, v) && 0 <= r < c.ranks
    ensures 0 <= b <= c.banks
  {
    if !c.ooo || (s.wasWriting && v.writeMode) then c.banks else Pick(c, s, v, r)
  }

  /** How many of the first n ranks ask. */
  function Asking(c: Config, s: State, v: View, n: nat): nat
    requires Shape(c, s) && ViewOk(c, v) && n <= c.ranks
  {
    if n == 0 then 0 else Asking(c, s, v, n - 1) + if Ask(c, s, v, n - 1) < c.banks then 1 else 0
  }

  function Room(c: Config, s: State): int {
    c.otherMax - |s.otherq|
  }

  /** Ranks are served in order while there is room. */
  predicate Granted(c: Config, s: State, v: View, r: int)
    requires Shape(c, s) && ViewOk(c, v) && 0 <= r < c.ranks
  {
    Ask(c, s, v, r) < c.banks && Asking(c, s, v, r) < Room(c, s)
  }

  function Gain(c: Config, s: State, v: View, r: int, b: int): int
    requires Shape(c, s) && ViewOk(c, v) && 0 <= r < c.ranks
  {
    if Granted(c, s, v, r) && Ask(c, s, v, r) == b then 1 else 0
  }

  /** A refresh ahead of its slot reads past the subarray counters. */
  ghost predicate Strays(c: Config, s: State, v: View, n: nat)
    requires Shape(c, s) && ViewOk(c, v) && n <= c.ranks
  {
    exists r :: 0 <= r < n && Granted(c, s, v, r) && Ask(c, s, v, r) >= c.sas
  }

  /** Queue entries taken by refreshes ahead of their slots. */
  function Taken(c: Config, s: State, v: View, n: nat): nat
    requires Shape(c, s) && ViewOk(c, v) && n <= c.ranks
  {
    Min(Asking(c, s, v, n), Room(c, s))
  }

  lemma {:induction false} PullSame(c: Config, s: State, t: State, v: View, r: int, start: nat, i: nat)
    requires Shape(c, s) && Shape(c, t) && 0 <= r < c.ranks && i <= c.banks
    requires t.backlog[r] == s.backlog[r]
    requires forall b :: 0 <= b < c.banks ==> BankRefresh(t.otherq, r, b) == BankRefresh(s.otherq, r, b)
    ensures PullFrom(c, t, v, r, start, i) == PullFrom(c, s, v, r, start, i)
    decreases c.banks - i
  {
    hide BankRefresh;
    if i < c.banks {
      PullSame(c, s, t, v, r, start, i + 1);
    }
  }

  /** New refreshes for other ranks do not concern a rank. */
  ghost predicate NewFor(was: seq<Other>, now: seq<Other>, n: nat) {
    was <= now && forall i :: |was| <= i < |now| ==> now[i].refresh && now[i].rank < n
  }

  lemma NewSame(was: seq<Other>, now: seq<Other>, r: nat)
    requires NewFor(was, now, r)
    ensures RankRefresh(now, r) == RankRefresh(was, r)
    ensures forall b :: BankRefresh(now, r, b) == BankRefresh(was, r, b)
  {
    forall i | 0 <= i < |was| ensures now[i] == was[i] {
    }
    if RankRefresh(was, r) {
      var i :| 0 <= i < |was| && was[i].refresh && was[i].rank == r;
      assert now[i].rank == r;
    }
    forall b ensures BankRefresh(now, r, b) == BankRefresh(was, r, b) {
      if BankRefresh(was, r, b) {
        var i :| 0 <= i < |was| && was[i].refresh && was[i].rank == r && was[i].bank == b;
        assert now[i].rank == r;
      }
    }
  }

  lemma PickSame(c: Config, s: State, t: State, v: View, r: int)
    requires Shape(c, s) && Shape(c, t) && ViewOk(c, v) && 0 <= r < c.ranks
    requires t.backlog[r] == s.backlog[r] && NewFor(s.otherq, t.otherq, r)
    ensures Pick(c, t, v, r) == Pick(c, s, v, r)
  {
    hide BankRefresh, RankRefresh, RankDemand, WrpBank, PullFrom;
    assert Sorted(c, v, r, v.order[r]);
    NewSame(s.otherq, t.otherq, r);
    PullSame(c, s, t, v, r, v.earlyDraws[r] % c.banks, 0);
  }

  /** What the first n ranks' refreshes ahead of their slots change, if none strays. */
  ghost predicate AheadView(c: Config, s: State, t: State, v: View, n: nat)
    requires Shape(c, s) && Shape(c, t) && ViewOk(c, v) && n <= c.ranks
  {
    && t.next == s.next && t.clk == s.clk && t.refreshed == s.refreshed && t.wasWriting == s.wasWriting && !t.wild
    && NewFor(s.otherq, t.otherq, n) && |t.otherq| == |s.otherq| + Taken(c, s, v, n)
    && forall i, b :: 0 <= i < c.ranks && 0 <= b < c.banks ==>
         t.backlog[i][b] == s.backlog[i][b] + if i < n then Gain(c, s, v, i, b) else 0
  }

  lemma IssueChange(c: Config, s: State, r: int, b: int)
    requires Shape(c, s) && 0 <= r < c.ranks && 0 <= b < c.banks && b < c.sas && |s.otherq| < c.otherMax
    ensures var t := Issue(c, s, r, b);
      && t.next == s.next && t.clk == s.clk && t.refreshed == s.refreshed && t.wasWriting == s.wasWriting
      && t.ok == s.ok && t.wild == s.wild && t.otherq == s.otherq + [Other(true, r, b, s.sa[r][b])]
      && forall i, j :: 0 <= i < c.ranks && 0 <= j < c.banks ==>
           t.backlog[i][j] == s.backlog[i][j] + if i == r && j == b then 1 else 0
  {
  }

  lemma NewSnoc(was: seq<Other>, now: seq<Other>, n: nat, e: Other)
    requires NewFor(was, now, n) && e.refresh && e.rank <= n
    ensures NewFor(was, now, n + 1) && NewFor(was, now + [e], n + 1)
  {
  }

  /** One more rank, after n of them. */
  lemma AheadRankView(c: Config, s: State, m: State, v: View, n: nat)
    requires Shape(c, s) && Shape(c, m) && ViewOk(c, v) && n < c.ranks && m.ok && AheadView(c, s, m, v, n)
    requires c.ooo && !(s.wasWriting && v.writeMode)
    ensures var t := AheadRank(c, m, v, n);
      && (t.wild <==> Granted(c, s, v, n) && Ask(c, s, v, n) >= c.sas)
      && (t.ok <==> !t.wild) && (t.ok ==> AheadView(c, s, t, v, n + 1))
  {
    hide Pick, ViewOk, NewFor, Issue;
    var t := AheadRank(c, m, v, n);
    assert m.backlog[n] == s.backlog[n];
    PickSame(c, s, m, v, n);
    var b := Pick(c, s, v, n);
    NewSnoc(s.otherq, m.otherq, n, Other(true, n, b, 0));
    if Granted(c, s, v, n) {
      if b >= c.sas {
        IssueStrays(c, m, n, b);
      } else {
        IssueChange(c, m, n, b);
        NewSnoc(s.otherq, m.otherq, n, Other(true, n, b, m.sa[n][b]));
      }
    }
  }

  lemma IssueStrays(c: Config, s: State, r: int, b: int)
    requires Shape(c, s) && 0 <= r < c.ranks && 0 <= b < c.banks && b >= c.sas
    ensures Issue(c, s, r, b) == s.(ok := false, wild := true)
  {
  }

  lemma {:induction false} AheadRanksView(c: Config, s: State, v: View, n: nat)
    requires Shape(c, s) && ViewOk(c, v) && n <= c.ranks && s.ok && !s.wild
    requires c.ooo && !(s.wasWriting && v.writeMode)
    ensures var t := AheadRanks(c, s, v, n);
      && (t.wild <==> Strays(c, s, v, n)) && (t.ok <==> !t.wild) && (t.ok ==> AheadView(c, s, t, v, n))
    decreases n
  {
    hide AheadRank, AheadView, Ask, ViewOk, Shape;
    if n == 0 {
      AheadNone(c, s, v);
    } else {
      AheadRanksView(c, s, v, n - 1);
      var m := AheadRanks(c, s, v, n - 1);
      if m.ok {
        AheadRankView(c, s, m, v, n - 1);
      } else {
        AheadSticky(c, m, v, n - 1);
      }
    }
  }

  lemma AheadNone(c: Config, s: State, v: View)
    requires Shape(c, s) && ViewOk(c, v) && !s.wild
    ensures AheadView(c, s, s, v, 0)
  {
  }

  /** A rank that does not ask gains nothing. */
  lemma {:induction false} NoneAsking(c: Config, s: State, v: View, n: nat)
    requires Shape(c, s) && ViewOk(c, v) && n <= c.ranks
    requires forall r :: 0 <= r < n ==> Ask(c, s, v, r) == c.banks
    ensures Asking(c, s, v, n) == 0 && Taken(c, s, v, n) == 0 && !Strays(c, s, v, n)
    decreases n
  {
    hide Ask;
    if n > 0 {
      NoneAsking(c, s, v, n - 1);
    }
  }

  /** MAIN: the refreshes ahead of their slots: how many, for which banks, and when one strays. */
  lemma AheadExact(c: Config, s: State, v: View)
    requires Shape(c, s) && ViewOk(c, v) && s.ok && !s.wild
    ensures var t := Ahead(c, s, v);
      && (t.wild <==> Strays(c, s, v, c.ranks)) && (t.ok <==> !t.wild)
      && (t.ok ==> AheadView(c, s, t.(wasWriting := s.wasWriting), v, c.ranks))
  {
    hide AheadRanks, ViewOk, Taken, Strays;
    if c.ooo && !(s.wasWriting && v.writeMode) {
      AheadRanksView(c, s, v, c.ranks);
    } else {
      NoneAsking(c, s, v, c.ranks);
    }
  }

  /** The slot of rank r, whose bank is at `credit`, cannot be postponed any further. */
  predicate Forced(c: Config, s: State, r: int)
    requires Shape(c, s) && 0 <= r < c.ranks
  {
    s.backlog[r][s.next[r]] - 1 <= BACKLOG_MIN
  }

  function ForcedRanks(c: Config, s: State, n: nat): nat
    requires Shape(c, s) && n <= c.ranks
  {
    if n == 0 then 0 else ForcedRanks(c, s, n - 1) + if Forced(c, s, n - 1) then 1 else 0
  }

  predicate Quiet(s: State, v: View) {
    !AnyRefresh(s.otherq) && |v.readq| == 0
  }

  /** Refreshes the first n ranks' slots are used for at once: all of them in order; out of order the forced ones, and
      rank 0's when nothing is waiting (its refresh then counts as pending for the other ranks). */
  function Needed(c: Config, s: State, v: View, n: nat): nat
    requires Shape(c, s) && n <= c.ranks
  {
    if !c.ooo then n
    else ForcedRanks(c, s, n) + if n > 0 && Quiet(s, v) && !Forced(c, s, 0) then 1 else 0
  }

  /** Ranks from n on are as they were. */
  ghost predicate Untouched(c: Config, s: State, t: State, n: nat)
    requires Shape(c, s) && Shape(c, t)
  {
    forall r :: n <= r < c.ranks ==> t.next[r] == s.next[r] && t.backlog[r] == s.backlog[r]
  }

  /** All ranks from n on have come to the same bank. */
  ghost predicate InStep(c: Config, s: State, n: nat, b: int)
    requires Shape(c, s)
  {
    forall r :: n <= r < c.ranks ==> s.next[r] == b
  }

  lemma InjectRankRoom(c: Config, s: State, v: View, r: int)
    requires Shape(c, s) && s.ok && !s.wild && 0 <= r < c.ranks
    ensures var t := InjectRank(c, s, v, r);
      var d := if !c.ooo || Quiet(s, v) || Forced(c, s, r) then 1 else 0;
      && (t.wild <==> d == 1 && s.next[r] >= c.sas)
      && (t.ok <==> !t.wild && |s.otherq| + d <= c.otherMax)
      && (t.ok ==> (|t.otherq| == |s.otherq| + d && (AnyRefresh(t.otherq) <==> AnyRefresh(s.otherq) || d == 1)
                    && Untouched(c, s, t, r + 1)))
  {
    var t := InjectRank(c, s, v, r);
    if t.ok && |t.otherq| > |s.otherq| {
      assert t.otherq[|s.otherq|].refresh;
    }
  }

  lemma {:induction false} ForcedFirst(c: Config, s: State, n: nat)
    requires Shape(c, s) && 0 < n <= c.ranks && Forced(c, s, 0)
    ensures ForcedRanks(c, s, n) > 0
    decreases n
  {
    if n > 1 {
      ForcedFirst(c, s, n - 1);
    }
  }

  lemma ForcedSame(c: Config, s: State, t: State, n: nat)
    requires Shape(c, s) && Shape(c, t) && n < c.ranks && Untouched(c, s, t, n)
    ensures Forced(c, t, n) <==> Forced(c, s, n)
  {
  }

  lemma NeededNone(c: Config, s: State, v: View)
    requires Shape(c, s)
    ensures Needed(c, s, v, 0) == 0
  {
  }

  lemma NeededStep(c: Config, s: State, v: View, n: nat)
    requires Shape(c, s) && n < c.ranks
    ensures Needed(c, s, v, n + 1) == Needed(c, s, v, n)
      + if !c.ooo || (Quiet(s, v) && Needed(c, s, v, n) == 0) || Forced(c, s, n) then 1 else 0
  {
    if n > 0 && Forced(c, s, 0) {
      ForcedFirst(c, s, n);
    }
  }

  /** MAIN: a slot at bank b over the first n ranks strays when it is used for a refresh and b has no counter, and else
      fails when the queue has no room for its refreshes. */
  lemma {:induction false} InjectRoom(c: Config, s: State, v: View, n: nat, b: int)
    requires Shape(c, s) && s.ok && !s.wild && n <= c.ranks && InStep(c, s, 0, b)
    ensures var t, need := Inject(c, s, v, n), Needed(c, s, v, n);
      && (t.wild <==> b >= c.sas && need > 0)
      && (t.ok <==> !t.wild && |s.otherq| + need <= c.otherMax)
      && (t.ok ==> (|t.otherq| == |s.otherq| + need && Untouched(c, s, t, n)
                    && (AnyRefresh(t.otherq) <==> AnyRefresh(s.otherq) || need > 0)))
    decreases n
  {
    hide InjectRank, Needed, Forced, AnyRefresh;
    if n == 0 {
      NeededNone(c, s, v);
    } else {
      NeededStep(c, s, v, n - 1);
      InjectRoom(c, s, v, n - 1, b);
      var m := Inject(c, s, v, n - 1);
      if m.ok {
        InjectRankRoom(c, m, v, n - 1);
        ForcedSame(c, s, m, n - 1);
      } else {
        InjectSticky(c, m, v, n - 1);
      }
    }
  }

  /** The same as `Forced`, seen from before the refreshes ahead of their slots. */
  predicate Must(c: Config, s: State, v: View, r: int)
    requires Shape(c, s) && ViewOk(c, v) && 0 <= r < c.ranks
  {
    s.backlog[r][s.next[r]] + Gain(c, s, v, r, s.next[r]) - 1 <= BACKLOG_MIN
  }

  function MustRanks(c: Config, s: State, v: View, n: nat): nat
    requires Shape(c, s) && ViewOk(c, v) && n <= c.ranks
  {
    if n == 0 then 0 else MustRanks(c, s, v, n - 1) + if Must(c, s, v, n - 1) then 1 else 0
  }

  /** Refreshes that a slot falling due on this tick is used for. */
  function Load(c: Config, s: State, v: View): nat
    requires Shape(c, s) && ViewOk(c, v)
  {
    if !c.ooo then c.ranks
    else
      var idle := c.ranks > 0 && Quiet(s, v) && Taken(c, s, v, c.ranks) == 0 && !Must(c, s, v, 0);
      MustRanks(c, s, v, c.ranks) + if idle then 1 else 0
  }

  lemma MustSame(c: Config, s: State, t: State, v: View, r: int)
    requires Shape(c, s) && Shape(c, t) && ViewOk(c, v) && 0 <= r < c.ranks && AheadView(c, s, t, v, c.ranks)
    ensures Forced(c, t, r) == Must(c, s, v, r)
  {
    hide Gain;
  }

  lemma {:induction false} MustCount(c: Config, s: State, t: State, v: View, n: nat)
    requires Shape(c, s) && Shape(c, t) && ViewOk(c, v) && n <= c.ranks && AheadView(c, s, t, v, c.ranks)
    ensures ForcedRanks(c, t, n) == MustRanks(c, s, v, n)
    decreases n
  {
    hide AheadView, Forced, Must, Shape, ViewOk;
    if n > 0 {
      MustSame(c, s, t, v, n - 1);
      MustCount(c, s, t, v, n - 1);
    }
  }

  lemma NewQuiet(was: seq<Other>, now: seq<Other>, n: nat)
    requires NewFor(was, now, n)
    ensures AnyRefresh(now) <==> AnyRefresh(was) || |now| > |was|
  {
    if AnyRefresh(was) {
      var i :| 0 <= i < |was| && was[i].refresh;
      assert now[i] == was[i];
    }
    if |now| > |was| {
      assert now[|was|].refresh;
    }
    forall i | 0 <= i < |was| ensures now[i] == was[i] {
    }
  }

  lemma LoadExact(c: Config, s: State, t: State, v: View)
    requires Shape(c, s) && Shape(c, t) && ViewOk(c, v) && AheadView(c, s, t, v, c.ranks)
    ensures Needed(c, t, v, c.ranks) == Load(c, s, v)
  {
    hide Forced, Must, Shape, ViewOk, AnyRefresh, NewFor, Taken, Gain;
    MustCount(c, s, t, v, c.ranks);
    NewQuiet(s.otherq, t.otherq, c.ranks);
    if c.ranks > 0 {
      MustSame(c, s, t, v, 0);
    }
  }

  /** A slot falls due as the clock reaches s.clk, for this bank of every rank. */
  predicate SlotDue(c: Config, s: State)
    requires ConfigOk(c)
  {
    s.clk % c.interval == 0
  }

  function SlotBank(c: Config, s: State): int
    requires ConfigOk(c)
  {
    (s.clk - 1) / c.interval % c.banks
  }

  /** A counter is read that is not there. */
  ghost predicate ReadsPast(c: Config, s: State, v: View)
    requires Shape(c, s) && ViewOk(c, v)
  {
    Strays(c, s, v, c.ranks) || (SlotDue(c, s) && SlotBank(c, s) >= c.sas && Load(c, s, v) > 0)
  }

  /** The queue has no room for the refreshes of a slot. */
  ghost predicate Overflows(c: Config, s: State, v: View)
    requires Shape(c, s) && ViewOk(c, v)
  {
    SlotDue(c, s) && |s.otherq| + Taken(c, s, v, c.ranks) + Load(c, s, v) > c.otherMax
  }

  lemma SlotFails(c: Config, s: State, a: State, v: View)
    requires Shape(c, s) && Shape(c, a) && ViewOk(c, v)
    requires a.ok && AheadView(c, s, a.(wasWriting := s.wasWriting), v, c.ranks)
    requires InStep(c, s, 0, SlotBank(c, s)) && (s.clk - s.refreshed >= c.interval <==> SlotDue(c, s))
    ensures var t := Schedule(c, a, v);
      && (t.wild <==> SlotDue(c, s) && SlotBank(c, s) >= c.sas && Load(c, s, v) > 0)
      && (t.ok <==> !t.wild && !Overflows(c, s, v))
  {
    hide ViewOk, Inject, Needed, Load, Taken, Shape, Forced, Must, NewFor, SlotDue, SlotBank, InStep;
    var a1 := a.(wasWriting := s.wasWriting);
    ModeShape(c, a, s.wasWriting);
    LoadExact(c, s, a1, v);
    NeededSame(c, a, a1, v, c.ranks);
    StepSame(c, s, a, SlotBank(c, s));
    InjectRoom(c, a, v, c.ranks, SlotBank(c, s));
    OtherRoom(c, a);
  }

  lemma ModeShape(c: Config, s: State, writing: bool)
    requires Shape(c, s)
    ensures ConfigOk(c) && Shape(c, s.(wasWriting := writing))
  {
  }

  lemma OtherRoom(c: Config, s: State)
    requires Shape(c, s)
    ensures |s.otherq| <= c.otherMax
  {
  }

  lemma StepSame(c: Config, s: State, t: State, b: int)
    requires Shape(c, s) && Shape(c, t) && t.next == s.next && InStep(c, s, 0, b)
    ensures InStep(c, t, 0, b)
  {
  }

  lemma {:induction false} NeededSame(c: Config, s: State, t: State, v: View, n: nat)
    requires Shape(c, s) && Shape(c, t) && n <= c.ranks
    requires t.next == s.next && t.backlog == s.backlog && t.otherq == s.otherq
    ensures ForcedRanks(c, t, n) == ForcedRanks(c, s, n) && Needed(c, t, v, n) == Needed(c, s, v, n)
    decreases n
  {
    hide Shape, AnyRefresh;
    if n > 0 {
      NeededSame(c, s, t, v, n - 1);
    }
  }

  /** MAIN: exactly when a tick fails, and how: it reads a counter past the end when a refresh ahead of its slot or a
      slot that is used is for a bank without one; otherwise the assertion fires when a slot falls due and the queue has
      no room for its refreshes. */
  lemma TickFails(c: Config, s: State, v: View)
    requires Inv(c, s) && ViewOk(c, v)
    ensures var t, s1 := Tick(c, s, v), NextClock(c, s);
      (t.wild <==> ReadsPast(c, s1, v)) && (t.ok <==> !ReadsPast(c, s1, v) && !Overflows(c, s1, v))
  {
    hide Full, Ahead, Schedule, ViewOk, Strays, Load, Taken, AheadView;
    var s1 := NextClock(c, s);
    var a := Ahead(c, s1, v);
    ClockStep(c, s);
    AheadExact(c, s1, v);
    if a.ok {
      SlotFails(c, s1, a, v);
    } else {
      ScheduleSticky(c, a, v);
    }
  }

  /** The slot counters after the clock has moved on. */
  lemma ClockStep(c: Config, s: State)
    requires Inv(c, s)
    ensures var s1 := NextClock(c, s);
      InStep(c, s1, 0, SlotBank(c, s1)) && (s1.clk - s1.refreshed >= c.interval <==> SlotDue(c, s1))
  {
    hide Full, Shape;
    ModeShape(c, s, s.wasWriting);
    DueClock(s.clk, c.interval);
    FullInStep(c, s, s.clk / c.interval);
  }

  lemma DueClock(clk: nat, interval: int)
    requires interval > 0
    ensures clk + 1 - clk / interval * interval >= interval <==> (clk + 1) % interval == 0
  {
    ModNext(clk, interval);
    assert clk == clk / interval * interval + clk % interval;
  }

  lemma FullInStep(c: Config, s: State, k: nat)
    requires Shape(c, s) && Full(c, s, k)
    ensures InStep(c, s, 0, k % c.banks) && InStep(c, NextClock(c, s), 0, k % c.banks)
  {
    hide Balanced, Rotates;
    forall r | 0 <= r < c.ranks ensures s.next[r] == k % c.banks {
      assert RankBalanced(c, s, k, r);
    }
  }
}
