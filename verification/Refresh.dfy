/** The refresh scheduler as an object beside its controller, updated in place on every tick. */
module Refresh {
  import opened Arith
  import opened M = RefreshModel
  import F = RefreshFailures
  import K = RefreshCredit

  /** The controller's queues, as far as the scheduler sees them. */
  class Controller {
    var readq: seq<Target>
    var writeq: seq<Target>
    var otherq: seq<Other>
    var writeMode: bool
    const otherMax: nat

    constructor (otherMax: nat)
      ensures this.otherMax == otherMax && readq == [] && writeq == [] && otherq == [] && !writeMode
    {
      this.otherMax := otherMax;
      readq, writeq, otherq, writeMode := [], [], [], false;
    }

    method Enqueue(req: Other) returns (ok: bool)
      modifies this`otherq
      ensures ok <==> |old(otherq)| != otherMax
      ensures otherq == if ok then old(otherq) + [req] else old(otherq)
    {
      if |otherq| == otherMax {
        return false;
      }
      otherq := otherq + [req];
      ok := true;
    }
  }

  /** Where `is_bank_occupied` keeps a bank. */
  function Cell(c: Config, r: int, b: int): int {
    c.banks * r + b
  }

  lemma CellRange(c: Config, r: int, b: int)
    requires 0 <= r < c.ranks && 0 <= b < c.banks
    ensures 0 <= Cell(c, r, b) < c.ranks * c.banks
  {
    var d := c.ranks - 1 - r;
    assert c.banks * c.ranks == c.banks * r + c.banks * d + c.banks by {
      assert c.ranks == r + d + 1;
    }
    assert c.banks * d >= 0 && c.banks * r >= 0;
  }

  lemma CellOnce(c: Config, r: int, b: int, r': int, b': int)
    requires 0 <= b < c.banks && 0 <= b' < c.banks && Cell(c, r, b) == Cell(c, r', b')
    ensures r == r' && b == b'
  {
    DivModIs(c.banks, Cell(c, r, b), r, b);
    DivModIs(c.banks, Cell(c, r', b'), r', b');
  }

  /** The array says of every bank whether a read waits for it. */
  ghost predicate OccupiedAt(c: Config, occupied: seq<bool>, q: seq<Target>, r: int, b: int) {
    0 <= Cell(c, r, b) < |occupied| && (occupied[Cell(c, r, b)] <==> Target(r, b) in q)
  }

  ghost predicate Marks(c: Config, occupied: seq<bool>, q: seq<Target>) {
    forall r, b :: 0 <= r < c.ranks && 0 <= b < c.banks ==> OccupiedAt(c, occupied, q, r, b)
  }

  lemma MarkStep(c: Config, was: seq<bool>, now: seq<bool>, q: seq<Target>, t: Target)
    requires Marks(c, was, q) && 0 <= t.rank < c.ranks && 0 <= t.bank < c.banks
    requires 0 <= Cell(c, t.rank, t.bank) < |was| && now == was[Cell(c, t.rank, t.bank) := true]
    ensures Marks(c, now, q + [t])
  {
    forall r, b | 0 <= r < c.ranks && 0 <= b < c.banks ensures OccupiedAt(c, now, q + [t], r, b) {
      assert OccupiedAt(c, was, q, r, b);
      if Cell(c, r, b) == Cell(c, t.rank, t.bank) {
        CellOnce(c, r, b, t.rank, t.bank);
      }
    }
  }

  /** Once a rank has failed, nothing more happens. */
  lemma {:induction false} InjectFails(c: Config, s: State, v: View, i: nat, n: nat)
    requires Shape(c, s) && i <= n <= c.ranks && !Inject(c, s, v, i).ok
    ensures !Inject(c, s, v, n).ok
    decreases n
  {
    hide M.InjectRank;
    if i < n {
      InjectFails(c, s, v, i, n - 1);
      K.InjectSticky(c, M.Inject(c, s, v, n - 1), v, n - 1);
    }
  }

  lemma {:induction false} AheadFails(c: Config, s: State, v: View, i: nat, n: nat)
    requires Shape(c, s) && ViewOk(c, v) && i <= n <= c.ranks && !AheadRanks(c, s, v, i).ok
    ensures !AheadRanks(c, s, v, n).ok
    decreases n
  {
    hide AheadRank, ViewOk;
    if i < n {
      AheadFails(c, s, v, i, n - 1);
      K.AheadSticky(c, AheadRanks(c, s, v, n - 1), v, n - 1);
    }
  }

  lemma ModeRank(c: Config, s: State, v: View, r: int)
    requires Shape(c, s) && ViewOk(c, v) && 0 <= r < c.ranks
    ensures Shape(c, s.(wasWriting := false))
    ensures AheadRank(c, s.(wasWriting := false), v, r) == AheadRank(c, s, v, r).(wasWriting := false)
  {
    hide ViewOk, Pick;
    F.PickSame(c, s, s.(wasWriting := false), v, r);
  }

  /** In read mode the recorded write mode does not matter to the refreshes ahead of their slots. */
  lemma {:induction false} ModeFirst(c: Config, s: State, v: View, n: nat)
    requires Shape(c, s) && ViewOk(c, v) && !v.writeMode && n <= c.ranks
    ensures Shape(c, s.(wasWriting := false))
    ensures AheadRanks(c, s.(wasWriting := false), v, n) == AheadRanks(c, s, v, n).(wasWriting := false)
    decreases n
  {
    hide ViewOk, AheadRank;
    if n > 0 {
      ModeFirst(c, s, v, n - 1);
      var m := AheadRanks(c, s, v, n - 1);
      ModeRank(c, m, v, n - 1);
    }
  }

  class RefreshScheduler {
    const c: Config
    const ctrl: Controller
    var clk: int
    var refreshed: int
    var bankRefCounters: seq<int>
    var backlog: seq<seq<int>>
    var subarrayRefCounters: seq<seq<int>>
    var ctrlWriteMode: bool
    ghost var log: seq<Other>

    ghost function State(): M.State
      reads this, ctrl
    {
      M.State(clk, refreshed, bankRefCounters, backlog, subarrayRefCounters, ctrlWriteMode, ctrl.otherq, log,
              true, false)
    }

    ghost predicate Ready()
      reads this, ctrl
    {
      Shape(c, State()) && ctrl.otherMax == c.otherMax
    }

    /** The tick's view is what the controller's queues show. */
    ghost predicate Sees(v: View)
      reads ctrl
    {
      ViewOk(c, v) && v.readq == ctrl.readq && v.writeq == ctrl.writeq && v.writeMode == ctrl.writeMode
    }

    constructor (c: Config, ctrl: Controller)
      requires ConfigOk(c) && ctrl.otherMax == c.otherMax && ctrl.otherq == []
      ensures this.c == c && this.ctrl == ctrl && Ready() && State() == Initial(c) && K.Inv(c, State())
    {
      this.c, this.ctrl := c, ctrl;
      clk, refreshed, ctrlWriteMode, log := 0, 0, false, [];
      bankRefCounters := seq(c.ranks, _ => 0);
      backlog := seq(c.ranks, _ => seq(c.banks, _ => 0));
      subarrayRefCounters := seq(c.ranks, _ => seq(c.sas, _ => 0));
      new;
      K.InitialInv(c);
    }

    /** What a call that answers `ok` has done: all of t, or t has failed. */
    ghost predicate Does(ok: bool, t: M.State)
      reads this, ctrl
    {
      ok == t.ok && (ok ==> State() == t)
    }

    /** `refresh_target` and the credit that every caller books after it; false when the queue refuses, or when there is
        no counter to read. */
    method RefreshBank(r: int, b: int) returns (ok: bool)
      requires Ready() && 0 <= r < c.ranks && 0 <= b < c.banks
      modifies this`backlog, this`subarrayRefCounters, this`log, ctrl`otherq
      ensures Ready() && Does(ok, Issue(c, old(State()), r, b))
    {
      if b >= |subarrayRefCounters[r]| {
        return false;
      }
      var req := Other(true, r, b, subarrayRefCounters[r][b]);
      ok := ctrl.Enqueue(req);
      if ok {
        log := log + [req];
        backlog := backlog[r := backlog[r][b := backlog[r][b] + 1]];
        var turn := (subarrayRefCounters[r][b] + 1) % c.sas;
        subarrayRefCounters := subarrayRefCounters[r := subarrayRefCounters[r][b := turn]];
      }
    }

    /** Any refresh waiting: for the whole channel, for a rank, for a bank. */
    method PendingAny() returns (p: bool)
      ensures p == AnyRefresh(ctrl.otherq)
    {
      for i := 0 to |ctrl.otherq|
        invariant !AnyRefresh(ctrl.otherq[..i])
      {
        if ctrl.otherq[i].refresh {
          return true;
        }
        assert ctrl.otherq[..i + 1] == ctrl.otherq[..i] + [ctrl.otherq[i]];
      }
      assert ctrl.otherq[..|ctrl.otherq|] == ctrl.otherq;
      return false;
    }

    method PendingRank(r: int) returns (p: bool)
      ensures p == RankRefresh(ctrl.otherq, r)
    {
      for i := 0 to |ctrl.otherq|
        invariant forall j :: 0 <= j < i ==> !(ctrl.otherq[j].refresh && ctrl.otherq[j].rank == r)
      {
        if ctrl.otherq[i].refresh && ctrl.otherq[i].rank == r {
          return true;
        }
      }
      return false;
    }

    method PendingBank(r: int, b: int) returns (p: bool)
      ensures p == BankRefresh(ctrl.otherq, r, b)
    {
      p := false;
      for i := 0 to |ctrl.otherq|
        invariant p ==> BankRefresh(ctrl.otherq, r, b)
        invariant !p ==> forall j :: 0 <= j < i ==> !(ctrl.otherq[j].refresh && ctrl.otherq[j].rank == r
                                                      && ctrl.otherq[j].bank == b)
      {
        if ctrl.otherq[i].refresh && ctrl.otherq[i].rank == r && ctrl.otherq[i].bank == b {
          p := true;
        }
      }
    }

    method InjectRank(v: View, r: int) returns (ok: bool)
      requires Ready() && Sees(v) && 0 <= r < c.ranks
      modifies this`backlog, this`subarrayRefCounters, this`log, this`bankRefCounters, ctrl`otherq
      ensures Ready() && Does(ok, M.InjectRank(c, old(State()), v, r))
    {
      var bid := bankRefCounters[r];
      backlog := backlog[r := backlog[r][bid := backlog[r][bid] - 1]];
      bankRefCounters := bankRefCounters[r := (bankRefCounters[r] + 1) % c.banks];
      assert State() == Owe(c, old(State()), r);
      if c.ooo {
        var refNow := false;
        var pending := PendingAny();
        if !pending && |ctrl.readq| == 0 {
          refNow := true;
        }
        if backlog[r][bid] <= BACKLOG_MIN {
          refNow := true;
        }
        if !refNow {
          return true;
        }
      }
      ok := RefreshBank(r, bid);
    }

    method InjectRefresh(v: View) returns (ok: bool)
      requires Ready() && Sees(v)
      modifies this`backlog, this`subarrayRefCounters, this`log, this`bankRefCounters, this`refreshed, ctrl`otherq
      ensures Ready() && Does(ok, M.Inject(c, old(State()), v, c.ranks).(refreshed := clk))
    {
      hide M.InjectRank, ViewOk;
      ghost var s := State();
      for r := 0 to c.ranks
        invariant Ready() && Sees(v) && refreshed == old(refreshed)
        invariant State() == Inject(c, s, v, r)
      {
        ok := InjectRank(v, r);
        if !ok {
          InjectFails(c, s, v, r + 1, c.ranks);
          return false;
        }
      }
      refreshed := clk;
      ok := true;
    }

    method WrpRank(v: View, r: int) returns (ok: bool)
      requires Ready() && Sees(v) && v.writeMode && 0 <= r < c.ranks
      modifies this`backlog, this`subarrayRefCounters, this`log, ctrl`otherq
      ensures Ready() && Does(ok, AheadRank(c, old(State()), v, r))
    {
      hide Issue;
      ok := true;
      var pending := PendingRank(r);
      var writes := CountRank(ctrl.writeq, r);
      if pending || writes == 0 {
        return;
      }
      assert Sorted(c, v, r, v.order[r]);
      var bank := PickBank(v.order[r], v.wrpDraws[r]);
      if backlog[r][bank] < BACKLOG_MAX && |ctrl.otherq| < ctrl.otherMax {
        ok := RefreshBank(r, bank);
      }
    }

    static method CountRank(q: seq<Target>, r: int) returns (n: nat)
      ensures n == RankDemand(q, r)
    {
      n := 0;
      for i := 0 to |q|
        invariant n == RankDemand(q[..i], r)
      {
        assert q[..i + 1][..i] == q[..i];
        if q[i].rank == r {
          n := n + 1;
        }
      }
      assert q[..|q|] == q;
    }

    static method PickBank(order: seq<int>, draw: nat) returns (bank: int)
      requires |order| > 0
      ensures bank == WrpBank(order, draw)
    {
      var top := 0;
      for i := 0 to |order|
        invariant top == 0 && TopIdle(order, 0) == TopIdle(order, i)
      {
        if order[i] != 0 {
          top := i;
          break;
        }
      }
      bank := order[if top == 0 then 0 else draw % top];
    }

    method Wrp(v: View) returns (ok: bool)
      requires Ready() && Sees(v) && v.writeMode
      modifies this`backlog, this`subarrayRefCounters, this`log, ctrl`otherq
      ensures Ready() && Does(ok, AheadRanks(c, old(State()), v, c.ranks))
    {
      hide AheadRank, ViewOk;
      ok := true;
      for r := 0 to c.ranks
        invariant Ready() && Sees(v) && ok && State() == AheadRanks(c, old(State()), v, r)
      {
        ok := WrpRank(v, r);
        if !ok {
          AheadFails(c, old(State()), v, r + 1, c.ranks);
          return;
        }
      }
    }

    /** Which banks have reads waiting. */
    method Occupied(ghost v: View) returns (occupied: array<bool>)
      requires Sees(v)
      ensures fresh(occupied) && Marks(c, occupied[..], ctrl.readq)
    {
      hide Cell;
      occupied := new bool[c.ranks * c.banks](_ => false);
      forall r, b | 0 <= r < c.ranks && 0 <= b < c.banks ensures OccupiedAt(c, occupied[..], [], r, b) {
        CellRange(c, r, b);
      }
      for i := 0 to |ctrl.readq|
        invariant occupied.Length == c.ranks * c.banks && Marks(c, occupied[..], ctrl.readq[..i])
      {
        var t := ctrl.readq[i];
        CellRange(c, t.rank, t.bank);
        MarkStep(c, occupied[..], occupied[..][Cell(c, t.rank, t.bank) := true], ctrl.readq[..i], t);
        occupied[Cell(c, t.rank, t.bank)] := true;
        assert ctrl.readq[..i + 1] == ctrl.readq[..i] + [t];
      }
      assert ctrl.readq[..|ctrl.readq|] == ctrl.readq;
    }

    /** One bank of the search for a refresh to pull in. */
    method CanPull(v: View, r: int, b: int, occupied: array<bool>) returns (can: bool)
      requires Ready() && Sees(v) && 0 <= r < c.ranks && 0 <= b < c.banks && Marks(c, occupied[..], ctrl.readq)
      ensures can == (Pullable(State(), v, r, b) && |ctrl.otherq| < ctrl.otherMax)
    {
      hide Cell, Sorted;
      assert OccupiedAt(c, occupied[..], ctrl.readq, r, b);
      if occupied[Cell(c, r, b)] {
        return false;
      }
      var pending := PendingBank(r, b);
      return !(pending || backlog[r][b] >= EARLY_PULL || |ctrl.otherq| >= ctrl.otherMax);
    }

    method EarlyRank(v: View, r: int, occupied: array<bool>) returns (ok: bool)
      requires Ready() && Sees(v) && !v.writeMode && 0 <= r < c.ranks && Marks(c, occupied[..], ctrl.readq)
      modifies this`backlog, this`subarrayRefCounters, this`log, ctrl`otherq
      ensures Ready() && Does(ok, AheadRank(c, old(State()), v, r))
    {
      hide Issue, Sorted, Pullable, Marks;
      var start := v.earlyDraws[r] % c.banks;
      for b := 0 to c.banks
        invariant Ready() && Sees(v) && State() == old(State()) && Marks(c, occupied[..], ctrl.readq)
        invariant |ctrl.otherq| < ctrl.otherMax ==>
          PullFrom(c, State(), v, r, start, 0) == PullFrom(c, State(), v, r, start, b)
      {
        var can := CanPull(v, r, (start + b) % c.banks, occupied);
        if can {
          ok := RefreshBank(r, (start + b) % c.banks);
          return;
        }
      }
      ok := true;
    }

    method EarlyRanks(v: View, occupied: array<bool>) returns (ok: bool)
      requires Ready() && Sees(v) && !v.writeMode && Marks(c, occupied[..], ctrl.readq)
      modifies this`backlog, this`subarrayRefCounters, this`log, ctrl`otherq
      ensures Ready() && Does(ok, AheadRanks(c, old(State()), v, c.ranks))
    {
      hide AheadRank, Marks, ViewOk;
      ok := true;
      for r := 0 to c.ranks
        invariant Ready() && Sees(v) && Marks(c, occupied[..], ctrl.readq)
        invariant ok && State() == AheadRanks(c, old(State()), v, r)
      {
        ok := EarlyRank(v, r, occupied);
        if !ok {
          AheadFails(c, old(State()), v, r + 1, c.ranks);
          return;
        }
      }
    }

    method EarlyInjectRefresh(v: View) returns (ok: bool)
      requires Ready() && Sees(v)
      modifies this`backlog, this`subarrayRefCounters, this`log, ctrl`otherq
      ensures Ready()
      ensures Does(ok, if v.writeMode then old(State()) else AheadRanks(c, old(State()), v, c.ranks))
    {
      hide AheadRanks, Marks;
      if ctrl.writeMode {
        return true;
      }
      var occupied := Occupied(v);
      ok := EarlyRanks(v, occupied);
    }

    method RunAhead(v: View) returns (ok: bool)
      requires Ready() && Sees(v)
      modifies this`backlog, this`subarrayRefCounters, this`log, this`ctrlWriteMode, ctrl`otherq
      ensures Ready() && Does(ok, Ahead(c, old(State()), v))
    {
      hide AheadRanks, ViewOk;
      ghost var s := State();
      ok := true;
      if c.ooo {
        if !ctrlWriteMode && ctrl.writeMode {
          ok := Wrp(v);
          if !ok {
            return;
          }
        }
        ctrlWriteMode := ctrl.writeMode;
        if !v.writeMode {
          ModeFirst(c, s, v, c.ranks);
        }
        ok := EarlyInjectRefresh(v);
      }
    }

    /** `tick_ref`. A false answer is a failure; otherwise every bank's account stays balanced. */
    method TickRef(v: View) returns (ok: bool)
      requires Ready() && Sees(v)
      modifies this, ctrl`otherq
      ensures Ready() && Does(ok, Tick(c, old(State()), v))
      ensures ok && old(K.Inv(c, State())) ==> K.Inv(c, State())
    {
      hide Ahead, Inject, ViewOk, K.Inv;
      ghost var s := State();
      clk := clk + 1;
      assert State() == NextClock(c, s);
      ok := RunAhead(v);
      if ok && clk - refreshed >= c.interval {
        ok := InjectRefresh(v);
      }
      if ok && K.Inv(c, s) {
        K.TickKeeps(c, s, v);
      }
    }
  }
}
