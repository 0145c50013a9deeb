/** The row table refines the bank states in every run of the controller, so its assertions never fire. */
module RowTheorems {
  import opened Ddr3
  import opened RankState
  import opened RowModel

  /** A bank is open exactly when it holds exactly one row and the table has an entry for it with that row. */
  ghost predicate Agrees(bank: Bank, t: Table, g: Group) {
    && (bank.isOpen <==> g in t)
    && bank.rows == if g in t then {t[g].row} else {}
  }

  ghost predicate InRange(ch: Channel, g: Group) {
    0 <= g.rank < |ch| && 0 <= g.bank < |ch[g.rank].banks|
  }

  ghost predicate Refines(ch: Channel, t: Table) {
    && (forall g :: g in t ==> InRange(ch, g))
    && forall g :: InRange(ch, g) ==> Agrees(ch[g.rank].banks[g.bank], t, g)
  }

  /** MAIN: issuing the command a request needs keeps the table in step with the banks, and no assertion fires. */
  lemma IssueRefines(ch: Channel, t: Table, q: Request, clk: int)
    requires Refines(ch, t) && RequestOk(ch, q)
    ensures var cmd := Decode(ch, q);
      var u := Update(t, cmd, q, clk);
      u.ok && Refines(Apply(ch, cmd, q), u.table)
  {
    var cmd := Decode(ch, q);
    var u := Update(t, cmd, q, clk);
    var ch' := Apply(ch, cmd, q);
    var g := Group(q.rank, q.bank);
    if BankCommand(cmd) {
      assert InRange(ch, g) && Agrees(ch[g.rank].banks[g.bank], t, g);
    }
    if cmd == PREA {
      var b :| 0 <= b < |ch[q.rank].banks| && ch[q.rank].banks[b].isOpen;
      assert InRange(ch, Group(q.rank, b)) && Agrees(ch[q.rank].banks[b], t, Group(q.rank, b));
      assert Closed(PREA, q, Group(q.rank, b));
    }
    if cmd == PRE {
      assert Closed(PRE, q, g);
    }
    forall h | InRange(ch', h) ensures Agrees(ch'[h.rank].banks[h.bank], u.table, h) {
      assert InRange(ch, h) && Agrees(ch[h.rank].banks[h.bank], t, h);
    }
  }

  /** MAIN: a read or write command is issued only to a powered rank, on the one open row of its bank, and that
      row is the one requested. */
  lemma AccessIsHit(ch: Channel, t: Table, q: Request)
    requires Refines(ch, t) && RequestOk(ch, q) && Accessing(Decode(ch, q))
    ensures q.kind.Read? || q.kind.Write?
    ensures var rank := ch[q.rank];
      rank.power.PowerUp? && rank.banks[q.bank] == Bank(true, {q.row})
    ensures var g := Group(q.rank, q.bank);
      g in t && t[g].row == q.row
  {
    assert InRange(ch, Group(q.rank, q.bank));
    assert Agrees(ch[q.rank].banks[q.bank], t, Group(q.rank, q.bank));
  }

  /** How many preparing commands a request still needs. */
  function Distance(ch: Channel, q: Request): nat
    requires RequestOk(ch, q)
  {
    var rank := ch[q.rank];
    match q.kind
    case Refresh => if AnyOpen(rank.banks) then 1 else 0
    case PowerDown => if rank.power.SelfRefresh? then 1 else 0
    case SelfRefreshEntry => if rank.power.ActPowerDown? || rank.power.PrePowerDown? then 1 else 0
    case _ =>
      (if rank.power.PowerUp? then 0 else 1)
      + var bank := rank.banks[q.bank];
        if !bank.isOpen then 1 else if q.row in bank.rows then 0 else 2
  }

  /** MAIN: each preparing command brings its request exactly one command nearer; it is complete at distance 0. */
  lemma Progress(ch: Channel, q: Request)
    requires RequestOk(ch, q)
    ensures Distance(ch, q) <= 3
    ensures Decode(ch, q) == Final(q.kind) <==> Distance(ch, q) == 0
    ensures var next := Apply(ch, Decode(ch, q), q);
      Distance(ch, q) > 0 ==> RequestOk(next, q) && Distance(next, q) == Distance(ch, q) - 1
  {
    if q.kind.Refresh? && AnyOpen(ch[q.rank].banks) {
      var next := Apply(ch, PREA, q);
      assert forall b :: 0 <= b < |next[q.rank].banks| ==> !next[q.rank].banks[b].isOpen;
    }
  }

  /** One issued command: for which request, when. */
  datatype Issued = Issued(q: Request, clk: int)

  datatype Ctrl = Ctrl(ch: Channel, table: Table, ok: bool)

  ghost predicate RunOk(ranks: nat, banks: nat, h: seq<Issued>) {
    && (forall i :: 0 <= i < |h| ==> 0 <= h[i].q.rank < ranks)
    && forall i :: 0 <= i < |h| ==> (h[i].q.kind.Read? || h[i].q.kind.Write? ==> 0 <= h[i].q.bank < banks)
  }

  ghost predicate Sized(ranks: nat, banks: nat, ch: Channel) {
    |ch| == ranks && forall r :: 0 <= r < ranks ==> |ch[r].banks| == banks
  }

  function Initial(ranks: nat, banks: nat): Channel {
    seq(ranks, _ => Rank(PowerUp, seq(banks, _ => Bank(false, {}))))
  }

  /** All commands a controller issues, whatever requests it picks and whenever it finds them ready. */
  function Run(ranks: nat, banks: nat, h: seq<Issued>): (s: Ctrl)
    requires RunOk(ranks, banks, h)
    ensures Sized(ranks, banks, s.ch)
  {
    if |h| == 0 then Ctrl(Initial(ranks, banks), map[], true)
    else
      var s := Run(ranks, banks, h[..|h| - 1]);
      var q := h[|h| - 1].q;
      var cmd := Decode(s.ch, q);
      var u := Update(s.table, cmd, q, h[|h| - 1].clk);
      Ctrl(Apply(s.ch, cmd, q), u.table, s.ok && u.ok)
  }

  lemma {:induction false} RunRefines(ranks: nat, banks: nat, h: seq<Issued>)
    requires RunOk(ranks, banks, h)
    ensures var s := Run(ranks, banks, h);
      s.ok && Refines(s.ch, s.table)
    decreases |h|
  {
    if |h| > 0 {
      RunRefines(ranks, banks, h[..|h| - 1]);
      var s := Run(ranks, banks, h[..|h| - 1]);
      IssueRefines(s.ch, s.table, h[|h| - 1].q, h[|h| - 1].clk);
    }
  }

  /** MAIN: in every run a refresh is issued exactly when every bank of its rank is closed, holds no row and has no
      entry in the table; exactly when some bank is open all are closed first, after which none is open. */
  lemma RefreshFindsClosed(ranks: nat, banks: nat, h: seq<Issued>, q: Request)
    requires RunOk(ranks, banks, h) && q.kind.Refresh? && 0 <= q.rank < ranks
    ensures var s := Run(ranks, banks, h);
      var cmd, all := Decode(s.ch, q), s.ch[q.rank].banks;
      && (cmd == REF || cmd == PREA)
      && (cmd == PREA <==> exists b :: 0 <= b < banks && all[b].isOpen)
      && (cmd == REF <==> forall b :: 0 <= b < banks ==> all[b] == Bank(false, {}))
      && (cmd == REF <==> forall b :: 0 <= b < banks ==> Group(q.rank, b) !in s.table)
      && forall b :: 0 <= b < banks ==> Apply(s.ch, cmd, q)[q.rank].banks[b] == Bank(false, {})
  {
    var s := Run(ranks, banks, h);
    RunRefines(ranks, banks, h);
    forall b | 0 <= b < banks ensures Agrees(s.ch[q.rank].banks[b], s.table, Group(q.rank, b)) {
      assert InRange(s.ch, Group(q.rank, b));
    }
  }

  /** MAIN: in every run the next command of a read or write is what the power state of its rank and the table's entry
      for its bank call for. */
  lemma AccessFollowsTable(ranks: nat, banks: nat, h: seq<Issued>, q: Request)
    requires RunOk(ranks, banks, h) && (q.kind.Read? || q.kind.Write?)
    requires 0 <= q.rank < ranks && 0 <= q.bank < banks
    ensures var s, g := Run(ranks, banks, h), Group(q.rank, q.bank);
      var cmd, power := Decode(s.ch, q), s.ch[q.rank].power;
      && (power.SelfRefresh? ==> cmd == SRX)
      && (power.ActPowerDown? || power.PrePowerDown? ==> cmd == PDX)
      && (power.PowerUp? && g !in s.table ==> cmd == ACT)
      && (power.PowerUp? && g in s.table && s.table[g].row == q.row ==> cmd == if q.kind.Read? then RD else WR)
      && (power.PowerUp? && g in s.table && s.table[g].row != q.row ==> cmd == PRE)
  {
    var s, g := Run(ranks, banks, h), Group(q.rank, q.bank);
    RunRefines(ranks, banks, h);
    assert InRange(s.ch, g) && Agrees(s.ch[q.rank].banks[q.bank], s.table, g);
  }

  /** The last command of rank r that concerns its power: none before the first. */
  ghost function LastPower(ranks: nat, banks: nat, h: seq<Issued>, r: int): (cmd: nat)
    requires RunOk(ranks, banks, h)
  {
    if |h| == 0 then PDX
    else
      var q := h[|h| - 1].q;
      var cmd := Decode(Run(ranks, banks, h[..|h| - 1]).ch, q);
      if q.rank == r && (cmd == PDE || cmd == PDX || cmd == SRE || cmd == SRX) then cmd
      else LastPower(ranks, banks, h[..|h| - 1], r)
  }

  /** What power state a command leaves a rank in. */
  ghost predicate PowerAfter(power: Power, cmd: nat) {
    && (power.SelfRefresh? <==> cmd == SRE)
    && (power.ActPowerDown? || power.PrePowerDown? <==> cmd == PDE)
    && (power.PowerUp? <==> cmd == PDX || cmd == SRX)
  }

  lemma PowerStep(ch: Channel, cmd: nat, q: Request, r: int)
    requires 0 <= q.rank < |ch| && (BankCommand(cmd) ==> 0 <= q.bank < |ch[q.rank].banks|) && 0 <= r < |ch|
    ensures var power := Apply(ch, cmd, q)[r].power;
      if q.rank == r && (cmd == PDE || cmd == PDX || cmd == SRE || cmd == SRX) then PowerAfter(power, cmd)
      else power == ch[r].power
  {
    hide AnyOpen;
  }

  /** MAIN: in every run a rank is in self-refresh, or powered down, exactly from the command that sends it there to the
      next one that wakes it. */
  lemma {:induction false} PowerExact(ranks: nat, banks: nat, h: seq<Issued>, r: int)
    requires RunOk(ranks, banks, h) && 0 <= r < ranks
    ensures PowerAfter(Run(ranks, banks, h).ch[r].power, LastPower(ranks, banks, h, r))
    decreases |h|
  {
    hide Decode, Apply, Update, PowerAfter;
    if |h| == 0 {
      PowerFirst(ranks, banks, r);
    } else {
      var s, q := Run(ranks, banks, h[..|h| - 1]), h[|h| - 1].q;
      PowerExact(ranks, banks, h[..|h| - 1], r);
      BankDecoded(s.ch, q);
      PowerStep(s.ch, Decode(s.ch, q), q, r);
    }
  }

  /** So a request to power down wakes a rank only from self-refresh, and one to enter self-refresh only from power
      down. */
  lemma PowerFollows(ranks: nat, banks: nat, h: seq<Issued>, q: Request)
    requires RunOk(ranks, banks, h) && 0 <= q.rank < ranks && (q.kind.PowerDown? || q.kind.SelfRefreshEntry?)
    ensures var cmd, last := Decode(Run(ranks, banks, h).ch, q), LastPower(ranks, banks, h, q.rank);
      && (q.kind.PowerDown? ==> cmd == if last == SRE then SRX else PDE)
      && (q.kind.SelfRefreshEntry? ==> cmd == if last == PDE then PDX else SRE)
  {
    PowerExact(ranks, banks, h, q.rank);
  }

  lemma PowerFirst(ranks: nat, banks: nat, r: int)
    requires 0 <= r < ranks
    ensures PowerAfter(Initial(ranks, banks)[r].power, PDX)
  {
  }

  lemma BankDecoded(ch: Channel, q: Request)
    requires RequestOk(ch, q)
    ensures BankCommand(Decode(ch, q)) ==> 0 <= q.bank < |ch[q.rank].banks|
  {
  }

  /** A rank that powers down remembers whether any of its banks has an open row. */
  lemma PowerDownTells(ranks: nat, banks: nat, h: seq<Issued>, q: Request)
    requires RunOk(ranks, banks, h) && q.kind.PowerDown? && 0 <= q.rank < ranks
    requires !Run(ranks, banks, h).ch[q.rank].power.SelfRefresh?
    ensures var s := Run(ranks, banks, h);
      var power := Apply(s.ch, Decode(s.ch, q), q)[q.rank].power;
      && (power == ActPowerDown <==> exists b :: 0 <= b < banks && Group(q.rank, b) in s.table)
      && (power == PrePowerDown <==> forall b :: 0 <= b < banks ==> Group(q.rank, b) !in s.table)
  {
    var s := Run(ranks, banks, h);
    RunRefines(ranks, banks, h);
    forall b | 0 <= b < banks ensures Agrees(s.ch[q.rank].banks[b], s.table, Group(q.rank, b)) {
      assert InRange(s.ch, Group(q.rank, b));
    }
  }

  /** When a bank was last opened or accessed. */
  ghost function LastUse(ranks: nat, banks: nat, h: seq<Issued>, g: Group): int
    requires RunOk(ranks, banks, h)
  {
    if |h| == 0 then 0
    else
      var q := h[|h| - 1].q;
      var cmd := Decode(Run(ranks, banks, h[..|h| - 1]).ch, q);
      if Group(q.rank, q.bank) == g && (Opening(cmd) || Accessing(cmd)) then h[|h| - 1].clk
      else LastUse(ranks, banks, h[..|h| - 1], g)
  }

  lemma UseIssue(ch: Channel, t: Table, q: Request, clk: int, g: Group)
    requires Refines(ch, t) && RequestOk(ch, q)
    ensures var cmd := Decode(ch, q);
      var t' := Update(t, cmd, q, clk).table;
      g in t' ==>
        if Group(q.rank, q.bank) == g && (Opening(cmd) || Accessing(cmd)) then t'[g].timestamp == clk
        else g in t && t'[g].timestamp == t[g].timestamp
  {
    var cmd := Decode(ch, q);
    if Opening(cmd) || Accessing(cmd) {
      var h := Group(q.rank, q.bank);
      assert InRange(ch, h) && Agrees(ch[h.rank].banks[h.bank], t, h);
    }
  }

  /** MAIN: the timestamp of an open row is the time of its last use. */
  lemma {:induction false} TimestampExact(ranks: nat, banks: nat, h: seq<Issued>, g: Group)
    requires RunOk(ranks, banks, h) && g in Run(ranks, banks, h).table
    ensures Run(ranks, banks, h).table[g].timestamp == LastUse(ranks, banks, h, g)
    decreases |h|
  {
    if |h| > 0 {
      var s, q := Run(ranks, banks, h[..|h| - 1]), h[|h| - 1].q;
      RunRefines(ranks, banks, h[..|h| - 1]);
      UseIssue(s.ch, s.table, q, h[|h| - 1].clk, g);
      if g in s.table {
        TimestampExact(ranks, banks, h[..|h| - 1], g);
      }
    }
  }

  /** Accesses to a bank since it was last opened. */
  ghost function HitsSince(ranks: nat, banks: nat, h: seq<Issued>, g: Group): int
    requires RunOk(ranks, banks, h)
  {
    if |h| == 0 then 0
    else
      var q := h[|h| - 1].q;
      var cmd := Decode(Run(ranks, banks, h[..|h| - 1]).ch, q);
      if Group(q.rank, q.bank) == g && Opening(cmd) then 0
      else HitsSince(ranks, banks, h[..|h| - 1], g) + if Group(q.rank, q.bank) == g && Accessing(cmd) then 1 else 0
  }

  lemma HitsIssue(ch: Channel, t: Table, q: Request, clk: int, g: Group)
    requires Refines(ch, t) && RequestOk(ch, q)
    ensures var cmd := Decode(ch, q);
      var t' := Update(t, cmd, q, clk).table;
      var here := Group(q.rank, q.bank) == g;
      g in t' ==>
        if here && Opening(cmd) then t'[g].hits == 0
        else g in t && t'[g].hits == t[g].hits + if here && Accessing(cmd) then 1 else 0
  {
    var cmd := Decode(ch, q);
    if Opening(cmd) {
      var h := Group(q.rank, q.bank);
      assert InRange(ch, h) && Agrees(ch[h.rank].banks[h.bank], t, h);
    }
  }

  /** MAIN: the hit count of an open row is the number of accesses since the row was opened. */
  lemma {:induction false} HitsExact(ranks: nat, banks: nat, h: seq<Issued>, g: Group)
    requires RunOk(ranks, banks, h) && g in Run(ranks, banks, h).table
    ensures Run(ranks, banks, h).table[g].hits == HitsSince(ranks, banks, h, g)
    decreases |h|
  {
    if |h| > 0 {
      var s, q := Run(ranks, banks, h[..|h| - 1]), h[|h| - 1].q;
      RunRefines(ranks, banks, h[..|h| - 1]);
      HitsIssue(s.ch, s.table, q, h[|h| - 1].clk, g);
      if g in s.table {
        HitsExact(ranks, banks, h[..|h| - 1], g);
      }
    }
  }
}
