/** Subarray safety over every run: which subarrays can be open or selected together, and on what a column access
    can land. */
module SalpTheorems {
  import opened RankState
  import opened SalpModel

  /** A closed subarray holds no row, any other exactly one. */
  ghost predicate SubOk(s: Sub) {
    if s.state.Closed? then s.rows == {} else exists row :: s.rows == {row}
  }

  /** SALP-1: one open row per bank, the bank's state telling; SALP-2: nothing is ever selected; MASA: at most one
      subarray is selected. */
  ghost predicate BankOk(v: Variant, bank: Bank) {
    && (forall i :: 0 <= i < |bank.subs| ==> SubOk(bank.subs[i]))
    && match v
       case Salp1 =>
         && (forall i :: 0 <= i < |bank.subs| ==> !bank.subs[i].state.Selected?)
         && (forall i, j :: 0 <= i < j < |bank.subs| ==> bank.subs[i].state.Closed? || bank.subs[j].state.Closed?)
         && (bank.isOpen <==> exists i :: 0 <= i < |bank.subs| && !bank.subs[i].state.Closed?)
       case Salp2 => forall i :: 0 <= i < |bank.subs| ==> !bank.subs[i].state.Selected?
       case Masa =>
         forall i, j :: 0 <= i < j < |bank.subs| ==> !bank.subs[i].state.Selected? || !bank.subs[j].state.Selected?
  }

  ghost predicate RankOk(v: Variant, k: Rank) {
    forall b :: 0 <= b < |k.banks| ==> BankOk(v, k.banks[b])
  }

  lemma {:induction false} OffendingFinds(subs: seq<Sub>, x: int, i: nat, j: nat)
    requires i <= j < |subs| && 0 <= x < |subs| && j != x && subs[j].state.Opened?
    ensures var y := Offending(subs, x, i);
      && y != x && subs[y].state.Opened?
      && forall h :: i <= h < y && h != x ==> !subs[h].state.Opened?
    decreases |subs| - i
  {
    if i < j && !(i != x && subs[i].state.Opened?) {
      OffendingFinds(subs, x, i + 1, j);
    }
  }

  /** The loop that stops at the first selected sibling deselects the only one there is. */
  lemma {:induction false} DeselectOnly(subs: seq<Sub>, x: int, i: nat)
    requires i <= |subs| && 0 <= x < |subs|
    requires forall a, b :: i <= a < b < |subs| && a != x && b != x ==>
      !subs[a].state.Selected? || !subs[b].state.Selected?
    ensures var r := Deselect(subs, x, i);
      forall j :: 0 <= j < |subs| ==>
        r[j] == if j >= i && j != x && subs[j].state.Selected? then subs[j].(state := Opened) else subs[j]
    decreases |subs| - i
  {
    if i < |subs| && !(i != x && subs[i].state.Selected?) {
      DeselectOnly(subs, x, i + 1);
    }
  }

  /** PRE_OTHER always hits another, opened subarray, the first of them; under SALP-1 the only one. */
  lemma OtherIsOpen(v: Variant, bank: Bank, q: Request)
    requires BankOk(v, bank) && 0 <= q.sub < |bank.subs| && DecodeBank(v, bank, q).PRE_OTHER?
    ensures !v.Masa?
    ensures var y := Offending(bank.subs, q.sub, 0);
      && y != q.sub && bank.subs[y].state.Opened?
      && (forall h :: 0 <= h < y && h != q.sub ==> !bank.subs[h].state.Opened?)
      && (v.Salp1? ==> forall i :: 0 <= i < |bank.subs| && i != y ==> bank.subs[i] == CLOSED)
  {
    if v.Salp1? {
      var i :| 0 <= i < |bank.subs| && !bank.subs[i].state.Closed?;
      assert SubOk(bank.subs[q.sub]) && SubOk(bank.subs[i]);
      OffendingFinds(bank.subs, q.sub, 0, i);
      forall j | 0 <= j < |bank.subs| && j != i ensures bank.subs[j] == CLOSED {
        assert SubOk(bank.subs[j]);
        assert bank.subs[if j < i then j else i].state.Closed? || bank.subs[if j < i then i else j].state.Closed?;
      }
    } else {
      var i :| 0 <= i < |bank.subs| && i != q.sub && bank.subs[i].state.Opened?;
      OffendingFinds(bank.subs, q.sub, 0, i);
    }
  }

  lemma ActKeeps(v: Variant, bank: Bank, q: Request)
    requires BankOk(v, bank) && 0 <= q.sub < |bank.subs| && DecodeBank(v, bank, q).ACT?
    ensures BankOk(v, ApplyBank(v, bank, ACT, q.sub, q.row))
  {
    var x := q.sub;
    assert SubOk(bank.subs[x]);
    assert bank.subs[x] == CLOSED;
    var up := bank.subs[x := Sub(if v.Masa? then Selected else Opened, {} + {q.row})];
    if v.Masa? {
      DeselectOnly(up, x, 0);
    }
    var r := ApplyBank(v, bank, ACT, x, q.row);
    forall i | 0 <= i < |r.subs| ensures SubOk(r.subs[i]) {
      assert i != x ==> SubOk(bank.subs[i]);
      assert i == x ==> r.subs[i].rows == {q.row};
    }
    if v.Salp1? {
      assert !r.subs[x].state.Closed?;
    }
  }

  lemma SelectKeeps(bank: Bank, x: int, row: int)
    requires BankOk(Masa, bank) && 0 <= x < |bank.subs| && !bank.subs[x].state.Closed?
    ensures BankOk(Masa, ApplyBank(Masa, bank, SASEL, x, row))
  {
    var up := bank.subs[x := bank.subs[x].(state := Selected)];
    DeselectOnly(up, x, 0);
    var r := ApplyBank(Masa, bank, SASEL, x, row);
    forall i | 0 <= i < |r.subs| ensures SubOk(r.subs[i]) {
      assert SubOk(bank.subs[i]);
    }
  }

  /** Closing a subarray; under SALP-1 it must be the open one. */
  lemma CloseKeeps(v: Variant, bank: Bank, cmd: Command, x: int, row: int)
    requires BankOk(v, bank) && 0 <= x < |bank.subs| && (cmd.PRE? || cmd.PRE_OTHER?)
    requires v.Salp1? ==> !bank.subs[x].state.Closed?
    ensures BankOk(v, ApplyBank(v, bank, cmd, x, row))
  {
    var r := ApplyBank(v, bank, cmd, x, row);
    forall i | 0 <= i < |r.subs| ensures SubOk(r.subs[i]) {
      assert SubOk(bank.subs[i]);
    }
    if v.Salp1? {
      forall i | 0 <= i < |r.subs| ensures r.subs[i].state.Closed? {
        if i != x {
          assert bank.subs[if i < x then i else x].state.Closed? || bank.subs[if i < x then x else i].state.Closed?;
        }
      }
    }
  }

  lemma BankKeeps(v: Variant, k: Rank, q: Request)
    requires RankOk(v, k) && RequestOk(k, q) && Access(q.kind)
    ensures var cmd := DecodeBank(v, k.banks[q.bank], q);
      !cmd.Broken? && BankOk(v, ApplyBank(v, k.banks[q.bank], cmd, Target(k, cmd, q), q.row))
  {
    var bank := k.banks[q.bank];
    assert BankOk(v, bank) && SubOk(bank.subs[q.sub]);
    match DecodeBank(v, bank, q) {
      case ACT => ActKeeps(v, bank, q);
      case SASEL => SelectKeeps(bank, q.sub, q.row);
      case PRE => CloseKeeps(v, bank, PRE, q.sub, q.row);
      case PRE_OTHER =>
        OtherIsOpen(v, bank, q);
        CloseKeeps(v, bank, PRE_OTHER, Offending(bank.subs, q.sub, 0), q.row);
      case _ =>
    }
  }

  /** MAIN: issuing the command any request needs keeps every bank safe and never meets an unexpected state. */
  lemma StepKeeps(v: Variant, k: Rank, q: Request)
    requires RankOk(v, k) && RequestOk(k, q)
    ensures var cmd := Decode(v, k, q);
      !cmd.Broken? && RankOk(v, Apply(v, k, cmd, q))
  {
    hide ApplyBank, DecodeBank, BankOk;
    var cmd := Decode(v, k, q);
    if BankCommand(cmd) || cmd.Broken? {
      BankKeeps(v, k, q);
    } else if cmd.PRER? {
      forall b | 0 <= b < |k.banks| ensures BankOk(v, CloseAll(v, k.banks[b])) {
        ClosedOk(v, k.banks[b]);
      }
    }
  }

  lemma ClosedOk(v: Variant, bank: Bank)
    ensures BankOk(v, CloseAll(v, bank))
  {
  }

  ghost predicate RunOk(banks: nat, subs: nat, h: seq<Request>) {
    forall i :: 0 <= i < |h| ==> (Access(h[i].kind) ==> 0 <= h[i].bank < banks && 0 <= h[i].sub < subs)
  }

  ghost predicate Sized(banks: nat, subs: nat, k: Rank) {
    |k.banks| == banks && forall b :: 0 <= b < banks ==> |k.banks[b].subs| == subs
  }

  /** The commands issued on a rank for any sequence of requests. */
  function Run(v: Variant, banks: nat, subs: nat, h: seq<Request>): (k: Rank)
    requires RunOk(banks, subs, h)
    ensures Sized(banks, subs, k)
  {
    if |h| == 0 then Initial(banks, subs)
    else
      var k, q := Run(v, banks, subs, h[..|h| - 1]), h[|h| - 1];
      Apply(v, k, Decode(v, k, q), q)
  }

  lemma {:induction false} RunKeeps(v: Variant, banks: nat, subs: nat, h: seq<Request>)
    requires RunOk(banks, subs, h)
    ensures RankOk(v, Run(v, banks, subs, h))
    decreases |h|
  {
    if |h| > 0 {
      RunKeeps(v, banks, subs, h[..|h| - 1]);
      StepKeeps(v, Run(v, banks, subs, h[..|h| - 1]), h[|h| - 1]);
    }
  }

  /** MAIN: in every run a read or write lands on the requested row, alone open in its subarray; under SALP-1 and
      SALP-2 no other subarray of the bank is open, under MASA no other is selected. */
  lemma AccessSafe(v: Variant, banks: nat, subs: nat, h: seq<Request>, q: Request)
    requires RunOk(banks, subs, h) && Access(q.kind) && 0 <= q.bank < banks && 0 <= q.sub < subs
    requires Decode(v, Run(v, banks, subs, h), q) == Final(q.kind)
    ensures var k := Run(v, banks, subs, h);
      && k.power.PowerUp?
      && var all := k.banks[q.bank].subs;
         && all[q.sub].rows == {q.row} && all[q.sub].state == (if v.Masa? then Selected else Opened)
         && forall i :: 0 <= i < subs && i != q.sub ==>
              if v.Masa? then !all[i].state.Selected? else all[i] == CLOSED
  {
    RunKeeps(v, banks, subs, h);
    BankAccess(v, Run(v, banks, subs, h).banks[q.bank], q);
  }

  lemma BankAccess(v: Variant, bank: Bank, q: Request)
    requires BankOk(v, bank) && 0 <= q.sub < |bank.subs| && Access(q.kind) && DecodeBank(v, bank, q) == Final(q.kind)
    ensures var all := bank.subs;
      && all[q.sub].rows == {q.row} && all[q.sub].state == (if v.Masa? then Selected else Opened)
      && forall i :: 0 <= i < |all| && i != q.sub ==> if v.Masa? then !all[i].state.Selected? else all[i] == CLOSED
  {
    var all, x := bank.subs, q.sub;
    assert SubOk(all[x]);
    forall i | 0 <= i < |all| && i != x
      ensures if v.Masa? then !all[i].state.Selected? else all[i] == CLOSED
    {
      assert SubOk(all[i]);
      if v.Salp1? {
        assert all[if i < x then i else x].state.Closed? || all[if i < x then x else i].state.Closed?;
      } else if v.Masa? {
        assert !all[if i < x then i else x].state.Selected? || !all[if i < x then x else i].state.Selected?;
      }
    }
  }

  /** Under every variant a bank is active exactly when some subarray is not closed. */
  lemma ActiveMeans(v: Variant, bank: Bank)
    requires BankOk(v, bank)
    ensures Active(v, bank) <==> exists x :: 0 <= x < |bank.subs| && !bank.subs[x].state.Closed?
    ensures forall x :: 0 <= x < |bank.subs| ==> (bank.subs[x].state.Closed? <==> bank.subs[x] == CLOSED)
  {
    forall x | 0 <= x < |bank.subs| ensures bank.subs[x].state.Closed? <==> bank.subs[x] == CLOSED {
      assert SubOk(bank.subs[x]);
    }
  }

  /** MAIN: in every run, and under all variants, a refresh is issued exactly when every subarray of every bank of the
      rank is closed and holds no row; otherwise, when one is not closed, all are closed first. */
  lemma RefreshFindsClosed(v: Variant, banks: nat, subs: nat, h: seq<Request>, q: Request)
    requires RunOk(banks, subs, h) && q.kind.Refresh?
    ensures var k := Run(v, banks, subs, h);
      var cmd := Decode(v, k, q);
      && (cmd == REF || cmd == PRER)
      && (cmd == PRER <==> exists b, x :: 0 <= b < banks && 0 <= x < subs && !k.banks[b].subs[x].state.Closed?)
      && (cmd == REF <==> forall b, x :: 0 <= b < banks && 0 <= x < subs ==> k.banks[b].subs[x] == CLOSED)
      && forall b, x :: 0 <= b < banks && 0 <= x < subs ==> Apply(v, k, cmd, q).banks[b].subs[x] == CLOSED
  {
    hide BankOk, Active;
    var k := Run(v, banks, subs, h);
    RunKeeps(v, banks, subs, h);
    forall b | 0 <= b < banks
      ensures Active(v, k.banks[b]) <==> exists x :: 0 <= x < subs && !k.banks[b].subs[x].state.Closed?
      ensures forall x :: 0 <= x < subs ==> (k.banks[b].subs[x].state.Closed? <==> k.banks[b].subs[x] == CLOSED)
    {
      ActiveMeans(v, k.banks[b]);
    }
  }

  /** The last command that concerns the rank's power. */
  ghost function LastPower(v: Variant, banks: nat, subs: nat, h: seq<Request>): (cmd: Command)
    requires RunOk(banks, subs, h)
  {
    if |h| == 0 then PDX
    else
      var cmd := Decode(v, Run(v, banks, subs, h[..|h| - 1]), h[|h| - 1]);
      if cmd.PDE? || cmd.PDX? || cmd.SRE? || cmd.SRX? then cmd else LastPower(v, banks, subs, h[..|h| - 1])
  }

  /** What power state a command leaves the rank in. */
  ghost predicate PowerAfter(power: Power, cmd: Command) {
    && (power.SelfRefresh? <==> cmd.SRE?)
    && (power.ActPowerDown? || power.PrePowerDown? <==> cmd.PDE?)
    && (power.PowerUp? <==> cmd.PDX? || cmd.SRX?)
  }

  lemma PowerStep(v: Variant, k: Rank, q: Request)
    requires RequestOk(k, q)
    ensures BankCommand(Decode(v, k, q)) ==> Access(q.kind)
    ensures var cmd := Decode(v, k, q);
      var power := Apply(v, k, cmd, q).power;
      if cmd.PDE? || cmd.PDX? || cmd.SRE? || cmd.SRX? then PowerAfter(power, cmd) else power == k.power
  {
    hide AnyActive, ApplyBank, DecodeBank;
    if Access(q.kind) {
      BankCommands(v, k.banks[q.bank], q);
    }
  }

  /** The rank is in self-refresh, or powered down, exactly from the command that sends it there to the next that wakes
      it. */
  lemma {:induction false} PowerExact(v: Variant, banks: nat, subs: nat, h: seq<Request>)
    requires RunOk(banks, subs, h)
    ensures PowerAfter(Run(v, banks, subs, h).power, LastPower(v, banks, subs, h))
    decreases |h|
  {
    hide Decode, Apply;
    if |h| > 0 {
      PowerExact(v, banks, subs, h[..|h| - 1]);
      PowerStep(v, Run(v, banks, subs, h[..|h| - 1]), h[|h| - 1]);
    }
  }

  /** A rank that powers down remembers whether any subarray is still open. */
  lemma PowerDownTells(v: Variant, banks: nat, subs: nat, h: seq<Request>, q: Request)
    requires RunOk(banks, subs, h) && q.kind.PowerDown? && !Run(v, banks, subs, h).power.SelfRefresh?
    ensures var k := Run(v, banks, subs, h);
      Apply(v, k, Decode(v, k, q), q).power
      == if exists b, x :: 0 <= b < banks && 0 <= x < subs && !k.banks[b].subs[x].state.Closed? then ActPowerDown
         else PrePowerDown
  {
    hide BankOk, Active;
    var k := Run(v, banks, subs, h);
    RunKeeps(v, banks, subs, h);
    forall b | 0 <= b < banks
      ensures Active(v, k.banks[b]) <==> exists x :: 0 <= x < subs && !k.banks[b].subs[x].state.Closed?
    {
      ActiveMeans(v, k.banks[b]);
    }
  }

  /** How many other subarrays of the first n are open. */
  function Others(subs: seq<Sub>, x: int, n: nat): nat
    requires n <= |subs|
  {
    if n == 0 then 0 else Others(subs, x, n - 1) + if n - 1 != x && subs[n - 1].state.Opened? then 1 else 0
  }

  lemma {:induction false} OthersZero(subs: seq<Sub>, x: int, n: nat)
    requires n <= |subs|
    ensures Others(subs, x, n) == 0 <==> forall i :: 0 <= i < n && i != x ==> !subs[i].state.Opened?
  {
    if n > 0 {
      OthersZero(subs, x, n - 1);
    }
  }

  lemma {:induction false} OthersUpdate(subs: seq<Sub>, x: int, n: nat, y: int, s: Sub)
    requires n <= |subs| && 0 <= y < |subs|
    ensures Others(subs[y := s], x, n) == Others(subs, x, n)
      + if y < n && y != x then (if s.state.Opened? then 1 else 0) - (if subs[y].state.Opened? then 1 else 0) else 0
  {
    if n > 0 {
      OthersUpdate(subs, x, n - 1, y, s);
    }
  }

  /** Preparing commands an access still needs at its bank; under SALP-2 every other open subarray costs one. */
  function BankDistance(v: Variant, bank: Bank, q: Request): nat
    requires 0 <= q.sub < |bank.subs|
  {
    var sub := bank.subs[q.sub];
    match v
    case Salp1 => if !bank.isOpen then 1 else if q.row in sub.rows then 0 else 2
    case Salp2 =>
      Others(bank.subs, q.sub, |bank.subs|)
      + if sub.state.Closed? then 1 else if q.row in sub.rows then 0 else 2
    case Masa =>
      if sub.state.Closed? then 1
      else if q.row !in sub.rows then 2
      else if sub.state.Selected? then 0 else 1
  }

  /** Each preparing command brings an access exactly one command nearer; at distance 0 it is issued. */
  lemma BankProgress(v: Variant, k: Rank, q: Request)
    requires RankOk(v, k) && RequestOk(k, q) && Access(q.kind)
    ensures var bank := k.banks[q.bank];
      var cmd := DecodeBank(v, bank, q);
      && (cmd == Final(q.kind) <==> BankDistance(v, bank, q) == 0)
      && (BankDistance(v, bank, q) > 0 ==>
            BankDistance(v, ApplyBank(v, bank, cmd, Target(k, cmd, q), q.row), q) == BankDistance(v, bank, q) - 1)
  {
    var bank, x := k.banks[q.bank], q.sub;
    assert BankOk(v, bank) && SubOk(bank.subs[x]);
    var cmd := DecodeBank(v, bank, q);
    match v {
      case Salp1 =>
      case Masa =>
        if cmd.ACT? {
          DeselectOnly(bank.subs[x := Sub(Selected, bank.subs[x].rows + {q.row})], x, 0);
        } else if cmd.SASEL? {
          DeselectOnly(bank.subs[x := bank.subs[x].(state := Selected)], x, 0);
        }
      case Salp2 =>
        var y := Target(k, cmd, q);
        if cmd.PRE_OTHER? {
          OtherIsOpen(v, bank, q);
        }
        OthersZero(bank.subs, x, |bank.subs|);
        OthersUpdate(bank.subs, x, |bank.subs|, y, CLOSED);
        OthersUpdate(bank.subs, x, |bank.subs|, x, Sub(Opened, bank.subs[x].rows + {q.row}));
    }
  }

  /** Preparing commands any request still needs, from whatever power state its rank is in. */
  function Distance(v: Variant, k: Rank, q: Request): nat
    requires RequestOk(k, q)
  {
    match q.kind
    case Refresh => if AnyActive(v, k.banks) then 1 else 0
    case PowerDown => if k.power.SelfRefresh? then 1 else 0
    case SelfRefreshEntry => if k.power.ActPowerDown? || k.power.PrePowerDown? then 1 else 0
    case _ => (if k.power.PowerUp? then 0 else 1) + BankDistance(v, k.banks[q.bank], q)
  }

  /** MAIN: each preparing command brings its request exactly one command nearer; it is complete at distance 0. */
  lemma Progress(v: Variant, k: Rank, q: Request)
    requires RankOk(v, k) && RequestOk(k, q)
    ensures BankCommand(Decode(v, k, q)) ==> Access(q.kind)
    ensures Decode(v, k, q) == Final(q.kind) <==> Distance(v, k, q) == 0
    ensures var next := Apply(v, k, Decode(v, k, q), q);
      Distance(v, k, q) > 0 ==> RequestOk(next, q) && Distance(v, next, q) == Distance(v, k, q) - 1
  {
    hide BankDistance, DecodeBank, ApplyBank, BankOk, Others;
    if Access(q.kind) {
      BankProgress(v, k, q);
      BankCommands(v, k.banks[q.bank], q);
    } else if q.kind.Refresh? && AnyActive(v, k.banks) {
      var next := Apply(v, k, PRER, q);
      assert forall b :: 0 <= b < |next.banks| ==> !Active(v, next.banks[b]);
    }
  }

  /** The prerequisites below the rank only ask for bank commands. */
  lemma BankCommands(v: Variant, bank: Bank, q: Request)
    requires 0 <= q.sub < |bank.subs| && Access(q.kind)
    ensures var cmd := DecodeBank(v, bank, q);
      BankCommand(cmd)
      || (cmd.Broken? && forall x, row :: 0 <= x < |bank.subs| ==> ApplyBank(v, bank, cmd, x, row) == bank)
  {
  }
}
