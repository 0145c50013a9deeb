/** Subarray-level parallelism (src/SALP.cpp): the states of one rank's banks and subarrays under the three variants,
    the command a request needs next, and the retargeting of PRE_OTHER (src/Controller.cpp). */
module SalpModel {
  import opened RankState

  datatype Variant = Salp1 | Salp2 | Masa

  datatype SaState = Closed | Opened | Selected

  datatype Sub = Sub(state: SaState, rows: set<int>)

  /** Only SALP-1 uses the bank's own state. */
  datatype Bank = Bank(isOpen: bool, subs: seq<Sub>)

  datatype Rank = Rank(power: Power, banks: seq<Bank>)

  /** `Broken` stands for a failed assertion of a prerequisite's state switch. */
  datatype Command = ACT | SASEL | PRE | PRER | RD | WR | REF | PDE | PDX | SRE | SRX | PRE_OTHER | Broken

  datatype Request = Request(kind: Kind, bank: int, sub: int, row: int)

  const CLOSED := Sub(Closed, {})

  predicate Access(kind: Kind) {
    kind.Read? || kind.Write?
  }

  predicate RequestOk(k: Rank, q: Request) {
    Access(q.kind) ==> 0 <= q.bank < |k.banks| && 0 <= q.sub < |k.banks[q.bank].subs|
  }

  function Final(kind: Kind): Command {
    match kind
    case Read => RD
    case Write => WR
    case Refresh => REF
    case PowerDown => PDE
    case SelfRefreshEntry => SRE
  }

  predicate OpenElsewhere(subs: seq<Sub>, x: int) {
    exists i :: 0 <= i < |subs| && i != x && subs[i].state.Opened?
  }

  predicate Active(v: Variant, bank: Bank) {
    if v.Salp1? then bank.isOpen else exists i :: 0 <= i < |bank.subs| && !bank.subs[i].state.Closed?
  }

  predicate AnyActive(v: Variant, banks: seq<Bank>) {
    exists b :: 0 <= b < |banks| && Active(v, banks[b])
  }

  /** The prerequisites at bank and subarray level. */
  function DecodeBank(v: Variant, bank: Bank, q: Request): Command
    requires 0 <= q.sub < |bank.subs|
  {
    var sub := bank.subs[q.sub];
    match v
    case Salp1 =>
      if !bank.isOpen then ACT
      else if q.row in sub.rows then Final(q.kind)
      else if sub.rows != {} then PRE
      else PRE_OTHER
    case Salp2 =>
      (match sub.state
       case Closed => ACT
       case Opened =>
         if q.row !in sub.rows then PRE
         else if OpenElsewhere(bank.subs, q.sub) then PRE_OTHER
         else Final(q.kind)
       case Selected => Broken)
    case Masa =>
      (match sub.state
       case Closed => ACT
       case Opened => if q.row in sub.rows then SASEL else PRE
       case Selected => if q.row in sub.rows then Final(q.kind) else PRE)
  }

  function Decode(v: Variant, k: Rank, q: Request): Command
    requires RequestOk(k, q)
  {
    match q.kind
    case Refresh => if AnyActive(v, k.banks) then PRER else REF
    case PowerDown => if k.power.SelfRefresh? then SRX else PDE
    case SelfRefreshEntry => if k.power.ActPowerDown? || k.power.PrePowerDown? then PDX else SRE
    case _ =>
      if k.power.SelfRefresh? then SRX
      else if !k.power.PowerUp? then PDX
      else DecodeBank(v, k.banks[q.bank], q)
  }

  /** The first other opened subarray from i on, or 0. */
  function Offending(subs: seq<Sub>, x: int, i: nat): (y: nat)
    requires i <= |subs| && 0 <= x < |subs|
    ensures y < |subs|
    ensures y == 0 || (y != x && subs[y].state.Opened?)
    decreases |subs| - i
  {
    if i == |subs| then 0 else if i != x && subs[i].state.Opened? then i else Offending(subs, x, i + 1)
  }

  /** The subarray a bank command acts on. */
  function Target(k: Rank, cmd: Command, q: Request): (x: int)
    requires RequestOk(k, q) && Access(q.kind)
    ensures 0 <= x < |k.banks[q.bank].subs|
  {
    if cmd.PRE_OTHER? then Offending(k.banks[q.bank].subs, q.sub, 0) else q.sub
  }

  /** The first other selected subarray from i on goes back to opened. */
  function Deselect(subs: seq<Sub>, x: int, i: nat): (r: seq<Sub>)
    requires i <= |subs|
    ensures |r| == |subs|
    decreases |subs| - i
  {
    if i == |subs| then subs
    else if i != x && subs[i].state.Selected? then subs[i := subs[i].(state := Opened)]
    else Deselect(subs, x, i + 1)
  }

  function ApplyBank(v: Variant, bank: Bank, cmd: Command, x: int, row: int): (r: Bank)
    requires 0 <= x < |bank.subs|
    ensures |r.subs| == |bank.subs|
  {
    var sub := bank.subs[x];
    match cmd
    case ACT =>
      (if v.Masa? then bank.(subs := Deselect(bank.subs[x := Sub(Selected, sub.rows + {row})], x, 0))
       else Bank(v.Salp1? || bank.isOpen, bank.subs[x := Sub(Opened, sub.rows + {row})]))
    case SASEL => if v.Masa? then bank.(subs := Deselect(bank.subs[x := sub.(state := Selected)], x, 0)) else bank
    case PRE => Bank(!v.Salp1? && bank.isOpen, bank.subs[x := CLOSED])
    case PRE_OTHER => if v.Masa? then bank else Bank(!v.Salp1? && bank.isOpen, bank.subs[x := CLOSED])
    case _ => bank
  }

  function CloseAll(v: Variant, bank: Bank): (r: Bank)
    ensures |r.subs| == |bank.subs|
  {
    Bank(!v.Salp1? && bank.isOpen, seq(|bank.subs|, _ => CLOSED))
  }

  predicate BankCommand(cmd: Command) {
    cmd.ACT? || cmd.SASEL? || cmd.PRE? || cmd.PRE_OTHER? || cmd.RD? || cmd.WR?
  }

  /** `update_state` for a request's next command. */
  function Apply(v: Variant, k: Rank, cmd: Command, q: Request): (r: Rank)
    requires RequestOk(k, q) && (BankCommand(cmd) ==> Access(q.kind))
    ensures |r.banks| == |k.banks| && forall b :: 0 <= b < |k.banks| ==> |r.banks[b].subs| == |k.banks[b].subs|
  {
    if BankCommand(cmd) then
      k.(banks := k.banks[q.bank := ApplyBank(v, k.banks[q.bank], cmd, Target(k, cmd, q), q.row)])
    else if cmd.PRER? then
      k.(banks := seq(|k.banks|, b requires 0 <= b < |k.banks| => CloseAll(v, k.banks[b])))
    else if cmd.PDE? then k.(power := if AnyActive(v, k.banks) then ActPowerDown else PrePowerDown)
    else if cmd.PDX? || cmd.SRX? then k.(power := PowerUp)
    else if cmd.SRE? then k.(power := SelfRefresh)
    else k
  }

  function Initial(banks: nat, subs: nat): Rank {
    Rank(PowerUp, seq(banks, _ => Bank(false, seq(subs, _ => CLOSED))))
  }
}
