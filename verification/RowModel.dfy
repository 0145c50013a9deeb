/** DDR3 rank and bank states, the command a request needs next, and the controller's table of open rows. */
module RowModel {
  import opened Ddr3
  import opened RankState

  /** `rows` are the keys of `row_state`. */
  datatype Bank = Bank(isOpen: bool, rows: set<int>)

  datatype Rank = Rank(power: Power, banks: seq<Bank>)

  type Channel = seq<Rank>

  /** Refresh and power requests address a whole rank; their bank and row are unspecified. */
  datatype Request = Request(kind: Kind, rank: int, bank: int, row: int)

  predicate RequestOk(ch: Channel, q: Request) {
    0 <= q.rank < |ch| && (q.kind.Read? || q.kind.Write? ==> 0 <= q.bank < |ch[q.rank].banks|)
  }

  /** `translate`: the command that completes a request. */
  function Final(kind: Kind): nat {
    match kind
    case Read => RD
    case Write => WR
    case Refresh => REF
    case PowerDown => PDE
    case SelfRefreshEntry => SRE
  }

  predicate AnyOpen(banks: seq<Bank>) {
    exists b :: 0 <= b < |banks| && banks[b].isOpen
  }

  /** `decode` for a request's final command. */
  function Decode(ch: Channel, q: Request): (cmd: nat)
    requires RequestOk(ch, q)
  {
    var rank := ch[q.rank];
    match q.kind
    case Refresh => if AnyOpen(rank.banks) then PREA else REF
    case PowerDown => if rank.power.SelfRefresh? then SRX else PDE
    case SelfRefreshEntry => if rank.power.ActPowerDown? || rank.power.PrePowerDown? then PDX else SRE
    case _ =>
      if rank.power.SelfRefresh? then SRX
      else if !rank.power.PowerUp? then PDX
      else if !rank.banks[q.bank].isOpen then ACT
      else if q.row in rank.banks[q.bank].rows then Final(q.kind)
      else PRE
  }

  function WithPower(ch: Channel, r: int, power: Power): Channel
    requires 0 <= r < |ch|
  {
    ch[r := ch[r].(power := power)]
  }

  function WithBank(ch: Channel, r: int, b: int, bank: Bank): Channel
    requires 0 <= r < |ch| && 0 <= b < |ch[r].banks|
  {
    ch[r := ch[r].(banks := ch[r].banks[b := bank])]
  }

  /** Commands that name a bank. */
  predicate BankCommand(cmd: nat) {
    cmd == ACT || cmd == PRE || cmd == RD || cmd == WR || cmd == RDA || cmd == WRA
  }

  /** `update_state`. */
  function Apply(ch: Channel, cmd: nat, q: Request): (r: Channel)
    requires 0 <= q.rank < |ch| && (BankCommand(cmd) ==> 0 <= q.bank < |ch[q.rank].banks|)
    ensures |r| == |ch| && forall i :: 0 <= i < |ch| ==> |r[i].banks| == |ch[i].banks|
  {
    if cmd == ACT then WithBank(ch, q.rank, q.bank, Bank(true, ch[q.rank].banks[q.bank].rows + {q.row}))
    else if cmd == PRE || cmd == RDA || cmd == WRA then WithBank(ch, q.rank, q.bank, Bank(false, {}))
    else if cmd == PREA then ch[q.rank := ch[q.rank].(banks := seq(|ch[q.rank].banks|, _ => Bank(false, {})))]
    else if cmd == PDE then
      WithPower(ch, q.rank, if AnyOpen(ch[q.rank].banks) then ActPowerDown else PrePowerDown)
    else if cmd == PDX || cmd == SRX then WithPower(ch, q.rank, PowerUp)
    else if cmd == SRE then WithPower(ch, q.rank, SelfRefresh)
    else ch
  }

  /** The row group of the table: a bank (all in the controller's one channel). */
  datatype Group = Group(rank: int, bank: int)

  datatype Entry = Entry(row: int, hits: int, timestamp: int)

  type Table = map<Group, Entry>

  datatype Updated = Updated(table: Table, ok: bool)

  predicate Opening(cmd: nat) {
    cmd == ACT
  }

  predicate Accessing(cmd: nat) {
    cmd == RD || cmd == WR || cmd == RDA || cmd == WRA
  }

  predicate Closing(cmd: nat) {
    cmd == RDA || cmd == WRA || cmd == PRE || cmd == PREA
  }

  /** Entries that a closing command removes: those agreeing with its address down to its scope. */
  predicate Closed(cmd: nat, q: Request, g: Group) {
    g.rank == q.rank && (cmd == PREA || g.bank == q.bank)
  }

  function Without(t: Table, cmd: nat, q: Request): Table {
    map g | g in t && !Closed(cmd, q, g) :: t[g]
  }

  predicate Removes(t: Table, cmd: nat, q: Request) {
    exists g :: g in t && Closed(cmd, q, g)
  }

  /** `RowTable::update`; `ok` is false when one of its assertions fails. A closing access would compare more
      address components than a key has, which is no defined behaviour, so it counts as a failure too. */
  function Update(t: Table, cmd: nat, q: Request, clk: int): Updated {
    var g := Group(q.rank, q.bank);
    if Opening(cmd) then Updated(if g in t then t else t[g := Entry(q.row, 0, clk)], true)
    else if Accessing(cmd) then
      if g in t && t[g].row == q.row && !Closing(cmd)
      then Updated(t[g := Entry(q.row, t[g].hits + 1, clk)], true)
      else Updated(t, false)
    else if Closing(cmd) then Updated(Without(t, cmd, q), Removes(t, cmd, q))
    else Updated(t, true)
  }
}
