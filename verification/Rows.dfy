/** The device state, the row table and the issuing controller as objects updated in place. */
module Rows {
  import opened Ddr3
  import opened RankState
  import opened M = RowModel
  import T = RowTheorems

  class RowTable {
    var table: Table

    constructor ()
      ensures table == map[]
    {
      table := map[];
    }

    /** Erase the entries a closing command covers, counting them. */
    method Erase(cmd: nat, q: Request) returns (removed: nat)
      modifies this
      ensures table == Without(old(table), cmd, q)
      ensures removed > 0 <==> Removes(old(table), cmd, q)
    {
      removed := 0;
      var rest := table.Keys;
      while rest != {}
        invariant rest <= table.Keys
        invariant forall g :: g in table ==> g in old(table) && table[g] == old(table)[g]
        invariant forall g :: g in table && g !in rest ==> !Closed(cmd, q, g)
        invariant forall g :: g in old(table) && g !in table ==> Closed(cmd, q, g)
        invariant removed > 0 <==> exists g :: g in old(table) && g !in table
        decreases |rest|
      {
        var g :| g in rest;
        rest := rest - {g};
        if Closed(cmd, q, g) {
          removed := removed + 1;
          table := table - {g};
        }
      }
    }

    /** `update`; a false answer is a failed assertion. */
    method Update(cmd: nat, q: Request, clk: int) returns (ok: bool)
      modifies this
      ensures Updated(table, ok) == M.Update(old(table), cmd, q, clk)
    {
      var g := Group(q.rank, q.bank);
      if Opening(cmd) && g !in table {
        table := table[g := Entry(q.row, 0, clk)];
      }
      if Accessing(cmd) {
        if g !in table || table[g].row != q.row || Closing(cmd) {
          return false;
        }
        table := table[g := Entry(q.row, table[g].hits + 1, clk)];
      } else if Closing(cmd) {
        var removed := Erase(cmd, q);
        return removed > 0;
      }
      ok := true;
    }
  }

  class Controller {
    var ranks: Channel
    const rowtable: RowTable
    ghost const size: nat
    ghost const width: nat
    ghost var history: seq<T.Issued>

    ghost predicate Valid()
      reads this, rowtable
    {
      && T.RunOk(size, width, history)
      && T.Run(size, width, history) == T.Ctrl(ranks, rowtable.table, true)
      && T.Refines(ranks, rowtable.table)
    }

    constructor (size: nat, width: nat)
      ensures Valid() && this.size == size && this.width == width && history == [] && fresh(rowtable)
    {
      ranks := T.Initial(size, width);
      rowtable := new RowTable();
      this.size, this.width, history := size, width, [];
    }

    /** The scan of `prereq` for a refresh: any bank of the rank not closed? */
    method AnyBankOpen(r: int) returns (p: bool)
      requires 0 <= r < |ranks|
      ensures p <==> exists b :: 0 <= b < |ranks[r].banks| && ranks[r].banks[b].isOpen
    {
      var banks := ranks[r].banks;
      for b := 0 to |banks|
        invariant forall j :: 0 <= j < b ==> !banks[j].isOpen
      {
        if banks[b].isOpen {
          return true;
        }
      }
      return false;
    }

    /** `get_first_cmd`. */
    method FirstCommand(q: Request) returns (cmd: nat)
      requires RequestOk(ranks, q)
      ensures cmd == Decode(ranks, q)
      ensures q.kind.Refresh? ==>
        cmd == if exists b :: 0 <= b < |ranks[q.rank].banks| && ranks[q.rank].banks[b].isOpen then PREA else REF
    {
      match q.kind {
        case Refresh =>
          var busy := AnyBankOpen(q.rank);
          cmd := if busy then PREA else REF;
        case PowerDown =>
          cmd := if ranks[q.rank].power.SelfRefresh? then SRX else PDE;
        case SelfRefreshEntry =>
          var power := ranks[q.rank].power;
          cmd := if power.ActPowerDown? || power.PrePowerDown? then PDX else SRE;
        case _ =>
          match ranks[q.rank].power {
            case SelfRefresh => cmd := SRX;
            case PowerUp =>
              var bank := ranks[q.rank].banks[q.bank];
              cmd := if !bank.isOpen then ACT else if q.row in bank.rows then Final(q.kind) else PRE;
            case _ => cmd := PDX;
          }
      }
    }

    method SetBank(r: int, b: int, bank: Bank)
      requires 0 <= r < |ranks| && 0 <= b < |ranks[r].banks|
      modifies this`ranks
      ensures ranks == WithBank(old(ranks), r, b, bank)
    {
      ranks := ranks[r := ranks[r].(banks := ranks[r].banks[b := bank])];
    }

    /** `update_state`. */
    method UpdateState(cmd: nat, q: Request)
      requires 0 <= q.rank < |ranks| && (BankCommand(cmd) ==> 0 <= q.bank < |ranks[q.rank].banks|)
      modifies this`ranks
      ensures ranks == Apply(old(ranks), cmd, q)
    {
      if cmd == ACT {
        SetBank(q.rank, q.bank, Bank(true, ranks[q.rank].banks[q.bank].rows + {q.row}));
      } else if cmd == PRE || cmd == RDA || cmd == WRA {
        SetBank(q.rank, q.bank, Bank(false, {}));
      } else if cmd == PREA {
        ghost var was := ranks;
        for b := 0 to |ranks[q.rank].banks|
          invariant |ranks| == |was| && |ranks[q.rank].banks| == |was[q.rank].banks|
          invariant ranks == was[q.rank := was[q.rank].(banks := ranks[q.rank].banks)]
          invariant forall j :: 0 <= j < b ==> ranks[q.rank].banks[j] == Bank(false, {})
        {
          SetBank(q.rank, b, Bank(false, {}));
        }
        assert ranks[q.rank].banks == seq(|was[q.rank].banks|, _ => Bank(false, {}));
      } else if cmd == PDE {
        var busy := AnyBankOpen(q.rank);
        ranks := WithPower(ranks, q.rank, if busy then ActPowerDown else PrePowerDown);
      } else if cmd == PDX || cmd == SRX {
        ranks := WithPower(ranks, q.rank, PowerUp);
      } else if cmd == SRE {
        ranks := WithPower(ranks, q.rank, SelfRefresh);
      }
    }

    /** One command on behalf of a request: no row-table assertion fires, and `last` tells that it completes the
        request, in which case a read or write has found its row open. */
    method Issue(q: Request, clk: int) returns (last: bool)
      requires Valid() && RequestOk(ranks, q)
      modifies this`ranks, this`history, rowtable
      ensures Valid() && history == old(history) + [T.Issued(q, clk)]
      ensures ranks == Apply(old(ranks), Decode(old(ranks), q), q)
      ensures last <==> T.Distance(old(ranks), q) == 0
      ensures last && (q.kind.Read? || q.kind.Write?) ==>
        old(ranks[q.rank]).power.PowerUp? && old(ranks[q.rank]).banks[q.bank] == Bank(true, {q.row})
      ensures last && q.kind.Refresh? ==>
        forall b :: 0 <= b < |ranks[q.rank].banks| ==> old(ranks[q.rank]).banks[b] == Bank(false, {})
    {
      hide T.Refines, Apply, M.Update;
      ghost var h := history + [T.Issued(q, clk)];
      assert h[..|h| - 1] == history;
      T.IssueRefines(ranks, rowtable.table, q, clk);
      T.Progress(ranks, q);
      var cmd := FirstCommand(q);
      last := cmd == Final(q.kind);
      if Accessing(cmd) {
        T.AccessIsHit(ranks, rowtable.table, q);
      }
      if q.kind.Refresh? {
        T.RefreshFindsClosed(size, width, history, q);
      }
      UpdateState(cmd, q);
      var ok := rowtable.Update(cmd, q, clk);
      assert ok;
      history := h;
    }
  }
}
