/** One rank with subarrays as an object whose banks are updated in place. */
module Salp {
  import opened RankState
  import opened M = SalpModel
  import T = SalpTheorems

  class SalpRank {
    const v: Variant
    var power: Power
    var banks: seq<Bank>
    ghost const width: nat
    ghost const depth: nat
    ghost var history: seq<Request>

    ghost function State(): Rank
      reads this
    {
      Rank(power, banks)
    }

    ghost predicate Valid()
      reads this
    {
      T.RunOk(width, depth, history) && State() == T.Run(v, width, depth, history) && T.RankOk(v, State())
    }

    constructor (v: Variant, width: nat, depth: nat)
      ensures Valid() && this.v == v && this.width == width && this.depth == depth && history == []
    {
      this.v, this.width, this.depth, history := v, width, depth, [];
      power := PowerUp;
      banks := seq(width, _ => Bank(false, seq(depth, _ => CLOSED)));
    }

    /** `get_offending_subarray`. */
    static method OffendingSubarray(subs: seq<Sub>, x: int) returns (y: nat)
      requires 0 <= x < |subs|
      ensures y == Offending(subs, x, 0)
    {
      y := 0;
      for i := 0 to |subs|
        invariant y == 0 && Offending(subs, x, 0) == Offending(subs, x, i)
      {
        if i != x && subs[i].state.Opened? {
          y := i;
          break;
        }
      }
    }

    /** The loop of the MASA lambdas: the first other selected subarray is only opened again. */
    static method DeselectOther(subs: seq<Sub>, x: int) returns (r: seq<Sub>)
      ensures r == Deselect(subs, x, 0)
    {
      r := subs;
      for i := 0 to |subs|
        invariant r == subs && Deselect(subs, x, 0) == Deselect(subs, x, i)
      {
        if i != x && subs[i].state.Selected? {
          r := subs[i := subs[i].(state := Opened)];
          break;
        }
      }
    }

    method AnyBankActive() returns (p: bool)
      ensures p == AnyActive(v, banks)
    {
      for b := 0 to |banks|
        invariant forall j :: 0 <= j < b ==> !Active(v, banks[j])
      {
        var busy := BankActive(banks[b]);
        if busy {
          return true;
        }
      }
      return false;
    }

    method BankActive(bank: Bank) returns (p: bool)
      ensures p == Active(v, bank)
    {
      if v.Salp1? {
        return bank.isOpen;
      }
      for i := 0 to |bank.subs|
        invariant forall j :: 0 <= j < i ==> bank.subs[j].state.Closed?
      {
        if !bank.subs[i].state.Closed? {
          return true;
        }
      }
      return false;
    }

    /** `get_first_cmd`. */
    method FirstCommand(q: Request) returns (cmd: Command)
      requires RequestOk(State(), q)
      ensures cmd == Decode(v, State(), q)
    {
      if q.kind.Refresh? {
        var busy := AnyBankActive();
        return if busy then PRER else REF;
      }
      cmd := Decode(v, Rank(power, banks), q);
    }

    /** The lambdas of a bank's commands. */
    method UpdateBank(cmd: Command, b: int, x: int, row: int)
      requires 0 <= b < |banks| && 0 <= x < |banks[b].subs|
      modifies this`banks
      ensures banks == old(banks)[b := ApplyBank(v, old(banks[b]), cmd, x, row)]
    {
      var bank := banks[b];
      var sub := bank.subs[x];
      var subs := bank.subs;
      var open := bank.isOpen;
      if cmd.ACT? {
        if v.Masa? {
          subs := DeselectOther(subs[x := Sub(Selected, sub.rows + {row})], x);
        } else {
          subs := subs[x := Sub(Opened, sub.rows + {row})];
          open := v.Salp1? || open;
        }
      } else if cmd.SASEL? && v.Masa? {
        subs := DeselectOther(subs[x := sub.(state := Selected)], x);
      } else if cmd.PRE? || (cmd.PRE_OTHER? && !v.Masa?) {
        subs := subs[x := CLOSED];
        open := !v.Salp1? && open;
      }
      banks := banks[b := Bank(open, subs)];
    }

    /** The lambda of PRER: every subarray of every bank. */
    method PrechargeAll()
      modifies this`banks
      ensures banks == seq(|old(banks)|, b requires 0 <= b < |old(banks)| => CloseAll(v, old(banks)[b]))
    {
      for b := 0 to |banks|
        invariant |banks| == |old(banks)|
        invariant forall j :: 0 <= j < |banks| ==>
          banks[j] == if j < b then CloseAll(v, old(banks)[j]) else old(banks)[j]
      {
        var bank := banks[b];
        banks := banks[b := Bank(!v.Salp1? && bank.isOpen, seq(|bank.subs|, _ => CLOSED))];
      }
    }

    method UpdateState(cmd: Command, q: Request)
      requires RequestOk(State(), q) && (BankCommand(cmd) ==> Access(q.kind))
      modifies this`banks, this`power
      ensures State() == Apply(v, old(State()), cmd, q)
    {
      if BankCommand(cmd) {
        var x := q.sub;
        if cmd.PRE_OTHER? {
          x := OffendingSubarray(banks[q.bank].subs, q.sub);
        }
        UpdateBank(cmd, q.bank, x, q.row);
      } else if cmd.PRER? {
        PrechargeAll();
      } else if cmd.PDE? {
        var busy := AnyBankActive();
        power := if busy then ActPowerDown else PrePowerDown;
      } else if cmd.PDX? || cmd.SRX? {
        power := PowerUp;
      } else if cmd.SRE? {
        power := SelfRefresh;
      }
    }

    /** One command on behalf of a request; it never meets an unexpected state, and keeps every bank safe. */
    method Issue(q: Request) returns (cmd: Command)
      requires Valid() && RequestOk(State(), q)
      modifies this`banks, this`power, this`history
      ensures Valid() && history == old(history) + [q]
      ensures cmd == Decode(v, old(State()), q) && !cmd.Broken?
      ensures State() == Apply(v, old(State()), cmd, q)
      ensures cmd == Final(q.kind) <==> old(T.Distance(v, State(), q)) == 0
      ensures cmd != Final(q.kind) ==>
        RequestOk(State(), q) && T.Distance(v, State(), q) == old(T.Distance(v, State(), q)) - 1
    {
      hide Apply, Decode, T.BankOk, T.Distance;
      ghost var h := history + [q];
      assert h[..|h| - 1] == history;
      T.StepKeeps(v, State(), q);
      T.Progress(v, State(), q);
      cmd := FirstCommand(q);
      UpdateState(cmd, q);
      history := h;
    }
  }
}
