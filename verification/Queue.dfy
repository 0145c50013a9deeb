/** The memory controller with its queues as an object updated in place. */
module Queue {
  import L = QueueLives
  import opened M = QueueModel
  import R = QueueRuns
  import Service
  import opened ServiceTree
  import T = QueueTheorems

  class MemoryController {
    const c: Config
    var clk: int
    var readq: seq<Req>
    var writeq: seq<Req>
    var otherq: seq<Req>
    var pending: seq<Req>
    var writeMode: bool
    var channel: Node
    var accepted: nat
    ghost var replies: seq<Reply>
    ghost var closed: seq<Req>
    ghost var served: seq<Served>

    ghost function State(): M.State
      reads this
    {
      M.State(clk, readq, writeq, otherq, pending, writeMode, accepted, replies, closed, served)
    }

    ghost predicate Valid()
      reads this
    {
      T.Inv(c, State()) && L.Tracked(c, State()) && Linked()
    }

    /** The node counters are those of the recorded events. */
    ghost predicate Linked()
      reads this
    {
      NodeOk(c.tree) && channel == Fold(c.tree, c.bank, served)
    }

    /** The counters in the tree are exact whenever no call is under way. */
    lemma Exact(path: seq<int>)
      requires Valid() && Fresh(c.tree) && HasPath(c.tree, path) && |path| <= c.bank + 1
      ensures R.NodeExact(c, State(), channel, path)
    {
      hide T.Inv, L.Tracked, R.NodeExact, NodeOk, Fresh, Fold;
      R.NodesExact(c, State(), path);
    }

    constructor (c: Config)
      requires c.latency > 0 && NodeOk(c.tree)
      ensures Valid() && State() == Initial() && channel == c.tree && this.c == c
    {
      this.c, channel := c, c.tree;
      clk, readq, writeq, otherq, pending, writeMode := 0, [], [], [], [], false;
      accepted, replies, closed, served := 0, [], [], [];
      new;
      R.InitialInv(c);
    }

    /** The search for a write to the same address. */
    method HasWrite(addr: int) returns (found: bool)
      ensures found == Queued(writeq, addr)
    {
      for i := 0 to |writeq|
        invariant forall j :: 0 <= j < i ==> writeq[j].addr != addr
      {
        if writeq[i].addr == addr {
          return true;
        }
      }
      return false;
    }

    method Enqueue(kind: Kind, addr: int, vec: seq<int>) returns (ok: bool)
      requires Valid() && (kind.Other? || Reaches(c.tree, 0, c.bank, vec))
      modifies this
      ensures Valid() && Answer(State(), ok) == M.Enqueue(c, old(State()), kind, addr, vec)
      ensures ok <==> |if kind.Read? then old(readq) else if kind.Write? then old(writeq) else old(otherq)| < c.max
      ensures if ok then T.Placed(old(State()), State(), kind, addr, vec) else State() == old(State())
    {
      hide T.Inv, L.Tracked, Fold, NodeOk;
      ghost var s := State();
      L.LatencyPositive(c, s);
      T.EnqueueKeeps(c, s, kind, addr, vec);
      L.EnqueueTracked(c, s, kind, addr, vec);
      var size := |if kind.Read? then readq else if kind.Write? then writeq else otherq|;
      if size == c.max {
        return false;
      }
      var req := Req(accepted, kind, addr, vec, clk, 0, true);
      match kind {
        case Read =>
          var forward := HasWrite(addr);
          if forward {
            pending := pending + [req.(depart := clk + 1)];
          } else {
            readq := readq + [req];
          }
        case Write =>
          writeq := writeq + [req];
        case Other =>
          otherq := otherq + [req];
      }
      accepted := accepted + 1;
      ok := true;
    }

    /** The counters of every node on the request's address. */
    method UpdateServing(req: Req, delta: int)
      requires Linked()
      modifies this`channel, this`served
      ensures Linked() && State() == Serving(old(State()), req, delta)
    {
      hide Update, Fold, NodeOk;
      var u := Served(req.vec, Service.Event(req.id, clk, delta));
      FoldSnoc(c.tree, c.bank, served, u);
      channel := Update(channel, 0, c.bank, u);
      served := served + [u];
    }

    method Reap()
      requires Linked()
      modifies this`channel, this`served, this`pending, this`replies
      ensures Linked() && State() == M.Reap(old(State()))
    {
      hide Fold, NodeOk;
      if |pending| > 0 {
        var req := pending[0];
        if req.depart <= clk {
          if req.depart - req.arrive > 1 {
            UpdateServing(req, -1);
          }
          replies := replies + [Reply(req, clk)];
          pending := pending[1..];
        }
      }
    }

    method Drain()
      modifies this`writeMode
      ensures State() == M.Drain(c, old(State()))
    {
      if !writeMode {
        if |writeq| >= c.high || |readq| == 0 {
          writeMode := true;
        }
      } else if |writeq| <= c.low && |readq| != 0 {
        writeMode := false;
      }
    }

    method SetQueue(kind: Kind, q: seq<Req>)
      modifies this`readq, this`writeq, this`otherq
      ensures State() == WithQueue(old(State()), kind, q)
    {
      match kind {
        case Read => readq := q;
        case Write => writeq := q;
        case Other => otherq := q;
      }
    }

    /** Step 4 of a tick, with the scheduler's choice. */
    method Work(choice: Choice)
      requires Linked() && ChoiceOk(State(), choice)
      modifies this
      ensures Linked() && State() == M.Work(c, old(State()), choice)
    {
      hide Fold, NodeOk;
      if choice.Nothing? {
        return;
      }
      var kind := if |otherq| > 0 then Other else if writeMode then Write else Read;
      var q := if kind.Read? then readq else if kind.Write? then writeq else otherq;
      var req := q[choice.i];
      if req.first && !kind.Other? {
        UpdateServing(req, 1);
      }
      if !choice.last {
        SetQueue(kind, q[choice.i := req.(first := false)]);
        return;
      }
      SetQueue(kind, q[..choice.i] + q[choice.i + 1..]);
      if kind.Read? {
        pending := pending + [req.(first := false, depart := clk + c.latency)];
      } else {
        if kind.Write? {
          UpdateServing(req, -1);
        }
        closed := closed + [req.(first := false)];
      }
    }

    /** `tick`: answer a read, take in refreshes, choose the direction, issue a command. */
    method Tick(vecs: seq<seq<int>>, choice: Choice)
      requires Valid() && TickOk(c, State(), vecs, choice)
      modifies this
      ensures Valid() && State() == M.Tick(c, old(State()), vecs, choice)
    {
      hide T.Inv, L.Tracked, Fold, NodeOk, M.Reap, M.Refresh, M.Work;
      ghost var s := State();
      T.TickKeeps(c, s, vecs, choice);
      L.TickTracked(c, s, vecs, choice);
      clk := clk + 1;
      Reap();
      TakeRefreshes(vecs);
      Drain();
      Work(choice);
    }

    method TakeRefreshes(vecs: seq<seq<int>>)
      requires Linked() && |otherq| + |vecs| <= c.max
      modifies this`otherq, this`accepted
      ensures Linked() && State() == M.Refresh(c, old(State()), vecs)
    {
      ghost var s := State();
      for i := 0 to |vecs|
        invariant Linked() && |otherq| == |s.otherq| + i
        invariant State() == M.Refresh(c, s, vecs[..i])
      {
        assert vecs[..i + 1][..i] == vecs[..i];
        otherq := otherq + [Req(accepted, Other, 0, vecs[i], clk, 0, true)];
        accepted := accepted + 1;
      }
      assert vecs[..|vecs|] == vecs;
    }
  }
}
