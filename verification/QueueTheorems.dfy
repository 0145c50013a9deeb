/** Every accepted request is in exactly one place, reads are answered once and in time, reads never overtake an older
    write to their address, and the service counters balance at every node. */
module QueueTheorems {
  import Service
  import opened QueueModel
  import opened ServiceTree

  /** How many requests of a list have a property. */
  function Tally(q: seq<Req>, f: Req -> bool): nat {
    if |q| == 0 then 0 else Tally(q[..|q| - 1], f) + if f(q[|q| - 1]) then 1 else 0
  }

  function One(r: Req, f: Req -> bool): nat {
    if f(r) then 1 else 0
  }

  lemma TallySnoc(q: seq<Req>, r: Req, f: Req -> bool)
    ensures Tally(q + [r], f) == Tally(q, f) + One(r, f)
  {
    assert (q + [r])[..|q|] == q;
  }

  lemma {:induction false} TallyConcat(a: seq<Req>, b: seq<Req>, f: Req -> bool)
    ensures Tally(a + b, f) == Tally(a, f) + Tally(b, f)
    decreases |b|
  {
    if |b| == 0 {
      assert a + b == a;
    } else {
      assert (a + b)[..|a + b| - 1] == a + b[..|b| - 1];
      TallyConcat(a, b[..|b| - 1], f);
    }
  }

  /** Taking an element out, or putting another in its place. */
  lemma TallySplit(q: seq<Req>, i: nat, r: Req, f: Req -> bool)
    requires i < |q|
    ensures Tally(q, f) == Tally(q[..i] + q[i + 1..], f) + One(q[i], f)
    ensures Tally(q[i := r], f) == Tally(q[..i] + q[i + 1..], f) + One(r, f)
  {
    var a, b := q[..i], q[i + 1..];
    TallyConcat(a, b, f);
    assert q == (a + [q[i]]) + b && q[i := r] == (a + [r]) + b;
    TallyConcat(a + [q[i]], b, f);
    TallyConcat(a + [r], b, f);
    TallySnoc(a, q[i], f);
    TallySnoc(a, r, f);
  }

  function HasId(id: nat): Req -> bool {
    (r: Req) => r.id == id
  }

  function Answered(replies: seq<Reply>): seq<Req> {
    seq(|replies|, i requires 0 <= i < |replies| => replies[i].req)
  }

  lemma AnsweredSnoc(replies: seq<Reply>, r: Reply)
    ensures Answered(replies + [r]) == Answered(replies) + [r.req]
  {
  }

  /** In how many places a request is. */
  function Places(s: State, id: nat): nat {
    var f := HasId(id);
    Tally(s.readq, f) + Tally(s.writeq, f) + Tally(s.otherq, f) + Tally(s.pending, f)
    + Tally(Answered(s.replies), f) + Tally(s.closed, f)
  }

  /** Every accepted request is in exactly one place, and no other is anywhere. */
  ghost predicate Conserved(s: State) {
    forall id: nat :: Places(s, id) == if id < s.accepted then 1 else 0
  }

  /** What a queue of one kind holds between ticks. */
  ghost predicate QueueOk(c: Config, q: seq<Req>, kind: Kind, clk: int, accepted: nat) {
    |q| <= c.max && forall i :: 0 <= i < |q| ==> q[i].kind == kind && q[i].arrive <= clk && q[i].id < accepted
  }

  /** A pending read was forwarded and never reached the memory, or it was started there. */
  ghost predicate PendingOk(r: Req) {
    r.kind.Read? && if r.first then r.depart == r.arrive + 1 else r.depart > r.arrive + 1
  }

  /** No read waits that was accepted after a waiting write to the same address. */
  ghost predicate Ordered(readq: seq<Req>, writeq: seq<Req>) {
    forall i, j :: 0 <= i < |readq| && 0 <= j < |writeq| && readq[i].addr == writeq[j].addr ==>
      readq[i].id < writeq[j].id
  }

  ghost predicate Timely(replies: seq<Reply>) {
    forall i :: 0 <= i < |replies| ==> replies[i].req.kind.Read? && replies[i].req.depart <= replies[i].clk
  }

  /** Started requests whose address passes through a node. */
  function StartedAt(path: seq<int>): Req -> bool {
    (r: Req) => !r.first && Passes(path, r.vec)
  }

  /** Reads and writes started through a node and not finished. */
  function InFlight(s: State, path: seq<int>): nat {
    var f := StartedAt(path);
    Tally(s.readq, f) + Tally(s.writeq, f) + Tally(s.pending, f)
  }

  /** The events at a node are proper, not in the future, and leave exactly the unfinished requests. */
  ghost predicate Balanced(s: State, path: seq<int>) {
    var h := Events(s.served, path);
    Service.Proper(h) && Service.Last(h) <= s.clk && Service.Total(h) == InFlight(s, path)
  }

  ghost predicate Inv(c: Config, s: State) {
    && c.latency > 0 && s.clk >= 0
    && QueueOk(c, s.readq, Read, s.clk, s.accepted) && QueueOk(c, s.writeq, Write, s.clk, s.accepted)
    && QueueOk(c, s.otherq, Other, s.clk, s.accepted)
    && (forall i :: 0 <= i < |s.pending| ==> PendingOk(s.pending[i]))
    && Conserved(s) && Ordered(s.readq, s.writeq) && Timely(s.replies)
    && forall path :: Balanced(s, path)
  }

  lemma EventsSnoc(s: State, req: Req, delta: int, path: seq<int>)
    ensures Events(Serving(s, req, delta).served, path)
         == Events(s.served, path) + if Passes(path, req.vec) then [Service.Event(req.id, s.clk, delta)] else []
  {
    var t := Serving(s, req, delta);
    assert t.served[..|s.served|] == s.served;
  }

  /** One more event keeps a node proper if the balance stays non-negative. */
  lemma ProperSnoc(h: seq<Service.Event>, id: nat, clk: int, delta: int)
    requires Service.Proper(h) && 0 <= clk && Service.Last(h) <= clk && (delta == 1 || delta == -1)
    requires Service.Total(h) + delta >= 0
    ensures var g := h + [Service.Event(id, clk, delta)];
      Service.Proper(g) && Service.Last(g) == clk && Service.Total(g) == Service.Total(h) + delta
  {
    var g := h + [Service.Event(id, clk, delta)];
    assert g[..|h|] == h;
  }

  /** A counter update followed by changes that account for it. */
  lemma ServingBalanced(s: State, t: State, req: Req, delta: int, path: seq<int>)
    requires Balanced(s, path) && s.clk >= 0 && (delta == 1 || delta == -1)
    requires t.clk == s.clk && t.served == Serving(s, req, delta).served
    requires InFlight(t, path) == InFlight(s, path) + if Passes(path, req.vec) then delta else 0
    ensures Balanced(t, path)
  {
    EventsSnoc(s, req, delta, path);
    if Passes(path, req.vec) {
      ProperSnoc(Events(s.served, path), req.id, s.clk, delta);
    } else {
      assert Events(s.served, path) + [] == Events(s.served, path);
    }
  }

  /** A request is accepted: a read of an address that a waiting write has goes to the end of the pending reads, due on
      the next cycle; any other goes to the end of the queue of its kind; nothing else changes. */
  ghost predicate Placed(s: State, t: State, kind: Kind, addr: int, vec: seq<int>) {
    var req := Req(s.accepted, kind, addr, vec, s.clk, 0, true);
    var forwarded := kind.Read? && exists j :: 0 <= j < |s.writeq| && s.writeq[j].addr == addr;
    && t.pending == (if forwarded then s.pending + [req.(depart := s.clk + 1)] else s.pending)
    && t.readq == (if kind.Read? && !forwarded then s.readq + [req] else s.readq)
    && t.writeq == (if kind.Write? then s.writeq + [req] else s.writeq)
    && t.otherq == (if kind.Other? then s.otherq + [req] else s.otherq)
    && t.accepted == s.accepted + 1 && t.clk == s.clk && t.writeMode == s.writeMode
    && t.replies == s.replies && t.closed == s.closed && t.served == s.served
  }

  /** MAIN: an accepted request gets the next number and exactly one place, which for a read is the list of pending
      reads if and only if some queued write has its address; a refused one changes nothing. */
  lemma EnqueueKeeps(c: Config, s: State, kind: Kind, addr: int, vec: seq<int>)
    requires Inv(c, s)
    ensures var a := Enqueue(c, s, kind, addr, vec);
      && Inv(c, a.state)
      && (a.ok <==> match kind
                    case Read => |s.readq| < c.max
                    case Write => |s.writeq| < c.max
                    case Other => |s.otherq| < c.max)
      && (if a.ok then Placed(s, a.state, kind, addr, vec) else a.state == s)
  {
    hide Places, Balanced;
    var a := Enqueue(c, s, kind, addr, vec);
    if a.ok {
      forall id: nat ensures Places(a.state, id) == if id < a.state.accepted then 1 else 0 {
        EnqueuePlaces(c, s, kind, addr, vec, id);
      }
      forall path ensures Balanced(a.state, path) {
        EnqueueBalanced(c, s, kind, addr, vec, path);
      }
    }
  }

  lemma EnqueuePlaces(c: Config, s: State, kind: Kind, addr: int, vec: seq<int>, id: nat)
    requires Enqueue(c, s, kind, addr, vec).ok
    ensures Places(Enqueue(c, s, kind, addr, vec).state, id) == Places(s, id) + if id == s.accepted then 1 else 0
  {
    hide Tally;
    var req := Req(s.accepted, kind, addr, vec, s.clk, 0, true);
    TallySnoc(Queue(s, kind), req, HasId(id));
    TallySnoc(s.pending, req.(depart := s.clk + 1), HasId(id));
  }

  lemma EnqueueBalanced(c: Config, s: State, kind: Kind, addr: int, vec: seq<int>, path: seq<int>)
    requires Balanced(s, path) && Enqueue(c, s, kind, addr, vec).ok
    ensures Balanced(Enqueue(c, s, kind, addr, vec).state, path)
  {
    hide Tally, Events, Service.Proper;
    var req := Req(s.accepted, kind, addr, vec, s.clk, 0, true);
    TallySnoc(Queue(s, kind), req, StartedAt(path));
    TallySnoc(s.pending, req.(depart := s.clk + 1), StartedAt(path));
  }

  lemma ClockInv(c: Config, s: State)
    requires Inv(c, s)
    ensures Inv(c, s.(clk := s.clk + 1))
  {
    hide Places;
    var t := s.(clk := s.clk + 1);
    forall id: nat ensures Places(t, id) == Places(s, id) {
      SamePlaces(s, t, id);
    }
    forall path ensures Balanced(t, path) {
      assert Balanced(s, path);
    }
  }

  lemma SamePlaces(s: State, t: State, id: nat)
    requires t.readq == s.readq && t.writeq == s.writeq && t.otherq == s.otherq && t.pending == s.pending
    requires t.replies == s.replies && t.closed == s.closed
    ensures Places(t, id) == Places(s, id)
  {
  }

  predicate Due(s: State) {
    |s.pending| > 0 && s.pending[0].depart <= s.clk
  }

  lemma ReapPlaces(s: State, id: nat)
    requires Due(s)
    ensures Places(Reap(s), id) == Places(s, id)
  {
    hide Tally;
    var req, f := s.pending[0], HasId(id);
    TallySplit(s.pending, 0, req, f);
    assert s.pending[..0] + s.pending[1..] == s.pending[1..];
    AnsweredSnoc(s.replies, Reply(req, s.clk));
    TallySnoc(Answered(s.replies), req, f);
  }

  lemma ReapBalanced(s: State, path: seq<int>)
    requires Due(s) && PendingOk(s.pending[0]) && s.clk >= 0 && Balanced(s, path)
    ensures Balanced(Reap(s), path)
  {
    hide Tally, Events, Service.Proper;
    var req, t := s.pending[0], Reap(s);
    TallySplit(s.pending, 0, req, StartedAt(path));
    assert s.pending[..0] + s.pending[1..] == s.pending[1..];
    if req.depart - req.arrive > 1 {
      ServingBalanced(s, t, req, -1, path);
    }
  }

  lemma ReapKeeps(c: Config, s: State)
    requires Inv(c, s)
    ensures Inv(c, Reap(s)) && Reap(s).readq == s.readq && Reap(s).writeq == s.writeq && Reap(s).otherq == s.otherq
  {
    hide Places, Balanced;
    var t := Reap(s);
    if Due(s) {
      forall id: nat ensures Places(t, id) == Places(s, id) {
        ReapPlaces(s, id);
      }
      forall path ensures Balanced(t, path) {
        ReapBalanced(s, path);
      }
    }
  }

  lemma DrainKeeps(c: Config, s: State)
    requires Inv(c, s)
    ensures Inv(c, Drain(c, s))
  {
    hide Places;
    var t := Drain(c, s);
    forall id: nat ensures Places(t, id) == Places(s, id) {
      SamePlaces(s, t, id);
    }
    forall path ensures Balanced(t, path) {
      assert Balanced(s, path);
    }
  }

  /** The parts of issuing a command: where requests are, and what the counters see. */
  lemma WorkPlaces(c: Config, s: State, choice: Choice, id: nat)
    requires ChoiceOk(s, choice)
    ensures Places(Work(c, s, choice), id) == Places(s, id)
  {
    hide Tally;
    if choice.Issue? {
      var q, f := Queue(s, Chosen(s)), HasId(id);
      var req := q[choice.i];
      var done := req.(first := false);
      TallySplit(q, choice.i, done, f);
      TallySnoc(s.pending, done.(depart := s.clk + c.latency), f);
      TallySnoc(s.closed, done, f);
    }
  }

  /** The request a command is issued for, marked as started and counted if it was not yet. */
  function Begun(s: State, choice: Choice): State
    requires ChoiceOk(s, choice) && choice.Issue?
  {
    var kind := Chosen(s);
    var req := Queue(s, kind)[choice.i];
    var s1 := if req.first && !kind.Other? then Serving(s, req, 1) else s;
    WithQueue(s1, kind, Queue(s, kind)[choice.i := req.(first := false)])
  }

  lemma BegunBalanced(s: State, choice: Choice, path: seq<int>)
    requires ChoiceOk(s, choice) && choice.Issue? && s.clk >= 0 && Balanced(s, path)
    ensures Balanced(Begun(s, choice), path)
  {
    hide Tally, Events, Service.Proper;
    var kind := Chosen(s);
    var req := Queue(s, kind)[choice.i];
    TallySplit(Queue(s, kind), choice.i, req.(first := false), StartedAt(path));
    if req.first && !kind.Other? {
      ServingBalanced(s, Begun(s, choice), req, 1, path);
    }
  }

  /** A request's last command, after it is marked as started. */
  lemma LastBalanced(c: Config, s: State, choice: Choice, path: seq<int>)
    requires ChoiceOk(s, choice) && choice.Issue? && choice.last && s.clk >= 0 && Balanced(Begun(s, choice), path)
    ensures Balanced(Work(c, s, choice), path)
  {
    hide Tally, Events, Service.Proper;
    var kind, i, f := Chosen(s), choice.i, StartedAt(path);
    var q, t := Queue(s, kind), Work(c, s, choice);
    var done := q[i].(first := false);
    var b := Begun(s, choice);
    TallySplit(q, i, done, f);
    TallySnoc(s.pending, done.(depart := s.clk + c.latency), f);
    if kind.Write? {
      ServingBalanced(b, t, q[i], -1, path);
    }
  }

  lemma WorkBalanced(c: Config, s: State, choice: Choice, path: seq<int>)
    requires ChoiceOk(s, choice) && s.clk >= 0 && Balanced(s, path)
    ensures Balanced(Work(c, s, choice), path)
  {
    hide Balanced;
    if choice.Issue? {
      BegunBalanced(s, choice, path);
      if choice.last {
        LastBalanced(c, s, choice, path);
      }
    }
  }

  /** All reads that wait arrived before this cycle. */
  ghost predicate Arrived(q: seq<Req>, clk: int) {
    forall i :: 0 <= i < |q| ==> q[i].arrive < clk
  }

  lemma WorkKeeps(c: Config, s: State, choice: Choice)
    requires Inv(c, s) && ChoiceOk(s, choice) && Arrived(s.readq, s.clk)
    ensures Inv(c, Work(c, s, choice))
  {
    hide Places, Balanced;
    var t := Work(c, s, choice);
    forall id: nat ensures Places(t, id) == Places(s, id) {
      WorkPlaces(c, s, choice, id);
    }
    forall path ensures Balanced(t, path) {
      WorkBalanced(c, s, choice, path);
    }
    if choice.Issue? {
      WorkQueues(c, s, choice);
    }
  }

  lemma WorkQueues(c: Config, s: State, choice: Choice)
    requires c.latency > 0 && ChoiceOk(s, choice) && choice.Issue? && Arrived(s.readq, s.clk)
    requires QueueOk(c, s.readq, Read, s.clk, s.accepted) && QueueOk(c, s.writeq, Write, s.clk, s.accepted)
    requires QueueOk(c, s.otherq, Other, s.clk, s.accepted) && Ordered(s.readq, s.writeq)
    requires forall i :: 0 <= i < |s.pending| ==> PendingOk(s.pending[i])
    ensures var t := Work(c, s, choice);
      && QueueOk(c, t.readq, Read, t.clk, t.accepted) && QueueOk(c, t.writeq, Write, t.clk, t.accepted)
      && QueueOk(c, t.otherq, Other, t.clk, t.accepted) && Ordered(t.readq, t.writeq)
      && (forall i :: 0 <= i < |t.pending| ==> PendingOk(t.pending[i]))
      && t.clk == s.clk && t.accepted == s.accepted && t.replies == s.replies
  {
    hide QueueOk, Ordered, PendingOk, Arrived;
    WorkPending(c, s, choice);
    assert QueueOk(c, Queue(s, Chosen(s)), Chosen(s), s.clk, s.accepted);
    EditOk(c, Queue(s, Chosen(s)), choice.i, Chosen(s), s.clk, s.accepted);
    EditOrdered(s.readq, s.writeq, choice.i);
  }

  lemma WorkPending(c: Config, s: State, choice: Choice)
    requires c.latency > 0 && ChoiceOk(s, choice) && Arrived(s.readq, s.clk)
    requires QueueOk(c, s.readq, Read, s.clk, s.accepted)
    requires forall i :: 0 <= i < |s.pending| ==> PendingOk(s.pending[i])
    ensures var t := Work(c, s, choice);
      forall i :: 0 <= i < |t.pending| ==> PendingOk(t.pending[i])
  {
  }

  lemma EditOk(c: Config, q: seq<Req>, i: nat, kind: Kind, clk: int, accepted: nat)
    requires i < |q| && QueueOk(c, q, kind, clk, accepted)
    ensures QueueOk(c, q[i := q[i].(first := false)], kind, clk, accepted)
    ensures QueueOk(c, q[..i] + q[i + 1..], kind, clk, accepted)
  {
    var e := q[..i] + q[i + 1..];
    assert forall j :: 0 <= j < |e| ==> e[j] == q[if j < i then j else j + 1];
  }

  lemma EditOrdered(readq: seq<Req>, writeq: seq<Req>, i: nat)
    requires Ordered(readq, writeq)
    ensures i < |readq| ==> Ordered(readq[i := readq[i].(first := false)], writeq)
                            && Ordered(readq[..i] + readq[i + 1..], writeq)
    ensures i < |writeq| ==> Ordered(readq, writeq[i := writeq[i].(first := false)])
                             && Ordered(readq, writeq[..i] + writeq[i + 1..])
  {
    if i < |readq| {
      var e := readq[..i] + readq[i + 1..];
      assert forall j :: 0 <= j < |e| ==> e[j] == readq[if j < i then j else j + 1];
    }
    if i < |writeq| {
      var e := writeq[..i] + writeq[i + 1..];
      assert forall j :: 0 <= j < |e| ==> e[j] == writeq[if j < i then j else j + 1];
    }
  }

  lemma {:induction false} RefreshKeeps(c: Config, s: State, vecs: seq<seq<int>>)
    requires Inv(c, s)
    ensures var t := Refresh(c, s, vecs);
      Inv(c, t) && t.clk == s.clk && t.readq == s.readq
    decreases |vecs|
  {
    hide Inv;
    if |vecs| > 0 {
      RefreshKeeps(c, s, vecs[..|vecs| - 1]);
      EnqueueKeeps(c, Refresh(c, s, vecs[..|vecs| - 1]), Other, 0, vecs[|vecs| - 1]);
    }
  }

  /** MAIN: a tick keeps every accepted request in exactly one place, the queues within their size, waiting reads older
      than waiting writes to their address, answers on time, and every node's service counters balanced. */
  lemma TickKeeps(c: Config, s: State, vecs: seq<seq<int>>, choice: Choice)
    requires Inv(c, s) && TickOk(c, s, vecs, choice)
    ensures Inv(c, Tick(c, s, vecs, choice)) && Tick(c, s, vecs, choice).clk == s.clk + 1
  {
    hide Inv, Work, Refresh, Reap;
    var s1 := s.(clk := s.clk + 1);
    ClockInv(c, s);
    ReapKeeps(c, s1);
    RefreshKeeps(c, Reap(s1), vecs);
    DrainKeeps(c, Refresh(c, Reap(s1), vecs));
    ReapClock(s1);
    AllArrived(c, s);
    WorkKeeps(c, Prepare(c, s, vecs), choice);
    WorkClock(c, Prepare(c, s, vecs), choice);
  }

  lemma ReapClock(s: State)
    ensures Reap(s).clk == s.clk
  {
  }

  lemma AllArrived(c: Config, s: State)
    requires Inv(c, s)
    ensures Arrived(s.readq, s.clk + 1)
  {
  }

  lemma WorkClock(c: Config, s: State, choice: Choice)
    requires ChoiceOk(s, choice)
    ensures Work(c, s, choice).clk == s.clk && Work(c, s, choice).accepted == s.accepted
  {
  }
}
