/** What each request leaves in the log of counter updates: one start, then at most one finish, at every node of its
    address, which names nodes of the tree. */
module QueueLives {
  import Service
  import opened QueueModel
  import opened QueueTheorems
  import opened ServiceTree

  /** A read or write that is not finished. */
  ghost predicate Live(s: State, r: Req) {
    r in s.readq || r in s.writeq || r in s.pending
  }

  lemma {:induction false} TallyOne(q: seq<Req>, i: nat, f: Req -> bool)
    requires i < |q| && f(q[i])
    ensures Tally(q, f) >= 1
    decreases |q|
  {
    if i < |q| - 1 {
      TallyOne(q[..|q| - 1], i, f);
    }
  }

  lemma {:induction false} TallyTwo(q: seq<Req>, i: nat, j: nat, f: Req -> bool)
    requires i < j < |q| && f(q[i]) && f(q[j])
    ensures Tally(q, f) >= 2
    decreases |q|
  {
    if j < |q| - 1 {
      TallyTwo(q[..|q| - 1], i, j, f);
    } else {
      TallyOne(q[..|q| - 1], i, f);
    }
  }

  lemma AnyIn(q: seq<Req>, r: Req)
    ensures r in q ==> Tally(q, HasId(r.id)) >= 1
  {
    if r in q {
      var i :| 0 <= i < |q| && q[i] == r;
      TallyOne(q, i, HasId(r.id));
    }
  }

  lemma BothIn(q: seq<Req>, a: Req, b: Req)
    requires a in q && b in q && a != b && a.id == b.id
    ensures Tally(q, HasId(a.id)) >= 2
  {
    var i :| 0 <= i < |q| && q[i] == a;
    var j :| 0 <= j < |q| && q[j] == b;
    TallyTwo(q, if i < j then i else j, if i < j then j else i, HasId(a.id));
  }

  /** Unfinished requests are told apart by their number. */
  lemma Single(s: State, a: Req, b: Req)
    requires Places(s, a.id) <= 1 && Live(s, a) && Live(s, b) && a.id == b.id
    ensures a == b
  {
    hide Tally;
    AnyIn(s.readq, a);
    AnyIn(s.writeq, a);
    AnyIn(s.pending, a);
    AnyIn(s.readq, b);
    AnyIn(s.writeq, b);
    AnyIn(s.pending, b);
    if a != b {
      if a in s.readq && b in s.readq {
        BothIn(s.readq, a, b);
      } else if a in s.writeq && b in s.writeq {
        BothIn(s.writeq, a, b);
      } else if a in s.pending && b in s.pending {
        BothIn(s.pending, a, b);
      }
    }
  }

  /** A request is not among the finished ones while it lives. */
  lemma Gone(s: State, r: Req, done: Req)
    requires Places(s, r.id) <= 1 && Live(s, r) && (done in s.closed || done in Answered(s.replies))
    ensures r.id != done.id
  {
    hide Tally;
    AnyIn(s.readq, r);
    AnyIn(s.writeq, r);
    AnyIn(s.pending, r);
    AnyIn(s.closed, done);
    AnyIn(Answered(s.replies), done);
  }

  lemma LiveAccepted(s: State, r: Req)
    requires Conserved(s) && Live(s, r)
    ensures r.id < s.accepted
  {
    hide Tally;
    AnyIn(s.readq, r);
    AnyIn(s.writeq, r);
    AnyIn(s.pending, r);
    assert Places(s, r.id) >= 1;
  }

  /** A request that was started has one event at each node of its address, another one none. */
  ghost predicate LifeOk(h: seq<Service.Event>, r: Req, path: seq<int>) {
    |Service.Of(h, r.id)| == if StartedAt(path)(r) then 1 else 0
  }

  ghost predicate Past(h: seq<Service.Event>, accepted: nat, clk: int) {
    forall i :: 0 <= i < |h| ==> h[i].id < accepted && h[i].clk <= clk
  }

  ghost predicate Lives(s: State, path: seq<int>) {
    var h := Events(s.served, path);
    && Past(h, s.accepted, s.clk)
    && (forall id: nat :: Service.OneLife(h, id))
    && forall r :: Live(s, r) ==> LifeOk(h, r, path)
  }

  lemma {:induction false} OfPast(h: seq<Service.Event>, id: nat, accepted: nat, clk: int)
    requires Past(h, accepted, clk)
    ensures id >= accepted ==> |Service.Of(h, id)| == 0
    ensures Past(Service.Of(h, id), accepted, clk)
    decreases |h|
  {
    if |h| > 0 {
      OfPast(h[..|h| - 1], id, accepted, clk);
    }
  }

  /** A step without counter update. */
  lemma SameLog(s: State, t: State, path: seq<int>)
    requires Lives(s, path) && t.served == s.served && t.clk >= s.clk && t.accepted >= s.accepted
    requires forall r :: Live(t, r) ==> LifeOk(Events(s.served, path), r, path)
    ensures Lives(t, path)
  {
    hide Live, LifeOk, Service.OneLife, Events;
  }

  lemma StartLife(h: seq<Service.Event>, id: nat, clk: int)
    requires |Service.Of(h, id)| == 0
    ensures var g := h + [Service.Event(id, clk, 1)];
      Service.OneLife(g, id) && |Service.Of(g, id)| == 1
  {
    Service.OfSnoc(h, Service.Event(id, clk, 1), id);
  }

  lemma FinishLife(h: seq<Service.Event>, id: nat, accepted: nat, clk: int)
    requires Service.OneLife(h, id) && |Service.Of(h, id)| == 1 && Past(h, accepted, clk)
    ensures Service.OneLife(h + [Service.Event(id, clk, -1)], id)
  {
    OfPast(h, id, accepted, clk);
    Service.OfSnoc(h, Service.Event(id, clk, -1), id);
  }

  lemma OtherLife(h: seq<Service.Event>, e: Service.Event, id: nat)
    requires e.id != id
    ensures Service.Of(h + [e], id) == Service.Of(h, id)
    ensures Service.OneLife(h + [e], id) == Service.OneLife(h, id)
  {
    Service.OfSnoc(h, e, id);
  }

  /** A step that starts (delta 1) or finishes (delta -1) an unfinished request. */
  lemma OneEvent(s: State, t: State, req: Req, delta: int, path: seq<int>)
    requires Lives(s, path) && Live(s, req) && req.id < s.accepted
    requires (delta == 1 && req.first) || (delta == -1 && !req.first)
    requires t.served == Serving(s, req, delta).served && t.clk == s.clk && t.accepted == s.accepted
    requires forall r :: Live(t, r) ==> if r.id == req.id then delta == 1 && r == req.(first := false) else Live(s, r)
    ensures Lives(t, path)
  {
    hide Live, Events, Service.OneLife;
    var h, e := Events(s.served, path), Service.Event(req.id, s.clk, delta);
    EventsSnoc(s, req, delta, path);
    assert LifeOk(h, req, path);
    if Passes(path, req.vec) {
      forall id: nat ensures Service.OneLife(h + [e], id) {
        if id != req.id {
          OtherLife(h, e, id);
        } else if delta == 1 {
          StartLife(h, id, s.clk);
        } else {
          FinishLife(h, id, s.accepted, s.clk);
        }
      }
      forall r | Live(t, r) ensures LifeOk(h + [e], r, path) {
        if r.id == req.id {
          StartLife(h, r.id, s.clk);
        } else {
          OtherLife(h, e, r.id);
        }
      }
    } else {
      assert h + [] == h;
    }
  }

  lemma EnqueueLives(c: Config, s: State, kind: Kind, addr: int, vec: seq<int>, path: seq<int>)
    requires Lives(s, path) && Enqueue(c, s, kind, addr, vec).ok
    ensures Lives(Enqueue(c, s, kind, addr, vec).state, path)
  {
    hide Events, Service.OneLife, Service.Of, Passes;
    var h, t := Events(s.served, path), Enqueue(c, s, kind, addr, vec).state;
    OfPast(h, s.accepted, s.accepted, s.clk);
    forall r | Live(t, r) ensures LifeOk(h, r, path) {
      assert Live(s, r) || (r.id == s.accepted && r.first);
    }
    SameLog(s, t, path);
  }

  lemma ReapLives(s: State, path: seq<int>)
    requires Due(s) && PendingOk(s.pending[0]) && Conserved(s) && Lives(s, path)
    ensures Lives(Reap(s), path)
  {
    hide Events, Service.OneLife, Service.Of, Passes, Places;
    var req, t := s.pending[0], Reap(s);
    LiveAccepted(s, req);
    ReapPlaces(s, req.id);
    assert Answered(t.replies)[|s.replies|] == req;
    forall r | Live(t, r) ensures Live(s, r) && r.id != req.id {
      if r.id == req.id {
        Gone(t, r, req);
      }
    }
    if req.depart - req.arrive > 1 {
      OneEvent(s, t, req, -1, path);
    } else {
      SameLog(s, t, path);
    }
  }

  lemma BegunLives(c: Config, s: State, choice: Choice, path: seq<int>)
    requires ChoiceOk(s, choice) && choice.Issue? && Conserved(s) && Lives(s, path)
    ensures Lives(Begun(s, choice), path)
  {
    hide Events, Service.OneLife, Service.Of, Passes, Places;
    var kind, t := Chosen(s), Begun(s, choice);
    var req := Queue(s, kind)[choice.i];
    var done := req.(first := false);
    WorkPlaces(c, s, Issue(choice.i, false), req.id);
    assert Queue(t, kind)[choice.i] == done;
    forall r | Live(t, r) ensures r == done || Live(s, r) {
      EditIn(Queue(s, kind), choice.i, done, r);
    }
    if kind.Other? {
      SameLog(s, t, path);
    } else {
      LiveAccepted(s, req);
      forall r | Live(t, r) ensures if r.id == req.id then r == done else Live(s, r) {
        if r.id == req.id {
          Single(t, r, done);
        }
      }
      if req.first {
        OneEvent(s, t, req, 1, path);
      } else {
        SameLog(s, t, path);
      }
    }
  }

  /** What is in a queue after one element is replaced or taken out. */
  lemma EditIn(q: seq<Req>, i: nat, done: Req, r: Req)
    requires i < |q|
    ensures r in q[i := done] ==> r == done || r in q
    ensures r in q[..i] + q[i + 1..] ==> r in q
  {
  }

  lemma LastLives(c: Config, s: State, choice: Choice, path: seq<int>)
    requires ChoiceOk(s, choice) && choice.Issue? && choice.last && Conserved(s) && Lives(Begun(s, choice), path)
    ensures Lives(Work(c, s, choice), path)
  {
    hide Events, Service.OneLife, Service.Of, Passes, Places;
    var kind, b, t := Chosen(s), Begun(s, choice), Work(c, s, choice);
    var q := Queue(b, kind);
    var done := q[choice.i];
    WorkPlaces(c, s, choice, done.id);
    WorkPlaces(c, s, Issue(choice.i, false), done.id);
    TakenOut(Queue(s, kind), choice.i, done);
    forall r | Live(t, r) ensures Live(b, r) || (kind.Read? && r == done.(depart := s.clk + c.latency)) {
      EditIn(q, choice.i, done, r);
    }
    if kind.Write? {
      assert t.closed[|s.closed|] == done;
      forall r | Live(t, r) ensures Live(b, r) && r.id != done.id {
        if r.id == done.id {
          Gone(t, r, done);
        }
      }
      assert Places(s, done.id) == Places(b, done.id);
      assert Live(b, done);
      LiveAccepted(s, Queue(s, kind)[choice.i]);
      OneEvent(b, t, done, -1, path);
    } else {
      forall r | Live(t, r) ensures LifeOk(Events(b.served, path), r, path) {
        if !Live(b, r) {
          assert Live(b, done);
          assert LifeOk(Events(b.served, path), done, path);
        }
      }
      SameLog(b, t, path);
    }
  }

  lemma TakenOut(q: seq<Req>, i: nat, done: Req)
    requires i < |q|
    ensures q[..i] + q[i + 1..] == q[i := done][..i] + q[i := done][i + 1..]
  {
  }

  lemma WorkLives(c: Config, s: State, choice: Choice, path: seq<int>)
    requires ChoiceOk(s, choice) && Conserved(s) && Lives(s, path)
    ensures Lives(Work(c, s, choice), path)
  {
    hide Lives, Conserved;
    if choice.Issue? {
      BegunLives(c, s, choice, path);
      if choice.last {
        LastLives(c, s, choice, path);
      }
    }
  }

  /** Addresses of the memory tree. */
  ghost predicate Addressed(c: Config, s: State) {
    && (forall r :: Live(s, r) ==> Reaches(c.tree, 0, c.bank, r.vec))
    && forall i :: 0 <= i < |s.served| ==> Reaches(c.tree, 0, c.bank, s.served[i].vec)
  }

  /** A pending read is answered within the read latency, if those before it are. */
  ghost predicate Soon(c: Config, s: State) {
    forall i :: 0 <= i < |s.pending| ==> s.pending[i].depart <= s.clk + c.latency
  }

  ghost predicate Tracked(c: Config, s: State) {
    Addressed(c, s) && Soon(c, s) && forall path :: Lives(s, path)
  }

  lemma ReapAddressed(c: Config, s: State)
    requires Addressed(c, s) && Soon(c, s)
    ensures Addressed(c, Reap(s)) && Soon(c, Reap(s))
  {
    hide Reaches;
    var t := Reap(s);
    if Due(s) {
      assert Live(s, s.pending[0]);
      forall r | Live(t, r) ensures Live(s, r) {
      }
    }
  }

  lemma EnqueueAddressed(c: Config, s: State, kind: Kind, addr: int, vec: seq<int>)
    requires Addressed(c, s) && Soon(c, s) && c.latency > 0
    requires kind.Other? || Reaches(c.tree, 0, c.bank, vec)
    ensures var t := Enqueue(c, s, kind, addr, vec).state; Addressed(c, t) && Soon(c, t)
  {
    hide Reaches;
    var t := Enqueue(c, s, kind, addr, vec).state;
    forall r | Live(t, r) ensures Live(s, r) || (r.vec == vec && !kind.Other?) {
    }
  }

  lemma WorkAddressed(c: Config, s: State, choice: Choice)
    requires Addressed(c, s) && Soon(c, s) && c.latency > 0 && ChoiceOk(s, choice)
    ensures var t := Work(c, s, choice); Addressed(c, t) && Soon(c, t)
  {
    hide Reaches;
    if choice.Issue? {
      var kind, t := Chosen(s), Work(c, s, choice);
      var q := Queue(s, kind);
      var req := q[choice.i];
      assert kind.Other? || Live(s, req);
      forall r | Live(t, r) ensures Live(s, r) || (!kind.Other? && r.vec == req.vec) {
        EditIn(q, choice.i, req.(first := false), r);
      }
    }
  }

  lemma EnqueueTracked(c: Config, s: State, kind: Kind, addr: int, vec: seq<int>)
    requires Tracked(c, s) && c.latency > 0 && (kind.Other? || Reaches(c.tree, 0, c.bank, vec))
    ensures Tracked(c, Enqueue(c, s, kind, addr, vec).state)
  {
    hide Lives, Addressed, Soon;
    var a := Enqueue(c, s, kind, addr, vec);
    EnqueueAddressed(c, s, kind, addr, vec);
    if a.ok {
      forall path ensures Lives(a.state, path) {
        EnqueueLives(c, s, kind, addr, vec, path);
      }
    }
  }

  lemma {:induction false} RefreshTracked(c: Config, s: State, vecs: seq<seq<int>>)
    requires Tracked(c, s) && c.latency > 0
    ensures Tracked(c, Refresh(c, s, vecs))
    decreases |vecs|
  {
    hide Tracked;
    if |vecs| > 0 {
      RefreshTracked(c, s, vecs[..|vecs| - 1]);
      EnqueueTracked(c, Refresh(c, s, vecs[..|vecs| - 1]), Other, 0, vecs[|vecs| - 1]);
    }
  }

  lemma ClockTracked(c: Config, s: State)
    requires Tracked(c, s)
    ensures Tracked(c, s.(clk := s.clk + 1))
  {
    var t := s.(clk := s.clk + 1);
    StillTracked(c, s, t);
  }

  lemma DrainTracked(c: Config, s: State)
    requires Tracked(c, s)
    ensures Tracked(c, Drain(c, s))
  {
    StillTracked(c, s, Drain(c, s));
  }

  lemma StillTracked(c: Config, s: State, t: State)
    requires Tracked(c, s) && t.clk >= s.clk && t.accepted == s.accepted && t.served == s.served
    requires t.readq == s.readq && t.writeq == s.writeq && t.pending == s.pending
    ensures Tracked(c, t)
  {
    hide Reaches, Service.OneLife, Events, LifeOk;
    forall r ensures Live(t, r) == Live(s, r) {
    }
    forall path ensures Lives(t, path) {
      assert Lives(s, path);
      SameLog(s, t, path);
    }
  }

  lemma ReapTracked(c: Config, s: State)
    requires Inv(c, s) && Tracked(c, s)
    ensures Tracked(c, Reap(s))
  {
    hide Lives, Addressed, Soon, Conserved, Balanced, Ordered, Timely, QueueOk, PendingOk;
    ReapAddressed(c, s);
    if Due(s) {
      forall path ensures Lives(Reap(s), path) {
        ReapLives(s, path);
      }
    }
  }

  lemma WorkTracked(c: Config, s: State, choice: Choice)
    requires Inv(c, s) && Tracked(c, s) && ChoiceOk(s, choice)
    ensures Tracked(c, Work(c, s, choice))
  {
    hide Lives, Addressed, Soon, Conserved, Balanced, Ordered, Timely, QueueOk, PendingOk, Work;
    WorkAddressed(c, s, choice);
    forall path ensures Lives(Work(c, s, choice), path) {
      WorkLives(c, s, choice, path);
    }
  }

  /** MAIN: a tick adds at most a start for a request not yet started and finishes for requests started and not
      finished, each along an address of the tree. */
  lemma TickTracked(c: Config, s: State, vecs: seq<seq<int>>, choice: Choice)
    requires Inv(c, s) && Tracked(c, s) && TickOk(c, s, vecs, choice)
    ensures Tracked(c, Tick(c, s, vecs, choice))
  {
    hide Inv, Tracked, Work, Refresh, Reap;
    var s1 := s.(clk := s.clk + 1);
    var s2 := Refresh(c, Reap(s1), vecs);
    LatencyPositive(c, s);
    ClockInv(c, s);
    ClockTracked(c, s);
    ReapKeeps(c, s1);
    ReapTracked(c, s1);
    RefreshKeeps(c, Reap(s1), vecs);
    RefreshTracked(c, Reap(s1), vecs);
    DrainKeeps(c, s2);
    DrainTracked(c, s2);
    WorkTracked(c, Prepare(c, s, vecs), choice);
  }

  lemma LatencyPositive(c: Config, s: State)
    requires Inv(c, s)
    ensures c.latency > 0
  {
  }
}
