/** Whole runs of the memory controller's queues: every request in one place, every due read answered in time, and the
    service counters of the tree's nodes. */
module QueueRuns {
  import Service
  import opened Arith
  import opened QueueLives
  import opened QueueModel
  import opened QueueTheorems
  import opened ServiceTree

  datatype Step = Arrive(kind: Kind, addr: int, vec: seq<int>) | Clock(vecs: seq<seq<int>>, choice: Choice)

  /** Reads and writes arrive with an address of the memory tree. */
  ghost predicate StepOk(c: Config, s: State, step: Step) {
    match step
    case Arrive(kind, addr, vec) => kind.Other? || Reaches(c.tree, 0, c.bank, vec)
    case Clock(vecs, choice) => TickOk(c, s, vecs, choice)
  }

  ghost function Do(c: Config, s: State, step: Step): State
    requires StepOk(c, s, step)
  {
    match step
    case Arrive(kind, addr, vec) => Enqueue(c, s, kind, addr, vec).state
    case Clock(vecs, choice) => Tick(c, s, vecs, choice)
  }

  ghost predicate RunOk(c: Config, s: State, steps: seq<Step>)
    decreases |steps|
  {
    |steps| > 0 ==> StepOk(c, s, steps[0]) && RunOk(c, Do(c, s, steps[0]), steps[1..])
  }

  ghost function Run(c: Config, s: State, steps: seq<Step>): State
    requires RunOk(c, s, steps)
    decreases |steps|
  {
    if |steps| == 0 then s else Run(c, Do(c, s, steps[0]), steps[1..])
  }

  lemma InitialInv(c: Config)
    requires c.latency > 0
    ensures Inv(c, Initial()) && Tracked(c, Initial())
  {
    assert forall path :: Balanced(Initial(), path);
    assert forall path :: Lives(Initial(), path);
  }

  lemma StepKeeps(c: Config, s: State, step: Step)
    requires Inv(c, s) && Tracked(c, s) && StepOk(c, s, step)
    ensures Inv(c, Do(c, s, step)) && Tracked(c, Do(c, s, step))
  {
    hide Inv, Tracked, Tick, Enqueue;
    LatencyPositive(c, s);
    match step {
      case Arrive(kind, addr, vec) =>
        EnqueueKeeps(c, s, kind, addr, vec);
        EnqueueTracked(c, s, kind, addr, vec);
      case Clock(vecs, choice) =>
        TickKeeps(c, s, vecs, choice);
        TickTracked(c, s, vecs, choice);
    }
  }

  lemma {:induction false} RunKeeps(c: Config, s: State, steps: seq<Step>)
    requires Inv(c, s) && Tracked(c, s) && RunOk(c, s, steps)
    ensures Inv(c, Run(c, s, steps)) && Tracked(c, Run(c, s, steps))
    decreases |steps|
  {
    hide Inv, Tracked, StepOk, Do;
    if |steps| > 0 {
      StepKeeps(c, s, steps[0]);
      RunKeeps(c, Do(c, s, steps[0]), steps[1..]);
    }
  }

  /** MAIN: after any run from the start every accepted request is in exactly one place, so a read has been answered at
      most once, and then waits nowhere; it was answered no earlier than its data was due, and a waiting read is older
      than every waiting write to its address. */
  lemma AnsweredOnce(c: Config, steps: seq<Step>)
    requires c.latency > 0 && RunOk(c, Initial(), steps)
    ensures var s := Run(c, Initial(), steps);
      && (forall id: nat :: Places(s, id) == if id < s.accepted then 1 else 0)
      && Timely(s.replies)
      && (forall i, j :: 0 <= i < j < |s.replies| ==> s.replies[i].req.id != s.replies[j].req.id)
      && (forall i, r :: 0 <= i < |s.replies| && Live(s, r) ==> r.id != s.replies[i].req.id)
      && Ordered(s.readq, s.writeq)
  {
    hide Places, Live;
    InitialInv(c);
    RunKeeps(c, Initial(), steps);
    var s := Run(c, Initial(), steps);
    forall i, j | 0 <= i < j < |s.replies| ensures s.replies[i].req.id != s.replies[j].req.id {
      AnsweredTwice(s, i, j);
    }
    forall i, r | 0 <= i < |s.replies| && Live(s, r) ensures r.id != s.replies[i].req.id {
      assert Answered(s.replies)[i] == s.replies[i].req;
      Gone(s, r, s.replies[i].req);
    }
  }

  lemma AnsweredTwice(s: State, i: nat, j: nat)
    requires Conserved(s) && i < j < |s.replies|
    ensures s.replies[i].req.id != s.replies[j].req.id
  {
    hide Tally;
    var id := s.replies[i].req.id;
    assert Places(s, id) <= 1;
    if s.replies[j].req.id == id {
      TallyTwo(Answered(s.replies), i, j, HasId(id));
    }
  }

  /** What a step does to the pending reads: new ones go to the end, and a tick answers the first if it is due. */
  lemma StepPending(c: Config, s: State, step: Step)
    requires StepOk(c, s, step)
    ensures var t := Do(c, s, step);
      if step.Arrive? then t.clk == s.clk && t.replies == s.replies && s.pending <= t.pending
      else
        && t.clk == s.clk + 1
        && if |s.pending| > 0 && s.pending[0].depart <= t.clk
           then t.replies == s.replies + [Reply(s.pending[0], t.clk)] && s.pending[1..] <= t.pending
           else t.replies == s.replies && s.pending <= t.pending
  {
    if step.Clock? {
      hide Work, Refresh;
      var r := Reap(s.(clk := s.clk + 1));
      RefreshPending(c, r, step.vecs);
      WorkOnPending(c, Prepare(c, s, step.vecs), step.choice);
    }
  }

  lemma {:induction false} RefreshPending(c: Config, s: State, vecs: seq<seq<int>>)
    ensures var t := Refresh(c, s, vecs); t.clk == s.clk && t.replies == s.replies && t.pending == s.pending
    decreases |vecs|
  {
    if |vecs| > 0 {
      RefreshPending(c, s, vecs[..|vecs| - 1]);
    }
  }

  lemma WorkOnPending(c: Config, s: State, choice: Choice)
    requires ChoiceOk(s, choice)
    ensures var t := Work(c, s, choice); t.clk == s.clk && t.replies == s.replies && s.pending <= t.pending
  {
  }

  /** Answers are final and time moves on. */
  lemma {:induction false} RunGrows(c: Config, s: State, steps: seq<Step>)
    requires RunOk(c, s, steps)
    ensures s.replies <= Run(c, s, steps).replies && s.clk <= Run(c, s, steps).clk
    decreases |steps|
  {
    hide StepOk, Do;
    if |steps| > 0 {
      StepPending(c, s, steps[0]);
      RunGrows(c, Do(c, s, steps[0]), steps[1..]);
    }
  }

  /** A run answers the j-th pending read, and by what time. */
  ghost predicate Answers(c: Config, s: State, steps: seq<Step>, j: nat, deadline: int)
    requires RunOk(c, s, steps) && j < |s.pending|
  {
    var t := Run(c, s, steps);
    && |s.replies| + j < |t.replies|
    && t.replies[|s.replies| + j].req == s.pending[j]
    && t.replies[|s.replies| + j].clk <= deadline
  }

  /** MAIN: whatever arrives in between, the pending reads are answered in their order, one a tick once their data is
      due: the j-th (from zero) of reads due by `due` no later than j ticks after that, or after the next tick. */
  lemma {:induction false} PendingAnswered(c: Config, s: State, steps: seq<Step>, j: nat, due: int)
    requires RunOk(c, s, steps) && j < |s.pending|
    requires forall i :: 0 <= i <= j ==> s.pending[i].depart <= due
    requires Run(c, s, steps).clk >= Max(due, s.clk + 1) + j
    ensures Answers(c, s, steps, j, Max(due, s.clk + 1) + j)
    decreases |steps|
  {
    hide StepOk, Do;
    if |steps| > 0 {
      var t, rest := Do(c, s, steps[0]), steps[1..];
      StepPending(c, s, steps[0]);
      if |t.replies| == |s.replies| {
        assert forall i :: 0 <= i <= j ==> t.pending[i] == s.pending[i];
        PendingAnswered(c, t, rest, j, due);
      } else if j > 0 {
        assert forall i :: 0 <= i < j ==> t.pending[i] == s.pending[1..][i] == s.pending[i + 1];
        PendingAnswered(c, t, rest, j - 1, due);
      } else {
        RunGrows(c, t, rest);
      }
    }
  }

  /** When the j-th pending read is answered: once its data is due, one read a tick, from the next tick on. */
  function AnswerTick(pending: seq<Req>, clk: int, j: nat): int
    requires j < |pending|
  {
    if j == 0 then Max(pending[0].depart, clk + 1) else Max(AnswerTick(pending, clk, j - 1) + 1, pending[j].depart)
  }

  lemma {:induction false} TickPrefix(p: seq<Req>, q: seq<Req>, clk: int, j: nat)
    requires j < |p| && p <= q
    ensures AnswerTick(q, clk, j) == AnswerTick(p, clk, j)
    decreases j
  {
    if j > 0 {
      TickPrefix(p, q, clk, j - 1);
    }
  }

  /** A tick later, with the first read answered or not yet due. */
  lemma {:induction false} TickLater(p: seq<Req>, clk: int, j: nat)
    requires j < |p|
    ensures p[0].depart > clk + 1 ==> AnswerTick(p, clk + 1, j) == AnswerTick(p, clk, j) > clk + 1
    ensures p[0].depart <= clk + 1 && j > 0 ==> AnswerTick(p[1..], clk + 1, j - 1) == AnswerTick(p, clk, j) > clk + 1
    decreases j
  {
    if j > 0 {
      TickLater(p, clk, j - 1);
    }
  }

  /** MAIN: the exact answer time: whatever arrives in between, the j-th pending read has been answered by the end of a
      run if and only if the clock has reached its tick, and then it was answered on that tick. */
  lemma {:induction false} AnsweredExactly(c: Config, s: State, steps: seq<Step>, j: nat)
    requires RunOk(c, s, steps) && j < |s.pending|
    ensures var t, tick, k := Run(c, s, steps), AnswerTick(s.pending, s.clk, j), |s.replies| + j;
      && (k < |t.replies| <==> t.clk >= tick)
      && (k < |t.replies| ==> t.replies[k] == Reply(s.pending[j], tick))
    decreases |steps|
  {
    hide StepOk, Do;
    TickAhead(s.pending, s.clk, j);
    if |steps| > 0 {
      var t, rest := Do(c, s, steps[0]), steps[1..];
      StepPending(c, s, steps[0]);
      TickLater(s.pending, s.clk, j);
      if steps[0].Arrive? || s.pending[0].depart > t.clk {
        TickPrefix(s.pending, t.pending, t.clk, j);
        AnsweredExactly(c, t, rest, j);
      } else if j > 0 {
        TickPrefix(s.pending[1..], t.pending, t.clk, j - 1);
        AnsweredExactly(c, t, rest, j - 1);
        assert s.pending[1..][j - 1] == s.pending[j];
      } else {
        RunGrows(c, t, rest);
      }
    }
  }

  lemma {:induction false} TickAhead(p: seq<Req>, clk: int, j: nat)
    requires j < |p|
    ensures AnswerTick(p, clk, j) > clk
    decreases j
  {
    if j > 0 {
      TickAhead(p, clk, j - 1);
    }
  }

  lemma TrackedSoon(c: Config, s: State)
    requires Tracked(c, s)
    ensures forall i :: 0 <= i < |s.pending| ==> s.pending[i].depart <= s.clk + c.latency
  {
  }

  /** MAIN: after any run, each read on the pending list is answered once the read latency and one tick for each read
      before it have passed. */
  lemma EveryPendingAnswered(c: Config, before: seq<Step>, steps: seq<Step>, j: nat)
    requires c.latency > 0 && RunOk(c, Initial(), before)
    requires var s := Run(c, Initial(), before);
      RunOk(c, s, steps) && j < |s.pending| && Run(c, s, steps).clk >= s.clk + c.latency + j
    ensures var s := Run(c, Initial(), before); Answers(c, s, steps, j, s.clk + c.latency + j)
  {
    hide Inv, Tracked, Run, RunOk;
    var s := Run(c, Initial(), before);
    InitialInv(c);
    RunKeeps(c, Initial(), before);
    TrackedSoon(c, s);
    PendingAnswered(c, s, steps, j, s.clk + c.latency);
  }

  /** The events at a node, as far as Little's law needs them. */
  lemma EventsLittle(c: Config, s: State, path: seq<int>)
    requires Balanced(s, path) && Lives(s, path)
    ensures var h := Events(s.served, path);
      var k := Service.After(h);
      && Service.Last(h) >= 0 && k.ok && k.cur == InFlight(s, path)
      && k.served == Service.Area(h, Service.Last(h)) == Service.StaySum(h, s.accepted, Service.Last(h))
      && k.active == Service.Busy(h, Service.Last(h))
  {
    hide InFlight, Service.After, Service.StaySum, Service.OneLife, Service.Proper, Live, Events;
    var h := Events(s.served, path);
    Service.Exact(h);
    Service.Little(h, s.accepted);
  }

  /** The part of the invariant that concerns one node. */
  lemma NodeBalanced(c: Config, s: State, path: seq<int>)
    requires Inv(c, s) && Tracked(c, s)
    ensures Balanced(s, path) && Lives(s, path)
    ensures forall i :: 0 <= i < |s.served| ==> Reaches(c.tree, 0, c.bank, s.served[i].vec)
  {
    hide Reaches, Live, Lives, Balanced, Conserved;
  }

  /** What the counters of a node of the tree say: no assertion has failed; `cur` is the number of reads and writes
      started through the node and unfinished; the service total is both the sum over cycles of that number and the
      sum over requests of the time from their start to their finish; the active total is the number of cycles with
      any. */
  ghost predicate NodeExact(c: Config, s: State, tree: Node, path: seq<int>) {
    && HasPath(tree, path)
    && var k, h := At(tree, path).counters, Events(s.served, [c.tree.id] + path);
       var now := Service.Last(h);
       && now >= 0 && k.ok && k.cur == InFlight(s, [c.tree.id] + path)
       && k.served == Service.Area(h, now) == Service.StaySum(h, s.accepted, now)
       && k.active == Service.Busy(h, now)
  }

  lemma NodesExact(c: Config, s: State, path: seq<int>)
    requires Inv(c, s) && Tracked(c, s) && NodeOk(c.tree) && Fresh(c.tree)
    requires HasPath(c.tree, path) && |path| <= c.bank + 1
    ensures NodeExact(c, s, Fold(c.tree, c.bank, s.served), path)
  {
    hide Reaches, Lives, Balanced, InFlight, Service.StaySum, Service.After, Events, NodeOk, Fresh, Inv, Tracked;
    NodeBalanced(c, s, [c.tree.id] + path);
    FoldAt(c.tree, c.bank, s.served, path);
    EventsLittle(c, s, [c.tree.id] + path);
  }

  /** MAIN: after any run the counters are exact at every node of the memory tree down to one level below the banks. */
  lemma CountersExact(c: Config, steps: seq<Step>, path: seq<int>)
    requires c.latency > 0 && NodeOk(c.tree) && Fresh(c.tree) && RunOk(c, Initial(), steps)
    requires HasPath(c.tree, path) && |path| <= c.bank + 1
    ensures var s := Run(c, Initial(), steps); NodeExact(c, s, Fold(c.tree, c.bank, s.served), path)
  {
    hide Inv, Tracked, NodeExact, NodeOk, Fresh;
    InitialInv(c);
    RunKeeps(c, Initial(), steps);
    NodesExact(c, Run(c, Initial(), steps), path);
  }
}
