/** How each answered read came by its data, which queue a tick serves, and when writes are drained. */
module QueueAnswers {
  import opened QueueModel
  import opened QueueRuns
  import opened QueueTheorems

  /** The refreshes of a tick join the other requests in their order, each numbered as it is accepted; the reads and
      writes that wait are left alone. */
  lemma {:induction false} RefreshAdds(c: Config, s: State, vecs: seq<seq<int>>)
    requires |s.otherq| + |vecs| <= c.max
    ensures var t := Refresh(c, s, vecs);
      && t.readq == s.readq && t.writeq == s.writeq && t.pending == s.pending && t.replies == s.replies
      && t.clk == s.clk && t.writeMode == s.writeMode && t.accepted == s.accepted + |vecs|
      && |t.otherq| == |s.otherq| + |vecs| && s.otherq <= t.otherq
      && forall i :: 0 <= i < |vecs| ==>
           t.otherq[|s.otherq| + i] == Req(s.accepted + i, Other, 0, vecs[i], s.clk, 0, true)
    decreases |vecs|
  {
    if |vecs| > 0 {
      RefreshAdds(c, s, vecs[..|vecs| - 1]);
    }
  }

  /** What is left of a queue when request i has been issued a command. */
  function Served(q: seq<Req>, i: nat, last: bool): seq<Req>
    requires i < |q|
  {
    if last then q[..i] + q[i + 1..] else q[i := q[i].(first := false)]
  }

  /** A tick that starts from s puts the controller into, or leaves it in, the mode that serves writes. */
  ghost predicate Drains(c: Config, s: State) {
    if s.writeMode then |s.writeq| > c.low || |s.readq| == 0 else |s.writeq| >= c.high || |s.readq| == 0
  }

  lemma Prepared(c: Config, s: State, vecs: seq<seq<int>>)
    requires |s.otherq| + |vecs| <= c.max
    ensures var t, r := Prepare(c, s, vecs), Reap(s.(clk := s.clk + 1));
      && t.readq == s.readq && t.writeq == s.writeq && |t.otherq| == |s.otherq| + |vecs|
      && t.clk == s.clk + 1 && (t.writeMode <==> Drains(c, s))
      && t.pending == r.pending && t.replies == r.replies
  {
    hide Refresh;
    RefreshAdds(c, Reap(s.(clk := s.clk + 1)), vecs);
  }

  /** MAIN: the queue a tick serves: other requests as long as there are any, writes while they are drained, reads
      otherwise. */
  lemma TickServes(c: Config, s: State, vecs: seq<seq<int>>, choice: Choice)
    requires TickOk(c, s, vecs, choice)
    ensures var t, others := Tick(c, s, vecs, choice), |s.otherq| + |vecs|;
      && (t.writeMode <==> Drains(c, s))
      && (choice.Nothing? || others > 0 ==> t.readq == s.readq && t.writeq == s.writeq)
      && (choice.Nothing? || others == 0 ==> |t.otherq| == others)
      && (choice.Issue? && others > 0 ==> choice.i < others && |t.otherq| == others - if choice.last then 1 else 0)
      && (choice.Issue? && others == 0 && Drains(c, s) ==>
            t.readq == s.readq && choice.i < |s.writeq| && t.writeq == Served(s.writeq, choice.i, choice.last))
      && (choice.Issue? && others == 0 && !Drains(c, s) ==>
            t.writeq == s.writeq && choice.i < |s.readq| && t.readq == Served(s.readq, choice.i, choice.last))
  {
    hide Prepare, Drains;
    Prepared(c, s, vecs);
    WorkServes(c, Prepare(c, s, vecs), choice);
  }

  lemma WorkServes(c: Config, s: State, choice: Choice)
    requires ChoiceOk(s, choice)
    ensures var t, others := Work(c, s, choice), |s.otherq|;
      && t.writeMode == s.writeMode
      && (choice.Nothing? || others > 0 ==> t.readq == s.readq && t.writeq == s.writeq)
      && (choice.Nothing? || others == 0 ==> |t.otherq| == others)
      && (choice.Issue? && others > 0 ==> choice.i < others && |t.otherq| == others - if choice.last then 1 else 0)
      && (choice.Issue? && others == 0 && s.writeMode ==>
            t.readq == s.readq && choice.i < |s.writeq| && t.writeq == Served(s.writeq, choice.i, choice.last))
      && (choice.Issue? && others == 0 && !s.writeMode ==>
            t.writeq == s.writeq && choice.i < |s.readq| && t.readq == Served(s.readq, choice.i, choice.last))
  {
  }

  /** Read r of a run was answered from a write: when it was accepted, a write to its address waited. */
  ghost predicate Forwarded(c: Config, steps: seq<Step>, r: Req, k: nat)
    requires RunOk(c, Initial(), steps)
  {
    && k < |steps| && RunOk(c, Initial(), steps[..k])
    && var s := Run(c, Initial(), steps[..k]);
       && steps[k] == Arrive(Read, r.addr, r.vec)
       && (exists j :: 0 <= j < |s.writeq| && s.writeq[j].addr == r.addr)
       && r == Req(s.accepted, Read, r.addr, r.vec, s.clk, s.clk + 1, true)
  }

  /** Or its last command was issued to the memory, and its data is due one read latency after that. */
  ghost predicate Fetched(c: Config, steps: seq<Step>, r: Req, k: nat)
    requires RunOk(c, Initial(), steps)
  {
    && k < |steps| && RunOk(c, Initial(), steps[..k])
    && var s := Run(c, Initial(), steps[..k]);
       && steps[k].Clock? && |s.otherq| + |steps[k].vecs| == 0 && !Drains(c, s)
       && steps[k].choice.Issue? && steps[k].choice.last && steps[k].choice.i < |s.readq|
       && r == s.readq[steps[k].choice.i].(first := false, depart := s.clk + 1 + c.latency)
  }

  ghost predicate Sourced(c: Config, steps: seq<Step>, r: Req)
    requires RunOk(c, Initial(), steps)
  {
    exists k: nat :: Forwarded(c, steps, r, k) || Fetched(c, steps, r, k)
  }

  lemma {:induction false} RunSnoc(c: Config, s: State, steps: seq<Step>, x: Step)
    requires RunOk(c, s, steps + [x])
    ensures RunOk(c, s, steps) && StepOk(c, Run(c, s, steps), x)
    ensures Run(c, s, steps + [x]) == Do(c, Run(c, s, steps), x)
    decreases |steps|
  {
    hide StepOk, Do;
    var all := steps + [x];
    if |steps| == 0 {
      assert all == [x] && all[1..] == [];
    } else {
      assert all[1..] == steps[1..] + [x];
      RunSnoc(c, Do(c, s, steps[0]), steps[1..], x);
    }
  }

  lemma SourcedLater(c: Config, steps: seq<Step>, x: Step, r: Req)
    requires RunOk(c, Initial(), steps + [x]) && RunOk(c, Initial(), steps) && Sourced(c, steps, r)
    ensures Sourced(c, steps + [x], r)
  {
    hide Run, RunOk;
    var k: nat :| Forwarded(c, steps, r, k) || Fetched(c, steps, r, k);
    assert (steps + [x])[..k] == steps[..k];
    assert Forwarded(c, steps + [x], r, k) || Fetched(c, steps + [x], r, k);
  }

  /** A read that a tick puts on the pending list. */
  lemma TickPending(c: Config, s: State, vecs: seq<seq<int>>, choice: Choice, r: Req)
    requires TickOk(c, s, vecs, choice)
    requires var t := Tick(c, s, vecs, choice); r in t.pending || r in Answered(t.replies)
    requires r !in s.pending && r !in Answered(s.replies)
    ensures |s.otherq| + |vecs| == 0 && !Drains(c, s) && choice.Issue? && choice.last && choice.i < |s.readq|
    ensures r == s.readq[choice.i].(first := false, depart := s.clk + 1 + c.latency)
  {
    hide Prepare, Drains;
    Prepared(c, s, vecs);
    ReapSame(s.(clk := s.clk + 1), r);
  }

  lemma ReapSame(s: State, r: Req)
    ensures var t := Reap(s);
      r in t.pending || r in Answered(t.replies) ==> r in s.pending || r in Answered(s.replies)
  {
    if |s.pending| > 0 {
      AnsweredSnoc(s.replies, Reply(s.pending[0], s.clk));
    }
  }

  lemma StepSourced(c: Config, steps: seq<Step>, x: Step, r: Req)
    requires RunOk(c, Initial(), steps + [x]) && RunOk(c, Initial(), steps)
    requires var t := Run(c, Initial(), steps + [x]); r in t.pending || r in Answered(t.replies)
    requires var s := Run(c, Initial(), steps); r !in s.pending && r !in Answered(s.replies)
    ensures Sourced(c, steps + [x], r)
  {
    hide Run, RunOk, Tick;
    var s, all, k := Run(c, Initial(), steps), steps + [x], |steps|;
    RunSnoc(c, Initial(), steps, x);
    assert all[..k] == steps;
    if x.Arrive? {
      assert Forwarded(c, all, r, k);
    } else {
      TickPending(c, s, x.vecs, x.choice, r);
      assert Fetched(c, all, r, k);
    }
  }

  lemma {:induction false} PendingSourced(c: Config, steps: seq<Step>, r: Req)
    requires RunOk(c, Initial(), steps)
    requires var s := Run(c, Initial(), steps); r in s.pending || r in Answered(s.replies)
    ensures Sourced(c, steps, r)
    decreases |steps|
  {
    hide Sourced;
    if |steps| > 0 {
      hide Run, RunOk;
      var before, x := steps[..|steps| - 1], steps[|steps| - 1];
      assert steps == before + [x];
      RunSnoc(c, Initial(), before, x);
      var s := Run(c, Initial(), before);
      if r in s.pending || r in Answered(s.replies) {
        PendingSourced(c, before, r);
        SourcedLater(c, before, x, r);
      } else {
        StepSourced(c, before, x, r);
      }
    }
  }

  /** MAIN: in every run each answered read was accepted while a write to its address waited, or a tick issued its last
      command to the memory and the read latency has passed since. */
  lemma AnsweredFrom(c: Config, steps: seq<Step>, i: nat)
    requires c.latency > 0 && RunOk(c, Initial(), steps) && i < |Run(c, Initial(), steps).replies|
    ensures var reply := Run(c, Initial(), steps).replies[i];
      exists k: nat :: Forwarded(c, steps, reply.req, k)
               || (Fetched(c, steps, reply.req, k)
                   && reply.clk >= Run(c, Initial(), steps[..k]).clk + 1 + c.latency)
  {
    hide Run, RunOk;
    var s := Run(c, Initial(), steps);
    var r := s.replies[i].req;
    assert Answered(s.replies)[i] == r;
    PendingSourced(c, steps, r);
    AnsweredOnce(c, steps);
    var k: nat :| Forwarded(c, steps, r, k) || Fetched(c, steps, r, k);
  }

  /** The tick at step k finds the write queue filled, or no reads. */
  ghost predicate StartsDrain(c: Config, steps: seq<Step>, k: nat)
    requires RunOk(c, Initial(), steps)
  {
    && k < |steps| && steps[k].Clock? && RunOk(c, Initial(), steps[..k])
    && var s := Run(c, Initial(), steps[..k]); |s.writeq| >= c.high || |s.readq| == 0
  }

  /** The tick at step k finds the write queue nearly empty, and reads waiting. */
  ghost predicate StopsDrain(c: Config, steps: seq<Step>, k: nat)
    requires RunOk(c, Initial(), steps)
  {
    && k < |steps| && steps[k].Clock? && RunOk(c, Initial(), steps[..k])
    && var s := Run(c, Initial(), steps[..k]); |s.writeq| <= c.low && |s.readq| > 0
  }

  /** Some tick found reason to start, and none since to stop. */
  ghost predicate Draining(c: Config, steps: seq<Step>)
    requires RunOk(c, Initial(), steps)
  {
    exists k: nat :: StartsDrain(c, steps, k) && forall j: nat :: k < j ==> !StopsDrain(c, steps, j)
  }

  /** The part of a run before its last step says the same of its ticks. */
  lemma DrainSnoc(c: Config, steps: seq<Step>, x: Step, k: nat)
    requires RunOk(c, Initial(), steps + [x]) && RunOk(c, Initial(), steps)
    ensures var s, all, n := Run(c, Initial(), steps), steps + [x], |steps|;
      && (StartsDrain(c, all, k) <==>
            if k == n then x.Clock? && (|s.writeq| >= c.high || |s.readq| == 0) else StartsDrain(c, steps, k))
      && (StopsDrain(c, all, k) <==>
            if k == n then x.Clock? && |s.writeq| <= c.low && |s.readq| > 0 else StopsDrain(c, steps, k))
  {
    hide Run, RunOk;
    if k <= |steps| {
      assert (steps + [x])[..k] == steps[..k];
    }
    assert steps[..|steps|] == steps;
  }

  lemma ModeStep(c: Config, s: State, x: Step)
    requires StepOk(c, s, x)
    ensures Do(c, s, x).writeMode == if x.Clock? then Drains(c, s) else s.writeMode
  {
    hide Tick, Drains, TickOk;
    if x.Clock? {
      TickServes(c, s, x.vecs, x.choice);
    }
  }

  /** MAIN: writes are served exactly while they are drained: from a tick that found the write queue filled, or no
      read, until one that finds few writes left and a read. */
  lemma {:induction false} DrainsBetween(c: Config, steps: seq<Step>)
    requires c.low < c.high && RunOk(c, Initial(), steps)
    ensures Run(c, Initial(), steps).writeMode <==> Draining(c, steps)
    decreases |steps|
  {
    hide Do, StepOk, StartsDrain, StopsDrain, Run, RunOk;
    if |steps| == 0 {
      NoStart(c, steps);
    } else {
      var g, x, n := steps[..|steps| - 1], steps[|steps| - 1], |steps| - 1;
      assert steps == g + [x];
      RunSnoc(c, Initial(), g, x);
      var s := Run(c, Initial(), g);
      ModeStep(c, s, x);
      DrainsBetween(c, g);
      forall k: nat ensures
        && (StartsDrain(c, steps, k) <==>
              if k == n then x.Clock? && (|s.writeq| >= c.high || |s.readq| == 0) else StartsDrain(c, g, k))
        && (StopsDrain(c, steps, k) <==>
              if k == n then x.Clock? && |s.writeq| <= c.low && |s.readq| > 0 else StopsDrain(c, g, k))
      {
        DrainSnoc(c, g, x, k);
      }
      if Run(c, Initial(), steps).writeMode {
        if StartsDrain(c, steps, n) {
          NothingAfter(c, steps);
          assert Draining(c, steps);
        } else {
          var k: nat :| StartsDrain(c, g, k) && forall j: nat :: k < j ==> !StopsDrain(c, g, j);
          Early(c, g, k);
          assert StartsDrain(c, steps, k);
        }
      }
      if Draining(c, steps) {
        var k: nat :| StartsDrain(c, steps, k) && forall j: nat :: k < j ==> !StopsDrain(c, steps, j);
        Early(c, steps, k);
        if k < n {
          NothingAfter(c, g);
          assert StartsDrain(c, g, k) && forall j: nat :: k < j ==> !StopsDrain(c, g, j);
          assert Draining(c, g);
          assert !StopsDrain(c, steps, n);
        }
      }
    }
  }

  lemma NoStart(c: Config, steps: seq<Step>)
    requires RunOk(c, Initial(), steps) && |steps| == 0
    ensures forall k: nat :: !StartsDrain(c, steps, k)
    ensures !Run(c, Initial(), steps).writeMode
  {
  }

  lemma Early(c: Config, steps: seq<Step>, k: nat)
    requires RunOk(c, Initial(), steps) && StartsDrain(c, steps, k)
    ensures k < |steps|
  {
  }

  lemma NothingAfter(c: Config, steps: seq<Step>)
    requires RunOk(c, Initial(), steps)
    ensures forall k: nat :: k >= |steps| ==> !StopsDrain(c, steps, k)
  {
  }
}
