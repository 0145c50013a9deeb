/** `CacheSystem::tick`: delayed requests go to the memory system, which may refuse them, and hits are answered. */
module CacheWait {
  import opened Arith
  import opened CacheModel

  /** All of the first n entries are ready. */
  predicate Open(clk: int, list: seq<Timed>, n: nat)
    requires n <= |list|
  {
    forall q :: 0 <= q < n ==> list[q].ready <= clk
  }

  /** Entry p is sent: the scan, which stops at the first entry that is not ready, gets to it, and the memory takes
      it. */
  predicate Goes(clk: int, list: seq<Timed>, takes: seq<bool>, p: nat)
    requires p < |list| <= |takes|
  {
    Open(clk, list, p + 1) && takes[p]
  }

  /** The entries sent and the entries left, among the first n. */
  function Sent(clk: int, list: seq<Timed>, takes: seq<bool>, n: nat): seq<Timed>
    requires n <= |list| <= |takes|
  {
    if n == 0 then []
    else Sent(clk, list, takes, n - 1) + if Goes(clk, list, takes, n - 1) then [list[n - 1]] else []
  }

  function Left(clk: int, list: seq<Timed>, takes: seq<bool>, n: nat): seq<Timed>
    requires n <= |list| <= |takes|
  {
    if n == 0 then []
    else Left(clk, list, takes, n - 1) + if Goes(clk, list, takes, n - 1) then [] else [list[n - 1]]
  }

  /** The hits that are due, and the others. */
  function Due(clk: int, list: seq<Timed>, due: bool): seq<Timed> {
    if |list| == 0 then []
    else Due(clk, list[..|list| - 1], due)
         + if (clk >= list[|list| - 1].ready) == due then [list[|list| - 1]] else []
  }

  /** `r` is made of the entries numbered `ids`, which are those that are due at clk, or those that are not, in their
      order. */
  ghost predicate Picks(clk: int, list: seq<Timed>, due: bool, r: seq<Timed>, ids: seq<nat>) {
    && |ids| == |r|
    && (forall i, j :: 0 <= i < j < |ids| ==> ids[i] < ids[j])
    && (forall i :: 0 <= i < |ids| ==> ids[i] < |list| && r[i] == list[ids[i]])
    && (forall p :: 0 <= p < |list| ==> (p in ids <==> if due then list[p].ready <= clk else list[p].ready > clk))
  }

  /** Of the hits exactly those whose time has come are answered, each once, and the others stay, each once; neither
      changes its order. */
  ghost predicate Answers(clk: int, list: seq<Timed>, answered: seq<Timed>, left: seq<Timed>) {
    (exists ids :: Picks(clk, list, true, answered, ids)) && exists ids :: Picks(clk, list, false, left, ids)
  }

  /** One more entry, which is picked or passed over. */
  lemma PickMore(clk: int, list: seq<Timed>, due: bool, r: seq<Timed>, ids: seq<nat>, e: Timed)
    requires Picks(clk, list, due, r, ids) && (if due then e.ready <= clk else e.ready > clk)
    ensures Picks(clk, list + [e], due, r + [e], ids + [|list|])
  {
    forall p | 0 <= p < |list| ensures p in ids + [|list|] <==> p in ids {
    }
  }

  lemma PickSame(clk: int, list: seq<Timed>, due: bool, r: seq<Timed>, ids: seq<nat>, e: Timed)
    requires Picks(clk, list, due, r, ids) && !(if due then e.ready <= clk else e.ready > clk)
    ensures Picks(clk, list + [e], due, r, ids)
  {
  }

  lemma {:induction false} DuePicks(clk: int, list: seq<Timed>, due: bool) returns (ids: seq<nat>)
    ensures Picks(clk, list, due, Due(clk, list, due), ids)
    decreases |list|
  {
    if |list| == 0 {
      ids := [];
    } else {
      hide Picks;
      var before, e := list[..|list| - 1], list[|list| - 1];
      assert list == before + [e];
      ids := DuePicks(clk, before, due);
      if if due then e.ready <= clk else e.ready > clk {
        PickMore(clk, before, due, Due(clk, before, due), ids, e);
        ids := ids + [|before|];
      } else {
        PickSame(clk, before, due, Due(clk, before, due), ids, e);
        assert Due(clk, before, due) + [] == Due(clk, before, due);
      }
    }
  }

  /** MAIN: a cycle answers the hits that are due, and only those. */
  lemma DueAnswers(clk: int, list: seq<Timed>)
    ensures Answers(clk, list, Due(clk, list, true), Due(clk, list, false))
  {
    hide Due, Picks;
    var a := DuePicks(clk, list, true);
    var b := DuePicks(clk, list, false);
  }

  /** Behind an entry that is not ready everything stays. */
  lemma {:induction false} Stuck(clk: int, list: seq<Timed>, takes: seq<bool>, p: nat, n: nat)
    requires p <= n <= |list| <= |takes| && (p < n ==> list[p].ready > clk)
    ensures Sent(clk, list, takes, n) == Sent(clk, list, takes, p)
    ensures Left(clk, list, takes, n) == Left(clk, list, takes, p) + list[p..n]
    decreases n
  {
    if p < n {
      Stuck(clk, list, takes, p, n - 1);
      assert list[p..n] == list[p..n - 1] + [list[n - 1]];
      assert !Goes(clk, list, takes, n - 1);
    }
  }

  /** Together a and b hold what l does. */
  ghost predicate Parts(a: seq<Timed>, b: seq<Timed>, l: seq<Timed>) {
    multiset(a) + multiset(b) == multiset(l)
  }

  lemma OneMore(a: seq<Timed>, b: seq<Timed>, l: seq<Timed>, e: Timed)
    requires Parts(a, b, l)
    ensures Parts(a + [e], b + [], l + [e]) && Parts(a + [], b + [e], l + [e])
  {
    assert a + [] == a && b + [] == b;
  }

  lemma SweepStep(clk: int, list: seq<Timed>, takes: seq<bool>, n: nat)
    requires 0 < n <= |list| <= |takes|
    ensures var e, sent, left := list[n - 1], Sent(clk, list, takes, n - 1), Left(clk, list, takes, n - 1);
      if Goes(clk, list, takes, n - 1)
      then Sent(clk, list, takes, n) == sent + [e] && Left(clk, list, takes, n) == left + []
      else Sent(clk, list, takes, n) == sent + [] && Left(clk, list, takes, n) == left + [e]
  {
  }

  /** What the scan of the first n entries makes of them. */
  ghost predicate Swept(clk: int, list: seq<Timed>, takes: seq<bool>, n: nat)
    requires n <= |list| <= |takes|
  {
    Parts(Sent(clk, list, takes, n), Left(clk, list, takes, n), list[..n])
  }

  lemma SweptNone(clk: int, list: seq<Timed>, takes: seq<bool>)
    requires |list| <= |takes|
    ensures Swept(clk, list, takes, 0)
  {
    assert list[..0] == [];
  }

  lemma SweptMore(clk: int, list: seq<Timed>, takes: seq<bool>, n: nat)
    requires 0 < n <= |list| <= |takes| && Swept(clk, list, takes, n - 1)
    ensures Swept(clk, list, takes, n)
  {
    hide Goes, Parts, Sent, Left;
    SweepStep(clk, list, takes, n);
    OneMore(Sent(clk, list, takes, n - 1), Left(clk, list, takes, n - 1), list[..n - 1], list[n - 1]);
    assert list[..n] == list[..n - 1] + [list[n - 1]];
  }

  /** Nothing is lost, doubled or invented by a tick. */
  lemma {:induction false} SweepConserves(clk: int, list: seq<Timed>, takes: seq<bool>, n: nat)
    requires n <= |list| <= |takes|
    ensures Swept(clk, list, takes, n)
    decreases n
  {
    hide Swept;
    if n == 0 {
      SweptNone(clk, list, takes);
    } else {
      SweepConserves(clk, list, takes, n - 1);
      SweptMore(clk, list, takes, n);
    }
  }

  /** The memory takes whatever it is offered. */
  predicate TakesAll(takes: seq<bool>) {
    forall i :: 0 <= i < |takes| ==> takes[i]
  }

  /** How many entries the scan gets to. */
  function Run(clk: int, list: seq<Timed>): (k: nat)
    ensures k <= |list| && Open(clk, list, k) && (k < |list| ==> list[k].ready > clk)
  {
    if |list| == 0 || list[0].ready > clk then 0 else 1 + Run(clk, list[1..])
  }

  lemma {:induction false} AllSent(clk: int, list: seq<Timed>, takes: seq<bool>, n: nat)
    requires n <= |list| <= |takes| && TakesAll(takes) && Open(clk, list, n)
    ensures Sent(clk, list, takes, n) == list[..n] && Left(clk, list, takes, n) == []
    decreases n
  {
    if n > 0 {
      AllSent(clk, list, takes, n - 1);
      assert list[..n] == list[..n - 1] + [list[n - 1]];
    }
  }

  /** Without refusals a tick sends the longest ready prefix. */
  lemma SweepPrefix(clk: int, list: seq<Timed>, takes: seq<bool>)
    requires |list| <= |takes| && TakesAll(takes)
    ensures var k := Run(clk, list);
      Sent(clk, list, takes, |list|) == list[..k] && Left(clk, list, takes, |list|) == list[k..]
  {
    var k := Run(clk, list);
    AllSent(clk, list, takes, k);
    Stuck(clk, list, takes, k, |list|);
    assert list[k..|list|] == list[k..];
  }

  datatype Step = Queue(entry: Timed) | Tick(takes: seq<bool>)

  /** `queued` and `sent` keep all entries ever, in order. */
  datatype Waits = Waits(clk: int, list: seq<Timed>, queued: seq<Timed>, sent: seq<Timed>)

  predicate StepOk(w: Waits, step: Step) {
    step.Tick? ==> |w.list| <= |step.takes|
  }

  function Do(w: Waits, step: Step): Waits
    requires StepOk(w, step)
  {
    match step
    case Queue(e) => w.(list := w.list + [e], queued := w.queued + [e])
    case Tick(takes) =>
      var n := |w.list|;
      w.(clk := w.clk + 1, list := Left(w.clk + 1, w.list, takes, n),
         sent := w.sent + Sent(w.clk + 1, w.list, takes, n))
  }

  predicate RunOk(w: Waits, steps: seq<Step>)
    decreases |steps|
  {
    |steps| > 0 ==> StepOk(w, steps[0]) && RunOk(Do(w, steps[0]), steps[1..])
  }

  function After(w: Waits, steps: seq<Step>): Waits
    requires RunOk(w, steps)
    decreases |steps|
  {
    if |steps| == 0 then w else After(Do(w, steps[0]), steps[1..])
  }

  predicate NeverRefuses(steps: seq<Step>) {
    forall i :: 0 <= i < |steps| && steps[i].Tick? ==> TakesAll(steps[i].takes)
  }

  lemma DoConserves(w: Waits, step: Step)
    requires StepOk(w, step) && Parts(w.sent, w.list, w.queued)
    ensures var t := Do(w, step); Parts(t.sent, t.list, t.queued)
  {
    hide Sent, Left;
    if step.Tick? {
      SweepConserves(w.clk + 1, w.list, step.takes, |w.list|);
      assert w.list[..|w.list|] == w.list;
    }
  }

  /** MAIN: over any run every request queued is sent once or still waits. */
  lemma {:induction false} RunConserves(w: Waits, steps: seq<Step>)
    requires RunOk(w, steps) && Parts(w.sent, w.list, w.queued)
    ensures var t := After(w, steps); Parts(t.sent, t.list, t.queued)
    decreases |steps|
  {
    hide Do, StepOk;
    if |steps| > 0 {
      DoConserves(w, steps[0]);
      RunConserves(Do(w, steps[0]), steps[1..]);
    }
  }

  lemma DoInOrder(w: Waits, step: Step)
    requires StepOk(w, step) && (step.Tick? ==> TakesAll(step.takes)) && w.sent + w.list == w.queued
    ensures var t := Do(w, step); t.sent + t.list == t.queued
  {
    hide Sent, Left, Run;
    match step {
      case Queue(e) =>
        assert w.sent + (w.list + [e]) == (w.sent + w.list) + [e];
      case Tick(takes) =>
        SweepPrefix(w.clk + 1, w.list, takes);
        var k := Run(w.clk + 1, w.list);
        assert (w.sent + w.list[..k]) + w.list[k..] == w.sent + w.list;
    }
  }

  /** MAIN: as long as the memory refuses nothing, requests reach it in the order they were queued, so a write-back
      is never overtaken by a later fetch of its block. */
  lemma {:induction false} RunInOrder(w: Waits, steps: seq<Step>)
    requires RunOk(w, steps) && NeverRefuses(steps) && w.sent + w.list == w.queued
    ensures var t := After(w, steps); t.sent + t.list == t.queued
    decreases |steps|
  {
    hide Do, StepOk;
    if |steps| > 0 {
      DoInOrder(w, steps[0]);
      RunInOrder(Do(w, steps[0]), steps[1..]);
    }
  }

  /** The largest of the first n ready times. */
  function Ready(list: seq<Timed>, n: nat): int
    requires 0 < n <= |list|
  {
    if n == 1 then list[0].ready else Max(Ready(list, n - 1), list[n - 1].ready)
  }

  lemma {:induction false} OpenReady(clk: int, list: seq<Timed>, n: nat)
    requires 0 < n <= |list|
    ensures Open(clk, list, n) <==> Ready(list, n) <= clk
    decreases n
  {
    if n > 1 {
      OpenReady(clk, list, n - 1);
    }
  }

  /** Entries that are ready add nothing to the wait. */
  lemma {:induction false} ReadyDrop(list: seq<Timed>, k: nat, n: nat)
    requires k < n <= |list|
    ensures Ready(list, n) == if k == 0 then Ready(list[k..], n - k) else Max(Ready(list, k), Ready(list[k..], n - k))
    decreases n
  {
    if k + 1 < n {
      ReadyDrop(list, k, n - 1);
    } else if n > 1 {
      assert list[k..][0] == list[n - 1];
    }
  }

  lemma {:induction false} ReadyGrows(list: seq<Timed>, e: Timed, n: nat)
    requires 0 < n <= |list|
    ensures Ready(list + [e], n) == Ready(list, n)
    decreases n
  {
    if n > 1 {
      ReadyGrows(list, e, n - 1);
    }
  }

  lemma {:induction false} SentGrows(w: Waits, steps: seq<Step>)
    requires RunOk(w, steps)
    ensures |w.sent| <= |After(w, steps).sent| && w.clk <= After(w, steps).clk
    decreases |steps|
  {
    if |steps| > 0 {
      SentGrows(Do(w, steps[0]), steps[1..]);
    }
  }

  /** When entry p is due to leave. */
  function Leaves(w: Waits, p: nat): int
    requires p < |w.list|
  {
    Max(Ready(w.list, p + 1), w.clk + 1)
  }

  /** What one step does to entry p: it stays in place, moves up, or leaves on time. */
  lemma StepLeaves(w: Waits, step: Step, p: nat)
    requires StepOk(w, step) && (step.Tick? ==> TakesAll(step.takes)) && p < |w.list|
    ensures var t := Do(w, step);
      var k := |t.sent| - |w.sent|;
      && k >= 0 && (if k > p then t.clk == Leaves(w, p)
                    else t.clk < Leaves(w, p) && p - k < |t.list| && Leaves(t, p - k) == Leaves(w, p))
  {
    hide Sent, Left, Run;
    match step {
      case Queue(e) =>
        ReadyGrows(w.list, e, p + 1);
      case Tick(takes) =>
        SweepPrefix(w.clk + 1, w.list, takes);
        var k := Run(w.clk + 1, w.list);
        OpenReady(w.clk + 1, w.list, p + 1);
        if k <= p {
          ReadyDrop(w.list, k, p + 1);
          if k > 0 {
            OpenReady(w.clk + 1, w.list, k);
          }
        }
    }
  }

  /** MAIN: without refusals an entry is sent on the first tick by which everything queued up to it is ready. */
  lemma {:induction false} LeavesOnTime(w: Waits, steps: seq<Step>, p: nat)
    requires RunOk(w, steps) && NeverRefuses(steps) && p < |w.list|
    ensures var t := After(w, steps); |t.sent| > |w.sent| + p <==> t.clk >= Leaves(w, p)
    decreases |steps|
  {
    hide Do, StepOk, Ready;
    if |steps| > 0 {
      var v := Do(w, steps[0]);
      StepLeaves(w, steps[0], p);
      var k := |v.sent| - |w.sent|;
      if k > p {
        SentGrows(v, steps[1..]);
      } else {
        LeavesOnTime(v, steps[1..], p - k);
      }
    }
  }
}
