/** Who overtakes whom on the way to the memory: delayed requests are numbered as they are queued, and the numbers
    followed through any run. */
module CacheOrder {
  import opened Arith
  import opened CacheModel
  import opened CacheWait

  /** The numbers of the entries that go, or stay, among the first n. */
  function Kept(clk: int, list: seq<Timed>, takes: seq<bool>, ids: seq<nat>, goes: bool, n: nat): seq<nat>
    requires n <= |list| <= |takes| && |ids| == |list|
  {
    if n == 0 then []
    else Kept(clk, list, takes, ids, goes, n - 1) + if Goes(clk, list, takes, n - 1) == goes then [ids[n - 1]] else []
  }

  /** Those that the scan gets to and the memory refuses. */
  function Refusals(clk: int, list: seq<Timed>, takes: seq<bool>, ids: seq<nat>, n: nat): set<nat>
    requires n <= |list| <= |takes| && |ids| == |list|
  {
    if n == 0 then {}
    else
      Refusals(clk, list, takes, ids, n - 1) + if Open(clk, list, n) && !takes[n - 1] then {ids[n - 1]} else {}
  }

  /** A run with the numbers of what waits and of what was sent, and of all that was ever refused. */
  datatype Trace = Trace(w: Waits, ids: seq<nat>, gone: seq<nat>, refused: set<nat>)

  function Follow(t: Trace, step: Step): Trace
    requires StepOk(t.w, step) && |t.ids| == |t.w.list|
  {
    var w := Do(t.w, step);
    match step
    case Queue(_) => t.(w := w, ids := t.ids + [|t.w.queued|])
    case Tick(takes) =>
      var n := |t.w.list|;
      Trace(w, Kept(w.clk, t.w.list, takes, t.ids, false, n), t.gone + Kept(w.clk, t.w.list, takes, t.ids, true, n),
            t.refused + Refusals(w.clk, t.w.list, takes, t.ids, n))
  }

  /** The numbers name the entries. */
  ghost predicate Names(queued: seq<Timed>, entries: seq<Timed>, ids: seq<nat>) {
    |ids| == |entries| && forall i :: 0 <= i < |ids| ==> ids[i] < |queued| && queued[ids[i]] == entries[i]
  }

  /** Whatever went while an earlier one stayed, passed one that had been refused. */
  ghost predicate Passed(gone: seq<nat>, ids: seq<nat>, refused: set<nat>) {
    forall x, y :: x in gone && y in ids && y < x ==> y in refused
  }

  /** So did whatever went before an earlier one. */
  ghost predicate PassedGone(gone: seq<nat>, refused: set<nat>) {
    forall a, b :: 0 <= a < b < |gone| && gone[b] < gone[a] ==> gone[b] in refused
  }

  ghost predicate TraceOk(t: Trace) {
    && Names(t.w.queued, t.w.list, t.ids) && Names(t.w.queued, t.w.sent, t.gone)
    && Increasing(t.ids) && Passed(t.gone, t.ids, t.refused) && PassedGone(t.gone, t.refused)
  }

  lemma {:induction false} KeptNames(queued: seq<Timed>, clk: int, list: seq<Timed>, takes: seq<bool>, ids: seq<nat>,
                                     n: nat)
    requires n <= |list| <= |takes| && Names(queued, list, ids)
    ensures Names(queued, Sent(clk, list, takes, n), Kept(clk, list, takes, ids, true, n))
    ensures Names(queued, Left(clk, list, takes, n), Kept(clk, list, takes, ids, false, n))
    decreases n
  {
    hide Goes;
    if n > 0 {
      KeptNames(queued, clk, list, takes, ids, n - 1);
    }
  }

  /** One tick by itself: of `ids`, in order, some go and some stay; `open` says that the scan got past them all. */
  ghost predicate Split(ids: seq<nat>, goes: seq<nat>, stays: seq<nat>, refused: set<nat>, open: bool) {
    && (forall x :: x in goes || x in stays ==> x in ids)
    && Increasing(goes) && Increasing(stays) && Passed(goes, stays, refused)
    && (open ==> forall y :: y in stays ==> y in refused)
  }

  ghost predicate Above(ids: seq<nat>, x: nat) {
    forall y :: y in ids ==> y < x
  }

  lemma IncreasingSnoc(ids: seq<nat>, x: nat)
    requires Increasing(ids) && Above(ids, x)
    ensures Increasing(ids + [x])
  {
    var all := ids + [x];
    forall i, j | 0 <= i < j < |all| ensures all[i] < all[j] {
      assert all[i] in ids;
    }
  }

  lemma SplitGo(ids: seq<nat>, goes: seq<nat>, stays: seq<nat>, refused: set<nat>, x: nat)
    requires Split(ids, goes, stays, refused, true) && Above(ids, x)
    ensures Split(ids + [x], goes + [x], stays + [], refused + {}, true)
  {
    assert stays + [] == stays && refused + {} == refused;
    IncreasingSnoc(goes, x);
  }

  lemma SplitStay(ids: seq<nat>, goes: seq<nat>, stays: seq<nat>, refused: set<nat>, x: nat, was: bool, open: bool)
    requires Split(ids, goes, stays, refused, was) && Above(ids, x) && (open ==> was)
    ensures Split(ids + [x], goes + [], stays + [x], refused + if open then {x} else {}, open)
  {
    assert goes + [] == goes;
    IncreasingSnoc(stays, x);
  }

  lemma AboveFirst(ids: seq<nat>, n: nat)
    requires 0 < n <= |ids| && Increasing(ids)
    ensures Above(ids[..n - 1], ids[n - 1])
  {
  }

  lemma {:induction false} Splits(clk: int, list: seq<Timed>, takes: seq<bool>, ids: seq<nat>, n: nat)
    requires n <= |list| <= |takes| && |ids| == |list| && Increasing(ids)
    ensures Split(ids[..n], Kept(clk, list, takes, ids, true, n), Kept(clk, list, takes, ids, false, n),
                  Refusals(clk, list, takes, ids, n), Open(clk, list, n))
    decreases n
  {
    if n > 0 {
      hide Split, Increasing, Above;
      Splits(clk, list, takes, ids, n - 1);
      AboveFirst(ids, n);
      var goes, stays := Kept(clk, list, takes, ids, true, n - 1), Kept(clk, list, takes, ids, false, n - 1);
      var refused, x := Refusals(clk, list, takes, ids, n - 1), ids[n - 1];
      assert ids[..n] == ids[..n - 1] + [x];
      if Goes(clk, list, takes, n - 1) {
        SplitGo(ids[..n - 1], goes, stays, refused, x);
      } else {
        SplitStay(ids[..n - 1], goes, stays, refused, x, Open(clk, list, n - 1), Open(clk, list, n));
      }
    }
  }

  lemma FollowQueue(t: Trace, e: Timed)
    requires TraceOk(t)
    ensures TraceOk(Follow(t, Queue(e)))
  {
    IncreasingSnoc(t.ids, |t.w.queued|);
  }

  lemma FollowTick(t: Trace, takes: seq<bool>)
    requires TraceOk(t) && |t.w.list| <= |takes|
    ensures TraceOk(Follow(t, Tick(takes)))
  {
    hide Kept, Refusals, Sent, Left, Open;
    var n, clk := |t.w.list|, t.w.clk + 1;
    KeptNames(t.w.queued, clk, t.w.list, takes, t.ids, n);
    Splits(clk, t.w.list, takes, t.ids, n);
    assert t.ids[..n] == t.ids;
    var goes, stays := Kept(clk, t.w.list, takes, t.ids, true, n), Kept(clk, t.w.list, takes, t.ids, false, n);
    var now := Refusals(clk, t.w.list, takes, t.ids, n);
    GonePassed(t.gone, goes, t.ids, t.refused, now);
  }

  /** Old and new departures together. */
  lemma GonePassed(gone: seq<nat>, goes: seq<nat>, ids: seq<nat>, refused: set<nat>, now: set<nat>)
    requires PassedGone(gone, refused) && Increasing(goes) && Passed(gone, ids, refused)
    requires forall x :: x in goes ==> x in ids
    ensures PassedGone(gone + goes, refused + now)
  {
    var all := gone + goes;
    forall a, b | |gone| <= a < b < |all| ensures all[a] < all[b] {
      assert all[a] == goes[a - |gone|] && all[b] == goes[b - |gone|];
    }
    forall a, b | 0 <= a < b < |all| && a < |gone| && all[b] < all[a] ensures all[b] in refused {
      if b < |gone| {
        assert gone[b] in refused;
      } else {
        assert all[a] in gone && all[b] in goes;
      }
    }
  }

  ghost predicate StepsOk(t: Trace, steps: seq<Step>)
    decreases |steps|
  {
    |steps| > 0 ==> StepOk(t.w, steps[0]) && |t.ids| == |t.w.list| && StepsOk(Follow(t, steps[0]), steps[1..])
  }

  ghost function FollowAll(t: Trace, steps: seq<Step>): Trace
    requires StepsOk(t, steps)
    decreases |steps|
  {
    if |steps| == 0 then t else FollowAll(Follow(t, steps[0]), steps[1..])
  }

  /** The numbers follow the runs of `CacheWait`. */
  lemma {:induction false} Follows(t: Trace, steps: seq<Step>)
    requires TraceOk(t) && RunOk(t.w, steps)
    ensures StepsOk(t, steps) && FollowAll(t, steps).w == After(t.w, steps) && TraceOk(FollowAll(t, steps))
    decreases |steps|
  {
    hide TraceOk, Do, StepOk;
    if |steps| > 0 {
      NamesFit(t);
      match steps[0] {
        case Queue(e) => FollowQueue(t, e);
        case Tick(takes) =>
          TicksFit(t.w, takes);
          FollowTick(t, takes);
      }
      Follows(Follow(t, steps[0]), steps[1..]);
    }
  }

  lemma NamesFit(t: Trace)
    requires TraceOk(t)
    ensures |t.ids| == |t.w.list|
  {
  }

  lemma TicksFit(w: Waits, takes: seq<bool>)
    requires StepOk(w, Tick(takes))
    ensures |w.list| <= |takes|
  {
  }

  function Empty(): Trace {
    Trace(Waits(0, [], [], []), [], [], {})
  }

  /** MAIN: over any run, with any refusals and any ready times, a request reaches the memory before one queued ahead of
      it only if the memory has refused the one ahead: a write-back that is never refused is never overtaken. */
  lemma OvertakenRefused(steps: seq<Step>)
    requires RunOk(Empty().w, steps)
    ensures StepsOk(Empty(), steps)
    ensures var t := FollowAll(Empty(), steps);
      && t.w == After(Empty().w, steps)
      && Names(t.w.queued, t.w.list, t.ids) && Names(t.w.queued, t.w.sent, t.gone)
      && (forall x, y :: x in t.gone && y in t.ids && y < x ==> y in t.refused)
      && forall a, b :: 0 <= a < b < |t.gone| && t.gone[b] < t.gone[a] ==> t.gone[b] in t.refused
  {
    Follows(Empty(), steps);
  }

  /** A later request was sent before one that was sent after it, or still waits. */
  ghost predicate Inverted(gone: seq<nat>, ids: seq<nat>) {
    (exists a, b :: 0 <= a < b < |gone| && gone[b] < gone[a]) || Behind(gone, ids)
  }

  ghost predicate Behind(gone: seq<nat>, ids: seq<nat>) {
    exists x, y :: x in gone && y in ids && y < x
  }

  /** Somebody has been overtaken. */
  ghost predicate Overtaken(t: Trace) {
    Inverted(t.gone, t.ids)
  }

  /** The memory takes a prefix of what is ready: nothing goes behind an entry that stays. */
  ghost predicate Neat(clk: int, list: seq<Timed>, takes: seq<bool>)
    requires |list| <= |takes|
  {
    forall p, q :: 0 <= p < q < |list| && Goes(clk, list, takes, q) ==> Goes(clk, list, takes, p)
  }

  ghost predicate NeatStep(t: Trace, step: Step)
    requires StepOk(t.w, step)
  {
    step.Tick? ==> Neat(t.w.clk + 1, t.w.list, step.takes)
  }

  ghost predicate AllNeat(t: Trace, steps: seq<Step>)
    requires StepsOk(t, steps)
    decreases |steps|
  {
    |steps| > 0 ==> NeatStep(t, steps[0]) && AllNeat(Follow(t, steps[0]), steps[1..])
  }

  /** Number x is that of one of the first n entries, which goes or stays. */
  ghost predicate IsKept(clk: int, list: seq<Timed>, takes: seq<bool>, ids: seq<nat>, goes: bool, n: nat, x: nat)
    requires n <= |list| <= |takes| && |ids| == |list|
  {
    exists p :: 0 <= p < n && Goes(clk, list, takes, p) == goes && ids[p] == x
  }

  lemma {:induction false} KeptIff(clk: int, list: seq<Timed>, takes: seq<bool>, ids: seq<nat>, goes: bool, n: nat,
                                   x: nat)
    requires n <= |list| <= |takes| && |ids| == |list|
    ensures x in Kept(clk, list, takes, ids, goes, n) <==> IsKept(clk, list, takes, ids, goes, n, x)
    decreases n
  {
    hide Goes;
    if n > 0 {
      KeptIff(clk, list, takes, ids, goes, n - 1, x);
      if IsKept(clk, list, takes, ids, goes, n, x) {
        var p :| 0 <= p < n && Goes(clk, list, takes, p) == goes && ids[p] == x;
        assert p < n - 1 ==> IsKept(clk, list, takes, ids, goes, n - 1, x);
      }
    }
  }

  /** In a neat tick, and in no other, nothing that stays is older than anything that goes. */
  lemma NeatIff(clk: int, list: seq<Timed>, takes: seq<bool>, ids: seq<nat>)
    requires |list| <= |takes| && |ids| == |list| && Increasing(ids)
    ensures var goes, stays := Kept(clk, list, takes, ids, true, |list|), Kept(clk, list, takes, ids, false, |list|);
      Neat(clk, list, takes) <==> !Behind(goes, stays)
  {
    hide Goes, Kept;
    var n := |list|;
    var goes, stays := Kept(clk, list, takes, ids, true, n), Kept(clk, list, takes, ids, false, n);
    if Behind(goes, stays) {
      var x, y :| x in goes && y in stays && y < x;
      KeptIff(clk, list, takes, ids, true, n, x);
      KeptIff(clk, list, takes, ids, false, n, y);
      var q :| 0 <= q < n && Goes(clk, list, takes, q) == true && ids[q] == x;
      var p :| 0 <= p < n && Goes(clk, list, takes, p) == false && ids[p] == y;
      assert p < q;
    }
    if !Neat(clk, list, takes) {
      var p, q :| 0 <= p < q < n && Goes(clk, list, takes, q) && !Goes(clk, list, takes, p);
      assert IsKept(clk, list, takes, ids, true, n, ids[q]) && IsKept(clk, list, takes, ids, false, n, ids[p]);
      KeptIff(clk, list, takes, ids, true, n, ids[q]);
      KeptIff(clk, list, takes, ids, false, n, ids[p]);
      assert ids[p] < ids[q];
    }
  }

  /** Every waiting request goes or stays. */
  lemma KeptAll(clk: int, list: seq<Timed>, takes: seq<bool>, ids: seq<nat>, y: nat)
    requires |list| <= |takes| && |ids| == |list| && y in ids
    ensures y in Kept(clk, list, takes, ids, true, |list|) || y in Kept(clk, list, takes, ids, false, |list|)
  {
    hide Goes, Kept;
    var p :| 0 <= p < |ids| && ids[p] == y;
    var goes := Goes(clk, list, takes, p);
    assert IsKept(clk, list, takes, ids, goes, |list|, y);
    KeptIff(clk, list, takes, ids, goes, |list|, y);
  }

  /** From an ordered trace a tick overtakes exactly if it is not neat. */
  lemma TickOvertakes(t: Trace, takes: seq<bool>)
    requires TraceOk(t) && !Overtaken(t) && |t.w.list| <= |takes|
    ensures Overtaken(Follow(t, Tick(takes))) <==> !Neat(t.w.clk + 1, t.w.list, takes)
  {
    hide Kept, Refusals, Sent, Left, Open, Neat, Inverted, Behind;
    var n, clk := |t.w.list|, t.w.clk + 1;
    var goes, stays := Kept(clk, t.w.list, takes, t.ids, true, n), Kept(clk, t.w.list, takes, t.ids, false, n);
    Splits(clk, t.w.list, takes, t.ids, n);
    assert t.ids[..n] == t.ids;
    NeatIff(clk, t.w.list, takes, t.ids);
    InvertsIff(t.gone, goes, t.ids, stays);
  }

  lemma InvertsIff(gone: seq<nat>, goes: seq<nat>, ids: seq<nat>, stays: seq<nat>)
    requires !Inverted(gone, ids) && Increasing(goes) && forall x :: x in goes || x in stays ==> x in ids
    ensures Inverted(gone + goes, stays) <==> Behind(goes, stays)
  {
    var all := gone + goes;
    forall a, b | 0 <= a < b < |all| ensures all[a] <= all[b] {
      if a < |gone| <= b {
        assert all[a] in gone && all[b] in goes;
      }
    }
    if Behind(goes, stays) {
      var x, y :| x in goes && y in stays && y < x;
      assert x in all;
    }
    if Behind(all, stays) {
      var x, y :| x in all && y in stays && y < x;
      assert x in goes;
    }
  }

  lemma StaysInverted(gone: seq<nat>, goes: seq<nat>, ids: seq<nat>, stays: seq<nat>)
    requires Inverted(gone, ids) && forall y :: y in ids ==> y in goes || y in stays
    ensures Inverted(gone + goes, stays)
  {
    var all := gone + goes;
    if Behind(gone, ids) {
      var x, y :| x in gone && y in ids && y < x;
      var a :| 0 <= a < |gone| && gone[a] == x;
      assert all[a] == x;
      if y in goes {
        var b :| 0 <= b < |goes| && goes[b] == y;
        assert all[|gone| + b] == y;
      } else {
        assert x in all;
      }
    } else {
      var a, b :| 0 <= a < b < |gone| && gone[b] < gone[a];
      assert all[b] < all[a];
    }
  }

  /** What is overtaken stays overtaken. */
  lemma OvertakenStays(t: Trace, step: Step)
    requires TraceOk(t) && StepOk(t.w, step) && Overtaken(t)
    ensures Overtaken(Follow(t, step))
  {
    hide Kept, Refusals, Sent, Left, Inverted;
    match step {
      case Queue(e) =>
        QueueInverted(t.gone, t.ids, |t.w.queued|);
      case Tick(takes) =>
        var n, clk := |t.w.list|, t.w.clk + 1;
        var goes, stays := Kept(clk, t.w.list, takes, t.ids, true, n), Kept(clk, t.w.list, takes, t.ids, false, n);
        forall y | y in t.ids ensures y in goes || y in stays {
          KeptAll(clk, t.w.list, takes, t.ids, y);
        }
        StaysInverted(t.gone, goes, t.ids, stays);
    }
  }

  lemma QueueInverted(gone: seq<nat>, ids: seq<nat>, x: nat)
    requires forall y :: y in gone ==> y < x
    ensures Inverted(gone, ids + [x]) <==> Inverted(gone, ids)
  {
    if Behind(gone, ids) {
      var x', y :| x' in gone && y in ids && y < x';
      assert y in ids + [x];
    }
  }

  lemma QueueOvertakes(t: Trace, e: Timed)
    requires TraceOk(t) && !Overtaken(t)
    ensures !Overtaken(Follow(t, Queue(e)))
  {
    hide Inverted;
    QueueInverted(t.gone, t.ids, |t.w.queued|);
  }

  lemma {:induction false} StaysOvertaken(t: Trace, steps: seq<Step>)
    requires TraceOk(t) && StepsOk(t, steps) && Overtaken(t)
    ensures Overtaken(FollowAll(t, steps))
    decreases |steps|
  {
    hide TraceOk, Overtaken, Follow;
    if |steps| > 0 {
      FollowKeeps(t, steps[0]);
      OvertakenStays(t, steps[0]);
      StaysOvertaken(Follow(t, steps[0]), steps[1..]);
    }
  }

  lemma FollowKeeps(t: Trace, step: Step)
    requires TraceOk(t) && StepOk(t.w, step)
    ensures |t.ids| == |t.w.list| && TraceOk(Follow(t, step))
  {
    hide TraceOk, Follow;
    NamesFit(t);
    match step {
      case Queue(e) => FollowQueue(t, e);
      case Tick(takes) => FollowTick(t, takes);
    }
  }

  /** MAIN: exactly when the wait list keeps its order: from a trace in which nobody has been overtaken, nobody is by
      the end of a run if and only if on every tick the memory takes a prefix of what is ready. */
  lemma {:induction false} InOrderIff(t: Trace, steps: seq<Step>)
    requires TraceOk(t) && !Overtaken(t) && StepsOk(t, steps)
    ensures !Overtaken(FollowAll(t, steps)) <==> AllNeat(t, steps)
    decreases |steps|
  {
    hide TraceOk, Overtaken, Follow, Neat;
    if |steps| > 0 {
      var r := Follow(t, steps[0]);
      FollowKeeps(t, steps[0]);
      match steps[0] {
        case Queue(e) => QueueOvertakes(t, e);
        case Tick(takes) => TickOvertakes(t, takes);
      }
      if Overtaken(r) {
        StaysOvertaken(r, steps[1..]);
      } else {
        InOrderIff(r, steps[1..]);
      }
    }
  }

  /** Every request queued so far was sent or waits, once and not both. */
  ghost predicate Once(t: Trace) {
    forall i: nat :: multiset(t.gone)[i] + multiset(t.ids)[i] == if i < |t.w.queued| then 1 else 0
  }

  lemma CountSnoc(ids: seq<nat>, e: nat, x: nat)
    ensures multiset(ids + [e])[x] == multiset(ids)[x] + if e == x then 1 else 0
  {
  }

  lemma KeptStep(clk: int, list: seq<Timed>, takes: seq<bool>, ids: seq<nat>, goes: bool, n: nat)
    requires 0 < n <= |list| <= |takes| && |ids| == |list|
    ensures Kept(clk, list, takes, ids, goes, n)
         == if Goes(clk, list, takes, n - 1) == goes then Kept(clk, list, takes, ids, goes, n - 1) + [ids[n - 1]]
            else Kept(clk, list, takes, ids, goes, n - 1)
  {
  }

  /** How often x is among what goes and what stays. */
  function Found(clk: int, list: seq<Timed>, takes: seq<bool>, ids: seq<nat>, n: nat, x: nat): nat
    requires n <= |list| <= |takes| && |ids| == |list|
  {
    multiset(Kept(clk, list, takes, ids, true, n))[x] + multiset(Kept(clk, list, takes, ids, false, n))[x]
  }

  lemma FoundNone(clk: int, list: seq<Timed>, takes: seq<bool>, ids: seq<nat>, x: nat)
    requires |list| <= |takes| && |ids| == |list|
    ensures Found(clk, list, takes, ids, 0, x) == 0 && multiset(ids[..0])[x] == 0
  {
    assert ids[..0] == [];
  }

  lemma FoundStep(clk: int, list: seq<Timed>, takes: seq<bool>, ids: seq<nat>, n: nat, x: nat)
    requires 0 < n <= |list| <= |takes| && |ids| == |list|
    ensures Found(clk, list, takes, ids, n, x)
         == Found(clk, list, takes, ids, n - 1, x) + if ids[n - 1] == x then 1 else 0
  {
    hide Goes, Kept;
    KeptStep(clk, list, takes, ids, true, n);
    KeptStep(clk, list, takes, ids, false, n);
    CountSnoc(Kept(clk, list, takes, ids, true, n - 1), ids[n - 1], x);
    CountSnoc(Kept(clk, list, takes, ids, false, n - 1), ids[n - 1], x);
  }

  lemma {:induction false} KeptParts(clk: int, list: seq<Timed>, takes: seq<bool>, ids: seq<nat>, n: nat, x: nat)
    requires n <= |list| <= |takes| && |ids| == |list|
    ensures Found(clk, list, takes, ids, n, x) == multiset(ids[..n])[x]
    decreases n
  {
    hide Found;
    if n == 0 {
      FoundNone(clk, list, takes, ids, x);
    } else {
      KeptParts(clk, list, takes, ids, n - 1, x);
      FoundStep(clk, list, takes, ids, n, x);
      CountSnoc(ids[..n - 1], ids[n - 1], x);
      assert ids[..n] == ids[..n - 1] + [ids[n - 1]];
    }
  }

  lemma FollowOnce(t: Trace, step: Step)
    requires TraceOk(t) && Once(t) && StepOk(t.w, step)
    ensures Once(Follow(t, step))
  {
    hide Kept, Sent, Left, Refusals;
    var r := Follow(t, step);
    forall i: nat ensures multiset(r.gone)[i] + multiset(r.ids)[i] == if i < |r.w.queued| then 1 else 0 {
      assert multiset(t.gone)[i] + multiset(t.ids)[i] == if i < |t.w.queued| then 1 else 0;
      if step.Tick? {
        KeptParts(t.w.clk + 1, t.w.list, step.takes, t.ids, |t.w.list|, i);
        assert t.ids[..|t.w.list|] == t.ids;
      }
    }
  }

  /** The last of the numbers 0 to n - 1, in order. */
  lemma LastOnce(all: seq<nat>, n: nat)
    requires n > 0 && forall a, b :: 0 <= a < b < |all| ==> all[a] <= all[b]
    requires forall i: nat :: multiset(all)[i] == if i < n then 1 else 0
    ensures |all| > 0 && all[|all| - 1] == n - 1
  {
    assert multiset(all)[n - 1] == 1;
    assert n - 1 in all;
    var j :| 0 <= j < |all| && all[j] == n - 1;
    assert multiset(all)[all[|all| - 1]] > 0;
  }

  /** Numbers in order, each below n once, are 0 to n - 1. */
  lemma {:induction false} SortedOnce(all: seq<nat>, n: nat)
    requires forall a, b :: 0 <= a < b < |all| ==> all[a] <= all[b]
    requires forall i: nat :: multiset(all)[i] == if i < n then 1 else 0
    ensures |all| == n && forall i :: 0 <= i < n ==> all[i] == i
    decreases n
  {
    if n == 0 {
      assert forall i :: 0 <= i < |all| ==> multiset(all)[all[i]] > 0;
    } else {
      LastOnce(all, n);
      var init := all[..|all| - 1];
      assert all == init + [n - 1];
      forall i: nat ensures multiset(init)[i] == if i < n - 1 then 1 else 0 {
        CountSnoc(init, n - 1, i);
      }
      SortedOnce(init, n - 1);
    }
  }

  /** Nobody has been overtaken exactly when what was sent, then what waits, are all requests as they were queued. */
  lemma InOrderMeans(t: Trace)
    requires TraceOk(t) && Once(t)
    ensures var all := t.gone + t.ids;
      !Overtaken(t) <==> |all| == |t.w.queued| && forall i :: 0 <= i < |all| ==> all[i] == i
    ensures !Overtaken(t) ==> t.w.sent + t.w.list == t.w.queued
  {
    var all := t.gone + t.ids;
    if !Overtaken(t) {
      forall a, b | 0 <= a < b < |all| ensures all[a] <= all[b] {
        if a < |t.gone| <= b {
          assert all[a] in t.gone && all[b] in t.ids;
        }
      }
      forall i: nat ensures multiset(all)[i] == if i < |t.w.queued| then 1 else 0 {
        assert multiset(t.gone)[i] + multiset(t.ids)[i] == if i < |t.w.queued| then 1 else 0;
      }
      SortedOnce(all, |t.w.queued|);
      NamesInOrder(t.w.queued, t.w.sent, t.w.list, t.gone, t.ids);
    } else if forall i :: 0 <= i < |all| ==> all[i] == i {
      NotInverted(t.gone, t.ids);
    }
  }

  lemma NamesInOrder(queued: seq<Timed>, sent: seq<Timed>, list: seq<Timed>, gone: seq<nat>, ids: seq<nat>)
    requires Names(queued, sent, gone) && Names(queued, list, ids) && |gone| + |ids| == |queued|
    requires var all := gone + ids; forall i :: 0 <= i < |all| ==> all[i] == i
    ensures sent + list == queued
  {
    var all, entries := gone + ids, sent + list;
    forall i | 0 <= i < |queued| ensures entries[i] == queued[i] {
      assert all[i] == i;
      assert if i < |gone| then gone[i] == i else ids[i - |gone|] == i;
    }
  }

  lemma NotInverted(gone: seq<nat>, ids: seq<nat>)
    requires var all := gone + ids; forall i :: 0 <= i < |all| ==> all[i] == i
    ensures !Inverted(gone, ids)
  {
    var all := gone + ids;
    assert forall a :: 0 <= a < |gone| ==> gone[a] == all[a];
    assert forall a :: 0 <= a < |ids| ==> ids[a] == all[|gone| + a];
  }
}
