/** The request scheduler (src/Scheduler.h): which queued request gets the command bus. */
module Scheduler {
  import opened Ddr3
  import Rows = RowModel

  datatype Policy = FCFS | FRFCFS | FRFCFSCap | FRFCFSPriorHit

  /** What the scheduler asks about a request: whether its next command may issue now, whether its row is open,
      whether another one is, how often its row has been hit, and its row group. */
  datatype Candidate = Candidate(arrive: int, ready: bool, hit: bool, open: bool, hits: int, group: seq<int>)

  /** What a policy prefers, before age. */
  predicate Preferred(p: Policy, cap: int, c: Candidate) {
    match p
    case FCFS => false
    case FRFCFS => c.ready
    case FRFCFSCap => c.ready && c.hits <= cap
    case FRFCFSPriorHit => c.ready && c.hit
  }

  /** Request i goes before request j: preferred first, then the older, then the one in front. */
  ghost predicate Before(p: Policy, cap: int, q: seq<Candidate>, i: int, j: int)
    requires 0 <= i < |q| && 0 <= j < |q|
  {
    var a, b := Preferred(p, cap, q[i]), Preferred(p, cap, q[j]);
    if a != b then a else q[i].arrive < q[j].arrive || (q[i].arrive == q[j].arrive && i <= j)
  }

  /** `compare`: on a tie the first argument stays. */
  function Compare(p: Policy, cap: int, q: seq<Candidate>, i: nat, j: nat): (k: nat)
    requires i < j < |q|
    ensures k == i || k == j
    ensures Before(p, cap, q, k, i) && Before(p, cap, q, k, j)
  {
    var a, b := Preferred(p, cap, q[i]), Preferred(p, cap, q[j]);
    if a != b then (if a then i else j) else if q[i].arrive <= q[j].arrive then i else j
  }

  lemma BeforeTrans(p: Policy, cap: int, q: seq<Candidate>, i: int, j: int, k: int)
    requires 0 <= i < |q| && 0 <= j < |q| && 0 <= k < |q|
    requires Before(p, cap, q, i, j) && Before(p, cap, q, j, k)
    ensures Before(p, cap, q, i, k)
  {
  }

  /** The first in a policy's order. */
  method First(p: Policy, cap: int, q: seq<Candidate>) returns (head: nat)
    requires |q| > 0
    ensures head < |q| && forall i :: 0 <= i < |q| ==> Before(p, cap, q, head, i)
  {
    head := 0;
    for i := 1 to |q|
      invariant head < i && forall j :: 0 <= j < i ==> Before(p, cap, q, head, j)
    {
      var best := Compare(p, cap, q, head, i);
      forall j | 0 <= j < i ensures Before(p, cap, q, best, j) {
        BeforeTrans(p, cap, q, best, head, j);
      }
      head := best;
    }
  }

  /** Scheduling request i would close a row that some queued request hits. */
  ghost predicate Violates(q: seq<Candidate>, i: int)
    requires 0 <= i < |q|
  {
    !q[i].hit && q[i].open && exists j :: 0 <= j < |q| && q[j].hit && q[j].group == q[i].group
  }

  method HitGroups(q: seq<Candidate>) returns (groups: seq<seq<int>>)
    ensures forall g :: g in groups <==> exists j :: 0 <= j < |q| && q[j].hit && q[j].group == g
  {
    groups := [];
    for i := 0 to |q|
      invariant forall g :: g in groups <==> exists j :: 0 <= j < i && q[j].hit && q[j].group == g
    {
      if q[i].hit {
        groups := groups + [q[i].group];
      }
    }
  }

  method ViolatesHit(q: seq<Candidate>, groups: seq<seq<int>>, i: nat) returns (v: bool)
    requires i < |q|
    requires forall g :: g in groups <==> exists j :: 0 <= j < |q| && q[j].hit && q[j].group == g
    ensures v <==> Violates(q, i)
  {
    v := false;
    if !q[i].hit && q[i].open {
      for k := 0 to |groups|
        invariant !v && q[i].group !in groups[..k]
      {
        if q[i].group == groups[k] {
          v := true;
          break;
        }
      }
      assert v <==> q[i].group in groups;
    }
  }

  /** The second pass: the FR-FCFS choice among the requests that violate no hit; |q| when there is none. */
  method FirstHarmless(cap: int, q: seq<Candidate>) returns (head: nat)
    ensures head <= |q|
    ensures head < |q| ==> !Violates(q, head)
    ensures forall i :: 0 <= i < |q| && !Violates(q, i) ==> head < |q| && Before(FRFCFS, cap, q, head, i)
  {
    var groups := HitGroups(q);
    head := |q|;
    for i := 0 to |q|
      invariant head < i || head == |q|
      invariant head < |q| ==> !Violates(q, head)
      invariant forall j :: 0 <= j < i && !Violates(q, j) ==> head < |q| && Before(FRFCFS, cap, q, head, j)
    {
      var v := ViolatesHit(q, groups, i);
      if !v {
        if head == |q| {
          head := i;
        } else {
          var best := Compare(FRFCFS, cap, q, head, i);
          forall j | 0 <= j < i && !Violates(q, j) ensures Before(FRFCFS, cap, q, best, j) {
            BeforeTrans(FRFCFS, cap, q, best, head, j);
          }
          head := best;
        }
      }
    }
  }

  /** A queued hit, or else any request at all, violates no hit. */
  lemma SomeHarmless(q: seq<Candidate>) returns (i: nat)
    requires |q| > 0
    ensures i < |q| && !Violates(q, i)
  {
    if j :| 0 <= j < |q| && q[j].hit {
      i := j;
    } else {
      i := 0;
    }
  }

  /** `get_head`; |q| stands for `q.end()`. */
  method GetHead(p: Policy, cap: int, q: seq<Candidate>) returns (head: nat)
    ensures head == |q| <==> q == []
    ensures head <= |q|
    ensures q != [] && !p.FRFCFSPriorHit? ==> forall i :: 0 <= i < |q| ==> Before(p, cap, q, head, i)
    ensures q != [] && p.FRFCFSPriorHit? ==>
      if exists i :: 0 <= i < |q| && q[i].ready && q[i].hit then
        && q[head].ready && q[head].hit
        && forall i :: 0 <= i < |q| && q[i].ready && q[i].hit ==>
             q[head].arrive < q[i].arrive || (q[head].arrive == q[i].arrive && head <= i)
      else
        && !Violates(q, head)
        && forall i :: 0 <= i < |q| && !Violates(q, i) ==> Before(FRFCFS, cap, q, head, i)
  {
    if |q| == 0 {
      return 0;
    }
    head := First(p, cap, q);
    if p.FRFCFSPriorHit? {
      forall i | 0 <= i < |q| && q[i].ready && q[i].hit
        ensures q[head].ready && q[head].hit
        ensures q[head].arrive < q[i].arrive || (q[head].arrive == q[i].arrive && head <= i)
      {
        assert Before(p, cap, q, head, i);
      }
    }
    if !p.FRFCFSPriorHit? || (q[head].ready && q[head].hit) {
      return;
    }
    ghost var harmless := SomeHarmless(q);
    head := FirstHarmless(cap, q);
  }

  /** What the controller answers for a DDR3 request. */
  predicate RowHit(ch: Rows.Channel, q: Rows.Request)
    requires Rows.RequestOk(ch, q)
  {
    (q.kind.Read? || q.kind.Write?) && var bank := ch[q.rank].banks[q.bank]; bank.isOpen && q.row in bank.rows
  }

  predicate RowOpen(ch: Rows.Channel, q: Rows.Request)
    requires Rows.RequestOk(ch, q)
  {
    (q.kind.Read? || q.kind.Write?) && ch[q.rank].banks[q.bank].isOpen
  }

  function View(ch: Rows.Channel, q: Rows.Request, arrive: int, ready: bool, hits: int): Candidate
    requires Rows.RequestOk(ch, q)
  {
    Candidate(arrive, ready, RowHit(ch, q), RowOpen(ch, q), hits, [q.rank, q.bank])
  }

  /** MAIN: with hit priority a DDR3 controller never precharges a bank whose open row a queued request still hits. */
  method NeverClosesHit(ch: Rows.Channel, queue: seq<Rows.Request>, q: seq<Candidate>, cap: int) returns (head: nat)
    requires |q| == |queue| > 0
    requires forall i :: 0 <= i < |q| ==> Rows.RequestOk(ch, queue[i])
    requires forall i :: 0 <= i < |q| ==> q[i] == View(ch, queue[i], q[i].arrive, q[i].ready, q[i].hits)
    ensures head < |q|
    ensures Rows.Decode(ch, queue[head]) == PRE ==>
      forall i :: 0 <= i < |q| && RowHit(ch, queue[i]) ==>
        queue[i].rank != queue[head].rank || queue[i].bank != queue[head].bank
  {
    head := GetHead(FRFCFSPriorHit, cap, q);
    if Rows.Decode(ch, queue[head]) == PRE {
      assert q[head].open && !q[head].hit;
      forall i | 0 <= i < |q| && RowHit(ch, queue[i])
        ensures queue[i].rank != queue[head].rank || queue[i].bank != queue[head].bank
      {
        assert q[i].hit;
        assert q[i].group != q[head].group;
      }
    }
  }
}
