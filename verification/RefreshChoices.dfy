/** When the refresh scheduler issues a refresh, and to which bank, said of the queues and credits themselves. */
module RefreshChoices {
  import opened Arith
  import opened RefreshModel
  import opened RefreshRuns

  /** No queued refresh is for bank b of rank r. */
  ghost predicate NoneQueued(otherq: seq<Other>, r: int, b: int) {
    forall i :: 0 <= i < |otherq| ==> !(otherq[i].refresh && otherq[i].rank == r && otherq[i].bank == b)
  }

  /** A bank to be refreshed ahead of time during reads: no read waits for it, no refresh of it is queued, and it is
      more than six refreshes behind. */
  ghost predicate Behind(s: State, v: View, r: int, b: int)
    requires 0 <= r < |s.backlog| && 0 <= b < |s.backlog[r]|
  {
    && (forall i :: 0 <= i < |v.readq| ==> v.readq[i] != Target(r, b))
    && NoneQueued(s.otherq, r, b)
    && s.backlog[r][b] < -6
  }

  /** One refresh of bank b of rank r, at the subarray whose turn it is. */
  ghost predicate Refreshed(c: Config, s: State, t: State, r: int, b: int)
    requires Shape(c, s) && Shape(c, t) && 0 <= r < c.ranks && 0 <= b < c.banks
  {
    && b < c.sas
    && t.log == s.log + [Other(true, r, b, s.sa[r][b])] && t.otherq == s.otherq + [Other(true, r, b, s.sa[r][b])]
    && (forall i, j :: 0 <= i < c.ranks && 0 <= j < c.banks ==>
          t.backlog[i][j] == s.backlog[i][j] + if i == r && j == b then 1 else 0)
    && (forall i, j :: 0 <= i < c.ranks && 0 <= j < c.sas ==>
          t.sa[i][j] == if i == r && j == b then (s.sa[r][b] + 1) % c.sas else s.sa[i][j])
    && t.ok && t.clk == s.clk && t.next == s.next && t.refreshed == s.refreshed && t.wasWriting == s.wasWriting
  }

  lemma IssueRefreshes(c: Config, s: State, r: int, b: int)
    requires Shape(c, s) && s.ok && 0 <= r < c.ranks && 0 <= b < c.banks && |s.otherq| < c.otherMax
    ensures Refreshed(c, s, Issue(c, s, r, b), r, b)
         || (b >= c.sas && Issue(c, s, r, b).wild && !Issue(c, s, r, b).ok)
  {
  }

  lemma BehindPullable(s: State, v: View, r: int, b: int)
    requires 0 <= r < |s.backlog| && 0 <= b < |s.backlog[r]|
    ensures Pullable(s, v, r, b) <==> Behind(s, v, r, b)
  {
    if Target(r, b) in v.readq {
      var i :| 0 <= i < |v.readq| && v.readq[i] == Target(r, b);
    }
  }

  /** Bank k of the circle of banks from the one drawn. */
  function Circle(c: Config, draw: nat, k: int): (b: int)
    requires c.banks > 0
    ensures 0 <= b < c.banks
  {
    (draw + k) % c.banks
  }

  /** It is the first one that is behind. */
  ghost predicate FirstBehind(c: Config, s: State, v: View, r: int, draw: nat, k: int)
    requires Shape(c, s) && 0 <= r < c.ranks
  {
    && 0 <= k < c.banks && Behind(s, v, r, Circle(c, draw, k))
    && forall j :: 0 <= j < k ==> !Behind(s, v, r, Circle(c, draw, j))
  }

  lemma CircleStart(c: Config, draw: nat, k: nat)
    requires c.banks > 0
    ensures (draw % c.banks + k) % c.banks == Circle(c, draw, k)
  {
    ModShift(c.banks, draw / c.banks, draw % c.banks + k);
    assert draw + k == c.banks * (draw / c.banks) + (draw % c.banks + k);
  }

  lemma {:induction false} PullFirst(c: Config, s: State, v: View, r: int, draw: nat, i: nat)
    requires Shape(c, s) && 0 <= r < c.ranks && i <= c.banks
    ensures var k := PullFrom(c, s, v, r, draw % c.banks, i);
      && (k < c.banks ==> Behind(s, v, r, Circle(c, draw, k)))
      && forall j :: i <= j < k ==> !Behind(s, v, r, Circle(c, draw, j))
    decreases c.banks - i
  {
    hide Behind;
    if i < c.banks {
      CircleStart(c, draw, i);
      BehindPullable(s, v, r, Circle(c, draw, i));
      if !Pullable(s, v, r, Circle(c, draw, i)) {
        PullFirst(c, s, v, r, draw, i + 1);
      }
    }
  }

  /** Every bank is on the circle. */
  lemma OnCircle(c: Config, draw: nat, b: int) returns (j: nat)
    requires 0 <= b < c.banks
    ensures j < c.banks && b == Circle(c, draw, j)
  {
    var start := draw % c.banks;
    j := if b >= start then b - start else b + c.banks - start;
    DivModIs(c.banks, start + j, if b >= start then 0 else 1, b);
    CircleStart(c, draw, j);
  }

  lemma EarlyUnfold(c: Config, s: State, v: View, r: int) returns (i: nat)
    requires Shape(c, s) && ViewOk(c, v) && 0 <= r < c.ranks
    ensures i <= c.banks
    ensures EarlyPick(c, s, v, r) == if i < c.banks then Circle(c, v.earlyDraws[r], i) else c.banks
    ensures i < c.banks ==> Behind(s, v, r, Circle(c, v.earlyDraws[r], i))
    ensures forall j :: 0 <= j < i ==> !Behind(s, v, r, Circle(c, v.earlyDraws[r], j))
  {
    hide Behind, Circle, PullFrom;
    var draw := v.earlyDraws[r];
    i := PullFrom(c, s, v, r, draw % c.banks, 0);
    PullFirst(c, s, v, r, draw, 0);
    CircleStart(c, draw, i);
  }

  lemma EarlyPickIs(c: Config, s: State, v: View, r: int)
    requires Shape(c, s) && ViewOk(c, v) && 0 <= r < c.ranks
    ensures var b, draw := EarlyPick(c, s, v, r), v.earlyDraws[r];
      && (forall k :: FirstBehind(c, s, v, r, draw, k) ==> b == Circle(c, draw, k))
      && ((forall x :: 0 <= x < c.banks ==> !Behind(s, v, r, x)) ==> b == c.banks)
  {
    hide Behind, Circle, EarlyPick;
    var draw := v.earlyDraws[r];
    var i := EarlyUnfold(c, s, v, r);
    forall k | FirstBehind(c, s, v, r, draw, k) ensures k == i {
    }
  }

  /** MAIN: in read mode a rank pulls in a refresh exactly when there is room and a bank is behind, and then of the
      first such bank of the circle from the one drawn. */
  lemma EarlyRefresh(c: Config, s: State, v: View, r: int)
    requires Shape(c, s) && ViewOk(c, v) && s.ok && !v.writeMode && 0 <= r < c.ranks
    ensures var t, draw := AheadRank(c, s, v, r), v.earlyDraws[r];
      && (forall k :: FirstBehind(c, s, v, r, draw, k) && |s.otherq| < c.otherMax ==>
            Refreshed(c, s, t, r, Circle(c, draw, k)) || (Circle(c, draw, k) >= c.sas && t.wild))
      && (|s.otherq| == c.otherMax || (forall b :: 0 <= b < c.banks ==> !Behind(s, v, r, b)) ==> t == s)
      && ((exists b :: 0 <= b < c.banks && Behind(s, v, r, b)) ==> exists k :: FirstBehind(c, s, v, r, draw, k))
  {
    hide Behind, Refreshed, Issue, EarlyPick, FirstBehind, Circle, Sorted;
    var draw := v.earlyDraws[r];
    EarlyPickIs(c, s, v, r);
    forall k | FirstBehind(c, s, v, r, draw, k) && |s.otherq| < c.otherMax
      ensures var t := AheadRank(c, s, v, r);
        Refreshed(c, s, t, r, Circle(c, draw, k)) || (Circle(c, draw, k) >= c.sas && t.wild)
    {
      IssueRefreshes(c, s, r, Circle(c, draw, k));
    }
    if b :| 0 <= b < c.banks && Behind(s, v, r, b) {
      var j := OnCircle(c, draw, b);
      var k := FirstOf(c, s, v, r, draw, j);
    }
  }

  lemma {:induction false} FirstOf(c: Config, s: State, v: View, r: int, draw: nat, j: nat) returns (k: nat)
    requires Shape(c, s) && 0 <= r < c.ranks && j < c.banks && Behind(s, v, r, Circle(c, draw, j))
    ensures FirstBehind(c, s, v, r, draw, k)
    decreases j
  {
    hide Behind, Circle;
    if i: nat :| i < j && Behind(s, v, r, Circle(c, draw, i)) {
      k := FirstOf(c, s, v, r, draw, i);
    } else {
      k := j;
    }
  }

  /** The queued requests for a bank. */
  ghost function Waits(q: seq<Target>, r: int, b: int): set<int> {
    set i | 0 <= i < |q| && q[i] == Target(r, b)
  }

  lemma {:induction false} DemandIs(q: seq<Target>, r: int, b: int)
    ensures Demand(q, r, b) == |Waits(q, r, b)|
    decreases |q|
  {
    if |q| == 0 {
      assert Waits(q, r, b) == {};
    } else {
      var n := |q| - 1;
      DemandIs(q[..n], r, b);
      if q[n] == Target(r, b) {
        assert Waits(q, r, b) == Waits(q[..n], r, b) + {n} && n !in Waits(q[..n], r, b);
      } else {
        assert Waits(q, r, b) == Waits(q[..n], r, b);
      }
    }
  }

  /** MAIN: on entering write mode a rank refreshes the bank that is first in its order, one that as few
      requests wait for as for any, exactly when there is room, no refresh of the rank is queued, a write waits for it,
      and the bank is less than eight refreshes ahead. */
  lemma WriteRefresh(c: Config, s: State, v: View, r: int)
    requires Shape(c, s) && ViewOk(c, v) && s.ok && v.writeMode && 0 <= r < c.ranks
    ensures Sorted(c, v, r, v.order[r])
    ensures var t, b := AheadRank(c, s, v, r), v.order[r][0];
      if |s.otherq| < c.otherMax && s.backlog[r][b] < 8
         && (exists i :: 0 <= i < |v.writeq| && v.writeq[i].rank == r)
         && (forall i :: 0 <= i < |s.otherq| ==> !(s.otherq[i].refresh && s.otherq[i].rank == r))
      then Refreshed(c, s, t, r, b) || (b >= c.sas && t.wild) else t == s
    ensures var b := v.order[r][0];
      forall x :: 0 <= x < c.banks ==>
        |Waits(v.writeq, r, b)| + |Waits(v.readq, r, b)| <= |Waits(v.writeq, r, x)| + |Waits(v.readq, r, x)|
  {
    hide Refreshed, Issue, Sorted, Waits, Demand;
    SortedFirst(c, v, r);
    WrpLeast(c, v, r, v.order[r], v.wrpDraws[r]);
    RankWaits(v.writeq, r);
    var b := v.order[r][0];
    forall x ensures BankDemand(v, r, x) == |Waits(v.writeq, r, x)| + |Waits(v.readq, r, x)| {
      DemandIs(v.writeq, r, x);
      DemandIs(v.readq, r, x);
    }
    if |s.otherq| < c.otherMax {
      IssueRefreshes(c, s, r, b);
    }
  }

  lemma SortedFirst(c: Config, v: View, r: int)
    requires ConfigOk(c) && ViewOk(c, v) && 0 <= r < c.ranks
    ensures Sorted(c, v, r, v.order[r]) && |v.order[r]| == c.banks && 0 <= v.order[r][0] < c.banks
  {
  }

  lemma {:induction false} RankWaits(q: seq<Target>, r: int)
    ensures RankDemand(q, r) > 0 <==> exists i :: 0 <= i < |q| && q[i].rank == r
    decreases |q|
  {
    if |q| > 0 {
      var l := q[..|q| - 1];
      RankWaits(l, r);
      if i :| 0 <= i < |l| && l[i].rank == r {
        assert q[i].rank == r;
      }
      if i :| 0 <= i < |q| && q[i].rank == r {
        assert i < |l| ==> l[i].rank == r;
      }
    }
  }

  /** MAIN: when a rank's slot falls due, its next bank is owed one more, and is refreshed at once under the in-order
      policies, when no refresh is queued and no read waits, or when it would fall eight behind; otherwise it is
      postponed. */
  lemma SlotUsed(c: Config, s: State, v: View, r: int)
    requires Shape(c, s) && s.ok && 0 <= r < c.ranks
    ensures var t, b := InjectRank(c, s, v, r), s.next[r];
      var owed := Owe(c, s, r);
      && owed == s.(backlog := Add(s.backlog, r, b, -1), next := s.next[r := if b + 1 == c.banks then 0 else b + 1])
      && if !c.ooo || s.backlog[r][b] - 1 <= -8
            || (|v.readq| == 0 && forall i :: 0 <= i < |s.otherq| ==> !s.otherq[i].refresh)
         then Refreshed(c, owed, t, r, b) || (!t.ok && (b >= c.sas || |s.otherq| == c.otherMax))
         else t == owed
  {
    hide Refreshed, Issue;
    var b := s.next[r];
    DivModIs(c.banks, b + 1, if b + 1 == c.banks then 1 else 0, if b + 1 == c.banks then 0 else b + 1);
    var owed := Owe(c, s, r);
    if |s.otherq| < c.otherMax {
      IssueRefreshes(c, owed, r, b);
    } else {
      NoRoom(c, owed, r, b);
    }
  }

  lemma NoRoom(c: Config, s: State, r: int, b: int)
    requires Shape(c, s) && 0 <= r < c.ranks && 0 <= b < c.banks && |s.otherq| == c.otherMax
    ensures !Issue(c, s, r, b).ok
  {
  }

  /** The ranks of a tick, one after the other. */
  ghost predicate InTurn(c: Config, v: View, states: seq<State>)
    requires ViewOk(c, v)
  {
    && |states| == c.ranks + 1 && (forall i :: 0 <= i < |states| ==> Shape(c, states[i]))
    && forall i :: 0 <= i < c.ranks ==> var i1 := i + 1; states[i1] == AheadRank(c, states[i], v, i)
  }

  lemma {:induction false} RanksInTurn(c: Config, s: State, v: View, n: nat) returns (states: seq<State>)
    requires Shape(c, s) && ViewOk(c, v) && n <= c.ranks
    ensures |states| == n + 1 && states[0] == s && states[n] == AheadRanks(c, s, v, n)
    ensures forall i :: 0 <= i < |states| ==> Shape(c, states[i])
    ensures forall i :: 0 <= i < n ==> var i1 := i + 1; states[i1] == AheadRank(c, states[i], v, i)
    decreases n
  {
    hide AheadRank, ViewOk;
    if n == 0 {
      states := [s];
    } else {
      var before := RanksInTurn(c, s, v, n - 1);
      states := before + [AheadRanks(c, s, v, n)];
    }
  }

  /** MAIN: refreshes ahead of their slots are looked for by the out-of-order policies only, on every tick in read mode
      and on the tick that enters write mode, rank by rank. */
  lemma AheadInTurn(c: Config, s: State, v: View)
    requires Shape(c, s) && ViewOk(c, v)
    ensures var t := Ahead(c, s, v);
      if !c.ooo then t == s
      else if s.wasWriting && v.writeMode then t == s
      else exists states: seq<State> ::
        InTurn(c, v, states) && states[0] == s && t == states[c.ranks].(wasWriting := v.writeMode)
  {
    hide AheadRank, AheadRanks, ViewOk;
    if c.ooo && !(s.wasWriting && v.writeMode) {
      var states := RanksInTurn(c, s, v, c.ranks);
      assert InTurn(c, v, states);
    }
  }
}
