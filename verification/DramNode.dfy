/** The timing state of one DRAM node (src/DRAM.h): `next[cmd]`, the earliest time each command may issue, and
    `prev[cmd]`, a short record of recent issues. This module proves that the pair is an exact summary of the
    whole command history seen by the node. */
module DramNode {
  import opened Arith

  /** One timing constraint: a command must wait `val` after the dist-th most recent issue of another. */
  datatype Entry = Entry(cmd: nat, dist: nat, val: int, sibling: bool)

  /** A command as one node sees it: issued to the node itself, or to one of its siblings. */
  datatype Event = Event(cmd: nat, clk: int, target: bool)

  datatype Times = Times(next: seq<int>, prev: seq<seq<int>>)

  /** The constraints that one level's commands start, indexed by the issued command. */
  type Table = seq<seq<Entry>>

  ghost predicate TableOk(table: Table) {
    forall c, i :: 0 <= c < |table| && 0 <= i < |table[c]| ==>
      && table[c][i].cmd < |table| && table[c][i].dist >= 1
      && (table[c][i].sibling ==> table[c][i].dist == 1)
  }

  /** The history length kept for a command: the longest distance any of its constraints looks back. */
  function Depth(entries: seq<Entry>): (d: nat)
    ensures forall i :: 0 <= i < |entries| ==> entries[i].dist <= d
  {
    if |entries| == 0 then 0
    else if Depth(entries[1..]) < entries[0].dist then entries[0].dist else Depth(entries[1..])
  }

  function Fresh(table: Table): Times {
    Times(seq(|table|, _ => -1), seq(|table|, c requires 0 <= c < |table| => seq(Depth(table[c]), _ => -1)))
  }

  ghost predicate TimesOk(table: Table, t: Times) {
    && |t.next| == |table| && |t.prev| == |table|
    && forall c :: 0 <= c < |table| ==> |t.prev[c]| == Depth(table[c])
  }

  /** The time a constraint counts from, for an event whose command has the issue record `hist`. */
  function Since(t: Entry, clk: int, hist: seq<int>): int
    requires t.sibling || 1 <= t.dist <= |hist|
  {
    if t.sibling then clk else hist[t.dist - 1]
  }

  ghost predicate HistOk(entries: seq<Entry>, hist: seq<int>) {
    forall i :: 0 <= i < |entries| ==> entries[i].sibling || 1 <= entries[i].dist <= |hist|
  }

  ghost predicate EntriesOk(entries: seq<Entry>, n: nat, hist: seq<int>) {
    HistOk(entries, hist) && forall i :: 0 <= i < |entries| ==> entries[i].cmd < n
  }

  /** The loop over `timing[cmd]`: raise `next` for the entries that apply. */
  function Raise(next: seq<int>, entries: seq<Entry>, sibling: bool, clk: int, hist: seq<int>): (r: seq<int>)
    requires EntriesOk(entries, |next|, hist)
    ensures |r| == |next|
    decreases |entries|
  {
    if |entries| == 0 then next
    else
      var t := entries[0];
      var bumped :=
        if t.sibling != sibling || (!sibling && Since(t, clk, hist) < 0) then next
        else next[t.cmd := Max(next[t.cmd], Since(t, clk, hist) + t.val)];
      Raise(bumped, entries[1..], sibling, clk, hist)
  }

  function Push(hist: seq<int>, clk: int): (r: seq<int>)
    ensures |r| == |hist|
  {
    if |hist| == 0 then hist else [clk] + hist[..|hist| - 1]
  }

  /** `update_timing` at one node. */
  function Apply(table: Table, t: Times, e: Event): (r: Times)
    requires TableOk(table) && TimesOk(table, t) && e.cmd < |table|
    ensures TimesOk(table, r)
  {
    if e.target then
      var hist := Push(t.prev[e.cmd], e.clk);
      Times(Raise(t.next, table[e.cmd], false, e.clk, hist), t.prev[e.cmd := hist])
    else
      Times(Raise(t.next, table[e.cmd], true, e.clk, t.prev[e.cmd]), t.prev)
  }

  ghost predicate TraceOk(table: Table, h: seq<Event>) {
    forall i :: 0 <= i < |h| ==> h[i].cmd < |table| && h[i].clk >= 0
  }

  function After(table: Table, h: seq<Event>): (r: Times)
    requires TableOk(table) && TraceOk(table, h)
    ensures TimesOk(table, r)
  {
    if |h| == 0 then Fresh(table) else Apply(table, After(table, h[..|h| - 1]), h[|h| - 1])
  }

  /** Issue times of command c to this node, most recent first. */
  function Recent(h: seq<Event>, c: nat): seq<int> {
    if |h| == 0 then []
    else
      var l := h[|h| - 1];
      (if l.target && l.cmd == c then [l.clk] else []) + Recent(h[..|h| - 1], c)
  }

  /** Entry t, started by event i of the history, constrains command c to wait until `bound`. A constraint
      between siblings starts at every issue to a sibling; one with distance d starts at an issue to the node
      as soon as it is the d-th most recent one, and then stays in force. */
  ghost predicate Starts(table: Table, h: seq<Event>, i: nat, t: Entry, c: nat, bound: int)
    requires i < |h| && h[i].cmd < |table|
  {
    && t in table[h[i].cmd] && t.cmd == c && bound == h[i].clk + t.val
    && if t.sibling then !h[i].target else h[i].target && |Recent(h[i..], h[i].cmd)| >= t.dist
  }

  ghost predicate Bound(table: Table, h: seq<Event>, c: nat, bound: int)
    requires TraceOk(table, h)
  {
    exists i, t :: 0 <= i < |h| && Starts(table, h, i, t, c, bound)
  }

  /** next[c] is -1 or the largest of all bounds the history has put on c; prev is the recent issue record. */
  ghost predicate Exact(table: Table, h: seq<Event>, t: Times)
    requires TraceOk(table, h) && TimesOk(table, t)
  {
    && (forall c, b :: 0 <= c < |table| && Bound(table, h, c, b) ==> b <= t.next[c])
    && (forall c :: 0 <= c < |table| ==> t.next[c] == -1 || (t.next[c] > -1 && Bound(table, h, c, t.next[c])))
    && forall c, d :: 0 <= c < |table| && 0 <= d < Depth(table[c]) ==>
         t.prev[c][d] == if d < |Recent(h, c)| then Recent(h, c)[d] else -1
  }

  /** An entry of the list that applies to the event and raises command c to `bound`. */
  ghost predicate Raises(entries: seq<Entry>, sibling: bool, clk: int, hist: seq<int>, c: nat, bound: int)
    requires HistOk(entries, hist)
  {
    exists i :: 0 <= i < |entries| && RaisesBy(entries[i], sibling, clk, hist, c, bound)
  }

  /** Entry t applies to the event and raises command c to `bound`. */
  ghost predicate RaisesBy(t: Entry, sibling: bool, clk: int, hist: seq<int>, c: nat, bound: int)
    requires t.sibling || 1 <= t.dist <= |hist|
  {
    && t.cmd == c && t.sibling == sibling
    && (sibling || Since(t, clk, hist) >= 0) && bound == Since(t, clk, hist) + t.val
  }

  lemma RaisesCons(entries: seq<Entry>, sibling: bool, clk: int, hist: seq<int>, c: nat, b: int)
    requires HistOk(entries, hist) && |entries| > 0
    ensures HistOk(entries[1..], hist)
    ensures Raises(entries, sibling, clk, hist, c, b) <==>
      RaisesBy(entries[0], sibling, clk, hist, c, b) || Raises(entries[1..], sibling, clk, hist, c, b)
  {
    var rest := entries[1..];
    assert forall i :: 0 <= i < |rest| ==> rest[i] == entries[i + 1];
    if Raises(entries, sibling, clk, hist, c, b) {
      var i :| 0 <= i < |entries| && RaisesBy(entries[i], sibling, clk, hist, c, b);
      if i > 0 {
        assert RaisesBy(rest[i - 1], sibling, clk, hist, c, b);
      }
    }
    if Raises(rest, sibling, clk, hist, c, b) {
      var i :| 0 <= i < |rest| && RaisesBy(rest[i], sibling, clk, hist, c, b);
      assert RaisesBy(entries[i + 1], sibling, clk, hist, c, b);
    }
  }

  /** The loop leaves the maximum of the old value and everything the entries raise it to. */
  lemma {:induction false} RaiseIsMax(next: seq<int>, entries: seq<Entry>, sibling: bool, clk: int, hist: seq<int>,
                                      c: nat)
    requires EntriesOk(entries, |next|, hist) && c < |next|
    ensures var r := Raise(next, entries, sibling, clk, hist);
      && r[c] >= next[c]
      && (forall b :: Raises(entries, sibling, clk, hist, c, b) ==> b <= r[c])
      && (r[c] == next[c] || Raises(entries, sibling, clk, hist, c, r[c]))
    decreases |entries|
  {
    if |entries| > 0 {
      var t := entries[0];
      var rest := entries[1..];
      var bumped :=
        if t.sibling != sibling || (!sibling && Since(t, clk, hist) < 0) then next
        else next[t.cmd := Max(next[t.cmd], Since(t, clk, hist) + t.val)];
      RaiseIsMax(bumped, rest, sibling, clk, hist, c);
      var r := Raise(next, entries, sibling, clk, hist);
      assert r == Raise(bumped, rest, sibling, clk, hist);
      forall b ensures Raises(entries, sibling, clk, hist, c, b) <==>
        RaisesBy(t, sibling, clk, hist, c, b) || Raises(rest, sibling, clk, hist, c, b)
      {
        RaisesCons(entries, sibling, clk, hist, c, b);
      }
    }
  }

  lemma {:induction false} RecentConcat(a: seq<Event>, b: seq<Event>, c: nat)
    ensures Recent(a + b, c) == Recent(b, c) + Recent(a, c)
    decreases |b|
  {
    if |b| == 0 {
      assert a + b == a;
    } else {
      var l := b[|b| - 1];
      assert (a + b)[..|a + b| - 1] == a + b[..|b| - 1];
      assert (a + b)[|a + b| - 1] == l;
      RecentConcat(a, b[..|b| - 1], c);
    }
  }

  lemma RecentOne(e: Event, c: nat)
    ensures Recent([e], c) == if e.target && e.cmd == c then [e.clk] else []
  {
    assert [e][..0] == [];
  }

  /** A target event that is the n-th most recent of its command stands at position n-1 of the record. */
  lemma RecentOf(h: seq<Event>, i: nat)
    requires i < |h| && h[i].target
    ensures var n := |Recent(h[i..], h[i].cmd)|;
      1 <= n <= |Recent(h, h[i].cmd)| && Recent(h, h[i].cmd)[n - 1] == h[i].clk
  {
    var c := h[i].cmd;
    assert h == h[..i] + h[i..];
    RecentConcat(h[..i], h[i..], c);
    assert h[i..] == [h[i]] + h[i + 1..];
    RecentConcat([h[i]], h[i + 1..], c);
    RecentOne(h[i], c);
  }

  /** Every position of the record is some event of the history. */
  lemma {:induction false} RecentFrom(h: seq<Event>, c: nat, d: nat) returns (i: nat)
    requires d < |Recent(h, c)|
    ensures i < |h| && h[i].target && h[i].cmd == c && |Recent(h[i..], c)| == d + 1
    ensures Recent(h, c)[d] == h[i].clk
    decreases |h|
  {
    var last := |h| - 1;
    var l := h[last];
    if l.target && l.cmd == c && d == 0 {
      i := last;
      assert h[i..] == [l];
      RecentOne(l, c);
    } else {
      var e := if l.target && l.cmd == c then d - 1 else d;
      i := RecentFrom(h[..last], c, e);
      assert h[i..] == h[..last][i..] + [l];
      RecentConcat(h[..last][i..], [l], c);
      RecentOne(l, c);
    }
  }

  lemma RecentSnoc(h: seq<Event>, e: Event, i: nat, c: nat)
    requires i <= |h|
    ensures Recent((h + [e])[i..], c) == (if e.target && e.cmd == c then [e.clk] else []) + Recent(h[i..], c)
    ensures Recent(h + [e], c) == (if e.target && e.cmd == c then [e.clk] else []) + Recent(h, c)
  {
    assert (h + [e])[i..] == h[i..] + [e];
    RecentConcat(h[i..], [e], c);
    RecentConcat(h, [e], c);
    RecentOne(e, c);
  }

  lemma StartsLift(table: Table, h: seq<Event>, e: Event, i: nat, t: Entry, c: nat, b: int)
    requires i < |h| && h[i].cmd < |table| && Starts(table, h, i, t, c, b)
    ensures Starts(table, h + [e], i, t, c, b)
  {
    RecentSnoc(h, e, i, h[i].cmd);
  }

  /** The issue record kept by `prev` after one more event. */
  lemma PrevStep(table: Table, h: seq<Event>, t: Times, e: Event)
    requires TableOk(table) && TimesOk(table, t) && TraceOk(table, h + [e]) && TraceOk(table, h) && Exact(table, h, t)
    requires e.cmd < |table|
    ensures forall c, d :: 0 <= c < |table| && 0 <= d < Depth(table[c]) ==>
      Apply(table, t, e).prev[c][d] == if d < |Recent(h + [e], c)| then Recent(h + [e], c)[d] else -1
  {
    forall c, d | 0 <= c < |table| && 0 <= d < Depth(table[c])
      ensures Apply(table, t, e).prev[c][d] == if d < |Recent(h + [e], c)| then Recent(h + [e], c)[d] else -1
    {
      RecentSnoc(h, e, 0, c);
      if e.target && e.cmd == c && d > 0 {
        assert t.prev[c][d - 1] == if d - 1 < |Recent(h, c)| then Recent(h, c)[d - 1] else -1;
      }
    }
  }

  /** The record the event's own constraints are measured against. */
  function Hist(table: Table, t: Times, e: Event): seq<int>
    requires TimesOk(table, t) && e.cmd < |table|
  {
    if e.target then Push(t.prev[e.cmd], e.clk) else t.prev[e.cmd]
  }

  /** A bound that is new after event e is one the loop raises. */
  lemma NewBound(table: Table, h: seq<Event>, t: Times, e: Event, i: nat, en: Entry, c: nat, b: int)
    requires TableOk(table) && TimesOk(table, t) && TraceOk(table, h) && TraceOk(table, h + [e]) && Exact(table, h, t)
    requires e.cmd < |table| && i <= |h| && (h + [e])[i].cmd < |table|
    requires Starts(table, h + [e], i, en, c, b) && (i < |h| ==> !Starts(table, h, i, en, c, b))
    ensures HistOk(table[e.cmd], Hist(table, t, e))
    ensures Raises(table[e.cmd], !e.target, e.clk, Hist(table, t, e), c, b)
  {
    var g := h + [e];
    var hist := Hist(table, t, e);
    PrevStep(table, h, t, e);
    RecentSnoc(h, e, i, g[i].cmd);
    if i == |h| {
      assert h[i..] == [];
      assert en in table[e.cmd];
      var j :| 0 <= j < |table[e.cmd]| && table[e.cmd][j] == en;
      assert en.dist == 1;
      assert e.target ==> hist[0] == e.clk;
      assert RaisesBy(en, !e.target, e.clk, hist, c, b);
    } else {
      assert !en.sibling;
      RecentOf(g, i);
      assert e.target && e.cmd == h[i].cmd && |Recent(g[i..], e.cmd)| == en.dist;
      assert hist == Apply(table, t, e).prev[e.cmd];
      var j :| 0 <= j < |table[e.cmd]| && table[e.cmd][j] == en;
      assert hist[en.dist - 1] == h[i].clk;
      assert TraceOk(table, h) && h[i].clk >= 0;
      assert RaisesBy(en, false, e.clk, hist, c, b);
    }
  }

  /** Whatever the loop raises is a bound of the longer history. */
  lemma RaisedBound(table: Table, h: seq<Event>, t: Times, e: Event, c: nat, b: int)
    requires TableOk(table) && TimesOk(table, t) && TraceOk(table, h) && TraceOk(table, h + [e]) && Exact(table, h, t)
    requires e.cmd < |table| && HistOk(table[e.cmd], Hist(table, t, e))
    requires Raises(table[e.cmd], !e.target, e.clk, Hist(table, t, e), c, b)
    ensures Bound(table, h + [e], c, b)
  {
    var g := h + [e];
    var entries, hist := table[e.cmd], Hist(table, t, e);
    var j :| 0 <= j < |entries| && RaisesBy(entries[j], !e.target, e.clk, hist, c, b);
    var en := entries[j];
    assert en in entries;
    if e.target {
      PrevStep(table, h, t, e);
      var d := en.dist - 1;
      assert Apply(table, t, e).prev[e.cmd][d] == if d < |Recent(g, e.cmd)| then Recent(g, e.cmd)[d] else -1;
      var i := RecentFrom(g, e.cmd, d);
      assert g[i].clk == hist[d];
      assert Starts(table, g, i, en, c, b);
    } else {
      assert g[|h|] == e;
      assert Starts(table, g, |h|, en, c, b);
    }
  }

  lemma ExactStep(table: Table, h: seq<Event>, t: Times, e: Event)
    requires TableOk(table) && TimesOk(table, t) && TraceOk(table, h) && TraceOk(table, h + [e]) && Exact(table, h, t)
    requires e.cmd < |table|
    ensures Exact(table, h + [e], Apply(table, t, e))
  {
    var g, r := h + [e], Apply(table, t, e);
    var hist := Hist(table, t, e);
    PrevStep(table, h, t, e);
    assert r.next == Raise(t.next, table[e.cmd], !e.target, e.clk, hist);
    forall c, b | 0 <= c < |table| && Bound(table, g, c, b) ensures b <= r.next[c] {
      var i, en :| 0 <= i < |g| && Starts(table, g, i, en, c, b);
      RaiseIsMax(t.next, table[e.cmd], !e.target, e.clk, hist, c);
      if i < |h| && Starts(table, h, i, en, c, b) {
        assert Bound(table, h, c, b);
      } else {
        NewBound(table, h, t, e, i, en, c, b);
      }
    }
    forall c | 0 <= c < |table| ensures r.next[c] == -1 || (r.next[c] > -1 && Bound(table, g, c, r.next[c])) {
      RaiseIsMax(t.next, table[e.cmd], !e.target, e.clk, hist, c);
      if r.next[c] == t.next[c] {
        if t.next[c] != -1 {
          var i, en :| 0 <= i < |h| && Starts(table, h, i, en, c, t.next[c]);
          StartsLift(table, h, e, i, en, c, t.next[c]);
        }
      } else {
        RaisedBound(table, h, t, e, c, r.next[c]);
      }
    }
  }

  lemma FreshExact(table: Table)
    ensures TimesOk(table, Fresh(table)) && Exact(table, [], Fresh(table))
  {
  }

  /** MAIN: after any history of commands, the node's two small tables summarise it exactly. */
  lemma {:induction false} AfterExact(table: Table, h: seq<Event>)
    requires TableOk(table) && TraceOk(table, h)
    ensures Exact(table, h, After(table, h))
    decreases |h|
  {
    if |h| == 0 {
      FreshExact(table);
    } else {
      var g, e := h[..|h| - 1], h[|h| - 1];
      AfterExact(table, g);
      assert h == g + [e];
      ExactStep(table, g, After(table, g), e);
    }
  }

  /** The admission test of `check` at one node. */
  predicate Ready(t: Times, c: nat, clk: int)
    requires c < |t.next|
  {
    t.next[c] == -1 || clk >= t.next[c]
  }

  /** Command c may issue at clk: no constraint started by the node's history asks it to wait longer. */
  ghost predicate Allowed(table: Table, h: seq<Event>, c: nat, clk: int)
    requires TraceOk(table, h)
  {
    forall b :: Bound(table, h, c, b) ==> b <= clk
  }

  /** MAIN: the one-number test accepts a command exactly when every constraint over the full history holds. */
  lemma ReadyIffAllowed(table: Table, h: seq<Event>, c: nat, clk: int)
    requires TableOk(table) && TraceOk(table, h) && c < |table| && clk >= 0
    ensures Ready(After(table, h), c, clk) <==> Allowed(table, h, c, clk)
  {
    AfterExact(table, h);
  }
}
