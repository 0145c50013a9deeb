/** Controller runs over the tree: every issued command has passed `check`, so every timing constraint
    separates the commands it should, however far apart in the history they are. */
module DramRuns {
  import opened Arith
  import opened DramNode
  import opened DramTree

  /** A run of a controller on one channel: each command is checked, issued, and then updates the tree. */
  ghost predicate Guarded(spec: Spec, id: int, h: seq<Issue>)
    requires SpecOk(spec)
  {
    && HistoryOk(spec, h)
    && forall j :: 0 <= j < |h| ==>
         Check(spec, Run(spec, Build(spec, 0, id), h[..j]), h[j].cmd, h[j].addr, h[j].clk)
  }

  lemma RunSnoc(spec: Spec, n: Node, h: seq<Issue>, e: Issue)
    requires SpecOk(spec) && NodeOk(spec, n) && HistoryOk(spec, h) && IssueOk(spec, e)
    ensures HistoryOk(spec, h + [e]) && Run(spec, n, h + [e]) == Update(spec, Run(spec, n, h), e)
  {
    assert (h + [e])[..|h|] == h;
  }

  /** A ready command extends a guarded run. */
  lemma GuardedSnoc(spec: Spec, id: int, h: seq<Issue>, e: Issue)
    requires SpecOk(spec) && Guarded(spec, id, h) && IssueOk(spec, e)
    requires Check(spec, Run(spec, Build(spec, 0, id), h), e.cmd, e.addr, e.clk)
    ensures Guarded(spec, id, h + [e])
  {
    hide Check, Run, Build;
    var g := h + [e];
    forall j | 0 <= j < |g|
      ensures Check(spec, Run(spec, Build(spec, 0, id), g[..j]), g[j].cmd, g[j].addr, g[j].clk)
    {
      assert g[..j] == h[..j];
    }
  }

  lemma {:induction false} ProjectConcat(id: int, path: seq<int>, a: seq<Issue>, b: seq<Issue>)
    requires forall i :: 0 <= i < |a| ==> |path| < |a[i].addr|
    requires forall i :: 0 <= i < |b| ==> |path| < |b[i].addr|
    ensures Project(id, path, a + b) == Project(id, path, a) + Project(id, path, b)
    decreases |b|
  {
    if |b| == 0 {
      assert a + b == a;
    } else {
      assert (a + b)[..|a + b| - 1] == a + b[..|b| - 1];
      ProjectConcat(id, path, a, b[..|b| - 1]);
    }
  }

  lemma ProjectOne(id: int, path: seq<int>, e: Issue)
    requires |path| < |e.addr|
    ensures Project(id, path, [e]) == Sees(0, id, path, e)
  {
    assert [e][..0] == [];
  }

  /** How often command c was issued to the node at `path`. */
  function Count(id: int, path: seq<int>, h: seq<Issue>, c: nat): nat
    requires forall i :: 0 <= i < |h| ==> |path| < |h[i].addr|
  {
    |Recent(Project(id, path, h), c)|
  }

  lemma CountConcat(id: int, path: seq<int>, a: seq<Issue>, b: seq<Issue>, c: nat)
    requires forall i :: 0 <= i < |a| ==> |path| < |a[i].addr|
    requires forall i :: 0 <= i < |b| ==> |path| < |b[i].addr|
    ensures Count(id, path, a + b, c) == Count(id, path, a, c) + Count(id, path, b, c)
  {
    ProjectConcat(id, path, a, b);
    RecentConcat(Project(id, path, a), Project(id, path, b), c);
  }

  /** Entry t, started by issue i, is in force for a command at the node m levels down its address. */
  ghost predicate InForce(spec: Spec, id: int, h: seq<Issue>, i: nat, cmd: nat, addr: seq<int>, m: nat, t: Entry)
    requires SpecOk(spec) && HistoryOk(spec, h) && i < |h| && cmd < |spec.scope| && AddrOk(spec, addr)
  {
    && m <= Reach(spec, 0, cmd, addr)
    && t in spec.tables[m][h[i].cmd] && t.cmd == cmd
    && var path := PathTo(addr, 0, m);
       && Sees(0, id, path, h[i]) == [Event(h[i].cmd, h[i].clk, !t.sibling)]
       && (t.sibling || Count(id, path, h[i..], h[i].cmd) >= t.dist)
  }

  /** At clk every constraint in force has been waited for. */
  ghost predicate Kept(spec: Spec, id: int, h: seq<Issue>, cmd: nat, addr: seq<int>, clk: int)
    requires SpecOk(spec) && HistoryOk(spec, h) && cmd < |spec.scope| && AddrOk(spec, addr)
  {
    forall i, m, t :: 0 <= i < |h| && 0 <= m && InForce(spec, id, h, i, cmd, addr, m, t) ==> clk >= h[i].clk + t.val
  }

  /** Where issue i stands in what the node saw, and what it saw from i on. */
  lemma TraceAt(id: int, path: seq<int>, h: seq<Issue>, i: nat)
    requires i < |h| && forall k :: 0 <= k < |h| ==> |path| < |h[k].addr|
    requires |Sees(0, id, path, h[i])| == 1
    ensures var trace := Project(id, path, h);
      var p := |Project(id, path, h[..i])|;
      p < |trace| && [trace[p]] == Sees(0, id, path, h[i]) && trace[p..] == Project(id, path, h[i..])
  {
    assert h == h[..i] + h[i..];
    assert h[i..] == [h[i]] + h[i + 1..];
    ProjectConcat(id, path, h[..i], h[i..]);
    ProjectConcat(id, path, [h[i]], h[i + 1..]);
    ProjectOne(id, path, h[i]);
  }

  /** Whatever the node saw is some issue. */
  lemma {:induction false} TraceFrom(id: int, path: seq<int>, h: seq<Issue>, p: nat) returns (i: nat)
    requires (forall k :: 0 <= k < |h| ==> |path| < |h[k].addr|) && p < |Project(id, path, h)|
    ensures i < |h| && p == |Project(id, path, h[..i])| && |Sees(0, id, path, h[i])| == 1
    decreases |h|
  {
    var n := |h| - 1;
    SeesOne(0, id, path, h[n]);
    if p < |Project(id, path, h[..n])| {
      i := TraceFrom(id, path, h[..n], p);
      assert h[..n][..i] == h[..i];
    } else {
      i := n;
    }
  }

  /** The constraints in force m levels down are those that the history at that node has started. */
  lemma ForceStarts(spec: Spec, id: int, h: seq<Issue>, i: nat, cmd: nat, addr: seq<int>, m: nat, t: Entry)
    requires SpecOk(spec) && HistoryOk(spec, h) && i < |h| && cmd < |spec.scope| && AddrOk(spec, addr)
    requires m <= Reach(spec, 0, cmd, addr) && |Sees(0, id, PathTo(addr, 0, m), h[i])| == 1
    ensures var path := PathTo(addr, 0, m);
      var trace, p := Project(id, path, h), |Project(id, path, h[..i])|;
      && p < |trace| && trace[p].cmd == h[i].cmd && trace[p].clk == h[i].clk
      && (InForce(spec, id, h, i, cmd, addr, m, t)
          <==> Starts(spec.tables[m], trace, p, t, cmd, h[i].clk + t.val))
  {
    hide Project, Recent, Sees, SpecOk;
    TraceAt(id, PathTo(addr, 0, m), h, i);
    SeesOne(0, id, PathTo(addr, 0, m), h[i]);
  }

  lemma ForceBounds(spec: Spec, id: int, h: seq<Issue>, cmd: nat, addr: seq<int>, m: nat, bound: int)
      returns (i: nat, t: Entry)
    requires SpecOk(spec) && HistoryOk(spec, h) && cmd < |spec.scope| && AddrOk(spec, addr)
    requires m <= Reach(spec, 0, cmd, addr) && TraceOk(spec.tables[m], Project(id, PathTo(addr, 0, m), h))
    requires Bound(spec.tables[m], Project(id, PathTo(addr, 0, m), h), cmd, bound)
    ensures i < |h| && InForce(spec, id, h, i, cmd, addr, m, t) && bound == h[i].clk + t.val
  {
    hide Project, Sees, SpecOk, InForce;
    var path := PathTo(addr, 0, m);
    var trace := Project(id, path, h);
    var p, u :| 0 <= p < |trace| && Starts(spec.tables[m], trace, p, u, cmd, bound);
    t := u;
    i := TraceFrom(id, path, h, p);
    ForceStarts(spec, id, h, i, cmd, addr, m, t);
  }

  /** MAIN: `check` admits a command exactly when no issue of the history has a constraint in force that lasts
      longer. */
  lemma ForceExact(spec: Spec, id: int, h: seq<Issue>, cmd: nat, addr: seq<int>, clk: int)
    requires SpecOk(spec) && HistoryOk(spec, h) && cmd < |spec.scope| && AddrOk(spec, addr) && clk >= 0
    ensures Check(spec, Run(spec, Build(spec, 0, id), h), cmd, addr, clk)
       <==> Kept(spec, id, h, cmd, addr, clk)
  {
    hide Project, Recent, Starts, Sees, Check, Run, Build, SpecOk, Bound;
    CheckExact(spec, id, h, cmd, addr, clk);
    if Kept(spec, id, h, cmd, addr, clk) {
      hide InForce;
      forall m: nat | m <= Reach(spec, 0, cmd, addr) ensures AllowedAt(spec, id, h, cmd, addr, clk, m) {
        ReachPath(spec, 0, cmd, addr, m);
        ProjectOk(spec, id, PathTo(addr, 0, m), h);
        forall bound | Bound(spec.tables[m], Project(id, PathTo(addr, 0, m), h), cmd, bound) ensures bound <= clk {
          var i, t := ForceBounds(spec, id, h, cmd, addr, m, bound);
        }
      }
    }
    if AllAllowed(spec, id, h, cmd, addr, clk) {
      forall i, m, t | 0 <= i < |h| && 0 <= m && InForce(spec, id, h, i, cmd, addr, m, t)
        ensures clk >= h[i].clk + t.val
      {
        assert AllowedAt(spec, id, h, cmd, addr, clk, m);
        ForceStarts(spec, id, h, i, cmd, addr, m, t);
        var path := PathTo(addr, 0, m);
        StartedBound(spec.tables[m], Project(id, path, h), |Project(id, path, h[..i])|, t, cmd);
      }
    }
  }

  lemma StartedBound(table: Table, trace: seq<Event>, p: nat, t: Entry, c: nat)
    requires TraceOk(table, trace) && p < |trace| && Starts(table, trace, p, t, c, trace[p].clk + t.val)
    ensures Bound(table, trace, c, trace[p].clk + t.val)
  {
  }

  /** MAIN: a history is a run of the controller if and only if every command has waited for every constraint that was
      in force for it. */
  lemma GuardedIff(spec: Spec, id: int, h: seq<Issue>)
    requires SpecOk(spec) && HistoryOk(spec, h)
    ensures Guarded(spec, id, h)
       <==> forall j :: 0 <= j < |h| ==> Kept(spec, id, h[..j], h[j].cmd, h[j].addr, h[j].clk)
  {
    hide Check, Run, Build, Kept;
    forall j | 0 <= j < |h|
      ensures Check(spec, Run(spec, Build(spec, 0, id), h[..j]), h[j].cmd, h[j].addr, h[j].clk)
         <==> Kept(spec, id, h[..j], h[j].cmd, h[j].addr, h[j].clk)
    {
      ForceExact(spec, id, h[..j], h[j].cmd, h[j].addr, h[j].clk);
    }
  }

  /** MAIN: in a guarded run every constraint in force keeps its two commands at least `val` cycles apart. */
  lemma ConstraintKept(spec: Spec, id: int, h: seq<Issue>, i: nat, j: nat, m: nat, t: Entry)
    requires SpecOk(spec) && Guarded(spec, id, h) && i < j < |h|
    requires InForce(spec, id, h[..j], i, h[j].cmd, h[j].addr, m, t)
    ensures h[j].clk >= h[i].clk + t.val
  {
    hide InForce, Check, Run, Build, SpecOk;
    GuardedIff(spec, id, h);
    assert Kept(spec, id, h[..j], h[j].cmd, h[j].addr, h[j].clk);
  }

  /** An issue to the node itself, at the end of the path its address takes. */
  lemma {:induction false} SeesTarget(level: nat, id: int, m: nat, e: Issue)
    requires level + m < |e.addr| && e.addr[level] == id
    ensures Sees(level, id, PathTo(e.addr, level, m), e) == [Event(e.cmd, e.clk, true)]
    decreases m
  {
    if m > 0 {
      assert PathTo(e.addr, level, m)[1..] == PathTo(e.addr, level + 1, m - 1);
      SeesTarget(level + 1, e.addr[level + 1], m - 1, e);
    }
  }

  /** An issue to the node is one of those since then. */
  lemma CountSelf(id: int, path: seq<int>, h: seq<Issue>, i: nat)
    requires i < |h| && forall k :: 0 <= k < |h| ==> |path| < |h[k].addr|
    requires Sees(0, id, path, h[i]) == [Event(h[i].cmd, h[i].clk, true)]
    ensures Count(id, path, h[i..], h[i].cmd) >= 1
  {
    assert h[i..] == [h[i]] + h[i + 1..];
    CountConcat(id, path, [h[i]], h[i + 1..], h[i].cmd);
    ProjectOne(id, path, h[i]);
    RecentOne(Event(h[i].cmd, h[i].clk, true), h[i].cmd);
  }

  lemma {:induction false} ReachesDown(spec: Spec, level: nat, cmd: nat, addr: seq<int>, m: nat)
    requires SpecOk(spec) && cmd < |spec.scope| && AddrOk(spec, addr) && level + m < |spec.tables|
    requires m > 0 ==> level + m <= spec.scope[cmd]
    requires forall k :: level < k <= level + m ==> addr[k] >= 0
    ensures Reach(spec, level, cmd, addr) >= m
    decreases m
  {
    if m > 0 {
      ReachesDown(spec, level + 1, cmd, addr, m - 1);
    }
  }

  /** MAIN: a constraint between commands to one node, from the latest issue, keeps the two commands apart. */
  lemma TargetsApart(spec: Spec, id: int, h: seq<Issue>, i: nat, j: nat, m: nat, t: Entry)
    requires SpecOk(spec) && Guarded(spec, id, h) && i < j < |h| && m < |spec.tables| && h[i].addr[0] == id
    requires forall k :: 1 <= k <= m ==> h[i].addr[k] == h[j].addr[k] >= 0
    requires m > 0 ==> m <= spec.scope[h[j].cmd]
    requires t in spec.tables[m][h[i].cmd] && t.cmd == h[j].cmd && !t.sibling && t.dist <= 1
    ensures h[j].clk >= h[i].clk + t.val
  {
    hide Check, Run, Build, SpecOk, Recent, Project, Sees;
    var path := PathTo(h[j].addr, 0, m);
    assert path == PathTo(h[i].addr, 0, m);
    SeesTarget(0, id, m, h[i]);
    ReachesDown(spec, 0, h[j].cmd, h[j].addr, m);
    CountSelf(id, path, h[..j], i);
    assert InForce(spec, id, h[..j], i, h[j].cmd, h[j].addr, m, t);
    ConstraintKept(spec, id, h, i, j, m, t);
  }

  /** MAIN: so does a constraint between a command to one rank and a command to another. */
  lemma SiblingsApart(spec: Spec, id: int, h: seq<Issue>, i: nat, j: nat, t: Entry)
    requires SpecOk(spec) && Guarded(spec, id, h) && i < j < |h| && |spec.tables| > 1 && h[i].addr[0] == id
    requires h[i].addr[1] != h[j].addr[1] && h[j].addr[1] >= 0 && spec.scope[h[j].cmd] >= 1
    requires t in spec.tables[1][h[i].cmd] && t.cmd == h[j].cmd && t.sibling
    ensures h[j].clk >= h[i].clk + t.val
  {
    hide Check, Run, Build, Recent, Project;
    ReachesDown(spec, 0, h[j].cmd, h[j].addr, 1);
    var rank := h[j].addr[1];
    assert PathTo(h[j].addr, 0, 1) == [rank] && [rank][1..] == [];
    assert Sees(1, rank, [rank][1..], h[i]) == [Event(h[i].cmd, h[i].clk, false)];
    assert InForce(spec, id, h[..j], i, h[j].cmd, h[j].addr, 1, t);
    ConstraintKept(spec, id, h, i, j, 1, t);
  }

  /** Issue e of command c goes to the rank that command j addresses. */
  ghost predicate SameRank(id: int, rank: int, c: nat, e: Issue)
    requires |e.addr| > 1
  {
    e.cmd == c && e.addr[0] == id && e.addr[1] == rank
  }

  lemma RankCount(spec: Spec, id: int, rank: int, c: nat, h: seq<Issue>, i: nat, k: nat, last: nat)
    requires SpecOk(spec) && HistoryOk(spec, h) && |spec.tables| > 1
    requires i < k <= last <= |h| && SameRank(id, rank, c, h[i])
    ensures Count(id, [rank], h[i..last], c) >= Count(id, [rank], h[k..last], c) + 1
  {
    var rest := h[i + 1..k] + h[k..last];
    assert h[i..last] == [h[i]] + rest;
    CountConcat(id, [rank], [h[i]], rest, c);
    CountConcat(id, [rank], h[i + 1..k], h[k..last], c);
    ProjectOne(id, [rank], h[i]);
    RecentOne(Event(c, h[i].clk, true), c);
  }

  /** MAIN: with an n-th-previous constraint at rank level (four-activate window: n = 4), any n+1 such commands
      to one rank span at least its value: no window of that many cycles holds more than n of them. */
  lemma WindowKept(spec: Spec, id: int, h: seq<Issue>, ks: seq<nat>, c: nat, t: Entry)
    requires SpecOk(spec) && |spec.tables| > 1 && Guarded(spec, id, h)
    requires c < |spec.scope| && t in spec.tables[1][c] && t.cmd == c && !t.sibling
    requires spec.scope[c] > 0 && spec.count[1] > 0
    requires |ks| == t.dist + 1 && ks[t.dist] < |h|
    requires forall a, b :: 0 <= a < b < |ks| ==> ks[a] < ks[b]
    requires h[ks[t.dist]].addr[1] >= 0
    requires forall a :: 0 <= a < |ks| ==> ks[a] < |h| && SameRank(id, h[ks[t.dist]].addr[1], c, h[ks[a]])
    ensures h[ks[t.dist]].clk >= h[ks[0]].clk + t.val
  {
    var i, j := ks[0], ks[t.dist];
    var rank := h[j].addr[1];
    WindowCount(spec, id, h, ks, c, rank, 0);
    assert PathTo(h[j].addr, 0, 1) == [rank];
    assert Reach(spec, 0, c, h[j].addr) >= 1;
    assert h[..j][i..] == h[i..j];
    assert InForce(spec, id, h[..j], i, c, h[j].addr, 1, t);
    ConstraintKept(spec, id, h, i, j, 1, t);
  }

  lemma {:induction false} WindowCount(spec: Spec, id: int, h: seq<Issue>, ks: seq<nat>, c: nat, rank: int, a: nat)
    requires SpecOk(spec) && |spec.tables| > 1 && HistoryOk(spec, h)
    requires a < |ks| && ks[|ks| - 1] < |h|
    requires forall x, y :: 0 <= x < y < |ks| ==> ks[x] < ks[y]
    requires forall x :: 0 <= x < |ks| ==> ks[x] < |h| && SameRank(id, rank, c, h[ks[x]])
    ensures ks[a] <= ks[|ks| - 1] && Count(id, [rank], h[ks[a]..ks[|ks| - 1]], c) >= |ks| - 1 - a
    decreases |ks| - a
  {
    if a + 1 < |ks| {
      WindowCount(spec, id, h, ks, c, rank, a + 1);
      RankCount(spec, id, rank, c, h, ks[a], ks[a + 1], ks[|ks| - 1]);
    }
  }

  /** The walk of `get_next`: the largest `next` on the addressed path down to the command's scope. */
  function NextDown(spec: Spec, n: Node, cmd: nat, addr: seq<int>): int
    requires SpecOk(spec) && NodeOk(spec, n) && cmd < |spec.scope| && AddrOk(spec, addr)
    decreases n
  {
    var child := addr[n.level + 1];
    var here := n.times.next[cmd];
    if n.level < spec.scope[cmd] && |n.children| > 0 && child >= 0
    then Max(here, NextDown(spec, n.children[child], cmd, addr))
    else here
  }

  function GetNext(spec: Spec, n: Node, cmd: nat, addr: seq<int>, now: int): int
    requires SpecOk(spec) && NodeOk(spec, n) && cmd < |spec.scope| && AddrOk(spec, addr)
  {
    Max(now, NextDown(spec, n, cmd, addr))
  }

  /** MAIN: `get_next` is the earliest admissible time: from the last issue on, `check` holds exactly from it on. */
  lemma {:induction false} CheckIffNext(spec: Spec, n: Node, cmd: nat, addr: seq<int>, now: int, clk: int)
    requires SpecOk(spec) && NodeOk(spec, n) && cmd < |spec.scope| && AddrOk(spec, addr)
    requires n.level <= spec.scope[cmd] && clk >= now && clk >= 0
    ensures Check(spec, n, cmd, addr, clk) <==> GetNext(spec, n, cmd, addr, now) <= clk
    ensures GetNext(spec, n, cmd, addr, now) >= now
    decreases n
  {
    var child := addr[n.level + 1];
    if n.level < spec.scope[cmd] && |n.children| > 0 && child >= 0 {
      CheckIffNext(spec, n.children[child], cmd, addr, now, clk);
    }
  }
}
