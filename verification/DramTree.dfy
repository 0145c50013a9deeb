/** The channel/rank/bank tree of src/DRAM.h: one update walks it, one check walks the addressed path.
    Levels are numbered from the channel; only levels above the row have nodes. */
module DramTree {
  import opened DramNode

  /** tables[l] is the timing table of level l, count[l] the number of children a node of level l-1 has,
      scope[c] the level a command addresses. */
  datatype Spec = Spec(tables: seq<Table>, count: seq<nat>, scope: seq<nat>)

  datatype Node = Node(level: nat, id: int, times: Times, children: seq<Node>)

  datatype Issue = Issue(cmd: nat, addr: seq<int>, clk: int)

  ghost predicate SpecOk(spec: Spec) {
    && |spec.tables| > 0 && |spec.count| >= |spec.tables|
    && forall l :: 0 <= l < |spec.tables| ==> TableOk(spec.tables[l]) && |spec.tables[l]| == |spec.scope|
  }

  function Width(spec: Spec, level: nat): nat
    requires |spec.count| >= |spec.tables|
  {
    if level + 1 < |spec.tables| then spec.count[level + 1] else 0
  }

  ghost predicate NodeOk(spec: Spec, n: Node)
    requires SpecOk(spec)
    decreases n
  {
    && n.level < |spec.tables| && TimesOk(spec.tables[n.level], n.times)
    && |n.children| == Width(spec, n.level)
    && forall i :: 0 <= i < |n.children| ==>
         NodeOk(spec, n.children[i]) && n.children[i].level == n.level + 1 && n.children[i].id == i
  }

  /** An address vector: one component per level, each negative (unspecified) or within its level. */
  ghost predicate AddrOk(spec: Spec, addr: seq<int>)
    requires SpecOk(spec)
  {
    |addr| > |spec.tables| && forall l :: 0 < l < |spec.tables| ==> addr[l] < spec.count[l]
  }

  ghost predicate IssueOk(spec: Spec, e: Issue)
    requires SpecOk(spec)
  {
    e.cmd < |spec.scope| && AddrOk(spec, e.addr) && e.clk >= 0
  }

  function Build(spec: Spec, level: nat, id: int): (n: Node)
    requires SpecOk(spec) && level < |spec.tables|
    ensures NodeOk(spec, n) && n.level == level && n.id == id
    decreases |spec.tables| - level
  {
    FreshExact(spec.tables[level]);
    Node(level, id, Fresh(spec.tables[level]),
         seq(Width(spec, level), i requires 0 <= i < Width(spec, level) => Build(spec, level + 1, i)))
  }

  /** `update_timing`: siblings stop the walk, targets pass it to all their children. */
  function Update(spec: Spec, n: Node, e: Issue): (r: Node)
    requires SpecOk(spec) && NodeOk(spec, n) && IssueOk(spec, e)
    ensures NodeOk(spec, r) && r.level == n.level && r.id == n.id
    decreases n
  {
    var target := n.id == e.addr[n.level];
    var times := Apply(spec.tables[n.level], n.times, Event(e.cmd, e.clk, target));
    if !target then n.(times := times)
    else n.(times := times,
            children := seq(|n.children|, i requires 0 <= i < |n.children| => Update(spec, n.children[i], e)))
  }

  /** `check`: the command must be ready at every node from here down the addressed path to its scope. */
  predicate Check(spec: Spec, n: Node, cmd: nat, addr: seq<int>, clk: int)
    requires SpecOk(spec) && NodeOk(spec, n) && cmd < |spec.scope| && AddrOk(spec, addr)
    decreases n
  {
    && Ready(n.times, cmd, clk)
    && var child := addr[n.level + 1];
       child < 0 || n.level == spec.scope[cmd] || |n.children| == 0 || Check(spec, n.children[child], cmd, addr, clk)
  }

  /** How many steps down the walk of `check` takes from a level. */
  function Reach(spec: Spec, level: nat, cmd: nat, addr: seq<int>): (m: nat)
    requires SpecOk(spec) && cmd < |spec.scope| && AddrOk(spec, addr) && level < |spec.tables|
    ensures level + m < |spec.tables|
    decreases |spec.tables| - level
  {
    if addr[level + 1] < 0 || level == spec.scope[cmd] || Width(spec, level) == 0 then 0
    else 1 + Reach(spec, level + 1, cmd, addr)
  }

  ghost predicate PathOk(spec: Spec, level: nat, path: seq<int>)
    requires SpecOk(spec)
  {
    level + |path| < |spec.tables| && forall j :: 0 <= j < |path| ==> 0 <= path[j] < spec.count[level + 1 + j]
  }

  function At(spec: Spec, n: Node, path: seq<int>): (r: Node)
    requires SpecOk(spec) && NodeOk(spec, n) && PathOk(spec, n.level, path)
    ensures NodeOk(spec, r) && r.level == n.level + |path|
    decreases |path|
  {
    if |path| == 0 then n
    else
      assert forall j :: 0 <= j < |path| - 1 ==> path[1..][j] == path[j + 1];
      At(spec, n.children[path[0]], path[1..])
  }

  /** The path an address takes from a level. */
  function PathTo(addr: seq<int>, level: nat, m: nat): (path: seq<int>)
    requires level + m < |addr|
    ensures |path| == m && forall j :: 0 <= j < m ==> path[j] == addr[level + 1 + j]
  {
    addr[level + 1..level + 1 + m]
  }

  lemma {:induction false} ReachPath(spec: Spec, level: nat, cmd: nat, addr: seq<int>, m: nat)
    requires SpecOk(spec) && cmd < |spec.scope| && AddrOk(spec, addr) && level < |spec.tables|
    requires m <= Reach(spec, level, cmd, addr)
    ensures PathOk(spec, level, PathTo(addr, level, m))
    decreases |spec.tables| - level
  {
    if m > 0 {
      ReachPath(spec, level + 1, cmd, addr, m - 1);
      var path, rest := PathTo(addr, level, m), PathTo(addr, level + 1, m - 1);
      forall j | 0 <= j < m ensures 0 <= path[j] < spec.count[level + 1 + j] {
        if j > 0 {
          assert path[j] == rest[j - 1];
        }
      }
    }
  }

  /** The node m steps down the addressed path admits the command. */
  ghost predicate ReadyAt(spec: Spec, n: Node, cmd: nat, addr: seq<int>, clk: int, m: nat)
    requires SpecOk(spec) && NodeOk(spec, n) && cmd < |spec.scope| && AddrOk(spec, addr)
  {
    && n.level + m < |spec.tables| && PathOk(spec, n.level, PathTo(addr, n.level, m))
    && Ready(At(spec, n, PathTo(addr, n.level, m)).times, cmd, clk)
  }

  /** `check` visits exactly the nodes at distance 0..Reach on the addressed path. */
  lemma {:induction false} CheckPath(spec: Spec, n: Node, cmd: nat, addr: seq<int>, clk: int)
    requires SpecOk(spec) && NodeOk(spec, n) && cmd < |spec.scope| && AddrOk(spec, addr)
    ensures Check(spec, n, cmd, addr, clk) <==>
      forall m :: 0 <= m <= Reach(spec, n.level, cmd, addr) ==> ReadyAt(spec, n, cmd, addr, clk, m)
    decreases n
  {
    var reach := Reach(spec, n.level, cmd, addr);
    assert PathTo(addr, n.level, 0) == [];
    assert ReadyAt(spec, n, cmd, addr, clk, 0) <==> Ready(n.times, cmd, clk);
    if reach > 0 {
      var child := n.children[addr[n.level + 1]];
      CheckPath(spec, child, cmd, addr, clk);
      forall m: nat | 1 <= m <= reach
        ensures ReadyAt(spec, n, cmd, addr, clk, m) <==> ReadyAt(spec, child, cmd, addr, clk, m - 1)
      {
        ReachPath(spec, n.level, cmd, addr, m);
        ReachPath(spec, n.level + 1, cmd, addr, m - 1);
        assert PathTo(addr, n.level, m)[1..] == PathTo(addr, n.level + 1, m - 1);
      }
      if Check(spec, n, cmd, addr, clk) {
        forall m: nat | m <= reach ensures ReadyAt(spec, n, cmd, addr, clk, m) {
          if m > 0 {
            assert ReadyAt(spec, child, cmd, addr, clk, m - 1);
          }
        }
      } else if ReadyAt(spec, n, cmd, addr, clk, 0) {
        var m: nat :| m <= reach - 1 && !ReadyAt(spec, child, cmd, addr, clk, m);
        assert ReadyAt(spec, n, cmd, addr, clk, m + 1) <==> ReadyAt(spec, child, cmd, addr, clk, m);
      }
    }
  }

  /** How the node at `path` (from a node of the given level and id) sees an issue: as its target,
      as a sibling, or not at all. */
  function Sees(level: nat, id: int, path: seq<int>, e: Issue): seq<Event>
    requires level + |path| < |e.addr|
    decreases |path|
  {
    if |path| == 0 then [Event(e.cmd, e.clk, id == e.addr[level])]
    else if id != e.addr[level] then []
    else Sees(level + 1, path[0], path[1..], e)
  }

  lemma {:induction false} UpdateAt(spec: Spec, n: Node, path: seq<int>, e: Issue)
    requires SpecOk(spec) && NodeOk(spec, n) && PathOk(spec, n.level, path) && IssueOk(spec, e)
    ensures var seen := Sees(n.level, n.id, path, e);
      var was := At(spec, n, path).times;
      && |seen| <= 1 && (|seen| == 1 ==> seen[0].cmd == e.cmd && seen[0].clk == e.clk)
      && At(spec, Update(spec, n, e), path).times
         == if |seen| == 1 then Apply(spec.tables[n.level + |path|], was, seen[0]) else was
    decreases |path|
  {
    if |path| > 0 && n.id == e.addr[n.level] {
      assert forall j :: 0 <= j < |path| - 1 ==> path[1..][j] == path[j + 1];
      UpdateAt(spec, n.children[path[0]], path[1..], e);
    }
  }

  ghost predicate HistoryOk(spec: Spec, h: seq<Issue>)
    requires SpecOk(spec)
  {
    forall i :: 0 <= i < |h| ==> IssueOk(spec, h[i])
  }

  function Run(spec: Spec, n: Node, h: seq<Issue>): (r: Node)
    requires SpecOk(spec) && NodeOk(spec, n) && HistoryOk(spec, h)
    ensures NodeOk(spec, r) && r.level == n.level && r.id == n.id
    decreases |h|
  {
    if |h| == 0 then n else Update(spec, Run(spec, n, h[..|h| - 1]), h[|h| - 1])
  }

  /** The events of a history that the node at `path` below the channel sees. */
  function Project(id: int, path: seq<int>, h: seq<Issue>): seq<Event>
    requires forall i :: 0 <= i < |h| ==> |path| < |h[i].addr|
    decreases |h|
  {
    if |h| == 0 then [] else Project(id, path, h[..|h| - 1]) + Sees(0, id, path, h[|h| - 1])
  }

  lemma {:induction false} ProjectOk(spec: Spec, id: int, path: seq<int>, h: seq<Issue>)
    requires SpecOk(spec) && HistoryOk(spec, h) && PathOk(spec, 0, path)
    ensures TraceOk(spec.tables[|path|], Project(id, path, h))
    decreases |h|
  {
    if |h| > 0 {
      ProjectOk(spec, id, path, h[..|h| - 1]);
      SeesOne(0, id, path, h[|h| - 1]);
    }
  }

  lemma {:induction false} SeesOne(level: nat, id: int, path: seq<int>, e: Issue)
    requires level + |path| < |e.addr|
    ensures var seen := Sees(level, id, path, e);
      |seen| <= 1 && (|seen| == 1 ==> seen[0].cmd == e.cmd && seen[0].clk == e.clk)
    decreases |path|
  {
    if |path| > 0 {
      SeesOne(level + 1, path[0], path[1..], e);
    }
  }

  lemma BuildAt(spec: Spec, level: nat, id: int, path: seq<int>)
    requires SpecOk(spec) && level < |spec.tables| && PathOk(spec, level, path)
    ensures At(spec, Build(spec, level, id), path).times == Fresh(spec.tables[level + |path|])
    decreases |path|
  {
    if |path| > 0 {
      assert forall j :: 0 <= j < |path| - 1 ==> path[1..][j] == path[j + 1];
      BuildAt(spec, level + 1, path[0], path[1..]);
    }
  }

  /** Every node's timing state is the summary of exactly the events it saw. */
  lemma {:induction false} RunAt(spec: Spec, id: int, path: seq<int>, h: seq<Issue>)
    requires SpecOk(spec) && HistoryOk(spec, h) && PathOk(spec, 0, path)
    ensures TraceOk(spec.tables[|path|], Project(id, path, h))
    ensures At(spec, Run(spec, Build(spec, 0, id), h), path).times
         == After(spec.tables[|path|], Project(id, path, h))
    decreases |h|
  {
    hide Update, Sees, Apply, Build;
    ProjectOk(spec, id, path, h);
    if |h| == 0 {
      BuildAt(spec, 0, id, path);
    } else {
      var g, e := h[..|h| - 1], h[|h| - 1];
      RunAt(spec, id, path, g);
      UpdateAt(spec, Run(spec, Build(spec, 0, id), g), path, e);
      var p, seen := Project(id, path, g), Sees(0, id, path, e);
      if |seen| == 1 {
        assert (p + seen)[..|p + seen| - 1] == p;
      } else {
        assert p + seen == p;
      }
    }
  }

  /** All constraints of the full history on the addressed path, down to the command's scope, hold at clk. */
  ghost predicate AllAllowed(spec: Spec, id: int, h: seq<Issue>, cmd: nat, addr: seq<int>, clk: int)
    requires SpecOk(spec) && HistoryOk(spec, h) && cmd < |spec.scope| && AddrOk(spec, addr)
  {
    forall m: nat :: m <= Reach(spec, 0, cmd, addr) ==> AllowedAt(spec, id, h, cmd, addr, clk, m)
  }

  ghost predicate AllowedAt(spec: Spec, id: int, h: seq<Issue>, cmd: nat, addr: seq<int>, clk: int, m: nat)
    requires SpecOk(spec) && HistoryOk(spec, h) && AddrOk(spec, addr) && m < |spec.tables|
  {
    var path := PathTo(addr, 0, m);
    TraceOk(spec.tables[m], Project(id, path, h)) && Allowed(spec.tables[m], Project(id, path, h), cmd, clk)
  }

  /** MAIN: after any history of issued commands, `check` accepts a command at clk exactly when every timing
      constraint, over that whole history and at every node from the channel down to its scope, holds. */
  lemma CheckExact(spec: Spec, id: int, h: seq<Issue>, cmd: nat, addr: seq<int>, clk: int)
    requires SpecOk(spec) && HistoryOk(spec, h) && cmd < |spec.scope| && AddrOk(spec, addr) && clk >= 0
    ensures Check(spec, Run(spec, Build(spec, 0, id), h), cmd, addr, clk)
       <==> AllAllowed(spec, id, h, cmd, addr, clk)
  {
    var n := Run(spec, Build(spec, 0, id), h);
    CheckPath(spec, n, cmd, addr, clk);
    forall m: nat | m <= Reach(spec, 0, cmd, addr)
      ensures ReadyAt(spec, n, cmd, addr, clk, m) <==> AllowedAt(spec, id, h, cmd, addr, clk, m)
    {
      ReachPath(spec, 0, cmd, addr, m);
      var path := PathTo(addr, 0, m);
      RunAt(spec, id, path, h);
      ReadyIffAllowed(spec.tables[m], Project(id, path, h), cmd, clk);
    }
  }
}
