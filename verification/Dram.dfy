/** The DRAM node objects: fixed `next` and `prev` arrays updated in place, and child objects. Every method
    computes the corresponding function of DramTree on the tree the objects stand for. */
module Dram {
  import opened Arith
  import opened DramNode
  import T = DramTree
  import R = DramRuns

  class Dram {
    const spec: T.Spec
    const level: nat
    const id: int
    const next: array<int>
    const prev: array<seq<int>>
    const children: seq<Dram>
    ghost const Repr: set<object>

    /** The objects below this node are its own, each child's apart from the others'. */
    ghost predicate Valid()
      reads this, Repr
      decreases |spec.tables| - level
    {
      && T.SpecOk(spec) && level < |spec.tables|
      && this in Repr && next in Repr && prev in Repr
      && next.Length == |spec.scope| && prev.Length == |spec.scope|
      && TimesOk(spec.tables[level], Times(next[..], prev[..]))
      && |children| == T.Width(spec, level)
      && (forall i :: 0 <= i < |children| ==> ChildOk(i))
      && (forall i, j :: 0 <= i < j < |children| ==> children[i].Repr !! children[j].Repr)
    }

    ghost predicate ChildOk(i: nat)
      requires i < |children| && level < |spec.tables|
      reads this, Repr
      decreases |spec.tables| - level, 0
    {
      var c := children[i];
      && c in Repr && c.Repr <= Repr && this !in c.Repr && next !in c.Repr && prev !in c.Repr
      && c.spec == spec && c.level == level + 1 && c.level < |spec.tables| && c.id == i
      && c.Valid()
    }

    /** The tree of values this object stands for. */
    ghost function Tree(): (n: T.Node)
      requires Valid()
      reads this, Repr
      ensures T.NodeOk(spec, n) && n.level == level && n.id == id && |n.children| == |children|
      decreases |spec.tables| - level
    {
      T.Node(level, id, Times(next[..], prev[..]), Subtrees())
    }

    ghost function Subtrees(): (r: seq<T.Node>)
      requires Valid()
      reads this, Repr
      ensures |r| == |children|
      ensures forall i :: 0 <= i < |children| ==> ChildOk(i) && r[i] == children[i].Tree()
      ensures forall i :: 0 <= i < |children| ==>
        T.NodeOk(spec, r[i]) && r[i].level == level + 1 && r[i].id == i
      decreases |spec.tables| - level, 0
    {
      seq(|children|, i requires 0 <= i < |children| && ChildOk(i) reads this, Repr => children[i].Tree())
    }

    /** The loop over `timing[cmd]` at this node. */
    method Raise(entries: seq<Entry>, sibling: bool, clk: int, hist: seq<int>)
      requires EntriesOk(entries, next.Length, hist)
      modifies next
      ensures next[..] == DramNode.Raise(old(next[..]), entries, sibling, clk, hist)
    {
      for i := 0 to |entries|
        invariant EntriesOk(entries[i..], next.Length, hist)
        invariant DramNode.Raise(old(next[..]), entries, sibling, clk, hist)
               == DramNode.Raise(next[..], entries[i..], sibling, clk, hist)
      {
        var t := entries[i];
        ghost var was := next[..];
        assert entries[i..][0] == t && entries[i..][1..] == entries[i + 1..];
        if t.sibling == sibling {
          var past := Since(t, clk, hist);
          if sibling || past >= 0 {
            next[t.cmd] := Max(next[t.cmd], past + t.val);
            assert next[..] == was[t.cmd := Max(was[t.cmd], past + t.val)];
          }
        }
      }
    }

    /** `update_timing` at this node alone. */
    method UpdateHere(cmd: nat, target: bool, clk: int)
      requires T.SpecOk(spec) && level < |spec.tables| && cmd < |spec.scope|
      requires next.Length == |spec.scope| && prev.Length == |spec.scope|
      requires TimesOk(spec.tables[level], Times(next[..], prev[..]))
      modifies next, prev
      ensures Times(next[..], prev[..])
           == Apply(spec.tables[level], old(Times(next[..], prev[..])), Event(cmd, clk, target))
    {
      var entries := spec.tables[level][cmd];
      if target {
        if |prev[cmd]| > 0 {
          prev[cmd] := [clk] + prev[cmd][..|prev[cmd]| - 1];
        }
        assert prev[..] == old(prev[..])[cmd := Push(old(prev[cmd]), clk)];
        Raise(entries, false, clk, prev[cmd]);
      } else {
        Raise(entries, true, clk, prev[cmd]);
      }
    }

    method Update(e: T.Issue)
      requires Valid() && T.IssueOk(spec, e)
      modifies Repr
      ensures Valid()
      ensures Tree() == T.Update(spec, old(Tree()), e)
      decreases |spec.tables| - level
    {
      ghost var was := Tree();
      var target := id == e.addr[level];
      UpdateHere(e.cmd, target, e.clk);
      ghost var times := Times(next[..], prev[..]);
      forall i | 0 <= i < |children| ensures ChildOk(i) && children[i].Tree() == was.children[i] {
        assert old(ChildOk(i));
      }
      assert Subtrees() == was.children;
      if target {
        for i := 0 to |children|
          invariant Valid() && Times(next[..], prev[..]) == times
          invariant forall j :: 0 <= j < i ==> Subtrees()[j] == T.Update(spec, was.children[j], e)
          invariant forall j :: i <= j < |children| ==> Subtrees()[j] == was.children[j]
        {
          UpdateChild(i, e);
        }
      }
    }

    /** Updating one child leaves this node and the other children alone. */
    method UpdateChild(i: nat, e: T.Issue)
      requires Valid() && T.IssueOk(spec, e) && i < |children|
      modifies children[i].Repr
      ensures Valid()
      ensures next[..] == old(next[..]) && prev[..] == old(prev[..])
      ensures Subtrees() == old(Subtrees())[i := T.Update(spec, old(Subtrees())[i], e)]
      decreases |spec.tables| - level, 0
    {
      assert ChildOk(i);
      children[i].Update(e);
      forall j | 0 <= j < |children|
        ensures old(ChildOk(j)) && ChildOk(j) && (j != i ==> children[j].Tree() == old(children[j].Tree()))
      {
        assert old(ChildOk(j));
        if j != i {
          var c := children[j];
          assert old(c.Valid()) && c in c.Repr;
          assert c.Repr !! children[i].Repr;
          assert unchanged(c) && forall o :: o in c.Repr ==> unchanged(o);
          assert c.Tree() == old(c.Tree());
        }
      }
    }

    method Check(cmd: nat, addr: seq<int>, clk: int) returns (r: bool)
      requires Valid() && cmd < |spec.scope| && T.AddrOk(spec, addr)
      ensures r == T.Check(spec, Tree(), cmd, addr, clk)
      decreases |spec.tables| - level
    {
      if next[cmd] != -1 && clk < next[cmd] {
        return false;
      }
      var child := addr[level + 1];
      if child < 0 || level == spec.scope[cmd] || |children| == 0 {
        return true;
      }
      assert ChildOk(child);
      r := children[child].Check(cmd, addr, clk);
    }

    /** Where the walk of `get_next` goes on. */
    predicate Below(cmd: nat, addr: seq<int>)
      requires cmd < |spec.scope| && level + 1 < |addr|
    {
      level < spec.scope[cmd] && |children| > 0 && addr[level + 1] >= 0
    }

    lemma NextHere(cmd: nat, addr: seq<int>)
      requires Valid() && cmd < |spec.scope| && T.AddrOk(spec, addr)
      ensures Below(cmd, addr) ==> ChildOk(addr[level + 1])
      ensures R.NextDown(spec, Tree(), cmd, addr)
           == if Below(cmd, addr) then Max(next[cmd], R.NextDown(spec, children[addr[level + 1]].Tree(), cmd, addr))
              else next[cmd]
    {
      hide T.SpecOk, TimesOk;
      if Below(cmd, addr) {
        assert ChildOk(addr[level + 1]);
        assert Subtrees()[addr[level + 1]] == children[addr[level + 1]].Tree();
      }
    }

    /** `get_next`: the loop down the addressed path. */
    method GetNext(cmd: nat, addr: seq<int>, now: int) returns (r: int)
      requires Valid() && cmd < |spec.scope| && T.AddrOk(spec, addr)
      ensures r == R.GetNext(spec, Tree(), cmd, addr, now)
    {
      hide R.NextDown, Dram.Tree, T.SpecOk, T.NodeOk;
      r := Max(now, next[cmd]);
      var node: Dram := this;
      node.NextHere(cmd, addr);
      while node.Below(cmd, addr)
        invariant node.spec == spec && node.level < |spec.tables| && node.Valid()
        invariant Max(now, R.NextDown(spec, Tree(), cmd, addr))
               == Max(r, R.NextDown(spec, node.Tree(), cmd, addr))
        invariant r >= node.next[cmd]
        decreases |spec.tables| - node.level
      {
        node.NextHere(cmd, addr);
        node := node.children[addr[node.level + 1]];
        r := Max(r, node.next[cmd]);
        node.NextHere(cmd, addr);
      }
      node.NextHere(cmd, addr);
    }

    /** The recursive construction of the children. */
    static method BuildChildren(spec: T.Spec, level: nat) returns (kids: seq<Dram>, ghost repr: set<object>)
      requires T.SpecOk(spec) && level < |spec.tables|
      ensures fresh(repr) && KidsOk(spec, level, kids, repr) && |kids| == T.Width(spec, level)
      decreases |spec.tables| - level, 0
    {
      hide Dram.Valid, T.Build, KidOk;
      kids, repr := [], {};
      for i := 0 to T.Width(spec, level)
        invariant |kids| == i && fresh(repr) && KidsOk(spec, level, kids, repr)
      {
        ghost var was, before := kids, repr;
        SpecNext(spec, level);
        var kid := new Dram(spec, level + 1, i);
        NewKid(spec, level, kid, i, repr);
        kids, repr := kids + [kid], repr + kid.Repr;
        forall j | 0 <= j < i ensures KidOk(spec, level, kids[j], j, repr) {
          assert KidOk(spec, level, was[j], j, before);
          KidGrows(spec, level, was[j], j, before, repr);
        }
      }
    }

    constructor (spec: T.Spec, level: nat, id: int)
      requires T.SpecOk(spec) && level < |spec.tables|
      ensures Valid() && fresh(Repr)
      ensures this.spec == spec && this.level == level && this.id == id
      ensures Tree() == T.Build(spec, level, id)
      decreases |spec.tables| - level, 1
    {
      var n := |spec.scope|;
      var nx := new int[n](_ => -1);
      var pv := new seq<int>[n](c requires 0 <= c < n => seq(Depth(spec.tables[level][c]), _ => -1));
      var kids, repr := BuildChildren(spec, level);
      this.spec, this.level, this.id := spec, level, id;
      next, prev, children := nx, pv, kids;
      Repr := {this, nx, pv} + repr;
      new;
      assert Times(next[..], prev[..]) == Fresh(spec.tables[level]);
      FreshExact(spec.tables[level]);
      Assembled(repr);
    }

    /** Kids that stand apart make a valid node. */
    lemma Assembled(repr: set<object>)
      requires T.SpecOk(spec) && level < |spec.tables| && KidsOk(spec, level, children, repr)
      requires next.Length == |spec.scope| && prev.Length == |spec.scope| && |children| == T.Width(spec, level)
      requires TimesOk(spec.tables[level], Times(next[..], prev[..]))
      requires Times(next[..], prev[..]) == Fresh(spec.tables[level])
      requires Repr == {this, next, prev} + repr && this !in repr && next !in repr && prev !in repr
      ensures Valid() && Tree() == T.Build(spec, level, id)
    {
      hide T.SpecOk, TimesOk;
      forall i | 0 <= i < |children| ensures ChildOk(i) {
        assert KidOk(spec, level, children[i], i, repr);
      }
      forall i | 0 <= i < |children| ensures children[i].Tree() == T.Build(spec, level + 1, i) {
        assert KidOk(spec, level, children[i], i, repr);
      }
      assert Subtrees() == T.Build(spec, level, id).children;
    }
  }

  lemma SpecNext(spec: T.Spec, level: nat)
    requires T.SpecOk(spec) && T.Width(spec, level) > 0
    ensures level + 1 < |spec.tables|
  {
  }

  lemma NewKid(spec: T.Spec, level: nat, kid: Dram, i: nat, repr: set<object>)
    requires T.SpecOk(spec) && level + 1 < |spec.tables|
    requires kid.spec == spec && kid.level == level + 1 && kid.id == i && kid.Valid()
    requires kid.Tree() == T.Build(spec, level + 1, i)
    ensures KidOk(spec, level, kid, i, repr + kid.Repr)
  {
  }

  lemma KidGrows(spec: T.Spec, level: nat, kid: Dram, i: nat, before: set<object>, after: set<object>)
    requires T.SpecOk(spec) && level < |spec.tables| && KidOk(spec, level, kid, i, before) && before <= after
    ensures KidOk(spec, level, kid, i, after)
  {
  }

  ghost predicate KidsOk(spec: T.Spec, level: nat, kids: seq<Dram>, repr: set<object>)
    requires T.SpecOk(spec) && level < |spec.tables|
    reads kids, set i, o | 0 <= i < |kids| && o in kids[i].Repr :: o
  {
    && (forall i :: 0 <= i < |kids| ==> KidOk(spec, level, kids[i], i, repr))
    && forall i, j :: 0 <= i < j < |kids| ==> kids[i].Repr !! kids[j].Repr
  }

  ghost predicate KidOk(spec: T.Spec, level: nat, kid: Dram, i: nat, repr: set<object>)
    requires T.SpecOk(spec) && level < |spec.tables|
    reads kid, kid.Repr
  {
    && kid.Repr <= repr && kid in kid.Repr && kid.spec == spec && kid.level == level + 1 < |spec.tables| && kid.id == i
    && kid.Valid() && kid.Tree() == T.Build(spec, level + 1, i)
  }

  /** One channel with its clock: commands are issued only when ready, and the clock never runs backwards. */
  class Channel {
    const root: Dram
    var clk: int
    var curClk: int
    ghost var history: seq<T.Issue>

    ghost predicate Valid()
      reads this, root, root.Repr
    {
      && root.Valid() && this !in root.Repr && root.level == 0
      && R.Guarded(root.spec, root.id, history)
      && root.Tree() == T.Run(root.spec, T.Build(root.spec, 0, root.id), history)
      && 0 <= curClk <= clk
    }

    constructor (spec: T.Spec, id: int)
      requires T.SpecOk(spec)
      ensures Valid() && root.spec == spec && root.id == id && clk == 0 && history == [] && fresh(root.Repr)
    {
      root := new Dram(spec, 0, id);
      clk, curClk, history := 0, 0, [];
    }

    method Tick()
      requires Valid()
      modifies this`clk
      ensures Valid() && clk == old(clk) + 1
    {
      clk := clk + 1;
    }

    /** Whether a command may issue now: exactly when no constraint over the whole history forbids it. */
    method IsReady(cmd: nat, addr: seq<int>) returns (r: bool)
      requires Valid() && cmd < |root.spec.scope| && T.AddrOk(root.spec, addr)
      ensures r <==> T.AllAllowed(root.spec, root.id, history, cmd, addr, clk)
    {
      T.CheckExact(root.spec, root.id, history, cmd, addr, clk);
      r := root.Check(cmd, addr, clk);
    }

    /** The earliest time, from the last issue on, at which no constraint forbids the command. */
    method EarliestIssue(cmd: nat, addr: seq<int>) returns (r: int)
      requires Valid() && cmd < |root.spec.scope| && T.AddrOk(root.spec, addr)
      ensures r >= curClk
      ensures forall t :: t >= curClk ==> (T.AllAllowed(root.spec, root.id, history, cmd, addr, t) <==> r <= t)
    {
      r := root.GetNext(cmd, addr, curClk);
      forall t | t >= curClk ensures T.AllAllowed(root.spec, root.id, history, cmd, addr, t) <==> r <= t {
        T.CheckExact(root.spec, root.id, history, cmd, addr, t);
        R.CheckIffNext(root.spec, root.Tree(), cmd, addr, curClk, t);
      }
    }

    /** `issue_cmd`: asserts readiness, then updates the tree. */
    method IssueCmd(cmd: nat, addr: seq<int>)
      requires Valid() && cmd < |root.spec.scope| && T.AddrOk(root.spec, addr)
      requires T.AllAllowed(root.spec, root.id, history, cmd, addr, clk)
      modifies this, root.Repr
      ensures Valid() && clk == old(clk)
      ensures history == old(history) + [T.Issue(cmd, addr, clk)]
    {
      hide T.Check, T.Update, T.Build, T.Run;
      T.CheckExact(root.spec, root.id, history, cmd, addr, clk);
      var e := T.Issue(cmd, addr, clk);
      R.GuardedSnoc(root.spec, root.id, history, e);
      R.RunSnoc(root.spec, T.Build(root.spec, 0, root.id), history, e);
      curClk := clk;
      history := history + [e];
      root.Update(e);
    }
  }
}
