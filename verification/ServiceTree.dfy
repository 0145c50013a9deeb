/** The tree of DRAM nodes whose service counters a request updates along its address (src/DRAM.h). */
module ServiceTree {
  import Service

  datatype Node = Node(id: int, counters: Service.Counters, children: seq<Node>)

  /** An update of the counters along an address. */
  datatype Served = Served(vec: seq<int>, event: Service.Event)

  /** The node and its children are numbered as the constructor numbers them. */
  ghost predicate NodeOk(n: Node)
    decreases n
  {
    forall i :: 0 <= i < |n.children| ==> n.children[i].id == i && NodeOk(n.children[i])
  }

  function Failed(n: Node): Node {
    n.(counters := n.counters.(ok := false))
  }

  /** `update_serving_requests`: the node and, down to one level below the banks, the addressed child. A wrong node
      number, a missing address component or a missing child leave the counters failed. */
  function Update(n: Node, level: nat, bank: nat, u: Served): (r: Node)
    requires NodeOk(n)
    ensures r.id == n.id && |r.children| == |n.children| && NodeOk(r)
    decreases n
  {
    if level >= |u.vec| || n.id != u.vec[level] then Failed(n)
    else
      var here := n.(counters := Service.Count(n.counters, u.event));
      if level + 1 >= |u.vec| then Failed(here)
      else
        var child := u.vec[level + 1];
        if child < 0 || |n.children| == 0 || level > bank then here
        else if child >= |n.children| then Failed(here)
        else here.(children := n.children[child := Update(n.children[child], level + 1, bank, u)])
  }

  /** An address that names a node at every level it goes through. */
  ghost predicate Reaches(n: Node, level: nat, bank: nat, vec: seq<int>)
    decreases n
  {
    && level + 1 < |vec| && n.id == vec[level]
    && var child := vec[level + 1];
       child < 0 || |n.children| == 0 || level > bank
       || (child < |n.children| && Reaches(n.children[child], level + 1, bank, vec))
  }

  /** A node below another is named by a path of child numbers. */
  ghost predicate HasPath(n: Node, path: seq<int>)
    decreases |path|
  {
    |path| > 0 ==> 0 <= path[0] < |n.children| && HasPath(n.children[path[0]], path[1..])
  }

  ghost function At(n: Node, path: seq<int>): Node
    requires HasPath(n, path)
    decreases |path|
  {
    if |path| == 0 then n else At(n.children[path[0]], path[1..])
  }

  /** Two trees with the same nodes. */
  ghost predicate SameShape(n: Node, r: Node)
    decreases n
  {
    && r.id == n.id && |r.children| == |n.children|
    && forall i :: 0 <= i < |n.children| ==> SameShape(n.children[i], r.children[i])
  }

  lemma {:induction false} SelfShape(n: Node)
    ensures SameShape(n, n)
    decreases n
  {
    forall i | 0 <= i < |n.children| ensures SameShape(n.children[i], n.children[i]) {
      SelfShape(n.children[i]);
    }
  }

  lemma {:induction false} ShapeTrans(m: Node, n: Node, r: Node)
    requires SameShape(m, n) && SameShape(n, r)
    ensures SameShape(m, r)
    decreases m
  {
    forall i | 0 <= i < |m.children| ensures SameShape(m.children[i], r.children[i]) {
      ShapeTrans(m.children[i], n.children[i], r.children[i]);
    }
  }

  lemma {:induction false} UpdateShape(n: Node, level: nat, bank: nat, u: Served)
    requires NodeOk(n)
    ensures SameShape(n, Update(n, level, bank, u))
    decreases n
  {
    var r := Update(n, level, bank, u);
    forall i | 0 <= i < |n.children| ensures SameShape(n.children[i], r.children[i]) {
      SelfShape(n.children[i]);
      UpdateShape(n.children[i], level + 1, bank, u);
    }
  }

  lemma {:induction false} ReachesShape(n: Node, r: Node, level: nat, bank: nat, vec: seq<int>)
    requires SameShape(n, r) && Reaches(n, level, bank, vec)
    ensures Reaches(r, level, bank, vec)
    decreases n
  {
    var child := vec[level + 1];
    if !(child < 0 || |n.children| == 0 || level > bank) {
      ReachesShape(n.children[child], r.children[child], level + 1, bank, vec);
    }
  }

  lemma {:induction false} PathShape(n: Node, r: Node, path: seq<int>)
    requires SameShape(n, r) && HasPath(n, path)
    ensures HasPath(r, path)
    decreases |path|
  {
    if |path| > 0 {
      PathShape(n.children[path[0]], r.children[path[0]], path[1..]);
    }
  }

  /** MAIN: an update along an address of the tree counts at exactly the nodes on it, and fails nowhere by itself. */
  lemma {:induction false} UpdateAt(n: Node, level: nat, bank: nat, u: Served, path: seq<int>)
    requires NodeOk(n) && HasPath(n, path) && Reaches(n, level, bank, u.vec) && level + |path| <= bank + 1
    ensures HasPath(Update(n, level, bank, u), path)
    ensures At(Update(n, level, bank, u), path).counters
         == if [n.id] + path <= u.vec[level..] then Service.Count(At(n, path).counters, u.event)
            else At(n, path).counters
    decreases |path|
  {
    assert u.vec[level..][0] == n.id;
    if |path| > 0 {
      var child := u.vec[level + 1];
      PrefixStep(n.id, path, u.vec, level);
      if child == path[0] {
        UpdateAt(n.children[child], level + 1, bank, u, path[1..]);
        assert [n.children[child].id] + path[1..] == path;
      }
    }
  }

  lemma PrefixStep(id: int, path: seq<int>, vec: seq<int>, level: nat)
    requires level + 1 < |vec| && vec[level] == id && |path| > 0
    ensures [id] + path <= vec[level..] <==> path <= vec[level + 1..]
    ensures path <= vec[level + 1..] ==> path[0] == vec[level + 1]
  {
    var v, w := vec[level..], vec[level + 1..];
    assert v == [id] + w;
    if [id] + path <= v {
      assert path == ([id] + path)[1..] && w == v[1..];
      assert forall i :: 0 <= i < |path| ==> path[i] == ([id] + path)[i + 1];
      assert path == w[..|path|];
    }
    if path <= w {
      assert [id] + path == v[..1 + |path|];
    }
  }

  /** A node is named by the prefix of the addresses that pass through it. */
  predicate Passes(path: seq<int>, vec: seq<int>) {
    path <= vec
  }

  /** The events that reach a node. */
  function Events(served: seq<Served>, path: seq<int>): seq<Service.Event> {
    if |served| == 0 then []
    else
      var u := served[|served| - 1];
      Events(served[..|served| - 1], path) + if Passes(path, u.vec) then [u.event] else []
  }

  function Fold(n: Node, bank: nat, served: seq<Served>): (r: Node)
    requires NodeOk(n)
    ensures r.id == n.id && NodeOk(r)
    decreases |served|
  {
    if |served| == 0 then n else Update(Fold(n, bank, served[..|served| - 1]), 0, bank, served[|served| - 1])
  }

  lemma FoldSnoc(n: Node, bank: nat, served: seq<Served>, u: Served)
    requires NodeOk(n)
    ensures Fold(n, bank, served + [u]) == Update(Fold(n, bank, served), 0, bank, u)
  {
    assert (served + [u])[..|served|] == served;
  }

  lemma {:induction false} FoldShape(n: Node, bank: nat, served: seq<Served>)
    requires NodeOk(n)
    ensures SameShape(n, Fold(n, bank, served))
    decreases |served|
  {
    if |served| == 0 {
      SelfShape(n);
    } else {
      var f := Fold(n, bank, served[..|served| - 1]);
      FoldShape(n, bank, served[..|served| - 1]);
      UpdateShape(f, 0, bank, served[|served| - 1]);
      ShapeTrans(n, f, Fold(n, bank, served));
    }
  }

  /** All counters are at zero. */
  ghost predicate Fresh(n: Node)
    decreases n
  {
    n.counters == Service.ZERO && forall i :: 0 <= i < |n.children| ==> Fresh(n.children[i])
  }

  lemma {:induction false} FreshAt(n: Node, path: seq<int>)
    requires Fresh(n) && HasPath(n, path)
    ensures At(n, path).counters == Service.ZERO
    decreases |path|
  {
    if |path| > 0 {
      FreshAt(n.children[path[0]], path[1..]);
    }
  }

  /** MAIN: after any updates along addresses of the tree, every node down to one level below the banks holds the
      counters of exactly the events that pass through it. */
  lemma {:induction false} FoldAt(n: Node, bank: nat, served: seq<Served>, path: seq<int>)
    requires NodeOk(n) && Fresh(n) && HasPath(n, path) && |path| <= bank + 1
    requires forall i :: 0 <= i < |served| ==> Reaches(n, 0, bank, served[i].vec)
    ensures HasPath(Fold(n, bank, served), path)
    ensures At(Fold(n, bank, served), path).counters == Service.After(Events(served, [n.id] + path))
    decreases |served|
  {
    hide Update, Service.Count, Fresh;
    if |served| == 0 {
      FreshAt(n, path);
    } else {
      var init, u := served[..|served| - 1], served[|served| - 1];
      var f := Fold(n, bank, init);
      FoldAt(n, bank, init, path);
      FoldShape(n, bank, init);
      ReachesShape(n, f, 0, bank, u.vec);
      UpdateAt(f, 0, bank, u, path);
      assert u.vec[0..] == u.vec;
      var h, e := Events(init, [n.id] + path), u.event;
      assert (h + [e])[..|h|] == h;
      assert h + [] == h;
    }
  }

  /** The tree below one node as the constructor builds it: `counts[l]` children numbered from zero at every level l. */
  function Build(id: int, level: nat, counts: seq<nat>): Node
    decreases |counts| - level
  {
    var n := if level + 1 < |counts| then counts[level + 1] else 0;
    Node(id, Service.ZERO, seq(n, i requires 0 <= i < n && level + 1 < |counts| => Build(i, level + 1, counts)))
  }

  /** MAIN: a tree as built is numbered consistently and starts at zero, and every address within its bounds names nodes
      of it. */
  lemma {:induction false} BuildReaches(id: int, level: nat, counts: seq<nat>, bank: nat, vec: seq<int>)
    ensures NodeOk(Build(id, level, counts)) && Fresh(Build(id, level, counts))
    ensures level < |counts| < |vec| && vec[level] == id
            && (forall l :: level < l < |counts| ==> 0 <= vec[l] < counts[l])
            ==> Reaches(Build(id, level, counts), level, bank, vec)
    decreases |counts| - level
  {
    var t := Build(id, level, counts);
    forall i | 0 <= i < |t.children|
      ensures t.children[i].id == i && NodeOk(t.children[i]) && Fresh(t.children[i])
    {
      BuildReaches(i, level + 1, counts, bank, vec);
    }
    if |t.children| > 0 && level + 1 < |vec| {
      BuildReaches(vec[level + 1], level + 1, counts, bank, vec);
    }
  }
}
