/** The graph reader and the compressed-sparse-row builder of bfs/graph.cpp. */
module Csr {

  /** A row of the input; columns after the second, if any, only count towards the number of vertices. */
  datatype Edge = Edge(src: int, dst: int, rest: seq<int>)

  function Columns(e: Edge): seq<int> {
    [e.src, e.dst] + e.rest
  }

  /** m is the largest index on any row. */
  ghost predicate Largest(edges: seq<Edge>, m: int) {
    && (forall i, j :: 0 <= i < |edges| && 0 <= j < |Columns(edges[i])| ==> Columns(edges[i])[j] <= m)
    && exists i, j :: 0 <= i < |edges| && 0 <= j < |Columns(edges[i])| && Columns(edges[i])[j] == m
  }

  /** How often x occurs in s. */
  function Mult(s: seq<int>, x: int): nat {
    if |s| == 0 then 0 else (if s[|s| - 1] == x then 1 else 0) + Mult(s[..|s| - 1], x)
  }

  lemma {:induction false} MultIn(s: seq<int>, x: int)
    ensures Mult(s, x) > 0 <==> x in s
    decreases |s|
  {
    if |s| > 0 {
      assert s == s[..|s| - 1] + [s[|s| - 1]];
      MultIn(s[..|s| - 1], x);
    }
  }

  lemma MultSnoc(s: seq<int>, y: int, x: int)
    ensures Mult(s + [y], x) == Mult(s, x) + if y == x then 1 else 0
  {
    assert (s + [y])[..|s|] == s;
  }

  /** How many of the input rows give an edge u -> v; an undirected row counts in both directions, a loop once. */
  function EdgeCount(edges: seq<Edge>, undirected: bool, u: int, v: int): nat {
    if |edges| == 0 then 0
    else
      var e := edges[|edges| - 1];
      EdgeCount(edges[..|edges| - 1], undirected, u, v)
      + (if e.src == u && e.dst == v then 1 else 0)
      + (if undirected && e.src != e.dst && e.src == v && e.dst == u then 1 else 0)
  }

  lemma EdgeCountSnoc(edges: seq<Edge>, k: nat, undirected: bool, u: int, v: int)
    requires k < |edges|
    ensures EdgeCount(edges[..k + 1], undirected, u, v) == EdgeCount(edges[..k], undirected, u, v)
      + (if edges[k].src == u && edges[k].dst == v then 1 else 0)
      + (if undirected && edges[k].src != edges[k].dst && edges[k].src == v && edges[k].dst == u then 1 else 0)
  {
    assert edges[..k + 1][..k] == edges[..k];
  }

  lemma {:induction false} UndirectedSymmetric(edges: seq<Edge>, u: int, v: int)
    ensures EdgeCount(edges, true, u, v) == EdgeCount(edges, true, v, u)
    decreases |edges|
  {
    if |edges| > 0 {
      UndirectedSymmetric(edges[..|edges| - 1], u, v);
    }
  }

  ghost predicate ListsOk(lists: seq<seq<int>>) {
    forall v, j :: 0 <= v < |lists| && 0 <= j < |lists[v]| ==> 0 <= lists[v][j] < |lists|
  }

  /** Both families record the edge u -> v as often as the first k rows give it. */
  ghost predicate CountAt(edges: seq<Edge>, k: nat, undirected: bool, outs: seq<seq<int>>, ins: seq<seq<int>>,
                          u: int, v: int)
    requires k <= |edges| && |outs| == |ins| && 0 <= u < |outs| && 0 <= v < |outs|
  {
    && Mult(outs[u], v) == EdgeCount(edges[..k], undirected, u, v)
    && Mult(ins[v], u) == EdgeCount(edges[..k], undirected, u, v)
  }

  ghost predicate Counts(edges: seq<Edge>, k: nat, undirected: bool, outs: seq<seq<int>>, ins: seq<seq<int>>)
    requires k <= |edges| && |outs| == |ins|
  {
    forall u, v :: 0 <= u < |outs| && 0 <= v < |outs| ==> CountAt(edges, k, undirected, outs, ins, u, v)
  }

  /** A vertex's neighbours in the order of the rows that name them: outgoing, the right ends of the rows it begins, or
      incoming, the left ends of those it ends; an undirected row counts both ways. */
  function Neighbours(edges: seq<Edge>, undirected: bool, u: int, outgoing: bool): seq<int> {
    if |edges| == 0 then []
    else
      var e := edges[|edges| - 1];
      Neighbours(edges[..|edges| - 1], undirected, u, outgoing)
      + (if (if outgoing then e.src else e.dst) == u then [if outgoing then e.dst else e.src]
         else if undirected && (if outgoing then e.dst else e.src) == u then [if outgoing then e.src else e.dst]
         else [])
  }

  ghost predicate InOrder(edges: seq<Edge>, k: nat, undirected: bool, outs: seq<seq<int>>, ins: seq<seq<int>>)
    requires k <= |edges| && |outs| == |ins|
  {
    && (forall u :: 0 <= u < |outs| ==> outs[u] == Neighbours(edges[..k], undirected, u, true))
    && forall u :: 0 <= u < |ins| ==> ins[u] == Neighbours(edges[..k], undirected, u, false)
  }

  lemma RowInOrder(edges: seq<Edge>, k: nat, undirected: bool, outs: seq<seq<int>>, ins: seq<seq<int>>,
                   outs': seq<seq<int>>, ins': seq<seq<int>>)
    requires k < |edges| && |outs| == |ins| && InOrder(edges, k, undirected, outs, ins)
    requires 0 <= edges[k].src < |outs| && 0 <= edges[k].dst < |outs|
    requires var s, d := edges[k].src, edges[k].dst;
      var one, two := outs[s := outs[s] + [d]], ins[d := ins[d] + [s]];
      if undirected && s != d then outs' == one[d := one[d] + [s]] && ins' == two[s := two[s] + [d]]
      else outs' == one && ins' == two
    ensures InOrder(edges, k + 1, undirected, outs', ins')
  {
    assert edges[..k + 1][..k] == edges[..k];
    forall u | 0 <= u < |outs|
      ensures outs'[u] == Neighbours(edges[..k + 1], undirected, u, true)
      ensures ins'[u] == Neighbours(edges[..k + 1], undirected, u, false)
    {
      assert outs[u] + [] == outs[u] && ins[u] + [] == ins[u];
    }
  }

  class Graph {
    var vertexNum: nat
    var outVid: seq<seq<int>>
    var inVid: seq<seq<int>>

    /** `getMaxIdx`: the largest index on any row. */
    static method MaxIdx(edges: seq<Edge>) returns (m: int)
      requires |edges| > 0
      ensures Largest(edges, m)
    {
      hide Columns;
      m := edges[0].src;
      ghost var p, q := 0, 0;
      assert Columns(edges[0])[0] == m by { FirstColumns(edges[0]); }
      for i := 0 to |edges|
        invariant 0 <= p < |edges| && 0 <= q < |Columns(edges[p])| && Columns(edges[p])[q] == m
        invariant forall k, j :: 0 <= k < i && 0 <= j < |Columns(edges[k])| ==> Columns(edges[k])[j] <= m
      {
        var row := Columns(edges[i]);
        for l := 0 to |row|
          invariant 0 <= p < |edges| && 0 <= q < |Columns(edges[p])| && Columns(edges[p])[q] == m
          invariant forall k, j :: 0 <= k < i && 0 <= j < |Columns(edges[k])| ==> Columns(edges[k])[j] <= m
          invariant forall j :: 0 <= j < l ==> row[j] <= m
        {
          if m <= row[l] {
            m, p, q := row[l], i, l;
          }
        }
      }
    }

    static lemma FirstColumns(e: Edge)
      ensures |Columns(e)| >= 2 && Columns(e)[0] == e.src && Columns(e)[1] == e.dst
    {
    }

    static function Append(lists: seq<seq<int>>, v: int, x: int): (r: seq<seq<int>>)
      requires 0 <= v < |lists|
      ensures |r| == |lists|
    {
      lists[v := lists[v] + [x]]
    }

    static lemma AppendMult(lists: seq<seq<int>>, v: int, x: int, u: int, y: int)
      requires 0 <= v < |lists| && 0 <= u < |lists|
      ensures Mult(Append(lists, v, x)[u], y) == Mult(lists[u], y) + if u == v && y == x then 1 else 0
    {
      MultSnoc(lists[v], x, y);
    }

    /** The adjacency lists record every row, in the order of the rows, each edge u -> v as often outgoing at u as
        incoming at v; for an undirected input both directions are recorded and the two list families are identical. */
    constructor (edges: seq<Edge>, undirected: bool)
      requires |edges| > 0 && forall i :: 0 <= i < |edges| ==> edges[i].src >= 0 && edges[i].dst >= 0
      ensures |outVid| == |inVid| == vertexNum > 0 && Largest(edges, vertexNum - 1)
      ensures forall i :: 0 <= i < |edges| ==> edges[i].src < vertexNum && edges[i].dst < vertexNum
      ensures ListsOk(outVid) && ListsOk(inVid)
      ensures Counts(edges, |edges|, undirected, outVid, inVid) && InOrder(edges, |edges|, undirected, outVid, inVid)
      ensures undirected ==> outVid == inVid
    {
      var m := MaxIdx(edges);
      forall i | 0 <= i < |edges| ensures 0 <= edges[i].src <= m && 0 <= edges[i].dst <= m {
        FirstColumns(edges[i]);
      }
      var n: nat := m + 1;
      var outs, ins := seq(n, _ => []), seq(n, _ => []);
      for k := 0 to |edges|
        invariant |outs| == |ins| == n && ListsOk(outs) && ListsOk(ins)
        invariant Counts(edges, k, undirected, outs, ins) && InOrder(edges, k, undirected, outs, ins)
        invariant undirected ==> outs == ins
      {
        outs, ins := Row(edges, k, undirected, outs, ins);
      }
      vertexNum, outVid, inVid := n, outs, ins;
    }

    /** One row of the input. */
    static method Row(edges: seq<Edge>, k: nat, undirected: bool, outs: seq<seq<int>>, ins: seq<seq<int>>)
      returns (outs': seq<seq<int>>, ins': seq<seq<int>>)
      requires k < |edges| && |outs| == |ins| && ListsOk(outs) && ListsOk(ins)
      requires 0 <= edges[k].src < |outs| && 0 <= edges[k].dst < |outs|
      requires Counts(edges, k, undirected, outs, ins) && InOrder(edges, k, undirected, outs, ins)
      requires undirected ==> outs == ins
      ensures |outs'| == |ins'| == |outs| && ListsOk(outs') && ListsOk(ins')
      ensures Counts(edges, k + 1, undirected, outs', ins') && InOrder(edges, k + 1, undirected, outs', ins')
      ensures undirected ==> outs' == ins'
    {
      hide InOrder;
      var s, d := edges[k].src, edges[k].dst;
      outs' := Append(outs, s, d);
      ins' := Append(ins, d, s);
      ghost var outs1, ins1 := outs', ins';
      if undirected && s != d {
        outs' := Append(outs', d, s);
        ins' := Append(ins', s, d);
      }
      RowInOrder(edges, k, undirected, outs, ins, outs', ins');
      var k1 := k + 1;
      forall u, v | 0 <= u < |outs| && 0 <= v < |outs|
        ensures CountAt(edges, k1, undirected, outs', ins', u, v)
      {
        assert CountAt(edges, k, undirected, outs, ins, u, v);
        EdgeCountSnoc(edges, k, undirected, u, v);
        AppendMult(outs, s, d, u, v);
        AppendMult(ins, d, s, v, u);
        AppendMult(outs1, d, s, u, v);
        AppendMult(ins1, s, d, v, u);
      }
    }
  }

  /** Row pointers and column indices, once by outgoing and once by incoming edges. */
  datatype Csr = Csr(n: nat, rpao: seq<int>, ciao: seq<int>, rpai: seq<int>, ciai: seq<int>)

  ghost predicate RowsOk(n: nat, rp: seq<int>, ci: seq<int>) {
    && |rp| == n + 1 && rp[0] == 0 && rp[n] == |ci|
    && (forall v :: 0 <= v < n ==> RowOk(rp, ci, v))
    && forall k :: 0 <= k < |ci| ==> 0 <= ci[k] < n
  }

  ghost predicate RowOk(rp: seq<int>, ci: seq<int>, v: int)
    requires 0 <= v < |rp| - 1
  {
    0 <= rp[v] <= rp[v + 1] <= |ci|
  }

  ghost predicate ShapeOk(g: Csr) {
    RowsOk(g.n, g.rpao, g.ciao) && RowsOk(g.n, g.rpai, g.ciai)
  }

  function Out(g: Csr, v: int): (s: seq<int>)
    requires ShapeOk(g) && 0 <= v < g.n
    ensures |s| == g.rpao[v + 1] - g.rpao[v]
    ensures forall j :: 0 <= j < |s| ==> 0 <= s[j] < g.n
  {
    assert RowOk(g.rpao, g.ciao, v);
    g.ciao[g.rpao[v]..g.rpao[v + 1]]
  }

  function In(g: Csr, v: int): (s: seq<int>)
    requires ShapeOk(g) && 0 <= v < g.n
    ensures |s| == g.rpai[v + 1] - g.rpai[v]
    ensures forall j :: 0 <= j < |s| ==> 0 <= s[j] < g.n
  {
    assert RowOk(g.rpai, g.ciai, v);
    g.ciai[g.rpai[v]..g.rpai[v + 1]]
  }

  /** The incoming lists are the multiset transpose of the outgoing ones. */
  ghost predicate Transposed(g: Csr)
    requires ShapeOk(g)
  {
    forall u, v :: 0 <= u < g.n && 0 <= v < g.n ==> Mult(Out(g, u), v) == Mult(In(g, v), u)
  }

  ghost predicate Valid(g: Csr) {
    ShapeOk(g) && Transposed(g)
  }

  /** Row pointers rp and columns ci hold exactly the first k lists. */
  ghost predicate Packs(lists: seq<seq<int>>, k: nat, rp: seq<int>, ci: seq<int>)
    requires k <= |lists|
  {
    && |rp| == |lists| + 1 && rp[0] == 0 && rp[k] == |ci|
    && (forall i, j :: 0 <= i <= j <= |lists| ==> rp[i] <= rp[j])
    && (forall v :: 0 <= v < |lists| ==> rp[v + 1] == rp[v] + |lists[v]|)
    && (forall v :: 0 <= v < k ==> ci[rp[v]..rp[v + 1]] == lists[v])
  }

  method PackRows(lists: seq<seq<int>>) returns (rp: seq<int>)
    ensures |rp| == |lists| + 1 && rp[0] == 0
    ensures forall v :: 0 <= v < |lists| ==> rp[v + 1] == rp[v] + |lists[v]|
    ensures forall i, j :: 0 <= i <= j <= |lists| ==> rp[i] <= rp[j]
  {
    rp := seq(|lists| + 1, _ => 0);
    for i := 0 to |lists|
      invariant |rp| == |lists| + 1 && rp[0] == 0
      invariant forall v :: 0 <= v < i ==> rp[v + 1] == rp[v] + |lists[v]|
      invariant forall a, b :: 0 <= a <= b <= i ==> rp[a] <= rp[b]
    {
      rp := rp[i + 1 := rp[i] + |lists[i]|];
    }
  }

  method PackColumns(lists: seq<seq<int>>, rp: seq<int>) returns (ci: seq<int>)
    requires |rp| == |lists| + 1 && rp[0] == 0 && ListsOk(lists)
    requires forall v :: 0 <= v < |lists| ==> rp[v + 1] == rp[v] + |lists[v]|
    requires forall i, j :: 0 <= i <= j <= |lists| ==> rp[i] <= rp[j]
    ensures Packs(lists, |lists|, rp, ci)
    ensures forall k :: 0 <= k < |ci| ==> 0 <= ci[k] < |lists|
  {
    ci := [];
    for i := 0 to |lists|
      invariant Packs(lists, i, rp, ci)
      invariant forall k :: 0 <= k < |ci| ==> 0 <= ci[k] < |lists|
    {
      ghost var was := ci;
      for j := 0 to |lists[i]|
        invariant ci == was + lists[i][..j]
        invariant forall k :: 0 <= k < |ci| ==> 0 <= ci[k] < |lists|
      {
        ci := ci + [lists[i][j]];
      }
      assert ci == was + lists[i];
      forall v | 0 <= v < i + 1 ensures ci[rp[v]..rp[v + 1]] == lists[v] {
        if v < i {
          assert ci[rp[v]..rp[v + 1]] == was[rp[v]..rp[v + 1]];
        }
      }
    }
  }

  /** `CSR::CSR`: the slices of the arrays are exactly the adjacency lists. */
  method BuildCsr(outVid: seq<seq<int>>, inVid: seq<seq<int>>) returns (g: Csr)
    requires |outVid| == |inVid| && ListsOk(outVid) && ListsOk(inVid)
    ensures ShapeOk(g) && g.n == |outVid|
    ensures forall v :: 0 <= v < g.n ==> Out(g, v) == outVid[v] && In(g, v) == inVid[v]
  {
    var rpao := PackRows(outVid);
    var rpai := PackRows(inVid);
    var ciao := PackColumns(outVid, rpao);
    var ciai := PackColumns(inVid, rpai);
    g := Csr(|outVid|, rpao, ciao, rpai, ciai);
  }

  /** From input rows to a CSR graph: every edge with its multiplicity, in the order of the rows, and the transpose
      property. */
  method Load(edges: seq<Edge>, undirected: bool) returns (g: Csr)
    requires |edges| > 0 && forall i :: 0 <= i < |edges| ==> edges[i].src >= 0 && edges[i].dst >= 0
    ensures Valid(g) && g.n > 0 && Largest(edges, g.n - 1)
    ensures forall i :: 0 <= i < |edges| ==> edges[i].src < g.n && edges[i].dst < g.n
    ensures forall u, v :: 0 <= u < g.n && 0 <= v < g.n ==> Mult(Out(g, u), v) == EdgeCount(edges, undirected, u, v)
    ensures forall u :: 0 <= u < g.n ==>
      Out(g, u) == Neighbours(edges, undirected, u, true) && In(g, u) == Neighbours(edges, undirected, u, false)
    ensures undirected ==> Undirected(g)
  {
    var graph := new Graph(edges, undirected);
    g := BuildCsr(graph.outVid, graph.inVid);
    assert edges[..|edges|] == edges;
    forall u, v | 0 <= u < g.n && 0 <= v < g.n
      ensures Mult(Out(g, u), v) == EdgeCount(edges, undirected, u, v)
      ensures Mult(In(g, v), u) == EdgeCount(edges, undirected, u, v)
    {
      assert CountAt(edges, |edges|, undirected, graph.outVid, graph.inVid, u, v);
    }
  }

  /** What an undirected input gives: each vertex's outgoing list is its incoming list. */
  ghost predicate Undirected(g: Csr)
    requires ShapeOk(g)
  {
    forall v :: 0 <= v < g.n ==> Out(g, v) == In(g, v)
  }
}
