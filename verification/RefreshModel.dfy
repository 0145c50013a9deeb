/** The per-bank refresh scheduler of src/Refresh.cpp as pure state transformers. `log` is the list of all refresh
    requests enqueued so far. `ok` turns false, and nothing more happens, when the assertion that enqueueing succeeded
    fires, or with `wild` when a subarray counter past the end of its vector is read. */
module RefreshModel {

  /** `ooo` holds for the two out-of-order policies, DARP and DSARP; otherwise REFPB or SARP. */
  datatype Config = Config(ooo: bool, ranks: nat, banks: nat, sas: nat, interval: int, otherMax: nat)

  datatype Target = Target(rank: int, bank: int)

  datatype Other = Other(refresh: bool, rank: int, bank: int, sa: int)

  datatype State = State(clk: int, refreshed: int, next: seq<int>, backlog: seq<seq<int>>, sa: seq<seq<int>>,
                         wasWriting: bool, otherq: seq<Other>, log: seq<Other>, ok: bool, wild: bool)

  const BACKLOG_MAX := 8
  const BACKLOG_MIN := -8
  const EARLY_PULL := -6

  /** What the rest of the controller shows the scheduler on one tick; `order` is the bank order that std::sort
      leaves for each rank, `draws` the value of rand() used for each rank. */
  datatype View = View(readq: seq<Target>, writeq: seq<Target>, writeMode: bool,
                       order: seq<seq<int>>, wrpDraws: seq<nat>, earlyDraws: seq<nat>)

  ghost predicate ConfigOk(c: Config) {
    c.banks > 0 && c.sas > 0 && c.interval > 0
  }

  /** The subarray counters of a rank are as many as it has subarrays, though they are indexed by bank. */
  ghost predicate Shape(c: Config, s: State) {
    && ConfigOk(c)
    && |s.next| == |s.backlog| == |s.sa| == c.ranks && |s.otherq| <= c.otherMax
    && (forall r :: 0 <= r < c.ranks ==> 0 <= s.next[r] < c.banks)
    && (forall r :: 0 <= r < c.ranks ==> |s.backlog[r]| == c.banks)
    && forall r :: 0 <= r < c.ranks ==> |s.sa[r]| == c.sas
  }

  function Add(m: seq<seq<int>>, r: int, b: int, d: int): (n: seq<seq<int>>)
    requires 0 <= r < |m| && 0 <= b < |m[r]|
    ensures |n| == |m| && forall i :: 0 <= i < |m| ==> |n[i]| == |m[i]|
    ensures forall i, j :: 0 <= i < |m| && 0 <= j < |m[i]| ==> n[i][j] == m[i][j] + if i == r && j == b then d else 0
  {
    m[r := m[r][b := m[r][b] + d]]
  }

  /** `refresh_target`, then one credit for the bank and on to its next subarray. */
  function Issue(c: Config, s: State, r: int, b: int): (t: State)
    requires Shape(c, s) && 0 <= r < c.ranks && 0 <= b < c.banks
    ensures Shape(c, t)
  {
    if b >= c.sas then s.(ok := false, wild := true)
    else if |s.otherq| == c.otherMax then s.(ok := false)
    else
      var request := Other(true, r, b, s.sa[r][b]);
      s.(otherq := s.otherq + [request], log := s.log + [request],
         backlog := Add(s.backlog, r, b, 1),
         sa := s.sa[r := s.sa[r][b := (s.sa[r][b] + 1) % c.sas]])
  }

  predicate AnyRefresh(otherq: seq<Other>) {
    exists i :: 0 <= i < |otherq| && otherq[i].refresh
  }

  predicate RankRefresh(otherq: seq<Other>, r: int) {
    exists i :: 0 <= i < |otherq| && otherq[i].refresh && otherq[i].rank == r
  }

  predicate BankRefresh(otherq: seq<Other>, r: int, b: int) {
    exists i :: 0 <= i < |otherq| && otherq[i].refresh && otherq[i].rank == r && otherq[i].bank == b
  }

  /** One rank of `inject_refresh`: the slot falls due, and is used now unless it may be skipped. */
  function Owe(c: Config, s: State, r: int): (t: State)
    requires Shape(c, s) && 0 <= r < c.ranks
    ensures Shape(c, t)
  {
    var b := s.next[r];
    s.(backlog := Add(s.backlog, r, b, -1), next := s.next[r := (b + 1) % c.banks])
  }

  predicate MustRefresh(c: Config, t: State, v: View, r: int, b: int)
    requires 0 <= r < |t.backlog| && 0 <= b < |t.backlog[r]|
  {
    !c.ooo || (!AnyRefresh(t.otherq) && |v.readq| == 0) || t.backlog[r][b] <= BACKLOG_MIN
  }

  function InjectRank(c: Config, s: State, v: View, r: int): (t: State)
    requires Shape(c, s) && 0 <= r < c.ranks
    ensures Shape(c, t)
  {
    var b := s.next[r];
    var t := Owe(c, s, r);
    if !s.ok then s else if MustRefresh(c, t, v, r, b) then Issue(c, t, r, b) else t
  }

  function Inject(c: Config, s: State, v: View, n: nat): (t: State)
    requires Shape(c, s) && n <= c.ranks
    ensures Shape(c, t)
  {
    if n == 0 then s else InjectRank(c, Inject(c, s, v, n - 1), v, n - 1)
  }

  /** How many queued requests address a bank. */
  function Demand(q: seq<Target>, r: int, b: int): nat {
    if |q| == 0 then 0 else Demand(q[..|q| - 1], r, b) + if q[|q| - 1] == Target(r, b) then 1 else 0
  }

  function RankDemand(q: seq<Target>, r: int): nat {
    if |q| == 0 then 0 else RankDemand(q[..|q| - 1], r) + if q[|q| - 1].rank == r then 1 else 0
  }

  function BankDemand(v: View, r: int, b: int): nat {
    Demand(v.writeq, r, b) + Demand(v.readq, r, b)
  }

  /** A bank order that sorting by demand may leave: a permutation of the banks with demands ascending. */
  ghost predicate Sorted(c: Config, v: View, r: int, order: seq<int>) {
    && |order| == c.banks
    && (forall i :: 0 <= i < |order| ==> 0 <= order[i] < c.banks)
    && (forall i, j :: 0 <= i < j < |order| ==> order[i] != order[j])
    && (forall b :: 0 <= b < c.banks ==> b in order)
    && forall i, j :: 0 <= i < j < |order| ==> BankDemand(v, r, order[i]) <= BankDemand(v, r, order[j])
  }

  ghost predicate ViewOk(c: Config, v: View) {
    && (forall i :: 0 <= i < |v.readq| ==> 0 <= v.readq[i].rank < c.ranks && 0 <= v.readq[i].bank < c.banks)
    && (forall i :: 0 <= i < |v.writeq| ==> 0 <= v.writeq[i].rank < c.ranks && 0 <= v.writeq[i].bank < c.banks)
    && |v.order| == |v.wrpDraws| == |v.earlyDraws| == c.ranks
    && forall r :: 0 <= r < c.ranks ==> Sorted(c, v, r, v.order[r])
  }

  /** First position of the order that does not hold bank 0; 0 when there is none. */
  function TopIdle(order: seq<int>, i: nat): (k: nat)
    requires i <= |order|
    ensures k == 0 || k < |order|
    decreases |order| - i
  {
    if i == |order| then 0 else if order[i] != 0 then i else TopIdle(order, i + 1)
  }

  /** The bank that write-refresh parallelisation picks. */
  function WrpBank(order: seq<int>, draw: nat): int
    requires |order| > 0
  {
    var top := TopIdle(order, 0);
    order[if top == 0 then 0 else draw % top]
  }

  /** The bank that rank r would refresh on entering write mode, were there room; c.banks for none. */
  function WrpPick(c: Config, s: State, v: View, r: int): (b: int)
    requires Shape(c, s) && ViewOk(c, v) && 0 <= r < c.ranks
    ensures 0 <= b <= c.banks
  {
    assert Sorted(c, v, r, v.order[r]);
    if RankRefresh(s.otherq, r) || RankDemand(v.writeq, r) == 0 then c.banks
    else
      var b := WrpBank(v.order[r], v.wrpDraws[r]);
      if s.backlog[r][b] < BACKLOG_MAX then b else c.banks
  }

  /** Whether a bank may be refreshed ahead of time during reads. */
  predicate Pullable(s: State, v: View, r: int, b: int)
    requires 0 <= r < |s.backlog| && 0 <= b < |s.backlog[r]|
  {
    Target(r, b) !in v.readq && !BankRefresh(s.otherq, r, b) && s.backlog[r][b] < EARLY_PULL
  }

  /** The circular search for a bank to pull in, from `start + i` on; c.banks when there is none. */
  function PullFrom(c: Config, s: State, v: View, r: int, start: nat, i: nat): (k: nat)
    requires Shape(c, s) && 0 <= r < c.ranks && i <= c.banks
    ensures i <= k <= c.banks
    ensures k < c.banks ==> Pullable(s, v, r, (start + k) % c.banks)
    decreases c.banks - i
  {
    if i == c.banks || Pullable(s, v, r, (start + i) % c.banks) then i else PullFrom(c, s, v, r, start, i + 1)
  }

  function EarlyPick(c: Config, s: State, v: View, r: int): (b: int)
    requires Shape(c, s) && ViewOk(c, v) && 0 <= r < c.ranks
    ensures 0 <= b <= c.banks
  {
    var start := v.earlyDraws[r] % c.banks;
    var k := PullFrom(c, s, v, r, start, 0);
    if k < c.banks then (start + k) % c.banks else c.banks
  }

  /** In write mode by demand, in read mode by need. */
  function Pick(c: Config, s: State, v: View, r: int): (b: int)
    requires Shape(c, s) && ViewOk(c, v) && 0 <= r < c.ranks
    ensures 0 <= b <= c.banks
  {
    if v.writeMode then WrpPick(c, s, v, r) else EarlyPick(c, s, v, r)
  }

  /** One rank's refresh ahead of its slot. */
  function AheadRank(c: Config, s: State, v: View, r: int): (t: State)
    requires Shape(c, s) && ViewOk(c, v) && 0 <= r < c.ranks
    ensures Shape(c, t)
  {
    var b := Pick(c, s, v, r);
    if s.ok && b < c.banks && |s.otherq| < c.otherMax then Issue(c, s, r, b) else s
  }

  function AheadRanks(c: Config, s: State, v: View, n: nat): (t: State)
    requires Shape(c, s) && ViewOk(c, v) && n <= c.ranks
    ensures Shape(c, t)
  {
    if n == 0 then s else AheadRank(c, AheadRanks(c, s, v, n - 1), v, n - 1)
  }

  /** The out-of-order part of a tick: on entering write mode, and on every tick in read mode. */
  function Ahead(c: Config, s: State, v: View): (t: State)
    requires Shape(c, s) && ViewOk(c, v)
    ensures Shape(c, t)
  {
    if !c.ooo then s
    else
      var s1 := if s.wasWriting && v.writeMode then s else AheadRanks(c, s, v, c.ranks);
      s1.(wasWriting := v.writeMode)
  }

  /** A slot every `interval` cycles. */
  function Schedule(c: Config, s: State, v: View): (t: State)
    requires Shape(c, s)
    ensures Shape(c, t)
  {
    if s.ok && s.clk - s.refreshed >= c.interval then
      var t := Inject(c, s, v, c.ranks);
      t.(refreshed := t.clk)
    else s
  }

  function NextClock(c: Config, s: State): (t: State)
    requires Shape(c, s)
    ensures Shape(c, t)
  {
    s.(clk := s.clk + 1)
  }

  /** `tick_ref` with per-bank refresh. */
  function Tick(c: Config, s: State, v: View): (t: State)
    requires Shape(c, s) && ViewOk(c, v)
    ensures Shape(c, t)
  {
    Schedule(c, Ahead(c, NextClock(c, s), v), v)
  }

  function Initial(c: Config): (s: State)
    requires ConfigOk(c)
    ensures Shape(c, s)
  {
    State(0, 0, seq(c.ranks, _ => 0), seq(c.ranks, _ => seq(c.banks, _ => 0)),
          seq(c.ranks, _ => seq(c.sas, _ => 0)), false, [], [], true, false)
  }
}
