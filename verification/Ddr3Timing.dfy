/** The DDR3 timing rules, stated pair by pair of commands and without the tables: a command is ready exactly when it
    has waited for all of them, so the tables demand these gaps and no others. */
module Ddr3Timing {
  import opened Ddr3
  import opened DramNode
  import opened DramTree
  import opened DramRuns

  predicate IsRead(cmd: nat) {
    cmd == RD || cmd == RDA
  }

  predicate IsWrite(cmd: nat) {
    cmd == WR || cmd == WRA
  }

  predicate Alike(a: nat, b: nat) {
    (IsRead(a) && IsRead(b)) || (IsWrite(a) && IsWrite(b))
  }

  /** From the issue of a write to the end of its write recovery. */
  function Written(s: Speed): int {
    s.nCWL + s.nBL + s.nWR
  }

  /** Command b, anywhere on the channel, comes `gap` cycles after command a: bursts of one direction leave each other
      the bus. */
  ghost predicate ChannelGap(s: Speed, a: nat, b: nat, gap: int) {
    Alike(a, b) && gap == s.nBL
  }

  /** Between commands to different ranks the bus takes time to change hands. */
  ghost predicate OtherRankGap(s: Speed, a: nat, b: nat, gap: int) {
    || (IsRead(a) && (IsRead(b) || IsWrite(b)) && gap == s.nBL + s.nRTRS)
    || (IsRead(a) && IsWrite(b) && gap == s.nCL + s.nBL + s.nRTRS - s.nCWL)
    || (IsWrite(a) && IsRead(b) && gap == s.nCWL + s.nBL + s.nRTRS - s.nCL)
  }

  /** Within a rank: column commands, and the rank's power states and refresh. */
  ghost predicate RankGap(s: Speed, a: nat, b: nat, gap: int) {
    || (Alike(a, b) && gap == s.nCCD)
    || (IsRead(a) && IsWrite(b) && gap == s.nCL + s.nCCD + 2 - s.nCWL)
    || (IsWrite(a) && IsRead(b) && gap == s.nCWL + s.nBL + s.nWTR)
    || (a == ACT && b == ACT && gap == s.nRRD)
    || (a == ACT && b == PREA && gap == s.nRAS)
    || (a == RD && b == PREA && gap == s.nRTP)
    || (a == WR && b == PREA && gap == Written(s))
    || (a == PREA && b == ACT && gap == s.nRP)
    || ((a == PRE || a == PREA) && (b == REF || b == SRE) && gap == s.nRP)
    || (a == REF && (b == ACT || b == REF) && gap == s.nRFC)
    || ((a == ACT || a == REF) && b == PDE && gap == 1)
    || (IsRead(a) && b == PDE && gap == s.nCL + s.nBL + 1)
    || (a == WR && b == PDE && gap == Written(s))
    || (a == WRA && b == PDE && gap == Written(s) + 1)
    || (a == PDE && b == PDX && gap == s.nPD)
    || (a == PDX && b < 12 && b != PDX && b != SRX && gap == s.nXP)
    || (a == SRE && b == SRX && gap == s.nCKESR)
    || (a == SRX && (b == ACT || b == REF || b == PDE || b == SRE) && gap == s.nXS)
  }

  /** Within a bank: a row is opened, accessed, closed, and opened again. */
  ghost predicate BankGap(s: Speed, a: nat, b: nat, gap: int) {
    || (a == ACT && (IsRead(b) || IsWrite(b)) && gap == s.nRCD)
    || (a == ACT && b == PRE && gap == s.nRAS)
    || (a == ACT && b == ACT && gap == s.nRC)
    || (a == PRE && b == ACT && gap == s.nRP)
    || (a == RD && b == PRE && gap == s.nRTP)
    || (a == WR && b == PRE && gap == Written(s))
    || (a == RDA && b == ACT && gap == s.nRTP + s.nRP)
    || (a == WRA && b == ACT && gap == Written(s) + s.nRP)
  }

  /** A rule makes a command to an address come `gap` cycles after issue e. */
  ghost predicate Gap(s: Speed, id: int, e: Issue, cmd: nat, addr: seq<int>, gap: int)
    requires |e.addr| > 2 && |addr| > 2
  {
    && e.addr[0] == id
    && (|| ChannelGap(s, e.cmd, cmd, gap)
        || (addr[1] >= 0 && e.addr[1] != addr[1] && OtherRankGap(s, e.cmd, cmd, gap))
        || (addr[1] >= 0 && e.addr[1] == addr[1] && RankGap(s, e.cmd, cmd, gap))
        || (addr[1] >= 0 && e.addr[1] == addr[1] && addr[2] >= 0 && e.addr[2] == addr[2]
            && BankGap(s, e.cmd, cmd, gap)))
  }

  ghost predicate GapsKept(s: Speed, id: int, e: Issue, cmd: nat, addr: seq<int>, clk: int)
    requires |e.addr| > 2 && |addr| > 2
  {
    forall gap :: Gap(s, id, e, cmd, addr, gap) ==> clk >= e.clk + gap
  }

  /** Four activates of a rank, in their order. */
  ghost predicate FourActs(id: int, rank: int, h: seq<Issue>, ks: seq<nat>)
    requires forall k :: 0 <= k < |h| ==> |h[k].addr| > 1
  {
    && |ks| == 4 && ks[0] < ks[1] < ks[2] < ks[3] < |h|
    && forall k :: 0 <= k < 4 ==> SameRank(id, rank, ACT, h[ks[k]])
  }

  ghost predicate AddrsOk(h: seq<Issue>) {
    forall k :: 0 <= k < |h| ==> |h[k].addr| > 2
  }

  /** All the rules for a command after history h: every gap, and of any four activates of its rank an activate waits
      nFAW from the first. */
  ghost predicate RulesKept(s: Speed, id: int, h: seq<Issue>, cmd: nat, addr: seq<int>, clk: int)
    requires AddrsOk(h) && |addr| > 2
  {
    && (forall i :: 0 <= i < |h| ==> GapsKept(s, id, h[i], cmd, addr, clk))
    && (cmd == ACT && addr[1] >= 0 ==>
          forall ks :: FourActs(id, addr[1], h, ks) ==> clk >= h[ks[0]].clk + s.nFAW)
  }

  lemma ChannelRow(s: Speed, a: nat, t: Entry)
    requires a < 12
    ensures t in ChannelTable(s)[a] <==> t == E(t.cmd, t.val) && ChannelGap(s, a, t.cmd, t.val)
  {
  }

  lemma ReadRow(s: Speed, a: nat, t: Entry)
    requires IsRead(a)
    ensures t in RankTable(s)[a] <==>
      (t == E(t.cmd, t.val) && RankGap(s, a, t.cmd, t.val))
      || (t == Sib(t.cmd, t.val) && OtherRankGap(s, a, t.cmd, t.val))
  {
  }

  lemma WriteRow(s: Speed, a: nat, t: Entry)
    requires IsWrite(a)
    ensures t in RankTable(s)[a] <==>
      (t == E(t.cmd, t.val) && RankGap(s, a, t.cmd, t.val))
      || (t == Sib(t.cmd, t.val) && OtherRankGap(s, a, t.cmd, t.val))
  {
  }

  /** The rows of the rank table hold the rank's rules, those between ranks, and the four-activate window. */
  lemma RankRow(s: Speed, a: nat, t: Entry)
    requires a < 12
    ensures t in RankTable(s)[a] <==>
      || (t == E(t.cmd, t.val) && RankGap(s, a, t.cmd, t.val))
      || (t == Sib(t.cmd, t.val) && OtherRankGap(s, a, t.cmd, t.val))
      || (a == ACT && t == Entry(ACT, 4, s.nFAW, false))
  {
    if IsRead(a) {
      ReadRow(s, a, t);
    } else if IsWrite(a) {
      WriteRow(s, a, t);
    } else {
      hide AfterRead, AfterWrite;
    }
  }

  lemma BankRow(s: Speed, a: nat, t: Entry)
    requires a < 12
    ensures t in BankTable(s)[a] <==> t == E(t.cmd, t.val) && BankGap(s, a, t.cmd, t.val)
  {
  }

  /** How far down the walk of `check` goes. */
  lemma Reaches(s: Speed, ranks: nat, banks: nat, cmd: nat, addr: seq<int>)
    requires var spec := Ddr3Spec(s, ranks, banks); cmd < 12 && AddrOk(spec, addr)
    ensures Reach(Ddr3Spec(s, ranks, banks), 0, cmd, addr)
         == if addr[1] < 0 then 0
            else if addr[2] >= 0 && cmd in {ACT, PRE, RD, WR, RDA, WRA} then 2 else 1
  {
    hide ChannelTable, RankTable, BankTable;
    var spec := Ddr3Spec(s, ranks, banks);
    if addr[1] >= 0 {
      assert Reach(spec, 0, cmd, addr) == 1 + Reach(spec, 1, cmd, addr);
      assert addr[2] >= 0 && spec.scope[cmd] > 1 ==> Reach(spec, 1, cmd, addr) == 1 + Reach(spec, 2, cmd, addr);
    }
  }

  lemma SeesAt(id: int, e: Issue, r: int, b: int)
    requires |e.addr| > 2
    ensures Sees(0, id, [], e) == [Event(e.cmd, e.clk, e.addr[0] == id)]
    ensures Sees(0, id, [r], e) == if e.addr[0] == id then [Event(e.cmd, e.clk, e.addr[1] == r)] else []
    ensures Sees(0, id, [r, b], e)
         == if e.addr[0] == id && e.addr[1] == r then [Event(e.cmd, e.clk, e.addr[2] == b)] else []
  {
    assert [r][1..] == [] && [r, b][1..] == [b] && [b][1..] == [];
    assert Sees(1, r, [b], e) == if e.addr[1] == r then Sees(2, b, [], e) else [];
  }

  lemma ChannelForce(s: Speed, ranks: nat, banks: nat, id: int, h: seq<Issue>, i: nat, cmd: nat, addr: seq<int>,
                     t: Entry)
    requires var spec := Ddr3Spec(s, ranks, banks); HistoryOk(spec, h) && cmd < 12 && AddrOk(spec, addr)
    requires i < |h|
    ensures InForce(Ddr3Spec(s, ranks, banks), id, h, i, cmd, addr, 0, t)
       <==> h[i].addr[0] == id && t == E(cmd, t.val) && ChannelGap(s, h[i].cmd, cmd, t.val)
  {
    hide ChannelTable, RankTable, BankTable, ChannelGap, Sees, Count, Reach;
    assert PathTo(addr, 0, 0) == [];
    SeesAt(id, h[i], 0, 0);
    ChannelRow(s, h[i].cmd, t);
    if h[i].addr[0] == id {
      CountSelf(id, [], h, i);
    }
  }

  lemma RankForce(s: Speed, ranks: nat, banks: nat, id: int, h: seq<Issue>, i: nat, cmd: nat, addr: seq<int>,
                  t: Entry)
    requires var spec := Ddr3Spec(s, ranks, banks); HistoryOk(spec, h) && cmd < 12 && AddrOk(spec, addr)
    requires i < |h| && addr[1] >= 0
    ensures InForce(Ddr3Spec(s, ranks, banks), id, h, i, cmd, addr, 1, t) <==>
      && h[i].addr[0] == id
      && if t.sibling then h[i].addr[1] != addr[1] && t == Sib(cmd, t.val) && OtherRankGap(s, h[i].cmd, cmd, t.val)
         else
           && h[i].addr[1] == addr[1]
           && (|| (t == E(cmd, t.val) && RankGap(s, h[i].cmd, cmd, t.val))
               || (h[i].cmd == ACT == cmd && t == Entry(ACT, 4, s.nFAW, false)
                   && Count(id, [addr[1]], h[i..], ACT) >= 4))
  {
    hide ChannelTable, RankTable, BankTable, RankGap, OtherRankGap, Sees, Count, Reach;
    Reaches(s, ranks, banks, cmd, addr);
    assert PathTo(addr, 0, 1) == [addr[1]];
    SeesAt(id, h[i], addr[1], 0);
    RankRow(s, h[i].cmd, t);
    if h[i].addr[0] == id && h[i].addr[1] == addr[1] {
      CountSelf(id, [addr[1]], h, i);
    }
  }

  lemma BankForce(s: Speed, ranks: nat, banks: nat, id: int, h: seq<Issue>, i: nat, cmd: nat, addr: seq<int>,
                  t: Entry)
    requires var spec := Ddr3Spec(s, ranks, banks); HistoryOk(spec, h) && cmd < 12 && AddrOk(spec, addr)
    requires i < |h| && addr[1] >= 0 && addr[2] >= 0 && cmd in {ACT, PRE, RD, WR, RDA, WRA}
    ensures InForce(Ddr3Spec(s, ranks, banks), id, h, i, cmd, addr, 2, t) <==>
      && h[i].addr[0] == id && h[i].addr[1] == addr[1] && h[i].addr[2] == addr[2]
      && t == E(cmd, t.val) && BankGap(s, h[i].cmd, cmd, t.val)
  {
    hide ChannelTable, RankTable, BankTable, BankGap, Sees, Count, Reach;
    Reaches(s, ranks, banks, cmd, addr);
    assert PathTo(addr, 0, 2) == [addr[1], addr[2]];
    SeesAt(id, h[i], addr[1], addr[2]);
    BankRow(s, h[i].cmd, t);
    if h[i].addr[0] == id && h[i].addr[1] == addr[1] && h[i].addr[2] == addr[2] {
      CountSelf(id, [addr[1], addr[2]], h, i);
    }
  }

  lemma CountStep(id: int, rank: int, c: nat, h: seq<Issue>, k: nat)
    requires k < |h| && AddrsOk(h)
    ensures Count(id, [rank], h[k..], c)
         == (if SameRank(id, rank, c, h[k]) then 1 else 0) + Count(id, [rank], h[k + 1..], c)
  {
    assert h[k..] == [h[k]] + h[k + 1..];
    CountConcat(id, [rank], [h[k]], h[k + 1..], c);
    ProjectOne(id, [rank], h[k]);
    SeesAt(id, h[k], rank, 0);
    if h[k].addr[0] == id {
      RecentOne(Event(h[k].cmd, h[k].clk, h[k].addr[1] == rank), c);
    }
  }

  /** Of n issues of a command from k on, the first. */
  lemma {:induction false} NextIssue(id: int, rank: int, c: nat, h: seq<Issue>, k: nat, n: nat) returns (i: nat)
    requires k <= |h| && AddrsOk(h) && 0 < n <= Count(id, [rank], h[k..], c)
    ensures k <= i < |h| && SameRank(id, rank, c, h[i]) && Count(id, [rank], h[i + 1..], c) >= n - 1
    decreases |h| - k
  {
    hide Count;
    if k == |h| {
      assert h[k..] == [];
      NoneCounted(id, rank, c);
      assert false;
    }
    CountStep(id, rank, c, h, k);
    if SameRank(id, rank, c, h[k]) {
      i := k;
    } else {
      i := NextIssue(id, rank, c, h, k + 1, n);
    }
  }

  lemma NoneCounted(id: int, rank: int, c: nat)
    ensures Count(id, [rank], [], c) == 0
  {
  }

  /** Four activates from i on are four issues of the history. */
  lemma ActsFound(id: int, rank: int, h: seq<Issue>, i: nat) returns (ks: seq<nat>)
    requires i < |h| && AddrsOk(h) && SameRank(id, rank, ACT, h[i]) && Count(id, [rank], h[i..], ACT) >= 4
    ensures FourActs(id, rank, h, ks) && ks[0] == i
  {
    hide Count;
    CountStep(id, rank, ACT, h, i);
    var a := NextIssue(id, rank, ACT, h, i + 1, 3);
    var b := NextIssue(id, rank, ACT, h, a + 1, 2);
    var c := NextIssue(id, rank, ACT, h, b + 1, 1);
    ks := [i, a, b, c];
  }

  lemma {:induction false} CountFalls(id: int, rank: int, c: nat, h: seq<Issue>, i: nat, k: nat)
    requires i <= k <= |h| && AddrsOk(h)
    ensures Count(id, [rank], h[i..], c) >= Count(id, [rank], h[k..], c)
    decreases k
  {
    hide Count;
    if i < k {
      CountFalls(id, rank, c, h, i, k - 1);
      CountStep(id, rank, c, h, k - 1);
    }
  }

  lemma ActThen(id: int, rank: int, h: seq<Issue>, i: nat, k: nat)
    requires i < k <= |h| && AddrsOk(h) && SameRank(id, rank, ACT, h[i])
    ensures Count(id, [rank], h[i..], ACT) >= 1 + Count(id, [rank], h[k..], ACT)
  {
    hide Count;
    CountStep(id, rank, ACT, h, i);
    CountFalls(id, rank, ACT, h, i + 1, k);
  }

  lemma ActsCounted(id: int, rank: int, h: seq<Issue>, ks: seq<nat>)
    requires AddrsOk(h) && FourActs(id, rank, h, ks)
    ensures Count(id, [rank], h[ks[0]..], ACT) >= 4
  {
    hide Count;
    ActThen(id, rank, h, ks[0], ks[1]);
    ActThen(id, rank, h, ks[1], ks[2]);
    ActThen(id, rank, h, ks[2], ks[3]);
    ActThen(id, rank, h, ks[3], |h|);
  }

  /** Every constraint in force is a rule. */
  lemma ForceIsRule(s: Speed, ranks: nat, banks: nat, id: int, h: seq<Issue>, i: nat, cmd: nat, addr: seq<int>,
                    m: nat, t: Entry, clk: int)
    requires var spec := Ddr3Spec(s, ranks, banks);
      HistoryOk(spec, h) && cmd < 12 && AddrOk(spec, addr)
      && i < |h| && InForce(spec, id, h, i, cmd, addr, m, t)
    requires RulesKept(s, id, h, cmd, addr, clk)
    ensures clk >= h[i].clk + t.val
  {
    hide ChannelTable, RankTable, BankTable, BankGap, RankGap, OtherRankGap, ChannelGap, Sees, Count, Reach, FourActs;
    assert GapsKept(s, id, h[i], cmd, addr, clk);
    Reaches(s, ranks, banks, cmd, addr);
    if m == 0 {
      ChannelForce(s, ranks, banks, id, h, i, cmd, addr, t);
      assert Gap(s, id, h[i], cmd, addr, t.val);
    } else if m == 1 {
      RankForce(s, ranks, banks, id, h, i, cmd, addr, t);
      if t == Entry(ACT, 4, s.nFAW, false) && h[i].cmd == ACT == cmd {
        var ks := ActsFound(id, addr[1], h, i);
      } else {
        assert Gap(s, id, h[i], cmd, addr, t.val);
      }
    } else {
      BankForce(s, ranks, banks, id, h, i, cmd, addr, t);
      assert Gap(s, id, h[i], cmd, addr, t.val);
    }
  }

  lemma BankScope(s: Speed, a: nat, b: nat, gap: int)
    requires BankGap(s, a, b, gap)
    ensures b in {ACT, PRE, RD, WR, RDA, WRA}
  {
  }

  /** Every gap is a constraint in force. */
  lemma GapInForce(s: Speed, ranks: nat, banks: nat, id: int, h: seq<Issue>, i: nat, cmd: nat, addr: seq<int>, gap: int)
      returns (m: nat, t: Entry)
    requires var spec := Ddr3Spec(s, ranks, banks); HistoryOk(spec, h) && cmd < 12 && AddrOk(spec, addr)
    requires i < |h| && Gap(s, id, h[i], cmd, addr, gap)
    ensures InForce(Ddr3Spec(s, ranks, banks), id, h, i, cmd, addr, m, t) && t.val == gap
  {
    hide ChannelTable, RankTable, BankTable, BankGap, RankGap, OtherRankGap, ChannelGap, Sees, Count, Reach;
    if ChannelGap(s, h[i].cmd, cmd, gap) {
      m, t := 0, E(cmd, gap);
      ChannelForce(s, ranks, banks, id, h, i, cmd, addr, t);
    } else if h[i].addr[1] != addr[1] {
      m, t := 1, Sib(cmd, gap);
      RankForce(s, ranks, banks, id, h, i, cmd, addr, t);
    } else if RankGap(s, h[i].cmd, cmd, gap) {
      m, t := 1, E(cmd, gap);
      RankForce(s, ranks, banks, id, h, i, cmd, addr, t);
    } else {
      m, t := 2, E(cmd, gap);
      BankScope(s, h[i].cmd, cmd, gap);
      BankForce(s, ranks, banks, id, h, i, cmd, addr, t);
    }
  }

  /** MAIN: after any history a command is ready exactly when it has waited for every DDR3 rule: no rule that it has to
      keep is missing from the tables, and nothing else holds it back. */
  lemma ReadyIffRules(s: Speed, ranks: nat, banks: nat, id: int, h: seq<Issue>, cmd: nat, addr: seq<int>, clk: int)
    requires var spec := Ddr3Spec(s, ranks, banks); HistoryOk(spec, h) && cmd < 12 && AddrOk(spec, addr)
    requires clk >= 0
    ensures var spec := Ddr3Spec(s, ranks, banks);
      Check(spec, Run(spec, Build(spec, 0, id), h), cmd, addr, clk) <==> RulesKept(s, id, h, cmd, addr, clk)
  {
    hide InForce, Gap, Check, Run, Build, Count, ChannelTable, RankTable, BankTable, Reach;
    var spec := Ddr3Spec(s, ranks, banks);
    ForceExact(spec, id, h, cmd, addr, clk);
    if RulesKept(s, id, h, cmd, addr, clk) {
      forall i, m, t | 0 <= i < |h| && 0 <= m && InForce(spec, id, h, i, cmd, addr, m, t)
        ensures clk >= h[i].clk + t.val
      {
        ForceIsRule(s, ranks, banks, id, h, i, cmd, addr, m, t, clk);
      }
    }
    if Kept(spec, id, h, cmd, addr, clk) {
      forall i, gap | 0 <= i < |h| && Gap(s, id, h[i], cmd, addr, gap) ensures clk >= h[i].clk + gap {
        var m, t := GapInForce(s, ranks, banks, id, h, i, cmd, addr, gap);
      }
      if cmd == ACT && addr[1] >= 0 {
        forall ks | FourActs(id, addr[1], h, ks) ensures clk >= h[ks[0]].clk + s.nFAW {
          ActsCounted(id, addr[1], h, ks);
          RankForce(s, ranks, banks, id, h, ks[0], cmd, addr, Entry(ACT, 4, s.nFAW, false));
        }
      }
    }
  }

  /** MAIN: the histories a controller can produce are exactly those in which every command has kept every rule. */
  lemma RunIffRules(s: Speed, ranks: nat, banks: nat, id: int, h: seq<Issue>)
    requires HistoryOk(Ddr3Spec(s, ranks, banks), h)
    ensures Guarded(Ddr3Spec(s, ranks, banks), id, h)
       <==> forall j :: 0 <= j < |h| ==> RulesKept(s, id, h[..j], h[j].cmd, h[j].addr, h[j].clk)
  {
    hide RulesKept, Check, Run, Build, ChannelTable, RankTable, BankTable;
    var spec := Ddr3Spec(s, ranks, banks);
    forall j | 0 <= j < |h|
      ensures Check(spec, Run(spec, Build(spec, 0, id), h[..j]), h[j].cmd, h[j].addr, h[j].clk)
         <==> RulesKept(s, id, h[..j], h[j].cmd, h[j].addr, h[j].clk)
    {
      ReadyIffRules(s, ranks, banks, id, h[..j], h[j].cmd, h[j].addr, h[j].clk);
    }
  }

  /** Issues i and j, in this order, of a run, the earlier one to the controller's channel. */
  ghost predicate InRun(s: Speed, ranks: nat, banks: nat, id: int, h: seq<Issue>, i: nat, j: nat) {
    && Guarded(Ddr3Spec(s, ranks, banks), id, h)
    && i < j < |h| && h[i].addr[0] == id && h[j].addr[1] >= 0
  }

  lemma RunGap(s: Speed, ranks: nat, banks: nat, id: int, h: seq<Issue>, i: nat, j: nat, gap: int)
    requires InRun(s, ranks, banks, id, h, i, j) && Gap(s, id, h[i], h[j].cmd, h[j].addr, gap)
    ensures h[j].clk >= h[i].clk + gap
  {
    hide Gap, Check, Run, Build, ChannelTable, RankTable, BankTable;
    RunIffRules(s, ranks, banks, id, h);
    assert RulesKept(s, id, h[..j], h[j].cmd, h[j].addr, h[j].clk);
    assert h[..j][i] == h[i];
    assert GapsKept(s, id, h[i], h[j].cmd, h[j].addr, h[j].clk);
  }

  /** So in any run two commands to one bank keep the bank's timing, */
  lemma BankTiming(s: Speed, ranks: nat, banks: nat, id: int, h: seq<Issue>, i: nat, j: nat, gap: int)
    requires InRun(s, ranks, banks, id, h, i, j)
    requires h[i].addr[1] == h[j].addr[1] && h[i].addr[2] == h[j].addr[2] >= 0
    requires BankGap(s, h[i].cmd, h[j].cmd, gap)
    ensures h[j].clk >= h[i].clk + gap
  {
    hide Guarded, BankGap;
    RunGap(s, ranks, banks, id, h, i, j, gap);
  }

  /** two commands to one rank the rank's, */
  lemma RankTiming(s: Speed, ranks: nat, banks: nat, id: int, h: seq<Issue>, i: nat, j: nat, gap: int)
    requires InRun(s, ranks, banks, id, h, i, j) && h[i].addr[1] == h[j].addr[1]
    requires RankGap(s, h[i].cmd, h[j].cmd, gap)
    ensures h[j].clk >= h[i].clk + gap
  {
    hide Guarded, RankGap;
    RunGap(s, ranks, banks, id, h, i, j, gap);
  }

  /** two commands to two ranks of a channel leave the bus time to change hands, */
  lemma BusTiming(s: Speed, ranks: nat, banks: nat, id: int, h: seq<Issue>, i: nat, j: nat, gap: int)
    requires InRun(s, ranks, banks, id, h, i, j) && h[i].addr[1] != h[j].addr[1]
    requires OtherRankGap(s, h[i].cmd, h[j].cmd, gap)
    ensures h[j].clk >= h[i].clk + gap
  {
    hide Guarded, OtherRankGap;
    RunGap(s, ranks, banks, id, h, i, j, gap);
  }

  /** column commands of one kind leave each other the bus, wherever on the channel, */
  lemma ChannelTiming(s: Speed, ranks: nat, banks: nat, id: int, h: seq<Issue>, i: nat, j: nat)
    requires InRun(s, ranks, banks, id, h, i, j) && Alike(h[i].cmd, h[j].cmd)
    ensures h[j].clk >= h[i].clk + s.nBL
  {
    hide Guarded;
    assert ChannelGap(s, h[i].cmd, h[j].cmd, s.nBL);
    RunGap(s, ranks, banks, id, h, i, j, s.nBL);
  }

  /** and the fifth of five activates of a rank comes at least nFAW cycles after the first, so nFAW consecutive cycles
      hold at most four. */
  lemma FourActivateWindow(s: Speed, ranks: nat, banks: nat, id: int, h: seq<Issue>, ks: seq<nat>, rank: int)
    requires rank >= 0 && Guarded(Ddr3Spec(s, ranks, banks), id, h)
    requires |ks| == 5 && forall a, b :: 0 <= a < b < 5 ==> ks[a] < ks[b]
    requires forall a :: 0 <= a < 5 ==> ks[a] < |h| && SameRank(id, rank, ACT, h[ks[a]])
    ensures h[ks[4]].clk >= h[ks[0]].clk + s.nFAW
  {
    hide GapsKept, Check, Run, Build, ChannelTable, RankTable, BankTable;
    RunIffRules(s, ranks, banks, id, h);
    var j := ks[4];
    assert RulesKept(s, id, h[..j], h[j].cmd, h[j].addr, h[j].clk);
    assert FourActs(id, rank, h[..j], ks[..4]);
  }
}
