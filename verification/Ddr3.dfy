/** The DDR3 tables of src/DDR3.h and src/DDR3.cpp. */
module Ddr3 {
  import opened DramNode
  import opened DramTree

  const ACT := 0
  const PRE := 1
  const PREA := 2
  const RD := 3
  const WR := 4
  const RDA := 5
  const WRA := 6
  const REF := 7
  const PDE := 8
  const PDX := 9
  const SRE := 10
  const SRX := 11

  datatype Speed = Speed(nBL: int, nCCD: int, nRTRS: int, nCL: int, nRCD: int, nRP: int, nCWL: int,
                         nRAS: int, nRC: int, nRTP: int, nWTR: int, nWR: int, nRRD: int, nFAW: int,
                         nRFC: int, nPD: int, nXP: int, nCKESR: int, nXS: int)

  function E(cmd: nat, val: int): Entry {
    Entry(cmd, 1, val, false)
  }

  function Sib(cmd: nat, val: int): Entry {
    Entry(cmd, 1, val, true)
  }

  function ChannelTable(s: Speed): (t: Table)
    ensures TableOk(t) && |t| == 12
  {
    var rd := [E(RD, s.nBL), E(RDA, s.nBL)];
    var wr := [E(WR, s.nBL), E(WRA, s.nBL)];
    [[], [], [], rd, wr, rd, wr, [], [], [], [], []]
  }

  /** What a read or a write puts on later column commands, of its own rank and of the others. */
  function AfterRead(s: Speed): (t: seq<Entry>)
    ensures |t| == 10 && forall i :: 0 <= i < |t| ==> t[i].cmd < 12 && t[i].dist == 1
  {
    var turn := s.nCL + s.nCCD + 2 - s.nCWL;
    var gap := s.nBL + s.nRTRS;
    var readWrite := s.nCL + s.nBL + s.nRTRS - s.nCWL;
    [E(RD, s.nCCD), E(RDA, s.nCCD), E(WR, turn), E(WRA, turn),
     Sib(RD, gap), Sib(RDA, gap), Sib(WR, gap), Sib(WRA, gap), Sib(WR, readWrite), Sib(WRA, readWrite)]
  }

  function AfterWrite(s: Speed): (t: seq<Entry>)
    ensures |t| == 6 && forall i :: 0 <= i < |t| ==> t[i].cmd < 12 && t[i].dist == 1
  {
    var afterWrite := s.nCWL + s.nBL + s.nWTR;
    var writeRead := s.nCWL + s.nBL + s.nRTRS - s.nCL;
    [E(WR, s.nCCD), E(WRA, s.nCCD), E(RD, afterWrite), E(RDA, afterWrite), Sib(RD, writeRead), Sib(RDA, writeRead)]
  }

  function RankTable(s: Speed): (t: Table)
    ensures TableOk(t) && |t| == 12
  {
    hide AfterRead, AfterWrite;
    [[E(ACT, s.nRRD), Entry(ACT, 4, s.nFAW, false), E(PREA, s.nRAS), E(PDE, 1)],
     [E(REF, s.nRP), E(SRE, s.nRP)],
     [E(ACT, s.nRP), E(REF, s.nRP), E(SRE, s.nRP)],
     AfterRead(s) + [E(PREA, s.nRTP), E(PDE, s.nCL + s.nBL + 1)],
     AfterWrite(s) + [E(PREA, s.nCWL + s.nBL + s.nWR), E(PDE, s.nCWL + s.nBL + s.nWR)],
     AfterRead(s) + [E(PDE, s.nCL + s.nBL + 1)],
     AfterWrite(s) + [E(PDE, s.nCWL + s.nBL + s.nWR + 1)],
     [E(ACT, s.nRFC), E(REF, s.nRFC), E(PDE, 1)],
     [E(PDX, s.nPD)],
     [E(RD, s.nXP), E(RDA, s.nXP), E(WR, s.nXP), E(WRA, s.nXP), E(ACT, s.nXP), E(PRE, s.nXP), E(PREA, s.nXP),
      E(REF, s.nXP), E(PDE, s.nXP), E(SRE, s.nXP)],
     [E(SRX, s.nCKESR)],
     [E(ACT, s.nXS), E(REF, s.nXS), E(PDE, s.nXS), E(SRE, s.nXS)]]
  }

  function BankTable(s: Speed): (t: Table)
    ensures TableOk(t) && |t| == 12
  {
    [[E(RD, s.nRCD), E(RDA, s.nRCD), E(WR, s.nRCD), E(WRA, s.nRCD), E(ACT, s.nRC), E(PRE, s.nRAS)],
     [E(ACT, s.nRP)],
     [],
     [E(PRE, s.nRTP)],
     [E(PRE, s.nCWL + s.nBL + s.nWR)],
     [E(ACT, s.nRTP + s.nRP)],
     [E(ACT, s.nCWL + s.nBL + s.nWR + s.nRP)],
     [], [], [], [], []]
  }

  /** Scopes by command: row 3, column 4, bank 2, rank 1. */
  function Ddr3Spec(s: Speed, ranks: nat, banks: nat): (spec: Spec)
    ensures SpecOk(spec) && |spec.tables| == 3 && |spec.scope| == 12
  {
    Spec([ChannelTable(s), RankTable(s), BankTable(s)], [1, ranks, banks], [3, 2, 1, 4, 4, 4, 4, 1, 1, 1, 1, 1])
  }
}
