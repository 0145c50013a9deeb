/** The service counters of the DRAM nodes (src/DRAM.h): started minus finished requests, their summed residence time
    and the time with at least one in service. One pass over the events, against sums over all cycles. */
module Service {

  /** A request through the node starts (delta 1) or finishes (delta -1). */
  datatype Event = Event(id: nat, clk: int, delta: int)

  /** `ok` turns false when one of the assertions of the source fails. */
  datatype Counters = Counters(cur: int, since: int, begin: int, served: int, active: int, ok: bool)

  const ZERO := Counters(0, -1, -1, 0, 0, true)

  /** `update_serving_requests` at one node. */
  function Count(c: Counters, e: Event): Counters {
    var busy := c.since != -1 && c.cur > 0;
    var served := if busy then c.served + (e.clk - c.since) * c.cur else c.served;
    var active := if busy then c.active + (e.clk - c.since) else c.active;
    var cur := c.cur + e.delta;
    var begin := if e.delta == 1 && cur == 1 then e.clk else c.begin;
    var idle := !(e.delta == 1 && cur == 1) && cur == 0;
    Counters(cur, e.clk, begin, served, active,
             c.ok && (e.delta == 1 || e.delta == -1) && cur >= 0 && (idle ==> c.begin != -1 && e.delta == -1))
  }

  function After(h: seq<Event>): Counters {
    if |h| == 0 then ZERO else Count(After(h[..|h| - 1]), h[|h| - 1])
  }

  /** Requests in service after the events up to and including cycle t. */
  function InService(h: seq<Event>, t: int): int {
    if |h| == 0 then 0 else InService(h[..|h| - 1], t) + if h[|h| - 1].clk <= t then h[|h| - 1].delta else 0
  }

  function Total(h: seq<Event>): int {
    if |h| == 0 then 0 else Total(h[..|h| - 1]) + h[|h| - 1].delta
  }

  /** The sum over the cycles before t, and the number of those with anyone in service. */
  function Area(h: seq<Event>, t: nat): int {
    if t == 0 then 0 else Area(h, t - 1) + InService(h, t - 1)
  }

  function Busy(h: seq<Event>, t: nat): nat {
    if t == 0 then 0 else Busy(h, t - 1) + if InService(h, t - 1) > 0 then 1 else 0
  }

  /** Events in time order, each finish after its start: never fewer starts than finishes. */
  ghost predicate Proper(h: seq<Event>)
  {
    |h| > 0 ==>
      var init, e := h[..|h| - 1], h[|h| - 1];
      && Proper(init) && e.clk >= 0 && (e.delta == 1 || e.delta == -1) && Total(h) >= 0
      && (|init| > 0 ==> init[|init| - 1].clk <= e.clk)
  }

  function Last(h: seq<Event>): int {
    if |h| == 0 then 0 else h[|h| - 1].clk
  }

  lemma {:induction false} AllStarted(h: seq<Event>, t: int)
    requires Proper(h) && t >= Last(h)
    ensures InService(h, t) == Total(h)
    decreases |h|
  {
    if |h| > 0 {
      AllStarted(h[..|h| - 1], t);
    }
  }

  /** Cycles before the next event are not affected by it. */
  lemma {:induction false} Earlier(h: seq<Event>, e: Event, t: nat)
    requires t <= e.clk
    ensures Area(h + [e], t) == Area(h, t) && Busy(h + [e], t) == Busy(h, t)
    decreases t
  {
    if t > 0 {
      Earlier(h, e, t - 1);
      assert (h + [e])[..|h|] == h;
    }
  }

  /** Between two events the number in service stands still. */
  lemma {:induction false} Still(h: seq<Event>, t: nat)
    requires Proper(h) && t >= Last(h) >= 0
    ensures Area(h, t) == Area(h, Last(h)) + (t - Last(h)) * Total(h)
    ensures Busy(h, t) == Busy(h, Last(h)) + if Total(h) > 0 then t - Last(h) else 0
    decreases t
  {
    if t > Last(h) {
      Still(h, t - 1);
      AllStarted(h, t - 1);
      var d := t - 1 - Last(h);
      assert (d + 1) * Total(h) == d * Total(h) + Total(h);
    }
  }

  lemma {:induction false} NothingBefore(h: seq<Event>, t: nat)
    requires |h| == 0
    ensures Area(h, t) == 0 && Busy(h, t) == 0
    decreases t
  {
    if t > 0 {
      NothingBefore(h, t - 1);
    }
  }

  /** MAIN: after any proper history no assertion has failed, `cur` is the number started and not finished, the
      service total is the sum over all cycles of the number in service, and the active total the number of cycles
      with anyone in service. */
  lemma {:induction false} Exact(h: seq<Event>)
    requires Proper(h)
    ensures Last(h) >= 0
    ensures var c := After(h);
      && c.ok && c.cur == Total(h) >= 0
      && c.served == Area(h, Last(h)) && c.active == Busy(h, Last(h))
      && (c.cur > 0 ==> c.begin != -1) && c.since == if |h| == 0 then -1 else Last(h)
    decreases |h|
  {
    if |h| > 0 {
      var init, e := h[..|h| - 1], h[|h| - 1];
      Exact(init);
      Still(init, e.clk);
      Earlier(init, e, e.clk);
      assert init + [e] == h;
      if |init| == 0 {
        NothingBefore(init, e.clk);
      }
    }
  }

  /** Time elapsed since the starts, less time elapsed since the finishes. */
  function Residence(h: seq<Event>, t: int): int {
    if |h| == 0 then 0 else Residence(h[..|h| - 1], t) + h[|h| - 1].delta * (t - h[|h| - 1].clk)
  }

  lemma {:induction false} ResidenceGrows(h: seq<Event>, t: int)
    ensures Residence(h, t + 1) == Residence(h, t) + Total(h)
    decreases |h|
  {
    if |h| > 0 {
      ResidenceGrows(h[..|h| - 1], t);
      var e := h[|h| - 1];
      assert e.delta * (t + 1 - e.clk) == e.delta * (t - e.clk) + e.delta;
    }
  }

  lemma {:induction false} ResidenceFrom(h: seq<Event>, s: int, t: int)
    requires s <= t
    ensures Residence(h, t) == Residence(h, s) + (t - s) * Total(h)
    decreases t - s
  {
    if s < t {
      ResidenceFrom(h, s, t - 1);
      ResidenceGrows(h, t - 1);
      assert (t - s) * Total(h) == (t - 1 - s) * Total(h) + Total(h);
    }
  }

  lemma {:induction false} ServedResidence(h: seq<Event>)
    requires Proper(h)
    ensures Last(h) >= 0 && After(h).served == Residence(h, Last(h))
    decreases |h|
  {
    Exact(h);
    if |h| > 0 {
      var init, e := h[..|h| - 1], h[|h| - 1];
      ServedResidence(init);
      Exact(init);
      ResidenceFrom(init, Last(init), e.clk);
      ResidenceStep(init, e);
      assert init + [e] == h;
    }
  }

  lemma ResidenceSnoc(h: seq<Event>, e: Event)
    ensures Residence(h + [e], e.clk) == Residence(h, e.clk)
  {
    assert (h + [e])[..|h|] == h;
    assert e.delta * (e.clk - e.clk) == 0;
  }

  lemma ResidenceNone(h: seq<Event>, t: int)
    requires |h| == 0
    ensures Residence(h, t) == 0
  {
  }

  lemma ResidenceStep(h: seq<Event>, e: Event)
    requires Proper(h) && e.clk >= 0 && (|h| > 0 ==> Last(h) <= e.clk)
    requires After(h).served == Residence(h, Last(h)) && After(h).cur == Total(h) >= 0
    requires After(h).since == if |h| == 0 then -1 else Last(h)
    requires Residence(h, e.clk) == Residence(h, Last(h)) + (e.clk - Last(h)) * Total(h)
    ensures Count(After(h), e).served == Residence(h, e.clk)
    ensures Residence(h + [e], e.clk) == Residence(h, e.clk)
  {
    hide Residence;
    ResidenceSnoc(h, e);
    if |h| == 0 {
      ResidenceNone(h, e.clk);
    }
  }

  /** The events of one request. */
  function Of(h: seq<Event>, id: nat): seq<Event> {
    if |h| == 0 then [] else Of(h[..|h| - 1], id) + if h[|h| - 1].id == id then [h[|h| - 1]] else []
  }

  lemma OfSnoc(h: seq<Event>, e: Event, id: nat)
    ensures Of(h + [e], id) == if e.id == id then Of(h, id) + [e] else Of(h, id)
  {
    assert (h + [e])[..|h|] == h;
  }

  /** A request starts at most once, and finishes at most once, after its start. */
  ghost predicate OneLife(h: seq<Event>, id: nat) {
    var o := Of(h, id);
    && |o| <= 2 && (|o| >= 1 ==> o[0].delta == 1)
    && (|o| == 2 ==> o[1].delta == -1 && o[0].clk <= o[1].clk)
  }

  /** How long a request has been in service by cycle t: until its finish, or until t. */
  function Stay(h: seq<Event>, id: nat, t: int): int {
    var o := Of(h, id);
    if |o| == 0 then 0 else if |o| == 1 then t - o[0].clk else o[1].clk - o[0].clk
  }

  function StaySum(h: seq<Event>, n: nat, t: int): int {
    if n == 0 then 0 else StaySum(h, n - 1, t) + Stay(h, n - 1, t)
  }

  /** Residence taken request by request. */
  function ResidenceBy(h: seq<Event>, n: nat, t: int): int {
    if n == 0 then 0 else ResidenceBy(h, n - 1, t) + Residence(Of(h, n - 1), t)
  }

  lemma {:induction false} BySnoc(h: seq<Event>, e: Event, n: nat, t: int)
    ensures ResidenceBy(h + [e], n, t) == ResidenceBy(h, n, t) + if e.id < n then e.delta * (t - e.clk) else 0
    decreases n
  {
    if n > 0 {
      BySnoc(h, e, n - 1, t);
      OfSnoc(h, e, n - 1);
      assert (Of(h, n - 1) + [e])[..|Of(h, n - 1)|] == Of(h, n - 1);
    }
  }

  lemma {:induction false} ByNone(n: nat, t: int)
    ensures ResidenceBy([], n, t) == 0
    decreases n
  {
    if n > 0 {
      ByNone(n - 1, t);
    }
  }

  lemma {:induction false} ByRequest(h: seq<Event>, n: nat, t: int)
    requires forall i :: 0 <= i < |h| ==> h[i].id < n
    ensures Residence(h, t) == ResidenceBy(h, n, t)
    decreases |h|
  {
    if |h| == 0 {
      ByNone(n, t);
    } else {
      ByRequest(h[..|h| - 1], n, t);
      BySnoc(h[..|h| - 1], h[|h| - 1], n, t);
      assert h == h[..|h| - 1] + [h[|h| - 1]];
    }
  }

  lemma StayResidence(h: seq<Event>, id: nat, t: int)
    requires OneLife(h, id)
    ensures Residence(Of(h, id), t) == Stay(h, id, t)
  {
    hide Of, Residence;
    var o := Of(h, id);
    if |o| == 2 {
      assert o == [o[0]] + [o[1]];
      ResidenceOne([o[0]], o[1], t);
      ResidenceOne([], o[0], t);
      assert [] + [o[0]] == [o[0]];
      ResidenceNone([], t);
    } else if |o| == 1 {
      assert o == [] + [o[0]];
      ResidenceOne([], o[0], t);
      ResidenceNone([], t);
    } else {
      ResidenceNone(o, t);
    }
  }

  lemma ResidenceOne(h: seq<Event>, e: Event, t: int)
    requires e.delta == 1 || e.delta == -1
    ensures Residence(h + [e], t) == Residence(h, t) + if e.delta == 1 then t - e.clk else e.clk - t
  {
    assert (h + [e])[..|h|] == h;
  }

  lemma {:induction false} ByStay(h: seq<Event>, n: nat, t: int)
    requires forall id: nat :: OneLife(h, id)
    ensures ResidenceBy(h, n, t) == StaySum(h, n, t)
    decreases n
  {
    hide Of, Stay, Residence, OneLife;
    if n > 0 {
      ByStay(h, n - 1, t);
      StayResidence(h, n - 1, t);
    }
  }

  /** MAIN: Little's law: the service total, a sum over cycles, is the sum over requests of how long each has been in
      service, from its own start to its own finish, or up to the last event if it has not finished. */
  lemma Little(h: seq<Event>, n: nat)
    requires Proper(h) && (forall i :: 0 <= i < |h| ==> h[i].id < n) && forall id: nat :: OneLife(h, id)
    ensures Last(h) >= 0 && After(h).served == StaySum(h, n, Last(h))
  {
    ServedResidence(h);
    ByRequest(h, n, Last(h));
    ByStay(h, n, Last(h));
  }
}
