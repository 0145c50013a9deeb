/** Random page allocation (src/Memory.h): frames handed out by circular probing from a random start. */
module Pages {
  import opened Arith

  const PAGE := 4096

  /** A page of one core's address space. */
  datatype Key = Key(core: int, page: int)

  /** `frames` holds -1 for a free frame; `replaced` records that a frame was given out a second time. */
  datatype State = State(frames: seq<int>, remaining: int, table: map<Key, int>, replaced: bool)

  function FreeCount(frames: seq<int>): nat {
    if |frames| == 0 then 0 else FreeCount(frames[..|frames| - 1]) + if frames[|frames| - 1] == -1 then 1 else 0
  }

  lemma {:induction false} FreeSome(frames: seq<int>)
    ensures FreeCount(frames) > 0 <==> exists i :: 0 <= i < |frames| && frames[i] == -1
    decreases |frames|
  {
    if |frames| > 0 {
      FreeSome(frames[..|frames| - 1]);
      if i :| 0 <= i < |frames| && frames[i] == -1 {
        assert i < |frames| - 1 ==> frames[..|frames| - 1][i] == -1;
      }
    }
  }

  lemma {:induction false} FreeTake(frames: seq<int>, i: nat, x: int)
    requires i < |frames| && frames[i] == -1 && x != -1
    ensures FreeCount(frames[i := x]) == FreeCount(frames) - 1
    decreases |frames|
  {
    var n := |frames| - 1;
    if i < n {
      FreeTake(frames[..n], i, x);
      assert frames[i := x][..n] == frames[..n][i := x];
    } else {
      assert frames[i := x][..n] == frames[..n];
    }
  }

  /** The frame k steps around from `start`. */
  function Turn(n: nat, start: nat, k: nat): (p: nat)
    requires start < n
    ensures p < n
  {
    (start + k) % n
  }

  /** The probe: k steps on from `start` as long as frames are taken and the circle is not closed. */
  function Probe(frames: seq<int>, start: nat, k: nat): (r: nat)
    requires start < |frames| && k <= |frames|
    ensures r < |frames|
    decreases |frames| - k
  {
    var p := Turn(|frames|, start, k);
    if frames[p] == -1 || k == |frames| then p else Probe(frames, start, k + 1)
  }

  /** If any frame is free the probe ends on a free one. */
  lemma {:induction false} ProbeFree(frames: seq<int>, start: nat, k: nat, i: nat)
    requires start < |frames| && k <= i < |frames| && frames[Turn(|frames|, start, i)] == -1
    ensures frames[Probe(frames, start, k)] == -1
    decreases i - k
  {
    if k < i && frames[Turn(|frames|, start, k)] != -1 {
      ProbeFree(frames, start, k + 1, i);
    }
  }

  /** Frame p is the first free one on the circle from `start`, k steps on. */
  ghost predicate FirstFree(frames: seq<int>, start: nat, k: nat, p: nat)
    requires start < |frames|
  {
    && k < |frames| && p == Turn(|frames|, start, k) && frames[p] == -1
    && forall j: nat :: j < k ==> frames[Turn(|frames|, start, j)] != -1
  }

  lemma {:induction false} ProbeFirst(frames: seq<int>, start: nat, k: nat) returns (i: nat)
    requires start < |frames| && k <= |frames| && frames[Probe(frames, start, k)] == -1
    requires forall j: nat :: j < k ==> frames[Turn(|frames|, start, j)] != -1
    ensures FirstFree(frames, start, i, Probe(frames, start, k))
    decreases |frames| - k
  {
    hide Turn;
    if frames[Turn(|frames|, start, k)] == -1 || k == |frames| {
      i := k;
      TurnRound(|frames|, start);
    } else {
      i := ProbeFirst(frames, start, k + 1);
    }
  }

  lemma TurnRound(n: nat, start: nat)
    requires start < n
    ensures Turn(n, start, n) == Turn(n, start, 0)
  {
    DivModIs(n, start + n, 1, start);
  }

  /** The probe ends on the first free frame if there is one. */
  lemma ProbeFinds(frames: seq<int>, start: nat)
    requires start < |frames| && FreeCount(frames) > 0
    ensures frames[Probe(frames, start, 0)] == -1
    ensures exists k :: FirstFree(frames, start, k, Probe(frames, start, 0))
  {
    FreeSome(frames);
    var f :| 0 <= f < |frames| && frames[f] == -1;
    var i := if f >= start then f - start else f + |frames| - start;
    DivModIs(|frames|, start + i, if f >= start then 0 else 1, f);
    ProbeFree(frames, start, 0, i);
    var k := ProbeFirst(frames, start, 0);
  }

  /** Where a key's page goes on first use. */
  function Pick(s: State, draw: nat): (p: nat)
    requires |s.frames| > 0
    ensures p < |s.frames|
  {
    if s.remaining == 0 then draw % |s.frames| else Probe(s.frames, draw % |s.frames|, 0)
  }

  function Assign(s: State, key: Key, draw: nat): State
    requires |s.frames| > 0
  {
    if key in s.table then s
    else
      var p := Pick(s, draw);
      if s.remaining == 0 then s.(table := s.table[key := p], replaced := true)
      else s.(frames := s.frames[p := key.core], remaining := s.remaining - 1, table := s.table[key := p])
  }

  ghost predicate Inv(s: State) {
    && |s.frames| > 0 && s.remaining == FreeCount(s.frames)
    && (forall k :: k in s.table ==> 0 <= s.table[k] < |s.frames|)
    && (forall k :: k in s.table ==> s.frames[s.table[k]] != -1)
    && (!s.replaced ==> forall j, k :: j in s.table && k in s.table && j != k ==> s.table[j] != s.table[k])
  }

  /** MAIN: the counter stays the number of free frames, a key keeps its frame for good, a new key gets the first free
      frame on the circle from the one drawn as long as any is free, and distinct keys have distinct frames until the
      first replacement, which happens only when every frame is taken. */
  lemma AssignKeeps(s: State, key: Key, draw: nat)
    requires Inv(s) && key.core != -1
    ensures var t := Assign(s, key, draw);
      && Inv(t) && key in t.table && |t.frames| == |s.frames|
      && (forall k :: k in s.table ==> k in t.table && t.table[k] == s.table[k])
      && (key !in s.table && FreeCount(s.frames) > 0 ==>
            && t.frames == s.frames[t.table[key] := key.core]
            && exists k :: FirstFree(s.frames, draw % |s.frames|, k, t.table[key]))
      && (key !in s.table && FreeCount(s.frames) == 0 ==> t.table[key] == draw % |s.frames|)
      && (key in s.table || FreeCount(s.frames) == 0 ==> t.frames == s.frames)
      && (t.replaced <==> s.replaced || (key !in s.table && FreeCount(s.frames) == 0))
  {
    FreeSome(s.frames);
    if key !in s.table && s.remaining > 0 {
      ProbeFinds(s.frames, draw % |s.frames|);
      FreeTake(s.frames, Pick(s, draw), key.core);
    }
  }

  datatype Access = Access(key: Key, draw: nat)

  function Initial(size: nat): State {
    State(seq(size, _ => -1), size, map[], false)
  }

  function Run(size: nat, h: seq<Access>): (s: State)
    requires size > 0
    ensures |s.frames| == size
  {
    if |h| == 0 then Initial(size) else Assign(Run(size, h[..|h| - 1]), h[|h| - 1].key, h[|h| - 1].draw)
  }

  lemma {:induction false} AllFree(size: nat)
    ensures FreeCount(seq(size, _ => -1)) == size
  {
    if size > 0 {
      AllFree(size - 1);
      assert seq(size, _ => -1)[..size - 1] == seq(size - 1, _ => -1);
    }
  }

  /** How many pages have been given frames: each free frame is missing one, and a frame is given out again only
      when there are more pages than frames. */
  ghost predicate Sized(s: State) {
    var n, free := |s.frames|, FreeCount(s.frames);
    && |s.table| + free >= n && (free > 0 ==> |s.table| + free == n)
    && (s.replaced <==> |s.table| > n)
  }

  lemma AssignSized(s: State, key: Key, draw: nat)
    requires Inv(s) && key.core != -1 && Sized(s)
    ensures Sized(Assign(s, key, draw))
  {
    hide Probe, FreeCount;
    if key !in s.table {
      var t := Assign(s, key, draw);
      assert t.table.Keys == s.table.Keys + {key};
      if s.remaining > 0 {
        ProbeFinds(s.frames, draw % |s.frames|);
        FreeTake(s.frames, Pick(s, draw), key.core);
      }
    }
  }

  /** MAIN: in every run every page used has a frame, and no two pages share one unless more different pages than
      there are frames have been used. */
  lemma {:induction false} RunInjective(size: nat, h: seq<Access>)
    requires size > 0 && forall i :: 0 <= i < |h| ==> h[i].key.core != -1
    ensures var s := Run(size, h);
      && Inv(s) && Sized(s) && (forall i :: 0 <= i < |h| ==> h[i].key in s.table)
      && (|s.table| <= size ==> forall j, k :: j in s.table && k in s.table && j != k ==> s.table[j] != s.table[k])
    decreases |h|
  {
    hide Assign, FreeCount;
    AllFree(size);
    if |h| > 0 {
      var init := h[..|h| - 1];
      RunInjective(size, init);
      AssignKeeps(Run(size, init), h[|h| - 1].key, h[|h| - 1].draw);
      AssignSized(Run(size, init), h[|h| - 1].key, h[|h| - 1].draw);
    }
  }

  class PageTable {
    const frames: array<int>
    var remaining: int
    var table: map<Key, int>
    ghost var replaced: bool

    ghost function Abs(): State
      reads this, frames
    {
      State(frames[..], remaining, table, replaced)
    }

    constructor (size: nat)
      requires size > 0
      ensures Inv(Abs()) && Abs() == Initial(size) && fresh(frames)
    {
      frames := new int[size](_ => -1);
      remaining, table, replaced := size, map[], false;
      new;
      assert frames[..] == seq(size, _ => -1);
      AllFree(size);
    }

    /** `page_allocator` with random translation: the frame in place of the page, the offset kept. */
    method Translate(addr: int, core: int, draw: nat) returns (phys: int)
      requires Inv(Abs()) && core != -1
      modifies this, frames
      ensures Inv(Abs()) && Abs() == Assign(old(Abs()), Key(core, addr / PAGE), draw)
      ensures Key(core, addr / PAGE) in table
      ensures phys / PAGE == table[Key(core, addr / PAGE)] && phys % PAGE == addr % PAGE
    {
      hide Inv;
      ghost var s := Abs();
      var key := Key(core, addr / PAGE);
      AssignKeeps(s, key, draw);
      if key !in table {
        var page := draw % frames.Length;
        if remaining == 0 {
          replaced := true;
        } else {
          assert FreeCount(frames[..]) > 0 by { Remaining(s); }
          page := FindFree(page);
          frames[page] := core;
          remaining := remaining - 1;
        }
        table := table[key := page];
      }
      DivModIs(PAGE, PAGE * table[key] + addr % PAGE, table[key], addr % PAGE);
      phys := PAGE * table[key] + addr % PAGE;
    }

    /** The circular probe. */
    method FindFree(start: nat) returns (page: nat)
      requires start < frames.Length && FreeCount(frames[..]) > 0
      ensures page == Probe(frames[..], start, 0) && page < frames.Length && frames[page] == -1
    {
      hide FreeCount, Turn;
      page := start;
      ProbeFinds(frames[..], start);
      Around(frames.Length, start, 0);
      if frames[page] != -1 {
        ghost var k := 1;
        page := (page + 1) % frames.Length;
        Around(frames.Length, start, k);
        while page != start && frames[page] != -1
          invariant 1 <= k <= frames.Length && page == Turn(frames.Length, start, k)
          invariant page == start <==> k == frames.Length
          invariant Probe(frames[..], start, 0) == Probe(frames[..], start, k)
          decreases frames.Length - k
        {
          Around(frames.Length, start, k);
          k := k + 1;
          page := (page + 1) % frames.Length;
          Around(frames.Length, start, k);
        }
      }
    }
  }

  lemma Remaining(s: State)
    requires Inv(s)
    ensures s.remaining == FreeCount(s.frames)
  {
  }

  /** Stepping around a circle comes back to the start after a full turn and not before. */
  lemma Around(n: nat, start: nat, k: nat)
    requires start < n && k <= n
    ensures Turn(n, start, 0) == start
    ensures k > 0 ==> (Turn(n, start, k) == start <==> k == n)
    ensures (Turn(n, start, k) + 1) % n == Turn(n, start, k + 1)
  {
    ModNext(start + k, n);
    DivModIs(n, start, 0, start);
    if start + k < n {
      DivModIs(n, start + k, 0, start + k);
    } else {
      DivModIs(n, start + k, 1, start + k - n);
    }
  }
}
