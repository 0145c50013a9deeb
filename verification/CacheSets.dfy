/** One cache set: the LRU list of lines of src/Cache.h, least recently used first.
    `find_if` by tag becomes `Pos`/`Lookup`; the lemmas say what each list edit does to every lookup. */
module CacheSets {

  datatype Option<+T> = None | Some(value: T)

  datatype Line = Line(addr: int, tag: int, lock: bool, dirty: bool)

  /** Position of the first line with the tag, or |lines| (`lines.end()`). */
  function Pos(lines: seq<Line>, tag: int): (p: nat)
    ensures p <= |lines|
    ensures p < |lines| ==> lines[p].tag == tag
    ensures forall j :: 0 <= j < p ==> lines[j].tag != tag
  {
    if |lines| == 0 || lines[0].tag == tag then 0 else 1 + Pos(lines[1..], tag)
  }

  function Lookup(lines: seq<Line>, tag: int): Option<Line> {
    var p := Pos(lines, tag);
    if p < |lines| then Some(lines[p]) else None
  }

  function Erase(lines: seq<Line>, p: nat): seq<Line>
    requires p < |lines|
  {
    lines[..p] + lines[p + 1..]
  }

  ghost predicate Distinct(lines: seq<Line>) {
    forall i, j :: 0 <= i < j < |lines| ==> lines[i].tag != lines[j].tag
  }

  /** With distinct tags, a lookup is decided by any position holding the tag. */
  lemma LookupAt(lines: seq<Line>, p: nat)
    requires Distinct(lines) && p < |lines|
    ensures Pos(lines, lines[p].tag) == p && Lookup(lines, lines[p].tag) == Some(lines[p])
  {
  }

  lemma LookupAbsent(lines: seq<Line>, tag: int)
    requires forall j :: 0 <= j < |lines| ==> lines[j].tag != tag
    ensures Lookup(lines, tag) == None
  {
  }

  /** Two distinct-tag lists holding the same lines up to one tag answer lookups alike. */
  lemma LookupTransfer(a: seq<Line>, b: seq<Line>, tag: int)
    requires Distinct(a) && Distinct(b)
    requires forall j :: 0 <= j < |a| && a[j].tag == tag ==> a[j] in b
    requires forall j :: 0 <= j < |b| && b[j].tag == tag ==> b[j] in a
    ensures Lookup(a, tag) == Lookup(b, tag)
  {
    var p, q := Pos(a, tag), Pos(b, tag);
    if p < |a| {
      assert a[p] in b;
      var k :| 0 <= k < |b| && b[k] == a[p];
      LookupAt(b, k);
    }
  }

  lemma EraseView(lines: seq<Line>, p: nat)
    requires Distinct(lines) && p < |lines|
    ensures Distinct(Erase(lines, p)) && |Erase(lines, p)| == |lines| - 1
    ensures forall l :: l in Erase(lines, p) ==> l in lines
    ensures forall t :: Lookup(Erase(lines, p), t) == if t == lines[p].tag then None else Lookup(lines, t)
  {
    var e := Erase(lines, p);
    assert forall j :: 0 <= j < |e| ==> e[j] == lines[if j < p then j else j + 1];
    forall t ensures Lookup(e, t) == if t == lines[p].tag then None else Lookup(lines, t) {
      if t == lines[p].tag {
        LookupAbsent(e, t);
      } else {
        forall j | 0 <= j < |lines| && lines[j].tag == t ensures lines[j] in e {
          assert e[if j < p then j else j - 1] == lines[j];
        }
        LookupTransfer(e, lines, t);
      }
    }
  }

  lemma PushView(lines: seq<Line>, line: Line)
    requires Distinct(lines) && Lookup(lines, line.tag) == None
    ensures Distinct(lines + [line])
    ensures forall l :: l in lines + [line] ==> l == line || l in lines
    ensures forall t :: Lookup(lines + [line], t) == if t == line.tag then Some(line) else Lookup(lines, t)
  {
    var e := lines + [line];
    forall t ensures Lookup(e, t) == if t == line.tag then Some(line) else Lookup(lines, t) {
      if t == line.tag {
        LookupAt(e, |lines|);
      } else {
        forall j | 0 <= j < |lines| && lines[j].tag == t ensures lines[j] in e {
          assert e[j] == lines[j];
        }
        LookupTransfer(e, lines, t);
      }
    }
  }

  lemma UpdateView(lines: seq<Line>, p: nat, line: Line)
    requires Distinct(lines) && p < |lines| && line.tag == lines[p].tag
    ensures Distinct(lines[p := line])
    ensures forall l :: l in lines[p := line] ==> l == line || l in lines
    ensures forall t :: Lookup(lines[p := line], t) == if t == line.tag then Some(line) else Lookup(lines, t)
  {
    var e := lines[p := line];
    forall t ensures Lookup(e, t) == if t == line.tag then Some(line) else Lookup(lines, t) {
      if t == line.tag {
        LookupAt(e, p);
      } else {
        forall j | 0 <= j < |lines| && lines[j].tag == t ensures lines[j] in e {
          assert e[j] == lines[j];
        }
        LookupTransfer(e, lines, t);
      }
    }
  }

  /** `push_back` of a fresh copy followed by `erase` of the old line: move to the MRU end. */
  lemma TouchView(lines: seq<Line>, p: nat, line: Line)
    requires Distinct(lines) && p < |lines| && line.tag == lines[p].tag
    ensures var e := Erase(lines + [line], p);
      && Distinct(e) && |e| == |lines|
      && (forall l :: l in e ==> l == line || l in lines)
      && (forall t :: Lookup(e, t) == if t == line.tag then Some(line) else Lookup(lines, t))
  {
    assert Erase(lines + [line], p) == Erase(lines, p) + [line];
    EraseView(lines, p);
    PushView(Erase(lines, p), line);
  }

  /** The images of a list; with distinct images there are as many as elements. */
  ghost function Images<T>(s: seq<T>, f: T -> int): set<int> {
    set i | 0 <= i < |s| :: f(s[i])
  }

  lemma {:induction false} ImageCount<T>(s: seq<T>, f: T -> int)
    requires forall i, j :: 0 <= i < j < |s| ==> f(s[i]) != f(s[j])
    ensures |Images(s, f)| == |s|
  {
    if |s| > 0 {
      var rest := s[1..];
      ImageCount(rest, f);
      assert forall j :: 0 <= j < |rest| ==> rest[j] == s[j + 1];
      assert forall j :: 0 < j < |s| ==> s[j] == rest[j - 1];
      assert Images(s, f) == {f(s[0])} + Images(rest, f);
      assert f(s[0]) !in Images(rest, f);
    }
  }

  lemma SubsetCount(a: set<int>, b: set<int>)
    requires a <= b
    ensures |a| <= |b|
  {
    assert b == a + (b - a);
  }
}
