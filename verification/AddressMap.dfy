/** Splitting physical addresses into channel, rank, bank, row and column (src/Memory.h) in either layout. */
module AddressMap {
  import opened Arith

  /** `calc_log2`: the position of the highest bit; 0 for 0. */
  method CalcLog2(val: nat) returns (n: nat)
    ensures if val == 0 then n == 0 else Pow2(n) <= val < Pow2(n + 1)
  {
    n := 0;
    var v := val / 2;
    assert Pow2(1) == 2;
    while v != 0
      invariant v >= 0 && Pow2(n + 1) * v <= val < Pow2(n + 1) * (v + 1)
      invariant val > 0 ==> Pow2(n) <= val
      invariant val == 0 ==> v == 0 && n == 0
      decreases v
    {
      var w := v / 2;
      Halve(Pow2(n + 1), v, w);
      v, n := w, n + 1;
    }
  }

  lemma Halve(p: nat, v: int, w: int)
    requires v > 0 && w == v / 2
    ensures 2 * p * w <= p * v && p * (v + 1) <= 2 * p * (w + 1) && p <= p * v
  {
    var r := v - 2 * w;
    assert p * v == 2 * p * w + p * r by {
      assert v == 2 * w + r;
    }
    if r == 0 {
      assert p * v == 2 * p * w;
    } else {
      assert p * v == 2 * p * w + p;
    }
    assert p * v == p + p * (v - 1) && p * (v - 1) >= 0;
    assert 2 * p * (w + 1) == 2 * p * w + 2 * p;
    assert p * (v + 1) == p * v + p;
  }

  type Radix = r: nat | r > 0 witness 1

  /** The fields of an index, least significant first. */
  function Digits(x: int, radices: seq<Radix>): (ds: seq<int>)
    ensures |ds| == |radices|
    decreases |radices|
  {
    if |radices| == 0 then [] else [x % radices[0]] + Digits(x / radices[0], radices[1..])
  }

  function Value(ds: seq<int>, radices: seq<Radix>): int
    requires |ds| == |radices|
  {
    if |ds| == 0 then 0 else ds[0] + radices[0] * Value(ds[1..], radices[1..])
  }

  function Capacity(radices: seq<Radix>): Radix
  {
    if |radices| == 0 then 1
    else
      MulSign(radices[0], Capacity(radices[1..]));
      radices[0] * Capacity(radices[1..])
  }

  lemma {:induction false} DigitsBound(x: int, radices: seq<Radix>, i: nat)
    requires i < |radices|
    ensures 0 <= Digits(x, radices)[i] < radices[i]
    decreases |radices|
  {
    if i > 0 {
      DigitsBound(x / radices[0], radices[1..], i - 1);
    }
  }

  ghost predicate Within(ds: seq<int>, radices: seq<Radix>) {
    |ds| == |radices| && forall i :: 0 <= i < |ds| ==> 0 <= ds[i] < radices[i]
  }

  lemma SplitMod(x: int, r: Radix, c: Radix)
    ensures r * c > 0 && x % (r * c) == x % r + r * (x / r % c) && x / (r * c) == x / r / c
  {
    MulSign(r, c);
    var q := x / r;
    var d := x % r + r * (q % c);
    assert x == r * q + x % r;
    assert q == c * (q / c) + q % c;
    assert r * q == r * (c * (q / c)) + r * (q % c);
    assert r * (c * (q / c)) == (r * c) * (q / c);
    assert r * (q % c) >= 0 by { MulSign(r, q % c); }
    assert r * (q % c) <= r * c - r by {
      MulSign(r, c - 1 - q % c);
      assert r * (c - 1 - q % c) == r * c - r - r * (q % c);
    }
    DivModIs(r * c, x, q / c, d);
  }

  /** Splitting and joining an index gives it back modulo the capacity. */
  lemma {:induction false} ValueDigits(x: int, radices: seq<Radix>)
    ensures Value(Digits(x, radices), radices) == x % Capacity(radices)
    decreases |radices|
  {
    if |radices| > 0 {
      var r, rest := radices[0], radices[1..];
      ValueDigits(x / r, rest);
      SplitMod(x, r, Capacity(rest));
      assert Digits(x, radices)[1..] == Digits(x / r, rest);
    }
  }

  /** Joining and splitting fields within their bounds gives them back. */
  lemma {:induction false} DigitsValue(ds: seq<int>, radices: seq<Radix>)
    requires Within(ds, radices)
    ensures Digits(Value(ds, radices), radices) == ds
    ensures 0 <= Value(ds, radices) < Capacity(radices)
    decreases |radices|
  {
    if |radices| > 0 {
      DigitsValue(ds[1..], radices[1..]);
      JoinOne(ds[0], Value(ds[1..], radices[1..]), radices[0], Capacity(radices[1..]));
      assert ds == [ds[0]] + ds[1..];
    }
  }

  lemma JoinOne(d: int, v: int, r: Radix, c: Radix)
    requires 0 <= d < r && 0 <= v < c
    ensures (d + r * v) % r == d && (d + r * v) / r == v && 0 <= d + r * v < r * c
  {
    DivModIs(r, d + r * v, v, d);
    MulSign(r, v);
    MulSign(r, c - 1 - v);
    assert r * (c - 1 - v) == r * c - r - r * v;
  }

  /** The order in which the levels take their bits, lowest first; level 0 is the channel, the last the column. */
  datatype Layout = ChRaBaRoCo | RoBaRaCoCh

  function Order(layout: Layout, n: nat, k: nat): (l: nat)
    requires k < n && n >= 2
    ensures l < n
  {
    match layout
    case ChRaBaRoCo => n - 1 - k
    case RoBaRaCoCh => if k == 0 then 0 else if k == 1 then n - 1 else k - 1
  }

  /** Which step fills a level. */
  function Place(layout: Layout, n: nat, l: nat): (k: nat)
    requires l < n && n >= 2
    ensures k < n && Order(layout, n, k) == l
    ensures forall j: nat :: j < n && Order(layout, n, j) == l ==> j == k
  {
    match layout
    case ChRaBaRoCo => n - 1 - l
    case RoBaRaCoCh => if l == 0 then 0 else if l == n - 1 then 1 else l + 1
  }

  function Radices(layout: Layout, bits: seq<nat>): (r: seq<Radix>)
    requires |bits| >= 2
    ensures |r| == |bits| && forall k :: 0 <= k < |r| ==> r[k] == Pow2(bits[Order(layout, |bits|, k)])
  {
    seq(|bits|, k requires 0 <= k < |bits| => Pow2(bits[Order(layout, |bits|, k)]))
  }

  /** The address vector of transaction x. */
  function Vector(layout: Layout, bits: seq<nat>, x: int): (v: seq<int>)
    requires |bits| >= 2
    ensures |v| == |bits|
  {
    var ds := Digits(x, Radices(layout, bits));
    seq(|bits|, l requires 0 <= l < |bits| => ds[Place(layout, |bits|, l)])
  }

  /** The transaction an address vector stands for. */
  function Index(layout: Layout, bits: seq<nat>, v: seq<int>): int
    requires |v| == |bits| >= 2
  {
    Value(seq(|v|, k requires 0 <= k < |v| => v[Order(layout, |v|, k)]), Radices(layout, bits))
  }

  lemma VectorBound(layout: Layout, bits: seq<nat>, x: int, l: nat)
    requires |bits| >= 2 && l < |bits|
    ensures 0 <= Vector(layout, bits, x)[l] < Pow2(bits[l])
  {
    DigitsBound(x, Radices(layout, bits), Place(layout, |bits|, l));
  }

  function Size(layout: Layout, bits: seq<nat>): Radix
    requires |bits| >= 2
  {
    Capacity(Radices(layout, bits))
  }

  /** MAIN: every transaction index comes back from its vector modulo the capacity, so indices below it map one to one
      and indices beyond it alias. */
  lemma IndexVector(layout: Layout, bits: seq<nat>, x: int)
    requires |bits| >= 2
    ensures Index(layout, bits, Vector(layout, bits, x)) == x % Size(layout, bits)
  {
    var n, radices := |bits|, Radices(layout, bits);
    var ds, v := Digits(x, radices), Vector(layout, bits, x);
    ValueDigits(x, radices);
    assert seq(n, k requires 0 <= k < n => v[Order(layout, n, k)]) == ds;
  }

  /** MAIN: every vector within its levels' bounds is the vector of exactly one index below the capacity. */
  lemma VectorIndex(layout: Layout, bits: seq<nat>, v: seq<int>)
    requires |v| == |bits| >= 2 && forall l :: 0 <= l < |v| ==> 0 <= v[l] < Pow2(bits[l])
    ensures Vector(layout, bits, Index(layout, bits, v)) == v
    ensures 0 <= Index(layout, bits, v) < Size(layout, bits)
  {
    var n, radices := |bits|, Radices(layout, bits);
    var ds := seq(n, k requires 0 <= k < n => v[Order(layout, n, k)]);
    DigitsValue(ds, radices);
    forall l | 0 <= l < n ensures Vector(layout, bits, Index(layout, bits, v))[l] == v[l] {
      assert ds[Place(layout, n, l)] == v[l];
    }
  }

  lemma VectorAgain(layout: Layout, bits: seq<nat>, x: int)
    requires |bits| >= 2
    ensures Vector(layout, bits, x % Size(layout, bits)) == Vector(layout, bits, x)
  {
    hide Vector, Index, Size;
    var v := Vector(layout, bits, x);
    forall l | 0 <= l < |bits| ensures 0 <= v[l] < Pow2(bits[l]) {
      VectorBound(layout, bits, x, l);
    }
    IndexVector(layout, bits, x);
    VectorIndex(layout, bits, v);
  }

  /** MAIN: two transactions have the same vector exactly when they agree modulo the capacity. */
  lemma Alias(layout: Layout, bits: seq<nat>, x: int, y: int)
    requires |bits| >= 2
    ensures Vector(layout, bits, x) == Vector(layout, bits, y) <==> x % Size(layout, bits) == y % Size(layout, bits)
  {
    hide Vector, Index, Size;
    IndexVector(layout, bits, x);
    IndexVector(layout, bits, y);
    VectorAgain(layout, bits, x);
    VectorAgain(layout, bits, y);
  }

  method SliceLowerBits(addr: int, bits: nat) returns (low: int, rest: int)
    ensures low == addr % Pow2(bits) && rest == addr / Pow2(bits)
  {
    low, rest := addr % Pow2(bits), addr / Pow2(bits);
  }

  lemma DigitsStep(x: int, rest: int, radices: seq<Radix>, k: nat)
    requires k < |radices| && Digits(x, radices)[k..] == Digits(rest, radices[k..])
    ensures Digits(x, radices)[k] == rest % radices[k]
    ensures Digits(x, radices)[k + 1..] == Digits(rest / radices[k], radices[k + 1..])
  {
    var ds := Digits(x, radices);
    assert radices[k..][0] == radices[k] && radices[k..][1..] == radices[k + 1..];
    assert ds[k..][0] == ds[k] && ds[k..][1..] == ds[k + 1..];
  }

  /** Bits of the levels from lo up to hi. */
  function Width(bits: seq<nat>, lo: nat, hi: nat): nat
    requires hi <= |bits|
    decreases hi - lo
  {
    if lo >= hi then 0 else bits[lo] + Width(bits, lo + 1, hi)
  }

  lemma {:induction false} WidthSnoc(bits: seq<nat>, lo: nat, hi: nat)
    requires lo <= hi < |bits|
    ensures Width(bits, lo, hi + 1) == Width(bits, lo, hi) + bits[hi]
    decreases hi - lo
  {
    if lo < hi {
      WidthSnoc(bits, lo + 1, hi);
    }
  }

  /** Where a level's bits begin. In the first layout the channel has the highest bits and the column the lowest; in the
      second the channel has the lowest, then the column, then the levels from the rank down to the row. */
  function Offset(layout: Layout, bits: seq<nat>, l: nat): nat
    requires |bits| >= 2 && l < |bits|
  {
    var n := |bits|;
    match layout
    case ChRaBaRoCo => Width(bits, l + 1, n)
    case RoBaRaCoCh =>
      if l == 0 then 0 else if l == n - 1 then bits[0] else bits[0] + bits[n - 1] + Width(bits, 1, l)
  }

  /** Bits taken by the first k steps. */
  function Taken(layout: Layout, bits: seq<nat>, k: nat): nat
    requires |bits| >= 2 && k <= |bits|
  {
    if k == 0 then 0 else Taken(layout, bits, k - 1) + bits[Order(layout, |bits|, k - 1)]
  }

  lemma {:induction false} TakenIs(layout: Layout, bits: seq<nat>, k: nat)
    requires |bits| >= 2 && k < |bits|
    ensures Taken(layout, bits, k) == Offset(layout, bits, Order(layout, |bits|, k))
    decreases k
  {
    if k > 0 {
      TakenIs(layout, bits, k - 1);
      if layout.RoBaRaCoCh? && k > 2 {
        WidthSnoc(bits, 1, k - 2);
      }
    }
  }

  lemma Shifts(x: int, a: nat, b: nat)
    ensures x / Pow2(a) / Pow2(b) == x / Pow2(a + b)
  {
    Pow2Add(a, b);
    SplitMod(x, Pow2(a), Pow2(b));
  }

  /** What is left of an index after k steps. */
  lemma {:induction false} DigitsLeft(layout: Layout, bits: seq<nat>, x: int, k: nat)
    requires |bits| >= 2 && k <= |bits|
    ensures var radices := Radices(layout, bits);
      Digits(x, radices)[k..] == Digits(x / Pow2(Taken(layout, bits, k)), radices[k..])
    decreases k
  {
    hide Digits, Pow2, Order;
    var radices := Radices(layout, bits);
    if k == 0 {
      assert Taken(layout, bits, 0) == 0 && radices[0..] == radices && Digits(x, radices)[0..] == Digits(x, radices);
      Pow2Zero();
    } else {
      DigitsLeft(layout, bits, x, k - 1);
      DigitsStep(x, x / Pow2(Taken(layout, bits, k - 1)), radices, k - 1);
      Shifts(x, Taken(layout, bits, k - 1), bits[Order(layout, |bits|, k - 1)]);
    }
  }

  /** MAIN: a level's component is its own bits of the index, from its offset on. */
  lemma FieldBits(layout: Layout, bits: seq<nat>, x: int, l: nat)
    requires |bits| >= 2 && l < |bits|
    ensures Vector(layout, bits, x)[l] == x / Pow2(Offset(layout, bits, l)) % Pow2(bits[l])
  {
    hide Digits, Pow2, Order;
    var k, radices := Place(layout, |bits|, l), Radices(layout, bits);
    DigitsLeft(layout, bits, x, k);
    DigitsStep(x, x / Pow2(Taken(layout, bits, k)), radices, k);
    TakenIs(layout, bits, k);
  }

  lemma Pow2Zero()
    ensures Pow2(0) == 1
  {
  }

  lemma OrderOnce(layout: Layout, n: nat, j: nat, k: nat)
    requires j < n && k < n && n >= 2 && j != k
    ensures Order(layout, n, j) != Order(layout, n, k)
  {
    assert Place(layout, n, Order(layout, n, k)) == k;
  }

  /** The slicing in `send`: drop the offset in a transaction, then fill the vector level by level. */
  method Split(layout: Layout, bits: seq<nat>, txBits: nat, addr: int) returns (vec: array<int>)
    requires |bits| >= 2
    ensures fresh(vec) && vec[..] == Vector(layout, bits, addr / Pow2(txBits))
    ensures forall l :: 0 <= l < |bits| ==>
      vec[l] == addr / Pow2(txBits + Offset(layout, bits, l)) % Pow2(bits[l])
  {
    hide Digits, Pow2, Order, Offset;
    var n := |bits|;
    vec := new int[n](_ => 0);
    var low, rest := SliceLowerBits(addr, txBits);
    ghost var radices, x := Radices(layout, bits), rest;
    for k := 0 to n
      invariant Digits(x, radices)[k..] == Digits(rest, radices[k..])
      invariant forall j :: 0 <= j < k ==> vec[Order(layout, n, j)] == Digits(x, radices)[j]
    {
      var l := Order(layout, n, k);
      DigitsStep(x, rest, radices, k);
      low, rest := SliceLowerBits(rest, bits[l]);
      forall j | 0 <= j < k ensures Order(layout, n, j) != l {
        OrderOnce(layout, n, j, k);
      }
      vec[l] := low;
    }
    forall l | 0 <= l < n ensures vec[l] == Vector(layout, bits, x)[l] {
      assert vec[Order(layout, n, Place(layout, n, l))] == Digits(x, radices)[Place(layout, n, l)];
    }
    forall l | 0 <= l < n ensures vec[l] == addr / Pow2(txBits + Offset(layout, bits, l)) % Pow2(bits[l]) {
      FieldBits(layout, bits, x, l);
      Shifts(addr, txBits, Offset(layout, bits, l));
    }
  }
}
