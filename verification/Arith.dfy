/** Division facts used by several components. */
module Arith {

  lemma MulSign(m: int, d: int)
    requires m > 0
    ensures d > 0 ==> m * d >= m
    ensures d < 0 ==> m * d <= -m
  {
  }

  lemma DivModIs(m: int, a: int, q: int, r: int)
    requires m > 0 && 0 <= r < m && a == m * q + r
    ensures a % m == r && a / m == q
  {
    var d := a / m - q;
    assert a == m * (a / m) + a % m;
    assert m * d == r - a % m by {
      assert m * d == m * (a / m) - m * q;
    }
    MulSign(m, d);
  }

  lemma ModShift(m: int, t: int, r: int)
    requires m > 0
    ensures (m * t + r) % m == r % m
  {
    assert m * t + r == m * (t + r / m) + r % m;
    assert ((m * (t + r / m) + r % m) - r % m) == m * (t + r / m);
    DivModIs(m, m * t + r, t + r / m, r % m);
  }

  lemma ModMod(n: int, m: int, x: int)
    requires n > 0 && m > 0 && n % m == 0
    ensures x % n % m == x % m
  {
    var q, r := n / m, x % n;
    assert n == m * q;
    assert x == n * (x / n) + r;
    assert x == m * (q * (x / n)) + r by {
      assert m * q * (x / n) == m * (q * (x / n));
    }
    ModShift(m, q * (x / n), r);
  }

  /** Quotient and remainder when counting up by one. */
  lemma ModNext(x: int, m: int)
    requires m > 0
    ensures (x + 1) % m == if x % m == m - 1 then 0 else x % m + 1
    ensures (x % m + 1) % m == (x + 1) % m
    ensures (x + 1) / m == x / m + if x % m == m - 1 then 1 else 0
  {
    var q, r := x / m, x % m;
    assert x == m * q + r;
    if r == m - 1 {
      assert m * (q + 1) == m * q + m;
      DivModIs(m, x + 1, q + 1, 0);
      DivModIs(m, m, 1, 0);
    } else {
      DivModIs(m, x + 1, q, r + 1);
      DivModIs(m, r + 1, 0, r + 1);
    }
  }

  ghost predicate Increasing(s: seq<int>) {
    forall i, j :: 0 <= i < j < |s| ==> s[i] < s[j]
  }

  function Min(a: int, b: int): int {
    if a < b then a else b
  }

  function Max(a: int, b: int): int {
    if a < b then b else a
  }

  function Pow2(n: nat): (p: nat)
    ensures p > 0
  {
    if n == 0 then 1 else 2 * Pow2(n - 1)
  }

  lemma {:induction false} Pow2Add(m: nat, n: nat)
    ensures Pow2(m + n) == Pow2(m) * Pow2(n)
    decreases n
  {
    if n > 0 {
      Pow2Add(m, n - 1);
      assert Pow2(m) * (2 * Pow2(n - 1)) == 2 * (Pow2(m) * Pow2(n - 1));
    }
  }

  ghost predicate IsPow2(x: int) {
    exists n: nat :: x == Pow2(n)
  }

  lemma {:induction false} Pow2Divides(m: nat, n: nat)
    requires m <= n
    ensures Pow2(n) % Pow2(m) == 0
    decreases n
  {
    var p := Pow2(m);
    if m == n {
      DivModIs(p, p, 1, 0);
    } else {
      Pow2Divides(m, n - 1);
      var q := Pow2(n - 1) / p;
      assert Pow2(n - 1) == p * q;
      assert Pow2(n) == p * (2 * q);
      DivModIs(p, Pow2(n), 2 * q, 0);
    }
  }

  /** Of two powers of two one divides the other. */
  lemma Pow2Nested(x: int, y: int)
    requires IsPow2(x) && IsPow2(y)
    ensures x > 0 && y > 0 && (x % y == 0 || y % x == 0)
  {
    var m: nat :| x == Pow2(m);
    var n: nat :| y == Pow2(n);
    if m <= n {
      Pow2Divides(m, n);
    } else {
      Pow2Divides(n, m);
    }
  }

  /** Of the numbers below k, how many leave remainder b on division by n. */
  function Turns(k: nat, n: nat, b: int): nat
    requires n > 0
  {
    if k == 0 then 0 else Turns(k - 1, n, b) + if (k - 1) % n == b then 1 else 0
  }

  /** The same in closed form. */
  lemma {:induction false} TurnsClosed(k: nat, n: nat, b: int)
    requires 0 <= b < n
    ensures Turns(k, n, b) == (k + n - 1 - b) / n
    decreases k
  {
    if k == 0 {
      DivModIs(n, n - 1 - b, 0, n - 1 - b);
    } else {
      TurnsClosed(k - 1, n, b);
      var x := k - 1 + n - 1 - b;
      ModNext(x, n);
      TurnAt(k - 1, n, b);
    }
  }

  /** Number j leaves remainder b exactly when j - b - 1 is at the end of a round. */
  lemma TurnAt(j: nat, n: nat, b: int)
    requires 0 <= b < n
    ensures (j + n - 1 - b) % n == n - 1 <==> j % n == b
  {
    var q, r := j / n, j % n;
    if r >= b + 1 {
      assert j + n - 1 - b == n * (q + 1) + (r - 1 - b);
      DivModIs(n, j + n - 1 - b, q + 1, r - 1 - b);
    } else {
      assert j + n - 1 - b == n * q + (r + n - 1 - b);
      DivModIs(n, j + n - 1 - b, q, r + n - 1 - b);
    }
  }

  lemma DivBound(x: int, n: nat, a: int)
    requires n > 0 && x < n * a + n
    ensures x / n <= a
  {
    var q := x / n;
    assert x == n * q + x % n;
    assert n * (q - a) == n * q - n * a;
    MulSign(n, q - a);
  }

  /** At most a full rounds give every remainder at most a turns. */
  lemma TurnsBound(k: nat, n: nat, b: int, a: nat)
    requires 0 <= b < n && k <= n * a
    ensures Turns(k, n, b) <= a
  {
    hide Turns;
    TurnsClosed(k, n, b);
    DivBound(k + n - 1 - b, n, a);
  }
}
