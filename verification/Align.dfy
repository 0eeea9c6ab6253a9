/** Rounding to multiples of a block size. */
module Align {

  function AlignUp(x: nat, n: nat): nat
    requires n > 0
  {
    if x % n != 0 then x + (n - x % n) else x
  }

  function AlignDown(x: nat, n: nat): nat
    requires n > 0
  {
    x - x % n
  }

  lemma {:induction false} ModShift(y: int, k: int, n: nat)
    requires n > 0
    ensures (y - k * n) % n == y % n
    decreases if k < 0 then -k else k
  {
    if k > 0 {
      ModShift(y, k - 1, n);
      assert y - k * n == (y - (k - 1) * n) - n;
      ModOnce(y - k * n, n);
    } else if k < 0 {
      ModShift(y, k + 1, n);
      assert y - k * n == (y - (k + 1) * n) + n;
      ModOnce(y - (k + 1) * n, n);
    }
  }

  lemma ModOnce(y: int, n: nat)
    requires n > 0
    ensures (y + n) % n == y % n
  {
    var q, r := y / n, y % n;
    assert y == q * n + r;
    assert y + n == (q + 1) * n + r;
    DivUnique(y + n, n, q + 1, r);
  }

  lemma DivUnique(x: int, n: nat, q: int, r: int)
    requires n > 0 && x == q * n + r && 0 <= r < n
    ensures x % n == r
  {
    var q', r' := x / n, x % n;
    EuclidIs(x, n);
    Distribute(q, q', n);
    SmallMultiple(q - q', n);
  }

  lemma EuclidIs(x: int, n: nat)
    requires n > 0
    ensures x == (x / n) * n + x % n && 0 <= x % n < n
  {
  }

  lemma Distribute(a: int, b: int, n: int)
    ensures (a - b) * n == a * n - b * n
  {
  }

  lemma SmallMultiple(d: int, n: int)
    requires n > 0
    ensures -n < d * n < n <==> d == 0
    ensures d == 0 ==> d * n == 0
  {
    if d >= 1 { assert d * n >= 1 * n; }
    if d <= -1 { assert d * n <= -1 * n; }
  }

  lemma MultipleMod(k: nat, n: nat)
    requires n > 0
    ensures (k * n) % n == 0
  {
    ModShift(k * n, k, n);
  }

  lemma {:induction false} LessMultiple(a: nat, b: nat, n: nat)
    ensures a < b ==> a * n + n <= b * n
    decreases b
  {
    if a < b {
      assert b * n == (b - 1) * n + n;
      LessMultiple(a, b - 1, n);
    }
  }

  lemma QuotientIs(v: nat, d: nat, q: nat, rest: nat)
    requires d > 0 && v == q * d + rest && rest < d
    ensures v / d == q
  {
    EuclidIs(v, d);
    LessMultiple(v / d, q, d);
    LessMultiple(q, v / d, d);
  }

  /** The least multiple of `n` not below `x`. */
  lemma AlignUpIs(x: nat, n: nat)
    requires n > 0
    ensures AlignUp(x, n) % n == 0 && x <= AlignUp(x, n) < x + n
    ensures forall m: nat :: m % n == 0 && x <= m ==> AlignUp(x, n) <= m
  {
    var q, r := x / n, x % n;
    assert x == q * n + r;
    if r != 0 {
      assert AlignUp(x, n) == (q + 1) * n;
      MultipleMod(q + 1, n);
    }
    forall m: nat | m % n == 0 && x <= m ensures AlignUp(x, n) <= m {
      var j := m / n;
      assert m == j * n;
      LessMultiple(q, j, n);
      LessMultiple(j, q, n);
    }
  }

  /** The greatest multiple of `n` not above `x`. */
  lemma AlignDownIs(x: nat, n: nat)
    requires n > 0
    ensures AlignDown(x, n) % n == 0 && AlignDown(x, n) <= x < AlignDown(x, n) + n
  {
    var q := x / n;
    assert AlignDown(x, n) == q * n;
    MultipleMod(q, n);
  }

  lemma Close(a: nat, b: nat, n: nat)
    requires a * n < b * n + n && b * n < a * n + n
    ensures a == b
  {
    LessMultiple(a, b, n);
    LessMultiple(b, a, n);
  }

  /** Two multiples less than a block apart are equal. */
  lemma MultiplesApart(x: nat, y: nat, n: nat)
    requires n > 0 && x % n == 0 && y % n == 0 && x < y + n && y < x + n
    ensures x == y
  {
    EuclidIs(x, n);
    EuclidIs(y, n);
    Close(x / n, y / n, n);
  }
}
