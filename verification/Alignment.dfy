/** Multiples of an alignment, rounding down and up to them. */
module Alignment {
  function Min(a: int, b: int): int { if a < b then a else b }

  function Max(a: int, b: int): int { if a < b then b else a }

  function AlignDown(n: nat, m: nat): nat
    requires m > 0
  {
    n / m * m
  }

  function AlignUp(n: nat, m: nat): nat
    requires m > 0
  {
    AlignDown(n + m - 1, m)
  }

  lemma MulAtLeast(k: nat, m: nat)
    requires k > 0
    ensures k * m >= m
  {
  }

  lemma DivAdd(m: nat, k: nat, r: nat)
    requires m > 0 && r < m
    ensures (k * m + r) / m == k && (k * m + r) % m == r
  {
    var n := k * m + r;
    var q, s := n / m, n % m;
    if q < k {
      assert (k - q) * m == k * m - q * m;
      MulAtLeast(k - q, m);
    } else if q > k {
      assert (q - k) * m == q * m - k * m;
      MulAtLeast(q - k, m);
    }
  }

  lemma AlignDownIs(n: nat, m: nat)
    requires m > 0
    ensures AlignDown(n, m) <= n < AlignDown(n, m) + m && AlignDown(n, m) % m == 0
  {
    assert n == n / m * m + n % m;
    DivAdd(m, n / m, 0);
  }

  lemma AlignUpIs(n: nat, m: nat)
    requires m > 0
    ensures n <= AlignUp(n, m) < n + m && AlignUp(n, m) % m == 0
  {
    AlignDownIs(n + m - 1, m);
  }

  lemma ModAdd(a: nat, b: nat, m: nat)
    requires m > 0 && a % m == 0
    ensures (a + b) % m == b % m
  {
    var p, q := a / m, b / m;
    assert a + b == (p + q) * m + b % m;
    DivAdd(m, p + q, b % m);
  }

  /** There is one multiple in every m consecutive numbers. */
  lemma OneMultiple(a: nat, b: nat, m: nat)
    requires m > 0 && a % m == 0 && b % m == 0 && a <= b < a + m
    ensures a == b
  {
    ModAdd(a, b - a, m);
    DivAdd(m, 0, b - a);
  }

  lemma SameUnit(a: nat, b: nat, m: nat)
    requires m > 0 && AlignDown(a, m) <= b < AlignDown(a, m) + m
    ensures AlignDown(b, m) == AlignDown(a, m)
  {
    AlignDownIs(a, m);
    AlignDownIs(b, m);
    if AlignDown(a, m) <= AlignDown(b, m) {
      OneMultiple(AlignDown(a, m), AlignDown(b, m), m);
    } else {
      OneMultiple(AlignDown(b, m), AlignDown(a, m), m);
    }
  }

  lemma MultipleBelow(o: nat, i: nat, m: nat)
    requires m > 0 && o % m == 0 && o <= i
    ensures o <= AlignDown(i, m)
  {
    AlignDownIs(i, m);
    if AlignDown(i, m) < o {
      OneMultiple(AlignDown(i, m), o, m);
    }
  }

  /** Nothing before the next boundary starts a new unit. */
  lemma LastUnit(e: nat, i: nat, m: nat)
    requires m > 0 && 0 < e <= i < AlignUp(e, m)
    ensures AlignDown(i, m) == AlignDown(e - 1, m)
  {
    AlignUpIs(e, m);
    AlignDownIs(i, m);
    if AlignDown(i, m) >= e {
      OneMultiple(AlignDown(i, m), AlignUp(e, m), m);
    }
    SameUnit(i, e - 1, m);
  }
}
