/** Greatest common divisors, and just enough arithmetic to use them. */
module Divisibility {

  function Gcd(a: nat, b: nat): (g: nat)
    ensures a > 0 || b > 0 ==> g > 0
    decreases b
  {
    if b == 0 then a else Gcd(b, a % b)
  }

  lemma {:induction false} GcdDivides(a: nat, b: nat) returns (p: int, q: int)
    ensures a == Gcd(a, b) * p && b == Gcd(a, b) * q
    decreases b
  {
    if b == 0 {
      p, q := 1, 0;
    } else {
      var k := a / b;
      var p', q' := GcdDivides(b, a % b);
      p, q := p' * k + q', p';
      CommonFactor(Gcd(a, b), p', k, q');
    }
  }

  /** g * p' * k + g * q' == g * (p' * k + q') */
  lemma CommonFactor(g: int, p: int, k: int, q: int)
    ensures (g * p) * k + g * q == g * (p * k + q)
  {
  }

  lemma {:induction false} Bezout(a: nat, b: nat) returns (x: int, y: int)
    ensures a * x + b * y == Gcd(a, b)
    decreases b
  {
    if b == 0 {
      x, y := 1, 0;
    } else {
      var k := a / b;
      var x', y' := Bezout(b, a % b);
      x, y := y', x' - k * y';
      Rebalanced(a, b, k, x', y');
    }
  }

  lemma Rebalanced(a: int, b: int, k: int, x: int, y: int)
    ensures b * x + (a - b * k) * y == a * y + b * (x - k * y)
  {
  }

  lemma MultipleBounds(n: nat, d: int)
    ensures d >= 1 ==> n * d >= n
    ensures d <= -1 ==> n * d + n <= 0
  {
  }

  lemma MultipleMonotone(n: nat, a: int, b: int)
    ensures a <= b ==> n * a <= n * b
  {
    MultipleBounds(n, b - a);
    assert n * (b - a) == n * b - n * a;
  }

  /** Quotient and remainder are unique. */
  lemma RemainderUnique(n: int, q: int, r: int, j: int, s: int)
    requires 0 <= r < n && 0 <= s < n && n * q + r == n * j + s
    ensures r == s
  {
    assert n * (q - j) == n * q - n * j;
    MultipleBounds(n, q - j);
  }

  lemma Quotient(x: int, n: int)
    requires n > 0
    ensures 0 <= x % n < n && x == n * (x / n) + x % n
  {
  }

  lemma RemainderIs(x: int, n: int, q: int, r: int)
    requires 0 <= r < n && x == n * q + r
    ensures x % n == r
  {
    Quotient(x, n);
    RemainderUnique(n, q, r, x / n, x % n);
  }

  /** round * total less a multiple of n, both multiples of g, is a multiple of g. */
  lemma DifferenceOfMultiples(round: int, g: int, p: int, q: int, k: int)
    ensures round * (g * p) - (g * q) * k == g * (round * p - q * k)
  {
  }

  lemma ResidueTimes(x: int, k: int, n: int, c: int, total: int)
    ensures (x * k - n * c) * total == (total * x) * k - n * (c * total)
  {
  }

  lemma ScaledBezout(total: int, x: int, g: int, n: int, y: int, k: int)
    requires total * x + n * y == g
    ensures (total * x) * k == g * k - n * (y * k)
  {
    assert (g - n * y) * k == g * k - n * (y * k);
  }

  lemma Regrouped(n: int, a: int, b: int)
    ensures n * (-a - b) == -(n * a) - n * b
  {
  }

  /** The least multiple of g that is at least b. */
  function NextMultiple(b: nat, g: nat): nat
    requires g > 0
  {
    if b % g == 0 then b else b - b % g + g
  }

  lemma NextMultipleIsLeast(b: nat, g: nat)
    requires g > 0
    ensures NextMultiple(b, g) >= b && NextMultiple(b, g) % g == 0
    ensures forall v: nat | v >= b && v % g == 0 :: v >= NextMultiple(b, g)
  {
    var m := if b % g == 0 then b / g else b / g + 1;
    NextMultipleIs(b, g, m);
    RemainderIs(g * m, g, m, 0);
    forall v: nat | v >= b && v % g == 0
      ensures v >= NextMultiple(b, g)
    {
      AtLeastNext(b, g, v);
    }
  }

  lemma NextMultipleIs(b: nat, g: nat, m: nat)
    requires g > 0 && m == if b % g == 0 then b / g else b / g + 1
    ensures NextMultiple(b, g) == g * m
  {
    assert b == g * (b / g) + b % g;
    assert g * (b / g + 1) == g * (b / g) + g;
  }

  lemma AtLeastNext(b: nat, g: nat, v: nat)
    requires g > 0 && v >= b && v % g == 0
    ensures v >= NextMultiple(b, g)
  {
    var j, k := v / g, b / g;
    assert v == g * j && b == g * k + b % g;
    MultipleMonotone(g, j, k);
    MultipleMonotone(g, k + 1, j);
    assert g * (k + 1) == g * k + g;
  }

  /** Among the multiples of the divisor below n, n less the divisor is the largest. */
  lemma LargestMultipleBelow(total: nat, n: nat)
    requires n > 0
    ensures var g := Gcd(total, n);
            && 0 < g <= n && (n - g) % g == 0
            && forall v: nat | v < n && v % g == 0 :: v <= n - g
  {
    var g := Gcd(total, n);
    var p, q := GcdDivides(total, n);
    MultipleMonotone(g, q, 0);
    MultipleMonotone(g, 1, q);
    assert g * (q - 1) == g * q - g;
    RemainderIs(n - g, g, q - 1, 0);
    forall v: nat | v < n && v % g == 0
      ensures v <= n - g
    {
      var j := v / g;
      assert v == g * j;
      MultipleMonotone(g, q, j);
      MultipleMonotone(g, j, q - 1);
    }
  }
}
