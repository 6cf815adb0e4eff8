/** The few facts about products and remainders that the solver is better told. */
module Arithmetic {
  lemma MultipleIsFar(m: nat, k: int)
    ensures k >= 1 ==> m * k >= m
    ensures k <= -1 ==> m * k <= -(m as int)
  {
  }

  lemma ModIs(n: int, m: nat, q: int, r: nat)
    requires m > 0 && n == m * q + r && r < m
    ensures n % m == r && n / m == q
  {
    var q', r' := n / m, n % m;
    assert m * (q - q') == r' - r;
    MultipleIsFar(m, q - q');
  }

  lemma MultiplesGrow(a: nat, b: nat, c: nat)
    requires a <= b
    ensures a * c <= b * c
  {
  }

  lemma NextMultiple(n: int, c: int)
    ensures (n + 1) * c == n * c + c
  {
  }

  lemma Distribute(n: nat, q: nat, u: nat)
    ensures n * (q + u) == n * q + n * u
  {
  }

  lemma Regroup(a: nat, b: nat, c: nat)
    ensures a * (b * c) == (a * b) * c
  {
  }

  /** A digit pair below its base. */
  lemma PairBelow(a: nat, b: nat, v: nat, r: nat)
    requires v < b && r < a
    ensures a * v + r < a * b
  {
    Distribute(a, v, b - v);
    MultipleIsFar(a, b - v);
  }

  lemma Nested(a: nat, b: nat, u: nat, v: nat, r: nat)
    ensures a * (b * u + v) + r == (a * b) * u + (a * v + r)
  {
    Distribute(a, b * u, v);
    Regroup(a, b, u);
  }

  lemma Quotient(n: nat, a: nat) returns (q: nat, r: nat)
    requires a > 0
    ensures n == a * q + r && r < a && q == n / a
  {
    q, r := n / a, n % a;
  }

  lemma DividedTwice(n: nat, a: nat, b: nat)
    requires a > 0 && b > 0
    ensures a * b > 0 && n / a / b == n / (a * b)
  {
    MultipleIsFar(a, b);
    var q, r := Quotient(n, a);
    var u, v := Quotient(q, b);
    Nested(a, b, u, v, r);
    PairBelow(a, b, v, r);
    var c, d := a * b, a * v + r;
    assert n == c * u + d;
    ModIs(n, c, u, d);
  }
}
