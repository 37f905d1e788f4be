/** The few facts about products, quotients and powers of two the proofs rest on. */
module Arith {

  lemma {:induction false} MulMono(a: nat, b: nat, c: nat)
    requires a <= b
    ensures a * c <= b * c
  {
  }

  lemma {:induction false} QuotientIs(i: nat, j: nat, q: nat, m: nat)
    requires j > 0 && i == q * j + m && m < j
    ensures i / j == q && i % j == m
  {
    var q' := i / j;
    assert i == q' * j + i % j;
    if q' < q { MulMono(q' + 1, q, j); }
    if q < q' { MulMono(q + 1, q', j); }
  }

  /** The remainder of an integer, negative ones included, is its one representative in 0..m. */
  lemma {:induction false} RemainderIs(x: int, q: int, r: nat, m: nat)
    requires x == q * m + r && r < m
    ensures x % m == r
  {
    var q' := x / m;
    assert x == q' * m + x % m;
    if q' < q { StepApart(q', q, m); } else if q < q' { StepApart(q, q', m); }
  }

  lemma {:induction false} StepApart(a: int, b: int, m: nat)
    requires a < b
    ensures b * m >= a * m + m
  {
    MulMono(1, b - a, m);
    assert b * m == a * m + (b - a) * m;
  }

  lemma {:induction false} DivExact(a: nat, b: nat)
    requires b > 0
    ensures (a * b) / b == a && (a * b) % b == 0
  {
    QuotientIs(a * b, b, a, 0);
  }

  lemma {:induction false} ShiftDiv(i: nat, j: nat)
    requires j > 0
    ensures (i + j) / j == i / j + 1 && (i + j) % j == i % j
  {
    var q := i / j;
    assert i == q * j + i % j;
    assert (q + 1) * j == q * j + j;
    QuotientIs(i + j, j, q + 1, i % j);
  }

  // ---- powers of two and masks ----

  function Pow2(k: nat): (p: nat)
    ensures p >= 1
  {
    if k == 0 then 1 else 2 * Pow2(k - 1)
  }

  ghost predicate IsPow2(n: nat) { exists k: nat :: n == Pow2(k) }

  lemma {:induction false} Pow2Quotient(a: nat, b: nat)
    requires a <= b
    ensures Pow2(b) == Pow2(b - a) * Pow2(a)
    decreases b
  {
    if a < b { Pow2Quotient(a, b - 1); }
  }

  lemma {:induction false} Pow2Mono(a: nat, b: nat)
    requires a <= b
    ensures Pow2(a) <= Pow2(b)
    decreases b
  {
    if a < b { Pow2Mono(a, b - 1); }
  }

  lemma {:induction false} Pow2Strict(a: nat, b: nat)
    requires a < b
    ensures Pow2(a) < Pow2(b)
  {
    Pow2Mono(a, b - 1);
  }

  /** A smaller power of two divides a larger one. */
  lemma {:induction false} Pow2Divides(m: nat, n: nat)
    requires IsPow2(m) && IsPow2(n) && m <= n
    ensures m > 0 && n % m == 0
  {
    var a: nat :| m == Pow2(a);
    var b: nat :| n == Pow2(b);
    if b < a { Pow2Strict(b, a); }
    Pow2Quotient(a, b);
    DivExact(Pow2(b - a), m);
  }

  lemma {:induction false} ModAdd(r: nat, n: nat, b: nat)
    requires b > 0
    ensures (r + n * b) % b == r % b
  {
    var q := r / b;
    assert r == q * b + r % b;
    assert (q + n) * b == q * b + n * b;
    QuotientIs(r + n * b, b, q + n, r % b);
  }

  lemma {:induction false} ModOfMod(x: nat, m: nat, n: nat)
    requires m > 0 && n > 0 && n % m == 0
    ensures (x % n) % m == x % m
  {
    var k, q, r := x / n, n / m, x % n;
    assert n == q * m;
    assert x == k * n + r;
    MulAssoc(k, q, m, n);
    ModAdd(r, k * q, m);
  }

  lemma {:induction false} MulAssoc(k: nat, q: nat, m: nat, n: nat)
    requires n == q * m
    ensures k * n == (k * q) * m
  {
  }

  /** Bitwise AND of two numbers. */
  function BitAnd(a: nat, b: nat): nat {
    if a == 0 || b == 0 then 0
    else (if a % 2 == 1 && b % 2 == 1 then 1 else 0) + 2 * BitAnd(a / 2, b / 2)
  }

  /** Masking with a power of two less one is the remainder. */
  lemma {:induction false} MaskIsMod(x: nat, k: nat)
    ensures BitAnd(x, Pow2(k) - 1) == x % Pow2(k)
    decreases k
  {
    if k != 0 {
      var p := Pow2(k - 1);
      var m := 2 * p - 1;
      assert m / 2 == p - 1 && m % 2 == 1;
      MaskIsMod(x / 2, k - 1);
      HalfMod(x, p);
    }
  }

  lemma {:induction false} HalfMod(x: nat, p: nat)
    requires p > 0
    ensures x % (2 * p) == x % 2 + 2 * (x / 2 % p)
  {
    var h := x / 2;
    var q := h / p;
    assert h == q * p + h % p;
    assert q * (2 * p) == 2 * (q * p);
    QuotientIs(x, 2 * p, q, x % 2 + 2 * (h % p));
  }
}
