/** Quotients and remainders by a number that is not a literal. */
module Division {
  /** Multiples of d that differ, differ by at least d. */
  lemma Spaced(a: nat, b: nat, d: nat)
    requires a < b
    ensures a * d + d <= b * d
  {
    assert b * d == a * d + d + (b - a - 1) * d;
    assert 0 <= (b - a - 1) * d;
  }

  lemma QuotientIs(x: nat, d: nat, q: nat, r: nat)
    requires x == q * d + r && r < d
    ensures x / d == q && x % d == r
  {
    var p, s := x / d, x % d;
    assert x == p * d + s;
    if p < q { Spaced(p, q, d); } else if q < p { Spaced(q, p, d); }
  }

  /** Adding multiples of d keeps the remainder. */
  lemma RemainderShift(k: nat, d: nat, x: nat)
    requires 0 < d
    ensures (k * d + x) % d == x % d
  {
    assert x == x / d * d + x % d;
    assert k * d + x == (k + x / d) * d + x % d;
    QuotientIs(k * d + x, d, k + x / d, x % d);
  }

  /** A multiple of a multiple of d is a multiple of d. */
  lemma MultipleOfMultiple(w: nat, m: nat, q: nat, d: nat)
    requires m == q * d
    ensures w * m == (w * q) * d
  {
  }

  /** Numbers less than d apart have different remainders. */
  lemma RemaindersDiffer(a: nat, b: nat, d: nat)
    requires a < b < a + d
    ensures a % d != b % d
  {
    assert a == a / d * d + a % d && b == b / d * d + b % d;
    if a / d < b / d { Spaced(a / d, b / d, d); } else if b / d < a / d { Spaced(b / d, a / d, d); }
  }
}
