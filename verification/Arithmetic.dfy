/** Facts about products and rounded-down quotients of naturals. */
module Arithmetic {

  lemma MulMono(a: nat, b: nat, c: nat, d: nat)
    requires a <= b && c <= d
    ensures 0 <= a * c <= b * d
  {
    assert a * c <= b * c;
    assert b * c <= b * d;
  }

  lemma FloorBounds(a: nat, d: nat)
    requires d > 0
    ensures a / d * d <= a < a / d * d + d
  {
  }

  lemma FloorIs(a: nat, d: nat, k: nat)
    requires d > 0 && k * d <= a < k * d + d
    ensures a / d == k
  {
    var q := a / d;
    FloorBounds(a, d);
    if q < k {
      MulMono(q + 1, k, d, d);
    } else if q > k {
      MulMono(k + 1, q, d, d);
    }
  }

  lemma FloorMono(a: nat, b: nat, d: nat)
    requires d > 0 && a <= b
    ensures a / d <= b / d
  {
    FloorBounds(a, d);
    FloorBounds(b, d);
    if a / d > b / d {
      MulMono(b / d + 1, a / d, d, d);
    }
  }

  lemma Cancel(a: int, b: int, k: nat)
    requires a * k < b * k
    ensures a < b
  {
  }

  lemma StrictMul(a: nat, b: nat, k: nat)
    requires a < b && k > 0
    ensures a * k < b * k
  {
    assert b * k == a * k + (b - a) * k;
    MulMono(1, b - a, k, k);
  }

  lemma Swap(a: int, b: int, c: int)
    ensures a * b * c == a * c * b
  {
  }

  lemma Distribute(a: nat, k: nat)
    ensures (a + 1) * k == a * k + k
  {
  }

  lemma DivNat(a: nat, d: nat)
    requires d > 0
    ensures a / d >= 0
  {
  }

  lemma DivAtLeast(a: nat, d: nat, q: nat)
    requires d > 0 && q * d <= a
    ensures q <= a / d
  {
    FloorBounds(a, d);
    Distribute(a / d, d);
    Cancel(q, a / d + 1, d);
  }
}
