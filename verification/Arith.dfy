/** Facts about multiples and quotients. */
module Arith {

  lemma MaskedRange(x: nat, size: nat)
    requires size >= 1
    ensures 0 <= x % size < size && x % size <= x && (x - x % size) % size == 0
  {
    var q := x / size;
    assert x == q * size + x % size;
    MultipleMod(q, size);
  }

  lemma MultipleMod(q: nat, size: nat)
    requires size >= 1
    ensures (q * size) % size == 0
  {
    if q > 0 {
      MultipleMod(q - 1, size);
      assert q * size == (q - 1) * size + size;
      AddSize((q - 1) * size, size);
    }
  }

  lemma AddSize(x: nat, size: nat)
    requires size >= 1
    ensures (x + size) % size == x % size
  {
    var q := x / size;
    var r := x % size;
    assert x + size == (q + 1) * size + r;
    QuotientUnique(x + size, size, q + 1, r);
  }

  lemma MulMono(a: int, b: int, size: nat)
    ensures a <= b ==> a * size <= b * size
  {
  }

  lemma QuotientUnique(x: nat, size: nat, q: nat, r: nat)
    requires size >= 1 && r < size && x == q * size + r
    ensures x / size == q && x % size == r
  {
    var q' := x / size;
    assert x == q' * size + x % size;
    MulMono(q' + 1, q, size);
    MulMono(q + 1, q', size);
  }

  lemma MulAssoc(a: int, b: int, c: int)
    ensures a * (b * c) == (a * b) * c
  {
  }

  lemma TwoMultiples(m1: nat, m2: nat, size: nat)
    requires size >= 1 && m1 % size == 0 && m2 % size == 0 && m1 < m2
    ensures m1 + size <= m2
  {
    var q1, q2 := m1 / size, m2 / size;
    assert m1 == q1 * size && m2 == q2 * size;
    MulMono(q2, q1, size);
    MulMono(q1 + 1, q2, size);
  }

  lemma SumOfMultiples(m1: nat, m2: nat, size: nat)
    requires size >= 1 && m1 % size == 0 && m2 % size == 0
    ensures (m1 + m2) % size == 0
  {
    var q1, q2 := m1 / size, m2 / size;
    assert m1 + m2 == (q1 + q2) * size;
    MultipleMod(q1 + q2, size);
  }

  lemma MultipleOfMultiple(m: nat, k: nat, size: nat)
    requires size >= 1 && k >= 1 && k * size >= 1 && m % (k * size) == 0
    ensures m % size == 0 && (k * size) % size == 0 && size <= k * size
  {
    var q := m / (k * size);
    assert m == q * (k * size) == (q * k) * size;
    MultipleMod(q * k, size);
    MultipleMod(k, size);
    MulMono(1, k, size);
  }
}
