/** Converting a fee from a decimal number of bitcoins to satoshis in Python's default decimal
    context: 28 significant digits, half-even rounding, exponents from -999999 to 999999. */
module Fees {
  import opened Outcome
  import opened Json
  import opened Arith

  const PRECISION := 28
  const EMAX := 999999
  const ETOP := 999972      // EMAX - PRECISION + 1
  const ETINY := -1000026   // EMIN - PRECISION + 1

  function Pow10(n: nat): (p: nat)
    ensures p >= 1
  {
    if n == 0 then 1 else 10 * Pow10(n - 1)
  }

  /** How many decimal digits the number is written with. */
  function Digits(c: nat): (d: nat)
    ensures d >= 1
  {
    if c < 10 then 1 else 1 + Digits(c / 10)
  }

  /** `c / p` rounded to the nearest whole number, halves to even. */
  function Nearest(c: nat, p: nat): nat
    requires p >= 1
  {
    var r := c % p;
    if 2 * r > p || (2 * r == p && c / p % 2 == 1) then c / p + 1 else c / p
  }

  /** `c / 10^k` rounded to the nearest whole number, halves to even. */
  function HalfEven(c: nat, k: nat): nat { Nearest(c, Pow10(k)) }

  /** A non-negative finite decimal `q * 10^x`. */
  datatype Scaled = Scaled(q: nat, x: int)

  /** Exponent of the last digit that is kept when `c * 10^e` is fitted into the context. */
  function LastPlace(c: nat, e: int): int {
    var place := Digits(c) + e - PRECISION;
    if place < ETINY then ETINY else place
  }

  /** How many final digits rounding drops. */
  function Dropped(c: nat, e: int): nat {
    if c == 0 || LastPlace(c, e) <= e then 0 else LastPlace(c, e) - e
  }

  /** The value to so many digits fewer. A carry into a 29th digit moves the point instead. */
  function Shortened(c: nat, e: int, k: nat): Scaled {
    var q := HalfEven(c, k);
    if q == Pow10(PRECISION) then Scaled(Pow10(PRECISION - 1), e + k + 1) else Scaled(q, e + k)
  }

  /** Fitting `c * 10^e` into the context; `None` is the trapped signal Overflow. */
  function Fit(c: nat, e: int): Option<Scaled> {
    if c == 0 then Some(Scaled(0, if e < ETINY then ETINY else if e > EMAX then EMAX else e))
    else if Digits(c) + e - PRECISION > ETOP then None
    else if Dropped(c, e) == 0 then Some(Scaled(c, e))
    else
      var s := Shortened(c, e, Dropped(c, e));
      if s.x > ETOP then None else Some(s)
  }

  /** `int(d)` when `d` is a whole number, which `d == d.to_integral_value()` tests. */
  function Whole(s: Scaled): Option<nat> {
    if s.x >= 0 then Some(s.q * Pow10(s.x))
    else if s.q % Pow10(-s.x) == 0 then Some(s.q / Pow10(-s.x))
    else None
  }

  const SATOSHIS_PER_COIN := 100000000

  /** The satoshis the client computes for a fee; `None` is its malformed-response error. */
  function Satoshis(fee: Decimal): Option<nat> {
    if !fee.Dec? || (fee.negative && fee.coeff > 0) then None
    else
      var product := Fit(fee.coeff * SATOSHIS_PER_COIN, fee.exp);
      if product.None? then None else Whole(product.value)
  }

  /** The satoshis there really are in `c * 10^e` coins, if that is a whole number. */
  function ExactSatoshis(c: nat, e: int): Option<nat> {
    Whole(Scaled(c, e + 8))
  }

  /** So many satoshis are `c * 10^e` coins: the powers of ten on the side where they are whole. */
  lemma ExactSatoshisIff(c: nat, e: int, n: nat)
    ensures ExactSatoshis(c, e) == Some(n) <==>
      if e + 8 >= 0 then n == c * Pow10(e + 8) else n * Pow10(-(e + 8)) == c
  {
    hide Pow10;
    if e + 8 < 0 {
      var p := Pow10(-(e + 8));
      MultipleMod(n, p);
      QuotientUnique(n * p, p, n, 0);
    }
  }

  // ----- Digits and powers of ten -----

  lemma {:induction false} Pow10Sum(a: nat, b: nat)
    ensures Pow10(a + b) == Pow10(a) * Pow10(b)
  {
    if a == 0 {
    } else {
      Pow10Sum(a - 1, b);
      assert Pow10(a + b) == 10 * (Pow10(a - 1) * Pow10(b)) == Pow10(a) * Pow10(b);
    }
  }

  lemma {:induction false} DigitsShift(c: nat, n: nat)
    requires c > 0
    ensures Digits(c * Pow10(n)) == Digits(c) + n
  {
    if n == 0 {
    } else {
      DigitsShift(c, n - 1);
      var d := c * Pow10(n - 1);
      assert c * Pow10(n) == 10 * d;
      assert d >= 1;
      assert Digits(10 * d) == 1 + Digits((10 * d) / 10);
    }
  }

  lemma {:induction false} DigitsBounds(c: nat)
    requires c > 0
    ensures Pow10(Digits(c) - 1) <= c < Pow10(Digits(c))
  {
    if c >= 10 {
      DigitsBounds(c / 10);
    }
  }

  lemma TenfoldDivision(q: nat, p: nat)
    requires p >= 1
    ensures (10 * q) / (10 * p) == q / p && (10 * q) % (10 * p) == 10 * (q % p)
  {
    assert q == (q / p) * p + q % p;
    assert 10 * q == (q / p) * (10 * p) + 10 * (q % p);
    QuotientUnique(10 * q, 10 * p, q / p, 10 * (q % p));
  }

  lemma Pow10Step(n: nat)
    requires n > 0
    ensures Pow10(n) == 10 * Pow10(n - 1)
  {
  }

  lemma WholeTenfold(q: nat, x: int)
    ensures Whole(Scaled(10 * q, x - 1)) == Whole(Scaled(q, x))
  {
    hide Pow10;
    if x > 0 {
      Pow10Step(x);
      MulAssoc(q, 10, Pow10(x - 1));
    } else {
      Pow10Step(1 - x);
      TenfoldDivision(q, Pow10(-x));
      UnitPowers();
    }
  }

  /** Writing the same value with more final zeros changes nothing. */
  lemma {:induction false} WholeShift(q: nat, x: int, n: nat)
    ensures Whole(Scaled(q * Pow10(n), x - n)) == Whole(Scaled(q, x))
  {
    hide Whole;
    if n == 0 {
    } else {
      WholeShift(q, x, n - 1);
      WholeTenfold(q * Pow10(n - 1), x - (n - 1));
      MulAssoc(10, q, Pow10(n - 1));
      assert q * Pow10(n) == 10 * (q * Pow10(n - 1));
    }
  }

  lemma SatoshiPower()
    ensures Pow10(8) == SATOSHIS_PER_COIN
  {
    assert Pow10(4) == 10000;
    Pow10Sum(4, 4);
  }

  lemma ExactIsProduct(c: nat, e: int)
    ensures ExactSatoshis(c, e) == Whole(Scaled(c * SATOSHIS_PER_COIN, e))
  {
    SatoshiPower();
    WholeShift(c, e + 8, 8);
  }

  // ----- Rounding -----

  /** `a` is within half of `unit` of `b`. */
  predicate Near(a: int, b: int, unit: int) { 2 * a <= 2 * b + unit && 2 * b <= 2 * a + unit }

  lemma NearestError(c: nat, p: nat)
    requires p >= 1
    ensures Near(Nearest(c, p) * p, c, p)
    ensures Nearest(c, p) * p == c <==> c % p == 0
  {
    var (q, r) := (c / p, c % p);
    assert c == q * p + r;
    assert (q + 1) * p == q * p + p;
  }

  /** Rounding moves the value by at most half a unit of the last place kept. */
  lemma HalfEvenError(c: nat, k: nat)
    ensures Near(HalfEven(c, k) * Pow10(k), c, Pow10(k))
    ensures HalfEven(c, k) * Pow10(k) == c <==> c % Pow10(k) == 0
  {
    hide Pow10, Nearest, Near;
    NearestError(c, Pow10(k));
  }

  /** Rounding away zeros only keeps the value. */
  lemma ShortenedExact(c: nat, e: int, k: nat)
    requires c % Pow10(k) == 0
    ensures Whole(Shortened(c, e, k)) == Whole(Scaled(c, e))
  {
    hide Pow10, HalfEven, Shortened, Whole;
    HalfEvenError(c, k);
    WholeShift(HalfEven(c, k), e + k, k);
    ShortenedCarry(c, e, k);
  }

  lemma ShortenedCarry(c: nat, e: int, k: nat)
    ensures Whole(Shortened(c, e, k)) == Whole(Scaled(HalfEven(c, k), e + k))
  {
    hide Whole, HalfEven;
    WholeTenfold(Pow10(PRECISION - 1), e + k + 1);
  }

  lemma MultipleByTen(c: nat, n: nat, k: nat)
    requires k <= n
    ensures (c * Pow10(n)) % Pow10(k) == 0
  {
    hide Pow10;
    Pow10Sum(n - k, k);
    MulAssoc(c, Pow10(n - k), Pow10(k));
    MultipleMod(c * Pow10(n - k), Pow10(k));
  }

  // ----- The conversion is exact up to 28 digits -----

  /** Any fee of at most 28 significant digits whose satoshis stay in the context's exponent range
      is converted exactly: accepted precisely when it is a whole number of satoshis, and then to
      that number. */
  lemma ExactUpTo28Digits(c: nat, e: int)
    requires Digits(c) <= 28 && -1000026 <= e && (c > 0 ==> Digits(c) + 8 + e - 1 <= 999999)
    ensures Satoshis(Dec(false, c, e)) == ExactSatoshis(c, e)
  {
    hide Whole, Pow10, HalfEven, Digits;
    var n := c * SATOSHIS_PER_COIN;
    ExactIsProduct(c, e);
    if c == 0 {
      ZeroIsExact(e);
    } else {
      SatoshiPower();
      DigitsShift(c, 8);
      var k := Dropped(n, e);
      MultipleByTen(c, 8, k);
      if k > 0 {
        ShortenedExact(n, e, k);
        NoCarry(n, k);
      }
    }
  }

  lemma ZeroIsExact(e: int)
    ensures Satoshis(Dec(false, 0, e)) == Some(0) == ExactSatoshis(0, e)
  {
    assert 0 * SATOSHIS_PER_COIN == 0;
  }

  /** Dropping zeros down to 28 digits leaves 28 digits. */
  lemma NoCarry(n: nat, k: nat)
    requires n > 0 && n % Pow10(k) == 0 && Digits(n) <= PRECISION + k
    ensures HalfEven(n, k) < Pow10(PRECISION)
  {
    hide Pow10, HalfEven, Digits;
    HalfEvenError(n, k);
    DigitsBounds(n);
    Pow10Sum(PRECISION, k);
    Pow10Monotone(Digits(n), PRECISION + k);
    var q := HalfEven(n, k);
    assert q * Pow10(k) < Pow10(PRECISION) * Pow10(k);
    MulMono(Pow10(PRECISION), q, Pow10(k));
  }

  lemma {:induction false} Pow10Monotone(a: nat, b: nat)
    requires a <= b
    ensures Pow10(a) <= Pow10(b)
  {
    Pow10Sum(b - a, a);
    MulMono(1, Pow10(b - a), Pow10(a));
  }

  // ----- When the conversion is right, for every fee -----

  /** The satoshis do not fit the context's exponent range. */
  predicate Overflows(c: nat, e: int) {
    c > 0 && Fit(c * SATOSHIS_PER_COIN, e).None?
  }

  /** Rounding drops a digit other than zero. */
  predicate LosesDigits(c: nat, e: int) {
    var n := c * SATOSHIS_PER_COIN;
    n % Pow10(Dropped(n, e)) != 0
  }

  /** What is left after rounding still has a fractional satoshi. */
  predicate StaysFractional(c: nat, e: int) {
    var n := c * SATOSHIS_PER_COIN;
    var (k, x) := (Dropped(n, e), e + Dropped(n, e));
    x < 0 && HalfEven(n, k) % Pow10(-x) != 0
  }

  lemma FittedIsShortened(n: nat, e: int)
    requires n > 0 && Fit(n, e).Some?
    ensures Whole(Fit(n, e).value) == Whole(Scaled(HalfEven(n, Dropped(n, e)), e + Dropped(n, e)))
  {
    hide Whole, Pow10, Digits, LastPlace, Nearest;
    var k := Dropped(n, e);
    if k == 0 {
      UnitPowers();
      HalfEvenError(n, 0);
    } else {
      ShortenedCarry(n, e, k);
    }
  }

  lemma DifferentUpward(n: nat, e: nat, q: nat, k: nat)
    requires q * Pow10(k) != n
    ensures q * Pow10(e + k) != n * Pow10(e)
  {
    hide Pow10;
    Pow10Sum(k, e);
    MulAssoc(q, Pow10(k), Pow10(e));
    DifferentProducts(q * Pow10(k), n, Pow10(e));
  }

  lemma DifferentAcross(n: nat, down: nat, q: nat, up: nat)
    requires q * Pow10(up + down) != n && n % Pow10(down) == 0
    ensures q * Pow10(up) != n / Pow10(down)
  {
    hide Pow10;
    Pow10Sum(up, down);
    MulAssoc(q, Pow10(up), Pow10(down));
    assert n == (n / Pow10(down)) * Pow10(down);
  }

  lemma StillFractional(n: nat, down: nat, k: nat)
    requires n % Pow10(k) != 0
    ensures n % Pow10(down + k) != 0
  {
    hide Pow10;
    Pow10Sum(down, k);
    if n % Pow10(down + k) == 0 {
      MultipleOfMultiple(n, Pow10(down), Pow10(k));
    }
  }

  /** Two values with exponents `e` and `e + k` that differ are treated alike only when both are
      fractional, which the second decides. */
  lemma DifferentWhole(n: nat, e: int, q: nat, k: nat)
    requires n % Pow10(k) != 0 && q * Pow10(k) != n
    ensures Whole(Scaled(q, e + k)) == Whole(Scaled(n, e)) <==> e + k < 0 && q % Pow10(-(e + k)) != 0
  {
    hide Pow10;
    if e >= 0 {
      DifferentUpward(n, e, q, k);
    } else if e + k >= 0 {
      if n % Pow10(-e) == 0 {
        DifferentAcross(n, -e, q, e + k);
      }
    } else {
      StillFractional(n, -(e + k), k);
    }
  }

  lemma DifferentProducts(a: nat, b: nat, p: nat)
    requires a != b && p >= 1
    ensures a * p != b * p
  {
    MulMono(a + 1, b, p);
    MulMono(b + 1, a, p);
  }

  /** For every non-negative finite fee, the client's answer (the satoshis, or a refusal) is the
      right one exactly when no non-zero digit is lost beyond the 28th, or one is lost but the
      rounded amount is still refused for its fraction; an amount that overflows the context is
      always refused, which is right only if it is not a whole number of satoshis. */
  lemma ConversionRightIff(c: nat, e: int)
    ensures Satoshis(Dec(false, c, e)) == ExactSatoshis(c, e) <==>
      if Overflows(c, e) then e + 8 < 0 && c % Pow10(-(e + 8)) != 0
      else !LosesDigits(c, e) || StaysFractional(c, e)
  {
    hide Whole, Fit, HalfEven, Pow10, Digits;
    var n := c * SATOSHIS_PER_COIN;
    ExactIsProduct(c, e);
    if c == 0 {
      ZeroIsExact(e);
      UnitPowers();
      assert Dropped(n, e) == 0;
    } else if Overflows(c, e) {
      OverflowRefused(c, e);
    } else {
      FittedIsShortened(n, e);
      var k := Dropped(n, e);
      HalfEvenError(n, k);
      if LosesDigits(c, e) {
        DifferentWhole(n, e, HalfEven(n, k), k);
      } else {
        WholeShift(HalfEven(n, k), e + k, k);
      }
    }
  }

  /** An amount overflows when it has more than a million digits before the point, or comes to that by rounding. */
  lemma OverflowsIff(c: nat, e: int)
    requires c > 0
    ensures var (n, k) := (c * 100000000, Dropped(c * 100000000, e));
      Overflows(c, e) <==>
        Digits(n) + e > 1000000 || (Digits(n) + e == 1000000 && k > 0 && HalfEven(n, k) == Pow10(28))
  {
    hide Pow10, HalfEven, Digits;
  }

  /** How many digits are dropped: those beyond the 28th, or beyond the last place there is. */
  lemma DroppedRule(n: nat, e: int)
    requires n > 0
    ensures var places := Digits(n) + e - 28;
      Dropped(n, e) == if places < -1000026 then (if e < -1000026 then -1000026 - e else 0)
                       else if places > e then places - e else 0
  {
  }

  /** A fee of `10^e` coins, below the smallest exponent there is, is no whole number of satoshis, and yet is accepted
      as none at all. */
  lemma TinyFeeIsZero(e: int)
    requires e <= -1000035
    ensures Satoshis(Dec(false, 1, e)) == Some(0) && ExactSatoshis(1, e) == None
  {
    hide Pow10, Digits;
    SatoshiPower();
    assert Digits(1) == 1 by { DigitsOfOne(); }
    DigitsShift(1, 8);
    var k := -1000026 - e;
    DroppedRule(100000000, e);
    LargePowers();
    Pow10Monotone(9, k);
    assert HalfEven(100000000, k) == 0;
    Pow10Monotone(9, -(e + 8));
  }

  lemma DigitsOfOne()
    ensures Digits(1) == 1
  {
  }

  /** A half is rounded to the even neighbour. */
  lemma HalvesToEven(q: nat, p: nat)
    requires p >= 1
    ensures Nearest(q * (2 * p) + p, 2 * p) == if q % 2 == 0 then q else q + 1
  {
    QuotientUnique(q * (2 * p) + p, 2 * p, q, p);
  }

  /** The sign of a fee: minus zero is zero, and anything else below it, an infinity or a NaN is refused. */
  lemma SignRule(c: nat, e: int, infinite: bool)
    ensures Satoshis(Dec(true, c, e)) == if c == 0 then Some(0) else None
    ensures Satoshis(DecInf(infinite)) == None && Satoshis(DecNaN) == None
  {
    if c == 0 {
      ZeroIsExact(e);
    }
  }

  lemma OverflowRefused(c: nat, e: int)
    requires Overflows(c, e)
    ensures Satoshis(Dec(false, c, e)) == None
    ensures ExactSatoshis(c, e) == None <==> e + 8 < 0 && c % Pow10(-(e + 8)) != 0
  {
  }

  /** Twenty-nine digits are too many: this whole number of satoshis is accepted as another one. */
  lemma TwentyNineDigitsMisread()
    ensures Satoshis(Dec(false, 1_0000_0000_0000_0000_0000_0000_0001, -8)) == Some(1_0000_0000_0000_0000_0000_0000_0000)
    ensures ExactSatoshis(1_0000_0000_0000_0000_0000_0000_0001, -8) == Some(1_0000_0000_0000_0000_0000_0000_0001)
  {
    var c := 1_0000_0000_0000_0000_0000_0000_0001;
    var n := c * SATOSHIS_PER_COIN;
    LargePowers();
    SatoshiPower();
    assert Digits(c) == 29 by { DigitsOf(c, 29); }
    DigitsShift(c, 8);
    assert Dropped(n, -8) == 9;
    assert n / Pow10(9) == Pow10(27) && n % Pow10(9) == 100000000;
    assert Whole(Scaled(Pow10(27), 1)) == Some(Pow10(28)) by { assert Pow10(1) == 10; }
  }

  lemma {:induction false} DigitsOf(c: nat, d: nat)
    requires d >= 1 && Pow10(d - 1) <= c < Pow10(d)
    ensures Digits(c) == d
  {
    DigitsBounds(c);
    var b := Digits(c);
    if b < d {
      Pow10Monotone(b, d - 1);
    } else if d < b {
      Pow10Monotone(d, b - 1);
    }
  }

  lemma LargePowers()
    ensures Pow10(9) == 1000000000
    ensures Pow10(27) == 1000_0000_0000_0000_0000_0000_0000
    ensures Pow10(28) == 1_0000_0000_0000_0000_0000_0000_0000
    ensures Pow10(29) == 10_0000_0000_0000_0000_0000_0000_0000
  {
    assert Pow10(3) == 1000;
    Pow10Sum(3, 3);
    Pow10Sum(6, 3);
    Pow10Sum(9, 9);
    Pow10Sum(18, 9);
  }

  /** The amount the client works with is never further from the true one than half a unit of the
      last digit kept. */
  lemma RoundingErrorBound(c: nat, e: int)
    requires c > 0 && !Overflows(c, e)
    ensures var n := c * SATOSHIS_PER_COIN;
      var s := Fit(n, e).value;
      s.x >= e && Near(s.q * Pow10(s.x - e), n, Pow10(Dropped(n, e)))
  {
    hide Pow10, HalfEven, LastPlace;
    var n := c * SATOSHIS_PER_COIN;
    var k := Dropped(n, e);
    if k == 0 {
      UnitPowers();
    } else {
      HalfEvenError(n, k);
      CarryKeepsValue(k);
    }
  }

  lemma UnitPowers()
    ensures Pow10(0) == 1 && Pow10(1) == 10
  {
  }

  lemma CarryKeepsValue(k: nat)
    ensures Pow10(PRECISION - 1) * Pow10(k + 1) == Pow10(PRECISION) * Pow10(k)
  {
    hide Pow10;
    Pow10Sum(PRECISION - 1, k + 1);
    Pow10Sum(PRECISION, k);
  }
}
