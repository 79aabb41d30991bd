/** The default decimal context seen in integers: rounding to 28 significant digits as integer arithmetic. */
module Significant {
  import opened Decimals

  /** Half-even rounding of the quotient n / d. */
  function HalfEven(n: nat, d: nat): nat
    requires d > 0
  {
    var q, r := n / d, n % d;
    if 2 * r < d || (2 * r == d && q % 2 == 0) then q else q + 1
  }

  /** n rounded half-even to 28 significant digits. */
  function Round28(n: int): int
    decreases n < 0
  {
    if n < 0 then -Round28(-n)
    else if Digits(n) <= 28 then n
    else
      var unit := Pow10(Digits(n) - 28);
      HalfEven(n, unit) * unit
  }

  lemma HalfEvenIsRounding(n: nat, d: nat)
    requires d > 0
    ensures RoundHalfEven(n as real / d as real) == HalfEven(n, d)
  {
    var q, r := n / d, n % d;
    var x := n as real / d as real;
    assert n == q * d + r;
    FractionSplit(n, d, q, r);
    QuotientBetween(n, d);
    assert x.Floor == q;
    HalfOf(r, d);
  }

  lemma FractionSplit(n: nat, d: nat, q: nat, r: nat)
    requires d > 0 && n == q * d + r
    ensures n as real / d as real == q as real + r as real / d as real
  {
    ProductCast(q, d);
    var x, f := n as real / d as real, r as real / d as real;
    assert x * d as real == n as real && f * d as real == r as real;
    Distribute(q as real, f, d as real);
    SameProduct(x, q as real + f, d as real);
  }

  lemma HalfOf(r: nat, d: nat)
    requires d > 0
    ensures r as real / d as real < 0.5 <==> 2 * r < d
    ensures r as real / d as real == 0.5 <==> 2 * r == d
  {
    var f := r as real / d as real;
    assert f * d as real == r as real;
    ScaleOrder(0.5, f, d as real);
    ScaleOrder(f, 0.5, d as real);
  }

  /** Twice the sum bounds any rounding. */
  lemma Round28Bound(n: nat)
    ensures 0 <= Round28(n) <= 2 * n
  {
    hide Pow10;
    hide Digits;
    hide HalfEven;
    if Digits(n) <= 28 {
      RoundShort(n);
    } else {
      var e := Digits(n) - 28;
      RoundLong(n, e);
      UnitFits(n, e);
      HalfEvenBound(n, Pow10(e));
    }
  }

  lemma UnitFits(n: nat, e: nat)
    requires Digits(n) == 28 + e
    ensures Pow10(e) <= n
  {
    hide Pow10;
    hide Digits;
    DigitsBracket(n);
    NoDigits(n);
    Pow10Grows(e, 27 + e);
  }

  lemma HalfEvenBound(n: nat, d: nat)
    requires 0 < d <= n
    ensures 0 <= HalfEven(n, d) * d <= 2 * n
  {
    var q, r := n / d, n % d;
    assert n == q * d + r;
    assert (q + 1) * d == q * d + d;
  }

  function Magnitude(n: int): nat {
    if n < 0 then -n else n
  }

  /** Rounding a value known in units of 10^-s is rounding its integer. */
  lemma SigInUnits(x: real, s: nat, n: int, w: real)
    requires w == Pow10(s) as real && x * w == n as real && Digits(Magnitude(n)) <= 28 + s
    ensures Sig28(x) * w == Round28(n) as real
  {
    if n == 0 {
      ZeroFactor(x, w);
    } else if n > 0 {
      SigInUnitsPositive(x, s, n, w);
    } else {
      SigInUnitsNegative(x, s, n, w);
    }
    hide Pow10;
    hide Digits;
  }

  lemma SigInUnitsNegative(x: real, s: nat, n: int, w: real)
    requires n < 0 && w == Pow10(s) as real && x * w == n as real && Digits(-n) <= 28 + s
    ensures Sig28(x) * w == Round28(n) as real
  {
    hide *;
    NegatedUnits(x, w, n);
    SigInUnitsPositive(-x, s, -n, w);
    SigNegated(x);
    Negate(Sig28(x), w);
    RoundNegated(n);
  }

  lemma NegatedUnits(x: real, w: real, n: int)
    requires x * w == n as real
    ensures (-x) * w == (-n) as real
  {
    Negate(x, w);
  }

  lemma RoundNegated(n: int)
    ensures Round28(-n) == -Round28(n)
  {
  }

  lemma ZeroFactor(x: real, w: real)
    requires w >= 1.0 && x * w == 0.0
    ensures x == 0.0
  {
    SameProduct(x, 0.0, w);
  }

  lemma PositiveFactor(x: real, w: real)
    requires w >= 1.0 && x * w > 0.0
    ensures x > 0.0
  {
    PositiveScale(x, w);
  }

  lemma SigInUnitsPositive(x: real, s: nat, n: nat, w: real)
    requires n > 0 && w == Pow10(s) as real && x * w == n as real && Digits(n) <= 28 + s
    ensures Sig28(x) * w == Round28(n) as real
  {
    hide *;
    PositiveFactor(x, w);
    if Digits(n) <= 28 {
      AtMostTop28(n);
      SigExact(x, s, n);
      RoundShort(n);
    } else {
      SigLong(x, s, n, w, Digits(n) - 28);
      RoundLong(n, Digits(n) - 28);
    }
  }

  lemma RoundShort(n: nat)
    requires Digits(n) <= 28
    ensures Round28(n) == n
  {
  }

  lemma RoundLong(n: nat, e: nat)
    requires Digits(n) == 28 + e && e > 0
    ensures Round28(n) == HalfEven(n, Pow10(e)) * Pow10(e)
  {
    hide Pow10;
    hide Digits;
    hide HalfEven;
  }

  lemma AtMostTop28(n: nat)
    requires Digits(n) <= 28
    ensures n as real <= TOP
  {
    hide Pow10;
    hide Digits;
    DigitsBracket(n);
    Pow10Constants();
    Pow10Grows(Digits(n), 28);
  }

  lemma SigLong(x: real, s: nat, n: nat, w: real, e: nat)
    requires x > 0.0 && w == Pow10(s) as real && x * w == n as real && 0 < e <= s && Digits(n) == 28 + e
    ensures Sig28(x) * w == (HalfEven(n, Pow10(e)) * Pow10(e)) as real
  {
    hide *;
    var p, v := Pow10(e), Pow10(s - e) as real;
    var y := n as real / p as real;
    Pow10Sum(e, s - e);
    ProductCast(p, Pow10(s - e));
    UnitQuotient(x, n, p, v, w, y);
    LongInRange(n, e, y);
    SigScaled(x, s - e, v, y);
    HalfEvenIsRounding(n, p);
    ProductCast(HalfEven(n, p), p);
    BackToUnits(Sig28(x), p, v, w, HalfEven(n, p));
  }

  lemma UnitQuotient(x: real, n: nat, p: int, v: real, w: real, y: real)
    requires p > 0 && w == p as real * v && x * w == n as real && y == n as real / p as real
    ensures y == x * v
  {
    assert y * p as real == n as real;
    assert (x * v) * p as real == x * w;
    SameProduct(y, x * v, p as real);
  }

  lemma BackToUnits(sig: real, p: int, v: real, w: real, k: int)
    requires w == p as real * v && sig * v == k as real
    ensures sig * w == k as real * p as real
  {
    assert sig * w == (sig * v) * p as real;
  }

  lemma LongInRange(n: nat, e: nat, y: real)
    requires Digits(n) == 28 + e && y == n as real / Pow10(e) as real
    ensures BOTTOM <= y < TOP
  {
    hide Pow10;
    hide Digits;
    DigitsBracket(n);
    NoDigits(n);
    Pow10Constants();
    Pow10Sum(27, e);
    Pow10Sum(28, e);
    AtLeastPart(n, 1000000000000000000000000000, Pow10(e), y);
    BelowPart(n, 10000000000000000000000000000, Pow10(e), y);
  }

  lemma AtLeastPart(n: nat, a: nat, p: int, y: real)
    requires p > 0 && a * p <= n && y == n as real / p as real
    ensures a as real <= y
  {
    assert y * p as real == n as real;
    ProductCast(a, p);
    ScaleOrder(a as real, y, p as real);
  }

  lemma BelowPart(n: nat, a: nat, p: int, y: real)
    requires p > 0 && n < a * p && y == n as real / p as real
    ensures y < a as real
  {
    assert y * p as real == n as real;
    ProductCast(a, p);
    ScaleOrder(a as real, y, p as real);
  }

  /** n has at most 28 significant digits. */
  predicate Short(n: int) {
    var m := Magnitude(n);
    Digits(m) <= 28 || m % Pow10(Digits(m) - 28) == 0
  }

  /** Exactly those are left as they are. */
  lemma ShortIsKept(n: int)
    ensures Short(n) <==> Round28(n) == n
  {
    if n < 0 {
      KeptExactly(-n);
    } else {
      KeptExactly(n);
    }
    hide Digits;
    hide Pow10;
    hide HalfEven;
  }

  lemma KeptExactly(n: nat)
    ensures Round28(n) == n <==> Digits(n) <= 28 || n % Pow10(Digits(n) - 28) == 0
  {
    if Digits(n) > 28 {
      WholeUnits(n, Pow10(Digits(n) - 28));
    }
    hide Digits;
    hide Pow10;
    hide HalfEven;
  }

  lemma WholeUnits(n: nat, d: nat)
    requires d > 0
    ensures HalfEven(n, d) * d == n <==> n % d == 0
  {
    var q, r := n / d, n % d;
    assert n == q * d + r;
    assert (q + 1) * d == q * d + d;
  }

  /** A multiple of a power of ten by a number of at most 28 digits is short. */
  lemma TrailingZeros(m: nat, j: nat)
    requires m < Pow10(28)
    ensures Short(m * Pow10(j)) && Short(-(m * Pow10(j)))
  {
    var n := m * Pow10(j);
    DigitsAtMost(m, 28);
    if m == 0 {
      assert n == 0;
    } else {
      DigitsOfMultiple(m, j);
      if Digits(n) > 28 {
        DividesShorter(m, j, Digits(n) - 28);
      }
    }
    hide Digits;
    hide Pow10;
  }

  lemma {:induction false} DigitsOfMultiple(m: nat, j: nat)
    requires m > 0
    ensures m * Pow10(j) > 0 && Digits(m * Pow10(j)) == Digits(m) + j
  {
    hide Digits;
    if j > 0 {
      DigitsOfMultiple(m, j - 1);
      TenMultiple(m, Pow10(j), Pow10(j - 1));
      DigitsOfTen(m * Pow10(j - 1));
    } else {
      assert m * Pow10(0) == m;
    }
  }

  lemma TenMultiple(m: nat, w: nat, v: nat)
    requires w == 10 * v
    ensures m * w == 10 * (m * v)
  {
  }

  lemma DigitsOfTen(n: nat)
    requires n > 0
    ensures Digits(10 * n) == Digits(n) + 1
  {
  }

  lemma DividesShorter(m: nat, j: nat, e: nat)
    requires e <= j
    ensures (m * Pow10(j)) % Pow10(e) == 0
  {
    hide Pow10;
    Pow10Sum(e, j - e);
    Factored(m, Pow10(j), Pow10(e), Pow10(j - e));
  }

  lemma Factored(m: nat, w: nat, a: nat, b: nat)
    requires a > 0 && w == a * b
    ensures (m * w) % a == 0
  {
    assert m * w == (m * b) * a;
    SameFloor(m * w, a, m * b, 0);
  }
}
