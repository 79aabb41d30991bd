/**
  Decimal arithmetic as the execution modules use it.

  Prices and quantities are exact `real` values; money is a whole number of
  1/10000 units (`Money`), the scale of every cash and value column.  Two roundings
  occur: `RoundHalfEven`, which is what `quantize` does at a fixed scale, and `Sig28`,
  which is what the default decimal context does to a quotient.
*/
module Decimals {
  type Money = int

  const TOP: real := 10000000000000000000000000000.0
  const BOTTOM: real := 1000000000000000000000000000.0

  /** The nearest integer; of two nearest, the even one. */
  function RoundHalfEven(x: real): (k: int)
    ensures -0.5 <= k as real - x <= 0.5
    ensures (k as real - x == 0.5 || k as real - x == -0.5) ==> k % 2 == 0
  {
    var f := x.Floor;
    var rest := x - f as real;
    if rest < 0.5 || (rest == 0.5 && f % 2 == 0) then f else f + 1
  }

  /** `quantize(0.0001)` of an exact value. */
  function ToMoney(x: real): Money {
    RoundHalfEven(x * 10000.0)
  }

  /** The exact value of an amount of money. */
  function Dollars(m: Money): real {
    m as real / 10000.0
  }

  /** The value of a holding, rounded as an order value or a market value is. */
  function Worth(quantity: real, price: real): Money {
    ToMoney(quantity * price)
  }

  /** `quantize(0.00000001)`, in units of that size. */
  function ToTick8(x: real): int {
    RoundHalfEven(x * 100000000.0)
  }

  lemma RoundMonotone(x: real, y: real)
    requires x <= y
    ensures RoundHalfEven(x) <= RoundHalfEven(y)
  {
    // A later rounding could only be smaller at a shared tie, where both are even.
  }

  lemma RoundExact(k: int)
    ensures RoundHalfEven(k as real) == k
  {
  }

  lemma ScaleMonotone(x: real, y: real, s: real)
    requires s >= 0.0 && x <= y
    ensures x * s <= y * s
  {
  }

  lemma Distribute(x: real, y: real, s: real)
    ensures (x + y) * s == x * s + y * s
    ensures (x - y) * s == x * s - y * s
  {
  }

  lemma DivideMonotone(x: real, y: real, s: real)
    requires s > 0.0 && x <= y
    ensures x / s <= y / s
  {
    var a, b := x / s, y / s;
    assert a * s == x && b * s == y && (b - a) * s >= 0.0;
  }

  lemma SameProduct(x: real, y: real, s: real)
    requires s > 0.0 && x * s == y * s
    ensures x == y
  {
    assert (x - y) * s == 0.0;
  }

  lemma WorthMonotone(q: real, q': real, price: real)
    requires price >= 0.0 && q <= q'
    ensures Worth(q, price) <= Worth(q', price)
  {
    hide RoundHalfEven;
    var x, y := q * price, q' * price;
    ScaleMonotone(q, q', price);
    RoundMonotone(x * 10000.0, y * 10000.0);
  }

  // ---------- 28 significant digits ----------

  function Sig28(x: real): real
    decreases x < 0.0, Decades(x)
  {
    if x == 0.0 then 0.0
    else if x < 0.0 then -Sig28(-x)
    else if x >= TOP then DecadesDown(x); 10.0 * Sig28(x / 10.0)
    else if x < BOTTOM then DecadesUp(x); Sig28(x * 10.0) / 10.0
    else RoundHalfEven(x) as real
  }

  /** `a * b`, `a + b` and `a - b` in the default decimal context. */
  function Mul(a: real, b: real): real {
    Sig28(a * b)
  }

  function Add(a: real, b: real): real {
    Sig28(a + b)
  }

  function Sub(a: real, b: real): real {
    Sig28(a - b)
  }

  /** `a / b` in the default decimal context. */
  function Div(a: real, b: real): real
    requires b != 0.0
  {
    Sig28(a / b)
  }

  /** How far x is from having 28 integer digits; a termination measure. */
  function Decades(x: real): nat {
    if x <= 0.0 then 0
    else if x >= TOP then x.Floor
    else if x < BOTTOM then (BOTTOM / x).Floor
    else 0
  }

  lemma DecadesDown(x: real)
    requires x >= TOP
    ensures Decades(x / 10.0) < Decades(x)
  {
    var y := x / 10.0;
    assert y * 10.0 == x;
    assert y.Floor < x.Floor;
  }

  lemma DecadesUp(x: real)
    requires 0.0 < x < BOTTOM
    ensures Decades(x * 10.0) < Decades(x)
  {
    var y, z := BOTTOM / x, BOTTOM / (x * 10.0);
    assert y * x == BOTTOM;
    assert z * (x * 10.0) == (z * 10.0) * x == BOTTOM;
    assert y == z * 10.0;
    assert y >= 1.0;
    assert z.Floor < y.Floor;
  }

  lemma {:induction false} SigBounds(x: real)
    requires x > 0.0
    ensures Sig28(x) >= 0.0
    ensures x < TOP ==> Sig28(x) <= TOP
    ensures x < BOTTOM ==> Sig28(x) <= BOTTOM
    ensures x >= BOTTOM ==> Sig28(x) >= BOTTOM
    ensures x >= TOP ==> Sig28(x) >= TOP
    decreases Decades(x)
  {
    if x >= TOP {
      DecadesDown(x);
      SigBounds(x / 10.0);
    } else if x < BOTTOM {
      DecadesUp(x);
      SigBounds(x * 10.0);
    }
  }

  lemma {:induction false} SigMonotonePositive(x: real, y: real)
    requires 0.0 < x <= y
    ensures Sig28(x) <= Sig28(y)
    decreases Decades(x) + Decades(y)
  {
    SigBounds(x);
    SigBounds(y);
    if x >= TOP {
      DecadesDown(x);
      DecadesDown(y);
      SigMonotonePositive(x / 10.0, y / 10.0);
    } else if y < BOTTOM {
      DecadesUp(x);
      DecadesUp(y);
      SigMonotonePositive(x * 10.0, y * 10.0);
    } else if BOTTOM <= x && y < TOP {
      RoundMonotone(x, y);
    }
  }

  /** Rounding to 28 digits never reverses an order. */
  lemma SigMonotone(x: real, y: real)
    requires x <= y
    ensures Sig28(x) <= Sig28(y)
  {
    if x > 0.0 {
      SigMonotonePositive(x, y);
    } else {
      if y > 0.0 { SigBounds(y); }
      if x < 0.0 {
        SigBounds(-x);
        if y < 0.0 { SigMonotonePositive(-y, -x); }
      }
    }
  }

  /** Half a unit of the 28th digit, relative to the value. */
  const SIG_ERROR: real := 0.0000000000000000000000000005

  /** Rounding to 28 digits moves a value by no more than half a unit of its 28th digit. */
  lemma {:induction false} SigErrorPositive(x: real)
    requires x > 0.0
    ensures x - x * SIG_ERROR <= Sig28(x) <= x + x * SIG_ERROR
    decreases Decades(x)
  {
    if x >= TOP {
      DecadesDown(x);
      SigErrorPositive(x / 10.0);
    } else if x < BOTTOM {
      DecadesUp(x);
      SigErrorPositive(x * 10.0);
    }
  }

  lemma SigError(x: real)
    ensures -(if x < 0.0 then -x else x) * SIG_ERROR <= Sig28(x) - x <= (if x < 0.0 then -x else x) * SIG_ERROR
  {
    if x > 0.0 {
      SigErrorPositive(x);
    } else if x < 0.0 {
      SigErrorPositive(-x);
    }
  }

  /** k units of 1e-8 are x to within the two roundings: half a unit, and half a unit of the 28th digit. */
  predicate NearTicks(k: int, x: real) {
    var slack := 0.5 + (if x < 0.0 then -x else x) * 100000000.0 * SIG_ERROR;
    x * 100000000.0 - slack <= k as real <= x * 100000000.0 + slack
  }

  lemma TicksNear(x: real)
    ensures NearTicks(ToTick8(Sig28(x)), x)
  {
    SigError(x);
    hide Sig28;
  }

  function Pow10(j: nat): (p: int)
    ensures p >= 1
  {
    if j == 0 then 1 else 10 * Pow10(j - 1)
  }

  lemma {:induction false} SigExactPositive(x: real, j: nat, k: int)
    requires x > 0.0 && x * Pow10(j) as real == k as real <= TOP
    ensures Sig28(x) == x
    decreases Decades(x)
  {
    if x < BOTTOM {
      DecadesUp(x);
      if j == 0 {
        SigExactPositive(x * 10.0, 0, 10 * k);
      } else {
        MoveTen(x, Pow10(j) as real, Pow10(j - 1) as real);
        SigExactPositive(x * 10.0, j - 1, k);
      }
    } else {
      var i := WholeWhenLarge(x, j, k);
      RoundExact(i);
      if x >= TOP {
        DecadesDown(x);
        RoundExact(1000000000000000000000000000);
      }
    }
  }

  lemma MoveTen(x: real, w: real, v: real)
    requires w == 10.0 * v
    ensures (x * 10.0) * v == x * w
  {
  }

  lemma WholeWhenLarge(x: real, j: nat, k: int) returns (i: int)
    requires x >= BOTTOM && x * Pow10(j) as real == k as real <= TOP
    ensures x == i as real && (x >= TOP ==> x == TOP)
  {
    if j > 0 {
      assert Pow10(j) >= 10;
      ScaleMonotone(10.0, Pow10(j) as real, x);
      i := 1000000000000000000000000000;
    } else {
      i := k;
    }
  }

  /** A value with at most 28 significant digits, k at j places, is its own rounding. */
  lemma SigExact(x: real, j: nat, k: int)
    requires x * Pow10(j) as real == k as real && -TOP <= k as real <= TOP
    ensures Sig28(x) == x
  {
    if x > 0.0 {
      SigExactPositive(x, j, k);
    } else if x < 0.0 {
      Negate(x, Pow10(j) as real);
      SigExactPositive(-x, j, -k);
    }
  }

  lemma SigNegated(x: real)
    ensures Sig28(-x) == -Sig28(x)
  {
  }

  lemma SigTen(x: real)
    requires x > 0.0
    ensures Sig28(10.0 * x) == 10.0 * Sig28(x)
  {
    if x < BOTTOM {
      DecadesUp(x);
    } else {
      DecadesDown(10.0 * x);
    }
  }

  /** Rounding is idempotent: a result of the context has at most 28 digits. */
  lemma {:induction false} SigIdempotent(x: real)
    ensures Sig28(Sig28(x)) == Sig28(x)
    decreases x < 0.0, Decades(x)
  {
    if x < 0.0 {
      SigIdempotent(-x);
      SigBounds(-x);
    } else if x > 0.0 {
      SigIdempotentPositive(x);
    }
  }

  lemma {:induction false} SigIdempotentPositive(x: real)
    requires x > 0.0
    ensures Sig28(x) > 0.0 && Sig28(Sig28(x)) == Sig28(x)
    decreases Decades(x)
  {
    if x >= TOP {
      DecadesDown(x);
      SigIdempotentPositive(x / 10.0);
      SigTen(Sig28(x / 10.0));
    } else if x < BOTTOM {
      DecadesUp(x);
      SigIdempotentPositive(x * 10.0);
      SigTen(Sig28(x * 10.0) / 10.0);
    } else {
      SigInRangeExact(RoundHalfEven(x));
      RoundMonotone(BOTTOM, x);
      RoundMonotone(x, TOP);
      RoundExact(1000000000000000000000000000);
      RoundExact(10000000000000000000000000000);
    }
  }

  lemma SigInRangeExact(k: int)
    ensures 1000000000000000000000000000 <= k <= 10000000000000000000000000000 ==> Sig28(k as real) == k as real
  {
    assert Pow10(0) == 1;
    if -10000000000000000000000000000 <= k <= 10000000000000000000000000000 {
      SigExact(k as real, 0, k);
    }
  }

  lemma Negate(x: real, s: real)
    ensures (-x) * s == -(x * s)
  {
  }

  // ---------- Flooring a rounded quotient ----------

  /** The number of decimal digits of a nonnegative integer; 0 has none. */
  function Digits(m: nat): nat {
    if m == 0 then 0 else 1 + Digits(m / 10)
  }

  lemma {:induction false} DigitsBracket(m: nat)
    ensures m < Pow10(Digits(m))
    ensures m > 0 ==> Pow10(Digits(m) - 1) <= m
  {
    if m >= 10 {
      DigitsBracket(m / 10);
    }
  }

  lemma {:induction false} DigitsAtMost(m: nat, d: nat)
    requires m < Pow10(d)
    ensures Digits(m) <= d
  {
    if m > 0 {
      DigitsAtMost(m / 10, d - 1);
    }
  }

  lemma DigitsFrom(m: nat, d: nat)
    requires d > 0 && Pow10(d - 1) <= m < Pow10(d)
    ensures Digits(m) == d
  {
    DigitsAtMost(m, d);
    DigitsBracket(m);
    hide Digits;
    if Digits(m) < d {
      Pow10Grows(Digits(m), d - 1);
    }
  }

  lemma {:induction false} Pow10Grows(a: nat, b: nat)
    requires a <= b
    ensures Pow10(a) <= Pow10(b)
  {
    if a < b {
      Pow10Grows(a, b - 1);
    }
  }

  lemma {:induction false} Pow10Sum(a: nat, b: nat)
    ensures Pow10(a) * Pow10(b) == Pow10(a + b)
  {
    if a > 0 {
      Pow10Sum(a - 1, b);
      assert Pow10(a) * Pow10(b) == 10 * (Pow10(a - 1) * Pow10(b));
    }
  }

  lemma Pow10Constants()
    ensures Pow10(0) == 1 && Pow10(4) == 10000 && Pow10(8) == 100000000
    ensures Pow10(27) == 1000000000000000000000000000 && Pow10(28) == 10000000000000000000000000000
    ensures Pow10(27) as real == BOTTOM && Pow10(28) as real == TOP
  {
    assert Pow10(4) == 10000;
    assert Pow10(8) == 10000 * Pow10(4);
    assert Pow10(12) == 10000 * Pow10(8);
    assert Pow10(16) == 10000 * Pow10(12);
    assert Pow10(20) == 10000 * Pow10(16);
    assert Pow10(24) == 10000 * Pow10(20);
    assert Pow10(28) == 10000 * Pow10(24);
  }

  lemma SigStep(x: real)
    requires 0.0 < x < BOTTOM
    ensures Sig28(x) * 10.0 == Sig28(x * 10.0)
  {
    DecadesUp(x);
  }

  /** The 28-digit rounding of x, seen at the scale where x has 28 integer digits. */
  lemma {:induction false} SigScaled(x: real, j: nat, w: real, y: real)
    requires x > 0.0 && w == Pow10(j) as real && y == x * w && BOTTOM <= y < TOP
    ensures Sig28(x) * w == RoundHalfEven(y) as real
    decreases j
  {
    hide RoundHalfEven;
    hide Sig28;
    if j == 0 {
      SigInRange(x, y);
    } else {
      var v := PowStep(j);
      hide Pow10;
      TenTimes(x, w, v, y);
      SigScaled(x * 10.0, j - 1, v, y);
      SigStepScaled(x, w, v);
    }
  }

  lemma SigInRange(x: real, y: real)
    requires x * 1.0 == y && BOTTOM <= y < TOP
    ensures Sig28(x) * 1.0 == RoundHalfEven(y) as real
  {
    hide RoundHalfEven;
  }

  lemma SigStepScaled(x: real, w: real, v: real)
    requires 0.0 < x < BOTTOM && w == 10.0 * v
    ensures Sig28(x) * w == Sig28(x * 10.0) * v
  {
    SigStep(x);
    hide Sig28;
    TenScaled(Sig28(x), Sig28(x * 10.0), w, v);
  }

  lemma TenScaled(a: real, b: real, w: real, v: real)
    requires a * 10.0 == b && w == 10.0 * v
    ensures a * w == b * v
  {
    MoveTen(a, w, v);
  }

  lemma PowStep(j: nat) returns (v: real)
    requires j > 0
    ensures v == Pow10(j - 1) as real >= 1.0 && Pow10(j) as real == 10.0 * v
  {
    v := Pow10(j - 1) as real;
  }

  lemma TenTimes(x: real, w: real, v: real, y: real)
    requires x > 0.0 && v >= 1.0 && w == 10.0 * v && x * w == y < TOP
    ensures y == (x * 10.0) * v && 0.0 < x < BOTTOM
  {
    MoveTen(x, w, v);
    ScaleMonotone(1.0, v, x * 10.0);
  }

  lemma RoundReaches(y: real, k: int)
    requires k % 2 == 0
    ensures RoundHalfEven(y) >= k <==> y >= k as real - 0.5
  {
  }

  /**
    The one way 28 digits can lose a share: n / p lies so close under the next whole
    number that its last digit carries.
  */
  predicate Carries(n: nat, p: nat)
    requires p > 0 && Digits(n / p) <= 28
  {
    2 * ((p - n % p) * Pow10(28 - Digits(n / p))) <= p
  }

  /** The floor of the rounded quotient is the exact floor, except that it is one more exactly when n / p carries. */
  lemma FloorOfQuotientExactly(n: nat, p: nat)
    requires p > 0 && Digits(n / p) <= 27
    ensures Div(n as real, p as real).Floor == n / p + (if Carries(n, p) then 1 else 0)
  {
    hide Sig28;
    hide Pow10;
    hide Digits;
    var m, x := n / p, n as real / p as real;
    QuotientBetween(n, p);
    FloorNearby(m, x, Digits(m));
    Remainder(n, p);
    CarryDecided(n, p, m, p - n % p, x, Digits(m));
  }

  lemma Remainder(n: nat, p: nat)
    requires p > 0
    ensures n == (n / p + 1) * p - (p - n % p)
  {
  }

  lemma SameFloor(n: nat, p: nat, m: nat, r: nat)
    requires r < p && n == m * p + r
    ensures n / p == m && n % p == r
  {
    var d := n / p - m;
    assert d * p == r - n % p;
    assert d >= 1 ==> d * p >= p;
    assert d <= -1 ==> d * p + p <= 0;
  }

  lemma NoDigits(m: nat)
    ensures m == 0 <==> Digits(m) == 0
  {
  }

  /** The rounded quotient stays between the exact floor and the next whole number. */
  lemma FloorNearby(m: nat, x: real, d: nat)
    requires m as real <= x < (m + 1) as real && d == Digits(m) <= 27
    ensures m as real <= Sig28(x) <= (m + 1) as real
  {
    hide Sig28;
    AtMostTop(m, d);
    assert Pow10(0) == 1;
    SigExact(m as real, 0, m);
    SigExact((m + 1) as real, 0, m + 1);
    SigMonotone(m as real, x);
    SigMonotone(x, (m + 1) as real);
  }

  lemma AtMostTop(m: nat, d: nat)
    requires d == Digits(m) <= 27
    ensures (m + 1) as real <= TOP
  {
    hide Pow10;
    DigitsBracket(m);
    Pow10Sum(d, 28 - d);
    Pow10Constants();
    assert Pow10(d) * 1 <= Pow10(d) * Pow10(28 - d);
  }

  lemma ScaleOfFloor(m: nat, x: real, d: nat, u: int)
    requires m as real <= x < (m + 1) as real && d == Digits(m) <= 27 && u == Pow10(28 - d)
    ensures x * u as real < TOP
    ensures m > 0 ==> x * u as real >= BOTTOM
  {
    hide Pow10;
    DigitsBracket(m);
    NoDigits(m);
    Pow10Constants();
    Pow10Sum(d, 28 - d);
    BelowTop(x, Pow10(d), u);
    if m > 0 {
      Pow10Sum(d - 1, 28 - d);
      AboveBottom(x, Pow10(d - 1), u);
    }
  }

  lemma BelowTop(x: real, w: int, u: int)
    requires x < w as real && u > 0 && (w * u) as real == TOP
    ensures x * u as real < TOP
  {
    ProductCast(w, u);
    assert (w as real - x) * u as real > 0.0;
  }

  lemma AboveBottom(x: real, w: int, u: int)
    requires w as real <= x && u > 0 && (w * u) as real == BOTTOM
    ensures x * u as real >= BOTTOM
  {
    ProductCast(w, u);
    ScaleMonotone(w as real, x, u as real);
  }

  lemma CarryDecided(n: nat, p: nat, m: nat, r: nat, x: real, d: nat)
    requires p > 0 && d == Digits(m) <= 27 && n == (m + 1) * p - r && 0 < r <= p
    requires x == n as real / p as real && m as real <= x < (m + 1) as real
    ensures Sig28(x) >= (m + 1) as real <==> 2 * (r * Pow10(28 - d)) <= p
  {
    hide Pow10;
    hide Digits;
    hide Sig28;
    hide RoundHalfEven;
    var u := Pow10(28 - d);
    ScaleOfFloor(m, x, d, u);
    if x * u as real >= BOTTOM {
      LastDigitDecides(n, p, m + 1, r, x, 28 - d);
    } else {
      NoDigits(m);
      TooSmallToCarry(n, p, x);
      TimesAtLeast(1, u, r, r);
    }
  }

  lemma LastDigitDecides(n: nat, p: nat, next: nat, r: nat, x: real, j: nat)
    requires p > 0 && j > 0 && n == next * p - r && x == n as real / p as real
    requires BOTTOM <= x * Pow10(j) as real < TOP
    ensures Sig28(x) >= next as real <==> 2 * (r * Pow10(j)) <= p
  {
    hide Pow10;
    hide Sig28;
    hide RoundHalfEven;
    var u := Pow10(j);
    var y := x * u as real;
    TenEven(j);
    PositiveScale(x, u as real);
    SigScaled(x, j, u as real, y);
    ReachesNext(n, p, next, r, x, u, y, Sig28(x));
  }

  lemma PositiveScale(x: real, w: real)
    requires w > 0.0 && x * w > 0.0
    ensures x > 0.0
  {
    assert x == 0.0 ==> x * w == 0.0;
  }

  lemma ReachesNext(n: nat, p: nat, next: nat, r: nat, x: real, u: int, y: real, s: real)
    requires p > 0 && u > 0 && u % 2 == 0 && n == next * p - r && x == n as real / p as real
    requires y == x * u as real && s * u as real == RoundHalfEven(y) as real
    ensures s >= next as real <==> 2 * (r * u) <= p
  {
    hide RoundHalfEven;
    EvenTimes(next, u);
    var k := next * u;
    RoundReaches(y, k);
    AtLeastScaled(next, s, u, k);
    HalfUnit(n, p, next, r, x, u, y, k, r * u);
  }

  lemma AtLeastScaled(next: int, s: real, u: int, k: int)
    requires u > 0 && k == next * u
    ensures s >= next as real <==> s * u as real >= k as real
  {
    ProductCast(next, u);
    ScaleOrder(next as real, s, u as real);
  }

  lemma TenEven(j: nat)
    requires j > 0
    ensures Pow10(j) % 2 == 0
  {
    assert Pow10(j) == 2 * (5 * Pow10(j - 1));
  }

  lemma EvenTimes(a: int, u: int)
    requires u % 2 == 0
    ensures (a * u) % 2 == 0
  {
    assert a * u == 2 * (a * (u / 2));
  }

  lemma ScaleOrder(a: real, b: real, u: real)
    requires u > 0.0
    ensures a <= b <==> a * u <= b * u
  {
    if a <= b {
      ScaleMonotone(a, b, u);
    } else {
      assert (a - b) * u > 0.0;
    }
  }

  /** Being within half a unit of the next whole number, in integers. */
  lemma HalfUnit(n: nat, p: nat, next: nat, r: nat, x: real, u: int, y: real, k: int, c: int)
    requires p > 0 && u > 0 && x == n as real / p as real && n == next * p - r
    requires y == x * u as real && k == next * u && c == r * u
    ensures y >= k as real - 0.5 <==> 2 * c <= p
  {
    QuotientTimes(n, p, x, u, y);
    Regroup(n, next, u, p, r, k, c);
    HalfCompare(y, k, p, n * u, c);
  }

  lemma HalfCompare(y: real, k: int, p: nat, a: int, c: int)
    requires p > 0 && y * p as real == a as real && k * p - a == c
    ensures y >= k as real - 0.5 <==> 2 * c <= p
  {
    var z, w := k as real - 0.5, p as real;
    var lower := (k * p) as real - w / 2.0;
    HalfBelow(k, p, w);
    OrderOfProducts(z, y, w, lower, a as real);
    HalfLinear(lower, a, c, p);
  }

  lemma OrderOfProducts(a: real, b: real, u: real, x: real, y: real)
    requires u > 0.0 && x == a * u && y == b * u
    ensures a <= b <==> x <= y
  {
    ScaleOrder(a, b, u);
  }

  lemma HalfBelow(k: int, p: nat, w: real)
    requires w == p as real
    ensures (k as real - 0.5) * w == (k * p) as real - w / 2.0
  {
    ProductCast(k, p);
    Distribute(k as real, 0.5, w);
  }

  lemma HalfLinear(lower: real, a: int, c: int, p: nat)
    requires lower == (a + c) as real - p as real / 2.0
    ensures lower <= a as real <==> 2 * c <= p
  {
    assert (a + c) as real == a as real + c as real;
    assert 2 * c <= p <==> 2.0 * c as real <= p as real;
  }

  lemma QuotientTimes(n: nat, p: nat, x: real, u: int, y: real)
    requires p > 0 && x == n as real / p as real && y == x * u as real
    ensures y * p as real == (n * u) as real
  {
    assert x * p as real == n as real;
    ProductCast(n, u);
  }

  lemma Regroup(n: int, next: int, u: int, p: int, r: int, k: int, c: int)
    requires n == next * p - r && k == next * u && c == r * u
    ensures k * p - n * u == c
  {
    assert k * p == (next * p) * u == (n + r) * u == n * u + r * u;
  }

  lemma TooSmallToCarry(n: nat, p: nat, x: real)
    requires p > 0 && x == n as real / p as real && x * Pow10(28) as real < BOTTOM
    ensures Sig28(x) < 1.0 && 10 * n <= p
  {
    hide Sig28;
    Pow10Constants();
    assert x <= 0.1;
    SigMonotone(x, 0.1);
    assert Pow10(1) == 10 * Pow10(0);
    SigExact(0.1, 1, 1);
    hide Pow10;
    TenthOf(n, p, x);
  }

  lemma TenthOf(n: nat, p: nat, x: real)
    requires p > 0 && x == n as real / p as real && x <= 0.1
    ensures 10 * n <= p
  {
    assert x * p as real == n as real;
    ScaleMonotone(x, 0.1, p as real);
  }

  /** In particular never when the numerator is below 2 * 10^27. */
  lemma SmallNeverCarries(n: nat, p: nat)
    requires p > 0 && n < 2000000000000000000000000000 && Digits(n / p) <= 27
    ensures !Carries(n, p)
  {
    hide Pow10;
    hide Digits;
    Remainder(n, p);
    SmallRest(n, p, n / p, p - n % p, Digits(n / p));
  }

  lemma SmallRest(n: nat, p: nat, m: nat, r: nat, d: nat)
    requires n < 2000000000000000000000000000 && d == Digits(m) <= 27 && 0 < r <= p && n == (m + 1) * p - r
    ensures 2 * (r * Pow10(28 - d)) > p
  {
    hide Pow10;
    hide Digits;
    Pow10Constants();
    DigitsBracket(m);
    NoDigits(m);
    var u := Pow10(28 - d);
    TimesAtLeast(1, r, u, u);
    if m == 0 {
      TimesAtLeast(r, r, 1, u);
    } else if 2 * u <= p {
      Pow10Sum(d - 1, 28 - d);
      LongRest(n, p, m, u, Pow10(d - 1));
    }
  }

  lemma LongRest(n: nat, p: nat, m: nat, u: nat, v: nat)
    requires v <= m && 2 * u <= p && m * p <= n && v * u == 1000000000000000000000000000
    ensures n >= 2000000000000000000000000000
  {
    TimesAtLeast(v, m, 2 * u, p);
    Twice(v, u);
  }

  /** Nor when numerator and denominator together have no more than 27 digits. */
  lemma ShortNeverCarries(n: nat, p: nat)
    requires p > 0 && 10.0 * (n + p) as real <= TOP
    ensures Digits(n / p) <= 27 && !Carries(n, p)
  {
    hide Pow10;
    hide Digits;
    Pow10Constants();
    Remainder(n, p);
    TimesAtLeast(1, p, n / p, n / p);
    DigitsAtMost(n / p, 27);
    SmallNeverCarries(n, p);
  }

  lemma Twice(a: int, u: int)
    ensures a * (2 * u) == 2 * (a * u)
  {
  }

  lemma TimesAtLeast(a: nat, b: nat, c: nat, d: nat)
    requires a <= b && c <= d
    ensures a * c <= b * d
  {
    assert a * c <= b * c <= b * d;
  }

  lemma QuotientBetween(n: int, p: int)
    requires 0 <= n && 0 < p
    ensures 0 <= n / p
    ensures var q := n as real / p as real;
      (n / p) as real <= q < (n / p + 1) as real
  {
    Remainder(n, p);
    RealQuotient(n, p, n / p, p - n % p);
  }

  lemma RealQuotient(n: nat, p: nat, m: int, r: nat)
    requires 0 < r <= p && n == (m + 1) * p - r
    ensures m as real <= n as real / p as real < (m + 1) as real
  {
    var q := n as real / p as real;
    assert q * p as real == n as real;
    ProductCast(m, p);
    ProductCast(m + 1, p);
    assert m * p <= n < (m + 1) * p;
    ScaleOrder(m as real, q, p as real);
    ScaleOrder((m + 1) as real, q, p as real);
  }

  lemma ProductCast(a: int, b: int)
    ensures (a * b) as real == a as real * b as real
  {
  }
}
