/** Money arithmetic.  `round` is half-even rounding, given on fractions and on reals; the float
    products and quotients it is applied to are arguments, close to the true ones. */
module Money {
  import opened Options

  function Abs(x: int): nat {
    if x < 0 then -x else x
  }

  /** `round(n / d)`: to the nearest integer, ties to the even one. */
  function HalfEven(n: int, d: int): int
    requires d > 0
  {
    var q, r := n / d, n % d;
    if 2 * r < d || (2 * r == d && q % 2 == 0) then q else q + 1
  }

  /** `h` is nearest to `n / d`, and even on a tie; `dh` stands for the product of `d` and `h`. */
  predicate Nearest(n: int, d: int, h: int, dh: int) {
    2 * Abs(dh - n) <= d && (2 * Abs(dh - n) == d ==> h % 2 == 0)
  }

  lemma Parts(n: int, d: int)
    requires d > 0
    ensures n == d * (n / d) + n % d && 0 <= n % d < d && d * (n / d + 1) == d * (n / d) + d
  {
  }

  lemma HalfEvenIsNearest(n: int, d: int)
    requires d > 0
    ensures Nearest(n, d, HalfEven(n, d), d * HalfEven(n, d))
  {
    Parts(n, d);
    var q, r := n / d, n % d;
    var dq, dq1 := d * q, d * (q + 1);
    assert if 2 * r < d || (2 * r == d && q % 2 == 0) then Nearest(n, d, q, dq) else Nearest(n, d, q + 1, dq1);
  }

  lemma Gap(d: int, k: int, h: int)
    requires d > 0
    ensures k < h ==> d * k + d <= d * h
    ensures k + 1 < h ==> d * k + 2 * d <= d * h
  {
    assert d * h == d * k + d * (h - k);
    if k + 1 < h {
      Scale(d, 2, h - k);
    } else if k < h {
      Scale(d, 1, h - k);
    }
  }

  lemma Scale(d: int, a: int, b: int)
    requires d > 0 && a <= b
    ensures d * a <= d * b
  {
  }

  /** Rounding never turns two numbers round. */
  lemma NeverCrosses(n: int, m: int, d: int, h: int, dh: int, k: int, dk: int)
    requires n <= m && d > 0 && Nearest(n, d, h, dh) && Nearest(m, d, k, dk)
    requires (k < h ==> dk + d <= dh) && (k + 1 < h ==> dk + 2 * d <= dh)
    ensures h <= k
  {
  }

  /** The rounding is pinned down by two facts: it is at most half a unit off, and on a tie it
      is even. */
  lemma HalfEvenIff(n: int, d: int, h: int)
    requires d > 0
    ensures h == HalfEven(n, d) <==> 2 * Abs(d * h - n) <= d && (2 * Abs(d * h - n) == d ==> h % 2 == 0)
  {
    var k := HalfEven(n, d);
    HalfEvenIsNearest(n, d);
    Gap(d, k, h);
    Gap(d, h, k);
    var dh, dk := d * h, d * k;
    hide HalfEven;
    if Nearest(n, d, h, dh) {
      NeverCrosses(n, n, d, h, dh, k, dk);
      NeverCrosses(n, n, d, k, dk, h, dh);
    }
  }

  lemma HalfEvenMonotone(n: int, m: int, d: int)
    requires d > 0 && n <= m
    ensures HalfEven(n, d) <= HalfEven(m, d)
  {
    hide HalfEven, Nearest;
    var h, k := HalfEven(n, d), HalfEven(m, d);
    HalfEvenIsNearest(n, d);
    HalfEvenIsNearest(m, d);
    Gap(d, k, h);
    NeverCrosses(n, m, d, h, d * h, k, d * k);
  }

  /** `round(x)` of a number that need not be a fraction: the nearest integer, ties to even. */
  function RoundReal(x: real): int {
    var q := x.Floor;
    var r := x - q as real;
    if 2.0 * r < 1.0 || (2.0 * r == 1.0 && q % 2 == 0) then q else q + 1
  }

  lemma RoundRealIs(x: real, h: int)
    requires (h as real) - 0.5 < x < (h as real) + 0.5
    ensures RoundReal(x) == h
  {
  }

  /** A computed quotient that is less than half a unit of the numerator off rounds as the exact
      one does, unless the exact one is a tie; then it can only land on the other neighbour. */
  lemma CloseRoundsAlike(n: int, d: int, x: real)
    requires d > 0 && (n as real) - 0.5 < (d as real) * x < (n as real) + 0.5
    ensures 2 * (n % d) != d ==> RoundReal(x) == HalfEven(n, d)
    ensures 2 * (n % d) == d ==> RoundReal(x) == n / d || RoundReal(x) == n / d + 1
  {
    var q, r := n / d, n % d;
    Offset(n, d, x);
    var f, y, rest := d as real, x - q as real, r as real;
    var fy := f * y;
    if 2 * r < d {
      assert 2.0 * rest <= f - 1.0;
      UnderHalf(f, y, fy);
      RoundRealIs(x, q);
    } else if 2 * r > d {
      assert 2.0 * rest >= f + 1.0;
      assert f * (y - 1.0) == fy - f;
      UnderHalf(f, y - 1.0, fy - f);
      RoundRealIs(x, q + 1);
    } else {
      assert 2.0 * rest == f;
      InUnit(f, y, fy);
      RoundRealNear(x, q);
    }
  }

  lemma RoundRealNear(x: real, q: int)
    requires q as real < x < (q as real) + 1.0
    ensures RoundReal(x) == q || RoundReal(x) == q + 1
  {
  }

  lemma Offset(n: int, d: int, x: real)
    requires d > 0 && (n as real) - 0.5 < (d as real) * x < (n as real) + 0.5
    ensures var y, r := x - (n / d) as real, (n % d) as real;
            r - 0.5 < (d as real) * y < r + 0.5 && 0.0 <= r <= (d as real) - 1.0
    ensures HalfEven(n, d) == if 2 * (n % d) < d || (2 * (n % d) == d && n / d % 2 == 0) then n / d else n / d + 1
  {
    var q, r, f := n / d, n % d, d as real;
    assert n == d * q + r && 0 <= r < d;
    assert (d * q) as real == f * (q as real);
    var y := x - q as real;
    assert f * y == f * x - f * (q as real);
  }

  lemma UnderHalf(f: real, y: real, fy: real)
    requires f > 0.0 && fy == f * y && -f < 2.0 * fy < f
    ensures -0.5 < y < 0.5
  {
    assert y >= 0.5 ==> f * (y - 0.5) >= 0.0;
    assert y <= -0.5 ==> f * (y + 0.5) <= 0.0;
  }

  lemma InUnit(f: real, y: real, fy: real)
    requires f > 0.0 && fy == f * y && 0.0 < fy < f
    ensures 0.0 < y < 1.0
  {
    assert y >= 1.0 ==> f * (y - 1.0) >= 0.0;
    assert y <= 0.0 ==> f * y <= 0.0;
  }

  lemma RoundRealIsNear(x: real)
    ensures x - 0.5 <= RoundReal(x) as real <= x + 0.5
  {
  }

  lemma RoundRealMonotone(x: real, y: real)
    requires x <= y
    ensures RoundReal(x) <= RoundReal(y)
  {
    var h, k := RoundReal(x), RoundReal(y);
    RoundRealIsNear(x);
    RoundRealIsNear(y);
    assert x != y ==> (h as real) < (k as real) + 1.0;
  }

  // ---- The fee estimate ----

  function UpperChar(c: char): char {
    if 'a' <= c <= 'z' then c - 'a' + 'A' else c
  }

  function Upper(s: string): (r: string)
    ensures |r| == |s|
  {
    seq(|s|, i requires 0 <= i < |s| => UpperChar(s[i]))
  }

  function FixedFee(currency: string): nat {
    var c := Upper(currency);
    if c == "GBP" then 25 else if c == "KES" then 0 else 30
  }

  /** The float product of an amount and 0.039, however it rounds. */
  type Product = int -> real

  /** It is within 1/2000 of the true one. */
  predicate Close(times: Product, amount: int) {
    ((amount * 39) as real) - 0.5 < 1000.0 * times(amount) < ((amount * 39) as real) + 0.5
  }

  function PercentFee(times: Product, amount: int): int {
    RoundReal(times(amount))
  }

  function EstimateFee(times: Product, amount: int, currency: string): int {
    PercentFee(times, amount) + FixedFee(currency)
  }

  /** Off ties every close product rounds alike; ties are the amounts ending in 500, and there the
      float may fall on the other side. */
  lemma FloatFeeAgrees(times: Product, amount: int)
    requires Close(times, amount)
    ensures amount % 1000 != 500 ==> PercentFee(times, amount) == HalfEven(amount * 39, 1000)
    ensures amount % 1000 == 500 ==> Abs(PercentFee(times, amount) - HalfEven(amount * 39, 1000)) <= 1
  {
    CloseRoundsAlike(amount * 39, 1000, times(amount));
    if (amount * 39) % 1000 == 500 {
      TieMeans500(amount);
    }
  }

  lemma TieMeans500(amount: int)
    requires (amount * 39) % 1000 == 500
    ensures amount % 1000 == 500
  {
    var k := amount * 39 / 1000;
    assert amount * 39 == 1000 * k + 500;
    assert 359 * (amount * 39) == 1000 * (359 * k) + 179500;
    assert amount == 1000 * (359 * k + 179 - 14 * amount) + 500;
  }

  lemma PercentIsClose(times: Product, amount: int)
    requires Close(times, amount)
    ensures 2 * Abs(1000 * PercentFee(times, amount) - 39 * amount) <= 1000
  {
    RoundRealIsNear(times(amount));
    hide RoundReal;
    var p := PercentFee(times, amount);
    assert -500.5 < (1000 * p - 39 * amount) as real < 500.5;
  }

  /** A larger gift never has a smaller fee, and the percentage part is within half a minor
      unit of 3.9%. */
  lemma FeeIsMonotoneAndClose(times: Product, a: int, b: int, currency: string)
    requires a <= b && Close(times, a) && Close(times, b)
    ensures EstimateFee(times, a, currency) <= EstimateFee(times, b, currency)
    ensures 2 * Abs(1000 * (EstimateFee(times, a, currency) - FixedFee(currency)) - 39 * a) <= 1000
  {
    PercentIsClose(times, a);
    assert times(a) <= times(b) by {
      assert a < b ==> 39 * a + 39 <= 39 * b;
    }
    RoundRealMonotone(times(a), times(b));
    hide RoundReal;
  }

  /** Splitting a gift in two moves the total percentage fee by at most one minor unit. */
  lemma FeeIsNearlyAdditive(times: Product, a: int, b: int, currency: string)
    requires Close(times, a) && Close(times, b) && Close(times, a + b)
    ensures Abs(EstimateFee(times, a + b, currency) - EstimateFee(times, a, currency)
                - EstimateFee(times, b, currency) + FixedFee(currency)) <= 1
  {
    PercentIsClose(times, a);
    PercentIsClose(times, b);
    PercentIsClose(times, a + b);
    hide PercentFee, Close;
  }

  function Sum(parts: seq<int>): int {
    if parts == [] then 0 else parts[0] + Sum(parts[1..])
  }

  function SumFees(times: Product, parts: seq<int>, currency: string): int {
    if parts == [] then 0 else EstimateFee(times, parts[0], currency) + SumFees(times, parts[1..], currency)
  }

  function SumPercents(times: Product, parts: seq<int>): int {
    if parts == [] then 0 else PercentFee(times, parts[0]) + SumPercents(times, parts[1..])
  }

  lemma {:induction false} FixedPerPart(times: Product, parts: seq<int>, currency: string)
    ensures SumFees(times, parts, currency) == SumPercents(times, parts) + |parts| * FixedFee(currency)
  {
    hide PercentFee, FixedFee;
    if parts != [] {
      FixedPerPart(times, parts[1..], currency);
      assert |parts| * FixedFee(currency) == |parts[1..]| * FixedFee(currency) + FixedFee(currency);
    }
  }

  lemma {:induction false} PartsAreClose(times: Product, parts: seq<int>)
    requires forall i :: 0 <= i < |parts| ==> Close(times, parts[i])
    ensures Abs(1000 * SumPercents(times, parts) - 39 * Sum(parts)) <= 500 * |parts|
  {
    hide PercentFee, Close;
    if parts != [] {
      PartsAreClose(times, parts[1..]);
      PercentIsClose(times, parts[0]);
    }
  }

  /** Splitting a gift into n parts costs the fixed fee n times, and moves the rest of the fee by
      at most (n + 1) / 2 minor units. */
  lemma SplittingBound(times: Product, parts: seq<int>, currency: string)
    requires Close(times, Sum(parts)) && forall i :: 0 <= i < |parts| ==> Close(times, parts[i])
    ensures SumFees(times, parts, currency) == SumPercents(times, parts) + |parts| * FixedFee(currency)
    ensures EstimateFee(times, Sum(parts), currency) == PercentFee(times, Sum(parts)) + FixedFee(currency)
    ensures 2 * Abs(PercentFee(times, Sum(parts)) - SumPercents(times, parts)) <= |parts| + 1
  {
    FixedPerPart(times, parts, currency);
    PercentsAddUp(times, parts);
    hide Close, Sum, SumFees, PercentFee, SumPercents, Abs, FixedFee;
  }

  lemma PercentsAddUp(times: Product, parts: seq<int>)
    requires Close(times, Sum(parts)) && forall i :: 0 <= i < |parts| ==> Close(times, parts[i])
    ensures 2 * Abs(PercentFee(times, Sum(parts)) - SumPercents(times, parts)) <= |parts| + 1
  {
    PartsAreClose(times, parts);
    PercentIsClose(times, Sum(parts));
    hide Close, Sum, PercentFee, SumPercents;
    BothClose(PercentFee(times, Sum(parts)), SumPercents(times, parts), Sum(parts), |parts|);
  }

  lemma BothClose(whole: int, split: int, amount: int, n: nat)
    requires -500 <= 1000 * whole - 39 * amount <= 500
    requires -500 * n <= 1000 * split - 39 * amount <= 500 * n
    ensures -(n + 1) <= 2 * (whole - split) <= n + 1
  {
  }

  /** The currency code, in whatever mixture of cases. */
  predicate Spells(currency: string, upper: string, lower: string)
    requires |upper| == |lower|
  {
    |currency| == |upper| && forall i :: 0 <= i < |upper| ==> currency[i] == upper[i] || currency[i] == lower[i]
  }

  lemma UpperSpells(currency: string, upper: string, lower: string)
    requires |upper| == |lower|
    requires forall i :: 0 <= i < |upper| ==> 'A' <= upper[i] <= 'Z' && lower[i] as int == upper[i] as int + 32
    ensures Upper(currency) == upper <==> Spells(currency, upper, lower)
  {
    if Upper(currency) == upper {
      forall i | 0 <= i < |upper| ensures currency[i] == upper[i] || currency[i] == lower[i] {
        assert Upper(currency)[i] == upper[i];
      }
    }
  }

  /** 25 pence, nothing in shillings, 30 everywhere else. */
  lemma FixedFeeIs(currency: string)
    ensures FixedFee(currency)
            == if Spells(currency, "GBP", "gbp") then 25 else if Spells(currency, "KES", "kes") then 0 else 30
  {
    UpperSpells(currency, "GBP", "gbp");
    UpperSpells(currency, "KES", "kes");
    hide Upper, Spells;
  }

  /** The fee does not exceed the gift exactly from 31 minor units up in dollars (and in every
      currency without a listed fixed fee), from 26 in sterling, and from 0 in shillings. */
  lemma FeeWithinGiftIff(times: Product, amount: nat, currency: string)
    requires Close(times, amount)
    ensures EstimateFee(times, amount, currency) <= amount
            <==> amount >= (if Spells(currency, "GBP", "gbp") then 26
                            else if Spells(currency, "KES", "kes") then 0 else 31)
  {
    FixedFeeIs(currency);
    PercentIsClose(times, amount);
    hide PercentFee, Close, FixedFee, Spells;
  }

  // ---- Whole shillings ----

  function Shillings(amount: int): int {
    HalfEven(amount, 100)
  }

  /** Minor units gained (or, negative, lost) by rounding. */
  function RoundingError(amount: int): int {
    100 * Shillings(amount) - amount
  }

  /** Monotone, within 50 minor units, exact precisely on multiples of 100. */
  lemma ShillingsAreClose(a: int, b: int)
    requires a <= b
    ensures Shillings(a) <= Shillings(b)
    ensures Abs(RoundingError(a)) <= 50
    ensures RoundingError(a) == 0 <==> a % 100 == 0
  {
    HalfEvenMonotone(a, b, 100);
    HalfEvenIff(a, 100, Shillings(a));
  }

  /** A float quotient within 1/200 of `amount / 100`, and exact when that is a half, as IEEE
      division is, rounds to the same number of shillings. */
  lemma FloatShillingsAgree(amount: int, quotient: real)
    requires (amount as real) - 0.5 < 100.0 * quotient < (amount as real) + 0.5
    requires amount % 100 == 50 ==> 100.0 * quotient == amount as real
    ensures RoundReal(quotient) == Shillings(amount)
  {
    CloseRoundsAlike(amount, 100, quotient);
    if amount % 100 == 50 {
      assert quotient == (amount / 100) as real + 0.5;
    }
  }

  function ErrorSum(start: int, n: nat): int
    decreases n
  {
    if n == 0 then 0 else RoundingError(start) + ErrorSum(start + 1, n - 1)
  }

  lemma ErrorShapes(a: int)
    ensures RoundingError(a + 200) == RoundingError(a)
    ensures RoundingError(-a) == -RoundingError(a)
  {
    hide HalfEven;
    HalfEvenIff(a, 100, Shillings(a));
    HalfEvenIff(a + 200, 100, Shillings(a) + 2);
    HalfEvenIff(-a, 100, -Shillings(a));
  }

  lemma {:induction false} ErrorSumLast(start: int, n: nat)
    ensures ErrorSum(start, n + 1) == ErrorSum(start, n) + RoundingError(start + n)
    decreases n
  {
    hide RoundingError;
    if n > 0 {
      ErrorSumLast(start + 1, n - 1);
    }
  }

  lemma {:induction false} SymmetricSum(k: int)
    requires k >= 0
    ensures ErrorSum(-k, 2 * k + 1) == 0
  {
    hide RoundingError;
    ErrorShapes(k);
    if k > 0 {
      SymmetricSum(k - 1);
      ErrorSumLast(-k + 1, 2 * k - 1);
    } else {
      assert ErrorSum(1, 0) == 0;
    }
  }

  /** Over one period the sum does not depend on where it starts. */
  lemma {:induction false} SumIsShiftFree(start: int, base: int, n: nat)
    requires n > 0 && forall a :: RoundingError(a + n) == RoundingError(a)
    ensures ErrorSum(start, n) == ErrorSum(base, n)
    decreases Abs(start - base)
  {
    hide RoundingError;
    if start > base {
      SumIsShiftFree(start - 1, base, n);
      ErrorSumLast(start, n - 1);
      assert RoundingError(start - 1 + n) == RoundingError(start - 1);
    } else if start < base {
      SumIsShiftFree(start + 1, base, n);
      ErrorSumLast(start + 1, n - 1);
      assert RoundingError(start + n) == RoundingError(start);
    }
  }

  lemma PeriodCancels(start: int, k: int, n: nat)
    requires n == 2 * k + 2 == 200
    ensures ErrorSum(start, n) == 0
  {
    hide ErrorSum, RoundingError;
    forall a ensures RoundingError(a + n) == RoundingError(a) {
      ErrorShapes(a);
    }
    SumIsShiftFree(start, 0 - k, n);
    SymmetricSum(k);
    ErrorSumLast(0 - k, n - 1);
    ShillingsAreClose(k + 1, k + 1);
  }

  /** Half-even rounding is fair: over any 200 consecutive amounts the errors cancel. */
  lemma ErrorsCancel(start: int)
    ensures ErrorSum(start, 200) == 0
  {
    hide ErrorSum;
    PeriodCancels(start, 99, 200);
  }

  function TotalError(gifts: seq<int>): int {
    if gifts == [] then 0 else RoundingError(gifts[0]) + TotalError(gifts[1..])
  }

  lemma {:induction false} TotalErrorBound(gifts: seq<int>)
    ensures Abs(TotalError(gifts)) <= 50 * |gifts|
  {
    hide RoundingError;
    if gifts != [] {
      TotalErrorBound(gifts[1..]);
      ShillingsAreClose(gifts[0], gifts[0]);
    }
  }

  // ---- The amount as printed on a receipt ----

  function Digit(d: nat): char
    requires d < 10
  {
    '0' + d as char
  }

  predicate IsDigit(c: char) {
    '0' <= c <= '9'
  }

  function Decimal(n: nat): (s: string)
    ensures |s| > 0 && forall c :: c in s ==> IsDigit(c)
  {
    if n < 10 then [Digit(n)] else Decimal(n / 10) + [Digit(n % 10)]
  }

  /** `f"{amount_minor / 100:.2f}"` */
  function Render(amount: nat): string {
    Decimal(amount / 100) + "." + [Digit(amount % 100 / 10), Digit(amount % 10)]
  }

  function DigitValue(c: char): nat
    requires IsDigit(c)
  {
    c as int - '0' as int
  }

  function Value(s: string): nat
    requires forall c :: c in s ==> IsDigit(c)
  {
    if s == [] then 0
    else
      assert s[|s| - 1] in s && IsDigit(s[|s| - 1]);
      10 * Value(s[..|s| - 1]) + DigitValue(s[|s| - 1])
  }

  predicate WellPrinted(s: string) {
    && |s| >= 4 && s[|s| - 3] == '.'
    && (forall c :: c in s[..|s| - 3] ==> IsDigit(c)) && IsDigit(s[|s| - 2]) && IsDigit(s[|s| - 1])
  }

  function Parse(s: string): Option<nat> {
    if !WellPrinted(s) then None
    else Some(100 * Value(s[..|s| - 3]) + 10 * DigitValue(s[|s| - 2]) + DigitValue(s[|s| - 1]))
  }

  lemma {:induction false} ValueDecimal(n: nat)
    ensures Value(Decimal(n)) == n
  {
    if n >= 10 {
      ValueDecimal(n / 10);
      var front := Decimal(n / 10);
      assert (front + [Digit(n % 10)])[..|front|] == front;
    }
  }

  /** No number is printed with a needless zero in front. */
  lemma {:induction false} NoLeadingZero(n: nat)
    ensures Decimal(n)[0] == '0' <==> n == 0
    ensures n == 0 ==> Decimal(n) == "0"
  {
    if n >= 10 {
      NoLeadingZero(n / 10);
    }
  }

  /** What is printed reads back as the same number of minor units, and has two decimals and no
      needless zero in front. */
  lemma PrintedAmountRoundTrip(amount: nat)
    ensures Parse(Render(amount)) == Some(amount)
    ensures var s := Render(amount);
            |s| >= 4 && s[|s| - 3] == '.' && (s[0] == '0' <==> amount < 100) && (amount < 100 ==> |s| == 4)
  {
    var whole := Decimal(amount / 100);
    var s := Render(amount);
    assert s[..|s| - 3] == whole;
    ValueDecimal(amount / 100);
    NoLeadingZero(amount / 100);
    assert amount % 100 / 10 * 10 + amount % 10 == amount % 100;
  }

  /** `f"{x:.2f}"` of a number that need not be a whole count of hundredths. */
  function RenderReal(x: real): string
    requires 100.0 * x > -0.5
  {
    assert RoundReal(100.0 * x) >= 0;
    Render(RoundReal(100.0 * x))
  }

  /** A float quotient within half a hundredth of the true one prints, and so reads back, the
      same. */
  lemma FloatPrintRoundTrip(amount: nat, quotient: real)
    requires (amount as real) - 0.5 < 100.0 * quotient < (amount as real) + 0.5
    ensures Parse(RenderReal(quotient)) == Some(amount)
  {
    RoundRealIs(100.0 * quotient, amount);
    PrintedAmountRoundTrip(amount);
  }
}
