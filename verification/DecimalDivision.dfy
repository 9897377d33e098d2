/** Decimal division: exact to the last digit, ties rounded away from zero. */
module DecimalDivision {
  import opened Common
  import opened Values
  import opened SqlCompare

  datatype DivError = DivisionByZero | RescaleOverflow | NumeratorOverflow | ResultOverflow

  /** `div_i128_round_half_away`. */
  function RoundHalfAway(n: int, d: int): int
    requires d != 0
  {
    var quotient, remainder := TruncDiv(n, d), TruncMod(n, d);
    if 2 * Magnitude(remainder) >= Magnitude(d) then
      if (n < 0) == (d < 0) then quotient + 1 else quotient - 1
    else quotient
  }

  lemma NonZeroProduct(m: int, p: int)
    requires m != 0 && p > 0
    ensures m * p != 0
  {
  }

  function CheckedI128(x: int, e: DivError): Result<int, DivError> {
    if InI128(x) then Ok(x) else Err(e)
  }

  function RescaleMantissa(m: i64, from: Scale, to: Scale): Result<int, DivError>
    requires from <= to
  {
    CheckedI128(m * Pow10(to - from), RescaleOverflow)
  }

  function Max(a: Scale, b: Scale): Scale {
    if a < b then b else a
  }

  function Divide(a: Decimal, b: Decimal): Result<Decimal, DivError> {
    if b.mantissa == 0 then Err(DivisionByZero)
    else
      var s := Max(a.scale, b.scale);
      match RescaleMantissa(a.mantissa, a.scale, s)
      case Err(e) => Err(e)
      case Ok(x) =>
        match RescaleMantissa(b.mantissa, b.scale, s)
        case Err(e) => Err(e)
        case Ok(y) =>
          match CheckedI128(x * Pow10(s), NumeratorOverflow)
          case Err(e) => Err(e)
          case Ok(numerator) =>
            NonZeroProduct(b.mantissa, Pow10(s - b.scale));
            var m := RoundHalfAway(numerator, y);
            if InI64(m) then Ok(Decimal(m, s)) else Err(ResultOverflow)
  }

  // ---- rounding ---------------------------------------------------------------------------

  /** `m` is the integer nearest to n/d; halfway between two it is the one further from zero. */
  ghost predicate Nearest(n: int, d: int, m: int) {
    var off := Magnitude(n - m * d);
    2 * off <= Magnitude(d) && (2 * off == Magnitude(d) ==> Magnitude(m * d) > Magnitude(n))
  }

  lemma TruncParts(n: int, d: int)
    requires d != 0
    ensures n == TruncDiv(n, d) * d + TruncMod(n, d)
    ensures Magnitude(TruncMod(n, d)) < Magnitude(d)
    ensures TruncMod(n, d) == 0 || (TruncMod(n, d) < 0) == (n < 0)
  {
    var q, r := Magnitude(n) / Magnitude(d), Magnitude(n) % Magnitude(d);
    assert Magnitude(n) == q * Magnitude(d) + r;
    Signs(q, d);
  }

  lemma Signs(q: int, d: int)
    ensures (-q) * d == -(q * d) && q * (-d) == -(q * d) && (-q) * (-d) == q * d
  {
  }

  /** The rounded quotient of a division is the nearest integer, ties away from zero. */
  lemma RoundIsNearest(n: int, d: int)
    requires d != 0
    ensures Nearest(n, d, RoundHalfAway(n, d))
  {
    hide TruncDiv, TruncMod;
    var q, r, m := TruncDiv(n, d), TruncMod(n, d), RoundHalfAway(n, d);
    TruncParts(n, d);
    assert (q + 1) * d == q * d + d && (q - 1) * d == q * d - d;
    if m == q {
      assert n - m * d == r;
    } else if (n < 0) == (d < 0) {
      assert n - m * d == r - d;
    } else {
      assert n - m * d == r + d;
    }
  }

  /** There is only one such integer. */
  lemma NearestUnique(n: int, d: int, m: int, k: int)
    requires d != 0 && Nearest(n, d, m) && Nearest(n, d, k)
    ensures m == k
  {
    if m != k {
      var x, y := n - m * d, n - k * d;
      assert y - x == (m - k) * d;
      AtLeast(m - k, d);
      assert 2 * Magnitude(x) == Magnitude(d) && 2 * Magnitude(y) == Magnitude(d) && x == -y;
      Halfway(n, d, m * d, k * d);
    }
  }

  lemma AtLeast(j: int, d: int)
    requires j != 0
    ensures Magnitude(j * d) >= Magnitude(d)
  {
    if j > 0 {
      if d >= 0 { if d > 0 { NonNegative(j - 1, d); } } else { NonNegative(j - 1, -d); Signs(j, d); }
    } else {
      if d >= 0 { if d > 0 { NonNegative(-j - 1, d); } } else { NonNegative(-j - 1, -d); Signs(j, d); }
    }
  }

  lemma Halfway(n: int, d: int, u: int, v: int)
    requires d != 0 && n - u == -(n - v) && 2 * Magnitude(n - u) == Magnitude(d)
    requires exists m, k :: u == m * d && v == k * d
    ensures !(Magnitude(u) > Magnitude(n) && Magnitude(v) > Magnitude(n))
  {
    var m, k :| u == m * d && v == k * d;
    if Magnitude(u) > Magnitude(n) && Magnitude(v) > Magnitude(n) {
      // the two neighbours of n would lie on opposite sides of zero, both further from it than n
      assert u - v == (m - k) * d;
      OppositeSides(m, k, d);
    }
  }

  lemma OppositeSides(m: int, k: int, d: int)
    requires d != 0 && Magnitude(m * d - k * d) == Magnitude(d)
    ensures (m * d >= 0 && k * d >= 0) || (m * d <= 0 && k * d <= 0)
  {
    assert m * d - k * d == (m - k) * d;
    if m - k >= 2 || m - k <= -2 { Twice(m - k, d); }
    if m >= 0 && k >= 0 { SameSign(m, k, d); }
    if m <= 0 && k <= 0 { SameSign(-m, -k, d); Signs(m, d); Signs(k, d); }
  }

  lemma Twice(j: int, d: int)
    requires d != 0 && (j >= 2 || j <= -2)
    ensures Magnitude(j * d) > Magnitude(d)
  {
    if j >= 2 {
      if d > 0 { NonNegative(j - 2, d); } else { NonNegative(j - 2, -d); Signs(j, d); }
    } else {
      if d > 0 { NonNegative(-j - 2, d); } else { NonNegative(-j - 2, -d); Signs(j, d); }
    }
  }

  lemma SameSign(m: int, k: int, d: int)
    requires m >= 0 && k >= 0 && d != 0
    ensures (m * d >= 0 && k * d >= 0) || (m * d <= 0 && k * d <= 0)
  {
    if d > 0 {
      NonNegative(m, d);
      NonNegative(k, d);
    } else {
      NonNegative(m, -d);
      NonNegative(k, -d);
      Signs(m, d);
      Signs(k, d);
    }
  }

  // ---- division --------------------------------------------------------------------------------

  lemma MagnitudeProduct(x: int, k: int)
    requires k > 0
    ensures Magnitude(x * k) == Magnitude(x) * k
  {
    if x < 0 { Signs(-x, k); NonNegative(-x, k); } else { NonNegative(x, k); }
  }

  /** Scaling numerator and denominator alike changes nothing. */
  lemma NearestScales(n: int, d: int, m: int, k: int)
    requires k > 0
    ensures Nearest(n * k, d * k, m) <==> Nearest(n, d, m)
  {
    var off := n - m * d;
    Distribute(n, m * d, k);
    Regroup(m, d, k);
    MagnitudeProduct(off, k);
    MagnitudeProduct(d, k);
    MagnitudeProduct(n, k);
    MagnitudeProduct(m * d, k);
    Doubled(Magnitude(off), Magnitude(d), k);
    MulOrder(Magnitude(n), Magnitude(m * d), k);
  }

  lemma Distribute(x: int, y: int, k: int)
    ensures (x - y) * k == x * k - y * k
  {
  }

  lemma Doubled(x: int, y: int, k: int)
    requires k > 0
    ensures 2 * (x * k) <= y * k <==> 2 * x <= y
    ensures 2 * (x * k) == y * k <==> 2 * x == y
  {
    MulOrder(2 * x, y, k);
    MulOrder(y, 2 * x, k);
    assert (2 * x) * k == 2 * (x * k);
  }

  /** The exact quotient of two decimals, times ten to the `s`, as a fraction. */
  ghost function QuotientNumerator(a: Decimal, b: Decimal, s: Scale): int {
    a.mantissa * Pow10(b.scale) * Pow10(s)
  }

  ghost function QuotientDenominator(a: Decimal, b: Decimal): int {
    b.mantissa * Pow10(a.scale)
  }

  /** The fraction the code divides is the exact quotient, reduced by a power of ten. */
  lemma SameFraction(a: Decimal, b: Decimal, s: Scale, k: nat)
    requires s == Max(a.scale, b.scale) && k == a.scale + b.scale - s
    ensures a.mantissa * Pow10(s - a.scale) * Pow10(s) * Pow10(k) == QuotientNumerator(a, b, s)
    ensures b.mantissa * Pow10(s - b.scale) * Pow10(k) == QuotientDenominator(a, b)
  {
    hide Pow10;
    Pow10Add(s - a.scale, k);
    Pow10Add(s - b.scale, k);
    Regroup(a.mantissa, Pow10(s - a.scale), Pow10(k));
    Regroup(b.mantissa, Pow10(s - b.scale), Pow10(k));
    Swap(a.mantissa * Pow10(s - a.scale), Pow10(s), Pow10(k));
  }

  lemma Swap(x: int, y: int, z: int)
    ensures x * y * z == x * z * y
  {
  }

  /** The numerator and denominator `Divide` forms. */
  ghost function Top(a: Decimal, b: Decimal): int {
    var s := Max(a.scale, b.scale);
    a.mantissa * Pow10(s - a.scale) * Pow10(s)
  }

  ghost function Bottom(a: Decimal, b: Decimal): int {
    b.mantissa * Pow10(Max(a.scale, b.scale) - b.scale)
  }

  /** What division returns in every case; rescaling never overflows. */
  lemma DivideCases(a: Decimal, b: Decimal)
    ensures Divide(a, b) == Err(DivisionByZero) <==> b.mantissa == 0
    ensures Divide(a, b) != Err(RescaleOverflow)
    ensures b.mantissa != 0 ==> Bottom(a, b) != 0
    ensures b.mantissa != 0 ==> (Divide(a, b) == Err(NumeratorOverflow) <==> !InI128(Top(a, b)))
    ensures b.mantissa != 0 && InI128(Top(a, b)) ==>
              var m := RoundHalfAway(Top(a, b), Bottom(a, b));
              Divide(a, b) == if InI64(m) then Ok(Decimal(m, Max(a.scale, b.scale))) else Err(ResultOverflow)
  {
    hide Pow10, RoundHalfAway;
    var s := Max(a.scale, b.scale);
    ProductsFit(a.mantissa, s - a.scale);
    ProductsFit(b.mantissa, s - b.scale);
    if b.mantissa != 0 { NonZeroProduct(b.mantissa, Pow10(s - b.scale)); }
  }

  /** Whenever division succeeds its mantissa is the exact quotient at the larger scale, rounded to nearest with
      ties away from zero. */
  lemma DivideExact(a: Decimal, b: Decimal)
    requires Divide(a, b).Ok?
    ensures var r := Divide(a, b).value;
      && r.scale == Max(a.scale, b.scale) && QuotientDenominator(a, b) != 0
      && Nearest(QuotientNumerator(a, b, r.scale), QuotientDenominator(a, b), r.mantissa)
  {
    hide Pow10, RoundHalfAway, Nearest, Divide, QuotientNumerator, QuotientDenominator;
    DivideCases(a, b);
    var s := Max(a.scale, b.scale);
    var k := a.scale + b.scale - s;
    RoundIsNearest(Top(a, b), Bottom(a, b));
    SameFraction(a, b, s, k);
    NearestScales(Top(a, b), Bottom(a, b), Divide(a, b).value.mantissa, Pow10(k));
    NonZeroProduct(Bottom(a, b), Pow10(k));
  }

  // ---- intermediate values -----------------------------------------------------------------------

  /** The least 128-bit integer is never a numerator: at scale 0 numerators have 64 bits, and at any other scale
      they are multiples of ten. */
  lemma TopNotLeast(a: Decimal, b: Decimal)
    ensures Top(a, b) != -0x8000_0000_0000_0000_0000_0000_0000_0000
  {
    hide Pow10;
    var s := Max(a.scale, b.scale);
    if s == 0 {
      Pow10Zero();
    } else {
      TimesPow10(a.mantissa * Pow10(s - a.scale), s);
    }
  }

  lemma Pow10Zero()
    ensures Pow10(0) == 1
  {
  }

  /** Truncated quotient, doubled remainder and bumped quotient all stay in 128 bits. */
  lemma IntermediatesFit(a: Decimal, b: Decimal)
    requires b.mantissa != 0 && InI128(Top(a, b))
    ensures var n, d := Top(a, b), Bottom(a, b);
      && d != 0 && InI128(d) && InI128(TruncDiv(n, d)) && InI128(2 * Magnitude(TruncMod(n, d)))
      && InI128(RoundHalfAway(n, d))
  {
    hide Pow10;
    var n, d, s := Top(a, b), Bottom(a, b), Max(a.scale, b.scale);
    NonZeroProduct(b.mantissa, Pow10(s - b.scale));
    TopNotLeast(a, b);
    BottomSmall(a, b);
    TruncSmall(n, d);
  }

  lemma BottomSmall(a: Decimal, b: Decimal)
    ensures Magnitude(Bottom(a, b)) <= 9_223_372_036_854_775_808_000_000_000_000_000_000
  {
    hide Pow10;
    var k := Max(a.scale, b.scale) - b.scale;
    Pow10Monotone(k, 18);
    Pow10Eighteen();
    MantissaTimes(b.mantissa, Pow10(k));
  }

  lemma MantissaTimes(m: i64, p: int)
    requires 0 < p <= 1_000_000_000_000_000_000
    ensures Magnitude(m * p) <= 9_223_372_036_854_775_808_000_000_000_000_000_000
  {
    MagnitudeProduct(m, p);
    NonNegative(0x8000_0000_0000_0000 - Magnitude(m), p);
    Distribute(0x8000_0000_0000_0000, Magnitude(m), p);
  }

  lemma HalfQuotient(x: nat, p: nat)
    requires p > 0
    ensures x / p <= x && (p > 1 ==> 2 * (x / p) <= x) && (p == 1 ==> x % p == 0)
  {
    var q := x / p;
    assert x == q * p + x % p;
    if q > 0 && p > 2 { NonNegative(q, p - 2); Distribute(p, 2, q); }
  }

  lemma TruncSmall(n: int, d: int)
    requires d != 0 && Magnitude(n) < 0x8000_0000_0000_0000_0000_0000_0000_0000
    requires Magnitude(d) <= 9_223_372_036_854_775_808_000_000_000_000_000_000
    ensures InI128(TruncDiv(n, d)) && InI128(2 * Magnitude(TruncMod(n, d))) && InI128(RoundHalfAway(n, d))
  {
    HalfQuotient(Magnitude(n), Magnitude(d));
  }

  // ---- averages ------------------------------------------------------------------------------

  /** The average of `c` decimals, rounded at their own scale, is their sum divided by their number. */
  lemma AverageIsDivision(sum: Decimal, c: i64)
    requires c > 0
    ensures Divide(sum, Decimal(c, 0)) == Ok(Decimal(Average(sum.mantissa, c), sum.scale))
  {
    var b := Decimal(c, 0);
    DivideCases(sum, b);
    TopFits(sum, c);
    var m, p := RoundHalfAway(Top(sum, b), Bottom(sum, b)), Pow10(sum.scale);
    RoundIsNearest(Top(sum, b), Bottom(sum, b));
    assert Top(sum, b) == sum.mantissa * p && Bottom(sum, b) == c * p;
    NearestScales(sum.mantissa, c, m, p);
    RoundIsNearest(sum.mantissa, c);
    NearestUnique(sum.mantissa, c, m, RoundHalfAway(sum.mantissa, c));
  }

  /** Rounding a sum over a positive number of rows keeps it within 64 bits. */
  function Average(total: i64, c: nat): i64
    requires c > 0
  {
    AverageFits(total, c);
    RoundHalfAway(total, c)
  }

  lemma AverageFits(n: i64, c: nat)
    requires c > 0
    ensures InI64(RoundHalfAway(n, c))
  {
  }

  lemma TopFits(sum: Decimal, c: i64)
    requires c > 0
    ensures InI128(Top(sum, Decimal(c, 0)))
  {
    ProductsFit(sum.mantissa, sum.scale);
  }
}
