/** Days since 1970-01-01 and proleptic Gregorian dates. */
module CivilCalendar {
  import opened Common

  datatype Date = Date(year: int, month: int, day: int)

  // ---- the code -----------------------------------------------------------------------------

  /** `days_from_ymd`. */
  function DaysFromYmd(date: Date): int {
    var year := if date.month <= 2 then date.year - 1 else date.year;
    var era := TruncDiv(if year >= 0 then year else year - 399, 400);
    var yearOfEra := year - era * 400;
    var dayOfYear := (153 * (if date.month > 2 then date.month - 3 else date.month + 9) + 2) / 5 + date.day - 1;
    era * 146097 + YearStart(yearOfEra) + dayOfYear - 719468
  }

  /** The day of the era on which year `y` of the era starts. */
  function YearStart(y: int): int {
    365 * y + y / 4 - y / 100
  }

  /** Year of the era, from the day of the era. */
  function YearOf(dayOfEra: int): int {
    (dayOfEra - dayOfEra / 1460 + dayOfEra / 36524 - dayOfEra / 146096) / 365
  }

  function YmdIn(era: int, dayOfEra: int): Date {
    var yearOfEra := YearOf(dayOfEra);
    var year := yearOfEra + era * 400;
    var dayOfYear := dayOfEra - YearStart(yearOfEra);
    var monthPrime := (5 * dayOfYear + 2) / 153;
    var day := dayOfYear - (153 * monthPrime + 2) / 5 + 1;
    var month := if monthPrime < 10 then monthPrime + 3 else monthPrime - 9;
    Date(if month <= 2 then year + 1 else year, month, day)
  }

  /** `ymd_from_days`. */
  function YmdFromDays(n: int): Date {
    var days := n + 719468;
    var era := TruncDiv(if days >= 0 then days else days - 146096, 146097);
    YmdIn(era, days - era * 146097)
  }

  // ---- the calendar --------------------------------------------------------------------------

  predicate Leap(year: int) {
    year % 4 == 0 && (year % 100 != 0 || year % 400 == 0)
  }

  function MonthLength(year: int, month: int): int {
    if month == 2 then if Leap(year) then 29 else 28
    else if month == 4 || month == 6 || month == 9 || month == 11 then 30
    else 31
  }

  predicate Exists(date: Date) {
    1 <= date.month <= 12 && 1 <= date.day <= MonthLength(date.year, date.month)
  }

  function Next(date: Date): Date {
    if date.day < MonthLength(date.year, date.month) then date.(day := date.day + 1)
    else if date.month < 12 then Date(date.year, date.month + 1, 1)
    else Date(date.year + 1, 1, 1)
  }

  function Previous(date: Date): Date {
    if date.day > 1 then date.(day := date.day - 1)
    else if date.month > 1 then Date(date.year, date.month - 1, MonthLength(date.year, date.month - 1))
    else Date(date.year - 1, 12, 31)
  }

  // ---- years that start in March ----------------------------------------------------------------

  /** The code's rounding of years and days to eras is division rounding down. */
  lemma EraIsFloor(x: int, k: int)
    requires k == 400 || k == 146097
    ensures TruncDiv(if x >= 0 then x else x - (k - 1), k) == x / k
  {
  }

  /** A year of the era, split into centuries, leap cycles and years. */
  lemma YearOfSplit(cent: int, quad: int, yq: int, doy: int)
    requires 0 <= cent < 4 && 0 <= quad < 25 && 0 <= yq < 4 && 0 <= doy <= 365
    requires doy == 365 ==> yq == 3 && (quad < 24 || cent == 3)
    ensures var doe := 36524 * cent + 1461 * quad + 365 * yq + doy;
      0 <= doe < 146097 && YearOf(doe) == 100 * cent + 4 * quad + yq
  {
    var doe := 36524 * cent + 1461 * quad + 365 * yq + doy;
    assert doe / 36524 - doe / 146096 == cent;
    var r := 24 * cent + quad + 365 * yq + doy;
    assert doe == 1460 * (25 * cent + quad) + r;
    assert doe / 1460 == 25 * cent + quad + r / 1460;
  }

  lemma YearStartSplit(y: int)
    requires 0 <= y < 400
    ensures var cent, yc := y / 100, y % 100;
      YearStart(y) == 36524 * cent + 1461 * (yc / 4) + 365 * (yc % 4)
  {
    var cent, yc := y / 100, y % 100;
    assert y == 100 * cent + 4 * (yc / 4) + yc % 4;
    assert y / 4 == 25 * cent + yc / 4;
  }

  lemma LeapOfEra(era: int, y: int)
    requires 0 <= y < 400
    ensures Leap(era * 400 + y + 1) <==> (y % 100) % 4 == 3 && ((y % 100) / 4 < 24 || y / 100 == 3)
  {
    ShiftEra(era, y + 1);
    LeapInEra(y);
  }

  /** Whole eras do not matter to the leap rule. */
  lemma ShiftEra(era: int, z: int)
    ensures Leap(era * 400 + z) <==> Leap(z)
  {
    Multiple(era * 100, z, 4);
    Multiple(era * 4, z, 100);
    Multiple(era, z, 400);
  }

  lemma Multiple(k: int, z: int, m: int)
    requires m == 4 || m == 100 || m == 400
    ensures (k * m + z) % m == z % m
  {
  }

  lemma LeapInEra(y: int)
    requires 0 <= y < 400
    ensures Leap(y + 1) <==> (y % 100) % 4 == 3 && ((y % 100) / 4 < 24 || y / 100 == 3)
  {
  }

  /** The month of a March year, from the day of the year. */
  lemma MonthOf(mp: int, day: int)
    requires 0 <= mp < 12 && 1 <= day <= 31 && (153 * mp + 2) / 5 + day - 1 <= 365
    requires mp == 1 || mp == 3 || mp == 6 || mp == 8 ==> day <= 30
    ensures (5 * ((153 * mp + 2) / 5 + day - 1) + 2) / 153 == mp
  {
    if
    case mp == 0 =>
    case mp == 1 =>
    case mp == 2 =>
    case mp == 3 =>
    case mp == 4 =>
    case mp == 5 =>
    case mp == 6 =>
    case mp == 7 =>
    case mp == 8 =>
    case mp == 9 =>
    case mp == 10 =>
    case mp == 11 =>
  }

  // ---- closed forms -----------------------------------------------------------------------------

  function MarchYear(date: Date): int {
    if date.month <= 2 then date.year - 1 else date.year
  }

  function MarchMonth(date: Date): int {
    if date.month > 2 then date.month - 3 else date.month + 9
  }

  function DayOfYear(date: Date): int {
    (153 * MarchMonth(date) + 2) / 5 + date.day - 1
  }

  /** Days from the era of year 0 to the first of March of year `y`. */
  function MarchFirst(y: int): int {
    (y / 400) * 146097 + YearStart(y % 400)
  }

  lemma DaysForm(date: Date)
    ensures DaysFromYmd(date) == MarchFirst(MarchYear(date)) + DayOfYear(date) - 719468
  {
    EraIsFloor(MarchYear(date), 400);
  }

  lemma YmdForm(n: int)
    ensures YmdFromDays(n) == YmdIn((n + 719468) / 146097, (n + 719468) % 146097)
  {
    hide TruncDiv, YmdIn;
    EraIsFloor(n + 719468, 146097);
  }

  lemma YearOfDay(y: int, doy: int)
    requires 0 <= y < 400 && 0 <= doy <= 365
    requires doy == 365 ==> (y % 100) % 4 == 3 && ((y % 100) / 4 < 24 || y / 100 == 3)
    ensures 0 <= YearStart(y) + doy < 146097 && YearOf(YearStart(y) + doy) == y
  {
    YearStartSplit(y);
    YearOfSplit(y / 100, (y % 100) / 4, (y % 100) % 4, doy);
    assert y == 100 * (y / 100) + 4 * ((y % 100) / 4) + (y % 100) % 4;
  }

  lemma YearStartNext(y: int)
    requires 0 <= y < 399
    ensures YearStart(y + 1) == YearStart(y) + 365 + if (y % 100) % 4 == 3 && (y % 100) / 4 < 24 then 1 else 0
  {
    YearStartSplit(y);
    YearStartSplit(y + 1);
    if y % 100 == 99 {
      assert (y + 1) / 100 == y / 100 + 1 && (y + 1) % 100 == 0;
    } else {
      assert (y + 1) / 100 == y / 100 && (y + 1) % 100 == y % 100 + 1;
    }
  }

  // ---- main results ---------------------------------------------------------------------------------

  lemma DayOfYearBound(date: Date)
    requires Exists(date)
    ensures var y := MarchYear(date) % 400;
      0 <= DayOfYear(date) <= 365 &&
      (DayOfYear(date) == 365 ==> (y % 100) % 4 == 3 && ((y % 100) / 4 < 24 || y / 100 == 3))
  {
    var year := MarchYear(date);
    LeapOfEra(year / 400, year % 400);
    assert year == (year / 400) * 400 + year % 400;
  }

  /** Every date that exists comes back from its day count. */
  lemma DateRoundTrip(date: Date)
    requires Exists(date)
    ensures YmdFromDays(DaysFromYmd(date)) == date
  {
    hide YmdFromDays, DaysFromYmd, YearOf, YearStart;
    var year, doy, mp := MarchYear(date), DayOfYear(date), MarchMonth(date);
    var era, doe := year / 400, YearStart(year % 400) + doy;
    DayOfYearBound(date);
    DaysForm(date);
    YearOfDay(year % 400, doy);
    SplitEra(era, doe);
    MonthOf(mp, date.day);
    YmdForm(DaysFromYmd(date));
  }

  lemma SplitEra(era: int, doe: int)
    requires 0 <= doe < 146097
    ensures (era * 146097 + doe) / 146097 == era && (era * 146097 + doe) % 146097 == doe
  {
  }

  lemma YearInEra(y: int)
    ensures y == (y / 400) * 400 + y % 400
    ensures y % 400 < 399 ==> (y + 1) / 400 == y / 400 && (y + 1) % 400 == y % 400 + 1
    ensures y % 400 == 399 ==> (y + 1) / 400 == y / 400 + 1 && (y + 1) % 400 == 0
  {
  }

  /** A year that starts in March ends after 365 days, or 366 if its February has 29. */
  lemma YearEnd(y: int)
    ensures MarchFirst(y + 1) == MarchFirst(y) + 337 + MonthLength(y + 1, 2)
  {
    hide YearStart, Leap;
    var era, yoe := y / 400, y % 400;
    YearInEra(y);
    LeapOfEra(era, yoe);
    if yoe < 399 {
      YearStartNext(yoe);
    } else {
      LastYear();
    }
  }

  lemma LastYear()
    ensures YearStart(0) == 0 && YearStart(399) + 366 == 146097
  {
  }

  /** The next date is the next day. */
  lemma NextDay(date: Date)
    requires Exists(date)
    ensures Exists(Next(date)) && DaysFromYmd(Next(date)) == DaysFromYmd(date) + 1
  {
    hide DaysFromYmd, MarchFirst;
    DaysForm(date);
    DaysForm(Next(date));
    if date.month == 2 && date.day == MonthLength(date.year, 2) {
      YearEnd(date.year - 1);
    }
  }

  lemma PreviousDay(date: Date)
    requires Exists(date)
    ensures Exists(Previous(date)) && Next(Previous(date)) == date
  {
  }

  /** Every day count is the day count of some date. */
  lemma {:induction false} SomeDate(n: int) returns (date: Date)
    ensures Exists(date) && DaysFromYmd(date) == n
    decreases if n < 0 then -n else n
  {
    if n == 0 {
      date := Date(1970, 1, 1);
      assert Exists(date) && DaysFromYmd(date) == 0;
    } else if n > 0 {
      var before := SomeDate(n - 1);
      NextDay(before);
      date := Next(before);
    } else {
      var after := SomeDate(n + 1);
      PreviousDay(after);
      NextDay(Previous(after));
      date := Previous(after);
    }
  }

  /** Every day count comes back from its date, which exists. */
  lemma DaysRoundTrip(n: int)
    ensures Exists(YmdFromDays(n)) && DaysFromYmd(YmdFromDays(n)) == n
  {
    var date := SomeDate(n);
    DateRoundTrip(date);
  }

  /** The date of the next day is the next date. */
  lemma Successor(n: int)
    ensures YmdFromDays(n + 1) == Next(YmdFromDays(n))
  {
    hide *;
    DaysRoundTrip(n);
    NextDay(YmdFromDays(n));
    DateRoundTrip(Next(YmdFromDays(n)));
  }

  /** The round trip decides whether a date exists. */
  lemma ExistsIffRoundTrip(date: Date)
    requires 1 <= date.month <= 12 && 1 <= date.day <= 31
    ensures YmdFromDays(DaysFromYmd(date)) == date <==> Exists(date)
  {
    DaysRoundTrip(DaysFromYmd(date));
    if Exists(date) { DateRoundTrip(date); }
  }

  // ---- 32-bit intermediates ----------------------------------------------------------------------------

  predicate InI32(x: int) {
    -0x8000_0000 <= x < 0x8000_0000
  }

  /** For every day count whose shifted form fits 32 bits, nothing in either conversion leaves 32 bits, and
      nothing unsigned goes below zero. */
  lemma IntermediatesFit(n: int)
    requires InI32(n) && InI32(n + 719468)
    ensures var days := n + 719468;
      var era := days / 146097;
      && InI32(days - 146096) && InI32(era * 146097) && 0 <= days - era * 146097 < 146097 && InI32(era * 400)
    ensures var date := YmdFromDays(n);
      && InI32(date.year) && InI32(MarchYear(date) - 399)
      && InI32((MarchYear(date) / 400) * 146097) && InI32(MarchFirst(MarchYear(date)) + DayOfYear(date))
    ensures UnsignedBack((n + 719468) % 146097) && UnsignedForth(YmdFromDays(n))
  {
    var days, date := n + 719468, YmdFromDays(n);
    DaysRoundTrip(n);
    DaysForm(date);
    YmdForm(n);
    DayOfYearBound(date);
    YearSmall(days % 146097);
    EraOfDate(MarchYear(date), days / 146097, days);
    UnsignedFits(n);
  }

  /** The unsigned part of `ymd_from_days`: no subtraction goes below zero, and each value is in its range. */
  ghost predicate UnsignedBack(doe: int) {
    var y := YearOf(doe);
    var doy := doe - YearStart(y);
    var mp := (5 * doy + 2) / 153;
    && 0 <= doe < 146097
    && doe / 1460 <= doe && doe / 146096 <= doe - doe / 1460 + doe / 36524 && 0 <= y < 400
    && y / 100 <= 365 * y + y / 4 && YearStart(y) <= doe && doy <= 365
    && 0 <= mp < 12 && (153 * mp + 2) / 5 <= doy
  }

  /** The unsigned part of `days_from_ymd`; dates that do not exist, such as 30 February, run a little past the era. */
  ghost predicate UnsignedForth(date: Date) {
    var y := MarchYear(date) % 400;
    && MarchMonth(date) >= 0 && (153 * MarchMonth(date) + 2) / 5 + date.day >= 1
    && 0 <= y < 400 && y / 100 <= 365 * y + y / 4 && YearStart(y) + DayOfYear(date) < 146097 + 31
  }

  lemma UnsignedFits(n: int)
    ensures UnsignedBack((n + 719468) % 146097) && UnsignedForth(YmdFromDays(n))
  {
    var date := YmdFromDays(n);
    var y := MarchYear(date) % 400;
    DaysRoundTrip(n);
    DayOfYearBound(date);
    DayPlaced(n, date);
    ForthFits(date);
    hide *;
    BackFits((n + 719468) % 146097, y, DayOfYear(date));
  }

  lemma DayPlaced(n: int, date: Date)
    requires Exists(date) && DaysFromYmd(date) == n
    ensures var y, doe := MarchYear(date) % 400, (n + 719468) % 146097;
      doe == YearStart(y) + DayOfYear(date) && YearOf(doe) == y
  {
    var year := MarchYear(date);
    DaysForm(date);
    DayOfYearBound(date);
    YearOfDay(year % 400, DayOfYear(date));
    hide DaysFromYmd, YearOf, YearStart, Exists, MonthLength, DayOfYear;
    SameRemainder(n + 719468, year / 400, YearStart(year % 400) + DayOfYear(date));
  }

  lemma BackFits(doe: int, y: int, doy: int)
    requires 0 <= doe < 146097 && 0 <= y < 400 && 0 <= doy <= 365 && doe == YearStart(y) + doy && YearOf(doe) == y
    ensures UnsignedBack(doe)
  {
    hide YearOf;
    MonthFits(doy);
  }

  lemma ForthFits(date: Date)
    requires 1 <= date.month <= 12 && 1 <= date.day <= 31
    ensures UnsignedForth(date)
  {
  }

  lemma SameRemainder(days: int, era: int, rest: int)
    requires days == era * 146097 + rest && 0 <= rest < 146097
    ensures days % 146097 == rest
  {
  }

  lemma MonthFits(doy: int)
    requires 0 <= doy <= 365
    ensures var mp := (5 * doy + 2) / 153; 0 <= mp < 12 && (153 * mp + 2) / 5 <= doy
  {
  }

  lemma YearSmall(doe: int)
    requires 0 <= doe < 146097
    ensures 0 <= YearOf(doe) < 400
  {
  }

  lemma EraOfDate(year: int, era: int, days: int)
    requires era * 146097 <= days && MarchFirst(year) <= days
    ensures (year / 400) * 146097 <= days
  {
  }
}
