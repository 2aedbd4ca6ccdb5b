/** Day counts to Gregorian dates, and UTC timestamps in the form of RFC 3339, section 5.6. */
module Calendar {
  import opened Text
  import opened Wrappers

  datatype Date = Date(year: int, month: int, day: int)

  // ---------------------------------------------------------------------------------------
  // The calendar, as RFC 3339 section 5.7 and appendix C state it

  predicate IsLeap(year: int) { year % 4 == 0 && (year % 100 != 0 || year % 400 == 0) }

  function MonthLength(year: int, month: int): int
    requires 1 <= month <= 12
  {
    if month == 2 then (if IsLeap(year) then 29 else 28)
    else if month in {4, 6, 9, 11} then 30 else 31
  }

  predicate IsDate(d: Date) {
    1 <= d.month <= 12 && 1 <= d.day <= MonthLength(d.year, d.month)
  }

  /** The day after. */
  function Tomorrow(d: Date): (next: Date)
    requires IsDate(d)
    ensures IsDate(next)
  {
    if d.day < MonthLength(d.year, d.month) then d.(day := d.day + 1)
    else if d.month < 12 then Date(d.year, d.month + 1, 1)
    else Date(d.year + 1, 1, 1)
  }

  const EPOCH := Date(1970, 1, 1)

  // ---------------------------------------------------------------------------------------
  // The conversion

  const ERA_DAYS := 146_097     // in 400 years
  const EPOCH_OFFSET := 719_468 // from 0000-03-01 to the epoch

  function YearOfEra(doe: int): int {
    (doe - doe / 1_460 + doe / 36_524 - doe / 146_096) / 365
  }

  /** Days of the era before the given March-based year. */
  function YearStart(yoe: int): int { 365 * yoe + yoe / 4 - yoe / 100 }

  function CivilFromDays(days: int): Date {
    var z := days + EPOCH_OFFSET;
    var era := z / ERA_DAYS;
    var doe := z % ERA_DAYS;
    var yoe := YearOfEra(doe);
    var doy := doe - YearStart(yoe);
    var mp := (5 * doy + 2) / 153;
    var day := doy - (153 * mp + 2) / 5 + 1;
    var month := if mp < 10 then mp + 3 else mp - 9;
    var year := yoe + era * 400;
    Date(if month <= 2 then year + 1 else year, month, day)
  }

  /** The standard inverse, on March-based years. */
  function DaysFromCivil(d: Date): int {
    var year := if d.month <= 2 then d.year - 1 else d.year;
    var era := year / 400;
    var yoe := year % 400;
    var mp := if d.month > 2 then d.month - 3 else d.month + 9;
    var doy := (153 * mp + 2) / 5 + d.day - 1;
    era * ERA_DAYS + YearStart(yoe) + doy - EPOCH_OFFSET
  }

  /** A day of the era by century, four-year block, year and day of the (March-based) year;
      only the last year of a block may have a 366th day, and not at the end of a century
      that is not the last. */
  predicate Decomposes(doe: int, c: int, q: int, t: int, doy: int) {
    && 0 <= c <= 3 && 0 <= q <= 24 && 0 <= t <= 3 && 0 <= doy <= 365
    && (doy == 365 ==> t == 3 && (q < 24 || c == 3))
    && doe == 36_524 * c + 1_461 * q + 365 * t + doy
  }

  lemma Decompose(doe: int) returns (c: int, q: int, t: int, doy: int)
    requires 0 <= doe < ERA_DAYS
    ensures Decomposes(doe, c, q, t, doy)
  {
    c := if doe / 36_524 == 4 then 3 else doe / 36_524;
    var r := doe - 36_524 * c;
    q := r / 1_461;
    var s := r - 1_461 * q;
    t := if s / 365 == 4 then 3 else s / 365;
    doy := s - 365 * t;
  }

  lemma YearStartOf(c: int, q: int, t: int)
    requires 0 <= c <= 3 && 0 <= q <= 24 && 0 <= t <= 3
    ensures YearStart(100 * c + 4 * q + t) == 36_524 * c + 1_461 * q + 365 * t
  {
    assert (100 * c + 4 * q + t) / 4 == 25 * c + q;
    assert (100 * c + 4 * q + t) / 100 == c;
  }

  /** The three corrections turn the day into exactly the year: each leap day so far is
      taken off once, and each skipped one is put back. */
  lemma YearOfEraOf(doe: int, c: int, q: int, t: int, doy: int)
    requires Decomposes(doe, c, q, t, doy)
    ensures YearOfEra(doe) == 100 * c + 4 * q + t
    ensures doe - YearStart(YearOfEra(doe)) == doy
  {
    YearStartOf(c, q, t);
    var rest := 24 * c + q + 365 * t + doy;
    var e := if rest >= 1_460 then 1 else 0;
    assert doe == 1_460 * (25 * c + q) + rest;
    assert doe / 1_460 == 25 * c + q + e;
    var last := if doe == 146_096 then 1 else 0;
    assert doe / 146_096 == last;
    assert doe / 36_524 == c + last;
    assert doe - doe / 1_460 + doe / 36_524 - doe / 146_096 == 365 * (100 * c + 4 * q + t) + (doy - e);
    assert 0 <= doy - e < 365;
  }

  /** Days of the March-based year before its month `mp`. */
  function MonthStart(mp: int): int { (153 * mp + 2) / 5 }

  function MonthOf(mp: int): int { if mp < 10 then mp + 3 else mp - 9 }

  /** The linear month formula finds the month whose days contain `doy`. */
  lemma MonthOfYear(doy: int)
    requires 0 <= doy <= 365
    ensures var mp := (5 * doy + 2) / 153;
      && 0 <= mp <= 11 && MonthStart(mp) <= doy && (mp < 11 ==> doy < MonthStart(mp + 1))
  {
  }

  lemma MonthUnique(mp: int, doy: int)
    requires 0 <= mp <= 11 && MonthStart(mp) <= doy <= 365 && (mp < 11 ==> doy < MonthStart(mp + 1))
    ensures (5 * doy + 2) / 153 == mp
  {
  }

  /** Months but February are as long as the formula spaces them. */
  lemma MonthLengthOf(mp: int, year: int)
    requires 0 <= mp <= 10
    ensures MonthOf(mp) != 2 && MonthLength(year, MonthOf(mp)) == MonthStart(mp + 1) - MonthStart(mp)
  {
    if {
      case mp <= 3 =>
      case 4 <= mp <= 7 =>
      case 8 <= mp =>
    }
  }

  /** February's last day of the March-based year is its 366th exactly in leap years. */
  lemma LeapDay(era: int, c: int, q: int, t: int)
    requires 0 <= c <= 3 && 0 <= q <= 24 && 0 <= t <= 3
    ensures IsLeap(400 * era + 100 * c + 4 * q + t + 1) <==> t == 3 && (q < 24 || c == 3)
  {
    Divisible4(100 * era + 25 * c + q, t + 1);
    Divisible100(4 * era + c, 4 * q + t + 1);
    Divisible400(era, 100 * c + 4 * q + t + 1);
  }

  lemma Divisible4(n: int, r: int)
    requires 0 < r <= 4
    ensures (4 * n + r) % 4 == 0 <==> r == 4
  {
  }

  lemma Divisible100(n: int, r: int)
    requires 0 < r <= 100
    ensures (100 * n + r) % 100 == 0 <==> r == 100
  {
  }

  lemma Divisible400(n: int, r: int)
    requires 0 < r <= 400
    ensures (400 * n + r) % 400 == 0 <==> r == 400
  {
  }

  /** A day count as era, century, block, year, month and day. */
  predicate Parts(days: int, era: int, c: int, q: int, t: int, mp: int, day: int) {
    && 0 <= mp <= 11 && 1 <= day
    && var doy := MonthStart(mp) + day - 1;
    && (mp < 11 ==> doy < MonthStart(mp + 1))
    && Decomposes(days + EPOCH_OFFSET - era * ERA_DAYS, c, q, t, doy)
  }

  function DateOf(era: int, c: int, q: int, t: int, mp: int, day: int): Date {
    var year := 400 * era + 100 * c + 4 * q + t;
    Date(if mp < 10 then year else year + 1, MonthOf(mp), day)
  }

  lemma DateOfIsDate(days: int, era: int, c: int, q: int, t: int, mp: int, day: int)
    requires Parts(days, era, c, q, t, mp, day)
    ensures IsDate(DateOf(era, c, q, t, mp, day))
  {
    if mp < 11 {
      MonthLengthOf(mp, DateOf(era, c, q, t, mp, day).year);
    } else {
      LeapDay(era, c, q, t);
    }
  }

  /** Both conversions go through the same parts. */
  lemma CivilOf(days: int, era: int, c: int, q: int, t: int, mp: int, day: int)
    requires Parts(days, era, c, q, t, mp, day)
    ensures CivilFromDays(days) == DateOf(era, c, q, t, mp, day)
  {
    var z := days + EPOCH_OFFSET;
    var doe := z - era * ERA_DAYS;
    assert 0 <= doe < ERA_DAYS;
    assert z / ERA_DAYS == era && z % ERA_DAYS == doe;
    YearOfEraOf(doe, c, q, t, MonthStart(mp) + day - 1);
    MonthUnique(mp, MonthStart(mp) + day - 1);
  }

  lemma DaysOf(days: int, era: int, c: int, q: int, t: int, mp: int, day: int)
    requires Parts(days, era, c, q, t, mp, day)
    ensures DaysFromCivil(DateOf(era, c, q, t, mp, day)) == days
  {
    YearStartOf(c, q, t);
    var yoe := 100 * c + 4 * q + t;
    assert (400 * era + yoe) / 400 == era && (400 * era + yoe) % 400 == yoe;
  }

  lemma PartsOfDays(days: int) returns (era: int, c: int, q: int, t: int, mp: int, day: int)
    ensures Parts(days, era, c, q, t, mp, day)
  {
    var z := days + EPOCH_OFFSET;
    era := z / ERA_DAYS;
    var doy;
    c, q, t, doy := Decompose(z % ERA_DAYS);
    MonthOfYear(doy);
    mp := (5 * doy + 2) / 153;
    day := doy - MonthStart(mp) + 1;
  }

  lemma PartsOfDate(d: Date) returns (era: int, c: int, q: int, t: int, mp: int, day: int)
    requires IsDate(d)
    ensures Parts(DaysFromCivil(d), era, c, q, t, mp, day) && DateOf(era, c, q, t, mp, day) == d
  {
    var year := if d.month <= 2 then d.year - 1 else d.year;
    var yoe := year % 400;
    era, c, q, t := year / 400, yoe / 100, yoe % 100 / 4, yoe % 4;
    assert yoe == 100 * c + 4 * q + t;
    mp, day := if d.month > 2 then d.month - 3 else d.month + 9, d.day;
    YearStartOf(c, q, t);
    if mp < 11 {
      MonthLengthOf(mp, d.year);
    } else {
      LeapDay(era, c, q, t);
    }
  }

  /** Every day count has a Gregorian date, and the date gives the day count back. */
  lemma DaysRoundTrip(days: int)
    ensures IsDate(CivilFromDays(days))
    ensures DaysFromCivil(CivilFromDays(days)) == days
  {
    var era, c, q, t, mp, day := PartsOfDays(days);
    DateOfIsDate(days, era, c, q, t, mp, day);
    CivilOf(days, era, c, q, t, mp, day);
    DaysOf(days, era, c, q, t, mp, day);
  }

  /** Every Gregorian date is the date of its day count. */
  lemma DateRoundTrip(d: Date)
    requires IsDate(d)
    ensures CivilFromDays(DaysFromCivil(d)) == d
  {
    var era, c, q, t, mp, day := PartsOfDate(d);
    CivilOf(DaysFromCivil(d), era, c, q, t, mp, day);
  }

  /** First of March to first of March, across blocks, centuries and eras. */
  lemma NextYearStart(era: int, c: int, q: int, t: int)
    requires 0 <= c <= 3 && 0 <= q <= 24 && 0 <= t <= 3
    ensures var year := 400 * era + 100 * c + 4 * q + t;
      DaysFromCivil(Date(year + 1, 3, 1)) - DaysFromCivil(Date(year, 3, 1))
        == if t == 3 && (q < 24 || c == 3) then 366 else 365
  {
    var yoe := 100 * c + 4 * q + t;
    var year := 400 * era + yoe;
    YearStartOf(c, q, t);
    assert year / 400 == era && year % 400 == yoe;
    if yoe < 399 {
      var t' := if t < 3 then t + 1 else 0;
      var q' := if t < 3 then q else if q < 24 then q + 1 else 0;
      var c' := if t < 3 || q < 24 then c else c + 1;
      YearStartOf(c', q', t');
      assert yoe + 1 == 100 * c' + 4 * q' + t';
      assert (year + 1) / 400 == era && (year + 1) % 400 == yoe + 1;
    } else {
      assert (year + 1) / 400 == era + 1 && (year + 1) % 400 == 0;
    }
  }

  /** Days counted from the first of March of the March-based year. */
  lemma DaysFromMarch(d: Date)
    requires IsDate(d)
    ensures var mp := if d.month > 2 then d.month - 3 else d.month + 9;
      var year := if d.month <= 2 then d.year - 1 else d.year;
      DaysFromCivil(d) == DaysFromCivil(Date(year, 3, 1)) + MonthStart(mp) + d.day - 1
  {
  }

  lemma DaysOfNextMonth(d: Date)
    requires IsDate(d) && d.month != 2 && d.day == MonthLength(d.year, d.month)
    ensures DaysFromCivil(Tomorrow(d)) == DaysFromCivil(d) + 1
  {
    DaysFromMarch(d);
    DaysFromMarch(Tomorrow(d));
    MonthLengthOf(if d.month > 2 then d.month - 3 else d.month + 9, d.year);
  }

  lemma NextMarch(year: int)
    ensures DaysFromCivil(Date(year + 1, 3, 1)) - DaysFromCivil(Date(year, 3, 1)) ==
      if IsLeap(year + 1) then 366 else 365
  {
    var era, yoe := year / 400, year % 400;
    var c, q, t := yoe / 100, yoe % 100 / 4, yoe % 4;
    assert yoe == 100 * c + 4 * q + t;
    NextYearStart(era, c, q, t);
    LeapDay(era, c, q, t);
  }

  lemma DaysOfMarch(d: Date)
    requires IsDate(d) && d.month == 2 && d.day == MonthLength(d.year, 2)
    ensures DaysFromCivil(Date(d.year, 3, 1)) == DaysFromCivil(d) + 1
  {
    DaysFromMarch(d);
    NextMarch(d.year - 1);
    assert MonthStart(11) == 337;
  }

  lemma DaysOfTomorrow(d: Date)
    requires IsDate(d)
    ensures DaysFromCivil(Tomorrow(d)) == DaysFromCivil(d) + 1
  {
    if d.day < MonthLength(d.year, d.month) {
    } else if d.month == 2 {
      DaysOfMarch(d);
    } else {
      DaysOfNextMonth(d);
    }
  }

  /** The next day count is the next day of the calendar. */
  lemma CivilOfTomorrow(days: int)
    ensures IsDate(CivilFromDays(days)) && CivilFromDays(days + 1) == Tomorrow(CivilFromDays(days))
  {
    DaysRoundTrip(days);
    var d := CivilFromDays(days);
    DaysOfTomorrow(d);
    DateRoundTrip(Tomorrow(d));
  }

  /** The date reached by counting `n` days on from `d`. */
  function CountOn(d: Date, n: nat): (r: Date)
    requires IsDate(d)
    ensures IsDate(r)
  {
    if n == 0 then d else Tomorrow(CountOn(d, n - 1))
  }

  lemma EpochIsDayZero()
    ensures CivilFromDays(0) == EPOCH
  {
  }

  lemma {:induction false} StepwiseIsCounting(dates: int -> Date, from: int, n: nat)
    requires forall k :: IsDate(dates(k)) && dates(k + 1) == Tomorrow(dates(k))
    ensures dates(from + n) == CountOn(dates(from), n)
  {
    if n > 0 {
      StepwiseIsCounting(dates, from, n - 1);
      assert dates(from + (n - 1) + 1) == Tomorrow(dates(from + (n - 1)));
    }
  }

  /** The formula agrees with counting days one at a time, from any day to any later one;
      with the epoch at 1970-01-01 this fixes it at every day count. */
  lemma CivilCountsOn(from: int, n: nat)
    ensures IsDate(CivilFromDays(from)) && CivilFromDays(from + n) == CountOn(CivilFromDays(from), n)
  {
    forall k
      ensures IsDate(CivilFromDays(k)) && CivilFromDays(k + 1) == Tomorrow(CivilFromDays(k))
    {
      CivilOfTomorrow(k);
    }
    StepwiseIsCounting(CivilFromDays, from, n);
  }

  // ---------------------------------------------------------------------------------------
  // Timestamps

  const DAY_MS := 86_400_000

  /** `YYYY-MM-DDTHH:MM:SS.mmmZ` of the given milliseconds since the epoch. */
  function Timestamp(epochMs: int): string {
    var date := CivilFromDays(epochMs / DAY_MS);
    var ms := epochMs % DAY_MS;
    Padded(date.year, 4) + "-" + Padded(date.month, 2) + "-" + Padded(date.day, 2)
      + "T" + Padded(ms / 3_600_000, 2) + ":" + Padded(ms % 3_600_000 / 60_000, 2)
      + ":" + Padded(ms % 60_000 / 1_000, 2) + "." + Padded(ms % 1_000, 3) + "Z"
  }

  datatype Fields = Fields(year: nat, month: nat, day: nat, hour: nat, minute: nat, second: nat, millis: nat)

  predicate ValidFields(f: Fields) {
    f.year <= 9999 && IsDate(Date(f.year, f.month, f.day))
    && f.hour < 24 && f.minute < 60 && f.second < 60 && f.millis < 1000
  }

  function Instant(f: Fields): int {
    DaysFromCivil(Date(f.year, f.month, f.day)) * DAY_MS
      + f.hour * 3_600_000 + f.minute * 60_000 + f.second * 1_000 + f.millis
  }

  function Print(f: Fields): string {
    Digits(f.year, 4) + "-" + Digits(f.month, 2) + "-" + Digits(f.day, 2)
      + "T" + Digits(f.hour, 2) + ":" + Digits(f.minute, 2) + ":" + Digits(f.second, 2)
      + "." + Digits(f.millis, 3) + "Z"
  }

  /** The 24-character form of RFC 3339's `date-time`, in UTC with three fraction digits. */
  predicate HasShape(s: string) {
    |s| == 24 && s[4] == '-' && s[7] == '-' && s[10] == 'T' && s[13] == ':' && s[16] == ':'
    && s[19] == '.' && s[23] == 'Z'
    && AllDigits(s[..4]) && AllDigits(s[5..7]) && AllDigits(s[8..10]) && AllDigits(s[11..13])
    && AllDigits(s[14..16]) && AllDigits(s[17..19]) && AllDigits(s[20..23])
  }

  function Read(s: string): Fields
    requires HasShape(s)
  {
    Fields(ParseNat(s[..4]), ParseNat(s[5..7]), ParseNat(s[8..10]), ParseNat(s[11..13]),
           ParseNat(s[14..16]), ParseNat(s[17..19]), ParseNat(s[20..23]))
  }

  function ParseTimestamp(s: string): Option<int> {
    if HasShape(s) && ValidFields(Read(s)) then Some(Instant(Read(s))) else None
  }

  const FIRST_DAY := -719_528   // 0000-01-01
  const LAST_DAY := 2_932_896   // 9999-12-31

  lemma FourDigitYears(days: int)
    ensures 0 <= CivilFromDays(days).year <= 9999 <==> FIRST_DAY <= days <= LAST_DAY
  {
    var era, c, q, t, mp, day := PartsOfDays(days);
    CivilOf(days, era, c, q, t, mp, day);
    var late := c == 3 && q == 24 && t == 3 && mp >= 10;
    assert late <==> days + EPOCH_OFFSET - era * ERA_DAYS >= 146_037;
    assert CivilFromDays(days).year >= 0 <==> era >= 0 || (era == -1 && late);
    assert CivilFromDays(days).year <= 9999 <==> era <= 23 || (era == 24 && !late);
  }

  function FieldsOf(epochMs: int): Fields
    requires CivilFromDays(epochMs / DAY_MS).year >= 0
  {
    var date := CivilFromDays(epochMs / DAY_MS);
    var ms := epochMs % DAY_MS;
    DaysRoundTrip(epochMs / DAY_MS);
    Fields(date.year, date.month, date.day, ms / 3_600_000, ms % 3_600_000 / 60_000, ms % 60_000 / 1_000, ms % 1_000)
  }

  /** Splitting a day into hours, minutes, seconds and milliseconds loses nothing. */
  lemma TimeOfDay(ms: int)
    requires 0 <= ms < DAY_MS
    ensures ms / 3_600_000 < 24 && ms % 3_600_000 / 60_000 < 60 && ms % 60_000 / 1_000 < 60
    ensures ms / 3_600_000 * 3_600_000 + ms % 3_600_000 / 60_000 * 60_000 + ms % 60_000 / 1_000 * 1_000 +
      ms % 1_000 == ms
  {
    var h, inHour := ms / 3_600_000, ms % 3_600_000;
    var m, inMinute := inHour / 60_000, inHour % 60_000;
    PerMinute(60 * h + m, inMinute);
    assert ms % 60_000 == inMinute;
    var s, millis := inMinute / 1_000, inMinute % 1_000;
    PerSecond(3_600 * h + 60 * m + s, millis);
  }

  lemma TimeOfDayUnique(h: nat, m: nat, s: nat, millis: nat)
    requires h < 24 && m < 60 && s < 60 && millis < 1000
    ensures var ms := h * 3_600_000 + m * 60_000 + s * 1_000 + millis;
      && ms < DAY_MS && ms / 3_600_000 == h && ms % 3_600_000 / 60_000 == m && ms % 60_000 / 1_000 == s
      && ms % 1_000 == millis
  {
    PerHour(h, m * 60_000 + s * 1_000 + millis);
    PerMinute(m, s * 1_000 + millis);
    PerMinute(60 * h + m, s * 1_000 + millis);
    PerSecond(s, millis);
    PerSecond(3_600 * h + 60 * m + s, millis);
  }

  lemma PerSecond(n: int, r: int)
    requires 0 <= r < 1_000
    ensures (n * 1_000 + r) / 1_000 == n && (n * 1_000 + r) % 1_000 == r
  {
  }

  lemma PerMinute(n: int, r: int)
    requires 0 <= r < 60_000
    ensures (n * 60_000 + r) / 60_000 == n && (n * 60_000 + r) % 60_000 == r
  {
  }

  lemma PerHour(n: int, r: int)
    requires 0 <= r < 3_600_000
    ensures (n * 3_600_000 + r) / 3_600_000 == n && (n * 3_600_000 + r) % 3_600_000 == r
  {
  }

  lemma InstantOfFields(epochMs: int)
    requires 0 <= CivilFromDays(epochMs / DAY_MS).year <= 9999
    ensures ValidFields(FieldsOf(epochMs)) && Instant(FieldsOf(epochMs)) == epochMs
  {
    DaysRoundTrip(epochMs / DAY_MS);
    TimeOfDay(epochMs % DAY_MS);
  }

  lemma FieldsOfInstant(f: Fields)
    requires ValidFields(f)
    ensures CivilFromDays(Instant(f) / DAY_MS).year == f.year && FieldsOf(Instant(f)) == f
  {
    var date := Date(f.year, f.month, f.day);
    DateRoundTrip(date);
    TimeOfDayUnique(f.hour, f.minute, f.second, f.millis);
    var ms := f.hour * 3_600_000 + f.minute * 60_000 + f.second * 1_000 + f.millis;
    assert Instant(f) / DAY_MS == DaysFromCivil(date) && Instant(f) % DAY_MS == ms;
  }

  lemma Slices(year: string, month: string, day: string, hour: string, minute: string, second: string, millis: string)
    requires |year| == 4 && |month| == |day| == |hour| == |minute| == |second| == 2 && |millis| == 3
    ensures
      var s := year + "-" + month + "-" + day + "T" + hour + ":" + minute + ":" + second + "." + millis + "Z";
      && |s| == 24 && s[4] == '-' && s[7] == '-' && s[10] == 'T' && s[13] == ':' && s[16] == ':' && s[19] == '.'
      && s[23] == 'Z'
      && s[..4] == year && s[5..7] == month && s[8..10] == day && s[11..13] == hour
      && s[14..16] == minute && s[17..19] == second && s[20..23] == millis
  {
    var s := year + "-" + month + "-" + day + "T" + hour + ":" + minute + ":" + second + "." + millis + "Z";
    assert s[..4] == year;
    assert s[5..7] == month;
    assert s[8..10] == day;
    assert s[11..13] == hour;
    assert s[14..16] == minute;
    assert s[17..19] == second;
    assert s[20..23] == millis;
  }

  lemma ReadPrinted(f: Fields)
    requires ValidFields(f)
    ensures HasShape(Print(f)) && Read(Print(f)) == f
  {
    assert Power10(4) == 10000 && Power10(3) == 1000 && Power10(2) == 100;
    ParseDigits(f.year, 4);
    ParseDigits(f.month, 2);
    ParseDigits(f.day, 2);
    ParseDigits(f.hour, 2);
    ParseDigits(f.minute, 2);
    ParseDigits(f.second, 2);
    ParseDigits(f.millis, 3);
    Slices(Digits(f.year, 4), Digits(f.month, 2), Digits(f.day, 2), Digits(f.hour, 2),
           Digits(f.minute, 2), Digits(f.second, 2), Digits(f.millis, 3));
  }

  lemma PrintRead(s: string)
    requires HasShape(s)
    ensures Print(Read(s)) == s
  {
    DigitsOfParsed(s[..4]);
    DigitsOfParsed(s[5..7]);
    DigitsOfParsed(s[8..10]);
    DigitsOfParsed(s[11..13]);
    DigitsOfParsed(s[14..16]);
    DigitsOfParsed(s[17..19]);
    DigitsOfParsed(s[20..23]);
    assert s == s[..4] + "-" + s[5..7] + "-" + s[8..10] + "T" + s[11..13] + ":" + s[14..16] + ":" + s[17..19] + "." +
      s[20..23] + "Z";
  }

  lemma TimestampPrints(epochMs: int)
    requires 0 <= CivilFromDays(epochMs / DAY_MS).year <= 9999
    ensures Timestamp(epochMs) == Print(FieldsOf(epochMs))
  {
    InstantOfFields(epochMs);
    var f := FieldsOf(epochMs);
    assert Power10(4) == 10000 && Power10(3) == 1000 && Power10(2) == 100;
    PaddedIsDigits(f.year, 4);
    PaddedIsDigits(f.month, 2);
    PaddedIsDigits(f.day, 2);
    PaddedIsDigits(f.hour, 2);
    PaddedIsDigits(f.minute, 2);
    PaddedIsDigits(f.second, 2);
    PaddedIsDigits(f.millis, 3);
  }

  /** Outside the years 0 to 9999 the text is not in the 24-character form. */
  lemma OtherYearsHaveNoShape(epochMs: int)
    requires !(0 <= CivilFromDays(epochMs / DAY_MS).year <= 9999)
    ensures !HasShape(Timestamp(epochMs))
  {
    var year := CivilFromDays(epochMs / DAY_MS).year;
    var s := Timestamp(epochMs);
    if year < 0 {
      assert s[0] == Padded(year, 4)[0] == '-';
      assert |s| >= 4 ==> s[..4][0] == '-';
    } else {
      assert Power10(4) == 10000;
      DecimalLength(year, 4);
      assert |Padded(year, 4)| >= 5;
    }
  }

  /** The timestamp reads back as the instant it was made from, exactly when the instant lies
      in the years that have four digits. */
  lemma TimestampRoundTrip(epochMs: int)
    ensures ParseTimestamp(Timestamp(epochMs)) ==
      if FIRST_DAY * DAY_MS <= epochMs < (LAST_DAY + 1) * DAY_MS then Some(epochMs) else None
  {
    FourDigitYears(epochMs / DAY_MS);
    if 0 <= CivilFromDays(epochMs / DAY_MS).year <= 9999 {
      TimestampPrints(epochMs);
      InstantOfFields(epochMs);
      ReadPrinted(FieldsOf(epochMs));
    } else {
      OtherYearsHaveNoShape(epochMs);
    }
  }

  /** Every well-formed text is the timestamp of what it reads as: the two are inverse. */
  lemma ParsedTextIsTimestamp(s: string)
    requires ParseTimestamp(s).Some?
    ensures Timestamp(ParseTimestamp(s).value) == s
  {
    FieldsOfInstant(Read(s));
    TimestampPrints(Instant(Read(s)));
    PrintRead(s);
  }

  /** The first instant of the year 10000 does not read back. */
  lemma YearTenThousandIsLost()
    ensures ParseTimestamp(Timestamp((LAST_DAY + 1) * DAY_MS)) == None
  {
    assert (LAST_DAY + 1) * DAY_MS / DAY_MS == LAST_DAY + 1;
    TimestampRoundTrip((LAST_DAY + 1) * DAY_MS);
  }
}
