/** The date helpers of apps/web-app/src/shared/utils/date.ts over a proleptic
    Gregorian calendar. A JavaScript `Date` in local time is a civil date plus a
    minute of the day; an `Invalid Date` (time value NaN) is `None`. */
module DateUtil {
  import opened JsText

  /** A calendar day: `month` runs 1..12 (JavaScript's `getMonth() + 1`). */
  datatype CivilDate = CivilDate(year: int, month: int, day: int)

  predicate IsLeapYear(y: int) {
    y % 4 == 0 && (y % 100 != 0 || y % 400 == 0)
  }

  function DaysInMonth(y: int, m: int): (n: int)
    requires 1 <= m <= 12
    ensures 28 <= n <= 31
  {
    if m == 2 then (if IsLeapYear(y) then 29 else 28)
    else if m == 4 || m == 6 || m == 9 || m == 11 then 30
    else 31
  }

  predicate ValidDate(d: CivilDate) {
    1 <= d.month <= 12 && 1 <= d.day <= DaysInMonth(d.year, d.month)
  }

  // ---------------------------------------------------------------------------
  // Day numbers: 0001-01-01 is day 0, and each day is one more than the last.

  function DaysBeforeYear(y: int): int {
    var p := y - 1;
    365 * p + p / 4 - p / 100 + p / 400
  }

  function DaysBeforeMonth(y: int, m: int): int
    requires 1 <= m <= 12
  {
    [0, 31, 59, 90, 120, 151, 181, 212, 243, 273, 304, 334][m - 1]
    + if m > 2 && IsLeapYear(y) then 1 else 0
  }

  function DayNumber(d: CivilDate): int
    requires 1 <= d.month <= 12
  {
    DaysBeforeYear(d.year) + DaysBeforeMonth(d.year, d.month) + d.day - 1
  }

  function DaysInYear(y: int): int {
    if IsLeapYear(y) then 366 else 365
  }

  /** Going from `y - 1` to `y` adds one to `y / k` exactly when `k` divides `y`. */
  lemma DivStep(y: int, k: int)
    requires k > 0
    ensures y / k == (y - 1) / k + (if y % k == 0 then 1 else 0)
  {
    var q, r := y / k, y % k;
    if r == 0 {
      DivUnique(y - 1, k, q - 1, k - 1);
    } else {
      DivUnique(y - 1, k, q, r - 1);
    }
  }

  lemma DivUnique(a: int, k: int, q: int, r: int)
    requires k > 0 && 0 <= r < k && a == k * q + r
    ensures a / k == q
  {
    var d := a / k - q;
    assert k * d == r - a % k;
    MulBound(k, d);
  }

  lemma MulBound(k: int, d: int)
    requires k > 0
    ensures d >= 1 ==> k * d >= k
    ensures d <= -1 ==> k * d <= -k
  {
    if d >= 1 {
      assert k * d == k * (d - 1) + k;
      assert k * (d - 1) >= 0;
    } else if d <= -1 {
      assert k * d == k * (d + 1) - k;
      assert k * (d + 1) <= 0;
    }
  }

  lemma DaysBeforeNextYear(y: int)
    ensures DaysBeforeYear(y + 1) == DaysBeforeYear(y) + DaysInYear(y)
  {
    DivStep(y, 4);
    DivStep(y, 100);
    DivStep(y, 400);
    if y % 400 == 0 {
      assert y % 100 == 0 && y % 4 == 0;
    } else if y % 100 == 0 {
      assert y % 4 == 0;
    }
  }

  /** The day after `d`, rolling over the month and the year. */
  function NextDay(d: CivilDate): (r: CivilDate)
    requires ValidDate(d)
    ensures ValidDate(r)
  {
    if d.day < DaysInMonth(d.year, d.month) then CivilDate(d.year, d.month, d.day + 1)
    else if d.month < 12 then CivilDate(d.year, d.month + 1, 1)
    else CivilDate(d.year + 1, 1, 1)
  }

  /** The day before `d`, rolling back the month and the year. */
  function PrevDay(d: CivilDate): (r: CivilDate)
    requires ValidDate(d)
    ensures ValidDate(r)
  {
    if d.day > 1 then CivilDate(d.year, d.month, d.day - 1)
    else if d.month > 1 then CivilDate(d.year, d.month - 1, DaysInMonth(d.year, d.month - 1))
    else CivilDate(d.year - 1, 12, 31)
  }

  lemma NextDayNumber(d: CivilDate)
    requires ValidDate(d)
    ensures DayNumber(NextDay(d)) == DayNumber(d) + 1
  {
    if d.day == DaysInMonth(d.year, d.month) && d.month == 12 {
      DaysBeforeNextYear(d.year);
    }
  }

  lemma PrevDayNumber(d: CivilDate)
    requires ValidDate(d)
    ensures DayNumber(PrevDay(d)) == DayNumber(d) - 1
  {
    if d.day == 1 && d.month == 1 {
      DaysBeforeNextYear(d.year - 1);
    }
  }

  /** `d` moved by `n` days, one day at a time. */
  function AddDays(d: CivilDate, n: int): (r: CivilDate)
    requires ValidDate(d)
    ensures ValidDate(r)
    decreases if n < 0 then -n else n
  {
    if n == 0 then d
    else if n > 0 then AddDays(NextDay(d), n - 1)
    else AddDays(PrevDay(d), n + 1)
  }

  /** Moving by `n` days moves the day number by exactly `n`. */
  lemma {:induction false} AddDaysNumber(d: CivilDate, n: int)
    requires ValidDate(d)
    ensures DayNumber(AddDays(d, n)) == DayNumber(d) + n
    decreases if n < 0 then -n else n
  {
    if n > 0 {
      assert AddDays(d, n) == AddDays(NextDay(d), n - 1);
      NextDayNumber(d);
      AddDaysNumber(NextDay(d), n - 1);
    } else if n < 0 {
      assert AddDays(d, n) == AddDays(PrevDay(d), n + 1);
      PrevDayNumber(d);
      AddDaysNumber(PrevDay(d), n + 1);
    }
  }

  /** Every day of year `y` has a day number in that year's range. */
  lemma DayNumberInYear(d: CivilDate)
    requires ValidDate(d)
    ensures DaysBeforeYear(d.year) <= DayNumber(d) < DaysBeforeYear(d.year + 1)
  {
    DaysBeforeNextYear(d.year);
  }

  lemma {:induction false} DaysBeforeYearMonotone(a: int, b: int)
    requires a <= b
    ensures DaysBeforeYear(a) + 365 * (b - a) <= DaysBeforeYear(b)
    decreases b - a
  {
    if a < b {
      DaysBeforeYearMonotone(a, b - 1);
      DaysBeforeNextYear(b - 1);
    }
  }

  lemma SameDayNumberSameYear(a: CivilDate, b: CivilDate)
    requires ValidDate(a) && ValidDate(b) && DayNumber(a) == DayNumber(b)
    ensures a.year == b.year
  {
    DayNumberInYear(a);
    DayNumberInYear(b);
    if a.year < b.year {
      DaysBeforeYearMonotone(a.year + 1, b.year);
    } else if b.year < a.year {
      DaysBeforeYearMonotone(b.year + 1, a.year);
    }
  }

  /** Two valid dates with the same day number are the same date. */
  lemma DayNumberInjective(a: CivilDate, b: CivilDate)
    requires ValidDate(a) && ValidDate(b) && DayNumber(a) == DayNumber(b)
    ensures a == b
  {
    SameDayNumberSameYear(a, b);
    assert DaysBeforeMonth(a.year, a.month) + a.day == DaysBeforeMonth(a.year, b.month) + b.day;
  }

  /** Moving by `m` and then by `n` days is moving by `m + n` days. */
  lemma AddDaysAdd(d: CivilDate, m: int, n: int)
    requires ValidDate(d)
    ensures AddDays(AddDays(d, m), n) == AddDays(d, m + n)
  {
    AddDaysNumber(d, m);
    AddDaysNumber(AddDays(d, m), n);
    AddDaysNumber(d, m + n);
    DayNumberInjective(AddDays(AddDays(d, m), n), AddDays(d, m + n));
  }

  /** Within a month, moving forward just raises the day of the month. */
  lemma {:induction false} AddDaysWithinMonth(d: CivilDate, n: nat)
    requires ValidDate(d) && d.day + n <= DaysInMonth(d.year, d.month)
    ensures AddDays(d, n) == CivilDate(d.year, d.month, d.day + n)
    decreases n
  {
    if n > 0 {
      AddDaysWithinMonth(NextDay(d), n - 1);
    }
  }

  // ---------------------------------------------------------------------------
  // Weekdays

  /** `getDay()`: 0 is Sunday; 0001-01-01 of the proleptic calendar is a Monday. */
  function Weekday(d: CivilDate): (w: int)
    requires 1 <= d.month <= 12
    ensures 0 <= w < 7
  {
    (DayNumber(d) + 1) % 7
  }

  lemma WeekdayOfNextDay(d: CivilDate)
    requires ValidDate(d)
    ensures Weekday(NextDay(d)) == (Weekday(d) + 1) % 7
  {
    NextDayNumber(d);
    ShiftMod7(DayNumber(d) + 1);
  }

  lemma ShiftMod7(x: int)
    ensures (x + 1) % 7 == (x % 7 + 1) % 7
  {
  }

  // ---------------------------------------------------------------------------
  // Building dates the way the JavaScript `Date` API does

  /** ECMAScript's MakeDay: a 0-based month index `mi` and a day `dt` outside their
      ranges roll over into the neighbouring months and years. */
  function MakeDay(y: int, mi: int, dt: int): (r: CivilDate)
    ensures ValidDate(r)
  {
    var first := MonthStart(y, mi);
    AddDays(CivilDate(first.year, 1, 1), DaysBeforeMonth(first.year, first.month) + dt - 1)
  }

  /** The first day of month index `mi` counted on from January of `y`; an index
      outside 0..11 moves into the neighbouring years, twelve months at a time. */
  function MonthStart(y: int, mi: int): (r: CivilDate)
    ensures ValidDate(r) && r.day == 1
    decreases if mi < 0 then 12 - mi else mi
  {
    if mi < 0 then MonthStart(y - 1, mi + 12)
    else if mi >= 12 then MonthStart(y + 1, mi - 12)
    else CivilDate(y, mi + 1, 1)
  }

  /** Month index `mi` of year `y` is month `mi % 12 + 1` of year `y + mi / 12`. */
  lemma {:induction false} MonthStartFields(y: int, mi: int)
    ensures MonthStart(y, mi) == CivilDate(y + mi / 12, mi % 12 + 1, 1)
    decreases if mi < 0 then 12 - mi else mi
  {
    if mi < 0 {
      MonthStartFields(y - 1, mi + 12);
      assert (mi + 12) / 12 == mi / 12 + 1 && (mi + 12) % 12 == mi % 12;
    } else if mi >= 12 {
      MonthStartFields(y + 1, mi - 12);
      assert (mi - 12) / 12 == mi / 12 - 1 && (mi - 12) % 12 == mi % 12;
    }
  }

  /** For a month index within the year, the day number is the year's and the
      month's offsets plus `dt - 1`. */
  lemma MakeDayInYear(y: int, mi: int, dt: int)
    requires 0 <= mi < 12
    ensures DayNumber(MakeDay(y, mi, dt)) == DaysBeforeYear(y) + DaysBeforeMonth(y, mi + 1) + dt - 1
  {
    assert MonthStart(y, mi) == CivilDate(y, mi + 1, 1);
    AddDaysNumber(CivilDate(y, 1, 1), DaysBeforeMonth(y, mi + 1) + dt - 1);
  }

  /** Day 1 of month index `mi` is the first of that month. */
  lemma MakeDayFirst(y: int, mi: int)
    ensures MakeDay(y, mi, 1) == MonthStart(y, mi)
  {
    var first := MonthStart(y, mi);
    AddDaysNumber(CivilDate(first.year, 1, 1), DaysBeforeMonth(first.year, first.month));
    DayNumberInjective(MakeDay(y, mi, 1), first);
  }

  /** The day number of `MakeDay(y, mi, dt)` is that of the first of month `mi`
      (counted on from January of `y`), plus `dt - 1`. */
  lemma MakeDayNumber(y: int, mi: int, dt: int)
    ensures DayNumber(MakeDay(y, mi, dt)) == DayNumber(CivilDate(y + mi / 12, mi % 12 + 1, 1)) + dt - 1
  {
    var first := MonthStart(y, mi);
    MonthStartFields(y, mi);
    AddDaysNumber(CivilDate(first.year, 1, 1), DaysBeforeMonth(first.year, first.month) + dt - 1);
  }

  /** A date given by fields in range is built as is. */
  lemma MakeDayOfValid(d: CivilDate)
    requires ValidDate(d)
    ensures MakeDay(d.year, d.month - 1, d.day) == d
  {
    assert MonthStart(d.year, d.month - 1) == CivilDate(d.year, d.month, 1);
    var jan1 := CivilDate(d.year, 1, 1);
    AddDaysNumber(jan1, DaysBeforeMonth(d.year, d.month) + d.day - 1);
    DayNumberInjective(MakeDay(d.year, d.month - 1, d.day), d);
  }

  /** `date.setDate(date.getDate() + n)` is the date `n` days away. */
  lemma MakeDayShift(d: CivilDate, n: int)
    requires ValidDate(d)
    ensures MakeDay(d.year, d.month - 1, d.day + n) == AddDays(d, n)
  {
    var shifted := MakeDay(d.year, d.month - 1, d.day + n);
    MakeDayInYear(d.year, d.month - 1, d.day + n);
    AddDaysNumber(d, n);
    DayNumberInjective(shifted, AddDays(d, n));
  }

  /** The year `new Date(y, …)` uses: 0..99 stand for 1900..1999. */
  function ConstructorYear(y: int): int {
    if 0 <= y <= 99 then 1900 + y else y
  }

  /** `new Date(y, mi, dt)` at midnight. */
  function NewDate(y: int, mi: int, dt: int): (r: CivilDate)
    ensures ValidDate(r)
  {
    MakeDay(ConstructorYear(y), mi, dt)
  }

  /** Months counted from year 0: consecutive months have consecutive indices. */
  function MonthIndex(d: CivilDate): int {
    12 * d.year + d.month - 1
  }

  /** `getMonthsRange(startDate, count)`: the first days of `count` consecutive
      months, starting with the month of `startDate`. */
  method GetMonthsRange(start: CivilDate, count: int) returns (months: seq<CivilDate>)
    ensures |months| == if count < 0 then 0 else count
    ensures forall i :: 0 <= i < |months| ==> ValidDate(months[i]) && months[i].day == 1
    ensures forall i :: 0 <= i < |months| ==>
      MonthIndex(months[i]) == 12 * ConstructorYear(start.year) + start.month - 1 + i
  {
    months := [];
    var i := 0;
    while i < count
      invariant 0 <= i && (count >= 0 ==> i <= count) && (count < 0 ==> i == 0)
      invariant |months| == i
      invariant forall k :: 0 <= k < i ==> ValidDate(months[k]) && months[k].day == 1
      invariant forall k :: 0 <= k < i ==>
        MonthIndex(months[k]) == 12 * ConstructorYear(start.year) + start.month - 1 + k
    {
      var month := NewDate(start.year, start.month - 1 + i, 1);
      MonthStartFields(ConstructorYear(start.year), start.month - 1 + i);
      MakeDayFirst(ConstructorYear(start.year), start.month - 1 + i);
      months := months + [month];
      i := i + 1;
    }
  }

  /** `isSameDay(a, b)`: same year, month and day of the month. */
  predicate IsSameDay(a: CivilDate, b: CivilDate) {
    a.year == b.year && a.month == b.month && a.day == b.day
  }

  /** Two days are the same day exactly when their day numbers agree. */
  lemma IsSameDayByNumber(a: CivilDate, b: CivilDate)
    requires ValidDate(a) && ValidDate(b)
    ensures IsSameDay(a, b) <==> DayNumber(a) == DayNumber(b)
  {
    if DayNumber(a) == DayNumber(b) {
      DayNumberInjective(a, b);
    }
  }

  /** The `i`-th day of a range: `i` days after the start, the start itself first. */
  lemma RangeDay(start: CivilDate, i: int)
    requires ValidDate(start)
    ensures DayNumber(MakeDay(start.year, start.month - 1, start.day + i)) == DayNumber(start) + i
    ensures i == 0 ==> MakeDay(start.year, start.month - 1, start.day + i) == start
  {
    MakeDayInYear(start.year, start.month - 1, start.day + i);
    if i == 0 {
      MakeDayOfValid(start);
    }
  }

  /** `getDaysRange(startDate, count)`: `count` consecutive days from `startDate`,
      each built by `setDate(start.getDate() + i)`. */
  method GetDaysRange(start: CivilDate, count: int) returns (days: seq<CivilDate>)
    requires ValidDate(start)
    ensures |days| == if count < 0 then 0 else count
    ensures forall i :: 0 <= i < |days| ==> ValidDate(days[i]) && DayNumber(days[i]) == DayNumber(start) + i
    ensures |days| > 0 ==> days[0] == start
    ensures forall i, j :: 0 <= i < |days| && 0 <= j < |days| ==> (IsSameDay(days[i], days[j]) <==> i == j)
  {
    days := [];
    var i := 0;
    while i < count
      invariant 0 <= i && (count >= 0 ==> i <= count) && (count < 0 ==> i == 0)
      invariant |days| == i
      invariant forall k :: 0 <= k < i ==> ValidDate(days[k]) && DayNumber(days[k]) == DayNumber(start) + k
      invariant i > 0 ==> days[0] == start
    {
      var day := MakeDay(start.year, start.month - 1, start.day + i);
      RangeDay(start, i);
      days := days + [day];
      i := i + 1;
    }
    forall i, j | 0 <= i < |days| && 0 <= j < |days| && IsSameDay(days[i], days[j]) ensures i == j {
      assert days[i] == days[j];
    }
  }

  // ---------------------------------------------------------------------------
  // Text formats

  /** `formatTime(strTime)`: "HHmm" becomes "HH:mm"; any other length is kept. */
  function FormatTime(s: string): (r: string)
    ensures |s| != 4 ==> r == s
    ensures |s| == 4 ==> |r| == 5 && r[2] == ':' && r[..2] + r[3..] == s
  {
    if |s| != 4 then s else s[0..2] + ":" + s[2..4]
  }

  /** With every colon removed, the formatted time is the input. */
  lemma FormatTimeRemoveColons(s: string)
    ensures RemoveChars(FormatTime(s), {':'}) == RemoveChars(s, {':'})
  {
    if |s| == 4 {
      RemoveCharsAround(s[0..2], ':', s[2..4], {':'});
      RemoveCharsAppend(s[0..2], s[2..4], {':'});
      assert s == s[0..2] + s[2..4];
    }
  }

  /** `replace(':', '')` undoes `formatTime` on a colon-free input. */
  lemma FormatTimeUndo(s: string)
    requires ':' !in s
    ensures RemoveFirst(FormatTime(s), ':') == s
  {
    if |s| == 4 {
      assert ':' !in s[0..2] by {
        forall i | 0 <= i < 2 ensures s[0..2][i] != ':' {
          assert s[0..2][i] == s[i];
        }
      }
      RemoveFirstAfter(s[0..2], ':', s[2..4]);
      assert s == s[0..2] + s[2..4];
    }
  }

  /** `formatYmd(date)`: the year, then the month and the day padded to two digits. */
  function FormatYmd(d: CivilDate): string {
    IntToString(d.year) + Pad2(d.month) + Pad2(d.day)
  }

  /** For four-digit years the text is eight digits: YYYY, MM and DD. */
  lemma FormatYmdShape(d: CivilDate)
    requires ValidDate(d) && 1000 <= d.year <= 9999
    ensures var s := FormatYmd(d);
      |s| == 8 && AllDigits(s) && s[..4] == NatToString(d.year)
      && s[4..6] == Pad2(d.month) && s[6..] == Pad2(d.day)
  {
    NatToStringFourDigits(d.year);
    ParseIntOfPad2(d.month);
    ParseIntOfPad2(d.day);
    var y, m, dd := NatToString(d.year), Pad2(d.month), Pad2(d.day);
    assert FormatYmd(d) == y + m + dd;
    ConcatSlices(y, m, dd);
    assert AllDigits(y + m + dd) by {
      forall i | 0 <= i < 8 ensures IsDigit((y + m + dd)[i]) {
        if i < 4 { assert (y + m + dd)[i] == y[i]; }
        else if i < 6 { assert (y + m + dd)[i] == m[i - 4]; }
        else { assert (y + m + dd)[i] == dd[i - 6]; }
      }
    }
  }

  /** `dateStringToDate(dateStr)`: '-' and '.' are removed, then characters 0-3,
      4-5 and 6-7 are read by `parseInt` as year, month and day; a NaN field
      makes an `Invalid Date`. */
  function DateStringToDate(s: string): (r: Option<CivilDate>)
    ensures r.Some? ==> ValidDate(r.value)
  {
    DateOfFields(ReadDateFields(s))
  }

  /** The building half of `dateStringToDate`: `new Date(year, month - 1, day)`, or
      `None` for an `Invalid Date` when a field is NaN. */
  function DateOfFields(fields: Option<YmdFields>): (r: Option<CivilDate>)
    ensures r.Some? ==> ValidDate(r.value)
  {
    if fields.None? then None
    else Some(NewDate(fields.value.year, fields.value.month - 1, fields.value.day))
  }

  /** The year, month and day fields as `parseInt` reads them. */
  datatype YmdFields = YmdFields(year: int, month: int, day: int)

  /** The parsing half of `dateStringToDate`: the three fields, or `None` when one
      of them is NaN. */
  function ReadDateFields(s: string): Option<YmdFields> {
    var cleaned := RemoveChars(s, {'-', '.'});
    var year := ParseInt(Slice(cleaned, 0, 4));
    var month := ParseInt(Slice(cleaned, 4, 6));
    var day := ParseInt(Slice(cleaned, 6, 8));
    if year.None? || month.None? || day.None? then None
    else Some(YmdFields(year.value, month.value, day.value))
  }

  /** The separators '-' and '.' are ignored wherever they stand. */
  lemma DateStringIgnoresSeparators(s: string)
    ensures DateStringToDate(s) == DateStringToDate(RemoveChars(s, {'-', '.'}))
  {
    RemoveCharsIdempotent(s, {'-', '.'});
    SameCleanedSameDate(s, RemoveChars(s, {'-', '.'}));
  }

  /** Two strings that agree once their separators are removed give the same date. */
  lemma SameCleanedSameDate(a: string, b: string)
    requires RemoveChars(a, {'-', '.'}) == RemoveChars(b, {'-', '.'})
    ensures DateStringToDate(a) == DateStringToDate(b)
  {
    assert ReadDateFields(a) == ReadDateFields(b);
  }

  /** "YYYYMMDD", "YYYY-MM-DD" and "YYYY.MM.DD" name the same date. */
  lemma DateStringFormatsAgree(y: string, m: string, d: string)
    requires AllDigits(y) && AllDigits(m) && AllDigits(d)
    ensures DateStringToDate(y + "-" + m + "-" + d) == DateStringToDate(y + m + d)
    ensures DateStringToDate(y + "." + m + "." + d) == DateStringToDate(y + m + d)
  {
    SeparatedDigitsClean(y, m, d);
    SameCleanedSameDate(y + "-" + m + "-" + d, y + m + d);
    SameCleanedSameDate(y + "." + m + "." + d, y + m + d);
  }

  lemma SeparatedDigitsClean(y: string, m: string, d: string)
    requires AllDigits(y) && AllDigits(m) && AllDigits(d)
    ensures RemoveChars(y + m + d, {'-', '.'}) == y + m + d
    ensures RemoveChars(y + "-" + m + "-" + d, {'-', '.'}) == y + m + d
    ensures RemoveChars(y + "." + m + "." + d, {'-', '.'}) == y + m + d
  {
    var drop := {'-', '.'};
    assert forall i :: 0 <= i < |y| ==> y[i] !in drop;
    assert forall i :: 0 <= i < |m| ==> m[i] !in drop;
    assert forall i :: 0 <= i < |d| ==> d[i] !in drop;
    RemoveCharsAppend(y, m, drop);
    RemoveCharsAppend(y + m, d, drop);
    RemoveCharsAround(y, '-', m, drop);
    RemoveCharsAround(y + "-" + m, '-', d, drop);
    RemoveCharsAround(y, '.', m, drop);
    RemoveCharsAround(y + "." + m, '.', d, drop);
  }

  /** `dateStringToDate(formatYmd(d))` is `d` again for four-digit years. */
  lemma DateStringOfFormatYmd(d: CivilDate)
    requires ValidDate(d) && 1000 <= d.year <= 9999
    ensures DateStringToDate(FormatYmd(d)) == Some(d)
  {
    FormatYmdParses(d);
    NewDateOfValid(d);
  }

  lemma FormatYmdParses(d: CivilDate)
    requires ValidDate(d) && 1000 <= d.year <= 9999
    ensures ReadDateFields(FormatYmd(d)) == Some(YmdFields(d.year, d.month, d.day))
  {
    var s := FormatYmd(d);
    FormatYmdShape(d);
    assert forall i :: 0 <= i < |s| ==> s[i] !in {'-', '.'} by {
      forall i | 0 <= i < |s| ensures IsDigit(s[i]) { }
    }
    assert RemoveChars(s, {'-', '.'}) == s;
    FormatYmdFields(d);
  }

  /** `new Date(y, m - 1, d)` of a valid date with a year past 99 is that date. */
  lemma NewDateOfValid(d: CivilDate)
    requires ValidDate(d) && d.year > 99
    ensures NewDate(d.year, d.month - 1, d.day) == d
  {
    assert ConstructorYear(d.year) == d.year;
    MakeDayOfValid(d);
  }

  /** The three fields `dateStringToDate` reads from a `formatYmd` text. */
  lemma FormatYmdFields(d: CivilDate)
    requires ValidDate(d) && 1000 <= d.year <= 9999
    ensures ParseInt(Slice(FormatYmd(d), 0, 4)) == Some(d.year)
    ensures ParseInt(Slice(FormatYmd(d), 4, 6)) == Some(d.month)
    ensures ParseInt(Slice(FormatYmd(d), 6, 8)) == Some(d.day)
  {
    var s := FormatYmd(d);
    FormatYmdShape(d);
    assert Slice(s, 0, 4) == NatToString(d.year);
    assert Slice(s, 4, 6) == Pad2(d.month);
    assert Slice(s, 6, 8) == Pad2(d.day);
    ParseIntOfNatToString(d.year);
    ParseIntOfPad2(d.month);
    ParseIntOfPad2(d.day);
  }

  // ---------------------------------------------------------------------------
  // Weekday names and the long format

  const DayNames: seq<string> := ["일", "월", "화", "수", "목", "금", "토"]

  /** `getDayOfWeek(date)`: the Korean one-letter weekday name, or '' for an
      `Invalid Date`. */
  function GetDayOfWeek(date: Option<CivilDate>): (r: string)
    requires date.Some? ==> ValidDate(date.value)
  {
    if date.None? then "" else DayNames[Weekday(date.value)]
  }

  /** The names follow the days: the day after a 월 is a 화, the day after a 토 a 일. */
  lemma GetDayOfWeekOfNextDay(d: CivilDate)
    requires ValidDate(d)
    ensures GetDayOfWeek(Some(NextDay(d))) == DayNames[(Weekday(d) + 1) % 7]
    ensures |GetDayOfWeek(Some(d))| == 1
  {
    WeekdayOfNextDay(d);
  }

  /** 2025-07-07 is a Monday (월). */
  lemma GetDayOfWeekExample()
    ensures GetDayOfWeek(Some(CivilDate(2025, 7, 7))) == "월"
  {
    assert DaysBeforeYear(2025) == 739251;
    assert DayNumber(CivilDate(2025, 7, 7)) == 739438;
  }

  /** The date part of the long format: "YYYY.MM.DD". */
  function DottedYmd(d: CivilDate): string {
    IntToString(d.year) + "." + Pad2(d.month) + "." + Pad2(d.day)
  }

  /** `formatFullDateTimeWithDay(dateStr, timeStr)`: "YYYY.MM.DD (요일) HH:mm",
      with '' for an empty argument and "dateStr timeStr" when the date is
      invalid or the time without colons is not four characters long. */
  function FormatFullDateTimeWithDay(dateStr: string, timeStr: string): (r: string)
    ensures dateStr == "" || timeStr == "" ==> r == ""
    ensures dateStr != "" && timeStr != ""
      && (DateStringToDate(dateStr).None? || |RemoveChars(timeStr, {':'})| != 4)
      ==> r == dateStr + " " + timeStr
  {
    if dateStr == "" || timeStr == "" then ""
    else
      var date := DateStringToDate(dateStr);
      if date.None? then dateStr + " " + timeStr
      else
        var cleaned := RemoveChars(timeStr, {':'});
        if |cleaned| != 4 then dateStr + " " + timeStr
        else LongFormat(date.value, cleaned)
  }

  /** "YYYY.MM.DD (요일) HH:mm" from a date and a four-character "HHmm"; the hour
      and minute are its first and last two characters, as `formatTime` joins them. */
  function LongFormat(d: CivilDate, hhmm: string): string
    requires ValidDate(d) && |hhmm| == 4
  {
    DottedYmd(d) + " (" + GetDayOfWeek(Some(d)) + ") " + FormatTime(hhmm)
  }

  /** A date that parses and a time of four characters once its colons are removed
      give the long format of that date and time. */
  lemma FormatFullOfValid(dateStr: string, timeStr: string, d: CivilDate)
    requires dateStr != "" && timeStr != "" && DateStringToDate(dateStr) == Some(d)
    requires |RemoveChars(timeStr, {':'})| == 4
    ensures FormatFullDateTimeWithDay(dateStr, timeStr) == LongFormat(d, RemoveChars(timeStr, {':'}))
  {
  }

  /** For a date that parses, "HHmm" and "HH:mm" give the same text. */
  lemma FormatFullTimeFormatsAgree(dateStr: string, t: string)
    requires DateStringToDate(dateStr).Some? && |t| == 4 && ':' !in t
    ensures FormatFullDateTimeWithDay(dateStr, FormatTime(t)) == FormatFullDateTimeWithDay(dateStr, t)
  {
    FormatTimeRemoveColons(t);
    assert forall i :: 0 <= i < |t| ==> t[i] !in {':'};
  }

  /** The date part of the long format reads back as the same date. */
  lemma DateStringOfDottedYmd(d: CivilDate)
    requires ValidDate(d) && 1000 <= d.year <= 9999
    ensures DateStringToDate(DottedYmd(d)) == Some(d)
  {
    FormatYmdShape(d);
    var y, m, dd := NatToString(d.year), Pad2(d.month), Pad2(d.day);
    DateStringFormatsAgree(y, m, dd);
    assert DottedYmd(d) == y + "." + m + "." + dd;
    assert FormatYmd(d) == y + m + dd;
    DateStringOfFormatYmd(d);
  }

  /** A date written by `formatYmd` and a time "HHmm" give the long format. */
  lemma FormatFullOfYmd(d: CivilDate, h: nat, m: nat)
    requires ValidDate(d) && 1000 <= d.year <= 9999 && h < 100 && m < 100
    ensures FormatFullDateTimeWithDay(FormatYmd(d), Pad2(h) + Pad2(m)) == LongFormat(d, Pad2(h) + Pad2(m))
    ensures FormatTime(Pad2(h) + Pad2(m)) == Pad2(h) + ":" + Pad2(m)
  {
    DateStringOfFormatYmd(d);
    FormatYmdShape(d);
    PadsHaveNoColon(h, m);
    var t := Pad2(h) + Pad2(m);
    FormatFullOfValid(FormatYmd(d), t, d);
    assert t[0..2] == Pad2(h) && t[2..4] == Pad2(m);
  }

  lemma PadsHaveNoColon(h: nat, m: nat)
    requires h < 100 && m < 100
    ensures |Pad2(h) + Pad2(m)| == 4 && RemoveChars(Pad2(h) + Pad2(m), {':'}) == Pad2(h) + Pad2(m)
  {
    ParseIntOfPad2(h);
    ParseIntOfPad2(m);
    RemoveCharsAppend(Pad2(h), Pad2(m), {':'});
    RemoveColonsOfDigits(Pad2(h));
    RemoveColonsOfDigits(Pad2(m));
  }

  // ---------------------------------------------------------------------------
  // The cancellation deadline

  /** A valid JavaScript `Date`: a day and the minute of that day. */
  datatype Moment = Moment(date: CivilDate, minuteOfDay: int)

  /** `t.setDate(dt)`: the day of the month becomes `dt`, rolling over into the
      neighbouring months; a NaN date or argument gives NaN. */
  function SetDate(t: Option<Moment>, dt: Option<int>): (r: Option<Moment>)
    requires t.Some? ==> ValidDate(t.value.date)
    ensures r.Some? <==> t.Some? && dt.Some?
    ensures r.Some? ==> ValidDate(r.value.date) && r.value.minuteOfDay == t.value.minuteOfDay
  {
    if t.None? || dt.None? then None
    else Some(Moment(MakeDay(t.value.date.year, t.value.date.month - 1, dt.value), t.value.minuteOfDay))
  }

  /** `t.setHours(h, m, 0, 0)`: the time of day becomes `h:m`, where hours and
      minutes beyond their ranges move the date; a NaN anywhere gives NaN. */
  function SetHours(t: Option<Moment>, h: Option<int>, m: Option<int>): (r: Option<Moment>)
    requires t.Some? ==> ValidDate(t.value.date)
    ensures r.Some? <==> t.Some? && h.Some? && m.Some?
    ensures r.Some? ==> ValidDate(r.value.date) && 0 <= r.value.minuteOfDay < 1440
  {
    if t.None? || h.None? || m.None? then None
    else
      var total := h.value * 60 + m.value;
      Some(Moment(AddDays(t.value.date, total / 1440), total % 1440))
  }

  /** `String(NaN)`. */
  const NaNText := "NaN"
  /** The fields of an invalid date joined as "YYYYMMDD" and "HHmm": "NaNNaNNaN"
      and "NaNNaN"; the formatter joins those two into "NaNNaNNaN NaNNaN". */
  const NaNDateText := NaNText + NaNText + NaNText
  const NaNTimeText := NaNText + NaNText
  const NaNDeadlineText := NaNDateText + " " + NaNTimeText

  /** `String(v)` of a date field: "NaN" for an invalid date. */
  function FieldText(v: Option<int>): string {
    if v.None? then NaNText else IntToString(v.value)
  }

  /** The three numbers of a "DDHHmm" rule: days before, hour and minute. */
  function RuleFields(rule: string): (Option<int>, Option<int>, Option<int>)
    requires |rule| == 6
  {
    (ParseInt(rule[0..2]), ParseInt(rule[2..4]), ParseInt(rule[4..6]))
  }

  /** Both the base date and all three fields of the rule are numbers. */
  predicate DeadlineParses(base: string, rule: string)
    requires |rule| == 6
  {
    var (days, hour, minute) := RuleFields(rule);
    DateStringToDate(base).Some? && days.Some? && hour.Some? && minute.Some?
  }

  /** The deadline `days` days before `base` at `hour:minute`; hours and minutes
      beyond their ranges carry into the neighbouring days. */
  function Deadline(base: CivilDate, days: int, hour: int, minute: int): (t: Moment)
    requires ValidDate(base)
    ensures ValidDate(t.date) && 0 <= t.minuteOfDay < 1440
  {
    var total := hour * 60 + minute;
    Moment(AddDays(base, total / 1440 - days), total % 1440)
  }

  /** With an hour below 24 and a minute below 60, the deadline falls exactly
      `days` days before the base date, at that hour and minute. */
  lemma DeadlineIsDaysBefore(base: CivilDate, days: int, hour: int, minute: int)
    requires ValidDate(base) && 0 <= hour < 24 && 0 <= minute < 60
    ensures DayNumber(Deadline(base, days, hour, minute).date) == DayNumber(base) - days
    ensures Deadline(base, days, hour, minute).minuteOfDay / 60 == hour
    ensures Deadline(base, days, hour, minute).minuteOfDay % 60 == minute
  {
    var total := hour * 60 + minute;
    assert total / 1440 == 0 && total % 1440 == total;
    AddDaysNumber(base, -days);
  }

  /** Setting the day of the month to `getDate() - days` and then the hours to
      `hour:minute` lands on the deadline. */
  lemma SetDateSetHoursIsDeadline(base: CivilDate, days: int, hour: int, minute: int)
    requires ValidDate(base)
    ensures SetHours(SetDate(Some(Moment(base, 0)), Some(base.day - days)), Some(hour), Some(minute))
      == Some(Deadline(base, days, hour, minute))
  {
    SetDateOfBase(base, days);
    AddDaysAdd(base, -days, (hour * 60 + minute) / 1440);
  }

  lemma SetDateOfBase(base: CivilDate, days: int)
    requires ValidDate(base)
    ensures SetDate(Some(Moment(base, 0)), Some(base.day - days)) == Some(Moment(AddDays(base, -days), 0))
  {
    MakeDayShift(base, -days);
  }

  /** The long format of a deadline moment. */
  function DeadlineText(t: Moment): string
    requires ValidDate(t.date) && 0 <= t.minuteOfDay < 1440
  {
    LongFormat(t.date, Pad2(t.minuteOfDay / 60) + Pad2(t.minuteOfDay % 60))
  }

  /** The texts handed to `formatFullDateTimeWithDay`: the date as "YYYYMMDD" and
      the time as "HHmm", built from `getFullYear()`, `getMonth() + 1`, `getDate()`,
      `getHours()` and `getMinutes()` with `padStart(2, '0')`; every field of an
      invalid date prints as "NaN". */
  function DeadlineFieldTexts(deadline: Option<Moment>): (texts: (string, string))
    requires deadline.Some? ==> ValidDate(deadline.value.date) && 0 <= deadline.value.minuteOfDay < 1440
    ensures texts.0 != "" && texts.1 != ""
    ensures deadline.None? ==> texts == (NaNDateText, NaNTimeText)
    ensures deadline.Some? ==> var t := deadline.value;
      texts == (FormatYmd(t.date), Pad2(t.minuteOfDay / 60) + Pad2(t.minuteOfDay % 60))
  {
    var (year, month, day, hours, minutes) :=
      if deadline.None? then (None, None, None, None, None)
      else
        var t := deadline.value;
        (Some(t.date.year), Some(t.date.month), Some(t.date.day), Some(t.minuteOfDay / 60), Some(t.minuteOfDay % 60));
    assert PadStart2(NaNText) == NaNText;
    (FieldText(year) + PadStart2(FieldText(month)) + PadStart2(FieldText(day)),
     PadStart2(FieldText(hours)) + PadStart2(FieldText(minutes)))
  }

  /** `calculateCancellationDeadline(baseDateStr, cancellationRule)` as written: both
      inputs are trimmed, '' is returned unless they have 8 and 6 characters, and
      otherwise the deadline is computed from the parsed fields. A field that is not
      a number makes the `Date` invalid, and its fields print as "NaN". */
  method CalculateCancellationDeadline(baseDateStr: string, cancellationRule: string) returns (r: string)
    ensures |Trim(baseDateStr)| != 8 || |Trim(cancellationRule)| != 6 ==> r == ""
    ensures |Trim(baseDateStr)| == 8 && |Trim(cancellationRule)| == 6 ==> r != ""
    ensures |Trim(baseDateStr)| == 8 && |Trim(cancellationRule)| == 6 ==>
      (!DeadlineParses(Trim(baseDateStr), Trim(cancellationRule)) ==> r == NaNDeadlineText)
    ensures var base, rule := Trim(baseDateStr), Trim(cancellationRule);
      |base| == 8 && |rule| == 6 && DeadlineParses(base, rule) ==>
        var (days, hour, minute) := RuleFields(rule);
        var t := Deadline(DateStringToDate(base).value, days.value, hour.value, minute.value);
        1000 <= t.date.year <= 9999 ==> r == DeadlineText(t)
  {
    var base := Trim(baseDateStr);
    var rule := Trim(cancellationRule);
    if base == "" || |base| != 8 || rule == "" || |rule| != 6 {
      return "";
    }
    var baseDate := DateStringToDate(base);
    var daysBefore := ParseInt(rule[0..2]);
    var hour := ParseInt(rule[2..4]);
    var minute := ParseInt(rule[4..6]);
    assert RuleFields(rule) == (daysBefore, hour, minute);
    r := DeadlineOfFields(baseDate, daysBefore, hour, minute);
  }

  /** The body of the `try` block: a copy of the base date gets `setDate(getDate() -
      daysBefore)` and `setHours(hour, minute, 0, 0)`, and its fields are formatted
      through `formatFullDateTimeWithDay`. */
  method DeadlineOfFields(baseDate: Option<CivilDate>, daysBefore: Option<int>, hour: Option<int>, minute: Option<int>)
    returns (r: string)
    requires baseDate.Some? ==> ValidDate(baseDate.value)
    ensures r != ""
    ensures baseDate.None? || daysBefore.None? || hour.None? || minute.None? ==> r == NaNDeadlineText
    ensures baseDate.Some? && daysBefore.Some? && hour.Some? && minute.Some? ==>
      var t := Deadline(baseDate.value, daysBefore.value, hour.value, minute.value);
      1000 <= t.date.year <= 9999 ==> r == DeadlineText(t)
  {
    var deadline: Option<Moment> := if baseDate.None? then None else Some(Moment(baseDate.value, 0));
    var dayOfMonth := if baseDate.None? || daysBefore.None? then None else Some(baseDate.value.day - daysBefore.value);
    deadline := SetDate(deadline, dayOfMonth);
    deadline := SetHours(deadline, hour, minute);
    if baseDate.Some? && daysBefore.Some? && hour.Some? && minute.Some? {
      SetDateSetHoursIsDeadline(baseDate.value, daysBefore.value, hour.value, minute.value);
      assert deadline == Some(Deadline(baseDate.value, daysBefore.value, hour.value, minute.value));
    }
    var (dateText, timeText) := DeadlineFieldTexts(deadline);
    r := FormatFullDateTimeWithDay(dateText, timeText);
    FormatDeadlineFields(deadline);
  }

  /** What `formatFullDateTimeWithDay` makes of the field texts of a deadline. */
  lemma FormatDeadlineFields(deadline: Option<Moment>)
    requires deadline.Some? ==> ValidDate(deadline.value.date) && 0 <= deadline.value.minuteOfDay < 1440
    ensures var (dateText, timeText) := DeadlineFieldTexts(deadline);
      var r := FormatFullDateTimeWithDay(dateText, timeText);
      && r != ""
      && (deadline.None? ==> r == NaNDeadlineText)
      && (deadline.Some? && 1000 <= deadline.value.date.year <= 9999 ==> r == DeadlineText(deadline.value))
  {
    var (dateText, timeText) := DeadlineFieldTexts(deadline);
    if deadline.None? {
      NaNTextFallback(dateText, timeText);
    } else {
      var t := deadline.value;
      if 1000 <= t.date.year <= 9999 {
        FormatFullOfYmd(t.date, t.minuteOfDay / 60, t.minuteOfDay % 60);
      }
    }
  }

  /** A date string free of separators whose year or month field starts with a
      letter does not parse. */
  lemma DateStringOfLetter(s: string, k: nat)
    requires (forall i :: 0 <= i < |s| ==> s[i] !in {'-', '.'}) && (k == 0 || k == 4) && k + 2 <= |s|
    requires !IsJsWhitespace(s[k]) && !IsDigit(s[k]) && s[k] != '+' && s[k] != '-'
    ensures ReadDateFields(s).None? && DateStringToDate(s).None?
  {
    assert RemoveChars(s, {'-', '.'}) == s;
    var field := Slice(s, k, k + if k == 0 then 4 else 2);
    assert field[0] == s[k];
    ParseIntOfNonNumeral(field);
  }

  /** The text of an invalid deadline is not a date either, so it comes back as is. */
  lemma NaNTextFallback(dateText: string, timeText: string)
    requires dateText == NaNDateText && timeText == NaNTimeText
    ensures FormatFullDateTimeWithDay(dateText, timeText) == NaNDeadlineText
  {
    NaNDateTextUnparsable(dateText);
  }

  lemma NaNDateTextUnparsable(dateText: string)
    requires dateText == NaNDateText
    ensures DateStringToDate(dateText).None?
  {
    assert forall i :: 0 <= i < |dateText| ==> dateText[i] !in {'-', '.'};
    DateStringOfLetter(dateText, 0);
  }

  /** A base date with letters in its month, such as "2025AB07", passes the length
      test but does not parse. */
  lemma UnparsableBaseExample(base: string, rule: string)
    requires base == "2025AB07" && rule == "031700"
    ensures |Trim(base)| == 8 && |Trim(rule)| == 6
    ensures !DeadlineParses(Trim(base), Trim(rule))
  {
    TrimOfUnpadded(base);
    TrimOfUnpadded(rule);
    assert forall i :: 0 <= i < |base| ==> base[i] !in {'-', '.'};
    DateStringOfLetter(base, 4);
  }

  /** The deadline with the documented failure result: '' whenever the inputs
      have the wrong lengths or do not parse, and the deadline text otherwise. */
  method CancellationDeadlineOrEmpty(baseDateStr: string, cancellationRule: string) returns (r: string)
    ensures var base, rule := Trim(baseDateStr), Trim(cancellationRule);
      r == "" <==> |base| != 8 || |rule| != 6 || !DeadlineParses(base, rule)
    ensures var base, rule := Trim(baseDateStr), Trim(cancellationRule);
      |base| == 8 && |rule| == 6 && DeadlineParses(base, rule) ==>
        var (days, hour, minute) := RuleFields(rule);
        var t := Deadline(DateStringToDate(base).value, days.value, hour.value, minute.value);
        1000 <= t.date.year <= 9999 ==> r == DeadlineText(t)
  {
    var base := Trim(baseDateStr);
    var rule := Trim(cancellationRule);
    if |base| != 8 || |rule| != 6 || !DeadlineParses(base, rule) {
      return "";
    }
    r := CalculateCancellationDeadline(baseDateStr, cancellationRule);
  }
}
