/**
 * utils/time.ts: digit transliteration, the Gregorian-to-Jalali conversion, the
 * calendar-time and working-time duration formatters, the month selection list and
 * its parser, the e-mail check and the hours-needed division.
 *
 * JavaScript numbers are modelled as exact `real`s (or `int`s where the source only
 * ever holds whole numbers); `Math.floor(x)` is `x.Floor`, `Math.round(x)` is
 * `(x + 0.5).Floor`, and the truncating `%` of JavaScript is written out (JsRem, JsFrac).
 */
module Time {
  import opened Wrappers
  import opened Strings

  const PersianMonths: seq<string> := [
    "فروردین", "اردیبهشت", "خرداد", "تیر", "مرداد", "شهریور",
    "مهر", "آبان", "آذر", "دی", "بهمن", "اسفند"
  ]

  const PersianNumbers: seq<char> := ['۰', '۱', '۲', '۳', '۴', '۵', '۶', '۷', '۸', '۹']

  /** The text shown for a zero or negative duration ("0 seconds"). */
  const ZeroSeconds: string := "۰ ثانیه"

  /** The qualifier appended to a working-time duration ("on a working basis"). */
  const WorkingSuffix: string := " کاری"

  // ---------------------------------------------------------------------------
  // Digits

  predicate IsPersianDigit(c: char) {
    '۰' <= c <= '۹'
  }

  function PersianDigitOf(c: char): char {
    if IsAsciiDigit(c) then PersianNumbers[DigitValue(c)] else c
  }

  function EnglishDigitOf(c: char): char {
    if IsPersianDigit(c) then ((c as int) - ('۰' as int) + ('0' as int)) as char else c
  }

  /** `toPersianDigits`: every ASCII digit becomes its Persian digit, nothing else changes. */
  function ToPersianDigits(s: string): (r: string)
    ensures |r| == |s|
    ensures forall i :: 0 <= i < |s| ==> r[i] == PersianDigitOf(s[i])
  {
    if s == [] then [] else [PersianDigitOf(s[0])] + ToPersianDigits(s[1..])
  }

  /** `toEnglishDigits`: every Persian digit becomes its ASCII digit, nothing else changes. */
  function ToEnglishDigits(s: string): (r: string)
    ensures |r| == |s|
    ensures forall i :: 0 <= i < |s| ==> r[i] == EnglishDigitOf(s[i])
  {
    if s == [] then [] else [EnglishDigitOf(s[0])] + ToEnglishDigits(s[1..])
  }

  /** Transliterating to Persian and back is the identity on text without Persian digits. */
  lemma {:induction false} DigitsRoundTrip(s: string)
    requires forall i :: 0 <= i < |s| ==> !IsPersianDigit(s[i])
    ensures ToEnglishDigits(ToPersianDigits(s)) == s
  {
    if s != [] {
      DigitsRoundTrip(s[1..]);
      assert ToPersianDigits(s) == [PersianDigitOf(s[0])] + ToPersianDigits(s[1..]);
    }
  }

  /** And back again: Persian then English is the identity on text without ASCII digits. */
  lemma {:induction false} DigitsRoundTripPersian(s: string)
    requires forall i :: 0 <= i < |s| ==> !IsAsciiDigit(s[i])
    ensures ToPersianDigits(ToEnglishDigits(s)) == s
  {
    if s != [] {
      DigitsRoundTripPersian(s[1..]);
      assert ToEnglishDigits(s) == [EnglishDigitOf(s[0])] + ToEnglishDigits(s[1..]);
    }
  }

  /** `toPersianDigits(n)` for a number that holds an integer. */
  function PersianNumber(n: int): string {
    ToPersianDigits(DecimalString(n))
  }

  // ---------------------------------------------------------------------------
  // JavaScript arithmetic

  /** `Math.round(x)`: the nearest integer, halves rounded up. */
  function Round(x: real): (r: int)
    ensures r as real - 0.5 <= x < r as real + 0.5
  {
    (x + 0.5).Floor
  }

  /**
   * `a % b` on integers in JavaScript: the remainder of the division truncated toward
   * zero, so it differs from `a` by a multiple of `b`, is smaller than `b` in size and
   * takes the sign of `a`.
   */
  function JsRem(a: int, b: int): (r: int)
    requires b > 0
    ensures (a - r) % b == 0
    ensures a >= 0 ==> 0 <= r < b
    ensures a < 0 ==> -b < r <= 0
  {
    RemOfSign(a, b);
    if a >= 0 then a % b else -((-a) % b)
  }

  lemma RemOfSign(a: int, b: int)
    requires b > 0
    ensures a >= 0 ==> (a - a % b) % b == 0
    ensures a < 0 ==> (a + (-a) % b) % b == 0
  {
    var n := if a >= 0 then a else -a;
    var q := n / b;
    assert n == b * q + n % b;
    if a >= 0 {
      MultipleRem(q, b);
    } else {
      assert a + n % b == (-q) * b;
      MultipleRem(-q, b);
    }
  }

  /** A multiple of `b` leaves no remainder. */
  lemma MultipleRem(k: int, b: int)
    requires b > 0
    ensures (k * b) % b == 0 && (b * k) % b == 0
  {
    var n := k * b;
    DivUnique(n, b, k);
  }

  /**
   * `x % 1` on numbers in JavaScript: what is left after dropping the whole part of `x`
   * toward zero, so `x - r` is a whole number and `r` has the sign of `x`.
   */
  function JsFrac(x: real): (r: real)
    ensures (x - r).Floor as real == x - r
    ensures x >= 0.0 ==> 0.0 <= r < 1.0
    ensures x < 0.0 ==> -1.0 < r <= 0.0
  {
    if x >= 0.0 then
      assert x - (x - x.Floor as real) == x.Floor as real;
      x - x.Floor as real
    else
      var r := x + (-x).Floor as real;
      assert x - r == (-((-x).Floor)) as real;
      r
  }

  lemma FloorQuotient(x: real, y: real)
    requires y > 0.0
    ensures (x / y).Floor as real * y <= x < ((x / y).Floor as real + 1.0) * y
  {
    var q := x / y;
    var f := q.Floor as real;
    assert f <= q < f + 1.0;
    MulMonotone(f, q, y);
    MulStrictMonotone(q, f + 1.0, y);
    assert q * y == x;
    assert f * y <= x;
    assert x < (f + 1.0) * y;
  }

  lemma MulMonotone(a: real, b: real, y: real)
    requires a <= b && y > 0.0
    ensures a * y <= b * y
  {
  }

  lemma MulStrictMonotone(a: real, b: real, y: real)
    requires a < b && y > 0.0
    ensures a * y < b * y
  {
  }

  // ---------------------------------------------------------------------------
  // Gregorian to Jalali

  /** Zero-based day of the Jalali year: six 31-day months, then 30-day months. */
  function JalaliDayOfYear(jm: int, jd: int): int {
    if jm <= 6 then (jm - 1) * 31 + jd - 1 else 186 + (jm - 7) * 30 + jd - 1
  }

  /**
   * `gregorianToJalali`. For a date after 1600 the Jalali month is 1..12, the day is
   * 1..31 (1..30 from the seventh month on) and together they name a day 0..365 of the
   * Jalali year; the year is at least 978.
   */
  method GregorianToJalali(gYear: int, gm: int, gd: int) returns (jy: int, jm: int, jd: int)
    requires 1 <= gm <= 12 && 1 <= gd <= 31
    ensures gYear > 1600 ==> 1 <= jm <= 12 && 1 <= jd <= 31 && (jm >= 7 ==> jd <= 30)
    ensures gYear > 1600 ==> 0 <= JalaliDayOfYear(jm, jd) <= 365
    ensures gYear > 1600 ==> jy >= 978
  {
    var gDaysBeforeMonth := [0, 31, 59, 90, 120, 151, 181, 212, 243, 273, 304, 334];
    var gy := gYear;
    jy := if gy <= 1600 then 0 else 979;
    gy := gy - (if gy <= 1600 then 621 else 1600);
    var gy2 := if gm > 2 then gy + 1 else gy;
    var days := (365 * gy) + ((gy2 + 3) / 4) - ((gy2 + 99) / 100)
      + ((gy2 + 399) / 400) - 80 + gd + gDaysBeforeMonth[gm - 1];
    assert gYear > 1600 ==> days > 0 by {
      if gYear > 1600 {
        assert gy >= 1 && gy2 <= gy + 1;
        assert (gy2 + 99) / 100 <= gy;
      }
    }
    jy := jy + 33 * (days / 12053);
    days := JsRem(days, 12053);
    jy := jy + 4 * (days / 1461);
    days := JsRem(days, 1461);
    jy := jy + (days - 1) / 365;
    if days > 365 {
      days := JsRem(days - 1, 365);
    }
    jm := if days < 186 then 1 + days / 31 else 7 + (days - 186) / 30;
    jd := 1 + (if days < 186 then JsRem(days, 31) else JsRem(days - 186, 30));
    assert gYear > 1600 ==> 0 <= days <= 365;
  }

  /** `getCurrentPersianMonth`, with today's Gregorian date as parameters: "<month name> <year>". */
  method CurrentPersianMonth(gy: int, gm: int, gd: int) returns (monthLabel: string)
    requires 1 <= gm <= 12 && 1 <= gd <= 31
    ensures gy > 1600 ==> exists y, m :: y >= 978 && 1 <= m <= 12 && monthLabel == MonthLabel(y, m)
  {
    var jy, jm, _ := GregorianToJalali(gy, gm, gd);
    monthLabel := MonthLabel(jy, jm);
  }

  // ---------------------------------------------------------------------------
  // Duration parts and their rendering

  datatype TimeUnit = Century | Year | Month | Week | Day | Hour | Minute | Second

  /** Coarser units have smaller ranks. */
  function Rank(u: TimeUnit): nat {
    match u
    case Century => 0 case Year => 1 case Month => 2 case Week => 3
    case Day => 4 case Hour => 5 case Minute => 6 case Second => 7
  }

  /** The next finer unit. */
  function Finer(u: TimeUnit): (v: TimeUnit)
    requires u != Second
    ensures Rank(v) == Rank(u) + 1
  {
    match u
    case Century => Year case Year => Month case Month => Week case Week => Day
    case Day => Hour case Hour => Minute case Minute => Second
  }

  function UnitName(u: TimeUnit): string {
    match u
    case Century => "قرن" case Year => "سال" case Month => "ماه" case Week => "هفته"
    case Day => "روز" case Hour => "ساعت" case Minute => "دقیقه" case Second => "ثانیه"
  }

  /**
   * One pushed entry of `parts`: a number and its unit, JavaScript's `Infinity` of a
   * unit, or the "less than 1 hour" phrase.
   */
  datatype Part = Amount(value: int, unit: TimeUnit) | Unbounded(unit: TimeUnit) | UnderAnHour

  function RenderPart(p: Part): string {
    match p
    case Amount(v, u) => PersianNumber(v) + " " + UnitName(u)
    case Unbounded(u) => ToPersianDigits("Infinity") + " " + UnitName(u)
    case UnderAnHour => "کمتر از ۱ ساعت"
  }

  /** `parts.join(sep)` over the rendered parts. */
  function RenderParts(parts: seq<Part>, sep: string): string {
    Join(PartTexts(parts), sep)
  }

  /** The rendering of each part, in order. */
  function PartTexts(parts: seq<Part>): (texts: seq<string>)
    ensures |texts| == |parts|
    ensures forall i :: 0 <= i < |parts| ==> texts[i] == RenderPart(parts[i])
  {
    seq(|parts|, i requires 0 <= i < |parts| => RenderPart(parts[i]))
  }

  // ---------------------------------------------------------------------------
  // Calendar time: hoursToAllUnits, formatHoursToPersian, getDetailedTimeBreakdown

  const HoursPerCentury: real := 24.0 * 365.25 * 100.0
  const HoursPerYear: real := 24.0 * 365.25
  const HoursPerMonth: real := 24.0 * 30.0
  const HoursPerWeek: real := 24.0 * 7.0

  /** The unrounded cascade of hoursToAllUnits: each unit is taken from the previous remainder. */
  datatype CalendarCascade = CalendarCascade(
    centuries: int, years: int, months: int, weeks: int, days: int,
    hours: real, minutes: real, seconds: real)

  function CalendarUnits(totalHours: real): CalendarCascade {
    var centuries := (totalHours / HoursPerCentury).Floor;
    var afterCenturies := totalHours - centuries as real * HoursPerCentury;
    var years := (afterCenturies / HoursPerYear).Floor;
    var afterYears := afterCenturies - years as real * HoursPerYear;
    var months := (afterYears / HoursPerMonth).Floor;
    var afterMonths := afterYears - months as real * HoursPerMonth;
    var weeks := (afterMonths / HoursPerWeek).Floor;
    var afterWeeks := afterMonths - weeks as real * HoursPerWeek;
    var days := (afterWeeks / 24.0).Floor;
    var hours := afterWeeks - days as real * 24.0;
    var minutes := JsFrac(totalHours) * 60.0;
    var seconds := JsFrac(minutes) * 60.0;
    CalendarCascade(centuries, years, months, weeks, days, hours, minutes, seconds)
  }

  datatype TimeBreakdown = TimeBreakdown(
    centuries: int, years: int, months: int, weeks: int, days: int,
    hours: int, minutes: int, seconds: int)

  /**
   * `hoursToAllUnits`: the cascade with every unit rounded. HoursToAllUnitsBounds states
   * the range of each unit and CalendarUnitsExact how the cascade divides the hours.
   */
  function HoursToAllUnits(totalHours: real): TimeBreakdown {
    var c := CalendarUnits(totalHours);
    TimeBreakdown(c.centuries, c.years, c.months, c.weeks, c.days,
                  Round(c.hours), Round(c.minutes), Round(c.seconds))
  }

  /**
   * The cascade of hoursToAllUnits splits a non-negative duration exactly into
   * 100 x 365.25-day centuries, 365.25-day years, 30-day months, 7-day weeks, days and
   * hours, each unit below the size of the next coarser one; the minutes and seconds are
   * the fractional hour and fractional minute.
   */
  lemma CalendarUnitsExact(totalHours: real)
    requires totalHours >= 0.0
    ensures var c := CalendarUnits(totalHours);
      && c.centuries as real * HoursPerCentury + c.years as real * HoursPerYear
         + c.months as real * HoursPerMonth + c.weeks as real * HoursPerWeek
         + c.days as real * 24.0 + c.hours == totalHours
      && c.centuries >= 0 && 0 <= c.years <= 99 && 0 <= c.months <= 12
      && 0 <= c.weeks <= 4 && 0 <= c.days <= 6 && 0.0 <= c.hours < 24.0
      && 0.0 <= c.minutes < 60.0 && 0.0 <= c.seconds < 60.0
  {
    var c := CalendarUnits(totalHours);
    FloorQuotient(totalHours, HoursPerCentury);
    var afterCenturies := totalHours - c.centuries as real * HoursPerCentury;
    FloorQuotient(afterCenturies, HoursPerYear);
    var afterYears := afterCenturies - c.years as real * HoursPerYear;
    FloorQuotient(afterYears, HoursPerMonth);
    var afterMonths := afterYears - c.months as real * HoursPerMonth;
    FloorQuotient(afterMonths, HoursPerWeek);
    var afterWeeks := afterMonths - c.weeks as real * HoursPerWeek;
    FloorQuotient(afterWeeks, 24.0);
  }

  /** Every rounded unit of hoursToAllUnits is non-negative for a non-negative duration. */
  lemma HoursToAllUnitsBounds(totalHours: real)
    requires totalHours >= 0.0
    ensures var b := HoursToAllUnits(totalHours);
      && b.centuries >= 0 && 0 <= b.years <= 99 && 0 <= b.months <= 12 && 0 <= b.weeks <= 4
      && 0 <= b.days <= 6 && 0 <= b.hours <= 24 && 0 <= b.minutes <= 60 && 0 <= b.seconds <= 60
  {
    CalendarUnitsExact(totalHours);
  }

  function UnitValue(b: TimeBreakdown, u: TimeUnit): int {
    match u
    case Century => b.centuries case Year => b.years case Month => b.months
    case Week => b.weeks case Day => b.days case Hour => b.hours
    case Minute => b.minutes case Second => b.seconds
  }

  /** The unit and, when it is positive, the next finer unit. */
  function TierFrom(b: TimeBreakdown, u: TimeUnit): seq<Part> {
    [Amount(UnitValue(b, u), u)]
      + (if u != Second && UnitValue(b, Finer(u)) > 0 then [Amount(UnitValue(b, Finer(u)), Finer(u))] else [])
  }

  /** The `parts` that formatHoursToPersian pushes. */
  function CalendarParts(b: TimeBreakdown): seq<Part> {
    if b.centuries > 0 then TierFrom(b, Century)
    else if b.years > 0 then TierFrom(b, Year)
    else if b.months > 0 then TierFrom(b, Month)
    else if b.weeks > 0 then TierFrom(b, Week)
    else if b.days > 0 then TierFrom(b, Day)
    else if b.hours > 0 then TierFrom(b, Hour)
    else if b.minutes > 0 then TierFrom(b, Minute)
    else if b.seconds > 0 then [Amount(b.seconds, Second)]
    else []
  }

  /**
   * `formatHoursToPersian`. CalendarTierSelection says which tier and remainder its parts
   * show, and FormatHoursToPersianZero what it prints for no time at all.
   */
  function FormatHoursToPersian(totalHours: real): string {
    if totalHours <= 0.0 then ZeroSeconds
    else
      var parts := CalendarParts(HoursToAllUnits(totalHours));
      var joined := RenderParts(parts, " و ");
      if Round(totalHours) > 24 && |parts| > 0 then joined
      else if joined == "" then "کمتر از یک ثانیه" else joined
  }

  /**
   * formatHoursToPersian emits at most two units: the coarsest positive one (every
   * coarser unit is zero), followed by the next finer unit exactly when that one is
   * positive; nothing at all only when every unit is zero.
   */
  lemma CalendarTierSelection(b: TimeBreakdown)
    ensures var parts := CalendarParts(b);
      && |parts| <= 2
      && (|parts| == 0 <==> forall u :: UnitValue(b, u) <= 0)
      && (|parts| >= 1 ==>
            && parts[0].Amount?
            && parts[0].value == UnitValue(b, parts[0].unit) > 0
            && (forall u :: Rank(u) < Rank(parts[0].unit) ==> UnitValue(b, u) <= 0)
            && (|parts| == 2 <==> parts[0].unit != Second && UnitValue(b, Finer(parts[0].unit)) > 0))
      && (|parts| == 2 ==>
            && parts[1].Amount?
            && parts[1].unit == Finer(parts[0].unit)
            && parts[1].value == UnitValue(b, parts[1].unit))
  {
    var parts := CalendarParts(b);
    if |parts| == 0 {
      forall u ensures UnitValue(b, u) <= 0 { }
    }
    if |parts| >= 1 {
      forall u | Rank(u) < Rank(parts[0].unit) ensures UnitValue(b, u) <= 0 { }
    }
  }

  /** The zero-or-negative duration renders as "0 seconds". */
  lemma FormatHoursToPersianZero(totalHours: real)
    requires totalHours <= 0.0
    ensures FormatHoursToPersian(totalHours) == ZeroSeconds
  {
  }

  /** Whether getDetailedTimeBreakdown lists unit `u`: minutes only without days or years, seconds never. */
  predicate Listed(b: TimeBreakdown, u: TimeUnit) {
    if u == Minute then b.minutes > 0 && b.days == 0 && b.years == 0
    else u != Second && UnitValue(b, u) > 0
  }

  /** The listed units among `units`, in the given order, each with its value. */
  function Select(b: TimeBreakdown, units: seq<TimeUnit>): seq<Part> {
    if units == [] then []
    else (if Listed(b, units[0]) then [Amount(UnitValue(b, units[0]), units[0])] else []) + Select(b, units[1..])
  }

  /** The `parts` of getDetailedTimeBreakdown: each unit from centuries to minutes is checked in turn. */
  function DetailedParts(b: TimeBreakdown): seq<Part> {
    Select(b, DetailedUnits)
  }

  /**
   * `getDetailedTimeBreakdown`: DetailedPartsShape states which units it lists and in what
   * order; SelectSound, SelectOrdered and SelectComplete are the general facts behind it.
   */
  function GetDetailedTimeBreakdown(totalHours: real): string {
    RenderParts(DetailedParts(HoursToAllUnits(totalHours)), "، ")
  }

  predicate RanksIncrease(units: seq<TimeUnit>) {
    forall i, j :: 0 <= i < j < |units| ==> Rank(units[i]) < Rank(units[j])
  }

  /** Selecting keeps only listed units from the list, each with its value. */
  lemma {:induction false} SelectSound(b: TimeBreakdown, units: seq<TimeUnit>)
    ensures var parts := Select(b, units);
      forall i :: 0 <= i < |parts| ==>
        parts[i].Amount? && parts[i].unit in units && Listed(b, parts[i].unit)
        && parts[i].value == UnitValue(b, parts[i].unit)
  {
    if units != [] {
      var rest := units[1..];
      SelectSound(b, rest);
      var head := if Listed(b, units[0]) then [Amount(UnitValue(b, units[0]), units[0])] else [];
      var parts := Select(b, units);
      assert parts == head + Select(b, rest);
      forall i | 0 <= i < |parts|
        ensures parts[i].Amount? && parts[i].unit in units && Listed(b, parts[i].unit)
      {
        if i >= |head| {
          assert parts[i] == Select(b, rest)[i - |head|];
          assert parts[i].unit in rest;
        }
      }
    }
  }

  /** Selecting from units in increasing rank keeps them in that order. */
  lemma {:induction false} SelectOrdered(b: TimeBreakdown, units: seq<TimeUnit>)
    requires RanksIncrease(units)
    ensures var parts := Select(b, units);
      forall i, j :: 0 <= i < j < |parts| ==>
        parts[i].Amount? && parts[j].Amount? && Rank(parts[i].unit) < Rank(parts[j].unit)
  {
    if units != [] {
      var rest := units[1..];
      assert RanksIncrease(rest);
      SelectOrdered(b, rest);
      SelectSound(b, rest);
      var head := if Listed(b, units[0]) then [Amount(UnitValue(b, units[0]), units[0])] else [];
      var parts := Select(b, units);
      assert parts == head + Select(b, rest);
      SelectSound(b, units);
      forall i, j | 0 <= i < j < |parts|
        ensures parts[i].Amount? && parts[j].Amount? && Rank(parts[i].unit) < Rank(parts[j].unit)
      {
        if i < |head| {
          assert parts[j] == Select(b, rest)[j - |head|];
          var k :| 0 <= k < |rest| && rest[k] == parts[j].unit;
          assert rest[k] == units[k + 1];
        } else {
          assert parts[i] == Select(b, rest)[i - |head|];
          assert parts[j] == Select(b, rest)[j - |head|];
        }
      }
    }
  }

  /** Every listed unit of the list is selected. */
  lemma {:induction false} SelectComplete(b: TimeBreakdown, units: seq<TimeUnit>, u: TimeUnit)
    requires u in units && Listed(b, u)
    ensures exists i :: 0 <= i < |Select(b, units)| && Select(b, units)[i].Amount? && Select(b, units)[i].unit == u
  {
    var rest := units[1..];
    var head := if Listed(b, units[0]) then [Amount(UnitValue(b, units[0]), units[0])] else [];
    var parts := Select(b, units);
    assert parts == head + Select(b, rest);
    if u == units[0] {
      assert parts[0].unit == u;
    } else {
      assert u in rest;
      SelectComplete(b, rest, u);
      var k :| 0 <= k < |Select(b, rest)| && Select(b, rest)[k].Amount? && Select(b, rest)[k].unit == u;
      assert parts[|head| + k] == Select(b, rest)[k];
    }
  }

  /** The units getDetailedTimeBreakdown tests, coarsest first. */
  const DetailedUnits: seq<TimeUnit> := [Century, Year, Month, Week, Day, Hour, Minute]

  lemma DetailedUnitsShape()
    ensures RanksIncrease(DetailedUnits)
    ensures forall u :: u in DetailedUnits <==> Rank(u) <= Rank(Minute)
  {
    forall u | Rank(u) <= Rank(Minute) ensures u in DetailedUnits {
      match u
      case Century => assert DetailedUnits[0] == u;
      case Year => assert DetailedUnits[1] == u;
      case Month => assert DetailedUnits[2] == u;
      case Week => assert DetailedUnits[3] == u;
      case Day => assert DetailedUnits[4] == u;
      case Hour => assert DetailedUnits[5] == u;
      case Minute => assert DetailedUnits[6] == u;
    }
  }

  /**
   * getDetailedTimeBreakdown lists the units coarsest first, each with its positive
   * value; a unit from centuries to hours appears exactly when it is positive, minutes
   * exactly when positive and there are no days and no years, and seconds never.
   */
  lemma DetailedPartsShape(b: TimeBreakdown)
    ensures var parts := DetailedParts(b);
      && (forall i :: 0 <= i < |parts| ==> parts[i].Amount? && parts[i].value == UnitValue(b, parts[i].unit) > 0)
      && (forall i, j :: 0 <= i < j < |parts| ==> Rank(parts[i].unit) < Rank(parts[j].unit))
      && (forall u :: Rank(u) <= Rank(Hour) ==>
            (UnitValue(b, u) > 0 <==> exists i :: 0 <= i < |parts| && parts[i].Amount? && parts[i].unit == u))
      && ((b.minutes > 0 && b.days == 0 && b.years == 0) <==>
            exists i :: 0 <= i < |parts| && parts[i].Amount? && parts[i].unit == Minute)
      && (forall i :: 0 <= i < |parts| ==> parts[i].unit != Second)
  {
    var parts := DetailedParts(b);
    DetailedUnitsShape();
    SelectSound(b, DetailedUnits);
    SelectOrdered(b, DetailedUnits);
    forall u | Rank(u) <= Rank(Minute) && Listed(b, u)
      ensures exists i :: 0 <= i < |parts| && parts[i].Amount? && parts[i].unit == u
    {
      SelectComplete(b, DetailedUnits, u);
    }
  }

  // ---------------------------------------------------------------------------
  // Working time: formatHoursToPersianWorking

  /** The cascade of formatHoursToPersianWorking before any text is built. */
  datatype WorkingCascade = WorkingCascade(
    fullDays: int, remainingHours: real,
    weeks: int, remainingDays: int,
    months: int, remainingWeeks: int,
    years: int, remainingMonths: int)

  const WeeksPerMonth: real := 4.33

  function WorkingUnits(totalHours: real, hoursPerDay: real, daysPerWeek: int): WorkingCascade
    requires hoursPerDay > 0.0 && daysPerWeek > 0
  {
    var fullDays := (totalHours / hoursPerDay).Floor;
    var remainingHours := totalHours - fullDays as real * hoursPerDay;
    var weeks := (fullDays as real / daysPerWeek as real).Floor;
    var remainingDays := fullDays - weeks * daysPerWeek;
    var months := (weeks as real / WeeksPerMonth).Floor;
    var remainingWeeks := Round(weeks as real - months as real * WeeksPerMonth);
    var years := (months as real / 12.0).Floor;
    var remainingMonths := Round(months as real - years as real * 12.0);
    WorkingCascade(fullDays, remainingHours, weeks, remainingDays, months, remainingWeeks, years, remainingMonths)
  }

  /**
   * Each step of the working cascade leaves a remainder below the size of its unit:
   * hours below a working day, days below a working week, at most 4 weeks (a month is
   * 4.33 weeks) and at most 11 months; there are years exactly when there are 12 months.
   */
  lemma WorkingUnitsBounds(totalHours: real, hoursPerDay: real, daysPerWeek: int)
    requires totalHours > 0.0 && hoursPerDay > 0.0 && daysPerWeek > 0
    ensures var c := WorkingUnits(totalHours, hoursPerDay, daysPerWeek);
      && c.fullDays >= 0 && c.weeks >= 0 && c.months >= 0 && c.years >= 0
      && c.fullDays as real * hoursPerDay + c.remainingHours == totalHours
      && 0.0 <= c.remainingHours < hoursPerDay
      && c.weeks * daysPerWeek + c.remainingDays == c.fullDays
      && 0 <= c.remainingDays < daysPerWeek
      && 0 <= c.remainingWeeks <= 4
      && 0 <= c.remainingMonths <= 11
      && (c.years > 0 <==> c.months >= 12)
  {
    var c := WorkingUnits(totalHours, hoursPerDay, daysPerWeek);
    DaysStage(totalHours, hoursPerDay);
    WeeksStage(c.fullDays, daysPerWeek);
    MonthsStage(c.weeks);
    YearsStage(c.months);
  }

  lemma DaysStage(totalHours: real, hoursPerDay: real)
    requires totalHours > 0.0 && hoursPerDay > 0.0
    ensures var fullDays := (totalHours / hoursPerDay).Floor;
      fullDays >= 0 && 0.0 <= totalHours - fullDays as real * hoursPerDay < hoursPerDay
  {
    FloorQuotient(totalHours, hoursPerDay);
    assert totalHours / hoursPerDay > 0.0;
  }

  lemma WeeksStage(fullDays: int, daysPerWeek: int)
    requires fullDays >= 0 && daysPerWeek > 0
    ensures var weeks := (fullDays as real / daysPerWeek as real).Floor;
      weeks == fullDays / daysPerWeek && weeks >= 0 && 0 <= fullDays - weeks * daysPerWeek < daysPerWeek
  {
    FloorOfIntQuotient(fullDays, daysPerWeek);
  }

  lemma MonthsStage(weeks: int)
    requires weeks >= 0
    ensures var months := (weeks as real / WeeksPerMonth).Floor;
      months >= 0 && 0 <= Round(weeks as real - months as real * WeeksPerMonth) <= 4
  {
    FloorQuotient(weeks as real, WeeksPerMonth);
    var months := (weeks as real / WeeksPerMonth).Floor;
    RoundOfSmall(weeks as real - months as real * WeeksPerMonth);
  }

  lemma YearsStage(months: int)
    requires months >= 0
    ensures var years := (months as real / 12.0).Floor;
      && years == months / 12
      && Round(months as real - years as real * 12.0) == months % 12
      && (years > 0 <==> months >= 12)
  {
    FloorOfIntQuotient(months, 12);
    var years := (months as real / 12.0).Floor;
    RoundOfInt(months - years * 12);
  }

  /** Flooring a real quotient of integers is Dafny's (Euclidean) integer division. */
  lemma FloorOfIntQuotient(n: int, d: int)
    requires d > 0
    ensures (n as real / d as real).Floor == n / d
  {
    var f := (n as real / d as real).Floor;
    FloorQuotient(n as real, d as real);
    assert (f * d) as real == f as real * d as real;
    assert ((f + 1) * d) as real == (f as real + 1.0) * d as real;
    assert f * d <= n < (f + 1) * d;
    DivUnique(n, d, f);
  }

  lemma DivUnique(n: int, d: int, f: int)
    requires d > 0 && f * d <= n < (f + 1) * d
    ensures f == n / d
  {
    var q := n / d;
    if f < q {
      MulLeInt(f + 1, q, d);
    } else if f > q {
      MulLeInt(q + 1, f, d);
    }
  }

  lemma MulLeInt(a: int, b: int, d: int)
    requires a <= b && d > 0
    ensures a * d <= b * d
  {
  }

  lemma RoundOfInt(k: int)
    ensures Round(k as real) == k
  {
  }

  lemma RoundOfSmall(x: real)
    requires 0.0 <= x < WeeksPerMonth
    ensures 0 <= Round(x) <= 4
  {
  }

  /** The working units: Year, Month, Week, Day and Hour. */
  predicate IsWorkingUnit(u: TimeUnit) {
    Rank(Year) <= Rank(u) <= Rank(Hour)
  }

  /** Whether the cascade has a positive amount at unit `u` (hours: the unrounded remainder). */
  predicate TierPresent(c: WorkingCascade, u: TimeUnit) {
    match u
    case Year => c.years > 0
    case Month => c.months > 0
    case Week => c.weeks > 0
    case Day => c.fullDays > 0
    case Hour => c.remainingHours > 0.0
    case _ => false
  }

  /** The `parts` that formatHoursToPersianWorking pushes. */
  function WorkingParts(c: WorkingCascade): seq<Part> {
    if c.years > 0 then
      [Amount(c.years, Year)] + (if c.remainingMonths > 0 then [Amount(c.remainingMonths, Month)] else [])
    else if c.months > 0 then
      [Amount(c.months, Month)] + (if c.remainingWeeks > 0 then [Amount(c.remainingWeeks, Week)] else [])
    else if c.weeks > 0 then
      [Amount(c.weeks, Week)] + (if c.remainingDays > 0 then [Amount(c.remainingDays, Day)] else [])
    else if c.fullDays > 0 then
      [Amount(c.fullDays, Day)] + (if c.remainingHours > 0.0 then [Amount(Round(c.remainingHours), Hour)] else [])
    else if c.remainingHours > 0.0 then
      [Amount(Round(c.remainingHours), Hour)]
    else
      [UnderAnHour]
  }

  /**
   * The `parts` of formatHoursToPersianWorking for a week of 0 working days. From one
   * whole working day on, the weeks are `n / 0`, which is Infinity, and so are the months
   * and years, while every remainder is `Infinity - Infinity`, which is NaN: the years
   * tier shows "Infinity" and no second part. Below one day the weeks are `0 / 0`, which is
   * NaN, every comparison with 0 fails, and only the hours tier is left.
   */
  function NoWorkDayParts(totalHours: real, hoursPerDay: real): seq<Part>
    requires hoursPerDay > 0.0
  {
    var fullDays := (totalHours / hoursPerDay).Floor;
    var remainingHours := totalHours - fullDays as real * hoursPerDay;
    if fullDays > 0 then [Unbounded(Year)]
    else if remainingHours > 0.0 then [Amount(Round(remainingHours), Hour)]
    else [UnderAnHour]
  }

  datatype WorkingTime = WorkingTime(text: string, totalHours: int)

  /**
   * `formatHoursToPersianWorking`. The total it reports is the duration rounded, or 0
   * when that is not positive. Its text is described by WorkingTierSelection,
   * WorkingSuffixExactly, ShortOfADayIgnoresWeek and NoWorkDaysUnbounded.
   */
  function FormatHoursToPersianWorking(totalHours: real, hoursPerDay: real, daysPerWeek: int): (r: WorkingTime)
    requires hoursPerDay > 0.0 && daysPerWeek >= 0
    ensures totalHours <= 0.0 ==> r == WorkingTime(ZeroSeconds, 0)
    ensures r.totalHours == if Round(totalHours) > 0 then Round(totalHours) else 0
  {
    if totalHours <= 0.0 then WorkingTime(ZeroSeconds, 0)
    else
      var rounded := Round(totalHours);
      var parts := WorkingPartsOf(totalHours, hoursPerDay, daysPerWeek);
      var joined := RenderParts(parts, " و ");
      if rounded > 0 && |parts| > 0 then WorkingTime(joined + WorkingSuffix, rounded)
      else WorkingTime(if joined == "" then "کمتر از یک ساعت" else joined, 0)
  }

  /** The parts for any schedule: the cascade's with working days, NoWorkDayParts without. */
  function WorkingPartsOf(totalHours: real, hoursPerDay: real, daysPerWeek: int): seq<Part>
    requires hoursPerDay > 0.0 && daysPerWeek >= 0
  {
    if daysPerWeek == 0 then NoWorkDayParts(totalHours, hoursPerDay)
    else WorkingParts(WorkingUnits(totalHours, hoursPerDay, daysPerWeek))
  }

  /** The amount the cascade shows at a working unit (hours: the rounded remainder). */
  function TierValue(c: WorkingCascade, u: TimeUnit): int {
    match u
    case Year => c.years
    case Month => c.months
    case Week => c.weeks
    case Day => c.fullDays
    case Hour => Round(c.remainingHours)
    case _ => 0
  }

  /** Whether what is left below tier `u` is positive (after days: the unrounded hours). */
  predicate RemainderPresent(c: WorkingCascade, u: TimeUnit) {
    match u
    case Year => c.remainingMonths > 0
    case Month => c.remainingWeeks > 0
    case Week => c.remainingDays > 0
    case Day => c.remainingHours > 0.0
    case _ => false
  }

  /** What is left below tier `u`, as shown (after days: the hours rounded). */
  function RemainderValue(c: WorkingCascade, u: TimeUnit): int {
    match u
    case Year => c.remainingMonths
    case Month => c.remainingWeeks
    case Week => c.remainingDays
    case Day => Round(c.remainingHours)
    case _ => 0
  }

  /**
   * For a positive duration and schedule, formatHoursToPersianWorking emits one or two
   * parts and never the "less than 1 hour" fallback. The first is the coarsest present
   * tier (every coarser tier is absent) with that tier's amount. A second part follows
   * exactly when the first is not hours and what is left below it is positive; it is the
   * next finer unit holding that remainder, and it is positive except after days, where
   * the unrounded hour remainder guards it and it may round to 0. An hours-only result
   * is the rounded remainder, which may also be 0.
   */
  lemma WorkingTierSelection(totalHours: real, hoursPerDay: real, daysPerWeek: int)
    requires totalHours > 0.0 && hoursPerDay > 0.0 && daysPerWeek > 0
    ensures var c := WorkingUnits(totalHours, hoursPerDay, daysPerWeek);
      var parts := WorkingParts(c);
      && 1 <= |parts| <= 2
      && parts[0].Amount? && IsWorkingUnit(parts[0].unit) && TierPresent(c, parts[0].unit)
      && (forall u :: IsWorkingUnit(u) && Rank(u) < Rank(parts[0].unit) ==> !TierPresent(c, u))
      && parts[0].value == TierValue(c, parts[0].unit)
      && (parts[0].unit != Hour ==> parts[0].value > 0)
      && (|parts| == 2 <==> parts[0].unit != Hour && RemainderPresent(c, parts[0].unit))
      && (|parts| == 2 ==>
            && parts[1].Amount? && parts[1].unit == Finer(parts[0].unit)
            && parts[1].value == RemainderValue(c, parts[0].unit)
            && (parts[0].unit != Day ==> parts[1].value > 0))
  {
    var c := WorkingUnits(totalHours, hoursPerDay, daysPerWeek);
    WorkingUnitsBounds(totalHours, hoursPerDay, daysPerWeek);
    if c.fullDays <= 0 {
      assert c.remainingHours == totalHours;
    }
    var parts := WorkingParts(c);
    forall u | IsWorkingUnit(u) && Rank(u) < Rank(parts[0].unit) ensures !TierPresent(c, u) { }
  }

  /** The last character of a non-empty rendering is the last character of its last part. */
  lemma {:induction false} JoinLast(parts: seq<string>, sep: string)
    requires |parts| > 0 && |parts[|parts| - 1]| > 0
    ensures |Join(parts, sep)| >= |parts[|parts| - 1]|
    ensures Join(parts, sep)[|Join(parts, sep)| - 1] == parts[|parts| - 1][|parts[|parts| - 1]| - 1]
  {
    if |parts| > 1 {
      JoinLast(parts[1..], sep);
    }
  }

  predicate EndsWithWorkingSuffix(s: string) {
    |s| >= |WorkingSuffix| && s[|s| - |WorkingSuffix|..] == WorkingSuffix
  }

  /**
   * The result of formatHoursToPersianWorking is never empty, and it carries the
   * " کاری" qualifier exactly when the duration rounds to a positive number of hours,
   * which is then the returned total; otherwise the total is 0.
   */
  lemma WorkingSuffixExactly(totalHours: real, hoursPerDay: real, daysPerWeek: int)
    requires hoursPerDay > 0.0 && daysPerWeek >= 0
    ensures var r := FormatHoursToPersianWorking(totalHours, hoursPerDay, daysPerWeek);
      && |r.text| > 0
      && (EndsWithWorkingSuffix(r.text) <==> Round(totalHours) > 0)
      && (r.totalHours > 0 <==> Round(totalHours) > 0)
  {
    var r := FormatHoursToPersianWorking(totalHours, hoursPerDay, daysPerWeek);
    if totalHours <= 0.0 {
      assert r.text == ZeroSeconds;
      assert r.text[|r.text| - 1] != WorkingSuffix[|WorkingSuffix| - 1];
    } else {
      var parts := WorkingPartsOf(totalHours, hoursPerDay, daysPerWeek);
      RenderedPartsLastChar(parts);
      var joined := RenderParts(parts, " و ");
      if Round(totalHours) > 0 {
        assert r.text == joined + WorkingSuffix;
        assert r.text[|r.text| - |WorkingSuffix|..] == WorkingSuffix;
      } else {
        assert r.text == joined;
        assert r.text[|r.text| - 1] != WorkingSuffix[|WorkingSuffix| - 1];
      }
    }
  }

  /**
   * Short of one working day, the week does not matter: with 0 working days a week the
   * result is the one any working week gives.
   */
  lemma ShortOfADayIgnoresWeek(totalHours: real, hoursPerDay: real, daysPerWeek: int)
    requires hoursPerDay > 0.0 && daysPerWeek > 0 && totalHours < hoursPerDay
    ensures FormatHoursToPersianWorking(totalHours, hoursPerDay, 0)
         == FormatHoursToPersianWorking(totalHours, hoursPerDay, daysPerWeek)
  {
    if totalHours > 0.0 {
      DaysStage(totalHours, hoursPerDay);
      var fullDays := (totalHours / hoursPerDay).Floor;
      FloorQuotient(totalHours, hoursPerDay);
      assert fullDays == 0 by {
        if fullDays >= 1 {
          MulMonotone(1.0, fullDays as real, hoursPerDay);
        }
      }
      var c := WorkingUnits(totalHours, hoursPerDay, daysPerWeek);
      assert c.fullDays == 0 && c.remainingHours == totalHours;
      WeeksStage(0, daysPerWeek);
      assert c.weeks == 0;
      assert c.months == 0 && c.years == 0;
      assert WorkingParts(c) == NoWorkDayParts(totalHours, hoursPerDay);
    }
  }

  /**
   * With 0 working days a week and at least one full working day, the result reads
   * "Infinity years", qualified as working time when the total rounds to a positive
   * number of hours.
   */
  lemma NoWorkDaysUnbounded(totalHours: real, hoursPerDay: real)
    requires hoursPerDay > 0.0 && totalHours >= hoursPerDay
    ensures FormatHoursToPersianWorking(totalHours, hoursPerDay, 0).text
         == "Infinity سال" + (if Round(totalHours) > 0 then WorkingSuffix else "")
  {
    FloorQuotient(totalHours, hoursPerDay);
    assert totalHours / hoursPerDay >= 1.0;
    assert NoWorkDayParts(totalHours, hoursPerDay) == [Unbounded(Year)];
    InfinityHasNoDigits();
    assert RenderPart(Unbounded(Year)) == "Infinity" + " " + "سال";
    var texts := PartTexts([Unbounded(Year)]);
    assert texts[0] == "Infinity سال";
    assert texts == ["Infinity سال"];
  }

  /**
   * With whole hours per day and 0 working days a week: a duration of at least one
   * working day reads "Infinity years of work" with its rounded total, and a shorter one
   * reads as under any working week.
   */
  lemma NoWorkDays(totalHours: real, hoursPerDay: real, daysPerWeek: int)
    requires hoursPerDay >= 1.0 && totalHours > 0.0 && daysPerWeek > 0
    ensures totalHours >= hoursPerDay ==>
      FormatHoursToPersianWorking(totalHours, hoursPerDay, 0) == WorkingTime("Infinity سال کاری", Round(totalHours))
    ensures totalHours < hoursPerDay ==>
      FormatHoursToPersianWorking(totalHours, hoursPerDay, 0) == FormatHoursToPersianWorking(totalHours, hoursPerDay, daysPerWeek)
  {
    if totalHours >= hoursPerDay {
      NoWorkDaysUnbounded(totalHours, hoursPerDay);
      assert Round(totalHours) > 0;
    } else {
      ShortOfADayIgnoresWeek(totalHours, hoursPerDay, daysPerWeek);
    }
  }

  /** `toPersianDigits(Infinity)` is "Infinity": there is no digit to replace. */
  lemma InfinityHasNoDigits()
    ensures ToPersianDigits("Infinity") == "Infinity"
  {
    var s := "Infinity";
    forall i | 0 <= i < |s| ensures ToPersianDigits(s)[i] == s[i] {
      assert !IsAsciiDigit(s[i]);
    }
  }

  /** A rendering of one or more parts is non-empty and never ends in the letter "ی". */
  lemma RenderedPartsLastChar(parts: seq<Part>)
    requires |parts| > 0
    ensures var t := RenderParts(parts, " و "); |t| > 0 && t[|t| - 1] != 'ی'
  {
    var texts := PartTexts(parts);
    PartLastChar(parts[|parts| - 1]);
    assert texts[|texts| - 1] == RenderPart(parts[|parts| - 1]);
    JoinLast(texts, " و ");
  }

  lemma PartLastChar(p: Part)
    ensures var t := RenderPart(p); |t| > 0 && t[|t| - 1] != 'ی'
  {
    match p
    case Amount(v, u) =>
      UnitNameLastChar(u);
      LastOfAppend(PersianNumber(v) + " ", UnitName(u));
    case Unbounded(u) =>
      UnitNameLastChar(u);
      LastOfAppend(ToPersianDigits("Infinity") + " ", UnitName(u));
    case UnderAnHour =>
  }

  lemma UnitNameLastChar(u: TimeUnit)
    ensures |UnitName(u)| > 0 && UnitName(u)[|UnitName(u)| - 1] != 'ی'
  {
  }

  lemma LastOfAppend(a: string, b: string)
    requires |b| > 0
    ensures (a + b)[|a + b| - 1] == b[|b| - 1]
  {
  }

  /**
   * The worked example of a year of working time (8 hours a day, 6 days a week,
   * 4.33 x 12 weeks) comes out as 11 months and 3 weeks: each step floors.
   */
  lemma WorkingYearExample()
    ensures FormatHoursToPersianWorking(8.0 * 6.0 * 4.33 * 12.0, 8.0, 6).text == "۱۱ ماه و ۳ هفته کاری"
  {
    var c := WorkingUnits(8.0 * 6.0 * 4.33 * 12.0, 8.0, 6);
    assert c.fullDays == 311;
    assert c.weeks == 51;
    assert c.months == 11;
    assert c.remainingWeeks == 3;
    assert c.years == 0;
    var parts := WorkingParts(c);
    assert parts == [Amount(11, Month), Amount(3, Week)];
    assert PersianNumber(11) == "۱۱";
    assert PersianNumber(3) == "۳";
    assert RenderPart(parts[0]) == "۱۱ ماه";
    assert RenderPart(parts[1]) == "۳ هفته";
    var texts := PartTexts(parts);
    assert texts == ["۱۱ ماه", "۳ هفته"];
    assert Join(texts[1..], " و ") == "۳ هفته";
  }

  // ---------------------------------------------------------------------------
  // Small helpers

  /** `calculateHoursNeeded`: the hours that earn `amount` at `hourlyRate`, or 0 without a rate. */
  function CalculateHoursNeeded(amount: real, hourlyRate: real): (h: real)
    ensures hourlyRate <= 0.0 ==> h == 0.0
    ensures hourlyRate > 0.0 ==> h * hourlyRate == amount
  {
    if hourlyRate <= 0.0 then 0.0 else amount / hourlyRate
  }

  /** A character allowed in each piece of the e-mail pattern: `[^\s@]`. */
  predicate EmailChar(c: char) {
    !IsJsWhitespace(c) && c != '@'
  }

  predicate AllEmailChars(s: string) {
    forall k :: 0 <= k < |s| ==> EmailChar(s[k])
  }

  /** The regular expression `^[^\s@]+@[^\s@]+\.[^\s@]+$`, read as "some split of the text". */
  ghost predicate MatchesEmailPattern(s: string) {
    exists at, dot :: 1 <= at && at + 1 < dot && dot + 1 < |s| && s[at] == '@' && s[dot] == '.'
      && AllEmailChars(s[..at]) && AllEmailChars(s[at + 1..dot]) && AllEmailChars(s[dot + 1..])
  }

  /**
   * `isValidEmail`. IsValidEmailMatchesPattern proves it accepts exactly the addresses the
   * regular expression describes (MatchesEmailPattern).
   */
  function IsValidEmail(email: string): bool {
    match IndexOf(email, "@")
    case None => false
    case Some(at) =>
      var domain := email[at + 1..];
      && at >= 1
      && (forall k | 0 <= k < |email| :: !IsJsWhitespace(email[k]))
      && (forall k | 0 <= k < |domain| :: domain[k] != '@')
      && (exists k | 1 <= k < |domain| - 1 :: domain[k] == '.')
  }

  /**
   * isValidEmail accepts exactly the texts without white space that hold one `@`
   * after a non-empty local part, followed by a domain with a `.` that is neither its
   * first nor its last character: exactly the matches of the source's pattern.
   */
  lemma IsValidEmailMatchesPattern(email: string)
    ensures IsValidEmail(email) <==> MatchesEmailPattern(email)
  {
    if IsValidEmail(email) {
      ValidEmailMatches(email);
    }
    if MatchesEmailPattern(email) {
      var at, dot :| 1 <= at && at + 1 < dot && dot + 1 < |email| && email[at] == '@' && email[dot] == '.'
        && AllEmailChars(email[..at]) && AllEmailChars(email[at + 1..dot]) && AllEmailChars(email[dot + 1..]);
      MatchValid(email, at, dot);
    }
  }

  lemma ValidEmailMatches(email: string)
    requires IsValidEmail(email)
    ensures MatchesEmailPattern(email)
  {
    var at := IndexOf(email, "@").value;
    var domain := email[at + 1..];
    var k :| 1 <= k < |domain| - 1 && domain[k] == '.';
    var dot := at + 1 + k;
    assert email[at] == '@' by {
      assert email[at..at + 1] == "@";
    }
    forall j | 0 <= j < at ensures email[j] != '@' {
      assert !OccursAt(email, "@", j);
      assert email[j..j + 1] == [email[j]];
    }
    forall j | at < j < |email| ensures email[j] != '@' {
      assert domain[j - at - 1] == email[j];
    }
    assert email[dot] == '.' by {
      assert domain[k] == email[dot];
    }
    EmailCharsBetween(email, 0, at);
    EmailCharsBetween(email, at + 1, dot);
    EmailCharsBetween(email, dot + 1, |email|);
    assert email[..at] == email[0..at];
  }

  /** A stretch with no white space and no `@` is made of pattern characters. */
  lemma EmailCharsBetween(email: string, lo: int, hi: int)
    requires 0 <= lo <= hi <= |email|
    requires forall j :: lo <= j < hi ==> !IsJsWhitespace(email[j]) && email[j] != '@'
    ensures AllEmailChars(email[lo..hi])
  {
    forall j | 0 <= j < hi - lo ensures EmailChar(email[lo..hi][j]) {
      assert email[lo..hi][j] == email[lo + j];
    }
  }

  lemma MatchValid(email: string, at: int, dot: int)
    requires 1 <= at && at + 1 < dot && dot + 1 < |email| && email[at] == '@' && email[dot] == '.'
    requires AllEmailChars(email[..at]) && AllEmailChars(email[at + 1..dot]) && AllEmailChars(email[dot + 1..])
    ensures IsValidEmail(email)
  {
    assert OccursAt(email, "@", at) by {
      assert email[at..at + 1] == [email[at]];
    }
    forall j | 0 <= j < at ensures !OccursAt(email, "@", j) {
      assert email[..at][j] == email[j];
      assert email[j..j + 1] == [email[j]];
    }
    assert IndexOf(email, "@") == Some(at);
    forall j | 0 <= j < |email| ensures !IsJsWhitespace(email[j]) {
      if j < at {
        assert email[..at][j] == email[j];
      } else if at < j < dot {
        assert email[at + 1..dot][j - at - 1] == email[j];
      } else if dot < j {
        assert email[dot + 1..][j - dot - 1] == email[j];
      }
    }
    var domain := email[at + 1..];
    forall j | 0 <= j < |domain| ensures domain[j] != '@' {
      var p := at + 1 + j;
      if p < dot {
        assert email[at + 1..dot][j] == email[p];
      } else if dot < p {
        assert email[dot + 1..][p - dot - 1] == email[p];
      }
    }
    assert domain[dot - at - 1] == '.';
  }

  // ---------------------------------------------------------------------------
  // Month selection list and its parser

  function MonthName(m: int): string {
    if 1 <= m <= 12 then PersianMonths[m - 1] else "undefined"
  }

  /** `String(n).padStart(2, '0')` on a decimal spelling. */
  function PadStart2(s: string): string {
    if |s| >= 2 then s else seq(2 - |s|, _ => '0') + s
  }

  /** The `value` of a month entry: "YYYY-MM". */
  function MonthValue(y: int, m: int): string {
    DecimalString(y) + "-" + PadStart2(DecimalString(m))
  }

  /** The `label` of a month entry: "<month name> <Persian year>". */
  function MonthLabel(y: int, m: int): string {
    MonthName(m) + " " + PersianNumber(y)
  }

  datatype MonthOption = MonthOption(value: string, labelText: string)

  function MonthEntry(y: int, m: int): MonthOption {
    MonthOption(MonthValue(y, m), MonthLabel(y, m))
  }

  /** The year of the month `i` months before (`y`, `m`), by month arithmetic. */
  function YearMonthsAgo(y: int, m: int, i: int): int {
    (12 * y + (m - 1) - i) / 12
  }

  /** The month (1..12) of the month `i` months before (`y`, `m`). */
  function MonthMonthsAgo(y: int, m: int, i: int): (r: int)
    ensures 1 <= r <= 12
  {
    (12 * y + (m - 1) - i) % 12 + 1
  }

  /**
   * `getMonthsForSelection`, with the current Jalali year and month as parameters:
   * the twelve months ending with the current one, newest first.
   */
  method GetMonthsForSelection(currentJy: int, currentJm: int) returns (months: seq<MonthOption>)
    requires 1 <= currentJm <= 12
    ensures |months| == 12
    ensures forall i :: 0 <= i < 12 ==>
      months[i] == MonthEntry(YearMonthsAgo(currentJy, currentJm, i), MonthMonthsAgo(currentJy, currentJm, i))
  {
    months := [];
    for i := 0 to 12
      invariant |months| == i
      invariant forall k :: 0 <= k < i ==>
        months[k] == MonthEntry(YearMonthsAgo(currentJy, currentJm, k), MonthMonthsAgo(currentJy, currentJm, k))
    {
      var targetJm := currentJm - i;
      var targetJy := currentJy;
      if targetJm <= 0 {
        targetJm := targetJm + 12;
        targetJy := targetJy - 1;
      }
      MonthsAgoWraps(currentJy, currentJm, i);
      assert targetJy == YearMonthsAgo(currentJy, currentJm, i) && targetJm == MonthMonthsAgo(currentJy, currentJm, i);
      var monthPadded := PadStart2(DecimalString(targetJm));
      var value := DecimalString(targetJy) + "-" + monthPadded;
      var entryLabel := MonthName(targetJm) + " " + PersianNumber(targetJy);
      assert MonthOption(value, entryLabel) == MonthEntry(targetJy, targetJm);
      MonthListStep(months, currentJy, currentJm, MonthOption(value, entryLabel));
      months := months + [MonthOption(value, entryLabel)];
    }
  }

  /** The selection list grows by the entry of the next month back. */
  lemma MonthListStep(months: seq<MonthOption>, y: int, m: int, entry: MonthOption)
    requires forall k :: 0 <= k < |months| ==> months[k] == MonthEntry(YearMonthsAgo(y, m, k), MonthMonthsAgo(y, m, k))
    requires entry == MonthEntry(YearMonthsAgo(y, m, |months|), MonthMonthsAgo(y, m, |months|))
    ensures forall k :: 0 <= k < |months| + 1 ==>
      (months + [entry])[k] == MonthEntry(YearMonthsAgo(y, m, k), MonthMonthsAgo(y, m, k))
  {
    forall k | 0 <= k < |months| + 1
      ensures (months + [entry])[k] == MonthEntry(YearMonthsAgo(y, m, k), MonthMonthsAgo(y, m, k))
    {
      if k < |months| {
        assert (months + [entry])[k] == months[k];
      }
    }
  }

  /** Within a year of the current month, going back `i` months wraps at most once. */
  lemma MonthsAgoWraps(y: int, m: int, i: int)
    requires 1 <= m <= 12 && 0 <= i < 12
    ensures m - i >= 1 ==> YearMonthsAgo(y, m, i) == y && MonthMonthsAgo(y, m, i) == m - i
    ensures m - i <= 0 ==> YearMonthsAgo(y, m, i) == y - 1 && MonthMonthsAgo(y, m, i) == m - i + 12
  {
    if m - i >= 1 {
      assert 12 * y + (m - 1) - i == 12 * y + (m - i - 1);
      DivUnique(12 * y + (m - 1) - i, 12, y);
    } else {
      DivUnique(12 * y + (m - 1) - i, 12, y - 1);
    }
  }

  /**
   * Consecutive entries of the list are one month apart: the year drops by one exactly
   * when the month wraps from 1 back to 12.
   */
  lemma MonthsAgoStep(y: int, m: int, i: int)
    requires 1 <= m <= 12
    ensures var (y0, m0) := (YearMonthsAgo(y, m, i), MonthMonthsAgo(y, m, i));
      var (y1, m1) := (YearMonthsAgo(y, m, i + 1), MonthMonthsAgo(y, m, i + 1));
      && 12 * y1 + m1 == 12 * y0 + m0 - 1
      && (m0 == 1 ==> y1 == y0 - 1 && m1 == 12)
      && (m0 != 1 ==> y1 == y0 && m1 == m0 - 1)
  {
    var o := 12 * y + (m - 1) - i;
    assert o == 12 * (o / 12) + o % 12;
    assert o - 1 == 12 * ((o - 1) / 12) + (o - 1) % 12;
  }

  /** The first entry is the current month. */
  lemma MonthsAgoZero(y: int, m: int)
    requires 1 <= m <= 12
    ensures YearMonthsAgo(y, m, 0) == y && MonthMonthsAgo(y, m, 0) == m
  {
    assert 12 * y + (m - 1) == 12 * y + (m - 1);
  }

  /** The result of `parseInt(s, 10)`: a number or NaN. */
  datatype JsInt = NaN | Int(i: int)

  /** The text `parseInt` reads after skipping leading white space. */
  function TrimStart(s: string): (t: string)
    ensures |t| <= |s| && t == s[|s| - |t|..]
    ensures forall k :: 0 <= k < |s| - |t| ==> IsJsWhitespace(s[k])
    ensures |t| > 0 ==> !IsJsWhitespace(t[0])
  {
    if |s| > 0 && IsJsWhitespace(s[0]) then TrimStart(s[1..]) else s
  }

  /**
   * `parseInt(s, 10)`: leading white space, an optional sign, then the leading digits.
   * ParseIntDigits states that it reads back the value of a string of digits.
   */
  function ParseInt(s: string): JsInt {
    var t := TrimStart(s);
    var negative := |t| > 0 && t[0] == '-';
    var body := if |t| > 0 && (t[0] == '-' || t[0] == '+') then t[1..] else t;
    var d := LeadingDigits(body);
    if d == [] then NaN
    else if negative then Int(-(DigitsValue(d) as int)) else Int(DigitsValue(d))
  }

  /** `monthValue.split('-')`, first two pieces; the second is undefined without a `-`. */
  function SplitYearMonth(s: string): (string, Option<string>) {
    match IndexOf(s, "-")
    case None => (s, None)
    case Some(i) =>
      var rest := s[i + 1..];
      match IndexOf(rest, "-")
      case None => (s[..i], Some(rest))
      case Some(j) => (s[..i], Some(rest[..j]))
  }

  /** `PERSIAN_MONTHS[month - 1]` as rendered in a template: "undefined" when out of range. */
  function MonthNameOf(month: JsInt): string {
    match month
    case NaN => "undefined"
    case Int(m) => MonthName(m)
  }

  /** `toPersianDigits(year)` for a parsed year. */
  function YearText(year: JsInt): string {
    match year
    case NaN => "NaN"
    case Int(y) => PersianNumber(y)
  }

  /**
   * `formatMonthValueToPersian`. FormatMonthValueRoundTrip: the label of a month key is the
   * month's name and year; FormatMonthValueEmpty: no key, no label.
   */
  function FormatMonthValueToPersian(monthValue: string): string {
    if monthValue == "" then ""
    else
      var (yearStr, monthStr) := SplitYearMonth(monthValue);
      var year := ParseInt(yearStr);
      var month := if monthStr.Some? then ParseInt(monthStr.value) else NaN;
      MonthNameOf(month) + " " + YearText(year)
  }

  lemma NoDashInDigits(s: string)
    requires AllDigits(s)
    ensures IndexOf(s, "-").None?
  {
    forall k ensures !OccursAt(s, "-", k) {
      if 0 <= k < |s| {
        assert s[k..k + 1] == [s[k]];
      }
    }
  }

  lemma ParseIntDigits(s: string)
    requires |s| > 0 && AllDigits(s)
    ensures ParseInt(s) == Int(DigitsValue(s))
  {
    assert IsAsciiDigit(s[0]);
    assert !IsJsWhitespace(s[0]);
    assert TrimStart(s) == s;
    assert s[0] != '-' && s[0] != '+';
    LeadingDigitsAll(s);
  }

  /** A month value is the year's digits, a `-` and exactly two digits spelling the month. */
  lemma MonthValueShape(y: nat, m: int)
    requires 1 <= m <= 12
    ensures var v := MonthValue(y, m);
      && |v| == |NatToString(y)| + 3
      && v[..|v| - 3] == NatToString(y) && v[|v| - 3] == '-'
      && AllDigits(v[|v| - 2..]) && DigitsValue(v[|v| - 2..]) == m
  {
    var v := MonthValue(y, m);
    var p := PadStart2(DecimalString(m));
    assert v == NatToString(y) + "-" + p;
    assert v[|v| - 2..] == p;
    if m < 10 {
      assert p == ['0', DigitChar(m)];
      assert p[..1] == "0";
      assert DigitsValue(p[..1]) == DigitsValue(p[..1][..0]) * 10 + 0;
      assert p[..1][..0] == [];
    } else {
      assert p == NatToString(m);
      NatToStringValue(m);
    }
  }

  /** formatMonthValueToPersian turns every value of the month list into its label. */
  lemma FormatMonthValueRoundTrip(y: nat, m: int)
    requires 1 <= m <= 12
    ensures FormatMonthValueToPersian(MonthValue(y, m)) == MonthLabel(y, m)
  {
    var v := MonthValue(y, m);
    var ys := NatToString(y);
    var p := PadStart2(DecimalString(m));
    MonthValueShape(y, m);
    assert v == ys + "-" + p;
    NoDashInDigits(ys);
    assert IndexOf(v, "-") == Some(|ys|) by {
      assert OccursAt(v, "-", |ys|);
      forall k | 0 <= k < |ys| ensures !OccursAt(v, "-", k) {
        assert v[k..k + 1] == [ys[k]];
      }
    }
    assert v[|ys| + 1..] == p;
    assert AllDigits(p);
    NoDashInDigits(p);
    assert SplitYearMonth(v) == (ys, Some(p));
    ParseIntDigits(ys);
    NatToStringValue(y);
    ParseIntDigits(p);
  }

  /** The empty month value formats to the empty text. */
  lemma FormatMonthValueEmpty()
    ensures FormatMonthValueToPersian("") == ""
  {
  }

  /**
   * A month label is never a month value: a label is a Persian month name, a space and
   * Persian digits, with no `-` in it, while every value has one.
   */
  lemma LabelIsNeverValue(y: nat, m: int, y2: int, m2: int)
    requires 1 <= m <= 12
    ensures MonthLabel(y, m) != MonthValue(y2, m2)
  {
    var value := MonthValue(y2, m2);
    assert value[|DecimalString(y2)|] == '-';
    LabelHasNoDash(y, m);
  }

  lemma LabelHasNoDash(y: nat, m: int)
    requires 1 <= m <= 12
    ensures forall i :: 0 <= i < |MonthLabel(y, m)| ==> MonthLabel(y, m)[i] != '-'
  {
    var name := PersianMonths[m - 1];
    var digits := PersianNumber(y);
    MonthNamesArePersian(m);
    PersianNumberDigits(y);
    assert MonthLabel(y, m) == name + " " + digits;
  }

  predicate IsArabicScript(s: string) {
    forall i :: 0 <= i < |s| ==> s[i] >= '\U{0622}'
  }

  /** Every month name is written in Arabic-script letters. */
  lemma MonthNamesArePersian(m: int)
    requires 1 <= m <= 12
    ensures IsArabicScript(PersianMonths[m - 1])
  {
  }

  lemma PersianNumberDigits(y: nat)
    ensures forall i :: 0 <= i < |PersianNumber(y)| ==> IsPersianDigit(PersianNumber(y)[i])
  {
  }
}
