/** Calendar dates and the ISO 8601 week label of backend/gen_v/utils/dates.py.

    Dates are proleptic Gregorian, years 1..9999, numbered by day ordinals with
    day 1 = 0001-01-01 (a Monday). The ISO week-numbering year and week are
    computed the way CPython's `date.isocalendar()` computes them, and are then
    proved to agree with the definition of ISO 8601:2004 section 4.1.4: weeks
    start on Monday, and week 1 of a year is the week holding its January 4. */
module Dates {
  import opened Wrappers
  import opened Strings

  const MinYear := 1
  const MaxYear := 9999

  datatype Date = Date(year: int, month: int, day: int)

  /** A time of day attached to a date, as `datetime.datetime` values are stored. */
  datatype DateTime = DateTime(date: Date, hour: nat, minute: nat, second: nat, microsecond: nat)

  predicate IsLeap(y: int) {
    y % 4 == 0 && (y % 100 != 0 || y % 400 == 0)
  }

  function DaysInYear(y: int): int {
    if IsLeap(y) then 366 else 365
  }

  function DaysInMonth(y: int, m: int): int
    requires 1 <= m <= 12
  {
    if m == 2 then (if IsLeap(y) then 29 else 28)
    else if m == 4 || m == 6 || m == 9 || m == 11 then 30
    else 31
  }

  predicate IsValidDate(d: Date) {
    MinYear <= d.year <= MaxYear && 1 <= d.month <= 12 && 1 <= d.day <= DaysInMonth(d.year, d.month)
  }

  /** The dates a `datetime.date` object can hold. */
  type ValidDate = d: Date | IsValidDate(d) witness Date(1, 1, 1)

  /** Number of days in the years before `y`, counted from year 1 (negative
      before year 1), year by year. CPython computes it in closed form
      (`_days_before_year`); DaysBeforeYearClosedForm proves the two agree. */
  function DaysBeforeYear(y: int): int
    decreases if y >= 1 then y - 1 else 1 - y
  {
    if y == 1 then 0
    else if y > 1 then DaysBeforeYear(y - 1) + DaysInYear(y - 1)
    else DaysBeforeYear(y + 1) - DaysInYear(y)
  }

  /** CPython's `_days_before_year`, with floor division. */
  function DaysBeforeYearPy(y: int): int {
    var p := y - 1;
    p * 365 + p / 4 - p / 100 + p / 400
  }

  /** Number of days in the months of year `y` before month `m`. */
  function DaysBeforeMonth(y: int, m: int): int
    requires 1 <= m <= 12
  {
    [0, 31, 59, 90, 120, 151, 181, 212, 243, 273, 304, 334][m - 1] + (if m > 2 && IsLeap(y) then 1 else 0)
  }

  /** The day ordinal of a date (`date.toordinal()`). */
  function Ordinal(d: ValidDate): int {
    DaysBeforeYear(d.year) + DaysBeforeMonth(d.year, d.month) + d.day
  }

  /** The ordinal of January 1 of year `y`. */
  function FirstDay(y: int): int {
    DaysBeforeYear(y) + 1
  }

  /** Day of the week of an ordinal, Monday = 0 ... Sunday = 6 (`date.weekday()`). */
  function Weekday(ord: int): (w: int)
    ensures 0 <= w < 7
  {
    (ord + 6) % 7
  }

  /** Ordinal of the Monday that starts ISO week 1 of year `y`. */
  function IsoWeek1Monday(y: int): int {
    Week1MondayFrom(FirstDay(y))
  }

  /** The Monday of the week holding `firstDay` when that day falls on Monday to
      Thursday, and the Monday after it otherwise (Python's `_isoweek1monday`). */
  function Week1MondayFrom(firstDay: int): int {
    var firstWeekday := Weekday(firstDay);
    var monday := firstDay - firstWeekday;
    if firstWeekday > 3 then monday + 7 else monday
  }

  /** `date.isocalendar()[:2]`: the ISO week-numbering year and the week number. */
  function IsoCalendar(d: ValidDate): (int, int) {
    IsoCalendarAt(Ordinal(d), d.year)
  }

  /** The body of `isocalendar()` for the day `today` of calendar year `y`. */
  function IsoCalendarAt(today: int, y: int): (int, int) {
    IsoCalendarFrom(today, y, IsoWeek1Monday(y - 1), IsoWeek1Monday(y), IsoWeek1Monday(y + 1))
  }

  /** The steps of `isocalendar()` given the week-1 Mondays of the years `y - 1`,
      `y` and `y + 1`. Python's `divmod` floors; for the positive divisor 7
      Dafny's division does the same. */
  function IsoCalendarFrom(today: int, y: int, prevMonday: int, monday: int, nextMonday: int): (int, int) {
    var week := (today - monday) / 7;
    if week < 0 then
      (y - 1, (today - prevMonday) / 7 + 1)
    else if week >= 52 && today >= nextMonday then
      (y + 1, 1)
    else
      (y, week + 1)
  }

  /** The ISO 8601 definition: ordinal `ord` lies in week `w` of ISO year `y`. */
  predicate InIsoWeek(ord: int, y: int, w: int) {
    IsoWeek1Monday(y) <= ord < IsoWeek1Monday(y + 1) && w == (ord - IsoWeek1Monday(y)) / 7 + 1
  }

  // ---------------------------------------------------------------------------
  // Calendar arithmetic

  lemma YearLength(y: int)
    ensures FirstDay(y + 1) - FirstDay(y) == DaysInYear(y)
  {
  }

  /** The closed form: consecutive years differ by the year's length. */
  lemma YearLengthPy(y: int)
    ensures DaysBeforeYearPy(y + 1) - DaysBeforeYearPy(y) == DaysInYear(y)
  {
    var p := y - 1;
    var c4, c100, c400 := (p + 1) / 4 - p / 4, (p + 1) / 100 - p / 100, (p + 1) / 400 - p / 400;
    StepCount(p, 4);
    StepCount(p, 100);
    StepCount(p, 400);
    LeapDivisors(y);
    assert DaysBeforeYearPy(y + 1) - DaysBeforeYearPy(y) == 365 + c4 - c100 + c400;
  }

  /** Moving from `p` to `p + 1` passes a multiple of `k` exactly when `p + 1` is one. */
  lemma StepCount(p: int, k: int)
    requires k == 4 || k == 100 || k == 400
    ensures (p + 1) / k - p / k == if (p + 1) % k == 0 then 1 else 0
  {
  }

  /** A multiple of 400 is a multiple of 100, which is a multiple of 4. */
  lemma LeapDivisors(y: int)
    ensures y % 400 == 0 ==> y % 100 == 0
    ensures y % 100 == 0 ==> y % 4 == 0
  {
    if y % 100 == 0 {
      assert y == 100 * (y / 100);
      assert y == 4 * (25 * (y / 100));
    }
    if y % 400 == 0 {
      assert y == 400 * (y / 400);
      assert y == 100 * (4 * (y / 400));
    }
  }

  /** The year-by-year count equals CPython's closed form for every year. */
  lemma {:induction false} DaysBeforeYearClosedForm(y: int)
    ensures DaysBeforeYear(y) == DaysBeforeYearPy(y)
    decreases if y >= 1 then y - 1 else 1 - y
  {
    if y > 1 {
      DaysBeforeYearClosedForm(y - 1);
      YearLengthPy(y - 1);
    } else if y < 1 {
      DaysBeforeYearClosedForm(y + 1);
      YearLengthPy(y);
    }
  }

  /** Every date of year `y` lies between its January 1 and its December 31. */
  lemma OrdinalInYear(d: ValidDate)
    ensures FirstDay(d.year) <= Ordinal(d) < FirstDay(d.year + 1)
  {
    YearLength(d.year);
  }

  /** Week 1 starts on a Monday within three days of January 1. */
  lemma Week1MondayNearFirstDay(y: int)
    ensures Weekday(IsoWeek1Monday(y)) == 0
    ensures FirstDay(y) - 3 <= IsoWeek1Monday(y) <= FirstDay(y) + 3
  {
    Week1MondayFromNear(FirstDay(y));
  }

  lemma Week1MondayFromNear(f: int)
    ensures Weekday(Week1MondayFrom(f)) == 0
    ensures f - 3 <= Week1MondayFrom(f) <= f + 3
  {
    var q := (f + 6) / 7;
    assert f + 6 == 7 * q + Weekday(f);
  }

  /** Consecutive week-1 Mondays are 52 or 53 weeks apart. */
  lemma Week1MondayGap(y: int)
    ensures IsoWeek1Monday(y + 1) - IsoWeek1Monday(y) == 364 || IsoWeek1Monday(y + 1) - IsoWeek1Monday(y) == 371
  {
    YearLength(y);
    Week1MondayFromGap(FirstDay(y), FirstDay(y + 1));
  }

  lemma Week1MondayFromGap(f1: int, f2: int)
    requires f2 - f1 == 365 || f2 - f1 == 366
    ensures Week1MondayFrom(f2) - Week1MondayFrom(f1) == 364 || Week1MondayFrom(f2) - Week1MondayFrom(f1) == 371
  {
    Week1MondayFromNear(f1);
    Week1MondayFromNear(f2);
    var a, b := Week1MondayFrom(f1), Week1MondayFrom(f2);
    var qa, qb := (a + 6) / 7, (b + 6) / 7;
    assert a + 6 == 7 * qa;
    assert b + 6 == 7 * qb;
    assert b - a == 7 * (qb - qa);
  }

  lemma {:induction false} Week1MondayIncreasing(a: int, b: int)
    requires a < b
    ensures IsoWeek1Monday(a + 1) <= IsoWeek1Monday(b)
    decreases b - a
  {
    if a + 1 < b {
      Week1MondayIncreasing(a, b - 1);
      Week1MondayGap(b - 1);
    }
  }

  // ---------------------------------------------------------------------------
  // The ISO calendar of a date

  /** `isocalendar()` meets the ISO 8601 definition, and the ISO year is the
      calendar year, the one before or the one after. The year is at least 1. */
  lemma IsoCalendarCorrect(d: ValidDate)
    ensures InIsoWeek(Ordinal(d), IsoCalendar(d).0, IsoCalendar(d).1)
    ensures d.year - 1 <= IsoCalendar(d).0 <= d.year + 1
    ensures IsoCalendar(d).0 >= 1
  {
    OrdinalInYear(d);
    IsoCalendarAtCorrect(Ordinal(d), d.year);
  }

  /** The case analysis of `isocalendar()` for a day `today` of calendar year `y`. */
  lemma IsoCalendarAtCorrect(today: int, y: int)
    requires MinYear <= y
    requires FirstDay(y) <= today < FirstDay(y + 1)
    ensures InIsoWeek(today, IsoCalendarAt(today, y).0, IsoCalendarAt(today, y).1)
    ensures y - 1 <= IsoCalendarAt(today, y).0 <= y + 1
    ensures IsoCalendarAt(today, y).0 >= 1
  {
    Week1MondaysAround(y);
    var m0, m1, m2, m3 := IsoWeek1Monday(y - 1), IsoWeek1Monday(y), IsoWeek1Monday(y + 1), IsoWeek1Monday(y + 2);
    IsoCalendarFromCorrect(today, y, m0, m1, m2, m3, FirstDay(y), FirstDay(y + 1));
    var r := IsoCalendarFrom(today, y, m0, m1, m2);
    assert IsoCalendarAt(today, y) == r;
    IsoWeekBetween(today, r.0, r.1, y, m0, m1, m2, m3);
  }

  /** Reads `InIsoWeek` off the week-1 Mondays of the years `y - 1` .. `y + 2`. */
  lemma IsoWeekBetween(ord: int, iy: int, iw: int, y: int, m0: int, m1: int, m2: int, m3: int)
    requires m0 == IsoWeek1Monday(y - 1) && m1 == IsoWeek1Monday(y)
    requires m2 == IsoWeek1Monday(y + 1) && m3 == IsoWeek1Monday(y + 2)
    requires y - 1 <= iy <= y + 1
    requires iy == y - 1 ==> m0 <= ord < m1 && iw == (ord - m0) / 7 + 1
    requires iy == y ==> m1 <= ord < m2 && iw == (ord - m1) / 7 + 1
    requires iy == y + 1 ==> m2 <= ord < m3 && iw == (ord - m2) / 7 + 1
    ensures InIsoWeek(ord, iy, iw)
  {
    if iy == y - 1 {
      assert iy + 1 == y;
    } else if iy == y {
    } else {
      assert iy + 1 == y + 2;
    }
  }

  /** Where the week-1 Mondays of the years `y - 1` .. `y + 2` lie around year `y`. */
  lemma Week1MondaysAround(y: int)
    requires MinYear <= y
    ensures y == 1 ==> IsoWeek1Monday(y) == FirstDay(y)
    ensures IsoWeek1Monday(y - 1) < FirstDay(y) - 300
    ensures IsoWeek1Monday(y + 2) > FirstDay(y + 1) + 300
    ensures FirstDay(y + 1) - 3 <= IsoWeek1Monday(y + 1) <= FirstDay(y + 1) + 3
    ensures IsoWeek1Monday(y + 1) - IsoWeek1Monday(y) == 364 || IsoWeek1Monday(y + 1) - IsoWeek1Monday(y) == 371
  {
    if y == 1 {
      assert FirstDay(1) == 1 && Weekday(1) == 0;
    }
    YearLength(y - 1);
    YearLength(y + 1);
    DaysInYearRange(y - 1);
    DaysInYearRange(y + 1);
    Week1MondayNearFirstDay(y - 1);
    Week1MondayNearFirstDay(y + 1);
    Week1MondayNearFirstDay(y + 2);
    Week1MondayGap(y);
  }

  lemma DaysInYearRange(y: int)
    ensures 365 <= DaysInYear(y) <= 366
  {
  }

  /** The same case analysis over the week-1 Mondays `m0` .. `m3` of the years
      `y - 1` .. `y + 2`, given how they lie around the year `y`. */
  lemma IsoCalendarFromCorrect(today: int, y: int, m0: int, m1: int, m2: int, m3: int, first: int, next: int)
    requires first <= today < next
    requires y == 1 ==> m1 == first
    requires m0 < first - 300 && m3 > next + 300
    requires next - 3 <= m2 <= next + 3
    requires m2 - m1 == 364 || m2 - m1 == 371
    ensures var (iy, iw) := IsoCalendarFrom(today, y, m0, m1, m2);
      && y - 1 <= iy <= y + 1 && (y == 1 ==> iy >= 1)
      && (iy == y - 1 ==> m0 <= today < m1 && iw == (today - m0) / 7 + 1)
      && (iy == y ==> m1 <= today < m2 && iw == (today - m1) / 7 + 1)
      && (iy == y + 1 ==> m2 <= today < m3 && iw == (today - m2) / 7 + 1)
  {
  }

  /** A day lies in exactly one ISO week. */
  lemma IsoWeekUnique(ord: int, y1: int, w1: int, y2: int, w2: int)
    requires InIsoWeek(ord, y1, w1) && InIsoWeek(ord, y2, w2)
    ensures y1 == y2 && w1 == w2
  {
    if y1 < y2 {
      Week1MondayIncreasing(y1, y2);
    } else if y2 < y1 {
      Week1MondayIncreasing(y2, y1);
    }
  }

  /** Week numbers run from 1 to 53. */
  lemma IsoWeekInRange(d: ValidDate)
    ensures 1 <= IsoCalendar(d).1 <= 53
  {
    IsoCalendarCorrect(d);
    Week1MondayGap(IsoCalendar(d).0);
  }

  /** Week 1 of year `y` is the week holding January 4, and so also the week
      holding the year's first Thursday. */
  lemma Week1HoldsJanuary4(y: int)
    requires MinYear <= y <= MaxYear
    ensures IsoCalendar(Date(y, 1, 4)) == (y, 1)
    ensures var thursday := IsoWeek1Monday(y) + 3;
      Weekday(thursday) == 3 && FirstDay(y) <= thursday < FirstDay(y) + 7
  {
    var d: ValidDate := Date(y, 1, 4);
    var o := Ordinal(d);
    assert o == FirstDay(y) + 3;
    Week1MondayFromJanuary4(FirstDay(y));
    Week1MondayGap(y);
    assert InIsoWeek(o, y, 1);
    IsoCalendarCorrect(d);
    IsoWeekUnique(o, y, 1, IsoCalendar(d).0, IsoCalendar(d).1);
  }

  lemma Week1MondayFromJanuary4(f: int)
    ensures 0 <= f + 3 - Week1MondayFrom(f) < 7
    ensures Weekday(Week1MondayFrom(f) + 3) == 3
  {
    Week1MondayFromNear(f);
    var m := Week1MondayFrom(f);
    var q := (m + 6) / 7;
    assert m + 6 == 7 * q;
    assert m + 3 + 6 == 7 * q + 3;
  }

  /** Two Mondays are a whole number of weeks apart. */
  lemma MondaysWeeksApart(a: int, b: int)
    requires Weekday(a) == 0 && Weekday(b) == 0
    ensures (b - a) % 7 == 0
  {
    var qa, qb := (a + 6) / 7, (b + 6) / 7;
    assert a + 6 == 7 * qa && b + 6 == 7 * qb;
    assert b - a == 7 * (qb - qa);
  }

  /** Every day from a Monday through the following Sunday has the same ISO year and week. */
  lemma SameWeekSameIsoCalendar(d1: ValidDate, d2: ValidDate)
    requires Weekday(Ordinal(d1)) == 0
    requires Ordinal(d1) <= Ordinal(d2) <= Ordinal(d1) + 6
    ensures IsoCalendar(d1) == IsoCalendar(d2)
  {
    var o1, o2 := Ordinal(d1), Ordinal(d2);
    var (y, w) := IsoCalendar(d1);
    assert InIsoWeek(o2, y, w) by {
      IsoCalendarCorrect(d1);
      var m0, m1 := IsoWeek1Monday(y), IsoWeek1Monday(y + 1);
      Week1MondayNearFirstDay(y);
      Week1MondayNearFirstDay(y + 1);
      MondaysWeeksApart(m0, o1);
      MondaysWeeksApart(o1, m1);
      SameWeekWindow(o1, o2, m0, m1);
    }
    IsoCalendarCorrect(d2);
    IsoWeekUnique(o2, y, w, IsoCalendar(d2).0, IsoCalendar(d2).1);
  }

  /** Inside a window of whole weeks `[m0, m1)`, the days `o1` (a week start) to
      `o1 + 6` share the window's week number. */
  lemma SameWeekWindow(o1: int, o2: int, m0: int, m1: int)
    requires m0 <= o1 < m1 && (o1 - m0) % 7 == 0 && (m1 - o1) % 7 == 0
    requires o1 <= o2 <= o1 + 6
    ensures m0 <= o2 < m1 && (o2 - m0) / 7 == (o1 - m0) / 7
  {
  }

  // ---------------------------------------------------------------------------
  // The label

  /** `f"week{week}-{year}"`. */
  function FormatWeekLabel(year: nat, week: nat): string {
    "week" + NatToString(week) + "-" + NatToString(year)
  }

  /** Reads a `weekW-YYYY` label back into (year, week). */
  function ParseWeekLabel(s: string): Option<(nat, nat)> {
    if !StartsWith(s, "week") then None
    else
      var rest := s[4..];
      var dash := IndexOf(rest, '-');
      if dash < 0 then None
      else
        var week :- ParseNat(rest[..dash]);
        var year :- ParseNat(rest[dash + 1..]);
        Some((year, week))
  }

  /** `str.find` for one character: the first index holding `c`, or -1. */
  function IndexOf(s: string, c: char): (r: int)
    ensures -1 <= r < |s|
    ensures r >= 0 ==> s[r] == c
    ensures forall k :: 0 <= k < |s| && (r < 0 || k < r) ==> s[k] != c
  {
    if s == [] then -1
    else if s[0] == c then 0
    else var r := IndexOf(s[1..], c); if r < 0 then -1 else r + 1
  }

  /** In digits, a dash and more text, the first dash follows the digits. */
  lemma IndexOfDashAfterDigits(w: string, rest: string)
    requires AllDigits(w)
    ensures IndexOf(w + "-" + rest, '-') == |w|
  {
    var s := w + "-" + rest;
    assert s[|w|] == '-';
    assert forall k :: 0 <= k < |w| ==> s[k] == w[k];
  }

  /** A label splits into `week`, the week digits, a dash and the year digits. */
  lemma LabelParts(w: string, y: string)
    requires AllDigits(w)
    ensures var s := "week" + w + "-" + y;
      && StartsWith(s, "week")
      && IndexOf(s[4..], '-') == |w|
      && s[4..][..|w|] == w
      && s[4..][|w| + 1..] == y
  {
    var s := "week" + w + "-" + y;
    var rest := w + "-" + y;
    assert s[..4] == "week";
    assert s[4..] == rest;
    IndexOfDashAfterDigits(w, y);
    assert rest[..|w|] == w;
    assert rest[|w| + 1..] == y;
  }

  /** The label can be read back: formatting then parsing gives the year and week. */
  lemma FormatWeekLabelRoundTrip(year: nat, week: nat)
    ensures ParseWeekLabel(FormatWeekLabel(year, week)) == Some((year, week))
  {
    LabelParts(NatToString(week), NatToString(year));
    NatToStringRoundTrip(week);
    NatToStringRoundTrip(year);
  }

  /** `get_current_week_year_str(date_obj)`: the label of the given date, or of
      `today` when no date is given (a `date` object is always truthy, so `or`
      falls back only on `None`). The clock is a parameter. */
  function CurrentWeekYearStr(dateObj: Option<ValidDate>, today: ValidDate): string {
    var d := if dateObj.Some? then dateObj.value else today;
    IsoCalendarCorrect(d);
    var (year, week) := IsoCalendar(d);
    FormatWeekLabel(year, week)
  }

  /** Two dates get the same label exactly when they have the same ISO year and week. */
  lemma LabelDeterminesIsoWeek(d1: ValidDate, d2: ValidDate)
    ensures CurrentWeekYearStr(Some(d1), d1) == CurrentWeekYearStr(Some(d2), d2)
        <==> IsoCalendar(d1) == IsoCalendar(d2)
  {
    IsoCalendarCorrect(d1);
    IsoCalendarCorrect(d2);
    FormatWeekLabelRoundTrip(IsoCalendar(d1).0, IsoCalendar(d1).1);
    FormatWeekLabelRoundTrip(IsoCalendar(d2).0, IsoCalendar(d2).1);
  }

  /** The label is `week` + W + `-` + Y with W in 1..53 and Y the calendar year or a neighbour. */
  lemma LabelShape(d: ValidDate)
    ensures exists y: nat, w: nat ::
      CurrentWeekYearStr(Some(d), d) == FormatWeekLabel(y, w) &&
      1 <= w <= 53 && d.year - 1 <= y <= d.year + 1
  {
    IsoCalendarCorrect(d);
    IsoWeekInRange(d);
    var (y, w) := IsoCalendar(d);
    assert CurrentWeekYearStr(Some(d), d) == FormatWeekLabel(y, w);
  }

  // The repository's test dates. Their years are given as offsets from 2000
  // (`y - 2000 == 24`) rather than as literals, which keeps the verifier from
  // evaluating the year-by-year day count from year 1 on literal arguments.

  /** January 1 of 2024, 2025 and 2026. */
  lemma KnownFirstDays(y: int)
    requires y - 2000 == 24  // year 2024, not a literal: a literal year would unroll the day count
    ensures FirstDay(y) == 738886 && FirstDay(y + 1) == 739252 && FirstDay(y + 2) == 739617
  {
    DaysBeforeYearClosedForm(y);
    YearLength(y);
    YearLength(y + 1);
  }

  /** The week-1 Mondays of 2024, 2025 and 2026: 2024 starts on a Monday,
      2025 on a Wednesday and 2026 on a Thursday. */
  lemma KnownWeek1Mondays(y: int)
    requires y - 2000 == 24  // year 2024, not a literal: a literal year would unroll the day count
    ensures IsoWeek1Monday(y) == 738886 && IsoWeek1Monday(y + 1) == 739250 && IsoWeek1Monday(y + 2) == 739614
  {
    KnownFirstDays(y);
    assert Weekday(738886) == 0 && Weekday(739252) == 2 && Weekday(739617) == 3;
  }

  /** The last Sunday of 2024 closes week 52 of 2024. */
  lemma IsoCalendarLastWeekOf2024(d: ValidDate)
    requires d.year - 2000 == 24 && d.month == 12 && d.day == 29  // year 2024, not a literal: a literal year would unroll the day count
    ensures IsoCalendar(d) == (d.year, 52)
  {
    KnownFirstDays(d.year);
    KnownWeek1Mondays(d.year);
    assert Ordinal(d) == 739249 by {
      assert DaysBeforeMonth(d.year, 12) == 335;
    }
  }

  /** January 1 2025, a Wednesday, is in week 1 of 2025. */
  lemma IsoCalendarFirstWeekOf2025(d: ValidDate)
    requires d.year - 2000 == 25 && d.month == 1 && d.day == 1  // year 2025, not a literal: a literal year would unroll the day count
    ensures IsoCalendar(d) == (d.year, 1)
  {
    KnownFirstDays(d.year - 1);
    KnownWeek1Mondays(d.year - 1);
    assert Ordinal(d) == 739252;
  }

  /** April 16 2025 is in week 16 of 2025. */
  lemma IsoCalendarMidApril2025(d: ValidDate)
    requires d.year - 2000 == 25 && d.month == 4 && d.day == 16  // year 2025, not a literal: a literal year would unroll the day count
    ensures IsoCalendar(d) == (d.year, 16)
  {
    KnownFirstDays(d.year - 1);
    KnownWeek1Mondays(d.year - 1);
    assert Ordinal(d) == 739357 by {
      assert DaysBeforeMonth(d.year, 4) == 90;
    }
    assert (739357 - 739250) / 7 == 15;
  }

  /** The label of a given date is the formatted ISO year and week. */
  lemma LabelOfGivenDate(d: ValidDate, today: ValidDate)
    ensures CurrentWeekYearStr(Some(d), today) == FormatWeekLabel(IsoCalendar(d).0, IsoCalendar(d).1)
  {
  }

  lemma FormatLabel2024(y: nat)
    requires y - 2000 == 24  // year 2024, not a literal: a literal year would unroll the day count
    ensures FormatWeekLabel(y, 52) == "week52-2024"
  {
    assert y == 2024;
    assert NatToString(52) == "52" && NatToString(2024) == "2024";
  }

  lemma FormatLabel2025(y: nat)
    requires y - 2000 == 25  // year 2025, not a literal: a literal year would unroll the day count
    ensures FormatWeekLabel(y, 1) == "week1-2025"
    ensures FormatWeekLabel(y, 16) == "week16-2025"
  {
    assert y == 2025;
    assert NatToString(1) == "1" && NatToString(16) == "16" && NatToString(2025) == "2025";
  }

  /** The labels the repository's tests expect: 2024-12-29 gives `week52-2024`,
      2025-01-01 gives `week1-2025` and 2025-04-16 gives `week16-2025`. */
  lemma TestLabelLastWeekOf2024(d: ValidDate, today: ValidDate)
    requires d.year - 2000 == 24 && d.month == 12 && d.day == 29  // year 2024, not a literal: a literal year would unroll the day count
    ensures CurrentWeekYearStr(Some(d), today) == "week52-2024"
  {
    IsoCalendarLastWeekOf2024(d);
    LabelOfGivenDate(d, today);
    FormatLabel2024(d.year);
  }

  lemma TestLabelFirstWeekOf2025(d: ValidDate, today: ValidDate)
    requires d.year - 2000 == 25 && d.month == 1 && d.day == 1  // year 2025, not a literal: a literal year would unroll the day count
    ensures CurrentWeekYearStr(Some(d), today) == "week1-2025"
  {
    IsoCalendarFirstWeekOf2025(d);
    LabelOfGivenDate(d, today);
    FormatLabel2025(d.year);
  }

  lemma TestLabelMidApril2025(d: ValidDate, today: ValidDate)
    requires d.year - 2000 == 25 && d.month == 4 && d.day == 16  // year 2025, not a literal: a literal year would unroll the day count
    ensures CurrentWeekYearStr(Some(d), today) == "week16-2025"
  {
    IsoCalendarMidApril2025(d);
    LabelOfGivenDate(d, today);
    FormatLabel2025(d.year);
  }
}
