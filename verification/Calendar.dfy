/** Two independently written halves of one calendar: seconds to a civil date and
    its RFC 3339 text (`rfc3339_now`), and that text back to milliseconds
    (`iso_to_ms`). */
module Calendar {
  import opened Order

  // ------------------------------------------------------- integer operators

  /** Integer division as Rust's `/` has it: toward zero. */
  function Quot(a: int, b: int): int
    requires b > 0
  {
    if a >= 0 then a / b else -((-a) / b)
  }

  // -------------------------------------------------------------- civil dates

  datatype Date = Date(year: int, month: int, day: int)

  /** The Gregorian rule. */
  predicate IsLeap(year: int) {
    year % 4 == 0 && (year % 100 != 0 || year % 400 == 0)
  }

  function DaysInMonth(year: int, month: int): int {
    if month == 2 then (if IsLeap(year) then 29 else 28)
    else if month == 4 || month == 6 || month == 9 || month == 11 then 30
    else 31
  }

  predicate ValidDate(d: Date) {
    1 <= d.month <= 12 && 1 <= d.day <= DaysInMonth(d.year, d.month)
  }

  /** The day after, by the calendar's own rule. */
  function NextDate(d: Date): Date {
    if d.day < DaysInMonth(d.year, d.month) then d.(day := d.day + 1)
    else if d.month < 12 then Date(d.year, d.month + 1, 1)
    else Date(d.year + 1, 1, 1)
  }

  predicate Earlier(a: Date, b: Date) {
    a.year < b.year
    || (a.year == b.year && (a.month < b.month || (a.month == b.month && a.day < b.day)))
  }

  /** The year of the era, counted from March, that holds a day of the era. */
  function Yoe(doe: int): int {
    (doe - doe / 1460 + doe / 36524 - doe / 146096) / 365
  }

  /** The date of day `doe` of an era of 400 years. */
  function DateInEra(era: int, doe: int): Date {
    var yoe := Yoe(doe);
    var doy := doe - (365 * yoe + yoe / 4 - yoe / 100);
    var mp := (5 * doy + 2) / 153;
    var day := doy - (153 * mp + 2) / 5 + 1;
    var month := if mp < 10 then mp + 3 else mp - 9;
    var year := yoe + era * 400;
    Date(if month <= 2 then year + 1 else year, month, day)
  }

  /** The date of a day counted from 1970-01-01. */
  function CivilFromDays(days: int): Date {
    var z := days + 719468;
    var era := Quot(if z >= 0 then z else z - 146096, 146097);
    DateInEra(era, z - era * 146097)
  }

  /** The day within the era, as the parser counts it. */
  function DayInEra(yoe: int, month: int, day: int): int {
    var doy := Quot(153 * (if month > 2 then month - 3 else month + 9) + 2, 5) + day - 1;
    yoe * 365 + yoe / 4 - yoe / 100 + doy
  }

  /** The day of a date, as the parser counts it. */
  function DaysFromCivil(d: Date): int {
    var y := if d.month <= 2 then d.year - 1 else d.year;
    var era := Quot(if y >= 0 then y else y - 399, 400);
    era * 146097 + DayInEra(y - era * 400, d.month, d.day) - 719468
  }

  lemma EraOfDay(z: int)
    ensures var era := Quot(if z >= 0 then z else z - 146096, 146097);
            era == z / 146097 && 0 <= z - era * 146097 < 146097
  {
  }

  lemma EraOfYear(y: int)
    ensures var era := Quot(if y >= 0 then y else y - 399, 400);
            era == y / 400 && 0 <= y - era * 400 < 400
  {
  }

  /** The first day, within its era, of the year starting in March. */
  function YearStart(yoe: int): int {
    365 * yoe + yoe / 4 - yoe / 100
  }

  /** The day length of the year starting in March `yoe`: leap when the next February is. */
  function YearLength(yoe: int): int {
    if (yoe + 1) % 4 == 0 && ((yoe + 1) % 100 != 0 || (yoe + 1) % 400 == 0) then 366 else 365
  }

  /** The formula on a day split into centuries, four-year runs and days. */
  lemma YearOfEraSplit(c: int, q: int, s: int)
    requires 0 <= c <= 3 && 0 <= q <= 24 && 0 <= s <= 1460 && 1461 * q + s < 36524
    ensures var doe := 36524 * c + 1461 * q + s;
            var yoe := 100 * c + 4 * q + (if s == 1460 then 3 else s / 365);
            && doe / 36524 == c && doe / 146096 == 0
            && (doe - doe / 1460 + doe / 36524 - doe / 146096) / 365 == yoe
            && YearStart(yoe) == 36524 * c + 1461 * q + 365 * (if s == 1460 then 3 else s / 365)
  {
    var doe := 36524 * c + 1461 * q + s;
    var e := if 24 * c + q + s >= 1460 then 1 else 0;
    var t := if s == 1460 then 3 else s / 365;
    assert doe == 1460 * (25 * c + q + e) + (24 * c + q + s - 1460 * e);
    assert doe / 1460 == 25 * c + q + e;
    assert doe - doe / 1460 + c == 365 * (100 * c + 4 * q + t) + (s - e - 365 * t);
    assert 0 <= s - e - 365 * t < 365;
    var yoe := 100 * c + 4 * q + t;
    assert yoe / 4 == 25 * c + q;
    assert yoe / 100 == c;
  }

  /** Only the last year of a four-year run can be long. */
  lemma LongYear(c: int, q: int)
    requires 0 <= c <= 3 && 0 <= q <= 24
    ensures YearLength(100 * c + 4 * q + 3) == if q < 24 || c == 3 then 366 else 365
  {
    var n := 100 * c + 4 * q + 4;
    assert n == 4 * (25 * c + q + 1);
    if q < 24 {
      assert n % 100 == 4 * q + 4;
    } else {
      assert n == 100 * (c + 1);
    }
  }

  lemma SplitDay(doe: int) returns (c: int, q: int, s: int)
    requires 0 <= doe < 146096
    ensures 0 <= c <= 3 && 0 <= q <= 24 && 0 <= s <= 1460 && 1461 * q + s < 36524
    ensures doe == 36524 * c + 1461 * q + s
  {
    var r := doe % 36524;
    c, q, s := doe / 36524, r / 1461, r % 1461;
  }

  lemma LastDayOfEra()
    ensures Yoe(146096) == 399 && YearStart(399) == 145731 && YearLength(399) == 366
  {
  }

  /** The year-of-era formula finds the March year holding the day. */
  lemma YearOfEra(doe: int)
    requires 0 <= doe < 146097
    ensures 0 <= Yoe(doe) < 400 && 0 <= doe - YearStart(Yoe(doe)) < YearLength(Yoe(doe))
  {
    if doe == 146096 {
      LastDayOfEra();
    } else {
      var c, q, s := SplitDay(doe);
      YearInEra(c, q, s, doe, Yoe(doe));
    }
  }

  lemma YearInEra(c: int, q: int, s: int, doe: int, yoe: int)
    requires 0 <= c <= 3 && 0 <= q <= 24 && 0 <= s <= 1460 && 1461 * q + s < 36524
    requires doe == 36524 * c + 1461 * q + s && yoe == Yoe(doe)
    ensures 0 <= yoe < 400 && 0 <= doe - YearStart(yoe) < YearLength(yoe)
  {
    YearOfEraSplit(c, q, s);
    LongYear(c, q);
    SplitYear(c, q, s, doe, yoe, if s == 1460 then 3 else s / 365);
  }

  /** The year found holds the day, by the day's parts alone. */
  lemma SplitYear(c: int, q: int, s: int, doe: int, yoe: int, t: int)
    requires 0 <= c <= 3 && 0 <= q <= 24 && 0 <= s <= 1460 && 1461 * q + s < 36524
    requires t == (if s == 1460 then 3 else s / 365) && yoe == 100 * c + 4 * q + t
    requires doe == 36524 * c + 1461 * q + s && YearStart(yoe) == 36524 * c + 1461 * q + 365 * t
    requires YearLength(100 * c + 4 * q + 3) == if q < 24 || c == 3 then 366 else 365
    ensures 0 <= yoe < 400 && 0 <= doe - YearStart(yoe) < YearLength(yoe)
  {
    hide YearStart;
    assert YearLength(yoe) >= 365;
    hide YearLength;
  }

  /** The first day, within its March year, of the month `mp` months after March. */
  function MonthStart(mp: int): int {
    (153 * mp + 2) / 5
  }

  lemma MonthOfYear(doy: int)
    requires 0 <= doy <= 365
    ensures var mp := (5 * doy + 2) / 153;
            0 <= mp <= 11 && MonthStart(mp) <= doy < MonthStart(mp + 1)
  {
  }

  /** A date told by its era, March year of era, March month and day. */
  function Compose(era: int, yoe: int, mp: int, day: int): Date {
    var month := if mp < 10 then mp + 3 else mp - 9;
    Date(400 * era + yoe + (if month <= 2 then 1 else 0), month, day)
  }

  function MonthLength(yoe: int, mp: int): int {
    if mp == 11 then YearLength(yoe) - 337 else MonthStart(mp + 1) - MonthStart(mp)
  }

  lemma SameModulo4(k: int, y: int)
    ensures (4 * k + y) % 4 == y % 4
  {
  }

  lemma SameModulo100(k: int, y: int)
    ensures (100 * k + y) % 100 == y % 100
  {
  }

  lemma SameModulo400(k: int, y: int)
    ensures (400 * k + y) % 400 == y % 400
  {
  }

  lemma LeapByEra(era: int, year: int)
    ensures IsLeap(400 * era + year) == IsLeap(year)
  {
    SameModulo4(100 * era, year);
    SameModulo100(4 * era, year);
    SameModulo400(era, year);
  }

  /** The March-based table agrees with the Gregorian month lengths. */
  lemma MonthLengthIsGregorian(era: int, yoe: int, mp: int)
    requires 0 <= yoe < 400 && 0 <= mp <= 11
    ensures var d := Compose(era, yoe, mp, 1);
            1 <= d.month <= 12 && DaysInMonth(d.year, d.month) == MonthLength(yoe, mp)
  {
    if mp == 11 {
      LeapByEra(era, yoe + 1);
    }
  }

  lemma MonthInEra(yoe: int, mp: int, day: int)
    requires 0 <= mp <= 11
    ensures DayInEra(yoe, if mp < 10 then mp + 3 else mp - 9, day) == YearStart(yoe) + MonthStart(mp) + day - 1
  {
  }

  lemma EraOfMarchYear(era: int, yoe: int)
    requires 0 <= yoe < 400
    ensures (400 * era + yoe) / 400 == era
  {
  }

  lemma ComposeDays(era: int, yoe: int, mp: int, day: int)
    requires 0 <= yoe < 400 && 0 <= mp <= 11
    ensures DaysFromCivil(Compose(era, yoe, mp, day))
         == era * 146097 + YearStart(yoe) + MonthStart(mp) + day - 1 - 719468
  {
    EraOfYear(400 * era + yoe);
    EraOfMarchYear(era, yoe);
    MonthInEra(yoe, mp, day);
  }

  function EraOf(d: Date): int {
    (if d.month <= 2 then d.year - 1 else d.year) / 400
  }

  function YoeOf(d: Date): int {
    (if d.month <= 2 then d.year - 1 else d.year) % 400
  }

  function MpOf(d: Date): int {
    if d.month > 2 then d.month - 3 else d.month + 9
  }

  lemma Decomposed(d: Date)
    requires ValidDate(d)
    ensures 0 <= YoeOf(d) < 400 && 0 <= MpOf(d) <= 11
    ensures d == Compose(EraOf(d), YoeOf(d), MpOf(d), d.day)
    ensures 1 <= d.day <= MonthLength(YoeOf(d), MpOf(d))
  {
    MonthLengthIsGregorian(EraOf(d), YoeOf(d), MpOf(d));
  }

  lemma EraDayDecomposed(era: int, doe: int) returns (yoe: int, mp: int, day: int)
    requires 0 <= doe < 146097
    ensures 0 <= yoe < 400 && 0 <= mp <= 11 && 1 <= day <= MonthLength(yoe, mp)
    ensures DateInEra(era, doe) == Compose(era, yoe, mp, day)
    ensures doe == YearStart(yoe) + MonthStart(mp) + day - 1
  {
    YearOfEra(doe);
    yoe := Yoe(doe);
    var doy := doe - YearStart(yoe);
    MonthOfYear(doy);
    mp := (5 * doy + 2) / 153;
    day := doy - MonthStart(mp) + 1;
  }

  lemma DayDecomposed(days: int) returns (era: int, yoe: int, mp: int, day: int)
    ensures 0 <= yoe < 400 && 0 <= mp <= 11 && 1 <= day <= MonthLength(yoe, mp)
    ensures CivilFromDays(days) == Compose(era, yoe, mp, day)
    ensures days + 719468 == era * 146097 + YearStart(yoe) + MonthStart(mp) + day - 1
  {
    var z := days + 719468;
    EraOfDay(z);
    era := z / 146097;
    yoe, mp, day := EraDayDecomposed(era, z - era * 146097);
  }

  /** Every day has a Gregorian date, and counting that date's days gives the day back. */
  lemma CivilIsValidAndInverts(days: int)
    ensures ValidDate(CivilFromDays(days))
    ensures DaysFromCivil(CivilFromDays(days)) == days
  {
    var era, yoe, mp, day := DayDecomposed(days);
    MonthLengthIsGregorian(era, yoe, mp);
    ComposeDays(era, yoe, mp, day);
  }

  /** The first day of a whole-numbered March year. */
  function YearOpens(y: int): int {
    y / 400 * 146097 + YearStart(y % 400)
  }

  lemma YearAfter(y: int)
    ensures YearOpens(y + 1) == YearOpens(y) + YearLength(y % 400)
  {
    if y % 400 == 399 {
      assert (y + 1) % 400 == 0 && (y + 1) / 400 == y / 400 + 1;
    } else {
      assert (y + 1) % 400 == y % 400 + 1 && (y + 1) / 400 == y / 400;
      YearStep(y % 400);
    }
  }

  lemma YearStep(yoe: int)
    requires 0 <= yoe < 399
    ensures YearStart(yoe + 1) == YearStart(yoe) + YearLength(yoe)
  {
  }

  lemma {:induction false} YearsAscend(a: int, b: int)
    requires a < b
    ensures YearOpens(a) + YearLength(a % 400) <= YearOpens(b)
    decreases b - a
  {
    YearAfter(a);
    if a + 1 < b {
      YearsAscend(a + 1, b);
    }
  }

  function MarchYear(d: Date): int {
    if d.month <= 2 then d.year - 1 else d.year
  }

  lemma DaysWithinYear(d: Date)
    requires ValidDate(d)
    ensures DaysFromCivil(d) == YearOpens(MarchYear(d)) + MonthStart(MpOf(d)) + d.day - 1 - 719468
    ensures 0 <= MonthStart(MpOf(d)) + d.day - 1 < YearLength(MarchYear(d) % 400)
  {
    Decomposed(d);
    ComposeDays(EraOf(d), YoeOf(d), MpOf(d), d.day);
  }

  lemma MonthsAscend(a: int, b: int)
    requires 0 <= a < b <= 11
    ensures MonthStart(a + 1) <= MonthStart(b)
  {
  }

  /** The parser's count keeps the order of dates. */
  lemma EarlierIsLess(a: Date, b: Date)
    requires ValidDate(a) && ValidDate(b) && Earlier(a, b)
    ensures DaysFromCivil(a) < DaysFromCivil(b)
  {
    DaysWithinYear(a);
    DaysWithinYear(b);
    if MarchYear(a) < MarchYear(b) {
      YearsAscend(MarchYear(a), MarchYear(b));
    } else if MpOf(a) < MpOf(b) {
      Decomposed(a);
      MonthsAscend(MpOf(a), MpOf(b));
    }
  }

  lemma OrdersAgree(x: Date, y: Date)
    requires ValidDate(x) && ValidDate(y)
    ensures DaysFromCivil(x) < DaysFromCivil(y) <==> Earlier(x, y)
    ensures DaysFromCivil(x) == DaysFromCivil(y) <==> x == y
  {
    if Earlier(x, y) {
      EarlierIsLess(x, y);
    } else if Earlier(y, x) {
      EarlierIsLess(y, x);
    }
  }

  /** Earlier day, earlier date: the two orders agree on every pair of days. */
  lemma CivilKeepsOrder(a: int, b: int)
    ensures a < b <==> Earlier(CivilFromDays(a), CivilFromDays(b))
  {
    CivilIsValidAndInverts(a);
    CivilIsValidAndInverts(b);
    OrdersAgree(CivilFromDays(a), CivilFromDays(b));
  }

  /** Every valid date is the date of its own day count. */
  lemma DaysInvertsCivil(d: Date)
    requires ValidDate(d)
    ensures CivilFromDays(DaysFromCivil(d)) == d
  {
    CivilIsValidAndInverts(DaysFromCivil(d));
    OrdersAgree(CivilFromDays(DaysFromCivil(d)), d);
  }

  lemma NextDateValid(d: Date)
    requires ValidDate(d)
    ensures ValidDate(NextDate(d))
  {
  }

  /** The last day of a month is followed by the first of the next March-based month. */
  lemma MonthEndCounts(d: Date)
    requires ValidDate(d) && d.day == DaysInMonth(d.year, d.month)
    ensures DaysFromCivil(NextDate(d)) == DaysFromCivil(d) + 1
  {
    NextDateValid(d);
    Decomposed(d);
    DaysWithinYear(d);
    DaysWithinYear(NextDate(d));
    MonthLengthIsGregorian(EraOf(d), YoeOf(d), MpOf(d));
    if MpOf(d) == 11 {
      YearAfter(MarchYear(d));
      assert MarchYear(NextDate(d)) == MarchYear(d) + 1;
      assert MonthStart(11) == 337 && MonthStart(0) == 0;
    } else {
      assert MarchYear(NextDate(d)) == MarchYear(d);
      assert MpOf(NextDate(d)) == MpOf(d) + 1;
    }
  }

  lemma NextDateCounts(d: Date)
    requires ValidDate(d)
    ensures ValidDate(NextDate(d)) && DaysFromCivil(NextDate(d)) == DaysFromCivil(d) + 1
  {
    NextDateValid(d);
    if d.day == DaysInMonth(d.year, d.month) {
      MonthEndCounts(d);
    } else {
      DaysWithinYear(d);
      DaysWithinYear(NextDate(d));
    }
  }

  lemma EpochDate()
    ensures CivilFromDays(0) == Date(1970, 1, 1)
  {
    assert Yoe(135080) == 369;
    assert DateInEra(4, 135080) == Date(1970, 1, 1);
  }

  /** The date arithmetic is the calendar's own rule, day after day in both
      directions from the epoch. */
  lemma CivilFollowsTheCalendar(days: int)
    ensures CivilFromDays(0) == Date(1970, 1, 1)
    ensures CivilFromDays(days + 1) == NextDate(CivilFromDays(days))
  {
    EpochDate();
    CivilIsValidAndInverts(days);
    var d := CivilFromDays(days);
    NextDateCounts(d);
    DaysInvertsCivil(NextDate(d));
    assert DaysFromCivil(NextDate(d)) == days + 1;
  }
}
