/** Days since the epoch to calendar dates: the closed-form computation that both
    the log timestamps and the mail `Date` header use, against the calendar itself,
    one day at a time. */
module Civil {

  datatype Date = Date(year: int, month: int, day: int)

  // ---- the proleptic Gregorian calendar ----

  predicate Leap(y: int) {
    y % 4 == 0 && (y % 100 != 0 || y % 400 == 0)
  }

  function MonthLength(y: int, m: int): int
    requires 1 <= m <= 12
  {
    if m == 2 then (if Leap(y) then 29 else 28)
    else if m in {4, 6, 9, 11} then 30
    else 31
  }

  predicate ValidDate(d: Date) {
    1 <= d.month <= 12 && 1 <= d.day <= MonthLength(d.year, d.month)
  }

  function NextDay(d: Date): Date
    requires ValidDate(d)
  {
    if d.day < MonthLength(d.year, d.month) then Date(d.year, d.month, d.day + 1)
    else if d.month < 12 then Date(d.year, d.month + 1, 1)
    else Date(d.year + 1, 1, 1)
  }

  // ---- the closed form ----

  /** `civil_from_days`: eras of 400 years starting on 1 March. */
  function CivilFromDays(days: int): Date {
    var z := days + 719_468;
    var era := z / 146_097;
    var doe := z % 146_097;
    var yoe := YearOfEra(doe);
    var doy := doe - (365 * yoe + yoe / 4 - yoe / 100);
    var mp := (5 * doy + 2) / 153;
    var d := doy - (153 * mp + 2) / 5 + 1;
    var m := if mp < 10 then mp + 3 else mp - 9;
    var y := yoe + era * 400 + (if m <= 2 then 1 else 0);
    Date(y, m, d)
  }

  function YearOfEra(doe: int): int {
    (doe - doe / 1460 + doe / 36_524 - doe / 146_096) / 365
  }

  /** First day of year `y` of an era; years start on 1 March. */
  function YearStart(y: int): int {
    365 * y + y / 4 - y / 100
  }

  function YearLength(y: int): int {
    if Leap(y + 1) then 366 else 365
  }

  /** A day of an era as century, four-year cycle, year and day. */
  ghost predicate Split(doe: int, c: int, q: int, s: int, k: int) {
    && 0 <= c < 4 && 0 <= q < 25 && 0 <= s < 4 && 0 <= k <= 365
    && doe == 36_524 * c + 1461 * q + 365 * s + k
    && (k == 365 ==> s == 3 && (q < 24 || c == 3))
  }

  lemma SplitExists(doe: int) returns (c: int, q: int, s: int, k: int)
    requires 0 <= doe < 146_097
    ensures Split(doe, c, q, s, k)
  {
    c := if doe == 146_096 then 3 else doe / 36_524;
    var r := doe - 36_524 * c;
    q := r / 1461;
    var u := r - 1461 * q;
    s := if u == 1460 then 3 else u / 365;
    k := u - 365 * s;
  }

  /** The correction terms of the formula cancel the leap days before `doe`. */
  lemma FormulaOnSplit(doe: int, c: int, q: int, s: int, k: int)
    requires Split(doe, c, q, s, k)
    ensures YearOfEra(doe) == 100 * c + 4 * q + s
  {
    var g := if q + 24 * c + 365 * s + k >= 1460 then q + 1 else q;
    assert doe / 1460 == 25 * c + g by {
      assert doe == 1460 * (25 * c + g) + (q + 24 * c + 365 * s + k - 1460 * (g - q));
    }
    assert doe / 36_524 - doe / 146_096 == c;
    assert doe - doe / 1460 + doe / 36_524 - doe / 146_096 == 365 * (100 * c + 4 * q + s) + (k + q - g);
    assert 0 <= k + q - g < 365;
  }

  lemma YearOnSplit(doe: int, c: int, q: int, s: int, k: int, y: int)
    requires Split(doe, c, q, s, k) && y == 100 * c + 4 * q + s
    ensures 0 <= y < 400 && YearStart(y) == doe - k
    ensures Leap(y + 1) <==> s == 3 && (q < 24 || c == 3)
  {
    assert y / 4 == 25 * c + q && y / 100 == c;
    assert (y + 1) % 4 == 0 <==> s == 3;
    assert (y + 1) % 100 == 0 <==> s == 3 && q == 24;
    assert (y + 1) % 400 == 0 <==> s == 3 && q == 24 && c == 3;
  }

  /** `y` is the year of the era that contains day `doe`. */
  ghost predicate InYear(doe: int, y: int) {
    0 <= y < 400 && YearStart(y) <= doe < YearStart(y) + YearLength(y)
  }

  /** The year-of-era formula brackets its day between two year starts. */
  lemma YearBracket(doe: int)
    requires 0 <= doe < 146_097
    ensures InYear(doe, YearOfEra(doe))
  {
    var c, q, s, k := SplitExists(doe);
    FormulaOnSplit(doe, c, q, s, k);
    hide YearOfEra;
    YearOnSplit(doe, c, q, s, k, YearOfEra(doe));
  }

  lemma YearStartStep(y: int)
    requires 0 <= y < 399
    ensures YearStart(y + 1) == YearStart(y) + YearLength(y)
  {
    assert (y + 1) / 4 == y / 4 + (if (y + 1) % 4 == 0 then 1 else 0);
    assert (y + 1) / 100 == y / 100 + (if (y + 1) % 100 == 0 then 1 else 0);
    assert (y + 1) % 400 != 0;
    assert (y + 1) % 100 == 0 ==> (y + 1) % 4 == 0;
  }

  lemma {:induction false} YearStartsIncrease(y: int, y': int)
    requires 0 <= y < y' < 400
    ensures YearStart(y) + YearLength(y) <= YearStart(y')
    decreases y'
  {
    hide YearStart, Leap;
    YearStartStep(y' - 1);
    if y < y' - 1 {
      YearStartsIncrease(y, y' - 1);
    }
  }

  /** Only one year contains a day, so the formula finds it. */
  lemma YearUnique(doe: int, y: int)
    requires InYear(doe, y) && 0 <= doe < 146_097
    ensures YearOfEra(doe) == y
  {
    YearBracket(doe);
    var f := YearOfEra(doe);
    hide YearOfEra, YearStart, YearLength;
    if f < y {
      YearStartsIncrease(f, y);
    } else if y < f {
      YearStartsIncrease(y, f);
    }
  }

  // ---- months ----

  /** Month index counted from March, and day of the month. */
  function MonthIndex(doy: int): int {
    (5 * doy + 2) / 153
  }

  function MonthStart(mp: int): int {
    (153 * mp + 2) / 5
  }

  function CivilMonth(mp: int): int {
    if mp < 10 then mp + 3 else mp - 9
  }

  /** Length of the month with index `mp` from March, February being cut by the end of the year. */
  function MarchMonthLength(mp: int): int {
    if mp in {1, 3, 6, 8} then 30 else if mp == 11 then 29 else 31
  }

  /** The 153/5 formula walks through the months day by day. */
  lemma MonthStep(doy: int)
    requires 0 <= doy < 366
    ensures 0 <= MonthIndex(doy) < 12 && (MonthIndex(doy) == 11 <==> doy >= 337)
    ensures var mp := MonthIndex(doy); 0 <= mp < 12 && MonthStart(mp) <= doy < MonthStart(mp) + MarchMonthLength(mp)
    ensures var mp := MonthIndex(doy);
      if doy + 1 < MonthStart(mp) + MarchMonthLength(mp) then MonthIndex(doy + 1) == mp
      else
        && MonthStart(mp) + MarchMonthLength(mp) == doy + 1
        && (doy + 1 < 366 ==> MonthIndex(doy + 1) == mp + 1 && MonthStart(mp + 1) == doy + 1)
  {
  }

  /** The date of day `doy` of the March year `y` of era `era`. */
  function DateIn(era: int, y: int, doy: int): Date {
    var mp := MonthIndex(doy);
    var m := CivilMonth(mp);
    Date(y + era * 400 + (if m <= 2 then 1 else 0), m, doy - MonthStart(mp) + 1)
  }

  lemma CivilIs(days: int, era: int, y: int, doy: int)
    requires days + 719_468 == 146_097 * era + YearStart(y) + doy
    requires 0 <= y < 400 && 0 <= doy < YearLength(y)
    ensures CivilFromDays(days) == DateIn(era, y, doy)
  {
    var doe := YearStart(y) + doy;
    EraBound(y, doy);
    assert (days + 719_468) / 146_097 == era && (days + 719_468) % 146_097 == doe;
    YearUnique(doe, y);
  }

  lemma EraBound(y: int, doy: int)
    requires 0 <= y < 400 && 0 <= doy < YearLength(y)
    ensures 0 <= YearStart(y) + doy < 146_097
  {
  }

  lemma SameMod4(y: int, k: int)
    ensures (y + 4 * k) % 4 == y % 4
  {
  }

  lemma SameMod100(y: int, k: int)
    ensures (y + 100 * k) % 100 == y % 100
  {
  }

  lemma SameMod400(y: int, k: int)
    ensures (y + 400 * k) % 400 == y % 400
  {
  }

  lemma LeapPeriodic(y: int, era: int)
    ensures Leap(y + era * 400) == Leap(y)
  {
    SameMod4(y, 100 * era);
    SameMod100(y, 4 * era);
    SameMod400(y, era);
  }

  /** Days in the month with index `mp` of the March year that starts in civil year `year`. */
  function LengthFromMarch(year: int, mp: int): int
    requires 0 <= mp < 12
  {
    if mp == 11 then (if Leap(year + 1) then 29 else 28) else MarchMonthLength(mp)
  }

  lemma LengthAgrees(year: int, mp: int)
    requires 0 <= mp < 12
    ensures 1 <= CivilMonth(mp) <= 12
    ensures MonthLength(year + (if CivilMonth(mp) <= 2 then 1 else 0), CivilMonth(mp)) == LengthFromMarch(year, mp)
  {
  }

  lemma LastMonth(year: int, y: int, era: int)
    requires year == y + era * 400
    ensures YearLength(y) == 337 + LengthFromMarch(year, 11) <= 366
    ensures MonthStart(11) == 337 && MarchMonthLength(11) == 29
  {
    LeapPeriodic(y + 1, era);
  }

  lemma DateInValid(era: int, y: int, doy: int)
    requires 0 <= doy < YearLength(y)
    ensures ValidDate(DateIn(era, y, doy))
    ensures doy + 1 < YearLength(y) ==> DateIn(era, y, doy + 1) == NextDay(DateIn(era, y, doy))
    ensures doy + 1 == YearLength(y) ==> NextDay(DateIn(era, y, doy)) == Date(y + era * 400 + 1, 3, 1)
  {
    hide MonthIndex, MonthStart, YearLength, Leap, MonthLength, MarchMonthLength;
    var year, mp := y + era * 400, MonthIndex(doy);
    LastMonth(year, y, era);
    MonthStep(doy);
    LengthAgrees(year, mp);
    if mp < 11 {
      LengthAgrees(year, mp + 1);
    }
  }

  /** Every day number has its place: era, March year and day of that year. */
  lemma Place(days: int) returns (era: int, y: int, doy: int)
    ensures days + 719_468 == 146_097 * era + YearStart(y) + doy
    ensures 0 <= y < 400 && 0 <= doy < YearLength(y)
  {
    era := (days + 719_468) / 146_097;
    var doe := (days + 719_468) % 146_097;
    y := YearOfEra(doe);
    YearBracket(doe);
    doy := doe - YearStart(y);
  }

  lemma MarchFirst(era: int, y: int)
    ensures DateIn(era, y, 0) == Date(y + era * 400, 3, 1)
  {
  }

  lemma EraEnd()
    ensures YearStart(399) + YearLength(399) == 146_097 && YearStart(0) == 0 && forall y :: YearLength(y) >= 365
  {
  }

  /** For every day number the closed form is a valid date, and the next day
      number is the next day of the calendar. */
  lemma CivilFollowsCalendar(days: int)
    ensures ValidDate(CivilFromDays(days))
    ensures CivilFromDays(days + 1) == NextDay(CivilFromDays(days))
  {
    hide *;
    var era, y, doy := Place(days);
    CivilIs(days, era, y, doy);
    DateInValid(era, y, doy);
    EraEnd();
    if doy + 1 < YearLength(y) {
      CivilIs(days + 1, era, y, doy + 1);
    } else if y < 399 {
      YearStartStep(y);
      CivilIs(days + 1, era, y + 1, 0);
      MarchFirst(era, y + 1);
    } else {
      CivilIs(days + 1, era + 1, 0, 0);
      MarchFirst(era + 1, 0);
    }
  }

  const EPOCH: Date := Date(1970, 1, 1)

  lemma Anchor()
    ensures CivilFromDays(0) == EPOCH
  {
    assert YearOfEra(135_080) == 369;
    hide YearOfEra;
    assert 719_468 / 146_097 == 4 && 719_468 % 146_097 == 135_080;
  }

  /** The date `n` days after `d`, by counting. */
  function DaysAfter(d: Date, n: nat): (r: Date)
    requires ValidDate(d)
    ensures ValidDate(r)
  {
    if n == 0 then d else NextDay(DaysAfter(d, n - 1))
  }

  /** Counting forward from any day is adding to its day number. */
  lemma {:induction false} CivilCountsDays(days: int, n: nat)
    ensures ValidDate(CivilFromDays(days)) && CivilFromDays(days + n) == DaysAfter(CivilFromDays(days), n)
  {
    hide CivilFromDays, NextDay, ValidDate;
    CivilFollowsCalendar(days);
    if n > 0 {
      CivilCountsDays(days, n - 1);
      CivilFollowsCalendar(days + (n - 1));
      assert days + (n - 1) + 1 == days + n;
    }
  }

  /** With the anchor: every date is the one reached by counting from 1 January 1970. */
  lemma CivilIsCounting(n: nat)
    ensures CivilFromDays(n) == DaysAfter(EPOCH, n)
    ensures ValidDate(CivilFromDays(0 - n)) && DaysAfter(CivilFromDays(0 - n), n) == EPOCH
  {
    hide CivilFromDays, NextDay, DaysAfter;
    Anchor();
    CivilCountsDays(0, n);
    CivilCountsDays(0 - n, n);
  }

  ghost predicate Before(a: Date, b: Date) {
    a.year < b.year || (a.year == b.year && (a.month < b.month || (a.month == b.month && a.day < b.day)))
  }

  /** Later day numbers are later dates, so no two days share a date. */
  lemma {:induction false} CivilIncreases(a: int, b: int)
    requires a < b
    ensures Before(CivilFromDays(a), CivilFromDays(b))
    decreases b - a
  {
    hide CivilFromDays;
    CivilFollowsCalendar(b - 1);
    if a < b - 1 {
      CivilIncreases(a, b - 1);
    }
  }

  /** The day number of a date, by the same March-based counting. */
  function DaysFromCivil(date: Date): int {
    var y := if date.month <= 2 then date.year - 1 else date.year;
    var mp := if date.month <= 2 then date.month + 9 else date.month - 3;
    146_097 * (y / 400) + YearStart(y % 400) + MonthStart(mp) + date.day - 1 - 719_468
  }

  lemma MonthFound(mp: int, k: int)
    requires 0 <= mp < 12 && 0 <= k < MarchMonthLength(mp)
    ensures MonthIndex(MonthStart(mp) + k) == mp && MonthStart(mp) + k < 366 && MonthStart(mp) >= 0
    ensures mp < 11 ==> MonthStart(mp) + k < 337
  {
  }

  /** Every valid date is reached: the closed form is a bijection between day
      numbers and valid dates. */
  lemma CivilOnto(date: Date)
    requires ValidDate(date)
    ensures CivilFromDays(DaysFromCivil(date)) == date
  {
    hide YearStart, YearLength, MonthIndex, MonthStart, CivilFromDays, Leap, MonthLength, MarchMonthLength;
    var y := if date.month <= 2 then date.year - 1 else date.year;
    var mp := if date.month <= 2 then date.month + 9 else date.month - 3;
    var era, yoe := y / 400, y % 400;
    LengthAgrees(y, mp);
    LastMonth(y, yoe, era);
    MonthFound(mp, date.day - 1);
    var doy := MonthStart(mp) + date.day - 1;
    EraEnd();
    CivilIs(DaysFromCivil(date), era, yoe, doy);
  }

  // ---- the two users of the closed form ----

  datatype Clock = Clock(hour: int, minute: int, second: int, millis: int)

  /** `timestamp`: the date and time of day of a millisecond count. */
  function Timestamp(ms: nat): (Date, Clock) {
    var secs := ms / 1000;
    var rem := secs % 86_400;
    (CivilFromDays(secs / 86_400), Clock(rem / 3600, rem % 3600 / 60, rem % 60, ms % 1000))
  }

  /** The printed fields are in range and give the millisecond count back. */
  lemma TimestampExact(ms: nat)
    ensures var (date, t) := Timestamp(ms);
      && ValidDate(date)
      && 0 <= t.hour < 24 && 0 <= t.minute < 60 && 0 <= t.second < 60 && 0 <= t.millis < 1000
      && ms == (((DaysFromCivil(date) * 24 + t.hour) * 60 + t.minute) * 60 + t.second) * 1000 + t.millis
  {
    hide CivilFromDays, DaysFromCivil, ValidDate;
    var days := ms / 1000 / 86_400;
    CivilFollowsCalendar(days);
    RoundTrip(days);
  }

  lemma RoundTrip(days: int)
    ensures DaysFromCivil(CivilFromDays(days)) == days
  {
    hide *;
    CivilFollowsCalendar(days);
    var back := DaysFromCivil(CivilFromDays(days));
    CivilOnto(CivilFromDays(days));
    if back < days {
      CivilIncreases(back, days);
      Irreflexive(CivilFromDays(days));
    } else if days < back {
      CivilIncreases(days, back);
      Irreflexive(CivilFromDays(days));
    }
  }

  lemma Irreflexive(d: Date)
    ensures !Before(d, d)
  {
  }

  const DAYS: seq<string> := ["Thu", "Fri", "Sat", "Sun", "Mon", "Tue", "Wed"]
  const MONTHS: seq<string> := ["Jan", "Feb", "Mar", "Apr", "May", "Jun", "Jul", "Aug", "Sep", "Oct", "Nov", "Dec"]

  datatype MailDate = MailDate(weekday: string, day: int, month: string, year: int, clock: Clock)

  /** The second copy of the closed form. */
  function MailCivil(days: int): Date {
    var z := days + 719_468;
    var era := z / 146_097;
    var doe := z % 146_097;
    var yoe := (doe - doe / 1460 + doe / 36_524 - doe / 146_096) / 365;
    var doy := doe - (365 * yoe + yoe / 4 - yoe / 100);
    var mp := (5 * doy + 2) / 153;
    var d := doy - (153 * mp + 2) / 5 + 1;
    var m := mp + (if mp < 10 then 3 else -9);
    var y := yoe + era * 400 + (if m <= 2 then 1 else 0);
    Date(y, m, d)
  }

  lemma MailSameDate(days: int)
    ensures MailCivil(days) == CivilFromDays(days) && 1 <= CivilFromDays(days).month <= 12
  {
    MonthInRange(days);
  }

  lemma MonthInRange(days: int)
    ensures 1 <= CivilFromDays(days).month <= 12
  {
    CivilFollowsCalendar(days);
    hide CivilFromDays;
  }

  /** `rfc2822_date`: the date by its own formula, and table lookups. */
  function Rfc2822Date(unix: int): MailDate {
    var days := unix / 86_400;
    var rem := unix % 86_400;
    var date := MailCivil(days);
    MailSameDate(days);
    MailDate(DAYS[days % 7], date.day, MONTHS[date.month - 1], date.year,
      Clock(rem / 3600, rem % 3600 / 60, rem % 60, 0))
  }

  function NextWeekday(w: string): string {
    if w == "Mon" then "Tue" else if w == "Tue" then "Wed" else if w == "Wed" then "Thu" else if w == "Thu" then "Fri"
    else if w == "Fri" then "Sat" else if w == "Sat" then "Sun" else "Mon"
  }

  function MailFields(unix: int, date: Date): MailDate
    requires 1 <= date.month <= 12
  {
    var rem := unix % 86_400;
    MailDate(DAYS[unix / 86_400 % 7], date.day, MONTHS[date.month - 1], date.year,
      Clock(rem / 3600, rem % 3600 / 60, rem % 60, 0))
  }

  /** The second copy of the closed form computes the date of the first, and its
      month and weekday are looked up in range. */
  lemma MailDateAgrees(unix: int)
    ensures 1 <= CivilFromDays(unix / 86_400).month <= 12
    ensures Rfc2822Date(unix) == MailFields(unix, CivilFromDays(unix / 86_400))
  {
    MailSameDate(unix / 86_400);
    hide DAYS, MONTHS, MailCivil, CivilFromDays;
  }

  lemma NextDayNumber(unix: int)
    ensures (unix + 86_400) / 86_400 == unix / 86_400 + 1
    ensures var k := unix / 86_400; (k + 1) % 7 == if k % 7 == 6 then 0 else k % 7 + 1
  {
  }

  /** One day later the header names the next weekday; the epoch was a Thursday;
      the clock fields give the second count back. */
  lemma MailWeekdayAdvances(unix: int)
    ensures Rfc2822Date(unix + 86_400).weekday == NextWeekday(Rfc2822Date(unix).weekday)
    ensures Rfc2822Date(0).weekday == "Thu"
    ensures var t := Rfc2822Date(unix).clock;
      unix == ((unix / 86_400 * 24 + t.hour) * 60 + t.minute) * 60 + t.second
  {
    hide Rfc2822Date, CivilFromDays;
    MailDateAgrees(unix);
    MailDateAgrees(unix + 86_400);
    MailDateAgrees(0);
    NextDayNumber(unix);
  }
}
