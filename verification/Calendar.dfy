/** The calendar that names the daily traffic files: days since 1970-01-01 to a date. */
module Calendar {

  datatype Date = Date(year: int, month: int, day: int)

  /** Howard Hinnant's era-based conversion, with Euclidean division throughout. */
  function CivilFromDays(days: int): Date {
    var shifted := days + 719_468;
    var era := shifted / 146_097;
    var dayOfEra := shifted % 146_097;
    var yearOfEra := YearOfEra(dayOfEra);
    var year := yearOfEra + era * 400;
    var dayOfYear := dayOfEra - (365 * yearOfEra + yearOfEra / 4 - yearOfEra / 100);
    var monthShifted := (5 * dayOfYear + 2) / 153;
    var day := dayOfYear - (153 * monthShifted + 2) / 5 + 1;
    var month := if monthShifted < 10 then monthShifted + 3 else monthShifted - 9;
    Date(if month <= 2 then year + 1 else year, month, day)
  }

  function YearOfEra(dayOfEra: int): int {
    (dayOfEra - dayOfEra / 1460 + dayOfEra / 36_524 - dayOfEra / 146_096) / 365
  }

  // ---- the Gregorian calendar ----

  predicate IsLeap(year: int) {
    year % 4 == 0 && (year % 100 != 0 || year % 400 == 0)
  }

  function DaysInMonth(year: int, month: int): int {
    if month == 2 then (if IsLeap(year) then 29 else 28)
    else if month in {4, 6, 9, 11} then 30
    else 31
  }

  predicate Valid(d: Date) {
    1 <= d.month <= 12 && 1 <= d.day <= DaysInMonth(d.year, d.month)
  }

  function NextDay(d: Date): Date {
    if d.day < DaysInMonth(d.year, d.month) then d.(day := d.day + 1)
    else if d.month < 12 then Date(d.year, d.month + 1, 1)
    else Date(d.year + 1, 1, 1)
  }

  predicate Before(a: Date, b: Date) {
    a.year < b.year || (a.year == b.year && (a.month < b.month || (a.month == b.month && a.day < b.day)))
  }

  // ---- years and months counted from 1 March ----

  /** Days of an era before its year `y`. */
  function YearStart(y: int): int { 365 * y + y / 4 - y / 100 + y / 400 }

  /** A year that starts in March is long when the February at its end is. */
  function YearLength(y: int): int { if IsLeap(y + 1) then 366 else 365 }

  lemma YearStartStep(y: int)
    ensures YearStart(y + 1) == YearStart(y) + YearLength(y)
  {
    var c, q := y / 100, y / 4;
    assert (y + 1) / 4 == if (y + 1) % 4 == 0 then q + 1 else q;
    assert (y + 1) / 100 == if (y + 1) % 100 == 0 then c + 1 else c;
    assert (y + 1) / 400 == if (y + 1) % 400 == 0 then y / 400 + 1 else y / 400;
  }

  lemma {:induction false} YearStartMonotone(y: int, z: int)
    requires y <= z
    ensures YearStart(y) <= YearStart(z)
    decreases z - y
  {
    if y < z {
      YearStartStep(z - 1);
      YearStartMonotone(y, z - 1);
    }
  }

  lemma FourYearSpans(c: int, q: int, s: int)
    requires 0 <= c <= 3 && 0 <= q <= 24 && 0 <= s <= 1460
    ensures (36_524 * c + 1461 * q + s) / 1460 == 25 * c + q + if 24 * c + q + s >= 1460 then 1 else 0
  {
    assert 36_524 * c + 1461 * q + s == 1460 * (25 * c + q) + (24 * c + q + s);
  }

  lemma Centuries(c: int, r: int)
    requires 0 <= c <= 3 && 0 <= r <= 36_524 && (r == 36_524 ==> c == 3)
    ensures (36_524 * c + r) / 36_524 - (36_524 * c + r) / 146_096 == c
  {
    if r == 36_524 {
      assert 36_524 * c + r == 146_096;
    } else {
      assert (36_524 * c + r) / 36_524 == c && (36_524 * c + r) / 146_096 == 0;
    }
  }

  lemma Quotient365(y: int, rest: int)
    requires 0 <= rest < 365
    ensures (365 * y + rest) / 365 == y
  {
  }

  /** Where a day of an era falls when its centuries, four-year spans and years are peeled off. */
  lemma YearFromParts(c: int, q: int, k: int, s: int)
    requires 0 <= c <= 3 && 0 <= q <= 24 && 0 <= k <= 3 && 0 <= s <= 1460
    requires s == 1460 && q == 24 ==> c == 3
    requires 365 * k <= s && (k < 3 ==> s < 365 * (k + 1))
    ensures YearOfEra(36_524 * c + 1461 * q + s) == 100 * c + 4 * q + k
    ensures YearStart(100 * c + 4 * q + k) == 36_524 * c + 1461 * q + 365 * k
  {
    var y := 100 * c + 4 * q + k;
    assert y / 4 == 25 * c + q && y / 100 == c && y / 400 == 0;
    var extra := if 24 * c + q + s >= 1460 then 1 else 0;
    FourYearSpans(c, q, s);
    Centuries(c, 1461 * q + s);
    Quotient365(y, s - extra - 365 * k);
  }

  /** The parts of a day of an era. */
  lemma Parts(doe: int) returns (c: int, q: int, k: int, s: int)
    requires 0 <= doe < 146_097
    ensures doe == 36_524 * c + 1461 * q + s
    ensures 0 <= c <= 3 && 0 <= q <= 24 && 0 <= k <= 3 && 0 <= s <= 1460
    ensures s == 1460 && q == 24 ==> c == 3
    ensures 365 * k <= s && (k < 3 ==> s < 365 * (k + 1))
  {
    c := if doe < 36_524 then 0 else if doe < 73_048 then 1 else if doe < 109_572 then 2 else 3;
    var r := doe - 36_524 * c;
    q := r / 1461;
    s := r - 1461 * q;
    k := if s < 365 then 0 else if s < 730 then 1 else if s < 1095 then 2 else 3;
  }

  lemma YearOfEraIsRight(doe: int)
    requires 0 <= doe < 146_097
    ensures 0 <= YearOfEra(doe) < 400
    ensures YearStart(YearOfEra(doe)) <= doe < YearStart(YearOfEra(doe) + 1)
  {
    var c, q, k, s := Parts(doe);
    WithinYear(c, q, k, s);
    YearFromParts(c, q, k, s);
    YearStartStep(100 * c + 4 * q + k);
  }

  lemma WithinYear(c: int, q: int, k: int, s: int)
    requires 0 <= c <= 3 && 0 <= q <= 24 && 0 <= k <= 3 && 0 <= s <= 1460
    requires s == 1460 && q == 24 ==> c == 3
    requires 365 * k <= s && (k < 3 ==> s < 365 * (k + 1))
    ensures s - 365 * k < YearLength(100 * c + 4 * q + k)
  {
    if k == 3 && s == 1460 { LongFourthYear(c, q); }
  }

  lemma LongFourthYear(c: int, q: int)
    requires 0 <= c <= 3 && 0 <= q <= 24 && (q == 24 ==> c == 3)
    ensures IsLeap(100 * c + 4 * q + 3 + 1)
  {
    var y := 100 * c + 4 * q + 4;
    assert y == 4 * (25 * c + q + 1);
    if q < 24 { assert y == 100 * c + (4 * q + 4) && 0 < 4 * q + 4 < 100; }
  }

  lemma YearOfEraUnique(doe: int, y: int)
    requires 0 <= doe < 146_097
    requires YearStart(y) <= doe < YearStart(y + 1)
    ensures YearOfEra(doe) == y
  {
    var z := YearOfEra(doe);
    YearOfEraIsRight(doe);
    if y < z { YearStartMonotone(y + 1, z); }
    if z < y { YearStartMonotone(z + 1, y); }
  }

  /** Length of month `mp` of a March year of `len` days. */
  function ShiftedLength(mp: int, len: int): int {
    if mp in {1, 3, 6, 8} then 30 else if mp == 11 then len - 337 else 31
  }

  function MonthShifted(doy: int): int { (5 * doy + 2) / 153 }

  function DayOfMonth(doy: int): int { doy - (153 * MonthShifted(doy) + 2) / 5 + 1 }

  /** The same month, and the day it starts on, from a table. */
  function MonthOf(doy: int): int {
    if doy < 31 then 0 else if doy < 61 then 1 else if doy < 92 then 2 else if doy < 122 then 3
    else if doy < 153 then 4 else if doy < 184 then 5 else if doy < 214 then 6 else if doy < 245 then 7
    else if doy < 275 then 8 else if doy < 306 then 9 else if doy < 337 then 10 else 11
  }

  function MonthStart(mp: int): int {
    if mp == 0 then 0 else if mp == 1 then 31 else if mp == 2 then 61 else if mp == 3 then 92
    else if mp == 4 then 122 else if mp == 5 then 153 else if mp == 6 then 184 else if mp == 7 then 214
    else if mp == 8 then 245 else if mp == 9 then 275 else if mp == 10 then 306 else 337
  }

  lemma MonthTable(doy: int)
    requires 0 <= doy < 366
    ensures MonthShifted(doy) == MonthOf(doy)
  {
    var mp := MonthOf(doy);
    assert 153 * mp <= 5 * doy + 2 < 153 * (mp + 1);
  }

  lemma MonthStartTable(mp: int)
    requires 0 <= mp <= 11
    ensures (153 * mp + 2) / 5 == MonthStart(mp)
  {
  }

  lemma DayTable(doy: int)
    requires 0 <= doy < 366
    ensures MonthShifted(doy) == MonthOf(doy)
    ensures DayOfMonth(doy) == doy - MonthStart(MonthOf(doy)) + 1
  {
    MonthTable(doy);
    MonthStartTable(MonthOf(doy));
  }

  lemma MonthStep(doy: int, len: int)
    requires 365 <= len <= 366 && 0 <= doy < len
    ensures var mp, d := MonthShifted(doy), DayOfMonth(doy);
            && 0 <= mp <= 11 && 1 <= d <= ShiftedLength(mp, len)
            && (doy + 1 == len <==> mp == 11 && d == ShiftedLength(mp, len))
            && (doy + 1 < len ==>
                  (MonthShifted(doy + 1), DayOfMonth(doy + 1))
                  == if d < ShiftedLength(mp, len) then (mp, d + 1) else (mp + 1, 1))
  {
    DayTable(doy);
    if doy + 1 < len { DayTable(doy + 1); }
  }

  function Shown(year: int, mp: int, d: int): Date {
    var month := if mp < 10 then mp + 3 else mp - 9;
    Date(if month <= 2 then year + 1 else year, month, d)
  }

  lemma ShownMonth(year: int, mp: int)
    requires 0 <= mp <= 11
    ensures DaysInMonth(Shown(year, mp, 1).year, Shown(year, mp, 1).month) == ShiftedLength(mp, YearLength(year))
  {
  }

  /** Day `doy` of a March year. */
  function OnDay(year: int, doy: int): Date {
    Shown(year, MonthShifted(doy), DayOfMonth(doy))
  }

  /** The next day of a March year, in calendar terms. */
  lemma ShownStep(year: int, doy: int)
    requires 0 <= doy < YearLength(year)
    ensures Valid(OnDay(year, doy))
    ensures NextDay(OnDay(year, doy)) == if doy + 1 < YearLength(year) then OnDay(year, doy + 1) else OnDay(year + 1, 0)
  {
    MonthStep(doy, YearLength(year));
    ShownMonth(year, MonthShifted(doy));
  }

  lemma LeapEra(y: int, era: int)
    ensures IsLeap(y + era * 400) == IsLeap(y)
  {
    Mod4(y, era * 100);
    Mod100(y, era * 4);
    Mod400(y, era);
  }

  lemma Mod4(y: int, k: int)
    ensures (y + 4 * k) % 4 == y % 4
  {
    assert y + 4 * k == 4 * (y / 4 + k) + y % 4;
  }

  lemma Mod100(y: int, k: int)
    ensures (y + 100 * k) % 100 == y % 100
  {
    assert y + 100 * k == 100 * (y / 100 + k) + y % 100;
  }

  lemma Mod400(y: int, k: int)
    ensures (y + 400 * k) % 400 == y % 400
  {
    assert y + 400 * k == 400 * (y / 400 + k) + y % 400;
  }

  /** The day of an era, as shown in the calendar of era `era`. */
  function InEra(era: int, doe: int): Date {
    OnDay(YearOfEra(doe) + era * 400, doe - YearStart(YearOfEra(doe)))
  }

  lemma CivilIsInEra(days: int)
    ensures CivilFromDays(days) == InEra((days + 719_468) / 146_097, (days + 719_468) % 146_097)
  {
    var doe := (days + 719_468) % 146_097;
    var y := YearOfEra(doe);
    YearOfEraIsRight(doe);
    assert y / 400 == 0;
    assert YearStart(y) == 365 * y + y / 4 - y / 100;
  }

  lemma InYear(era: int, doe: int, y: int)
    requires 0 <= doe < 146_097 && YearStart(y) <= doe < YearStart(y + 1)
    ensures InEra(era, doe) == OnDay(y + era * 400, doe - YearStart(y))
  {
    YearOfEraUnique(doe, y);
  }

  lemma StepInYear(era: int, y: int, doy: int)
    requires 0 <= doy < YearLength(y)
    ensures Valid(OnDay(y + era * 400, doy))
    ensures NextDay(OnDay(y + era * 400, doy))
         == if doy + 1 < YearLength(y) then OnDay(y + era * 400, doy + 1) else OnDay(y + 1 + era * 400, 0)
  {
    LeapEra(y + 1, era);
    var year := y + era * 400;
    assert YearLength(year) == YearLength(y) && y + 1 + era * 400 == year + 1;
    ShownStep(year, doy);
  }

  lemma SameEraStep(era: int, doe: int)
    requires 0 <= doe < 146_096
    ensures Valid(InEra(era, doe)) && InEra(era, doe + 1) == NextDay(InEra(era, doe))
  {
    YearOfEraIsRight(doe);
    var y := YearOfEra(doe);
    var doy := doe - YearStart(y);
    YearStartStep(y);
    InYear(era, doe, y);
    StepInYear(era, y, doy);
    if doy + 1 < YearLength(y) {
      InYear(era, doe + 1, y);
    } else {
      YearStartStep(y + 1);
      InYear(era, doe + 1, y + 1);
    }
  }

  lemma LastOfEra(era: int, doe: int)
    requires doe == 146_096
    ensures InEra(era, doe) == OnDay(399 + era * 400, 365)
  {
    assert YearStart(399) == 145_731 && YearStart(400) == 146_097;
    InYear(era, doe, 399);
  }

  lemma FirstOfEra(era: int, doe: int)
    requires doe == 0
    ensures InEra(era, doe) == OnDay(era * 400, 0)
  {
    var y := doe;
    YearStartStep(y);
    assert YearStart(y) == 0;
    InYear(era, doe, y);
  }

  lemma NewYear(era: int)
    ensures Valid(OnDay(399 + era * 400, 365))
    ensures NextDay(OnDay(399 + era * 400, 365)) == OnDay((era + 1) * 400, 0)
  {
    assert YearLength(399) == 366;
    StepInYear(era, 399, 365);
    assert 399 + 1 + era * 400 == (era + 1) * 400;
  }

  lemma NextEraStep(era: int, last: int, first: int)
    requires last == 146_096 && first == 0
    ensures Valid(InEra(era, last)) && InEra(era + 1, first) == NextDay(InEra(era, last))
  {
    LastOfEra(era, last);
    FirstOfEra(era + 1, first);
    NewYear(era);
  }

  lemma Epoch()
    ensures CivilFromDays(0) == Date(1970, 1, 1)
  {
    DaySince(0, 4, 135_080);
    assert OnDay(1969, 306) == Date(1970, 1, 1);
  }

  lemma DaySince(day: int, era: int, doe: int)
    requires day + 719_468 == 146_097 * era + doe && doe == 135_080
    ensures CivilFromDays(day) == OnDay(369 + era * 400, 306)
  {
    CivilIsInEra(day);
    assert (day + 719_468) / 146_097 == era && (day + 719_468) % 146_097 == doe;
    assert YearStart(369) == 134_774 && YearStart(370) == 135_139;
    InYear(era, doe, 369);
  }

  lemma EraStep(n: int)
    ensures (n + 1) / 146_097 == if n % 146_097 == 146_096 then n / 146_097 + 1 else n / 146_097
    ensures (n + 1) % 146_097 == if n % 146_097 == 146_096 then 0 else n % 146_097 + 1
  {
    var q, r := n / 146_097, n % 146_097;
    assert n + 1 == 146_097 * q + (r + 1) == 146_097 * (q + 1) + (r - 146_096);
  }

  /** Every day's successor is the next day of the Gregorian calendar, before the epoch too. */
  lemma CivilSuccessor(days: int)
    ensures Valid(CivilFromDays(days))
    ensures CivilFromDays(days + 1) == NextDay(CivilFromDays(days))
  {
    var n := days + 719_468;
    CivilIsInEra(days);
    CivilIsInEra(days + 1);
    EraStep(n);
    if n % 146_097 == 146_096 {
      NextEraStep(n / 146_097, n % 146_097, 0);
    } else {
      SameEraStep(n / 146_097, n % 146_097);
    }
  }

  lemma NextDayIsLater(d: Date)
    ensures Before(d, NextDay(d))
  {
  }

  lemma {:induction false} SuccessorsAreLater(date: int -> Date, i: int, j: int)
    requires i < j && forall k :: i <= k < j ==> date(k + 1) == NextDay(date(k))
    ensures Before(date(i), date(j))
    decreases j - i
  {
    var last := date(j - 1);
    assert date(j - 1 + 1) == NextDay(last);
    NextDayIsLater(last);
    if i < j - 1 { SuccessorsAreLater(date, i, j - 1); }
  }

  /** Dates come in day order, so no two days share one. */
  lemma CivilMonotone(i: int, j: int)
    requires i < j
    ensures Before(CivilFromDays(i), CivilFromDays(j))
  {
    forall k ensures CivilFromDays(k + 1) == NextDay(CivilFromDays(k)) { CivilSuccessor(k); }
    SuccessorsAreLater(CivilFromDays, i, j);
  }
}
