/** Instants as nanoseconds since 1970-01-01T00:00:00Z, and the whole-second text form of
    RFC 3339 section 5.6 in which account deadlines are stored. */
module Timestamps {
  import opened Wrappers
  import opened Text

  type Time = int

  const SECOND := 1_000_000_000
  const DAY := 86_400

  /** The largest whole second at or before `t`. */
  function Truncated(t: Time): Time {
    t / SECOND * SECOND
  }

  datatype Civil = Civil(year: int, month: int, day: int)

  lemma YearOfEra(century: nat, quad: nat, year: nat)
    requires century <= 3 && quad <= 24 && year <= 3
    ensures (100 * century + 4 * quad + year) / 4 == 25 * century + quad
    ensures (100 * century + 4 * quad + year) / 100 == century
  {
    DivModUnique(100 * century + 4 * quad + year, 4, 25 * century + quad, year);
    DivModUnique(100 * century + 4 * quad + year, 100, century, 4 * quad + year);
  }

  /** Year and day of the year within a 400-year era, years starting on 1 March. */
  function YearAndDay(doe: nat): (r: (nat, nat))
    requires doe < 146_097
    ensures r.0 < 400 && r.1 <= 365
    ensures doe == 365 * r.0 + r.0 / 4 - r.0 / 100 + r.1
  {
    var century := if doe / 36_524 < 3 then doe / 36_524 else 3;
    var d1 := doe - century * 36_524;
    var d2 := d1 % 1461;
    var year := if d2 / 365 < 3 then d2 / 365 else 3;
    YearOfEra(century, d1 / 1461, year);
    (100 * century + 4 * (d1 / 1461) + year, d2 - 365 * year)
  }

  /** The proleptic Gregorian date `days` after 1970-01-01. */
  function CivilFromDays(days: int): (c: Civil)
    ensures 1 <= c.month <= 12 && 1 <= c.day <= 31
  {
    var z := days + 719_468;
    var (yoe, doy) := YearAndDay(z % 146_097);
    var mp := (5 * doy + 2) / 153;
    var month := if mp < 10 then mp + 3 else mp - 9;
    Civil(yoe + z / 146_097 * 400 + (if month <= 2 then 1 else 0), month, doy - (153 * mp + 2) / 5 + 1)
  }

  function DaysFromCivil(c: Civil): int {
    var y := if c.month <= 2 then c.year - 1 else c.year;
    var era := y / 400;
    var yoe := y % 400;
    var mp := if c.month > 2 then c.month - 3 else c.month + 9;
    var doy := (153 * mp + 2) / 5 + c.day - 1;
    era * 146_097 + 365 * yoe + yoe / 4 - yoe / 100 + doy - 719_468
  }

  lemma CivilRoundTrip(days: int)
    ensures DaysFromCivil(CivilFromDays(days)) == days
  {
    hide YearAndDay;
    var era, doe := (days + 719_468) / 146_097, (days + 719_468) % 146_097;
    var (yoe, doy) := YearAndDay(doe);
    assert days + 719_468 == era * 146_097 + doe;
    DivModUnique(yoe + era * 400, 400, era, yoe);
  }

  // ---- the calendar ----

  predicate LeapYear(year: int) {
    year % 4 == 0 && (year % 100 != 0 || year % 400 == 0)
  }

  function MonthLength(year: int, month: int): int {
    if month == 2 then (if LeapYear(year) then 29 else 28)
    else if month == 4 || month == 6 || month == 9 || month == 11 then 30
    else 31
  }

  /** The date of the next day. */
  function NextDate(c: Civil): Civil {
    if c.day < MonthLength(c.year, c.month) then Civil(c.year, c.month, c.day + 1)
    else if c.month < 12 then Civil(c.year, c.month + 1, 1)
    else Civil(c.year + 1, 1, 1)
  }

  /** The length of the year that begins on 1 March of year `yoe` of an era. */
  function MarchYear(yoe: nat): nat {
    if LeapYear(yoe + 1) then 366 else 365
  }

  lemma YearAndDayBound(doe: nat)
    requires doe < 146_097
    ensures YearAndDay(doe).1 < MarchYear(YearAndDay(doe).0)
  {}

  /** The days of an era before its year `yoe`. */
  function DaysBefore(yoe: nat): int {
    365 * yoe + yoe / 4 - yoe / 100
  }

  lemma DaysBeforeNext(yoe: nat)
    requires yoe < 399
    ensures DaysBefore(yoe + 1) == DaysBefore(yoe) + MarchYear(yoe)
  {
    var next := yoe + 1;
    assert next / 4 - yoe / 4 == if next % 4 == 0 then 1 else 0;
    assert next / 100 - yoe / 100 == if next % 100 == 0 then 1 else 0;
    assert next % 100 == 0 ==> next % 4 == 0;
  }

  lemma {:induction false} DaysBeforeLater(a: nat, b: nat)
    requires a < b < 400
    ensures DaysBefore(a) + MarchYear(a) <= DaysBefore(b)
    decreases b
  {
    hide DaysBefore, MarchYear;
    DaysBeforeNext(b - 1);
    if a < b - 1 {
      DaysBeforeLater(a, b - 1);
      assert MarchYear(b - 1) >= 0;
    }
  }

  lemma StepApart(a: nat, b: nat)
    requires a < b < 400
    ensures a + 1 == b || DaysBefore(a) + MarchYear(a) < DaysBefore(b)
  {
    DaysBeforeNext(a);
    if a + 1 < b {
      DaysBeforeLater(a + 1, b);
    }
  }

  /** The day after within an era: the next of the year, or the first of the next year. */
  lemma NextYearAndDay(doe: nat)
    requires doe + 1 < 146_097
    ensures var (y, d) := YearAndDay(doe);
            YearAndDay(doe + 1) == if d + 1 < MarchYear(y) then (y, d + 1) else (y + 1, 0)
  {
    var (y, d) := YearAndDay(doe);
    var (y', d') := YearAndDay(doe + 1);
    YearAndDayBound(doe);
    YearAndDayBound(doe + 1);
    assert DaysBefore(y) + d + 1 == DaysBefore(y') + d';
    hide YearAndDay, DaysBefore, MarchYear;
    if y < y' {
      StepApart(y, y');
      DaysBeforeLater(y, y');
    } else if y' < y {
      DaysBeforeLater(y', y);
    }
  }


  /** Month and day from the day of a year that begins on 1 March. */
  function MonthAndDay(doy: nat): (int, int) {
    var mp := (5 * doy + 2) / 153;
    (if mp < 10 then mp + 3 else mp - 9, doy - (153 * mp + 2) / 5 + 1)
  }

  /** The days of such a year before its month `mp`. */
  function MonthStart(mp: nat): nat {
    (153 * mp + 2) / 5
  }

  lemma MonthOf(doy: nat, mp: nat)
    ensures (5 * doy + 2) / 153 == mp <==> MonthStart(mp) <= doy < MonthStart(mp + 1)
  {}

  lemma MonthStarts(mp: nat)
    requires mp < 12
    ensures MonthStart(mp + 1) - MonthStart(mp) ==
            if mp == 11 then 30 else if mp in {1, 3, 6, 8} then 30 else 31
    ensures MonthStart(0) == 0 && MonthStart(11) == 337
  {}

  lemma NextMonthAndDay(doy: nat, year: int)
    requires doy < (if LeapYear(year) then 366 else 365)
    ensures var (m, d) := MonthAndDay(doy);
            && 1 <= m <= 12 && 1 <= d
            && (doy + 1 < (if LeapYear(year) then 366 else 365) ==>
                 MonthAndDay(doy + 1) ==
                 if d < MonthLength(year, m) then (m, d + 1) else (if m < 12 then m + 1 else 1, 1))
            && (doy + 1 == (if LeapYear(year) then 366 else 365) ==> m == 2 && d == MonthLength(year, 2))
  {
    hide MonthStart, LeapYear, MonthAndDay;
    var mp := (5 * doy + 2) / 153;
    MonthOf(doy, mp);
    MonthStarts(mp);
    DayIn(doy, mp);
    if doy + 1 < MonthStart(mp + 1) {
      DayIn(doy + 1, mp);
    } else if mp < 11 {
      MonthStarts(mp + 1);
      DayIn(doy + 1, mp + 1);
    }
  }

  lemma DayIn(doy: nat, mp: nat)
    requires MonthStart(mp) <= doy < MonthStart(mp + 1)
    ensures MonthAndDay(doy) == (if mp < 10 then mp + 3 else mp - 9, doy - MonthStart(mp) + 1)
  {
    MonthOf(doy, mp);
  }

  /** The date of a day of a year of an era. */
  function DateOf(era: int, yoe: nat, doy: nat): Civil {
    var (m, d) := MonthAndDay(doy);
    Civil(yoe + era * 400 + (if m <= 2 then 1 else 0), m, d)
  }

  lemma CivilIs(days: int, era: int, yoe: nat, doy: nat)
    requires era == (days + 719_468) / 146_097 && YearAndDay((days + 719_468) % 146_097) == (yoe, doy)
    ensures CivilFromDays(days) == DateOf(era, yoe, doy)
  {
    hide YearAndDay;
  }

  /** Leap years repeat with the era. */
  lemma EraLeap(yoe: nat, era: int)
    requires yoe <= 400
    ensures LeapYear(yoe + era * 400) <==> LeapYear(yoe)
  {
    var year := yoe + era * 400;
    DivModUnique(year, 4, yoe / 4 + era * 100, yoe % 4);
    DivModUnique(year, 100, yoe / 100 + era * 4, yoe % 100);
    DivModUnique(year, 400, yoe / 400 + era, yoe % 400);
  }

  lemma NextDateOf(era: int, yoe: nat, doy: nat)
    requires yoe < 400 && doy < MarchYear(yoe)
    ensures NextDate(DateOf(era, yoe, doy)) ==
            if doy + 1 < MarchYear(yoe) then DateOf(era, yoe, doy + 1) else Civil(yoe + era * 400 + 1, 3, 1)
  {
    EraLeap(yoe + 1, era);
    NextMonthAndDay(doy, yoe + 1 + era * 400);
    hide MonthAndDay, LeapYear;
  }

  lemma FirstOfMarch(era: int, yoe: nat)
    ensures DateOf(era, yoe, 0) == Civil(yoe + era * 400, 3, 1)
  {}

  /** The days are counted along the Gregorian calendar: the next day has the next date. */
  lemma NextDay(days: int)
    ensures CivilFromDays(days + 1) == NextDate(CivilFromDays(days))
  {
    hide YearAndDay, CivilFromDays, NextDate, DateOf, MarchYear;
    var z := days + 719_468;
    var era, doe := z / 146_097, z % 146_097;
    var (yoe, doy) := YearAndDay(doe);
    YearAndDayBound(doe);
    CivilIs(days, era, yoe, doy);
    NextDateOf(era, yoe, doy);
    if doe + 1 < 146_097 {
      NextYearAndDay(doe);
      DivModUnique(z + 1, 146_097, era, doe + 1);
      var (y', d') := YearAndDay(doe + 1);
      CivilIs(days + 1, era, y', d');
      FirstOfMarch(era, yoe + 1);
    } else {
      LastOfEra();
      DivModUnique(z + 1, 146_097, era + 1, 0);
      CivilIs(days + 1, era + 1, 0, 0);
      FirstOfMarch(era + 1, 0);
    }
  }

  lemma LastOfEra()
    ensures YearAndDay(146_096) == (399, 365) && MarchYear(399) == 366 && YearAndDay(0) == (0, 0)
  {}

  /** And the first of them is 1 January 1970. */
  lemma DayZero()
    ensures CivilFromDays(0) == Civil(1970, 1, 1)
  {
    assert YearAndDay(135_080) == (369, 306);
    hide YearAndDay, CivilFromDays;
    DivModUnique(719_468, 146_097, 4, 135_080);
    CivilIs(0, 4, 369, 306);
  }

  /** A date that exists: it is the date of some day. */
  predicate ValidDate(c: Civil) {
    CivilFromDays(DaysFromCivil(c)) == c
  }

  /** Four digits where four suffice; otherwise the year as an integer, which no reader accepts. */
  function YearText(year: int): string {
    if 0 <= year <= 9999 then Padded(year, 4) else Itoa(year)
  }

  function DateText(c: Civil): (s: string)
    requires 0 <= c.month && 0 <= c.day
    ensures 0 <= c.year <= 9999 ==> |s| == 10
  {
    YearText(c.year) + "-" + Padded(c.month, 2) + "-" + Padded(c.day, 2)
  }

  function ClockText(second: nat): (s: string)
    ensures |s| == 8
  {
    Padded(second / 3600, 2) + ":" + Padded(second / 60 % 60, 2) + ":" + Padded(second % 60, 2)
  }

  /** The instants whose year has the four digits the format requires. */
  predicate Representable(t: Time) {
    0 <= CivilFromDays(t / SECOND / DAY).year <= 9999
  }

  /** t.UTC().Format(time.RFC3339): the fraction of a second is dropped. */
  function FormatRFC3339(t: Time): string {
    var sec := t / SECOND;
    DateText(CivilFromDays(sec / DAY)) + "T" + ClockText(sec % DAY) + "Z"
  }

  function Field(s: string, from: nat, to: nat): Option<nat>
    requires from < to <= |s|
  {
    if AllDigits(s[from..to]) then Some(NumeralValue(s[from..to])) else None
  }

  /** time.Parse(time.RFC3339, s) for the zone designator Z and no fraction. */
  function ParseRFC3339(s: string): Option<Time> {
    if |s| != 20 || s[4] != '-' || s[7] != '-' || s[10] != 'T' || s[13] != ':' || s[16] != ':' || s[19] != 'Z' then None
    else
      match (Field(s, 0, 4), Field(s, 5, 7), Field(s, 8, 10), Field(s, 11, 13), Field(s, 14, 16), Field(s, 17, 19))
      case (Some(y), Some(mo), Some(d), Some(h), Some(mi), Some(sec)) =>
        if ValidDate(Civil(y, mo, d)) && h < 24 && mi < 60 && sec < 60
        then Some((DaysFromCivil(Civil(y, mo, d)) * DAY + h * 3600 + mi * 60 + sec) * SECOND)
        else None
      case _ => None
  }

  lemma FieldPadded(s: string, from: nat, n: nat, width: nat)
    requires 0 < width && from + width <= |s| && s[from..from + width] == Padded(n, width)
    requires n < Power10(width)
    ensures Field(s, from, from + width) == Some(n)
  {
    DivModUnique(n, Power10(width), 0, n);
  }

  lemma FieldsOfDate(s: string, c: Civil, rest: string)
    requires 0 <= c.year <= 9999 && 0 <= c.month <= 99 && 0 <= c.day <= 99
    requires s == DateText(c) + rest
    ensures |s| >= 10 && s[4] == '-' && s[7] == '-'
    ensures Field(s, 0, 4) == Some(c.year) && Field(s, 5, 7) == Some(c.month) && Field(s, 8, 10) == Some(c.day)
  {
    assert Power10(2) == 100 && Power10(4) == 10 * Power10(3) && Power10(3) == 1000;
    assert s[0..4] == Padded(c.year, 4) && s[5..7] == Padded(c.month, 2) && s[8..10] == Padded(c.day, 2);
    FieldPadded(s, 0, c.year, 4);
    FieldPadded(s, 5, c.month, 2);
    FieldPadded(s, 8, c.day, 2);
  }

  lemma FieldsOfClock(s: string, date: string, second: nat)
    requires |date| == 10 && second < DAY
    requires s == date + "T" + ClockText(second) + "Z"
    ensures |s| == 20 && s[10] == 'T' && s[13] == ':' && s[16] == ':' && s[19] == 'Z'
    ensures Field(s, 11, 13) == Some(second / 3600)
    ensures Field(s, 14, 16) == Some(second / 60 % 60)
    ensures Field(s, 17, 19) == Some(second % 60)
  {
    assert Power10(2) == 100;
    assert s[11..13] == Padded(second / 3600, 2);
    assert s[14..16] == Padded(second / 60 % 60, 2);
    assert s[17..19] == Padded(second % 60, 2);
    FieldPadded(s, 11, second / 3600, 2);
    FieldPadded(s, 14, second / 60 % 60, 2);
    FieldPadded(s, 17, second % 60, 2);
  }

  lemma ParseFields(s: string, y: nat, mo: nat, d: nat, second: nat)
    requires |s| == 20 && s[4] == '-' && s[7] == '-' && s[10] == 'T' && s[13] == ':' && s[16] == ':' && s[19] == 'Z'
    requires Field(s, 0, 4) == Some(y) && Field(s, 5, 7) == Some(mo) && Field(s, 8, 10) == Some(d)
    requires Field(s, 11, 13) == Some(second / 3600)
    requires Field(s, 14, 16) == Some(second / 60 % 60)
    requires Field(s, 17, 19) == Some(second % 60)
    requires second < DAY && ValidDate(Civil(y, mo, d))
    ensures ParseRFC3339(s) == Some((DaysFromCivil(Civil(y, mo, d)) * DAY + second) * SECOND)
  {
    SecondsOfDay(second);
  }

  lemma {:induction false} NumeralLength(n: nat, k: nat)
    requires Power10(k) <= n
    ensures |Numeral(n)| > k
  {
    if k > 0 {
      NumeralLength(n / 10, k - 1);
    }
  }

  lemma OddYear(s: string, c: Civil, rest: string)
    requires !(0 <= c.year <= 9999) && 0 <= c.month && 0 <= c.day
    requires s == DateText(c) + rest && |rest| == 10
    ensures |s| == 20 ==> Field(s, 0, 4) == None
  {
    assert |s| == |YearText(c.year)| + 16;
    if c.year < 0 {
      assert s[0] == '-';
      assert s[0..4][0] == s[0] && '-' in s[0..4];
    } else {
      assert Power10(4) == 10 * Power10(3) && Power10(3) == 1000;
      NumeralLength(c.year, 4);
    }
  }

  lemma UnreadableYear(s: string)
    requires |s| == 20 ==> Field(s, 0, 4) == None
    ensures ParseRFC3339(s) == None
  {}

  /** Writing a time and reading it back loses exactly the fraction of a second, and
      fails exactly when the year does not have four digits. */
  lemma ParseFormat(t: Time)
    ensures ParseRFC3339(FormatRFC3339(t)) == if Representable(t) then Some(Truncated(t)) else None
  {
    hide ParseRFC3339, CivilFromDays, DaysFromCivil, DateText, ClockText, Field;
    var sec := t / SECOND;
    var c := CivilFromDays(sec / DAY);
    var s := FormatRFC3339(t);
    var clock := "T" + ClockText(sec % DAY) + "Z";
    assert s == DateText(c) + clock;
    if Representable(t) {
      FieldsOfDate(s, c, clock);
      FieldsOfClock(s, DateText(c), sec % DAY);
      CivilRoundTrip(sec / DAY);
      ParseFields(s, c.year, c.month, c.day, sec % DAY);
      WholeSeconds(sec);
    } else {
      OddYear(s, c, clock);
      UnreadableYear(s);
    }
  }

  /** A written time, field by field: the date, and hour, minute and second of the day. */
  lemma FormatShows(t: Time)
    requires Representable(t)
    ensures var s, sec := FormatRFC3339(t), t / SECOND;
            var c := CivilFromDays(sec / 86_400);
            && |s| == 20 && s[4] == s[7] == '-' && s[10] == 'T' && s[13] == s[16] == ':' && s[19] == 'Z'
            && Field(s, 0, 4) == Some(c.year) && Field(s, 5, 7) == Some(c.month) && Field(s, 8, 10) == Some(c.day)
            && Field(s, 11, 13) == Some(sec % 86_400 / 3600)
            && Field(s, 14, 16) == Some(sec % 86_400 / 60 % 60)
            && Field(s, 17, 19) == Some(sec % 86_400 % 60)
  {
    hide CivilFromDays, DateText, ClockText, Field;
    var sec := t / SECOND;
    var c := CivilFromDays(sec / DAY);
    var clock := "T" + ClockText(sec % DAY) + "Z";
    assert FormatRFC3339(t) == DateText(c) + clock;
    FieldsOfDate(FormatRFC3339(t), c, clock);
    FieldsOfClock(FormatRFC3339(t), DateText(c), sec % DAY);
  }

  lemma WholeSeconds(sec: int)
    ensures sec / DAY * DAY + sec % DAY == sec
  {}

  /** The text has no surrounding white space, so trimming before parsing is harmless. */
  lemma FormatTrimmed(t: Time)
    ensures TrimSpace(FormatRFC3339(t)) == FormatRFC3339(t)
    ensures FormatRFC3339(t) != ""
  {
    var s := FormatRFC3339(t);
    var year := CivilFromDays(t / SECOND / DAY).year;
    assert s[0] == YearText(year)[0] && |s| >= 16;
    assert s[0] == '-' || IsDigit(YearText(year)[0]);
    TrimSpaceFixed(s);
  }

  lemma SecondsOfDay(second: nat)
    requires second < DAY
    ensures second / 3600 < 24
    ensures second / 3600 * 3600 + second / 60 % 60 * 60 + second % 60 == second
  {}

  lemma TruncatedBounds(t: Time)
    ensures Truncated(t) <= t < Truncated(t) + SECOND
  {}

  lemma TruncatedMonotone(t: Time, u: Time)
    requires t <= u
    ensures Truncated(t) <= Truncated(u)
  {}
}
