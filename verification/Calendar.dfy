/** Seconds since the epoch as a civil UTC date and time (relaunch-anchor's report.rs). */
module Calendar {
  import opened Text

  datatype Date = Date(year: int, month: int, day: int)

  // ------------------------------------------------------------------- the algorithm

  function YearOfEra(doe: nat): int { (doe - doe / 1460 + doe / 36524 - doe / 146096) / 365 }

  function DayOfYear(doe: nat): int { var y := YearOfEra(doe); doe - (365 * y + y / 4 - y / 100) }

  /** Years here start in March. */
  function MarchDate(year: int, doy: int): Date {
    var mp := (5 * doy + 2) / 153;
    var day := doy - (153 * mp + 2) / 5 + 1;
    var month := if mp < 10 then mp + 3 else mp - 9;
    Date(year + if month <= 2 then 1 else 0, month, day)
  }

  /** The civil date of a day, counted from 1970-01-01. */
  function Civil(days: nat): Date {
    var z := days + 719468;
    var (era, doe) := (z / 146097, z % 146097);
    MarchDate(YearOfEra(doe) + era * 400, DayOfYear(doe))
  }

  // ---------------------------------------------------------------- the calendar

  predicate IsLeap(year: int) { year % 4 == 0 && (year % 100 != 0 || year % 400 == 0) }

  function MonthLength(year: int, month: int): int {
    if month == 2 then (if IsLeap(year) then 29 else 28)
    else if month == 4 || month == 6 || month == 9 || month == 11 then 30
    else 31
  }

  predicate Valid(d: Date) { 1 <= d.month <= 12 && 1 <= d.day <= MonthLength(d.year, d.month) }

  /** The day after, in the proleptic Gregorian calendar. */
  function NextDay(d: Date): Date {
    if d.day < MonthLength(d.year, d.month) then d.(day := d.day + 1)
    else if d.month < 12 then Date(d.year, d.month + 1, 1)
    else Date(d.year + 1, 1, 1)
  }

  // -------------------------------------------------------------------- the proof

  /** The length of the year that starts in March of `y`. */
  function MarchLength(y: int): int { if IsLeap(y + 1) then 366 else 365 }

  /** A day of an era by centuries, four-year cycles and years: what the divisions work out. */
  lemma Cycles(doe: nat) returns (c: int, q: int, s: int, y4: int)
    requires doe < 146096
    ensures 0 <= c < 4 && 0 <= q < 25 && 0 <= s <= 1460 && doe == 36524 * c + 1461 * q + s
    ensures 0 <= y4 < 4 && 365 * y4 <= s && (y4 < 3 ==> s < 365 * (y4 + 1)) && (q == 24 ==> s < 1460)
    ensures YearOfEra(doe) == 100 * c + 4 * q + y4 && DayOfYear(doe) == s - 365 * y4
  {
    c := doe / 36524;
    var r := doe % 36524;
    q := r / 1461;
    s := r % 1461;
    var e := if 24 * c + q + s >= 1460 then 1 else 0;
    assert doe / 146096 == 0;
    assert doe == 1460 * (25 * c + q) + (24 * c + q + s);
    assert doe / 1460 == 25 * c + q + e;
    var n := doe - doe / 1460 + doe / 36524 - doe / 146096;
    assert n == 365 * (100 * c + 4 * q) + (s - e);
    y4 := (s - e) / 365;
    assert n / 365 == 100 * c + 4 * q + y4;
    YearParts(c, q, y4);
  }

  lemma YearParts(c: int, q: int, y4: int)
    requires 0 <= c < 4 && 0 <= q < 25 && 0 <= y4 < 4
    ensures var y := 100 * c + 4 * q + y4; y / 4 == 25 * c + q && y / 100 == c
    ensures var y := 100 * c + 4 * q + y4; IsLeap(y + 1) <==> y4 == 3 && (q < 24 || c == 3)
  {
  }

  lemma LastDay()
    ensures YearOfEra(146096) == 399 && DayOfYear(146096) == 365 && MarchLength(399) == 366
    ensures YearOfEra(0) == 0 && DayOfYear(0) == 0
  {
  }

  /** Within an era, each day is the next of its March year, or the first of the next one. */
  lemma NextOfEra(doe: nat)
    requires doe < 146096
    ensures var (y, d) := (YearOfEra(doe), DayOfYear(doe));
            && 0 <= y < 400 && 0 <= d < MarchLength(y)
            && YearOfEra(doe + 1) == (if d + 1 < MarchLength(y) then y else y + 1)
            && DayOfYear(doe + 1) == (if d + 1 < MarchLength(y) then d + 1 else 0)
  {
    hide YearOfEra, DayOfYear, IsLeap;
    var c, q, s, y4 := Cycles(doe);
    YearParts(c, q, y4);
    if doe + 1 < 146096 {
      var c', q', s', y4' := Cycles(doe + 1);
      Carry(c, q, s, c', q', s');
    } else {
      LastDay();
    }
  }

  lemma Carry(c: int, q: int, s: int, c': int, q': int, s': int)
    requires 0 <= c < 4 && 0 <= q < 25 && 0 <= s <= 1460 && (q == 24 ==> s < 1460)
    requires 0 <= c' < 4 && 0 <= q' < 25 && 0 <= s' <= 1460 && (q' == 24 ==> s' < 1460)
    requires 36524 * c' + 1461 * q' + s' == 36524 * c + 1461 * q + s + 1
    ensures if s < 1460 && !(q == 24 && s == 1459) then (c', q', s') == (c, q, s + 1)
            else s' == 0 && (if q < 24 then c' == c && q' == q + 1 else c' == c + 1 && q' == 0)
  {
    var (r, r') := (1461 * q + s, 1461 * q' + s');
    assert 0 <= r < 36524 && 0 <= r' < 36524;
  }

  predicate MonthSpan(mp: int, first: int, len: int, doy: int) {
    (153 * mp + 2) / 5 == first && first <= doy < first + len
  }

  /** Where a day of a March year falls. */
  lemma MonthOf(doy: int)
    requires 0 <= doy < 366
    ensures var mp := (5 * doy + 2) / 153;
            || (mp == 0 && MonthSpan(0, 0, 31, doy)) || (mp == 1 && MonthSpan(1, 31, 30, doy))
            || (mp == 2 && MonthSpan(2, 61, 31, doy)) || (mp == 3 && MonthSpan(3, 92, 30, doy))
            || (mp == 4 && MonthSpan(4, 122, 31, doy)) || (mp == 5 && MonthSpan(5, 153, 31, doy))
            || (mp == 6 && MonthSpan(6, 184, 30, doy)) || (mp == 7 && MonthSpan(7, 214, 31, doy))
            || (mp == 8 && MonthSpan(8, 245, 30, doy)) || (mp == 9 && MonthSpan(9, 275, 31, doy))
            || (mp == 10 && MonthSpan(10, 306, 31, doy)) || (mp == 11 && MonthSpan(11, 337, 29, doy))
  {
  }

  lemma MarchValid(y: int, doy: int)
    requires 0 <= doy < MarchLength(y)
    ensures Valid(MarchDate(y, doy))
    ensures doy + 1 < MarchLength(y) ==> MarchDate(y, doy + 1) == NextDay(MarchDate(y, doy))
    ensures doy + 1 == MarchLength(y) ==> MarchDate(y + 1, 0) == NextDay(MarchDate(y, doy))
  {
    MonthOf(doy);
    if doy + 1 < 366 { MonthOf(doy + 1); }
    hide IsLeap;
  }

  lemma LeapPeriod(y: int, era: int)
    ensures IsLeap(y + era * 400) <==> IsLeap(y)
  {
    Fours(y, 100 * era);
    Centuries(y, 4 * era);
    Eras(y, era);
  }

  lemma Fours(y: int, k: int)
    ensures (y + 4 * k) % 4 == y % 4
  {
  }

  lemma Centuries(y: int, k: int)
    ensures (y + 100 * k) % 100 == y % 100
  {
  }

  lemma Eras(y: int, k: int)
    ensures (y + 400 * k) % 400 == y % 400
  {
  }

  lemma DayIs(days: nat)
    ensures var doe := (days + 719468) % 146097;
            0 <= YearOfEra(doe) < 400 && 0 <= DayOfYear(doe) < MarchLength(YearOfEra(doe))
  {
    hide YearOfEra, DayOfYear, IsLeap;
    var doe := (days + 719468) % 146097;
    if doe < 146096 { NextOfEra(doe); } else { LastDay(); }
  }

  lemma EpochDay()
    ensures Civil(0) == Date(1970, 1, 1)
  {
    assert 719468 / 146097 == 4 && 719468 % 146097 == 135080;
    assert YearOfEra(135080) == 369;
    assert DayOfYear(135080) == 306;
    hide YearOfEra, DayOfYear;
    assert MarchDate(1969, 306) == Date(1970, 1, 1);
  }

  /** Every day's date is valid, and consecutive days have consecutive dates, across month ends, leap days
      and eras. */
  lemma CivilNext(days: nat)
    ensures Valid(Civil(days)) && Civil(days + 1) == NextDay(Civil(days))
  {
    hide YearOfEra, DayOfYear, MarchDate, IsLeap, NextDay, MonthLength, Valid;
    var z := days + 719468;
    var (era, doe) := (z / 146097, z % 146097);
    var (y, d) := (YearOfEra(doe), DayOfYear(doe));
    DayIs(days);
    LeapPeriod(y + 1, era);
    assert MarchLength(y + era * 400) == MarchLength(y);
    MarchValid(y + era * 400, d);
    NextDivision(z, era, doe);
    if doe < 146096 {
      NextOfEra(doe);
    } else {
      LastDay();
      assert y + era * 400 + 1 == (era + 1) * 400;
    }
  }

  lemma NextDivision(z: nat, era: int, doe: int)
    requires era == z / 146097 && doe == z % 146097
    ensures if doe < 146096 then (z + 1) / 146097 == era && (z + 1) % 146097 == doe + 1
            else (z + 1) / 146097 == era + 1 && (z + 1) % 146097 == 0
  {
  }

  /** The `n`-th day after 1970-01-01, counted on the calendar. */
  function CountedDay(n: nat): Date { if n == 0 then Date(1970, 1, 1) else NextDay(CountedDay(n - 1)) }

  lemma {:induction false} CivilIsCounted(days: nat)
    ensures Civil(days) == CountedDay(days)
  {
    hide Civil, NextDay;
    if days == 0 { EpochDay(); } else { CivilIsCounted(days - 1); CivilNext(days - 1); }
  }

  // --------------------------------------------------------------- the day's number

  function YearLength(y: int): int { if IsLeap(y) then 366 else 365 }

  function DaysBeforeYear(y: int): int
    requires y >= 1970
  {
    if y == 1970 then 0 else DaysBeforeYear(y - 1) + YearLength(y - 1)
  }

  function DaysBeforeMonth(y: int, m: int): int
    requires 1 <= m <= 12
  {
    if m == 1 then 0 else DaysBeforeMonth(y, m - 1) + MonthLength(y, m - 1)
  }

  /** Days since 1970-01-01, added up year by year and month by month. */
  function DayNumber(d: Date): int
    requires Valid(d) && d.year >= 1970
  {
    DaysBeforeYear(d.year) + DaysBeforeMonth(d.year, d.month) + d.day - 1
  }

  lemma MonthsSum(y: int)
    ensures DaysBeforeMonth(y, 12) + MonthLength(y, 12) == YearLength(y)
  {
    assert DaysBeforeMonth(y, 3) == DaysBeforeMonth(y, 2) + MonthLength(y, 2) == 31 + MonthLength(y, 2);
    assert DaysBeforeMonth(y, 6) == DaysBeforeMonth(y, 5) + 31 == DaysBeforeMonth(y, 4) + 61
        == DaysBeforeMonth(y, 3) + 92;
    assert DaysBeforeMonth(y, 9) == DaysBeforeMonth(y, 8) + 31 == DaysBeforeMonth(y, 7) + 62
        == DaysBeforeMonth(y, 6) + 92;
    assert DaysBeforeMonth(y, 12) == DaysBeforeMonth(y, 11) + 30 == DaysBeforeMonth(y, 10) + 61
        == DaysBeforeMonth(y, 9) + 91;
  }

  lemma NextNumber(d: Date)
    requires Valid(d) && d.year >= 1970
    ensures Valid(NextDay(d)) && NextDay(d).year >= 1970 && DayNumber(NextDay(d)) == DayNumber(d) + 1
  {
    MonthsSum(d.year);
    hide IsLeap;
  }

  /** The date given for a day is the one with that day's number. */
  lemma {:induction false} CivilNumber(days: nat)
    ensures Valid(Civil(days)) && Civil(days).year >= 1970 && DayNumber(Civil(days)) == days
  {
    hide Civil, NextDay, DayNumber;
    if days == 0 {
      EpochDay();
      EpochNumber();
    } else {
      CivilNumber(days - 1);
      CivilNext(days - 1);
      NextNumber(Civil(days - 1));
    }
  }

  lemma EpochNumber()
    ensures Valid(Date(1970, 1, 1)) && DayNumber(Date(1970, 1, 1)) == 0
  {
  }

  // ------------------------------------------------------------------------ the text

  function Digits(n: nat, width: nat): string { Pad(Dec(n), width) }

  /** `iso_utc`. The day count of a 64-bit second count always fits the signed type it is put in. */
  function IsoUtc(secs: u64): string {
    hide Civil;
    CivilNumber(secs / 86400);
    var d := Civil(secs / 86400);
    var rem := secs % 86400;
    Digits(d.year, 4) + "-" + Digits(d.month, 2) + "-" + Digits(d.day, 2) + "T"
    + Digits(rem / 3600, 2) + ":" + Digits(rem % 3600 / 60, 2) + ":" + Digits(rem % 60, 2) + "+00:00"
  }

  lemma DigitsValue(n: nat, width: nat)
    ensures Value(Digits(n, width), 10) == Some(n) && |Digits(n, width)| >= width
  {
    NumeralValue(n, 10);
    PadValue(Dec(n), width, 10);
  }

  lemma TwoDigits(n: nat)
    requires n < 100
    ensures |Digits(n, 2)| == 2
  {
    assert |Dec(n)| <= 2 by { if n >= 10 { assert Numeral(n, 10) == Numeral(n / 10, 10) + [Digit(n % 10)]; } }
    PadExact(Dec(n), 2);
  }

  lemma {:induction false} PadExact(s: string, width: nat)
    requires |s| <= width
    ensures |Pad(s, width)| == width
    decreases width - |s|
  {
    if |s| < width { PadExact(['0'] + s, width); }
  }

  /** The text is the true date and time of day: its fields, read as numbers, are a valid date and time
      that number exactly the given second. */
  lemma IsoExact(secs: u64) returns (y: nat, m: nat, d: nat, h: nat, min: nat, s: nat)
    ensures IsoUtc(secs) == Digits(y, 4) + "-" + Digits(m, 2) + "-" + Digits(d, 2) + "T"
                            + Digits(h, 2) + ":" + Digits(min, 2) + ":" + Digits(s, 2) + "+00:00"
    ensures Value(Digits(y, 4), 10) == Some(y) && |Digits(y, 4)| >= 4
    ensures Value(Digits(m, 2), 10) == Some(m) && Value(Digits(d, 2), 10) == Some(d)
    ensures Value(Digits(h, 2), 10) == Some(h) && Value(Digits(min, 2), 10) == Some(min)
      && Value(Digits(s, 2), 10) == Some(s)
    ensures |Digits(m, 2)| == |Digits(d, 2)| == |Digits(h, 2)| == |Digits(min, 2)| == |Digits(s, 2)| == 2
    ensures h < 24 && min < 60 && s < 60 && y >= 1970 && Valid(Date(y, m, d))
    ensures DayNumber(Date(y, m, d)) * 86400 + h * 3600 + min * 60 + s == secs
  {
    hide Civil, DayNumber, Digits, Valid;
    var date := Civil(secs / 86400);
    CivilNumber(secs / 86400);
    ValidRange(date);
    y, m, d := date.year, date.month, date.day;
    h, min, s := TimeOf(secs);
    DigitsValue(y, 4);
    DigitsValue(m, 2);
    DigitsValue(d, 2);
    DigitsValue(h, 2);
    DigitsValue(min, 2);
    DigitsValue(s, 2);
    TwoDigits(m);
    TwoDigits(d);
    TwoDigits(h);
    TwoDigits(min);
    TwoDigits(s);
  }

  lemma ValidRange(d: Date)
    requires Valid(d)
    ensures 1 <= d.month <= 12 && 1 <= d.day <= 31
  {
  }

  lemma TimeOf(secs: nat) returns (h: nat, min: nat, s: nat)
    ensures h == secs % 86400 / 3600 && min == secs % 86400 % 3600 / 60 && s == secs % 86400 % 60
    ensures h < 24 && min < 60 && s < 60 && secs / 86400 * 86400 + h * 3600 + min * 60 + s == secs
  {
    var rem := secs % 86400;
    h, min, s := rem / 3600, rem % 3600 / 60, rem % 60;
    assert rem % 3600 % 60 == rem % 60;
  }
}
