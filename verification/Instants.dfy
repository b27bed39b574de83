/** Timestamps written out and read back in the one ISO 8601 form the service itself produces. */
module Instants {
  import opened Results
  import opened Texts

  /** A calendar date and time with its offset from UTC in microseconds. */
  datatype Moment = Moment(
    year: nat, month: nat, day: nat, hour: nat, minute: nat, second: nat, micros: nat, offset: int)
  {
    predicate Valid() {
      && 1 <= year <= 9999 && 1 <= month <= 12 && 1 <= day <= DaysIn(year, month)
      && hour < 24 && minute < 60 && second < 60 && micros < 1000000
      && -DAY < offset < DAY
    }
  }

  /** Microseconds. */
  const DAY := 86400000000

  predicate IsLeap(year: nat) { year % 4 == 0 && (year % 100 != 0 || year % 400 == 0) }

  function DaysIn(year: nat, month: nat): nat {
    if month == 2 then (if IsLeap(year) then 29 else 28)
    else if month in {4, 6, 9, 11} then 30
    else 31
  }

  const MONTH_LENGTHS: seq<nat> := [31, 28, 31, 30, 31, 30, 31, 31, 30, 31, 30, 31]

  lemma DaysInMonths(year: nat, month: nat)
    requires 1 <= month <= 12
    ensures DaysIn(year, month) == MONTH_LENGTHS[month - 1] + if month == 2 && IsLeap(year) then 1 else 0
  {
  }

  /** Exactly `width` decimal digits. */
  function Fixed(n: nat, width: nat): string {
    if width == 0 then "" else Fixed(n / 10, width - 1) + [DigitChar(n % 10)]
  }

  function Pow10(width: nat): nat {
    if width == 0 then 1 else 10 * Pow10(width - 1)
  }

  /** No fraction is printed when the microseconds are zero. */
  function FractionText(micros: nat): string {
    if micros == 0 then "" else ['.'] + Fixed(micros, 6)
  }

  /** Seconds are printed only when there are any, or a fraction of one. */
  function SecondsText(micros: nat): string {
    if micros == 0 then "" else [':'] + (Fixed(micros / 1000000, 2) + FractionText(micros % 1000000))
  }

  function OffsetText(offset: int): string {
    var size := if offset < 0 then -offset else offset;
    [if offset < 0 then '-' else '+']
    + (Fixed(size / 3600000000, 2) + ([':'] + (Fixed(size / 60000000 % 60, 2) + SecondsText(size % 60000000))))
  }

  function IsoText(t: Moment): string {
    Fixed(t.year, 4) + (['-'] + (Fixed(t.month, 2) + (['-'] + (Fixed(t.day, 2) + (['T'] + (Fixed(t.hour, 2)
    + ([':'] + (Fixed(t.minute, 2) + ([':'] + (Fixed(t.second, 2) + (FractionText(t.micros)
    + OffsetText(t.offset))))))))))))
  }

  // ---- reading

  function TakeNumber(s: string, width: nat): Option<(nat, string)> {
    if |s| >= width && Digits(s[..width]) then Some((ValueOf(s[..width]), s[width..])) else None
  }

  function TakeChar(s: string, c: char): Option<string> {
    if s != "" && s[0] == c then Some(s[1..]) else None
  }

  function TakeFraction(s: string): Option<(nat, string)> {
    if s != "" && s[0] == '.' then TakeNumber(s[1..], 6) else Some((0, s))
  }

  function TakeSeconds(s: string): Option<nat> {
    if s == "" then Some(0)
    else
      var s1 :- TakeChar(s, ':');
      var (seconds, s2) :- TakeNumber(s1, 2);
      var (micros, s3) :- TakeFraction(s2);
      if s3 != "" || seconds >= 60 then None else Some(1000000 * seconds + micros)
  }

  function TakeOffset(s: string): Option<int> {
    if s == "" || (s[0] != '+' && s[0] != '-') then None
    else
      var (hours, s1) :- TakeNumber(s[1..], 2);
      var s2 :- TakeChar(s1, ':');
      var (minutes, s3) :- TakeNumber(s2, 2);
      var micros :- TakeSeconds(s3);
      if minutes >= 60 then None
      else
        var size: int := 3600000000 * hours + 60000000 * minutes + micros;
        Some(if s[0] == '-' then -size else size)
  }

  function TakeDate(s: string): Option<((nat, nat, nat), string)> {
    var (year, s1) :- TakeNumber(s, 4);
    var s2 :- TakeChar(s1, '-');
    var (month, s3) :- TakeNumber(s2, 2);
    var s4 :- TakeChar(s3, '-');
    var (day, s5) :- TakeNumber(s4, 2);
    Some(((year, month, day), s5))
  }

  function TakeTime(s: string): Option<((nat, nat, nat), string)> {
    var (hour, s1) :- TakeNumber(s, 2);
    var s2 :- TakeChar(s1, ':');
    var (minute, s3) :- TakeNumber(s2, 2);
    var s4 :- TakeChar(s3, ':');
    var (second, s5) :- TakeNumber(s4, 2);
    Some(((hour, minute, second), s5))
  }

  function ParseIso(s: string): Option<Moment> {
    var (date, s1) :- TakeDate(s);
    var s2 :- TakeChar(s1, 'T');
    var (time, s3) :- TakeTime(s2);
    var (micros, s4) :- TakeFraction(s3);
    var offset :- TakeOffset(s4);
    var t := Moment(date.0, date.1, date.2, time.0, time.1, time.2, micros, offset);
    if t.Valid() then Some(t) else None
  }

  // ---- the round trip

  lemma {:induction false} FixedReads(n: nat, width: nat)
    requires n < Pow10(width)
    ensures |Fixed(n, width)| == width && Digits(Fixed(n, width)) && ValueOf(Fixed(n, width)) == n
  {
    if width > 0 {
      FixedReads(n / 10, width - 1);
      assert Fixed(n, width)[..width - 1] == Fixed(n / 10, width - 1);
    }
  }

  lemma NumberTaken(n: nat, width: nat, rest: string)
    requires n < Pow10(width)
    ensures TakeNumber(Fixed(n, width) + rest, width) == Some((n, rest))
  {
    FixedReads(n, width);
    assert (Fixed(n, width) + rest)[..width] == Fixed(n, width);
  }

  lemma CharTaken(c: char, rest: string)
    ensures TakeChar([c] + rest, c) == Some(rest)
  {
  }

  lemma PowersOfTen()
    ensures Pow10(2) == 100 && Pow10(4) == 10000 && Pow10(6) == 1000000
  {
    assert Pow10(3) == 1000 && Pow10(5) == 100000;
  }

  lemma FractionTaken(micros: nat, rest: string)
    requires micros < 1000000 && (rest != "" ==> rest[0] != '.')
    ensures TakeFraction(FractionText(micros) + rest) == Some((micros, rest))
  {
    hide TakeNumber, Fixed, Pow10;
    PowersOfTen();
    if micros == 0 {
      assert "" + rest == rest;
    } else {
      NumberTaken(micros, 6, rest);
      assert (FractionText(micros) + rest)[1..] == Fixed(micros, 6) + rest;
    }
  }

  lemma SecondsTaken(micros: nat)
    requires micros < 60000000
    ensures TakeSeconds(SecondsText(micros)) == Some(micros)
  {
    hide TakeNumber, TakeChar, TakeFraction, FractionText, Fixed, Pow10;
    PowersOfTen();
    if micros > 0 {
      var seconds, part := micros / 1000000, micros % 1000000;
      var tail := FractionText(part);
      CharTaken(':', Fixed(seconds, 2) + tail);
      NumberTaken(seconds, 2, tail);
      FractionTaken(part, "");
      assert tail + "" == tail;
    }
  }

  lemma OffsetParts(size: nat)
    requires size < DAY
    ensures size / 3600000000 < 24
    ensures size == 3600000000 * (size / 3600000000) + 60000000 * (size / 60000000 % 60) + size % 60000000
  {
    assert size / 60000000 / 60 == size / 3600000000;
  }

  lemma OffsetTaken(offset: int)
    requires -DAY < offset < DAY
    ensures TakeOffset(OffsetText(offset)) == Some(offset)
  {
    hide TakeNumber, TakeChar, TakeSeconds, SecondsText, Fixed, Pow10;
    PowersOfTen();
    var size := if offset < 0 then -offset else offset;
    OffsetParts(size);
    var tail := SecondsText(size % 60000000);
    var minutes := Fixed(size / 60000000 % 60, 2) + tail;
    assert OffsetText(offset)[1..] == Fixed(size / 3600000000, 2) + ([':'] + minutes);
    NumberTaken(size / 3600000000, 2, [':'] + minutes);
    CharTaken(':', minutes);
    NumberTaken(size / 60000000 % 60, 2, tail);
    SecondsTaken(size % 60000000);
  }

  /** UTC itself is written with a plus sign. */
  lemma UtcText()
    ensures OffsetText(0) == "+00:00"
  {
    assert Fixed(0, 1) == "0" && Fixed(0, 2) == "00";
  }

  lemma DateTaken(year: nat, month: nat, day: nat, rest: string)
    requires year < 10000 && month < 100 && day < 100
    ensures TakeDate(Fixed(year, 4) + (['-'] + (Fixed(month, 2) + (['-'] + (Fixed(day, 2) + rest)))))
         == Some(((year, month, day), rest))
  {
    hide TakeNumber, TakeChar, Fixed, Pow10;
    PowersOfTen();
    var s4 := Fixed(day, 2) + rest;
    var s2 := Fixed(month, 2) + (['-'] + s4);
    NumberTaken(year, 4, ['-'] + s2);
    CharTaken('-', s2);
    NumberTaken(month, 2, ['-'] + s4);
    CharTaken('-', s4);
    NumberTaken(day, 2, rest);
  }

  lemma TimeTaken(hour: nat, minute: nat, second: nat, rest: string)
    requires hour < 100 && minute < 100 && second < 100
    ensures TakeTime(Fixed(hour, 2) + ([':'] + (Fixed(minute, 2) + ([':'] + (Fixed(second, 2) + rest)))))
         == Some(((hour, minute, second), rest))
  {
    hide TakeNumber, TakeChar, Fixed, Pow10;
    PowersOfTen();
    var s4 := Fixed(second, 2) + rest;
    var s2 := Fixed(minute, 2) + ([':'] + s4);
    NumberTaken(hour, 2, [':'] + s2);
    CharTaken(':', s2);
    NumberTaken(minute, 2, [':'] + s4);
    CharTaken(':', s4);
    NumberTaken(second, 2, rest);
  }

  /** Every moment the clock can hold reads back from its text, to the microsecond and with its offset. */
  lemma IsoRoundTrip(t: Moment)
    requires t.Valid()
    ensures ParseIso(IsoText(t)) == Some(t)
  {
    hide TakeDate, TakeTime, TakeFraction, TakeOffset, TakeChar, Fixed, FractionText;
    var s4 := OffsetText(t.offset);
    var s3 := FractionText(t.micros) + s4;
    var s2 := Fixed(t.hour, 2) + ([':'] + (Fixed(t.minute, 2) + ([':'] + (Fixed(t.second, 2) + s3))));
    DateTaken(t.year, t.month, t.day, ['T'] + s2);
    CharTaken('T', s2);
    TimeTaken(t.hour, t.minute, t.second, s3);
    FractionTaken(t.micros, s4);
    OffsetTaken(t.offset);
  }

  // ---- the instant a calendar timestamp names

  function YearDays(year: nat): nat { if IsLeap(year) then 366 else 365 }

  function DaysBeforeYear(year: nat): nat {
    if year <= 1 then 0 else DaysBeforeYear(year - 1) + YearDays(year - 1)
  }

  function DaysBeforeMonth(year: nat, month: nat): nat {
    if month <= 1 then 0 else DaysBeforeMonth(year, month - 1) + DaysIn(year, month - 1)
  }

  /** From the first of January of year 1 to that of 1970. */
  const EPOCH_DAYS := 719162

  /** From the first of January of year 1 to the last of December of 9999, both included. */
  const CALENDAR_DAYS := 3652059

  /** Microseconds since 1970 in UTC: how timestamps compare. */
  function InstantOf(t: Moment): int
    requires t.day >= 1
  {
    (DaysBeforeYear(t.year) + DaysBeforeMonth(t.year, t.month) + t.day - 1 - EPOCH_DAYS) * DAY
    + t.hour * 3600000000 + t.minute * 60000000 + t.second * 1000000 + t.micros - t.offset
  }

  /** The year a day falls in, counted from the first day of `from`, and the days into it. */
  function YearAt(from: nat, days: nat): (nat, nat)
    decreases days
  {
    if days < YearDays(from) then (from, days) else YearAt(from + 1, days - YearDays(from))
  }

  function MonthAt(year: nat, from: nat, days: nat): (nat, nat)
    decreases 12 - from
  {
    if from >= 12 || days < DaysIn(year, from) then (from, days) else MonthAt(year, from + 1, days - DaysIn(year, from))
  }

  function SinceYearOne(instant: int, offset: int): int {
    instant + offset + EPOCH_DAYS * DAY
  }

  /** The instant falls, at that offset, in the years 1 to 9999. */
  predicate InCalendar(instant: int, offset: int) {
    -DAY < offset < DAY && 0 <= SinceYearOne(instant, offset) < CALENDAR_DAYS * DAY
  }

  /** The calendar timestamp of an instant at an offset. */
  function MomentAt(instant: int, offset: int): Moment {
    var local := SinceYearOne(instant, offset);
    var since: nat := if local < 0 then 0 else local;
    var time := since % DAY;
    var (year, yearDay) := YearAt(1, since / DAY);
    var (month, day) := MonthAt(year, 1, yearDay);
    Moment(year, month, day + 1, time / 3600000000, time / 60000000 % 60, time / 1000000 % 60, time % 1000000, offset)
  }

  lemma {:induction false} YearFound(from: nat, days: nat)
    requires from >= 1
    ensures
      var (year, rest) := YearAt(from, days);
      year >= from && rest < YearDays(year) && DaysBeforeYear(from) + days == DaysBeforeYear(year) + rest
    decreases days
  {
    if days >= YearDays(from) {
      YearFound(from + 1, days - YearDays(from));
    }
  }

  lemma {:induction false} YearsGrow(early: nat, late: nat)
    requires early <= late
    ensures DaysBeforeYear(early) <= DaysBeforeYear(late)
  {
    if early < late {
      YearsGrow(early, late - 1);
    }
  }

  lemma MonthsFillYear(year: nat)
    ensures DaysBeforeMonth(year, 12) + DaysIn(year, 12) == YearDays(year)
  {
    assert DaysBeforeMonth(year, 2) == 31;
    assert DaysBeforeMonth(year, 3) == 31 + DaysIn(year, 2);
    assert DaysBeforeMonth(year, 5) == DaysBeforeMonth(year, 3) + 61;
    assert DaysBeforeMonth(year, 7) == DaysBeforeMonth(year, 5) + 61;
    assert DaysBeforeMonth(year, 9) == DaysBeforeMonth(year, 7) + 62;
    assert DaysBeforeMonth(year, 11) == DaysBeforeMonth(year, 9) + 61;
  }

  lemma {:induction false} MonthFound(year: nat, from: nat, days: nat)
    requires 1 <= from <= 12 && DaysBeforeMonth(year, from) + days < YearDays(year)
    ensures
      var (month, rest) := MonthAt(year, from, days);
      && from <= month <= 12 && 0 <= rest < DaysIn(year, month)
      && DaysBeforeMonth(year, from) + days == DaysBeforeMonth(year, month) + rest
    decreases 12 - from
  {
    if from == 12 {
      MonthsFillYear(year);
    } else if days >= DaysIn(year, from) {
      MonthFound(year, from + 1, days - DaysIn(year, from));
    }
  }

  lemma TimeParts(time: nat)
    requires time < DAY
    ensures time / 3600000000 < 24
    ensures time == time / 3600000000 * 3600000000 + time / 60000000 % 60 * 60000000
                    + time / 1000000 % 60 * 1000000 + time % 1000000
  {
    assert time / 1000000 / 60 == time / 60000000;
    assert time / 60000000 / 60 == time / 3600000000;
  }

  /** The timestamp shown for an instant is a valid one, and names that instant. */
  lemma MomentNamesInstant(instant: int, offset: int)
    requires InCalendar(instant, offset)
    ensures MomentAt(instant, offset).Valid() && InstantOf(MomentAt(instant, offset)) == instant
  {
    hide YearAt, MonthAt, DaysBeforeYear, DaysBeforeMonth, YearDays, DaysIn;
    var since := SinceYearOne(instant, offset);
    YearFound(1, since / DAY);
    FirstDays();
    var (year, yearDay) := YearAt(1, since / DAY);
    assert since / DAY < CALENDAR_DAYS;
    if year >= 10000 {
      CalendarDays();
      YearsGrow(10000, year);
    }
    MonthFound(year, 1, yearDay);
    TimeParts(since % DAY);
    assert since == since / DAY * DAY + since % DAY;
  }

  lemma FirstDays()
    ensures DaysBeforeYear(1) == 0 && forall year :: DaysBeforeMonth(year, 1) == 0
  {
  }

  lemma Quotients(n: nat)
    requires n > 0
    ensures n / 4 == (n - 1) / 4 + if n % 4 == 0 then 1 else 0
    ensures n / 100 == (n - 1) / 100 + if n % 100 == 0 then 1 else 0
    ensures n / 400 == (n - 1) / 400 + if n % 400 == 0 then 1 else 0
  {
  }

  lemma Multiples(n: nat)
    ensures n % 400 == 0 ==> n % 100 == 0
    ensures n % 100 == 0 ==> n % 4 == 0
  {
    HundredsAndFours(n / 400);
    HundredsAndFours(n / 100);
  }

  lemma HundredsAndFours(k: nat)
    ensures 400 * k % 100 == 0 && 100 * k % 4 == 0
  {
  }

  /** Whole years since year 1, with a day for every fourth, less every hundredth, plus every four hundredth. */
  lemma {:induction false} DaysBeforeYearIs(n: nat)
    ensures DaysBeforeYear(n + 1) == 365 * n + n / 4 - n / 100 + n / 400
  {
    if n > 0 {
      DaysBeforeYearIs(n - 1);
      Multiples(n);
      Quotients(n);
    }
  }

  /** The two day counts above. */
  lemma CalendarDays()
    ensures DaysBeforeYear(1970) == EPOCH_DAYS && DaysBeforeYear(10000) == CALENDAR_DAYS
  {
    hide DaysBeforeYear;
    DaysBeforeYearIs(1969);
    DaysBeforeYearIs(9999);
  }
}
