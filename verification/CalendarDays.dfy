/**
 * Whole calendar days between two dates, by the day numbers of section 15.9.1.3 of ECMA-262
 * edition 5.1, and the aged-sale return rule that rests on them.
 */
module CalendarDays {
  import opened Basics
  import opened DocumentNumbers

  datatype Date = Date(year: int, month: int, day: int)

  const MS_PER_DAY: int := 86400000

  predicate IsLeap(year: int) { year % 4 == 0 && (year % 100 != 0 || year % 400 == 0) }

  function DaysIn(year: int, month: int): int {
    if month == 2 then (if IsLeap(year) then 29 else 28)
    else if month == 4 || month == 6 || month == 9 || month == 11 then 30
    else 31
  }

  /** Gregorian dates that Date.UTC takes as they are: it moves years below 100 to the twentieth century. */
  predicate Valid(d: Date) {
    100 <= d.year && 1 <= d.month <= 12 && 1 <= d.day <= DaysIn(d.year, d.month)
  }

  function NextDay(d: Date): Date {
    if d.day < DaysIn(d.year, d.month) then d.(day := d.day + 1)
    else if d.month < 12 then Date(d.year, d.month + 1, 1)
    else Date(d.year + 1, 1, 1)
  }

  function After(d: Date, days: nat): Date
    decreases days
  {
    if days == 0 then d else After(NextDay(d), days - 1)
  }

  // ---------------------------------------------------------------- day numbers

  function DayFromYear(y: int): int {
    365 * (y - 1970) + (y - 1969) / 4 - (y - 1901) / 100 + (y - 1601) / 400
  }

  /** Days of the year before the month, with its leap day. */
  function DaysBefore(year: int, month: int): int {
    var leap := if IsLeap(year) then 1 else 0;
    match month
    case 1 => 0
    case 2 => 31
    case 3 => 59 + leap
    case 4 => 90 + leap
    case 5 => 120 + leap
    case 6 => 151 + leap
    case 7 => 181 + leap
    case 8 => 212 + leap
    case 9 => 243 + leap
    case 10 => 273 + leap
    case 11 => 304 + leap
    case _ => 334 + leap
  }

  function DayNumber(d: Date): int { DayFromYear(d.year) + DaysBefore(d.year, d.month) + d.day - 1 }

  function Utc(d: Date): int { DayNumber(d) * MS_PER_DAY }

  function DaysBetween(a: Date, b: Date): int { (Utc(b) - Utc(a)) / MS_PER_DAY }

  lemma {:induction false} DaysBetweenIs(a: Date, b: Date)
    ensures DaysBetween(a, b) == DayNumber(b) - DayNumber(a)
  {
    assert Utc(b) - Utc(a) == (DayNumber(b) - DayNumber(a)) * MS_PER_DAY;
  }

  lemma {:induction false} LeapCount(y: int)
    ensures y / 4 - (y - 1) / 4 == if y % 4 == 0 then 1 else 0
    ensures y / 100 - (y - 1) / 100 == if y % 100 == 0 then 1 else 0
    ensures y / 400 - (y - 1) / 400 == if y % 400 == 0 then 1 else 0
    ensures y % 400 == 0 ==> y % 100 == 0
    ensures y % 100 == 0 ==> y % 4 == 0
  {
  }

  lemma {:induction false} ShiftedDivisions(y: int)
    ensures (y - 1969) / 4 == (y - 1) / 4 - 492
    ensures (y - 1901) / 100 == (y - 1) / 100 - 19
    ensures (y - 1601) / 400 == (y - 1) / 400 - 4
  {
    assert y - 1969 == (y - 1) - 4 * 492;
    assert y - 1901 == (y - 1) - 100 * 19;
    assert y - 1601 == (y - 1) - 400 * 4;
  }

  lemma {:induction false} YearLength(y: int)
    ensures DayFromYear(y + 1) == DayFromYear(y) + 365 + (if IsLeap(y) then 1 else 0)
  {
    ShiftedDivisions(y);
    ShiftedDivisions(y + 1);
    LeapCount(y);
  }

  /** The next day has the next number. */
  lemma {:induction false} NextDayNumber(d: Date)
    requires Valid(d)
    ensures Valid(NextDay(d)) && DayNumber(NextDay(d)) == DayNumber(d) + 1
  {
    hide DayFromYear;
    YearLength(d.year);
  }

  lemma {:induction false} AfterNumber(d: Date, days: nat)
    requires Valid(d)
    ensures Valid(After(d, days)) && DayNumber(After(d, days)) == DayNumber(d) + days
    decreases days
  {
    hide DayNumber, NextDay;
    if days > 0 {
      NextDayNumber(d);
      AfterNumber(NextDay(d), days - 1);
    }
  }

  // ---------------------------------------------------------------- numbers determine dates

  predicate Earlier(a: Date, b: Date) {
    a.year < b.year || (a.year == b.year && (a.month < b.month || (a.month == b.month && a.day < b.day)))
  }

  lemma {:induction false} WithinYear(d: Date)
    requires Valid(d)
    ensures DayFromYear(d.year) <= DayNumber(d) < DayFromYear(d.year + 1)
  {
    hide DayFromYear;
    YearLength(d.year);
  }

  lemma {:induction false} YearsIncrease(y: int, z: int)
    requires y <= z
    ensures DayFromYear(y) <= DayFromYear(z)
    decreases z - y
  {
    hide DayFromYear;
    if y < z {
      YearLength(y);
      YearsIncrease(y + 1, z);
    }
  }

  lemma {:induction false} EarlierIsLess(a: Date, b: Date)
    requires Valid(a) && Valid(b) && Earlier(a, b)
    ensures DayNumber(a) < DayNumber(b)
  {
    hide DayFromYear;
    if a.year < b.year {
      WithinYear(a);
      WithinYear(b);
      YearsIncrease(a.year + 1, b.year);
    }
  }

  lemma {:induction false} SameNumberSameDate(a: Date, b: Date)
    requires Valid(a) && Valid(b) && DayNumber(a) == DayNumber(b)
    ensures a == b
  {
    hide DayNumber;
    if Earlier(a, b) { EarlierIsLess(a, b); }
    if Earlier(b, a) { EarlierIsLess(b, a); }
  }

  /** The millisecond difference counts next-day steps: it is `days` exactly if `days` steps lead from one to the other. */
  lemma {:induction false} DaysBetweenCountsSteps(a: Date, b: Date, days: nat)
    requires Valid(a) && Valid(b)
    ensures DaysBetween(a, b) == days <==> After(a, days) == b
  {
    hide DayNumber;
    DaysBetweenIs(a, b);
    AfterNumber(a, days);
    if DaysBetween(a, b) == days { SameNumberSameDate(After(a, days), b); }
  }

  /** Differences add up, and turn around with the dates. */
  lemma {:induction false} DaysBetweenAdds(a: Date, b: Date, c: Date)
    ensures DaysBetween(a, c) == DaysBetween(a, b) + DaysBetween(b, c)
    ensures DaysBetween(b, a) == -DaysBetween(a, b)
  {
    hide DayNumber;
    DaysBetweenIs(a, c);
    DaysBetweenIs(a, b);
    DaysBetweenIs(b, c);
    DaysBetweenIs(b, a);
  }

  // ---------------------------------------------------------------- dates as text

  function Text(d: Date): string
    requires d.year >= 0 && d.month >= 0 && d.day >= 0
  {
    Padded(d.year, 4) + "-" + Padded(d.month, 2) + "-" + Padded(d.day, 2)
  }

  /** The first ten characters, split at the hyphens. */
  function Parse(s: string): Option<Date> {
    if |s| >= 10 && s[4] == '-' && s[7] == '-' && AllDigits(s[..4]) && AllDigits(s[5..7]) && AllDigits(s[8..10])
    then Some(Date(Value(s[..4]), Value(s[5..7]), Value(s[8..10])))
    else None
  }

  lemma {:induction false} FieldWidths(d: Date)
    requires Valid(d) && d.year <= 9999
    ensures |Padded(d.year, 4)| == 4 && |Padded(d.month, 2)| == 2 && |Padded(d.day, 2)| == 2
  {
    PowersOfTen();
    assert Pow10(2) == 100;
    PaddedWidth(d.year, 4);
    PaddedWidth(d.month, 2);
    PaddedWidth(d.day, 2);
  }

  /** A date written as YYYY-MM-DD is read back, whatever follows it. */
  lemma {:induction false} ParseText(d: Date, rest: string)
    requires Valid(d) && d.year <= 9999
    ensures Parse(Text(d) + rest) == Some(d)
  {
    hide Padded, Value;
    FieldWidths(d);
    ParsePadded(d.year, 4);
    ParsePadded(d.month, 2);
    ParsePadded(d.day, 2);
    var s := Text(d) + rest;
    assert s[..4] == Padded(d.year, 4) && s[5..7] == Padded(d.month, 2) && s[8..10] == Padded(d.day, 2);
  }

  // ---------------------------------------------------------------- aged returns

  const AGED_SALE_RETURN_DAYS: int := 30

  predicate IsAbsoluteAdmin(role: string) { UpperText(role) == "ADMIN" || UpperText(role) == "SUPER_ADMIN" }

  datatype Decision = Decision(allowed: bool, ageDays: int, requiresAdmin: bool)

  function CanProcessAgedSaleReturn(sale: Date, asOf: Date, role: string, limit: int): Decision {
    var age := DaysBetween(sale, asOf);
    if age <= limit then Decision(true, age, false) else Decision(IsAbsoluteAdmin(role), age, true)
  }

  /** Anyone may return a sale up to and including the limit day; from the next day on only an admin may. */
  lemma {:induction false} AgedFrom(sale: Date, asOf: Date, role: string, limit: nat)
    requires Valid(sale) && Valid(asOf)
    ensures var lastDay := After(sale, limit);
      var decision := CanProcessAgedSaleReturn(sale, asOf, role, limit);
      && (decision.requiresAdmin <==> Earlier(lastDay, asOf))
      && (decision.allowed <==>
            !Earlier(lastDay, asOf) || UpperText(role) == "ADMIN" || UpperText(role) == "SUPER_ADMIN")
      && decision.ageDays == DaysBetween(sale, asOf)
  {
    hide DayNumber, UpperText;
    var lastDay := After(sale, limit);
    DaysBetweenIs(sale, asOf);
    AfterNumber(sale, limit);
    if Earlier(lastDay, asOf) {
      EarlierIsLess(lastDay, asOf);
    } else if Earlier(asOf, lastDay) {
      EarlierIsLess(asOf, lastDay);
    } else {
      assert asOf == lastDay;
    }
  }

  /** The limit in use is thirty days. */
  lemma {:induction false} AgedFromThirty(sale: Date, asOf: Date, role: string)
    requires Valid(sale) && Valid(asOf)
    ensures CanProcessAgedSaleReturn(sale, asOf, role, AGED_SALE_RETURN_DAYS).requiresAdmin <==>
      Earlier(After(sale, 30), asOf)
  {
    AgedFrom(sale, asOf, role, 30);
  }

  /** Once a sale needs an admin, it needs one on every later date. */
  lemma {:induction false} AgedStaysAged(sale: Date, asOf: Date, later: Date, role: string, limit: int)
    requires Valid(sale) && Valid(asOf) && Valid(later) && (asOf == later || Earlier(asOf, later))
    requires CanProcessAgedSaleReturn(sale, asOf, role, limit).requiresAdmin
    ensures CanProcessAgedSaleReturn(sale, later, role, limit).requiresAdmin
  {
    hide DayNumber, IsAbsoluteAdmin;
    DaysBetweenIs(sale, asOf);
    DaysBetweenIs(sale, later);
    if asOf != later { EarlierIsLess(asOf, later); }
  }
}
