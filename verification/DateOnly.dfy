/** Dates without a time: what is accepted, how it is printed, and the civil-day arithmetic
    (section 21.4.1 of ECMA-262) that decides whether a date is real. */
module DateOnly {
  import opened Options
  import opened Text

  // ---- days and years ----

  predicate IsLeap(y: int) { y % 4 == 0 && (y % 100 != 0 || y % 400 == 0) }

  function DayFromYear(y: int): int {
    365 * (y - 1970) + (y - 1969) / 4 - (y - 1901) / 100 + (y - 1601) / 400
  }

  function DaysInYear(y: int): int { if IsLeap(y) then 366 else 365 }

  lemma Fours(y: int)
    ensures (y + 1 - 1969) / 4 == (y - 1969) / 4 + if y % 4 == 0 then 1 else 0
  {}

  lemma Centuries(y: int)
    ensures (y + 1 - 1901) / 100 == (y - 1901) / 100 + if y % 100 == 0 then 1 else 0
  {}

  lemma Of400(x: int, q: int, r: int)
    requires x == 400 * q + r && 0 <= r < 400
    ensures x / 400 == q && x % 400 == r
  {}

  lemma Of100(x: int, q: int)
    requires x == 100 * q
    ensures x % 100 == 0
  {}

  lemma Of4(x: int, q: int)
    requires x == 4 * q
    ensures x % 4 == 0
  {}

  lemma FourCenturies(y: int)
    ensures (y + 1 - 1601) / 400 == (y - 1601) / 400 + if y % 400 == 0 then 1 else 0
  {
    var q, r := (y - 1601) / 400, (y - 1601) % 400;
    if r == 399 {
      Of400(y, q + 5, 0);
      Of400(y + 1 - 1601, q + 1, 0);
    } else {
      Of400(y, q + 4, r + 1);
      Of400(y + 1 - 1601, q, r + 1);
    }
  }

  lemma LeapRules(y: int)
    ensures y % 400 == 0 ==> y % 100 == 0
    ensures y % 100 == 0 ==> y % 4 == 0
  {
    if y % 400 == 0 {
      Of100(y, 4 * (y / 400));
    }
    if y % 100 == 0 {
      Of4(y, 25 * (y / 100));
    }
  }

  lemma YearLength(y: int)
    ensures DayFromYear(y + 1) == DayFromYear(y) + DaysInYear(y)
  {
    Fours(y);
    Centuries(y);
    FourCenturies(y);
    LeapRules(y);
  }

  lemma {:induction false} YearsGrow(y: int, z: int)
    requires y <= z
    ensures DayFromYear(y) + 365 * (z - y) <= DayFromYear(z)
    decreases z - y
  {
    if y < z {
      YearLength(z - 1);
      YearsGrow(y, z - 1);
    }
  }

  /** The year that a day is in, found from a year that is not after it. */
  function YearFromDay(day: int, y: int): (r: int)
    requires DayFromYear(y) <= day
    ensures r >= y && DayFromYear(r) <= day < DayFromYear(r + 1)
    decreases day - DayFromYear(y)
  {
    YearLength(y);
    if day < DayFromYear(y + 1) then y else YearFromDay(day, y + 1)
  }

  lemma YearIsUnique(day: int, y: int, z: int)
    requires DayFromYear(y) <= day < DayFromYear(y + 1) && DayFromYear(z) <= day < DayFromYear(z + 1)
    ensures y == z
  {
    if y < z {
      YearsGrow(y + 1, z);
    } else if z < y {
      YearsGrow(z + 1, y);
    }
  }

  // ---- months ----

  /** Days of the year before month `m`, months counted from 0. */
  function DayFromMonth(m: int, leap: bool): int
    requires 0 <= m <= 12
  {
    var l := if leap && m >= 2 then 1 else 0;
    l + [0, 31, 59, 90, 120, 151, 181, 212, 243, 273, 304, 334, 365][m]
  }

  function DaysInMonth(y: int, m: int): int
    requires 1 <= m <= 12
  {
    if m == 2 then (if IsLeap(y) then 29 else 28)
    else if m == 4 || m == 6 || m == 9 || m == 11 then 30
    else 31
  }

  lemma MonthLength(y: int, m: int)
    requires 1 <= m <= 12
    ensures DayFromMonth(m, IsLeap(y)) == DayFromMonth(m - 1, IsLeap(y)) + DaysInMonth(y, m)
  {}

  /** The month that a day of the year is in, counted from 0. */
  function MonthFromDay(day: int, leap: bool): (m: int)
    requires 0 <= day < if leap then 366 else 365
    ensures 0 <= m < 12 && DayFromMonth(m, leap) <= day < DayFromMonth(m + 1, leap)
  {
    if day < DayFromMonth(1, leap) then 0
    else if day < DayFromMonth(2, leap) then 1
    else if day < DayFromMonth(3, leap) then 2
    else if day < DayFromMonth(4, leap) then 3
    else if day < DayFromMonth(5, leap) then 4
    else if day < DayFromMonth(6, leap) then 5
    else if day < DayFromMonth(7, leap) then 6
    else if day < DayFromMonth(8, leap) then 7
    else if day < DayFromMonth(9, leap) then 8
    else if day < DayFromMonth(10, leap) then 9
    else if day < DayFromMonth(11, leap) then 10
    else 11
  }

  lemma MonthsGrow(m: int, n: int, leap: bool)
    requires 0 <= m <= n <= 12
    ensures DayFromMonth(m, leap) <= DayFromMonth(n, leap)
  {}

  // ---- the check ----

  datatype Date = Date(year: int, month: int, day: int)

  /** The day that `Date.UTC` makes of year, month from 0 and day of month; the month and
      the day may run over, and two-digit years are of the twentieth century. */
  function UtcDay(year: int, month: int, day: int): int {
    var full := if 0 <= year <= 99 then 1900 + year else year;
    var y, m := full + month / 12, month % 12;
    DayFromYear(y) + DayFromMonth(m, IsLeap(y)) + day - 1
  }

  function DateOfDay(day: int, from: int): Date
    requires DayFromYear(from) <= day
  {
    var y := YearFromDay(day, from);
    YearLength(y);
    var inYear := day - DayFromYear(y);
    var m := MonthFromDay(inYear, IsLeap(y));
    Date(y, m + 1, inYear - DayFromMonth(m, IsLeap(y)) + 1)
  }

  /** A year before every candidate's. */
  function Floor(year: int): int { (if 0 <= year <= 99 then 1900 + year else year) - 2 }

  lemma CandidateIsAfterFloor(d: Date)
    requires d.year >= 0 && d.month >= 0 && d.day >= 0
    ensures DayFromYear(Floor(d.year)) < UtcDay(d.year, d.month - 1, d.day)
  {
    var full := if 0 <= d.year <= 99 then 1900 + d.year else d.year;
    YearsGrow(full - 2, full + (d.month - 1) / 12);
  }

  predicate Survives(d: Date)
    requires d.year >= 0 && d.month >= 0 && d.day >= 0
  {
    CandidateIsAfterFloor(d);
    DateOfDay(UtcDay(d.year, d.month - 1, d.day), Floor(d.year)) == d
  }

  predicate IsReal(d: Date) {
    d.year >= 100 && 1 <= d.month <= 12 && 1 <= d.day <= DaysInMonth(d.year, d.month)
  }

  lemma DateOfDayIsReal(day: int, from: int)
    requires DayFromYear(from) <= day
    ensures var r := DateOfDay(day, from);
            1 <= r.month <= 12 && 1 <= r.day <= DaysInMonth(r.year, r.month) && r.year >= from
  {
    var y := YearFromDay(day, from);
    YearLength(y);
    MonthLength(y, MonthFromDay(day - DayFromYear(y), IsLeap(y)) + 1);
  }

  /** Making a day of a date and reading it back yields the date exactly if it is real. */
  lemma SurvivesIffReal(d: Date)
    requires d.year >= 0 && d.month >= 0 && d.day >= 0
    ensures Survives(d) <==> IsReal(d)
  {
    CandidateIsAfterFloor(d);
    var day, from := UtcDay(d.year, d.month - 1, d.day), Floor(d.year);
    DateOfDayIsReal(day, from);
    if IsReal(d) {
      RealSurvives(d);
    }
  }

  lemma MonthIsUnique(day: int, m: int, leap: bool)
    requires 0 <= m < 12 && 0 <= day < (if leap then 366 else 365)
    requires DayFromMonth(m, leap) <= day < DayFromMonth(m + 1, leap)
    ensures MonthFromDay(day, leap) == m
  {
    var n := MonthFromDay(day, leap);
    if n < m {
      MonthsGrow(n + 1, m, leap);
    } else if n > m {
      MonthsGrow(m + 1, n, leap);
    }
  }

  /** The day of the year of a real date. */
  lemma RealDayInYear(d: Date)
    requires IsReal(d)
    ensures var leap, inYear := IsLeap(d.year), DayFromMonth(d.month - 1, IsLeap(d.year)) + d.day - 1;
            && DayFromMonth(d.month - 1, leap) <= inYear < DayFromMonth(d.month, leap)
            && 0 <= inYear < DaysInYear(d.year)
            && UtcDay(d.year, d.month - 1, d.day) == DayFromYear(d.year) + inYear
  {
    assert (d.month - 1) / 12 == 0 && (d.month - 1) % 12 == d.month - 1;
    MonthLength(d.year, d.month);
    MonthsGrow(d.month, 12, IsLeap(d.year));
    MonthsGrow(0, d.month - 1, IsLeap(d.year));
  }

  lemma DateOfDayIs(day: int, from: int, d: Date, inYear: int)
    requires 1 <= d.month <= 12 && 0 <= inYear < DaysInYear(d.year)
    requires DayFromYear(from) <= day == DayFromYear(d.year) + inYear
    requires DayFromMonth(d.month - 1, IsLeap(d.year)) <= inYear < DayFromMonth(d.month, IsLeap(d.year))
    requires d.day == inYear - DayFromMonth(d.month - 1, IsLeap(d.year)) + 1
    ensures DateOfDay(day, from) == d
  {
    hide DayFromYear, IsLeap, DayFromMonth;
    YearLength(d.year);
    YearIsUnique(day, YearFromDay(day, from), d.year);
    MonthIsUnique(inYear, d.month - 1, IsLeap(d.year));
  }

  lemma RealSurvives(d: Date)
    requires IsReal(d)
    ensures Survives(d)
  {
    CandidateIsAfterFloor(d);
    RealDayInYear(d);
    DateOfDayIs(UtcDay(d.year, d.month - 1, d.day), Floor(d.year), d,
                DayFromMonth(d.month - 1, IsLeap(d.year)) + d.day - 1);
  }

  // ---- reading and printing ----

  predicate IsDigit(c: char) { '0' <= c <= '9' }

  function DigitOf(c: char): (n: nat)
    requires IsDigit(c)
    ensures n <= 9
  {
    c as int - '0' as int
  }

  function CharOf(n: nat): (c: char)
    requires n <= 9
    ensures IsDigit(c) && DigitOf(c) == n
  {
    (n + '0' as int) as char
  }

  predicate IsSeparator(c: char) { c == '/' || c == '-' }

  /** The characters that a dot in a pattern does not match. */
  predicate IsLineEnd(c: char) { c == '\n' || c == '\r' || c == '\U{2028}' || c == '\U{2029}' }

  /** Nothing, or a time after a blank or a T, on the same line. */
  predicate IsRest(s: string) {
    s == "" || ((s[0] == ' ' || s[0] == 'T') && forall i :: 1 <= i < |s| ==> !IsLineEnd(s[i]))
  }

  datatype Number = Number(value: nat, rest: string)

  /** One or two digits, as many as there are. */
  function OneOrTwo(s: string): Option<Number> {
    if |s| == 0 || !IsDigit(s[0]) then None
    else if |s| == 1 || !IsDigit(s[1]) then Some(Number(DigitOf(s[0]), s[1..]))
    else Some(Number(10 * DigitOf(s[0]) + DigitOf(s[1]), s[2..]))
  }

  function Four(s: string): Option<Number> {
    if |s| < 4 || !IsDigit(s[0]) || !IsDigit(s[1]) || !IsDigit(s[2]) || !IsDigit(s[3]) then None
    else Some(Number(1000 * DigitOf(s[0]) + 100 * DigitOf(s[1]) + 10 * DigitOf(s[2]) + DigitOf(s[3]), s[4..]))
  }

  /** Year, month and day as written, real or not. */
  function Read(s: string): (d: Option<Date>)
    ensures d.Some? ==> 0 <= d.value.year <= 9999 && 0 <= d.value.month <= 99 && 0 <= d.value.day <= 99
  {
    var year := Four(s);
    if year.None? || |year.value.rest| == 0 || !IsSeparator(year.value.rest[0]) then None
    else
      var month := OneOrTwo(year.value.rest[1..]);
      if month.None? || |month.value.rest| == 0 || !IsSeparator(month.value.rest[0]) then None
      else
        var day := OneOrTwo(month.value.rest[1..]);
        if day.None? || !IsRest(day.value.rest) then None
        else Some(Date(year.value.value, month.value.value, day.value.value))
  }

  function Print(d: Date, separator: char): (s: string)
    requires 0 <= d.year <= 9999 && 0 <= d.month <= 99 && 0 <= d.day <= 99
    ensures |s| == 10
  {
    [CharOf(d.year / 1000), CharOf(d.year / 100 % 10), CharOf(d.year / 10 % 10), CharOf(d.year % 10), separator,
     CharOf(d.month / 10), CharOf(d.month % 10), separator, CharOf(d.day / 10), CharOf(d.day % 10)]
  }

  function NormalizeDateOnly(text: string): Option<string> {
    var d := Read(Trim(text));
    if d.None? || !Survives(d.value) then None else Some(Print(d.value, '-'))
  }

  function ReplaceDashes(s: string): string {
    if |s| == 0 then "" else [if s[0] == '-' then '/' else s[0]] + ReplaceDashes(s[1..])
  }

  /** None for a text that is no date. */
  function ToRagicDateOnly(text: string): Option<string> {
    match NormalizeDateOnly(text)
    case None => None
    case Some(s) => Some(ReplaceDashes(s))
  }

  lemma DigitIsNoSpace(c: char)
    requires IsDigit(c)
    ensures !IsSpace(c)
  {}

  lemma TwoDigits(s: string, n: nat)
    requires |s| >= 2 && n <= 99 && s[0] == CharOf(n / 10) && s[1] == CharOf(n % 10)
    ensures OneOrTwo(s) == Some(Number(n, s[2..]))
  {}

  lemma DigitSum(n: nat)
    ensures n == 1000 * (n / 1000) + 100 * (n / 100 % 10) + 10 * (n / 10 % 10) + n % 10
  {
    var tens, hundreds := n / 10, n / 100;
    assert n == 10 * tens + n % 10;
    assert hundreds == tens / 10;
    assert n / 1000 == hundreds / 10;
  }

  lemma FourDigits(s: string, n: nat)
    requires |s| >= 4 && n <= 9999
    requires s[0] == CharOf(n / 1000) && s[1] == CharOf(n / 100 % 10) && s[2] == CharOf(n / 10 % 10) && s[3] == CharOf(n % 10)
    ensures Four(s) == Some(Number(n, s[4..]))
  {
    hide CharOf, DigitOf, IsDigit;
    DigitSum(n);
  }

  lemma PrintedIsRead(d: Date, separator: char)
    requires 0 <= d.year <= 9999 && 0 <= d.month <= 99 && 0 <= d.day <= 99 && IsSeparator(separator)
    ensures Read(Print(d, separator)) == Some(d) && Trim(Print(d, separator)) == Print(d, separator)
  {
    var s := Print(d, separator);
    FourDigits(s, d.year);
    TwoDigits(s[4..][1..], d.month);
    TwoDigits(s[4..][1..][2..][1..], d.day);
    DigitIsNoSpace(s[0]);
    DigitIsNoSpace(s[9]);
  }

  lemma {:induction false} ReplacedAt(s: string, i: nat)
    requires i < |s|
    ensures |ReplaceDashes(s)| == |s| && ReplaceDashes(s)[i] == if s[i] == '-' then '/' else s[i]
  {
    if |s| > 1 {
      ReplacedAt(s[1..], if i == 0 then 0 else i - 1);
    }
  }

  lemma PrintedDashes(d: Date)
    requires 0 <= d.year <= 9999 && 0 <= d.month <= 99 && 0 <= d.day <= 99
    ensures ReplaceDashes(Print(d, '-')) == Print(d, '/')
  {
    var s, t := Print(d, '-'), Print(d, '/');
    ReplacedAt(s, 0);
    forall i | 0 <= i < 10 ensures ReplaceDashes(s)[i] == t[i] {
      ReplacedAt(s, i);
    }
  }

  // ---- the accepted spellings ----

  /** A number of one or two digits, with a zero in front or not. */
  function Digits(n: nat, padded: bool): string
    requires n <= 99
  {
    if padded || n >= 10 then [CharOf(n / 10), CharOf(n % 10)] else [CharOf(n)]
  }

  /** Four digits, a separator, one or two digits, a separator, one or two digits, and
      perhaps a time. */
  predicate IsSpelling(s: string, d: Date, first: char, second: char, month: bool, day: bool, rest: string) {
    && 0 <= d.year <= 9999 && 0 <= d.month <= 99 && 0 <= d.day <= 99
    && first in ['/', '-'] && second in ['/', '-']
    && (rest == "" || (rest[0] in [' ', 'T'] && forall c :: c in rest[1..] ==> c !in "\n\r\U{2028}\U{2029}"))
    && s == [CharOf(d.year / 1000), CharOf(d.year / 100 % 10), CharOf(d.year / 10 % 10), CharOf(d.year % 10)]
            + [first] + Digits(d.month, month) + [second] + Digits(d.day, day) + rest
  }

  lemma DigitsAreRead(n: nat, padded: bool, rest: string)
    requires n <= 99 && (rest == "" || !IsDigit(rest[0]))
    ensures OneOrTwo(Digits(n, padded) + rest) == Some(Number(n, rest))
  {
    var s := Digits(n, padded) + rest;
    if padded || n >= 10 {
      assert s[2..] == rest;
    } else {
      assert s[1..] == rest;
    }
  }

  lemma OnlyDigitsAreRead(s: string)
    ensures OneOrTwo(s).Some? ==>
              var n := OneOrTwo(s).value;
              n.value <= 99 && s == Digits(n.value, |s| == |n.rest| + 2) + n.rest
  {
    if OneOrTwo(s).Some? {
      var n := OneOrTwo(s).value;
      if |s| == |n.rest| + 2 {
        assert n.value / 10 == DigitOf(s[0]) && n.value % 10 == DigitOf(s[1]);
        SameDigit(s[0], n.value / 10);
        SameDigit(s[1], n.value % 10);
      } else {
        SameDigit(s[0], n.value);
      }
    }
  }

  lemma SameDigit(c: char, n: nat)
    requires IsDigit(c) && DigitOf(c) == n
    ensures CharOf(n) == c
  {
  }

  lemma SeparatorIsNoDigit(c: char)
    ensures IsSeparator(c) <==> c in ['/', '-']
    ensures IsSeparator(c) ==> !IsDigit(c)
  {
  }

  lemma RestIffTime(rest: string)
    ensures IsRest(rest) <==>
              rest == "" || (rest[0] in [' ', 'T'] && forall c :: c in rest[1..] ==> c !in "\n\r\U{2028}\U{2029}")
  {
    if rest != "" {
      assert forall i :: 1 <= i < |rest| ==> rest[1..][i - 1] == rest[i];
      assert forall c :: c in rest[1..] ==> exists i :: 1 <= i < |rest| && rest[i] == c;
      assert forall c :: IsLineEnd(c) <==> c in "\n\r\U{2028}\U{2029}";
    }
  }

  lemma SpellingIsRead(s: string, d: Date, first: char, second: char, month: bool, day: bool, rest: string)
    requires IsSpelling(s, d, first, second, month, day, rest)
    ensures Read(s) == Some(d)
  {
    hide OneOrTwo, Four, CharOf, IsDigit, Digits, IsRest, IsSeparator;
    SeparatorIsNoDigit(first);
    RestIffTime(rest);
    var afterMonth := [second] + (Digits(d.day, day) + rest);
    FourDigits(s, d.year);
    assert s[4..] == [first] + (Digits(d.month, month) + afterMonth);
    assert s[4..][1..] == Digits(d.month, month) + afterMonth;
    assert afterMonth[1..] == Digits(d.day, day) + rest;
    SeparatorIsNoDigit(second);
    DigitsAreRead(d.month, month, afterMonth);
    RestIsNoDigit(rest);
    DigitsAreRead(d.day, day, rest);
  }

  lemma RestIsNoDigit(rest: string)
    requires IsRest(rest)
    ensures rest == "" || !IsDigit(rest[0])
  {
  }

  lemma OnlyFourDigitsAreRead(s: string)
    ensures Four(s).Some? ==>
              var y := Four(s).value;
              |s| >= 4 && y.value <= 9999 && y.rest == s[4..]
              && s[..4] == [CharOf(y.value / 1000), CharOf(y.value / 100 % 10), CharOf(y.value / 10 % 10), CharOf(y.value % 10)]
  {
    if Four(s).Some? {
      var n := Four(s).value.value;
      FourOf(n, DigitOf(s[0]), DigitOf(s[1]), DigitOf(s[2]), DigitOf(s[3]));
      SameDigit(s[0], n / 1000);
      SameDigit(s[1], n / 100 % 10);
      SameDigit(s[2], n / 10 % 10);
      SameDigit(s[3], n % 10);
    }
  }

  lemma FourOf(n: nat, a: nat, b: nat, c: nat, d: nat)
    requires n == 1000 * a + 100 * b + 10 * c + d && a <= 9 && b <= 9 && c <= 9 && d <= 9
    ensures n / 1000 == a && n / 100 % 10 == b && n / 10 % 10 == c && n % 10 == d
  {
    assert n / 100 == 10 * a + b;
    assert n / 10 == 100 * a + 10 * b + c;
  }

  /** What is read are exactly the spellings of a date. */
  lemma ReadIffSpelled(s: string, d: Date)
    ensures Read(s) == Some(d) <==>
              exists first, second, month, day, rest :: IsSpelling(s, d, first, second, month, day, rest)
  {
    forall first, second, month, day, rest | IsSpelling(s, d, first, second, month, day, rest) ensures Read(s) == Some(d) {
      SpellingIsRead(s, d, first, second, month, day, rest);
    }
    if Read(s) == Some(d) {
      var afterYear := Four(s).value.rest;
      var month := OneOrTwo(afterYear[1..]).value;
      var day := OneOrTwo(month.rest[1..]).value;
      SpelledAs(s, d, afterYear, month, day);
    }
  }

  lemma SpelledAs(s: string, d: Date, afterYear: string, month: Number, day: Number)
    requires Read(s) == Some(d) && Four(s) == Some(Number(d.year, afterYear)) && |afterYear| > 0
    requires OneOrTwo(afterYear[1..]) == Some(month) && |month.rest| > 0 && month.value == d.month
    requires OneOrTwo(month.rest[1..]) == Some(day) && day.value == d.day && IsRest(day.rest)
    requires IsSeparator(afterYear[0]) && IsSeparator(month.rest[0])
    ensures exists first, second, m, k, rest :: IsSpelling(s, d, first, second, m, k, rest)
  {
    hide OneOrTwo, Four, Read, CharOf, IsDigit, Digits, IsRest, IsSeparator;
    var m, k := |afterYear| - 1 == |month.rest| + 2, |month.rest| - 1 == |day.rest| + 2;
    OnlyFourDigitsAreRead(s);
    OnlyDigitsAreRead(afterYear[1..]);
    OnlyDigitsAreRead(month.rest[1..]);
    var first, second := afterYear[0], month.rest[0];
    assert month.rest == [second] + (Digits(d.day, k) + day.rest);
    assert afterYear == [first] + (Digits(d.month, m) + month.rest);
    assert s == s[..4] + afterYear;
    SeparatorIsNoDigit(first);
    SeparatorIsNoDigit(second);
    RestIffTime(day.rest);
    Regroup(s[..4], [first], Digits(d.month, m), [second], Digits(d.day, k), day.rest);
    SpelledBy(s, d, first, second, m, k, day.rest);
  }

  lemma SpelledBy(s: string, d: Date, first: char, second: char, m: bool, k: bool, rest: string)
    requires IsSpelling(s, d, first, second, m, k, rest)
    ensures exists f, g, month, day, r :: IsSpelling(s, d, f, g, month, day, r)
  {
  }

  lemma Regroup(a: string, b: string, c: string, d: string, e: string, f: string)
    ensures a + b + c + d + e + f == a + (b + (c + (d + (e + f))))
  {
  }

  // ---- what it promises ----

  /** Spaces around a date make no difference. */
  lemma SpacesAreCut(before: string, text: string, after: string)
    requires forall c :: c in before + after ==> IsSpace(c)
    ensures NormalizeDateOnly(before + text + after) == NormalizeDateOnly(text)
    ensures ToRagicDateOnly(before + text + after) == ToRagicDateOnly(text)
  {
    TrimIgnoresSpaces(before, text, after);
  }

  /** Accepted are the real dates of the years 100 to 9999, and each is printed as itself. */
  lemma AcceptedIffReal(text: string)
    ensures var d := Read(Trim(text));
            && (NormalizeDateOnly(text).Some? <==> d.Some? && IsReal(d.value))
            && (NormalizeDateOnly(text).Some? ==> Read(NormalizeDateOnly(text).value) == d)
  {
    var d := Read(Trim(text));
    if d.Some? {
      SurvivesIffReal(d.value);
      PrintedIsRead(d.value, '-');
    }
  }

  /** Every real date can be written, with either separator, and comes back printed. */
  lemma RealDatesAreAccepted(d: Date, separator: char)
    requires IsReal(d) && d.year <= 9999 && IsSeparator(separator)
    ensures NormalizeDateOnly(Print(d, separator)) == Some(Print(d, '-'))
  {
    PrintedIsRead(d, separator);
    SurvivesIffReal(d);
  }

  lemma NormalizingTwiceIsOnce(text: string)
    requires NormalizeDateOnly(text).Some?
    ensures NormalizeDateOnly(NormalizeDateOnly(text).value) == NormalizeDateOnly(text)
  {
    var d := Read(Trim(text)).value;
    SurvivesIffReal(d);
    RealDatesAreAccepted(d, '-');
  }

  /** The upstream form of a date normalises back to the date. */
  lemma RagicRoundTrip(text: string)
    ensures ToRagicDateOnly(text).Some? <==> NormalizeDateOnly(text).Some?
    ensures ToRagicDateOnly(text).Some? ==> NormalizeDateOnly(ToRagicDateOnly(text).value) == NormalizeDateOnly(text)
  {
    var d := Read(Trim(text));
    if NormalizeDateOnly(text).Some? {
      SurvivesIffReal(d.value);
      PrintedDashes(d.value);
      RealDatesAreAccepted(d.value, '/');
    }
  }
}
