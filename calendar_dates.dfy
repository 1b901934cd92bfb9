/**
 * `java.time.LocalDate` as far as the sales analysis uses it: proleptic
 * Gregorian dates, `LocalDate.parse` with the ISO 8601 extended calendar-date
 * form YYYY-MM-DD (section 4.1.2.2 of ISO 8601:2004), `isBefore`/`isAfter`,
 * and `toString`.
 */
module CalendarDates {
  import opened Numerals
  import opened Wrappers

  /** The Gregorian rule: every fourth year, except centuries not divisible by 400. */
  predicate IsLeapYear(year: int) {
    year % 4 == 0 && (year % 100 != 0 || year % 400 == 0)
  }

  function DaysInMonth(year: int, month: int): (days: int)
    requires 1 <= month <= 12
    ensures 28 <= days <= 31
    ensures month == 2 ==> (days == 29 <==> IsLeapYear(year))
  {
    if month == 2 then (if IsLeapYear(year) then 29 else 28)
    else if month == 4 || month == 6 || month == 9 || month == 11 then 30
    else 31
  }

  datatype CalendarDay = CalendarDay(year: int, month: int, day: int) {
    predicate Valid() {
      1 <= month <= 12 && 1 <= day <= DaysInMonth(year, month)
    }
  }

  /** A `LocalDate`: a day that exists in the proleptic Gregorian calendar. */
  type LocalDate = d: CalendarDay | d.Valid() witness CalendarDay(1970, 1, 1)

  /** `a.isBefore(b)`: chronological order, year first, then month, then day. */
  predicate Before(a: LocalDate, b: LocalDate) {
    a.year < b.year ||
    (a.year == b.year && (a.month < b.month || (a.month == b.month && a.day < b.day)))
  }

  /** Before is a strict total order on dates. */
  lemma BeforeIsStrictTotalOrder(a: LocalDate, b: LocalDate, c: LocalDate)
    ensures !Before(a, a)
    ensures Before(a, b) && Before(b, c) ==> Before(a, c)
    ensures a == b || Before(a, b) || Before(b, a)
    ensures !(Before(a, b) && Before(b, a))
  {
  }

  /** The day with these numbers, if it exists in the calendar. */
  function DateOf(year: int, month: int, day: int): (r: Option<LocalDate>)
    ensures r.Some? <==> 1 <= month <= 12 && 1 <= day <= DaysInMonth(year, month)
    ensures r.Some? ==> r.value == CalendarDay(year, month, day)
  {
    if 1 <= month <= 12 && 1 <= day <= DaysInMonth(year, month)
    then Some(CalendarDay(year, month, day))
    else None
  }

  /** Ten characters: four digits, '-', two digits, '-', two digits. */
  predicate WellShaped(text: string) {
    |text| == 10 && text[4] == '-' && text[7] == '-' &&
    AllDigits(text[..4]) && AllDigits(text[5..7]) && AllDigits(text[8..])
  }

  /** `LocalDate.parse(text)`: exactly YYYY-MM-DD in ASCII digits naming a day that exists. */
  function ParseDate(text: string): (r: Option<LocalDate>)
    ensures r.Some? ==> |text| == 10 && 0 <= r.value.year <= 9999
  {
    if WellShaped(text)
    then
      assert Pow10(4) == 10000;
      DateOf(DigitsValue(text[..4]), DigitsValue(text[5..7]), DigitsValue(text[8..]))
    else None
  }

  /** The year as `LocalDate.toString` writes it: four digits at least, a sign outside 0..9999. */
  function YearText(year: int): string {
    if 0 <= year <= 9999 then PadDigits(year, 4)
    else if year > 9999 then "+" + NatToString(year)
    else if -year < 1000 then "-" + PadDigits(-year, 4)
    else "-" + NatToString(-year)
  }

  /** `LocalDate.toString()`. */
  function FormatDate(d: LocalDate): string {
    YearText(d.year) + "-" + PadDigits(d.month, 2) + "-" + PadDigits(d.day, 2)
  }

  /** A text of four, two and two digits names the day those digits spell, if it exists. */
  lemma ShapedText(y: string, m: string, dd: string)
    requires |y| == 4 && |m| == 2 && |dd| == 2 && AllDigits(y) && AllDigits(m) && AllDigits(dd)
    ensures ParseDate(y + "-" + m + "-" + dd) == DateOf(DigitsValue(y), DigitsValue(m), DigitsValue(dd))
  {
    DateTextSlices(y, m, dd);
  }

  /** Every date of a four-digit year is written in a form that parses back to it. */
  lemma ParseFormat(d: LocalDate)
    requires 0 <= d.year <= 9999
    ensures ParseDate(FormatDate(d)) == Some(d)
  {
    var y, m, dd := PadDigits(d.year, 4), PadDigits(d.month, 2), PadDigits(d.day, 2);
    assert FormatDate(d) == y + "-" + m + "-" + dd;
    assert Pow10(2) == 100 && Pow10(4) == 10000;
    PadDigitsValue(d.year, 4);
    DivModUnique(d.year, 10000, 0, d.year);
    PadDigitsValue(d.month, 2);
    DivModUnique(d.month, 100, 0, d.month);
    PadDigitsValue(d.day, 2);
    DivModUnique(d.day, 100, 0, d.day);
    ShapedText(y, m, dd);
    assert DateOf(d.year, d.month, d.day) == Some(d);
  }

  lemma DateTextSlices(y: string, m: string, dd: string)
    requires |y| == 4 && |m| == 2 && |dd| == 2
    ensures var s := y + "-" + m + "-" + dd;
      |s| == 10 && s[..4] == y && s[4] == '-' && s[5..7] == m && s[7] == '-' && s[8..] == dd
  {
  }

  /** Whatever parses is the canonical text of the date it names. */
  lemma FormatParse(text: string)
    requires ParseDate(text).Some?
    ensures FormatDate(ParseDate(text).value) == text
  {
    var d := ParseDate(text).value;
    var y, m, dd := text[..4], text[5..7], text[8..];
    PadDigitsOfValue(y);
    PadDigitsOfValue(m);
    PadDigitsOfValue(dd);
    assert text == y + "-" + m + "-" + dd;
  }

  /** Well-formed texts of existing days parse, February 29 included in leap years. */
  lemma ParseDateAccepts()
    ensures ParseDate("2024-01-15") == Some(CalendarDay(2024, 1, 15))
    ensures ParseDate("2024-02-29") == Some(CalendarDay(2024, 2, 29))
    ensures ParseDate("2000-02-29") == Some(CalendarDay(2000, 2, 29))
  {
    assert ParseDate("2024-01-15") == Some(CalendarDay(2024, 1, 15)) by {
      DateExample("2024-01-15", '2', '0', '2', '4', '0', '1', '1', '5', 2024, 1, 15);
    }
    assert ParseDate("2024-02-29") == Some(CalendarDay(2024, 2, 29)) by {
      DateExample("2024-02-29", '2', '0', '2', '4', '0', '2', '2', '9', 2024, 2, 29);
    }
    assert ParseDate("2000-02-29") == Some(CalendarDay(2000, 2, 29)) by {
      assert IsLeapYear(2000) by {
        DivModUnique(2000, 4, 500, 0);
        DivModUnique(2000, 400, 5, 0);
      }
      DateExample("2000-02-29", '2', '0', '0', '0', '0', '2', '2', '9', 2000, 2, 29);
    }
  }

  /** February 29 of a non-leap year does not exist, centuries included. */
  lemma ParseDateLeapRule()
    ensures ParseDate("2023-02-29").None? && ParseDate("1900-02-29").None?
  {
    assert ParseDate("2023-02-29").None? by {
      DateExample("2023-02-29", '2', '0', '2', '3', '0', '2', '2', '9', 2023, 2, 29);
    }
    assert ParseDate("1900-02-29").None? by {
      assert !IsLeapYear(1900) by {
        DivModUnique(1900, 100, 19, 0);
        DivModUnique(1900, 400, 4, 300);
      }
      DateExample("1900-02-29", '1', '9', '0', '0', '0', '2', '2', '9', 1900, 2, 29);
    }
  }

  /** A thirteenth month, a 31st of April and free text are all rejected. */
  lemma ParseDateRejects()
    ensures ParseDate("2024-13-01").None? && ParseDate("2024-04-31").None?
    ensures ParseDate("not-a-date").None? && ParseDate("invalid-date").None?
  {
    assert ParseDate("2024-13-01").None? by {
      DateExample("2024-13-01", '2', '0', '2', '4', '1', '3', '0', '1', 2024, 13, 1);
    }
    assert ParseDate("2024-04-31").None? by {
      DateExample("2024-04-31", '2', '0', '2', '4', '0', '4', '3', '1', 2024, 4, 31);
    }
    assert "not-a-date"[4] != '-';
  }

  /** A date text of ASCII digits in the YYYY-MM-DD layout, with the values of its digit groups. */
  lemma DateExample(text: string, y0: char, y1: char, y2: char, y3: char, m0: char, m1: char, d0: char, d1: char,
                    year: nat, month: nat, day: nat)
    requires text == [y0, y1, y2, y3, '-', m0, m1, '-', d0, d1]
    requires IsDigit(y0) && IsDigit(y1) && IsDigit(y2) && IsDigit(y3)
    requires IsDigit(m0) && IsDigit(m1) && IsDigit(d0) && IsDigit(d1)
    requires year == 1000 * DigitValue(y0) + 100 * DigitValue(y1) + 10 * DigitValue(y2) + DigitValue(y3)
    requires month == 10 * DigitValue(m0) + DigitValue(m1)
    requires day == 10 * DigitValue(d0) + DigitValue(d1)
    ensures ParseDate(text) == DateOf(year, month, day)
  {
    var y, m, dd := [y0, y1, y2, y3], [m0, m1], [d0, d1];
    assert text == y + "-" + m + "-" + dd;
    ShapedText(y, m, dd);
    FourDigits(y);
    TwoDigits(m);
    TwoDigits(dd);
  }

  lemma TwoDigits(s: string)
    requires |s| == 2 && AllDigits(s)
    ensures DigitsValue(s) == 10 * DigitValue(s[0]) + DigitValue(s[1])
  {
    assert s[..1][..0] == [];
  }

  lemma FourDigits(s: string)
    requires |s| == 4 && AllDigits(s)
    ensures DigitsValue(s) == 1000 * DigitValue(s[0]) + 100 * DigitValue(s[1]) + 10 * DigitValue(s[2]) + DigitValue(s[3])
  {
    assert s[..3][..2] == s[..2];
    TwoDigits(s[..2]);
  }
}
