/** Calendar dates of the proleptic Gregorian calendar and their ISO 8601 text, as `datetime.date` has them. */
module Calendar {
  import opened Text

  datatype Date = Date(year: int, month: int, day: int)

  predicate IsLeapYear(y: int) {
    y % 4 == 0 && (y % 100 != 0 || y % 400 == 0)
  }

  function DaysInMonth(y: int, m: int): (n: int)
    requires 1 <= m <= 12
    ensures 28 <= n <= 31
  {
    if m == 2 then (if IsLeapYear(y) then 29 else 28)
    else if m == 4 || m == 6 || m == 9 || m == 11 then 30
    else 31
  }

  /** The dates `datetime.date` can represent: years 1 to 9999. */
  predicate ValidDate(d: Date) {
    1 <= d.year <= 9999 && 1 <= d.month <= 12 && 1 <= d.day <= DaysInMonth(d.year, d.month)
  }

  type CalendarDate = d: Date | ValidDate(d) witness Date(1, 1, 1)

  /** `date.isoformat()`: `YYYY-MM-DD`, every field zero-padded, each field reading back as the date's own. */
  function IsoFormat(d: CalendarDate): (r: string)
    ensures |r| == 10 && r[4] == '-' && r[7] == '-'
    ensures forall i :: 0 <= i < 10 && i != 4 && i != 7 ==> IsDigit(r[i])
    ensures ParseDigits(r[..4]) == d.year && ParseDigits(r[5..7]) == d.month && ParseDigits(r[8..]) == d.day
  {
    var year, month, day := PadDigits(d.year, 4), PadDigits(d.month, 2), PadDigits(d.day, 2);
    var r := year + "-" + month + "-" + day;
    assert Pow10(2) == 100;
    assert Pow10(4) == 10000 by {
      assert Pow10(3) == 1000;
    }
    assert r[..4] == year && r[5..7] == month && r[8..] == day;
    ParsePadDigits(d.year, 4);
    ParsePadDigits(d.month, 2);
    ParsePadDigits(d.day, 2);
    r
  }

  /** The ISO text of a date names that date and no other. */
  lemma IsoFormatInjective(d1: CalendarDate, d2: CalendarDate)
    ensures IsoFormat(d1) == IsoFormat(d2) <==> d1 == d2
  {
  }
}
