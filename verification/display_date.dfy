/**
 `formatDisplayDate`: the `DD.MM` label shown on each day card and in the
 week heading, built from the local calendar fields of a `Date`.
 */
module DisplayDate {

  import opened Optional
  import opened JsText

  /** The ranges `getDate()` (1 for the first) and `getMonth()` (0 for
      January) return values in. */
  predicate ValidFields(day: int, month: int) {
    1 <= day <= 31 && 0 <= month < 12
  }

  /** Day of the month and one-based month, each zero-padded to two digits,
      joined by `.`. */
  function FormatDisplayDate(day: int, month: int): (r: string)
    requires ValidFields(day, month)
    ensures |r| == 5 && r[2] == '.'
  {
    PadTwo(day) + "." + PadTwo(month + 1)
  }

  /** Reads a `DD.MM` label back as the day of the month and the zero-based
      month it shows; anything else is rejected. */
  function ParseDisplayDate(s: string): Option<(int, int)> {
    if |s| == 5 && s[2] == '.' && IsDigit(s[0]) && IsDigit(s[1]) && IsDigit(s[3]) && IsDigit(s[4])
    then Some((DigitValue(s[0]) * 10 + DigitValue(s[1]), DigitValue(s[3]) * 10 + DigitValue(s[4]) - 1))
    else None
  }

  /** The label is two digits, a dot and two digits, and names exactly the
      day and month it was made from. */
  lemma ParseFormatDisplayDate(day: int, month: int)
    requires ValidFields(day, month)
    ensures ParseDisplayDate(FormatDisplayDate(day, month)) == Some((day, month))
  {
    var dd, mm := PadTwo(day), PadTwo(month + 1);
    var r := FormatDisplayDate(day, month);
    assert r[0] == dd[0] && r[1] == dd[1];
    assert r[3] == mm[0] && r[4] == mm[1];
  }

  /** Two dates get the same label exactly when they share day and month. */
  lemma FormatDisplayDateInjective(d1: int, m1: int, d2: int, m2: int)
    requires ValidFields(d1, m1) && ValidFields(d2, m2)
    ensures FormatDisplayDate(d1, m1) == FormatDisplayDate(d2, m2) <==> d1 == d2 && m1 == m2
  {
    ParseFormatDisplayDate(d1, m1);
    ParseFormatDisplayDate(d2, m2);
  }

}
