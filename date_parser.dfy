/**
 * The renderer's `parseDate`: the trimmed input is matched against
 * `DD/MM/YYYY`, then `MM/YYYY` (the first of that month), then ISO
 * `YYYY-MM-DD`, in that order; anything else goes to `Date.parse`, which is
 * the parameter `dateParse` (None stands for NaN).  Empty input gives null.
 */
module DateParser {
  import opened Wrappers
  import opened Dates
  import opened Text
  import opened DateStrings

  function ParseDate(s: string, dateParse: string -> Option<Date>): (r: Option<Date>)
    ensures s == "" ==> r == None
  {
    if s == "" then None
    else
      var t := Trim(s);
      if IsFullDateString(t) then
        Some(FullDateValue(t))
      else if IsMonthYearString(t) then
        Some(MonthYearValue(t))
      else if IsIsoDateString(t) then
        Some(IsoDateValue(t))
      else
        dateParse(s)
  }

  /** `new Date(YYYY, MM - 1, DD)` on the groups of `DD/MM/YYYY`. */
  function FullDateValue(t: string): (d: Date)
    requires IsFullDateString(t)
    ensures d.ms == 0
  {
    Date(FullYear(DigitsToNat(t[6..10])), DigitsToNat(t[3..5]) - 1, DigitsToNat(t[0..2]), 0)
  }

  /** `new Date(YYYY, MM - 1, 1)` on the groups of `MM/YYYY`. */
  function MonthYearValue(t: string): (d: Date)
    requires IsMonthYearString(t)
    ensures d.ms == 0 && d.day == 1
  {
    Date(FullYear(DigitsToNat(t[3..7])), DigitsToNat(t[0..2]) - 1, 1, 0)
  }

  /** `new Date(YYYY, MM - 1, DD)` on the groups of `YYYY-MM-DD`. */
  function IsoDateValue(t: string): (d: Date)
    requires IsIsoDateString(t)
    ensures d.ms == 0
  {
    Date(FullYear(DigitsToNat(t[0..4])), DigitsToNat(t[5..7]) - 1, DigitsToNat(t[8..10]), 0)
  }

  /** Each recognised form gives a date at midnight. */
  lemma ParseDateRecognised(s: string, dateParse: string -> Option<Date>)
    requires IsFullDateString(Trim(s)) || IsMonthYearString(Trim(s)) || IsIsoDateString(Trim(s))
    ensures ParseDate(s, dateParse).Some? && ParseDate(s, dateParse).value.ms == 0
  {
    if s == "" {
      TrimEmpty();
      assert false;
    }
  }

  /** Surrounding white space makes no difference to a recognised form. */
  lemma ParseDateIgnoresSurroundingSpace(s: string, dateParse: string -> Option<Date>)
    requires IsFullDateString(Trim(s)) || IsMonthYearString(Trim(s)) || IsIsoDateString(Trim(s))
    ensures ParseDate(s, dateParse) == ParseDate(Trim(s), dateParse)
  {
    FormatsAreTrimmed(Trim(s));
  }

  /** `MM/YYYY` is read as the first day of that month. */
  lemma ParseMonthYearIsFirstOfMonth(s: string, dateParse: string -> Option<Date>)
    requires IsMonthYearString(s)
    ensures ParseDate(s, dateParse)
         == Some(Date(FullYear(DigitsToNat(s[3..7])), DigitsToNat(s[0..2]) - 1, 1, 0))
  {
    FormatsAreTrimmed(s);
  }

  /** `DD/MM/YYYY` is read as `new Date(YYYY, MM - 1, DD)`. */
  lemma ParseFullDateGroups(s: string, dateParse: string -> Option<Date>)
    requires IsFullDateString(s)
    ensures ParseDate(s, dateParse)
         == Some(Date(FullYear(DigitsToNat(s[6..10])), DigitsToNat(s[3..5]) - 1, DigitsToNat(s[0..2]), 0))
  {
    FormatsAreTrimmed(s);
  }

  /** ISO `YYYY-MM-DD` is read as `new Date(YYYY, MM - 1, DD)`. */
  lemma ParseIsoDateGroups(s: string, dateParse: string -> Option<Date>)
    requires IsIsoDateString(s)
    ensures ParseDate(s, dateParse)
         == Some(Date(FullYear(DigitsToNat(s[0..4])), DigitsToNat(s[5..7]) - 1, DigitsToNat(s[8..10]), 0))
  {
    FormatsAreTrimmed(s);
    FormatsDisjoint(s);
  }

  /** Day `d`, month `m` and a four-digit year `y` written as `DD/MM/YYYY`
      parse to midnight on day `d` of the 0-based month `m - 1` of `y`. */
  lemma ParseFullDateOfFields(y: nat, m: nat, d: nat, dateParse: string -> Option<Date>)
    requires 1000 <= y <= 9999 && m < 100 && d < 100
    ensures ParseDate(PadStart2(IntToString(d)) + "/" + PadStart2(IntToString(m)) + "/" + IntToString(y), dateParse)
         == Some(Date(y, m - 1, d, 0))
  {
    var dd, mm, yyyy := PadStart2(IntToString(d)), PadStart2(IntToString(m)), IntToString(y);
    TwoDigitsOfNat(d);
    TwoDigitsOfNat(m);
    FourDigitsOfNat(y);
    JoinFullDate(dd, mm, yyyy);
    var s := dd + "/" + mm + "/" + yyyy;
    FullDateOfValues(s, y, m, d, dateParse);
  }

  lemma FullDateOfValues(s: string, y: nat, m: nat, d: nat, dateParse: string -> Option<Date>)
    requires IsFullDateString(s) && y >= 100
    requires DigitsToNat(s[6..10]) == y && DigitsToNat(s[3..5]) == m && DigitsToNat(s[0..2]) == d
    ensures ParseDate(s, dateParse) == Some(Date(y, m - 1, d, 0))
  {
    FullDateValueOf(s, FullYear(y), m, d);
    ParsesToFullDateValue(s, dateParse);
  }

  lemma ParsesToFullDateValue(s: string, dateParse: string -> Option<Date>)
    requires IsFullDateString(s)
    ensures ParseDate(s, dateParse) == Some(FullDateValue(s))
  {
    FormatsAreTrimmed(s);
  }

  lemma FullDateValueOf(s: string, y: int, m: nat, d: nat)
    requires IsFullDateString(s)
    requires FullYear(DigitsToNat(s[6..10])) == y && DigitsToNat(s[3..5]) == m && DigitsToNat(s[0..2]) == d
    ensures FullDateValue(s) == Date(y, m - 1, d, 0)
  {
  }

  /** A four-digit year `y`, month `m` and day `d` written as ISO `YYYY-MM-DD`
      parse to midnight on day `d` of the 0-based month `m - 1` of `y`. */
  lemma ParseIsoDateOfFields(y: nat, m: nat, d: nat, dateParse: string -> Option<Date>)
    requires 1000 <= y <= 9999 && m < 100 && d < 100
    ensures ParseDate(IntToString(y) + "-" + PadStart2(IntToString(m)) + "-" + PadStart2(IntToString(d)), dateParse)
         == Some(Date(y, m - 1, d, 0))
  {
    var yyyy, mm, dd := IntToString(y), PadStart2(IntToString(m)), PadStart2(IntToString(d));
    TwoDigitsOfNat(d);
    TwoDigitsOfNat(m);
    FourDigitsOfNat(y);
    JoinIsoDate(yyyy, mm, dd);
    var s := yyyy + "-" + mm + "-" + dd;
    IsoDateOfValues(s, y, m, d, dateParse);
  }

  lemma IsoDateOfValues(s: string, y: nat, m: nat, d: nat, dateParse: string -> Option<Date>)
    requires IsIsoDateString(s) && y >= 100
    requires DigitsToNat(s[0..4]) == y && DigitsToNat(s[5..7]) == m && DigitsToNat(s[8..10]) == d
    ensures ParseDate(s, dateParse) == Some(Date(y, m - 1, d, 0))
  {
    IsoDateValueOf(s, FullYear(y), m, d);
    ParsesToIsoDateValue(s, dateParse);
  }

  lemma ParsesToIsoDateValue(s: string, dateParse: string -> Option<Date>)
    requires IsIsoDateString(s)
    ensures ParseDate(s, dateParse) == Some(IsoDateValue(s))
  {
    FormatsAreTrimmed(s);
    FormatsDisjoint(s);
  }

  lemma IsoDateValueOf(s: string, y: int, m: nat, d: nat)
    requires IsIsoDateString(s)
    requires FullYear(DigitsToNat(s[0..4])) == y && DigitsToNat(s[5..7]) == m && DigitsToNat(s[8..10]) == d
    ensures IsoDateValue(s) == Date(y, m - 1, d, 0)
  {
  }

  /** A year written `00YY` is JavaScript's two-digit year: `DD/MM/00YY`
      parses to a day of the year 19YY. */
  lemma ParseTwoDigitYear(y: nat, m: nat, d: nat, dateParse: string -> Option<Date>)
    requires y < 100 && m < 100 && d < 100
    ensures ParseDate(PadStart2(IntToString(d)) + "/" + PadStart2(IntToString(m)) + "/"
                      + ("00" + PadStart2(IntToString(y))), dateParse)
         == Some(Date(1900 + y, m - 1, d, 0))
  {
    var dd, mm, yy := PadStart2(IntToString(d)), PadStart2(IntToString(m)), PadStart2(IntToString(y));
    TwoDigitsOfNat(d);
    TwoDigitsOfNat(m);
    TwoDigitsOfNat(y);
    TwoLeadingZerosDigits(yy);
    JoinFullDate(dd, mm, "00" + yy);
    var s := dd + "/" + mm + "/" + ("00" + yy);
    TwoDigitYearOfValues(s, y, m, d, dateParse);
  }

  lemma TwoDigitYearOfValues(s: string, y: nat, m: nat, d: nat, dateParse: string -> Option<Date>)
    requires IsFullDateString(s) && y < 100
    requires DigitsToNat(s[6..10]) == y && DigitsToNat(s[3..5]) == m && DigitsToNat(s[0..2]) == d
    ensures ParseDate(s, dateParse) == Some(Date(1900 + y, m - 1, d, 0))
  {
    FullDateValueOf(s, FullYear(y), m, d);
    ParsesToFullDateValue(s, dateParse);
  }

  /** The recognised forms are tried in order and never reach `Date.parse`:
      the result does not depend on the fallback. */
  lemma ParseDateRecognisedIgnoresFallback(s: string, p1: string -> Option<Date>, p2: string -> Option<Date>)
    requires IsFullDateString(Trim(s)) || IsMonthYearString(Trim(s)) || IsIsoDateString(Trim(s))
    ensures ParseDate(s, p1) == ParseDate(s, p2)
  {
  }
}
