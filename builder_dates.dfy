/**
 * The editor's date-string conversions (src/builder.js): between the stored
 * `DD/MM/YYYY` / `MM/YYYY` forms and the `YYYY-MM-DD` / `YYYY-MM` values of
 * native date and month inputs, normalisation to `DD/MM/YYYY`, sanitising
 * the data handed to the renderer, and the editor's sort key.
 */
module BuilderDates {
  import opened Wrappers
  import opened Dates
  import opened Text
  import opened DateStrings
  import opened Records
  import DateParser

  /** `dataDateToInputValue`: the value a native input shows for a stored date. */
  function DataDateToInputValue(s: string): string {
    if s == "" then ""
    else if IsFullDateString(s) then
      SplitFullDate(s);
      var p := Split(s, '/');
      p[2] + "-" + p[1] + "-" + p[0]
    else if IsMonthYearString(s) then
      SplitMonthYear(s);
      var p := Split(s, '/');
      p[1] + "-" + p[0]
    else
      var p := Split(s, '/');
      if |p| == 3 then p[2] + "-" + p[1] + "-" + p[0] else ""
  }

  /** `inputValueToDataDate`: the stored date for a native input value.  None
      stands for the TypeError the source raises when `split("-")` yields too
      few parts (`undefined.padStart`). */
  function InputValueToDataDate(value: string, inputType: string): Option<string> {
    if value == "" then Some("")
    else if inputType == "date" then
      var p := Split(value, '-');
      if |p| < 3 then None else Some(PadStart2(p[2]) + "/" + PadStart2(p[1]) + "/" + p[0])
    else if inputType == "month" then
      var p := Split(value, '-');
      if |p| < 2 then None else Some(PadStart2(p[1]) + "/" + p[0])
    else Some(value)
  }

  /** `MM/YYYY` as the first of that month, `01/MM/YYYY`. */
  function MonthYearToFull(s: string): (r: string)
    requires IsMonthYearString(s)
    ensures IsFullDateString(r) && r == "01/" + s[0..2] + "/" + s[3..7]
  {
    SplitMonthYear(s);
    var p := Split(s, '/');
    var r := "01/" + p[0] + "/" + p[1];
    assert r[0..2] == "01" && r[3..5] == s[0..2] && r[6..10] == s[3..7];
    r
  }

  /** `normalizeDateString`. */
  function NormalizeDateString(s: string): (r: string)
    ensures r == "" || IsFullDateString(r)
  {
    if s == "" then ""
    else if IsFullDateString(s) then s
    else if IsMonthYearString(s) then MonthYearToFull(s)
    else ""
  }

  /** A stored `DD/MM/YYYY` date survives a round trip through a date input. */
  lemma FullDateInputRoundTrip(s: string)
    requires IsFullDateString(s)
    ensures IsIsoDateString(DataDateToInputValue(s))
    ensures InputValueToDataDate(DataDateToInputValue(s), "date") == Some(s)
  {
    SplitFullDate(s);
    var v := DataDateToInputValue(s);
    assert v == s[6..10] + "-" + s[3..5] + "-" + s[0..2];
    assert v[0..4] == s[6..10] && v[5..7] == s[3..5] && v[8..10] == s[0..2];
    SplitIsoDate(v);
    assert s == s[0..2] + "/" + s[3..5] + "/" + s[6..10];
  }

  /** A stored `MM/YYYY` date survives a round trip through a month input. */
  lemma MonthYearInputRoundTrip(s: string)
    requires IsMonthYearString(s)
    ensures IsIsoMonthString(DataDateToInputValue(s))
    ensures InputValueToDataDate(DataDateToInputValue(s), "month") == Some(s)
  {
    SplitMonthYear(s);
    var v := DataDateToInputValue(s);
    assert v == s[3..7] + "-" + s[0..2];
    assert v[0..4] == s[3..7] && v[5..7] == s[0..2];
    SplitIsoMonth(v);
    assert s == s[0..2] + "/" + s[3..7];
  }

  lemma PadStart2OfTwo(s: string)
    requires |s| == 2
    ensures PadStart2(s) == s
  {
    assert PadStart2(s)[0..] == PadStart2(s);
  }

  /** A date input's `YYYY-MM-DD` value is stored as `DD/MM/YYYY` and shown
      back unchanged. */
  lemma IsoInputRoundTrip(v: string)
    requires IsIsoDateString(v)
    ensures InputValueToDataDate(v, "date").Some?
    ensures IsFullDateString(InputValueToDataDate(v, "date").value)
    ensures DataDateToInputValue(InputValueToDataDate(v, "date").value) == v
  {
    SplitIsoDate(v);
    PadStart2OfTwo(v[8..10]);
    PadStart2OfTwo(v[5..7]);
    var s := InputValueToDataDate(v, "date").value;
    assert s == v[8..10] + "/" + v[5..7] + "/" + v[0..4];
    assert s[0..2] == v[8..10] && s[3..5] == v[5..7] && s[6..10] == v[0..4];
    SplitFullDate(s);
    assert v == v[0..4] + "-" + v[5..7] + "-" + v[8..10];
  }

  /** A date value with fewer than three `-`-separated parts makes the source throw. */
  lemma DateInputWithoutDayThrows(v: string)
    requires v != "" && |Split(v, '-')| < 3
    ensures InputValueToDataDate(v, "date") == None
  {
  }

  /** Normalisation maps `MM/YYYY` to `01/MM/YYYY`, keeps full dates and
      drops everything else. */
  lemma NormalizeDateStringCases(s: string)
    ensures IsFullDateString(s) ==> NormalizeDateString(s) == s
    ensures IsMonthYearString(s) ==> NormalizeDateString(s) == "01/" + s[0..2] + "/" + s[3..7]
    ensures !IsFullDateString(s) && !IsMonthYearString(s) ==> NormalizeDateString(s) == ""
  {
  }

  lemma {:induction false} NormalizeDateStringIdempotent(s: string)
    ensures NormalizeDateString(NormalizeDateString(s)) == NormalizeDateString(s)
  {
    var n := NormalizeDateString(s);
    if n != "" {
      assert IsFullDateString(n);
    }
  }

  /** One milestone as `getSanitizedData` hands it to the renderer. */
  function SanitizeMilestone(m: Milestone, todayStr: string): Milestone {
    var n := NormalizeDateString(m.date);
    m.(date := if n != "" then n else todayStr)
  }

  function SanitizeTrack(t: Track, todayStr: string): Track {
    t.(dates := seq(|t.dates|, j requires 0 <= j < |t.dates| => SanitizeMilestone(t.dates[j], todayStr)))
  }

  /** `getSanitizedData`: a fresh copy of the editor data whose dates are all
      normalised, with `todayStr` (today as `DD/MM/YYYY`) for an unusable date. */
  function GetSanitizedData(data: seq<Track>, todayStr: string): seq<Track> {
    seq(|data|, i requires 0 <= i < |data| => SanitizeTrack(data[i], todayStr))
  }

  /** Sanitising keeps the shape and every field but `date`; each date becomes
      its normalised form, or today's when it has none. */
  lemma GetSanitizedDataShape(data: seq<Track>, todayStr: string)
    ensures |GetSanitizedData(data, todayStr)| == |data|
    ensures forall i :: 0 <= i < |data| ==>
      var t, u := data[i], GetSanitizedData(data, todayStr)[i];
      && u.track == t.track && u.caption == t.caption && u.color == t.color
      && |u.dates| == |t.dates|
    ensures forall i, j :: 0 <= i < |data| && 0 <= j < |data[i].dates| ==>
      var m, n := data[i].dates[j], GetSanitizedData(data, todayStr)[i].dates[j];
      && n == m.(date := n.date)
      && n.date == (if NormalizeDateString(m.date) != "" then NormalizeDateString(m.date) else todayStr)
  {
  }

  /** With today's date in `DD/MM/YYYY` form, every date handed to the renderer
      is a `DD/MM/YYYY` string. */
  lemma SanitizedDatesAreFull(data: seq<Track>, todayStr: string)
    requires IsFullDateString(todayStr)
    ensures forall i, j :: 0 <= i < |data| && 0 <= j < |data[i].dates| ==>
      IsFullDateString(GetSanitizedData(data, todayStr)[i].dates[j].date)
  {
  }

  /** Sanitising sanitised data changes nothing. */
  lemma SanitizeIdempotent(data: seq<Track>, todayStr: string)
    requires IsFullDateString(todayStr)
    ensures GetSanitizedData(GetSanitizedData(data, todayStr), todayStr) == GetSanitizedData(data, todayStr)
  {
    var once := GetSanitizedData(data, todayStr);
    var twice := GetSanitizedData(once, todayStr);
    forall i | 0 <= i < |data| ensures twice[i] == once[i] {
      forall j | 0 <= j < |once[i].dates| ensures twice[i].dates[j] == once[i].dates[j] {
        assert IsFullDateString(once[i].dates[j].date);
      }
      assert twice[i].dates == once[i].dates;
    }
  }

  /** `parseDateForSort`: the editor's ordering key for a date string; the
      epoch for an empty or unparseable one. */
  function ParseDateForSort(s: string, dateParse: string -> Option<Date>): Date {
    if s == "" then Epoch
    else if IsFullDateString(s) then
      SplitFullDate(s);
      var p := Split(s, '/');
      Date(FullYear(DigitsToNat(p[2])), DigitsToNat(p[1]) - 1, DigitsToNat(p[0]), 0)
    else if IsMonthYearString(s) then
      SplitMonthYear(s);
      var p := Split(s, '/');
      Date(FullYear(DigitsToNat(p[1])), DigitsToNat(p[0]) - 1, 1, 0)
    else dateParse(s).GetOr(Epoch)
  }

  /** The sort key of a `DD/MM/YYYY` string read group by group. */
  lemma FullDateSortKey(s: string, dateParse: string -> Option<Date>)
    requires IsFullDateString(s)
    ensures ParseDateForSort(s, dateParse)
         == Date(FullYear(DigitsToNat(s[6..10])), DigitsToNat(s[3..5]) - 1, DigitsToNat(s[0..2]), 0)
  {
    SplitFullDate(s);
  }

  /** The editor's sort key agrees with the renderer's `parseDate` on the two
      stored forms, so both order milestones the same way. */
  lemma SortKeyAgreesWithRenderer(s: string, dateParse: string -> Option<Date>)
    requires IsFullDateString(s) || IsMonthYearString(s)
    ensures DateParser.ParseDate(s, dateParse) == Some(ParseDateForSort(s, dateParse))
  {
    FormatsAreTrimmed(s);
    if IsFullDateString(s) {
      SplitFullDate(s);
    } else {
      SplitMonthYear(s);
    }
  }

  /** `normalizeDateString(d) || d`: what the editor's comparator parses. */
  function SortInput(d: string): string {
    var n := NormalizeDateString(d);
    if n != "" then n else d
  }

  /** Normalising first does not change the key: `MM/YYYY` and `01/MM/YYYY`
      give the same date. */
  lemma SortInputSameKey(d: string, dateParse: string -> Option<Date>)
    ensures ParseDateForSort(SortInput(d), dateParse) == ParseDateForSort(d, dateParse)
  {
    if IsMonthYearString(d) {
      var f := MonthYearToFull(d);
      assert f[0..2] == "01" && f[3..5] == d[0..2] && f[6..10] == d[3..7];
      SplitFullDate(f);
      SplitMonthYear(d);
      assert DigitsToNat("01") == 1 by {
        assert "01"[..1] == "0" && "0"[..0] == [];
        assert DigitsToNat("0") == 0 by { assert DigitsToNat("0"[..0]) == 0; }
      }
    }
  }

  /** The key the editor sorts a track's milestones by. */
  function MilestoneKey(dateParse: string -> Option<Date>): Milestone -> Date {
    (m: Milestone) => ParseDateForSort(SortInput(m.date), dateParse)
  }
}
