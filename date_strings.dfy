/**
 * The three date spellings both source files recognise with regular
 * expressions (`\d` is an ASCII digit, `^`/`$` anchor the whole string):
 * `DD/MM/YYYY`, `MM/YYYY` and the ISO form `YYYY-MM-DD`.
 */
module DateStrings {
  import opened Text

  /** `/^\d{2}\/\d{2}\/\d{4}$/` */
  predicate IsFullDateString(s: string) {
    && |s| == 10
    && AllDigits(s[0..2]) && s[2] == '/'
    && AllDigits(s[3..5]) && s[5] == '/'
    && AllDigits(s[6..10])
  }

  /** `/^\d{2}\/\d{4}$/` */
  predicate IsMonthYearString(s: string) {
    && |s| == 7
    && AllDigits(s[0..2]) && s[2] == '/'
    && AllDigits(s[3..7])
  }

  /** `/^(\d{4})-(\d{2})-(\d{2})$/` */
  predicate IsIsoDateString(s: string) {
    && |s| == 10
    && AllDigits(s[0..4]) && s[4] == '-'
    && AllDigits(s[5..7]) && s[7] == '-'
    && AllDigits(s[8..10])
  }

  /** `/^(\d{4})-(\d{2})$/`, the value of a month input. */
  predicate IsIsoMonthString(s: string) {
    && |s| == 7
    && AllDigits(s[0..4]) && s[4] == '-'
    && AllDigits(s[5..7])
  }

  lemma FormatsDisjoint(s: string)
    ensures !(IsFullDateString(s) && IsMonthYearString(s))
    ensures !(IsFullDateString(s) && IsIsoDateString(s))
    ensures !(IsMonthYearString(s) && IsIsoDateString(s))
  {
  }

  /** None of the recognised forms starts or ends with white space. */
  lemma FormatsAreTrimmed(s: string)
    requires IsFullDateString(s) || IsMonthYearString(s) || IsIsoDateString(s)
    ensures Trim(s) == s
  {
    if IsFullDateString(s) || IsMonthYearString(s) {
      assert IsDigit(s[0..2][0]);
    } else {
      assert IsDigit(s[0..4][0]);
    }
    if IsFullDateString(s) {
      assert IsDigit(s[6..10][3]);
    } else if IsIsoDateString(s) {
      assert IsDigit(s[8..10][1]);
    } else {
      assert IsDigit(s[3..7][3]);
    }
    TrimNoWhitespaceEnds(s);
  }

  lemma NoSeparatorInDigits(s: string, sep: char)
    requires AllDigits(s) && !IsDigit(sep)
    ensures forall k :: 0 <= k < |s| ==> s[k] != sep
  {
  }

  /** Two, two and four digits joined by slashes form a `DD/MM/YYYY` string
      whose groups are the three parts. */
  lemma JoinFullDate(dd: string, mm: string, yyyy: string)
    requires |dd| == 2 && |mm| == 2 && |yyyy| == 4
    requires AllDigits(dd) && AllDigits(mm) && AllDigits(yyyy)
    ensures var s := dd + "/" + mm + "/" + yyyy;
      IsFullDateString(s) && s[0..2] == dd && s[3..5] == mm && s[6..10] == yyyy
  {
    var s := dd + "/" + mm + "/" + yyyy;
    assert s[0..2] == dd && s[3..5] == mm && s[6..10] == yyyy;
  }

  /** Four, two and two digits joined by dashes form an ISO `YYYY-MM-DD`
      string whose groups are the three parts. */
  lemma JoinIsoDate(yyyy: string, mm: string, dd: string)
    requires |yyyy| == 4 && |mm| == 2 && |dd| == 2
    requires AllDigits(yyyy) && AllDigits(mm) && AllDigits(dd)
    ensures var s := yyyy + "-" + mm + "-" + dd;
      IsIsoDateString(s) && s[0..4] == yyyy && s[5..7] == mm && s[8..10] == dd
  {
    var s := yyyy + "-" + mm + "-" + dd;
    assert s[0..4] == yyyy && s[5..7] == mm && s[8..10] == dd;
  }

  /** A `DD/MM/YYYY` string is its three groups joined by slashes. */
  lemma FullDateJoin(s: string)
    requires IsFullDateString(s)
    ensures s == s[0..2] + "/" + s[3..5] + "/" + s[6..10]
  {
  }

  /** A `DD/MM/YYYY` string is determined by its three groups. */
  lemma FullDateGroupsDetermine(s: string, t: string)
    requires IsFullDateString(s) && IsFullDateString(t)
    requires s[0..2] == t[0..2] && s[3..5] == t[3..5] && s[6..10] == t[6..10]
    ensures s == t
  {
    FullDateJoin(s);
    FullDateJoin(t);
  }

  /** `split("/")` of `DD/MM/YYYY` gives its three digit groups. */
  lemma SplitFullDate(s: string)
    requires IsFullDateString(s)
    ensures Split(s, '/') == [s[0..2], s[3..5], s[6..10]]
  {
    NoSeparatorInDigits(s[0..2], '/');
    NoSeparatorInDigits(s[3..5], '/');
    NoSeparatorInDigits(s[6..10], '/');
    assert s == s[0..2] + ['/'] + (s[3..5] + ['/'] + s[6..10]);
    SplitFirst(s[0..2], '/', s[3..5] + ['/'] + s[6..10]);
    SplitFirst(s[3..5], '/', s[6..10]);
    SplitNoSeparator(s[6..10], '/');
  }

  /** `split("/")` of `MM/YYYY` gives its two digit groups. */
  lemma SplitMonthYear(s: string)
    requires IsMonthYearString(s)
    ensures Split(s, '/') == [s[0..2], s[3..7]]
  {
    NoSeparatorInDigits(s[0..2], '/');
    NoSeparatorInDigits(s[3..7], '/');
    assert s == s[0..2] + ['/'] + s[3..7];
    SplitFirst(s[0..2], '/', s[3..7]);
    SplitNoSeparator(s[3..7], '/');
  }

  /** `split("-")` of `YYYY-MM-DD` gives its three digit groups. */
  lemma SplitIsoDate(s: string)
    requires IsIsoDateString(s)
    ensures Split(s, '-') == [s[0..4], s[5..7], s[8..10]]
  {
    NoSeparatorInDigits(s[0..4], '-');
    NoSeparatorInDigits(s[5..7], '-');
    NoSeparatorInDigits(s[8..10], '-');
    assert s == s[0..4] + ['-'] + (s[5..7] + ['-'] + s[8..10]);
    SplitFirst(s[0..4], '-', s[5..7] + ['-'] + s[8..10]);
    SplitFirst(s[5..7], '-', s[8..10]);
    SplitNoSeparator(s[8..10], '-');
  }

  /** `split("-")` of `YYYY-MM` gives its two digit groups. */
  lemma SplitIsoMonth(s: string)
    requires IsIsoMonthString(s)
    ensures Split(s, '-') == [s[0..4], s[5..7]]
  {
    NoSeparatorInDigits(s[0..4], '-');
    NoSeparatorInDigits(s[5..7], '-');
    assert s == s[0..4] + ['-'] + s[5..7];
    SplitFirst(s[0..4], '-', s[5..7]);
    SplitNoSeparator(s[5..7], '-');
  }
}
