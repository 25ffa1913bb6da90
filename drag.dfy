/**
 * Dragging a track's start or end handle in the renderer
 * (src/tube-timeline.js:387-448).  Each handle keeps one `draggedDate`
 * shared by its `start`, `drag` and `end` handlers; the mouse position,
 * already turned into a date by the time scale, is a parameter.  On `end`
 * the date goes to the editor as a `DD/MM/YYYY` string.
 */
module Drag {
  import opened Wrappers
  import opened Dates
  import opened Text
  import opened DateStrings
  import opened DateParser
  import opened BuilderDates

  /** Only `start` and `end` milestones get a handle. */
  predicate HasHandle(kind: string) {
    kind == "start" || kind == "end"
  }

  /** A handle can be dragged only when an `onMilestoneDrag` callback was
      given. */
  predicate Draggable(kind: string, hasDragCallback: bool) {
    HasHandle(kind) && hasDragCallback
  }

  /** The `drag` handler's clamp: below the domain becomes its start, then
      above the domain becomes its end. */
  function Clamp(p: Date, lo: Date, hi: Date): Date {
    var q := if Less(p, lo) then lo else p;
    if Less(hi, q) then hi else q
  }

  /** For an ordered domain the clamped date lies inside it, a date inside is
      kept, and one outside goes to the nearer end. */
  lemma ClampProperties(p: Date, lo: Date, hi: Date)
    requires LessEq(lo, hi)
    ensures LessEq(lo, Clamp(p, lo, hi)) && LessEq(Clamp(p, lo, hi), hi)
    ensures LessEq(lo, p) && LessEq(p, hi) ==> Clamp(p, lo, hi) == p
    ensures Less(p, lo) ==> Clamp(p, lo, hi) == lo
    ensures Less(hi, p) ==> Clamp(p, lo, hi) == hi
  {
    LessEqTotal(p, lo);
    LessEqTotal(p, hi);
  }

  /** Clamping twice is clamping once. */
  lemma ClampIdempotent(p: Date, lo: Date, hi: Date)
    requires LessEq(lo, hi)
    ensures Clamp(Clamp(p, lo, hi), lo, hi) == Clamp(p, lo, hi)
  {
    ClampProperties(p, lo, hi);
    ClampProperties(Clamp(p, lo, hi), lo, hi);
  }

  /** `fmtDate`: day and 1-based month padded to two digits, the year as
      `String` prints it. */
  function FmtDate(d: Date): string {
    PadStart2(IntToString(d.day)) + "/" + PadStart2(IntToString(d.month + 1)) + "/" + IntToString(d.year)
  }

  /** The three fields of `fmtDate`'s output read back as the date's day,
      1-based month and year. */
  lemma FmtDateFields(d: Date)
    requires ValidDate(d) && 1000 <= d.year <= 9999
    ensures var s := FmtDate(d);
      && IsFullDateString(s)
      && DigitsToNat(s[0..2]) == d.day && DigitsToNat(s[3..5]) == d.month + 1
      && DigitsToNat(s[6..10]) == d.year
  {
    TwoDigitsOfNat(d.day);
    TwoDigitsOfNat(d.month + 1);
    FourDigitsOfNat(d.year);
    JoinFullDate(PadStart2(IntToString(d.day)), PadStart2(IntToString(d.month + 1)), IntToString(d.year));
  }

  /** A valid date of a four-digit year formats as `DD/MM/YYYY`, and both the
      renderer's `parseDate` and the editor's sort key read back its calendar
      day: the time of day is dropped. */
  lemma FmtDateReadsBack(d: Date, dateParse: string -> Option<Date>)
    requires ValidDate(d) && 1000 <= d.year <= 9999
    ensures IsFullDateString(FmtDate(d))
    ensures ParseDate(FmtDate(d), dateParse) == Some(Midnight(d))
    ensures ParseDateForSort(FmtDate(d), dateParse) == Midnight(d)
  {
    var s := FmtDate(d);
    FmtDateFields(d);
    FormatsAreTrimmed(s);
    SortKeyAgreesWithRenderer(s, dateParse);
  }

  /** `fmtDate` prints the date read group by group from a `DD/MM/YYYY`
      string back as that string. */
  lemma {:induction false} FmtDateOfGroups(s: string)
    requires IsFullDateString(s) && s[6] != '0'
    ensures FmtDate(FullDateValue(s)) == s
  {
    GroupsPrintBack(s);
    FmtDateOfFields(FullDateValue(s), s);
  }

  lemma GroupsPrintBack(s: string)
    requires IsFullDateString(s) && s[6] != '0'
    ensures PadStart2(IntToString(DigitsToNat(s[0..2]))) == s[0..2]
    ensures PadStart2(IntToString(DigitsToNat(s[3..5]))) == s[3..5]
    ensures DigitsToNat(s[6..10]) >= 1000 && FullYear(DigitsToNat(s[6..10])) == DigitsToNat(s[6..10])
    ensures IntToString(FullYear(DigitsToNat(s[6..10]))) == s[6..10]
  {
    FourDigitYearGroup(s[6..10]);
    TwoDigitsRoundTrip(s[0..2]);
    TwoDigitsRoundTrip(s[3..5]);
  }

  lemma FourDigitYearGroup(g: string)
    requires |g| == 4 && AllDigits(g) && g[0] != '0'
    ensures DigitsToNat(g) >= 1000 && FullYear(DigitsToNat(g)) == DigitsToNat(g) && IntToString(DigitsToNat(g)) == g
  {
    NatToStringOfDigits(g);
    DigitsToNatLowerBound(g);
    assert Pow10(3) == 1000;
  }

  lemma FmtDateOfFields(d: Date, s: string)
    requires IsFullDateString(s)
    requires PadStart2(IntToString(d.day)) == s[0..2] && PadStart2(IntToString(d.month + 1)) == s[3..5]
    requires IntToString(d.year) == s[6..10]
    ensures FmtDate(d) == s
  {
    JoinFullDate(PadStart2(IntToString(d.day)), PadStart2(IntToString(d.month + 1)), IntToString(d.year));
    FullDateGroupsDetermine(FmtDate(d), s);
  }

  /** A `DD/MM/YYYY` string whose year has four significant digits is what
      `fmtDate` prints for its parsed date. */
  lemma FullDateFormatsBack(s: string, dateParse: string -> Option<Date>)
    requires IsFullDateString(s) && s[6] != '0'
    ensures ParseDate(s, dateParse) == Some(ParseDateForSort(s, dateParse))
    ensures FmtDate(ParseDateForSort(s, dateParse)) == s
  {
    SortKeyAgreesWithRenderer(s, dateParse);
    FullDateSortKey(s, dateParse);
    FmtDateOfGroups(s);
  }

  /** The editor receives the calendar day of the clamped date; when the
      domain's ends are midnights, that day is still inside the domain. */
  lemma DroppedDayStaysInDomain(c: Date, lo: Date, hi: Date)
    requires lo.ms == 0 && 0 <= c.ms
    requires LessEq(lo, c) && LessEq(c, hi)
    ensures LessEq(lo, Midnight(c)) && LessEq(Midnight(c), hi)
  {
    assert LessEq(Midnight(c), c);
    LessEqTransitive(Midnight(c), c, hi);
  }

  /** One handle's drag state: the closure variable `draggedDate` and the
      time scale's domain `[lo, hi]`. */
  class DragSession {
    var draggedDate: Option<Date>
    const lo: Date
    const hi: Date

    /** The handle is set up with `draggedDate = null`. */
    constructor (lo: Date, hi: Date)
      ensures this.lo == lo && this.hi == hi && draggedDate == None
    {
      this.lo := lo;
      this.hi := hi;
      draggedDate := None;
    }

    /** `start`: forget any date left from an earlier drag. */
    method Start()
      modifies this
      ensures draggedDate == None
    {
      draggedDate := None;
    }

    /** `drag`: remember the mouse position's date, clamped into the domain. */
    method Drag(p: Date)
      modifies this
      ensures draggedDate == Some(Clamp(p, lo, hi))
      ensures LessEq(lo, hi) ==> LessEq(lo, draggedDate.value) && LessEq(draggedDate.value, hi)
    {
      draggedDate := Some(Clamp(p, lo, hi));
      if LessEq(lo, hi) {
        ClampProperties(p, lo, hi);
      }
    }

    /** `end`: the string handed to `onMilestoneDrag`, or None when the
        mouse did not move since `start`; `draggedDate` is not reset. */
    method End() returns (newDateStr: Option<string>)
      ensures draggedDate.None? <==> newDateStr.None?
      ensures draggedDate.Some? ==> newDateStr == Some(FmtDate(draggedDate.value))
      ensures draggedDate.Some? && ValidDate(draggedDate.value) && 1000 <= draggedDate.value.year <= 9999 ==>
        IsFullDateString(newDateStr.value)
    {
      if draggedDate.Some? {
        newDateStr := Some(FmtDate(draggedDate.value));
        if ValidDate(draggedDate.value) && 1000 <= draggedDate.value.year <= 9999 {
          FmtDateReadsBack(draggedDate.value, _ => None);
        }
      } else {
        newDateStr := None;
      }
    }
  }

  /** A press and release without movement commits nothing, even after an
      earlier drag of the same handle. */
  method PressWithoutMove(session: DragSession) returns (newDateStr: Option<string>)
    modifies session
    ensures newDateStr == None
    ensures session.draggedDate == None
  {
    session.Start();
    newDateStr := session.End();
  }

  /** A drag to `p` and a release commit the calendar day of `p` clamped into
      the domain. */
  method DragAndRelease(session: DragSession, p: Date) returns (newDateStr: Option<string>)
    modifies session
    ensures newDateStr == Some(FmtDate(Clamp(p, session.lo, session.hi)))
  {
    session.Start();
    session.Drag(p);
    newDateStr := session.End();
  }
}
