/**
 * The decisions `render` makes about what to draw
 * (src/tube-timeline.js): where each track line starts and ends, which
 * items the legend focus dims, where each legend entry sits, whether the
 * "Today" marker is drawn, and which month ticks appear.
 */
module Scene {
  import opened Wrappers
  import opened Dates
  import opened Records
  import opened Sorting
  import opened Preprocess

  /* ---------- track line endpoints ---------- */

  /** First parsed `start`, else first parsed date, else `allDates[0]`; None
      where the source gets `undefined`. */
  function LineStart(t: Track, allDates: seq<Date>): Option<Date> {
    FirstParsedOfKind(t.dates, "start").OrElse(FirstParsed(t.dates))
      .OrElse(if |allDates| > 0 then Some(allDates[0]) else None)
  }

  /** First parsed `end`, else last parsed date, else the last of `allDates`. */
  function LineEnd(t: Track, allDates: seq<Date>): Option<Date> {
    FirstParsedOfKind(t.dates, "end").OrElse(LastParsed(t.dates))
      .OrElse(if |allDates| > 0 then Some(allDates[|allDates| - 1]) else None)
  }

  /** Within the first and last entry of `allDates`. */
  predicate InDomain(a: seq<Date>, d: Date) {
    |a| > 0 && LessEq(a[0], d) && LessEq(d, a[|a| - 1])
  }

  /** The first entry is within the domain whenever there is one. */
  lemma DomainEnds(data: seq<Track>)
    ensures var a := AllDatesOf(data);
      |a| > 0 ==> InDomain(a, a[0]) && InDomain(a, a[|a| - 1])
  {
    var a := AllDatesOf(data);
    AllDatesProperties(data);
    if |a| > 0 {
      SortedBounds(a, a[0]);
      SortedBounds(a, a[|a| - 1]);
    }
  }

  /** No milestone anywhere has a date exactly when `allDates` is empty. */
  lemma EmptyDomainMeansUndated(data: seq<Track>, i: nat)
    requires i < |data| && |AllDatesOf(data)| == 0
    ensures forall j :: 0 <= j < |data[i].dates| ==> data[i].dates[j].parsed.None?
  {
    forall j | 0 <= j < |data[i].dates| ensures data[i].dates[j].parsed.None? {
      if data[i].dates[j].parsed.Some? {
        ParsedWithinAllDates(data, i, j);
      }
    }
  }

  /** After `preprocess` every track line starts within the first and last
      of `allDates`, unless no milestone anywhere has a date; a track without
      dates starts at the first of `allDates`. */
  lemma LineStartWithinDomain(data: seq<Track>, i: nat)
    requires i < |data|
    ensures var a := AllDatesOf(data);
      |a| > 0 ==> LineStart(data[i], a).Some? && InDomain(a, LineStart(data[i], a).value)
    ensures |AllDatesOf(data)| == 0 ==> LineStart(data[i], AllDatesOf(data)).None?
    ensures (forall j :: 0 <= j < |data[i].dates| ==> data[i].dates[j].parsed.None?) ==>
      LineStart(data[i], AllDatesOf(data)) == if |AllDatesOf(data)| > 0 then Some(AllDatesOf(data)[0]) else None
  {
    var t := data[i];
    DomainEnds(data);
    if FirstParsedOfKind(t.dates, "start").Some? {
      var j :| 0 <= j < |t.dates| && t.dates[j].kind == "start" && t.dates[j].parsed == FirstParsedOfKind(t.dates, "start")
        && forall k :: 0 <= k < j ==> !(t.dates[k].kind == "start" && t.dates[k].parsed.Some?);
      ParsedWithinAllDates(data, i, j);
    } else if FirstParsed(t.dates).Some? {
      var j :| 0 <= j < |t.dates| && t.dates[j].parsed == FirstParsed(t.dates)
        && forall k :: 0 <= k < j ==> t.dates[k].parsed.None?;
      ParsedWithinAllDates(data, i, j);
    } else if |AllDatesOf(data)| == 0 {
      EmptyDomainMeansUndated(data, i);
    }
  }

  /** After `preprocess` every track line ends within the first and last of
      `allDates`, unless no milestone anywhere has a date; a track without
      dates ends at the last of `allDates`. */
  lemma LineEndWithinDomain(data: seq<Track>, i: nat)
    requires i < |data|
    ensures var a := AllDatesOf(data);
      |a| > 0 ==> LineEnd(data[i], a).Some? && InDomain(a, LineEnd(data[i], a).value)
    ensures |AllDatesOf(data)| == 0 ==> LineEnd(data[i], AllDatesOf(data)).None?
    ensures (forall j :: 0 <= j < |data[i].dates| ==> data[i].dates[j].parsed.None?) ==>
      var a := AllDatesOf(data);
      LineEnd(data[i], a) == if |a| > 0 then Some(a[|a| - 1]) else None
  {
    var t := data[i];
    DomainEnds(data);
    if FirstParsedOfKind(t.dates, "end").Some? {
      var j :| 0 <= j < |t.dates| && t.dates[j].kind == "end" && t.dates[j].parsed == FirstParsedOfKind(t.dates, "end")
        && forall k :: 0 <= k < j ==> !(t.dates[k].kind == "end" && t.dates[k].parsed.Some?);
      ParsedWithinAllDates(data, i, j);
    } else if LastParsed(t.dates).Some? {
      var j :| 0 <= j < |t.dates| && t.dates[j].parsed == LastParsed(t.dates)
        && forall k :: j < k < |t.dates| ==> t.dates[k].parsed.None?;
      ParsedWithinAllDates(data, i, j);
    } else if |AllDatesOf(data)| == 0 {
      EmptyDomainMeansUndated(data, i);
    }
  }

  /* ---------- legend focus ---------- */

  /** A legend click: clicking the focused track clears the focus, clicking
      any other track focuses it. */
  function Toggle(activeTrack: Option<string>, clicked: string): (r: Option<string>)
    ensures activeTrack == Some(clicked) ==> r == None
    ensures activeTrack != Some(clicked) ==> r == Some(clicked)
  {
    if activeTrack == Some(clicked) then None else Some(clicked)
  }

  /** Two clicks on the same entry leave the focus on nothing, or on that
      entry if it was focused before: they restore the state exactly when
      nothing or that entry was focused. */
  lemma ToggleTwice(activeTrack: Option<string>, clicked: string)
    ensures Toggle(Toggle(activeTrack, clicked), clicked)
         == (if activeTrack == Some(clicked) then Some(clicked) else None)
    ensures Toggle(Toggle(activeTrack, clicked), clicked) == activeTrack
         <==> activeTrack == None || activeTrack == Some(clicked)
  {
  }

  /** Whether `this.activeTrack` is truthy: set, and not the empty name. */
  predicate FocusSet(activeTrack: Option<string>) {
    activeTrack.Some? && activeTrack.value != ""
  }

  /** A milestone group's opacity: 0.2 on a track other than the focused one. */
  function MilestoneOpacity(activeTrack: Option<string>, trackName: string): real {
    if FocusSet(activeTrack) && activeTrack.value != trackName then 0.2 else 1.0
  }

  /** A track line's opacity: set only while a track is focused, to 1 on the
      focused track and 0.2 elsewhere; the default is 1. */
  function LineOpacity(activeTrack: Option<string>, trackName: string): real {
    if FocusSet(activeTrack) then (if trackName == activeTrack.value then 1.0 else 0.2) else 1.0
  }

  /** A legend entry's opacity: 0.4 when dimmed. */
  function LegendOpacity(activeTrack: Option<string>, trackName: string): real {
    var isActive := activeTrack == Some(trackName);
    if FocusSet(activeTrack) && !isActive then 0.4 else 1.0
  }

  /** Without a focus everything is opaque; with one, exactly the other
      tracks fade, their lines and milestones to 0.2 and their legend entries
      to 0.4. */
  lemma FocusOpacity(activeTrack: Option<string>, trackName: string)
    ensures !FocusSet(activeTrack) ==>
      MilestoneOpacity(activeTrack, trackName) == 1.0 && LineOpacity(activeTrack, trackName) == 1.0
      && LegendOpacity(activeTrack, trackName) == 1.0
    ensures FocusSet(activeTrack) && activeTrack.value == trackName ==>
      MilestoneOpacity(activeTrack, trackName) == 1.0 && LineOpacity(activeTrack, trackName) == 1.0
      && LegendOpacity(activeTrack, trackName) == 1.0
    ensures FocusSet(activeTrack) && activeTrack.value != trackName ==>
      MilestoneOpacity(activeTrack, trackName) == 0.2 && LineOpacity(activeTrack, trackName) == 0.2
      && LegendOpacity(activeTrack, trackName) == 0.4
    ensures LineOpacity(activeTrack, trackName) == MilestoneOpacity(activeTrack, trackName)
  {
  }

  /** Clicking a track named "" never dims anything, since "" is falsy. */
  lemma EmptyNameFocusesNothing(activeTrack: Option<string>)
    ensures !FocusSet(Toggle(activeTrack, ""))
  {
  }

  /** After a click on a legend entry the clicked track is fully opaque, and
      another track is dimmed exactly when the click focused the clicked
      track rather than clearing the focus. */
  lemma ClickDims(activeTrack: Option<string>, clicked: string, other: string)
    ensures MilestoneOpacity(Toggle(activeTrack, clicked), clicked) == 1.0
    ensures LegendOpacity(Toggle(activeTrack, clicked), clicked) == 1.0
    ensures other != clicked ==>
      (MilestoneOpacity(Toggle(activeTrack, clicked), other) == 0.2 <==> activeTrack != Some(clicked) && clicked != "")
    ensures other != clicked ==>
      (LegendOpacity(Toggle(activeTrack, clicked), other) == 0.4 <==> activeTrack != Some(clicked) && clicked != "")
  {
  }

  /* ---------- legend grid ---------- */

  /** Two legend columns: entry `i` sits in column `i % 2`, row `i / 2`. */
  function LegendCell(i: nat): (nat, nat) {
    (i % 2, i / 2)
  }

  /** `Math.ceil(n / 2)`. */
  function LegendRows(n: nat): nat {
    (n + 1) / 2
  }

  /** Every entry lies inside the grid, no two entries share a cell, and the
      cell gives back the entry's position. */
  lemma LegendGrid(n: nat, i: nat, j: nat)
    requires i < n && j < n
    ensures LegendCell(i).0 < 2 && LegendCell(i).1 < LegendRows(n)
    ensures 2 * LegendCell(i).1 + LegendCell(i).0 == i
    ensures i != j ==> LegendCell(i) != LegendCell(j)
  {
  }

  /** `LegendRows` is the ceiling of n / 2: the least row count that holds n
      entries two to a row. */
  lemma LegendRowsIsCeiling(n: nat)
    ensures 2 * LegendRows(n) >= n
    ensures n > 0 ==> 2 * (LegendRows(n) - 1) < n
  {
  }

  /* ---------- the "Today" marker ---------- */

  /** The marker is drawn when `showToday` is on, there are dates, and today
      lies between the first and the last of `allDates`, both included. */
  predicate ShowToday(showToday: bool, allDates: seq<Date>, today: Date) {
    showToday && |allDates| > 0 && LessEq(allDates[0], today) && LessEq(today, allDates[|allDates| - 1])
  }

  /** For the ascending `allDates` of `preprocess`, the marker is drawn
      exactly when today is no earlier than some parsed date and no later
      than some parsed date. */
  lemma ShowTodayMeansWithinRange(data: seq<Track>, showToday: bool, today: Date)
    ensures ShowToday(showToday, AllDatesOf(data), today) <==>
      showToday && (exists d :: d in AllDatesOf(data) && LessEq(d, today))
                && (exists d :: d in AllDatesOf(data) && LessEq(today, d))
  {
    var a := AllDatesOf(data);
    AllDatesProperties(data);
    if showToday && (exists d :: d in a && LessEq(d, today)) && (exists d :: d in a && LessEq(today, d)) {
      var lo :| lo in a && LessEq(lo, today);
      var hi :| hi in a && LessEq(today, hi);
      SortedBounds(a, lo);
      SortedBounds(a, hi);
      LessEqTransitive(a[0], lo, today);
      LessEqTransitive(today, hi, a[|a| - 1]);
    }
  }

  /** Parsed dates are at midnight while today carries the time of day, so on
      the day of the last milestone the marker disappears after midnight. */
  lemma TodayHiddenAfterMidnightOfLastDay(showToday: bool, allDates: seq<Date>, today: Date)
    requires |allDates| > 0 && allDates[|allDates| - 1].ms == 0
    requires Midnight(today) == allDates[|allDates| - 1] && today.ms > 0
    ensures !ShowToday(showToday, allDates, today)
  {
  }

  /* ---------- month ticks ---------- */

  /** `d3.timeMonths(ceil(first), offset(ceil(last), 1))`: the month starts
      from the first at or after `allDates[0]` through the first at or after
      the last date; nothing when there are no dates. */
  function MonthTicks(allDates: seq<Date>): seq<Date> {
    if |allDates| == 0 then []
    else
      var lo, hi := CeilMonth(allDates[0]), CeilMonth(allDates[|allDates| - 1]);
      var n := if hi + 1 - lo > 0 then hi + 1 - lo else 0;
      seq(n, i requires 0 <= i < n => FirstOfMonth(lo + i))
  }

  lemma CeilMonthMonotone(a: Date, b: Date)
    requires ValidDate(a) && ValidDate(b) && LessEq(a, b)
    ensures CeilMonth(a) <= CeilMonth(b)
  {
    CeilMonthIsLeastUpperMonth(b, CeilMonth(b));
    LessEqTransitive(a, b, FirstOfMonth(CeilMonth(b)));
    CeilMonthIsLeastUpperMonth(a, CeilMonth(b));
  }

  /** The ticks are consecutive month starts, strictly increasing, the first
      not before the first date, one per month from the first date's month
      start through the last date's. */
  lemma MonthTicksProperties(allDates: seq<Date>)
    requires |allDates| > 0 && ValidDate(allDates[0]) && ValidDate(allDates[|allDates| - 1])
    requires LessEq(allDates[0], allDates[|allDates| - 1])
    ensures var m := MonthTicks(allDates);
      && |m| == CeilMonth(allDates[|allDates| - 1]) - CeilMonth(allDates[0]) + 1
      && (forall i :: 0 <= i < |m| ==> ValidDate(m[i]) && m[i].day == 1 && m[i].ms == 0)
      && (forall i :: 0 <= i < |m| - 1 ==> MonthIndex(m[i + 1]) == MonthIndex(m[i]) + 1)
      && (forall i, j :: 0 <= i < j < |m| ==> Less(m[i], m[j]))
      && LessEq(allDates[0], m[0])
      && LessEq(allDates[|allDates| - 1], m[|m| - 1])
  {
    var a := allDates;
    CeilMonthMonotone(a[0], a[|a| - 1]);
    var m := MonthTicks(a);
    var lo := CeilMonth(a[0]);
    forall i | 0 <= i < |m| ensures ValidDate(m[i]) && m[i].day == 1 && m[i].ms == 0 && MonthIndex(m[i]) == lo + i {
      assert m[i] == FirstOfMonth(lo + i);
    }
    forall i, j | 0 <= i < j < |m| ensures Less(m[i], m[j]) {
      FirstOfMonthMonotone(lo + i, lo + j);
    }
    CeilMonthIsLeastUpperMonth(a[0], lo);
    CeilMonthIsLeastUpperMonth(a[|a| - 1], lo);
  }

  /** A month start: midnight on the first of a month. */
  predicate IsMonthStart(d: Date) {
    0 <= d.month < 12 && d.day == 1 && d.ms == 0
  }

  lemma MonthStartIsFirstOfMonth(d: Date)
    requires IsMonthStart(d)
    ensures FirstOfMonth(MonthIndex(d)) == d
  {
    var k := MonthIndex(d);
    assert k / 12 == d.year && k % 12 == d.month;
  }

  /** Every tick is a month start in the range. */
  lemma MonthTickInRange(allDates: seq<Date>, i: nat)
    requires |allDates| > 0 && ValidDate(allDates[0])
    requires i < |MonthTicks(allDates)|
    ensures var d := MonthTicks(allDates)[i];
      && IsMonthStart(d) && LessEq(allDates[0], d)
      && Less(d, FirstOfMonth(CeilMonth(allDates[|allDates| - 1]) + 1))
  {
    var a := allDates;
    var lo, hi := CeilMonth(a[0]), CeilMonth(a[|a| - 1]);
    var d := MonthTicks(a)[i];
    assert d == FirstOfMonth(lo + i);
    CeilMonthIsLeastUpperMonth(a[0], lo);
    FirstOfMonthMonotone(lo + i, hi + 1);
    if i > 0 {
      FirstOfMonthMonotone(lo, lo + i);
      LessEqTransitive(a[0], FirstOfMonth(lo), d);
    }
  }

  /** Every month start in the range is a tick. */
  lemma MonthStartInRangeIsTick(allDates: seq<Date>, d: Date)
    requires |allDates| > 0 && ValidDate(allDates[0])
    requires IsMonthStart(d) && LessEq(allDates[0], d)
    requires Less(d, FirstOfMonth(CeilMonth(allDates[|allDates| - 1]) + 1))
    ensures d in MonthTicks(allDates)
  {
    var a := allDates;
    var lo, hi := CeilMonth(a[0]), CeilMonth(a[|a| - 1]);
    var k := MonthIndex(d);
    MonthStartIsFirstOfMonth(d);
    CeilMonthIsLeastUpperMonth(a[0], k);
    if k > hi + 1 {
      FirstOfMonthMonotone(hi + 1, k);
    }
    assert k < hi + 1;
    assert MonthTicks(a)[k - lo] == d;
  }

  /** The ticks are exactly the month starts at or after the first date and
      before the month start following the last date's: what
      `d3.timeMonths` returns for that range. */
  lemma MonthTicksAreMonthStartsInRange(allDates: seq<Date>, d: Date)
    requires |allDates| > 0 && ValidDate(allDates[0]) && ValidDate(allDates[|allDates| - 1])
    ensures d in MonthTicks(allDates) <==>
      && IsMonthStart(d) && LessEq(allDates[0], d)
      && Less(d, FirstOfMonth(CeilMonth(allDates[|allDates| - 1]) + 1))
  {
    if d in MonthTicks(allDates) {
      var i :| 0 <= i < |MonthTicks(allDates)| && MonthTicks(allDates)[i] == d;
      MonthTickInRange(allDates, i);
    }
    if IsMonthStart(d) && LessEq(allDates[0], d) && Less(d, FirstOfMonth(CeilMonth(allDates[|allDates| - 1]) + 1)) {
      MonthStartInRangeIsTick(allDates, d);
    }
  }
}
