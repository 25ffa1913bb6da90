/**
 * The renderer object of src/tube-timeline.js.  It owns a copy of the
 * track list, the legend focus `activeTrack`, and the `allDates` and
 * `trackNames` that `preprocess` recomputes on every `render`.  Drawing is
 * not modelled; `Render` returns the decisions a frame is drawn from.
 */
module Timeline {
  import opened Wrappers
  import opened Dates
  import opened Text
  import opened DateStrings
  import opened Records
  import opened Sorting
  import opened DateParser
  import opened BuilderDates
  import opened Preprocess
  import opened Layout
  import opened Labels
  import opened Scene
  import Drag

  /** `options.showToday !== false`: on unless explicitly switched off. */
  function ShowTodayOption(given: Option<bool>): (on: bool)
    ensures on <==> given != Some(false)
  {
    given != Some(false)
  }

  /** The marker under the `showToday` option: never when the option is
      `false`; otherwise, when given or missing, exactly when today lies
      between some parsed date and some parsed date. */
  lemma ShowTodayOptionMarker(given: Option<bool>, data: seq<Track>, today: Date)
    ensures ShowToday(ShowTodayOption(given), AllDatesOf(data), today) <==>
      given != Some(false)
        && (exists d :: d in AllDatesOf(data) && LessEq(d, today))
        && (exists d :: d in AllDatesOf(data) && LessEq(today, d))
  {
    ShowTodayMeansWithinRange(data, ShowTodayOption(given), today);
  }

  /** Track lists that `preprocess` leaves as they are. */
  predicate IsPreprocessed(data: seq<Track>, dateParse: string -> Option<Date>) {
    PreprocessedData(data, dateParse) == data
  }

  lemma {:induction false} ParsedDatesSnoc(s: seq<Milestone>, m: Milestone)
    ensures ParsedDates(s + [m]) == ParsedDates(s) + (if m.parsed.Some? then [m.parsed.value] else [])
  {
    if s != [] {
      assert (s + [m])[1..] == s[1..] + [m];
      ParsedDatesSnoc(s[1..], m);
    }
  }

  lemma {:induction false} CollectParsedSnoc(data: seq<Track>, t: Track)
    ensures CollectParsed(data + [t]) == CollectParsed(data) + ParsedDates(t.dates)
  {
    if data == [] {
      assert CollectParsed([t]) == ParsedDates(t.dates) + CollectParsed([]);
    } else {
      assert (data + [t])[1..] == data[1..] + [t];
      CollectParsedSnoc(data[1..], t);
    }
  }

  /** The `flatMap` of `preprocess`: every non-null parsed date, track by
      track and milestone by milestone. */
  method CollectDates(data: seq<Track>) returns (dates: seq<Date>)
    ensures dates == CollectParsed(data)
  {
    dates := [];
    var i := 0;
    while i < |data|
      invariant 0 <= i <= |data|
      invariant dates == CollectParsed(data[..i])
    {
      var s := data[i].dates;
      var j := 0;
      while j < |s|
        invariant 0 <= j <= |s|
        invariant dates == CollectParsed(data[..i]) + ParsedDates(s[..j])
      {
        ParsedDatesSnoc(s[..j], s[j]);
        assert s[..j + 1] == s[..j] + [s[j]];
        if s[j].parsed.Some? {
          dates := dates + [s[j].parsed.value];
        }
        j := j + 1;
      }
      assert s[..j] == s;
      CollectParsedSnoc(data[..i], data[i]);
      assert data[..i + 1] == data[..i] + [data[i]];
      i := i + 1;
    }
    assert data[..i] == data;
  }

  /** A `forEach` that sets a field of every entry: `f` applied to each
      entry, in order. */
  method ApplyEach<T>(s: seq<T>, f: T -> T) returns (r: seq<T>)
    ensures r == Map(s, f)
  {
    r := [];
    for j := 0 to |s|
      invariant |r| == j
      invariant forall k :: 0 <= k < j ==> r[k] == f(s[k])
    {
      r := r + [f(s[j])];
    }
  }

  /** The first loop of `preprocess` over one track: `d.parsed = parseDate(d.date)`. */
  method ParseMilestones(t: Track, dateParse: string -> Option<Date>) returns (u: Track)
    ensures u == ParseTrack(t, dateParse)
  {
    var dates := ApplyEach(t.dates, (m: Milestone) => WithParsed(m, dateParse));
    u := t.(dates := dates);
    assert u.dates == ParseTrack(t, dateParse).dates;
  }

  /** The first loop of `preprocess`, over every track. */
  method ParseTracks(data: seq<Track>, dateParse: string -> Option<Date>) returns (parsed: seq<Track>)
    ensures parsed == ParseAll(data, dateParse)
  {
    parsed := data;
    var i := 0;
    while i < |parsed|
      invariant 0 <= i <= |parsed| == |data|
      invariant forall k :: 0 <= k < i ==> parsed[k] == ParseTrack(data[k], dateParse)
      invariant forall k :: i <= k < |parsed| ==> parsed[k] == data[k]
    {
      var t := ParseMilestones(parsed[i], dateParse);
      parsed := parsed[i := t];
      i := i + 1;
    }
  }

  /** A line of the drawing: its track, its two ends and its opacity. */
  datatype Line = Line(track: string, start: Option<Date>, end: Option<Date>, opacity: real)

  /** A legend entry: its track, its cell and its opacity. */
  datatype LegendEntry = LegendEntry(track: string, col: nat, row: nat, opacity: real)

  /** What one `render` decides. */
  datatype Frame = Frame(
    horizontal: bool,
    scale: real,
    margins: Margins,
    lines: seq<Line>,
    legend: seq<LegendEntry>,
    months: seq<Date>,
    todayShown: bool,
    handles: seq<Handle>)

  /** A handle drawn on a milestone: its track and milestone indices, and
      whether a drag behaviour is attached to it. */
  datatype Handle = Handle(track: nat, milestone: nat, draggable: bool)

  /** The handles on one track's drawn milestones, in milestone order: one on
      each parsed `start` or `end`, draggable when a drag callback was given. */
  function TrackHandles(i: nat, ds: seq<Milestone>, hasDragCallback: bool): seq<Handle> {
    if ds == [] then []
    else
      var m := ds[|ds| - 1];
      TrackHandles(i, ds[..|ds| - 1], hasDragCallback)
        + (if m.parsed.Some? && Drag.HasHandle(m.kind)
           then [Handle(i, |ds| - 1, Drag.Draggable(m.kind, hasDragCallback))] else [])
  }

  /** The handles of a frame, track by track. */
  function FrameHandles(data: seq<Track>, hasDragCallback: bool): seq<Handle> {
    if data == [] then []
    else FrameHandles(data[..|data| - 1], hasDragCallback)
         + TrackHandles(|data| - 1, data[|data| - 1].dates, hasDragCallback)
  }

  /** What a handle of a frame is: a parsed `start` or `end` milestone,
      draggable exactly when a drag callback was given. */
  predicate IsHandleOf(data: seq<Track>, hasDragCallback: bool, h: Handle) {
    && h.track < |data| && h.milestone < |data[h.track].dates|
    && data[h.track].dates[h.milestone].parsed.Some?
    && Drag.HasHandle(data[h.track].dates[h.milestone].kind)
    && h.draggable == Drag.Draggable(data[h.track].dates[h.milestone].kind, hasDragCallback)
  }

  lemma {:induction false} TrackHandlesMembers(i: nat, ds: seq<Milestone>, hasDragCallback: bool, h: Handle)
    ensures h in TrackHandles(i, ds, hasDragCallback) <==>
      && h.track == i && h.milestone < |ds| && ds[h.milestone].parsed.Some?
      && Drag.HasHandle(ds[h.milestone].kind)
      && h.draggable == Drag.Draggable(ds[h.milestone].kind, hasDragCallback)
  {
    if ds != [] {
      TrackHandlesMembers(i, ds[..|ds| - 1], hasDragCallback, h);
    }
  }

  /** A frame has a handle exactly on each parsed `start` or `end` milestone,
      and it is draggable exactly when a drag callback was given. */
  lemma {:induction false} FrameHandlesMembers(data: seq<Track>, hasDragCallback: bool, h: Handle)
    ensures h in FrameHandles(data, hasDragCallback) <==> IsHandleOf(data, hasDragCallback, h)
  {
    if data != [] {
      var init := data[..|data| - 1];
      FrameHandlesMembers(init, hasDragCallback, h);
      TrackHandlesMembers(|data| - 1, data[|data| - 1].dates, hasDragCallback, h);
      if h.track < |init| {
        assert init[h.track] == data[h.track];
      }
    }
  }

  /** The track lines of a frame, one per track in order. */
  function FrameLines(data: seq<Track>, allDates: seq<Date>, activeTrack: Option<string>): seq<Line> {
    seq(|data|, i requires 0 <= i < |data| =>
      Line(data[i].track, LineStart(data[i], allDates), LineEnd(data[i], allDates),
           LineOpacity(activeTrack, data[i].track)))
  }

  /** Every line belongs to its track, fades as the track's milestones do,
      and has both ends within the domain whenever there is one. */
  lemma FrameLinesProperties(data: seq<Track>, activeTrack: Option<string>)
    ensures var lines := FrameLines(data, AllDatesOf(data), activeTrack);
      && |lines| == |data|
      && forall i :: 0 <= i < |data| ==>
        && lines[i].track == data[i].track
        && lines[i].opacity == MilestoneOpacity(activeTrack, data[i].track)
        && (|AllDatesOf(data)| > 0 ==>
              lines[i].start.Some? && InDomain(AllDatesOf(data), lines[i].start.value)
              && lines[i].end.Some? && InDomain(AllDatesOf(data), lines[i].end.value))
  {
    var lines := FrameLines(data, AllDatesOf(data), activeTrack);
    forall i | 0 <= i < |data|
      ensures lines[i].opacity == MilestoneOpacity(activeTrack, data[i].track)
      ensures |AllDatesOf(data)| > 0 ==>
        lines[i].start.Some? && InDomain(AllDatesOf(data), lines[i].start.value)
        && lines[i].end.Some? && InDomain(AllDatesOf(data), lines[i].end.value)
    {
      FocusOpacity(activeTrack, data[i].track);
      LineStartWithinDomain(data, i);
      LineEndWithinDomain(data, i);
    }
  }

  /** The legend of a frame, one entry per track in order. */
  function FrameLegend(data: seq<Track>, activeTrack: Option<string>): seq<LegendEntry> {
    seq(|data|, i requires 0 <= i < |data| =>
      LegendEntry(data[i].track, LegendCell(i).0, LegendCell(i).1, LegendOpacity(activeTrack, data[i].track)))
  }

  /** The legend fills the two-column grid in reading order, one cell per
      track. */
  lemma FrameLegendProperties(data: seq<Track>, activeTrack: Option<string>)
    ensures var legend := FrameLegend(data, activeTrack);
      && |legend| == |data|
      && (forall i :: 0 <= i < |data| ==>
            && legend[i].track == data[i].track
            && legend[i].col < 2 && legend[i].row < LegendRows(|data|)
            && 2 * legend[i].row + legend[i].col == i)
      && (forall i, j :: 0 <= i < j < |data| ==> (legend[i].col, legend[i].row) != (legend[j].col, legend[j].row))
  {
    var legend := FrameLegend(data, activeTrack);
    forall i, j | 0 <= i < |data| && 0 <= j < |data|
      ensures legend[i].col < 2 && legend[i].row < LegendRows(|data|)
      ensures 2 * legend[i].row + legend[i].col == i
      ensures i != j ==> (legend[i].col, legend[i].row) != (legend[j].col, legend[j].row)
    {
      LegendGrid(|data|, i, j);
    }
  }

  /** The label extents `render` starts its margins from: 0 when no label
      has a non-blank word, else the estimate for the longest word.  The
      source's estimate grows with the word's length, so its maximum over
      all words is the estimate for the longest one. */
  function LabelExtents(data: seq<Track>, extentOf: nat -> (real, real)): (real, real) {
    var n := LongestLabelWord(data);
    if n == 0 then (0.0, 0.0) else extentOf(n)
  }

  class TubeTimeline {
    /** The renderer's own copy of the tracks. */
    var data: seq<Track>
    /** The legend focus; None is `null`. */
    var activeTrack: Option<string>
    var allDates: seq<Date>
    var trackNames: seq<string>
    /** Stands for `Date.parse`, the last resort of `parseDate`. */
    const dateParse: string -> Option<Date>
    const showToday: bool
    const orientation: string
    const hasDragCallback: bool

    /** The constructor copies the data and resolves the options; nothing
        is focused. */
    constructor (data: seq<Track>, dateParse: string -> Option<Date>, showTodayOption: Option<bool>,
                 orientationOption: string, hasDragCallback: bool)
      ensures this.data == data && activeTrack == None && allDates == [] && trackNames == []
      ensures this.dateParse == dateParse && this.hasDragCallback == hasDragCallback
      ensures showToday == ShowTodayOption(showTodayOption)
      ensures orientation == OrientationOption(orientationOption)
    {
      this.data := data;
      this.dateParse := dateParse;
      this.showToday := ShowTodayOption(showTodayOption);
      this.orientation := OrientationOption(orientationOption);
      this.hasDragCallback := hasDragCallback;
      activeTrack := None;
      allDates := [];
      trackNames := [];
    }

    /** `preprocess`: parse every date in place, sort the tracks by start
        key, then collect `allDates` and `trackNames`. */
    method Preprocess()
      modifies this
      ensures data == PreprocessedData(old(data), dateParse)
      ensures IsPreprocessed(data, dateParse)
      ensures allDates == AllDatesOf(data)
      ensures trackNames == TrackNamesOf(data)
      ensures activeTrack == old(activeTrack)
    {
      ghost var start := data;
      var parsed := ParseTracks(data, dateParse);
      data := parsed;
      data := SortBy(data, StartKey);
      var collected := CollectDates(data);
      allDates := SortBy(collected, Identity);
      trackNames := TrackNamesOf(data);
      PreprocessIdempotent(start, dateParse);
    }

    /** A legend click: toggle the focus, then render again, which runs
        `preprocess` once more and so leaves preprocessed data as it is. */
    method LegendClick(name: string)
      modifies this
      ensures activeTrack == Toggle(old(activeTrack), name)
      ensures data == PreprocessedData(old(data), dateParse)
      ensures IsPreprocessed(old(data), dateParse) ==> data == old(data)
      ensures allDates == AllDatesOf(data) && trackNames == TrackNamesOf(data)
    {
      activeTrack := if activeTrack == Some(name) then None else Some(name);
      Preprocess();
    }

    /** `render` for a viewport, today's date and a label-extent estimate
        `extentOf` (rightward and downward reach of a word of a given
        length).  It runs `preprocess`, then decides the frame. */
    method Render(viewportWidth: real, viewportHeight: real, today: Date, extentOf: nat -> (real, real))
      returns (frame: Frame)
      modifies this
      ensures data == PreprocessedData(old(data), dateParse)
      ensures allDates == AllDatesOf(data) && trackNames == TrackNamesOf(data)
      ensures activeTrack == old(activeTrack)
      ensures frame.horizontal == IsHorizontal(orientation, viewportWidth, viewportHeight)
      ensures frame.scale == Scale(viewportHeight) && 0.6 <= frame.scale <= 1.0
      ensures frame.margins == ComputeMargins(frame.horizontal, frame.scale, viewportWidth, viewportHeight,
                                              LabelExtents(data, extentOf).0, LabelExtents(data, extentOf).1)
      ensures frame.margins.top == BaseMargins(frame.scale, viewportHeight).top
      ensures frame.lines == FrameLines(data, allDates, activeTrack)
      ensures |allDates| > 0 ==> forall i :: 0 <= i < |frame.lines| ==>
        && frame.lines[i].start.Some? && InDomain(allDates, frame.lines[i].start.value)
        && frame.lines[i].end.Some? && InDomain(allDates, frame.lines[i].end.value)
      ensures frame.legend == FrameLegend(data, activeTrack)
      ensures frame.months == MonthTicks(allDates)
      ensures frame.todayShown <==>
        showToday && |allDates| > 0 && LessEq(allDates[0], today) && LessEq(today, allDates[|allDates| - 1])
      ensures frame.handles == FrameHandles(data, hasDragCallback)
      ensures forall h :: h in frame.handles <==> IsHandleOf(data, hasDragCallback, h)
    {
      Preprocess();
      var horizontal := IsHorizontal(orientation, viewportWidth, viewportHeight);
      var scale := Scale(viewportHeight);
      var longest := ScanLabels(data);
      var extents := if longest == 0 then (0.0, 0.0) else extentOf(longest);
      var margins := ComputeMargins(horizontal, scale, viewportWidth, viewportHeight, extents.0, extents.1);
      MarginsAtLeastBase(horizontal, scale, viewportWidth, viewportHeight, extents.0, extents.1);
      FrameLinesProperties(data, activeTrack);
      frame := Frame(horizontal, scale, margins, FrameLines(data, allDates, activeTrack),
                     FrameLegend(data, activeTrack), MonthTicks(allDates),
                     ShowToday(showToday, allDates, today), FrameHandles(data, hasDragCallback));
      forall h: Handle ensures h in frame.handles <==> IsHandleOf(data, hasDragCallback, h) {
        FrameHandlesMembers(data, hasDragCallback, h);
      }
    }
  }

  /* ---------- from the editor to the renderer ---------- */

  /** The editor hands `getSanitizedData` to the renderer; with today's date
      in `DD/MM/YYYY` form every milestone then parses, so every milestone is
      drawn and `allDates` holds one date per milestone. */
  lemma SanitizedDataFullyParsed(data: seq<Track>, todayStr: string, dateParse: string -> Option<Date>)
    requires IsFullDateString(todayStr)
    ensures var p := ParseAll(GetSanitizedData(data, todayStr), dateParse);
      forall i, j :: 0 <= i < |p| && 0 <= j < |p[i].dates| ==> p[i].dates[j].parsed.Some?
  {
    var s := GetSanitizedData(data, todayStr);
    SanitizedDatesAreFull(data, todayStr);
    forall i, j | 0 <= i < |s| && 0 <= j < |s[i].dates|
      ensures ParseDate(s[i].dates[j].date, dateParse).Some?
    {
      FormatsAreTrimmed(s[i].dates[j].date);
    }
  }
}
