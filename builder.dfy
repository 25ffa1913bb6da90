/**
 * The editor object of src/builder.js: it owns the track list `data` and
 * edits it in place.  Every handler that ends by redrawing the form runs the
 * normalisation pass of `renderEditor` over `data`; the pass is the loop of
 * `RenderEditor`, specified by `EditorPass.EditorPassOf`.  Drawing the form
 * and the preview is not modelled, only what the handlers do to `data`.
 */
module Builder {
  import opened Wrappers
  import opened Dates
  import opened Text
  import opened DateStrings
  import opened Records
  import opened Sorting
  import opened Lists
  import opened BuilderDates
  import opened EditorPass
  import opened EditorEdits

  /** The list the editor starts with: "Project Alpha" with a start fifteen
      days before today, a review thirty days after and a launch ninety days
      after, given as their `DD/MM/YYYY` strings. */
  function InitialData(kickoff: string, review: string, launch: string): seq<Track> {
    [Track("Project Alpha", "PA", "#E32017", [
      NewMilestone(kickoff, "Kickoff", "start", "Start"),
      NewMilestone(review, "Design Review", "node", "Review"),
      NewMilestone(launch, "Launch", "end", "Launch")])]
  }

  /** The inner loop of the `renderEditor` pass over one sorted track:
      `MM/YYYY` dates become their first of the month and a blank label
      becomes the name, or "Milestone". */
  method RewriteMilestones(sorted: seq<Milestone>) returns (dates: seq<Milestone>)
    ensures dates == Map(sorted, EditorMilestone)
    ensures forall k :: 0 <= k < |dates| ==> !IsMonthYearString(dates[k].date)
  {
    dates := sorted;
    var j := 0;
    while j < |dates|
      invariant 0 <= j <= |dates| == |sorted|
      invariant forall k :: 0 <= k < j ==> dates[k] == EditorMilestone(sorted[k])
      invariant forall k :: j <= k < |dates| ==> dates[k] == sorted[k]
    {
      var m := dates[j];
      if IsMonthYearString(m.date) {
        m := m.(date := MonthYearToFull(m.date));
      }
      if Trim(m.caption) == "" {
        m := m.(caption := if m.name != "" then m.name else "Milestone");
      }
      dates := dates[j := m];
      j := j + 1;
    }
    forall k | 0 <= k < |dates| ensures !IsMonthYearString(dates[k].date) {
      EditorMilestoneFields(sorted[k]);
    }
  }

  class TimelineBuilder {
    /** The tracks being edited. */
    var data: seq<Track>
    /** Stands for `Date.parse`, the last resort of `parseDateForSort`. */
    const dateParse: string -> Option<Date>

    /** The constructor builds the starting list and `init` draws the form. */
    constructor (dateParse: string -> Option<Date>, kickoff: string, review: string, launch: string)
      ensures this.dateParse == dateParse
      ensures data == EditorPassOf(InitialData(kickoff, review, launch), dateParse)
      ensures IsEditorNormal(data, dateParse)
    {
      this.dateParse := dateParse;
      data := InitialData(kickoff, review, launch);
      new;
      RenderEditor();
    }

    /** The data pass of `renderEditor`: each track's milestones are sorted
        in place, then each milestone's date and label are rewritten. */
    method RenderEditor()
      modifies this
      ensures data == EditorPassOf(old(data), dateParse)
      ensures IsEditorNormal(data, dateParse)
    {
      ghost var start := data;
      var i := 0;
      while i < |data|
        invariant 0 <= i <= |data| == |start|
        invariant forall k :: 0 <= k < i ==> data[k] == EditorTrack(start[k], dateParse)
        invariant forall k :: i <= k < |data| ==> data[k] == start[k]
      {
        var t := data[i];
        var dates := RewriteMilestones(SortBy(t.dates, MilestoneKey(dateParse)));
        data := data[i := t.(dates := dates)];
        i := i + 1;
      }
      EditorPassIdempotent(start, dateParse);
    }

    /** `moveTrackUp(i)`: nothing for the top track, else swap with the one
        above and redraw. */
    method MoveTrackUp(i: nat)
      requires i < |data|
      modifies this
      ensures i == 0 ==> data == old(data)
      ensures i > 0 ==> data == EditorPassOf(MoveUp(old(data), i), dateParse)
      ensures IsEditorNormal(old(data), dateParse) ==> data == MoveUp(old(data), i)
    {
      if i == 0 {
        return;
      }
      data := data[i - 1 := data[i]][i := data[i - 1]];
      RenderEditor();
      MoveUpProperties(old(data), i, dateParse);
    }

    /** `moveTrackDown(i)`: nothing for the bottom track, else swap with the
        one below and redraw. */
    method MoveTrackDown(i: nat)
      requires i < |data|
      modifies this
      ensures i == |old(data)| - 1 ==> data == old(data)
      ensures i < |old(data)| - 1 ==> data == EditorPassOf(MoveDown(old(data), i), dateParse)
      ensures IsEditorNormal(old(data), dateParse) ==> data == MoveDown(old(data), i)
    {
      if i == |data| - 1 {
        return;
      }
      data := data[i := data[i + 1]][i + 1 := data[i]];
      RenderEditor();
      MoveDownProperties(old(data), i, dateParse);
    }

    /** `duplicateMilestone(ti, mi)`: nothing when there is no such track or
        milestone, else the copy is spliced in after the original and the
        form redrawn. */
    method DuplicateMilestone(ti: int, mi: int)
      modifies this
      ensures !(0 <= ti < |old(data)| && 0 <= mi < |old(data)[ti].dates|) ==> data == old(data)
      ensures 0 <= ti < |old(data)| && 0 <= mi < |old(data)[ti].dates| ==>
        data == EditorPassOf(DuplicateIn(old(data), ti, mi), dateParse)
      ensures IsEditorNormal(old(data), dateParse) ==> data == DuplicateIn(old(data), ti, mi)
    {
      if !(0 <= ti < |data|) {
        return;
      }
      var track := data[ti];
      if !(0 <= mi < |track.dates|) {
        return;
      }
      var clone := Duplicate(track.dates[mi]);
      data := data[ti := track.(dates := track.dates[..mi + 1] + [clone] + track.dates[mi + 1..])];
      RenderEditor();
      if IsEditorNormal(old(data), dateParse) {
        DuplicateSurvivesRedraw(old(data), ti, mi, dateParse);
      }
    }

    /** `addTrack`: append "New Track" dated `todayStr` and redraw. */
    method AddTrack(todayStr: string)
      modifies this
      ensures data == EditorPassOf(old(data) + [NewTrack(todayStr)], dateParse)
      ensures |data| == |old(data)| + 1
      ensures IsEditorNormal(old(data), dateParse) ==> data[..|old(data)|] == old(data)
      ensures IsEditorNormal(old(data), dateParse) && !IsMonthYearString(todayStr) ==>
        data == old(data) + [NewTrack(todayStr)]
    {
      data := data + [NewTrack(todayStr)];
      RenderEditor();
      AddTrackProperties(old(data), todayStr, dateParse);
    }

    /** The track delete button: `data.splice(i, 1)`, then a redraw. */
    method DeleteTrack(i: nat)
      modifies this
      ensures data == EditorPassOf(RemoveAt(old(data), i), dateParse)
      ensures IsEditorNormal(old(data), dateParse) ==> data == RemoveAt(old(data), i)
    {
      if i < |data| {
        data := data[..i] + data[i + 1..];
      }
      RenderEditor();
      DeleteTrackProperties(old(data), i, dateParse);
    }

    /** The milestone delete button: `data[ti].dates.splice(mi, 1)`, then a
        redraw. */
    method DeleteMilestone(ti: nat, mi: nat)
      requires ti < |data|
      modifies this
      ensures data == EditorPassOf(DeleteMilestoneFrom(old(data), ti, mi), dateParse)
      ensures IsEditorNormal(old(data), dateParse) ==> data == DeleteMilestoneFrom(old(data), ti, mi)
    {
      var track := data[ti];
      data := data[ti := track.(dates := RemoveAt(track.dates, mi))];
      RenderEditor();
      if IsEditorNormal(old(data), dateParse) {
        DeleteMilestoneProperties(old(data), ti, mi, dateParse);
      }
    }

    /** The "+ Add Milestone" button: push a submission dated `todayStr`,
        then redraw. */
    method AddMilestone(ti: nat, todayStr: string)
      requires ti < |data|
      modifies this
      ensures data == EditorPassOf(AddMilestoneTo(old(data), ti, todayStr), dateParse)
    {
      var track := data[ti];
      data := data[ti := track.(dates := track.dates + [NewSubmission(todayStr)])];
      RenderEditor();
    }

    /** A date input's change: store `inputValueToDataDate(v, "date")`
        without a redraw; when the conversion throws nothing is stored. */
    method SetMilestoneDate(ti: nat, mi: nat, v: string)
      requires ti < |data| && mi < |data[ti].dates|
      modifies this
      ensures InputValueToDataDate(v, "date").None? ==> data == old(data)
      ensures InputValueToDataDate(v, "date").Some? ==>
        data == SetDate(old(data), ti, mi, InputValueToDataDate(v, "date").value)
    {
      match InputValueToDataDate(v, "date")
      case None =>
      case Some(d) =>
        var track := data[ti];
        data := data[ti := track.(dates := track.dates[mi := track.dates[mi].(date := d)])];
    }

    /** The renderer's drag callback: find the first track named `trackName`
        and in it the first milestone of type `kind` named `name`; when both
        exist, store `newDateStr` as its date and redraw, else do nothing. */
    method OnMilestoneDrag(trackName: string, kind: string, name: string, newDateStr: string)
      modifies this
      ensures DragTarget(old(data), trackName, kind, name).None? ==> data == old(data)
      ensures DragTarget(old(data), trackName, kind, name).Some? ==>
        var (ti, mi) := DragTarget(old(data), trackName, kind, name).value;
        data == EditorPassOf(SetDate(old(data), ti, mi, newDateStr), dateParse)
    {
      var trackIndex := FindIndex(data, (t: Track) => t.track == trackName);
      if trackIndex.None? {
        return;
      }
      var ti := trackIndex.value;
      var milestoneIndex := FindIndex(data[ti].dates, (m: Milestone) => m.kind == kind && m.name == name);
      if milestoneIndex.None? {
        return;
      }
      var mi := milestoneIndex.value;
      var track := data[ti];
      data := data[ti := track.(dates := track.dates[mi := track.dates[mi].(date := newDateStr)])];
      RenderEditor();
    }
  }
}
