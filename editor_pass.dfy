/**
 * The normalisation `renderEditor` applies to the editor data each time it
 * redraws the form (src/builder.js:324-358): every track's milestones are
 * stably sorted by date, `MM/YYYY` dates are rewritten to `01/MM/YYYY`, and
 * a blank label becomes the milestone's name, or "Milestone".
 */
module EditorPass {
  import opened Wrappers
  import opened Dates
  import opened Text
  import opened DateStrings
  import opened Records
  import opened Sorting
  import opened Lists
  import opened BuilderDates

  /** What the pass does to one milestone once its track is sorted. */
  function EditorMilestone(m: Milestone): Milestone {
    var m1 := if IsMonthYearString(m.date) then m.(date := MonthYearToFull(m.date)) else m;
    if Trim(m1.caption) == "" then m1.(caption := if m1.name != "" then m1.name else "Milestone")
    else m1
  }

  /** What the pass does to one track. */
  function EditorTrack(t: Track, dateParse: string -> Option<Date>): Track {
    t.(dates := Map(SortBy(t.dates, MilestoneKey(dateParse)), EditorMilestone))
  }

  /** The whole pass, track by track. */
  function EditorPassOf(data: seq<Track>, dateParse: string -> Option<Date>): seq<Track> {
    seq(|data|, i requires 0 <= i < |data| => EditorTrack(data[i], dateParse))
  }

  /** Data the pass leaves unchanged: what the editor holds right after a redraw. */
  predicate IsEditorNormal(data: seq<Track>, dateParse: string -> Option<Date>) {
    EditorPassOf(data, dateParse) == data
  }

  lemma TrimMilestone()
    ensures Trim("Milestone") == "Milestone"
  {
    TrimNoWhitespaceEnds("Milestone");
  }

  /** The pass rewrites only `date` and `caption`: `MM/YYYY` becomes its first of
      the month, a blank label the name, or "Milestone" when the name is empty. */
  lemma EditorMilestoneFields(m: Milestone)
    ensures EditorMilestone(m).name == m.name && EditorMilestone(m).kind == m.kind
    ensures EditorMilestone(m).url == m.url && EditorMilestone(m).parsed == m.parsed
    ensures !IsMonthYearString(EditorMilestone(m).date)
    ensures IsMonthYearString(m.date) ==> EditorMilestone(m).date == "01/" + m.date[0..2] + "/" + m.date[3..7]
    ensures !IsMonthYearString(m.date) ==> EditorMilestone(m).date == m.date
    ensures Trim(m.caption) != "" ==> EditorMilestone(m).caption == m.caption
    ensures Trim(m.caption) == "" && m.name != "" ==> EditorMilestone(m).caption == m.name
    ensures Trim(m.caption) == "" && m.name == "" ==> EditorMilestone(m).caption == "Milestone"
  {
    if IsMonthYearString(m.date) {
      FormatsDisjoint(MonthYearToFull(m.date));
    }
  }

  /** The rewrite does not move a milestone: its sort key is unchanged. */
  lemma EditorMilestoneKeepsKey(m: Milestone, dateParse: string -> Option<Date>)
    ensures MilestoneKey(dateParse)(EditorMilestone(m)) == MilestoneKey(dateParse)(m)
  {
    var m2 := EditorMilestone(m);
    if IsMonthYearString(m.date) {
      var f := MonthYearToFull(m.date);
      assert m2.date == f;
      assert SortInput(f) == f == SortInput(m.date);
    }
  }

  lemma {:induction false} EditorMilestoneIdempotent(m: Milestone)
    ensures EditorMilestone(EditorMilestone(m)) == EditorMilestone(m)
  {
    EditorMilestoneFields(m);
    var m2 := EditorMilestone(m);
    EditorMilestoneFields(m2);
    if Trim(m.caption) == "" && m.name == "" {
      TrimMilestone();
    }
  }

  lemma MapSorted(s: seq<Milestone>, dateParse: string -> Option<Date>)
    requires SortedBy(s, MilestoneKey(dateParse))
    ensures SortedBy(Map(s, EditorMilestone), MilestoneKey(dateParse))
  {
    var key := MilestoneKey(dateParse);
    var r := Map(s, EditorMilestone);
    forall i, j | 0 <= i < j < |r| ensures LessEq(key(r[i]), key(r[j])) {
      EditorMilestoneKeepsKey(s[i], dateParse);
      EditorMilestoneKeepsKey(s[j], dateParse);
    }
  }

  lemma MapIdempotent(s: seq<Milestone>)
    ensures Map(Map(s, EditorMilestone), EditorMilestone) == Map(s, EditorMilestone)
  {
    var once := Map(s, EditorMilestone);
    forall i | 0 <= i < |s| ensures Map(once, EditorMilestone)[i] == once[i] {
      EditorMilestoneIdempotent(s[i]);
    }
  }

  /** After the pass every track lists its milestones in date order, the order
      among equal dates is the one before the pass, and the milestones are
      exactly the rewritten originals. */
  lemma EditorTrackOrdered(t: Track, dateParse: string -> Option<Date>)
    ensures var u := EditorTrack(t, dateParse);
      && u.track == t.track && u.caption == t.caption && u.color == t.color
      && |u.dates| == |t.dates|
      && SortedBy(u.dates, MilestoneKey(dateParse))
      && multiset(u.dates) == multiset(Map(t.dates, EditorMilestone))
      && forall k :: WithKey(u.dates, MilestoneKey(dateParse), k)
                  == WithKey(Map(t.dates, EditorMilestone), MilestoneKey(dateParse), k)
  {
    var key := MilestoneKey(dateParse);
    var sorted := SortBy(t.dates, key);
    SortBySortedPermutation(t.dates, key);
    MapSorted(sorted, dateParse);
    forall m ensures key(EditorMilestone(m)) == key(m) {
      EditorMilestoneKeepsKey(m, dateParse);
    }
    SortByMap(t.dates, key, EditorMilestone);
    SortBySortedPermutation(Map(t.dates, EditorMilestone), key);
    forall k ensures WithKey(EditorTrack(t, dateParse).dates, key, k) == WithKey(Map(t.dates, EditorMilestone), key, k) {
      SortByStable(Map(t.dates, EditorMilestone), key, k);
    }
  }

  /** A rewritten milestone has no `MM/YYYY` date, and a blank label only
      when its name is itself white space. */
  predicate IsRewritten(m: Milestone) {
    !IsMonthYearString(m.date) && (Trim(m.caption) != "" || (m.caption == m.name && m.name != ""))
  }

  lemma MilestoneRewritten(m: Milestone)
    ensures IsRewritten(EditorMilestone(m))
  {
    EditorMilestoneFields(m);
    TrimMilestone();
  }

  /** After the pass no `MM/YYYY` date is left and no label is blank unless the
      milestone's name is itself white space. */
  lemma EditorTrackRewritten(t: Track, dateParse: string -> Option<Date>)
    ensures forall j :: 0 <= j < |EditorTrack(t, dateParse).dates| ==> IsRewritten(EditorTrack(t, dateParse).dates[j])
  {
    var sorted := SortBy(t.dates, MilestoneKey(dateParse));
    var out := EditorTrack(t, dateParse).dates;
    forall j | 0 <= j < |out| ensures IsRewritten(out[j]) {
      MilestoneRewritten(sorted[j]);
    }
  }

  lemma {:induction false} EditorTrackIdempotent(t: Track, dateParse: string -> Option<Date>)
    ensures EditorTrack(EditorTrack(t, dateParse), dateParse) == EditorTrack(t, dateParse)
  {
    var key := MilestoneKey(dateParse);
    var once := Map(SortBy(t.dates, key), EditorMilestone);
    SortBySortedPermutation(t.dates, key);
    MapSorted(SortBy(t.dates, key), dateParse);
    SortBySortedIdentity(once, key);
    MapIdempotent(SortBy(t.dates, key));
  }

  /** Redrawing the editor twice is the same as redrawing it once. */
  lemma EditorPassIdempotent(data: seq<Track>, dateParse: string -> Option<Date>)
    ensures IsEditorNormal(EditorPassOf(data, dateParse), dateParse)
  {
    forall i | 0 <= i < |data|
      ensures EditorPassOf(EditorPassOf(data, dateParse), dateParse)[i] == EditorPassOf(data, dateParse)[i]
    {
      EditorTrackIdempotent(data[i], dateParse);
    }
  }

  /** The pass works track by track, so it commutes with swapping two tracks. */
  lemma EditorPassSwap(data: seq<Track>, i: nat, j: nat, dateParse: string -> Option<Date>)
    requires i < |data| && j < |data|
    ensures EditorPassOf(Swap(data, i, j), dateParse) == Swap(EditorPassOf(data, dateParse), i, j)
  {
  }

  /** The pass works track by track, so it commutes with appending a track. */
  lemma EditorPassAppend(data: seq<Track>, t: Track, dateParse: string -> Option<Date>)
    ensures EditorPassOf(data + [t], dateParse) == EditorPassOf(data, dateParse) + [EditorTrack(t, dateParse)]
  {
  }
}
