/**
 * The edits the editor makes to its track list (src/builder.js), as
 * functions from the old list to the new one, and how each interacts with
 * the normalisation pass of `renderEditor` that follows it.
 */
module EditorEdits {
  import opened Wrappers
  import opened Dates
  import opened Text
  import opened DateStrings
  import opened Records
  import opened Sorting
  import opened Lists
  import opened BuilderDates
  import opened EditorPass

  /* ---------- facts about tracks the pass leaves unchanged ---------- */

  /** Every entry of `s` is a fixed point of `f`. */
  ghost predicate AllFixed<T>(s: seq<T>, f: T -> T) {
    forall j :: 0 <= j < |s| ==> f(s[j]) == s[j]
  }

  lemma MapAllFixed<T>(s: seq<T>, f: T -> T)
    requires AllFixed(s, f)
    ensures Map(s, f) == s
  {
  }

  lemma EditorTrackSorted(t: Track, dateParse: string -> Option<Date>)
    ensures SortedBy(EditorTrack(t, dateParse).dates, MilestoneKey(dateParse))
  {
    SortBySortedPermutation(t.dates, MilestoneKey(dateParse));
    MapSorted(SortBy(t.dates, MilestoneKey(dateParse)), dateParse);
  }

  /** A track the pass leaves unchanged is sorted and every milestone in it is
      already rewritten. */
  lemma NormalTrackParts(t: Track, dateParse: string -> Option<Date>)
    requires EditorTrack(t, dateParse) == t
    ensures SortedBy(t.dates, MilestoneKey(dateParse)) && AllFixed(t.dates, EditorMilestone)
  {
    EditorTrackSorted(t, dateParse);
    var sorted := SortBy(t.dates, MilestoneKey(dateParse));
    forall j | 0 <= j < |t.dates| ensures EditorMilestone(t.dates[j]) == t.dates[j] {
      assert t.dates[j] == EditorMilestone(sorted[j]);
      EditorMilestoneIdempotent(sorted[j]);
    }
  }

  /** A sorted track whose milestones are all rewritten is one the pass
      leaves unchanged. */
  lemma NormalTrackFromParts(t: Track, dateParse: string -> Option<Date>)
    requires SortedBy(t.dates, MilestoneKey(dateParse)) && AllFixed(t.dates, EditorMilestone)
    ensures EditorTrack(t, dateParse) == t
  {
    SortBySortedIdentity(t.dates, MilestoneKey(dateParse));
    MapAllFixed(t.dates, EditorMilestone);
  }

  /** Replacing one track of a normalised list by a track the pass leaves
      unchanged gives a normalised list. */
  lemma NormalUpdate(data: seq<Track>, ti: nat, u: Track, dateParse: string -> Option<Date>)
    requires ti < |data| && IsEditorNormal(data, dateParse) && EditorTrack(u, dateParse) == u
    ensures IsEditorNormal(data[ti := u], dateParse)
  {
    var r := data[ti := u];
    forall k | 0 <= k < |r| ensures EditorPassOf(r, dateParse)[k] == r[k] {
      if k != ti {
        assert EditorPassOf(data, dateParse)[k] == data[k];
      }
    }
  }

  lemma SortedInsertAfterEqual<T>(s: seq<T>, i: nat, x: T, key: T -> Date)
    requires SortedBy(s, key) && i < |s| && key(x) == key(s[i])
    ensures SortedBy(InsertAt(s, i + 1, x), key)
  {
    var r := InsertAt(s, i + 1, x);
    InsertAtProperties(s, i + 1, x);
    forall a, b | 0 <= a < b < |r| ensures LessEq(key(r[a]), key(r[b])) {
      var ka := if a <= i then a else if a == i + 1 then i else a - 1;
      var kb := if b <= i then b else if b == i + 1 then i else b - 1;
      assert key(r[a]) == key(s[ka]) && key(r[b]) == key(s[kb]);
      assert ka <= kb;
    }
  }

  lemma AllFixedInsert<T>(s: seq<T>, i: nat, x: T, f: T -> T)
    requires i <= |s| && AllFixed(s, f) && f(x) == x
    ensures AllFixed(InsertAt(s, i, x), f)
  {
    InsertAtProperties(s, i, x);
    var r := InsertAt(s, i, x);
    forall j | 0 <= j < |r| ensures f(r[j]) == r[j] {
      if j != i {
        assert r[j] == s[if j < i then j else j - 1];
      }
    }
  }

  lemma SortedRemove<T>(s: seq<T>, i: nat, key: T -> Date)
    requires SortedBy(s, key)
    ensures SortedBy(RemoveAt(s, i), key)
  {
    RemoveAtProperties(s, i);
    var r := RemoveAt(s, i);
    if i < |s| {
      forall a, b | 0 <= a < b < |r| ensures LessEq(key(r[a]), key(r[b])) {
        var ka := if a < i then a else a + 1;
        var kb := if b < i then b else b + 1;
        assert r[a] == s[ka] && r[b] == s[kb];
      }
    }
  }

  lemma AllFixedRemove<T>(s: seq<T>, i: nat, f: T -> T)
    requires AllFixed(s, f)
    ensures AllFixed(RemoveAt(s, i), f)
  {
    RemoveAtProperties(s, i);
    var r := RemoveAt(s, i);
    if i < |s| {
      forall j | 0 <= j < |r| ensures f(r[j]) == r[j] {
        assert r[j] == s[if j < i then j else j + 1];
      }
    }
  }

  lemma NotMonthYearWhenRewritten(m: Milestone)
    requires EditorMilestone(m) == m
    ensures !IsMonthYearString(m.date)
  {
    EditorMilestoneFields(m);
  }

  /** A milestone with a non-blank label and a date not of the `MM/YYYY`
      form is one the pass leaves alone. */
  lemma LabelledIsRewritten(m: Milestone)
    requires !IsMonthYearString(m.date) && Trim(m.caption) != ""
    ensures EditorMilestone(m) == m
  {
  }

  lemma TrimOfSuffixed(s: string)
    ensures Trim(s + " (copy)") != ""
  {
    var r := s + " (copy)";
    assert !IsWhitespace(r[|r| - 1]);
    TrimEmptyIffBlank(r);
  }

  /* ---------- moveTrackUp / moveTrackDown ---------- */

  /** `moveTrackUp(i)` before the redraw: nothing at the top, else a swap with
      the track above. */
  function MoveUp(data: seq<Track>, i: nat): seq<Track>
    requires i < |data|
  {
    if i == 0 then data else Swap(data, i - 1, i)
  }

  /** `moveTrackDown(i)` before the redraw: nothing at the bottom, else a swap
      with the track below. */
  function MoveDown(data: seq<Track>, i: nat): seq<Track>
    requires i < |data|
  {
    if i == |data| - 1 then data else Swap(data, i, i + 1)
  }

  /** Moving the top track up or the bottom track down changes nothing; any
      other move exchanges exactly two neighbours, keeps every other index and
      the multiset of tracks, and the redraw that follows leaves a
      normalised list normalised and in that order. */
  lemma MoveUpProperties(data: seq<Track>, i: nat, dateParse: string -> Option<Date>)
    requires i < |data|
    ensures i == 0 ==> MoveUp(data, i) == data
    ensures i > 0 ==>
      && |MoveUp(data, i)| == |data|
      && MoveUp(data, i)[i - 1] == data[i] && MoveUp(data, i)[i] == data[i - 1]
      && (forall k :: 0 <= k < |data| && k != i - 1 && k != i ==> MoveUp(data, i)[k] == data[k])
      && multiset(MoveUp(data, i)) == multiset(data)
    ensures IsEditorNormal(data, dateParse) ==> EditorPassOf(MoveUp(data, i), dateParse) == MoveUp(data, i)
  {
    if i > 0 {
      assert MoveUp(data, i) == Swap(data, i - 1, i);
      SwapProperties(data, i - 1, i);
      EditorPassSwap(data, i - 1, i, dateParse);
    } else {
      assert MoveUp(data, i) == data;
    }
  }

  lemma MoveDownProperties(data: seq<Track>, i: nat, dateParse: string -> Option<Date>)
    requires i < |data|
    ensures i == |data| - 1 ==> MoveDown(data, i) == data
    ensures i < |data| - 1 ==>
      && |MoveDown(data, i)| == |data|
      && MoveDown(data, i)[i] == data[i + 1] && MoveDown(data, i)[i + 1] == data[i]
      && (forall k :: 0 <= k < |data| && k != i && k != i + 1 ==> MoveDown(data, i)[k] == data[k])
      && multiset(MoveDown(data, i)) == multiset(data)
    ensures IsEditorNormal(data, dateParse) ==> EditorPassOf(MoveDown(data, i), dateParse) == MoveDown(data, i)
  {
    if i < |data| - 1 {
      assert MoveDown(data, i) == Swap(data, i, i + 1);
      SwapProperties(data, i, i + 1);
      EditorPassSwap(data, i, i + 1, dateParse);
    } else {
      assert MoveDown(data, i) == data;
    }
  }

  /** Moving a track down and then back up restores the list. */
  lemma MoveDownThenUp(data: seq<Track>, i: nat)
    requires i + 1 < |data|
    ensures MoveUp(MoveDown(data, i), i + 1) == data
  {
    SwapProperties(data, i, i + 1);
  }

  /* ---------- duplicateMilestone ---------- */

  /** The copy `duplicateMilestone` makes: the label becomes
      `(label || name || "Milestone") + " (copy)"` and the name
      `(name || that base label) + " (copy)"`. */
  function Duplicate(m: Milestone): Milestone {
    var baseLabel := if m.caption != "" then m.caption else if m.name != "" then m.name else "Milestone";
    var baseName := if m.name != "" then m.name else baseLabel;
    m.(caption := baseLabel + " (copy)", name := baseName + " (copy)")
  }

  /** The copy keeps the date, type, link and parse of the original; its
      name falls back to the label and then to "Milestone", its label to the
      name and then to "Milestone", and both end in " (copy)". */
  lemma DuplicateFields(m: Milestone)
    ensures Duplicate(m).date == m.date && Duplicate(m).kind == m.kind
    ensures Duplicate(m).url == m.url && Duplicate(m).parsed == m.parsed
    ensures Duplicate(m).caption
         == (if m.caption != "" then m.caption else if m.name != "" then m.name else "Milestone") + " (copy)"
    ensures Duplicate(m).name
         == (if m.name != "" then m.name else if m.caption != "" then m.caption else "Milestone") + " (copy)"
    ensures Duplicate(m) != m
  {
    assert |Duplicate(m).caption| > |m.caption|;
  }

  /** `duplicateMilestone(ti, mi)` before the redraw: nothing when either
      index names no entry, else the copy is spliced in after the original. */
  function DuplicateIn(data: seq<Track>, ti: int, mi: int): seq<Track> {
    if 0 <= ti < |data| && 0 <= mi < |data[ti].dates| then
      data[ti := data[ti].(dates := InsertAt(data[ti].dates, mi + 1, Duplicate(data[ti].dates[mi])))]
    else data
  }

  /** The duplicate grows one track by exactly one entry, at `mi + 1`; earlier
      entries stay and later ones shift right by one. */
  lemma DuplicateInShape(data: seq<Track>, ti: int, mi: int)
    ensures !(0 <= ti < |data| && 0 <= mi < |data[ti].dates|) ==> DuplicateIn(data, ti, mi) == data
    ensures 0 <= ti < |data| && 0 <= mi < |data[ti].dates| ==>
      var r := DuplicateIn(data, ti, mi);
      var s, u := data[ti].dates, r[ti].dates;
      && |r| == |data|
      && (forall k :: 0 <= k < |data| && k != ti ==> r[k] == data[k])
      && r[ti].track == data[ti].track && r[ti].caption == data[ti].caption && r[ti].color == data[ti].color
      && |u| == |s| + 1
      && (forall k :: 0 <= k <= mi ==> u[k] == s[k])
      && u[mi + 1] == Duplicate(s[mi])
      && (forall k :: mi + 1 < k < |u| ==> u[k] == s[k - 1])
  {
    if 0 <= ti < |data| && 0 <= mi < |data[ti].dates| {
      InsertAtProperties(data[ti].dates, mi + 1, Duplicate(data[ti].dates[mi]));
    }
  }

  /** The copy of a rewritten milestone is itself rewritten: its date is the
      original's and its label ends in " (copy)". */
  lemma DuplicateRewritten(m: Milestone)
    requires EditorMilestone(m) == m
    ensures EditorMilestone(Duplicate(m)) == Duplicate(m)
  {
    NotMonthYearWhenRewritten(m);
    DuplicateFields(m);
    var base := if m.caption != "" then m.caption else if m.name != "" then m.name else "Milestone";
    TrimOfSuffixed(base);
    LabelledIsRewritten(Duplicate(m));
  }

  /** In a normalised track the copy lands right after its original and stays
      there through the redraw: the redraw keeps the spliced list as it is. */
  lemma DuplicateSurvivesRedraw(data: seq<Track>, ti: int, mi: int, dateParse: string -> Option<Date>)
    requires IsEditorNormal(data, dateParse)
    ensures IsEditorNormal(DuplicateIn(data, ti, mi), dateParse)
  {
    if 0 <= ti < |data| && 0 <= mi < |data[ti].dates| {
      var key := MilestoneKey(dateParse);
      var t := data[ti];
      var c := Duplicate(t.dates[mi]);
      var u := t.(dates := InsertAt(t.dates, mi + 1, c));
      assert EditorTrack(t, dateParse) == t by {
        assert EditorPassOf(data, dateParse)[ti] == data[ti];
      }
      NormalTrackParts(t, dateParse);
      DuplicateFields(t.dates[mi]);
      assert key(c) == key(t.dates[mi]);
      SortedInsertAfterEqual(t.dates, mi, c, key);
      assert EditorMilestone(t.dates[mi]) == t.dates[mi];
      DuplicateRewritten(t.dates[mi]);
      AllFixedInsert(t.dates, mi + 1, c, EditorMilestone);
      NormalTrackFromParts(u, dateParse);
      NormalUpdate(data, ti, u, dateParse);
    }
  }

  /* ---------- addTrack ---------- */

  /** The track `addTrack` appends: "New Track" in grey, with one `start`
      milestone dated today and labelled "Start", and no short label. */
  function NewTrack(todayStr: string): Track {
    Track("New Track", "", "#333333", [NewMilestone(todayStr, "Start", "start", "Start")])
  }

  lemma SingleSorted(m: Milestone, dateParse: string -> Option<Date>)
    ensures SortedBy([m], MilestoneKey(dateParse))
    ensures SortBy([m], MilestoneKey(dateParse)) == [m]
  {
    assert [m][1..] == [];
  }

  lemma NewTrackDates(todayStr: string, dateParse: string -> Option<Date>)
    ensures EditorTrack(NewTrack(todayStr), dateParse)
         == NewTrack(todayStr).(dates := [EditorMilestone(NewTrack(todayStr).dates[0])])
  {
    SingleSorted(NewTrack(todayStr).dates[0], dateParse);
  }

  lemma StartRedrawn(todayStr: string)
    ensures var m := NewMilestone(todayStr, "Start", "start", "Start");
      && EditorMilestone(m).kind == "start" && EditorMilestone(m).name == "Start"
      && EditorMilestone(m).caption == "Start"
  {
    TrimNoWhitespaceEnds("Start");
    EditorMilestoneFields(NewMilestone(todayStr, "Start", "start", "Start"));
  }

  lemma StartRewritten(todayStr: string)
    requires !IsMonthYearString(todayStr)
    ensures EditorMilestone(NewMilestone(todayStr, "Start", "start", "Start"))
         == NewMilestone(todayStr, "Start", "start", "Start")
  {
    TrimNoWhitespaceEnds("Start");
    LabelledIsRewritten(NewMilestone(todayStr, "Start", "start", "Start"));
  }

  /** The redraw keeps the new track's name and its one `start` milestone,
      and leaves the track as it is unless today's string has the `MM/YYYY`
      form. */
  lemma NewTrackRedrawn(todayStr: string, dateParse: string -> Option<Date>)
    ensures var t := EditorTrack(NewTrack(todayStr), dateParse);
      && t.track == "New Track" && |t.dates| == 1 && t.dates[0].kind == "start"
      && t.dates[0].name == "Start" && t.dates[0].caption == "Start"
    ensures !IsMonthYearString(todayStr) ==> EditorTrack(NewTrack(todayStr), dateParse) == NewTrack(todayStr)
  {
    NewTrackDates(todayStr, dateParse);
    StartRedrawn(todayStr);
    if !IsMonthYearString(todayStr) {
      StartRewritten(todayStr);
    }
  }

  /** The redraw after `addTrack` puts the new track last, with its one
      `start` milestone, and leaves earlier tracks of a normalised list as
      they were; the whole list is unchanged by the redraw unless today's
      string has the `MM/YYYY` form. */
  lemma AddTrackProperties(data: seq<Track>, todayStr: string, dateParse: string -> Option<Date>)
    ensures |EditorPassOf(data + [NewTrack(todayStr)], dateParse)| == |data| + 1
    ensures IsEditorNormal(data, dateParse) && !IsMonthYearString(todayStr) ==>
      EditorPassOf(data + [NewTrack(todayStr)], dateParse) == data + [NewTrack(todayStr)]
    ensures IsEditorNormal(data, dateParse) ==>
      EditorPassOf(data + [NewTrack(todayStr)], dateParse)[..|data|] == data
    ensures var t := EditorPassOf(data + [NewTrack(todayStr)], dateParse)[|data|];
      && t.track == "New Track" && |t.dates| == 1 && t.dates[0].kind == "start"
      && t.dates[0].name == "Start" && t.dates[0].caption == "Start"
  {
    EditorPassAppend(data, NewTrack(todayStr), dateParse);
    NewTrackRedrawn(todayStr, dateParse);
    var t := EditorTrack(NewTrack(todayStr), dateParse);
    if IsEditorNormal(data, dateParse) {
      assert (EditorPassOf(data, dateParse) + [t])[..|data|] == EditorPassOf(data, dateParse);
    }
  }

  /* ---------- the remaining list edits that redraw ---------- */

  /** The milestone the "+ Add Milestone" button appends: dated today, named
      and labelled "New Milestone", of type "submission". */
  function NewSubmission(todayStr: string): Milestone {
    NewMilestone(todayStr, "New Milestone", "submission", "New Milestone")
  }

  function AddMilestoneTo(data: seq<Track>, ti: nat, todayStr: string): seq<Track>
    requires ti < |data|
  {
    data[ti := data[ti].(dates := data[ti].dates + [NewSubmission(todayStr)])]
  }

  lemma AllFixedAppend<T>(s: seq<T>, x: T, f: T -> T)
    requires AllFixed(s, f) && f(x) == x
    ensures AllFixed(s + [x], f)
  {
  }

  /** For a track whose milestones are all rewritten, the pass only sorts. */
  lemma EditorTrackOfRewritten(t: Track, dateParse: string -> Option<Date>)
    requires AllFixed(t.dates, EditorMilestone)
    ensures EditorTrack(t, dateParse) == t.(dates := SortBy(t.dates, MilestoneKey(dateParse)))
  {
    MapAllFixed(t.dates, EditorMilestone);
    forall m ensures MilestoneKey(dateParse)(EditorMilestone(m)) == MilestoneKey(dateParse)(m) {
      EditorMilestoneKeepsKey(m, dateParse);
    }
    SortByMap(t.dates, MilestoneKey(dateParse), EditorMilestone);
  }

  lemma NewSubmissionRewritten(todayStr: string)
    requires !IsMonthYearString(todayStr)
    ensures EditorMilestone(NewSubmission(todayStr)) == NewSubmission(todayStr)
  {
    TrimNoWhitespaceEnds("New Milestone");
    LabelledIsRewritten(NewSubmission(todayStr));
  }

  /** After the redraw the track holds its old milestones and the new one,
      sorted; no other track changes. */
  lemma AddMilestoneProperties(data: seq<Track>, ti: nat, todayStr: string, dateParse: string -> Option<Date>)
    requires ti < |data| && IsEditorNormal(data, dateParse) && !IsMonthYearString(todayStr)
    ensures var r := EditorPassOf(AddMilestoneTo(data, ti, todayStr), dateParse);
      && |r| == |data|
      && (forall k :: 0 <= k < |data| && k != ti ==> r[k] == data[k])
      && SortedBy(r[ti].dates, MilestoneKey(dateParse))
      && multiset(r[ti].dates) == multiset(data[ti].dates) + multiset{NewSubmission(todayStr)}
  {
    var a := AddMilestoneTo(data, ti, todayStr);
    var t := a[ti];
    assert EditorTrack(data[ti], dateParse) == data[ti] by {
      assert EditorPassOf(data, dateParse)[ti] == data[ti];
    }
    NormalTrackParts(data[ti], dateParse);
    NewSubmissionRewritten(todayStr);
    AllFixedAppend(data[ti].dates, NewSubmission(todayStr), EditorMilestone);
    EditorTrackOfRewritten(t, dateParse);
    SortBySortedPermutation(t.dates, MilestoneKey(dateParse));
    forall k | 0 <= k < |data| && k != ti ensures EditorPassOf(a, dateParse)[k] == data[k] {
      assert EditorPassOf(data, dateParse)[k] == data[k];
    }
  }

  /** Deleting a track removes exactly it; the redraw keeps a normalised list
      as it is. */
  lemma DeleteTrackProperties(data: seq<Track>, i: nat, dateParse: string -> Option<Date>)
    ensures EditorPassOf(RemoveAt(data, i), dateParse) == RemoveAt(EditorPassOf(data, dateParse), i)
    ensures IsEditorNormal(data, dateParse) ==> IsEditorNormal(RemoveAt(data, i), dateParse)
  {
    var a, b := EditorPassOf(RemoveAt(data, i), dateParse), RemoveAt(EditorPassOf(data, dateParse), i);
    RemoveAtProperties(data, i);
    RemoveAtProperties(EditorPassOf(data, dateParse), i);
    if i < |data| {
      forall k | 0 <= k < |a| ensures a[k] == b[k] {
        if k < i {
          assert a[k] == EditorTrack(data[k], dateParse);
        } else {
          assert a[k] == EditorTrack(data[k + 1], dateParse);
        }
      }
    }
  }

  function DeleteMilestoneFrom(data: seq<Track>, ti: nat, mi: nat): seq<Track>
    requires ti < |data|
  {
    data[ti := data[ti].(dates := RemoveAt(data[ti].dates, mi))]
  }

  /** Deleting a milestone from a normalised track leaves it normalised, so
      the redraw keeps the list as the deletion left it. */
  lemma DeleteMilestoneProperties(data: seq<Track>, ti: nat, mi: nat, dateParse: string -> Option<Date>)
    requires ti < |data| && IsEditorNormal(data, dateParse)
    ensures IsEditorNormal(DeleteMilestoneFrom(data, ti, mi), dateParse)
  {
    var t := data[ti];
    var u := t.(dates := RemoveAt(t.dates, mi));
    assert EditorTrack(t, dateParse) == t by {
      assert EditorPassOf(data, dateParse)[ti] == data[ti];
    }
    NormalTrackParts(t, dateParse);
    SortedRemove(t.dates, mi, MilestoneKey(dateParse));
    AllFixedRemove(t.dates, mi, EditorMilestone);
    NormalTrackFromParts(u, dateParse);
    NormalUpdate(data, ti, u, dateParse);
  }

  /* ---------- writing one date ---------- */

  /** `data[ti].dates[mi].date = d`. */
  function SetDate(data: seq<Track>, ti: nat, mi: nat, d: string): seq<Track>
    requires ti < |data| && mi < |data[ti].dates|
  {
    data[ti := data[ti].(dates := data[ti].dates[mi := data[ti].dates[mi].(date := d)])]
  }

  /** Writing a date changes that one field of that one milestone. */
  lemma SetDateOnlyThatDate(data: seq<Track>, ti: nat, mi: nat, d: string)
    requires ti < |data| && mi < |data[ti].dates|
    ensures var r := SetDate(data, ti, mi, d);
      && |r| == |data|
      && (forall k :: 0 <= k < |data| && k != ti ==> r[k] == data[k])
      && r[ti] == data[ti].(dates := r[ti].dates)
      && |r[ti].dates| == |data[ti].dates|
      && (forall j :: 0 <= j < |data[ti].dates| && j != mi ==> r[ti].dates[j] == data[ti].dates[j])
      && r[ti].dates[mi] == data[ti].dates[mi].(date := d)
      && r[ti].dates[mi].date == d
  {
  }

  /** The milestone the drag callback writes back to: in the first track
      named `trackName`, the first milestone of type `kind` named `name`. */
  function DragTarget(data: seq<Track>, trackName: string, kind: string, name: string): (r: Option<(nat, nat)>)
    ensures r.Some? ==> r.value.0 < |data| && r.value.1 < |data[r.value.0].dates|
    ensures r.Some? ==>
      var t := data[r.value.0];
      && t.track == trackName
      && (forall k :: 0 <= k < r.value.0 ==> data[k].track != trackName)
      && t.dates[r.value.1].kind == kind && t.dates[r.value.1].name == name
      && (forall j :: 0 <= j < r.value.1 ==> !(t.dates[j].kind == kind && t.dates[j].name == name))
    ensures r.None? <==>
      || (forall k :: 0 <= k < |data| ==> data[k].track != trackName)
      || (exists k :: 0 <= k < |data| && data[k].track == trackName
           && (forall k' :: 0 <= k' < k ==> data[k'].track != trackName)
           && forall j :: 0 <= j < |data[k].dates| ==> !(data[k].dates[j].kind == kind && data[k].dates[j].name == name))
  {
    match FindIndex(data, (t: Track) => t.track == trackName)
    case None => None
    case Some(ti) =>
      match FindIndex(data[ti].dates, (m: Milestone) => m.kind == kind && m.name == name)
      case None => None
      case Some(mi) => Some((ti, mi))
  }
}
