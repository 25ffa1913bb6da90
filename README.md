# tube-timeline in Dafny

tube-timeline draws project timelines in the style of a London Underground
map. Each track is a coloured line, and its milestones (start, end,
submissions, reviews, ...) are stations along it. The repository has two
parts, and this project models both:

- **The editor** (`src/builder.js`). It holds the list of tracks, converts
  dates between the stored `DD/MM/YYYY` / `MM/YYYY` forms and the values of
  native date inputs, and edits the list in place: move a track, duplicate,
  add or delete a milestone, add or delete a track, and write back a date
  dragged in the preview. After most edits it runs a normalisation pass,
  `renderEditor`. That pass sorts each track's milestones by date, rewrites
  `MM/YYYY` dates and fills blank labels. The editor hands a sanitised copy
  of its data to the renderer.
- **The renderer** (`src/tube-timeline.js`). It parses the date strings,
  sorts the tracks by start date, and collects the ascending list of all
  dates, `allDates`. It then decides:
  - the orientation, scale and margins;
  - where each track line starts and ends;
  - what the legend focus dims, and where each legend entry sits;
  - whether the "Today" marker is drawn;
  - which month ticks appear;
  - what a drag of a start or end handle commits.

**Dates.** A date is modelled as `Date(year, month, day, ms)`:
- `month` is JavaScript's 0-based month;
- `ms` is the time of day;
- a year from 0 to 99 passed to `new Date` means 1900 to 1999
  (`Dates.FullYear`), as in JavaScript;
- dates are compared lexicographically.

`Date.parse` is the parameter `dateParse`, a function returning `None` for
NaN. Today's date, and today's date as a string, are also parameters.

**Objects and values.**
- The editor is the class `Builder.TimelineBuilder`. Its methods change the
  field `data`. Each method's contract gives the new `data` as a function of
  the old one: the edit, followed by the `renderEditor` pass
  (`EditorPass.EditorPassOf`).
- The pass leaves already-normalised data unchanged
  (`EditorPass.EditorPassIdempotent`). So on normalised data, each handler's
  effect is exactly the edit itself.
- The renderer is the class `Timeline.TubeTimeline`. `Preprocess`,
  `LegendClick` and `Render` update its `data`, `activeTrack`, `allDates` and
  `trackNames`.
- A drag handle's closure state is the class `Drag.DragSession`.
- Everything else is a function on values, with lemmas stating what the
  source promises about it.
- `getSanitizedData` builds new objects. It is therefore a function, and the
  editor's `data` is untouched by it.

## Model

| member | source | states |
|---|---|---|
| DateStrings.FormatsDisjoint | src/builder.js:72-77 | No string is both `DD/MM/YYYY` and `MM/YYYY`, or either of them and ISO `YYYY-MM-DD`. |
| DateStrings.FormatsAreTrimmed | src/tube-timeline.js:52-58 | A string in a recognised form has no surrounding white space, so trimming leaves it unchanged. |
| DateParser.ParseDate | src/tube-timeline.js:48-49 | The empty string parses to null. |
| DateParser.ParseDateRecognised | src/tube-timeline.js:50-59 | An input whose trimmed form is in one of the three recognised forms parses to a date at midnight. |
| DateParser.ParseFullDateGroups | src/tube-timeline.js:52-53 | `DD/MM/YYYY` parses to `new Date(YYYY, MM - 1, DD)`: year YYYY (0 to 99 read as 1900 to 1999), 0-based month MM-1, day DD, at midnight. |
| DateParser.ParseIsoDateGroups | src/tube-timeline.js:58-59 | ISO `YYYY-MM-DD` parses to `new Date(YYYY, MM - 1, DD)` in the same way. |
| DateParser.ParseFullDateOfFields | src/tube-timeline.js:52-53 | Day d and month m, padded to two digits, and a four-digit year y, written `DD/MM/YYYY`, parse to day d of 0-based month m-1 of year y. |
| DateParser.ParseIsoDateOfFields | src/tube-timeline.js:58-59 | The same fields written `YYYY-MM-DD` parse to the same date. |
| DateParser.ParseTwoDigitYear | src/tube-timeline.js:53 | A year written `00YY` goes through JavaScript's two-digit-year rule: `DD/MM/00YY` parses to a day of year 19YY. |
| DateParser.ParseDateIgnoresSurroundingSpace | src/tube-timeline.js:50-58 | For the recognised forms, parsing the raw input and parsing its trimmed form give the same result. |
| DateParser.ParseMonthYearIsFirstOfMonth | src/tube-timeline.js:55-56 | `MM/YYYY` parses to the first day of month MM-1 (0-based) of year YYYY, with years 0 to 99 read as 1900 to 1999. |
| DateParser.ParseDateRecognisedIgnoresFallback | src/tube-timeline.js:50-62 | A recognised form gives the same result whatever `Date.parse` does, so the fallback is never reached. |
| BuilderDates.FullDateInputRoundTrip | src/builder.js:79-113 | A `DD/MM/YYYY` date becomes an ISO input value, and converting that value back with type "date" gives the same string. |
| BuilderDates.MonthYearInputRoundTrip | src/builder.js:79-113 | An `MM/YYYY` date becomes a `YYYY-MM` value, and converting that value back with type "month" gives the same string. |
| BuilderDates.IsoInputRoundTrip | src/builder.js:100-105 | An ISO date input value converts to a `DD/MM/YYYY` string, which converts back to the same input value. |
| BuilderDates.DateInputWithoutDayThrows | src/builder.js:100-105 | A non-empty "date" value that has fewer than three `-`-separated parts makes the conversion throw (None). |
| BuilderDates.NormalizeDateString | src/builder.js:115-123 | The result is either "" or a `DD/MM/YYYY` string. |
| BuilderDates.NormalizeDateStringCases | src/builder.js:115-123 | A full date is kept unchanged. `MM/YYYY` becomes `01/MM/YYYY`. Anything else becomes "". |
| BuilderDates.NormalizeDateStringIdempotent | src/builder.js:115-123 | Normalising twice gives the same result as normalising once. |
| BuilderDates.MonthYearToFull | src/builder.js:344-347 | `MM/YYYY` is rewritten as the full date `01/MM/YYYY`. |
| BuilderDates.GetSanitizedDataShape | src/builder.js:125-137 | Sanitising keeps the number of tracks, each track's fields and its number of milestones. Every milestone field except `date` is kept. Each date becomes its normalised form, or today's string when normalising gives "". |
| BuilderDates.SanitizedDatesAreFull | src/builder.js:125-137 | When today's string is a full date, every sanitised date is a `DD/MM/YYYY` string. |
| BuilderDates.SanitizeIdempotent | src/builder.js:125-137 | Sanitising already-sanitised data changes nothing. |
| BuilderDates.SortKeyAgreesWithRenderer | src/builder.js:152-164 | On `DD/MM/YYYY` and `MM/YYYY` strings, the editor's sort key equals the date the renderer's `parseDate` returns. |
| BuilderDates.SortInputSameKey | src/builder.js:325-331 | Normalising a date before computing its key (`normalizeDateString(d) \|\| d`) does not change the key. |
| Sorting.SortBySortedPermutation | src/tube-timeline.js:68-72 | The stable sort returns its input ordered by key and as a permutation (equal multisets). |
| Sorting.SortByStable | src/tube-timeline.js:68-72 | For every key, the elements with that key appear in the output in their input order. |
| Sorting.SortBySortedIdentity | src/tube-timeline.js:68-72 | Sorting a list that is already ordered by key returns it unchanged. |
| Lists.FindIndex | src/builder.js:227-236 | `findIndex` returns the first index that satisfies the test, or None (-1) exactly when no index does. |
| Lists.SwapProperties | src/builder.js:481-501 | The swap exchanges the two entries, leaves every other index unchanged and keeps the multiset. |
| Lists.InsertAtProperties | src/builder.js:513 | `splice(i, 0, x)` puts `x` at index i, keeps the entries before i and shifts the later ones right by one. |
| Lists.RemoveAtProperties | src/builder.js:567-574 | `splice(i, 1)` drops entry i and shifts the later ones left. An index past the end changes nothing. |
| EditorPass.EditorMilestoneFields | src/builder.js:344-358 | The pass rewrites `MM/YYYY` to `01/MM/YYYY` and keeps every other date. It keeps a non-blank label. A blank label becomes the name, or "Milestone" when the name is empty. Name, type, url and parsed date are unchanged. |
| EditorPass.EditorMilestoneKeepsKey | src/builder.js:325-347 | Rewriting a milestone does not change its sort key. |
| EditorPass.EditorMilestoneIdempotent | src/builder.js:344-358 | Rewriting a milestone twice gives the same result as rewriting it once. |
| EditorPass.EditorTrackOrdered | src/builder.js:325-350 | After the pass, a track's milestones are ordered by the `parseDateForSort` key, with undated ones at the epoch. They are the rewritten input as a multiset, and milestones with equal keys keep their order. The track's other fields are unchanged. |
| EditorPass.EditorTrackRewritten | src/builder.js:344-358 | After the pass, no milestone has an `MM/YYYY` date. Every label is non-blank, or equals a non-empty name. |
| EditorPass.EditorTrackIdempotent | src/builder.js:324-358 | Running the pass twice over a track gives the same result as running it once. |
| EditorPass.EditorPassIdempotent | src/builder.js:324-358 | The output of the pass is in editor normal form: a further pass leaves it unchanged. |
| EditorPass.EditorPassSwap | src/builder.js:481-501 | Running the pass then swapping two tracks gives the same result as swapping then running the pass. |
| EditorPass.EditorPassAppend | src/builder.js:708-719 | Running the pass over a list with one track appended is running it over the list, then appending the redrawn track. |
| EditorEdits.NormalTrackParts | src/builder.js:324-358 | A track left unchanged by the pass is ordered by key, and each of its milestones is left unchanged by the rewrite. |
| EditorEdits.NormalTrackFromParts | src/builder.js:324-358 | A track ordered by key whose milestones are all left unchanged by the rewrite is left unchanged by the pass. |
| EditorEdits.NormalUpdate | src/builder.js:324-358 | Replacing one track of normalised data by a normalised track gives normalised data. |
| EditorEdits.MoveUpProperties | src/builder.js:481-490 | Moving track 0 up changes nothing. Otherwise tracks i-1 and i are swapped, every other index is unchanged and the multiset is kept. On normalised data the redraw returns the moved list. |
| EditorEdits.MoveDownProperties | src/builder.js:492-501 | Moving the last track down changes nothing. Otherwise tracks i and i+1 are swapped, every other index is unchanged and the multiset is kept. On normalised data the redraw returns the moved list. |
| EditorEdits.MoveDownThenUp | src/builder.js:481-501 | Moving a track down and then moving it back up restores the list. |
| EditorEdits.DuplicateFields | src/builder.js:503-512 | The copy keeps date, type, url and parsed date. Its label is `(label \|\| name \|\| "Milestone") + " (copy)"`, and its name is `(name \|\| that label base) + " (copy)"`. It differs from the original. |
| EditorEdits.DuplicateInShape | src/builder.js:503-516 | A missing track or milestone changes nothing. Otherwise only that track changes: it gains one milestone, the copy sits at index+1, entries 0..index are unchanged and later entries shift right by one. |
| EditorEdits.DuplicateRewritten | src/builder.js:503-516 | The copy of a normalised milestone is itself normalised. |
| EditorEdits.DuplicateSurvivesRedraw | src/builder.js:503-516 | Duplicating inside normalised data gives normalised data, so the redraw keeps the copy right after its original. |
| EditorEdits.NewTrackRedrawn | src/builder.js:708-719 | The redrawn new track is "New Track" with colour `#333333` and one `start` milestone "Start" dated today. When today's string is not `MM/YYYY`, the redraw leaves the track as built. |
| EditorEdits.AddTrackProperties | src/builder.js:708-719 | Adding a track adds exactly one, whose only milestone is a `start` with today's date. On normalised data, all earlier tracks are unchanged. |
| EditorEdits.AddMilestoneProperties | src/builder.js:669-681 | On normalised data, adding a milestone leaves the other tracks unchanged. The target track stays sorted, and its milestones are the old ones plus the new submission, as a multiset. |
| EditorEdits.DeleteTrackProperties | src/builder.js:567-574 | Running the pass then deleting a track gives the same result as deleting then running the pass. Deleting from normalised data gives normalised data. |
| EditorEdits.DeleteMilestoneProperties | src/builder.js:660-668 | Deleting a milestone from normalised data gives normalised data. |
| EditorEdits.SetDateOnlyThatDate | src/builder.js:238-239 | The write-back changes only the `date` of milestone (ti, mi). Every other track and milestone, and every other field, is unchanged. |
| EditorEdits.DragTarget | src/builder.js:227-236 | The target is the first track with the given name, and within it the first milestone of that type and name. It is None exactly when either lookup fails. |
| Builder.RewriteMilestones | src/builder.js:339-358 | The loop over one sorted track rewrites every milestone as the pass specifies, so no `MM/YYYY` date remains. |
| Builder.TimelineBuilder.constructor | src/builder.js:4-66 | The editor starts from "Project Alpha" (start, review and launch milestones), redrawn and in normal form. |
| Builder.TimelineBuilder.RenderEditor | src/builder.js:324-358 | `data` becomes the pass applied to the old `data`, and is in normal form. |
| Builder.TimelineBuilder.MoveTrackUp | src/builder.js:481-490 | Track 0 is a no-op. Otherwise `data` becomes the redrawn swap. From normal form it is exactly the swap. |
| Builder.TimelineBuilder.MoveTrackDown | src/builder.js:492-501 | The last track is a no-op. Otherwise `data` becomes the redrawn swap. From normal form it is exactly the swap. |
| Builder.TimelineBuilder.DuplicateMilestone | src/builder.js:503-516 | A missing track or milestone is a no-op. Otherwise `data` becomes the redrawn splice of the copy. From normal form it is exactly the splice. |
| Builder.TimelineBuilder.AddTrack | src/builder.js:708-719 | `data` gains one track and is then redrawn. From normal form the earlier tracks are unchanged, and with a non-`MM/YYYY` today the new track is as built. |
| Builder.TimelineBuilder.DeleteTrack | src/builder.js:567-574 | `data` becomes the redrawn list without entry i. From normal form it is exactly that list. |
| Builder.TimelineBuilder.DeleteMilestone | src/builder.js:660-668 | `data` becomes the redrawn data without that milestone. From normal form it is exactly that data. |
| Builder.TimelineBuilder.AddMilestone | src/builder.js:669-681 | `data` becomes the redrawn data with a "New Milestone" submission, dated today, appended to the track. |
| Builder.TimelineBuilder.SetMilestoneDate | src/builder.js:602-613 | The converted input value is stored as that milestone's date, with no redraw. When the conversion throws, nothing changes. |
| Builder.TimelineBuilder.OnMilestoneDrag | src/builder.js:225-247 | When either lookup fails, nothing changes. Otherwise only the matched milestone's date is set to the new string, and then the data is redrawn. |
| Preprocess.ParseAllShape | src/tube-timeline.js:67 | Parsing sets each milestone's `parsed` from its `date` and changes nothing else. |
| Preprocess.FirstParsedOfKind | src/tube-timeline.js:69-70 | `find(d => d.type === kind && d.parsed)` returns the first such date, or None exactly when there is none. |
| Preprocess.FirstParsed | src/tube-timeline.js:69-70 | `find(d => d.parsed)` returns the first parsed date, or None exactly when there is none. |
| Preprocess.LastParsed | src/tube-timeline.js:341 | The reversed `find` returns the last parsed date, or None exactly when there is none. |
| Preprocess.StartedTrackKey | src/tube-timeline.js:68-72 | A track with a parsed `start` is sorted by its first such date. |
| Preprocess.UndatedTrackKey | src/tube-timeline.js:68-72 | A track with no parsed date is sorted by the sentinel 01/01/9999. |
| Preprocess.PreprocessedOrder | src/tube-timeline.js:66-74 | The tracks are sorted by start key, always. Tracks with equal keys keep their order, and the result is a permutation of the parsed tracks. |
| Preprocess.UndatedTracksTrail | src/tube-timeline.js:68-72 | After an undated track, only tracks keyed at or after the sentinel follow. |
| Preprocess.PreprocessIdempotent | src/tube-timeline.js:66-74 | Running `preprocess` again on its own output, as every re-render does, changes nothing. |
| Preprocess.AllDatesProperties | src/tube-timeline.js:72 | `allDates` is ascending, holds every non-null parsed date with repeats kept (multiset), and contains exactly those dates. |
| Preprocess.ParsedWithinAllDates | src/tube-timeline.js:72 | Every parsed date lies between the first and the last entry of `allDates`. |
| Preprocess.CollectParsedMembers | src/tube-timeline.js:72 | A date is among the collected dates exactly when some milestone of some track has it as its parsed date. |
| Records.TrackNamesOf | src/tube-timeline.js:73 | `trackNames` lists the tracks' names in their sorted order. |
| Layout.OrientationDecision | src/tube-timeline.js:209 | With the option missing (it falls back to "auto") or "auto", the layout is horizontal exactly when the viewport's width is at least its height. With "horizontal" it is always horizontal, and with any other value always vertical. |
| Layout.Scale | src/tube-timeline.js:210-211 | The scale is 1 when the height is at least 500, else `max(0.6, h/500)`, so it always lies in [0.6, 1]. |
| Layout.ScaleMonotone | src/tube-timeline.js:210-211 | A taller viewport never gives a smaller scale. |
| Layout.FlagWidth | src/tube-timeline.js:300-302 | The "Today" flag's width lies in [48, 80]. |
| Layout.MarginsAtLeastBase | src/tube-timeline.js:248-312 | Every margin is at least its base value, and `top` equals its base. A horizontal layout keeps the base bottom and left margins. |
| Layout.HorizontalLabelsFit | src/tube-timeline.js:255-263 | Horizontal: right ≥ baseLeft/2 + extentRight + padding, so the rightmost label ends a padding's width inside the viewport. |
| Layout.VerticalLabelsFitRight | src/tube-timeline.js:265-282 | Vertical: right ≥ (2.2·lane + extentRight + padding − 16)/1.5, so labels right of the last track end inside the viewport. |
| Layout.VerticalLabelsFitBottom | src/tube-timeline.js:284-293 | Vertical: bottom ≥ extentBottom + padding, so the lowest label stays inside the viewport. |
| Layout.VerticalFlagFitsLeft | src/tube-timeline.js:295-305 | Vertical: left ≥ flagWidth + 6 + padding, so the flag does not cross the left edge. |
| Labels.ScanLabel | src/tube-timeline.js:228-243 | The loop over one label's words returns the longest non-blank word's length, or 0 for an empty label. |
| Labels.ScanLabels | src/tube-timeline.js:226-245 | The nested loop over every track and milestone returns the longest non-blank label word. |
| Labels.LabelLongestBounds | src/tube-timeline.js:228-243 | No non-blank word of a label is longer than the result, and a positive result is the length of one of them. |
| Labels.LongestLabelWordBounds | src/tube-timeline.js:226-245 | Across all labels, no non-blank word is longer than the result, and a positive result is some word's length. |
| Scene.LineStartWithinDomain | src/tube-timeline.js:336-338 | Whenever `allDates` is non-empty, a line starts at a date within the first and the last entry of `allDates`. When it is empty, the start is undefined. A track without dates starts at `allDates[0]`. |
| Scene.LineEndWithinDomain | src/tube-timeline.js:340-342 | Whenever `allDates` is non-empty, a line ends at a date within the first and the last entry of `allDates`. When it is empty, the end is undefined. A track without dates ends at the last entry. |
| Scene.ClickDims | src/tube-timeline.js:140-150 | After a click on a legend entry, the clicked track's milestones and legend entry are fully opaque. Another track is dimmed exactly when the click focused the clicked track (it was not already focused and its name is not ""), rather than clearing the focus. |
| Scene.EmptyNameFocusesNothing | src/tube-timeline.js:140-141 | A click on a track named "" never leaves a focus that dims anything, since "" is falsy. |
| Scene.ToggleTwice | src/tube-timeline.js:147-150 | Two clicks leave the focus on nothing, or on the clicked track if it was focused before. So they restore the state exactly when nothing or that track was focused. |
| Scene.FocusOpacity | src/tube-timeline.js:373-374 | Without focus, milestones, lines and legend entries are all opaque. With focus, only other tracks fade: milestones and lines to 0.2, legend entries to 0.4. A line's opacity always equals its milestones'. |
| Scene.LegendGrid | src/tube-timeline.js:137-139 | Entry i sits in column i%2 and row i/2, with row < ceil(n/2). Its position is 2·row + col, and two entries never share a cell. |
| Scene.LegendRowsIsCeiling | src/tube-timeline.js:111 | The row count is ceil(n/2): enough rows for n entries, and one row fewer would not be. |
| Scene.ShowTodayMeansWithinRange | src/tube-timeline.js:526-528 | The marker is shown exactly when `showToday` is set and today lies between some parsed date and some parsed date, which is `allDates[0] ≤ today ≤ last`, inclusive at both ends. |
| Scene.TodayHiddenAfterMidnightOfLastDay | src/tube-timeline.js:526-528 | On the day of the last milestone, the marker is hidden once that day's midnight has passed. |
| Scene.CeilMonthMonotone | src/tube-timeline.js:497-500 | A later date never has an earlier month ceiling. |
| Scene.MonthTicksProperties | src/tube-timeline.js:495-501 | The ticks are consecutive first-of-month midnights, strictly increasing, one per month from ceil(first) through ceil(last). |
| Scene.MonthTicksAreMonthStartsInRange | src/tube-timeline.js:495-501 | A date is a tick exactly when it is a month start at or after the first date, and before the month following ceil(last). |
| Dates.CeilMonthIsLeastUpperMonth | src/tube-timeline.js:497-500 | `d3.timeMonth.ceil`: the first of the ceiling month is at or after the date, and no earlier first-of-month is. |
| Dates.FirstOfMonthMonotone | src/tube-timeline.js:495-501 | A later month index gives a strictly later first of the month. |
| Drag.ClampProperties | src/tube-timeline.js:421-424 | For an ordered domain, the clamped date lies inside it. A date already inside is kept, and a date outside goes to the nearer end. |
| Drag.ClampIdempotent | src/tube-timeline.js:421-424 | Clamping twice gives the same result as clamping once. |
| Drag.FmtDateReadsBack | src/tube-timeline.js:439-445 | A valid date with a four-digit year formats as `DD/MM/YYYY`. That string parses, in both the renderer and the editor, back to the same calendar day. |
| Drag.FullDateFormatsBack | src/tube-timeline.js:439-445 | A `DD/MM/YYYY` string whose year does not start with 0 is exactly what `fmtDate` prints for the date it parses to. |
| Drag.DroppedDayStaysInDomain | src/tube-timeline.js:421-445 | Dropping the time of day from a clamped date keeps it inside a domain that starts at midnight. |
| Drag.DragSession.constructor | src/tube-timeline.js:402 | A handle starts with no dragged date. |
| Drag.DragSession.Start | src/tube-timeline.js:404-407 | `start` resets the dragged date to null. |
| Drag.DragSession.Drag | src/tube-timeline.js:408-430 | `drag` stores the mouse position's date clamped into the domain, which lies inside the domain when the domain is ordered. |
| Drag.DragSession.End | src/tube-timeline.js:431-446 | `end` commits a string exactly when a dragged date exists. The string is that date's `fmtDate`, a `DD/MM/YYYY` string for a valid four-digit-year date. Nothing is reset. |
| Drag.PressWithoutMove | src/tube-timeline.js:402-446 | A press and release without movement commits nothing, even after an earlier drag of the same handle. |
| Drag.DragAndRelease | src/tube-timeline.js:402-446 | A drag followed by a release commits the formatted mouse date, clamped into the domain. |
| Timeline.ShowTodayOptionMarker | src/tube-timeline.js:36 | With `showToday: false` the marker is never drawn. With the option true or missing, it is drawn exactly when today lies between some parsed date and some parsed date. |
| Timeline.ApplyEach | src/tube-timeline.js:67 | The `forEach` loop applies its update to every entry, in order, and returns exactly those updated entries. |
| Timeline.ParseMilestones | src/tube-timeline.js:67 | The loop over one track sets every milestone's `parsed` from its date. |
| Timeline.ParseTracks | src/tube-timeline.js:67 | The loop over all tracks parses every milestone of every track. |
| Timeline.CollectDates | src/tube-timeline.js:72 | The `flatMap` loop collects every non-null parsed date, track by track. |
| Timeline.FrameLinesProperties | src/tube-timeline.js:336-361 | There is one line per track, with that track's opacity rule. Both ends lie within the domain whenever it is non-empty. |
| Timeline.FrameLegendProperties | src/tube-timeline.js:137-146 | There is one legend entry per track, in reading order in the two-column grid, with no two sharing a cell. |
| Timeline.FrameHandlesMembers | src/tube-timeline.js:367-397 | A frame has a handle exactly on each drawn (parsed) milestone of kind `start` or `end`. The handle is draggable exactly when an `onMilestoneDrag` callback was given. |
| Timeline.TubeTimeline.constructor | src/tube-timeline.js:25-46 | The renderer stores the data, resolves the `showToday` option (on unless false) and the orientation option ("auto" when missing), and starts with no focus and empty `allDates` and `trackNames`. |
| Timeline.TubeTimeline.Preprocess | src/tube-timeline.js:66-74 | `data` becomes the parsed tracks, stably sorted by start key (a fixed point of preprocessing). `allDates` and `trackNames` are recomputed from it, and the focus is kept. |
| Timeline.TubeTimeline.LegendClick | src/tube-timeline.js:147-150 | The focus is toggled and the renderer re-renders. Already-preprocessed data is left as it is. |
| Timeline.TubeTimeline.Render | src/tube-timeline.js:201-213 | The frame's orientation, scale, margins, lines, legend, month ticks, today marker and handles are as the functions above decide. Every line end lies within `allDates`' range. A handle exists exactly on a parsed `start` or `end` milestone, and is draggable exactly when the drag callback was given. |
| Timeline.SanitizedDataFullyParsed | src/builder.js:125-137 | Every milestone of the data the editor hands to the renderer parses, given today's date as `DD/MM/YYYY`. |

## Left out

- **Drawing.** D3 selections, the SVG itself, the header, fonts, the tooltip
  and the z-order are not modelled. `Render` returns the decisions a frame
  is drawn from instead.
- **Scales.** `d3.scaleTime`, `scalePoint` and `invert` are not modelled. The
  mouse position's date arrives at `Drag.DragSession.Drag` already inverted, and
  the time scale's domain is the session's `lo`/`hi`.
- **Text measurement.** Measuring legend text with `getBBox` needs a live
  DOM, so legend column widths are not modelled.
- **Label extents.** The trigonometric estimate of each word's rotated
  reach is the parameter `extentOf`. `Timeline.LabelExtents` applies it to
  the longest word, which matches the source's running maximum because
  the estimate grows with word length.
- **JavaScript `Date`.** Rollover (`31/02`), time zones and
  `toLocaleDateString` are not modelled. `Date.parse` is the parameter
  `dateParse`, and today's date and today's string are parameters.
  Comparisons are lexicographic. This matches timestamp order only for
  dates whose month and day are in range, since rollover is not modelled.
  Years 0 to 99 are mapped to 1900 to 1999 wherever the source calls
  `new Date(y, m, d)`.
- **Other editor inputs.** The track name, colour and label inputs, the
  label blur fallback, the tooltip and type inputs, the collapse
  `WeakMap`, the dropdowns and the calendar link are not modelled. Each
  assigns one field or is UI plumbing.
- **I/O.** Import (`FileReader`, `JSON.parse`), export (`fetch`, `Blob`,
  canvas) and the window resize listener and `destroy` are not modelled.
- **Configuration errors.** The renderer's errors for a missing target,
  data or d3 are not modelled.
- **Aliasing.** Tracks are values, so the renderer's defensive JSON copy is
  ordinary value semantics. Two references to one track object cannot be
  expressed.
- **`sortTracksByStartDate: false`.** The editor passes this renderer
  option (src/builder.js:224), but the renderer never reads it. `preprocess`
  sorts always, and so does the model.
- Labels.WordLength, Text.PadStart2: lengths count characters (code
  points). JavaScript's `length` and `padStart` count UTF-16 code units, so
  a character outside the Basic Multilingual Plane counts once here and
  twice in the source.
- Scene.ToggleTwice: two clicks restore the focus only when nothing or the
  clicked track was focused before. With another track focused, the first
  click moves the focus and the second clears it.
- Drag.FmtDateReadsBack: the round trip holds only for years 1000 to 9999,
  because `String(year)` has no padding and `DD/MM/YYYY` needs four digits.
- Builder.TimelineBuilder.MoveTrackUp, Builder.TimelineBuilder.MoveTrackDown,
  Builder.TimelineBuilder.DeleteMilestone and
  Builder.TimelineBuilder.AddMilestone require an existing track
  index. Their buttons exist only for rendered tracks.
- Builder.TimelineBuilder.AddMilestone: outside normal form, the new
  milestone's place is given only through the redraw of the edited data.
  For normal data, `EditorEdits.AddMilestoneProperties` gives it.
- **The "Today" marker.** It compares the current time with
  `allDates`' last midnight, so it disappears during the last day itself
  (`Scene.TodayHiddenAfterMidnightOfLastDay`). The model states this
  behaviour as written.
