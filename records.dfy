/**
 * The track/milestone records that the editor edits and the renderer draws.
 * A field the JavaScript object may lack (`label`, `url`) is the empty
 * string here: every use in the source only tests such fields for
 * falsiness, for which `undefined` and `""` behave alike.
 */
module Records {
  import opened Wrappers
  import opened Dates

  /** One dated event on a track.  `kind` is the source's `type` field
      ("start", "end", "node", "submission", ...) and `caption` its `label`
      field (`label` is a keyword here).  `parsed` is the `parsed`
      property the renderer's preprocess pass writes; the editor never sets it. */
  datatype Milestone = Milestone(
    date: string,
    name: string,
    kind: string,
    caption: string,
    url: string,
    parsed: Option<Date>)

  /** One lane of the timeline; `track` is its display name and `caption`
      the source's `label` (a short code). */
  datatype Track = Track(track: string, caption: string, color: string, dates: seq<Milestone>)

  /** The editor's milestones carry no parsed date. */
  function NewMilestone(date: string, name: string, kind: string, caption: string): Milestone {
    Milestone(date, name, kind, caption, "", None)
  }

  function TrackNamesOf(data: seq<Track>): (names: seq<string>)
    ensures |names| == |data|
    ensures forall i :: 0 <= i < |data| ==> names[i] == data[i].track
  {
    if data == [] then [] else [data[0].track] + TrackNamesOf(data[1..])
  }
}
