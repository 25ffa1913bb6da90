/**
 * What the renderer's `preprocess` computes (src/tube-timeline.js:66-74):
 * every milestone gets `parsed`, the tracks are stably sorted by their start
 * key, `allDates` is the ascending list of every parsed date, and
 * `trackNames` lists the track names in the sorted order.
 */
module Preprocess {
  import opened Wrappers
  import opened Dates
  import opened Records
  import opened Sorting
  import opened Lists
  import DateParser

  /** `d.parsed = this.parseDate(d.date)`. */
  function WithParsed(m: Milestone, dateParse: string -> Option<Date>): Milestone {
    m.(parsed := DateParser.ParseDate(m.date, dateParse))
  }

  function ParseTrack(t: Track, dateParse: string -> Option<Date>): Track {
    t.(dates := seq(|t.dates|, j requires 0 <= j < |t.dates| => WithParsed(t.dates[j], dateParse)))
  }

  /** The first loop of `preprocess`, over every milestone of every track. */
  function ParseAll(data: seq<Track>, dateParse: string -> Option<Date>): seq<Track> {
    seq(|data|, i requires 0 <= i < |data| => ParseTrack(data[i], dateParse))
  }

  /** `dates.find(d => d.type === kind && d.parsed)?.parsed`. */
  function FirstParsedOfKind(s: seq<Milestone>, kind: string): (r: Option<Date>)
    ensures r.None? <==> forall j :: 0 <= j < |s| ==> !(s[j].kind == kind && s[j].parsed.Some?)
    ensures r.Some? ==> exists j :: (0 <= j < |s| && s[j].kind == kind && s[j].parsed == r
      && forall k :: 0 <= k < j ==> !(s[k].kind == kind && s[k].parsed.Some?))
  {
    match FindIndex(s, (m: Milestone) => m.kind == kind && m.parsed.Some?)
    case None => None
    case Some(j) => s[j].parsed
  }

  /** `dates.find(d => d.parsed)?.parsed`. */
  function FirstParsed(s: seq<Milestone>): (r: Option<Date>)
    ensures r.None? <==> forall j :: 0 <= j < |s| ==> s[j].parsed.None?
    ensures r.Some? ==> exists j :: (0 <= j < |s| && s[j].parsed == r
      && forall k :: 0 <= k < j ==> s[k].parsed.None?)
  {
    match FindIndex(s, (m: Milestone) => m.parsed.Some?)
    case None => None
    case Some(j) => s[j].parsed
  }

  /** `dates.slice().reverse().find(d => d.parsed)?.parsed`. */
  function LastParsed(s: seq<Milestone>): (r: Option<Date>)
    ensures r.None? <==> forall j :: 0 <= j < |s| ==> s[j].parsed.None?
    ensures r.Some? ==> exists j :: (0 <= j < |s| && s[j].parsed == r
      && forall k :: j < k < |s| ==> s[k].parsed.None?)
  {
    if s == [] then None
    else if s[|s| - 1].parsed.Some? then s[|s| - 1].parsed
    else LastParsed(s[..|s| - 1])
  }

  /** The key `preprocess` sorts tracks by: the first parsed `start`, else the
      first parsed date, else 01/01/9999. */
  function StartKey(t: Track): Date {
    FirstParsedOfKind(t.dates, "start").OrElse(FirstParsed(t.dates)).GetOr(Sentinel)
  }

  /** The sorted track list `preprocess` leaves in `this.data`. */
  function PreprocessedData(data: seq<Track>, dateParse: string -> Option<Date>): seq<Track> {
    SortBy(ParseAll(data, dateParse), StartKey)
  }

  /** The non-null parsed dates of one track, in order. */
  function ParsedDates(s: seq<Milestone>): seq<Date> {
    if s == [] then [] else (if s[0].parsed.Some? then [s[0].parsed.value] else []) + ParsedDates(s[1..])
  }

  /** `data.flatMap(t => t.dates.map(d => d.parsed).filter(Boolean))`. */
  function CollectParsed(data: seq<Track>): seq<Date> {
    if data == [] then [] else ParsedDates(data[0].dates) + CollectParsed(data[1..])
  }

  function Identity(d: Date): Date {
    d
  }

  /** `allDates`: every parsed date, ascending.  The source's `Set` holds
      distinct `Date` objects, so equal dates are all kept. */
  function AllDatesOf(data: seq<Track>): seq<Date> {
    SortBy(CollectParsed(data), Identity)
  }

  /* ---------- parsing ---------- */

  /** Parsing sets `parsed` from `date` and changes nothing else. */
  lemma ParseAllShape(data: seq<Track>, dateParse: string -> Option<Date>)
    ensures |ParseAll(data, dateParse)| == |data|
    ensures forall i :: 0 <= i < |data| ==>
      var t, u := data[i], ParseAll(data, dateParse)[i];
      u == t.(dates := u.dates) && |u.dates| == |t.dates|
    ensures forall i, j :: 0 <= i < |data| && 0 <= j < |data[i].dates| ==>
      ParseAll(data, dateParse)[i].dates[j]
        == data[i].dates[j].(parsed := DateParser.ParseDate(data[i].dates[j].date, dateParse))
  {
  }

  lemma ParseTrackIdempotent(t: Track, dateParse: string -> Option<Date>)
    ensures ParseTrack(ParseTrack(t, dateParse), dateParse) == ParseTrack(t, dateParse)
  {
    var once := ParseTrack(t, dateParse);
    assert ParseTrack(once, dateParse).dates == once.dates;
  }

  /* ---------- the track order ---------- */

  /** A track with no parsed date has the sentinel key. */
  lemma UndatedTrackKey(t: Track)
    requires forall j :: 0 <= j < |t.dates| ==> t.dates[j].parsed.None?
    ensures StartKey(t) == Sentinel
  {
  }

  /** A track with a parsed `start` is keyed by the first such. */
  lemma StartedTrackKey(t: Track, j: nat)
    requires j < |t.dates| && t.dates[j].kind == "start" && t.dates[j].parsed.Some?
    requires forall k :: 0 <= k < j ==> !(t.dates[k].kind == "start" && t.dates[k].parsed.Some?)
    ensures StartKey(t) == t.dates[j].parsed.value
  {
    var r := FirstParsedOfKind(t.dates, "start");
    assert r.Some?;
    var i :| 0 <= i < |t.dates| && t.dates[i].kind == "start" && t.dates[i].parsed == r
      && forall k :: 0 <= k < i ==> !(t.dates[k].kind == "start" && t.dates[k].parsed.Some?);
    assert !(i < j) && !(j < i);
  }

  /** After `preprocess` the tracks are ordered by start key, tracks with equal
      keys keep their relative order, and the tracks are the parsed inputs. */
  lemma PreprocessedOrder(data: seq<Track>, dateParse: string -> Option<Date>)
    ensures SortedBy(PreprocessedData(data, dateParse), StartKey)
    ensures multiset(PreprocessedData(data, dateParse)) == multiset(ParseAll(data, dateParse))
    ensures forall k :: WithKey(PreprocessedData(data, dateParse), StartKey, k)
                     == WithKey(ParseAll(data, dateParse), StartKey, k)
  {
    SortBySortedPermutation(ParseAll(data, dateParse), StartKey);
    forall k ensures WithKey(PreprocessedData(data, dateParse), StartKey, k)
                  == WithKey(ParseAll(data, dateParse), StartKey, k) {
      SortByStable(ParseAll(data, dateParse), StartKey, k);
    }
  }

  /** Behind an undated track only tracks keyed at or after 01/01/9999 follow. */
  lemma UndatedTracksTrail(data: seq<Track>, dateParse: string -> Option<Date>, i: nat, j: nat)
    requires i < j < |PreprocessedData(data, dateParse)|
    requires forall k :: 0 <= k < |PreprocessedData(data, dateParse)[i].dates| ==>
      PreprocessedData(data, dateParse)[i].dates[k].parsed.None?
    ensures LessEq(Sentinel, StartKey(PreprocessedData(data, dateParse)[j]))
  {
    PreprocessedOrder(data, dateParse);
    UndatedTrackKey(PreprocessedData(data, dateParse)[i]);
  }

  lemma InParseAll(data: seq<Track>, x: Track, dateParse: string -> Option<Date>)
    requires x in ParseAll(data, dateParse)
    ensures ParseTrack(x, dateParse) == x
  {
    var k :| 0 <= k < |data| && ParseAll(data, dateParse)[k] == x;
    ParseTrackIdempotent(data[k], dateParse);
  }

  lemma ParseAllOfParsed(s: seq<Track>, data: seq<Track>, dateParse: string -> Option<Date>)
    requires multiset(s) == multiset(ParseAll(data, dateParse))
    ensures ParseAll(s, dateParse) == s
  {
    forall i | 0 <= i < |s| ensures ParseAll(s, dateParse)[i] == s[i] {
      assert s[i] in multiset(ParseAll(data, dateParse));
      InParseAll(data, s[i], dateParse);
    }
  }

  /** Re-rendering runs `preprocess` again on its own output; that changes
      nothing. */
  lemma PreprocessIdempotent(data: seq<Track>, dateParse: string -> Option<Date>)
    ensures PreprocessedData(PreprocessedData(data, dateParse), dateParse) == PreprocessedData(data, dateParse)
  {
    var p := PreprocessedData(data, dateParse);
    PreprocessedOrder(data, dateParse);
    ParseAllOfParsed(p, data, dateParse);
    SortBySortedIdentity(p, StartKey);
  }

  /* ---------- allDates ---------- */

  lemma {:induction false} ParsedDatesMembers(s: seq<Milestone>, d: Date)
    ensures d in ParsedDates(s) <==> exists j :: 0 <= j < |s| && s[j].parsed == Some(d)
  {
    if s != [] {
      ParsedDatesMembers(s[1..], d);
      if d in ParsedDates(s[1..]) {
        var j :| 0 <= j < |s[1..]| && s[1..][j].parsed == Some(d);
        assert s[j + 1].parsed == Some(d);
      }
      if exists j :: 0 <= j < |s| && s[j].parsed == Some(d) {
        var j :| 0 <= j < |s| && s[j].parsed == Some(d);
        if j > 0 {
          assert s[1..][j - 1].parsed == Some(d);
        }
      }
    }
  }

  lemma {:induction false} CollectParsedMembers(data: seq<Track>, d: Date)
    ensures d in CollectParsed(data) <==>
      exists i, j :: 0 <= i < |data| && 0 <= j < |data[i].dates| && data[i].dates[j].parsed == Some(d)
  {
    if data != [] {
      CollectParsedMembers(data[1..], d);
      ParsedDatesMembers(data[0].dates, d);
      if d in CollectParsed(data[1..]) {
        var i, j :| 0 <= i < |data[1..]| && 0 <= j < |data[1..][i].dates| && data[1..][i].dates[j].parsed == Some(d);
        assert data[i + 1].dates[j].parsed == Some(d);
      }
      if exists i, j :: 0 <= i < |data| && 0 <= j < |data[i].dates| && data[i].dates[j].parsed == Some(d) {
        var i, j :| 0 <= i < |data| && 0 <= j < |data[i].dates| && data[i].dates[j].parsed == Some(d);
        if i > 0 {
          assert data[1..][i - 1].dates[j].parsed == Some(d);
        }
      }
    }
  }

  /** `allDates` is ascending and holds exactly the parsed dates, with their
      repetitions. */
  lemma AllDatesProperties(data: seq<Track>)
    ensures SortedBy(AllDatesOf(data), Identity)
    ensures multiset(AllDatesOf(data)) == multiset(CollectParsed(data))
    ensures forall d :: d in AllDatesOf(data) <==>
      exists i, j :: 0 <= i < |data| && 0 <= j < |data[i].dates| && data[i].dates[j].parsed == Some(d)
  {
    SortBySortedPermutation(CollectParsed(data), Identity);
    forall d ensures d in AllDatesOf(data) <==>
      exists i, j :: 0 <= i < |data| && 0 <= j < |data[i].dates| && data[i].dates[j].parsed == Some(d)
    {
      assert d in AllDatesOf(data) <==> d in multiset(AllDatesOf(data));
      CollectParsedMembers(data, d);
    }
  }

  /** Every entry of an ascending list lies between its first and last. */
  lemma SortedBounds(s: seq<Date>, d: Date)
    requires SortedBy(s, Identity) && d in s
    ensures LessEq(s[0], d) && LessEq(d, s[|s| - 1])
  {
    var k :| 0 <= k < |s| && s[k] == d;
    if k > 0 {
      assert LessEq(Identity(s[0]), Identity(s[k]));
    }
    if k < |s| - 1 {
      assert LessEq(Identity(s[k]), Identity(s[|s| - 1]));
    }
  }

  /** Every parsed date of every track lies within the first and last entry
      of `allDates`. */
  lemma ParsedWithinAllDates(data: seq<Track>, i: nat, j: nat)
    requires i < |data| && j < |data[i].dates| && data[i].dates[j].parsed.Some?
    ensures var a := AllDatesOf(data);
      |a| > 0 && LessEq(a[0], data[i].dates[j].parsed.value) && LessEq(data[i].dates[j].parsed.value, a[|a| - 1])
  {
    AllDatesProperties(data);
    SortedBounds(AllDatesOf(data), data[i].dates[j].parsed.value);
  }
}
