/**
 * The label scan at the start of `render` (src/tube-timeline.js:226-245):
 * every milestone label is split at spaces and each non-blank word is
 * measured.  Both rotated extents the source derives from a word grow with
 * its length, so the scan amounts to finding the longest non-blank word;
 * the trigonometric estimate itself is left to the caller.
 */
module Labels {
  import opened Text
  import opened Records

  function MaxNat(a: nat, b: nat): nat {
    if a >= b then a else b
  }

  /** The largest entry, 0 for none. */
  function MaxOf(s: seq<nat>): nat {
    if s == [] then 0 else MaxNat(MaxOf(s[..|s| - 1]), s[|s| - 1])
  }

  lemma {:induction false} MaxOfIsMaximum(s: seq<nat>)
    ensures forall k :: 0 <= k < |s| ==> s[k] <= MaxOf(s)
    ensures MaxOf(s) == 0 || exists k :: 0 <= k < |s| && s[k] == MaxOf(s)
  {
    if s != [] {
      MaxOfIsMaximum(s[..|s| - 1]);
      assert forall k :: 0 <= k < |s| - 1 ==> s[..|s| - 1][k] == s[k];
    }
  }

  /** A word counts by its length when it is not blank. */
  function WordLength(w: string): nat {
    if Trim(w) != "" then |w| else 0
  }

  function WordLengths(words: seq<string>): seq<nat> {
    seq(|words|, k requires 0 <= k < |words| => WordLength(words[k]))
  }

  /** The longest non-blank word of a label; an empty label is skipped. */
  function LabelLongest(caption: string): nat {
    if caption == "" then 0 else MaxOf(WordLengths(Split(caption, ' ')))
  }

  function CaptionLengths(dates: seq<Milestone>): seq<nat> {
    seq(|dates|, j requires 0 <= j < |dates| => LabelLongest(dates[j].caption))
  }

  function TrackLengths(data: seq<Track>): seq<nat> {
    seq(|data|, i requires 0 <= i < |data| => MaxOf(CaptionLengths(data[i].dates)))
  }

  /** The longest non-blank label word over all tracks. */
  function LongestLabelWord(data: seq<Track>): nat {
    MaxOf(TrackLengths(data))
  }

  lemma PrefixStep(s: seq<nat>, i: nat)
    requires i < |s|
    ensures MaxOf(s[..i + 1]) == MaxNat(MaxOf(s[..i]), s[i])
  {
    assert s[..i + 1][..i] == s[..i];
  }

  /** A loop taking the maximum of `s` entry by entry. */
  method ScanMax(s: seq<nat>) returns (n: nat)
    ensures n == MaxOf(s)
  {
    n := 0;
    var k := 0;
    while k < |s|
      invariant 0 <= k <= |s|
      invariant n == MaxOf(s[..k])
    {
      PrefixStep(s, k);
      n := MaxNat(n, s[k]);
      k := k + 1;
    }
    assert s[..|s|] == s;
  }

  /** The scan of one label: `if (d.label)`, split at spaces, skip blank
      words, keep the longest. */
  method ScanLabel(caption: string) returns (n: nat)
    ensures n == LabelLongest(caption)
  {
    if caption == "" {
      return 0;
    }
    n := ScanMax(WordLengths(Split(caption, ' ')));
  }

  /** The nested `forEach` over tracks and their milestones. */
  method ScanLabels(data: seq<Track>) returns (n: nat)
    ensures n == LongestLabelWord(data)
  {
    n := 0;
    var i := 0;
    while i < |data|
      invariant 0 <= i <= |data|
      invariant n == MaxOf(TrackLengths(data)[..i])
    {
      var m := 0;
      var j := 0;
      while j < |data[i].dates|
        invariant 0 <= j <= |data[i].dates|
        invariant m == MaxOf(CaptionLengths(data[i].dates)[..j])
      {
        var w := ScanLabel(data[i].dates[j].caption);
        PrefixStep(CaptionLengths(data[i].dates), j);
        m := MaxNat(m, w);
        j := j + 1;
      }
      assert CaptionLengths(data[i].dates)[..j] == CaptionLengths(data[i].dates);
      PrefixStep(TrackLengths(data), i);
      n := MaxNat(n, m);
      i := i + 1;
    }
    assert TrackLengths(data)[..i] == TrackLengths(data);
  }

  /** `w` is a non-blank word of the label of milestone `j` of track `i`. */
  predicate LabelWord(data: seq<Track>, i: int, j: int, w: string) {
    && 0 <= i < |data| && 0 <= j < |data[i].dates| && data[i].dates[j].caption != ""
    && w in Split(data[i].dates[j].caption, ' ') && Trim(w) != ""
  }

  /** One label: no non-blank word is longer than `LabelLongest`, and a
      positive result is the length of one of them. */
  lemma LabelLongestBounds(caption: string)
    ensures caption != "" ==>
      forall w :: w in Split(caption, ' ') && Trim(w) != "" ==> |w| <= LabelLongest(caption)
    ensures LabelLongest(caption) > 0 ==>
      caption != "" && exists w :: w in Split(caption, ' ') && Trim(w) != "" && |w| == LabelLongest(caption)
  {
    if caption != "" {
      var ws := Split(caption, ' ');
      MaxOfIsMaximum(WordLengths(ws));
      forall w | w in ws && Trim(w) != "" ensures |w| <= LabelLongest(caption) {
        var k :| 0 <= k < |ws| && ws[k] == w;
        assert WordLengths(ws)[k] == |w|;
      }
      if LabelLongest(caption) > 0 {
        var k :| 0 <= k < |ws| && WordLengths(ws)[k] == LabelLongest(caption);
        assert ws[k] in ws;
      }
    }
  }

  /** No non-blank word of any label is longer than `LongestLabelWord`. */
  lemma LongestLabelWordIsUpperBound(data: seq<Track>, i: int, j: int, w: string)
    requires LabelWord(data, i, j, w)
    ensures |w| <= LongestLabelWord(data)
  {
    MaxOfIsMaximum(TrackLengths(data));
    MaxOfIsMaximum(CaptionLengths(data[i].dates));
    LabelLongestBounds(data[i].dates[j].caption);
    assert CaptionLengths(data[i].dates)[j] <= TrackLengths(data)[i];
  }

  /** A positive `LongestLabelWord` is the length of some non-blank word. */
  lemma LongestLabelWordAttained(data: seq<Track>) returns (i: int, j: int, w: string)
    requires LongestLabelWord(data) > 0
    ensures LabelWord(data, i, j, w) && |w| == LongestLabelWord(data)
  {
    var t := TrackLengths(data);
    MaxOfIsMaximum(t);
    i :| 0 <= i < |t| && t[i] == LongestLabelWord(data);
    var c := CaptionLengths(data[i].dates);
    MaxOfIsMaximum(c);
    j :| 0 <= j < |c| && c[j] == t[i];
    LabelLongestBounds(data[i].dates[j].caption);
    w :| w in Split(data[i].dates[j].caption, ' ') && Trim(w) != "" && |w| == c[j];
  }

  /** No non-blank word of any label is longer than the result, and a
      positive result is the length of one of them. */
  lemma LongestLabelWordBounds(data: seq<Track>)
    ensures forall i, j, w :: LabelWord(data, i, j, w) ==> |w| <= LongestLabelWord(data)
    ensures LongestLabelWord(data) > 0 ==>
      exists i, j, w :: LabelWord(data, i, j, w) && |w| == LongestLabelWord(data)
  {
    forall i, j, w | LabelWord(data, i, j, w) ensures |w| <= LongestLabelWord(data) {
      LongestLabelWordIsUpperBound(data, i, j, w);
    }
    if LongestLabelWord(data) > 0 {
      var i, j, w := LongestLabelWordAttained(data);
    }
  }

}
