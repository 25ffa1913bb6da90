/** The array operations the source uses on its lists: `findIndex`,
    swapping two entries by destructuring, and `splice`. */
module Lists {
  import opened Wrappers

  /** `s.findIndex(p)`: the first index satisfying `p`, or None for -1. */
  function FindIndex<T>(s: seq<T>, p: T -> bool): (r: Option<nat>)
    ensures r.Some? ==> r.value < |s| && p(s[r.value])
    ensures r.Some? ==> forall k :: 0 <= k < r.value ==> !p(s[k])
    ensures r.None? <==> forall k :: 0 <= k < |s| ==> !p(s[k])
  {
    if s == [] then None
    else if p(s[0]) then Some(0)
    else match FindIndex(s[1..], p)
      case None => None
      case Some(i) => Some(i + 1)
  }

  /** `[s[i], s[j]] = [s[j], s[i]]`. */
  function Swap<T>(s: seq<T>, i: nat, j: nat): seq<T>
    requires i < |s| && j < |s|
  {
    s[i := s[j]][j := s[i]]
  }

  /** A swap exchanges exactly the two entries and keeps the multiset. */
  lemma SwapProperties<T>(s: seq<T>, i: nat, j: nat)
    requires i < |s| && j < |s|
    ensures |Swap(s, i, j)| == |s|
    ensures Swap(s, i, j)[i] == s[j] && Swap(s, i, j)[j] == s[i]
    ensures forall k :: 0 <= k < |s| && k != i && k != j ==> Swap(s, i, j)[k] == s[k]
    ensures multiset(Swap(s, i, j)) == multiset(s)
  {
    if i != j {
      var a := s[i := s[j]];
      assert multiset(a) == multiset(s) - multiset{s[i]} + multiset{s[j]};
      assert a[j] == s[j];
      assert multiset(a[j := s[i]]) == multiset(a) - multiset{s[j]} + multiset{s[i]};
    }
  }

  /** `s.splice(i, 0, x)`. */
  function InsertAt<T>(s: seq<T>, i: nat, x: T): seq<T>
    requires i <= |s|
  {
    s[..i] + [x] + s[i..]
  }

  /** `s.splice(i, 1)`: removes entry `i`, or nothing when `i` is past the end. */
  function RemoveAt<T>(s: seq<T>, i: nat): seq<T> {
    if i < |s| then s[..i] + s[i + 1..] else s
  }

  lemma InsertAtProperties<T>(s: seq<T>, i: nat, x: T)
    requires i <= |s|
    ensures |InsertAt(s, i, x)| == |s| + 1
    ensures InsertAt(s, i, x)[i] == x
    ensures forall k :: 0 <= k < i ==> InsertAt(s, i, x)[k] == s[k]
    ensures forall k :: i < k <= |s| ==> InsertAt(s, i, x)[k] == s[k - 1]
    ensures multiset(InsertAt(s, i, x)) == multiset(s) + multiset{x}
  {
    assert s == s[..i] + s[i..];
  }

  lemma RemoveAtProperties<T>(s: seq<T>, i: nat)
    ensures i < |s| ==> |RemoveAt(s, i)| == |s| - 1
    ensures i < |s| ==> forall k :: 0 <= k < i ==> RemoveAt(s, i)[k] == s[k]
    ensures i < |s| ==> forall k :: i <= k < |s| - 1 ==> RemoveAt(s, i)[k] == s[k + 1]
    ensures i >= |s| ==> RemoveAt(s, i) == s
  {
  }
}
