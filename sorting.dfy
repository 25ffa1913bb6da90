/**
 * `Array.prototype.sort` with a comparator that subtracts two date keys.
 * The language has required this sort to be stable since ECMAScript 2019,
 * so it is modelled by a stable insertion sort; the lemmas below state what
 * any stable sort guarantees: ordered by key, a permutation, and elements
 * with equal keys kept in their original relative order.
 */
module Sorting {
  import opened Dates

  predicate SortedBy<T>(s: seq<T>, key: T -> Date) {
    forall i, j :: 0 <= i < j < |s| ==> LessEq(key(s[i]), key(s[j]))
  }

  /** Insert `x` in front of the first element whose key is not below `x`'s. */
  function InsertBy<T>(x: T, s: seq<T>, key: T -> Date): (r: seq<T>)
    ensures |r| == |s| + 1
  {
    if s == [] || LessEq(key(x), key(s[0])) then [x] + s
    else [s[0]] + InsertBy(x, s[1..], key)
  }

  /** The stable sort of `s` by `key`. */
  function SortBy<T>(s: seq<T>, key: T -> Date): (r: seq<T>)
    ensures |r| == |s|
  {
    if s == [] then [] else InsertBy(s[0], SortBy(s[1..], key), key)
  }

  /** The elements of `s` whose key is `k`, in order. */
  function WithKey<T>(s: seq<T>, key: T -> Date, k: Date): seq<T> {
    if s == [] then []
    else (if key(s[0]) == k then [s[0]] else []) + WithKey(s[1..], key, k)
  }

  lemma {:induction false} InsertBySorted<T>(x: T, s: seq<T>, key: T -> Date)
    requires SortedBy(s, key)
    ensures SortedBy(InsertBy(x, s, key), key)
    ensures multiset(InsertBy(x, s, key)) == multiset(s) + multiset{x}
  {
    if s == [] || LessEq(key(x), key(s[0])) {
      var r := [x] + s;
      forall i, j | 0 <= i < j < |r| ensures LessEq(key(r[i]), key(r[j])) {
        if i == 0 {
          LessEqTransitive(key(x), key(s[0]), key(s[j - 1]));
        }
      }
    } else {
      InsertBySorted(x, s[1..], key);
      var tail := InsertBy(x, s[1..], key);
      var r := [s[0]] + tail;
      assert s == [s[0]] + s[1..];
      assert multiset(tail) == multiset(s[1..]) + multiset{x};
      forall j | 0 <= j < |tail| ensures LessEq(key(s[0]), key(tail[j])) {
        assert tail[j] in multiset(tail);
        assert tail[j] == x || tail[j] in multiset(s[1..]);
        if tail[j] == x {
          LessEqTotal(key(x), key(s[0]));
        } else {
          var k :| 1 <= k < |s| && s[k] == tail[j];
        }
      }
      assert SortedBy(r, key);
      assert r == InsertBy(x, s, key);
    }
  }

  /** The stable sort is ordered by key and is a permutation of its input. */
  lemma {:induction false} SortBySortedPermutation<T>(s: seq<T>, key: T -> Date)
    ensures SortedBy(SortBy(s, key), key)
    ensures multiset(SortBy(s, key)) == multiset(s)
  {
    if s != [] {
      SortBySortedPermutation(s[1..], key);
      InsertBySorted(s[0], SortBy(s[1..], key), key);
      assert s == [s[0]] + s[1..];
    }
  }

  lemma {:induction false} WithKeyAppend<T>(a: seq<T>, b: seq<T>, key: T -> Date, k: Date)
    ensures WithKey(a + b, key, k) == WithKey(a, key, k) + WithKey(b, key, k)
  {
    if a == [] {
      assert a + b == b;
    } else {
      WithKeyAppend(a[1..], b, key, k);
      assert (a + b)[1..] == a[1..] + b;
    }
  }

  lemma {:induction false} InsertByWithKey<T>(x: T, s: seq<T>, key: T -> Date, k: Date)
    ensures WithKey(InsertBy(x, s, key), key, k)
         == (if key(x) == k then [x] else []) + WithKey(s, key, k)
  {
    if s == [] || LessEq(key(x), key(s[0])) {
      WithKeyAppend([x], s, key, k);
    } else {
      InsertByWithKey(x, s[1..], key, k);
      WithKeyAppend([s[0]], InsertBy(x, s[1..], key), key, k);
      assert key(s[0]) != key(x);
    }
  }

  /** Stability: for every key value, the elements carrying it keep their order. */
  lemma {:induction false} SortByStable<T>(s: seq<T>, key: T -> Date, k: Date)
    ensures WithKey(SortBy(s, key), key, k) == WithKey(s, key, k)
  {
    if s != [] {
      SortByStable(s[1..], key, k);
      InsertByWithKey(s[0], SortBy(s[1..], key), key, k);
    }
  }

  /** Sorting what is already sorted changes nothing. */
  lemma {:induction false} SortBySortedIdentity<T>(s: seq<T>, key: T -> Date)
    requires SortedBy(s, key)
    ensures SortBy(s, key) == s
  {
    if s != [] {
      assert SortedBy(s[1..], key);
      SortBySortedIdentity(s[1..], key);
    }
  }

  /** Sorting by a key that agrees with `key` under `f` commutes with mapping `f`. */
  lemma {:induction false} SortByMap<T>(s: seq<T>, key: T -> Date, f: T -> T)
    requires forall x :: key(f(x)) == key(x)
    ensures SortBy(Map(s, f), key) == Map(SortBy(s, key), f)
  {
    if s != [] {
      SortByMap(s[1..], key, f);
      assert Map(s, f)[1..] == Map(s[1..], f);
      InsertByMap(s[0], SortBy(s[1..], key), key, f);
    }
  }

  lemma {:induction false} InsertByMap<T>(x: T, s: seq<T>, key: T -> Date, f: T -> T)
    requires forall y :: key(f(y)) == key(y)
    ensures InsertBy(f(x), Map(s, f), key) == Map(InsertBy(x, s, key), f)
  {
    if s != [] && !LessEq(key(x), key(s[0])) {
      InsertByMap(x, s[1..], key, f);
      assert Map(s, f)[1..] == Map(s[1..], f);
    }
  }

  function Map<T>(s: seq<T>, f: T -> T): (r: seq<T>)
    ensures |r| == |s| && forall i :: 0 <= i < |s| ==> r[i] == f(s[i])
  {
    if s == [] then [] else [f(s[0])] + Map(s[1..], f)
  }
}
