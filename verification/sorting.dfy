/** Stable sorting by an integer key and top-k selection.

    Python's `sorted(xs, key=k, reverse=True)` is documented to keep the
    original order of elements with equal keys, so it is the same as a
    stable ascending sort by the negated key; callers pass that key. */
module Sorting {

  /** `s` is in ascending order of `key`. */
  ghost predicate SortedBy<T>(s: seq<T>, key: T -> int) {
    forall i, j :: 0 <= i < j < |s| ==> key(s[i]) <= key(s[j])
  }

  /** No element of `s` occurs twice. */
  ghost predicate Distinct<T>(s: seq<T>) {
    forall i, j :: 0 <= i < j < |s| ==> s[i] != s[j]
  }

  /** The elements of `s` whose key is `v`, in their order in `s`. */
  function KeyFilter<T>(s: seq<T>, key: T -> int, v: int): (r: seq<T>)
    ensures |r| <= |s|
    ensures forall i :: 0 <= i < |r| ==> key(r[i]) == v && r[i] in s
  {
    if |s| == 0 then []
    else (if key(s[0]) == v then [s[0]] else []) + KeyFilter(s[1..], key, v)
  }

  /** Puts `x` in front of the first element whose key is at least `x`'s. */
  function Insert<T>(x: T, t: seq<T>, key: T -> int): (r: seq<T>)
    ensures |r| == |t| + 1
    ensures multiset(r) == multiset(t) + multiset{x}
  {
    if |t| == 0 then [x]
    else if key(x) <= key(t[0]) then [x] + t
    else
      assert t == [t[0]] + t[1..];
      [t[0]] + Insert(x, t[1..], key)
  }

  /** Inserting into a sorted sequence keeps it sorted. */
  lemma {:induction false} InsertSorted<T>(x: T, t: seq<T>, key: T -> int)
    requires SortedBy(t, key)
    ensures SortedBy(Insert(x, t, key), key)
  {
    if |t| > 0 && key(t[0]) < key(x) {
      var rest := Insert(x, t[1..], key);
      assert SortedBy(t[1..], key) by {
        forall i, j | 0 <= i < j < |t[1..]| ensures key(t[1..][i]) <= key(t[1..][j]) {
          assert t[1..][i] == t[i + 1] && t[1..][j] == t[j + 1];
        }
      }
      InsertSorted(x, t[1..], key);
      forall j | 0 <= j < |rest| ensures key(t[0]) <= key(rest[j]) {
        assert rest[j] in multiset(rest);
        if rest[j] != x {
          assert rest[j] in t[1..];
          var m :| 0 <= m < |t[1..]| && t[1..][m] == rest[j];
          assert t[m + 1] == rest[j];
        }
      }
      var r := [t[0]] + rest;
      forall i, j | 0 <= i < j < |r| ensures key(r[i]) <= key(r[j]) {
        assert r[j] == rest[j - 1];
        if i > 0 {
          assert r[i] == rest[i - 1];
        }
      }
    }
  }

  /** Insertion sort: a stable ascending sort of `s` by `key`. */
  function SortBy<T>(s: seq<T>, key: T -> int): (r: seq<T>)
    ensures |r| == |s|
    ensures multiset(r) == multiset(s)
    ensures SortedBy(r, key)
  {
    if |s| == 0 then []
    else
      assert s == [s[0]] + s[1..];
      var tail := SortBy(s[1..], key);
      InsertSorted(s[0], tail, key);
      Insert(s[0], tail, key)
  }

  /** The first `k` elements of `s`, or all of them when there are fewer (`s[:k]`). */
  function Take<T>(s: seq<T>, k: nat): (r: seq<T>)
    ensures |r| == if k < |s| then k else |s|
    ensures forall i :: 0 <= i < |r| ==> r[i] == s[i]
  {
    if k < |s| then s[..k] else s
  }

  /** The `k` elements of least key, least first, ties in their order in `s`. */
  function TopK<T>(s: seq<T>, key: T -> int, k: nat): (r: seq<T>)
    ensures |r| == if k < |s| then k else |s|
    ensures SortedBy(r, key)
    ensures multiset(r) <= multiset(s)
  {
    var sorted := SortBy(s, key);
    var r := Take(sorted, k);
    assert sorted == r + sorted[|r|..];
    assert multiset(sorted) == multiset(r) + multiset(sorted[|r|..]);
    r
  }

  /** Inserting `x` adds it to the front of its own key class and leaves the
      other classes alone: the sort never reorders equal keys. */
  lemma {:induction false} InsertKeyFilter<T>(x: T, t: seq<T>, key: T -> int, v: int)
    ensures KeyFilter(Insert(x, t, key), key, v)
         == (if key(x) == v then [x] else []) + KeyFilter(t, key, v)
  {
    if |t| == 0 {
      assert KeyFilter([x], key, v) == (if key(x) == v then [x] else []) + KeyFilter([], key, v);
    } else if key(x) <= key(t[0]) {
      assert ([x] + t)[1..] == t;
    } else {
      var rest := Insert(x, t[1..], key);
      assert ([t[0]] + rest)[1..] == rest;
      InsertKeyFilter(x, t[1..], key, v);
    }
  }

  /** Stability: for every key value, the elements carrying it appear in the
      sorted sequence in exactly their original order. */
  lemma {:induction false} SortByStable<T>(s: seq<T>, key: T -> int, v: int)
    ensures KeyFilter(SortBy(s, key), key, v) == KeyFilter(s, key, v)
  {
    if |s| > 0 {
      SortByStable(s[1..], key, v);
      InsertKeyFilter(s[0], SortBy(s[1..], key), key, v);
    }
  }

  /** The key classes of a prefix are prefixes of the key classes. */
  lemma {:induction false} KeyFilterPrefix<T>(s: seq<T>, key: T -> int, v: int, k: nat)
    requires k <= |s|
    ensures KeyFilter(s[..k], key, v) <= KeyFilter(s, key, v)
  {
    if k > 0 {
      assert s[..k][1..] == s[1..][..k - 1];
      KeyFilterPrefix(s[1..], key, v, k - 1);
    }
  }

  /** Dropping the first element keeps a sequence repetition-free. */
  lemma DistinctTail<T>(s: seq<T>)
    requires Distinct(s) && |s| > 0
    ensures Distinct(s[1..])
  {
    forall i, j | 0 <= i < j < |s[1..]| ensures s[1..][i] != s[1..][j] {
      assert s[1..][i] == s[i + 1] && s[1..][j] == s[j + 1];
    }
  }

  /** Two positions holding `s[i]` make its multiplicity at least two. */
  lemma {:induction false} MultiplicityTwo<T>(s: seq<T>, i: nat, j: nat)
    requires i < j < |s| && s[i] == s[j]
    ensures multiset(s)[s[i]] >= 2
  {
    var x := s[i];
    assert s == s[..i] + [x] + s[i + 1..j] + [x] + s[j + 1..];
    assert multiset(s) == multiset(s[..i]) + multiset{x} + multiset(s[i + 1..j]) + multiset{x} + multiset(s[j + 1..]);
  }

  /** In a repetition-free sequence every multiplicity is at most one. */
  lemma {:induction false} MultiplicityAtMostOne<T>(s: seq<T>, x: T)
    requires Distinct(s)
    ensures multiset(s)[x] <= 1
  {
    if |s| > 0 {
      assert s == [s[0]] + s[1..];
      DistinctTail(s);
      MultiplicityAtMostOne(s[1..], x);
      if s[0] == x {
        assert x !in s[1..] by {
          forall k | 0 <= k < |s[1..]| ensures s[1..][k] != x {
            assert s[1..][k] == s[k + 1];
          }
        }
      }
    }
  }

  /** Nothing the selection leaves out has a smaller key than anything it keeps. */
  lemma TopKBound<T>(s: seq<T>, key: T -> int, k: nat, e: T, i: nat)
    requires e in multiset(s) - multiset(TopK(s, key, k))
    requires i < |TopK(s, key, k)|
    ensures key(TopK(s, key, k)[i]) <= key(e)
  {
    var sorted := SortBy(s, key);
    var r := TopK(s, key, k);
    var n := |r|;
    assert r == sorted[..n];
    assert sorted == r + sorted[n..];
    assert multiset(sorted) == multiset(r) + multiset(sorted[n..]);
    assert e in multiset(sorted[n..]);
    var j :| 0 <= j < |sorted[n..]| && sorted[n..][j] == e;
    assert sorted[n + j] == e;
  }

  /** Equal keys keep their order in `s`: each key class of the selection is
      a prefix of that class in `s`. */
  lemma TopKStable<T>(s: seq<T>, key: T -> int, k: nat, v: int)
    ensures KeyFilter(TopK(s, key, k), key, v) <= KeyFilter(s, key, v)
  {
    var sorted := SortBy(s, key);
    assert TopK(s, key, k) == sorted[..|TopK(s, key, k)|];
    KeyFilterPrefix(sorted, key, v, |TopK(s, key, k)|);
    SortByStable(s, key, v);
  }
}
