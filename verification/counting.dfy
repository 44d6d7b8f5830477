/** Python's `collections.Counter` over a sequence of hashable values, as the
    service uses it: count every element, keep the keys in the order they were
    first seen, and read the result back as a dictionary. */
module Counting {
  import opened Sorting

  /** One key of a counter with its tally. */
  datatype Entry<K> = Entry(key: K, count: nat)

  /** The keys of a counter, in its order. */
  function Keys<K>(es: seq<Entry<K>>): seq<K> {
    seq(|es|, i requires 0 <= i < |es| => es[i].key)
  }

  /** The sum of all tallies (`sum(counter.values())`). */
  function SumCounts<K>(es: seq<Entry<K>>): nat {
    if |es| == 0 then 0 else es[0].count + SumCounts(es[1..])
  }

  /** `counter[k]`: the tally of the first entry keyed `k`, or 0 when there is none. */
  function Lookup<K(==)>(es: seq<Entry<K>>, k: K): nat {
    if |es| == 0 then 0
    else if es[0].key == k then es[0].count
    else Lookup(es[1..], k)
  }

  /** `counter[x] += 1`: an existing key keeps its place and gains one; a new
      key is appended with tally 1. */
  function Bump<K(==)>(es: seq<Entry<K>>, x: K): seq<Entry<K>> {
    if |es| == 0 then [Entry(x, 1)]
    else if es[0].key == x then [Entry(x, es[0].count + 1)] + es[1..]
    else [es[0]] + Bump(es[1..], x)
  }

  /** `Counter(s)`: one entry per distinct element of `s`, in first-seen
      order; no key is repeated. */
  function Tally<T(==)>(s: seq<T>): (r: seq<Entry<T>>)
    ensures Distinct(Keys(r))
  {
    if |s| == 0 then []
    else
      var prev := Tally(s[..|s| - 1]);
      BumpKeys(prev, s[|s| - 1]);
      Bump(prev, s[|s| - 1])
  }

  /** The keys of the tail are the tail of the keys. */
  lemma KeysTail<K>(es: seq<Entry<K>>)
    requires |es| > 0
    ensures Keys(es) == [es[0].key] + Keys(es[1..])
  {
    assert Keys(es)[1..] == Keys(es[1..]);
  }

  /** Bumping keeps the keys and their order, appending `x` only when it is new. */
  lemma {:induction false} BumpKeys<K>(es: seq<Entry<K>>, x: K)
    ensures Keys(Bump(es, x)) == if x in Keys(es) then Keys(es) else Keys(es) + [x]
  {
    if |es| > 0 {
      KeysTail(es);
      var r := Bump(es, x);
      KeysTail(r);
      if es[0].key != x {
        BumpKeys(es[1..], x);
        assert r[1..] == Bump(es[1..], x);
      } else {
        assert r[1..] == es[1..];
      }
    }
  }

  /** Bumping `x` raises `counter[x]` by one and leaves every other key's tally alone. */
  lemma {:induction false} BumpLookup<K>(es: seq<Entry<K>>, x: K, k: K)
    ensures Lookup(Bump(es, x), k) == Lookup(es, k) + if k == x then 1 else 0
  {
    if |es| > 0 && es[0].key != x {
      var r := Bump(es, x);
      assert r[1..] == Bump(es[1..], x);
      BumpLookup(es[1..], x, k);
    } else if |es| > 0 {
      var r := Bump(es, x);
      assert r[1..] == es[1..];
    }
  }

  /** Every bump adds exactly one to the total. */
  lemma {:induction false} BumpSum<K>(es: seq<Entry<K>>, x: K)
    ensures SumCounts(Bump(es, x)) == SumCounts(es) + 1
  {
    if |es| > 0 && es[0].key != x {
      var r := Bump(es, x);
      assert r[1..] == Bump(es[1..], x);
      BumpSum(es[1..], x);
    } else if |es| > 0 {
      var r := Bump(es, x);
      assert r[1..] == es[1..];
    }
  }

  /** In a counter without repeated keys, looking up an entry's key gives its tally. */
  lemma {:induction false} LookupAt<K>(es: seq<Entry<K>>, i: nat)
    requires Distinct(Keys(es))
    requires i < |es|
    ensures Lookup(es, es[i].key) == es[i].count
  {
    if i > 0 {
      assert Keys(es)[0] != Keys(es)[i];
      KeysTail(es);
      DistinctTail(Keys(es));
      LookupAt(es[1..], i - 1);
    }
  }

  /** Reading the counter back gives each value's multiplicity: `Counter(s)[k]`
      is the number of occurrences of `k` in `s`, 0 for values never seen. */
  lemma {:induction false} TallyLookup<T>(s: seq<T>, k: T)
    ensures Lookup(Tally(s), k) == multiset(s)[k]
  {
    if |s| > 0 {
      var init, x := s[..|s| - 1], s[|s| - 1];
      assert s == init + [x];
      TallyLookup(init, k);
      BumpLookup(Tally(init), x, k);
    }
  }

  /** The keys are exactly the values that occur in `s`. */
  lemma {:induction false} TallyKeys<T>(s: seq<T>)
    ensures forall i :: 0 <= i < |Tally(s)| ==> Tally(s)[i].key in s
    ensures forall j :: 0 <= j < |s| ==> s[j] in Keys(Tally(s))
  {
    if |s| > 0 {
      var init, x := s[..|s| - 1], s[|s| - 1];
      assert s == init + [x];
      TallyKeys(init);
      BumpKeys(Tally(init), x);
      var r := Tally(s);
      forall i | 0 <= i < |r| ensures r[i].key in s {
        assert r[i].key == Keys(r)[i];
      }
      forall j | 0 <= j < |s| ensures s[j] in Keys(r) {
        if j < |init| {
          assert s[j] == init[j];
        }
      }
    }
  }

  /** The tallies add up to the length of the input. */
  lemma {:induction false} TallySum<T>(s: seq<T>)
    ensures SumCounts(Tally(s)) == |s|
  {
    if |s| > 0 {
      TallySum(s[..|s| - 1]);
      BumpSum(Tally(s[..|s| - 1]), s[|s| - 1]);
    }
  }

  /** Every entry's tally is its key's multiplicity in `s`, hence at least one. */
  lemma TallyCounts<T>(s: seq<T>)
    ensures forall i :: 0 <= i < |Tally(s)| ==> Tally(s)[i].count == multiset(s)[Tally(s)[i].key] >= 1
  {
    var r := Tally(s);
    TallyKeys(s);
    forall i | 0 <= i < |r| ensures r[i].count == multiset(s)[r[i].key] >= 1 {
      LookupAt(r, i);
      TallyLookup(s, r[i].key);
    }
  }

  /** A repetition-free sequence has as many elements as its set of values. */
  lemma {:induction false} DistinctCardinality<T>(s: seq<T>)
    requires Distinct(s)
    ensures |set x | x in s| == |s|
  {
    if |s| > 0 {
      var tail := s[1..];
      DistinctTail(s);
      DistinctCardinality(tail);
      assert s[0] !in tail by {
        forall k | 0 <= k < |tail| ensures tail[k] != s[0] {
          assert tail[k] == s[k + 1];
        }
      }
      assert (set x | x in s) == {s[0]} + (set x | x in tail);
    }
  }

  /** The counter has one entry per distinct value of `s`. */
  lemma TallySize<T>(s: seq<T>)
    ensures |Tally(s)| == |set x | x in s|
  {
    var r := Tally(s);
    TallyKeys(s);
    DistinctCardinality(Keys(r));
    assert (set x | x in Keys(r)) == (set x | x in s) by {
      forall x | x in Keys(r) ensures x in s {
        var i :| 0 <= i < |Keys(r)| && Keys(r)[i] == x;
        assert r[i].key == x;
      }
      forall x | x in s ensures x in Keys(r) {
        var j :| 0 <= j < |s| && s[j] == x;
      }
    }
  }
}
