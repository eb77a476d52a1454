/**
 * The ordering every `sort((a, b) => b.k - a.k)` call of netlify/functions/recommend.js
 * relies on: `Array.prototype.sort` is stable, so a descending sort by a numeric key
 * keeps items with equal keys in their original order. Modelled as a stable insertion
 * sort, together with the maximum and minimum of a non-empty list (`Math.max(...xs)`,
 * `Math.min(...xs)`).
 */
module Order {

  /** Non-increasing by `key`. */
  predicate SortedDesc<T>(s: seq<T>, key: T -> real)
  {
    forall i, j :: 0 <= i < j < |s| ==> key(s[i]) >= key(s[j])
  }

  /** `x` goes after every element whose key is at least its own. */
  function InsertDesc<T>(x: T, s: seq<T>, key: T -> real): (r: seq<T>)
    ensures |r| == |s| + 1
    ensures forall k :: 0 <= k < |r| ==> r[k] == x || r[k] in s
    decreases |s|
  {
    if |s| == 0 then [x]
    else if key(s[0]) < key(x) then [x] + s
    else [s[0]] + InsertDesc(x, s[1..], key)
  }

  lemma {:induction false} InsertDescSorted<T>(x: T, s: seq<T>, key: T -> real)
    requires SortedDesc(s, key)
    ensures SortedDesc(InsertDesc(x, s, key), key)
    decreases |s|
  {
    if |s| > 0 && key(s[0]) >= key(x) {
      var rest := InsertDesc(x, s[1..], key);
      InsertDescSorted(x, s[1..], key);
      forall k | 0 <= k < |rest|
        ensures key(s[0]) >= key(rest[k])
      {
        if rest[k] != x {
          var j :| 0 <= j < |s[1..]| && s[1..][j] == rest[k];
          assert s[j + 1] == rest[k];
        }
      }
    }
  }

  lemma {:induction false} InsertDescPermutes<T>(x: T, s: seq<T>, key: T -> real)
    ensures multiset(InsertDesc(x, s, key)) == multiset(s) + multiset{x}
    decreases |s|
  {
    if |s| > 0 && key(s[0]) >= key(x) {
      InsertDescPermutes(x, s[1..], key);
      assert s == [s[0]] + s[1..];
    }
  }

  /** The stable descending sort: each element in turn is inserted after its equals. */
  function SortDesc<T>(xs: seq<T>, key: T -> real): (r: seq<T>)
    ensures |r| == |xs|
    ensures SortedDesc(r, key)
    decreases |xs|
  {
    if |xs| == 0 then []
    else
      var sorted := SortDesc(xs[..|xs| - 1], key);
      InsertDescSorted(xs[|xs| - 1], sorted, key);
      InsertDesc(xs[|xs| - 1], sorted, key)
  }

  /** The sort is a permutation of its input. */
  lemma {:induction false} SortDescPermutes<T>(xs: seq<T>, key: T -> real)
    ensures multiset(SortDesc(xs, key)) == multiset(xs)
    decreases |xs|
  {
    if |xs| > 0 {
      var front := xs[..|xs| - 1];
      SortDescPermutes(front, key);
      InsertDescPermutes(xs[|xs| - 1], SortDesc(front, key), key);
      assert xs == front + [xs[|xs| - 1]];
    }
  }

  /** The sort neither adds nor drops an element. */
  lemma SortDescSameElements<T>(xs: seq<T>, key: T -> real)
    ensures forall x :: x in SortDesc(xs, key) <==> x in xs
  {
    SortDescPermutes(xs, key);
    forall x
      ensures x in SortDesc(xs, key) <==> x in xs
    {
      assert x in SortDesc(xs, key) <==> x in multiset(SortDesc(xs, key));
      assert x in xs <==> x in multiset(xs);
    }
  }

  /** Appending an element no larger than every earlier one leaves it last. */
  lemma {:induction false} InsertSmallestLast<T>(x: T, s: seq<T>, key: T -> real)
    requires forall i :: 0 <= i < |s| ==> key(s[i]) >= key(x)
    ensures InsertDesc(x, s, key) == s + [x]
    decreases |s|
  {
    if |s| > 0 {
      InsertSmallestLast(x, s[1..], key);
      assert [s[0]] + (s[1..] + [x]) == s + [x];
    }
  }

  /** Stability: input already in order comes back unchanged, ties included. */
  lemma {:induction false} SortDescOfSorted<T>(xs: seq<T>, key: T -> real)
    requires SortedDesc(xs, key)
    ensures SortDesc(xs, key) == xs
    decreases |xs|
  {
    if |xs| > 0 {
      var front := xs[..|xs| - 1];
      assert SortedDesc(front, key);
      SortDescOfSorted(front, key);
      InsertSmallestLast(xs[|xs| - 1], front, key);
      assert front + [xs[|xs| - 1]] == xs;
    }
  }

  /** The elements of `xs` whose key is `c`, in their order in `xs`. */
  function WithKey<T>(xs: seq<T>, key: T -> real, c: real): seq<T>
    decreases |xs|
  {
    if |xs| == 0 then []
    else (if key(xs[0]) == c then [xs[0]] else []) + WithKey(xs[1..], key, c)
  }

  /** One element, then the rest. */
  lemma WithKeyCons<T>(x: T, s: seq<T>, key: T -> real, c: real)
    ensures WithKey([x] + s, key, c) == (if key(x) == c then [x] else []) + WithKey(s, key, c)
  {
    assert ([x] + s)[0] == x && ([x] + s)[1..] == s;
  }

  lemma {:induction false} WithKeyAppend<T>(a: seq<T>, b: seq<T>, key: T -> real, c: real)
    ensures WithKey(a + b, key, c) == WithKey(a, key, c) + WithKey(b, key, c)
    decreases |a|
  {
    if |a| == 0 {
      assert a + b == b;
    } else {
      WithKeyAppend(a[1..], b, key, c);
      assert a + b == [a[0]] + (a[1..] + b);
      assert a == [a[0]] + a[1..];
      WithKeyCons(a[0], a[1..] + b, key, c);
      WithKeyCons(a[0], a[1..], key, c);
    }
  }

  /** A list whose keys all differ from `c` has no element with key `c`. */
  lemma {:induction false} WithKeyNone<T>(s: seq<T>, key: T -> real, c: real)
    requires forall i :: 0 <= i < |s| ==> key(s[i]) != c
    ensures WithKey(s, key, c) == []
    decreases |s|
  {
    if |s| > 0 {
      WithKeyNone(s[1..], key, c);
    }
  }

  lemma SortedDescTail<T>(s: seq<T>, key: T -> real)
    requires |s| > 0 && SortedDesc(s, key)
    ensures SortedDesc(s[1..], key)
    ensures forall i :: 0 <= i < |s| ==> key(s[i]) <= key(s[0])
  {
    forall i, j | 0 <= i < j < |s[1..]|
      ensures key(s[1..][i]) >= key(s[1..][j])
    {
      assert s[1..][i] == s[i + 1] && s[1..][j] == s[j + 1];
    }
  }

  /** Inserting `x` into a sorted list puts it after every element with the same key. */
  lemma {:induction false} InsertDescWithKey<T>(x: T, s: seq<T>, key: T -> real, c: real)
    requires SortedDesc(s, key)
    ensures WithKey(InsertDesc(x, s, key), key, c)
              == WithKey(s, key, c) + (if key(x) == c then [x] else [])
    decreases |s|
  {
    var tail := if key(x) == c then [x] else [];
    if |s| == 0 {
      assert WithKey([x], key, c) == tail + WithKey([x][1..], key, c);
    } else {
      SortedDescTail(s, key);
      var head := if key(s[0]) == c then [s[0]] else [];
      assert WithKey(s, key, c) == head + WithKey(s[1..], key, c);
      if key(s[0]) < key(x) {
        if key(x) == c {
          WithKeyNone(s, key, c);
        }
        assert InsertDesc(x, s, key) == [x] + s;
        assert ([x] + s)[1..] == s;
        assert WithKey([x] + s, key, c) == tail + WithKey(s, key, c);
      } else {
        InsertDescWithKey(x, s[1..], key, c);
        var rest := InsertDesc(x, s[1..], key);
        assert InsertDesc(x, s, key) == [s[0]] + rest;
        assert ([s[0]] + rest)[1..] == rest;
        assert WithKey([s[0]] + rest, key, c) == head + WithKey(rest, key, c);
      }
    }
  }

  /**
   * Stability: for every key value, the elements with that key come out of the sort in
   * the order they went in.
   */
  lemma {:induction false} SortDescStable<T>(xs: seq<T>, key: T -> real, c: real)
    ensures WithKey(SortDesc(xs, key), key, c) == WithKey(xs, key, c)
    decreases |xs|
  {
    if |xs| > 0 {
      SortDescStable(xs[..|xs| - 1], key, c);
      StableStep(xs, SortDesc(xs[..|xs| - 1], key), key, c);
    }
  }

  /** Inserting the last element keeps the elements with key `c` in input order. */
  lemma StableStep<T>(xs: seq<T>, sortedFront: seq<T>, key: T -> real, c: real)
    requires |xs| > 0 && SortedDesc(sortedFront, key)
    requires WithKey(sortedFront, key, c) == WithKey(xs[..|xs| - 1], key, c)
    ensures WithKey(InsertDesc(xs[|xs| - 1], sortedFront, key), key, c) == WithKey(xs, key, c)
  {
    var front := xs[..|xs| - 1];
    var last := xs[|xs| - 1];
    InsertDescWithKey(last, sortedFront, key, c);
    WithKeyAppend(front, [last], key, c);
    WithKeyCons(last, [], key, c);
    assert [last] + [] == [last];
    assert front + [last] == xs;
  }

  /** `Math.max(...xs)` for a non-empty list. */
  function MaxOf(xs: seq<real>): (m: real)
    requires |xs| > 0
    ensures forall i :: 0 <= i < |xs| ==> xs[i] <= m
    ensures exists i :: 0 <= i < |xs| && xs[i] == m
    decreases |xs|
  {
    if |xs| == 1 then xs[0]
    else
      var rest := MaxOf(xs[1..]);
      assert forall i :: 1 <= i < |xs| ==> xs[i] == xs[1..][i - 1];
      if xs[0] >= rest then xs[0] else rest
  }

  /** `Math.min(...xs)` for a non-empty list. */
  function MinOf(xs: seq<real>): (m: real)
    requires |xs| > 0
    ensures forall i :: 0 <= i < |xs| ==> m <= xs[i]
    ensures exists i :: 0 <= i < |xs| && xs[i] == m
    decreases |xs|
  {
    if |xs| == 1 then xs[0]
    else
      var rest := MinOf(xs[1..]);
      assert forall i :: 1 <= i < |xs| ==> xs[i] == xs[1..][i - 1];
      if xs[0] <= rest then xs[0] else rest
  }

  /** The sum of a list, left to right as `reduce((s, v) => s + v, 0)` adds it. */
  function Sum(xs: seq<real>): real
    decreases |xs|
  {
    if |xs| == 0 then 0.0 else Sum(xs[..|xs| - 1]) + xs[|xs| - 1]
  }

  /** A sum of values in [lo, hi] lies in [n * lo, n * hi]. */
  lemma {:induction false} SumBounds(xs: seq<real>, lo: real, hi: real)
    requires forall i :: 0 <= i < |xs| ==> lo <= xs[i] <= hi
    ensures |xs| as real * lo <= Sum(xs) <= |xs| as real * hi
    decreases |xs|
  {
    if |xs| > 0 {
      var n := (|xs| - 1) as real;
      SumBounds(xs[..|xs| - 1], lo, hi);
      assert |xs| as real * lo == n * lo + lo;
      assert |xs| as real * hi == n * hi + hi;
    }
  }
}
