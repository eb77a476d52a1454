/**
 * netlify/functions/backend/sorting.py: a top-down merge sort of recommendation rows,
 * in place on the list, by descending similarity; and `heapSort`, which orders the rows
 * by descending (similarity, track id).
 */
module MergeSort {

  /** The two fields of a recommendation row the sorts look at. */
  datatype Row = Row(similarity: real, trackId: string)

  /** `comparator(a, b)`: strictly greater similarity. */
  predicate Comparator(a: Row, b: Row)
  {
    a.similarity > b.similarity
  }

  /** Non-increasing similarity. */
  predicate Sorted(s: seq<Row>)
  {
    forall i, j :: 0 <= i < j < |s| ==> s[i].similarity >= s[j].similarity
  }

  /** What `merge` writes over `l..r`: the left run's head only when it is strictly greater. */
  function MergeRuns(left: seq<Row>, right: seq<Row>): (r: seq<Row>)
    ensures |r| == |left| + |right|
    decreases |left| + |right|
  {
    if |left| == 0 then right
    else if |right| == 0 then left
    else if Comparator(left[0], right[0]) then [left[0]] + MergeRuns(left[1..], right)
    else [right[0]] + MergeRuns(left, right[1..])
  }

  lemma {:induction false} MergeRunsPermutes(left: seq<Row>, right: seq<Row>)
    ensures multiset(MergeRuns(left, right)) == multiset(left) + multiset(right)
    decreases |left| + |right|
  {
    if |left| > 0 && |right| > 0 {
      if Comparator(left[0], right[0]) {
        MergeRunsPermutes(left[1..], right);
        assert MergeRuns(left, right) == [left[0]] + MergeRuns(left[1..], right);
        ConsPermutes(left, MergeRuns(left[1..], right), right);
      } else {
        MergeRunsPermutes(left, right[1..]);
        assert MergeRuns(left, right) == [right[0]] + MergeRuns(left, right[1..]);
        ConsPermutes(right, MergeRuns(left, right[1..]), left);
      }
    }
  }

  /** Putting a run's head in front of a merge of its tail keeps the multiset. */
  lemma ConsPermutes(run: seq<Row>, rest: seq<Row>, other: seq<Row>)
    requires |run| > 0
    requires multiset(rest) == multiset(run[1..]) + multiset(other)
    ensures multiset([run[0]] + rest) == multiset(run) + multiset(other)
  {
    assert run == [run[0]] + run[1..];
  }

  /** Every element of a merge comes from one of the runs. */
  lemma MergeRunsFrom(left: seq<Row>, right: seq<Row>, x: Row)
    requires x in MergeRuns(left, right)
    ensures x in left || x in right
  {
    MergeRunsPermutes(left, right);
    assert x in multiset(MergeRuns(left, right));
  }

  /** Two sorted runs merge into one sorted run. */
  lemma {:induction false} MergeRunsSorted(left: seq<Row>, right: seq<Row>)
    requires Sorted(left) && Sorted(right)
    ensures Sorted(MergeRuns(left, right))
    decreases |left| + |right|
  {
    if |left| > 0 && |right| > 0 {
      if Comparator(left[0], right[0]) {
        var rest := MergeRuns(left[1..], right);
        MergeRunsSorted(left[1..], right);
        HeadBounds(left, right, rest);
        assert MergeRuns(left, right) == [left[0]] + rest;
        ConsSorted(left[0], rest);
      } else {
        var rest := MergeRuns(left, right[1..]);
        MergeRunsSorted(left, right[1..]);
        HeadBounds(right, left, rest);
        assert MergeRuns(left, right) == [right[0]] + rest;
        ConsSorted(right[0], rest);
      }
    }
  }

  /** The head of a run at least as large as the other run's head bounds a merge of the rest. */
  lemma HeadBounds(run: seq<Row>, other: seq<Row>, rest: seq<Row>)
    requires |run| > 0 && |other| > 0 && Sorted(run) && Sorted(other)
    requires run[0].similarity >= other[0].similarity
    requires rest == MergeRuns(run[1..], other) || rest == MergeRuns(other, run[1..])
    ensures forall x :: x in rest ==> run[0].similarity >= x.similarity
  {
    forall x | x in rest
      ensures run[0].similarity >= x.similarity
    {
      if rest == MergeRuns(run[1..], other) {
        MergeRunsFrom(run[1..], other, x);
      } else {
        MergeRunsFrom(other, run[1..], x);
      }
      if x in run[1..] {
        var t :| 0 <= t < |run[1..]| && run[1..][t] == x;
        assert run[t + 1] == x;
      } else {
        var t :| 0 <= t < |other| && other[t] == x;
      }
    }
  }

  /** A row no smaller than every row of a sorted run can go in front of it. */
  lemma ConsSorted(head: Row, rest: seq<Row>)
    requires Sorted(rest)
    requires forall x :: x in rest ==> head.similarity >= x.similarity
    ensures Sorted([head] + rest)
  {
    forall i, j | 0 <= i < j < |[head] + rest|
      ensures ([head] + rest)[i].similarity >= ([head] + rest)[j].similarity
    {
      if i == 0 {
        assert ([head] + rest)[j] == rest[j - 1];
        assert rest[j - 1] in rest;
      }
    }
  }

  /** On equal similarities the right run's row goes first. */
  lemma TieTakesRight(x: Row, y: Row)
    requires x.similarity == y.similarity
    ensures MergeRuns([x], [y]) == [y, x]
  {
    assert [y][1..] == [];
  }

  /** The size of the left half `mergeSortHelper` splits off: `l..m` with `m = l + (r - l) // 2`. */
  function LeftSize(n: nat): (h: nat)
    requires n >= 2
    ensures 1 <= h < n
  {
    (n - 1) / 2 + 1
  }

  /** What `mergeSortHelper` leaves over `l..r`, as a function of what was there. */
  function MergeSortSpec(s: seq<Row>): (r: seq<Row>)
    ensures |r| == |s|
    decreases |s|
  {
    if |s| <= 1 then s
    else
      var h := LeftSize(|s|);
      MergeRuns(MergeSortSpec(s[..h]), MergeSortSpec(s[h..]))
  }

  /** After `mergeSort`, similarities are non-increasing. */
  lemma {:induction false} MergeSortSorted(s: seq<Row>)
    ensures Sorted(MergeSortSpec(s))
    decreases |s|
  {
    if |s| > 1 {
      var h := LeftSize(|s|);
      MergeSortSorted(s[..h]);
      MergeSortSorted(s[h..]);
      MergeRunsSorted(MergeSortSpec(s[..h]), MergeSortSpec(s[h..]));
    }
  }

  /** ... and the rows are the same rows, with the same multiplicities. */
  lemma {:induction false} MergeSortPermutes(s: seq<Row>)
    ensures multiset(MergeSortSpec(s)) == multiset(s)
    decreases |s|
  {
    if |s| > 1 {
      var h := LeftSize(|s|);
      MergeSortPermutes(s[..h]);
      MergeSortPermutes(s[h..]);
      MergeRunsPermutes(MergeSortSpec(s[..h]), MergeSortSpec(s[h..]));
      assert MergeSortSpec(s) == MergeRuns(MergeSortSpec(s[..h]), MergeSortSpec(s[h..]));
      SplitPermutes(s, h);
    }
  }

  lemma SplitPermutes(s: seq<Row>, h: nat)
    requires h <= |s|
    ensures multiset(s) == multiset(s[..h]) + multiset(s[h..])
  {
    assert s == s[..h] + s[h..];
  }

  /** The sort is not stable: two rows of equal similarity come out swapped. */
  lemma MergeSortNotStable(x: Row, y: Row)
    requires x.similarity == y.similarity
    ensures MergeSortSpec([x, y]) == [y, x]
  {
    assert LeftSize(2) == 1;
    assert [x, y][..1] == [x] && [x, y][1..] == [y];
    TieTakesRight(x, y);
  }

  /** One step of the merge: the greater head (the right one on a tie) goes first. */
  lemma MergeRunsHead(left: seq<Row>, right: seq<Row>, i: nat, j: nat)
    requires i < |left| && j < |right|
    ensures Comparator(left[i], right[j]) ==>
              MergeRuns(left[i..], right[j..]) == [left[i]] + MergeRuns(left[i + 1..], right[j..])
    ensures !Comparator(left[i], right[j]) ==>
              MergeRuns(left[i..], right[j..]) == [right[j]] + MergeRuns(left[i..], right[j + 1..])
  {
    assert left[i..][0] == left[i] && left[i..][1..] == left[i + 1..];
    assert right[j..][0] == right[j] && right[j..][1..] == right[j + 1..];
  }

  /** The merge of `left[i..]` and `right[j..]`, by position, as the loop of `merge` walks it. */
  function MergeFrom(left: seq<Row>, right: seq<Row>, i: nat, j: nat): (r: seq<Row>)
    requires i <= |left| && j <= |right|
    ensures |r| == |left| - i + |right| - j
    decreases |left| - i + |right| - j
  {
    if i == |left| then right[j..]
    else if j == |right| then left[i..]
    else if Comparator(left[i], right[j]) then [left[i]] + MergeFrom(left, right, i + 1, j)
    else [right[j]] + MergeFrom(left, right, i, j + 1)
  }

  /** Walking by position is merging the remaining runs. */
  lemma {:induction false} MergeFromIsMergeRuns(left: seq<Row>, right: seq<Row>, i: nat, j: nat)
    requires i <= |left| && j <= |right|
    ensures MergeFrom(left, right, i, j) == MergeRuns(left[i..], right[j..])
    decreases |left| - i + |right| - j
  {
    if i < |left| && j < |right| {
      MergeRunsHead(left, right, i, j);
      if Comparator(left[i], right[j]) {
        MergeFromIsMergeRuns(left, right, i + 1, j);
      } else {
        MergeFromIsMergeRuns(left, right, i, j + 1);
      }
    }
  }

  /** One step of the loop: the greater head (the right one on a tie) is the row written at `i0 + j0`. */
  lemma MergeFromStep(left: seq<Row>, right: seq<Row>, goal: seq<Row>, i0: nat, j0: nat, i: nat, j: nat)
    requires i0 < |left| && j0 < |right| && i0 + j0 <= |goal|
    requires goal[i0 + j0..] == MergeFrom(left, right, i0, j0)
    requires if Comparator(left[i0], right[j0]) then i == i0 + 1 && j == j0 else i == i0 && j == j0 + 1
    ensures i <= |left| && j <= |right| && i + j == i0 + j0 + 1 && i0 + j0 < |goal|
    ensures goal[i0 + j0] == if i == i0 + 1 then left[i0] else right[j0]
    ensures goal[i + j..] == MergeFrom(left, right, i, j)
  {
    var tail := goal[i0 + j0..];
    assert goal[i0 + j0] == tail[0] && goal[i0 + j0 + 1..] == tail[1..];
  }

  /** Once one run is used up, what remains of the merge is the rest of the other. */
  lemma MergeFromRest(left: seq<Row>, right: seq<Row>, i: nat, j: nat)
    requires i <= |left| && j <= |right| && (i == |left| || j == |right|)
    ensures j == |right| ==> MergeFrom(left, right, i, j) == left[i..]
    ensures j < |right| ==> i == |left| && MergeFrom(left, right, i, j) == right[j..]
  {
  }


  /** The list `base` with `mid` written over it from index `k` on. */
  function Splice(base: seq<Row>, k: nat, mid: seq<Row>): (r: seq<Row>)
    requires k + |mid| <= |base|
    ensures |r| == |base|
  {
    base[..k] + mid + base[k + |mid|..]
  }

  /** A splice holds `mid` over `k..k+|mid|` and `base` everywhere else. */
  lemma SpliceAt(base: seq<Row>, k: nat, mid: seq<Row>)
    requires k + |mid| <= |base|
    ensures forall t :: 0 <= t < |base| && (t < k || k + |mid| <= t) ==> Splice(base, k, mid)[t] == base[t]
    ensures forall t :: k <= t < k + |mid| ==> Splice(base, k, mid)[t] == mid[t - k]
  {
  }

  /** A splice as long as the list replaces all of it. */
  lemma SpliceWhole(base: seq<Row>, mid: seq<Row>)
    requires |mid| == |base|
    ensures Splice(base, 0, mid) == mid
  {
    assert base[..0] == [] && base[|mid|..] == [];
  }

  /** Splicing a list's own slice back changes nothing. */
  lemma SpliceSame(base: seq<Row>, k: nat, n: nat)
    requires k + n <= |base|
    ensures Splice(base, k, base[k..k + n]) == base
  {
    assert base == base[..k] + base[k..k + n] + base[k + n..];
  }

  /** An array that holds `mid` from `k` on and `base` elsewhere is their splice. */
  lemma Spliced(a: array<Row>, base: seq<Row>, k: nat, mid: seq<Row>)
    requires |base| == a.Length && k + |mid| <= a.Length
    requires forall t :: k <= t < k + |mid| ==> a[t] == mid[t - k]
    requires forall t :: 0 <= t < a.Length && !(k <= t < k + |mid|) ==> a[t] == base[t]
    ensures a[..] == Splice(base, k, mid)
  {
    SpliceAt(base, k, mid);
    assert forall t :: 0 <= t < a.Length ==> a[..][t] == Splice(base, k, mid)[t];
  }

  /** The first loop of `merge`: heads are compared until one run is used up. */
  method MergeHeads(a: array<Row>, left: seq<Row>, right: seq<Row>, l: nat, ghost goal: seq<Row>,
                    ghost base: seq<Row>)
    returns (i: nat, j: nat)
    requires l + |left| + |right| <= a.Length && base == a[..]
    requires goal == MergeFrom(left, right, 0, 0)
    modifies a
    ensures i <= |left| && j <= |right| && (i == |left| || j == |right|)
    ensures goal[i + j..] == MergeFrom(left, right, i, j)
    ensures a[..] == Splice(base, l, goal[..i + j])
  {
    i, j := 0, 0;
    while i < |left| && j < |right|
      invariant i <= |left| && j <= |right|
      invariant goal[i + j..] == MergeFrom(left, right, i, j)
      invariant forall t :: l <= t < l + i + j ==> a[t] == goal[t - l]
      invariant forall t :: 0 <= t < a.Length && !(l <= t < l + i + j) ==> a[t] == base[t]
    {
      i, j := MergeOne(a, left, right, l, goal, base, i, j);
    }
    Spliced(a, base, l, goal[..i + j]);
  }

  /** One turn of the first loop: the greater head (the right one on a tie) is written at `l + i + j`. */
  method MergeOne(a: array<Row>, left: seq<Row>, right: seq<Row>, l: nat, ghost goal: seq<Row>,
                  ghost base: seq<Row>, i: nat, j: nat)
    returns (i2: nat, j2: nat)
    requires i < |left| && j < |right| && l + |left| + |right| <= a.Length && |base| == a.Length
    requires |goal| == |left| + |right| && goal[i + j..] == MergeFrom(left, right, i, j)
    requires forall t :: l <= t < l + i + j ==> a[t] == goal[t - l]
    requires forall t :: 0 <= t < a.Length && !(l <= t < l + i + j) ==> a[t] == base[t]
    modifies a
    ensures (i2 == i + 1 && j2 == j) || (i2 == i && j2 == j + 1)
    ensures i2 <= |left| && j2 <= |right|
    ensures goal[i2 + j2..] == MergeFrom(left, right, i2, j2)
    ensures forall t :: l <= t < l + i2 + j2 ==> a[t] == goal[t - l]
    ensures forall t :: 0 <= t < a.Length && !(l <= t < l + i2 + j2) ==> a[t] == base[t]
  {
    ghost var prev := a[..];
    var takeLeft := Comparator(left[i], right[j]);
    a[l + i + j] := if takeLeft then left[i] else right[j];
    if takeLeft {
      i2, j2 := i + 1, j;
    } else {
      i2, j2 := i, j + 1;
    }
    MergeFromStep(left, right, goal, i, j, i2, j2);
    forall t | 0 <= t < a.Length && t != l + i + j
      ensures a[t] == prev[t]
    {
    }
    forall t | l <= t < l + i2 + j2
      ensures a[t] == goal[t - l]
    {
      if t < l + i + j {
        assert a[t] == prev[t];
      }
    }
  }

  /** The two closing loops of `merge`: what is left of one run is copied from `from` on, at `k`. */
  method CopyRest(a: array<Row>, run: seq<Row>, from: nat, k: nat, ghost base: seq<Row>)
    requires from <= |run| && k + |run| - from <= a.Length && base == a[..]
    modifies a
    ensures a[..] == Splice(base, k, run[from..])
  {
    var i := from;
    while i < |run|
      invariant from <= i <= |run|
      invariant forall t :: k <= t < k + i - from ==> a[t] == run[from + t - k]
      invariant forall t :: 0 <= t < a.Length && !(k <= t < k + i - from) ==> a[t] == base[t]
    {
      a[k + i - from] := run[i];
      i := i + 1;
    }
    Spliced(a, base, k, run[from..]);
  }

  /** The three loops of `merge`, on snapshots of the list, compose to its contract. */
  lemma MergeStep(a0: seq<Row>, a1: seq<Row>, a2: seq<Row>, a3: seq<Row>,
                  left: seq<Row>, right: seq<Row>, goal: seq<Row>, l: nat, i: nat, j: nat)
    requires |goal| == |left| + |right| && l + |goal| <= |a0|
    requires i <= |left| && j <= |right|
    requires j == |right| ==> goal[i + j..] == left[i..]
    requires j < |right| ==> i == |left| && goal[i + j..] == right[j..]
    requires a1 == Splice(a0, l, goal[..i + j])
    requires a2 == Splice(a1, l + i + j, left[i..])
    requires a3 == Splice(a2, l + |left| + j, right[j..])
    ensures a3 == Splice(a0, l, goal)
  {
    SpliceAt(a0, l, goal[..i + j]);
    SpliceAt(a1, l + i + j, left[i..]);
    SpliceAt(a2, l + |left| + j, right[j..]);
    SpliceAt(a0, l, goal);
    var n := |goal|;
    forall t | 0 <= t < |a0|
      ensures a3[t] == Splice(a0, l, goal)[t]
    {
      if t < l || l + n <= t {
        assert a3[t] == a2[t] == a1[t] == a0[t];
      } else if t < l + i + j {
        assert a3[t] == a2[t] == a1[t] == goal[..i + j][t - l];
      } else if j == |right| {
        assert a3[t] == a2[t] == left[i..][t - (l + i + j)];
        assert goal[t - l] == goal[i + j..][t - l - i - j];
      } else {
        assert a3[t] == right[j..][t - (l + |left| + j)];
        assert goal[t - l] == goal[i + j..][t - l - i - j];
      }
    }
  }

  /** `merge(dataSet, l, m, r)`: the runs `l..m` and `m+1..r` merged back over `l..r`. */
  method Merge(a: array<Row>, l: nat, m: int, r: int)
    requires l <= m + 1 && m <= r && r < a.Length
    modifies a
    ensures a[..] == Splice(old(a[..]), l, MergeRuns(old(a[..])[l..m + 1], old(a[..])[m + 1..r + 1]))
  {
    var left := a[..][l..m + 1];
    var right := a[..][m + 1..r + 1];
    MergeInto(a, left, right, l, a[..]);
    MergeFromIsMergeRuns(left, right, 0, 0);
    assert left[0..] == left && right[0..] == right;
  }

  /** The three loops of `merge`, with the runs already copied out to `left` and `right`. */
  method MergeInto(a: array<Row>, left: seq<Row>, right: seq<Row>, l: nat, ghost a0: seq<Row>)
    requires l + |left| + |right| <= a.Length && a0 == a[..]
    modifies a
    ensures a[..] == Splice(a0, l, MergeFrom(left, right, 0, 0))
  {
    ghost var goal := MergeFrom(left, right, 0, 0);
    var i, j := MergeHeads(a, left, right, l, goal, a0);
    MergeFromRest(left, right, i, j);
    ghost var a1 := a[..];
    CopyRest(a, left, i, l + i + j, a1);
    ghost var a2 := a[..];
    CopyRest(a, right, j, l + |left| + j, a2);
    MergeStep(a0, a1, a2, a[..], left, right, goal, l, i, j);
  }


  /** Three splices over `l..m`, `m+1..r` and then `l..r`, in terms of what each one wrote. */
  lemma SpliceThree(a0: seq<Row>, a1: seq<Row>, a2: seq<Row>, a3: seq<Row>, l: nat, m: nat, r: nat,
                    x: seq<Row>, y: seq<Row>, z: seq<Row>)
    requires l <= m < r < |a0| && |x| == m + 1 - l && |y| == r - m && |z| == r + 1 - l
    requires a1 == Splice(a0, l, x)
    requires a2 == Splice(a1, m + 1, y)
    requires a3 == Splice(a2, l, z)
    ensures a1[m + 1..r + 1] == a0[m + 1..r + 1]
    ensures a2[l..m + 1] == x && a2[m + 1..r + 1] == y
    ensures a3 == Splice(a0, l, z)
  {
    SpliceAt(a0, l, x);
    SpliceAt(a1, m + 1, y);
    SpliceAt(a2, l, z);
    SpliceAt(a0, l, z);
    var b0, b1 := a0[m + 1..r + 1], a1[m + 1..r + 1];
    assert forall t :: 0 <= t < r - m ==> b1[t] == b0[t];
    var c0, c1 := a2[l..m + 1], a2[m + 1..r + 1];
    assert forall t :: 0 <= t < m + 1 - l ==> c0[t] == x[t];
    assert forall t :: 0 <= t < r - m ==> c1[t] == y[t];
    assert forall t :: 0 <= t < |a0| ==> a3[t] == Splice(a0, l, z)[t];
  }

  /** `MergeSortSpec` over `l..r` splits at `m`, where `mergeSortHelper` does. */
  lemma MergeSortSpecSplit(a: seq<Row>, l: nat, m: nat, r: nat)
    requires l <= m < r < |a| && m == l + (r - l) / 2
    ensures MergeSortSpec(a[l..r + 1]) == MergeRuns(MergeSortSpec(a[l..m + 1]), MergeSortSpec(a[m + 1..r + 1]))
  {
    var s := a[l..r + 1];
    var h := LeftSize(|s|);
    assert h == m + 1 - l;
    assert s[..h] == a[l..m + 1];
    assert s[h..] == a[m + 1..r + 1];
    assert MergeSortSpec(s) == MergeRuns(MergeSortSpec(s[..h]), MergeSortSpec(s[h..]));
  }

  /** The three steps of `mergeSortHelper`, on snapshots of the list, compose to its contract. */
  lemma HelperStep(a0: seq<Row>, a1: seq<Row>, a2: seq<Row>, a3: seq<Row>, l: nat, m: nat, r: nat)
    requires l <= m < r < |a0| && m == l + (r - l) / 2
    requires a1 == Splice(a0, l, MergeSortSpec(a0[l..m + 1]))
    requires a2 == Splice(a1, m + 1, MergeSortSpec(a1[m + 1..r + 1]))
    requires a3 == Splice(a2, l, MergeRuns(a2[l..m + 1], a2[m + 1..r + 1]))
    ensures a3 == Splice(a0, l, MergeSortSpec(a0[l..r + 1]))
  {
    SpliceThree(a0, a1, a2, a3, l, m, r, MergeSortSpec(a0[l..m + 1]), MergeSortSpec(a1[m + 1..r + 1]),
                MergeRuns(a2[l..m + 1], a2[m + 1..r + 1]));
    MergeSortSpecSplit(a0, l, m, r);
  }

  /** `mergeSortHelper(dataSet, l, r)`: sorts `l..r` and leaves the rest alone. */
  method MergeSortHelper(a: array<Row>, l: nat, r: int)
    requires l <= r + 1 && r < a.Length
    modifies a
    ensures a[..] == Splice(old(a[..]), l, MergeSortSpec(old(a[..])[l..r + 1]))
    decreases r - l
  {
    if l < r {
      var m := l + (r - l) / 2;
      ghost var a0 := a[..];
      MergeSortHelper(a, l, m);
      ghost var a1 := a[..];
      MergeSortHelper(a, m + 1, r);
      ghost var a2 := a[..];
      Merge(a, l, m, r);
      HelperStep(a0, a1, a2, a[..], l, m, r);
    } else {
      HelperBase(a[..], l, r);
    }
  }

  /** Zero or one rows over `l..r` are already sorted. */
  lemma HelperBase(a0: seq<Row>, l: nat, r: int)
    requires l <= r + 1 && r < |a0| && r <= l
    ensures a0 == Splice(a0, l, MergeSortSpec(a0[l..r + 1]))
  {
    assert MergeSortSpec(a0[l..r + 1]) == a0[l..r + 1];
    SpliceSame(a0, l, r + 1 - l);
  }

  /** `mergeSort(dataSet)`. Empty and one-row lists are left as they are. */
  method Sort(a: array<Row>)
    modifies a
    ensures a[..] == MergeSortSpec(old(a[..]))
    ensures Sorted(a[..])
    ensures multiset(a[..]) == multiset(old(a[..]))
    ensures a.Length <= 1 ==> a[..] == old(a[..])
  {
    ghost var s0 := a[..];
    ghost var sorted := MergeSortSpec(s0);
    assert s0[0..a.Length] == s0;
    MergeSortHelper(a, 0, a.Length - 1);
    SpliceWhole(s0, sorted);
    assert a[..] == sorted;
    MergeSortSorted(s0);
    MergeSortPermutes(s0);
  }

  // ---------------------------------------------------------------------------------
  // heapSort: `heapq.nlargest(len(dataSet), dataSet, key=(similarity, track_id))`

  /** Python's `<` on strings: lexicographic by code point, a proper prefix first. */
  predicate StrLess(a: string, b: string)
    decreases |a|
  {
    if |b| == 0 then false
    else if |a| == 0 then true
    else if a[0] != b[0] then a[0] < b[0]
    else StrLess(a[1..], b[1..])
  }

  lemma {:induction false} StrLessIrreflexive(a: string)
    ensures !StrLess(a, a)
    decreases |a|
  {
    if |a| > 0 {
      StrLessIrreflexive(a[1..]);
    }
  }

  lemma {:induction false} StrLessAsymmetric(a: string, b: string)
    requires StrLess(a, b)
    ensures !StrLess(b, a)
    decreases |a|
  {
    if |a| > 0 && a[0] == b[0] {
      StrLessAsymmetric(a[1..], b[1..]);
    }
  }

  lemma {:induction false} StrLessTransitive(a: string, b: string, c: string)
    requires StrLess(a, b) && StrLess(b, c)
    ensures StrLess(a, c)
    decreases |a|
  {
    if |a| > 0 && a[0] == b[0] && b[0] == c[0] {
      StrLessTransitive(a[1..], b[1..], c[1..]);
    }
  }

  lemma {:induction false} StrLessTotal(a: string, b: string)
    ensures a == b || StrLess(a, b) || StrLess(b, a)
    decreases |a|
  {
    if |a| > 0 && |b| > 0 && a[0] == b[0] {
      StrLessTotal(a[1..], b[1..]);
      if a[1..] == b[1..] {
        assert a == [a[0]] + a[1..] && b == [b[0]] + b[1..];
      }
    }
  }

  /** The key `(similarity, track_id)` of `a` is at least that of `b`. */
  predicate KeyAtLeast(a: Row, b: Row)
  {
    a.similarity > b.similarity || (a.similarity == b.similarity && !StrLess(a.trackId, b.trackId))
  }

  lemma KeyTotal(a: Row, b: Row)
    ensures KeyAtLeast(a, b) || KeyAtLeast(b, a)
  {
    if StrLess(a.trackId, b.trackId) {
      StrLessAsymmetric(a.trackId, b.trackId);
    }
  }

  lemma KeyTransitive(a: Row, b: Row, c: Row)
    requires KeyAtLeast(a, b) && KeyAtLeast(b, c)
    ensures KeyAtLeast(a, c)
  {
    if a.similarity == b.similarity == c.similarity {
      StrLessTotal(a.trackId, b.trackId);
      StrLessTotal(b.trackId, c.trackId);
      if StrLess(a.trackId, c.trackId) {
        if StrLess(b.trackId, a.trackId) {
          StrLessTransitive(b.trackId, a.trackId, c.trackId);
        }
        if StrLess(c.trackId, b.trackId) {
          StrLessTransitive(a.trackId, c.trackId, b.trackId);
        }
        if b.trackId == a.trackId && c.trackId == b.trackId {
          StrLessIrreflexive(a.trackId);
        }
      }
    }
  }

  /** Non-increasing by `(similarity, track_id)`. */
  predicate KeySorted(s: seq<Row>)
  {
    forall i, j :: 0 <= i < j < |s| ==> KeyAtLeast(s[i], s[j])
  }

  /** `x` goes after every row whose key is at least its own, as a stable sort puts it. */
  function InsertByKey(x: Row, s: seq<Row>): (r: seq<Row>)
    ensures |r| == |s| + 1
    ensures multiset(r) == multiset(s) + multiset{x}
    decreases |s|
  {
    if |s| == 0 then [x]
    else if !KeyAtLeast(s[0], x) then [x] + s
    else
      assert s == [s[0]] + s[1..];
      [s[0]] + InsertByKey(x, s[1..])
  }

  lemma {:induction false} InsertByKeySorted(x: Row, s: seq<Row>)
    requires KeySorted(s)
    ensures KeySorted(InsertByKey(x, s))
    decreases |s|
  {
    if |s| > 0 {
      if !KeyAtLeast(s[0], x) {
        FrontBound(x, s);
        assert InsertByKey(x, s) == [x] + s;
        KeyConsSorted(x, s);
      } else {
        var rest := InsertByKey(x, s[1..]);
        InsertByKeySorted(x, s[1..]);
        HeadBoundsInsert(x, s, rest);
        assert InsertByKey(x, s) == [s[0]] + rest;
        KeyConsSorted(s[0], rest);
      }
    }
  }

  /** A row that goes before the head of a sorted list goes before all of it. */
  lemma FrontBound(x: Row, s: seq<Row>)
    requires KeySorted(s) && |s| > 0 && !KeyAtLeast(s[0], x)
    ensures forall k :: 0 <= k < |s| ==> KeyAtLeast(x, s[k])
  {
    KeyTotal(s[0], x);
    forall k | 0 < k < |s|
      ensures KeyAtLeast(x, s[k])
    {
      KeyTransitive(x, s[0], s[k]);
    }
  }

  /** The head of a sorted list stays ahead of its tail with `x` inserted after it. */
  lemma HeadBoundsInsert(x: Row, s: seq<Row>, rest: seq<Row>)
    requires KeySorted(s) && |s| > 0 && KeyAtLeast(s[0], x)
    requires rest == InsertByKey(x, s[1..])
    ensures forall k :: 0 <= k < |rest| ==> KeyAtLeast(s[0], rest[k])
  {
    forall k | 0 <= k < |rest|
      ensures KeyAtLeast(s[0], rest[k])
    {
      assert rest[k] in multiset(s[1..]) + multiset{x};
      if rest[k] != x {
        assert rest[k] in s[1..];
        var t :| 0 <= t < |s[1..]| && s[1..][t] == rest[k];
        assert s[t + 1] == rest[k];
      }
    }
  }

  /** A row whose key bounds every key of a sorted list can go in front of it. */
  lemma KeyConsSorted(head: Row, rest: seq<Row>)
    requires KeySorted(rest)
    requires forall k :: 0 <= k < |rest| ==> KeyAtLeast(head, rest[k])
    ensures KeySorted([head] + rest)
  {
    var r := [head] + rest;
    forall i, j | 0 <= i < j < |r|
      ensures KeyAtLeast(r[i], r[j])
    {
      if i == 0 {
        assert r[j] == rest[j - 1];
      } else {
        assert r[i] == rest[i - 1] && r[j] == rest[j - 1];
      }
    }
  }

  /** `heapSort(dataSet)`: the rows by descending `(similarity, track_id)`. */
  function HeapSort(s: seq<Row>): (r: seq<Row>)
    ensures |r| == |s|
    ensures KeySorted(r)
    ensures multiset(r) == multiset(s)
    decreases |s|
  {
    if |s| == 0 then []
    else
      var sorted := HeapSort(s[..|s| - 1]);
      InsertByKeySorted(s[|s| - 1], sorted);
      LastPermutes(s);
      InsertByKey(s[|s| - 1], sorted)
  }

  lemma LastPermutes(s: seq<Row>)
    requires |s| > 0
    ensures multiset(s) == multiset(s[..|s| - 1]) + multiset{s[|s| - 1]}
  {
    assert s == s[..|s| - 1] + [s[|s| - 1]];
  }

  /** Rows ordered by the heap sort's key are also ordered by similarity alone. */
  lemma KeySortedIsSorted(s: seq<Row>)
    requires KeySorted(s)
    ensures Sorted(s)
  {
  }
}
