/**
 * `buildSeededSubset` of netlify/functions/recommend.js: a Fisher-Yates shuffle of a
 * copy of the items, driven by the seeded generator, followed by a prefix of at most
 * `count` items. The playlist id is the seed, so one playlist always gets the same
 * fallback tracks.
 */
module Subset {
  import opened Wrappers
  import opened SeededRandom

  /** `Math.floor(rand() * (i + 1))`, the swap partner of position `i` as the source computes it. */
  function SwapIndexAsWritten(r: real, i: nat): (j: int)
    requires 0.0 <= r <= 1.0
    ensures 0 <= j <= i + 1
    ensures j == i + 1 <==> r == 1.0
  {
    var x := r * ((i + 1) as real);
    assert x <= (i + 1) as real;
    x.Floor
  }

  /**
   * The swap partner with the draw 1.0 (state 0xFFFFFFFF) sent to `i` itself, so that
   * the partner is always one of the positions not yet fixed.
   */
  function SwapIndex(r: real, i: nat): (j: nat)
    requires 0.0 <= r <= 1.0
    ensures j <= i
    ensures r < 1.0 ==> j == SwapIndexAsWritten(r, i)
    ensures r == 1.0 ==> j == i
  {
    var f := SwapIndexAsWritten(r, i);
    if f > i then i else f
  }

  /** The only draw the generator makes at 1.0 sends the source's partner one past `i`. */
  lemma MaxStateSwapsPastEnd(i: nat)
    ensures Draw(MaxState) == 1.0
    ensures SwapIndexAsWritten(Draw(MaxState), i) == i + 1
    ensures SwapIndex(Draw(MaxState), i) == i
  {
  }

  /** The destructuring swap `[pool[i], pool[j]] = [pool[j], pool[i]]`. */
  function Swap<T>(s: seq<T>, i: nat, j: nat): (r: seq<T>)
    requires i < |s| && j < |s|
    ensures |r| == |s|
    ensures r[i] == s[j] && r[j] == s[i]
    ensures forall k :: 0 <= k < |s| && k != i && k != j ==> r[k] == s[k]
  {
    s[i := s[j]][j := s[i]]
  }

  lemma SwapPermutes<T>(s: seq<T>, i: nat, j: nat)
    requires i < |s| && j < |s|
    ensures multiset(Swap(s, i, j)) == multiset(s)
  {
  }

  /**
   * The loop from position `i` down to 1, the generator being in state `x` before the
   * draw for position `i`. Each step is a swap, so the result is a permutation.
   */
  function ShuffleFrom<T>(pool: seq<T>, i: nat, x: bv32): (r: seq<T>)
    requires i < |pool|
    ensures |r| == |pool|
    decreases i
  {
    if i == 0 then pool
    else
      var next := Step(x);
      ShuffleFrom(Swap(pool, i, SwapIndex(Draw(next), i)), i - 1, next)
  }

  lemma {:induction false} ShuffleFromPermutes<T>(pool: seq<T>, i: nat, x: bv32)
    requires i < |pool|
    ensures multiset(ShuffleFrom(pool, i, x)) == multiset(pool)
    decreases i
  {
    if i > 0 {
      var next := Step(x);
      var j := SwapIndex(Draw(next), i);
      SwapPermutes(pool, i, j);
      ShuffleFromPermutes(Swap(pool, i, j), i - 1, next);
    }
  }

  /** The whole shuffle of the items for a seed: a permutation of them. */
  function Shuffled<T>(items: seq<T>, seed: string): (r: seq<T>)
    ensures |r| == |items|
  {
    if |items| == 0 then items else ShuffleFrom(items, |items| - 1, InitialState(seed))
  }

  lemma ShuffledPermutes<T>(items: seq<T>, seed: string)
    ensures multiset(Shuffled(items, seed)) == multiset(items)
  {
    if |items| > 0 {
      ShuffleFromPermutes(items, |items| - 1, InitialState(seed));
    }
  }

  /**
   * The loop as written, with the partner `SwapIndexAsWritten`. The result is `None` once
   * that partner lies past the end of the pool: the destructuring swap then writes
   * `pool[pool.length]`, growing the array and leaving `undefined` at position `i`.
   */
  function ShuffleFromAsWritten<T>(pool: seq<T>, i: nat, x: bv32): (r: Option<seq<T>>)
    requires i < |pool|
    ensures r.Some? ==> |r.value| == |pool|
    decreases i
  {
    if i == 0 then Some(pool)
    else
      var next := Step(x);
      var j := SwapIndexAsWritten(Draw(next), i);
      if j >= |pool| then None
      else ShuffleFromAsWritten(Swap(pool, i, j), i - 1, next)
  }

  /** No draw reaches 1, the value of state 0xFFFFFFFF. */
  predicate DrawsBelowOne(rs: seq<real>)
  {
    forall k :: 0 <= k < |rs| ==> rs[k] < 1.0
  }

  /** The draws after the first are the stream from the next state. */
  lemma DrawsBelowOneTail(x: bv32, next: bv32, i: nat)
    requires 0 < i && next == Step(x) && DrawsBelowOne(Stream(x, i))
    ensures Draw(next) < 1.0
    ensures DrawsBelowOne(Stream(next, i - 1))
  {
    var rest := Stream(next, i - 1);
    assert Stream(x, i) == [Draw(next)] + rest;
    assert Stream(x, i)[0] == Draw(next);
    forall k | 0 <= k < i - 1
      ensures rest[k] < 1.0
    {
      assert rest[k] == Stream(x, i)[k + 1];
    }
  }

  /** While every draw of the loop is below 1, the loop as written is the shuffle modelled. */
  lemma {:induction false} ShuffleFromAsWrittenAgrees<T>(pool: seq<T>, i: nat, x: bv32)
    requires i < |pool|
    requires DrawsBelowOne(Stream(x, i))
    ensures ShuffleFromAsWritten(pool, i, x) == Some(ShuffleFrom(pool, i, x))
    decreases i
  {
    if i > 0 {
      var next := Step(x);
      DrawsBelowOneTail(x, next, i);
      var j := SwapIndex(Draw(next), i);
      assert j == SwapIndexAsWritten(Draw(next), i);
      var after := Swap(pool, i, j);
      ShuffleFromAsWrittenAgrees(after, i - 1, next);
      assert ShuffleFromAsWritten(pool, i, x) == ShuffleFromAsWritten(after, i - 1, next);
      ShuffleFromStep(pool, i, x, next, j, after);
    }
  }

  /** The seeded shuffle as written: `None` when some draw sends a partner past the end. */
  function ShuffledAsWritten<T>(items: seq<T>, seed: string): (r: Option<seq<T>>)
    ensures r.Some? ==> |r.value| == |items|
  {
    if |items| == 0 then Some(items) else ShuffleFromAsWritten(items, |items| - 1, InitialState(seed))
  }

  /** When the n - 1 draws for n items are all below 1, the shuffle as written is `Shuffled`. */
  lemma ShuffledAsWrittenAgrees<T>(items: seq<T>, seed: string)
    requires |items| > 0
    requires DrawsBelowOne(Stream(InitialState(seed), |items| - 1))
    ensures ShuffledAsWritten(items, seed) == Some(Shuffled(items, seed))
  {
    ShuffleFromAsWrittenAgrees(items, |items| - 1, InitialState(seed));
  }

  /** A first draw of 1 for the last position makes the source write one past the end. */
  lemma FirstDrawAtOneOverruns<T>(pool: seq<T>, x: bv32)
    requires |pool| > 1 && Step(x) == MaxState
    ensures ShuffleFromAsWritten(pool, |pool| - 1, x) == None
  {
    MaxStateSwapsPastEnd(|pool| - 1);
  }

  /** One turn of the loop: draw, then swap position `i` with its partner. */
  lemma ShuffleFromStep<T>(pool: seq<T>, i: nat, x: bv32, next: bv32, j: nat, after: seq<T>)
    requires 0 < i < |pool| && next == Step(x) && j == SwapIndex(Draw(next), i)
    requires j < |pool| && after == Swap(pool, i, j)
    ensures ShuffleFrom(pool, i, x) == ShuffleFrom(after, i - 1, next)
  {
  }

  /** The shuffle loop of `buildSeededSubset`, in place on `pool`, drawing from `rand`. */
  method ShuffleInPlace<T>(pool: array<T>, rand: Generator)
    requires pool.Length > 0
    modifies pool, rand
    ensures pool[..] == ShuffleFrom(old(pool[..]), pool.Length - 1, old(rand.state))
    ensures rand.state == StepN(old(rand.state), pool.Length - 1)
  {
    ghost var goal := ShuffleFrom(pool[..], pool.Length - 1, rand.state);
    ghost var x0 := rand.state;
    var i := pool.Length - 1;
    while i > 0
      invariant 0 <= i < pool.Length
      invariant goal == ShuffleFrom(pool[..], i, rand.state)
      invariant rand.state == StepN(x0, pool.Length - 1 - i)
      decreases i
    {
      ghost var prev := rand.state;
      ShuffleTurn(pool, rand, i);
      StepNNext(x0, pool.Length - 1 - i, prev, rand.state);
      i := i - 1;
    }
  }

  lemma StepNNext(x0: bv32, m: nat, prev: bv32, now: bv32)
    requires prev == StepN(x0, m) && now == Step(prev)
    ensures now == StepN(x0, m + 1)
  {
    StepNSnoc(x0, m);
  }

  /** One turn of the loop: draw, then swap position `i` with its partner. */
  method ShuffleTurn<T>(pool: array<T>, rand: Generator, i: nat)
    requires 0 < i < pool.Length
    modifies pool, rand
    ensures rand.state == Step(old(rand.state))
    ensures pool[..] == Swap(old(pool[..]), i, SwapIndex(Draw(rand.state), i))
    ensures ShuffleFrom(old(pool[..]), i, old(rand.state)) == ShuffleFrom(pool[..], i - 1, rand.state)
  {
    ghost var before, x := pool[..], rand.state;
    var r := rand.Next();
    var j := SwapIndex(r, i);
    SwapAt(pool, i, j);
    ShuffleFromStep(before, i, x, rand.state, j, pool[..]);
  }

  /** `[pool[i], pool[j]] = [pool[j], pool[i]]` on the array. */
  method SwapAt<T>(pool: array<T>, i: nat, j: nat)
    requires i < pool.Length && j < pool.Length
    modifies pool
    ensures pool[..] == Swap(old(pool[..]), i, j)
  {
    var t := pool[i];
    pool[i] := pool[j];
    pool[j] := t;
  }

  /** `buildSeededSubset(items, seed, count)`. */
  method BuildSeededSubset<T>(items: seq<T>, seed: string, count: nat) returns (subset: seq<T>)
    ensures |subset| == Min(count, |items|)
    ensures subset == Shuffled(items, seed)[..Min(count, |items|)]
    ensures multiset(subset) <= multiset(items)
  {
    var rand := new Generator(seed);
    var pool := new T[|items|](k requires 0 <= k < |items| => items[k]);
    assert pool[..] == items;
    if pool.Length > 0 {
      ShuffleInPlace(pool, rand);
    }
    assert pool[..] == Shuffled(items, seed);
    subset := pool[..Min(count, pool.Length)];
    assert pool[..] == subset + pool[Min(count, pool.Length)..];
    ShuffledPermutes(items, seed);
  }

  /** With at most `count` items, the subset is a reordering of all of them. */
  lemma SubsetOfFewItemsIsPermutation<T>(items: seq<T>, seed: string, count: nat)
    requires |items| <= count
    ensures Shuffled(items, seed)[..Min(count, |items|)] == Shuffled(items, seed)
    ensures multiset(Shuffled(items, seed)[..Min(count, |items|)]) == multiset(items)
  {
    ShuffledPermutes(items, seed);
  }
}
