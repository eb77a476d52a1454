/**
 * `createSeededRandom` of netlify/functions/recommend.js: a string seed is folded
 * into a 32-bit state with Knuth's multiplicative constant, and each call advances
 * a Marsaglia xorshift32 generator (shifts 13, 17, 5) and returns
 * `state / 0xFFFFFFFF`.
 */
module SeededRandom {

  const Knuth: int := 2654435761
  const TwoTo32: int := 0x1_0000_0000
  const MaxState: bv32 := 0xFFFF_FFFF

  /** The seed fold `x = (x + seed.charCodeAt(i) * 2654435761) >>> 0`, character by character. */
  function SeedFold(seed: string): (x: int)
    ensures 0 <= x < TwoTo32
    decreases |seed|
  {
    if |seed| == 0 then 0
    else (SeedFold(seed[..|seed| - 1]) + (seed[|seed| - 1] as int) * Knuth) % TwoTo32
  }

  /** The state the generator starts from. */
  function InitialState(seed: string): bv32
  {
    SeedFold(seed) as bv32
  }

  /** The sum of the seed's character codes. */
  function CodeSum(s: string): nat
    decreases |s|
  {
    if |s| == 0 then 0 else CodeSum(s[..|s| - 1]) + s[|s| - 1] as int
  }

  lemma ModAddLeft(a: int, b: int)
    ensures (a % TwoTo32 + b) % TwoTo32 == (a + b) % TwoTo32
  {
  }

  /** The fold is Knuth's constant times the code sum, modulo 2^32. */
  lemma {:induction false} SeedFoldIsScaledSum(seed: string)
    ensures SeedFold(seed) == (CodeSum(seed) * Knuth) % TwoTo32
    decreases |seed|
  {
    if |seed| > 0 {
      var front := seed[..|seed| - 1];
      var c := seed[|seed| - 1] as int;
      SeedFoldIsScaledSum(front);
      ModAddLeft(CodeSum(front) * Knuth, c * Knuth);
      assert CodeSum(front) * Knuth + c * Knuth == CodeSum(seed) * Knuth;
    }
  }

  lemma {:induction false} CodeSumAppend(a: string, b: string)
    ensures CodeSum(a + b) == CodeSum(a) + CodeSum(b)
    decreases |b|
  {
    if |b| == 0 {
      assert a + b == a;
    } else {
      assert (a + b)[..|a + b| - 1] == a + b[..|b| - 1];
      assert (a + b)[|a + b| - 1] == b[|b| - 1];
      CodeSumAppend(a, b[..|b| - 1]);
    }
  }

  /** Only the sum of the codes matters: swapping two parts of a seed gives the same stream. */
  lemma SeedOrderInsensitive(a: string, b: string)
    ensures InitialState(a + b) == InitialState(b + a)
  {
    SeedFoldIsScaledSum(a + b);
    SeedFoldIsScaledSum(b + a);
    CodeSumAppend(a, b);
    CodeSumAppend(b, a);
  }

  /** One xorshift32 step: `x ^= x << 13; x ^= x >>> 17; x ^= x << 5` on 32 bits. */
  function Step(x: bv32): bv32
  {
    var a := x ^ (x << 13);
    var b := a ^ (a >> 17);
    b ^ (b << 5)
  }

  /** State 0 is a fixed point, and no other state ever reaches it. */
  lemma ZeroOnlyFromZero(x: bv32)
    ensures Step(x) == 0 <==> x == 0
  {
  }

  /** `(x >>> 0) / 0xffffffff`. */
  function Draw(x: bv32): (r: real)
    ensures 0.0 <= r <= 1.0
    ensures r == 1.0 <==> x == MaxState
    ensures r == 0.0 <==> x == 0
  {
    (x as int) as real / 4294967295.0
  }

  /** The values of the next `n` calls from state `x`. */
  function Stream(x: bv32, n: nat): (rs: seq<real>)
    ensures |rs| == n
    ensures forall k :: 0 <= k < n ==> 0.0 <= rs[k] <= 1.0
    decreases n
  {
    if n == 0 then [] else [Draw(Step(x))] + Stream(Step(x), n - 1)
  }

  /** The state after `n` calls from state `x`. */
  function StepN(x: bv32, n: nat): bv32
    decreases n
  {
    if n == 0 then x else StepN(Step(x), n - 1)
  }

  /** One more call steps the state once more. */
  lemma {:induction false} StepNSnoc(x: bv32, n: nat)
    ensures StepN(x, n + 1) == Step(StepN(x, n))
    decreases n
  {
    if n > 0 {
      StepNSnoc(Step(x), n - 1);
    }
  }

  /** The generator: `x` is the state the closure captures. */
  class Generator {
    var state: bv32

    constructor (seed: string)
      ensures state == InitialState(seed)
    {
      var x := 0;
      for i := 0 to |seed|
        invariant x == SeedFold(seed[..i])
      {
        assert seed[..i + 1][..i] == seed[..i];
        x := (x + (seed[i] as int) * Knuth) % TwoTo32;
      }
      assert seed[..|seed|] == seed;
      state := x as bv32;
    }

    /** One call of the returned closure. */
    method Next() returns (r: real)
      modifies this
      ensures state == Step(old(state))
      ensures r == Draw(state)
    {
      state := Step(state);
      r := Draw(state);
    }
  }

  /** The first `n` values of a fresh generator are a function of the seed alone. */
  method Take(seed: string, n: nat) returns (rs: seq<real>)
    ensures rs == Stream(InitialState(seed), n)
    ensures forall k :: 0 <= k < n ==> 0.0 <= rs[k] <= 1.0
  {
    var g := new Generator(seed);
    rs := [];
    for i := 0 to n
      invariant |rs| == i
      invariant rs + Stream(g.state, n - i) == Stream(InitialState(seed), n)
    {
      var r := g.Next();
      rs := rs + [r];
    }
  }

  /** The empty seed leaves the state at 0, and every value is then 0. */
  lemma {:induction false} ZeroStateDrawsZeros(n: nat)
    ensures InitialState("") == 0
    ensures forall k :: 0 <= k < n ==> Stream(0, n)[k] == 0.0
  {
    if n > 0 {
      ZeroStateDrawsZeros(n - 1);
      assert Step(0) == 0;
    }
  }
}
