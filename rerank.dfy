/**
 * The re-rank and display calibration of the handler of netlify/functions/recommend.js:
 * the 25 best-scored candidates get a `finalScore` (with an artist-diversity penalty),
 * are sorted by it, and the first five get a `displaySimilarity` in [0.6, 0.99] that
 * blends their strongest raw signal, their min-max normalised final score and their rank.
 */
module Rerank {
  import opened Wrappers
  import opened Text
  import opened Order
  import opened Scoring

  const PoolSize: nat := 25
  const ResultSize: nat := 5
  const MinRange: real := 0.08

  /** A pool entry with the two fields the handler writes onto it. */
  datatype Ranked = Ranked(scored: Scored, finalScore: real, displaySimilarity: real)

  function FinalScoreOf(r: Ranked): real { r.finalScore }

  /** `scored.slice(0, 25)`. */
  function Pool(scored: seq<Scored>): (pool: seq<Scored>)
    ensures |pool| == Min(PoolSize, |scored|)
    ensures pool == scored[..|pool|]
  {
    scored[..Min(PoolSize, |scored|)]
  }

  /** `(candidate.artist_name || '').toLowerCase()`. */
  function ArtistKey(s: Scored): string
  {
    Lower(s.item.artistName)
  }

  /** `usedArtists.has(artistKey) ? 0.8 : 1`. */
  function DiversityPenalty(used: set<string>, key: string): (p: real)
    ensures p == 0.8 || p == 1.0
    ensures used == {} ==> p == 1.0
  {
    if key in used then 0.8 else 1.0
  }

  /** `Math.max(0.08, maxScore - minScore || 0)`. */
  function ScoreRange(minScore: real, maxScore: real): (range: real)
    ensures range >= MinRange
    ensures range >= maxScore - minScore
  {
    RealMax(MinRange, maxScore - minScore)
  }

  /** The calibrated similarity of the pool entry at `index` of `n`. */
  function Display(r: Ranked, index: nat, n: nat, minScore: real, range: real): (d: real)
    requires index < n && range > 0.0
    ensures 0.6 <= d <= 0.99
  {
    var normalizedScore := (r.finalScore - minScore) / range;
    var rankComponent := 1.0 - index as real / n as real;
    var baseSignal := RealMax(RealMax(r.scored.maxSim, r.scored.meanSim), r.scored.featureScore);
    var blendedSignal := 0.45 * baseSignal + 0.35 * normalizedScore + 0.2 * rankComponent;
    Clamp01(0.6 + Clamp01(blendedSignal) * 0.39)
  }

  /** The pool entries' final scores, in pool order. */
  function FinalScores(pool: seq<Ranked>): (fs: seq<real>)
    ensures |fs| == |pool|
    ensures forall k :: 0 <= k < |pool| ==> fs[k] == pool[k].finalScore
  {
    seq(|pool|, k requires 0 <= k < |pool| => pool[k].finalScore)
  }

  /** The bounds of the final scores; an empty pool has none and is never read. */
  function MinScore(pool: seq<Ranked>): real
  {
    if |pool| == 0 then 0.0 else MinOf(FinalScores(pool))
  }

  function MaxScore(pool: seq<Ranked>): real
  {
    if |pool| == 0 then 0.0 else MaxOf(FinalScores(pool))
  }

  /** The pool after the penalty loop: `finalScore` is the similarity times the diversity penalty. */
  function Penalised(pool: seq<Scored>, used: set<string>): (r: seq<Ranked>)
    ensures |r| == |pool|
  {
    seq(|pool|, k requires 0 <= k < |pool| => Ranked(pool[k], pool[k].similarity * DiversityPenalty(used, ArtistKey(pool[k])), 0.0))
  }

  /** The first five entries of the sorted pool, each with its display similarity. */
  function Calibrated(sorted: seq<Ranked>): (r: seq<Ranked>)
    ensures |r| == Min(ResultSize, |sorted|)
  {
    var range := ScoreRange(MinScore(sorted), MaxScore(sorted));
    seq(Min(ResultSize, |sorted|), k requires 0 <= k < Min(ResultSize, |sorted|) =>
      sorted[k].(displaySimilarity := Display(sorted[k], k, |sorted|, MinScore(sorted), range)))
  }

  /** The whole re-rank as a function of the scored list. */
  function RerankSpec(scored: seq<Scored>): seq<Ranked>
  {
    Calibrated(SortDesc(Penalised(Pool(scored), {}), FinalScoreOf))
  }

  /** Lines 496-501: `usedArtists` is still empty here, so every penalty is 1. */
  method ApplyPenalties(scoredPool: seq<Scored>) returns (pool: seq<Ranked>)
    ensures pool == Penalised(scoredPool, {})
  {
    var usedArtists: set<string> := {};
    pool := [];
    for k := 0 to |scoredPool|
      invariant usedArtists == {}
      invariant pool == Penalised(scoredPool[..k], usedArtists)
    {
      var candidate := scoredPool[k];
      var diversityPenalty := DiversityPenalty(usedArtists, ArtistKey(candidate));
      pool := pool + [Ranked(candidate, candidate.similarity * diversityPenalty, 0.0)];
    }
    assert scoredPool[..|scoredPool|] == scoredPool;
  }

  /** Lines 505-521: the bounds of the final scores, then the first five entries calibrated. */
  method Calibrate(pool: seq<Ranked>) returns (reranked: seq<Ranked>)
    ensures reranked == Calibrated(pool)
  {
    reranked := [];
    var usedArtists: set<string> := {};
    var minScore := MinScore(pool);
    var maxScore := MaxScore(pool);
    var scoreRange := ScoreRange(minScore, maxScore);
    for index := 0 to |pool|
      invariant |reranked| == Min(ResultSize, index)
      invariant reranked == Calibrated(pool)[..|reranked|]
    {
      if |reranked| < ResultSize {
        var candidate := pool[index];
        var display := Display(candidate, index, |pool|, minScore, scoreRange);
        reranked := reranked + [candidate.(displaySimilarity := display)];
        usedArtists := usedArtists + {ArtistKey(candidate.scored)};
      }
    }
  }

  /** Lines 492-521. */
  method Rerank(scored: seq<Scored>) returns (reranked: seq<Ranked>)
    ensures reranked == RerankSpec(scored)
    ensures |reranked| == Min(ResultSize, Min(PoolSize, |scored|))
    ensures forall k :: 0 <= k < |reranked| ==> reranked[k].finalScore == reranked[k].scored.similarity
    ensures forall k :: 0 <= k < |reranked| ==> 0.6 <= reranked[k].displaySimilarity <= 0.99
  {
    var pool := ApplyPenalties(Pool(scored));
    pool := SortDesc(pool, FinalScoreOf);
    reranked := Calibrate(pool);
    SortedPoolUnpenalised(Pool(scored));
    forall k | 0 <= k < |reranked|
      ensures reranked[k].finalScore == reranked[k].scored.similarity
    {
      assert reranked[k].finalScore == pool[k].finalScore && reranked[k].scored == pool[k].scored;
      assert pool[k] in pool;
    }
  }

  /** With no artist used yet, every final score is the similarity itself. */
  lemma PenalisedWithoutArtists(pool: seq<Scored>)
    ensures forall k :: 0 <= k < |pool| ==> Penalised(pool, {})[k].finalScore == pool[k].similarity
    ensures forall k :: 0 <= k < |pool| ==> Penalised(pool, {})[k].scored == pool[k]
  {
  }

  /** ... and the sort by final score keeps that so. */
  lemma SortedPoolUnpenalised(pool: seq<Scored>)
    ensures forall x :: x in SortDesc(Penalised(pool, {}), FinalScoreOf) ==> x.finalScore == x.scored.similarity
  {
    var p := Penalised(pool, {});
    PenalisedWithoutArtists(pool);
    SortDescSameElements(p, FinalScoreOf);
    forall x | x in p
      ensures x.finalScore == x.scored.similarity
    {
      var k :| 0 <= k < |p| && p[k] == x;
    }
  }

  /**
   * On the similarity-sorted list the handler passes in, the sort by final score changes
   * nothing: the result is the first five of the top 25, in order, whatever their artists.
   */
  lemma RerankKeepsOrder(scored: seq<Scored>)
    requires SortedDesc(scored, SimilarityOf)
    ensures |RerankSpec(scored)| == Min(ResultSize, Min(PoolSize, |scored|))
    ensures forall k :: 0 <= k < |RerankSpec(scored)| ==> RerankSpec(scored)[k].scored == scored[k]
  {
    var p := Penalised(Pool(scored), {});
    PenalisedWithoutArtists(Pool(scored));
    assert SortedDesc(p, FinalScoreOf) by {
      forall i, j | 0 <= i < j < |p|
        ensures FinalScoreOf(p[i]) >= FinalScoreOf(p[j])
      {
        assert SimilarityOf(scored[i]) >= SimilarityOf(scored[j]);
      }
    }
    SortDescOfSorted(p, FinalScoreOf);
  }

  /** An empty scored list gives an empty result. */
  lemma EmptyPoolEmptyResult()
    ensures RerankSpec([]) == []
  {
  }
}
