/**
 * `buildPlaylistVectors` of netlify/functions/recommend.js: every playlist track gets a
 * feature vector normalised with the catalog's bounds, and the playlist's mean vector
 * is accumulated component by component in a ten-slot array.
 */
module Vectors {
  import opened Catalog
  import opened Genre
  import opened Order

  /** A playlist track as the handler builds it (live from the API, or from the fallback). */
  datatype PlaylistTrack = PlaylistTrack(
    trackId: string,
    trackName: string,
    artistName: string,
    genre: GenreValue,
    features: seq<Num>)

  /** `FEATURES.map(key => normalizeValue(Number(track[key]), min, max))`. */
  function TrackVector(t: PlaylistTrack, bounds: seq<Bounds>): (v: seq<real>)
    requires |bounds| == FeatureCount
    ensures |v| == FeatureCount
    ensures forall k :: 0 <= k < FeatureCount ==> v[k] == NormalizeValue(FeatureOf(t.features, k), bounds[k])
  {
    seq(FeatureCount, k requires 0 <= k < FeatureCount => NormalizeValue(FeatureOf(t.features, k), bounds[k]))
  }

  predicate AllOfLength(vs: seq<seq<real>>, n: nat)
  {
    forall i :: 0 <= i < |vs| ==> |vs[i]| == n
  }

  /** Component `k` of every vector, in order. */
  function Component(vs: seq<seq<real>>, k: nat): (c: seq<real>)
    requires AllOfLength(vs, FeatureCount) && k < FeatureCount
    ensures |c| == |vs|
    ensures forall i :: 0 <= i < |vs| ==> c[i] == vs[i][k]
  {
    seq(|vs|, i requires 0 <= i < |vs| => vs[i][k])
  }

  /** The mean vector: the component sums divided by the count, or all zeros for no tracks. */
  function MeanVector(vs: seq<seq<real>>): (m: seq<real>)
    requires AllOfLength(vs, FeatureCount)
    ensures |m| == FeatureCount
    ensures |vs| == 0 ==> forall k :: 0 <= k < FeatureCount ==> m[k] == 0.0
  {
    seq(FeatureCount, k requires 0 <= k < FeatureCount =>
      if |vs| == 0 then 0.0 else Sum(Component(vs, k)) / |vs| as real)
  }

  /** Every component of the mean lies within the range of that component over the tracks. */
  lemma MeanWithinBounds(vs: seq<seq<real>>, k: nat, lo: real, hi: real)
    requires AllOfLength(vs, FeatureCount) && k < FeatureCount && |vs| > 0
    requires forall i :: 0 <= i < |vs| ==> lo <= vs[i][k] <= hi
    ensures lo <= MeanVector(vs)[k] <= hi
  {
    SumBounds(Component(vs, k), lo, hi);
    QuotientBounds(Sum(Component(vs, k)), |vs| as real, lo, hi);
  }

  lemma QuotientBounds(s: real, n: real, lo: real, hi: real)
    requires n > 0.0 && n * lo <= s <= n * hi
    ensures lo <= s / n <= hi
  {
    var q := s / n;
    assert (q - lo) * n == s - n * lo;
    assert (hi - q) * n == n * hi - s;
  }

  /** The mean of one vector is that vector. */
  lemma MeanOfOne(v: seq<real>)
    requires |v| == FeatureCount
    ensures MeanVector([v]) == v
  {
    forall k | 0 <= k < FeatureCount
      ensures MeanVector([v])[k] == v[k]
    {
      assert Component([v], k) == [v[k]];
      assert Sum([v[k]]) == Sum([]) + v[k];
    }
  }

  lemma ComponentAppend(vs: seq<seq<real>>, v: seq<real>, k: nat)
    requires AllOfLength(vs, FeatureCount) && |v| == FeatureCount && k < FeatureCount
    ensures AllOfLength(vs + [v], FeatureCount)
    ensures Component(vs + [v], k) == Component(vs, k) + [v[k]]
  {
  }

  /** `buildPlaylistVectors(tracks, minMax)`: the tracks' vectors and their mean. */
  method BuildPlaylistVectors(tracks: seq<PlaylistTrack>, bounds: seq<Bounds>)
    returns (vectors: seq<seq<real>>, mean: seq<real>)
    requires |bounds| == FeatureCount
    ensures |vectors| == |tracks|
    ensures forall i :: 0 <= i < |tracks| ==> vectors[i] == TrackVector(tracks[i], bounds)
    ensures AllOfLength(vectors, FeatureCount)
    ensures mean == MeanVector(vectors)
  {
    vectors := seq(|tracks|, i requires 0 <= i < |tracks| => TrackVector(tracks[i], bounds));
    var aggregated := new real[FeatureCount](_ => 0.0);
    for i := 0 to |vectors|
      invariant forall k :: 0 <= k < FeatureCount ==> aggregated[k] == Sum(Component(vectors[..i], k))
    {
      assert vectors[..i + 1] == vectors[..i] + [vectors[i]];
      AddVector(aggregated, vectors[..i], vectors[i]);
    }
    assert vectors[..|vectors|] == vectors;
    if |vectors| > 0 {
      mean := seq(FeatureCount, k requires 0 <= k < FeatureCount reads aggregated => aggregated[k] / |vectors| as real);
    } else {
      mean := aggregated[..];
    }
  }

  /** `vector.forEach((value, idx) => { aggregated[idx] += value; })` for one track. */
  method AddVector(aggregated: array<real>, front: seq<seq<real>>, v: seq<real>)
    requires aggregated.Length == FeatureCount && AllOfLength(front, FeatureCount) && |v| == FeatureCount
    requires forall k :: 0 <= k < FeatureCount ==> aggregated[k] == Sum(Component(front, k))
    modifies aggregated
    ensures forall k :: 0 <= k < FeatureCount ==> aggregated[k] == Sum(Component(front + [v], k))
  {
    for idx := 0 to FeatureCount
      invariant forall k :: 0 <= k < idx ==> aggregated[k] == Sum(Component(front + [v], k))
      invariant forall k :: idx <= k < FeatureCount ==> aggregated[k] == Sum(Component(front, k))
    {
      ComponentAppend(front, v, idx);
      aggregated[idx] := aggregated[idx] + v[idx];
    }
  }
}
