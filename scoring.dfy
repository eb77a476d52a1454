/**
 * The scoring half of the handler of netlify/functions/recommend.js: the playlist's
 * genre weights (each track spreads a total weight of 1 over its genres), the primary
 * genres, the candidate pool, and the blended score of every candidate.
 *
 * `cosineSimilarity` is a parameter of type `Cosine`: its value needs a square root,
 * and the only property the model relies on is its zero-magnitude guard.
 */
module Scoring {
  import opened Wrappers
  import opened Text
  import opened Genre
  import opened Catalog
  import opened Order
  import opened Vectors

  type Cosine = (seq<real>, seq<real>) -> real

  predicate IsZeroVector(v: seq<real>)
  {
    forall i :: 0 <= i < |v| ==> v[i] == 0.0
  }

  /** `if (magA === 0 || magB === 0) return 0`: a zero vector has similarity 0 with anything. */
  ghost predicate ZeroGuarded(cosine: Cosine)
  {
    forall a: seq<real>, b: seq<real> {:trigger cosine(a, b)} :: IsZeroVector(a) || IsZeroVector(b) ==> cosine(a, b) == 0.0
  }

  /** `xs.filter(p)`, keeping the order. */
  function Filter<T(!new)>(xs: seq<T>, p: T -> bool): (r: seq<T>)
    ensures |r| <= |xs|
    ensures forall x :: x in r <==> x in xs && p(x)
    ensures forall k :: 0 <= k < |r| ==> p(r[k])
    decreases |xs|
  {
    if |xs| == 0 then [] else (if p(xs[0]) then [xs[0]] else []) + Filter(xs[1..], p)
  }

  // ---------------------------------------------------------------------------------
  // Genre weights

  /** One entry of the `genreCounts` Map. */
  datatype GenreCount = GenreCount(genre: string, count: real)

  /** `asGenreArray(track.genre).map((g) => normalizeGenreLabel(g))`. */
  function TrackGenres(t: PlaylistTrack): (gs: seq<string>)
    ensures |gs| >= 1
    ensures forall k :: 0 <= k < |gs| ==> gs[k] != ""
  {
    var raw := AsGenreArray(t.genre);
    seq(|raw|, i requires 0 <= i < |raw| => NormalizeGenreLabel(Str(raw[i])))
  }

  /** Where `g` sits in the Map, if it is there. */
  function IndexOf(acc: seq<GenreCount>, g: string): (r: Option<nat>)
    ensures r.Some? ==> r.value < |acc| && acc[r.value].genre == g
    ensures r.None? ==> forall k :: 0 <= k < |acc| ==> acc[k].genre != g
    decreases |acc|
  {
    if |acc| == 0 then None
    else if acc[0].genre == g then Some(0)
    else
      match IndexOf(acc[1..], g)
      case None => None
      case Some(k) => Some(k + 1)
  }

  /** `acc.set(g, (acc.get(g) || 0) + w)`: an existing key keeps its place, a new key goes last. */
  function AddWeight(acc: seq<GenreCount>, g: string, w: real): (r: seq<GenreCount>)
    ensures IndexOf(acc, g).Some? ==> |r| == |acc|
    ensures IndexOf(acc, g).None? ==> r == acc + [GenreCount(g, w)]
  {
    match IndexOf(acc, g)
    case Some(k) => acc[k := GenreCount(g, acc[k].count + w)]
    case None => acc + [GenreCount(g, w)]
  }

  /** `genres.forEach(...)`: every genre of one track in turn gets weight `w`. */
  function AddAll(acc: seq<GenreCount>, gs: seq<string>, w: real): seq<GenreCount>
    decreases |gs|
  {
    if |gs| == 0 then acc else AddWeight(AddAll(acc, gs[..|gs| - 1], w), gs[|gs| - 1], w)
  }

  /** The weight of one track's genres: `1 / Math.max(genres.length, 1)`. */
  function TrackWeight(gs: seq<string>): (w: real)
    ensures w > 0.0
    ensures |gs| >= 1 ==> |gs| as real * w == 1.0
  {
    1.0 / (if |gs| >= 1 then |gs| else 1) as real
  }

  /** The `genreCounts` Map after the `reduce` over the playlist tracks. */
  function GenreCounts(tracks: seq<PlaylistTrack>): seq<GenreCount>
    decreases |tracks|
  {
    if |tracks| == 0 then []
    else
      var gs := TrackGenres(tracks[|tracks| - 1]);
      AddAll(GenreCounts(tracks[..|tracks| - 1]), gs, TrackWeight(gs))
  }

  /** The sum of the counts. */
  function Total(acc: seq<GenreCount>): real
    decreases |acc|
  {
    if |acc| == 0 then 0.0 else Total(acc[..|acc| - 1]) + acc[|acc| - 1].count
  }

  predicate DistinctGenres(acc: seq<GenreCount>)
  {
    forall i, j :: 0 <= i < j < |acc| ==> acc[i].genre != acc[j].genre
  }

  predicate PositiveCounts(acc: seq<GenreCount>)
  {
    forall i :: 0 <= i < |acc| ==> acc[i].count > 0.0
  }

  lemma {:induction false} TotalUpdate(acc: seq<GenreCount>, k: nat, e: GenreCount)
    requires k < |acc|
    ensures Total(acc[k := e]) == Total(acc) - acc[k].count + e.count
    decreases |acc|
  {
    if k < |acc| - 1 {
      assert acc[k := e][..|acc| - 1] == acc[..|acc| - 1][k := e];
      TotalUpdate(acc[..|acc| - 1], k, e);
    } else {
      assert acc[k := e][..|acc| - 1] == acc[..|acc| - 1];
    }
  }

  lemma TotalAppend(acc: seq<GenreCount>, e: GenreCount)
    ensures Total(acc + [e]) == Total(acc) + e.count
  {
    assert (acc + [e])[..|acc|] == acc;
  }

  /** Adding `w` to one key raises the total by `w` and keeps the keys distinct and the counts positive. */
  lemma AddWeightKeeps(acc: seq<GenreCount>, g: string, w: real)
    requires DistinctGenres(acc) && PositiveCounts(acc) && w > 0.0
    ensures Total(AddWeight(acc, g, w)) == Total(acc) + w
    ensures DistinctGenres(AddWeight(acc, g, w))
    ensures PositiveCounts(AddWeight(acc, g, w))
    ensures |AddWeight(acc, g, w)| > 0
  {
    var r := AddWeight(acc, g, w);
    match IndexOf(acc, g)
    case Some(k) =>
      assert r == acc[k := GenreCount(g, acc[k].count + w)];
      TotalUpdate(acc, k, GenreCount(g, acc[k].count + w));
      assert forall i :: 0 <= i < |r| ==> r[i].genre == acc[i].genre;
    case None =>
      TotalAppend(acc, GenreCount(g, w));
  }

  /** `w` added `n` times. */
  function Repeat(w: real, n: nat): real
  {
    if n == 0 then 0.0 else Repeat(w, n - 1) + w
  }

  lemma {:induction false} RepeatIsProduct(w: real, n: nat)
    ensures Repeat(w, n) == n as real * w
  {
    if n > 0 {
      RepeatIsProduct(w, n - 1);
      assert (n - 1) as real * w + w == n as real * w;
    }
  }

  /** The shares of one track add up to 1. */
  lemma TrackShareIsOne(gs: seq<string>)
    requires |gs| >= 1
    ensures Repeat(TrackWeight(gs), |gs|) == 1.0
  {
    RepeatIsProduct(TrackWeight(gs), |gs|);
  }

  lemma {:induction false} AddAllKeeps(acc: seq<GenreCount>, gs: seq<string>, w: real)
    requires DistinctGenres(acc) && PositiveCounts(acc) && w > 0.0
    ensures Total(AddAll(acc, gs, w)) == Total(acc) + Repeat(w, |gs|)
    ensures DistinctGenres(AddAll(acc, gs, w))
    ensures PositiveCounts(AddAll(acc, gs, w))
    ensures |gs| > 0 ==> |AddAll(acc, gs, w)| > 0
    decreases |gs|
  {
    if |gs| > 0 {
      var n := |gs| - 1;
      var front := AddAll(acc, gs[..n], w);
      AddAllKeeps(acc, gs[..n], w);
      AddWeightKeeps(front, gs[n], w);
      assert AddAll(acc, gs, w) == AddWeight(front, gs[n], w);
    }
  }

  /**
   * Each track spreads a total weight of exactly 1 over its genres, so the counts add up
   * to the number of tracks; the keys are distinct, the counts positive, and the Map is
   * empty exactly when the playlist is.
   */
  lemma {:induction false} GenreCountsInvariant(tracks: seq<PlaylistTrack>)
    ensures Total(GenreCounts(tracks)) == |tracks| as real
    ensures DistinctGenres(GenreCounts(tracks))
    ensures PositiveCounts(GenreCounts(tracks))
    ensures |GenreCounts(tracks)| == 0 <==> |tracks| == 0
    decreases |tracks|
  {
    if |tracks| > 0 {
      var n := |tracks| - 1;
      var front := tracks[..n];
      var gs := TrackGenres(tracks[n]);
      var w := TrackWeight(gs);
      GenreCountsInvariant(front);
      AddAllKeeps(GenreCounts(front), gs, w);
      assert GenreCounts(tracks) == AddAll(GenreCounts(front), gs, w);
      TrackShareIsOne(gs);
    }
  }

  /** The `reduce` that fills `genreCounts`, one track and one genre at a time. */
  method CountGenres(tracks: seq<PlaylistTrack>) returns (counts: seq<GenreCount>)
    ensures counts == GenreCounts(tracks)
    ensures Total(counts) == |tracks| as real
    ensures |counts| == 0 <==> |tracks| == 0
  {
    counts := [];
    for i := 0 to |tracks|
      invariant counts == GenreCounts(tracks[..i])
    {
      var genres := TrackGenres(tracks[i]);
      counts := AddTrack(counts, genres, TrackWeight(genres));
      GenreCountsSnoc(tracks, i);
    }
    assert tracks[..|tracks|] == tracks;
    GenreCountsInvariant(tracks);
  }

  lemma GenreCountsSnoc(tracks: seq<PlaylistTrack>, i: nat)
    requires i < |tracks|
    ensures GenreCounts(tracks[..i + 1])
            == AddAll(GenreCounts(tracks[..i]), TrackGenres(tracks[i]), TrackWeight(TrackGenres(tracks[i])))
  {
    var front := tracks[..i + 1];
    assert front[..i] == tracks[..i] && front[i] == tracks[i];
  }

  /** The inner `forEach` over one track's genres, each adding the track's share. */
  method AddTrack(start: seq<GenreCount>, genres: seq<string>, weight: real) returns (counts: seq<GenreCount>)
    ensures counts == AddAll(start, genres, weight)
  {
    counts := start;
    for g := 0 to |genres|
      invariant counts == AddAll(start, genres[..g], weight)
    {
      assert genres[..g + 1][..g] == genres[..g];
      counts := AddWeight(counts, genres[g], weight);
    }
    assert genres[..|genres|] == genres;
  }

  // ---------------------------------------------------------------------------------
  // The inference branch

  /** `normalizeGenreLabel(item.coarseGenre || item.genre)`; the coarse genre is never empty. */
  function ItemGenre(item: CatalogItem): string
  {
    if item.coarseGenre != "" then NormalizeGenreLabel(Str(item.coarseGenre)) else NormalizeGenreLabel(item.genre)
  }

  /** The 40 catalog items most similar to the playlist mean, the catalog order breaking ties. */
  function Inferred(catalog: seq<CatalogItem>, mean: seq<real>, cosine: Cosine): (r: seq<CatalogItem>)
    ensures |r| == Min(40, |catalog|)
  {
    SortDesc(catalog, (item: CatalogItem) => cosine(item.featureVector, mean))[..Min(40, |catalog|)]
  }

  /** `inferred.forEach(...)`: each inferred item adds 1 to its genre. */
  function InferredCounts(inferred: seq<CatalogItem>): seq<GenreCount>
    decreases |inferred|
  {
    if |inferred| == 0 then []
    else AddWeight(InferredCounts(inferred[..|inferred| - 1]), ItemGenre(inferred[|inferred| - 1]), 1.0)
  }

  /** The genre counts and the divisor `totalTracks` the weights are computed with. */
  datatype Weighting = Weighting(counts: seq<GenreCount>, totalTracks: real)

  /** Lines 409-431: the playlist's own counts, or the inferred ones when the Map is empty. */
  function Weigh(counts: seq<GenreCount>, trackCount: nat, catalog: seq<CatalogItem>, mean: seq<real>, cosine: Cosine): (w: Weighting)
    ensures w.totalTracks >= 1.0
    ensures |counts| > 0 ==> w == Weighting(counts, if trackCount == 0 then 1.0 else trackCount as real)
  {
    var total := if trackCount == 0 then 1.0 else trackCount as real;
    if |counts| > 0 then Weighting(counts, total)
    else
      var inferred := Inferred(catalog, mean, cosine);
      Weighting(InferredCounts(inferred), if |inferred| == 0 then total else |inferred| as real)
  }

  /** The inference runs only for an empty playlist, whose mean vector is all zeros. */
  lemma InferenceOnlyForEmptyPlaylist(tracks: seq<PlaylistTrack>)
    ensures |GenreCounts(tracks)| == 0 ==> |tracks| == 0
  {
    GenreCountsInvariant(tracks);
  }

  /**
   * With the zero mean of an empty playlist every similarity is 0, so the stable sort
   * leaves the catalog in file order and the inference takes its first 40 items.
   */
  lemma InferenceTakesCatalogHead(catalog: seq<CatalogItem>, mean: seq<real>, cosine: Cosine)
    requires ZeroGuarded(cosine) && IsZeroVector(mean)
    ensures Inferred(catalog, mean, cosine) == catalog[..Min(40, |catalog|)]
  {
    var key := (item: CatalogItem) => cosine(item.featureVector, mean);
    forall i | 0 <= i < |catalog|
      ensures key(catalog[i]) == 0.0
    {
      assert cosine(catalog[i].featureVector, mean) == 0.0;
    }
    assert SortedDesc(catalog, key);
    SortDescOfSorted(catalog, key);
  }

  // ---------------------------------------------------------------------------------
  // Preferred and primary genres

  datatype GenreWeight = GenreWeight(genre: string, weight: real)

  function CountOf(c: GenreCount): real { c.count }
  function WeightOf(g: GenreWeight): real { g.weight }

  /** Lines 433-435: sorted by count, descending and stable, each count divided by the total. */
  function PreferredGenres(w: Weighting): (r: seq<GenreWeight>)
    requires w.totalTracks > 0.0
    ensures |r| == |w.counts|
  {
    var sorted := SortDesc(w.counts, CountOf);
    seq(|sorted|, i requires 0 <= i < |sorted| => GenreWeight(sorted[i].genre, sorted[i].count / w.totalTracks))
  }

  /** Dividing by the positive total keeps the descending order. */
  lemma PreferredSorted(w: Weighting)
    requires w.totalTracks > 0.0
    ensures SortedDesc(PreferredGenres(w), WeightOf)
  {
    var sorted := SortDesc(w.counts, CountOf);
    var r := PreferredGenres(w);
    forall i, j | 0 <= i < j < |r|
      ensures WeightOf(r[i]) >= WeightOf(r[j])
    {
      assert CountOf(sorted[i]) >= CountOf(sorted[j]);
      DivMonotone(sorted[j].count, sorted[i].count, w.totalTracks);
    }
  }

  lemma DivMonotone(a: real, b: real, d: real)
    requires a <= b && d > 0.0
    ensures a / d <= b / d
  {
    assert b / d - a / d == (b - a) / d;
  }

  const PrimaryThreshold: real := 0.18

  /** `filter((g, idx) => g.weight >= 0.18 || idx === 0)` from position `i` on. */
  function PrimaryFrom(pref: seq<GenreWeight>, i: nat): seq<GenreWeight>
    requires i <= |pref|
    decreases |pref| - i
  {
    if i == |pref| then []
    else (if pref[i].weight >= PrimaryThreshold || i == 0 then [pref[i]] else []) + PrimaryFrom(pref, i + 1)
  }

  function PrimaryGenres(pref: seq<GenreWeight>): seq<GenreWeight>
  {
    PrimaryFrom(pref, 0)
  }

  lemma {:induction false} PrimaryFromIsRun(pref: seq<GenreWeight>, i: nat)
    requires SortedDesc(pref, WeightOf) && 1 <= i <= |pref|
    ensures var f := PrimaryFrom(pref, i);
            && i + |f| <= |pref|
            && f == pref[i..i + |f|]
            && (forall k :: i <= k < i + |f| ==> pref[k].weight >= PrimaryThreshold)
            && (forall k :: i + |f| <= k < |pref| ==> pref[k].weight < PrimaryThreshold)
    decreases |pref| - i
  {
    if i < |pref| {
      PrimaryFromIsRun(pref, i + 1);
      if pref[i].weight < PrimaryThreshold {
        assert |PrimaryFrom(pref, i + 1)| == 0;
      }
    }
  }

  /**
   * On the weight-descending list the primary genres are a prefix: the first entry,
   * then every later entry whose weight is at least 0.18, and nothing after the first
   * lighter one.
   */
  lemma PrimaryIsPrefix(pref: seq<GenreWeight>)
    requires SortedDesc(pref, WeightOf) && |pref| > 0
    ensures var p := PrimaryGenres(pref);
            && 1 <= |p| <= |pref|
            && p == pref[..|p|]
            && (forall k :: 1 <= k < |p| ==> p[k].weight >= PrimaryThreshold)
            && (forall k :: |p| <= k < |pref| ==> pref[k].weight < PrimaryThreshold)
  {
    PrimaryFromIsRun(pref, 1);
    var f := PrimaryFrom(pref, 1);
    assert PrimaryGenres(pref) == [pref[0]] + f;
    assert pref[..1 + |f|] == [pref[0]] + pref[1..1 + |f|];
  }

  lemma PrimaryEmptyIff(pref: seq<GenreWeight>)
    ensures |PrimaryGenres(pref)| == 0 <==> |pref| == 0
  {
    if |pref| > 0 {
      assert PrimaryGenres(pref)[0] == pref[0];
    }
  }

  function GenreSet(primary: seq<GenreWeight>): set<string>
  {
    set k | 0 <= k < |primary| :: primary[k].genre
  }

  // ---------------------------------------------------------------------------------
  // The candidate pool

  /** Lines 439-443: every item when there is no primary genre, else the items of a primary genre. */
  function StrictMatches(catalog: seq<CatalogItem>, primary: seq<GenreWeight>): (r: seq<CatalogItem>)
    ensures forall x :: x in r <==> x in catalog && (|primary| == 0 || ItemGenre(x) in GenreSet(primary))
  {
    Filter(catalog, (item: CatalogItem) => |primary| == 0 || ItemGenre(item) in GenreSet(primary))
  }

  /** At least 12 strict matches, or the whole catalog. */
  function Candidates(catalog: seq<CatalogItem>, primary: seq<GenreWeight>): (r: seq<CatalogItem>)
    ensures |StrictMatches(catalog, primary)| >= 12 ==> r == StrictMatches(catalog, primary)
    ensures |StrictMatches(catalog, primary)| < 12 ==> r == catalog
  {
    var strict := StrictMatches(catalog, primary);
    if |strict| >= 12 then strict else catalog
  }

  /** Whatever the branch, every candidate comes from the catalog, and a small pool falls back to all of it. */
  lemma CandidatesFromCatalog(catalog: seq<CatalogItem>, primary: seq<GenreWeight>)
    ensures forall x :: x in Candidates(catalog, primary) ==> x in catalog
    ensures |Candidates(catalog, primary)| >= Min(12, |catalog|)
  {
  }

  /** `candidates.filter((item) => !playlistIds.has(item.track_id))`. */
  function Unheard(candidates: seq<CatalogItem>, playlistIds: set<string>): (r: seq<CatalogItem>)
    ensures forall x :: x in r <==> x in candidates && x.trackId !in playlistIds
  {
    Filter(candidates, (item: CatalogItem) => item.trackId !in playlistIds)
  }

  // ---------------------------------------------------------------------------------
  // The score of one candidate

  function Clamp01(x: real): (r: real)
    ensures 0.0 <= r <= 1.0
    ensures 0.0 <= x <= 1.0 ==> r == x
  {
    if x < 0.0 then 0.0 else if x > 1.0 then 1.0 else x
  }

  function Abs(x: real): real { if x < 0.0 then -x else x }

  function RealMin(a: real, b: real): real { if a <= b then a else b }
  function RealMax(a: real, b: real): real { if a >= b then a else b }

  /** What the handler knows about the playlist when it scores a candidate. */
  datatype Profile = Profile(
    vectors: seq<seq<real>>,
    mean: seq<real>,
    primary: seq<GenreWeight>,
    avgPopularity: real,
    artists: set<string>)

  /** A scored candidate with the components the re-rank reads again. */
  datatype Scored = Scored(
    item: CatalogItem,
    similarity: real,
    featureScore: real,
    maxSim: real,
    avgSim: real,
    meanSim: real)

  /** `primaryGenres.find((g) => g.genre === itemGenre)?.weight || 0`. */
  function GenreWeightOf(primary: seq<GenreWeight>, g: string): (w: real)
    ensures (forall k :: 0 <= k < |primary| ==> primary[k].genre != g) ==> w == 0.0
    ensures (forall k :: 0 <= k < |primary| ==> primary[k].weight >= 0.0) ==> w >= 0.0
    decreases |primary|
  {
    if |primary| == 0 then 0.0
    else if primary[0].genre == g then primary[0].weight
    else GenreWeightOf(primary[1..], g)
  }

  /** `1 + Math.min(genreWeight * 0.8, 0.45)`. */
  function GenreMatchBoost(weight: real): (b: real)
    ensures b <= 1.45
    ensures weight >= 0.0 ==> 1.0 <= b
  {
    1.0 + RealMin(weight * 0.8, 0.45)
  }

  /** `primaryGenreSet.size && !primaryGenreSet.has(itemGenre) ? 0.18 : 1`. */
  function GenrePenalty(primary: seq<GenreWeight>, g: string): (p: real)
    ensures p == 0.18 || p == 1.0
    ensures p == 0.18 <==> |primary| > 0 && forall k :: 0 <= k < |primary| ==> primary[k].genre != g
  {
    if |primary| > 0 && g !in GenreSet(primary) then 0.18 else 1.0
  }

  /** `1 - Math.min(Math.abs(popularity - avgPopularity) / 100, 0.5)`: closeness to the playlist's popularity. */
  function PopWeight(popularity: real, avg: real): (w: real)
    ensures 0.5 <= w <= 1.0
    ensures w == 1.0 <==> popularity == avg
  {
    1.0 - RealMin(Abs(popularity - avg) / 100.0, 0.5)
  }

  /** `playlistArtists.has(artist.toLowerCase()) ? 0.9 : 1`. */
  function ArtistPenalty(artists: set<string>, name: string): (p: real)
    ensures p == 0.9 || p == 1.0
    ensures p == 0.9 <==> Lower(name) in artists
  {
    if Lower(name) in artists then 0.9 else 1.0
  }

  /** `rand() * 0.01`. */
  function Jitter(r: real): (j: real)
    requires 0.0 <= r <= 1.0
    ensures 0.0 <= j <= 0.01
  {
    r * 0.01
  }

  /** The blended score before the artist penalty and the clamp. */
  function Blended(featureScore: real, meanSim: real, popWeight: real, jitter: real, penalty: real, boost: real): real
  {
    (featureScore * 0.84 + meanSim * 0.06 + popWeight * 0.08 + jitter) * penalty + boost * 0.02
  }

  /** The similarity of `item` to each playlist track, in playlist order. */
  function Similarities(item: CatalogItem, vectors: seq<seq<real>>, cosine: Cosine): (s: seq<real>)
    ensures |s| == |vectors|
  {
    seq(|vectors|, i requires 0 <= i < |vectors| => cosine(item.featureVector, vectors[i]))
  }

  /** `similarities.length ? Math.max(...similarities) : 0`. */
  function MaxSim(sims: seq<real>): (m: real)
    ensures |sims| == 0 ==> m == 0.0
    ensures forall i :: 0 <= i < |sims| ==> sims[i] <= m
    ensures |sims| > 0 ==> exists i :: 0 <= i < |sims| && sims[i] == m
  {
    if |sims| > 0 then MaxOf(sims) else 0.0
  }

  /** The mean similarity, 0 for an empty playlist. */
  function AvgSim(sims: seq<real>): (a: real)
    ensures |sims| == 0 ==> a == 0.0
    ensures |sims| > 0 ==> a * |sims| as real == Sum(sims)
  {
    if |sims| > 0 then Sum(sims) / |sims| as real else 0.0
  }

  /** Lines 453-490 for one candidate, `r` being the generator's draw for it. */
  function ScoreCandidate(item: CatalogItem, profile: Profile, cosine: Cosine, r: real): (s: Scored)
    requires 0.0 <= r <= 1.0
    ensures s.item == item
    ensures 0.0 <= s.similarity <= 1.0
    ensures s.maxSim == MaxSim(Similarities(item, profile.vectors, cosine))
    ensures s.avgSim == AvgSim(Similarities(item, profile.vectors, cosine))
    ensures s.meanSim == cosine(item.featureVector, profile.mean)
  {
    var sims := Similarities(item, profile.vectors, cosine);
    var maxSim := MaxSim(sims);
    var avgSim := AvgSim(sims);
    var meanSim := cosine(item.featureVector, profile.mean);
    var featureScore := maxSim * 0.5 + avgSim * 0.25 + meanSim * 0.25;
    var g := ItemGenre(item);
    var boost := GenreMatchBoost(GenreWeightOf(profile.primary, g));
    var penalty := GenrePenalty(profile.primary, g);
    var popWeight := PopWeight(item.popularity, profile.avgPopularity);
    var artistPenalty := ArtistPenalty(profile.artists, item.artistName);
    var blended := Blended(featureScore, meanSim, popWeight, Jitter(r), penalty, boost);
    Scored(item, Clamp01(blended * artistPenalty), featureScore, maxSim, avgSim, meanSim)
  }

  /** The clamp comes once, after the artist penalty: the penalty never raises a score. */
  lemma ArtistPenaltyNeverRaises(blended: real, artists: set<string>, name: string)
    ensures Clamp01(blended * ArtistPenalty(artists, name)) <= Clamp01(blended)
  {
  }

  /** The jitter moves the blended score by at most 0.01 times the genre penalty. */
  lemma JitterBounded(featureScore: real, meanSim: real, popWeight: real, r: real, penalty: real, boost: real)
    requires 0.0 <= r <= 1.0 && (penalty == 0.18 || penalty == 1.0)
    ensures Blended(featureScore, meanSim, popWeight, 0.0, penalty, boost)
            <= Blended(featureScore, meanSim, popWeight, Jitter(r), penalty, boost)
            <= Blended(featureScore, meanSim, popWeight, 0.0, penalty, boost) + 0.01 * penalty
  {
  }

  /** A candidate in a primary genre is never penalised, and gets a boost of 1 + min(0.8 w, 0.45). */
  lemma PrimaryGenreUnpenalised(primary: seq<GenreWeight>, k: nat)
    requires k < |primary|
    ensures GenrePenalty(primary, primary[k].genre) == 1.0
  {
  }

  /** The `.map` over the unheard candidates: the k-th candidate gets the k-th draw. */
  function ScoreAll(unheard: seq<CatalogItem>, profile: Profile, cosine: Cosine, draws: seq<real>): (s: seq<Scored>)
    requires |draws| == |unheard|
    requires forall k :: 0 <= k < |draws| ==> 0.0 <= draws[k] <= 1.0
    ensures |s| == |unheard|
    ensures forall k :: 0 <= k < |s| ==> s[k].item == unheard[k] && 0.0 <= s[k].similarity <= 1.0
  {
    seq(|unheard|, k requires 0 <= k < |unheard| => ScoreCandidate(unheard[k], profile, cosine, draws[k]))
  }

  function SimilarityOf(s: Scored): real { s.similarity }

  /** `.sort((a, b) => b.similarity - a.similarity)`. */
  function RankBySimilarity(scored: seq<Scored>): (r: seq<Scored>)
    ensures |r| == |scored|
    ensures SortedDesc(r, SimilarityOf)
  {
    SortDesc(scored, SimilarityOf)
  }

  /** `playlistTracks.reduce(...) / playlistTracks.length`, over `Number(track.popularity) || 0`. */
  function AvgPopularity(tracks: seq<PlaylistTrack>): real
  {
    if |tracks| == 0 then 0.0
    else Sum(seq(|tracks|, i requires 0 <= i < |tracks| => OrZero(FeatureOf(tracks[i].features, PopularityIndex)))) / |tracks| as real
  }
}
