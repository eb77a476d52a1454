/**
 * `exports.handler` of netlify/functions/recommend.js: the request checks, the playlist
 * link match, the choice between the fetched playlist and the seeded fallback, and the
 * pipeline from playlist tracks to at most five recommendations.
 *
 * The Spotify calls are not part of this model: their outcome is a parameter
 * (`FetchOutcome`), and so are the rows of the catalog file and `cosineSimilarity`.
 */
module Handler {
  import opened Wrappers
  import opened Text
  import opened Genre
  import opened Catalog
  import opened Order
  import opened SeededRandom
  import opened Subset
  import opened Vectors
  import opened Scoring
  import opened Rerank

  // ---------------------------------------------------------------------------------
  // The playlist link

  const PlaylistPrefix: string := "https://open.spotify.com/playlist/"
  const TrackUrlPrefix: string := "https://open.spotify.com/track/"

  predicate IsAlnum(c: char)
  {
    ('a' <= c <= 'z') || ('A' <= c <= 'Z') || ('0' <= c <= '9')
  }

  /** The characters `.` does not match: the ECMAScript line terminators. */
  predicate IsLineTerminator(c: char)
  {
    c == '\n' || c == '\r' || c == ' ' || c == ' '
  }

  /** `(?:\?.*)?$`: nothing, or `?` followed by anything but a line terminator. */
  predicate ValidQuery(q: string)
  {
    q == "" || (q[0] == '?' && forall i :: 1 <= i < |q| ==> !IsLineTerminator(q[i]))
  }

  /** The length of the run of `[a-zA-Z0-9]` at the start of `s`. */
  function AlnumRun(s: string): (n: nat)
    ensures n <= |s|
    ensures forall i :: 0 <= i < n ==> IsAlnum(s[i])
    ensures n == |s| || !IsAlnum(s[n])
    decreases |s|
  {
    if |s| == 0 || !IsAlnum(s[0]) then 0 else 1 + AlnumRun(s[1..])
  }

  /** `playlistRegex.exec(link)`, reduced to the captured id. */
  function MatchPlaylistLink(link: string): Option<string>
  {
    if !IsPrefix(PlaylistPrefix, link) then None
    else
      var rest := link[|PlaylistPrefix|..];
      var n := AlnumRun(rest);
      if n > 0 && ValidQuery(rest[n..]) then Some(rest[..n]) else None
  }

  /** What the regular expression accepts, written out: prefix, id, optional query. */
  predicate AcceptedWith(link: string, id: string)
  {
    var p := |PlaylistPrefix|;
    && |id| > 0
    && (forall i :: 0 <= i < |id| ==> IsAlnum(id[i]))
    && p + |id| <= |link|
    && link[..p] == PlaylistPrefix
    && link[p..p + |id|] == id
    && ValidQuery(link[p + |id|..])
  }

  /** Every match is an accepted link, and the id is its alphanumeric run. */
  lemma LinkMatchSound(link: string)
    requires MatchPlaylistLink(link).Some?
    ensures AcceptedWith(link, MatchPlaylistLink(link).value)
  {
    var p := |PlaylistPrefix|;
    var rest := link[p..];
    var n := AlnumRun(rest);
    assert link[p..p + n] == rest[..n];
    assert link[p + n..] == rest[n..];
  }

  /** A run of `m` alphanumerics followed by a non-alphanumeric (or the end) has length `m`. */
  lemma {:induction false} RunOfAlnumPrefix(s: string, m: nat)
    requires m <= |s|
    requires forall i :: 0 <= i < m ==> IsAlnum(s[i])
    requires m == |s| || !IsAlnum(s[m])
    ensures AlnumRun(s) == m
    decreases m
  {
    if m > 0 {
      RunOfAlnumPrefix(s[1..], m - 1);
    }
  }

  /** Every accepted link matches, with exactly that id. */
  lemma LinkMatchComplete(link: string, id: string)
    requires AcceptedWith(link, id)
    ensures MatchPlaylistLink(link) == Some(id)
  {
    var p := |PlaylistPrefix|;
    var rest := link[p..];
    var m := |id|;
    assert rest[..m] == id;
    assert rest[m..] == link[p + m..];
    assert forall i :: 0 <= i < m ==> IsAlnum(rest[i]);
    assert m == |rest| || rest[m] == '?';
    assert AlnumRun(rest) == m by { RunOfAlnumPrefix(rest, m); }
  }

  /** A link with anything after the id but a query is refused. */
  lemma TrailingSlashRejected()
    ensures MatchPlaylistLink(PlaylistPrefix + "abc/") == None
    ensures MatchPlaylistLink(PlaylistPrefix + "abc?si=1") == Some("abc")
  {
    SlashAfterId();
    QueryAfterId();
  }

  lemma SlashAfterId()
    ensures MatchPlaylistLink(PlaylistPrefix + "abc/") == None
  {
    var rest := "abc/";
    assert IsPrefix(PlaylistPrefix, PlaylistPrefix + rest);
    assert (PlaylistPrefix + rest)[|PlaylistPrefix|..] == rest;
    RunOfAlnumPrefix(rest, 3);
    assert rest[3..] == "/";
  }

  lemma QueryAfterId()
    ensures MatchPlaylistLink(PlaylistPrefix + "abc?si=1") == Some("abc")
  {
    var rest := "abc?si=1";
    assert IsPrefix(PlaylistPrefix, PlaylistPrefix + rest);
    assert (PlaylistPrefix + rest)[|PlaylistPrefix|..] == rest;
    RunOfAlnumPrefix(rest, 3);
    assert rest[3..] == "?si=1";
    assert rest[..3] == "abc";
  }

  // ---------------------------------------------------------------------------------
  // The playlist: fetched, or the seeded fallback

  /** What the token and playlist fetches produced: tracks (perhaps none), or an exception. */
  datatype FetchOutcome = Fetched(tracks: seq<PlaylistTrack>) | Threw(message: string)

  datatype Meta = Live | Fallback(reason: string)

  /** The `catch` of lines 369-373. */
  function CaughtReason(fetched: FetchOutcome): (reason: string)
    ensures fetched.Fetched? <==> reason == ""
  {
    match fetched
    case Fetched(_) => ""
    case Threw(message) =>
      if Contains(message, "credentials") then "Missing Spotify credentials" else "Spotify API unavailable"
  }

  /** `Number(item[key])` per feature, with `Number(item.popularity) || 0` for popularity. */
  function FallbackFeatures(row: RawRow): (fs: seq<Num>)
    ensures |fs| == FeatureCount
    ensures fs[PopularityIndex].Finite?
  {
    seq(FeatureCount, k requires 0 <= k < FeatureCount =>
      if k == PopularityIndex then Finite(OrZero(FeatureOf(row.features, k))) else FeatureOf(row.features, k))
  }

  /** Lines 378-393: one seeded catalog row as a playlist track. */
  function FallbackTrack(row: RawRow): PlaylistTrack
  {
    PlaylistTrack(row.trackId, row.trackName, row.artistName, Arr(AsGenreArray(row.genre)), FallbackFeatures(row))
  }

  /** The number of fallback tracks. */
  const FallbackCount: nat := 10

  /** The fallback playlist: the first ten of the seeded shuffle of the raw rows. */
  function FallbackPlaylist(raw: seq<RawRow>, playlistId: string): (tracks: seq<PlaylistTrack>)
    ensures |tracks| == Min(FallbackCount, |raw|)
  {
    var seeded := Shuffled(raw, playlistId)[..Min(FallbackCount, |raw|)];
    seq(|seeded|, k requires 0 <= k < |seeded| => FallbackTrack(seeded[k]))
  }

  /** Which playlist the handler works on, and which `meta` it reports. */
  function ChoosePlaylist(raw: seq<RawRow>, playlistId: string, fetched: FetchOutcome): (r: (seq<PlaylistTrack>, Meta))
    ensures fetched.Fetched? && |fetched.tracks| > 0 ==> r == (fetched.tracks, Live)
    ensures fetched.Threw? ==> r == (FallbackPlaylist(raw, playlistId), Fallback(CaughtReason(fetched)))
    ensures fetched.Fetched? && |fetched.tracks| == 0 ==>
              r == (FallbackPlaylist(raw, playlistId), Fallback("Unable to read playlist tracks"))
    ensures r.1.Fallback? ==> r.1.reason != ""
  {
    var reason := CaughtReason(fetched);
    if fetched.Fetched? && |fetched.tracks| > 0 then (fetched.tracks, Live)
    else (FallbackPlaylist(raw, playlistId), Fallback(if reason == "" then "Unable to read playlist tracks" else reason))
  }

  /** The playlist is empty only when the catalog is too: the inference branch needs both. */
  lemma EmptyPlaylistMeansEmptyCatalog(raw: seq<RawRow>, playlistId: string, fetched: FetchOutcome)
    ensures |ChoosePlaylist(raw, playlistId, fetched).0| == 0 ==> |raw| == 0
  {
  }

  // ---------------------------------------------------------------------------------
  // The response

  /** One element of `recommendations`, without its `cover` field (lines 530-533), which is not modelled. */
  datatype Recommendation = Recommendation(
    name: string,
    artist: string,
    genre: GenreValue,
    similarity: real,
    trackId: string,
    url: string)

  function RecSimilarity(r: Recommendation): real { r.similarity }

  /** `Number(x.toFixed(3))` for a non-negative `x`: rounded to three decimals, halves up. */
  function Round3(x: real): (r: real)
    ensures 0.6 <= x <= 0.99 ==> 0.6 <= r <= 0.99
  {
    var n := (x * 1000.0 + 0.5).Floor;
    assert 0.6 <= x <= 0.99 ==> 600 <= n <= 990;
    n as real / 1000.0
  }

  lemma Round3Examples()
    ensures Round3(0.6) == 0.6
    ensures Round3(0.8125) == 0.813
    ensures Round3(0.81249) == 0.812
  {
    assert (0.6 * 1000.0 + 0.5).Floor == 600;
    assert (0.8125 * 1000.0 + 0.5).Floor == 813;
    assert (0.81249 * 1000.0 + 0.5).Floor == 812;
  }

  /** Lines 530-545, without the metadata and cover lookups. */
  function ToRecommendation(r: Ranked): (rec: Recommendation)
    ensures rec.trackId == r.scored.item.trackId
    ensures rec.url == TrackUrlPrefix + rec.trackId
    ensures 0.6 <= r.displaySimilarity <= 0.99 ==> 0.6 <= rec.similarity <= 0.99
  {
    var item := r.scored.item;
    Recommendation(item.trackName, item.artistName, item.genre, Round3(r.displaySimilarity), item.trackId, TrackUrlPrefix + item.trackId)
  }

  /** The HTTP outcome; the error bodies are fixed strings in the source. */
  datatype Response =
    | MethodNotAllowed
    | BadRequest
    | ServerError
    | Ok(recommendations: seq<Recommendation>, meta: Meta)

  function StatusCode(r: Response): int
  {
    match r
    case MethodNotAllowed => 405
    case BadRequest => 400
    case ServerError => 500
    case Ok(_, _) => 200
  }

  /**
   * The parsed body: `data` (`''` when absent) and `sort_method` (`'heap'` when absent).
   * A missing `event.body` parses as `'{}'` and is `Body("", "")`, which gives 400. `Handle`'s
   * `None` is a body that `JSON.parse` rejects or that parses to a non-object such as `null`:
   * both throw inside the `try` and reach the outer `catch`, which gives 500 (lines 346-356).
   */
  datatype Body = Body(data: string, sortMethod: string)

  // ---------------------------------------------------------------------------------
  // The pipeline

  /** The ids of the playlist tracks. */
  function TrackIds(tracks: seq<PlaylistTrack>): set<string>
  {
    set t | t in tracks :: t.trackId
  }

  /** The lower-cased artist names of the playlist tracks. */
  function ArtistNames(tracks: seq<PlaylistTrack>): set<string>
  {
    set t | t in tracks :: Lower(t.artistName)
  }

  /** Every re-ranked entry comes from the scored list. */
  lemma RerankFromScored(scored: seq<Scored>)
    ensures forall k :: 0 <= k < |RerankSpec(scored)| ==> RerankSpec(scored)[k].scored in scored
  {
    var p := Penalised(Pool(scored), {});
    var sorted := SortDesc(p, FinalScoreOf);
    SortDescSameElements(p, FinalScoreOf);
    forall k | 0 <= k < |RerankSpec(scored)|
      ensures RerankSpec(scored)[k].scored in scored
    {
      assert RerankSpec(scored)[k].scored == sorted[k].scored;
      assert sorted[k] in p;
      var j :| 0 <= j < |p| && p[j] == sorted[k];
      assert p[j].scored == Pool(scored)[j] == scored[j];
    }
  }

  /** Every scored entry is an unheard candidate. */
  lemma RankedFromUnheard(unheard: seq<CatalogItem>, profile: Profile, cosine: Cosine, draws: seq<real>)
    requires |draws| == |unheard|
    requires forall k :: 0 <= k < |draws| ==> 0.0 <= draws[k] <= 1.0
    ensures forall s :: s in RankBySimilarity(ScoreAll(unheard, profile, cosine, draws)) ==> s.item in unheard
  {
    var all := ScoreAll(unheard, profile, cosine, draws);
    SortDescSameElements(all, SimilarityOf);
    forall s | s in all
      ensures s.item in unheard
    {
      var k :| 0 <= k < |all| && all[k] == s;
    }
  }

  /** The ids of the catalog items. */
  function CatalogIds(catalog: seq<CatalogItem>): set<string>
  {
    set item | item in catalog :: item.trackId
  }

  /** The playlist's feature vectors, one per track, against the catalog bounds. */
  function PlaylistVectors(playlist: seq<PlaylistTrack>, bounds: seq<Bounds>): (vs: seq<seq<real>>)
    requires |bounds| == FeatureCount
    ensures |vs| == |playlist| && AllOfLength(vs, FeatureCount)
  {
    seq(|playlist|, i requires 0 <= i < |playlist| => TrackVector(playlist[i], bounds))
  }

  /** Lines 402-435: the primary genres, from the playlist's counts or inferred from the catalog. */
  function PrimaryFor(ds: Dataset, playlist: seq<PlaylistTrack>, cosine: Cosine): seq<GenreWeight>
    requires |ds.bounds| == FeatureCount
  {
    var mean := MeanVector(PlaylistVectors(playlist, ds.bounds));
    PrimaryGenres(PreferredGenres(Weigh(GenreCounts(playlist), |playlist|, ds.normalized, mean, cosine)))
  }

  /** Lines 437-452: the candidates whose ids are not in the playlist. */
  function UnheardFor(ds: Dataset, playlist: seq<PlaylistTrack>, cosine: Cosine): seq<CatalogItem>
    requires |ds.bounds| == FeatureCount
  {
    Unheard(Candidates(ds.normalized, PrimaryFor(ds, playlist, cosine)), TrackIds(playlist))
  }

  /** What every candidate is scored against. */
  function ProfileFor(ds: Dataset, playlist: seq<PlaylistTrack>, cosine: Cosine): Profile
    requires |ds.bounds| == FeatureCount
  {
    var vectors := PlaylistVectors(playlist, ds.bounds);
    Profile(vectors, MeanVector(vectors), PrimaryFor(ds, playlist, cosine), AvgPopularity(playlist), ArtistNames(playlist))
  }

  /** The unheard candidates scored with the playlist's draws, ranked by similarity. */
  function RankedFor(ds: Dataset, playlist: seq<PlaylistTrack>, playlistId: string, cosine: Cosine): (r: seq<Scored>)
    requires |ds.bounds| == FeatureCount
    ensures |r| == |UnheardFor(ds, playlist, cosine)|
    ensures SortedDesc(r, SimilarityOf)
  {
    var unheard := UnheardFor(ds, playlist, cosine);
    RankBySimilarity(ScoreAll(unheard, ProfileFor(ds, playlist, cosine), cosine, Stream(InitialState(playlistId), |unheard|)))
  }

  /** Lines 395-521 as a function: the calibrated re-rank of the ranked candidates. */
  function ScoreSpec(ds: Dataset, playlist: seq<PlaylistTrack>, playlistId: string, cosine: Cosine): seq<Ranked>
    requires |ds.bounds| == FeatureCount
  {
    RerankSpec(RankedFor(ds, playlist, playlistId, cosine))
  }

  /**
   * The result is the first `min(5, min(25, n))` of the ranked unheard candidates, in
   * their ranked order.
   */
  lemma ScoreSpecTakesRankedHead(ds: Dataset, playlist: seq<PlaylistTrack>, playlistId: string, cosine: Cosine)
    requires |ds.bounds| == FeatureCount
    ensures |ScoreSpec(ds, playlist, playlistId, cosine)|
              == Min(ResultSize, Min(PoolSize, |UnheardFor(ds, playlist, cosine)|))
    ensures forall k :: 0 <= k < |ScoreSpec(ds, playlist, playlistId, cosine)| ==>
              ScoreSpec(ds, playlist, playlistId, cosine)[k].scored == RankedFor(ds, playlist, playlistId, cosine)[k]
  {
    RerankKeepsOrder(RankedFor(ds, playlist, playlistId, cosine));
  }

  /** Lines 395-521: from the chosen playlist to the calibrated top five. */
  method ScorePlaylist(ds: Dataset, playlist: seq<PlaylistTrack>, playlistId: string, cosine: Cosine)
    returns (reranked: seq<Ranked>)
    requires |ds.bounds| == FeatureCount
    ensures reranked == ScoreSpec(ds, playlist, playlistId, cosine)
    ensures |reranked| == Min(ResultSize, Min(PoolSize, |UnheardFor(ds, playlist, cosine)|))
    ensures forall k :: 0 <= k < |reranked| ==> 0.6 <= reranked[k].displaySimilarity <= 0.99
    ensures forall k :: 0 <= k < |reranked| ==> reranked[k].scored.item.trackId !in TrackIds(playlist)
    ensures forall k :: 0 <= k < |reranked| ==> reranked[k].scored.item.trackId in CatalogIds(ds.normalized)
  {
    var vectors, mean := BuildPlaylistVectors(playlist, ds.bounds);
    var playlistIds := TrackIds(playlist);
    var artists := ArtistNames(playlist);
    var avgPopularity := AvgPopularity(playlist);
    var counts := CountGenres(playlist);
    var weighting := Weigh(counts, |playlist|, ds.normalized, mean, cosine);
    var primary := PrimaryGenres(PreferredGenres(weighting));
    var candidates := Candidates(ds.normalized, primary);
    var unheard := Unheard(candidates, playlistIds);
    var draws := Take(playlistId, |unheard|);
    var profile := Profile(vectors, mean, primary, avgPopularity, artists);
    var scored := RankBySimilarity(ScoreAll(unheard, profile, cosine, draws));
    reranked := Rerank.Rerank(scored);

    assert vectors == PlaylistVectors(playlist, ds.bounds);
    assert primary == PrimaryFor(ds, playlist, cosine);
    assert unheard == UnheardFor(ds, playlist, cosine);
    assert profile == ProfileFor(ds, playlist, cosine);
    assert scored == RankedFor(ds, playlist, playlistId, cosine);
    ScoreSpecUnheard(ds, playlist, playlistId, cosine);
  }

  /** Every recommended candidate is in the catalog and not in the playlist. */
  lemma ScoreSpecUnheard(ds: Dataset, playlist: seq<PlaylistTrack>, playlistId: string, cosine: Cosine)
    requires |ds.bounds| == FeatureCount
    ensures forall k :: 0 <= k < |ScoreSpec(ds, playlist, playlistId, cosine)| ==>
              && ScoreSpec(ds, playlist, playlistId, cosine)[k].scored.item.trackId !in TrackIds(playlist)
              && ScoreSpec(ds, playlist, playlistId, cosine)[k].scored.item.trackId in CatalogIds(ds.normalized)
  {
    var unheard := UnheardFor(ds, playlist, cosine);
    var profile := ProfileFor(ds, playlist, cosine);
    var draws := Stream(InitialState(playlistId), |unheard|);
    var scored := RankedFor(ds, playlist, playlistId, cosine);
    var reranked := ScoreSpec(ds, playlist, playlistId, cosine);
    RerankFromScored(scored);
    RankedFromUnheard(unheard, profile, cosine, draws);
    CandidatesFromCatalog(ds.normalized, PrimaryFor(ds, playlist, cosine));
    forall k | 0 <= k < |reranked|
      ensures reranked[k].scored.item.trackId !in TrackIds(playlist)
      ensures reranked[k].scored.item.trackId in CatalogIds(ds.normalized)
    {
      var item := reranked[k].scored.item;
      assert reranked[k].scored in scored;
      assert item in unheard;
      assert item in ds.normalized;
    }
  }

  /** The response entries in re-rank order, before any sort. */
  function Entries(reranked: seq<Ranked>): (recs: seq<Recommendation>)
    ensures |recs| == |reranked|
    ensures forall k :: 0 <= k < |recs| ==> recs[k] == ToRecommendation(reranked[k])
  {
    seq(|reranked|, k requires 0 <= k < |reranked| => ToRecommendation(reranked[k]))
  }

  /** The sorted entries are a permutation of the entries, each one of a re-ranked candidate. */
  lemma SortedEntries(reranked: seq<Ranked>)
    ensures multiset(SortDesc(Entries(reranked), RecSimilarity)) == multiset(Entries(reranked))
    ensures forall r :: r in SortDesc(Entries(reranked), RecSimilarity) ==>
              exists k :: 0 <= k < |reranked| && r == ToRecommendation(reranked[k])
  {
    var before := Entries(reranked);
    SortDescPermutes(before, RecSimilarity);
    SortDescSameElements(before, RecSimilarity);
    forall r | r in SortDesc(before, RecSimilarity)
      ensures exists k :: 0 <= k < |reranked| && r == ToRecommendation(reranked[k])
    {
      var j :| 0 <= j < |before| && before[j] == r;
    }
  }

  /** Lines 530-549: the response entries, merge-sorted by similarity when asked for. */
  method ToRecommendations(reranked: seq<Ranked>, sortMethod: string) returns (recs: seq<Recommendation>)
    ensures |recs| == |reranked|
    ensures forall r :: r in recs ==> exists k :: 0 <= k < |reranked| && r == ToRecommendation(reranked[k])
    ensures sortMethod == "merge" ==> SortedDesc(recs, RecSimilarity)
    ensures sortMethod == "merge" ==> multiset(recs) == multiset(Entries(reranked))
    ensures sortMethod == "merge" ==> recs == SortDesc(Entries(reranked), RecSimilarity)
    ensures sortMethod != "merge" ==> recs == Entries(reranked)
  {
    recs := Entries(reranked);
    if sortMethod == "merge" {
      SortedEntries(reranked);
      recs := SortDesc(recs, RecSimilarity);
    }
  }

  /** Lines 350-549 once the link has matched and the catalog has loaded. */
  method Recommend(ds: Dataset, playlistId: string, fetched: FetchOutcome, sortMethod: string, cosine: Cosine)
    returns (recs: seq<Recommendation>, meta: Meta, playlist: seq<PlaylistTrack>)
    requires |ds.bounds| == FeatureCount
    ensures (playlist, meta) == ChoosePlaylist(ds.raw, playlistId, fetched)
    ensures |recs| <= ResultSize
    ensures forall r :: r in recs ==> 0.6 <= r.similarity <= 0.99
    ensures forall r :: r in recs ==> r.trackId !in TrackIds(playlist)
    ensures forall r :: r in recs ==> r.trackId in CatalogIds(ds.normalized)
    ensures forall r :: r in recs ==> r.url == TrackUrlPrefix + r.trackId
    ensures sortMethod == "merge" ==> SortedDesc(recs, RecSimilarity)
    ensures |recs| == Min(ResultSize, Min(PoolSize, |UnheardFor(ds, playlist, cosine)|))
    ensures sortMethod != "merge" ==> recs == Entries(ScoreSpec(ds, playlist, playlistId, cosine))
    ensures sortMethod == "merge" ==> multiset(recs) == multiset(Entries(ScoreSpec(ds, playlist, playlistId, cosine)))
    ensures sortMethod == "merge" ==> recs == SortDesc(Entries(ScoreSpec(ds, playlist, playlistId, cosine)), RecSimilarity)
  {
    meta := ChoosePlaylist(ds.raw, playlistId, fetched).1;
    if fetched.Fetched? && |fetched.tracks| > 0 {
      playlist := fetched.tracks;
    } else {
      var seeded := BuildSeededSubset(ds.raw, playlistId, FallbackCount);
      playlist := seq(|seeded|, k requires 0 <= k < |seeded| => FallbackTrack(seeded[k]));
    }
    var reranked := ScorePlaylist(ds, playlist, playlistId, cosine);
    recs := ToRecommendations(reranked, sortMethod);
  }

  /**
   * The whole handler. `body` is `None` when reading the body throws (see `Body`);
   * `rows` is `None` when the catalog file cannot be found;
   * `metadataThrows` says whether the awaited `getTrackMetadata` call (line 524) rejects
   * or throws, which the outer `catch` turns into a 500 (it is never called without a token).
   */
  method Handle(httpMethod: string, body: Option<Body>, rows: Option<seq<RawRow>>, fetched: FetchOutcome,
                metadataThrows: bool, cosine: Cosine)
    returns (response: Response)
    ensures httpMethod != "POST" ==> response == MethodNotAllowed
    ensures httpMethod == "POST" && body.None? ==> response == ServerError
    ensures httpMethod == "POST" && body.Some? && MatchPlaylistLink(body.value.data).None? ==> response == BadRequest
    ensures httpMethod == "POST" && body.Some? && MatchPlaylistLink(body.value.data).Some? && rows.None? ==> response == ServerError
    ensures httpMethod == "POST" && body.Some? && MatchPlaylistLink(body.value.data).Some? && rows.Some? && metadataThrows ==>
              response == ServerError
    ensures response.Ok? ==>
              && httpMethod == "POST" && body.Some? && MatchPlaylistLink(body.value.data).Some? && rows.Some?
              && !metadataThrows
              && |response.recommendations| <= ResultSize
              && (forall k :: 0 <= k < |response.recommendations| ==> 0.6 <= response.recommendations[k].similarity <= 0.99)
    ensures httpMethod == "POST" && body.Some? && MatchPlaylistLink(body.value.data).Some? && rows.Some? && !metadataThrows ==>
              && response.Ok?
              && response.meta == ChoosePlaylist(rows.value, MatchPlaylistLink(body.value.data).value, fetched).1
              && (body.value.sortMethod == "merge" ==> SortedDesc(response.recommendations, RecSimilarity))
    ensures httpMethod == "POST" && body.Some? && MatchPlaylistLink(body.value.data).Some? && rows.Some? && !metadataThrows ==>
              var playlistId := MatchPlaylistLink(body.value.data).value;
              var ds := DatasetOf(rows.value);
              var playlist := ChoosePlaylist(rows.value, playlistId, fetched).0;
              var entries := Entries(ScoreSpec(ds, playlist, playlistId, cosine));
              && response.Ok?
              && |response.recommendations| == Min(ResultSize, Min(PoolSize, |UnheardFor(ds, playlist, cosine)|))
              && (body.value.sortMethod != "merge" ==> response.recommendations == entries)
              && (body.value.sortMethod == "merge" ==> multiset(response.recommendations) == multiset(entries))
              && (body.value.sortMethod == "merge" ==> response.recommendations == SortDesc(entries, RecSimilarity))
  {
    if httpMethod != "POST" {
      return MethodNotAllowed;
    }
    if body.None? {
      return ServerError;
    }
    var link := body.value.data;
    var sortMethod := if body.value.sortMethod == "" then "heap" else body.value.sortMethod;
    var match_ := MatchPlaylistLink(link);
    if match_.None? {
      return BadRequest;
    }
    var playlistId := match_.value;
    if rows.None? {
      return ServerError;
    }
    var ds := LoadDataset(rows.value);
    var recs, meta, _ := Recommend(ds, playlistId, fetched, sortMethod, cosine);
    if metadataThrows {
      return ServerError;
    }
    response := Ok(recs, meta);
  }
}
