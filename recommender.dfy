/**
 * The `recommender` class of recommend.py: the playlist id taken from a link, the
 * playlist's track ids fetched for audio features in chunks of at most 100, the loop that
 * pairs each track with its features (skipping tracks without a genre or without
 * features), and the top five rows after the heap or merge sort.
 *
 * The Spotify calls are parameters: `audioFeatures` stands for `sp.audio_features`, and
 * `similarityRows` for `dataset.generate_similarity_matrix` over the catalog file.
 */
module Recommender {
  import opened Wrappers
  import opened Text
  import opened MergeSort

  // ---------------------------------------------------------------------------------
  // The playlist id

  const PlaylistSegment: string := "/playlist/"

  /** `playlist_link.split("/playlist/")[-1]`: the text after the last `/playlist/`. */
  function LastSegment(link: string): string
  {
    var parts := Split(link, PlaylistSegment);
    parts[|parts| - 1]
  }

  /** `playlist_link.split("/playlist/")[-1].split('?')[0]`. */
  function PlaylistIdFromLink(link: string): string
  {
    Split(LastSegment(link), "?")[0]
  }

  predicate EndsWith(s: string, t: string)
  {
    |t| <= |s| && s[|s| - |t|..] == t
  }

  /** A joined list ends with its last part. */
  lemma {:induction false} JoinEndsWithLast(parts: seq<string>, sep: string)
    requires |parts| >= 1
    ensures EndsWith(Join(parts, sep), parts[|parts| - 1])
    decreases |parts|
  {
    if |parts| > 1 {
      JoinEndsWithLast(parts[1..], sep);
      assert parts[1..][|parts[1..]| - 1] == parts[|parts| - 1];
    }
  }

  /** A joined list starts with its first part. */
  lemma JoinStartsWithFirst(parts: seq<string>, sep: string)
    requires |parts| >= 1
    ensures IsPrefix(parts[0], Join(parts, sep))
  {
    if |parts| > 1 {
      assert Join(parts, sep) == parts[0] + (sep + Join(parts[1..], sep));
    }
  }

  /** A join of several parts is the join of all but the last, the separator, and the last. */
  lemma {:induction false} JoinSnoc(parts: seq<string>, sep: string)
    requires |parts| > 1
    ensures Join(parts, sep) == Join(parts[..|parts| - 1], sep) + sep + parts[|parts| - 1]
    decreases |parts|
  {
    var front := parts[..|parts| - 1];
    if |parts| == 2 {
      assert front == [parts[0]];
    } else {
      JoinSnoc(parts[1..], sep);
      assert parts[1..][..|parts[1..]| - 1] == front[1..];
      assert front[0] == parts[0];
    }
  }

  /** A join of several parts has the separator right after its first part. */
  lemma JoinSeparatorAfterFirst(parts: seq<string>, sep: string)
    requires |parts| > 1
    ensures OccursAt(Join(parts, sep), sep, |parts[0]|)
  {
    var j := Join(parts, sep);
    assert j == parts[0] + sep + Join(parts[1..], sep);
    assert j[|parts[0]|..|parts[0]| + |sep|] == sep;
  }

  /**
   * The id is the text after the last `/playlist/` cut at its first `?`: that text ends
   * the link, holds no `/playlist/`, and is the whole link or follows a `/playlist/`; the
   * id starts it, holds no `?`, and is all of it or is followed by a `?`.
   */
  lemma PlaylistIdShape(link: string)
    ensures EndsWith(link, LastSegment(link))
    ensures !Contains(LastSegment(link), PlaylistSegment)
    ensures LastSegment(link) == link
              || EndsWith(link[..|link| - |LastSegment(link)|], PlaylistSegment)
    ensures IsPrefix(PlaylistIdFromLink(link), LastSegment(link))
    ensures !Contains(PlaylistIdFromLink(link), "?")
    ensures |PlaylistIdFromLink(link)| == |LastSegment(link)|
              || LastSegment(link)[|PlaylistIdFromLink(link)|] == '?'
  {
    var parts := Split(link, PlaylistSegment);
    var tail := LastSegment(link);
    SplitJoin(link, PlaylistSegment);
    JoinEndsWithLast(parts, PlaylistSegment);
    SplitPartsFree(link, PlaylistSegment);
    if |parts| > 1 {
      JoinSnoc(parts, PlaylistSegment);
      var head := Join(parts[..|parts| - 1], PlaylistSegment);
      assert link == (head + PlaylistSegment) + tail;
      assert link[..|link| - |tail|] == head + PlaylistSegment;
    }
    var qs := Split(tail, "?");
    SplitJoin(tail, "?");
    JoinStartsWithFirst(qs, "?");
    SplitPartsFree(tail, "?");
    if |qs| > 1 {
      JoinSeparatorAfterFirst(qs, "?");
      assert tail[|qs[0]|..|qs[0]| + 1] == "?";
    }
  }

  /** A link without `/playlist/` is cut at its first `?`, and kept whole without one. */
  lemma PlaylistIdWithoutSegment(link: string)
    requires !Contains(link, PlaylistSegment)
    ensures PlaylistIdFromLink(link) == Split(link, "?")[0]
    ensures !Contains(link, "?") ==> PlaylistIdFromLink(link) == link
  {
    if Find(link, PlaylistSegment).Some? {
      ContainsAt(link, PlaylistSegment, Find(link, PlaylistSegment).value);
    }
    assert LastSegment(link) == link;
    if Find(link, "?").Some? {
      ContainsAt(link, "?", Find(link, "?").value);
    }
  }

  // ---------------------------------------------------------------------------------
  // Chunks of at most 100 ids

  const ChunkSize: nat := 100

  /** `[track_ids[i:i + 100] for i in range(0, len(track_ids), 100)]`. */
  function Chunks(ids: seq<string>): (cs: seq<seq<string>>)
    ensures |cs| == 0 <==> |ids| == 0
    ensures forall k :: 0 <= k < |cs| ==> 1 <= |cs[k]| <= ChunkSize
    ensures forall k :: 0 <= k < |cs| - 1 ==> |cs[k]| == ChunkSize
    decreases |ids|
  {
    if |ids| == 0 then []
    else
      var n := Min(ChunkSize, |ids|);
      var rest := Chunks(ids[n..]);
      assert n < ChunkSize ==> |rest| == 0;
      [ids[..n]] + rest
  }

  function Flatten<T>(css: seq<seq<T>>): seq<T>
    decreases |css|
  {
    if |css| == 0 then [] else css[0] + Flatten(css[1..])
  }

  /** The chunks put back together are the ids, in order. */
  lemma {:induction false} ChunksFlatten(ids: seq<string>)
    ensures Flatten(Chunks(ids)) == ids
    decreases |ids|
  {
    if |ids| > 0 {
      var n := Min(ChunkSize, |ids|);
      ChunksFlatten(ids[n..]);
      assert Chunks(ids)[1..] == Chunks(ids[n..]);
      assert ids == ids[..n] + ids[n..];
    }
  }

  // ---------------------------------------------------------------------------------
  // The playlist and its audio features

  /** A playlist entry with the fields the loop reads, the artist's genres included. */
  datatype PlaylistItem = PlaylistItem(
    trackId: string,
    trackName: string,
    popularity: real,
    artistName: string,
    artistGenres: seq<string>)

  /** One entry of `sp.audio_features`: the feature values, none for an empty record. */
  datatype AudioFeatures = AudioFeatures(values: seq<real>)

  /** One `track_data` record. */
  datatype TrackData = TrackData(
    artistName: string,
    trackId: string,
    popularity: real,
    trackName: string,
    genre: string,
    features: seq<real>)

  /** `sp.playlist` either fails or gives the playlist's items. */
  datatype Target = Failure | Found(items: seq<PlaylistItem>)

  function TrackIdsOf(items: seq<PlaylistItem>): (ids: seq<string>)
    ensures |ids| == |items|
    ensures forall k :: 0 <= k < |items| ==> ids[k] == items[k].trackId
  {
    seq(|items|, k requires 0 <= k < |items| => items[k].trackId)
  }

  /** `sp.audio_features` answers one entry per id it is given. */
  ghost predicate OneEntryPerId(audioFeatures: seq<string> -> seq<AudioFeatures>)
  {
    forall c :: |audioFeatures(c)| == |c|
  }

  /** The entries of the chunk requests, concatenated in chunk order. */
  function FetchAll(chunks: seq<seq<string>>, audioFeatures: seq<string> -> seq<AudioFeatures>): seq<AudioFeatures>
    decreases |chunks|
  {
    if |chunks| == 0 then [] else audioFeatures(chunks[0]) + FetchAll(chunks[1..], audioFeatures)
  }

  /** With one entry per id, the concatenated entries line up with the ids. */
  lemma {:induction false} FetchAllLength(chunks: seq<seq<string>>, audioFeatures: seq<string> -> seq<AudioFeatures>)
    requires OneEntryPerId(audioFeatures)
    ensures |FetchAll(chunks, audioFeatures)| == |Flatten(chunks)|
    decreases |chunks|
  {
    if |chunks| > 0 {
      FetchAllLength(chunks[1..], audioFeatures);
      assert |audioFeatures(chunks[0])| == |chunks[0]|;
    }
  }

  function MakeTrack(item: PlaylistItem, features: AudioFeatures): TrackData
    requires |item.artistGenres| > 0
  {
    TrackData(item.artistName, item.trackId, item.popularity, item.trackName, item.artistGenres[0], features.values)
  }

  /** The number of items among the first `n` whose artist has no genre. */
  function Genreless(items: seq<PlaylistItem>, n: nat): (c: nat)
    requires n <= |items|
    ensures c <= n
  {
    if n == 0 then 0
    else Genreless(items, n - 1) + (if |items[n - 1].artistGenres| == 0 then 1 else 0)
  }

  /**
   * What lines 68-110 keep from item `i` on, with `counter` the feature index reached:
   * a genre-less item is skipped without moving `counter`; an item whose features are
   * empty is skipped and moves it.
   */
  function KeptAsWritten(items: seq<PlaylistItem>, features: seq<AudioFeatures>, i: nat, counter: nat): seq<TrackData>
    requires |features| == |items| && counter <= i <= |items|
    decreases |items| - i
  {
    if i == |items| then []
    else if |items[i].artistGenres| == 0 then KeptAsWritten(items, features, i + 1, counter)
    else if |features[counter].values| == 0 then KeptAsWritten(items, features, i + 1, counter + 1)
    else [MakeTrack(items[i], features[counter])] + KeptAsWritten(items, features, i + 1, counter + 1)
  }

  /** Lines 68-110 as written. */
  method AlignTracks(items: seq<PlaylistItem>, features: seq<AudioFeatures>) returns (tracksData: seq<TrackData>, counter: nat)
    requires |features| == |items|
    ensures tracksData == KeptAsWritten(items, features, 0, 0)
    ensures counter == |items| - Genreless(items, |items|)
  {
    tracksData := [];
    counter := 0;
    for i := 0 to |items|
      invariant counter == i - Genreless(items, i)
      invariant KeptAsWritten(items, features, 0, 0) == tracksData + KeptAsWritten(items, features, i, counter)
    {
      var item := items[i];
      if |item.artistGenres| == 0 {
        continue;
      }
      var genre := item.artistGenres[0];
      if |features[counter].values| == 0 {
        counter := counter + 1;
        continue;
      }
      var audio := features[counter];
      counter := counter + 1;
      tracksData := tracksData + [TrackData(item.artistName, item.trackId, item.popularity, item.trackName, genre, audio.values)];
    }
  }

  /** A genre-less track shifts the features: the next track is paired with its entry. */
  lemma MisalignedFeatures()
    ensures var a := PlaylistItem("a", "A", 0.0, "X", []);
            var b := PlaylistItem("b", "B", 0.0, "Y", ["pop"]);
            KeptAsWritten([a, b], [AudioFeatures([0.1]), AudioFeatures([0.9])], 0, 0)
              == [TrackData("Y", "b", 0.0, "B", "pop", [0.1])]
  {
    var a := PlaylistItem("a", "A", 0.0, "X", []);
    var b := PlaylistItem("b", "B", 0.0, "Y", ["pop"]);
    var fs := [AudioFeatures([0.1]), AudioFeatures([0.9])];
    assert KeptAsWritten([a, b], fs, 2, 1) == [];
    assert KeptAsWritten([a, b], fs, 1, 0) == [MakeTrack(b, fs[0])];
  }

  /** Each kept item with the features fetched for its own id, as the loop evidently intends. */
  function AlignedFrom(items: seq<PlaylistItem>, features: seq<AudioFeatures>, i: nat): seq<TrackData>
    requires |features| == |items| && i <= |items|
    decreases |items| - i
  {
    if i == |items| then []
    else if |items[i].artistGenres| == 0 || |features[i].values| == 0 then AlignedFrom(items, features, i + 1)
    else [MakeTrack(items[i], features[i])] + AlignedFrom(items, features, i + 1)
  }

  function Aligned(items: seq<PlaylistItem>, features: seq<AudioFeatures>): seq<TrackData>
    requires |features| == |items|
  {
    AlignedFrom(items, features, 0)
  }

  /** An item is kept when its artist has a genre and it has features. */
  predicate Keeps(item: PlaylistItem, features: AudioFeatures)
  {
    |item.artistGenres| > 0 && |features.values| > 0
  }

  /** The corrected loop keeps exactly the items with a genre and features, each with its own features. */
  lemma {:induction false} AlignedIff(items: seq<PlaylistItem>, features: seq<AudioFeatures>, i: nat)
    requires |features| == |items| && i <= |items|
    ensures forall t :: t in AlignedFrom(items, features, i) <==>
              exists k :: i <= k < |items| && Keeps(items[k], features[k]) && t == MakeTrack(items[k], features[k])
    decreases |items| - i
  {
    if i < |items| {
      AlignedIff(items, features, i + 1);
    }
  }

  /** When every artist has a genre, the loop as written pairs every track with its own features. */
  lemma {:induction false} AsWrittenAlignedWithGenres(items: seq<PlaylistItem>, features: seq<AudioFeatures>, i: nat)
    requires |features| == |items| && i <= |items|
    requires forall k :: 0 <= k < |items| ==> |items[k].artistGenres| > 0
    ensures KeptAsWritten(items, features, i, i) == AlignedFrom(items, features, i)
    decreases |items| - i
  {
    if i < |items| {
      AsWrittenAlignedWithGenres(items, features, i + 1);
    }
  }

  // ---------------------------------------------------------------------------------
  // The top five

  const TopCount: nat := 5

  /** The rows as the chosen sort leaves them. */
  function SortedRows(sort: string, rows: seq<Row>): (r: seq<Row>)
    ensures |r| == |rows|
    ensures multiset(r) == multiset(rows)
  {
    if sort == "heap" then HeapSort(rows)
    else
      MergeSortPermutes(rows);
      MergeSortSpec(rows)
  }

  /** Whichever sort is chosen, similarities come out non-increasing. */
  lemma SortedRowsSorted(sort: string, rows: seq<Row>)
    ensures Sorted(SortedRows(sort, rows))
  {
    if sort == "heap" {
      KeySortedIsSorted(HeapSort(rows));
    } else {
      MergeSortSorted(rows);
    }
  }

  /** `get_recommendations`, up to the rows of the five most similar tracks. */
  method GetRecommendations(
    target: Target,
    sort: string,
    audioFeatures: seq<string> -> seq<AudioFeatures>,
    similarityRows: seq<TrackData> -> seq<Row>)
    returns (top: seq<Row>)
    requires OneEntryPerId(audioFeatures)
    ensures target.Failure? ==> top == []
    ensures |top| <= TopCount
    ensures Sorted(top)
    ensures target.Found? ==>
              var items := target.items;
              var all := FetchAll(Chunks(TrackIdsOf(items)), audioFeatures);
              && |all| == |items|
              && var rows := SortedRows(sort, similarityRows(KeptAsWritten(items, all, 0, 0)));
                 top == rows[..Min(TopCount, |rows|)]
    ensures target.Found? && (forall k :: 0 <= k < |target.items| ==> |target.items[k].artistGenres| > 0) ==>
              var items := target.items;
              var all := FetchAll(Chunks(TrackIdsOf(items)), audioFeatures);
              && |all| == |items|
              && var rows := SortedRows(sort, similarityRows(Aligned(items, all)));
                 top == rows[..Min(TopCount, |rows|)]
  {
    if target.Failure? {
      return [];
    }
    var items := target.items;
    var trackIds := TrackIdsOf(items);
    var chunks := Chunks(trackIds);
    var allAudioFeatures := FetchChunks(chunks, audioFeatures);
    ChunksFlatten(trackIds);
    FetchAllLength(chunks, audioFeatures);
    var tracksData, _ := AlignTracks(items, allAudioFeatures);
    if forall k :: 0 <= k < |items| ==> |items[k].artistGenres| > 0 {
      AsWrittenAlignedWithGenres(items, allAudioFeatures, 0);
    }
    var rows := similarityRows(tracksData);
    var sorted := SortBy(sort, rows);
    SortedRowsSorted(sort, rows);
    top := sorted[..Min(TopCount, |sorted|)];
  }

  /** The loop that asks for the audio features of one chunk of ids after another. */
  method FetchChunks(chunks: seq<seq<string>>, audioFeatures: seq<string> -> seq<AudioFeatures>)
    returns (all: seq<AudioFeatures>)
    ensures all == FetchAll(chunks, audioFeatures)
  {
    all := [];
    for c := 0 to |chunks|
      invariant all + FetchAll(chunks[c..], audioFeatures) == FetchAll(chunks, audioFeatures)
    {
      assert chunks[c..][1..] == chunks[c + 1..];
      all := all + audioFeatures(chunks[c]);
    }
  }

  /** `heapSort` when `sort` is "heap", `mergeSort` over an array otherwise. */
  method SortBy(sort: string, rows: seq<Row>) returns (sorted: seq<Row>)
    ensures sorted == SortedRows(sort, rows)
  {
    if sort == "heap" {
      sorted := HeapSort(rows);
    } else {
      var table := new Row[|rows|](k requires 0 <= k < |rows| => rows[k]);
      assert table[..] == rows;
      Sort(table);
      sorted := table[..];
    }
  }
}
