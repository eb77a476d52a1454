/**
 * The catalog normaliser of netlify/functions/recommend.js (`loadDataset`, lines
 * 89-120, and `normalizeValue`): per-feature bounds over the finite values of the
 * catalog, and min-max normalised feature vectors.
 *
 * The CSV cells come in already converted by `Number(...)`: a value is finite or not
 * (NaN and the infinities are one case here).
 */
module Catalog {
  import opened Wrappers
  import opened Genre

  /** The ten features, in the order of the source's FEATURES list. */
  const FeatureCount: nat := 10
  /** `popularity` is the last feature of that list. */
  const PopularityIndex: nat := 9

  datatype Num = Finite(value: real) | NonFinite

  /** `Number(x) || 0`, with every non-finite value taken as 0. */
  function OrZero(n: Num): real
  {
    if n.Finite? then n.value else 0.0
  }

  /** A feature's value, or NonFinite (`Number(undefined)`) for a missing column. */
  function FeatureOf(features: seq<Num>, k: nat): Num
  {
    if k < |features| then features[k] else NonFinite
  }

  /**
   * The `{ min, max }` pair of one feature. The source starts from +Infinity and
   * -Infinity and keeps them when no value is finite: that is NoFiniteValue here.
   */
  datatype Bounds = NoFiniteValue | Range(min: real, max: real)

  /** One step of the scan: a finite value lowers `min` or raises `max`. */
  function Include(b: Bounds, x: Num): Bounds
  {
    match x
    case NonFinite => b
    case Finite(v) =>
      match b
      case NoFiniteValue => Range(v, v)
      case Range(lo, hi) => Range(if v < lo then v else lo, if v > hi then v else hi)
  }

  /** The bounds of one column after scanning it from the first row to the last. */
  function ColumnBounds(col: seq<Num>): (b: Bounds)
    ensures b.NoFiniteValue? <==> forall i :: 0 <= i < |col| ==> col[i].NonFinite?
    ensures b.Range? ==> b.min <= b.max
    ensures b.Range? ==> exists i :: 0 <= i < |col| && col[i] == Finite(b.min)
    ensures b.Range? ==> exists i :: 0 <= i < |col| && col[i] == Finite(b.max)
    ensures b.Range? ==> forall i :: 0 <= i < |col| && col[i].Finite? ==> b.min <= col[i].value <= b.max
    decreases |col|
  {
    if |col| == 0 then NoFiniteValue
    else
      var front := col[..|col| - 1];
      var b := Include(ColumnBounds(front), col[|col| - 1]);
      assert forall i :: 0 <= i < |front| ==> col[i] == front[i];
      b
  }

  /** The loop of `loadDataset` over one feature. */
  method ScanBounds(col: seq<Num>) returns (b: Bounds)
    ensures b == ColumnBounds(col)
  {
    b := NoFiniteValue;
    var i := 0;
    while i < |col|
      invariant 0 <= i <= |col|
      invariant b == ColumnBounds(col[..i])
    {
      assert col[..i + 1][..i] == col[..i];
      b := Include(b, col[i]);
      i := i + 1;
    }
    assert col[..i] == col;
  }

  /**
   * `normalizeValue`: 0 for a non-finite value and for a constant feature, else
   * `(v - min) / (max - min)`. A feature without any finite catalog value also gives 0
   * (the source computes NaN there; see NormalizeValueAsWritten).
   */
  function NormalizeValue(x: Num, b: Bounds): (r: real)
    ensures x.NonFinite? || b.NoFiniteValue? || (b.Range? && b.min == b.max) ==> r == 0.0
    ensures x.Finite? && b.Range? && b.min <= x.value <= b.max ==> 0.0 <= r <= 1.0
    ensures x.Finite? && b.Range? && b.min < b.max ==> r * (b.max - b.min) == x.value - b.min
  {
    match x
    case NonFinite => 0.0
    case Finite(v) =>
      match b
      case NoFiniteValue => 0.0
      case Range(lo, hi) =>
        if lo == hi then 0.0
        else
          var r := (v - lo) / (hi - lo);
          assert lo < hi ==> r * (hi - lo) == v - lo by {
            if lo < hi { DivTimes(v - lo, hi - lo); }
          }
          assert lo <= v <= hi ==> 0.0 <= r <= 1.0 by {
            if lo <= v <= hi { DivAtMostOne(v - lo, hi - lo); }
          }
          r
  }

  lemma DivTimes(a: real, d: real)
    requires d > 0.0
    ensures (a / d) * d == a
  {
  }

  lemma DivAtMostOne(a: real, d: real)
    requires 0.0 <= a <= d && d > 0.0
    ensures 0.0 <= a / d <= 1.0
  {
  }

  /**
   * `normalizeValue` as written, in IEEE terms: with no finite catalog value the
   * bounds are +Infinity and -Infinity, and a finite value gives
   * (v - Infinity) / (-Infinity - Infinity), which is NaN.
   */
  function NormalizeValueAsWritten(x: Num, b: Bounds): (r: Num)
    ensures x.NonFinite? || b.Range? ==> r == Finite(NormalizeValue(x, b))
    ensures x.Finite? && b.NoFiniteValue? ==> r == NonFinite
  {
    match x
    case NonFinite => Finite(0.0)
    case Finite(v) =>
      match b
      case NoFiniteValue => NonFinite
      case Range(lo, hi) => if lo == hi then Finite(0.0) else Finite((v - lo) / (hi - lo))
  }

  /** A finite playlist value against a feature with no finite catalog value is NaN as written. */
  lemma NaNForFeatureWithoutCatalogValues()
    ensures ColumnBounds([NonFinite]) == NoFiniteValue
    ensures NormalizeValueAsWritten(Finite(0.5), ColumnBounds([NonFinite])) == NonFinite
    ensures NormalizeValue(Finite(0.5), ColumnBounds([NonFinite])) == 0.0
  {
  }

  /** For the catalog's own values the two agree: no catalog component is NaN. */
  lemma {:induction false} CatalogValueNeverNaN(col: seq<Num>, i: nat)
    requires i < |col|
    ensures NormalizeValueAsWritten(col[i], ColumnBounds(col)) == Finite(NormalizeValue(col[i], ColumnBounds(col)))
    ensures 0.0 <= NormalizeValue(col[i], ColumnBounds(col)) <= 1.0
  {
  }

  /** A column whose finite values are all `c` normalises to 0 everywhere. */
  lemma ConstantFeatureIsZero(col: seq<Num>, c: real)
    requires forall i :: 0 <= i < |col| ==> col[i] == Finite(c) || col[i].NonFinite?
    ensures forall i :: 0 <= i < |col| ==> NormalizeValue(col[i], ColumnBounds(col)) == 0.0
  {
  }

  /** One row of the CSV, with its cells converted. */
  datatype RawRow = RawRow(
    trackId: string,
    artistName: string,
    trackName: string,
    genre: GenreValue,
    features: seq<Num>,
    year: Num)

  /** A normalised catalog entry. */
  datatype CatalogItem = CatalogItem(
    trackId: string,
    artistName: string,
    trackName: string,
    genre: GenreValue,
    coarseGenre: string,
    popularity: real,
    year: real,
    featureVector: seq<real>)

  /** One feature across all rows. */
  function Column(rows: seq<RawRow>, k: nat): (col: seq<Num>)
    ensures |col| == |rows|
    ensures forall i :: 0 <= i < |rows| ==> col[i] == FeatureOf(rows[i].features, k)
  {
    seq(|rows|, i requires 0 <= i < |rows| => FeatureOf(rows[i].features, k))
  }

  /** The `entries.map` of `loadDataset`. */
  function NormalizeRow(row: RawRow, bounds: seq<Bounds>): (item: CatalogItem)
    requires |bounds| == FeatureCount
    ensures |item.featureVector| == FeatureCount
    ensures item.coarseGenre != ""
  {
    CatalogItem(
      row.trackId, row.artistName, row.trackName, row.genre,
      NormalizeGenreLabel(row.genre),
      OrZero(FeatureOf(row.features, PopularityIndex)),
      OrZero(row.year),
      seq(FeatureCount, k requires 0 <= k < FeatureCount => NormalizeValue(FeatureOf(row.features, k), bounds[k])))
  }

  /** `cachedDataset`: the normalised entries, the bounds and the raw rows. */
  datatype Dataset = Dataset(normalized: seq<CatalogItem>, bounds: seq<Bounds>, raw: seq<RawRow>)

  /** What `loadDataset` guarantees of its result. */
  ghost predicate WellFormed(ds: Dataset)
  {
    && |ds.bounds| == FeatureCount
    && |ds.normalized| == |ds.raw|
    && forall i :: 0 <= i < |ds.normalized| ==>
         && |ds.normalized[i].featureVector| == FeatureCount
         && ds.normalized[i].coarseGenre != ""
         && forall k :: 0 <= k < FeatureCount ==> 0.0 <= ds.normalized[i].featureVector[k] <= 1.0
  }

  lemma PrefixSnoc(s: seq<Bounds>, k: nat)
    requires k < |s|
    ensures s[..k + 1] == s[..k] + [s[k]]
  {
  }

  /** The bounds of every feature column of the catalog. */
  ghost function CatalogBounds(rows: seq<RawRow>): (bounds: seq<Bounds>)
    ensures |bounds| == FeatureCount
    ensures forall k :: 0 <= k < FeatureCount ==> bounds[k] == ColumnBounds(Column(rows, k))
  {
    seq(FeatureCount, k requires 0 <= k < FeatureCount => ColumnBounds(Column(rows, k)))
  }

  /** The dataset `loadDataset` builds from the rows: column bounds, then every row normalised. */
  ghost function DatasetOf(rows: seq<RawRow>): (ds: Dataset)
    ensures |ds.bounds| == FeatureCount
  {
    var bounds := CatalogBounds(rows);
    Dataset(seq(|rows|, i requires 0 <= i < |rows| => NormalizeRow(rows[i], bounds)), bounds, rows)
  }

  /** `loadDataset` from the rows of the file: bounds per feature, then every row normalised. */
  method LoadDataset(rows: seq<RawRow>) returns (ds: Dataset)
    ensures ds == DatasetOf(rows)
    ensures ds.raw == rows
    ensures |ds.bounds| == FeatureCount
    ensures forall k :: 0 <= k < FeatureCount ==> ds.bounds[k] == ColumnBounds(Column(rows, k))
    ensures |ds.normalized| == |rows|
    ensures forall i :: 0 <= i < |rows| ==> ds.normalized[i] == NormalizeRow(rows[i], ds.bounds)
    ensures WellFormed(ds)
  {
    var bounds: seq<Bounds> := [];
    ghost var goal := CatalogBounds(rows);
    for k := 0 to FeatureCount
      invariant bounds == goal[..k]
    {
      var b := ScanBounds(Column(rows, k));
      PrefixSnoc(goal, k);
      bounds := bounds + [b];
    }
    assert goal[..FeatureCount] == goal;
    var normalized := seq(|rows|, i requires 0 <= i < |rows| => NormalizeRow(rows[i], bounds));
    ds := Dataset(normalized, bounds, rows);
    forall i | 0 <= i < |rows|
      ensures forall k :: 0 <= k < FeatureCount ==> 0.0 <= normalized[i].featureVector[k] <= 1.0
    {
      NormalizedRowInRange(rows, bounds, i);
    }
  }

  /** Every component of a catalog row, normalised with the catalog's own bounds, is in [0, 1]. */
  lemma NormalizedRowInRange(rows: seq<RawRow>, bounds: seq<Bounds>, i: nat)
    requires |bounds| == FeatureCount && i < |rows|
    requires forall k :: 0 <= k < FeatureCount ==> bounds[k] == ColumnBounds(Column(rows, k))
    ensures forall k :: 0 <= k < FeatureCount ==> 0.0 <= NormalizeRow(rows[i], bounds).featureVector[k] <= 1.0
  {
    var v := NormalizeRow(rows[i], bounds).featureVector;
    forall k | 0 <= k < FeatureCount
      ensures 0.0 <= v[k] <= 1.0
    {
      var col := Column(rows, k);
      CatalogValueNeverNaN(col, i);
      assert v[k] == NormalizeValue(col[i], ColumnBounds(col));
    }
  }
}
