/** Step 6 infiltration: one GVD raster reading per layer, cleaned and
    combined, and the per-row mean over a site's layers.

    The raster reading itself is an input: for a site and a raster file it
    is either absent (file missing or unreadable) or a `RasterSample` with
    the value under the site centroid (if the centroid hits a data pixel)
    and the valid pixels inside the site polygon (none when the site has no
    polygon or masking failed). */
module Infiltration {
  import opened Wrappers
  import opened Text
  import Config
  import Layers

  datatype RasterSample = RasterSample(centroid: Option<real>, pixels: seq<real>)

  /** The source's `gvd_max_infiltration_cap`. */
  const Cap: real := Config.GvdMaxInfiltrationCap

  /** Zero a negative (upward) value and cap a large one. */
  function Clean(v: real): (c: real)
    ensures 0.0 <= c <= Cap
    ensures 0.0 <= v <= Cap ==> c == v
    ensures v < 0.0 ==> c == 0.0
    ensures v > Cap ==> c == Cap
  {
    if v < 0.0 then 0.0 else if v > Cap then Cap else v
  }

  /** Cleaning is `min(max(v, 0), cap)` and cleaning twice changes nothing. */
  lemma CleanIsClamp(v: real)
    ensures Clean(v) == Min2(Max2(v, 0.0), Cap)
    ensures Clean(Clean(v)) == Clean(v)
  {
  }

  function Min2(a: real, b: real): real { if a <= b then a else b }
  function Max2(a: real, b: real): real { if a >= b then a else b }

  function CleanAll(xs: seq<real>): (r: seq<real>)
    ensures |r| == |xs|
    ensures forall i :: 0 <= i < |xs| ==> r[i] == Clean(xs[i])
  {
    if xs == [] then [] else [Clean(xs[0])] + CleanAll(xs[1..])
  }

  function Sum(xs: seq<real>): real {
    if xs == [] then 0.0 else xs[0] + Sum(xs[1..])
  }

  /** `np.mean` of a non-empty list. */
  function Mean(xs: seq<real>): real
    requires xs != []
  {
    Sum(xs) / (|xs| as real)
  }

  function SeqMin(xs: seq<real>): (m: real)
    requires xs != []
    ensures m in xs && forall i :: 0 <= i < |xs| ==> m <= xs[i]
  {
    if |xs| == 1 then xs[0]
    else
      var r := SeqMin(xs[1..]);
      assert forall i :: 1 <= i < |xs| ==> xs[i] == xs[1..][i - 1];
      if xs[0] <= r then xs[0] else r
  }

  function SeqMax(xs: seq<real>): (m: real)
    requires xs != []
    ensures m in xs && forall i :: 0 <= i < |xs| ==> xs[i] <= m
  {
    if |xs| == 1 then xs[0]
    else
      var r := SeqMax(xs[1..]);
      assert forall i :: 1 <= i < |xs| ==> xs[i] == xs[1..][i - 1];
      if xs[0] >= r then xs[0] else r
  }

  predicate AllWithin(xs: seq<real>, lo: real, hi: real) {
    forall i :: 0 <= i < |xs| ==> lo <= xs[i] <= hi
  }

  lemma {:induction false} SumWithin(xs: seq<real>, lo: real, hi: real)
    requires AllWithin(xs, lo, hi)
    ensures (|xs| as real) * lo <= Sum(xs) <= (|xs| as real) * hi
  {
    if xs != [] {
      SumWithin(xs[1..], lo, hi);
    }
  }

  /** A mean of values in [lo, hi] lies in [lo, hi]. */
  lemma MeanWithin(xs: seq<real>, lo: real, hi: real)
    requires xs != [] && AllWithin(xs, lo, hi)
    ensures lo <= Mean(xs) <= hi
  {
    SumWithin(xs, lo, hi);
    var n := |xs| as real;
    assert n * lo <= Sum(xs) <= n * hi;
    assert Mean(xs) * n == Sum(xs);
  }

  function CountBelow(xs: seq<real>, t: real): (n: nat)
    ensures n <= |xs|
  {
    if xs == [] then 0 else (if xs[0] < t then 1 else 0) + CountBelow(xs[1..], t)
  }

  function CountAbove(xs: seq<real>, t: real): (n: nat)
    ensures n <= |xs|
  {
    if xs == [] then 0 else (if xs[0] > t then 1 else 0) + CountAbove(xs[1..], t)
  }

  /** What `_sample_infiltration` reports for one layer. `pixelCount` is
      `None` only when no raster was read; a raster read with no valid
      polygon pixel reports 0. */
  datatype LayerResult = LayerResult(
    combined: Option<real>,
    centroid: Option<real>,
    polygonMean: Option<real>,
    polygonMin: Option<real>,
    polygonMax: Option<real>,
    pixelCount: Option<nat>,
    pixels: Option<seq<real>>,
    pixelsCapped: nat,
    pixelsZeroed: nat,
    centroidCapped: bool,
    centroidZeroed: bool)

  const NoReading := LayerResult(None, None, None, None, None, None, None, 0, 0, false, false)

  /** The cleaned reading of one raster. */
  function SampleLayer(reading: Option<RasterSample>): LayerResult
  {
    match reading
    case None => NoReading
    case Some(RasterSample(c, px)) =>
      var centroid := match c case Some(v) => Some(Clean(v)) case None => None;
      var capped := c.Some? && c.value > Cap;
      var zeroed := c.Some? && c.value < 0.0;
      if px == [] then
        LayerResult(centroid, centroid, None, None, None, Some(0), None, 0, 0, capped, zeroed)
      else
        var cleaned := CleanAll(px);
        var mean := Some(Mean(cleaned));
        LayerResult(mean, centroid, mean, Some(SeqMin(cleaned)), Some(SeqMax(cleaned)),
          Some(|px|), Some(cleaned), CountAbove(px, Cap), CountBelow(px, 0.0), capped, zeroed)
  }

  /** An unreadable raster reports nothing; the polygon mean, when the
      polygon has valid pixels, is preferred over the centroid value; a
      readable raster always reports its pixel count, 0 when the polygon
      has none. */
  lemma SampleLayerSpec(reading: Option<RasterSample>)
    ensures var r := SampleLayer(reading);
      (reading.None? ==> r == NoReading) &&
      (reading.Some? && reading.value.pixels != [] ==>
        r.combined == r.polygonMean && r.polygonMean == Some(Mean(CleanAll(reading.value.pixels)))) &&
      (reading.Some? && reading.value.pixels == [] ==>
        r.polygonMean.None? && r.pixelCount == Some(0) &&
        r.combined == (match reading.value.centroid case Some(v) => Some(Clean(v)) case None => None)) &&
      (reading.Some? ==> r.pixelCount == Some(|reading.value.pixels|))
  {
  }

  /** Every value a layer reports lies in [0, cap]. */
  predicate CleanResult(r: LayerResult) {
    (r.combined.Some? ==> 0.0 <= r.combined.value <= Cap) &&
    (r.centroid.Some? ==> 0.0 <= r.centroid.value <= Cap) &&
    (r.polygonMean.Some? ==> 0.0 <= r.polygonMean.value <= Cap) &&
    (r.polygonMin.Some? ==> 0.0 <= r.polygonMin.value <= Cap) &&
    (r.polygonMax.Some? ==> 0.0 <= r.polygonMax.value <= Cap) &&
    (r.pixels.Some? ==> AllWithin(r.pixels.value, 0.0, Cap))
  }

  lemma SampleLayerClean(reading: Option<RasterSample>)
    ensures CleanResult(SampleLayer(reading))
  {
    if reading.Some? && reading.value.pixels != [] {
      var cleaned := CleanAll(reading.value.pixels);
      MeanWithin(cleaned, 0.0, Cap);
    }
  }

  /** The raster reading for one layer of a site: resolve the file (with the
      mainland fallback), then read it. */
  function ReadLayer(site: string, layer: string, region: Option<string>, existing: set<string>,
                     read: (string, string) -> Option<RasterSample>): Option<RasterSample>
  {
    match Layers.ResolveRaster(Lower(layer), region, existing)
    case None => None
    case Some(file) => read(site, file)
  }

  /** The per-layer columns `_calculate_infiltration` averages. */
  datatype Field = Combined | Centroid | PolygonMean | PolygonMin | PolygonMax

  function Get(r: LayerResult, f: Field): Option<real> {
    match f
    case Combined => r.combined
    case Centroid => r.centroid
    case PolygonMean => r.polygonMean
    case PolygonMin => r.polygonMin
    case PolygonMax => r.polygonMax
  }

  /** The reported (non-None) values of one column, in layer order. */
  function Values(rs: seq<LayerResult>, f: Field): (vs: seq<real>)
    ensures |vs| <= |rs|
  {
    if rs == [] then []
    else (if Get(rs[0], f).Some? then [Get(rs[0], f).value] else []) + Values(rs[1..], f)
  }

  /** A column has values exactly when some layer reported one; when every
      layer is clean, all of them lie in [0, cap]. */
  lemma {:induction false} ValuesSpec(rs: seq<LayerResult>, f: Field)
    ensures Values(rs, f) == [] <==> forall i :: 0 <= i < |rs| ==> Get(rs[i], f).None?
    ensures (forall i :: 0 <= i < |rs| ==> CleanResult(rs[i])) ==> AllWithin(Values(rs, f), 0.0, Cap)
  {
    if rs != [] {
      ValuesSpec(rs[1..], f);
      assert forall i :: 1 <= i < |rs| ==> rs[i] == rs[1..][i - 1];
    }
  }

  function MeanOrNaN(xs: seq<real>): Option<real> {
    if xs == [] then None else Some(Mean(xs))
  }

  function Counts(rs: seq<LayerResult>): (c: seq<real>) {
    if rs == [] then []
    else (match rs[0].pixelCount case Some(n) => [n as real] case None => []) + Counts(rs[1..])
  }

  /** One row of `_calculate_infiltration`: the mean of each column over
      the layers that reported it (`None` for NaN), the pixel count being
      the truncated mean pixel count, or 0. */
  datatype RowInfiltration = RowInfiltration(
    combined: Option<real>,
    centroid: Option<real>,
    polygon: Option<real>,
    polygonMin: Option<real>,
    polygonMax: Option<real>,
    pixelCount: int)

  function RowOf(rs: seq<LayerResult>): RowInfiltration {
    var counts := Counts(rs);
    RowInfiltration(
      MeanOrNaN(Values(rs, Combined)),
      MeanOrNaN(Values(rs, Centroid)),
      MeanOrNaN(Values(rs, PolygonMean)),
      MeanOrNaN(Values(rs, PolygonMin)),
      MeanOrNaN(Values(rs, PolygonMax)),
      if counts == [] then 0 else Mean(counts).Floor)
  }

  /** A row's infiltration is missing exactly when no layer reported a
      combined value, and otherwise lies in [0, cap]: it is never negative. */
  lemma RowCombinedBounds(rs: seq<LayerResult>)
    requires forall i :: 0 <= i < |rs| ==> CleanResult(rs[i])
    ensures RowOf(rs).combined.None? <==> forall i :: 0 <= i < |rs| ==> rs[i].combined.None?
    ensures RowOf(rs).combined.Some? ==> 0.0 <= RowOf(rs).combined.value <= Cap
  {
    ValuesSpec(rs, Combined);
    if Values(rs, Combined) != [] {
      MeanWithin(Values(rs, Combined), 0.0, Cap);
    }
  }

  /** Source input of one row: the site, its `DK-modellag` cell and model region. */
  datatype InfiltrationRow = InfiltrationRow(site: string, modellag: Option<string>, region: Option<string>)

  /** Cleaning and sampling tallies printed by `_calculate_infiltration`. */
  datatype SamplingStats = SamplingStats(
    pixelsCapped: nat,
    pixelsZeroed: nat,
    centroidsCapped: nat,
    centroidsZeroed: nat,
    sitesWithCapped: set<string>,
    sitesWithZeroed: set<string>,
    sitesPolygon: set<string>,
    sitesCentroidOnly: set<string>,
    sitesWithoutData: set<string>)

  const NoStats := SamplingStats(0, 0, 0, 0, {}, {}, {}, {}, {})

  /** A sampled layer's pixel values, kept for the distribution records. */
  datatype PixelRecord = PixelRecord(site: string, layer: string, values: seq<real>)

  function LayerResults(row: InfiltrationRow, layers: seq<string>, existing: set<string>,
                        read: (string, string) -> Option<RasterSample>): (rs: seq<LayerResult>)
    ensures |rs| == |layers|
  {
    if layers == [] then []
    else
      [SampleLayer(ReadLayer(row.site, layers[0], row.region, existing, read))] +
      LayerResults(row, layers[1..], existing, read)
  }

  lemma {:induction false} LayerResultsAt(row: InfiltrationRow, layers: seq<string>, existing: set<string>,
                                          read: (string, string) -> Option<RasterSample>)
    ensures forall i :: 0 <= i < |layers| ==>
      LayerResults(row, layers, existing, read)[i] == SampleLayer(ReadLayer(row.site, layers[i], row.region, existing, read))
  {
    if layers != [] {
      LayerResultsAt(row, layers[1..], existing, read);
    }
  }

  function LayerTally(site: string, r: LayerResult, s: SamplingStats): SamplingStats {
    s.(pixelsCapped := s.pixelsCapped + r.pixelsCapped,
       pixelsZeroed := s.pixelsZeroed + r.pixelsZeroed,
       centroidsCapped := s.centroidsCapped + (if r.centroidCapped then 1 else 0),
       centroidsZeroed := s.centroidsZeroed + (if r.centroidZeroed then 1 else 0),
       sitesWithCapped := if r.pixelsCapped > 0 then s.sitesWithCapped + {site} else s.sitesWithCapped,
       sitesWithZeroed := if r.pixelsZeroed > 0 then s.sitesWithZeroed + {site} else s.sitesWithZeroed)
  }

  function LayersTally(site: string, rs: seq<LayerResult>, s: SamplingStats): SamplingStats
    decreases |rs|
  {
    if rs == [] then s else LayersTally(site, rs[1..], LayerTally(site, rs[0], s))
  }

  function MethodTally(site: string, row: RowInfiltration, s: SamplingStats): SamplingStats {
    if row.polygon.Some? then s.(sitesPolygon := s.sitesPolygon + {site})
    else if row.centroid.Some? then s.(sitesCentroidOnly := s.sitesCentroidOnly + {site})
    else s.(sitesWithoutData := s.sitesWithoutData + {site})
  }

  function PixelRecords(site: string, layers: seq<string>, rs: seq<LayerResult>): seq<PixelRecord>
    requires |layers| == |rs|
  {
    if rs == [] then []
    else
      (if rs[0].pixels.Some? && rs[0].pixels.value != [] then [PixelRecord(site, layers[0], rs[0].pixels.value)] else []) +
      PixelRecords(site, layers[1..], rs[1..])
  }

  lemma {:induction false} LayersTallySnoc(site: string, rs: seq<LayerResult>, r: LayerResult, s: SamplingStats)
    ensures LayersTally(site, rs + [r], s) == LayerTally(site, r, LayersTally(site, rs, s))
    decreases |rs|
  {
    if rs != [] {
      assert (rs + [r])[1..] == rs[1..] + [r];
      LayersTallySnoc(site, rs[1..], r, LayerTally(site, rs[0], s));
    }
  }

  lemma {:induction false} PixelRecordsSnoc(site: string, layers: seq<string>, rs: seq<LayerResult>, layer: string, r: LayerResult)
    requires |layers| == |rs|
    ensures PixelRecords(site, layers + [layer], rs + [r]) == PixelRecords(site, layers, rs) +
      (if r.pixels.Some? && r.pixels.value != [] then [PixelRecord(site, layer, r.pixels.value)] else [])
    decreases |rs|
  {
    if rs != [] {
      assert (rs + [r])[1..] == rs[1..] + [r];
      assert (layers + [layer])[1..] == layers[1..] + [layer];
      PixelRecordsSnoc(site, layers[1..], rs[1..], layer, r);
    }
  }

  /** The inner loop of `_calculate_infiltration` for one row: sample every
      layer, collect the results and pixel records, and add the cleaning
      counts to `stats`. */
  method SampleRow(row: InfiltrationRow, existing: set<string>, read: (string, string) -> Option<RasterSample>,
                   stats: SamplingStats)
    returns (record: RowInfiltration, results: seq<LayerResult>, pixels: seq<PixelRecord>, stats': SamplingStats)
    ensures results == LayerResults(row, Layers.LayerList(row.modellag, Layers.SemicolonThenSlash), existing, read)
    ensures record == RowOf(results)
    ensures pixels == PixelRecords(row.site, Layers.LayerList(row.modellag, Layers.SemicolonThenSlash), results)
    ensures stats' == MethodTally(row.site, record, LayersTally(row.site, results, stats))
  {
    var layers := Layers.ParseDkModellag(row.modellag, Layers.SemicolonThenSlash);
    results, pixels, stats' := SampleLayers(row, layers, existing, read, stats);
    record := RowOf(results);
    stats' := MethodTally(row.site, record, stats');
  }

  /** Sample the given layers of a row in order. */
  method SampleLayers(row: InfiltrationRow, layers: seq<string>, existing: set<string>,
                      read: (string, string) -> Option<RasterSample>, stats: SamplingStats)
    returns (results: seq<LayerResult>, pixels: seq<PixelRecord>, stats': SamplingStats)
    ensures results == LayerResults(row, layers, existing, read)
    ensures pixels == PixelRecords(row.site, layers, results)
    ensures stats' == LayersTally(row.site, results, stats)
  {
    results, pixels, stats' := [], [], stats;
    var i := 0;
    while i < |layers|
      invariant 0 <= i <= |layers|
      invariant results == LayerResults(row, layers[..i], existing, read)
      invariant pixels == PixelRecords(row.site, layers[..i], results)
      invariant stats' == LayersTally(row.site, results, stats)
    {
      var r := SampleLayer(ReadLayer(row.site, layers[i], row.region, existing, read));
      SampleRowStep(row, layers, i, existing, read, stats);
      if r.pixels.Some? && r.pixels.value != [] {
        pixels := pixels + [PixelRecord(row.site, layers[i], r.pixels.value)];
      }
      stats' := LayerTally(row.site, r, stats');
      results := results + [r];
      i := i + 1;
    }
    assert layers[..i] == layers;
  }

  lemma SampleRowStep(row: InfiltrationRow, layers: seq<string>, i: nat, existing: set<string>,
                      read: (string, string) -> Option<RasterSample>, stats: SamplingStats)
    requires i < |layers|
    ensures var results := LayerResults(row, layers[..i], existing, read);
      var r := SampleLayer(ReadLayer(row.site, layers[i], row.region, existing, read));
      LayerResults(row, layers[..i + 1], existing, read) == results + [r] &&
      PixelRecords(row.site, layers[..i + 1], results + [r]) == PixelRecords(row.site, layers[..i], results) +
        (if r.pixels.Some? && r.pixels.value != [] then [PixelRecord(row.site, layers[i], r.pixels.value)] else []) &&
      LayersTally(row.site, results + [r], stats) == LayerTally(row.site, r, LayersTally(row.site, results, stats))
  {
    var results := LayerResults(row, layers[..i], existing, read);
    var r := SampleLayer(ReadLayer(row.site, layers[i], row.region, existing, read));
    assert layers[..i + 1] == layers[..i] + [layers[i]];
    LayerResultsSnoc(row, layers[..i], layers[i], existing, read);
    PixelRecordsSnoc(row.site, layers[..i], results, layers[i], r);
    LayersTallySnoc(row.site, results, r, stats);
  }

  lemma {:induction false} LayerResultsSnoc(row: InfiltrationRow, layers: seq<string>, layer: string, existing: set<string>,
                                            read: (string, string) -> Option<RasterSample>)
    ensures LayerResults(row, layers + [layer], existing, read) ==
      LayerResults(row, layers, existing, read) + [SampleLayer(ReadLayer(row.site, layer, row.region, existing, read))]
  {
    var lhs := LayerResults(row, layers + [layer], existing, read);
    var rhs := LayerResults(row, layers, existing, read) + [SampleLayer(ReadLayer(row.site, layer, row.region, existing, read))];
    LayerResultsAt(row, layers + [layer], existing, read);
    LayerResultsAt(row, layers, existing, read);
    assert |lhs| == |rhs|;
    forall i | 0 <= i < |lhs| ensures lhs[i] == rhs[i] {
      assert (layers + [layer])[i] == if i < |layers| then layers[i] else layer;
    }
  }

  /** The row's results: the layer results of its parsed layers. */
  function RowResults(row: InfiltrationRow, existing: set<string>, read: (string, string) -> Option<RasterSample>): seq<LayerResult> {
    LayerResults(row, Layers.LayerList(row.modellag, Layers.SemicolonThenSlash), existing, read)
  }

  /** Every row's infiltration is missing or lies in [0, cap]. */
  lemma RowResultsBounds(row: InfiltrationRow, existing: set<string>, read: (string, string) -> Option<RasterSample>)
    ensures var c := RowOf(RowResults(row, existing, read)).combined; c.Some? ==> 0.0 <= c.value <= Cap
  {
    var layers := Layers.LayerList(row.modellag, Layers.SemicolonThenSlash);
    var rs := RowResults(row, existing, read);
    LayerResultsAt(row, layers, existing, read);
    forall k | 0 <= k < |rs| ensures CleanResult(rs[k]) {
      SampleLayerClean(ReadLayer(row.site, layers[k], row.region, existing, read));
    }
    RowCombinedBounds(rs);
  }

  /** The records of all rows, in row order. */
  function RowsRecords(rows: seq<InfiltrationRow>, existing: set<string>,
                       read: (string, string) -> Option<RasterSample>): seq<RowInfiltration>
  {
    if rows == [] then []
    else RowsRecords(rows[..|rows| - 1], existing, read) + [RowOf(RowResults(rows[|rows| - 1], existing, read))]
  }

  /** One record per row, that row's, and every infiltration so reported
      is missing or in [0, cap]. */
  lemma {:induction false} RowsRecordsSpec(rows: seq<InfiltrationRow>, existing: set<string>,
                                           read: (string, string) -> Option<RasterSample>)
    ensures |RowsRecords(rows, existing, read)| == |rows|
    ensures forall i :: 0 <= i < |rows| ==> RowsRecords(rows, existing, read)[i] == RowOf(RowResults(rows[i], existing, read))
    ensures forall i :: 0 <= i < |rows| ==> var c := RowsRecords(rows, existing, read)[i].combined;
      c.Some? ==> 0.0 <= c.value <= Cap
  {
    if rows != [] {
      var init := rows[..|rows| - 1];
      RowsRecordsSpec(init, existing, read);
      RowResultsBounds(rows[|rows| - 1], existing, read);
      forall i | 0 <= i < |rows| ensures RowsRecords(rows, existing, read)[i] == RowOf(RowResults(rows[i], existing, read)) {
        if i < |rows| - 1 {
          assert rows[i] == init[i];
        }
      }
    }
  }

  /** The pixel records of all rows, in row then layer order. */
  function RowsPixels(rows: seq<InfiltrationRow>, existing: set<string>,
                      read: (string, string) -> Option<RasterSample>): seq<PixelRecord>
  {
    if rows == [] then []
    else
      var row := rows[|rows| - 1];
      RowsPixels(rows[..|rows| - 1], existing, read) +
      PixelRecords(row.site, Layers.LayerList(row.modellag, Layers.SemicolonThenSlash), RowResults(row, existing, read))
  }

  /** The tallies after all rows. */
  function RowsStats(rows: seq<InfiltrationRow>, existing: set<string>,
                     read: (string, string) -> Option<RasterSample>): SamplingStats
  {
    if rows == [] then NoStats
    else
      var row := rows[|rows| - 1];
      var rs := RowResults(row, existing, read);
      MethodTally(row.site, RowOf(rs), LayersTally(row.site, rs, RowsStats(rows[..|rows| - 1], existing, read)))
  }

  lemma RowsStep(rows: seq<InfiltrationRow>, i: nat, existing: set<string>,
                 read: (string, string) -> Option<RasterSample>)
    requires i < |rows|
    ensures var row := rows[i];
      var rs := RowResults(row, existing, read);
      RowsRecords(rows[..i + 1], existing, read) == RowsRecords(rows[..i], existing, read) + [RowOf(rs)] &&
      RowsPixels(rows[..i + 1], existing, read) == RowsPixels(rows[..i], existing, read) +
        PixelRecords(row.site, Layers.LayerList(row.modellag, Layers.SemicolonThenSlash), rs) &&
      RowsStats(rows[..i + 1], existing, read) ==
        MethodTally(row.site, RowOf(rs), LayersTally(row.site, rs, RowsStats(rows[..i], existing, read)))
  {
    assert rows[..i + 1][..i] == rows[..i];
  }

  /** What `_calculate_infiltration` returns when it completes. */
  datatype Calculation = Calculation(records: seq<RowInfiltration>, pixels: seq<PixelRecord>, stats: SamplingStats)

  /** The sampling summary divides by the number of distinct sites, which
      is zero exactly when there are no rows. */
  const NoSites := ZeroDivisionError("division by zero")

  /** `_calculate_infiltration`: one record per row, in order, with the
      pixel records and tallies of all rows; an empty table raises in the
      summary that follows the loop. */
  method CalculateInfiltration(rows: seq<InfiltrationRow>, existing: set<string>,
                               read: (string, string) -> Option<RasterSample>)
    returns (r: Result<Calculation>)
    ensures r.Err? <==> rows == []
    ensures r.Err? ==> r.error == NoSites
    ensures r.Ok? ==> r.value.records == RowsRecords(rows, existing, read)
    ensures r.Ok? ==> |r.value.records| == |rows|
    ensures r.Ok? ==> forall i :: 0 <= i < |rows| ==> r.value.records[i] == RowOf(RowResults(rows[i], existing, read))
    ensures r.Ok? ==> forall i :: 0 <= i < |rows| ==>
      r.value.records[i].combined.Some? ==> 0.0 <= r.value.records[i].combined.value <= Cap
    ensures r.Ok? ==> r.value.pixels == RowsPixels(rows, existing, read)
    ensures r.Ok? ==> r.value.stats == RowsStats(rows, existing, read)
  {
    var records, pixels, stats := [], [], NoStats;
    var i := 0;
    while i < |rows|
      invariant 0 <= i <= |rows|
      invariant records == RowsRecords(rows[..i], existing, read)
      invariant pixels == RowsPixels(rows[..i], existing, read)
      invariant stats == RowsStats(rows[..i], existing, read)
    {
      var record, results, rowPixels;
      record, results, rowPixels, stats := SampleRow(rows[i], existing, read, stats);
      RowsStep(rows, i, existing, read);
      records := records + [record];
      pixels := pixels + rowPixels;
      i := i + 1;
    }
    if |rows| == 0 {
      return Err(NoSites);
    }
    assert rows[..i] == rows;
    RowsRecordsSpec(rows, existing, read);
    r := Ok(Calculation(records, pixels, stats));
  }
}
