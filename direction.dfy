/** Steps 3b and 5c: the infiltration-direction screen.

    For each (site, GVFK) pair the raw GVD pixel values of all the GVFK's
    model layers are pooled; each value at or above zero votes for
    downward flow. A pair is "downward" when more than half of the votes
    are, "upward" otherwise, and "no_data" when nothing was sampled. Rows
    of upward pairs are removed; every other row is kept, including rows of
    pairs that were never analysed. */
module Direction {
  import opened Wrappers
  import opened Text
  import Layers
  import Infiltration
  import Grouping

  type RasterSample = Infiltration.RasterSample

  datatype FlowDirection = Downward | Upward | NoData

  /** The two screens differ only in which raster a layer is read from. */
  datatype Screen = Step3b | Step5c

  /** The raster read for a layer: Step 3b builds the regional name from the
      lower-cased layer and falls back to the mainland file; Step 5c reads
      "DKM_gvd_<layer>.tif" if present. */
  function RasterFor(screen: Screen, layer: string, region: Option<string>, existing: set<string>): (file: Option<string>)
    ensures file.Some? ==> file.value in existing
  {
    match screen
    case Step3b => Layers.ResolveRaster(Lower(layer), region, existing)
    case Step5c => if Layers.Step5cRaster(layer) in existing then Some(Layers.Step5cRaster(layer)) else None
  }

  /** `_sample_infiltration_pixels`: the raw valid polygon pixels; only
      when there are none, the centroid value; else nothing. No cleaning. */
  function RawPixels(reading: Option<RasterSample>): (px: Option<seq<real>>)
    ensures px.Some? ==> px.value != []
    ensures reading.Some? && reading.value.pixels != [] ==> px == Some(reading.value.pixels)
    ensures reading.Some? && reading.value.pixels == [] && reading.value.centroid.Some? ==>
      px == Some([reading.value.centroid.value])
    ensures px.None? <==> reading.None? || (reading.value.pixels == [] && reading.value.centroid.None?)
  {
    match reading
    case None => None
    case Some(r) =>
      if r.pixels != [] then Some(r.pixels)
      else if r.centroid.Some? then Some([r.centroid.value])
      else None
  }

  function LayerPixels(screen: Screen, site: string, layer: string, region: Option<string>, existing: set<string>,
                       read: (string, string) -> Option<RasterSample>): Option<seq<real>>
  {
    match RasterFor(screen, layer, region, existing)
    case None => None
    case Some(file) => RawPixels(read(site, file))
  }

  /** The pooled values of the layers, in layer order. */
  function Pooled(screen: Screen, site: string, layers: seq<string>, region: Option<string>, existing: set<string>,
                  read: (string, string) -> Option<RasterSample>): seq<real>
    decreases |layers|
  {
    if layers == [] then []
    else
      var last := layers[|layers| - 1];
      var px := LayerPixels(screen, site, last, region, existing, read);
      Pooled(screen, site, layers[..|layers| - 1], region, existing, read) + (if px.Some? then px.value else [])
  }

  // ---------------------------------------------------------------------
  // The vote
  // ---------------------------------------------------------------------

  /** The number of values at or above zero. */
  function Votes(xs: seq<real>): (n: nat)
    ensures n <= |xs|
  {
    if xs == [] then 0 else (if xs[0] >= 0.0 then 1 else 0) + Votes(xs[1..])
  }

  /** `"downward" if sum(binary) / len(binary) > 0.5 else "upward"`, and
      "no_data" for an empty pool. */
  function Classify(xs: seq<real>): FlowDirection {
    if xs == [] then NoData
    else if (Votes(xs) as real) / (|xs| as real) > 0.5 then Downward
    else Upward
  }

  /** Downward exactly when a strict majority votes downward; a tie is
      upward; only an empty pool has no data. */
  lemma ClassifyMajority(xs: seq<real>)
    ensures Classify(xs) == NoData <==> xs == []
    ensures Classify(xs) == Downward <==> xs != [] && 2 * Votes(xs) > |xs|
    ensures Classify(xs) == Upward <==> xs != [] && 2 * Votes(xs) <= |xs|
  {
    if xs != [] {
      var v := Votes(xs) as real;
      var n := |xs| as real;
      FractionAboveHalf(v, n);
    }
  }

  lemma FractionAboveHalf(v: real, n: real)
    requires n > 0.0
    ensures v / n > 0.5 <==> 2.0 * v > n
  {
  }

  /** Zero votes downward: a pool of zeros is downward. */
  lemma {:induction false} ZerosVoteDown(xs: seq<real>)
    requires forall i :: 0 <= i < |xs| ==> xs[i] >= 0.0
    ensures Votes(xs) == |xs|
  {
    if xs != [] {
      assert forall i :: 0 <= i < |xs[1..]| ==> xs[1..][i] == xs[i + 1];
      ZerosVoteDown(xs[1..]);
    }
  }

  /** An even split, one value each way, is upward. */
  lemma EvenSplitIsUpward()
    ensures Classify([0.0, -1.0]) == Upward
  {
    ClassifyMajority([0.0, -1.0]);
    assert Votes([0.0, -1.0]) == 1 by {
      assert [0.0, -1.0][1..] == [-1.0];
      assert [-1.0][1..] == [];
    }
  }

  /** The pooled vote is the sum of the layers' votes. */
  lemma {:induction false} VotesAppend(a: seq<real>, b: seq<real>)
    ensures Votes(a + b) == Votes(a) + Votes(b)
  {
    if a != [] {
      assert (a + b)[1..] == a[1..] + b;
      VotesAppend(a[1..], b);
    } else {
      assert a + b == b;
    }
  }

  // ---------------------------------------------------------------------
  // The pair loop
  // ---------------------------------------------------------------------

  /** One row of `site_gvfk_pairs`; Step 3b's region defaults to "dk16". */
  datatype Pair = Pair(site: string, gvfk: string, modellag: string, region: Option<string>)

  /** The direction of one pair: no geometry gives no data. */
  function PairDirection(screen: Screen, p: Pair, geometries: set<string>, existing: set<string>,
                         read: (string, string) -> Option<RasterSample>): FlowDirection
  {
    if p.site !in geometries then NoData
    else
      var layers := Layers.LayerList(Some(p.modellag), Layers.SemicolonOnly);
      Classify(Pooled(screen, p.site, layers, p.region, existing, read))
  }

  function PairKey(p: Pair): (string, string) { (p.site, p.gvfk) }

  function DirectionStep(screen: Screen, geometries: set<string>, existing: set<string>,
                         read: (string, string) -> Option<RasterSample>): Pair -> FlowDirection
  {
    p => PairDirection(screen, p, geometries, existing, read)
  }

  /** The direction table: a later pair with the same key overwrites an
      earlier one. */
  function Directions(screen: Screen, pairs: seq<Pair>, geometries: set<string>, existing: set<string>,
                      read: (string, string) -> Option<RasterSample>): map<(string, string), FlowDirection>
  {
    Grouping.LastWins(pairs, PairKey, DirectionStep(screen, geometries, existing, read))
  }

  /** Pool the pixel values of a pair's layers. */
  method PoolPixels(screen: Screen, site: string, layers: seq<string>, region: Option<string>, existing: set<string>,
                    read: (string, string) -> Option<RasterSample>) returns (all: seq<real>)
    ensures all == Pooled(screen, site, layers, region, existing, read)
  {
    all := [];
    var i := 0;
    while i < |layers|
      invariant 0 <= i <= |layers|
      invariant all == Pooled(screen, site, layers[..i], region, existing, read)
    {
      assert layers[..i + 1][..i] == layers[..i];
      var px := LayerPixels(screen, site, layers[i], region, existing, read);
      if px.Some? && |px.value| > 0 {
        all := all + px.value;
      }
      i := i + 1;
    }
    assert layers[..|layers|] == layers;
  }

  /** `_analyze_site_gvfk_flow_directions`. */
  method AnalyzeFlowDirections(screen: Screen, pairs: seq<Pair>, geometries: set<string>, existing: set<string>,
                               read: (string, string) -> Option<RasterSample>) returns (dirs: map<(string, string), FlowDirection>)
    ensures dirs == Directions(screen, pairs, geometries, existing, read)
  {
    var step := DirectionStep(screen, geometries, existing, read);
    dirs := map[];
    for i := 0 to |pairs|
      invariant dirs == Grouping.LastWins(pairs[..i], PairKey, step)
    {
      Grouping.LastWinsSnoc(pairs, PairKey, step, i);
      var p := pairs[i];
      var direction := NoData;
      if p.site in geometries {
        var layers := Layers.ParseDkModellag(Some(p.modellag), Layers.SemicolonOnly);
        var all := PoolPixels(screen, p.site, layers, p.region, existing, read);
        direction := Classify(all);
      }
      assert step(p) == direction;
      dirs := dirs[(p.site, p.gvfk) := direction];
    }
    assert pairs[..|pairs|] == pairs;
  }

  /** The table holds exactly the analysed keys, each with the direction
      of the last pair carrying it. */
  lemma DirectionsSpec(screen: Screen, pairs: seq<Pair>, geometries: set<string>, existing: set<string>,
                                          read: (string, string) -> Option<RasterSample>, key: (string, string))
    ensures key in Directions(screen, pairs, geometries, existing, read) <==>
      exists i :: 0 <= i < |pairs| && (pairs[i].site, pairs[i].gvfk) == key
    ensures forall i :: (0 <= i < |pairs| && (pairs[i].site, pairs[i].gvfk) == key &&
      (forall j :: i < j < |pairs| ==> (pairs[j].site, pairs[j].gvfk) != key)) ==>
      Directions(screen, pairs, geometries, existing, read)[key] == PairDirection(screen, pairs[i], geometries, existing, read)
  {
    Grouping.LastWinsSpec(pairs, PairKey, DirectionStep(screen, geometries, existing, read), key);
  }

  /** A pair whose site has no geometry has no data. */
  lemma NoGeometryNoData(screen: Screen, p: Pair, geometries: set<string>, existing: set<string>,
                         read: (string, string) -> Option<RasterSample>)
    requires p.site !in geometries
    ensures PairDirection(screen, p, geometries, existing, read) == NoData
  {
  }

  // ---------------------------------------------------------------------
  // Keep / remove
  // ---------------------------------------------------------------------

  /** `site_gvfk_flow_directions.get(key, "no_data")`. */
  function DirectionOf(dirs: map<(string, string), FlowDirection>, key: (string, string)): FlowDirection {
    if key in dirs then dirs[key] else NoData
  }

  function Kept<R(!new)>(rows: seq<R>, key: R -> (string, string), dirs: map<(string, string), FlowDirection>): seq<R> {
    if rows == [] then []
    else (if DirectionOf(dirs, key(rows[0])) != Upward then [rows[0]] else []) + Kept(rows[1..], key, dirs)
  }

  function Removed<R(!new)>(rows: seq<R>, key: R -> (string, string), dirs: map<(string, string), FlowDirection>): seq<R> {
    if rows == [] then []
    else (if DirectionOf(dirs, key(rows[0])) == Upward then [rows[0]] else []) + Removed(rows[1..], key, dirs)
  }

  /** Kept and removed rows together are the input, row for row. */
  lemma {:induction false} PartitionSpec<R(!new)>(rows: seq<R>, key: R -> (string, string), dirs: map<(string, string), FlowDirection>)
    ensures multiset(Kept(rows, key, dirs)) + multiset(Removed(rows, key, dirs)) == multiset(rows)
  {
    if rows != [] {
      var rest := rows[1..];
      PartitionSpec(rest, key, dirs);
      var up := DirectionOf(dirs, key(rows[0])) == Upward;
      var k0: seq<R> := if !up then [rows[0]] else [];
      var r0: seq<R> := if up then [rows[0]] else [];
      assert Kept(rows, key, dirs) == k0 + Kept(rest, key, dirs);
      assert Removed(rows, key, dirs) == r0 + Removed(rest, key, dirs);
      assert multiset(k0) + multiset(r0) == multiset([rows[0]]);
      assert rows == [rows[0]] + rest;
    }
  }

  /** A row is kept iff its pair is not upward, and removed iff it is. */
  lemma {:induction false} MembersSpec<R(!new)>(rows: seq<R>, key: R -> (string, string), dirs: map<(string, string), FlowDirection>, r: R)
    ensures r in Kept(rows, key, dirs) <==> r in rows && DirectionOf(dirs, key(r)) != Upward
    ensures r in Removed(rows, key, dirs) <==> r in rows && DirectionOf(dirs, key(r)) == Upward
  {
    if rows != [] {
      MembersSpec(rows[1..], key, dirs, r);
      assert rows == [rows[0]] + rows[1..];
    }
  }

  /** A row whose pair was never analysed (no DK-modellag mapping) is kept. */
  lemma UnanalysedKept<R(!new)>(rows: seq<R>, key: R -> (string, string), dirs: map<(string, string), FlowDirection>, r: R)
    requires r in rows && key(r) !in dirs
    ensures r in Kept(rows, key, dirs) && r !in Removed(rows, key, dirs)
  {
    MembersSpec(rows, key, dirs, r);
  }
}
