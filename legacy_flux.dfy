/** The earlier single-file Step 6 (step6_tilstandsvurdering_clean.py):
    J = A × C × I per qualified site, with one standard concentration per
    category, a default site area, and an infiltration value I read from
    the GVD rasters of the site's layers. Reading a raster is a parameter
    `sample` that gives the value at the raster's centre, or None when the
    file is missing or the value is the raster's nodata value. */
module LegacyFlux {
  import opened Wrappers
  import opened Text
  import Layers
  import Concentration
  import opened Grouping

  /** `STANDARD_CONCENTRATIONS` of the legacy script, µg/L by category. */
  const LegacyConcentrations: map<string, real> := map[
    "LOSSEPLADS" := 1000.0,
    "PAH_FORBINDELSER" := 2000.0,
    "BTXER" := 1500.0,
    "PHENOLER" := 1200.0,
    "UORGANISKE_FORBINDELSER" := 1800.0,
    "POLARE_FORBINDELSER" := 1300.0,
    "KLOREREDE_OPLØSNINGSMIDLER" := 2500.0,
    "PESTICIDER" := 800.0,
    "ANDRE" := 1000.0,
    "KLOREDE_KULBRINTER" := 2200.0
  ]

  /** `fillna(1000.0)` for sites without a Step 3 geometry. */
  const DefaultArea: real := 1000.0

  /** `_get_i_value` when nothing could be sampled. */
  const DefaultI: real := 0.5

  // ---------------------------------------------------------------------
  // _get_i_value
  // ---------------------------------------------------------------------

  /** The values sampled for the layers, in layer order, skipping layers
      without a raster or with nodata at the centre. */
  function Sampled(layers: seq<string>, sample: string -> Option<real>): seq<real>
    decreases |layers|
  {
    if layers == [] then []
    else
      var last := sample(layers[|layers| - 1]);
      Sampled(layers[..|layers| - 1], sample) + (if last.Some? then [last.value] else [])
  }

  function Sum(xs: seq<real>): real
    decreases |xs|
  {
    if xs == [] then 0.0 else Sum(xs[..|xs| - 1]) + xs[|xs| - 1]
  }

  /** `np.mean(values) if values else 0.5`. */
  function MeanOr(values: seq<real>): real {
    if values == [] then DefaultI else Sum(values) / |values| as real
  }

  /** I for the parsed layers: 0.5 for none, else the mean of the samples. */
  function LayersI(layers: seq<string>, sample: string -> Option<real>): real {
    if layers == [] then DefaultI else MeanOr(Sampled(layers, sample))
  }

  /** I for a DK-modellag cell; the range parser's ValueError propagates. */
  function IValue(cell: Option<string>, sample: string -> Option<real>): Result<real> {
    var layers := Layers.ParseLayerRange(cell);
    if layers.Err? then Err(layers.error) else Ok(LayersI(layers.value, sample))
  }

  method SampleLayers(ls: seq<string>, sample: string -> Option<real>) returns (values: seq<real>)
    ensures values == Sampled(ls, sample)
  {
    values := [];
    for i := 0 to |ls|
      invariant values == Sampled(ls[..i], sample)
    {
      assert ls[..i + 1][..i] == ls[..i];
      var v := sample(ls[i]);
      if v.Some? {
        values := values + [v.value];
      }
    }
    assert ls[..|ls|] == ls;
  }

  method GetIValue(cell: Option<string>, sample: string -> Option<real>) returns (r: Result<real>)
    ensures r == IValue(cell, sample)
  {
    var layers := Layers.ParseLayerRange(cell);
    if layers.Err? {
      return Err(layers.error);
    }
    if layers.value == [] {
      return Ok(DefaultI);
    }
    var values := SampleLayers(layers.value, sample);
    if values == [] {
      return Ok(DefaultI);
    }
    r := Ok(Sum(values) / |values| as real);
  }

  lemma {:induction false} SampledSpec(layers: seq<string>, sample: string -> Option<real>)
    ensures |Sampled(layers, sample)| <= |layers|
    ensures Sampled(layers, sample) == [] <==> forall l :: l in layers ==> sample(l).None?
    ensures forall v :: v in Sampled(layers, sample) <==> exists l :: l in layers && sample(l) == Some(v)
    decreases |layers|
  {
    if layers != [] {
      var init := layers[..|layers| - 1];
      SampledSpec(init, sample);
      assert layers == init + [layers[|layers| - 1]];
    }
  }

  lemma {:induction false} SumBounds(xs: seq<real>, lo: real, hi: real)
    requires forall i :: 0 <= i < |xs| ==> lo <= xs[i] <= hi
    ensures |xs| as real * lo <= Sum(xs) <= |xs| as real * hi
    decreases |xs|
  {
    if xs != [] {
      SumBounds(xs[..|xs| - 1], lo, hi);
    }
  }

  /** The mean of the sampling lies between any bounds of the samples. */
  lemma MeanBounds(xs: seq<real>, lo: real, hi: real)
    requires xs != []
    requires forall i :: 0 <= i < |xs| ==> lo <= xs[i] <= hi
    ensures lo <= MeanOr(xs) <= hi
  {
    SumBounds(xs, lo, hi);
    var n := |xs| as real;
    assert MeanOr(xs) * n == Sum(xs);
  }

  /** No layers, or layers without any sampled value, give 0.5; otherwise
      I is the mean of the sampled values, so it lies between any bounds
      on them and equals their common value when all layers agree. */
  lemma LayersISpec(layers: seq<string>, sample: string -> Option<real>, lo: real, hi: real)
    ensures (forall l :: l in layers ==> sample(l).None?) ==> LayersI(layers, sample) == DefaultI
    ensures (exists l :: l in layers && sample(l).Some?) &&
            (forall l :: l in layers && sample(l).Some? ==> lo <= sample(l).value <= hi) ==>
              lo <= LayersI(layers, sample) <= hi
  {
    var xs := Sampled(layers, sample);
    SampledSpec(layers, sample);
    if (exists l :: l in layers && sample(l).Some?) &&
       (forall l :: l in layers && sample(l).Some? ==> lo <= sample(l).value <= hi) {
      forall i | 0 <= i < |xs| ensures lo <= xs[i] <= hi {
        assert xs[i] in xs;
      }
      var l :| l in layers && sample(l).Some?;
      assert sample(l).value in xs;
      MeanBounds(xs, lo, hi);
    }
  }

  /** A missing cell gives 0.5; a cell the range parser rejects fails;
      otherwise I is that of the parsed layers. */
  lemma IValueSpec(cell: Option<string>, sample: string -> Option<real>)
    ensures cell.None? ==> IValue(cell, sample) == Ok(DefaultI)
    ensures Layers.ParseLayerRange(cell).Err? <==> IValue(cell, sample).Err?
    ensures IValue(cell, sample).Ok? ==>
      IValue(cell, sample).value == LayersI(Layers.ParseLayerRange(cell).value, sample)
  {
  }

  // ---------------------------------------------------------------------
  // The J = A × C × I columns of run_step6
  // ---------------------------------------------------------------------

  /** A Step 5 combination: site, nearest GVFK and qualifying category. */
  datatype Qualified = Qualified(site: string, gvfk: string, category: string)

  /** The columns run_step6 adds; the concentration and the flux are NaN
      (None) for a category without a standard concentration. */
  datatype FluxRow = FluxRow(
    site: string, gvfk: string, category: string,
    modellag: Option<string>, area: real, i: real,
    concentration: Option<real>, flux: Option<Concentration.Flux>)

  /** µg/yr as the plain product, with the mg, g and kg columns. */
  function PlainFlux(area: real, concentration: real, i: real): Concentration.Flux {
    var ug := area * concentration * i;
    Concentration.Flux(ug, ug / 1000.0, ug / 1000000.0, ug / 1000000000.0)
  }

  function Lookup(m: map<string, real>, k: string): Option<real> {
    if k in m then Some(m[k]) else None
  }

  /** The row for a combination, given its layer cell, area and I. */
  function MakeRow(q: Qualified, modellag: Option<string>, area: real, i: real): FluxRow {
    var c := Lookup(LegacyConcentrations, q.category);
    FluxRow(q.site, q.gvfk, q.category, modellag, area, i, c,
            if c.Some? then Some(PlainFlux(area, c.value, i)) else None)
  }

  /** One row: the layer cell comes from the GVFK mapping (left join), the
      area from the Step 3 geometries or the default. */
  function FluxRowOf(q: Qualified, layerOf: map<string, string>, areaOf: map<string, real>,
                     sample: string -> Option<real>): Result<FluxRow>
  {
    var modellag := if q.gvfk in layerOf then Some(layerOf[q.gvfk]) else None;
    var area := if q.site in areaOf then areaOf[q.site] else DefaultArea;
    var i := IValue(modellag, sample);
    if i.Err? then Err(i.error) else Ok(MakeRow(q, modellag, area, i.value))
  }

  function RowStep(layerOf: map<string, string>, areaOf: map<string, real>,
                   sample: string -> Option<real>): Qualified -> Result<FluxRow>
  {
    q => FluxRowOf(q, layerOf, areaOf, sample)
  }

  /** All rows, or the first row's error (`.apply` stops at the first raise). */
  function FluxTable(qs: seq<Qualified>, layerOf: map<string, string>, areaOf: map<string, real>,
                     sample: string -> Option<real>): Result<seq<FluxRow>>
  {
    Collect(qs, RowStep(layerOf, areaOf, sample))
  }

  method RunStep6(qs: seq<Qualified>, layerOf: map<string, string>, areaOf: map<string, real>,
                  sample: string -> Option<real>) returns (r: Result<seq<FluxRow>>)
    ensures r == FluxTable(qs, layerOf, areaOf, sample)
  {
    var step := RowStep(layerOf, areaOf, sample);
    var rows: seq<FluxRow> := [];
    for k := 0 to |qs|
      invariant Collect(qs[..k], step) == Ok(rows)
    {
      CollectSnoc(qs, step, k);
      var q := qs[k];
      var modellag := if q.gvfk in layerOf then Some(layerOf[q.gvfk]) else None;
      var area := if q.site in areaOf then areaOf[q.site] else DefaultArea;
      var i := GetIValue(modellag, sample);
      assert step(q) == FluxRowOf(q, layerOf, areaOf, sample);
      if i.Err? {
        CollectErrSticks(qs, step, k + 1);
        return Err(i.error);
      }
      rows := rows + [MakeRow(q, modellag, area, i.value)];
    }
    assert qs[..|qs|] == qs;
    r := Ok(rows);
  }

  /** A successful table has one row per combination, in order, each that
      combination's row; it fails exactly when some row's layer cell does. */
  lemma FluxTableSpec(qs: seq<Qualified>, layerOf: map<string, string>,
                      areaOf: map<string, real>, sample: string -> Option<real>)
    ensures FluxTable(qs, layerOf, areaOf, sample).Ok? <==>
      forall k :: 0 <= k < |qs| ==> FluxRowOf(qs[k], layerOf, areaOf, sample).Ok?
    ensures FluxTable(qs, layerOf, areaOf, sample).Ok? ==>
      var rows := FluxTable(qs, layerOf, areaOf, sample).value;
      |rows| == |qs| && forall k :: 0 <= k < |qs| ==> Ok(rows[k]) == FluxRowOf(qs[k], layerOf, areaOf, sample)
  {
    CollectSpec(qs, RowStep(layerOf, areaOf, sample));
  }

  /** The flux is A·C·I µg/yr, with the mg, g and kg columns in step, and
      it is present exactly when the category has a standard concentration.
      It agrees with the unit-converting formula of the current Step 6. */
  lemma MakeRowSpec(q: Qualified, modellag: Option<string>, area: real, i: real)
    ensures var row := MakeRow(q, modellag, area, i);
      row.area == area && row.i == i &&
      (row.flux.Some? <==> q.category in LegacyConcentrations) &&
      (row.flux.Some? ==>
        var c := LegacyConcentrations[q.category];
        row.concentration == Some(c) &&
        row.flux.value.ug == area * c * i &&
        row.flux.value.kg * 1000000000.0 == row.flux.value.ug &&
        row.flux.value.g * 1000000.0 == row.flux.value.ug &&
        row.flux.value.mg * 1000.0 == row.flux.value.ug &&
        row.flux.value == Concentration.ComputeFlux(area, i, c))
  {
    if q.category in LegacyConcentrations {
      var c := LegacyConcentrations[q.category];
      Concentration.FluxIsProduct(area, i, c);
      assert area * i * c == area * c * i;
    }
  }

  /** The area is the geometry's when there is one and 1000 m² otherwise;
      a GVFK without a layer mapping gets I = 0.5; the row fails exactly
      when its layer cell does not parse. */
  lemma FluxRowOfSpec(q: Qualified, layerOf: map<string, string>, areaOf: map<string, real>,
                      sample: string -> Option<real>)
    ensures var modellag := if q.gvfk in layerOf then Some(layerOf[q.gvfk]) else None;
      (FluxRowOf(q, layerOf, areaOf, sample).Err? <==> Layers.ParseLayerRange(modellag).Err?) &&
      (FluxRowOf(q, layerOf, areaOf, sample).Ok? ==>
        var row := FluxRowOf(q, layerOf, areaOf, sample).value;
        row.modellag == modellag &&
        row.area == (if q.site in areaOf then areaOf[q.site] else DefaultArea) &&
        (q.gvfk !in layerOf ==> row.i == DefaultI))
  {
  }
}
