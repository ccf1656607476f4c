/** Step 6 input preparation: the Step 5 rows get their site area, their
    GVFK's model layers and region, their infiltration and the metadata of
    their nearest river segment. Rows without model layers, with negative
    infiltration or without infiltration are filtered out in that order,
    each removed row leaving one audit record that names its filter. */
module FluxInputs {
  import opened Wrappers
  import opened Text
  import Infiltration

  /** One Step 5 row: a site, one of its GVFKs, the qualifying category and
      substance, the nearest river segment (FID and ov_id as text), the
      distance to it, and the branch and activity cells. */
  datatype Step5Row = Step5Row(
    site: string,
    gvfk: string,
    category: string,
    substance: string,
    ovId: string,
    riverFid: int,
    distance: real,
    segmentCount: int,
    branche: Cell,
    aktivitet: Cell)

  /** One row of the GVFK layer table: `GVForekom`, `dkmlag`, `dknr`. */
  datatype LayerMappingRow = LayerMappingRow(gvforekom: Option<string>, dkmlag: Option<string>, dknr: Option<string>)

  /** River segment metadata by `River_FID`. */
  datatype RiverSegment = RiverSegment(ovId: string, name: Option<string>, length: real, gvfk: string)

  // ---------------------------------------------------------------------
  // Layer information per GVFK
  // ---------------------------------------------------------------------

  function MappingKeys(mapping: seq<LayerMappingRow>): set<string> {
    if mapping == [] then {}
    else (if mapping[0].gvforekom.Some? then {mapping[0].gvforekom.value} else {}) + MappingKeys(mapping[1..])
  }

  predicate Describes(m: LayerMappingRow, g: string) {
    m.gvforekom == Some(g)
  }

  /** The trimmed non-blank `dkmlag` values of the GVFK's rows. */
  function DkmlagValues(mapping: seq<LayerMappingRow>, g: string): seq<string> {
    if mapping == [] then []
    else
      var m := mapping[0];
      (if Describes(m, g) && m.dkmlag.Some? && Strip(m.dkmlag.value) != [] then [Strip(m.dkmlag.value)] else []) +
      DkmlagValues(mapping[1..], g)
  }

  /** The first non-null `dknr` of the GVFK's rows. */
  function FirstRegion(mapping: seq<LayerMappingRow>, g: string): Option<string> {
    if mapping == [] then None
    else if Describes(mapping[0], g) && mapping[0].dknr.Some? then mapping[0].dknr
    else FirstRegion(mapping[1..], g)
  }

  datatype LayerInfo = LayerInfo(modellag: string, region: Option<string>)

  /** The collapsed layer row of a GVFK: its distinct trimmed layer values
      sorted and joined by '/', and its first region; `None` when the table
      has no row for the GVFK. */
  function LayerInfoOf(mapping: seq<LayerMappingRow>, g: string): Option<LayerInfo> {
    if g in MappingKeys(mapping) then Some(LayerInfo(Join(SortedUnique(DkmlagValues(mapping, g)), "/"), FirstRegion(mapping, g)))
    else None
  }

  lemma {:induction false} MappingKeysSpec(mapping: seq<LayerMappingRow>, g: string)
    ensures g in MappingKeys(mapping) <==> exists i :: 0 <= i < |mapping| && Describes(mapping[i], g)
  {
    if mapping != [] {
      MappingKeysSpec(mapping[1..], g);
      assert forall i :: 1 <= i < |mapping| ==> mapping[i] == mapping[1..][i - 1];
      if g in MappingKeys(mapping[1..]) {
        var i :| 0 <= i < |mapping[1..]| && Describes(mapping[1..][i], g);
        assert Describes(mapping[i + 1], g);
      }
    }
  }

  lemma {:induction false} DkmlagValuesSpec(mapping: seq<LayerMappingRow>, g: string)
    ensures DkmlagValues(mapping, g) == [] <==>
      forall i :: 0 <= i < |mapping| && Describes(mapping[i], g) && mapping[i].dkmlag.Some? ==> Strip(mapping[i].dkmlag.value) == []
    ensures forall v :: v in DkmlagValues(mapping, g) ==> v != []
  {
    if mapping != [] {
      DkmlagValuesSpec(mapping[1..], g);
      assert forall i :: 1 <= i < |mapping| ==> mapping[i] == mapping[1..][i - 1];
    }
  }

  lemma {:induction false} FirstRegionSpec(mapping: seq<LayerMappingRow>, g: string)
    ensures FirstRegion(mapping, g).None? <==> forall i :: 0 <= i < |mapping| && Describes(mapping[i], g) ==> mapping[i].dknr.None?
    ensures FirstRegion(mapping, g).Some? ==> exists i :: 0 <= i < |mapping| && Describes(mapping[i], g) && mapping[i].dknr == FirstRegion(mapping, g)
  {
    if mapping != [] {
      FirstRegionSpec(mapping[1..], g);
      assert forall i :: 1 <= i < |mapping| ==> mapping[i] == mapping[1..][i - 1];
      if !(Describes(mapping[0], g) && mapping[0].dknr.Some?) && FirstRegion(mapping, g).Some? {
        var i :| 0 <= i < |mapping[1..]| && Describes(mapping[1..][i], g) && mapping[1..][i].dknr == FirstRegion(mapping, g);
        assert Describes(mapping[i + 1], g);
      }
    }
  }

  lemma {:induction false} JoinEmpty(parts: seq<string>, sep: string)
    requires forall p :: p in parts ==> p != []
    ensures Join(parts, sep) == [] <==> parts == []
  {
    if |parts| > 1 {
      assert parts[0] in parts;
    } else if |parts| == 1 {
      assert parts[0] in parts;
    }
  }

  /** A GVFK has layer information iff the table has a row for it; its
      layer text is empty exactly when none of those rows has a non-blank
      layer value (such rows pass the missing-modellag filter and end
      without infiltration); its region is null only when no row has one. */
  lemma LayerInfoSpec(mapping: seq<LayerMappingRow>, g: string)
    ensures LayerInfoOf(mapping, g).None? <==> forall i :: 0 <= i < |mapping| ==> !Describes(mapping[i], g)
    ensures LayerInfoOf(mapping, g).Some? ==>
      (LayerInfoOf(mapping, g).value.modellag == [] <==>
        forall i :: 0 <= i < |mapping| && Describes(mapping[i], g) && mapping[i].dkmlag.Some? ==> Strip(mapping[i].dkmlag.value) == [])
    ensures LayerInfoOf(mapping, g).Some? ==>
      (LayerInfoOf(mapping, g).value.region.None? <==> forall i :: 0 <= i < |mapping| && Describes(mapping[i], g) ==> mapping[i].dknr.None?)
  {
    MappingKeysSpec(mapping, g);
    DkmlagValuesSpec(mapping, g);
    FirstRegionSpec(mapping, g);
    var vals := DkmlagValues(mapping, g);
    SortedUniqueSpec(vals);
    JoinEmpty(SortedUnique(vals), "/");
    if vals != [] {
      assert vals[0] in SortedUnique(vals);
    }
  }

  // ---------------------------------------------------------------------
  // Attaching areas and layers; filter 1
  // ---------------------------------------------------------------------

  /** A Step 5 row with its site area, its `DK-modellag` (`None` when the
      GVFK is not in the layer table) and its model region. */
  datatype Attached = Attached(row: Step5Row, area: real, modellag: Option<string>, region: string)

  const DefaultRegion: string := "dk16"

  predicate AreasKnown(rows: seq<Step5Row>, areas: map<string, real>) {
    forall i :: 0 <= i < |rows| ==> rows[i].site in areas
  }

  function AttachRow(row: Step5Row, areas: map<string, real>, mapping: seq<LayerMappingRow>): (a: Attached)
    requires row.site in areas
  {
    match LayerInfoOf(mapping, row.gvfk)
    case None => Attached(row, areas[row.site], None, DefaultRegion)
    case Some(info) => Attached(row, areas[row.site], Some(info.modellag), info.region.GetOr(DefaultRegion))
  }

  function AttachAll(rows: seq<Step5Row>, areas: map<string, real>, mapping: seq<LayerMappingRow>): (r: seq<Attached>)
    requires AreasKnown(rows, areas)
    ensures |r| == |rows|
    ensures forall i :: 0 <= i < |rows| ==> r[i] == AttachRow(rows[i], areas, mapping)
  {
    if rows == [] then []
    else [AttachRow(rows[0], areas, mapping)] + AttachAll(rows[1..], areas, mapping)
  }

  /** The three filters, in the order they run. */
  datatype Stage = MissingModellag | NegativeInfiltration | MissingInfiltration

  /** The `Filter_Stage` text of each filter. */
  function StageName(s: Stage): string {
    match s
    case MissingModellag => "Filter_1_Missing_Modellag"
    case NegativeInfiltration => "Filter_2_Negative_Infiltration"
    case MissingInfiltration => "Filter_3_Missing_Infiltration"
  }

  /** One audit record: which row was removed and by which filter. */
  datatype AuditRecord = AuditRecord(site: string, gvfk: string, category: string, ovId: string, distance: real, stage: Stage)

  function AuditOf(row: Step5Row, stage: Stage): AuditRecord {
    AuditRecord(row.site, row.gvfk, row.category, row.ovId, row.distance, stage)
  }

  function ModellagKept(xs: seq<Attached>): seq<Attached> {
    if xs == [] then []
    else ModellagKept(xs[..|xs| - 1]) + (if xs[|xs| - 1].modellag.Some? then [xs[|xs| - 1]] else [])
  }

  function ModellagAudit(xs: seq<Attached>): seq<AuditRecord> {
    if xs == [] then []
    else ModellagAudit(xs[..|xs| - 1]) + (if xs[|xs| - 1].modellag.None? then [AuditOf(xs[|xs| - 1].row, MissingModellag)] else [])
  }

  /** Filter 1 splits the rows: the kept ones are exactly those with a
      modellag, and every other row leaves one audit record of stage 1. */
  lemma {:induction false} ModellagSplit(xs: seq<Attached>)
    ensures |ModellagKept(xs)| + |ModellagAudit(xs)| == |xs|
    ensures forall a :: a in ModellagKept(xs) <==> a in xs && a.modellag.Some?
    ensures forall k :: 0 <= k < |ModellagAudit(xs)| ==> ModellagAudit(xs)[k].stage == MissingModellag
  {
    if xs != [] {
      var init := xs[..|xs| - 1];
      ModellagSplit(init);
      assert xs == init + [xs[|xs| - 1]];
    }
  }

  // ---------------------------------------------------------------------
  // Infiltration; filters 2 and 3
  // ---------------------------------------------------------------------

  function InfiltrationInputs(xs: seq<Attached>): (r: seq<Infiltration.InfiltrationRow>)
    ensures |r| == |xs|
    ensures forall i :: 0 <= i < |xs| ==> r[i] == Infiltration.InfiltrationRow(xs[i].row.site, xs[i].modellag, Some(xs[i].region))
  {
    if xs == [] then []
    else [Infiltration.InfiltrationRow(xs[0].row.site, xs[0].modellag, Some(xs[0].region))] + InfiltrationInputs(xs[1..])
  }

  /** A row after Filter 1 with its infiltration record. */
  datatype Measured = Measured(a: Attached, infiltration: Infiltration.RowInfiltration)

  function Measure(xs: seq<Attached>, records: seq<Infiltration.RowInfiltration>): (r: seq<Measured>)
    requires |xs| == |records|
    ensures |r| == |xs|
    ensures forall i :: 0 <= i < |xs| ==> r[i] == Measured(xs[i], records[i])
  {
    if xs == [] then [] else [Measured(xs[0], records[0])] + Measure(xs[1..], records[1..])
  }

  predicate Negative(m: Measured) {
    m.infiltration.combined.Some? && m.infiltration.combined.value < 0.0
  }

  predicate Missing(m: Measured) {
    m.infiltration.combined.None?
  }

  function NegativeKept(ms: seq<Measured>): seq<Measured> {
    if ms == [] then []
    else NegativeKept(ms[..|ms| - 1]) + (if !Negative(ms[|ms| - 1]) then [ms[|ms| - 1]] else [])
  }

  function NegativeRemoved(ms: seq<Measured>): seq<Measured> {
    if ms == [] then []
    else NegativeRemoved(ms[..|ms| - 1]) + (if Negative(ms[|ms| - 1]) then [ms[|ms| - 1]] else [])
  }

  function MissingKept(ms: seq<Measured>): seq<Measured> {
    if ms == [] then []
    else MissingKept(ms[..|ms| - 1]) + (if !Missing(ms[|ms| - 1]) then [ms[|ms| - 1]] else [])
  }

  function MissingRemoved(ms: seq<Measured>): seq<Measured> {
    if ms == [] then []
    else MissingRemoved(ms[..|ms| - 1]) + (if Missing(ms[|ms| - 1]) then [ms[|ms| - 1]] else [])
  }

  function Audits(ms: seq<Measured>, stage: Stage): (r: seq<AuditRecord>)
    ensures |r| == |ms|
    ensures forall k :: 0 <= k < |r| ==> r[k] == AuditOf(ms[k].a.row, stage)
  {
    if ms == [] then [] else [AuditOf(ms[0].a.row, stage)] + Audits(ms[1..], stage)
  }

  /** Filter 2 splits the rows into those with negative infiltration and the rest. */
  lemma {:induction false} NegativeSplit(ms: seq<Measured>)
    ensures |NegativeKept(ms)| + |NegativeRemoved(ms)| == |ms|
    ensures forall m :: m in NegativeKept(ms) <==> m in ms && !Negative(m)
    ensures forall m :: m in NegativeRemoved(ms) <==> m in ms && Negative(m)
  {
    if ms != [] {
      var init := ms[..|ms| - 1];
      NegativeSplit(init);
      assert ms == init + [ms[|ms| - 1]];
    }
  }

  /** Filter 3 splits the rows into those without infiltration and the rest. */
  lemma {:induction false} MissingSplit(ms: seq<Measured>)
    ensures |MissingKept(ms)| + |MissingRemoved(ms)| == |ms|
    ensures forall m :: m in MissingKept(ms) <==> m in ms && !Missing(m)
    ensures forall m :: m in MissingRemoved(ms) <==> m in ms && Missing(m)
  {
    if ms != [] {
      var init := ms[..|ms| - 1];
      MissingSplit(init);
      assert ms == init + [ms[|ms| - 1]];
    }
  }

  /** When no row has negative infiltration, Filter 2 keeps them all. */
  lemma {:induction false} NegativeKeepsAll(ms: seq<Measured>)
    requires forall i :: 0 <= i < |ms| ==> !Negative(ms[i])
    ensures NegativeKept(ms) == ms && NegativeRemoved(ms) == []
  {
    if ms != [] {
      NegativeKeepsAll(ms[..|ms| - 1]);
      assert ms == ms[..|ms| - 1] + [ms[|ms| - 1]];
    }
  }

  // ---------------------------------------------------------------------
  // River metadata
  // ---------------------------------------------------------------------

  /** A row ready for the flux calculation. */
  datatype Enriched = Enriched(
    row: Step5Row,
    area: real,
    modellag: string,
    region: string,
    infiltration: real,
    details: Infiltration.RowInfiltration,
    segmentName: string,
    segmentLength: real,
    segmentGvfk: string)

  predicate HasMetadata(m: Measured, rivers: map<int, RiverSegment>) {
    m.a.row.riverFid in rivers && rivers[m.a.row.riverFid].name.Some?
  }

  predicate OvIdAgrees(m: Measured, rivers: map<int, RiverSegment>)
    requires HasMetadata(m, rivers)
  {
    rivers[m.a.row.riverFid].ovId == m.a.row.ovId
  }

  predicate Enrichable(m: Measured) {
    m.a.modellag.Some? && !Missing(m)
  }

  function Enrich(m: Measured, rivers: map<int, RiverSegment>): Enriched
    requires HasMetadata(m, rivers) && Enrichable(m)
  {
    var seg := rivers[m.a.row.riverFid];
    Enriched(m.a.row, m.a.area, m.a.modellag.value, m.a.region, m.infiltration.combined.value, m.infiltration,
             seg.name.value, seg.length, seg.gvfk)
  }

  function EnrichAll(ms: seq<Measured>, rivers: map<int, RiverSegment>): (r: seq<Enriched>)
    requires forall i :: 0 <= i < |ms| ==> HasMetadata(ms[i], rivers) && Enrichable(ms[i])
    ensures |r| == |ms|
    ensures forall i :: 0 <= i < |ms| ==> r[i] == Enrich(ms[i], rivers)
  {
    if ms == [] then [] else [Enrich(ms[0], rivers)] + EnrichAll(ms[1..], rivers)
  }

  /** The river merge: a row whose FID has no named segment raises, then a
      row whose ov_id differs from the segment's raises. */
  function AttachRivers(ms: seq<Measured>, rivers: map<int, RiverSegment>): (r: Result<seq<Enriched>>)
    requires forall i :: 0 <= i < |ms| ==> Enrichable(ms[i])
    ensures r.Ok? <==> forall i :: 0 <= i < |ms| ==> HasMetadata(ms[i], rivers) && OvIdAgrees(ms[i], rivers)
    ensures r.Ok? ==> |r.value| == |ms| && forall i :: 0 <= i < |ms| ==> r.value[i].row == ms[i].a.row
    ensures r.Err? ==> r.error.ValueError?
  {
    if !forall i :: 0 <= i < |ms| ==> HasMetadata(ms[i], rivers) then Err(ValueError("River metadata missing"))
    else if !forall i :: 0 <= i < |ms| ==> OvIdAgrees(ms[i], rivers) then Err(ValueError("Nearest_River_ov_id mismatch"))
    else Ok(EnrichAll(ms, rivers))
  }

  // ---------------------------------------------------------------------
  // The whole preparation
  // ---------------------------------------------------------------------

  datatype Prepared = Prepared(
    enriched: seq<Enriched>,
    negative: seq<Measured>,
    audit: seq<AuditRecord>,
    pixels: seq<Infiltration.PixelRecord>)

  lemma {:induction false} ModellagKeptHasModellag(xs: seq<Attached>)
    ensures forall i :: 0 <= i < |ModellagKept(xs)| ==> ModellagKept(xs)[i].modellag.Some?
  {
    ModellagSplit(xs);
    forall i | 0 <= i < |ModellagKept(xs)| ensures ModellagKept(xs)[i].modellag.Some? {
      assert ModellagKept(xs)[i] in ModellagKept(xs);
    }
  }

  /** The rows that reach the river merge: attached, with a modellag, with
      non-negative and present infiltration. */
  function Survivors(kept: seq<Attached>, records: seq<Infiltration.RowInfiltration>): (r: seq<Measured>)
    requires |kept| == |records| && forall i :: 0 <= i < |kept| ==> kept[i].modellag.Some?
    ensures forall i :: 0 <= i < |r| ==> Enrichable(r[i])
  {
    var measured := Measure(kept, records);
    NegativeSplit(measured);
    MissingSplit(NegativeKept(measured));
    var r := MissingKept(NegativeKept(measured));
    assert forall i :: 0 <= i < |r| ==> r[i] in r;
    r
  }

  /** The stages after the layer merge: infiltration records are given in
      the order of the rows Filter 1 kept. */
  function Finish(attached: seq<Attached>, records: seq<Infiltration.RowInfiltration>,
                  pixels: seq<Infiltration.PixelRecord>, rivers: map<int, RiverSegment>): Result<Prepared>
    requires |ModellagKept(attached)| == |records|
  {
    ModellagKeptHasModellag(attached);
    var kept := ModellagKept(attached);
    var measured := Measure(kept, records);
    match AttachRivers(Survivors(kept, records), rivers)
    case Err(e) => Err(e)
    case Ok(enriched) =>
      Ok(Prepared(enriched, NegativeRemoved(measured), AuditTrail(attached, measured), pixels))
  }

  /** The audit records of the three filters, in filter order. */
  function AuditTrail(attached: seq<Attached>, measured: seq<Measured>): seq<AuditRecord> {
    ModellagAudit(attached) + Audits(NegativeRemoved(measured), NegativeInfiltration) +
    Audits(MissingRemoved(NegativeKept(measured)), MissingInfiltration)
  }

  lemma AuditTrailStages(attached: seq<Attached>, measured: seq<Measured>)
    requires NegativeRemoved(measured) == []
    ensures forall k :: 0 <= k < |AuditTrail(attached, measured)| ==> AuditTrail(attached, measured)[k].stage != NegativeInfiltration
  {
    var a1 := ModellagAudit(attached);
    var a2 := Audits(NegativeRemoved(measured), NegativeInfiltration);
    var a3 := Audits(MissingRemoved(NegativeKept(measured)), MissingInfiltration);
    assert forall k :: 0 <= k < |a1| ==> a1[k].stage == MissingModellag by {
      ModellagSplit(attached);
    }
    assert forall k :: 0 <= k < |a3| ==> a3[k].stage == MissingInfiltration;
    var t := AuditTrail(attached, measured);
    assert t == a1 + a3 by {
      assert a2 == [];
    }
    forall k | 0 <= k < |t| ensures t[k].stage != NegativeInfiltration {
      if k < |a1| {
        assert t[k] == a1[k];
      } else {
        assert t[k] == a3[k - |a1|];
      }
    }
  }

  /** `_prepare_flux_inputs` as a whole. When Filter 1 removes every row,
      the infiltration summary divides by zero. */
  function Prepare(rows: seq<Step5Row>, areas: map<string, real>, mapping: seq<LayerMappingRow>,
                   existing: set<string>, read: (string, string) -> Option<Infiltration.RasterSample>,
                   rivers: map<int, RiverSegment>): Result<Prepared>
  {
    if !AreasKnown(rows, areas) then Err(ValueError("Missing geometries"))
    else
      var attached := AttachAll(rows, areas, mapping);
      if ModellagKept(attached) == [] then Err(Infiltration.NoSites)
      else
        var inputs := InfiltrationInputs(ModellagKept(attached));
        Infiltration.RowsRecordsSpec(inputs, existing, read);
        Finish(attached, Infiltration.RowsRecords(inputs, existing, read), Infiltration.RowsPixels(inputs, existing, read), rivers)
  }

  /** A site without an area raises before anything else is done. */
  lemma PrepareMissingArea(rows: seq<Step5Row>, areas: map<string, real>, mapping: seq<LayerMappingRow>,
                           existing: set<string>, read: (string, string) -> Option<Infiltration.RasterSample>,
                           rivers: map<int, RiverSegment>, i: nat)
    requires i < |rows| && rows[i].site !in areas
    ensures Prepare(rows, areas, mapping, existing, read, rivers) == Err(ValueError("Missing geometries"))
  {
  }

  predicate RecordsClean(records: seq<Infiltration.RowInfiltration>) {
    forall i :: 0 <= i < |records| ==> records[i].combined.Some? ==> 0.0 <= records[i].combined.value <= Infiltration.Cap
  }

  lemma MeasuredNotNegative(kept: seq<Attached>, records: seq<Infiltration.RowInfiltration>)
    requires |kept| == |records| && RecordsClean(records)
    ensures NegativeKept(Measure(kept, records)) == Measure(kept, records)
    ensures NegativeRemoved(Measure(kept, records)) == []
  {
    NegativeKeepsAll(Measure(kept, records));
  }

  /** The river merge is the only stage after the layer merge that fails,
      and it raises ValueError. */
  lemma FinishValueError(attached: seq<Attached>, records: seq<Infiltration.RowInfiltration>,
                         pixels: seq<Infiltration.PixelRecord>, rivers: map<int, RiverSegment>)
    requires |ModellagKept(attached)| == |records|
    ensures var r := Finish(attached, records, pixels, rivers);
      r.Err? ==> r.error.ValueError?
  {
    ModellagKeptHasModellag(attached);
    var kept := ModellagKept(attached);
    var r := AttachRivers(Survivors(kept, records), rivers);
  }

  lemma FinishCounts(attached: seq<Attached>, records: seq<Infiltration.RowInfiltration>,
                     pixels: seq<Infiltration.PixelRecord>, rivers: map<int, RiverSegment>)
    requires |ModellagKept(attached)| == |records| && RecordsClean(records)
    ensures var r := Finish(attached, records, pixels, rivers);
      r.Ok? ==> |r.value.enriched| + |r.value.audit| == |attached| && r.value.negative == []
  {
    var r := Finish(attached, records, pixels, rivers);
    if r.Ok? {
      ModellagKeptHasModellag(attached);
      var kept := ModellagKept(attached);
      var measured := Measure(kept, records);
      MeasuredNotNegative(kept, records);
      ModellagSplit(attached);
      MissingSplit(measured);
    }
  }

  lemma FinishStages(attached: seq<Attached>, records: seq<Infiltration.RowInfiltration>,
                     pixels: seq<Infiltration.PixelRecord>, rivers: map<int, RiverSegment>)
    requires |ModellagKept(attached)| == |records| && RecordsClean(records)
    ensures var r := Finish(attached, records, pixels, rivers);
      r.Ok? ==> forall k :: 0 <= k < |r.value.audit| ==> r.value.audit[k].stage != NegativeInfiltration
  {
    ModellagKeptHasModellag(attached);
    var kept := ModellagKept(attached);
    MeasuredNotNegative(kept, records);
    AuditTrailStages(attached, Measure(kept, records));
  }

  predicate MeasuredClean(ms: seq<Measured>)
    requires forall i :: 0 <= i < |ms| ==> Enrichable(ms[i])
  {
    forall i :: 0 <= i < |ms| ==> Enrichable(ms[i]) && 0.0 <= ms[i].infiltration.combined.value <= Infiltration.Cap
  }

  lemma SurvivorsClean(kept: seq<Attached>, records: seq<Infiltration.RowInfiltration>)
    requires |kept| == |records| && forall i :: 0 <= i < |kept| ==> kept[i].modellag.Some?
    requires RecordsClean(records)
    ensures MeasuredClean(Survivors(kept, records))
  {
    var measured := Measure(kept, records);
    var survivors := Survivors(kept, records);
    NegativeSplit(measured);
    MissingSplit(NegativeKept(measured));
    forall k | 0 <= k < |survivors| ensures 0.0 <= survivors[k].infiltration.combined.value <= Infiltration.Cap {
      assert survivors[k] in survivors;
      assert survivors[k] in measured;
    }
  }

  lemma AttachRiversBounds(ms: seq<Measured>, rivers: map<int, RiverSegment>)
    requires forall i :: 0 <= i < |ms| ==> Enrichable(ms[i])
    requires MeasuredClean(ms)
    ensures var r := AttachRivers(ms, rivers);
      r.Ok? ==> forall k :: 0 <= k < |r.value| ==> 0.0 <= r.value[k].infiltration <= Infiltration.Cap
  {
  }

  lemma FinishBounds(attached: seq<Attached>, records: seq<Infiltration.RowInfiltration>,
                     pixels: seq<Infiltration.PixelRecord>, rivers: map<int, RiverSegment>)
    requires |ModellagKept(attached)| == |records| && RecordsClean(records)
    ensures var r := Finish(attached, records, pixels, rivers);
      r.Ok? ==> forall k :: 0 <= k < |r.value.enriched| ==> 0.0 <= r.value.enriched[k].infiltration <= Infiltration.Cap
  {
    ModellagKeptHasModellag(attached);
    var kept := ModellagKept(attached);
    SurvivorsClean(kept, records);
    AttachRiversBounds(Survivors(kept, records), rivers);
  }

  /** Every input row either reaches the output or leaves exactly one audit
      record; Filter 2 never removes a row (cleaned infiltration is never
      negative); every output row has infiltration in [0, cap]. The run
      fails with a division by zero exactly when every row lacks a
      modellag. */
  lemma PrepareAccounts(rows: seq<Step5Row>, areas: map<string, real>, mapping: seq<LayerMappingRow>,
                        existing: set<string>, read: (string, string) -> Option<Infiltration.RasterSample>,
                        rivers: map<int, RiverSegment>)
    ensures var r := Prepare(rows, areas, mapping, existing, read, rivers);
      r.Ok? ==>
        |r.value.enriched| + |r.value.audit| == |rows| &&
        r.value.negative == [] &&
        (forall k :: 0 <= k < |r.value.audit| ==> r.value.audit[k].stage != NegativeInfiltration) &&
        (forall k :: 0 <= k < |r.value.enriched| ==> 0.0 <= r.value.enriched[k].infiltration <= Infiltration.Cap)
    ensures var r := Prepare(rows, areas, mapping, existing, read, rivers);
      (r.Err? && r.error.ZeroDivisionError?) <==>
        AreasKnown(rows, areas) && ModellagKept(AttachAll(rows, areas, mapping)) == []
  {
    if AreasKnown(rows, areas) && ModellagKept(AttachAll(rows, areas, mapping)) != [] {
      var attached := AttachAll(rows, areas, mapping);
      var inputs := InfiltrationInputs(ModellagKept(attached));
      Infiltration.RowsRecordsSpec(inputs, existing, read);
      var records := Infiltration.RowsRecords(inputs, existing, read);
      var pixels := Infiltration.RowsPixels(inputs, existing, read);
      FinishCounts(attached, records, pixels, rivers);
      FinishStages(attached, records, pixels, rivers);
      FinishBounds(attached, records, pixels, rivers);
      FinishValueError(attached, records, pixels, rivers);
    }
  }

  // ---------------------------------------------------------------------
  // The imperative cascade
  // ---------------------------------------------------------------------

  lemma AuditsSnoc(ms: seq<Measured>, m: Measured, stage: Stage)
    ensures Audits(ms + [m], stage) == Audits(ms, stage) + [AuditOf(m.a.row, stage)]
  {
  }

  /** Filter 1: drop the rows without modellag, auditing each. */
  method FilterMissingModellag(xs: seq<Attached>) returns (kept: seq<Attached>, audit: seq<AuditRecord>)
    ensures kept == ModellagKept(xs) && audit == ModellagAudit(xs)
  {
    kept, audit := [], [];
    var i := 0;
    while i < |xs|
      invariant 0 <= i <= |xs|
      invariant kept == ModellagKept(xs[..i]) && audit == ModellagAudit(xs[..i])
    {
      assert xs[..i + 1][..i] == xs[..i];
      if xs[i].modellag.None? {
        audit := audit + [AuditOf(xs[i].row, MissingModellag)];
      } else {
        kept := kept + [xs[i]];
      }
      i := i + 1;
    }
    assert xs[..i] == xs;
  }

  /** Filter 2: drop the rows with negative infiltration, auditing each. */
  method FilterNegative(ms: seq<Measured>) returns (kept: seq<Measured>, removed: seq<Measured>, audit: seq<AuditRecord>)
    ensures kept == NegativeKept(ms) && removed == NegativeRemoved(ms)
    ensures audit == Audits(removed, NegativeInfiltration)
  {
    kept, removed, audit := [], [], [];
    var i := 0;
    while i < |ms|
      invariant 0 <= i <= |ms|
      invariant kept == NegativeKept(ms[..i]) && removed == NegativeRemoved(ms[..i])
      invariant audit == Audits(removed, NegativeInfiltration)
    {
      assert ms[..i + 1][..i] == ms[..i];
      if Negative(ms[i]) {
        AuditsSnoc(removed, ms[i], NegativeInfiltration);
        audit := audit + [AuditOf(ms[i].a.row, NegativeInfiltration)];
        removed := removed + [ms[i]];
      } else {
        kept := kept + [ms[i]];
      }
      i := i + 1;
    }
    assert ms[..i] == ms;
  }

  /** Filter 3: drop the rows without infiltration, auditing each. */
  method FilterMissing(ms: seq<Measured>) returns (kept: seq<Measured>, removed: seq<Measured>, audit: seq<AuditRecord>)
    ensures kept == MissingKept(ms) && removed == MissingRemoved(ms)
    ensures audit == Audits(removed, MissingInfiltration)
  {
    kept, removed, audit := [], [], [];
    var i := 0;
    while i < |ms|
      invariant 0 <= i <= |ms|
      invariant kept == MissingKept(ms[..i]) && removed == MissingRemoved(ms[..i])
      invariant audit == Audits(removed, MissingInfiltration)
    {
      assert ms[..i + 1][..i] == ms[..i];
      if Missing(ms[i]) {
        AuditsSnoc(removed, ms[i], MissingInfiltration);
        audit := audit + [AuditOf(ms[i].a.row, MissingInfiltration)];
        removed := removed + [ms[i]];
      } else {
        kept := kept + [ms[i]];
      }
      i := i + 1;
    }
    assert ms[..i] == ms;
  }

  /** The river merge and its two checks. */
  method AttachRiverMetadata(ms: seq<Measured>, rivers: map<int, RiverSegment>) returns (r: Result<seq<Enriched>>)
    requires forall i :: 0 <= i < |ms| ==> Enrichable(ms[i])
    ensures r == AttachRivers(ms, rivers)
  {
    var i := 0;
    while i < |ms|
      invariant 0 <= i <= |ms|
      invariant forall k :: 0 <= k < i ==> HasMetadata(ms[k], rivers)
    {
      if !HasMetadata(ms[i], rivers) {
        return Err(ValueError("River metadata missing"));
      }
      i := i + 1;
    }
    i := 0;
    while i < |ms|
      invariant 0 <= i <= |ms|
      invariant forall k :: 0 <= k < i ==> OvIdAgrees(ms[k], rivers)
    {
      if !OvIdAgrees(ms[i], rivers) {
        return Err(ValueError("Nearest_River_ov_id mismatch"));
      }
      i := i + 1;
    }
    var enriched: seq<Enriched> := [];
    i := 0;
    while i < |ms|
      invariant 0 <= i <= |ms|
      invariant enriched == EnrichAll(ms[..i], rivers)
    {
      EnrichAllSnoc(ms[..i], ms[i], rivers);
      assert ms[..i + 1] == ms[..i] + [ms[i]];
      enriched := enriched + [Enrich(ms[i], rivers)];
      i := i + 1;
    }
    assert ms[..i] == ms;
    r := Ok(enriched);
  }

  lemma {:induction false} EnrichAllSnoc(ms: seq<Measured>, m: Measured, rivers: map<int, RiverSegment>)
    requires forall i :: 0 <= i < |ms| ==> HasMetadata(ms[i], rivers) && Enrichable(ms[i])
    requires HasMetadata(m, rivers) && Enrichable(m)
    ensures EnrichAll(ms + [m], rivers) == EnrichAll(ms, rivers) + [Enrich(m, rivers)]
  {
    var lhs := EnrichAll(ms + [m], rivers);
    var rhs := EnrichAll(ms, rivers) + [Enrich(m, rivers)];
    assert |lhs| == |rhs|;
    forall k | 0 <= k < |lhs| ensures lhs[k] == rhs[k] {
      assert (ms + [m])[k] == if k < |ms| then ms[k] else m;
    }
  }

  /** `_prepare_flux_inputs`: check the areas, attach the layers, run the
      filters around the infiltration calculation, attach the river
      metadata. */
  method PrepareFluxInputs(rows: seq<Step5Row>, areas: map<string, real>, mapping: seq<LayerMappingRow>,
                           existing: set<string>, read: (string, string) -> Option<Infiltration.RasterSample>,
                           rivers: map<int, RiverSegment>)
    returns (r: Result<Prepared>)
    ensures r == Prepare(rows, areas, mapping, existing, read, rivers)
  {
    var i := 0;
    while i < |rows|
      invariant 0 <= i <= |rows|
      invariant forall k :: 0 <= k < i ==> rows[k].site in areas
    {
      if rows[i].site !in areas {
        return Err(ValueError("Missing geometries"));
      }
      i := i + 1;
    }
    var attached := AttachAll(rows, areas, mapping);
    var kept, audit := FilterMissingModellag(attached);
    var inputs := InfiltrationInputs(kept);
    var calculated := Infiltration.CalculateInfiltration(inputs, existing, read);
    if calculated.Err? {
      return Err(calculated.error);
    }
    var records, pixels := calculated.value.records, calculated.value.pixels;
    ModellagKeptHasModellag(attached);
    var measured := Measure(kept, records);
    var kept2, negative, audit2 := FilterNegative(measured);
    var kept3, missing, audit3 := FilterMissing(kept2);
    audit := audit + audit2 + audit3;
    var survivors := Survivors(kept, records);
    assert kept3 == survivors;
    var enriched := AttachRiverMetadata(kept3, rivers);
    match enriched
    case Err(e) => r := Err(e);
    case Ok(es) => r := Ok(Prepared(es, negative, audit, pixels));
  }
}
