/** The table loaders of `data_loaders.py` and the layer-mapping read of
    Step 5c: what each checks before it hands a table on, and the reshape
    of the Q-point discharges into one flow per (ov_id, scenario).

    Reading a file is an input: `exists` says whether the file is there,
    and a `read` function gives the parsed table or the decoding error for
    an encoding. */
module Loaders {
  import opened Wrappers
  import opened Text
  import opened Grouping
  import Config
  import Mixing

  /** A parsed table: its header and its rows (a row maps a column to its
      cell; a column the row lacks reads as absent). */
  datatype Table = Table(columns: seq<string>, rows: seq<map<string, Cell>>)

  function CellOf(row: map<string, Cell>, c: string): Cell {
    if c in row then row[c] else Absent
  }

  /** `DataFrame.empty`: no rows or no columns. */
  predicate Empty(t: Table) {
    t.rows == [] || t.columns == []
  }

  /** `[col for col in required if col not in columns]`. */
  function MissingColumns(required: seq<string>, columns: seq<string>): (missing: seq<string>)
    ensures forall c :: c in missing <==> c in required && c !in columns
    ensures |missing| <= |required|
  {
    if required == [] then []
    else (if required[0] !in columns then [required[0]] else []) + MissingColumns(required[1..], columns)
  }

  // ---------------------------------------------------------------------
  // load_step5_results
  // ---------------------------------------------------------------------

  const Step5Required: seq<string> := ["Lokalitet_ID", "GVFK", "Qualifying_Category", "Qualifying_Substance",
    "Distance_to_River_m", "Nearest_River_FID", "Nearest_River_ov_id", "River_Segment_Count"]

  predicate AllHaveFid(t: Table) {
    forall i :: 0 <= i < |t.rows| ==> CellOf(t.rows[i], "Nearest_River_FID").Str?
  }

  function LoadStep5Results(t: Table): Result<Table> {
    if Empty(t) then Err(ValueError("Step 5 output is empty"))
    else if MissingColumns(Step5Required, t.columns) != [] then Err(ValueError(Join(MissingColumns(Step5Required, t.columns), ", ")))
    else if !AllHaveFid(t) then Err(ValueError("Nearest_River_FID"))
    else Ok(t)
  }

  /** The Step 5 table is accepted unchanged exactly when it is non-empty,
      has every required column and a river FID in every row. */
  lemma LoadStep5ResultsSpec(t: Table)
    ensures LoadStep5Results(t).Ok? <==>
      !Empty(t) && (forall c :: c in Step5Required ==> c in t.columns) && AllHaveFid(t)
    ensures LoadStep5Results(t).Ok? ==> LoadStep5Results(t).value == t
    ensures LoadStep5Results(t).Err? ==> LoadStep5Results(t).error.ValueError?
  {
    if !Empty(t) && MissingColumns(Step5Required, t.columns) != [] {
      var c := MissingColumns(Step5Required, t.columns)[0];
      assert c in MissingColumns(Step5Required, t.columns);
    }
    if !Empty(t) && !(forall c :: c in Step5Required ==> c in t.columns) {
      var c :| c in Step5Required && c !in t.columns;
      assert c in MissingColumns(Step5Required, t.columns);
    }
  }

  // ---------------------------------------------------------------------
  // Encodings
  // ---------------------------------------------------------------------

  const Encodings: seq<string> := ["utf-8", "windows-1252", "latin1", "iso-8859-1"]

  /** The result of the first encoding that does not fail to decode: a
      decoding failure moves on to the next encoding; any other outcome
      ends the search. None when every encoding fails to decode. */
  function FirstDecoded(encs: seq<string>, read: string -> Result<Table>): Option<Result<Table>> {
    if encs == [] then None
    else if read(encs[0]).Err? && read(encs[0]).error.UnicodeDecodeError? then FirstDecoded(encs[1..], read)
    else Some(read(encs[0]))
  }

  predicate DecodeFails(r: Result<Table>) {
    r.Err? && r.error.UnicodeDecodeError?
  }

  lemma {:induction false} FirstDecodedSpec(encs: seq<string>, read: string -> Result<Table>)
    ensures FirstDecoded(encs, read).None? <==> forall i :: 0 <= i < |encs| ==> DecodeFails(read(encs[i]))
    ensures FirstDecoded(encs, read).Some? ==>
      exists i :: 0 <= i < |encs| && FirstDecoded(encs, read).value == read(encs[i]) && !DecodeFails(read(encs[i])) &&
        forall j :: 0 <= j < i ==> DecodeFails(read(encs[j]))
  {
    if encs != [] {
      FirstDecodedSpec(encs[1..], read);
      assert forall i :: 1 <= i < |encs| ==> encs[i] == encs[1..][i - 1];
      if DecodeFails(read(encs[0])) && FirstDecoded(encs, read).Some? {
        var i :| 0 <= i < |encs[1..]| && FirstDecoded(encs[1..], read).value == read(encs[1..][i]) &&
          !DecodeFails(read(encs[1..][i])) && forall j :: 0 <= j < i ==> DecodeFails(read(encs[1..][j]));
        assert forall j :: 0 <= j < i + 1 ==> DecodeFails(read(encs[j])) by {
          forall j | 0 <= j < i + 1 ensures DecodeFails(read(encs[j])) {
            if j > 0 { assert encs[j] == encs[1..][j - 1]; }
          }
        }
        assert encs[i + 1] == encs[1..][i];
      }
    }
  }

  /** The for/else loop of `load_gvfk_layer_mapping`: try the encodings in
      order and stop at the first that decodes; `none` when all fail. */
  method TryEncodings(encs: seq<string>, read: string -> Result<Table>) returns (found: Option<Result<Table>>)
    ensures found == FirstDecoded(encs, read)
  {
    var i := 0;
    while i < |encs|
      invariant 0 <= i <= |encs|
      invariant FirstDecoded(encs, read) == FirstDecoded(encs[i..], read)
    {
      assert encs[i..][1..] == encs[i + 1..];
      var r := read(encs[i]);
      if !DecodeFails(r) {
        return Some(r);
      }
      i := i + 1;
    }
    assert encs[i..] == [];
    return None;
  }

  const LayerGvfkColumn: string := "GVForekom"
  const LayerModelColumn: string := "dkmlag"

  /** `load_gvfk_layer_mapping`. */
  method LoadGvfkLayerMapping(present: bool, read: string -> Result<Table>) returns (r: Result<Table>)
    ensures !present ==> r.Err? && r.error.FileNotFoundError?
    ensures present && FirstDecoded(Encodings, read).None? ==> r.Err? && r.error.ValueError?
    ensures present && FirstDecoded(Encodings, read).Some? && FirstDecoded(Encodings, read).value.Err? ==>
      r == FirstDecoded(Encodings, read).value
    ensures r.Ok? <==> (present && FirstDecoded(Encodings, read).Some? && FirstDecoded(Encodings, read).value.Ok? &&
      LayerGvfkColumn in FirstDecoded(Encodings, read).value.value.columns &&
      LayerModelColumn in FirstDecoded(Encodings, read).value.value.columns)
    ensures r.Ok? ==> r == FirstDecoded(Encodings, read).value
  {
    if !present {
      return Err(FileNotFoundError("GVFK layer mapping"));
    }
    var found := TryEncodings(Encodings, read);
    if found.None? {
      return Err(ValueError("Could not decode the layer mapping with any common encoding"));
    }
    if found.value.Err? {
      return found.value;
    }
    var df := found.value.value;
    var missing := MissingColumns([LayerGvfkColumn, LayerModelColumn], df.columns);
    if missing != [] {
      assert missing[0] in missing;
      return Err(ValueError(Join(missing, ", ")));
    }
    return Ok(df);
  }

  /** The Step 5c loop: a decoding failure is re-raised on the last
      encoding only, so an undecodable file ends in that error. */
  method Step5cReadLayerMapping(present: bool, read: string -> Result<Table>) returns (r: Result<Table>)
    ensures !present ==> r.Err? && r.error.FileNotFoundError?
    ensures present && FirstDecoded(Encodings, read).Some? ==> r == FirstDecoded(Encodings, read).value
    ensures present && FirstDecoded(Encodings, read).None? ==> r == read("iso-8859-1") && DecodeFails(r)
  {
    if !present {
      return Err(FileNotFoundError("GVFK layer mapping"));
    }
    var i := 0;
    while i < |Encodings| - 1
      invariant 0 <= i <= |Encodings| - 1
      invariant FirstDecoded(Encodings, read) == FirstDecoded(Encodings[i..], read)
    {
      assert Encodings[i..][1..] == Encodings[i + 1..];
      var attempt := read(Encodings[i]);
      if !DecodeFails(attempt) {
        return attempt;
      }
      i := i + 1;
    }
    // The last encoding: its outcome is returned, or its error re-raised.
    assert Encodings[i..] == ["iso-8859-1"];
    return read(Encodings[i]);
  }

  // ---------------------------------------------------------------------
  // load_river_segments
  // ---------------------------------------------------------------------

  /** A river segment with its `River_FID`, the 0-based row position. */
  datatype RiverSegment = RiverSegment(fid: nat, row: map<string, Cell>)

  const RiverRequired: seq<string> := ["ov_id", "ov_navn", "Shape_Length", "GVForekom"]

  function Numbered(rows: seq<map<string, Cell>>, start: nat): (segs: seq<RiverSegment>)
    ensures |segs| == |rows|
    ensures forall i :: 0 <= i < |rows| ==> segs[i] == RiverSegment(start + i, rows[i])
  {
    if rows == [] then [] else [RiverSegment(start, rows[0])] + Numbered(rows[1..], start + 1)
  }

  function LoadRiverSegments(present: bool, t: Table): (r: Result<seq<RiverSegment>>)
    ensures !present ==> r.Err? && r.error.FileNotFoundError?
    ensures present && Empty(t) ==> r.Err? && r.error.ValueError?
  {
    if !present then Err(FileNotFoundError("river network"))
    else if Empty(t) then Err(ValueError("River segment file is empty"))
    else if MissingColumns(RiverRequired, ["River_FID"] + t.columns) != [] then
      Err(ValueError(Join(MissingColumns(RiverRequired, ["River_FID"] + t.columns), ", ")))
    else Ok(Numbered(t.rows, 0))
  }

  /** A loaded river table keeps every row, in order, and numbers the rows
      0, 1, 2, … as `River_FID`; it fails exactly when the file is missing
      or empty or lacks a required column. */
  lemma LoadRiverSegmentsSpec(present: bool, t: Table)
    ensures LoadRiverSegments(present, t).Ok? <==>
      present && !Empty(t) && forall c :: c in RiverRequired ==> c in t.columns
    ensures LoadRiverSegments(present, t).Ok? ==>
      var segs := LoadRiverSegments(present, t).value;
      |segs| == |t.rows| && forall i :: 0 <= i < |segs| ==> segs[i].fid == i && segs[i].row == t.rows[i]
  {
    var cols := ["River_FID"] + t.columns;
    forall c | c in RiverRequired ensures c in cols <==> c in t.columns {
    }
    if present && !Empty(t) && MissingColumns(RiverRequired, cols) != [] {
      assert MissingColumns(RiverRequired, cols)[0] in MissingColumns(RiverRequired, cols);
    }
    if present && !Empty(t) && !(forall c :: c in RiverRequired ==> c in t.columns) {
      var c :| c in RiverRequired && c !in t.columns;
      assert c in MissingColumns(RiverRequired, cols);
    }
  }

  // ---------------------------------------------------------------------
  // load_flow_scenarios
  // ---------------------------------------------------------------------

  /** A Q-point: its river ov_id and its discharge columns (a missing or
      NaN discharge is `None`). */
  datatype QPoint = QPoint(ovId: string, flows: map<string, Option<real>>)

  function FlowIn(p: QPoint, column: string): Option<real> {
    if column in p.flows then p.flows[column] else None
  }

  /** `melt`: for each flow column in turn, one row per Q-point, with the
      column renamed to its scenario. */
  function Melt(points: seq<QPoint>, cols: seq<(string, string)>): seq<Mixing.FlowRow> {
    if cols == [] then []
    else MeltColumn(points, cols[0]) + Melt(points, cols[1..])
  }

  function MeltColumn(points: seq<QPoint>, col: (string, string)): (rs: seq<Mixing.FlowRow>)
    ensures |rs| == |points|
    ensures forall i :: 0 <= i < |points| ==> rs[i] == Mixing.FlowRow(points[i].ovId, col.1, FlowIn(points[i], col.0))
  {
    if points == [] then [] else [Mixing.FlowRow(points[0].ovId, col.1, FlowIn(points[0], col.0))] + MeltColumn(points[1..], col)
  }

  function FlowKey(r: Mixing.FlowRow): (string, string) { (r.ovId, r.scenario) }
  function FlowValue(r: Mixing.FlowRow): Option<real> { r.flow }

  /** The largest discharge of one (ov_id, scenario) group. */
  function GroupMax(long: seq<Mixing.FlowRow>, k: (string, string)): Mixing.FlowRow {
    Mixing.FlowRow(k.0, k.1, OptMax(Column(Members(long, FlowKey, k), FlowValue)))
  }

  function GroupMaxes(long: seq<Mixing.FlowRow>, keys: seq<(string, string)>): (out: seq<Mixing.FlowRow>)
    ensures |out| == |keys| && forall i :: 0 <= i < |keys| ==> out[i] == GroupMax(long, keys[i])
  {
    if keys == [] then [] else [GroupMax(long, keys[0])] + GroupMaxes(long, keys[1..])
  }

  /** `load_flow_scenarios`. */
  function LoadFlowScenarios(present: bool, columns: seq<string>, points: seq<QPoint>,
                             cols: seq<(string, string)>): Result<seq<Mixing.FlowRow>>
  {
    if !present then Err(FileNotFoundError("flow data"))
    else
      var missing := MissingColumns(FlowColumnNames(cols), columns);
      if missing != [] then Err(ValueError(Join(missing, ", ")))
      else
        var long := Melt(points, cols);
        Ok(GroupMaxes(long, GroupKeys(long, FlowKey)))
  }

  function FlowColumnNames(cols: seq<(string, string)>): (names: seq<string>)
    ensures |names| == |cols| && forall i :: 0 <= i < |cols| ==> names[i] == cols[i].0
  {
    if cols == [] then [] else [cols[0].0] + FlowColumnNames(cols[1..])
  }

  /** The long table holds one row per Q-point and flow column, and no
      other. */
  lemma {:induction false} MeltSpec(points: seq<QPoint>, cols: seq<(string, string)>, r: Mixing.FlowRow)
    ensures r in Melt(points, cols) <==>
      exists i, j :: 0 <= i < |points| && 0 <= j < |cols| &&
        r == Mixing.FlowRow(points[i].ovId, cols[j].1, FlowIn(points[i], cols[j].0))
  {
    if cols != [] {
      MeltSpec(points, cols[1..], r);
      var head := MeltColumn(points, cols[0]);
      if r in head {
        var i :| 0 <= i < |head| && head[i] == r;
      }
      if exists i, j :: 0 <= i < |points| && 0 <= j < |cols| &&
           r == Mixing.FlowRow(points[i].ovId, cols[j].1, FlowIn(points[i], cols[j].0)) {
        var i, j :| 0 <= i < |points| && 0 <= j < |cols| &&
          r == Mixing.FlowRow(points[i].ovId, cols[j].1, FlowIn(points[i], cols[j].0));
        if j == 0 {
          assert head[i] == r;
        } else {
          assert cols[1..][j - 1] == cols[j];
        }
      }
      if r in Melt(points, cols[1..]) {
        var i, j :| 0 <= i < |points| && 0 <= j < |cols[1..]| &&
          r == Mixing.FlowRow(points[i].ovId, cols[1..][j].1, FlowIn(points[i], cols[1..][j].0));
        assert cols[1..][j] == cols[j + 1];
      }
    }
  }

  /** The reshaped table fails exactly when the file is missing or a flow
      column is; otherwise it holds each (ov_id, scenario) pair of the long
      table once, with the largest of its discharges. */
  lemma LoadFlowScenariosSpec(present: bool, columns: seq<string>, points: seq<QPoint>, cols: seq<(string, string)>)
    ensures LoadFlowScenarios(present, columns, points, cols).Ok? <==>
      present && forall j :: 0 <= j < |cols| ==> cols[j].0 in columns
    ensures LoadFlowScenarios(present, columns, points, cols).Ok? ==>
      var out := LoadFlowScenarios(present, columns, points, cols).value;
      var long := Melt(points, cols);
      Distinct(Column(out, FlowKey)) &&
      (forall k :: k in Column(out, FlowKey) <==> k in Column(long, FlowKey)) &&
      forall i :: 0 <= i < |out| ==> out[i] == GroupMax(long, FlowKey(out[i]))
  {
    var names := FlowColumnNames(cols);
    if present && MissingColumns(names, columns) != [] {
      var c := MissingColumns(names, columns)[0];
      assert c in MissingColumns(names, columns);
      var j :| 0 <= j < |names| && names[j] == c;
    }
    if present && !(forall j :: 0 <= j < |cols| ==> cols[j].0 in columns) {
      var j :| 0 <= j < |cols| && cols[j].0 !in columns;
      assert names[j] in MissingColumns(names, columns);
    }
    if LoadFlowScenarios(present, columns, points, cols).Ok? {
      var long := Melt(points, cols);
      var keys := GroupKeys(long, FlowKey);
      GroupKeysSpec(long, FlowKey);
      var out := GroupMaxes(long, keys);
      assert Column(out, FlowKey) == keys by {
        forall i | 0 <= i < |out| ensures Column(out, FlowKey)[i] == keys[i] {
        }
      }
    }
  }

  /** Each flow is undefined exactly when every discharge of its group is. */
  lemma GroupMaxDefined(long: seq<Mixing.FlowRow>, k: (string, string))
    ensures GroupMax(long, k).flow.None? <==> forall r :: r in long && FlowKey(r) == k ==> r.flow.None?
  {
    var ms := Members(long, FlowKey, k);
    MembersSpec(long, FlowKey, k);
    var vs := Column(ms, FlowValue);
    if !(forall r :: r in long && FlowKey(r) == k ==> r.flow.None?) {
      var r :| r in long && FlowKey(r) == k && r.flow.Some?;
      var i :| 0 <= i < |ms| && ms[i] == r;
      assert vs[i] == r.flow;
    }
    if !(forall i :: 0 <= i < |vs| ==> vs[i].None?) {
      var i :| 0 <= i < |vs| && vs[i].Some?;
      assert ms[i] in ms;
    }
  }

  /** A defined flow is one of its group's discharges and the largest. */
  lemma GroupMaxBounds(long: seq<Mixing.FlowRow>, k: (string, string))
    ensures var f := GroupMax(long, k).flow;
      (f.Some? ==> exists r :: r in long && FlowKey(r) == k && r.flow == f) &&
      (f.Some? ==> forall r :: r in long && FlowKey(r) == k && r.flow.Some? ==> r.flow.value <= f.value)
  {
    var ms := Members(long, FlowKey, k);
    MembersSpec(long, FlowKey, k);
    var vs := Column(ms, FlowValue);
    var f := GroupMax(long, k).flow;
    if f.Some? {
      var i :| 0 <= i < |vs| && vs[i] == f;
      assert ms[i] in ms;
      forall r | r in long && FlowKey(r) == k && r.flow.Some?
        ensures r.flow.value <= f.value
      {
        var j :| 0 <= j < |ms| && ms[j] == r;
        assert vs[j] == r.flow;
      }
    }
  }

  /** The configured flow columns are the five Q columns. */
  lemma ConfiguredFlowColumns()
    ensures FlowColumnNames(Config.FlowScenarioColumns) == ["Q95", "Q90", "Q50", "Q10", "Q05"]
  {
  }
}
