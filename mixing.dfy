/** Step 6 dilution (`_calculate_cmix`) and the MKK threshold step
    (`_apply_mkk_thresholds`).

    Every segment record is joined with the flow rows of its river ov_id
    (a left join: a record without flow rows keeps one row with no
    scenario). The discharge of a row is looked up by (river FID, scenario)
    in the nearest-segment table, then by (ov_id, scenario) in the flow
    table. The mixed concentration is the yearly flux per second divided by
    the discharge in litres per second, and is undefined without a positive
    discharge. It is then compared with the MKK threshold of the row's
    substance or, failing that, of its category. */
module Mixing {
  import opened Wrappers
  import opened Text
  import Config
  import Concentration
  import Segments

  type SegmentRecord = Segments.SegmentRecord

  /** One row of the flow table: a river ov_id under one flow scenario. */
  datatype FlowRow = FlowRow(ovId: string, scenario: string, flow: Option<real>)

  predicate Carries(f: FlowRow, key: (string, string)) {
    f.flow.Some? && (f.ovId, f.scenario) == key
  }

  /** `flow_by_ov`: the rows with a discharge, by (ov_id, scenario); a
      later row overwrites an earlier one with the same key. */
  function FlowByOv(flows: seq<FlowRow>): map<(string, string), real> {
    if flows == [] then map[]
    else
      var m := FlowByOv(flows[..|flows| - 1]);
      var f := flows[|flows| - 1];
      if f.flow.Some? then m[(f.ovId, f.scenario) := f.flow.value] else m
  }

  /** A key is present iff some row carries it, and its discharge is the
      one of the last such row. */
  lemma {:induction false} FlowByOvSpec(flows: seq<FlowRow>, key: (string, string))
    ensures key in FlowByOv(flows) <==> exists i :: 0 <= i < |flows| && Carries(flows[i], key)
    ensures key in FlowByOv(flows) ==>
      exists j :: 0 <= j < |flows| && Carries(flows[j], key) && FlowByOv(flows)[key] == flows[j].flow.value &&
        forall i :: j < i < |flows| ==> !Carries(flows[i], key)
  {
    if flows != [] {
      var init := flows[..|flows| - 1];
      var f := flows[|flows| - 1];
      FlowByOvSpec(init, key);
      assert forall i :: 0 <= i < |init| ==> init[i] == flows[i];
      if Carries(f, key) {
        assert FlowByOv(flows)[key] == f.flow.value;
      } else if key in FlowByOv(init) {
        var j :| 0 <= j < |init| && Carries(init[j], key) && FlowByOv(init)[key] == init[j].flow.value &&
          forall i :: j < i < |init| ==> !Carries(init[i], key);
        assert FlowByOv(flows)[key] == FlowByOv(init)[key];
        assert forall i :: j < i < |flows| ==> !Carries(flows[i], key) by {
          forall i | j < i < |flows| ensures !Carries(flows[i], key) {
            if i < |init| { assert flows[i] == init[i]; }
          }
        }
      } else {
        assert key !in FlowByOv(flows);
        forall i | 0 <= i < |flows| ensures !Carries(flows[i], key) {
          if i < |init| { assert flows[i] == init[i]; }
        }
      }
    }
  }

  /** `_flow_lookup`: the nearest-segment table by (FID, scenario) first,
      then the ov_id table; a row without a scenario finds nothing. */
  function FlowLookup(byFid: map<(int, string), real>, byOv: map<(string, string), real>,
                      seg: SegmentRecord, scenario: Option<string>): (q: Option<real>)
    ensures scenario.None? ==> q.None?
    ensures scenario.Some? && (seg.key.riverFid, scenario.value) in byFid ==>
      q == Some(byFid[(seg.key.riverFid, scenario.value)])
    ensures scenario.Some? && (seg.key.riverFid, scenario.value) !in byFid ==>
      (q.Some? <==> (seg.key.ovId, scenario.value) in byOv) &&
      (q.Some? ==> q.value == byOv[(seg.key.ovId, scenario.value)])
  {
    if scenario.None? then None
    else if (seg.key.riverFid, scenario.value) in byFid then Some(byFid[(seg.key.riverFid, scenario.value)])
    else if (seg.key.ovId, scenario.value) in byOv then Some(byOv[(seg.key.ovId, scenario.value)])
    else None
  }

  /** µg/yr to µg/s, divided by the discharge in L/s; undefined without a
      positive discharge. */
  function Cmix(totalUg: real, flow: Option<real>): Option<real> {
    if flow.Some? && flow.value > 0.0 then Some((totalUg / Config.SecondsPerYear) / (flow.value * 1000.0))
    else None
  }

  /** The mixed concentration is defined exactly for a positive discharge,
      and then multiplying back by the discharge in L/s and the seconds of
      a year returns the yearly flux. */
  lemma CmixInverse(totalUg: real, flow: Option<real>)
    ensures Cmix(totalUg, flow).Some? <==> flow.Some? && flow.value > 0.0
    ensures Cmix(totalUg, flow).Some? ==>
      Cmix(totalUg, flow).value * (flow.value * 1000.0) * Config.SecondsPerYear == totalUg
  {
    if flow.Some? && flow.value > 0.0 {
      var s := Config.SecondsPerYear;
      var l := flow.value * 1000.0;
      assert s > 0.0 && l > 0.0;
      assert (totalUg / s) / l * l == totalUg / s;
      assert (totalUg / s) * s == totalUg;
    }
  }

  /** For a fixed positive flux, more discharge means strictly less mixed
      concentration. */
  lemma CmixDecreasing(totalUg: real, q1: real, q2: real)
    requires totalUg > 0.0 && 0.0 < q1 < q2
    ensures Cmix(totalUg, Some(q2)).value < Cmix(totalUg, Some(q1)).value
  {
    var f := totalUg / Config.SecondsPerYear;
    assert f > 0.0;
    DivideMore(f, q1 * 1000.0, q2 * 1000.0);
  }

  lemma DivideMore(f: real, a: real, b: real)
    requires f > 0.0 && 0.0 < a < b
    ensures f / b < f / a
  {
    assert f / b * b == f && f / a * a == f;
    assert f / a * b > f / a * a;
  }

  /** One row of the merged table. */
  datatype CmixRow = CmixRow(seg: SegmentRecord, scenario: Option<string>, flow: Option<real>,
                             hasFlow: bool, fluxPerSecond: real, cmix: Option<real>)


  function CmixRowOf(byFid: map<(int, string), real>, byOv: map<(string, string), real>,
                     seg: SegmentRecord, scenario: Option<string>): CmixRow
  {
    var q := FlowLookup(byFid, byOv, seg, scenario);
    CmixRow(seg, scenario, q, q.Some? && q.value > 0.0, seg.totalUg / Config.SecondsPerYear, Cmix(seg.totalUg, q))
  }

  /** The scenarios of the flow rows with ov_id `ov`, in table order. */
  function ScenariosOn(flows: seq<FlowRow>, ov: string): seq<string> {
    if flows == [] then []
    else (if flows[0].ovId == ov then [flows[0].scenario] else []) + ScenariosOn(flows[1..], ov)
  }

  lemma {:induction false} ScenariosOnSpec(flows: seq<FlowRow>, ov: string)
    ensures forall s :: s in ScenariosOn(flows, ov) <==>
      exists i :: 0 <= i < |flows| && flows[i].ovId == ov && flows[i].scenario == s
  {
    if flows != [] {
      ScenariosOnSpec(flows[1..], ov);
      forall s
        ensures s in ScenariosOn(flows, ov) <==> exists i :: 0 <= i < |flows| && flows[i].ovId == ov && flows[i].scenario == s
      {
        if exists i :: 0 <= i < |flows| && flows[i].ovId == ov && flows[i].scenario == s {
          var i :| 0 <= i < |flows| && flows[i].ovId == ov && flows[i].scenario == s;
          if i > 0 { assert flows[1..][i - 1] == flows[i]; }
        }
        if s in ScenariosOn(flows[1..], ov) {
          var i :| 0 <= i < |flows[1..]| && flows[1..][i].ovId == ov && flows[1..][i].scenario == s;
          assert flows[i + 1] == flows[1..][i];
        }
      }
    }
  }

  function Somes(xs: seq<string>): (r: seq<Option<string>>)
    ensures |r| == |xs| && forall i :: 0 <= i < |xs| ==> r[i] == Some(xs[i])
  {
    if xs == [] then [] else [Some(xs[0])] + Somes(xs[1..])
  }

  /** The left join of one record: one scenario per flow row of its ov_id,
      or a single entry without scenario. */
  function JoinedScenarios(flows: seq<FlowRow>, seg: SegmentRecord): (ss: seq<Option<string>>)
    ensures ss != []
  {
    var on := ScenariosOn(flows, seg.key.ovId);
    if on == [] then [None] else Somes(on)
  }

  /** The join pairs a record with every flow row of its ov_id, and with
      no scenario exactly when there is no such row. */
  lemma JoinedScenariosSpec(flows: seq<FlowRow>, seg: SegmentRecord)
    ensures forall s :: Some(s) in JoinedScenarios(flows, seg) <==>
      exists i :: 0 <= i < |flows| && flows[i].ovId == seg.key.ovId && flows[i].scenario == s
    ensures None in JoinedScenarios(flows, seg) <==> forall i :: 0 <= i < |flows| ==> flows[i].ovId != seg.key.ovId
  {
    ScenariosOnSpec(flows, seg.key.ovId);
    var on := ScenariosOn(flows, seg.key.ovId);
    forall s ensures Some(s) in JoinedScenarios(flows, seg) <==> s in on {
      if on != [] && Some(s) in Somes(on) {
        var i :| 0 <= i < |on| && Somes(on)[i] == Some(s);
      }
      if s in on {
        var i :| 0 <= i < |on| && on[i] == s;
        assert Somes(on)[i] == Some(s);
      }
    }
    if on != [] {
      assert on[0] in on;
      assert None !in Somes(on);
    } else {
      forall i | 0 <= i < |flows| ensures flows[i].ovId != seg.key.ovId {
        assert flows[i].scenario !in on;
      }
    }
  }

  function RowsOf(byFid: map<(int, string), real>, byOv: map<(string, string), real>,
                  seg: SegmentRecord, ss: seq<Option<string>>): (rs: seq<CmixRow>)
    ensures |rs| == |ss| && forall i :: 0 <= i < |ss| ==> rs[i] == CmixRowOf(byFid, byOv, seg, ss[i])
  {
    if ss == [] then [] else [CmixRowOf(byFid, byOv, seg, ss[0])] + RowsOf(byFid, byOv, seg, ss[1..])
  }

  function MergedRows(flows: seq<FlowRow>, byFid: map<(int, string), real>, segs: seq<SegmentRecord>): seq<CmixRow> {
    if segs == [] then []
    else RowsOf(byFid, FlowByOv(flows), segs[0], JoinedScenarios(flows, segs[0])) + MergedRows(flows, byFid, segs[1..])
  }

  /** `_calculate_cmix`: empty when either table is empty. `byFid` is the
      nearest-segment discharge table, empty unless that mode is used. */
  function CalculateCmix(segs: seq<SegmentRecord>, flows: seq<FlowRow>, byFid: map<(int, string), real>): seq<CmixRow> {
    if segs == [] || flows == [] then [] else MergedRows(flows, byFid, segs)
  }

  /** Every merged row belongs to a record of the input, with one of the
      scenarios the join gives that record, and is that pair's row;
      conversely every record has a row for each of its joined scenarios. */
  lemma {:induction false} MergedRowsSpec(flows: seq<FlowRow>, byFid: map<(int, string), real>, segs: seq<SegmentRecord>)
    ensures forall r :: r in MergedRows(flows, byFid, segs) ==>
      r.seg in segs && r.scenario in JoinedScenarios(flows, r.seg) &&
      r == CmixRowOf(byFid, FlowByOv(flows), r.seg, r.scenario)
    ensures forall seg, s :: seg in segs && s in JoinedScenarios(flows, seg) ==>
      CmixRowOf(byFid, FlowByOv(flows), seg, s) in MergedRows(flows, byFid, segs)
    ensures |MergedRows(flows, byFid, segs)| >= |segs|
  {
    if segs != [] {
      MergedRowsSpec(flows, byFid, segs[1..]);
      var byOv := FlowByOv(flows);
      var ss := JoinedScenarios(flows, segs[0]);
      var head := RowsOf(byFid, byOv, segs[0], ss);
      var tail := MergedRows(flows, byFid, segs[1..]);
      assert MergedRows(flows, byFid, segs) == head + tail;
      forall r | r in head
        ensures r.seg in segs && r.scenario in JoinedScenarios(flows, r.seg) && r == CmixRowOf(byFid, byOv, r.seg, r.scenario)
      {
        var i :| 0 <= i < |head| && head[i] == r;
        assert ss[i] in ss;
      }
      forall seg, s | seg in segs && s in JoinedScenarios(flows, seg)
        ensures CmixRowOf(byFid, byOv, seg, s) in head + tail
      {
        if seg == segs[0] {
          var i :| 0 <= i < |ss| && ss[i] == s;
          assert head[i] == CmixRowOf(byFid, byOv, seg, s);
        } else {
          assert seg in segs[1..];
        }
      }
    }
  }

  /** A row has flow data exactly when its looked-up discharge is
      positive; then, and only then, its Cmix is defined, and it gives the
      segment's flux back. */
  lemma CmixRowOfSpec(byFid: map<(int, string), real>, byOv: map<(string, string), real>,
                      seg: SegmentRecord, scenario: Option<string>)
    ensures var r := CmixRowOf(byFid, byOv, seg, scenario);
      r.seg == seg && r.scenario == scenario &&
      r.flow == FlowLookup(byFid, byOv, seg, scenario) &&
      (r.hasFlow <==> r.flow.Some? && r.flow.value > 0.0) &&
      (r.cmix.Some? <==> r.hasFlow) &&
      (r.cmix.Some? ==> r.flow.Some? && r.cmix.value * (r.flow.value * 1000.0) * Config.SecondsPerYear == seg.totalUg)
  {
    CmixInverse(seg.totalUg, FlowLookup(byFid, byOv, seg, scenario));
  }

  /** The merged table is empty exactly when an input is, and each of its
      rows is the row of an input record and one of its joined scenarios. */
  lemma CalculateCmixSpec(segs: seq<SegmentRecord>, flows: seq<FlowRow>, byFid: map<(int, string), real>)
    ensures CalculateCmix(segs, flows, byFid) == [] <==> segs == [] || flows == []
    ensures forall r :: r in CalculateCmix(segs, flows, byFid) ==>
      r.seg in segs && r.scenario in JoinedScenarios(flows, r.seg) &&
      r == CmixRowOf(byFid, FlowByOv(flows), r.seg, r.scenario)
  {
    MergedRowsSpec(flows, byFid, segs);
  }

  // ---------------------------------------------------------------------
  // MKK thresholds
  // ---------------------------------------------------------------------

  const BranchActivityTag: string := "Branch/Activity:"

  /** `s.replace(tag, "").strip()` when `tag in s`. */
  function DropTag(s: string, tag: string): string
    requires |tag| > 0
  {
    if Contains(s, tag) then Strip(Config.ReplaceAll(s, tag, "")) else s
  }

  /** The substance the threshold lookup uses: the landfill tag removed,
      then the branch/activity tag. */
  function ThresholdSubstance(substance: string): string {
    DropTag(DropTag(substance, Concentration.LandfillOverrideTag), BranchActivityTag)
  }

  /** A tag at the front of an otherwise untagged text is cut off, with the
      surrounding spaces. */
  lemma DropLeadingTag(tag: string, x: string)
    requires |tag| > 0 && !Contains(x, tag)
    ensures DropTag(tag + x, tag) == Strip(x)
  {
    var s := tag + x;
    assert s[..|tag|] == tag;
    ContainsAt(s, tag, 0);
    assert IndexOf(s, tag) == Some(0);
    assert s[|tag|..] == x;
    IndexOfContains(x, tag);
    assert IndexOf(x, tag) == None;
    assert Split(s, tag) == [""] + [x];
    assert Join(["", x], "") == x;
  }

  /** `lookup_threshold` as written: the substance's entry when it is a
      modelstof with an entry (which may be `None`), else the category's
      entry, else none. */
  function ThresholdAsWritten(mkk: map<string, Option<real>>, modelstoffer: set<string>,
                              substance: string, category: string): (t: Option<real>)
    ensures var s := ThresholdSubstance(substance);
      (s in modelstoffer && s in mkk ==> t == mkk[s]) &&
      (!(s in modelstoffer && s in mkk) && category in mkk ==> t == mkk[category]) &&
      (!(s in modelstoffer && s in mkk) && category !in mkk ==> t.None?)
  {
    var s := ThresholdSubstance(substance);
    if s in modelstoffer && s in mkk then mkk[s]
    else if category in mkk then mkk[category]
    else None
  }

  /** The modelstof of a scenario label `<category>__via_<modelstof>`; any
      other substance is kept. */
  function ScenarioModelstof(category: string, substance: string): string {
    var p := category + "__via_";
    if StartsWith(substance, p) then substance[|p|..] else substance
  }

  lemma ScenarioModelstofOfLabel(category: string, m: string)
    ensures ScenarioModelstof(category, Config.ScenarioLabel(category, m)) == m
  {
    var p := category + "__via_";
    assert Config.ScenarioLabel(category, m) == p + m;
    assert (p + m)[..|p|] == p;
  }

  /** The threshold lookup with a scenario row's modelstof taken from its
      label, so that a scenario row gets its modelstof's threshold. */
  function Threshold(mkk: map<string, Option<real>>, modelstoffer: set<string>,
                     substance: string, category: string): (t: Option<real>)
    ensures var s := ScenarioModelstof(category, ThresholdSubstance(substance));
      (s in modelstoffer && s in mkk ==> t == mkk[s]) &&
      (!(s in modelstoffer && s in mkk) && category in mkk ==> t == mkk[category]) &&
      (!(s in modelstoffer && s in mkk) && category !in mkk ==> t.None?)
  {
    var s := ScenarioModelstof(category, ThresholdSubstance(substance));
    if s in modelstoffer && s in mkk then mkk[s]
    else if category in mkk then mkk[category]
    else None
  }

  predicate NoColon(s: string) {
    forall i :: 0 <= i < |s| ==> s[i] != ':'
  }

  /** A text without ':' contains neither tag, so the tag removal keeps it. */
  lemma UntaggedKept(s: string)
    requires NoColon(s)
    ensures ThresholdSubstance(s) == s
  {
    NoColonNoTag(s, Concentration.LandfillOverrideTag, 17);
    NoColonNoTag(s, BranchActivityTag, 15);
  }

  lemma NoColonNoTag(s: string, tag: string, k: nat)
    requires NoColon(s) && k < |tag| && tag[k] == ':'
    ensures !Contains(s, tag)
  {
    if Contains(s, tag) {
      IndexOfContains(s, tag);
      var r := IndexOf(s, tag);
      assert false;
    }
  }

  /** As written, a scenario row's label `<category>__via_<modelstof>` is
      never a modelstof, so the row always gets its category's threshold. */
  lemma ScenarioRowGetsCategoryThreshold(mkk: map<string, Option<real>>, modelstoffer: set<string>, c: string, m: string)
    requires NoColon(Config.ScenarioLabel(c, m)) && Config.ScenarioLabel(c, m) !in modelstoffer && c in mkk
    ensures ThresholdAsWritten(mkk, modelstoffer, Config.ScenarioLabel(c, m), c) == mkk[c]
  {
    UntaggedKept(Config.ScenarioLabel(c, m));
  }

  /** With the modelstof read from the label, a scenario row of a modelstof
      with a threshold entry gets that entry. */
  lemma ScenarioRowGetsModelstofThreshold(mkk: map<string, Option<real>>, modelstoffer: set<string>, c: string, m: string)
    requires NoColon(Config.ScenarioLabel(c, m)) && m in modelstoffer && m in mkk
    ensures Threshold(mkk, modelstoffer, Config.ScenarioLabel(c, m), c) == mkk[m]
  {
    UntaggedKept(Config.ScenarioLabel(c, m));
    ScenarioModelstofOfLabel(c, m);
  }

  /** With the configured tables: a trichloroethylene scenario of the
      chlorinated solvents is held to the category's 2.5 µg/L as written,
      though its own threshold is 10 µg/L. */
  lemma TrichlorethyleneThresholds()
    ensures ThresholdAsWritten(Config.MkkThresholds, Config.Modelstoffer,
      Config.ScenarioLabel(Config.Oplosningsmidler, "Trichlorethylen"), Config.Oplosningsmidler) == Some(2.5)
    ensures Threshold(Config.MkkThresholds, Config.Modelstoffer,
      Config.ScenarioLabel(Config.Oplosningsmidler, "Trichlorethylen"), Config.Oplosningsmidler) == Some(10.0)
  {
    var tce := Config.ScenarioLabel(Config.Oplosningsmidler, "Trichlorethylen");
    assert NoColon(tce);
    // the label is longer than any modelstof name, so it is none of them
    Config.TrichlorethyleneEntries();
    assert |tce| == 47;
    assert tce !in Config.Modelstoffer;
    ScenarioRowGetsCategoryThreshold(Config.MkkThresholds, Config.Modelstoffer, Config.Oplosningsmidler, "Trichlorethylen");
    ScenarioRowGetsModelstofThreshold(Config.MkkThresholds, Config.Modelstoffer, Config.Oplosningsmidler, "Trichlorethylen");
  }

  /** A scored row: the threshold, the exceedance flag and the ratio. */
  datatype MkkRow = MkkRow(row: CmixRow, mkk: Option<real>, flag: bool, ratio: Option<real>)

  /** `MKK_ug_L.notna() & (Cmix_ug_L > MKK_ug_L)`; an undefined Cmix
      compares false. */
  predicate Exceeds(cmix: Option<real>, mkk: Option<real>) {
    mkk.Some? && cmix.Some? && cmix.value > mkk.value
  }

  /** `Cmix / MKK` for a positive threshold. */
  function Ratio(cmix: Option<real>, mkk: Option<real>): Option<real> {
    if mkk.Some? && mkk.value > 0.0 && cmix.Some? then Some(cmix.value / mkk.value) else None
  }

  /** With a positive threshold the flag and "ratio above one" agree. */
  lemma FlagIffRatioAboveOne(cmix: Option<real>, mkk: Option<real>)
    requires mkk.Some? && mkk.value > 0.0
    ensures Exceeds(cmix, mkk) <==> Ratio(cmix, mkk).Some? && Ratio(cmix, mkk).value > 1.0
  {
    if cmix.Some? {
      var c := cmix.value;
      var t := mkk.value;
      var q := c / t;
      assert q * t == c;
      assert (q - 1.0) * t == c - t;
      SignOfProduct(q - 1.0, t);
    }
  }

  lemma SignOfProduct(x: real, t: real)
    requires t > 0.0
    ensures x > 0.0 <==> x * t > 0.0
  {
  }

  function MkkRowOf(mkk: map<string, Option<real>>, modelstoffer: set<string>, r: CmixRow): MkkRow {
    var t := Threshold(mkk, modelstoffer, r.seg.key.substance, r.seg.key.category);
    MkkRow(r, t, Exceeds(r.cmix, t), Ratio(r.cmix, t))
  }

  /** `_apply_mkk_thresholds`, row by row. An empty threshold table leaves
      every threshold undefined and no row flagged, as the source's
      separate branch for it does. */
  function ApplyMkk(mkk: map<string, Option<real>>, modelstoffer: set<string>, rows: seq<CmixRow>): (out: seq<MkkRow>)
    ensures |out| == |rows| && forall i :: 0 <= i < |rows| ==> out[i] == MkkRowOf(mkk, modelstoffer, rows[i])
  {
    if rows == [] then [] else [MkkRowOf(mkk, modelstoffer, rows[0])] + ApplyMkk(mkk, modelstoffer, rows[1..])
  }

  /** Each scored row keeps its Cmix row; it is flagged exactly when its
      threshold is defined and its Cmix above it, and it has a ratio exactly
      when the threshold is positive and the Cmix defined, the ratio being
      the Cmix over the threshold. */
  lemma ApplyMkkSpec(mkk: map<string, Option<real>>, modelstoffer: set<string>, rows: seq<CmixRow>, i: nat)
    requires i < |rows|
    ensures var o := ApplyMkk(mkk, modelstoffer, rows)[i];
      o.row == rows[i] &&
      o.mkk == Threshold(mkk, modelstoffer, rows[i].seg.key.substance, rows[i].seg.key.category) &&
      (o.flag <==> o.mkk.Some? && rows[i].cmix.Some? && rows[i].cmix.value > o.mkk.value) &&
      (o.ratio.Some? <==> o.mkk.Some? && o.mkk.value > 0.0 && rows[i].cmix.Some?) &&
      o.ratio == Ratio(rows[i].cmix, o.mkk)
  {
  }

  /** A defined ratio times its threshold is the Cmix. */
  lemma RatioTimesThreshold(cmix: Option<real>, mkk: Option<real>)
    ensures Ratio(cmix, mkk).Some? ==> mkk.Some? && cmix.Some? && Ratio(cmix, mkk).value * mkk.value == cmix.value
  {
  }

  lemma EmptyTableNoExceedance(modelstoffer: set<string>, rows: seq<CmixRow>)
    ensures forall o :: o in ApplyMkk(map[], modelstoffer, rows) ==> o.mkk.None? && !o.flag && o.ratio.None?
  {
  }
}
