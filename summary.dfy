/** Step 6 segment summary (`_build_segment_summary`).

    The scored Cmix rows are grouped by (river FID, ov_id, segment name,
    segment GVFK). Each group becomes one summary row: the total flux, the
    largest Cmix and exceedance ratio, the scenarios and categories seen,
    the contributing sites (from the flux table, by FID and ov_id), the
    exceedance flag and the failing scenarios of the ov_id. The rows are
    then ordered by their largest ratio, undefined ratios last. */
module Summary {
  import opened Wrappers
  import opened Text
  import opened Grouping
  import Flux
  import Segments
  import Mixing

  type MkkRow = Mixing.MkkRow
  type FluxRow = Flux.FluxRow

  /** `["Nearest_River_FID", "Nearest_River_ov_id", "River_Segment_Name",
      "River_Segment_GVFK"]`. */
  datatype SummaryKey = SummaryKey(riverFid: int, ovId: string, segmentName: string, segmentGvfk: string)

  function SummaryKeyOf(o: MkkRow): SummaryKey {
    SummaryKey(o.row.seg.key.riverFid, o.row.seg.key.ovId, o.row.seg.segmentName, o.row.seg.segmentGvfk)
  }

  /** One row of the summary table. The site columns are undefined when the
      flux table has no row of the segment's FID and ov_id (the left join
      finds nothing). */
  datatype SummaryRow = SummaryRow(
    key: SummaryKey,
    totalKg: real,
    maxCmix: Option<real>,
    maxRatio: Option<real>,
    flowScenarios: string,
    categories: string,
    siteCount: Option<nat>,
    siteIds: Option<string>,
    hasExceedance: bool,
    failingScenarios: string)

  function RowKg(o: MkkRow): real { o.row.seg.totalKg }
  function RowCmix(o: MkkRow): Option<real> { o.row.cmix }
  function RowRatio(o: MkkRow): Option<real> { o.ratio }
  function RowScenario(o: MkkRow): Option<string> { o.row.scenario }
  function RowCategory(o: MkkRow): string { o.row.seg.key.category }

  // ---------------------------------------------------------------------
  // Column reductions
  // ---------------------------------------------------------------------

  /** The defined entries, in order (`dropna`). */
  function Present(xs: seq<Option<string>>): (r: seq<string>)
    ensures forall s :: s in r <==> Some(s) in xs
  {
    if xs == [] then []
    else
      assert forall i :: 1 <= i < |xs| ==> xs[i] == xs[1..][i - 1];
      (if xs[0].Some? then [xs[0].value] else []) + Present(xs[1..])
  }

  /** `", ".join(sorted(set(...)))`. */
  function SortedJoin(xs: seq<string>): string {
    Join(SortedUnique(xs), ", ")
  }

  /** The flux rows of one river segment: same FID and ov_id. */
  function SiteRows(flux: seq<FluxRow>, riverFid: int, ovId: string): (ms: seq<FluxRow>)
    ensures forall r :: r in ms <==> r in flux && r.riverFid == riverFid && r.ovId == ovId
  {
    if flux == [] then []
    else (if flux[0].riverFid == riverFid && flux[0].ovId == ovId then [flux[0]] else []) + SiteRows(flux[1..], riverFid, ovId)
  }

  /** The scored rows flagged for ov_id `ov`, across every FID. */
  function FlaggedOn(rows: seq<MkkRow>, ov: string): (fs: seq<MkkRow>)
    ensures forall o :: o in fs <==> o in rows && o.row.seg.key.ovId == ov && o.flag
  {
    if rows == [] then []
    else (if rows[0].row.seg.key.ovId == ov && rows[0].flag then [rows[0]] else []) + FlaggedOn(rows[1..], ov)
  }

  /** The scenarios flagged for an ov_id, sorted and each once. */
  function FailingList(rows: seq<MkkRow>, ov: string): seq<string> {
    SortedUnique(Present(Column(FlaggedOn(rows, ov), RowScenario)))
  }

  /** The `Failing_Scenarios` cell of a summary row with ov_id `ov`. */
  function FailingFor(rows: seq<MkkRow>, ov: string): string {
    if FlaggedOn(rows, ov) == [] then "" else Join(FailingList(rows, ov), ", ")
  }

  // ---------------------------------------------------------------------
  // Total flux: as written and corrected
  // ---------------------------------------------------------------------

  /** As written: `Total_Flux_kg_per_year` summed over the group's Cmix
      rows, that is once per flow scenario of each segment record. */
  function TotalKgAsWritten(ms: seq<MkkRow>): real {
    SumBy(ms, RowKg)
  }

  function RowSeg(o: MkkRow): Segments.SegmentRecord { o.row.seg }
  function SegKg(s: Segments.SegmentRecord): real { s.totalKg }

  /** Corrected: each segment record of the group counted once, whatever
      the number of flow scenarios it was joined with. */
  function TotalKg(ms: seq<MkkRow>): real {
    SumBy(Dedup(Column(ms, RowSeg)), SegKg)
  }

  // ---------------------------------------------------------------------
  // Summary rows
  // ---------------------------------------------------------------------

  /** The group's row before `Failing_Scenarios` is filled in. */
  function BaseRow(flux: seq<FluxRow>, rows: seq<MkkRow>, k: SummaryKey): SummaryRow {
    var ms := Members(rows, SummaryKeyOf, k);
    var sites := Column(SiteRows(flux, k.riverFid, k.ovId), Segments.Site);
    var maxRatio := OptMax(Column(ms, RowRatio));
    SummaryRow(k, TotalKg(ms), OptMax(Column(ms, RowCmix)), maxRatio,
               SortedJoin(Present(Column(ms, RowScenario))), SortedJoin(Column(ms, RowCategory)),
               if sites == [] then None else Some(|Dedup(sites)|),
               if sites == [] then None else Some(SortedJoin(sites)),
               maxRatio.Some? && maxRatio.value > 1.0, "")
  }

  function BaseRows(flux: seq<FluxRow>, rows: seq<MkkRow>, keys: seq<SummaryKey>): (b: seq<SummaryRow>)
    ensures |b| == |keys| && forall i :: 0 <= i < |keys| ==> b[i] == BaseRow(flux, rows, keys[i])
  {
    if keys == [] then [] else [BaseRow(flux, rows, keys[0])] + BaseRows(flux, rows, keys[1..])
  }

  /** The loop that fills `Failing_Scenarios`, one summary row at a time. */
  function WithFailing(base: seq<SummaryRow>, rows: seq<MkkRow>): (w: seq<SummaryRow>)
    ensures |w| == |base|
  {
    if base == [] then []
    else WithFailing(base[..|base| - 1], rows) + [base[|base| - 1].(failingScenarios := FailingFor(rows, base[|base| - 1].key.ovId))]
  }

  // ---------------------------------------------------------------------
  // Ordering by the largest ratio, undefined last
  // ---------------------------------------------------------------------

  /** `a` may precede `b` in `sort_values(ascending=False, na_position="last")`. */
  predicate RatioBefore(a: SummaryRow, b: SummaryRow) {
    b.maxRatio.None? || (a.maxRatio.Some? && a.maxRatio.value >= b.maxRatio.value)
  }

  predicate ByRatio(s: seq<SummaryRow>) {
    forall i, j :: 0 <= i < j < |s| ==> RatioBefore(s[i], s[j])
  }

  function InsertByRatio(x: SummaryRow, s: seq<SummaryRow>): seq<SummaryRow> {
    if s == [] then [x]
    else if RatioBefore(x, s[0]) then [x] + s
    else [s[0]] + InsertByRatio(x, s[1..])
  }

  function SortByRatio(s: seq<SummaryRow>): seq<SummaryRow> {
    if s == [] then [] else InsertByRatio(s[0], SortByRatio(s[1..]))
  }

  lemma {:induction false} InsertByRatioSpec(x: SummaryRow, s: seq<SummaryRow>)
    requires ByRatio(s)
    ensures multiset(InsertByRatio(x, s)) == multiset(s) + multiset{x}
    ensures ByRatio(InsertByRatio(x, s))
  {
    if s != [] && !RatioBefore(x, s[0]) {
      var t := s[1..];
      assert s == [s[0]] + t;
      InsertByRatioSpec(x, t);
      var r := InsertByRatio(x, t);
      assert InsertByRatio(x, s) == [s[0]] + r;
      forall j | 0 <= j < |r| ensures RatioBefore(s[0], r[j]) {
        assert r[j] in multiset(r);
        if r[j] != x {
          assert r[j] in multiset(t);
          var m :| 0 <= m < |t| && t[m] == r[j];
          assert s[m + 1] == r[j];
        }
      }
    }
  }

  /** The order is a permutation of the input, and every row precedes only
      rows with a smaller or undefined largest ratio. */
  lemma {:induction false} SortByRatioSpec(s: seq<SummaryRow>)
    ensures multiset(SortByRatio(s)) == multiset(s)
    ensures ByRatio(SortByRatio(s))
  {
    if s != [] {
      SortByRatioSpec(s[1..]);
      InsertByRatioSpec(s[0], SortByRatio(s[1..]));
      assert s == [s[0]] + s[1..];
    }
  }

  /** `_build_segment_summary`: empty for an empty Cmix table. */
  function SegmentSummary(flux: seq<FluxRow>, rows: seq<MkkRow>): seq<SummaryRow> {
    if rows == [] then []
    else SortByRatio(WithFailing(BaseRows(flux, rows, GroupKeys(rows, SummaryKeyOf)), rows))
  }

  method FillFailing(base: seq<SummaryRow>, rows: seq<MkkRow>) returns (out: seq<SummaryRow>)
    ensures out == WithFailing(base, rows)
  {
    out := [];
    var i := 0;
    while i < |base|
      invariant 0 <= i <= |base|
      invariant out == WithFailing(base[..i], rows)
    {
      assert base[..i + 1][..i] == base[..i];
      out := out + [base[i].(failingScenarios := FailingFor(rows, base[i].key.ovId))];
      i := i + 1;
    }
    assert base[..|base|] == base;
  }

  method BuildSegmentSummary(flux: seq<FluxRow>, rows: seq<MkkRow>) returns (summary: seq<SummaryRow>)
    ensures summary == SegmentSummary(flux, rows)
  {
    if rows == [] {
      return [];
    }
    var base := BaseRows(flux, rows, GroupKeys(rows, SummaryKeyOf));
    var filled := FillFailing(base, rows);
    summary := SortByRatio(filled);
  }

  // ---------------------------------------------------------------------
  // Properties
  // ---------------------------------------------------------------------

  /** The filled row `i` is the base row `i` with its ov_id's failing
      scenarios. */
  lemma {:induction false} WithFailingAt(base: seq<SummaryRow>, rows: seq<MkkRow>, i: nat)
    requires i < |base|
    ensures WithFailing(base, rows)[i] == base[i].(failingScenarios := FailingFor(rows, base[i].key.ovId))
    decreases |base|
  {
    if i < |base| - 1 {
      WithFailingAt(base[..|base| - 1], rows, i);
    }
  }

  /** The summary is empty exactly when the Cmix table is, and then has
      one row per group, in some order. */
  lemma SummaryShape(flux: seq<FluxRow>, rows: seq<MkkRow>)
    ensures |SegmentSummary(flux, rows)| == |GroupKeys(rows, SummaryKeyOf)|
    ensures SegmentSummary(flux, rows) == [] <==> rows == []
    ensures ByRatio(SegmentSummary(flux, rows))
  {
    if rows != [] {
      var w := WithFailing(BaseRows(flux, rows, GroupKeys(rows, SummaryKeyOf)), rows);
      SortByRatioSpec(w);
      assert |multiset(SortByRatio(w))| == |multiset(w)|;
      GroupKeysSpec(rows, SummaryKeyOf);
      assert SummaryKeyOf(rows[0]) in Column(rows, SummaryKeyOf);
    }
  }

  /** Each summary row is the base row of one group with its failing
      scenarios, and every group has such a row. */
  lemma SummaryRowsAreGroups(flux: seq<FluxRow>, rows: seq<MkkRow>)
    requires rows != []
    ensures forall r :: r in SegmentSummary(flux, rows) <==>
      exists k :: k in Column(rows, SummaryKeyOf) &&
        r == BaseRow(flux, rows, k).(failingScenarios := FailingFor(rows, k.ovId))
  {
    var keys := GroupKeys(rows, SummaryKeyOf);
    GroupKeysSpec(rows, SummaryKeyOf);
    var base := BaseRows(flux, rows, keys);
    var w := WithFailing(base, rows);
    SortByRatioSpec(w);
    forall r ensures r in SortByRatio(w) <==> r in w {
      assert r in SortByRatio(w) <==> r in multiset(SortByRatio(w));
    }
    forall r | r in w
      ensures exists k :: k in Column(rows, SummaryKeyOf) && r == BaseRow(flux, rows, k).(failingScenarios := FailingFor(rows, k.ovId))
    {
      var i :| 0 <= i < |w| && w[i] == r;
      WithFailingAt(base, rows, i);
      assert keys[i] in keys;
    }
    forall k | k in Column(rows, SummaryKeyOf)
      ensures BaseRow(flux, rows, k).(failingScenarios := FailingFor(rows, k.ovId)) in w
    {
      var i :| 0 <= i < |keys| && keys[i] == k;
      WithFailingAt(base, rows, i);
    }
  }

  /** The largest ratio bounds every ratio of the group and is one of them;
      the segment is flagged exactly when some row's ratio exceeds one. */
  lemma ExceedanceIffSomeRatioAboveOne(flux: seq<FluxRow>, rows: seq<MkkRow>, k: SummaryKey)
    ensures var b := BaseRow(flux, rows, k);
      b.hasExceedance <==> exists o :: o in Members(rows, SummaryKeyOf, k) && o.ratio.Some? && o.ratio.value > 1.0
  {
    var ms := Members(rows, SummaryKeyOf, k);
    var rs := Column(ms, RowRatio);
    var m := OptMax(rs);
    if exists o :: o in ms && o.ratio.Some? && o.ratio.value > 1.0 {
      var o :| o in ms && o.ratio.Some? && o.ratio.value > 1.0;
      var i :| 0 <= i < |ms| && ms[i] == o;
      assert rs[i] == o.ratio;
    }
    if m.Some? && m.value > 1.0 {
      var i :| 0 <= i < |rs| && rs[i] == m;
      assert ms[i] in ms;
    }
  }

  /** A scored row whose ratio exceeds one is flagged, so a segment with
      an exceedance has a failing scenario on its ov_id. */
  lemma ExceedingRowFlagged(o: MkkRow)
    requires o.ratio == Mixing.Ratio(o.row.cmix, o.mkk) && o.flag == Mixing.Exceeds(o.row.cmix, o.mkk)
    requires o.ratio.Some? && o.ratio.value > 1.0
    ensures o.flag
  {
    Mixing.FlagIffRatioAboveOne(o.row.cmix, o.mkk);
  }

  /** A scenario is in the scenario column exactly when some row has it. */
  lemma ScenarioColumnSpec(fs: seq<MkkRow>)
    ensures forall s :: Some(s) in Column(fs, RowScenario) <==> exists o :: o in fs && o.row.scenario == Some(s)
  {
    var sc := Column(fs, RowScenario);
    forall s ensures Some(s) in sc <==> exists o :: o in fs && o.row.scenario == Some(s) {
      if Some(s) in sc {
        var i :| 0 <= i < |sc| && sc[i] == Some(s);
        assert fs[i] in fs;
      }
      if exists o :: o in fs && o.row.scenario == Some(s) {
        var o :| o in fs && o.row.scenario == Some(s);
        var i :| 0 <= i < |fs| && fs[i] == o;
        assert sc[i] == Some(s);
      }
    }
  }

  /** The scenarios of `Failing_Scenarios` are sorted, each once, and
      exactly those of the rows flagged for the ov_id. */
  lemma FailingMembers(rows: seq<MkkRow>, ov: string)
    ensures Sorted(FailingList(rows, ov)) && Distinct(FailingList(rows, ov))
    ensures forall s :: s in FailingList(rows, ov) <==>
      exists o :: o in rows && o.row.seg.key.ovId == ov && o.flag && o.row.scenario == Some(s)
  {
    var fs := FlaggedOn(rows, ov);
    SortedUniqueSpec(Present(Column(fs, RowScenario)));
    ScenarioColumnSpec(fs);
  }

  /** A flagged row with a non-empty scenario makes the cell non-empty. */
  lemma FailingNonEmpty(rows: seq<MkkRow>, ov: string, o: MkkRow)
    requires o in rows && o.row.seg.key.ovId == ov && o.flag && o.row.scenario.Some? && o.row.scenario.value != ""
    ensures FailingFor(rows, ov) != ""
  {
    FailingMembers(rows, ov);
    assert o in FlaggedOn(rows, ov);
    var l := FailingList(rows, ov);
    var i :| 0 <= i < |l| && l[i] == o.row.scenario.value;
    JoinLength(l, ", ", i);
  }

  /** `Failing_Scenarios` lists, sorted and each once, exactly the
      scenarios of the rows flagged for the ov_id, and is empty when no row
      is flagged. */
  lemma FailingSpec(rows: seq<MkkRow>, ov: string)
    ensures Sorted(FailingList(rows, ov)) && Distinct(FailingList(rows, ov))
    ensures forall s :: s in FailingList(rows, ov) <==>
      exists o :: o in rows && o.row.seg.key.ovId == ov && o.flag && o.row.scenario == Some(s)
    ensures (forall o :: o in rows && o.row.seg.key.ovId == ov ==> !o.flag) ==> FailingFor(rows, ov) == ""
    ensures (exists o :: o in rows && o.row.seg.key.ovId == ov && o.flag && o.row.scenario.Some? && o.row.scenario.value != "") ==>
      FailingFor(rows, ov) != ""
  {
    FailingMembers(rows, ov);
    var fs := FlaggedOn(rows, ov);
    if fs != [] {
      assert fs[0] in fs;
    }
    if exists o :: o in rows && o.row.seg.key.ovId == ov && o.flag && o.row.scenario.Some? && o.row.scenario.value != "" {
      var o :| o in rows && o.row.seg.key.ovId == ov && o.flag && o.row.scenario.Some? && o.row.scenario.value != "";
      FailingNonEmpty(rows, ov, o);
    }
  }

  /** A joined list is at least as long as each of its parts. */
  lemma {:induction false} JoinLength(parts: seq<string>, sep: string, i: nat)
    requires i < |parts|
    ensures |Join(parts, sep)| >= |parts[i]|
  {
    if i > 0 {
      JoinLength(parts[1..], sep, i - 1);
    }
  }

  /** Rows of different FIDs that share an ov_id share their failing
      scenarios: the filter looks at the ov_id only. */
  lemma FailingSharedByOv(rows: seq<MkkRow>, a: SummaryRow, b: SummaryRow)
    requires a.key.ovId == b.key.ovId
    ensures FailingFor(rows, a.key.ovId) == FailingFor(rows, b.key.ovId)
  {
  }

  // ---------------------------------------------------------------------
  // Finding: the total flux counts a record once per flow scenario
  // ---------------------------------------------------------------------

  lemma {:induction false} SumByConstantKg(ms: seq<MkkRow>, s: Segments.SegmentRecord)
    requires forall i :: 0 <= i < |ms| ==> ms[i].row.seg == s
    ensures SumBy(ms, RowKg) == |ms| as real * s.totalKg
  {
    if ms != [] {
      assert forall i :: 0 <= i < |ms[1..]| ==> ms[1..][i] == ms[i + 1];
      SumByConstantKg(ms[1..], s);
    }
  }

  lemma {:induction false} DedupFromConstant(xs: seq<Segments.SegmentRecord>, s: Segments.SegmentRecord)
    requires forall i :: 0 <= i < |xs| ==> xs[i] == s
    ensures DedupFrom(xs, [s]) == [s]
    decreases |xs|
  {
    if xs != [] {
      assert forall i :: 0 <= i < |xs[1..]| ==> xs[1..][i] == xs[i + 1];
      DedupFromConstant(xs[1..], s);
    }
  }

  lemma DedupConstant(xs: seq<Segments.SegmentRecord>, s: Segments.SegmentRecord)
    requires xs != [] && forall i :: 0 <= i < |xs| ==> xs[i] == s
    ensures Dedup(xs) == [s]
  {
    assert forall i :: 0 <= i < |xs[1..]| ==> xs[1..][i] == xs[i + 1];
    DedupFromConstant(xs[1..], s);
    assert [] + [xs[0]] == [s];
  }

  /** A group made of one segment record joined with `n` flow scenarios:
      as written its total is `n` times the record's flux; corrected it is
      the record's flux. */
  lemma TotalKgPerScenario(ms: seq<MkkRow>, s: Segments.SegmentRecord)
    requires ms != [] && forall i :: 0 <= i < |ms| ==> ms[i].row.seg == s
    ensures TotalKgAsWritten(ms) == |ms| as real * s.totalKg
    ensures TotalKg(ms) == s.totalKg
  {
    SumByConstantKg(ms, s);
    var segs := Column(ms, RowSeg);
    DedupConstant(segs, s);
    assert SumBy([s], SegKg) == SegKg(s) + SumBy([s][1..], SegKg);
  }

  /** The corrected total is the sum of the distinct records' fluxes: a
      record's flux is counted once, and only records of the group count. */
  lemma TotalKgSpec(ms: seq<MkkRow>)
    ensures Distinct(Dedup(Column(ms, RowSeg)))
    ensures forall s :: s in Dedup(Column(ms, RowSeg)) <==> exists o :: o in ms && o.row.seg == s
    ensures TotalKg(ms) == SumBy(Dedup(Column(ms, RowSeg)), SegKg)
  {
    var c := Column(ms, RowSeg);
    DedupSpec(c);
    forall s ensures s in c <==> exists o :: o in ms && o.row.seg == s {
      if s in c {
        var i :| 0 <= i < |c| && c[i] == s;
        assert ms[i] in ms;
      }
      if exists o :: o in ms && o.row.seg == s {
        var o :| o in ms && o.row.seg == s;
        var i :| 0 <= i < |ms| && ms[i] == o;
        assert c[i] == s;
      }
    }
  }

  /** One 2 kg/yr record with the Q95 and Q90 scenarios: as written the
      summary reports 4 kg/yr, corrected 2 kg/yr. */
  lemma TwoScenariosDoubleCount()
    ensures var s := Segments.SegmentRecord(Segments.SegmentKey(7, "ov1", "BTXER", "Benzen"),
                                            "Aa", 100.0, "dkm_1", 2000000000.0, 2000000.0, 2000.0, 2.0, 1, "S1", 10.0, 10.0, 1);
      var a := Mixing.MkkRow(Mixing.CmixRow(s, Some("Q95"), Some(1.0), true, 0.0, Some(1.0)), None, false, None);
      var b := Mixing.MkkRow(Mixing.CmixRow(s, Some("Q90"), Some(2.0), true, 0.0, Some(0.5)), None, false, None);
      TotalKgAsWritten([a, b]) == 4.0 && TotalKg([a, b]) == 2.0
  {
    var s := Segments.SegmentRecord(Segments.SegmentKey(7, "ov1", "BTXER", "Benzen"),
                                    "Aa", 100.0, "dkm_1", 2000000000.0, 2000000.0, 2000.0, 2.0, 1, "S1", 10.0, 10.0, 1);
    var a := Mixing.MkkRow(Mixing.CmixRow(s, Some("Q95"), Some(1.0), true, 0.0, Some(1.0)), None, false, None);
    var b := Mixing.MkkRow(Mixing.CmixRow(s, Some("Q90"), Some(2.0), true, 0.0, Some(0.5)), None, false, None);
    TotalKgPerScenario([a, b], s);
  }
}
