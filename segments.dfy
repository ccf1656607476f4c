/** Step 6 segment aggregation (`_aggregate_flux_by_segment`).

    The flux rows are grouped by (river FID, river ov_id, category,
    substance label). Each group becomes one record: the segment metadata
    of its first row, the four flux sums, the distinct contributing sites
    and the distance range. */
module Segments {
  import opened Text
  import opened Grouping
  import Flux

  type FluxRow = Flux.FluxRow

  /** `["Nearest_River_FID", "Nearest_River_ov_id", "Qualifying_Category",
      "Qualifying_Substance"]`. */
  datatype SegmentKey = SegmentKey(riverFid: int, ovId: string, category: string, substance: string)

  function SegmentKeyOf(r: FluxRow): SegmentKey {
    SegmentKey(r.riverFid, r.ovId, r.category, r.substance)
  }

  function Ug(r: FluxRow): real { r.flux.ug }
  function Mg(r: FluxRow): real { r.flux.mg }
  function G(r: FluxRow): real { r.flux.g }
  function Kg(r: FluxRow): real { r.flux.kg }
  function Site(r: FluxRow): string { r.site }
  function RowDistance(r: FluxRow): real { r.distance }
  function RowSegmentCount(r: FluxRow): int { r.segmentCount }

  /** One record of the segment table. */
  datatype SegmentRecord = SegmentRecord(
    key: SegmentKey,
    segmentName: string,
    segmentLength: real,
    segmentGvfk: string,
    totalUg: real,
    totalMg: real,
    totalG: real,
    totalKg: real,
    siteCount: nat,
    siteIds: string,
    minDistance: real,
    maxDistance: real,
    segmentCount: int)

  /** The µg/yr flux of the rows carrying key `k`. */
  function GroupUg(rows: seq<FluxRow>, k: SegmentKey): real {
    SumBy(Members(rows, SegmentKeyOf, k), Ug)
  }

  function RecordOf(rows: seq<FluxRow>, k: SegmentKey): (rec: SegmentRecord)
    requires k in Column(rows, SegmentKeyOf)
    ensures rec.key == k
  {
    MembersFirst(rows, SegmentKeyOf, k);
    var ms := Members(rows, SegmentKeyOf, k);
    var sites := Column(ms, Site);
    SegmentRecord(k, ms[0].segmentName, ms[0].segmentLength, ms[0].segmentGvfk,
                  GroupUg(rows, k), SumBy(ms, Mg), SumBy(ms, G), SumBy(ms, Kg),
                  |Dedup(sites)|, Join(SortedUnique(sites), ", "),
                  MinBy(ms, RowDistance), MaxBy(ms, RowDistance), MaxIntBy(ms, RowSegmentCount))
  }

  /** The records of the groups `keys`, in order. */
  function RecordsFor(rows: seq<FluxRow>, keys: seq<SegmentKey>): (recs: seq<SegmentRecord>)
    requires forall k :: k in keys ==> k in Column(rows, SegmentKeyOf)
    ensures |recs| == |keys| && forall i :: 0 <= i < |keys| ==> recs[i].key == keys[i]
  {
    if keys == [] then [] else [RecordOf(rows, keys[0])] + RecordsFor(rows, keys[1..])
  }

  /** The segment table: empty for an empty flux table. */
  function Aggregate(rows: seq<FluxRow>): seq<SegmentRecord> {
    GroupKeysSpec(rows, SegmentKeyOf);
    RecordsFor(rows, GroupKeys(rows, SegmentKeyOf))
  }

  method AggregateFluxBySegment(rows: seq<FluxRow>) returns (records: seq<SegmentRecord>)
    ensures records == Aggregate(rows)
  {
    if rows == [] {
      return [];
    }
    GroupKeysSpec(rows, SegmentKeyOf);
    records := EmitRecords(rows, GroupKeys(rows, SegmentKeyOf));
  }

  /** The loop over the groups, appending one record each. */
  method EmitRecords(rows: seq<FluxRow>, keys: seq<SegmentKey>) returns (records: seq<SegmentRecord>)
    requires forall k :: k in keys ==> k in Column(rows, SegmentKeyOf)
    ensures records == RecordsFor(rows, keys)
  {
    ghost var all := RecordsFor(rows, keys);
    records := [];
    for i := 0 to |keys|
      invariant |records| == i
      invariant records == all[..i]
    {
      RecordsForKeys(rows, keys, i);
      var rec := RecordOf(rows, keys[i]);
      PrefixSnoc(all, i, rec);
      records := records + [rec];
    }
    assert all[..|keys|] == all;
  }

  // ---------------------------------------------------------------------
  // Properties of one record
  // ---------------------------------------------------------------------

  /** A record sums exactly the rows of its key, so it never mixes two
      substance labels (nor two river segments or categories). */
  lemma RecordSums(rows: seq<FluxRow>, k: SegmentKey)
    requires k in Column(rows, SegmentKeyOf)
    ensures var rec := RecordOf(rows, k);
      var ms := Members(rows, SegmentKeyOf, k);
      (forall r :: r in ms <==> r in rows && SegmentKeyOf(r) == k) &&
      (forall r :: r in ms ==> r.substance == rec.key.substance && r.riverFid == rec.key.riverFid &&
                               r.ovId == rec.key.ovId && r.category == rec.key.category) &&
      rec.totalUg == SumBy(ms, Ug) && rec.totalMg == SumBy(ms, Mg) &&
      rec.totalG == SumBy(ms, G) && rec.totalKg == SumBy(ms, Kg)
  {
    MembersSpec(rows, SegmentKeyOf, k);
  }

  /** The site list is the sorted distinct sites of the group's rows and
      the count is their number, at least one. */
  lemma RecordSites(rows: seq<FluxRow>, k: SegmentKey)
    requires k in Column(rows, SegmentKeyOf)
    ensures var rec := RecordOf(rows, k);
      var ms := Members(rows, SegmentKeyOf, k);
      var ids := SortedUnique(Column(ms, Site));
      (forall s :: s in ids <==> exists r :: r in ms && r.site == s) &&
      Sorted(ids) && Distinct(ids) && rec.siteIds == Join(ids, ", ") &&
      rec.siteCount == |ids| && 1 <= rec.siteCount <= |ms|
  {
    MembersFirst(rows, SegmentKeyOf, k);
    var ms := Members(rows, SegmentKeyOf, k);
    var sites := Column(ms, Site);
    SortedUniqueSpec(sites);
    SortedUniqueLength(sites);
    forall s ensures s in sites <==> exists r :: r in ms && r.site == s {
      if s in sites {
        var i :| 0 <= i < |sites| && sites[i] == s;
        assert ms[i] in ms;
      }
      if exists r :: r in ms && r.site == s {
        var r :| r in ms && r.site == s;
        var i :| 0 <= i < |ms| && ms[i] == r;
        assert sites[i] == s;
      }
    }
    DedupSpec(sites);
    DedupFromLength(sites, []);
    assert sites[0] in Dedup(sites);
  }

  /** The distance range is attained by rows of the group and bounds all of them. */
  lemma RecordDistances(rows: seq<FluxRow>, k: SegmentKey)
    requires k in Column(rows, SegmentKeyOf)
    ensures var rec := RecordOf(rows, k);
      var ms := Members(rows, SegmentKeyOf, k);
      rec.minDistance <= rec.maxDistance &&
      (forall r :: r in ms ==> rec.minDistance <= r.distance <= rec.maxDistance) &&
      (exists r :: r in ms && r.distance == rec.minDistance) &&
      (exists r :: r in ms && r.distance == rec.maxDistance)
  {
    MembersFirst(rows, SegmentKeyOf, k);
    var ms := Members(rows, SegmentKeyOf, k);
    var lo := MinBy(ms, RowDistance);
    var hi := MaxBy(ms, RowDistance);
    forall r | r in ms ensures lo <= r.distance <= hi {
      var i :| 0 <= i < |ms| && ms[i] == r;
      assert RowDistance(ms[i]) == r.distance;
    }
    var a :| 0 <= a < |ms| && lo == RowDistance(ms[a]);
    var b :| 0 <= b < |ms| && hi == RowDistance(ms[b]);
    assert ms[a] in ms && ms[b] in ms;
  }

  // ---------------------------------------------------------------------
  // Properties of the table
  // ---------------------------------------------------------------------

  /** One record per distinct key, in order of first appearance, and
      empty exactly for an empty flux table. */
  lemma AggregateKeys(rows: seq<FluxRow>)
    ensures rows == [] <==> Aggregate(rows) == []
    ensures forall i, j :: 0 <= i < j < |Aggregate(rows)| ==> Aggregate(rows)[i].key != Aggregate(rows)[j].key
    ensures forall r :: r in rows ==> exists i :: 0 <= i < |Aggregate(rows)| && Aggregate(rows)[i].key == SegmentKeyOf(r)
    ensures forall i :: 0 <= i < |Aggregate(rows)| ==> Aggregate(rows)[i].key in Column(rows, SegmentKeyOf)
  {
    GroupKeysSpec(rows, SegmentKeyOf);
    var keys := GroupKeys(rows, SegmentKeyOf);
    var recs := Aggregate(rows);
    if rows != [] {
      assert Column(rows, SegmentKeyOf)[0] in Column(rows, SegmentKeyOf);
      assert keys != [];
    }
    forall r | r in rows ensures exists i :: 0 <= i < |recs| && recs[i].key == SegmentKeyOf(r) {
      var n :| 0 <= n < |rows| && rows[n] == r;
      assert Column(rows, SegmentKeyOf)[n] in Column(rows, SegmentKeyOf);
      var i :| 0 <= i < |keys| && keys[i] == SegmentKeyOf(r);
      assert recs[i].key == keys[i];
    }
  }

  /** The i-th record is the record of the i-th key. */
  lemma {:induction false} RecordsForKeys(rows: seq<FluxRow>, keys: seq<SegmentKey>, i: nat)
    requires forall k :: k in keys ==> k in Column(rows, SegmentKeyOf)
    requires i < |keys|
    ensures keys[i] in Column(rows, SegmentKeyOf) && RecordsFor(rows, keys)[i] == RecordOf(rows, keys[i])
  {
    assert keys[i] in keys;
    if i > 0 {
      assert forall k :: k in keys[1..] ==> k in keys;
      RecordsForKeys(rows, keys[1..], i - 1);
      assert keys[1..][i - 1] == keys[i];
    }
  }

  /** The µg/yr total of a list of records. */
  function TotalUg(recs: seq<SegmentRecord>): real {
    if recs == [] then 0.0 else recs[0].totalUg + TotalUg(recs[1..])
  }

  lemma {:induction false} TotalRecordsFor(rows: seq<FluxRow>, keys: seq<SegmentKey>, total: SegmentKey -> real)
    requires forall k :: k in keys ==> k in Column(rows, SegmentKeyOf)
    requires forall k :: total(k) == GroupUg(rows, k)
    ensures TotalUg(RecordsFor(rows, keys)) == SumOver(keys, total)
  {
    if keys != [] {
      assert forall k :: k in keys[1..] ==> k in keys;
      TotalRecordsFor(rows, keys[1..], total);
    }
  }

  /** Aggregation conserves flux: the segment totals add up to the total
      of the flux table. */
  lemma FluxConserved(rows: seq<FluxRow>)
    ensures TotalUg(Aggregate(rows)) == SumBy(rows, Ug)
  {
    GroupKeysSpec(rows, SegmentKeyOf);
    var total := k => GroupUg(rows, k);
    TotalRecordsFor(rows, GroupKeys(rows, SegmentKeyOf), total);
    GroupSumsTotalOwnKeys(rows, SegmentKeyOf, Ug, total);
  }

  /** The GVFK copies of one flux row all fall into the same segment group ... */
  lemma CopiesShareSegment(r: FluxRow, gvfks: seq<string>)
    ensures forall c :: c in Flux.Copies(r, gvfks) ==> SegmentKeyOf(c) == SegmentKeyOf(r)
  {
    Flux.CopiesSpec(r, gvfks);
  }

  /** ... and add the row's flux once per copy. */
  lemma {:induction false} CopiesCountedPerGvfk(r: FluxRow, gvfks: seq<string>)
    ensures SumBy(Flux.Copies(r, gvfks), Ug) == |gvfks| as real * r.flux.ug
  {
    if gvfks != [] {
      var init := gvfks[..|gvfks| - 1];
      var last := r.(gvfk := gvfks[|gvfks| - 1]);
      CopiesCountedPerGvfk(r, init);
      SumByAppend(Flux.Copies(r, init), [last], Ug);
      assert SumBy([last], Ug) == r.flux.ug;
    }
  }

}
