/** Step 3 (risikovurdering/step3_v1v2_sites.py): the V1 and V2 site
    tables are reduced to the sites with contamination data, aggregated to
    one row per (site, GVFK) in river-contact GVFKs, and combined, with a
    pair found in both tables merged into one 'V1 og V2' row. */
module V1V2Sites {
  import opened Wrappers
  import opened Text
  import opened Grouping
  import opened LandfillScreen

  const V1: string := "V1"
  const V2: string := "V2"
  const BothTypes: string := "V1 og V2"

  /** A row of a V1 or V2 CSV table: one site-GVFK-substance record. */
  datatype CsvRow = CsvRow(
    site: string,
    gvfk: string,
    substances: Option<string>,
    branch: Option<string>,
    activity: Option<string>)

  // ---------------------------------------------------------------------
  // Contamination filtering
  // ---------------------------------------------------------------------

  /** `col.notna() & (col.astype(str).str.strip() != '')`. */
  predicate HasText(v: Option<string>) {
    v.Some? && Strip(v.value) != ""
  }

  predicate Contaminated(r: CsvRow) {
    HasText(r.substances) || HasText(r.branch)
  }

  /** `csv[has_substances | has_branch]`. */
  function QualifiedRows(rows: seq<CsvRow>): seq<CsvRow> {
    if rows == [] then []
    else (if Contaminated(rows[0]) then [rows[0]] else []) + QualifiedRows(rows[1..])
  }

  /** Exactly the rows with substance or branch text remain, none added. */
  lemma {:induction false} QualifiedRowsSpec(rows: seq<CsvRow>)
    ensures forall r :: r in QualifiedRows(rows) <==> r in rows && Contaminated(r)
    ensures |QualifiedRows(rows)| <= |rows|
  {
    if rows != [] {
      QualifiedRowsSpec(rows[1..]);
      assert rows == [rows[0]] + rows[1..];
    }
  }

  // ---------------------------------------------------------------------
  // _process_v1v2_data
  // ---------------------------------------------------------------------

  /** One aggregated (site, GVFK) row, tagged with its dataset. */
  datatype SiteRow = SiteRow(
    site: string,
    gvfk: string,
    substances: Option<string>,
    branch: Option<string>,
    activity: Option<string>,
    siteType: string)

  function CsvKey(r: CsvRow): (string, string) { (r.site, r.gvfk) }

  /** The non-null values of a column, in row order. */
  function Present(vs: seq<Option<string>>): (xs: seq<string>)
    ensures forall x :: x in xs <==> Some(x) in vs
  {
    if vs == [] then []
    else (if vs[0].Some? then [vs[0].value] else []) + Present(vs[1..])
  }

  /** The `'first'` aggregation: the first non-null value. */
  function FirstPresent(vs: seq<Option<string>>): (r: Option<string>)
    ensures r.None? <==> forall i :: 0 <= i < |vs| ==> vs[i].None?
    ensures r.Some? ==> exists i :: 0 <= i < |vs| && vs[i] == r && forall j :: 0 <= j < i ==> vs[j].None?
  {
    if vs == [] then None
    else if vs[0].Some? then vs[0]
    else
      var r := FirstPresent(vs[1..]);
      assert forall i :: 1 <= i < |vs| ==> vs[i] == vs[1..][i - 1];
      r
  }

  /** One group of CSV rows as one row: the distinct substances joined by
      '; ', the other columns' first non-null values. */
  function Aggregate(group: seq<CsvRow>, siteType: string): SiteRow
    requires group != []
  {
    SiteRow(group[0].site, group[0].gvfk,
      Some(Join(Dedup(Present(Column(group, (r: CsvRow) => r.substances))), "; ")),
      FirstPresent(Column(group, (r: CsvRow) => r.branch)),
      FirstPresent(Column(group, (r: CsvRow) => r.activity)),
      siteType)
  }

  function InRivers(rows: seq<CsvRow>, rivers: set<string>): seq<CsvRow> {
    if rows == [] then []
    else (if rows[0].gvfk in rivers then [rows[0]] else []) + InRivers(rows[1..], rivers)
  }

  lemma {:induction false} InRiversSpec(rows: seq<CsvRow>, rivers: set<string>)
    ensures forall r :: r in InRivers(rows, rivers) <==> r in rows && r.gvfk in rivers
  {
    if rows != [] {
      InRiversSpec(rows[1..], rivers);
      assert rows == [rows[0]] + rows[1..];
    }
  }

  lemma InRiversMember(rows: seq<CsvRow>, rivers: set<string>, r: CsvRow)
    requires r in InRivers(rows, rivers)
    ensures r in rows && r.gvfk in rivers
  {
    InRiversSpec(rows, rivers);
  }

  /** The aggregated row of one key, if the site has a geometry. */
  function PairRow(rows: seq<CsvRow>, geometries: set<string>, siteType: string, k: (string, string)): seq<SiteRow> {
    var group := Members(rows, CsvKey, k);
    if group != [] && group[0].site in geometries then [Aggregate(group, siteType)] else []
  }

  function PairRowOf(rows: seq<CsvRow>, geometries: set<string>, siteType: string): ((string, string)) -> seq<SiteRow> {
    k => PairRow(rows, geometries, siteType, k)
  }

  /** `_process_v1v2_data`: river-contact GVFKs only, one row per (site,
      GVFK), joined with the dissolved site geometries. */
  function ProcessData(rows: seq<CsvRow>, rivers: set<string>, geometries: set<string>, siteType: string): seq<SiteRow> {
    var filtered := InRivers(rows, rivers);
    if filtered == [] then []
    else Flatten(GroupKeys(filtered, CsvKey), PairRowOf(filtered, geometries, siteType))
  }

  /** Every output row comes from a group of rows with its site and GVFK,
      in a river-contact GVFK, at a site with a geometry, tagged with the
      dataset; its substances are the group's distinct non-null values. */
  lemma ProcessDataFrom(rows: seq<CsvRow>, rivers: set<string>, geometries: set<string>, siteType: string, s: SiteRow)
    requires s in ProcessData(rows, rivers, geometries, siteType)
    ensures s.gvfk in rivers && s.site in geometries && s.siteType == siteType
    ensures exists r :: r in rows && r.site == s.site && r.gvfk == s.gvfk
    ensures var group := Members(InRivers(rows, rivers), CsvKey, (s.site, s.gvfk));
      group != [] && s == Aggregate(group, siteType)
  {
    var filtered := InRivers(rows, rivers);
    var f := PairRowOf(filtered, geometries, siteType);
    FlattenSource(GroupKeys(filtered, CsvKey), f, s);
    var k :| k in GroupKeys(filtered, CsvKey) && s in f(k);
    var group := Members(filtered, CsvKey, k);
    assert group != [] && group[0].site in geometries && s == Aggregate(group, siteType);
    MembersHead(filtered, CsvKey, k);
    var g0 := group[0];
    InRiversMember(rows, rivers, g0);
    assert s.site == g0.site && s.gvfk == g0.gvfk && s.siteType == siteType;
    assert k == (s.site, s.gvfk);
  }

  /** Every (site, GVFK) pair of a river-contact row at a site with a
      geometry has an output row. */
  lemma ProcessDataCovers(rows: seq<CsvRow>, rivers: set<string>, geometries: set<string>, siteType: string, r: CsvRow)
    requires r in rows && r.gvfk in rivers && r.site in geometries
    ensures exists s :: s in ProcessData(rows, rivers, geometries, siteType) && s.site == r.site && s.gvfk == r.gvfk
  {
    var filtered := InRivers(rows, rivers);
    InRiversSpec(rows, rivers);
    var k := CsvKey(r);
    var i :| 0 <= i < |filtered| && filtered[i] == r;
    assert Column(filtered, CsvKey)[i] == k;
    GroupKeysSpec(filtered, CsvKey);
    MembersFirst(filtered, CsvKey, k);
    var group := Members(filtered, CsvKey, k);
    MembersSpec(filtered, CsvKey, k);
    assert group[0] in group;
    var s := Aggregate(group, siteType);
    FlattenContains(GroupKeys(filtered, CsvKey), PairRowOf(filtered, geometries, siteType), k, s);
  }

  /** The aggregated substance text re-splits into the group's distinct
      substances, in first-seen order. */
  lemma AggregateSubstances(group: seq<CsvRow>, siteType: string)
    requires group != []
    requires forall r :: r in group && r.substances.Some? ==>
      var v := r.substances.value; v != [] && Strip(v) == v && ';' !in v
    ensures var xs := Dedup(Present(Column(group, (r: CsvRow) => r.substances)));
      Tokens(Aggregate(group, siteType).substances.value, ";") == xs && Distinct(xs)
  {
    var col := Column(group, (r: CsvRow) => r.substances);
    var xs := Dedup(Present(col));
    DedupSpec(Present(col));
    forall x | x in xs ensures x != [] && Strip(x) == x && ';' !in x {
      var i :| 0 <= i < |col| && col[i] == Some(x);
      assert group[i] in group;
    }
    TokensJoin(xs);
  }

  // ---------------------------------------------------------------------
  // _combine_and_deduplicate_v1v2
  // ---------------------------------------------------------------------

  function PairKey(r: SiteRow): (string, string) { (r.site, r.gvfk) }

  /** The substances a row contributes to a merged pair: none when the text
      is null, blank or 'nan'. */
  function SubstanceParts(r: SiteRow): seq<string> {
    if HasSubstances(r.substances) then Tokens(r.substances.value, ";") else []
  }

  /** The merged row of a pair present several times: the first record,
      typed 'V1 og V2', with the distinct substances of all records when
      there are any. */
  function Merged(group: seq<SiteRow>): SiteRow
    requires group != []
  {
    var parts := Flatten(group, SubstanceParts);
    group[0].(substances := if parts == [] then group[0].substances else Some(Join(Dedup(parts), "; ")),
              siteType := BothTypes)
  }

  /** What one pair contributes to the combined table. */
  function GroupOut(group: seq<SiteRow>): seq<SiteRow> {
    if |group| > 1 then [Merged(group)] else group
  }

  function KeyOut(rows: seq<SiteRow>, k: (string, string)): seq<SiteRow> {
    GroupOut(Members(rows, PairKey, k))
  }

  function KeyOutOf(rows: seq<SiteRow>): ((string, string)) -> seq<SiteRow> {
    k => KeyOut(rows, k)
  }

  function Regrouped(rows: seq<SiteRow>, ks: seq<(string, string)>): seq<SiteRow> {
    Flatten(ks, KeyOutOf(rows))
  }

  /** The combined table: unchanged when no pair repeats, otherwise one
      row per pair in first-seen order. */
  function Deduplicated(rows: seq<SiteRow>): seq<SiteRow> {
    if Distinct(Column(rows, PairKey)) then rows else Regrouped(rows, GroupKeys(rows, PairKey))
  }

  /** The inner loop over a repeated pair's records. */
  method MergeGroup(group: seq<SiteRow>) returns (m: SiteRow)
    requires |group| > 1
    ensures m == Merged(group)
  {
    var all: seq<string> := [];
    for i := 0 to |group|
      invariant all == Flatten(group[..i], SubstanceParts)
    {
      FlattenSnoc(group, SubstanceParts, i);
      var row := group[i];
      if HasSubstances(row.substances) {
        var parts := Tokens(row.substances.value, ";");
        all := all + parts;
      }
    }
    assert group[..|group|] == group;
    m := group[0];
    if all != [] {
      m := m.(substances := Some(Join(Dedup(all), "; ")));
    }
    m := m.(siteType := BothTypes);
  }

  method CombineAndDeduplicate(v1: seq<SiteRow>, v2: seq<SiteRow>) returns (combined: seq<SiteRow>)
    ensures combined == Deduplicated(v1 + v2)
  {
    var raw := v1 + v2;
    if raw == [] {
      return [];
    }
    if Distinct(Column(raw, PairKey)) {
      return raw;
    }
    var pairs := GroupKeys(raw, PairKey);
    combined := [];
    for i := 0 to |pairs|
      invariant combined == Regrouped(raw, pairs[..i])
    {
      FlattenSnoc(pairs, KeyOutOf(raw), i);
      var subset := Members(raw, PairKey, pairs[i]);
      if |subset| > 1 {
        var m := MergeGroup(subset);
        combined := combined + [m];
      } else {
        combined := combined + subset;
      }
    }
    assert pairs[..|pairs|] == pairs;
  }

  /** A pair present in the table contributes exactly one row, with its key. */
  lemma KeyOutSingle(rows: seq<SiteRow>, k: (string, string))
    requires k in Column(rows, PairKey)
    ensures |KeyOut(rows, k)| == 1 && PairKey(KeyOut(rows, k)[0]) == k
  {
    MembersFirst(rows, PairKey, k);
    MembersSpec(rows, PairKey, k);
    assert PairKey(Members(rows, PairKey, k)[0]) == k;
  }

  lemma RegroupedSnoc(rows: seq<SiteRow>, ks: seq<(string, string)>)
    requires ks != []
    ensures Regrouped(rows, ks) == Regrouped(rows, ks[..|ks| - 1]) + KeyOut(rows, ks[|ks| - 1])
  {
  }

  lemma {:induction false} RegroupedKeys(rows: seq<SiteRow>, ks: seq<(string, string)>)
    requires forall k :: k in ks ==> k in Column(rows, PairKey)
    ensures Column(Regrouped(rows, ks), PairKey) == ks
  {
    if ks != [] {
      var init := ks[..|ks| - 1];
      var last := ks[|ks| - 1];
      forall k | k in init ensures k in Column(rows, PairKey) {
        assert k in ks;
      }
      RegroupedKeys(rows, init);
      KeyOutSingle(rows, last);
      RegroupedSnoc(rows, ks);
      ColumnAppend(Regrouped(rows, init), KeyOut(rows, last), PairKey);
    }
  }

  /** After combining, every (site, GVFK) pair occurs exactly once, and
      the pairs are those of the input. */
  lemma DeduplicatedSpec(rows: seq<SiteRow>)
    ensures Distinct(Column(Deduplicated(rows), PairKey))
    ensures forall k :: k in Column(Deduplicated(rows), PairKey) <==> k in Column(rows, PairKey)
  {
    var col := Column(rows, PairKey);
    if !Distinct(col) {
      var ks := GroupKeys(rows, PairKey);
      forall k | k in ks ensures k in col {
        GroupKeyInColumn(rows, PairKey, k);
      }
      RegroupedKeys(rows, ks);
      GroupKeysSpec(rows, PairKey);
      assert Deduplicated(rows) == Regrouped(rows, ks);
    }
  }

  /** A pair that occurs once keeps its row unchanged. */
  lemma SinglePairUnchanged(rows: seq<SiteRow>, r: SiteRow)
    requires r in rows && |Members(rows, PairKey, PairKey(r))| == 1
    ensures r in Deduplicated(rows)
  {
    var k := PairKey(r);
    var ks := GroupKeys(rows, PairKey);
    if !Distinct(Column(rows, PairKey)) {
      SingleMember(rows, PairKey, r);
      RowInGroupKeys(rows, PairKey, r);
      assert KeyOutOf(rows)(k) == [r];
      FlattenContains(ks, KeyOutOf(rows), k, r);
    }
  }

  /** A pair that occurs several times becomes its merged row. */
  lemma RepeatedPairMerged(rows: seq<SiteRow>, k: (string, string))
    requires |Members(rows, PairKey, k)| > 1
    ensures Merged(Members(rows, PairKey, k)) in Deduplicated(rows)
  {
    var m := Members(rows, PairKey, k);
    if Distinct(Column(rows, PairKey)) {
      DistinctMembers(rows, PairKey, k);
    }
    MembersSpec(rows, PairKey, k);
    assert m[0] in m;
    var i :| 0 <= i < |rows| && rows[i] == m[0];
    assert Column(rows, PairKey)[i] == k;
    GroupKeysSpec(rows, PairKey);
    FlattenContains(GroupKeys(rows, PairKey), KeyOutOf(rows), k, Merged(m));
  }

  /** The merged row is the pair's first record typed 'V1 og V2'; its
      substance text, re-split, is the distinct substances of all the
      pair's records in first-seen order, or the first record's own text
      when none has substances. */
  lemma MergedSpec(group: seq<SiteRow>)
    requires group != []
    ensures var m := Merged(group);
      m.site == group[0].site && m.gvfk == group[0].gvfk && m.branch == group[0].branch &&
      m.activity == group[0].activity && m.siteType == BothTypes
    ensures var parts := Flatten(group, SubstanceParts);
      (parts == [] ==> Merged(group).substances == group[0].substances) &&
      (parts != [] ==> Tokens(Merged(group).substances.value, ";") == Dedup(parts) &&
                       Distinct(Dedup(parts)) &&
                       forall x :: x in Dedup(parts) <==> exists r :: r in group && x in SubstanceParts(r))
  {
    var parts := Flatten(group, SubstanceParts);
    if parts != [] {
      DedupSpec(parts);
      FlattenFrom(group, SubstanceParts);
      forall x | x in Dedup(parts) ensures x != [] && Strip(x) == x && ';' !in x {
        var r :| r in group && x in SubstanceParts(r);
        TokensFree(r.substances.value, ';');
      }
      forall x | (exists r :: r in group && x in SubstanceParts(r)) ensures x in parts {
        var r :| r in group && x in SubstanceParts(r);
        FlattenContains(group, SubstanceParts, r, x);
      }
      TokensJoin(Dedup(parts));
    }
  }

  // ---------------------------------------------------------------------
  // Site-type summary of _save_step3_results
  // ---------------------------------------------------------------------

  /** `'V1 og V2' if len(types) > 1 else list(types)[0]`, over the types of
      one site's rows. */
  function TypeLabel(types: seq<string>): string
    requires types != []
  {
    if |set t | t in types| > 1 then BothTypes else types[0]
  }

  function SiteTypes(rows: seq<SiteRow>, site: string): seq<string> {
    Column(Members(rows, (r: SiteRow) => r.site, site), (r: SiteRow) => r.siteType)
  }

  /** A site with more than one distinct type is 'V1 og V2'; otherwise it
      carries its one type, shared by all its rows. */
  lemma TypeLabelSpec(types: seq<string>)
    requires types != []
    ensures |set t | t in types| > 1 ==> TypeLabel(types) == BothTypes
    ensures |set t | t in types| <= 1 ==> forall t :: t in types ==> t == TypeLabel(types)
  {
    var ts := set t | t in types;
    assert types[0] in ts;
    if |ts| <= 1 {
      var rest := ts - {types[0]};
      assert ts == rest + {types[0]};
      assert rest == {};
      forall t | t in types ensures t == types[0] {
        assert t !in rest;
      }
    }
  }
}
