/** The Step 5 category-threshold tally (step5_compound_threshold_counts):
    each site's substance text is cut into tokens, every token is
    categorised first-match against the compound distance table and flagged
    as lying within that category's distance or not, and the flags are
    summarised per category and per (category, substance). */
module ThresholdCounts {
  import opened Wrappers
  import opened Text
  import opened Grouping
  import opened Keywords
  import opened Categorisers

  // ---------------------------------------------------------------------
  // The site id column
  // ---------------------------------------------------------------------

  const SiteIdColumn: string := "Lokalitet_ID"
  const SiteIdShortColumn: string := "Lokalitet_"

  /** A column whose lower-cased name is one of the accepted site id names. */
  predicate IsSiteIdName(c: string) {
    Lower(c) == "lokalitet_id" || Lower(c) == "lokalitet_"
  }

  /** The first column, in table order, that is a site id name up to case. */
  function CaseInsensitiveSiteId(columns: seq<string>): (r: Option<nat>)
    ensures r.Some? ==> r.value < |columns| && IsSiteIdName(columns[r.value])
    ensures r.Some? ==> forall j :: 0 <= j < r.value ==> !IsSiteIdName(columns[j])
    ensures r.None? <==> forall j :: 0 <= j < |columns| ==> !IsSiteIdName(columns[j])
  {
    if columns == [] then None
    else if IsSiteIdName(columns[0]) then Some(0)
    else match CaseInsensitiveSiteId(columns[1..])
      case None => None
      case Some(k) => Some(k + 1)
  }

  /** `_resolve_site_id_col`: 'Lokalitet_ID', else 'Lokalitet_', else the
      first column matching either name up to case, else a KeyError. */
  function ResolveSiteIdCol(columns: seq<string>): Result<string> {
    if SiteIdColumn in columns then Ok(SiteIdColumn)
    else if SiteIdShortColumn in columns then Ok(SiteIdShortColumn)
    else match CaseInsensitiveSiteId(columns)
      case Some(i) => Ok(columns[i])
      case None => Err(KeyError(SiteIdColumn))
  }

  /** The exact names win in their order; otherwise the first column that
      matches up to case; the error is raised exactly when no column
      matches in any case. */
  lemma ResolveSiteIdColSpec(columns: seq<string>)
    ensures SiteIdColumn in columns ==> ResolveSiteIdCol(columns) == Ok(SiteIdColumn)
    ensures SiteIdColumn !in columns && SiteIdShortColumn in columns ==>
      ResolveSiteIdCol(columns) == Ok(SiteIdShortColumn)
    ensures ResolveSiteIdCol(columns).Ok? ==> ResolveSiteIdCol(columns).value in columns
    ensures ResolveSiteIdCol(columns).Err? <==>
      SiteIdColumn !in columns && SiteIdShortColumn !in columns &&
      forall j :: 0 <= j < |columns| ==> !IsSiteIdName(columns[j])
    ensures SiteIdColumn !in columns && SiteIdShortColumn !in columns ==>
      forall i :: (0 <= i < |columns| && IsSiteIdName(columns[i]) &&
                  (forall j :: 0 <= j < i ==> !IsSiteIdName(columns[j]))) ==>
        ResolveSiteIdCol(columns) == Ok(columns[i])
  {
  }

  // ---------------------------------------------------------------------
  // Token explosion
  // ---------------------------------------------------------------------

  /** `s.replace(';', ',')`. */
  function SemicolonsAsCommas(s: string): (r: string)
    ensures |r| == |s|
    ensures forall i :: 0 <= i < |s| ==> r[i] == (if s[i] == ';' then ',' else s[i])
  {
    seq(|s|, i requires 0 <= i < |s| => if s[i] == ';' then ',' else s[i])
  }

  /** The substance tokens of one site: none for a missing or blank text,
      otherwise the trimmed non-empty pieces between ',' and ';'. */
  function SubstanceTokens(raw: Option<string>): seq<string> {
    if raw.None? || Strip(raw.value) == [] then []
    else Tokens(SemicolonsAsCommas(raw.value), ",")
  }

  /** Tokens are trimmed and non-empty and hold neither separator. */
  lemma SubstanceTokensSpec(raw: Option<string>)
    ensures forall tok :: tok in SubstanceTokens(raw) ==>
      tok != [] && Strip(tok) == tok && ',' !in tok && ';' !in tok
  {
    if raw.Some? && Strip(raw.value) != [] {
      var u := SemicolonsAsCommas(raw.value);
      assert ';' !in u;
      SplitPiecesFree(u, ",");
      forall tok | tok in SubstanceTokens(raw) ensures ',' !in tok && ';' !in tok {
        StripAllFrom(Split(u, ","), tok);
        var p :| p in Split(u, ",") && tok == Strip(p);
        SeparatorFree(p, ',');
        if ',' in tok { StripWithin(p, ','); }
        if ';' in tok {
          StripWithin(p, ';');
          SplitPieceWithin(u, ",", p, ';');
        }
      }
    }
  }

  /** ';' acts exactly as ',' does, and a text without ';' is split at ','
      alone. */
  lemma SemicolonIsComma(s: string)
    ensures SubstanceTokens(Some(s)) == SubstanceTokens(Some(SemicolonsAsCommas(s)))
    ensures ';' !in s && !Blank(s) ==> SubstanceTokens(Some(s)) == Tokens(s, ",")
  {
    var u := SemicolonsAsCommas(s);
    CommasStay(s);
    SameBlank(s);
    if ';' !in s {
      assert u == s;
    }
  }

  lemma CommasStay(s: string)
    ensures SemicolonsAsCommas(SemicolonsAsCommas(s)) == SemicolonsAsCommas(s)
  {
  }

  lemma SameBlank(s: string)
    ensures Strip(s) == [] <==> Strip(SemicolonsAsCommas(s)) == []
  {
    var u := SemicolonsAsCommas(s);
    assert Blank(s) <==> Blank(u) by {
      forall i | 0 <= i < |s| ensures IsSpace(s[i]) == IsSpace(u[i]) {}
    }
    StripEmptyIffBlank(s);
    StripEmptyIffBlank(u);
  }

  // ---------------------------------------------------------------------
  // Per-substance flags
  // ---------------------------------------------------------------------

  /** One row of the Step 4 table: the value of each column that holds
      text (the site id among them), and the columns the flags use. */
  datatype Site = Site(
    cells: map<string, string>,
    gvfk: Option<string>,
    siteType: Option<string>,
    finalDistance: Option<real>,
    substances: Option<string>)

  /** One row of the per-substance flags table. */
  datatype FlagRow = FlagRow(
    siteId: string,
    gvfk: Option<string>,
    siteType: Option<string>,
    finalDistance: Option<real>,
    substance: Option<string>,
    category: string,
    categoryDistance: Option<real>,
    within: bool)

  /** `float(dist) <= float(limit)`, false when either is missing or NaN. */
  predicate WithinThreshold(d: Option<real>, limit: Option<real>) {
    d.Some? && limit.Some? && d.value <= limit.value
  }

  /** The row recording that a site has no substance token. */
  function AbsentRow(id: string, s: Site): FlagRow {
    FlagRow(id, s.gvfk, s.siteType, s.finalDistance, None, Uncategorized, None, false)
  }

  function TokenRow(t: seq<Category>, id: string, s: Site, tok: string): FlagRow {
    var v := FirstMatchCategorize(t, Some(tok));
    FlagRow(id, s.gvfk, s.siteType, s.finalDistance, Some(tok), v.category, v.distance,
            WithinThreshold(s.finalDistance, v.distance))
  }

  function TokenRows(t: seq<Category>, id: string, s: Site, toks: seq<string>): seq<FlagRow> {
    if toks == [] then []
    else TokenRows(t, id, s, toks[..|toks| - 1]) + [TokenRow(t, id, s, toks[|toks| - 1])]
  }

  function SiteRows(t: seq<Category>, col: string, s: Site): seq<FlagRow>
    requires col in s.cells
  {
    var toks := SubstanceTokens(s.substances);
    if toks == [] then [AbsentRow(s.cells[col], s)] else TokenRows(t, s.cells[col], s, toks)
  }

  function FlagRows(t: seq<Category>, col: string, sites: seq<Site>): seq<FlagRow>
    requires forall s :: s in sites ==> col in s.cells
  {
    if sites == [] then []
    else FlagRows(t, col, sites[..|sites| - 1]) + SiteRows(t, col, sites[|sites| - 1])
  }

  /** The inner loop over one site's tokens. */
  method FlagTokens(t: seq<Category>, id: string, s: Site, tokens: seq<string>) returns (rows: seq<FlagRow>)
    ensures rows == TokenRows(t, id, s, tokens)
  {
    rows := [];
    var j := 0;
    while j < |tokens|
      invariant 0 <= j <= |tokens|
      invariant rows == TokenRows(t, id, s, tokens[..j])
    {
      var v := CategorizeFirstMatch(t, Some(tokens[j]));
      var within := false;
      if v.distance.Some? && s.finalDistance.Some? {
        within := s.finalDistance.value <= v.distance.value;
      }
      assert tokens[..j + 1][..j] == tokens[..j];
      rows := rows + [FlagRow(id, s.gvfk, s.siteType, s.finalDistance, Some(tokens[j]),
                              v.category, v.distance, within)];
      j := j + 1;
    }
    assert tokens[..|tokens|] == tokens;
  }

  /** The explosion loop of `run_step5_category_thresholds`. */
  method ExplodeSites(t: seq<Category>, col: string, sites: seq<Site>) returns (rows: seq<FlagRow>)
    requires forall s :: s in sites ==> col in s.cells
    ensures rows == FlagRows(t, col, sites)
  {
    rows := [];
    var i := 0;
    while i < |sites|
      invariant 0 <= i <= |sites|
      invariant rows == FlagRows(t, col, sites[..i])
    {
      var s := sites[i];
      var id := s.cells[col];
      var tokens := SubstanceTokens(s.substances);
      assert sites[..i + 1][..i] == sites[..i];
      if tokens == [] {
        rows := rows + [AbsentRow(id, s)];
      } else {
        var flags := FlagTokens(t, id, s, tokens);
        rows := rows + flags;
      }
      i := i + 1;
    }
    assert sites[..|sites|] == sites;
  }

  /** A token row flags its own categorisation; the absence row is
      UNCATEGORIZED without a distance and never within. */
  predicate Consistent(r: FlagRow) {
    r.within == WithinThreshold(r.finalDistance, r.categoryDistance) &&
    (r.substance.None? ==> r.category == Uncategorized && r.categoryDistance.None? && !r.within)
  }

  lemma {:induction false} TokenRowsSpec(t: seq<Category>, id: string, s: Site, toks: seq<string>)
    ensures |TokenRows(t, id, s, toks)| == |toks|
    ensures forall i :: 0 <= i < |toks| ==> TokenRows(t, id, s, toks)[i] == TokenRow(t, id, s, toks[i])
  {
    if toks != [] {
      var init := toks[..|toks| - 1];
      TokenRowsSpec(t, id, s, init);
      var rs, ri := TokenRows(t, id, s, toks), TokenRows(t, id, s, init);
      assert rs == ri + [TokenRow(t, id, s, toks[|toks| - 1])];
      forall i | 0 <= i < |toks| ensures rs[i] == TokenRow(t, id, s, toks[i]) {
        if i < |init| {
          assert rs[i] == ri[i] && init[i] == toks[i];
        }
      }
    }
  }

  /** A site yields one row per token, in token order, each with the
      first-match category of its token; a site with no token yields
      exactly one UNCATEGORIZED row that is not within. */
  lemma SiteRowsSpec(t: seq<Category>, col: string, s: Site)
    requires col in s.cells
    ensures var toks := SubstanceTokens(s.substances);
      toks == [] ==> SiteRows(t, col, s) == [AbsentRow(s.cells[col], s)]
    ensures var toks := SubstanceTokens(s.substances);
      |SiteRows(t, col, s)| == (if toks == [] then 1 else |toks|)
    ensures var toks := SubstanceTokens(s.substances);
      forall i :: 0 <= i < |toks| ==> SiteRows(t, col, s)[i] == TokenRow(t, s.cells[col], s, toks[i])
    ensures forall r :: r in SiteRows(t, col, s) ==> Consistent(r) && r.siteId == s.cells[col]
  {
    var toks := SubstanceTokens(s.substances);
    TokenRowsSpec(t, s.cells[col], s, toks);
  }

  /** Every flag row is consistent and belongs to one of the sites. */
  lemma {:induction false} FlagRowsSpec(t: seq<Category>, col: string, sites: seq<Site>)
    requires forall s :: s in sites ==> col in s.cells
    ensures forall r :: r in FlagRows(t, col, sites) ==>
      Consistent(r) && exists s :: s in sites && r in SiteRows(t, col, s)
  {
    if sites != [] {
      var init := sites[..|sites| - 1];
      var last := sites[|sites| - 1];
      FlagRowsSpec(t, col, init);
      SiteRowsSpec(t, col, last);
      forall r | r in FlagRows(t, col, sites)
        ensures Consistent(r) && exists s :: s in sites && r in SiteRows(t, col, s)
      {
        if r in FlagRows(t, col, init) {
          var s :| s in init && r in SiteRows(t, col, s);
          assert s in sites;
        } else {
          assert r in SiteRows(t, col, last);
        }
      }
    }
  }

  /** Every site yields at least one flag row, so the flags are empty
      exactly when the table is. */
  lemma {:induction false} FlagRowsCount(t: seq<Category>, col: string, sites: seq<Site>)
    requires forall s :: s in sites ==> col in s.cells
    ensures |FlagRows(t, col, sites)| >= |sites|
    ensures FlagRows(t, col, sites) == [] <==> sites == []
  {
    if sites != [] {
      var init := sites[..|sites| - 1];
      assert forall s :: s in init ==> s in sites;
      FlagRowsCount(t, col, init);
      SiteRowsSpec(t, col, sites[|sites| - 1]);
    }
  }

  // ---------------------------------------------------------------------
  // The whole run
  // ---------------------------------------------------------------------

  const FinalDistanceColumn: string := "Final_Distance_m"
  const SubstancesColumn: string := "Lokalitetensstoffer"
  const FlagSubstanceColumn: string := "Substance"

  /** The outcome of `run_step5_category_thresholds` on a loaded table:
      skipped because a column is missing (the source prints and returns
      an empty dict), failed with a KeyError, or the flags. The KeyError
      is the site id one, or 'Substance' for a table without rows: the
      flags frame built from no rows has no columns, and the summary
      reads its Substance column. */
  datatype Outcome = Skipped(missing: string) | Failed(error: Error) | Flagged(rows: seq<FlagRow>)

  predicate Rectangular(columns: seq<string>, sites: seq<Site>) {
    forall s :: s in sites ==> forall c :: c in columns ==> c in s.cells
  }

  function ThresholdRun(t: seq<Category>, columns: seq<string>, sites: seq<Site>): Outcome
    requires Rectangular(columns, sites)
  {
    if FinalDistanceColumn !in columns then Skipped(FinalDistanceColumn)
    else if SubstancesColumn !in columns then Skipped(SubstancesColumn)
    else match ResolveSiteIdCol(columns)
      case Err(e) => Failed(e)
      case Ok(col) =>
        ResolveSiteIdColSpec(columns);
        if sites == [] then Failed(KeyError(FlagSubstanceColumn))
        else Flagged(FlagRows(t, col, sites))
  }

  /** The run flags rows only for a non-empty table with both columns and
      a site id column; a table with those columns but no rows raises the
      KeyError on 'Substance'. */
  lemma ThresholdRunSpec(t: seq<Category>, columns: seq<string>, sites: seq<Site>)
    requires Rectangular(columns, sites)
    ensures ThresholdRun(t, columns, sites).Flagged? <==>
      FinalDistanceColumn in columns && SubstancesColumn in columns &&
      ResolveSiteIdCol(columns).Ok? && sites != []
    ensures (FinalDistanceColumn in columns && SubstancesColumn in columns &&
             ResolveSiteIdCol(columns).Ok? && sites == []) ==>
      ThresholdRun(t, columns, sites) == Failed(KeyError(FlagSubstanceColumn))
    ensures ThresholdRun(t, columns, sites).Flagged? ==> ThresholdRun(t, columns, sites).rows != []
  {
    if FinalDistanceColumn in columns && SubstancesColumn in columns && ResolveSiteIdCol(columns).Ok? {
      ResolveSiteIdColSpec(columns);
      FlagRowsCount(t, ResolveSiteIdCol(columns).value, sites);
    }
  }

  method RunCategoryThresholds(t: seq<Category>, columns: seq<string>, sites: seq<Site>) returns (o: Outcome)
    requires Rectangular(columns, sites)
    ensures o == ThresholdRun(t, columns, sites)
    ensures o.Flagged? ==> forall r :: r in o.rows ==> Consistent(r)
    ensures o.Flagged? ==> |o.rows| >= |sites| > 0
  {
    if FinalDistanceColumn !in columns {
      return Skipped(FinalDistanceColumn);
    }
    if SubstancesColumn !in columns {
      return Skipped(SubstancesColumn);
    }
    var col := ResolveSiteIdCol(columns);
    if col.Err? {
      return Failed(col.error);
    }
    ResolveSiteIdColSpec(columns);
    var rows := ExplodeSites(t, col.value, sites);
    if rows == [] {
      FlagRowsCount(t, col.value, sites);
      return Failed(KeyError(FlagSubstanceColumn));
    }
    FlagRowsSpec(t, col.value, sites);
    FlagRowsCount(t, col.value, sites);
    return Flagged(rows);
  }

  // ---------------------------------------------------------------------
  // Summaries
  // ---------------------------------------------------------------------

  function HasSubstance(r: FlagRow): real {
    if r.substance.Some? then 1.0 else 0.0
  }

  function IsWithin(r: FlagRow): real {
    if r.within then 1.0 else 0.0
  }

  function CategoryOf(r: FlagRow): string {
    r.category
  }

  /** `100 * within / total` where total is positive, 0 otherwise. */
  function Pct(within: real, total: real): real {
    if total > 0.0 then 100.0 * (within / total) else 0.0
  }

  datatype CategorySummary = CategorySummary(category: string, totalTokens: real, withinTokens: real, withinPct: real)

  function CategoryRow(rows: seq<FlagRow>, k: string): CategorySummary {
    var g := Members(rows, CategoryOf, k);
    var total := SumBy(g, HasSubstance);
    var within := SumBy(g, IsWithin);
    CategorySummary(k, total, within, Pct(within, total))
  }

  /** The per-category summary, one row per category in first-seen order. */
  function CategorySummaries(rows: seq<FlagRow>): seq<CategorySummary> {
    var ks := GroupKeys(rows, CategoryOf);
    seq(|ks|, i requires 0 <= i < |ks| => CategoryRow(rows, ks[i]))
  }

  lemma {:induction false} SumByNonNegative(g: seq<FlagRow>, f: FlagRow -> real)
    requires forall r :: f(r) >= 0.0
    ensures SumBy(g, f) >= 0.0
  {
    if g != [] {
      SumByNonNegative(g[1..], f);
    }
  }

  /** Rows within the threshold all carry a substance, so they are never
      more than the substance rows. */
  lemma {:induction false} WithinAtMostTotal(g: seq<FlagRow>)
    requires forall r :: r in g ==> Consistent(r)
    ensures 0.0 <= SumBy(g, IsWithin) <= SumBy(g, HasSubstance)
  {
    if g != [] {
      assert g[0] in g;
      assert forall r :: r in g[1..] ==> r in g;
      WithinAtMostTotal(g[1..]);
    }
  }

  lemma PctBounds(within: real, total: real)
    requires 0.0 <= within <= total
    ensures 0.0 <= Pct(within, total) <= 100.0
    ensures Pct(within, total) == 100.0 <==> total > 0.0 && within == total
  {
    if total > 0.0 {
      assert within / total <= 1.0;
      assert within / total == 1.0 <==> within == total;
    }
  }

  /** Over consistent flags, each category's within count lies between 0
      and its token count, so the percentage is a percentage; and the
      token counts of all categories add up to the substance rows. */
  lemma CategorySummariesSpec(rows: seq<FlagRow>)
    requires forall r :: r in rows ==> Consistent(r)
    ensures forall c :: c in CategorySummaries(rows) ==>
      0.0 <= c.withinTokens <= c.totalTokens && 0.0 <= c.withinPct <= 100.0
    ensures forall i :: 0 <= i < |CategorySummaries(rows)| ==>
      CategorySummaries(rows)[i].category == GroupKeys(rows, CategoryOf)[i]
    ensures SumOver(GroupKeys(rows, CategoryOf), k => CategoryRow(rows, k).totalTokens) == SumBy(rows, HasSubstance)
  {
    forall c | c in CategorySummaries(rows)
      ensures 0.0 <= c.withinTokens <= c.totalTokens && 0.0 <= c.withinPct <= 100.0
    {
      var g := Members(rows, CategoryOf, c.category);
      MembersSpec(rows, CategoryOf, c.category);
      WithinAtMostTotal(g);
      PctBounds(c.withinTokens, c.totalTokens);
    }
    GroupSumsTotalOwnKeys(rows, CategoryOf, HasSubstance, k => CategoryRow(rows, k).totalTokens);
  }

  function HasSubstanceRows(rows: seq<FlagRow>): (r: seq<FlagRow>)
    ensures forall x :: x in r <==> x in rows && x.substance.Some?
  {
    if rows == [] then []
    else (if rows[0].substance.Some? then [rows[0]] else []) + HasSubstanceRows(rows[1..])
  }

  function PairOf(r: FlagRow): (string, string) {
    (r.category, r.substance.GetOr(""))
  }

  datatype SubstanceSummary = SubstanceSummary(category: string, substance: string, total: real, within: real, withinPct: real)

  function SubstanceRow(rows: seq<FlagRow>, k: (string, string)): SubstanceSummary {
    var g := Members(HasSubstanceRows(rows), PairOf, k);
    var total := |g| as real;
    var within := SumBy(g, IsWithin);
    SubstanceSummary(k.0, k.1, total, within, Pct(within, total))
  }

  /** The per-(category, substance) summary over the rows with a substance. */
  function SubstanceSummaries(rows: seq<FlagRow>): seq<SubstanceSummary> {
    var ks := GroupKeys(HasSubstanceRows(rows), PairOf);
    seq(|ks|, i requires 0 <= i < |ks| => SubstanceRow(rows, ks[i]))
  }

  lemma {:induction false} HasSubstanceRowsCount(rows: seq<FlagRow>)
    ensures |HasSubstanceRows(rows)| as real == SumBy(rows, HasSubstance)
  {
    if rows != [] {
      HasSubstanceRowsCount(rows[1..]);
    }
  }

  /** Every (category, substance) group is non-empty, its within count lies
      between 0 and its size, and the group sizes add up to the substance
      rows: the same total as the per-category token counts. */
  lemma SubstanceSummariesSpec(rows: seq<FlagRow>)
    requires forall r :: r in rows ==> Consistent(r)
    ensures forall c :: c in SubstanceSummaries(rows) ==>
      1.0 <= c.total && 0.0 <= c.within <= c.total && 0.0 <= c.withinPct <= 100.0
    ensures SumOver(GroupKeys(HasSubstanceRows(rows), PairOf), k => SubstanceRow(rows, k).total) == SumBy(rows, HasSubstance)
  {
    var h := HasSubstanceRows(rows);
    var ks := GroupKeys(h, PairOf);
    GroupKeysSpec(h, PairOf);
    forall c | c in SubstanceSummaries(rows)
      ensures 1.0 <= c.total && 0.0 <= c.within <= c.total && 0.0 <= c.withinPct <= 100.0
    {
      var i :| 0 <= i < |ks| && c == SubstanceRow(rows, ks[i]);
      var g := Members(h, PairOf, ks[i]);
      MembersFirst(h, PairOf, ks[i]);
      MembersSpec(h, PairOf, ks[i]);
      var one := (r: FlagRow) => 1.0;
      SumOfOnes(g, one);
      WithinAtMostTotal(g);
      assert SumBy(g, HasSubstance) == SumBy(g, one) by {
        HasSubstanceOnes(g);
      }
      PctBounds(c.within, c.total);
    }
    var one := (r: FlagRow) => 1.0;
    forall k ensures SubstanceRow(rows, k).total == SumBy(Members(h, PairOf, k), one) {
      SumOfOnes(Members(h, PairOf, k), one);
    }
    GroupSumsTotalOwnKeys(h, PairOf, one, k => SubstanceRow(rows, k).total);
    SumOfOnes(h, one);
    HasSubstanceRowsCount(rows);
  }

  lemma {:induction false} HasSubstanceOnes(g: seq<FlagRow>)
    requires forall r :: r in g ==> r.substance.Some?
    ensures SumBy(g, HasSubstance) == |g| as real
  {
    if g != [] {
      assert g[0] in g;
      assert forall r :: r in g[1..] ==> r in g;
      HasSubstanceOnes(g[1..]);
    }
  }
}
