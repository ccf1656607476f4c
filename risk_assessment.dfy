/** The Step 5 risk assessment (risikovurdering/step5_risk_assessment.py):
    the general 500 m filter, the compound-specific filter that turns each
    site into one row per qualifying substance (or one row for a site known
    only by branch and activity), and the landfill override that relabels
    rows at landfill sites. Landfill detection goes through the keyword
    statistics object, which counts every detection. */
module RiskAssessment {
  import opened Wrappers
  import opened Grouping
  import opened Text
  import opened Keywords
  import opened Categorisers
  import opened LandfillScreen
  import KeywordTables

  /** One row of the Step 4 site-GVFK table, with the columns Step 5 reads. */
  datatype DistanceRow = DistanceRow(
    site: string,
    gvfk: Option<string>,
    distance: Option<real>,
    substances: Option<string>,
    branch: Option<string>,
    activity: Option<string>)

  /** `distance <= limit`, false for a missing (NaN) distance. */
  predicate Within(d: Option<real>, limit: real) {
    d.Some? && d.value <= limit
  }

  // ---------------------------------------------------------------------
  // run_general_assessment
  // ---------------------------------------------------------------------

  function GeneralAssessment(rows: seq<DistanceRow>, threshold: real): seq<DistanceRow> {
    if rows == [] then []
    else (if Within(rows[0].distance, threshold) then [rows[0]] else []) + GeneralAssessment(rows[1..], threshold)
  }

  /** Exactly the rows within the threshold survive, in table order (the
      survivors of a row prefix are a prefix of the survivors). */
  lemma {:induction false} GeneralAssessmentSpec(rows: seq<DistanceRow>, threshold: real)
    ensures forall r :: r in GeneralAssessment(rows, threshold) <==> r in rows && Within(r.distance, threshold)
    ensures |GeneralAssessment(rows, threshold)| <= |rows|
    ensures forall r :: r in rows && r.distance.Some? && r.distance.value <= threshold ==>
      r in GeneralAssessment(rows, threshold)
  {
    if rows != [] {
      GeneralAssessmentSpec(rows[1..], threshold);
      assert rows == [rows[0]] + rows[1..];
    }
  }

  // ---------------------------------------------------------------------
  // Landfill thresholds
  // ---------------------------------------------------------------------

  const Solvents: string := "KLOREREDE_OPL\U{00D8}SNINGSMIDLER"
  const ChlorinatedHydrocarbons: string := "KLOREDE_KULBRINTER"

  /** `LANDFILL_THRESHOLDS` as written. */
  const LandfillThresholds: map<string, real> := map[
    "BTXER" := 70.0,
    Solvents := 100.0,
    "PHENOLER" := 35.0,
    "PESTICIDER" := 180.0,
    "UORGANISKE_FORBINDELSER" := 50.0]

  /** The table with the solvents threshold under the name the compound
      category table now gives chlorinated solvents. */
  const CorrectedLandfillThresholds: map<string, real> := map[
    "BTXER" := 70.0,
    ChlorinatedHydrocarbons := 100.0,
    "PHENOLER" := 35.0,
    "PESTICIDER" := 180.0,
    "UORGANISKE_FORBINDELSER" := 50.0]

  /** The solvents key is not a category of the compound table, while the
      chlorinated solvents' category has no landfill threshold: whatever
      the text, the Step 5 categoriser never yields the solvents key, so the
      100 m landfill threshold for solvents never applies. */
  lemma SolventsThresholdUnreachable(text: Option<string>)
    ensures Solvents in LandfillThresholds && ChlorinatedHydrocarbons !in LandfillThresholds
    ensures SubstanceVerdict(KeywordTables.CompoundCategories, text).0 != Solvents
  {
    SolventsKeyed();
    SolventsNotACategory();
    VerdictOutside(KeywordTables.CompoundCategories, text, Solvents);
  }

  lemma SolventsKeyed()
    ensures Solvents in LandfillThresholds && ChlorinatedHydrocarbons !in LandfillThresholds
  {
  }

  /** A name that is neither a category of the table nor the fallback is
      never the verdict. */
  lemma VerdictOutside(t: seq<Category>, text: Option<string>, name: string)
    requires name !in Names(t) && name != Andre
    ensures SubstanceVerdict(t, text).0 != name
  {
    SubstanceVerdictSpec(t, text);
  }

  /** The category names of the Step 5 compound table, in table order. */
  lemma CompoundNames()
    ensures Names(KeywordTables.CompoundCategories) == ["BTXER", ChlorinatedHydrocarbons, "POLARE_FORBINDELSER",
      "PHENOLER", "ANDRE_AROMATISKE_FORBINDELSER", "KLOREREDE_PHENOLER", "PAH_FORBINDELSER", "PESTICIDER",
      "PFAS", "UORGANISKE_FORBINDELSER", Losseplads]
  {
  }

  lemma SolventsNotACategory()
    ensures Solvents !in Names(KeywordTables.CompoundCategories) && Solvents != Andre
    ensures ChlorinatedHydrocarbons in Names(KeywordTables.CompoundCategories)
  {
    CompoundNames();
  }

  /** Every key of the corrected table is a category the Step 5
      categoriser can yield. */
  lemma CorrectedThresholdsReachable()
    ensures forall k :: k in CorrectedLandfillThresholds ==> k in Names(KeywordTables.CompoundCategories)
  {
    CompoundNames();
  }

  /** The corrected table differs from the written one only in the name
      of the solvents key. */
  lemma CorrectedThresholdsRenameOnly()
    ensures CorrectedLandfillThresholds.Keys - {ChlorinatedHydrocarbons} == LandfillThresholds.Keys - {Solvents}
    ensures forall k :: k in CorrectedLandfillThresholds && k != ChlorinatedHydrocarbons ==>
      k in LandfillThresholds && CorrectedLandfillThresholds[k] == LandfillThresholds[k]
    ensures CorrectedLandfillThresholds[ChlorinatedHydrocarbons] == LandfillThresholds[Solvents]
  {
  }

  // ---------------------------------------------------------------------
  // apply_compound_filtering
  // ---------------------------------------------------------------------

  /** `_has_landfill_keywords` of the filter: a third list, the union of
      the other two. */
  const SiteLandfillTerms: seq<string> := ["losseplads", "affald", "depon", "deponi", "fyld", "fyldplads", "skraldeplads"]

  predicate HasSiteLandfillTerm(text: Option<string>) {
    text.Some? && exists j :: 0 <= j < |SiteLandfillTerms| && Contains(Lower(text.value), SiteLandfillTerms[j])
  }

  predicate IsLandfillSite(r: DistanceRow) {
    HasSiteLandfillTerm(r.branch) || HasSiteLandfillTerm(r.activity)
  }

  /** A term the categoriser finds is also one of the filter's. */
  lemma LandfillHitMeansSiteTerm(text: Option<string>)
    requires LandfillHit(text).Some?
    ensures HasSiteLandfillTerm(text)
  {
    LandfillHitSpec(text);
    var s := Lower(text.value);
    var i :| 0 <= i < |LandfillTerms| && LandfillHit(text).value == LandfillTerms[i] && Contains(s, LandfillTerms[i]);
    var j := if i <= 2 then i else i + 2;
    assert SiteLandfillTerms[j] == LandfillTerms[i];
  }

  /** The substance test of the filter: `str()` turns a NaN cell into
      'nan', which the test rejects together with blank text, so it is the
      same test as the split's. */
  predicate HasSubstanceData(r: DistanceRow) {
    HasSubstances(r.substances)
  }

  /** One qualifying site-substance (or site-branch) combination with the
      override columns. */
  datatype Combo = Combo(
    row: DistanceRow,
    substance: string,
    category: string,
    threshold: real,
    subcategory: Option<string>,
    original: Option<string>,
    overrideApplied: bool)

  /** The threshold a substance of this category is held to at this site. */
  function Effective(lt: map<string, real>, r: DistanceRow, category: string, own: real): real {
    if IsLandfillSite(r) && category in lt then lt[category] else own
  }

  function SubstanceCombo(t: seq<Category>, lt: map<string, real>, r: DistanceRow, tok: string): seq<Combo> {
    var (category, own) := SubstanceVerdict(t, Some(tok));
    if Within(r.distance, Effective(lt, r, category, own)) then [Combo(r, tok, category, own, None, None, false)]
    else []
  }

  function SubstanceCombos(t: seq<Category>, lt: map<string, real>, r: DistanceRow, toks: seq<string>): seq<Combo> {
    if toks == [] then []
    else SubstanceCombos(t, lt, r, toks[..|toks| - 1]) + SubstanceCombo(t, lt, r, toks[|toks| - 1])
  }

  const BranchPrefix: string := "Branch/Activity: "

  function BranchCombo(t: seq<Category>, r: DistanceRow): seq<Combo> {
    var (category, own) := BranchActivityVerdict(t, r.branch, r.activity);
    if Within(r.distance, own) then [Combo(r, BranchPrefix + category, category, own, None, None, false)] else []
  }

  /** `[s.strip() for s in substances_str.split(";") if s.strip()]`. */
  function SubstanceList(r: DistanceRow): seq<string>
    requires r.substances.Some?
  {
    Tokens(r.substances.value, ";")
  }

  function RowCombos(t: seq<Category>, lt: map<string, real>, r: DistanceRow): seq<Combo> {
    if HasSubstanceData(r) then SubstanceCombos(t, lt, r, SubstanceList(r)) else BranchCombo(t, r)
  }

  function Combinations(t: seq<Category>, lt: map<string, real>, rows: seq<DistanceRow>): seq<Combo> {
    Flatten(rows, r => RowCombos(t, lt, r))
  }

  /** The landfill detection one row costs the filter: rows without
      substance data go through the branch/activity categoriser. */
  function RowChecks(r: DistanceRow): seq<(Option<string>, Option<string>)> {
    if HasSubstanceData(r) then [] else [(r.branch, r.activity)]
  }

  /** The landfill detections the filter makes, in row order. */
  function FilterChecks(rows: seq<DistanceRow>): seq<(Option<string>, Option<string>)> {
    Flatten(rows, RowChecks)
  }

  /** The loop over one site's substances. */
  method SubstanceCombinations(t: seq<Category>, lt: map<string, real>, r: DistanceRow, substances: seq<string>)
    returns (combos: seq<Combo>)
    ensures combos == SubstanceCombos(t, lt, r, substances)
  {
    combos := [];
    var j := 0;
    while j < |substances|
      invariant 0 <= j <= |substances|
      invariant combos == SubstanceCombos(t, lt, r, substances[..j])
    {
      var tok := substances[j];
      var category, own := CategorizeContaminationSubstance(t, Some(tok));
      assert SubstanceCombos(t, lt, r, substances[..j + 1]) == combos + SubstanceCombo(t, lt, r, tok) by {
        assert substances[..j + 1][..j] == substances[..j];
      }
      var effective := Effective(lt, r, category, own);
      if Within(r.distance, effective) {
        combos := combos + [Combo(r, tok, category, own, None, None, false)];
      }
      j := j + 1;
    }
    assert substances[..|substances|] == substances;
  }

  /** The body of the row loop of `apply_compound_filtering`. */
  method RowCombinations(stats: KeywordStats, t: seq<Category>, lt: map<string, real>, r: DistanceRow)
    returns (combos: seq<Combo>)
    requires stats.Valid()
    modifies stats
    ensures stats.Valid() && stats.checks == old(stats.checks) + RowChecks(r)
    ensures combos == RowCombos(t, lt, r)
  {
    if HasSubstanceData(r) {
      combos := SubstanceCombinations(t, lt, r, SubstanceList(r));
    } else {
      var category, own := stats.CategorizeByBranchActivity(t, r.branch, r.activity);
      combos := if Within(r.distance, own) then [Combo(r, BranchPrefix + category, category, own, None, None, false)] else [];
    }
  }

  /** The row loop of `apply_compound_filtering`, before the override. */
  method CollectCombinations(stats: KeywordStats, t: seq<Category>, lt: map<string, real>, rows: seq<DistanceRow>)
    returns (combos: seq<Combo>)
    requires stats.Valid()
    modifies stats
    ensures stats.Valid() && stats.checks == old(stats.checks) + FilterChecks(rows)
    ensures combos == Combinations(t, lt, rows)
  {
    combos := [];
    var i := 0;
    while i < |rows|
      invariant 0 <= i <= |rows|
      invariant stats.Valid() && stats.checks == old(stats.checks) + FilterChecks(rows[..i])
      invariant combos == Combinations(t, lt, rows[..i])
    {
      ghost var before := stats.checks;
      var more := RowCombinations(stats, t, lt, rows[i]);
      assert stats.checks == old(stats.checks) + FilterChecks(rows[..i + 1]) by {
        FlattenSnoc(rows, RowChecks, i);
        assert stats.checks == before + RowChecks(rows[i]);
      }
      assert combos + more == Combinations(t, lt, rows[..i + 1]) by {
        FlattenSnoc(rows, r => RowCombos(t, lt, r), i);
      }
      combos := combos + more;
      i := i + 1;
    }
    assert rows[..|rows|] == rows;
  }

  lemma {:induction false} SubstanceCombosSpec(t: seq<Category>, lt: map<string, real>, r: DistanceRow, toks: seq<string>)
    ensures |SubstanceCombos(t, lt, r, toks)| <= |toks|
    ensures forall c :: c in SubstanceCombos(t, lt, r, toks) ==>
      exists j :: 0 <= j < |toks| && SubstanceCombo(t, lt, r, toks[j]) == [c]
  {
    if toks != [] {
      var init := toks[..|toks| - 1];
      SubstanceCombosSpec(t, lt, r, init);
      forall c | c in SubstanceCombos(t, lt, r, toks)
        ensures exists j :: 0 <= j < |toks| && SubstanceCombo(t, lt, r, toks[j]) == [c]
      {
        if c in SubstanceCombos(t, lt, r, init) {
          var j :| 0 <= j < |init| && SubstanceCombo(t, lt, r, init[j]) == [c];
          assert toks[j] == init[j];
        } else {
          assert SubstanceCombo(t, lt, r, toks[|toks| - 1]) == [c];
        }
      }
    }
  }

  /** A site with substance data yields at most one row per substance:
      the substance itself, its category and the category's own threshold,
      kept when the distance is within the effective threshold (the
      landfill value at a landfill site whose category has one). A site
      without substance data yields at most one row, labelled with its
      branch/activity category. */
  lemma RowCombosSpec(t: seq<Category>, lt: map<string, real>, r: DistanceRow)
    ensures HasSubstanceData(r) ==> |RowCombos(t, lt, r)| <= |SubstanceList(r)|
    ensures HasSubstanceData(r) ==> forall c :: c in RowCombos(t, lt, r) ==>
      c.row == r && c.substance in SubstanceList(r) && !c.overrideApplied &&
      (c.category, c.threshold) == SubstanceVerdict(t, Some(c.substance)) &&
      Within(r.distance, Effective(lt, r, c.category, c.threshold))
    ensures !HasSubstanceData(r) ==> |RowCombos(t, lt, r)| <= 1
    ensures !HasSubstanceData(r) ==> forall c :: c in RowCombos(t, lt, r) ==>
      c.row == r && c.substance == BranchPrefix + c.category && !c.overrideApplied &&
      (c.category, c.threshold) == BranchActivityVerdict(t, r.branch, r.activity) &&
      Within(r.distance, c.threshold)
  {
    if HasSubstanceData(r) {
      var toks := SubstanceList(r);
      SubstanceCombosSpec(t, lt, r, toks);
      forall c | c in RowCombos(t, lt, r)
        ensures c.row == r && c.substance in toks && !c.overrideApplied &&
          (c.category, c.threshold) == SubstanceVerdict(t, Some(c.substance)) &&
          Within(r.distance, Effective(lt, r, c.category, c.threshold))
      {
        var j :| 0 <= j < |toks| && SubstanceCombo(t, lt, r, toks[j]) == [c];
      }
    }
  }

  /** Every combination comes from one of the rows, as that row's lemma says. */
  lemma CombinationsFrom(t: seq<Category>, lt: map<string, real>, rows: seq<DistanceRow>)
    ensures forall c :: c in Combinations(t, lt, rows) ==> c.row in rows && c in RowCombos(t, lt, c.row)
  {
    var f := r => RowCombos(t, lt, r);
    FlattenFrom(rows, f);
    forall c | c in Combinations(t, lt, rows) ensures c.row in rows && c in RowCombos(t, lt, c.row) {
      var x :| x in rows && c in f(x);
      RowCombosSpec(t, lt, x);
    }
  }

  // ---------------------------------------------------------------------
  // _apply_landfill_override
  // ---------------------------------------------------------------------

  /** The relabelled row of a landfill site whose category has a landfill
      threshold that the distance meets. */
  function Relabel(lt: map<string, real>, c: Combo): Combo
    requires c.category in lt
  {
    c.(original := Some(c.category), category := Losseplads,
       subcategory := Some(Losseplads + "_" + c.category), threshold := lt[c.category],
       substance := "Landfill Override: " + c.category, overrideApplied := true)
  }

  /** What the override does to one row: keep it, relabel it, or drop it
      (`None`). */
  function OverrideOne(t: seq<Category>, lt: map<string, real>, c: Combo): Option<Combo> {
    if c.category == Losseplads then Some(c)
    else if BranchActivityVerdict(t, c.row.branch, c.row.activity).0 != Losseplads then Some(c)
    else if c.category !in lt then Some(c)
    else if Within(c.row.distance, lt[c.category]) then Some(Relabel(lt, c))
    else None
  }

  function Overridden(t: seq<Category>, lt: map<string, real>, combos: seq<Combo>): seq<Combo> {
    if combos == [] then []
    else
      var rest := Overridden(t, lt, combos[..|combos| - 1]);
      match OverrideOne(t, lt, combos[|combos| - 1])
      case Some(c) => rest + [c]
      case None => rest
  }

  /** The landfill detections the override makes: one per row not already
      LOSSEPLADS. */
  function OverrideChecks(combos: seq<Combo>): seq<(Option<string>, Option<string>)> {
    if combos == [] then []
    else
      var c := combos[|combos| - 1];
      OverrideChecks(combos[..|combos| - 1]) + (if c.category == Losseplads then [] else [(c.row.branch, c.row.activity)])
  }

  method ApplyLandfillOverride(stats: KeywordStats, t: seq<Category>, lt: map<string, real>, combos: seq<Combo>)
    returns (out: seq<Combo>)
    requires stats.Valid()
    modifies stats
    ensures stats.Valid() && stats.checks == old(stats.checks) + OverrideChecks(combos)
    ensures out == Overridden(t, lt, combos)
  {
    out := [];
    var i := 0;
    while i < |combos|
      invariant 0 <= i <= |combos|
      invariant stats.Valid() && stats.checks == old(stats.checks) + OverrideChecks(combos[..i])
      invariant out == Overridden(t, lt, combos[..i])
    {
      var c := combos[i];
      assert combos[..i + 1][..i] == combos[..i];
      if c.category == Losseplads {
        out := out + [c];
      } else {
        var landfill, _ := stats.CategorizeByBranchActivity(t, c.row.branch, c.row.activity);
        if landfill == Losseplads && c.category in lt {
          if c.row.distance.Some? && c.row.distance.value <= lt[c.category] {
            out := out + [Relabel(lt, c)];
          }
        } else {
          out := out + [c];
        }
      }
      i := i + 1;
    }
    assert combos[..|combos|] == combos;
  }

  /** `apply_compound_filtering`: the combinations, then the override
      unless there are none. */
  function CompoundFiltering(t: seq<Category>, lt: map<string, real>, rows: seq<DistanceRow>): seq<Combo> {
    var combos := Combinations(t, lt, rows);
    if combos == [] then [] else Overridden(t, lt, combos)
  }

  method ApplyCompoundFiltering(stats: KeywordStats, t: seq<Category>, lt: map<string, real>, rows: seq<DistanceRow>)
    returns (out: seq<Combo>)
    requires stats.Valid()
    modifies stats
    ensures stats.Valid()
    ensures stats.checks == old(stats.checks) + FilterChecks(rows) + OverrideChecks(Combinations(t, lt, rows))
    ensures out == CompoundFiltering(t, lt, rows)
  {
    var combos := CollectCombinations(stats, t, lt, rows);
    if combos == [] {
      return [];
    }
    out := ApplyLandfillOverride(stats, t, lt, combos);
  }

  /** The override keeps LOSSEPLADS rows, rows at sites the categoriser
      does not call landfills, and rows whose category has no landfill
      threshold; any other row is relabelled LOSSEPLADS with the landfill
      threshold if its distance meets it, and dropped otherwise. */
  lemma OverrideOneSpec(t: seq<Category>, lt: map<string, real>, c: Combo)
    ensures (c.category == Losseplads || c.category !in lt ||
             (LandfillHit(c.row.branch).None? && LandfillHit(c.row.activity).None?)) ==>
      OverrideOne(t, lt, c) == Some(c)
    ensures (c.category != Losseplads && c.category in lt &&
             (LandfillHit(c.row.branch).Some? || LandfillHit(c.row.activity).Some?)) ==>
      OverrideOne(t, lt, c) == (if Within(c.row.distance, lt[c.category]) then Some(Relabel(lt, c)) else None)
    ensures OverrideOne(t, lt, c).Some? && OverrideOne(t, lt, c).value.overrideApplied && !c.overrideApplied ==>
      var o := OverrideOne(t, lt, c).value;
      o.category == Losseplads && o.original == Some(c.category) && c.category in lt &&
      o.threshold == lt[c.category] && o.subcategory == Some(Losseplads + "_" + c.category) &&
      Within(o.row.distance, o.threshold)
  {
  }

  /** Every relabelled row is LOSSEPLADS with its original category, which
      has a landfill threshold. */
  lemma {:induction false} OverriddenFlagged(t: seq<Category>, lt: map<string, real>, combos: seq<Combo>)
    requires forall c :: c in combos ==> !c.overrideApplied
    ensures forall o :: o in Overridden(t, lt, combos) && o.overrideApplied ==>
      o.category == Losseplads && o.original.Some? && o.original.value in lt
    ensures |Overridden(t, lt, combos)| <= |combos|
  {
    if combos != [] {
      var init := combos[..|combos| - 1];
      assert forall c :: c in init ==> c in combos;
      OverriddenFlagged(t, lt, init);
      OverrideOneSpec(t, lt, combos[|combos| - 1]);
    }
  }

  /** A row the filter produced is never dropped by the override: at a site
      the categoriser calls a landfill, the filter already held the row to
      its category's landfill threshold, because the filter's landfill
      terms include the categoriser's. */
  predicate Survives(t: seq<Category>, lt: map<string, real>, c: Combo) {
    OverrideOne(t, lt, c).Some?
  }

  lemma CombinationSurvives(t: seq<Category>, lt: map<string, real>, rows: seq<DistanceRow>, c: Combo)
    requires c in Combinations(t, lt, rows)
    ensures Survives(t, lt, c)
  {
    CombinationsFrom(t, lt, rows);
    var r := c.row;
    RowCombosSpec(t, lt, r);
    if c.category != Losseplads && c.category in lt &&
       BranchActivityVerdict(t, r.branch, r.activity).0 == Losseplads {
      if LandfillHit(r.branch).Some? {
        LandfillHitMeansSiteTerm(r.branch);
      } else {
        LandfillHitMeansSiteTerm(r.activity);
      }
      assert IsLandfillSite(r);
    }
  }

  lemma {:induction false} AllSurvive(t: seq<Category>, lt: map<string, real>, combos: seq<Combo>)
    requires forall c :: c in combos ==> Survives(t, lt, c)
    ensures |Overridden(t, lt, combos)| == |combos|
  {
    if combos != [] {
      var init := combos[..|combos| - 1];
      assert forall c :: c in init ==> c in combos;
      AllSurvive(t, lt, init);
      assert combos[|combos| - 1] in combos;
    }
  }

  /** The filter's output has one row per combination: the override
      relabels but never removes, so its dropping branch is dead. */
  lemma CompoundFilteringKeepsAll(t: seq<Category>, lt: map<string, real>, rows: seq<DistanceRow>)
    ensures |CompoundFiltering(t, lt, rows)| == |Combinations(t, lt, rows)|
  {
    var combos := Combinations(t, lt, rows);
    forall c | c in combos ensures Survives(t, lt, c) {
      CombinationSurvives(t, lt, rows, c);
    }
    AllSurvive(t, lt, combos);
  }

  /** Under the written thresholds a chlorinated-solvent row (category
      KLOREDE_KULBRINTER) is neither held to the landfill threshold nor
      relabelled, wherever the site lies. */
  lemma ChlorinatedKeptAsWritten(t: seq<Category>, c: Combo, r: DistanceRow, own: real)
    requires c.category == ChlorinatedHydrocarbons
    ensures Effective(LandfillThresholds, r, ChlorinatedHydrocarbons, own) == own
    ensures OverrideOne(t, LandfillThresholds, c) == Some(c)
  {
  }

  /** With the corrected thresholds a chlorinated-solvent row at a site the
      categoriser calls a landfill is held to 100 m and relabelled. */
  lemma ChlorinatedOverriddenCorrected(t: seq<Category>, c: Combo)
    requires c.category == ChlorinatedHydrocarbons
    requires LandfillHit(c.row.branch).Some? && Within(c.row.distance, 100.0)
    ensures Effective(CorrectedLandfillThresholds, c.row, ChlorinatedHydrocarbons, 500.0) == 100.0
    ensures OverrideOne(t, CorrectedLandfillThresholds, c) == Some(Relabel(CorrectedLandfillThresholds, c))
  {
    LandfillHitMeansSiteTerm(c.row.branch);
  }
}
