/** The configuration tables of the workflow and the three helpers that
    only branch on them: the output-file lookup, the visualisation-folder
    router and the guard in front of the optional site sampling. */
module Config {
  import opened Wrappers
  import opened Text

  // ---------------------------------------------------------------------
  // Workflow settings
  // ---------------------------------------------------------------------

  /** `WORKFLOW_SETTINGS["risk_threshold_m"]`. */
  const RiskThresholdM: real := 500.0

  /** `WORKFLOW_SETTINGS["contact_filter_value"]`: a river segment in contact with its GVFK. */
  const ContactFilterValue: int := 1

  /** `WORKFLOW_SETTINGS["gvd_max_infiltration_cap"]`, in mm/year. */
  const GvdMaxInfiltrationCap: real := 750.0

  /** `WORKFLOW_SETTINGS["sample_fraction"]`: sampling is switched off. */
  const SampleFraction: Option<real> := None

  /** `365.25 * 24 * 60 * 60`. */
  const SecondsPerYear: real := 365.25 * 24.0 * 60.0 * 60.0

  // ---------------------------------------------------------------------
  // Step 6 reference tables
  // ---------------------------------------------------------------------

  const Oplosningsmidler: string := "KLOREREDE_OPL\U{00D8}SNINGSMIDLER"

  /** The four override tables of `STANDARD_CONCENTRATIONS` (µg/L). */
  datatype ConcentrationTables = ConcentrationTables(
    activitySubstance: map<string, real>,
    losseplads: map<string, real>,
    compound: map<string, real>,
    category: map<string, real>)

  /** The category value that marks "no validated concentration". */
  const Unavailable: real := -1.0

  /** `STANDARD_CONCENTRATIONS["activity_substance"]`: '{branch}_{substance}' keys. */
  const ActivitySubstanceConcentrations: map<string, real> := map[
    "Servicestationer_Benzen" := 8000.0,
    "Benzin og olie, salg af_Benzen" := 8000.0,
    "Villaolietank_Olie C10-C25" := 6000.0,
    "Renserier_Trichlorethylen" := 42000.0,
    "Renserier_Tetrachlorethylen" := 2500.0,
    "Maskinindustri_Toluen" := 1200.0]

  /** `STANDARD_CONCENTRATIONS["losseplads"]`: substance and category keys for landfill sites. */
  const LossepladsConcentrations: map<string, real> := map[
    "Benzen" := 17.0,
    "Olie C10-C25" := 2500.0,
    "Trichlorethylen" := 2.2,
    "Phenol" := 6.4,
    "Arsen" := 25.0,
    "COD" := 380000.0,
    "BTXER" := 3000.0,
    "PAH_FORBINDELSER" := 2500.0,
    "UORGANISKE_FORBINDELSER" := 1800.0,
    "PHENOLER" := 1500.0,
    Oplosningsmidler := 2800.0,
    "PESTICIDER" := 1000.0]

  /** `STANDARD_CONCENTRATIONS["compound"]`: the modelstoffer. */
  const CompoundConcentrations: map<string, real> := map[
    "Olie C10-C25" := 3000.0,
    "Benzen" := 400.0,
    "1,1,1-Trichlorethan" := 100.0,
    "Trichlorethylen" := 42000.0,
    "Chloroform" := 100.0,
    "Chlorbenzen" := 100.0,
    "Phenol" := 1300.0,
    "4-Nonylphenol" := 9.0,
    "2,6-dichlorphenol" := 10000.0,
    "MTBE" := 50000.0,
    "Fluoranthen" := 30.0,
    "Mechlorprop" := 1000.0,
    "Atrazin" := 12.0,
    "Arsen" := 100.0,
    "Cyanid" := 3500.0,
    "COD" := 380000.0]

  /** `STANDARD_CONCENTRATIONS["category"]`: scenario keys and plain category keys. */
  const CategoryConcentrations: map<string, real> := map[
    "BTXER__via_Benzen" := 400.0,
    "BTXER__via_Olie C10-C25" := 3000.0,
    Oplosningsmidler + "__via_1,1,1-Trichlorethan" := 100.0,
    Oplosningsmidler + "__via_Trichlorethylen" := 42000.0,
    Oplosningsmidler + "__via_Chloroform" := 100.0,
    Oplosningsmidler + "__via_Chlorbenzen" := 100.0,
    "KLOREDE_KULBRINTER__via_1,1,1-Trichlorethan" := 100.0,
    "KLOREDE_KULBRINTER__via_Trichlorethylen" := 42000.0,
    "KLOREDE_KULBRINTER__via_Chloroform" := 100.0,
    "KLOREDE_KULBRINTER__via_Chlorbenzen" := 100.0,
    "POLARE_FORBINDELSER__via_MTBE" := 50000.0,
    "POLARE_FORBINDELSER__via_4-Nonylphenol" := 9.0,
    "PHENOLER__via_Phenol" := 1300.0,
    "KLOREREDE_PHENOLER__via_2,6-dichlorphenol" := 10000.0,
    "PESTICIDER__via_Mechlorprop" := 1000.0,
    "PESTICIDER__via_Atrazin" := 12.0,
    "PAH_FORBINDELSER__via_Fluoranthen" := 30.0,
    "UORGANISKE_FORBINDELSER__via_Arsen" := 100.0,
    "UORGANISKE_FORBINDELSER__via_Cyanid" := 3500.0,
    "LOSSEPLADS" := Unavailable,
    "ANDRE" := Unavailable,
    "PFAS" := Unavailable]

  const StandardConcentrations: ConcentrationTables := ConcentrationTables(
    ActivitySubstanceConcentrations, LossepladsConcentrations,
    CompoundConcentrations, CategoryConcentrations)

  const Chlorinated: seq<string> :=
    ["1,1,1-Trichlorethan", "Trichlorethylen", "Chloroform", "Chlorbenzen"]

  /** `CATEGORY_SCENARIOS`: the modelstoffer each category is modelled by. */
  const CategoryScenarios: map<string, seq<string>> := map[
    "BTXER" := ["Benzen", "Olie C10-C25"],
    Oplosningsmidler := Chlorinated,
    "KLOREDE_KULBRINTER" := Chlorinated,
    "POLARE_FORBINDELSER" := ["MTBE", "4-Nonylphenol"],
    "PHENOLER" := ["Phenol"],
    "KLOREREDE_PHENOLER" := ["2,6-dichlorphenol"],
    "PESTICIDER" := ["Mechlorprop", "Atrazin"],
    "PAH_FORBINDELSER" := ["Fluoranthen"],
    "UORGANISKE_FORBINDELSER" := ["Arsen", "Cyanid"],
    "LOSSEPLADS" := [],
    "ANDRE" := [],
    "PFAS" := []]

  /** `CATEGORY_SCENARIOS.get(category, [])`. */
  function ScenariosOf(category: string): seq<string> {
    if category in CategoryScenarios then CategoryScenarios[category] else []
  }

  /** `MODELSTOFFER`: the 16 substances eligible for a substance MKK. */
  const Modelstoffer: set<string> := {
    "Olie C10-C25", "Benzen", "1,1,1-Trichlorethan", "Trichlorethylen",
    "Chloroform", "Chlorbenzen", "Phenol", "4-Nonylphenol",
    "2,6-dichlorphenol", "MTBE", "Fluoranthen", "Mechlorprop",
    "Atrazin", "Arsen", "Cyanid", "COD"}

  /** `MKK_THRESHOLDS` (µg/L); `None` where the source stores `None`. */
  const MkkThresholds: map<string, Option<real>> := map[
    "Benzen" := Some(10.0),
    "Olie C10-C25" := None,
    "1,1,1-Trichlorethan" := Some(21.0),
    "Trichlorethylen" := Some(10.0),
    "Chloroform" := Some(2.5),
    "Chlorbenzen" := None,
    "Phenol" := Some(7.7),
    "4-Nonylphenol" := Some(0.3),
    "2,6-dichlorphenol" := Some(3.4),
    "MTBE" := Some(10.0),
    "Fluoranthen" := Some(0.0063),
    "Mechlorprop" := Some(18.0),
    "Atrazin" := Some(0.6),
    "Arsen" := Some(4.3),
    "Cyanid" := Some(10.0),
    "COD" := Some(1000.0),
    "BTXER" := Some(10.0),
    "PAH_FORBINDELSER" := Some(0.1),
    "PHENOLER" := Some(0.3),
    "KLOREREDE_PHENOLER" := Some(3.4),
    "POLARE_FORBINDELSER" := Some(10.0),
    Oplosningsmidler := Some(2.5),
    "KLOREDE_KULBRINTER" := Some(2.5),
    "PESTICIDER" := Some(0.6),
    "UORGANISKE_FORBINDELSER" := Some(4.3),
    "PFAS" := Some(0.0044),
    "LOSSEPLADS" := Some(10.0),
    "ANDRE" := Some(10.0)]

  /** `FLOW_SCENARIO_COLUMNS`, in declaration order: flow column to scenario name. */
  const FlowScenarioColumns: seq<(string, string)> :=
    [("Q95", "Q95"), ("Q90", "Q90"), ("Q50", "Q50"), ("Q10", "Q10"), ("Q05", "Q05")]

  /** The scenario key `'{category}__via_{modelstof}'`. */
  function ScenarioLabel(category: string, modelstof: string): string {
    category + "__via_" + modelstof
  }

  /** The modelstoffer that some category is modelled by. */
  const ScenarioModelstoffer: set<string> := {"Benzen", "Olie C10-C25", "1,1,1-Trichlorethan", "Trichlorethylen", "Chloroform", "Chlorbenzen", "MTBE", "4-Nonylphenol", "Phenol", "2,6-dichlorphenol", "Mechlorprop", "Atrazin", "Fluoranthen", "Arsen", "Cyanid"}

  lemma ScenarioModelstofferKnown()
    ensures forall m :: m in ScenarioModelstoffer ==>
      m in CompoundConcentrations && m in Modelstoffer && m in MkkThresholds
  {
  }

  /** Every modelstof `ms` lists for category `c` has a scenario
      concentration under its label and is a known scenario modelstof. */
  ghost predicate ScenariosListed(c: string, ms: seq<string>) {
    forall m :: m in ms ==> ScenarioLabel(c, m) in CategoryConcentrations && m in ScenarioModelstoffer
  }

  lemma BtxerScenarios()
    ensures CategoryScenarios["BTXER"] == ["Benzen", "Olie C10-C25"]
    ensures ScenarioLabel("BTXER", "Benzen") in CategoryConcentrations
    ensures ScenarioLabel("BTXER", "Olie C10-C25") in CategoryConcentrations
    ensures ScenariosListed("BTXER", CategoryScenarios["BTXER"])
  {
    assert ScenarioLabel("BTXER", "Benzen") == "BTXER__via_Benzen";
    assert ScenarioLabel("BTXER", "Olie C10-C25") == "BTXER__via_Olie C10-C25";
  }

  lemma OplosningsmidlerScenarios()
    ensures CategoryScenarios[Oplosningsmidler] == Chlorinated
    ensures ScenariosListed(Oplosningsmidler, CategoryScenarios[Oplosningsmidler])
  {
    OplosningsmidlerLabelsA();
    OplosningsmidlerLabelsB();
  }

  lemma OplosningsmidlerLabelsA()
    ensures ScenarioLabel(Oplosningsmidler, "1,1,1-Trichlorethan") in CategoryConcentrations
    ensures ScenarioLabel(Oplosningsmidler, "Trichlorethylen") in CategoryConcentrations
  {
    assert "__via_" + "1,1,1-Trichlorethan" == "__via_1,1,1-Trichlorethan";
    assert ScenarioLabel(Oplosningsmidler, "1,1,1-Trichlorethan") == Oplosningsmidler + "__via_1,1,1-Trichlorethan";
    assert "__via_" + "Trichlorethylen" == "__via_Trichlorethylen";
    assert ScenarioLabel(Oplosningsmidler, "Trichlorethylen") == Oplosningsmidler + "__via_Trichlorethylen";
  }

  lemma OplosningsmidlerLabelsB()
    ensures ScenarioLabel(Oplosningsmidler, "Chloroform") in CategoryConcentrations
    ensures ScenarioLabel(Oplosningsmidler, "Chlorbenzen") in CategoryConcentrations
  {
    assert "__via_" + "Chloroform" == "__via_Chloroform";
    assert ScenarioLabel(Oplosningsmidler, "Chloroform") == Oplosningsmidler + "__via_Chloroform";
    assert "__via_" + "Chlorbenzen" == "__via_Chlorbenzen";
    assert ScenarioLabel(Oplosningsmidler, "Chlorbenzen") == Oplosningsmidler + "__via_Chlorbenzen";
  }

  lemma KloredeKulbrinterScenarios()
    ensures CategoryScenarios["KLOREDE_KULBRINTER"] == Chlorinated
    ensures ScenariosListed("KLOREDE_KULBRINTER", CategoryScenarios["KLOREDE_KULBRINTER"])
  {
    KloredeKulbrinterLabelsA();
    KloredeKulbrinterLabelsB();
  }

  lemma KloredeKulbrinterLabelsA()
    ensures ScenarioLabel("KLOREDE_KULBRINTER", "1,1,1-Trichlorethan") in CategoryConcentrations
    ensures ScenarioLabel("KLOREDE_KULBRINTER", "Trichlorethylen") in CategoryConcentrations
  {
    assert ScenarioLabel("KLOREDE_KULBRINTER", "1,1,1-Trichlorethan") == "KLOREDE_KULBRINTER__via_1,1,1-Trichlorethan";
    assert ScenarioLabel("KLOREDE_KULBRINTER", "Trichlorethylen") == "KLOREDE_KULBRINTER__via_Trichlorethylen";
  }

  lemma KloredeKulbrinterLabelsB()
    ensures ScenarioLabel("KLOREDE_KULBRINTER", "Chloroform") in CategoryConcentrations
    ensures ScenarioLabel("KLOREDE_KULBRINTER", "Chlorbenzen") in CategoryConcentrations
  {
    assert ScenarioLabel("KLOREDE_KULBRINTER", "Chloroform") == "KLOREDE_KULBRINTER__via_Chloroform";
    assert ScenarioLabel("KLOREDE_KULBRINTER", "Chlorbenzen") == "KLOREDE_KULBRINTER__via_Chlorbenzen";
  }

  lemma PolareForbindelserScenarios()
    ensures CategoryScenarios["POLARE_FORBINDELSER"] == ["MTBE", "4-Nonylphenol"]
    ensures ScenarioLabel("POLARE_FORBINDELSER", "MTBE") in CategoryConcentrations
    ensures ScenarioLabel("POLARE_FORBINDELSER", "4-Nonylphenol") in CategoryConcentrations
    ensures ScenariosListed("POLARE_FORBINDELSER", CategoryScenarios["POLARE_FORBINDELSER"])
  {
    assert ScenarioLabel("POLARE_FORBINDELSER", "MTBE") == "POLARE_FORBINDELSER__via_MTBE";
    assert ScenarioLabel("POLARE_FORBINDELSER", "4-Nonylphenol") == "POLARE_FORBINDELSER__via_4-Nonylphenol";
  }

  lemma PhenolerScenarios()
    ensures CategoryScenarios["PHENOLER"] == ["Phenol"]
    ensures ScenarioLabel("PHENOLER", "Phenol") in CategoryConcentrations
    ensures ScenariosListed("PHENOLER", CategoryScenarios["PHENOLER"])
  {
    assert ScenarioLabel("PHENOLER", "Phenol") == "PHENOLER__via_Phenol";
  }

  lemma KlorerdePhenolerScenarios()
    ensures CategoryScenarios["KLOREREDE_PHENOLER"] == ["2,6-dichlorphenol"]
    ensures ScenarioLabel("KLOREREDE_PHENOLER", "2,6-dichlorphenol") in CategoryConcentrations
    ensures ScenariosListed("KLOREREDE_PHENOLER", CategoryScenarios["KLOREREDE_PHENOLER"])
  {
    assert ScenarioLabel("KLOREREDE_PHENOLER", "2,6-dichlorphenol") == "KLOREREDE_PHENOLER__via_2,6-dichlorphenol";
  }

  lemma PesticiderScenarios()
    ensures CategoryScenarios["PESTICIDER"] == ["Mechlorprop", "Atrazin"]
    ensures ScenarioLabel("PESTICIDER", "Mechlorprop") in CategoryConcentrations
    ensures ScenarioLabel("PESTICIDER", "Atrazin") in CategoryConcentrations
    ensures ScenariosListed("PESTICIDER", CategoryScenarios["PESTICIDER"])
  {
    assert ScenarioLabel("PESTICIDER", "Mechlorprop") == "PESTICIDER__via_Mechlorprop";
    assert ScenarioLabel("PESTICIDER", "Atrazin") == "PESTICIDER__via_Atrazin";
  }

  lemma PahForbindelserScenarios()
    ensures CategoryScenarios["PAH_FORBINDELSER"] == ["Fluoranthen"]
    ensures ScenarioLabel("PAH_FORBINDELSER", "Fluoranthen") in CategoryConcentrations
    ensures ScenariosListed("PAH_FORBINDELSER", CategoryScenarios["PAH_FORBINDELSER"])
  {
    assert ScenarioLabel("PAH_FORBINDELSER", "Fluoranthen") == "PAH_FORBINDELSER__via_Fluoranthen";
  }

  lemma UorganiskeForbindelserScenarios()
    ensures CategoryScenarios["UORGANISKE_FORBINDELSER"] == ["Arsen", "Cyanid"]
    ensures ScenarioLabel("UORGANISKE_FORBINDELSER", "Arsen") in CategoryConcentrations
    ensures ScenarioLabel("UORGANISKE_FORBINDELSER", "Cyanid") in CategoryConcentrations
    ensures ScenariosListed("UORGANISKE_FORBINDELSER", CategoryScenarios["UORGANISKE_FORBINDELSER"])
  {
    assert ScenarioLabel("UORGANISKE_FORBINDELSER", "Arsen") == "UORGANISKE_FORBINDELSER__via_Arsen";
    assert ScenarioLabel("UORGANISKE_FORBINDELSER", "Cyanid") == "UORGANISKE_FORBINDELSER__via_Cyanid";
  }

  /** Every scenario of every category has its own category concentration,
      and every modelstof has a compound concentration, belongs to
      MODELSTOFFER and has an MKK entry. */
  lemma ScenarioTablesConsistent()
    ensures forall c :: c in CategoryScenarios ==> ScenariosListed(c, CategoryScenarios[c])
    ensures forall m :: m in ScenarioModelstoffer ==>
      m in CompoundConcentrations && m in Modelstoffer && m in MkkThresholds
  {
    forall c | c in CategoryScenarios
      ensures ScenariosListed(c, CategoryScenarios[c])
    {
      assert c in CategoryScenarios.Keys;
      if c == "BTXER" {
        BtxerScenarios();
      } else if c == Oplosningsmidler {
        OplosningsmidlerScenarios();
      } else if c == "KLOREDE_KULBRINTER" {
        KloredeKulbrinterScenarios();
      } else if c == "POLARE_FORBINDELSER" {
        PolareForbindelserScenarios();
      } else if c == "PHENOLER" {
        PhenolerScenarios();
      } else if c == "KLOREREDE_PHENOLER" {
        KlorerdePhenolerScenarios();
      } else if c == "PESTICIDER" {
        PesticiderScenarios();
      } else if c == "PAH_FORBINDELSER" {
        PahForbindelserScenarios();
      } else if c == "UORGANISKE_FORBINDELSER" {
        UorganiskeForbindelserScenarios();
      } else {
        SentinelScenarios(c);
      }
    }
    ScenarioModelstofferKnown();
  }

  /** A category other than the nine modelled ones has no scenarios. */
  lemma SentinelScenarios(c: string)
    requires c in CategoryScenarios
    requires c !in {"BTXER", Oplosningsmidler, "KLOREDE_KULBRINTER", "POLARE_FORBINDELSER", "PHENOLER",
                    "KLOREREDE_PHENOLER", "PESTICIDER", "PAH_FORBINDELSER", "UORGANISKE_FORBINDELSER"}
    ensures CategoryScenarios[c] == []
  {
    assert c in CategoryScenarios.Keys;
    assert c in {"LOSSEPLADS", "ANDRE", "PFAS"};
  }

  /** Every scenario category has an MKK entry; the two modelstoffer without
      an environmental quality standard carry `None`. */
  lemma CategoryThresholdsPresent()
    ensures forall c :: c in CategoryScenarios ==> c in MkkThresholds
    ensures MkkThresholds["Olie C10-C25"] == None && MkkThresholds["Chlorbenzen"] == None
  {
    forall c | c in CategoryScenarios ensures c in MkkThresholds {
      assert c in CategoryScenarios.Keys;
    }
  }

  /** The categories without modelstoffer carry only the -1 sentinel. */
  lemma SentinelCategories()
    ensures forall c :: c in CategoryScenarios && CategoryScenarios[c] == [] <==>
      c in {"LOSSEPLADS", "ANDRE", "PFAS"}
    ensures forall c :: c in {"LOSSEPLADS", "ANDRE", "PFAS"} ==>
      CategoryConcentrations[c] == Unavailable
  {
  }

  /** The two benzene entries a service station's BTXER scenario may use. */
  lemma BenzeneEntries()
    ensures "Servicestationer_Benzen" in StandardConcentrations.activitySubstance
    ensures StandardConcentrations.activitySubstance["Servicestationer_Benzen"] == 8000.0
    ensures "Benzen" in StandardConcentrations.compound && StandardConcentrations.compound["Benzen"] == 400.0
  {
  }

  /** The two thresholds a trichloroethylene scenario of the chlorinated
      solvents may get: the category's and the modelstof's (µg/L). */
  lemma TrichlorethyleneEntries()
    ensures MkkThresholds[Oplosningsmidler] == Some(2.5)
    ensures "Trichlorethylen" in Modelstoffer && MkkThresholds["Trichlorethylen"] == Some(10.0)
    ensures forall m :: m in Modelstoffer ==> |m| < 47
  {
  }

  /** No scenario modelstof is the empty string, so a scenario lookup
      always uses the modelstof itself. */
  lemma ScenarioNameNonEmpty(c: string, m: string)
    requires m in ScenariosOf(c)
    ensures c in CategoryScenarios && m in ScenarioModelstoffer && m != []
  {
    ScenarioTablesConsistent();
    assert ScenariosListed(c, CategoryScenarios[c]);
    assert "" !in ScenarioModelstoffer;
  }

  /** The sentinel categories have no entry of their own in the landfill table. */

  lemma SentinelsNotLandfillKeys()
    ensures "ANDRE" !in LossepladsConcentrations && "PFAS" !in LossepladsConcentrations
    ensures "LOSSEPLADS" !in LossepladsConcentrations
  {
  }

  lemma SettingsValues()
    ensures SecondsPerYear == 31557600.0
    ensures RiskThresholdM == 500.0 && GvdMaxInfiltrationCap == 750.0
  {
  }

  // ---------------------------------------------------------------------
  // get_output_path
  // ---------------------------------------------------------------------

  const ThresholdField: string := "{threshold}"

  /** Python's `str(n)` for an integer. */
  function IntToString(n: int): (r: string)
    ensures |r| >= 1
  {
    if n < 0 then "-" + NatToString(-n) else NatToString(n)
  }

  /** `str.replace(pattern, replacement)`: every occurrence, left to right. */
  function ReplaceAll(s: string, pattern: string, replacement: string): string
    requires |pattern| > 0
  {
    Join(Split(s, pattern), replacement)
  }

  lemma {:induction false} ReplaceAbsent(s: string, pattern: string, replacement: string)
    requires |pattern| > 0 && !Contains(s, pattern)
    ensures ReplaceAll(s, pattern, replacement) == s
  {
    IndexOfContains(s, pattern);
    assert IndexOf(s, pattern).None?;
    assert Split(s, pattern) == [s];
  }

  /** `get_output_path(file_key, threshold_m)` over the `OUTPUT_FILES` table.
      The table holds the configured paths as text; directory creation is
      not modelled. */
  function GetOutputPath(outputFiles: map<string, string>, fileKey: string, threshold: Option<int>): (r: Result<string>)
    ensures r.Err? <==> fileKey !in outputFiles
    ensures r.Err? ==> r.error == KeyError(fileKey)
    ensures r.Ok? && (threshold.None? || !Contains(outputFiles[fileKey], ThresholdField)) ==>
      r.value == outputFiles[fileKey]
    ensures r.Ok? && threshold.Some? ==>
      Join(Split(outputFiles[fileKey], ThresholdField), IntToString(threshold.value)) == r.value
  {
    if fileKey !in outputFiles then Err(KeyError(fileKey))
    else
      var path := outputFiles[fileKey];
      if threshold.Some? && Contains(path, ThresholdField) then
        Ok(ReplaceAll(path, ThresholdField, IntToString(threshold.value)))
      else
        if threshold.Some? then ReplaceAbsent(path, ThresholdField, IntToString(threshold.value)); Ok(path)
        else Ok(path)
  }

  // ---------------------------------------------------------------------
  // get_visualization_path
  // ---------------------------------------------------------------------

  /** Folders as component lists below the results directory `Resultater`. */
  const WorkflowSummaryDir: seq<string> := ["workflow_summary"]

  /** The figure folder each step key routes to. */
  const FigureDirs: map<string, seq<string>> := map[
    "step2" := ["step2_river_contact", "figures"],
    "step3" := ["step3_v1v2_sites", "figures"],
    "step4" := ["step4_distances", "figures"],
    "step5" := ["step5_risk_assessment", "figures"],
    "step6" := ["step6_tilstandsvurdering", "figures"],
    "workflow_summary" := WorkflowSummaryDir]

  function NonEmptyOnly(parts: seq<string>): (r: seq<string>)
    ensures forall p :: p in r <==> p in parts && p != []
    ensures |r| <= |parts|
  {
    if parts == [] then []
    else (if parts[0] == [] then [] else [parts[0]]) + NonEmptyOnly(parts[1..])
  }

  /** The path segments `get_visualization_path(*parts)` works with. */
  function VisualizationPieces(parts: seq<string>): (pieces: seq<string>)
    ensures forall p :: p in pieces ==> p != []
  {
    if |parts| == 1 && Contains(parts[0], "/") then NonEmptyOnly(Split(parts[0], "/"))
    else NonEmptyOnly(parts)
  }

  function VisualizationPath(parts: seq<string>): (path: seq<string>)
  {
    var pieces := VisualizationPieces(parts);
    if pieces == [] then WorkflowSummaryDir
    else if pieces[0] in FigureDirs then FigureDirs[pieces[0]] + pieces[1..]
    else WorkflowSummaryDir + ["other"] + pieces
  }

  /** The router: no pieces selects the summary folder; a step key selects
      that step's figure folder followed by the remaining pieces; anything
      else lands below `workflow_summary/other`. Every resulting component
      is non-empty and none comes from a '/' inside a single argument. */
  lemma VisualizationPathRoutes(parts: seq<string>)
    ensures var pieces := VisualizationPieces(parts);
      var path := VisualizationPath(parts);
      && (pieces == [] ==> path == WorkflowSummaryDir)
      && (pieces != [] && pieces[0] in FigureDirs ==>
            path[..|FigureDirs[pieces[0]]|] == FigureDirs[pieces[0]] &&
            path[|FigureDirs[pieces[0]]|..] == pieces[1..])
      && (pieces != [] && pieces[0] !in FigureDirs ==>
            path[..2] == ["workflow_summary", "other"] && path[2..] == pieces)
    ensures forall c :: c in VisualizationPath(parts) ==> c != []
    ensures |parts| == 1 && Contains(parts[0], "/") ==>
      forall c :: c in VisualizationPieces(parts) ==> !Contains(c, "/")
  {
    var pieces := VisualizationPieces(parts);
    if |parts| == 1 && Contains(parts[0], "/") {
      SplitPiecesFree(parts[0], "/");
    }
    if pieces != [] && pieces[0] in FigureDirs {
      var d := FigureDirs[pieces[0]];
      assert forall c :: c in d ==> c != [];
      assert forall c :: c in pieces[1..] ==> c in pieces;
    }
  }

  // ---------------------------------------------------------------------
  // apply_sampling (the deterministic guard)
  // ---------------------------------------------------------------------

  datatype SamplingPlan = KeepAll | SampleIds(count: nat)

  /** What `apply_sampling` decides for a table with `uniqueIds` distinct
      ids: keep everything, refuse a non-positive fraction, or draw
      `max(1, int(uniqueIds * fraction))` ids (pandas refuses to draw more
      ids than exist). The draw itself is random and not modelled. */
  function SamplingDecision(fraction: Option<real>, uniqueIds: nat): (r: Result<SamplingPlan>)
    ensures fraction.None? ==> r == Ok(KeepAll)
    ensures fraction.Some? && fraction.value >= 1.0 ==> r == Ok(KeepAll)
    ensures fraction.Some? && fraction.value <= 0.0 ==> r.Err? && r.error.ValueError?
    ensures r.Ok? && r.value.SampleIds? ==>
      0.0 < fraction.value < 1.0 && 1 <= r.value.count <= uniqueIds
    ensures fraction.Some? && 0.0 < fraction.value < 1.0 && uniqueIds >= 1 ==>
      r.Ok? && r.value.SampleIds? && r.value.count < uniqueIds + 1
    // the sample size is `max(1, int(n * fraction))`: the whole part of
    // n * fraction, or one when that part is zero
    ensures fraction.Some? && 0.0 < fraction.value < 1.0 && uniqueIds >= 1 ==>
      r.Ok? && r.value.SampleIds? &&
      (if uniqueIds as real * fraction.value < 1.0 then r.value.count == 1
       else r.value.count as real <= uniqueIds as real * fraction.value < r.value.count as real + 1.0)
    // a table without ids cannot give the one id that is always drawn
    ensures fraction.Some? && 0.0 < fraction.value < 1.0 && uniqueIds == 0 ==>
      r.Err? && r.error.ValueError?
  {
    if fraction.None? || fraction.value >= 1.0 then Ok(KeepAll)
    else if fraction.value <= 0.0 then Err(ValueError("sample_fraction must be > 0.0"))
    else
      var x := uniqueIds as real * fraction.value;
      ScaledBelow(uniqueIds, fraction.value);
      var n := x.Floor;
      assert n as real <= x < n as real + 1.0;
      var count := if n < 1 then 1 else n;
      if count > uniqueIds then Err(ValueError("Cannot take a larger sample than population"))
      else Ok(SampleIds(count))
  }

  /** A proper fraction of n ids is at least none and, for n > 0, less than all of them. */
  lemma ScaledBelow(n: nat, f: real)
    requires 0.0 < f < 1.0
    ensures 0.0 <= n as real * f <= n as real
    ensures n > 0 ==> n as real * f < n as real
  {
  }

  /** A quarter of ten ids draws two, a tenth of three ids still draws one,
      and any fraction of an empty id column is refused. */
  lemma SamplingSizes()
    ensures SamplingDecision(Some(0.25), 10) == Ok(SampleIds(2))
    ensures SamplingDecision(Some(0.1), 3) == Ok(SampleIds(1))
    ensures SamplingDecision(Some(0.5), 0).Err?
  {
    assert (10 as real * 0.25).Floor == 2;
    assert (3 as real * 0.1).Floor == 0;
  }

  /** The rows `apply_sampling` keeps once the ids are drawn. */
  function KeepSampled<R(!new)>(rows: seq<R>, idOf: R -> string, sampled: set<string>): (r: seq<R>)
    ensures |r| <= |rows|
    ensures forall x :: x in r <==> x in rows && idOf(x) in sampled
  {
    if rows == [] then []
    else (if idOf(rows[0]) in sampled then [rows[0]] else []) + KeepSampled(rows[1..], idOf, sampled)
  }
}
