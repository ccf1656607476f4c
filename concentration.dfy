/** Step 6 standard concentrations and the flux they give.

    A concentration is looked up for a (site, category, scenario) through
    five levels of the override tables, the first hit winning:
      1. '<branch or activity>_<substance>' in the activity table;
      2. for landfill rows, the substance, then the category, in the
         landfill table;
      3. the substance in the compound table;
      4. '<category>__via_<modelstof>' in the category table (scenarios only);
      5. the category itself in the category table.
    Nothing found raises `ValueError`. */
module Concentration {
  import opened Wrappers
  import opened Text
  import Config

  /** The branch and activity columns a row may carry:
      `Lokalitetensbranche`, `Branche`, `Lokalitetensaktivitet`, `Aktivitet`. */
  datatype Context = Context(lokBranche: Cell, branche: Cell, lokAktivitet: Cell, aktivitet: Cell)

  const NoContext := Context(Absent, Absent, Absent, Absent)

  /** Python `a or b` on cells: an absent column or an empty string falls
      through to `b`; NaN is a float and counts as true. */
  function OrCell(a: Cell, b: Cell): Cell {
    match a
    case Absent => b
    case NaN => a
    case Str(s) => if s == [] then b else a
  }

  /** `str(c).split(";") if pd.notna(c) else []`, for `c` after `or ""`. */
  function CellParts(c: Cell): seq<string> {
    match c
    case Str(s) => Split(s, ";")
    case NaN => []
    case Absent => Split("", ";")
  }

  /** The trimmed non-empty branch tokens, then the activity tokens. */
  function Industries(ctx: Context): (r: seq<string>)
    ensures forall t :: t in r ==> t != [] && Strip(t) == t
  {
    var branche := OrCell(OrCell(ctx.lokBranche, ctx.branche), Str(""));
    var aktivitet := OrCell(OrCell(ctx.lokAktivitet, ctx.aktivitet), Str(""));
    StripAll(CellParts(branche) + CellParts(aktivitet))
  }

  /** A row without any branch or activity column has no tokens. */
  lemma NoContextNoIndustries()
    ensures Industries(NoContext) == []
  {
    EmptyCellParts();
    StripAllBlank([""]);
    StripAllBlank([]);
    assert [""] + [] == [""];
  }

  /** An empty cell splits into the one empty piece. */
  lemma EmptyCellParts()
    ensures CellParts(Str("")) == [""] && CellParts(Absent) == [""]
  {
    assert !StartsWith("", ";");
    assert IndexOf("", ";") == None;
    SplitNone("", ";");
  }

  lemma StripAllBlank(rest: seq<string>)
    ensures StripAll([""] + rest) == StripAll(rest)
  {
    assert Strip("") == "";
    assert ([""] + rest)[1..] == rest;
  }

  /** A branch cell holding one name, without ';' and not padded, and no
      activity, give that one token. */
  lemma SingleToken(name: string)
    requires name != [] && !IsSpace(name[0]) && !IsSpace(name[|name| - 1])
    requires forall i :: 0 <= i < |name| ==> name[i] != ';'
    ensures forall a :: a == Absent || a == Str("") ==> Industries(Context(Str(name), Absent, a, Absent)) == [name]
  {
    forall a | a == Absent || a == Str("")
      ensures Industries(Context(Str(name), Absent, a, Absent)) == [name]
    {
      SingleTokenWith(name, a);
    }
  }

  lemma SingleTokenWith(name: string, a: Cell)
    requires name != [] && !IsSpace(name[0]) && !IsSpace(name[|name| - 1])
    requires forall i :: 0 <= i < |name| ==> name[i] != ';'
    requires a == Absent || a == Str("")
    ensures Industries(Context(Str(name), Absent, a, Absent)) == [name]
  {
    NoSeparatorChar(name, ";");
    EmptyCellParts();
    var parts := CellParts(Str(name)) + CellParts(Str(""));
    assert parts == [name, ""] by {
      assert [name] + [""] == [name, ""];
    }
    assert Industries(Context(Str(name), Absent, a, Absent)) == StripAll(parts) by {
      assert OrCell(OrCell(a, Absent), Str("")) == Str("");
    }
    StripKeeps(name);
    assert [name, ""] == [name] + [""];
    StripAllCons(name, [""]);
    StripAllBlank([]);
    assert [""] + [] == [""];
  }

  /** Python truthiness of an optional string. */
  predicate Truthy(s: Option<string>) {
    s.Some? && s.value != []
  }

  /** `f"{s}"` of an optional string: `None` prints as "None". */
  function Formatted(s: Option<string>): string {
    if s.Some? then s.value else "None"
  }

  const LandfillOverrideTag: string := "Landfill Override:"

  /** The landfill context: the category is LOSSEPLADS, or the substance
      carries the landfill override tag. */
  predicate IsLosseplads(category: string, original: Option<string>) {
    category == "LOSSEPLADS" || (Truthy(original) && Contains(original.value, LandfillOverrideTag))
  }

  /** The scenario modelstof when given, else the original substance. */
  function LookupSubstance(scenario: Option<string>, original: Option<string>): Option<string> {
    if Truthy(scenario) then scenario else original
  }

  function ActivityKey(industry: string, substance: string): string {
    industry + "_" + substance
  }

  function ScenarioKey(category: string, modelstof: string): string {
    Config.ScenarioLabel(category, modelstof)
  }

  /** Level 1: the first token whose '<token>_<substance>' key is in the table. */
  function ActivityHit(industries: seq<string>, substance: string, table: map<string, real>): (r: Option<real>)
    ensures r.None? <==> forall i :: 0 <= i < |industries| ==> ActivityKey(industries[i], substance) !in table
  {
    if industries == [] then None
    else if ActivityKey(industries[0], substance) in table then Some(table[ActivityKey(industries[0], substance)])
    else
      var r := ActivityHit(industries[1..], substance, table);
      assert forall i :: 1 <= i < |industries| ==> industries[i] == industries[1..][i - 1];
      r
  }

  /** Level 1 returns the value of the first matching token. */
  lemma {:induction false} ActivityHitFirst(industries: seq<string>, substance: string, table: map<string, real>, j: nat)
    requires j < |industries| && ActivityKey(industries[j], substance) in table
    requires forall i :: 0 <= i < j ==> ActivityKey(industries[i], substance) !in table
    ensures ActivityHit(industries, substance, table) == Some(table[ActivityKey(industries[j], substance)])
  {
    if j > 0 {
      assert forall i :: 0 <= i < j - 1 ==> industries[1..][i] == industries[i + 1];
      ActivityHitFirst(industries[1..], substance, table, j - 1);
    }
  }

  /** `_lookup_concentration_for_scenario`. */
  function Lookup(t: Config.ConcentrationTables, scenario: Option<string>, category: string,
                  original: Option<string>, ctx: Context): Result<real>
  {
    var sub := LookupSubstance(scenario, original);
    match ActivityHit(Industries(ctx), Formatted(sub), t.activitySubstance)
    case Some(v) => Ok(v)
    case None =>
      var landfill := IsLosseplads(category, original);
      if landfill && Truthy(sub) && sub.value in t.losseplads then Ok(t.losseplads[sub.value])
      else if landfill && category in t.losseplads then Ok(t.losseplads[category])
      else if Truthy(sub) && sub.value in t.compound then Ok(t.compound[sub.value])
      else if Truthy(scenario) && ScenarioKey(category, scenario.value) in t.category then
        Ok(t.category[ScenarioKey(category, scenario.value)])
      else if category in t.category then Ok(t.category[category])
      else Err(ValueError("No concentration for scenario"))
  }

  /** The lookup raises exactly when no level has an entry. */
  lemma LookupFails(t: Config.ConcentrationTables, scenario: Option<string>, category: string,
                    original: Option<string>, ctx: Context)
    ensures var sub := LookupSubstance(scenario, original);
      Lookup(t, scenario, category, original, ctx).Err? <==>
        (forall i :: 0 <= i < |Industries(ctx)| ==> ActivityKey(Industries(ctx)[i], Formatted(sub)) !in t.activitySubstance) &&
        !(IsLosseplads(category, original) && Truthy(sub) && sub.value in t.losseplads) &&
        !(IsLosseplads(category, original) && category in t.losseplads) &&
        !(Truthy(sub) && sub.value in t.compound) &&
        !(Truthy(scenario) && ScenarioKey(category, scenario.value) in t.category) &&
        category !in t.category
  {
  }

  /** Level 1 wins over every other table. */
  lemma ActivityFirst(t: Config.ConcentrationTables, scenario: Option<string>, category: string,
                      original: Option<string>, ctx: Context, j: nat)
    requires var sub := LookupSubstance(scenario, original);
      j < |Industries(ctx)| && ActivityKey(Industries(ctx)[j], Formatted(sub)) in t.activitySubstance &&
      forall i :: 0 <= i < j ==> ActivityKey(Industries(ctx)[i], Formatted(sub)) !in t.activitySubstance
    ensures var sub := LookupSubstance(scenario, original);
      Lookup(t, scenario, category, original, ctx) == Ok(t.activitySubstance[ActivityKey(Industries(ctx)[j], Formatted(sub))])
  {
    var sub := LookupSubstance(scenario, original);
    ActivityHitFirst(Industries(ctx), Formatted(sub), t.activitySubstance, j);
  }

  /** A context with a single industry token that has an activity entry
      gets that entry. */
  lemma SingleIndustryHit(t: Config.ConcentrationTables, m: string, category: string, ctx: Context, name: string)
    requires m != [] && Industries(ctx) == [name] && ActivityKey(name, m) in t.activitySubstance
    ensures Lookup(t, Some(m), category, None, ctx) == Ok(t.activitySubstance[ActivityKey(name, m)])
  {
    ActivityFirst(t, Some(m), category, None, ctx, 0);
  }

  /** Without industry tokens and outside the landfill context, a modelstof
      with a compound entry gets that entry. */
  lemma CompoundWithoutIndustry(t: Config.ConcentrationTables, m: string, category: string, ctx: Context)
    requires m != [] && Industries(ctx) == [] && category != "LOSSEPLADS" && m in t.compound
    ensures Lookup(t, Some(m), category, None, ctx) == Ok(t.compound[m])
  {
  }

  /** Outside the landfill context the landfill table is never consulted. */
  lemma NonLandfillIgnoresLosseplads(t: Config.ConcentrationTables, scenario: Option<string>, category: string,
                                     original: Option<string>, ctx: Context)
    requires !IsLosseplads(category, original)
    ensures Lookup(t, scenario, category, original, ctx) == Lookup(t.(losseplads := map[]), scenario, category, original, ctx)
  {
  }

  /** Without a branch or activity hit, every configured scenario of a
      category resolves to its modelstof's compound concentration, so the
      '__via_' entries of the category table are never reached for them. */
  lemma ScenarioUsesCompound(category: string, modelstof: string, ctx: Context)
    requires category in Config.CategoryScenarios && modelstof in Config.CategoryScenarios[category]
    requires forall i :: 0 <= i < |Industries(ctx)| ==>
      ActivityKey(Industries(ctx)[i], modelstof) !in Config.ActivitySubstanceConcentrations
    ensures modelstof in Config.CompoundConcentrations
    ensures Lookup(Config.StandardConcentrations, Some(modelstof), category, None, ctx) ==
      Ok(Config.CompoundConcentrations[modelstof])
  {
    Config.ScenarioTablesConsistent();
    assert modelstof in Config.ScenarioModelstoffer;
    assert modelstof != [];
    assert category != "LOSSEPLADS";
  }

  /** With no hit on the first four levels, the category entry decides. */
  lemma CategoryFallback(t: Config.ConcentrationTables, category: string, original: Option<string>, ctx: Context)
    requires forall i :: 0 <= i < |Industries(ctx)| ==>
      ActivityKey(Industries(ctx)[i], Formatted(original)) !in t.activitySubstance
    requires !(Truthy(original) && original.value in t.losseplads) && category !in t.losseplads
    requires !(Truthy(original) && original.value in t.compound)
    requires category in t.category
    ensures Lookup(t, None, category, original, ctx) == Ok(t.category[category])
  {
  }

  /** The categories without scenarios fall back to the "unavailable"
      sentinel when no other table has an entry. */
  lemma SentinelFallback(category: string, original: Option<string>, ctx: Context)
    requires category == "ANDRE" || category == "PFAS" || category == "LOSSEPLADS"
    requires forall i :: 0 <= i < |Industries(ctx)| ==>
      ActivityKey(Industries(ctx)[i], Formatted(original)) !in Config.ActivitySubstanceConcentrations
    requires !(Truthy(original) && original.value in Config.LossepladsConcentrations)
    requires !(Truthy(original) && original.value in Config.CompoundConcentrations)
    ensures Lookup(Config.StandardConcentrations, None, category, original, ctx) == Ok(Config.Unavailable)
  {
    Config.SentinelCategories();
    Config.SentinelsNotLandfillKeys();
    CategoryFallback(Config.StandardConcentrations, category, original, ctx);
  }

  // ---------------------------------------------------------------------
  // Flux
  // ---------------------------------------------------------------------

  /** A flux in µg, mg, g and kg per year. */
  datatype Flux = Flux(ug: real, mg: real, g: real, kg: real)

  /** `_compute_flux_from_concentration`: infiltration mm/yr to m/yr, times
      the area gives m³/yr; concentration µg/L to µg/m³. */
  function ComputeFlux(area: real, infiltrationMm: real, concentrationUgL: real): (f: Flux)
    ensures f.mg * 1000.0 == f.ug && f.g * 1000000.0 == f.ug && f.kg * 1000000000.0 == f.ug
  {
    var volume := area * (infiltrationMm / 1000.0);
    var ug := volume * (concentrationUgL * 1000.0);
    Flux(ug, ug / 1000.0, ug / 1000000.0, ug / 1000000000.0)
  }

  /** The unit factors cancel: the flux in µg/yr is area × infiltration ×
      concentration; it is never negative for non-negative inputs and grows
      with the concentration. */
  lemma FluxIsProduct(area: real, infiltrationMm: real, concentrationUgL: real)
    ensures ComputeFlux(area, infiltrationMm, concentrationUgL).ug == area * infiltrationMm * concentrationUgL
    ensures area >= 0.0 && infiltrationMm >= 0.0 && concentrationUgL >= 0.0 ==>
      ComputeFlux(area, infiltrationMm, concentrationUgL).ug >= 0.0
  {
    assert area * (infiltrationMm / 1000.0) * (concentrationUgL * 1000.0) == area * infiltrationMm * concentrationUgL;
    if area >= 0.0 && infiltrationMm >= 0.0 && concentrationUgL >= 0.0 {
      assert area * infiltrationMm >= 0.0;
    }
  }

  lemma FluxMonotone(area: real, infiltrationMm: real, c1: real, c2: real)
    requires area >= 0.0 && infiltrationMm >= 0.0 && c1 <= c2
    ensures ComputeFlux(area, infiltrationMm, c1).ug <= ComputeFlux(area, infiltrationMm, c2).ug
  {
    FluxIsProduct(area, infiltrationMm, c1);
    FluxIsProduct(area, infiltrationMm, c2);
    var ai := area * infiltrationMm;
    assert ai >= 0.0;
    assert ai * c1 <= ai * c2;
  }
}
