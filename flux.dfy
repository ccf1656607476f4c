/** Step 6 site flux (`_calculate_flux`).

    The enriched rows are grouped by (site, river ov_id, category). Each
    group becomes one flux row per modelstof scenario of its category, or a
    single row labelled with the site's first substance when the category
    has no scenarios. Every row is then copied once per GVFK of its group,
    and rows whose concentration is the "unavailable" sentinel are dropped. */
module Flux {
  import opened Wrappers
  import opened Text
  import Config
  import Grouping
  import FluxInputs
  import opened Concentration

  type Enriched = FluxInputs.Enriched

  /** `["Lokalitet_ID", "Nearest_River_ov_id", "Qualifying_Category"]`. */
  datatype SiteKey = SiteKey(site: string, ovId: string, category: string)

  function KeyOf(e: Enriched): SiteKey {
    SiteKey(e.row.site, e.row.ovId, e.row.category)
  }

  function Distance(e: Enriched): real { e.row.distance }

  function SegmentCount(e: Enriched): int { e.row.segmentCount }

  function Gvfk(e: Enriched): string { e.row.gvfk }

  /** One row of the grouped table: the first member supplies GVFK, area,
      infiltration and the segment metadata; the distance is the minimum
      and the segment count the maximum over the members; `allGvfk` is the
      members' GVFK list, duplicates included. */
  datatype SiteGroup = SiteGroup(key: SiteKey, first: Enriched, distance: real, segmentCount: int, allGvfk: seq<string>)

  function GroupOf(rows: seq<Enriched>, k: SiteKey): (g: SiteGroup)
    requires k in Grouping.Column(rows, KeyOf)
    ensures g.key == k && g.first in rows && KeyOf(g.first) == k
  {
    Grouping.MembersFirst(rows, KeyOf, k);
    Grouping.MembersSpec(rows, KeyOf, k);
    var ms := Grouping.Members(rows, KeyOf, k);
    assert ms[0] in ms;
    SiteGroup(k, ms[0], Grouping.MinBy(ms, Distance), Grouping.MaxIntBy(ms, SegmentCount), Grouping.Column(ms, Gvfk))
  }

  /** The group's first row is the table's first row with its key; its
      distance is the least member distance and its count the greatest;
      its GVFK list has one entry per member, in table order. */
  lemma GroupOfSpec(rows: seq<Enriched>, k: SiteKey)
    requires k in Grouping.Column(rows, KeyOf)
    ensures var g := GroupOf(rows, k);
      var ms := Grouping.Members(rows, KeyOf, k);
      ms != [] && g.first == ms[0] &&
      (exists j :: 0 <= j < |rows| && g.first == rows[j] && forall i :: 0 <= i < j ==> KeyOf(rows[i]) != k) &&
      (forall i :: 0 <= i < |ms| ==> g.distance <= ms[i].row.distance && ms[i].row.segmentCount <= g.segmentCount) &&
      (exists i :: 0 <= i < |ms| && g.distance == ms[i].row.distance) &&
      |g.allGvfk| == |ms| && (forall i :: 0 <= i < |ms| ==> g.allGvfk[i] == ms[i].row.gvfk)
  {
    Grouping.MembersFirst(rows, KeyOf, k);
    var ms := Grouping.Members(rows, KeyOf, k);
    var m := Grouping.MinBy(ms, Distance);
    var i :| 0 <= i < |ms| && m == Distance(ms[i]);
    assert GroupOf(rows, k).distance == ms[i].row.distance;
  }

  // ---------------------------------------------------------------------
  // The lookup context of a group
  // ---------------------------------------------------------------------

  /** The branch and activity cells of a site, as carried by its rows. */
  function SiteContext(e: Enriched): Context {
    Context(e.row.branche, Absent, e.row.aktivitet, Absent)
  }

  /** The context the lookup receives in the source: the grouped row holds
      only the three keys and the aggregated columns, so every branch and
      activity column is absent. */
  const GroupedRowContext: Context := NoContext

  // ---------------------------------------------------------------------
  // Flux rows
  // ---------------------------------------------------------------------

  /** A row of `flux_details`. */
  datatype FluxRow = FluxRow(
    site: string,
    ovId: string,
    category: string,
    substance: string,
    gvfk: string,
    riverFid: int,
    segmentName: string,
    segmentLength: real,
    segmentGvfk: string,
    distance: real,
    segmentCount: int,
    area: real,
    infiltration: real,
    concentration: real,
    flux: Flux)

  /** `site_cat.copy()` with the substance label, concentration and flux set. */
  function FluxRowOf(g: SiteGroup, substance: string, c: real): FluxRow {
    var e := g.first;
    FluxRow(g.key.site, g.key.ovId, g.key.category, substance, e.row.gvfk, e.row.riverFid,
            e.segmentName, e.segmentLength, e.segmentGvfk, g.distance, g.segmentCount,
            e.area, e.infiltration, c, ComputeFlux(e.area, e.infiltration, c))
  }

  /** A row's flux is the one its area, infiltration and concentration give. */
  predicate FluxConsistent(r: FluxRow) {
    r.flux == ComputeFlux(r.area, r.infiltration, r.concentration)
  }

  /** The substance of the first row of a site, GVFK and category, over
      the whole table (any river). */
  function FirstSubstance(rows: seq<Enriched>, site: string, gvfk: string, category: string): Option<string> {
    if rows == [] then None
    else if rows[0].row.site == site && rows[0].row.gvfk == gvfk && rows[0].row.category == category
    then Some(rows[0].row.substance)
    else FirstSubstance(rows[1..], site, gvfk, category)
  }

  lemma {:induction false} FirstSubstanceFound(rows: seq<Enriched>, e: Enriched)
    requires e in rows
    ensures FirstSubstance(rows, e.row.site, e.row.gvfk, e.row.category).Some?
  {
    if rows[0] != e {
      assert e in rows[1..];
      FirstSubstanceFound(rows[1..], e);
    }
  }

  /** The concentration of each scenario of a category: the lookup with
      the modelstof as scenario and no original substance. */
  function ScenarioLookup(t: Config.ConcentrationTables, category: string, ctx: Context): string -> Result<real> {
    m => Lookup(t, Some(m), category, None, ctx)
  }

  /** The rows of a category with scenarios: one per modelstof, in order,
      labelled '<category>__via_<modelstof>'; the first failing lookup raises. */
  function ScenarioRows(g: SiteGroup, scenarios: seq<string>, look: string -> Result<real>): Result<seq<FluxRow>> {
    if scenarios == [] then Ok([])
    else
      var m := scenarios[|scenarios| - 1];
      match ScenarioRows(g, scenarios[..|scenarios| - 1], look)
      case Err(e) => Err(e)
      case Ok(rs) =>
        match look(m)
        case Err(e) => Err(e)
        case Ok(c) => Ok(rs + [FluxRowOf(g, Config.ScenarioLabel(g.key.category, m), c)])
  }

  /** The rows one group emits. */
  function GroupRows(t: Config.ConcentrationTables, rows: seq<Enriched>, g: SiteGroup, ctx: Context): Result<seq<FluxRow>>
    requires g.first in rows && KeyOf(g.first) == g.key
  {
    var scenarios := Config.ScenariosOf(g.key.category);
    if scenarios == [] then
      FirstSubstanceFound(rows, g.first);
      var sub := FirstSubstance(rows, g.key.site, g.first.row.gvfk, g.key.category).value;
      match Lookup(t, None, g.key.category, Some(sub), ctx)
      case Err(e) => Err(e)
      case Ok(c) => Ok([FluxRowOf(g, sub, c)])
    else ScenarioRows(g, scenarios, ScenarioLookup(t, g.key.category, ctx))
  }

  /** A scenario row set fails exactly when one of its lookups fails; on
      success it has one row per modelstof, in order, each labelled with
      its scenario and carrying that scenario's concentration. */
  lemma {:induction false} ScenarioRowsSpec(g: SiteGroup, scenarios: seq<string>, look: string -> Result<real>)
    ensures ScenarioRows(g, scenarios, look).Err? <==> exists j :: 0 <= j < |scenarios| && look(scenarios[j]).Err?
    ensures ScenarioRows(g, scenarios, look).Ok? ==>
      var rs := ScenarioRows(g, scenarios, look).value;
      |rs| == |scenarios| &&
      forall j :: 0 <= j < |scenarios| ==>
        look(scenarios[j]).Ok? &&
        rs[j] == FluxRowOf(g, Config.ScenarioLabel(g.key.category, scenarios[j]), look(scenarios[j]).value)
  {
    if scenarios != [] {
      var n := |scenarios| - 1;
      var init := scenarios[..n];
      ScenarioRowsSpec(g, init, look);
      assert forall j :: 0 <= j < n ==> init[j] == scenarios[j];
    }
  }

  /** A group of a category without scenarios emits one row labelled with
      the first substance of its site, GVFK and category. */
  lemma GroupRowsSingle(t: Config.ConcentrationTables, rows: seq<Enriched>, g: SiteGroup, ctx: Context)
    requires g.first in rows && KeyOf(g.first) == g.key
    requires Config.ScenariosOf(g.key.category) == []
    ensures FirstSubstance(rows, g.key.site, g.first.row.gvfk, g.key.category).Some?
    ensures var sub := FirstSubstance(rows, g.key.site, g.first.row.gvfk, g.key.category).value;
      var c := Lookup(t, None, g.key.category, Some(sub), ctx);
      GroupRows(t, rows, g, ctx) == (if c.Ok? then Ok([FluxRowOf(g, sub, c.value)]) else Err(c.error))
  {
    FirstSubstanceFound(rows, g.first);
  }

  /** Every row a group emits carries the group's keys, GVFK, area and
      infiltration, and a flux that matches its concentration. */
  lemma GroupRowsShare(t: Config.ConcentrationTables, rows: seq<Enriched>, g: SiteGroup, ctx: Context)
    requires g.first in rows && KeyOf(g.first) == g.key
    ensures GroupRows(t, rows, g, ctx).Ok? ==>
      var rs := GroupRows(t, rows, g, ctx).value;
      |rs| == (if Config.ScenariosOf(g.key.category) == [] then 1 else |Config.ScenariosOf(g.key.category)|) &&
      forall r :: r in rs ==>
        r.site == g.key.site && r.ovId == g.key.ovId && r.category == g.key.category &&
        r.gvfk == g.first.row.gvfk && r.area == g.first.area && r.infiltration == g.first.infiltration &&
        r.distance == g.distance && FluxConsistent(r)
  {
    var scenarios := Config.ScenariosOf(g.key.category);
    if scenarios == [] {
      GroupRowsSingle(t, rows, g, ctx);
    } else {
      ScenarioRowsSpec(g, scenarios, ScenarioLookup(t, g.key.category, ctx));
    }
  }

  /** With the site's own branch and activity cells, level 1 of the lookup
      is reachable: a scenario whose modelstof has an activity entry for a
      site token gets that entry's concentration. */
  lemma SiteContextReachesActivity(t: Config.ConcentrationTables, rows: seq<Enriched>, g: SiteGroup, j: nat, k: nat)
    requires g.first in rows && KeyOf(g.first) == g.key
    requires var scenarios := Config.ScenariosOf(g.key.category);
      var tokens := Industries(SiteContext(g.first));
      j < |scenarios| && k < |tokens| &&
      ActivityKey(tokens[k], scenarios[j]) in t.activitySubstance &&
      forall i :: 0 <= i < k ==> ActivityKey(tokens[i], scenarios[j]) !in t.activitySubstance
    ensures var scenarios := Config.ScenariosOf(g.key.category);
      var tokens := Industries(SiteContext(g.first));
      var out := GroupRows(t, rows, g, SiteContext(g.first));
      out.Ok? ==>
        j < |out.value| && out.value[j].concentration == t.activitySubstance[ActivityKey(tokens[k], scenarios[j])]
  {
    var scenarios := Config.ScenariosOf(g.key.category);
    var ctx := SiteContext(g.first);
    var look := ScenarioLookup(t, g.key.category, ctx);
    var m := scenarios[j];
    assert m in scenarios;
    Config.ScenarioNameNonEmpty(g.key.category, m);
    assert LookupSubstance(Some(m), None) == Some(m);
    assert GroupRows(t, rows, g, ctx) == ScenarioRows(g, scenarios, look);
    ScenarioRowsSpec(g, scenarios, look);
    assert look(m) == Lookup(t, Some(m), g.key.category, None, ctx);
    ActivityFirst(t, Some(m), g.key.category, None, ctx, k);
  }

  /** With the grouped row's empty context a service-station site's benzene
      scenario gets the compound value 400 µg/L; the site's own context
      gives the activity value 8000 µg/L. */
  lemma GroupedRowLosesActivity(e: Enriched)
    requires e.row.branche == Str("Servicestationer") && e.row.aktivitet == Absent
    ensures Lookup(Config.StandardConcentrations, Some("Benzen"), "BTXER", None, GroupedRowContext) == Ok(400.0)
    ensures Lookup(Config.StandardConcentrations, Some("Benzen"), "BTXER", None, SiteContext(e)) == Ok(8000.0)
  {
    Config.BenzeneEntries();
    assert ActivityKey("Servicestationer", "Benzen") == "Servicestationer_Benzen";
    ActivityLost(Config.StandardConcentrations, e, "Servicestationer", "Benzen", "BTXER");
  }

  /** A site whose single branch has an activity entry for a modelstof
      that also has a compound entry: the empty context gives the compound
      value, the site's context the activity value. */
  lemma ActivityLost(t: Config.ConcentrationTables, e: Enriched, name: string, m: string, category: string)
    requires name != [] && !IsSpace(name[0]) && !IsSpace(name[|name| - 1])
    requires forall i :: 0 <= i < |name| ==> name[i] != ';'
    requires e.row.branche == Str(name) && e.row.aktivitet == Absent
    requires m != [] && category != "LOSSEPLADS"
    requires ActivityKey(name, m) in t.activitySubstance && m in t.compound
    ensures Lookup(t, Some(m), category, None, GroupedRowContext) == Ok(t.compound[m])
    ensures Lookup(t, Some(m), category, None, SiteContext(e)) == Ok(t.activitySubstance[ActivityKey(name, m)])
  {
    NoContextNoIndustries();
    CompoundWithoutIndustry(t, m, category, GroupedRowContext);
    SingleToken(name);
    assert Industries(SiteContext(e)) == [name];
    SingleIndustryHit(t, m, category, SiteContext(e), name);
  }

  // ---------------------------------------------------------------------
  // The whole table
  // ---------------------------------------------------------------------

  /** A flux row with its group's GVFK list, as after the merge with
      `gvfk_tracking`. */
  datatype Pending = Pending(row: FluxRow, allGvfk: seq<string>)

  function Tag(rs: seq<FluxRow>, gvfks: seq<string>): (ps: seq<Pending>)
    ensures |ps| == |rs| && forall i :: 0 <= i < |rs| ==> ps[i] == Pending(rs[i], gvfks)
  {
    if rs == [] then [] else [Pending(rs[0], gvfks)] + Tag(rs[1..], gvfks)
  }

  /** The flux rows of the groups `keys`, in order; the first failing group raises. */
  function PendingFor(t: Config.ConcentrationTables, rows: seq<Enriched>, keys: seq<SiteKey>): Result<seq<Pending>>
    requires forall k :: k in keys ==> k in Grouping.Column(rows, KeyOf)
  {
    if keys == [] then Ok([])
    else
      var k := keys[|keys| - 1];
      match PendingFor(t, rows, keys[..|keys| - 1])
      case Err(e) => Err(e)
      case Ok(ps) =>
        var g := GroupOf(rows, k);
        match GroupRows(t, rows, g, SiteContext(g.first))
        case Err(e) => Err(e)
        case Ok(rs) => Ok(ps + Tag(rs, g.allGvfk))
  }

  /** One copy of a row per GVFK, in list order. */
  function Copies(r: FluxRow, gvfks: seq<string>): seq<FluxRow> {
    if gvfks == [] then []
    else Copies(r, gvfks[..|gvfks| - 1]) + [r.(gvfk := gvfks[|gvfks| - 1])]
  }

  /** The expansion of one row: its copies, or the row itself when the
      list is empty. */
  function Replicate(p: Pending): seq<FluxRow> {
    if p.allGvfk == [] then [p.row] else Copies(p.row, p.allGvfk)
  }

  function Expanded(ps: seq<Pending>): seq<FluxRow> {
    if ps == [] then [] else Expanded(ps[..|ps| - 1]) + Replicate(ps[|ps| - 1])
  }

  /** `df[df["Standard_Concentration_ug_L"] != -1]`. */
  function ValidOnly(xs: seq<FluxRow>): seq<FluxRow> {
    if xs == [] then []
    else
      var r := xs[|xs| - 1];
      ValidOnly(xs[..|xs| - 1]) + (if r.concentration != Config.Unavailable then [r] else [])
  }

  /** `_calculate_flux`. An empty input raises `KeyError` at the merge,
      since the empty frame built from no rows has no key columns. */
  function FluxDetails(t: Config.ConcentrationTables, rows: seq<Enriched>): Result<seq<FluxRow>> {
    if rows == [] then Err(KeyError("Lokalitet_ID"))
    else
      Grouping.GroupKeysSpec(rows, KeyOf);
      match PendingFor(t, rows, Grouping.GroupKeys(rows, KeyOf))
      case Err(e) => Err(e)
      case Ok(ps) => Ok(ValidOnly(Expanded(ps)))
  }

  // ---------------------------------------------------------------------
  // Properties of the table
  // ---------------------------------------------------------------------

  /** Every GVFK of the list gets exactly one copy, identical but for its GVFK. */
  lemma {:induction false} CopiesSpec(r: FluxRow, gvfks: seq<string>)
    ensures |Copies(r, gvfks)| == |gvfks|
    ensures forall j :: 0 <= j < |gvfks| ==> Copies(r, gvfks)[j] == r.(gvfk := gvfks[j])
  {
    if gvfks != [] {
      CopiesSpec(r, gvfks[..|gvfks| - 1]);
    }
  }

  /** The filter keeps exactly the rows with a real concentration, in order. */
  lemma {:induction false} ValidOnlySpec(xs: seq<FluxRow>)
    ensures forall r :: r in ValidOnly(xs) <==> r in xs && r.concentration != Config.Unavailable
  {
    if xs != [] {
      ValidOnlySpec(xs[..|xs| - 1]);
      assert xs == xs[..|xs| - 1] + [xs[|xs| - 1]];
    }
  }

  lemma ConsistentProduct(r: FluxRow)
    requires FluxConsistent(r)
    ensures r.flux.ug == r.area * r.infiltration * r.concentration
  {
    FluxIsProduct(r.area, r.infiltration, r.concentration);
  }

  predicate AllConsistent(xs: seq<FluxRow>) {
    forall i :: 0 <= i < |xs| ==> FluxConsistent(xs[i])
  }

  lemma {:induction false} CopiesConsistent(r: FluxRow, gvfks: seq<string>)
    requires FluxConsistent(r)
    ensures AllConsistent(Copies(r, gvfks))
  {
    CopiesSpec(r, gvfks);
  }

  lemma {:induction false} ExpandedConsistent(ps: seq<Pending>)
    requires forall i :: 0 <= i < |ps| ==> FluxConsistent(ps[i].row)
    ensures AllConsistent(Expanded(ps))
  {
    if ps != [] {
      var init := ps[..|ps| - 1];
      assert forall i :: 0 <= i < |init| ==> init[i] == ps[i];
      ExpandedConsistent(init);
      CopiesConsistent(ps[|ps| - 1].row, ps[|ps| - 1].allGvfk);
      var a := Expanded(init);
      var b := Replicate(ps[|ps| - 1]);
      assert forall i :: 0 <= i < |a + b| ==> (a + b)[i] == (if i < |a| then a[i] else b[i - |a|]);
    }
  }

  lemma {:induction false} PendingConsistent(t: Config.ConcentrationTables, rows: seq<Enriched>, keys: seq<SiteKey>)
    requires forall k :: k in keys ==> k in Grouping.Column(rows, KeyOf)
    ensures PendingFor(t, rows, keys).Ok? ==>
      forall i :: 0 <= i < |PendingFor(t, rows, keys).value| ==> FluxConsistent(PendingFor(t, rows, keys).value[i].row)
  {
    if keys != [] {
      var k := keys[|keys| - 1];
      var init := keys[..|keys| - 1];
      assert forall x :: x in init ==> x in keys;
      PendingConsistent(t, rows, init);
      assert k in keys;
      var g := GroupOf(rows, k);
      var out := GroupRows(t, rows, g, SiteContext(g.first));
      if PendingFor(t, rows, init).Ok? && out.Ok? {
        GroupRowsShare(t, rows, g, SiteContext(g.first));
        var ps: seq<Pending> := PendingFor(t, rows, init).value;
        var qs: seq<Pending> := Tag(out.value, g.allGvfk);
        assert PendingFor(t, rows, keys) == Ok(ps + qs);
        forall i | 0 <= i < |ps + qs| ensures FluxConsistent((ps + qs)[i].row) {
          if i >= |ps| {
            assert (ps + qs)[i] == qs[i - |ps|];
            assert qs[i - |ps|].row == out.value[i - |ps|];
            assert out.value[i - |ps|] in out.value;
          }
        }
      }
    }
  }

  /** The flux table never holds the "unavailable" sentinel, and every row's
      flux is area × infiltration × concentration. */
  lemma FluxDetailsValid(t: Config.ConcentrationTables, rows: seq<Enriched>)
    ensures rows == [] ==> FluxDetails(t, rows).Err?
    ensures FluxDetails(t, rows).Ok? ==> forall r :: r in FluxDetails(t, rows).value ==>
      r.concentration != Config.Unavailable && r.flux.ug == r.area * r.infiltration * r.concentration
  {
    if rows != [] {
      Grouping.GroupKeysSpec(rows, KeyOf);
      var keys := Grouping.GroupKeys(rows, KeyOf);
      PendingConsistent(t, rows, keys);
      var p := PendingFor(t, rows, keys);
      if p.Ok? {
        ExpandedConsistent(p.value);
        var xs := Expanded(p.value);
        ValidOnlySpec(xs);
        forall r | r in ValidOnly(xs)
          ensures r.concentration != Config.Unavailable && r.flux.ug == r.area * r.infiltration * r.concentration
        {
          var i :| 0 <= i < |xs| && xs[i] == r;
          assert FluxConsistent(xs[i]);
          ConsistentProduct(r);
        }
      }
    }
  }

  /** Scenario rows never raise when every modelstof has a compound entry. */
  lemma ScenarioRowsOk(t: Config.ConcentrationTables, g: SiteGroup, scenarios: seq<string>, ctx: Context)
    requires forall i :: 0 <= i < |scenarios| ==> scenarios[i] != [] && scenarios[i] in t.compound
    ensures ScenarioRows(g, scenarios, ScenarioLookup(t, g.key.category, ctx)).Ok?
  {
    var look := ScenarioLookup(t, g.key.category, ctx);
    ScenarioRowsSpec(g, scenarios, look);
    forall i | 0 <= i < |scenarios| ensures look(scenarios[i]).Ok? {
      LookupOkWithCompound(t, scenarios[i], g.key.category, ctx);
    }
  }

  lemma LookupOkWithCompound(t: Config.ConcentrationTables, m: string, category: string, ctx: Context)
    requires m != [] && m in t.compound
    ensures Lookup(t, Some(m), category, None, ctx).Ok?
  {
  }

  /** The configured scenarios of a category never raise, and a scenario
      without an activity entry for the site gets its modelstof's compound
      concentration. */
  lemma ScenarioRowsCompound(g: SiteGroup, ctx: Context, j: nat)
    requires var scenarios := Config.ScenariosOf(g.key.category);
      j < |scenarios| &&
      forall i :: 0 <= i < |Industries(ctx)| ==>
        ActivityKey(Industries(ctx)[i], scenarios[j]) !in Config.ActivitySubstanceConcentrations
    ensures var scenarios := Config.ScenariosOf(g.key.category);
      var out := ScenarioRows(g, scenarios, ScenarioLookup(Config.StandardConcentrations, g.key.category, ctx));
      out.Ok? && j < |out.value| && scenarios[j] in Config.CompoundConcentrations &&
      out.value[j].concentration == Config.CompoundConcentrations[scenarios[j]] &&
      out.value[j].substance == Config.ScenarioLabel(g.key.category, scenarios[j])
  {
    var t := Config.StandardConcentrations;
    var scenarios := Config.ScenariosOf(g.key.category);
    forall i | 0 <= i < |scenarios| ensures scenarios[i] != [] && scenarios[i] in t.compound {
      assert scenarios[i] in scenarios;
      Config.ScenarioNameNonEmpty(g.key.category, scenarios[i]);
      Config.ScenarioModelstofferKnown();
    }
    ScenarioRowsOk(t, g, scenarios, ctx);
    ScenarioRowsSpec(g, scenarios, ScenarioLookup(t, g.key.category, ctx));
    assert scenarios[j] in scenarios;
    Config.ScenarioNameNonEmpty(g.key.category, scenarios[j]);
    ScenarioUsesCompound(g.key.category, scenarios[j], ctx);
  }

  // ---------------------------------------------------------------------
  // The loops
  // ---------------------------------------------------------------------

  lemma {:induction false} PendingForErr(t: Config.ConcentrationTables, rows: seq<Enriched>, keys: seq<SiteKey>, j: nat)
    requires forall k :: k in keys ==> k in Grouping.Column(rows, KeyOf)
    requires j <= |keys| && PendingFor(t, rows, keys[..j]).Err?
    ensures PendingFor(t, rows, keys) == PendingFor(t, rows, keys[..j])
  {
    if j < |keys| {
      var init := keys[..|keys| - 1];
      assert init[..j] == keys[..j];
      PendingForErr(t, rows, init, j);
    } else {
      assert keys[..j] == keys;
    }
  }

  lemma {:induction false} ScenarioRowsErr(g: SiteGroup, scenarios: seq<string>, look: string -> Result<real>, j: nat)
    requires j <= |scenarios| && ScenarioRows(g, scenarios[..j], look).Err?
    ensures ScenarioRows(g, scenarios, look) == ScenarioRows(g, scenarios[..j], look)
  {
    if j < |scenarios| {
      var init := scenarios[..|scenarios| - 1];
      assert init[..j] == scenarios[..j];
      ScenarioRowsErr(g, init, look, j);
    } else {
      assert scenarios[..j] == scenarios;
    }
  }

  /** The body of the `iterrows` loop for one group. */
  method EmitGroup(t: Config.ConcentrationTables, rows: seq<Enriched>, g: SiteGroup, ctx: Context) returns (r: Result<seq<FluxRow>>)
    requires g.first in rows && KeyOf(g.first) == g.key
    ensures r == GroupRows(t, rows, g, ctx)
  {
    var scenarios := Config.ScenariosOf(g.key.category);
    if scenarios == [] {
      FirstSubstanceFound(rows, g.first);
      var sub := FirstSubstance(rows, g.key.site, g.first.row.gvfk, g.key.category).value;
      var c := Lookup(t, None, g.key.category, Some(sub), ctx);
      if c.Err? {
        return Err(c.error);
      }
      return Ok([FluxRowOf(g, sub, c.value)]);
    }
    r := EmitScenarios(g, scenarios, ScenarioLookup(t, g.key.category, ctx));
  }

  lemma ScenarioRowsSnoc(g: SiteGroup, scenarios: seq<string>, look: string -> Result<real>, i: nat)
    requires i < |scenarios| && ScenarioRows(g, scenarios[..i], look).Ok?
    ensures look(scenarios[i]).Err? ==> ScenarioRows(g, scenarios[..i + 1], look) == Err(look(scenarios[i]).error)
    ensures look(scenarios[i]).Ok? ==>
      ScenarioRows(g, scenarios[..i + 1], look) ==
      Ok(ScenarioRows(g, scenarios[..i], look).value +
         [FluxRowOf(g, Config.ScenarioLabel(g.key.category, scenarios[i]), look(scenarios[i]).value)])
  {
    assert scenarios[..i + 1][..i] == scenarios[..i];
  }

  /** The loop over a category's scenarios. */
  method EmitScenarios(g: SiteGroup, scenarios: seq<string>, look: string -> Result<real>) returns (r: Result<seq<FluxRow>>)
    ensures r == ScenarioRows(g, scenarios, look)
  {
    var out: seq<FluxRow> := [];
    for i := 0 to |scenarios|
      invariant ScenarioRows(g, scenarios[..i], look) == Ok(out)
    {
      var m := scenarios[i];
      var c := look(m);
      ScenarioRowsSnoc(g, scenarios, look, i);
      if c.Err? {
        ScenarioRowsErr(g, scenarios, look, i + 1);
        return Err(c.error);
      }
      out := out + [FluxRowOf(g, Config.ScenarioLabel(g.key.category, m), c.value)];
    }
    assert scenarios[..|scenarios|] == scenarios;
    r := Ok(out);
  }

  /** The GVFK expansion loop. */
  method ExpandGvfk(ps: seq<Pending>) returns (out: seq<FluxRow>)
    ensures out == Expanded(ps)
  {
    out := [];
    var i := 0;
    while i < |ps|
      invariant 0 <= i <= |ps|
      invariant out == Expanded(ps[..i])
    {
      assert ps[..i + 1][..i] == ps[..i];
      var p := ps[i];
      if p.allGvfk == [] {
        out := out + [p.row];
      } else {
        var base := out;
        var j := 0;
        while j < |p.allGvfk|
          invariant 0 <= j <= |p.allGvfk|
          invariant out == base + Copies(p.row, p.allGvfk[..j])
        {
          assert p.allGvfk[..j + 1][..j] == p.allGvfk[..j];
          out := out + [p.row.(gvfk := p.allGvfk[j])];
          j := j + 1;
        }
        assert p.allGvfk[..j] == p.allGvfk;
      }
      i := i + 1;
    }
    assert ps[..i] == ps;
  }

  /** The sentinel filter. */
  method DropUnavailable(xs: seq<FluxRow>) returns (kept: seq<FluxRow>)
    ensures kept == ValidOnly(xs)
  {
    kept := [];
    var i := 0;
    while i < |xs|
      invariant 0 <= i <= |xs|
      invariant kept == ValidOnly(xs[..i])
    {
      assert xs[..i + 1][..i] == xs[..i];
      if xs[i].concentration != Config.Unavailable {
        kept := kept + [xs[i]];
      }
      i := i + 1;
    }
    assert xs[..i] == xs;
  }

  /** `_calculate_flux`. */
  method CalculateFlux(rows: seq<Enriched>) returns (r: Result<seq<FluxRow>>)
    ensures r == FluxDetails(Config.StandardConcentrations, rows)
  {
    var t := Config.StandardConcentrations;
    if rows == [] {
      return Err(KeyError("Lokalitet_ID"));
    }
    var keys := Grouping.GroupKeys(rows, KeyOf);
    Grouping.GroupKeysSpec(rows, KeyOf);
    var pending := EmitGroups(t, rows, keys);
    if pending.Err? {
      return Err(pending.error);
    }
    var expanded := ExpandGvfk(pending.value);
    var kept := DropUnavailable(expanded);
    return Ok(kept);
  }

  lemma PendingForSnoc(t: Config.ConcentrationTables, rows: seq<Enriched>, keys: seq<SiteKey>, i: nat)
    requires forall k :: k in keys ==> k in Grouping.Column(rows, KeyOf)
    requires i < |keys| && PendingFor(t, rows, keys[..i]).Ok?
    ensures var g := GroupOf(rows, keys[i]);
      var e := GroupRows(t, rows, g, SiteContext(g.first));
      (e.Err? ==> PendingFor(t, rows, keys[..i + 1]) == Err(e.error)) &&
      (e.Ok? ==> PendingFor(t, rows, keys[..i + 1]) == Ok(PendingFor(t, rows, keys[..i]).value + Tag(e.value, g.allGvfk)))
  {
    var ks := keys[..i + 1];
    assert ks[|ks| - 1] == keys[i];
    assert ks[..|ks| - 1] == keys[..i];
  }

  /** The loop over the groups. */
  method EmitGroups(t: Config.ConcentrationTables, rows: seq<Enriched>, keys: seq<SiteKey>) returns (r: Result<seq<Pending>>)
    requires forall k :: k in keys ==> k in Grouping.Column(rows, KeyOf)
    ensures r == PendingFor(t, rows, keys)
  {
    var pending: seq<Pending> := [];
    for i := 0 to |keys|
      invariant PendingFor(t, rows, keys[..i]) == Ok(pending)
    {
      var g := GroupOf(rows, keys[i]);
      var emitted := EmitGroup(t, rows, g, SiteContext(g.first));
      PendingForSnoc(t, rows, keys, i);
      if emitted.Err? {
        PendingForErr(t, rows, keys, i + 1);
        return Err(emitted.error);
      }
      pending := pending + Tag(emitted.value, g.allGvfk);
    }
    assert keys[..|keys|] == keys;
    r := Ok(pending);
  }
}
