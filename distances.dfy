/** Step 4: the distance from every (site, GVFK) combination to the nearest
    river segment in contact with that GVFK, the per-site minimum flag, the
    one-row-per-site table and the per-site GVFK summary. Two versions
    exist: risikovurdering/backup/step4_distances_clean.py ("clean", which
    also records the nearest segment) and step4_distances.py ("plain",
    which records only the minimum). Geometry distances are a parameter. */
module Distances {
  import opened Wrappers
  import opened Text
  import opened Grouping
  import Config

  /** A river segment: its index (FID), GVFK, contact flag and water-body ids. */
  datatype River = River(fid: int, gvfk: string, contact: Option<int>, ovId: Option<string>, ovNavn: Option<string>)

  /** A row of the step-3 table; `hasGeometry` is false for a missing or
      empty site geometry. */
  datatype Combination = Combination(site: string, gvfk: Option<string>, siteType: string, hasGeometry: bool)

  /** The result record of one combination: the candidate segments, the
      distance (None when there are none) and, in the clean version, the
      nearest segment. */
  datatype Outcome = Outcome(site: string, gvfk: string, siteType: string, segments: seq<River>,
                             distance: Option<real>, nearest: Option<River>)

  /** A result row with the merged `Min_Distance_m` and `Is_Min_Distance` columns. */
  datatype Flagged = Flagged(outcome: Outcome, minDistance: Option<real>, isMin: bool)

  // ---------------------------------------------------------------------
  // River candidates
  // ---------------------------------------------------------------------

  /** Clean version: GVFK text stripped and non-empty, and contact equal to
      the configured value when the column exists. */
  function CleanContactRivers(rivers: seq<River>, hasContactColumn: bool): seq<River> {
    Flatten(rivers, (r: River) =>
      if Strip(r.gvfk) != "" && (!hasContactColumn || r.contact == Some(Config.ContactFilterValue))
      then [r.(gvfk := Strip(r.gvfk))] else [])
  }

  /** Plain version: `rivers[rivers['Kontakt'] == 1]`. */
  function PlainContactRivers(rivers: seq<River>): seq<River> {
    Members(rivers, (r: River) => r.contact, Some(1))
  }

  /** The segments of one GVFK. */
  function Matching(rivers: seq<River>, gvfk: string): seq<River> {
    Members(rivers, (r: River) => r.gvfk, gvfk)
  }

  /** A retained clean river is an input river with contact and non-blank
      GVFK, and every such input river is retained. */
  lemma CleanContactRiversSpec(rivers: seq<River>, hasContactColumn: bool, r: River)
    ensures r in CleanContactRivers(rivers, hasContactColumn) ==>
      exists r0 :: r0 in rivers && Strip(r0.gvfk) != "" && r == r0.(gvfk := Strip(r0.gvfk)) &&
        (!hasContactColumn || r0.contact == Some(Config.ContactFilterValue))
    ensures (r in rivers && Strip(r.gvfk) != "" && (!hasContactColumn || r.contact == Some(Config.ContactFilterValue))) ==>
      r.(gvfk := Strip(r.gvfk)) in CleanContactRivers(rivers, hasContactColumn)
  {
    var f := (r: River) =>
      if Strip(r.gvfk) != "" && (!hasContactColumn || r.contact == Some(Config.ContactFilterValue))
      then [r.(gvfk := Strip(r.gvfk))] else [];
    FlattenFrom(rivers, f);
    if r in rivers && Strip(r.gvfk) != "" && (!hasContactColumn || r.contact == Some(Config.ContactFilterValue)) {
      FlattenContains(rivers, f, r, r.(gvfk := Strip(r.gvfk)));
    }
  }

  // ---------------------------------------------------------------------
  // Nearest segment (clean) and minimum distance (plain)
  // ---------------------------------------------------------------------

  /** The index the clean loop ends with: a later segment replaces the
      running nearest one only when it is strictly closer. */
  function NearestIndex(cands: seq<River>, c: Combination, dist: (Combination, River) -> real): (n: Option<nat>)
    ensures n.None? <==> cands == []
    ensures n.Some? ==> n.value < |cands|
    decreases |cands|
  {
    if cands == [] then None
    else
      var prev := NearestIndex(cands[..|cands| - 1], c, dist);
      var i := |cands| - 1;
      if prev.None? || dist(c, cands[i]) < dist(c, cands[prev.value]) then Some(i) else prev
  }

  /** The nearest segment is at least as close as every candidate, and
      strictly closer than every candidate before it: the first segment
      in iteration order that attains the minimum. */
  lemma {:induction false} NearestIndexSpec(cands: seq<River>, c: Combination, dist: (Combination, River) -> real)
    requires cands != []
    ensures var n := NearestIndex(cands, c, dist).value;
      (forall j :: 0 <= j < |cands| ==> dist(c, cands[n]) <= dist(c, cands[j])) &&
      (forall j :: 0 <= j < n ==> dist(c, cands[n]) < dist(c, cands[j]))
    decreases |cands|
  {
    var init := cands[..|cands| - 1];
    if init != [] {
      NearestIndexSpec(init, c, dist);
      assert forall j :: 0 <= j < |init| ==> init[j] == cands[j];
    }
  }

  /** The running minimum is the minimum over the candidates. */
  lemma NearestIsMinimum(cands: seq<River>, c: Combination, dist: (Combination, River) -> real)
    requires cands != []
    ensures dist(c, cands[NearestIndex(cands, c, dist).value]) == MinBy(cands, (r: River) => dist(c, r))
  {
    NearestIndexSpec(cands, c, dist);
    var n := NearestIndex(cands, c, dist).value;
    MinByUnique(cands, (r: River) => dist(c, r), dist(c, cands[n]), n);
  }

  lemma MinByUnique<R>(rows: seq<R>, f: R -> real, m: real, k: nat)
    requires k < |rows| && m == f(rows[k])
    requires forall i :: 0 <= i < |rows| ==> m <= f(rows[i])
    ensures m == MinBy(rows, f)
  {
  }

  /** The loop over a combination's candidates in the clean version. */
  method NearestRiver(cands: seq<River>, c: Combination, dist: (Combination, River) -> real)
    returns (minDistance: Option<real>, nearest: Option<nat>)
    ensures nearest == NearestIndex(cands, c, dist)
    ensures minDistance == if nearest.Some? then Some(dist(c, cands[nearest.value])) else None
  {
    minDistance := None;
    nearest := None;
    var i := 0;
    while i < |cands|
      invariant 0 <= i <= |cands|
      invariant nearest == NearestIndex(cands[..i], c, dist)
      invariant minDistance == if nearest.Some? then Some(dist(c, cands[nearest.value])) else None
    {
      assert cands[..i + 1][..i] == cands[..i];
      assert forall j :: 0 <= j < i ==> cands[..i][j] == cands[j];
      var distance := dist(c, cands[i]);
      if minDistance.None? || distance < minDistance.value {
        minDistance := Some(distance);
        nearest := Some(i);
      }
      i := i + 1;
    }
    assert cands[..|cands|] == cands;
  }

  /** The loop over a combination's candidates in the plain version:
      `min_distance = min(min_distance, distance)` from infinity. */
  method MinimumDistance(cands: seq<River>, c: Combination, dist: (Combination, River) -> real)
    returns (minDistance: Option<real>)
    ensures minDistance == if cands == [] then None else Some(MinBy(cands, (r: River) => dist(c, r)))
  {
    minDistance := None;
    var i := 0;
    while i < |cands|
      invariant 0 <= i <= |cands|
      invariant minDistance.None? <==> i == 0
      invariant minDistance.Some? ==>
        (forall j :: 0 <= j < i ==> minDistance.value <= dist(c, cands[j])) &&
        (exists j :: 0 <= j < i && minDistance.value == dist(c, cands[j]))
    {
      var distance := dist(c, cands[i]);
      if minDistance.None? || distance < minDistance.value {
        minDistance := Some(distance);
      }
      i := i + 1;
    }
    if cands != [] {
      var k :| 0 <= k < |cands| && minDistance.value == dist(c, cands[k]);
      MinByUnique(cands, (r: River) => dist(c, r), minDistance.value, k);
    }
  }

  // ---------------------------------------------------------------------
  // Per-combination results
  // ---------------------------------------------------------------------

  /** Clean version: combinations without GVFK or geometry are skipped;
      the others get the nearest matching segment and its distance. */
  function CleanOutcome(rivers: seq<River>, dist: (Combination, River) -> real, c: Combination): seq<Outcome> {
    if c.gvfk.None? || !c.hasGeometry then []
    else
      var cands := Matching(rivers, c.gvfk.value);
      var n := NearestIndex(cands, c, dist);
      [Outcome(c.site, c.gvfk.value, c.siteType, cands,
               if n.Some? then Some(dist(c, cands[n.value])) else None,
               if n.Some? then Some(cands[n.value]) else None)]
  }

  /** Plain version: the same skips, only the minimum distance. */
  function PlainOutcome(rivers: seq<River>, dist: (Combination, River) -> real, c: Combination): seq<Outcome> {
    if c.gvfk.None? || !c.hasGeometry then []
    else
      var cands := Matching(rivers, c.gvfk.value);
      [Outcome(c.site, c.gvfk.value, c.siteType, cands,
               if cands == [] then None else Some(MinBy(cands, (r: River) => dist(c, r))), None)]
  }

  /** The two versions compute the same distance for every combination. */
  lemma VersionsAgree(rivers: seq<River>, dist: (Combination, River) -> real, c: Combination)
    ensures |CleanOutcome(rivers, dist, c)| == |PlainOutcome(rivers, dist, c)|
    ensures CleanOutcome(rivers, dist, c) != [] ==>
      CleanOutcome(rivers, dist, c)[0].distance == PlainOutcome(rivers, dist, c)[0].distance
  {
    if c.gvfk.Some? && c.hasGeometry && Matching(rivers, c.gvfk.value) != [] {
      NearestIsMinimum(Matching(rivers, c.gvfk.value), c, dist);
    }
  }

  /** A result has a distance exactly when some segment of its GVFK is a
      candidate, and the nearest segment is one of them, at that distance,
      no farther than any other. */
  lemma CleanOutcomeSpec(rivers: seq<River>, dist: (Combination, River) -> real, c: Combination)
    ensures CleanOutcome(rivers, dist, c) == [] <==> c.gvfk.None? || !c.hasGeometry
    ensures CleanOutcome(rivers, dist, c) != [] ==>
      var o := CleanOutcome(rivers, dist, c)[0];
      o.site == c.site && o.gvfk == c.gvfk.value &&
      (o.distance.Some? <==> exists r :: r in rivers && r.gvfk == o.gvfk) &&
      (o.distance.Some? ==>
        o.nearest.Some? && o.nearest.value in rivers && o.nearest.value.gvfk == o.gvfk &&
        o.distance.value == dist(c, o.nearest.value) &&
        forall r :: r in rivers && r.gvfk == o.gvfk ==> o.distance.value <= dist(c, r))
  {
    if c.gvfk.Some? && c.hasGeometry {
      var cands := Matching(rivers, c.gvfk.value);
      MembersSpec(rivers, (r: River) => r.gvfk, c.gvfk.value);
      if cands != [] {
        NearestIndexSpec(cands, c, dist);
        var n := NearestIndex(cands, c, dist).value;
        assert cands[n] in cands;
        forall r | r in rivers && r.gvfk == c.gvfk.value ensures dist(c, cands[n]) <= dist(c, r) {
          var j :| 0 <= j < |cands| && cands[j] == r;
        }
      }
    }
  }

  // ---------------------------------------------------------------------
  // Table-level results and minimum flags
  // ---------------------------------------------------------------------

  function Dist(o: Outcome): real {
    if o.distance.Some? then o.distance.value else 0.0
  }

  /** `results_df[results_df['Distance_to_River_m'].notna()]`. */
  function Valid(outcomes: seq<Outcome>): seq<Outcome> {
    Flatten(outcomes, (o: Outcome) => if o.distance.Some? then [o] else [])
  }

  /** The site's minimum over its valid distances, absent when it has none. */
  function SiteMin(valid: seq<Outcome>, site: string): Option<real> {
    var m := Members(valid, (o: Outcome) => o.site, site);
    if m == [] then None else Some(MinBy(m, Dist))
  }

  /** The left merge with the per-site minimum and the flag. */
  function Flag(valid: seq<Outcome>, o: Outcome): Flagged {
    var m := SiteMin(valid, o.site);
    Flagged(o, m, o.distance.Some? && m == Some(o.distance.value))
  }

  function FlagAll(outcomes: seq<Outcome>): seq<Flagged> {
    var valid := Valid(outcomes);
    Flatten(outcomes, (o: Outcome) => [Flag(valid, o)])
  }

  /** What `run_step4` returns: None when no combination was processed or
      none has a distance, otherwise every result row with its flags. */
  function Distances(outcomes: seq<Outcome>): Option<seq<Flagged>> {
    if outcomes == [] || Valid(outcomes) == [] then None else Some(FlagAll(outcomes))
  }

  function CleanResults(combos: seq<Combination>, rivers: seq<River>, dist: (Combination, River) -> real): seq<Outcome> {
    Flatten(combos, c => CleanOutcome(rivers, dist, c))
  }

  function PlainResults(combos: seq<Combination>, rivers: seq<River>, dist: (Combination, River) -> real): seq<Outcome> {
    Flatten(combos, c => PlainOutcome(rivers, dist, c))
  }

  /** The clean `run_step4`. */
  method CleanRunStep4(combos: seq<Combination>, rivers: seq<River>, hasContactColumn: bool,
                       dist: (Combination, River) -> real)
    returns (result: Option<seq<Flagged>>)
    ensures var contact := CleanContactRivers(rivers, hasContactColumn);
      result == if combos == [] || contact == [] then None else Distances(CleanResults(combos, contact, dist))
  {
    if combos == [] {
      return None;
    }
    var contact := CleanContactRivers(rivers, hasContactColumn);
    if contact == [] {
      return None;
    }
    var results: seq<Outcome> := [];
    for i := 0 to |combos|
      invariant results == CleanResults(combos[..i], contact, dist)
    {
      FlattenSnoc(combos, c => CleanOutcome(contact, dist, c), i);
      var c := combos[i];
      if c.gvfk.None? || !c.hasGeometry {
        continue;
      }
      var cands := Matching(contact, c.gvfk.value);
      var d, n := NearestRiver(cands, c, dist);
      results := results + [Outcome(c.site, c.gvfk.value, c.siteType, cands, d,
                                    if n.Some? then Some(cands[n.value]) else None)];
    }
    assert combos[..|combos|] == combos;
    result := Distances(results);
  }

  /** The plain `run_step4`. */
  method PlainRunStep4(combos: seq<Combination>, rivers: seq<River>, dist: (Combination, River) -> real)
    returns (result: Option<seq<Flagged>>)
    ensures var contact := PlainContactRivers(rivers);
      result == if combos == [] || contact == [] then None else Distances(PlainResults(combos, contact, dist))
  {
    if combos == [] {
      return None;
    }
    var contact := PlainContactRivers(rivers);
    if contact == [] {
      return None;
    }
    var results: seq<Outcome> := [];
    for i := 0 to |combos|
      invariant results == PlainResults(combos[..i], contact, dist)
    {
      FlattenSnoc(combos, c => PlainOutcome(contact, dist, c), i);
      var c := combos[i];
      if c.gvfk.None? || !c.hasGeometry {
        continue;
      }
      var cands := Matching(contact, c.gvfk.value);
      var d := MinimumDistance(cands, c, dist);
      results := results + [Outcome(c.site, c.gvfk.value, c.siteType, cands, d, None)];
    }
    assert combos[..|combos|] == combos;
    result := Distances(results);
  }

  lemma ValidSpec(outcomes: seq<Outcome>)
    ensures forall o :: o in Valid(outcomes) <==> o in outcomes && o.distance.Some?
  {
    var f := (o: Outcome) => if o.distance.Some? then [o] else [];
    FlattenFrom(outcomes, f);
    forall o | o in outcomes && o.distance.Some? ensures o in Valid(outcomes) {
      FlattenContains(outcomes, f, o, o);
    }
  }

  /** A site's valid rows are its rows with a distance. */
  lemma SiteRowsSpec(outcomes: seq<Outcome>, site: string)
    ensures forall x :: x in Members(Valid(outcomes), (x: Outcome) => x.site, site) <==>
      x in outcomes && x.site == site && x.distance.Some?
  {
    ValidSpec(outcomes);
    MembersSpec(Valid(outcomes), (x: Outcome) => x.site, site);
  }

  /** The merged minimum is absent exactly when the site has no distance;
      otherwise it is one of the site's distances and none is smaller. */
  lemma SiteMinSpec(outcomes: seq<Outcome>, site: string)
    ensures SiteMin(Valid(outcomes), site).None? <==>
      forall o' :: o' in outcomes && o'.site == site ==> o'.distance.None?
    ensures SiteMin(Valid(outcomes), site).Some? ==>
      (forall o' :: o' in outcomes && o'.site == site && o'.distance.Some? ==>
         SiteMin(Valid(outcomes), site).value <= o'.distance.value) &&
      (exists o' :: o' in outcomes && o'.site == site && o'.distance == SiteMin(Valid(outcomes), site))
  {
    var m := Members(Valid(outcomes), (x: Outcome) => x.site, site);
    SiteRowsSpec(outcomes, site);
    if exists o' :: o' in outcomes && o'.site == site && o'.distance.Some? {
      var o' :| o' in outcomes && o'.site == site && o'.distance.Some?;
      assert o' in m;
    }
    if m != [] {
      var mn := MinBy(m, Dist);
      forall x | x in outcomes && x.site == site && x.distance.Some? ensures mn <= x.distance.value {
        var i :| 0 <= i < |m| && m[i] == x;
      }
      var k :| 0 <= k < |m| && mn == Dist(m[k]);
      assert m[k] in m;
    }
  }

  /** `Is_Min_Distance` holds exactly for a row with a distance that no
      other row of its site undercuts; the merged minimum is absent
      exactly when the site has no distance. */
  lemma FlagSpec(outcomes: seq<Outcome>, o: Outcome)
    requires o in outcomes
    ensures var f := Flag(Valid(outcomes), o);
      f.isMin <==> (o.distance.Some? &&
        forall o' :: o' in outcomes && o'.site == o.site && o'.distance.Some? ==> o.distance.value <= o'.distance.value)
    ensures var f := Flag(Valid(outcomes), o);
      f.minDistance.None? <==> forall o' :: o' in outcomes && o'.site == o.site ==> o'.distance.None?
  {
    SiteMinSpec(outcomes, o.site);
  }

  /** Every site with a valid distance has at least one flagged row. */
  lemma SomeRowFlagged(outcomes: seq<Outcome>, o: Outcome)
    requires o in outcomes && o.distance.Some?
    ensures exists o' :: o' in outcomes && o'.site == o.site && Flag(Valid(outcomes), o').isMin
  {
    var valid := Valid(outcomes);
    ValidSpec(outcomes);
    var m := Members(valid, (x: Outcome) => x.site, o.site);
    MembersSpec(valid, (x: Outcome) => x.site, o.site);
    assert o in m;
    var mn := MinBy(m, Dist);
    var k :| 0 <= k < |m| && mn == Dist(m[k]);
    assert m[k] in m;
    assert Flag(valid, m[k]).isMin;
  }

  // ---------------------------------------------------------------------
  // One row per site
  // ---------------------------------------------------------------------

  /** The row with the alphabetically first GVFK, the first one on ties:
      `sort_values(['Lokalitet_ID', 'GVFK']).groupby(...).first()`. */
  function FirstByGvfk(rows: seq<Flagged>): (r: Flagged)
    requires rows != []
    ensures r in rows
    ensures forall x :: x in rows ==> LexLe(r.outcome.gvfk, x.outcome.gvfk)
  {
    if |rows| == 1 then rows[0]
    else
      var rest := FirstByGvfk(rows[1..]);
      assert forall x :: x in rows ==> x == rows[0] || x in rows[1..];
      LexLessTotal(rows[0].outcome.gvfk, rest.outcome.gvfk);
      if LexLe(rows[0].outcome.gvfk, rest.outcome.gvfk) then
        assert forall x :: x in rows[1..] && rows[0].outcome.gvfk != rest.outcome.gvfk && rest.outcome.gvfk != x.outcome.gvfk ==>
          LexLess(rows[0].outcome.gvfk, x.outcome.gvfk) by {
          forall x | x in rows[1..] && rows[0].outcome.gvfk != rest.outcome.gvfk && rest.outcome.gvfk != x.outcome.gvfk
            ensures LexLess(rows[0].outcome.gvfk, x.outcome.gvfk) {
            LexLessTransitive(rows[0].outcome.gvfk, rest.outcome.gvfk, x.outcome.gvfk);
          }
        }
        rows[0]
      else rest
  }

  /** The index of the first row holding a value in column `col` once the
      rows are sorted by GVFK with ties kept in table order: the present
      row with the alphabetically first GVFK, the earliest one on ties.
      This is where `groupby(...).first()` takes that column's value from. */
  function FirstPresent<V>(m: seq<Flagged>, col: Flagged -> Option<V>): (r: Option<nat>)
    ensures r.None? <==> forall j :: 0 <= j < |m| ==> col(m[j]).None?
    ensures r.Some? ==> r.value < |m| && col(m[r.value]).Some?
    ensures r.Some? ==> forall j :: 0 <= j < |m| && col(m[j]).Some? ==>
      LexLe(m[r.value].outcome.gvfk, m[j].outcome.gvfk)
    ensures r.Some? ==> forall j :: 0 <= j < r.value && col(m[j]).Some? ==>
      LexLess(m[r.value].outcome.gvfk, m[j].outcome.gvfk)
  {
    if m == [] then None
    else
      var rest := FirstPresent(m[1..], col);
      assert forall j :: 1 <= j < |m| ==> m[j] == m[1..][j - 1];
      if col(m[0]).None? then
        (if rest.None? then None else Some(rest.value + 1))
      else if rest.None? then Some(0)
      else
        var g0, gr := m[0].outcome.gvfk, m[rest.value + 1].outcome.gvfk;
        LexLessTotal(g0, gr);
        if LexLe(g0, gr) then
          assert forall j :: 0 <= j < |m| && col(m[j]).Some? ==> LexLe(g0, m[j].outcome.gvfk) by {
            forall j | 0 < j < |m| && col(m[j]).Some? && g0 != gr && gr != m[j].outcome.gvfk
              ensures LexLess(g0, m[j].outcome.gvfk) {
              LexLessTransitive(g0, gr, m[j].outcome.gvfk);
            }
          }
          Some(0)
        else Some(rest.value + 1)
  }

  /** The nearest segment columns of a row, and its water-body id and name. */
  function NearestOf(f: Flagged): Option<River> { f.outcome.nearest }

  function NearestOvId(f: Flagged): Option<string> {
    match f.outcome.nearest
    case None => None
    case Some(n) => n.ovId
  }

  function NearestOvNavn(f: Flagged): Option<string> {
    match f.outcome.nearest
    case None => None
    case Some(n) => n.ovNavn
  }

  /** The value `first()` gives a column: from its first present row. */
  function FirstValue<V>(m: seq<Flagged>, col: Flagged -> Option<V>): Option<V> {
    match FirstPresent(m, col)
    case None => None
    case Some(i) => col(m[i])
  }

  /** The merged nearest-segment columns: `Nearest_River_FID` from the
      first row with a nearest segment, and `Nearest_River_ov_id` and
      `Nearest_River_ov_navn` each from the first row where it is present,
      which may be different rows. */
  function MergedNearest(m: seq<Flagged>): Option<River> {
    match FirstValue(m, NearestOf)
    case None => None
    case Some(n) => Some(n.(ovId := FirstValue(m, NearestOvId), ovNavn := FirstValue(m, NearestOvNavn)))
  }

  /** `groupby(...).first()` over one site's rows: the columns that are
      never null come from the row with the alphabetically first GVFK,
      the nearest-segment columns are merged column by column. */
  function MergeFirst(m: seq<Flagged>): Flagged
    requires m != []
  {
    var b := FirstByGvfk(m);
    b.(outcome := b.outcome.(nearest := MergedNearest(m)))
  }

  function MinEntries(flagged: seq<Flagged>): seq<Flagged> {
    Flatten(flagged, (f: Flagged) => if f.isMin then [f] else [])
  }

  function SiteOf(f: Flagged): string { f.outcome.site }

  /** The row a site keeps among its flagged rows. */
  function SiteChoice(mins: seq<Flagged>, s: string): seq<Flagged> {
    var m := Members(mins, SiteOf, s);
    if m == [] then [] else [MergeFirst(m)]
  }

  lemma SiteChoiceSpec(mins: seq<Flagged>, s: string)
    requires s in Column(mins, SiteOf)
    ensures |SiteChoice(mins, s)| == 1 && SiteOf(SiteChoice(mins, s)[0]) == s
  {
    MembersFirst(mins, SiteOf, s);
    MembersSpec(mins, SiteOf, s);
  }

  /** The per-site table: one row per site among the flagged rows. */
  function UniqueDistances(flagged: seq<Flagged>): seq<Flagged> {
    var mins := MinEntries(flagged);
    Flatten(GroupKeys(mins, SiteOf), s => SiteChoice(mins, s))
  }

  lemma MinEntriesSpec(flagged: seq<Flagged>)
    ensures forall f :: f in MinEntries(flagged) <==> f in flagged && f.isMin
  {
    var g := (f: Flagged) => if f.isMin then [f] else [];
    FlattenFrom(flagged, g);
    forall f | f in flagged && f.isMin ensures f in MinEntries(flagged) {
      FlattenContains(flagged, g, f, f);
    }
  }

  lemma {:induction false} UniqueSites(mins: seq<Flagged>, ks: seq<string>)
    requires forall k :: k in ks ==> k in Column(mins, SiteOf)
    ensures Column(Flatten(ks, s => SiteChoice(mins, s)), SiteOf) == ks
  {
    var g := s => SiteChoice(mins, s);
    if ks != [] {
      var init := ks[..|ks| - 1];
      var last := ks[|ks| - 1];
      assert forall k :: k in init ==> k in ks;
      UniqueSites(mins, init);
      var a, b := Flatten(init, g), g(last);
      assert Flatten(ks, g) == a + b;
      assert Column(b, SiteOf) == [last] by {
        SiteChoiceSpec(mins, last);
      }
      ColumnAppend(a, b, SiteOf);
      assert ks == init + [last];
    }
  }

  /** The per-site table lists the sites of the flagged rows, each once. */
  lemma UniqueDistancesColumn(flagged: seq<Flagged>)
    ensures Column(UniqueDistances(flagged), SiteOf) == GroupKeys(MinEntries(flagged), SiteOf)
  {
    var mins := MinEntries(flagged);
    var ks := GroupKeys(mins, SiteOf);
    forall k | k in ks ensures k in Column(mins, SiteOf) {
      GroupKeyInColumn(mins, SiteOf, k);
    }
    UniqueSites(mins, ks);
  }

  lemma MinSitesSpec(flagged: seq<Flagged>, s: string)
    ensures s in Column(MinEntries(flagged), SiteOf) <==> exists f :: f in flagged && f.isMin && SiteOf(f) == s
  {
    var mins := MinEntries(flagged);
    MinEntriesSpec(flagged);
    if s in Column(mins, SiteOf) {
      var i :| 0 <= i < |mins| && Column(mins, SiteOf)[i] == s;
      assert mins[i] in mins;
    }
    if exists f :: f in flagged && f.isMin && SiteOf(f) == s {
      var f :| f in flagged && f.isMin && SiteOf(f) == s;
      var i :| 0 <= i < |mins| && mins[i] == f;
      assert Column(mins, SiteOf)[i] == s;
    }
  }

  /** Row `u` is row `b` except possibly in the nearest-segment columns. */
  predicate AgreesBesidesNearest(u: Flagged, b: Flagged) {
    u == b.(outcome := b.outcome.(nearest := u.outcome.nearest))
  }

  /** A site's flagged rows, in table order. */
  function SiteMins(flagged: seq<Flagged>, s: string): seq<Flagged> {
    Members(MinEntries(flagged), SiteOf, s)
  }

  /** Each kept row agrees, outside the nearest-segment columns, with one of
      its site's flagged rows whose GVFK comes alphabetically first among
      them; its nearest-segment columns are the site's merged ones. */
  lemma UniqueDistancesRows(flagged: seq<Flagged>, u: Flagged)
    requires u in UniqueDistances(flagged)
    ensures u.isMin
    ensures exists b :: b in flagged && b.isMin && SiteOf(b) == SiteOf(u) && AgreesBesidesNearest(u, b)
    ensures forall f :: f in flagged && f.isMin && SiteOf(f) == SiteOf(u) ==> LexLe(u.outcome.gvfk, f.outcome.gvfk)
    ensures u.outcome.nearest == MergedNearest(SiteMins(flagged, SiteOf(u)))
  {
    var mins := MinEntries(flagged);
    var ks := GroupKeys(mins, SiteOf);
    MinEntriesSpec(flagged);
    var g := s => SiteChoice(mins, s);
    FlattenFrom(ks, g);
    var k :| k in ks && u in g(k);
    var m := Members(mins, SiteOf, k);
    MembersSpec(mins, SiteOf, k);
    var b := FirstByGvfk(m);
    assert u == MergeFirst(m);
    assert b in m;
    assert AgreesBesidesNearest(u, b);
    forall f | f in flagged && f.isMin && SiteOf(f) == SiteOf(u) ensures LexLe(u.outcome.gvfk, f.outcome.gvfk) {
      assert f in m;
    }
  }

  /** The per-site table has exactly one row per site with a flagged row.
      That row is flagged and agrees, outside the nearest-segment columns,
      with a flagged row of its site whose GVFK comes alphabetically first;
      its nearest-segment columns are merged column by column. */
  lemma UniqueDistancesSpec(flagged: seq<Flagged>)
    ensures Distinct(Column(UniqueDistances(flagged), SiteOf))
    ensures forall s :: s in Column(UniqueDistances(flagged), SiteOf) <==>
      exists f :: f in flagged && f.isMin && SiteOf(f) == s
    ensures forall u :: u in UniqueDistances(flagged) ==> (u.isMin &&
      (exists b :: b in flagged && b.isMin && SiteOf(b) == SiteOf(u) && AgreesBesidesNearest(u, b)) &&
      (forall f :: f in flagged && f.isMin && SiteOf(f) == SiteOf(u) ==> LexLe(u.outcome.gvfk, f.outcome.gvfk)) &&
      u.outcome.nearest == MergedNearest(SiteMins(flagged, SiteOf(u))))
  {
    UniqueDistancesColumn(flagged);
    GroupKeysSpec(MinEntries(flagged), SiteOf);
    forall s ensures s in Column(UniqueDistances(flagged), SiteOf) <==>
      exists f :: f in flagged && f.isMin && SiteOf(f) == s
    {
      MinSitesSpec(flagged, s);
    }
    forall u | u in UniqueDistances(flagged)
      ensures u.isMin &&
        (exists b :: b in flagged && b.isMin && SiteOf(b) == SiteOf(u) && AgreesBesidesNearest(u, b)) &&
        (forall f :: f in flagged && f.isMin && SiteOf(f) == SiteOf(u) ==> LexLe(u.outcome.gvfk, f.outcome.gvfk)) &&
        u.outcome.nearest == MergedNearest(SiteMins(flagged, SiteOf(u)))
    {
      UniqueDistancesRows(flagged, u);
    }
  }

  /** The merged nearest-segment columns: absent exactly when no row has a
      nearest segment; otherwise the FID is that of the first row with one,
      in GVFK order, and the water-body id and name are each the first
      present one, in GVFK order, which need not come from the same row. */
  lemma MergedNearestSpec(m: seq<Flagged>)
    ensures MergedNearest(m).None? <==> forall j :: 0 <= j < |m| ==> m[j].outcome.nearest.None?
    ensures MergedNearest(m).Some? ==>
      exists i :: (0 <= i < |m| && FirstPresent(m, NearestOf) == Some(i) &&
                   m[i].outcome.nearest.Some? && MergedNearest(m).value.fid == m[i].outcome.nearest.value.fid)
    ensures MergedNearest(m).Some? ==>
      MergedNearest(m).value.ovId == FirstValue(m, NearestOvId) &&
      MergedNearest(m).value.ovNavn == FirstValue(m, NearestOvNavn)
    ensures FirstValue(m, NearestOvId).Some? || FirstValue(m, NearestOvNavn).Some? ==> MergedNearest(m).Some?
  {
    var p := FirstPresent(m, NearestOf);
    if p.None? {
      forall j | 0 <= j < |m| ensures NearestOvId(m[j]).None? && NearestOvNavn(m[j]).None? {
        assert NearestOf(m[j]).None?;
      }
    } else {
      assert NearestOf(m[p.value]).Some?;
    }
  }

  /** The value of a column is absent exactly when no row has one, and
      otherwise is the value of its first present row in GVFK order:
      no row with a smaller GVFK, and no earlier row with the same GVFK,
      holds one. */
  lemma FirstValueSpec<V>(m: seq<Flagged>, col: Flagged -> Option<V>)
    ensures FirstValue(m, col).None? <==> forall j :: 0 <= j < |m| ==> col(m[j]).None?
    ensures FirstValue(m, col).Some? ==>
      exists i :: (0 <= i < |m| && col(m[i]) == FirstValue(m, col) &&
                   (forall j :: 0 <= j < |m| && col(m[j]).Some? ==> LexLe(m[i].outcome.gvfk, m[j].outcome.gvfk)) &&
                   (forall j :: 0 <= j < i && col(m[j]).Some? ==> LexLess(m[i].outcome.gvfk, m[j].outcome.gvfk)))
  {
  }

  /** Two flagged rows of one site tie on the minimum; the row of GVFK "A"
      has no water-body id, the row of GVFK "B" has id "o2". The merged row
      keeps GVFK "A" and A's segment but takes the id "o2" from B's row. */
  lemma TiedRowsMergeColumns()
    ensures var ra := River(1, "A", Some(1), None, Some("a"));
      var rb := River(2, "B", Some(1), Some("o2"), Some("b"));
      var fa := Flagged(Outcome("S", "A", "V1", [ra], Some(10.0), Some(ra)), Some(10.0), true);
      var fb := Flagged(Outcome("S", "B", "V1", [rb], Some(10.0), Some(rb)), Some(10.0), true);
      var u := MergeFirst([fb, fa]);
      u.outcome.gvfk == "A" && u.outcome.nearest == Some(River(1, "A", Some(1), Some("o2"), Some("a")))
  {
    var ra := River(1, "A", Some(1), None, Some("a"));
    var rb := River(2, "B", Some(1), Some("o2"), Some("b"));
    var fa := Flagged(Outcome("S", "A", "V1", [ra], Some(10.0), Some(ra)), Some(10.0), true);
    var fb := Flagged(Outcome("S", "B", "V1", [rb], Some(10.0), Some(rb)), Some(10.0), true);
    assert LexLess("A", "B");
    assert !LexLe("B", "A") by { LexLessAsymmetric("A", "B"); }
    assert FirstByGvfk([fb, fa]) == fa by {
      assert [fb, fa][1..] == [fa];
    }
    assert FirstPresent([fb, fa], NearestOf) == Some(1) by {
      assert [fb, fa][1..] == [fa];
    }
    assert FirstPresent([fb, fa], NearestOvId) == Some(0) by {
      assert [fb, fa][1..] == [fa];
    }
    assert FirstPresent([fb, fa], NearestOvNavn) == Some(1) by {
      assert [fb, fa][1..] == [fa];
    }
  }

  // ---------------------------------------------------------------------
  // Per-site GVFK summary (plain version)
  // ---------------------------------------------------------------------

  function SiteValid(valid: seq<Outcome>, site: string): seq<Outcome> {
    Members(valid, (o: Outcome) => o.site, site)
  }

  /** `Total_GVFKs_Affected`: the number of the site's valid rows. */
  function TotalGvfksAffected(valid: seq<Outcome>, site: string): nat {
    |SiteValid(valid, site)|
  }

  /** `All_Affected_GVFKs`: the distinct GVFKs of the site's valid rows,
      sorted, joined by '; '. */
  function AllAffectedGvfks(valid: seq<Outcome>, site: string): string {
    Join(SortedUnique(Column(SiteValid(valid, site), (o: Outcome) => o.gvfk)), "; ")
  }

  /** The listed GVFKs are sorted, distinct and exactly those of the site's
      valid rows, never more than the row count; when GVFK names are
      stripped, non-empty and free of ';', the text splits back into that
      list. */
  lemma AllAffectedGvfksSpec(valid: seq<Outcome>, site: string)
    ensures var gs := SortedUnique(Column(SiteValid(valid, site), (o: Outcome) => o.gvfk));
      Sorted(gs) && Distinct(gs) && |gs| <= TotalGvfksAffected(valid, site) &&
      forall g :: g in gs <==> exists o :: o in valid && o.site == site && o.gvfk == g
    ensures (forall o :: o in valid ==> o.gvfk != [] && Strip(o.gvfk) == o.gvfk && ';' !in o.gvfk) ==>
      Tokens(AllAffectedGvfks(valid, site), ";") == SortedUnique(Column(SiteValid(valid, site), (o: Outcome) => o.gvfk))
  {
    var m := SiteValid(valid, site);
    var col := Column(m, (o: Outcome) => o.gvfk);
    var gs := SortedUnique(col);
    SortedUniqueSpec(col);
    SortedUniqueLength(col);
    DedupFromLength(col, []);
    MembersSpec(valid, (o: Outcome) => o.site, site);
    forall g ensures g in gs <==> exists o :: o in valid && o.site == site && o.gvfk == g {
      if g in col {
        var i :| 0 <= i < |col| && col[i] == g;
        assert m[i] in m;
      }
      if exists o :: o in valid && o.site == site && o.gvfk == g {
        var o :| o in valid && o.site == site && o.gvfk == g;
        var i :| 0 <= i < |m| && m[i] == o;
        assert col[i] == g;
      }
    }
    if forall o :: o in valid ==> o.gvfk != [] && Strip(o.gvfk) == o.gvfk && ';' !in o.gvfk {
      TokensJoin(gs);
    }
  }

  // ---------------------------------------------------------------------
  // The site-GVFK lookup key
  // ---------------------------------------------------------------------

  /** `Lokalitet + '_' + GVFK`, on both sides of the join. */
  function LookupKey(site: string, gvfk: string): string {
    site + "_" + gvfk
  }

  /** Site ids without '_' make the key injective. */
  lemma LookupKeyInjective(s1: string, g1: string, s2: string, g2: string)
    requires '_' !in s1 && '_' !in s2
    requires LookupKey(s1, g1) == LookupKey(s2, g2)
    ensures s1 == s2 && g1 == g2
  {
    var k := LookupKey(s1, g1);
    assert k[|s1|] == '_' && LookupKey(s2, g2)[|s2|] == '_';
    assert |s1| == |s2|;
    assert s1 == k[..|s1|] && s2 == k[..|s2|];
    assert g1 == k[|s1| + 1..] && g2 == k[|s2| + 1..];
  }

  /** `dict(zip(results_df['lookup_key'], results_df['Distance_to_River_m']))`:
      a later row with the same key overwrites an earlier one. */
  function DistanceLookup(rows: seq<Flagged>): map<string, Option<real>>
    decreases |rows|
  {
    if rows == [] then map[]
    else
      var r := rows[|rows| - 1].outcome;
      DistanceLookup(rows[..|rows| - 1])[LookupKey(r.site, r.gvfk) := r.distance]
  }

  /** The lookup has a key exactly for the rows' keys, and each key maps to
      the distance of the last row carrying it. */
  lemma {:induction false} DistanceLookupSpec(rows: seq<Flagged>, k: string)
    ensures k in DistanceLookup(rows) <==> exists i :: 0 <= i < |rows| && LookupKey(rows[i].outcome.site, rows[i].outcome.gvfk) == k
    ensures forall i :: (0 <= i < |rows| && LookupKey(rows[i].outcome.site, rows[i].outcome.gvfk) == k &&
      (forall j :: i < j < |rows| ==> LookupKey(rows[j].outcome.site, rows[j].outcome.gvfk) != k)) ==>
      DistanceLookup(rows)[k] == rows[i].outcome.distance
    decreases |rows|
  {
    if rows != [] {
      var init := rows[..|rows| - 1];
      DistanceLookupSpec(init, k);
      assert forall i :: 0 <= i < |init| ==> init[i] == rows[i];
    }
  }
}
