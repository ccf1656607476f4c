/** The step-6 risk-assessment analysis (risikovurdering/
    step6_risikovurdering_analysis.py): the branch-only sites, the GVFK
    categories they and the substance sites span, the area and volume of a
    GVFK set, and the three-way comparison of branch and activity texts. */
module GvfkAnalysis {
  import opened Wrappers
  import opened Text
  import opened Grouping
  import opened LandfillScreen

  /** A site row of the parked unknown-substance table. */
  datatype SiteRow = SiteRow(site: string, gvfk: Option<string>, distance: Option<real>,
                             branch: Option<string>, activity: Option<string>)

  // ---------------------------------------------------------------------
  // load_and_filter_branch_sites
  // ---------------------------------------------------------------------

  const BranchDistanceLimit: real := 500.0

  /** `has_losseplads`: a landfill term in the lower-cased text; NaN has none. */
  predicate HasLosseplads(text: Option<string>) {
    LandfillHit(text).Some?
  }

  predicate BranchKept(r: SiteRow) {
    r.distance.Some? && r.distance.value <= BranchDistanceLimit &&
    !HasLosseplads(r.branch) && !HasLosseplads(r.activity)
  }

  /** `Final_Distance_m <= 500`, then no landfill term in branch or activity. */
  function BranchSites(rows: seq<SiteRow>): seq<SiteRow> {
    Flatten(rows, (r: SiteRow) => if BranchKept(r) then [r] else [])
  }

  /** No landfill term occurs in the lower-cased text, or it is NaN. */
  predicate TermFree(text: Option<string>) {
    text.None? || forall j :: 0 <= j < |LandfillTerms| ==> !Contains(Lower(text.value), LandfillTerms[j])
  }

  /** The branch sites are exactly the rows within 500 m (a missing distance
      is not) whose branch and activity texts hold no landfill term. */
  lemma BranchSitesSpec(rows: seq<SiteRow>, r: SiteRow)
    ensures r in BranchSites(rows) <==>
      r in rows && r.distance.Some? && r.distance.value <= 500.0 && TermFree(r.branch) && TermFree(r.activity)
  {
    var f := (r: SiteRow) => if BranchKept(r) then [r] else [];
    FlattenFrom(rows, f);
    LandfillHitSpec(r.branch);
    LandfillHitSpec(r.activity);
    if r in rows && BranchKept(r) {
      FlattenContains(rows, f, r, r);
    }
  }

  // ---------------------------------------------------------------------
  // categorize_gvfks and filter_sites_by_gvfk_category
  // ---------------------------------------------------------------------

  /** `set(col.dropna().unique())`. */
  function GvfkSet(col: seq<Option<string>>): set<string> {
    set i | 0 <= i < |col| && col[i].Some? :: col[i].value
  }

  datatype Categories = Categories(core: set<string>, branch: set<string>, shared: set<string>,
                                   newGvfks: set<string>, substanceOnly: set<string>, expanded: set<string>)

  function CategorizeGvfks(core: set<string>, branch: set<string>): Categories {
    Categories(core, branch, core * branch, branch - core, core - branch, core + branch)
  }

  /** The function's own assertions: shared and substance-only split the
      core GVFKs, shared and new split the branch GVFKs; and the expanded
      set is the disjoint union of shared, new and substance-only. */
  lemma CategoriesSpec(core: set<string>, branch: set<string>)
    ensures var c := CategorizeGvfks(core, branch);
      |c.shared| + |c.substanceOnly| == |core| && |c.shared| + |c.newGvfks| == |branch| &&
      c.expanded == c.shared + c.newGvfks + c.substanceOnly &&
      c.shared * c.newGvfks == {} && c.shared * c.substanceOnly == {} && c.newGvfks * c.substanceOnly == {} &&
      |c.expanded| == |c.shared| + |c.newGvfks| + |c.substanceOnly|
  {
    var c := CategorizeGvfks(core, branch);
    assert core == c.shared + c.substanceOnly;
    assert branch == c.shared + c.newGvfks;
    assert c.expanded == (c.shared + c.newGvfks) + c.substanceOnly;
    assert (c.shared + c.newGvfks) * c.substanceOnly == {};
  }

  /** `branch_sites[branch_sites['Closest_GVFK'].isin(new_gvfks)]`. */
  function SitesInGvfks(rows: seq<SiteRow>, gvfks: set<string>): seq<SiteRow> {
    Flatten(rows, (r: SiteRow) => if r.gvfk.Some? && r.gvfk.value in gvfks then [r] else [])
  }

  function GvfkColumn(rows: seq<SiteRow>): seq<Option<string>> {
    Column(rows, (r: SiteRow) => r.gvfk)
  }

  /** With the new GVFKs of the branch sites against a core set, the sites
      kept are exactly the branch sites whose GVFK lies outside the core. */
  lemma SitesInNewGvfksSpec(branchRows: seq<SiteRow>, core: set<string>, r: SiteRow)
    ensures var c := CategorizeGvfks(core, GvfkSet(GvfkColumn(branchRows)));
      r in SitesInGvfks(branchRows, c.newGvfks) <==> r in branchRows && r.gvfk.Some? && r.gvfk.value !in core
  {
    var newGvfks := CategorizeGvfks(core, GvfkSet(GvfkColumn(branchRows))).newGvfks;
    var f := (r: SiteRow) => if r.gvfk.Some? && r.gvfk.value in newGvfks then [r] else [];
    FlattenFrom(branchRows, f);
    if r in branchRows && r.gvfk.Some? && r.gvfk.value !in core {
      var i :| 0 <= i < |branchRows| && branchRows[i] == r;
      assert GvfkColumn(branchRows)[i] == r.gvfk;
      FlattenContains(branchRows, f, r, r);
    }
  }

  // ---------------------------------------------------------------------
  // calculate_gvfk_metrics
  // ---------------------------------------------------------------------

  datatype AreaVolume = AreaVolume(areaKm2: real, volumeM3: real)
  datatype Metrics = Metrics(count: nat, areaKm2: real, volumeM3: real)

  function Area(v: AreaVolume): real { v.areaKm2 }
  function Volume(v: AreaVolume): real { v.volumeM3 }

  /** The sum of one field over the members of a set that the lookup
      knows, in any order; members it does not know add 0. */
  ghost function LookupSum(s: set<string>, lookup: map<string, AreaVolume>, field: AreaVolume -> real): real
    decreases s
  {
    if s == {} then 0.0
    else
      var x := Pick(s);
      (if x in lookup then field(lookup[x]) else 0.0) + LookupSum(s - {x}, lookup, field)
  }

  ghost function Pick(s: set<string>): string
    requires s != {}
  {
    var x :| x in s; x
  }

  /** Any member may be taken first. */
  lemma LookupSumRemove(s: set<string>, lookup: map<string, AreaVolume>, field: AreaVolume -> real, y: string)
    requires y in s
    ensures LookupSum(s, lookup, field) == (if y in lookup then field(lookup[y]) else 0.0) + LookupSum(s - {y}, lookup, field)
    decreases s
  {
    var x := Pick(s);
    if y != x {
      LookupSumRemove(s - {x}, lookup, field, y);
      LookupSumRemove(s - {y}, lookup, field, x);
      assert s - {x} - {y} == s - {y} - {x};
    }
  }

  lemma LookupSumAdd(done: set<string>, lookup: map<string, AreaVolume>, field: AreaVolume -> real, y: string)
    requires y !in done
    ensures LookupSum(done + {y}, lookup, field) == LookupSum(done, lookup, field) + (if y in lookup then field(lookup[y]) else 0.0)
  {
    LookupSumRemove(done + {y}, lookup, field, y);
    assert done + {y} - {y} == done;
  }

  method CalculateGvfkMetrics(gvfks: set<string>, lookup: map<string, AreaVolume>) returns (m: Metrics)
    ensures m.count == |gvfks|
    ensures m.areaKm2 == LookupSum(gvfks, lookup, Area)
    ensures m.volumeM3 == LookupSum(gvfks, lookup, Volume)
  {
    var totalArea := 0.0;
    var totalVolume := 0.0;
    var remaining := gvfks;
    ghost var done: set<string> := {};
    while remaining != {}
      invariant done <= gvfks && remaining == gvfks - done
      invariant totalArea == LookupSum(done, lookup, Area)
      invariant totalVolume == LookupSum(done, lookup, Volume)
      decreases remaining
    {
      var gvfk :| gvfk in remaining;
      ghost var area := if gvfk in lookup then Area(lookup[gvfk]) else 0.0;
      ghost var volume := if gvfk in lookup then Volume(lookup[gvfk]) else 0.0;
      assert LookupSum(done + {gvfk}, lookup, Area) == totalArea + area by {
        LookupSumAdd(done, lookup, Area, gvfk);
      }
      assert LookupSum(done + {gvfk}, lookup, Volume) == totalVolume + volume by {
        LookupSumAdd(done, lookup, Volume, gvfk);
      }
      if gvfk in lookup {
        totalArea := totalArea + lookup[gvfk].areaKm2;
        totalVolume := totalVolume + lookup[gvfk].volumeM3;
      }
      done := done + {gvfk};
      remaining := remaining - {gvfk};
    }
    assert done == gvfks;
    m := Metrics(|gvfks|, totalArea, totalVolume);
  }

  /** Members absent from the lookup contribute nothing: the sum over the
      set is the sum over its members that the lookup knows. */
  lemma AbsentContributeNothing(s: set<string>, lookup: map<string, AreaVolume>, field: AreaVolume -> real)
    ensures LookupSum(s, lookup, field) == LookupSum(s * lookup.Keys, lookup, field)
    decreases s
  {
    if s != {} {
      var y := Pick(s);
      LookupSumRemove(s, lookup, field, y);
      AbsentContributeNothing(s - {y}, lookup, field);
      if y in lookup.Keys {
        LookupSumRemove(s * lookup.Keys, lookup, field, y);
        assert s * lookup.Keys - {y} == (s - {y}) * lookup.Keys;
      } else {
        assert s * lookup.Keys == (s - {y}) * lookup.Keys;
      }
    }
  }

  /** With non-negative values the total is non-negative and grows with the set. */
  lemma {:induction false} LookupSumMonotone(s: set<string>, t: set<string>, lookup: map<string, AreaVolume>, field: AreaVolume -> real)
    requires s <= t
    requires forall g :: g in lookup ==> field(lookup[g]) >= 0.0
    ensures 0.0 <= LookupSum(s, lookup, field) <= LookupSum(t, lookup, field)
    decreases t
  {
    if t != {} {
      var y := Pick(t);
      LookupSumRemove(t, lookup, field, y);
      if y in s {
        LookupSumRemove(s, lookup, field, y);
        LookupSumMonotone(s - {y}, t - {y}, lookup, field);
      } else {
        LookupSumMonotone(s, t - {y}, lookup, field);
      }
    }
  }

  // ---------------------------------------------------------------------
  // count_occurrences
  // ---------------------------------------------------------------------

  /** The trimmed non-empty ';'-items of one non-null, non-blank cell. */
  function CellItems(v: Option<string>): seq<string> {
    if v.Some? && Strip(v.value) != "" then Tokens(v.value, ";") else []
  }

  function AllItems(col: seq<Option<string>>): seq<string> {
    Flatten(col, CellItems)
  }

  /** `pd.Series(items).value_counts()`, as item to count. */
  function ValueCounts(items: seq<string>): map<string, nat>
    decreases |items|
  {
    if items == [] then map[] else Bump(ValueCounts(items[..|items| - 1]), items[|items| - 1])
  }

  method CountOccurrences(col: seq<Option<string>>) returns (counts: map<string, nat>)
    ensures counts == ValueCounts(AllItems(col))
  {
    var allItems: seq<string> := [];
    for i := 0 to |col|
      invariant allItems == AllItems(col[..i])
    {
      FlattenSnoc(col, CellItems, i);
      var value := col[i];
      if value.Some? && Strip(value.value) != "" {
        var items := Tokens(value.value, ";");
        allItems := allItems + items;
      }
    }
    assert col[..|col|] == col;
    if allItems != [] {
      counts := ValueCounts(allItems);
    } else {
      counts := map[];
    }
  }

  /** Each item's count is its number of occurrences, and the items
      counted are exactly those that occur. */
  lemma {:induction false} ValueCountsSpec(items: seq<string>, k: string)
    ensures CountOf(ValueCounts(items), k) == |Members(items, (x: string) => x, k)|
    ensures k in ValueCounts(items) <==> k in items
    decreases |items|
  {
    if items != [] {
      var init := items[..|items| - 1];
      ValueCountsSpec(init, k);
      MembersSnoc(init, items[|items| - 1], (x: string) => x, k);
      assert items == init + [items[|items| - 1]];
    }
  }

  /** The counts add up to the number of items over all cells, and there
      are none exactly when no cell has an item. */
  lemma ValueCountsTotal(col: seq<Option<string>>)
    ensures var items := AllItems(col);
      SumOver(GroupKeys(items, (x: string) => x), k => CountOf(ValueCounts(items), k) as real) == |items| as real
    ensures ValueCounts(AllItems(col)) == map[] <==> AllItems(col) == []
  {
    var items := AllItems(col);
    var one := (x: string) => 1.0;
    SumOfOnes(items, one);
    forall k: string ensures CountOf(ValueCounts(items), k) as real == SumBy(Members(items, (x: string) => x, k), one) {
      ValueCountsSpec(items, k);
      SumOfOnes(Members(items, (x: string) => x, k), one);
    }
    GroupSumsTotalOwnKeys(items, (x: string) => x, one, k => CountOf(ValueCounts(items), k) as real);
    if items != [] {
      ValueCountsSpec(items, items[0]);
    }
  }

  // ---------------------------------------------------------------------
  // analyze_overlap
  // ---------------------------------------------------------------------

  datatype Overlap = Overlap(uniqueA: nat, uniqueB: nat, uniqueC: nat, commonAll: nat,
                             commonAC: nat, uniqueCOnly: nat, overlapPct: real)

  /** The overlap of the items counted in three groups. */
  function AnalyzeOverlap(a: map<string, nat>, b: map<string, nat>, c: map<string, nat>): Overlap {
    OverlapOf(a.Keys, b.Keys, c.Keys)
  }

  function OverlapOf(setA: set<string>, setB: set<string>, setC: set<string>): Overlap {
    Overlap(|setA|, |setB|, |setC|, |setA * setB * setC|, |setA * setC|, |setC - setA - setB|,
            Percentage(|setA * setC|, |setC|))
  }

  /** `part / whole * 100`, or 0 for an empty whole. */
  function Percentage(part: nat, whole: nat): real {
    if whole > 0 then (part as real) / (whole as real) * 100.0 else 0.0
  }

  lemma PercentageSpec(part: nat, whole: nat)
    requires part <= whole
    ensures 0.0 <= Percentage(part, whole) <= 100.0
    ensures whole > 0 ==> (Percentage(part, whole) == 100.0 <==> part == whole)
  {
    if whole > 0 {
      var x, y := part as real, whole as real;
      var q := x / y;
      assert Percentage(part, whole) == q * 100.0;
      assert q * y == x && x <= y && 0.0 <= x;
      MulMonotone(q, 1.0, y);
      MulMonotone(1.0, q, y);
      MulMonotone(0.0, q, y);
      assert 0.0 <= q <= 1.0;
      if x == y {
        assert 1.0 * y <= q * y;
      }
    }
  }

  lemma MulMonotone(a: real, b: real, c: real)
    requires c > 0.0
    ensures a <= b <==> a * c <= b * c
  {
  }

  /** The three-way common items are among the A-C common ones, which are
      among C's; C splits into its items also in A or B and those unique
      to it. */
  lemma OverlapCounts(setA: set<string>, setB: set<string>, setC: set<string>)
    ensures var o := OverlapOf(setA, setB, setC);
      o.commonAll <= o.commonAC <= o.uniqueC &&
      o.uniqueCOnly + |setC * (setA + setB)| == o.uniqueC
  {
    SubsetCard(setA * setB * setC, setA * setC);
    SubsetCard(setA * setC, setC);
    var only, shared := setC - setA - setB, setC * (setA + setB);
    assert only * shared == {};
    assert only + shared == setC;
    DisjointCard(only, shared, setC);
  }

  /** The percentage lies in [0, 100], is 0 for an empty C, and is 100
      exactly when every item of C also occurs in A. */
  lemma OverlapPercentage(a: map<string, nat>, b: map<string, nat>, c: map<string, nat>)
    ensures var o := AnalyzeOverlap(a, b, c);
      0.0 <= o.overlapPct <= 100.0 &&
      (o.uniqueC == 0 ==> o.overlapPct == 0.0) &&
      (o.uniqueC > 0 ==> (o.overlapPct == 100.0 <==> c.Keys <= a.Keys))
  {
    var setA, setC := a.Keys, c.Keys;
    var common := setA * setC;
    SubsetCard(common, setC);
    PercentageSpec(|common|, |setC|);
    SameCardSubset(common, setC);
  }

  lemma SameCardSubset(s: set<string>, t: set<string>)
    requires s <= t
    ensures |s| == |t| <==> s == t
  {
    if |s| == |t| {
      DisjointCard(t - s, s, t);
      assert t - s == {};
      forall x | x in t ensures x in s {
        assert x !in t - s;
      }
    }
  }

  lemma SubsetCard(s: set<string>, t: set<string>)
    requires s <= t
    ensures |s| <= |t|
  {
    assert t == s + (t - s);
  }

  lemma DisjointCard(s: set<string>, t: set<string>, u: set<string>)
    requires s * t == {} && s + t == u
    ensures |s| + |t| == |u|
  {
  }
}
