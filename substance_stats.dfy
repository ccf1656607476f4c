/** The summary helpers of `compound_categorization.py`: the distance
    distribution of a keyword table and the categorisation summary of a
    substance list. */
module SubstanceStats {
  import opened Wrappers
  import opened Text
  import opened Grouping
  import opened Keywords
  import Categorisers

  // ---------------------------------------------------------------------
  // get_distance_distribution
  // ---------------------------------------------------------------------

  /** The names of the categories with distance `d`, in table order. */
  function NamesAt(t: seq<Category>, d: real): seq<string>
    decreases |t|
  {
    if t == [] then []
    else NamesAt(t[..|t| - 1], d) + (if t[|t| - 1].distance == d then [t[|t| - 1].name] else [])
  }

  /** The dictionary after the first `|t|` categories: each distance maps
      to the list its categories were appended to. */
  function Distribution(t: seq<Category>): map<real, seq<string>>
    decreases |t|
  {
    if t == [] then map[]
    else
      var m := Distribution(t[..|t| - 1]);
      var c := t[|t| - 1];
      m[c.distance := (if c.distance in m then m[c.distance] else []) + [c.name]]
  }

  method DistanceDistribution(t: seq<Category>) returns (m: map<real, seq<string>>)
    ensures m == Distribution(t)
  {
    m := map[];
    var i := 0;
    while i < |t|
      invariant 0 <= i <= |t|
      invariant m == Distribution(t[..i])
    {
      assert t[..i + 1][..i] == t[..i];
      var d := t[i].distance;
      if d !in m {
        m := m[d := []];
      }
      m := m[d := m[d] + [t[i].name]];
      i := i + 1;
    }
    assert t[..|t|] == t;
  }

  /** The keys are exactly the table's distances, and each distance lists
      its own categories, in table order. */
  lemma {:induction false} DistributionSpec(t: seq<Category>, d: real)
    ensures d in Distribution(t) <==> exists i :: 0 <= i < |t| && t[i].distance == d
    ensures d in Distribution(t) ==> Distribution(t)[d] == NamesAt(t, d)
    decreases |t|
  {
    if t != [] {
      var init := t[..|t| - 1];
      DistributionSpec(init, d);
      assert forall i :: 0 <= i < |init| ==> init[i] == t[i];
      if d !in Distribution(init) {
        NamesAtEmpty(init, d);
      }
    }
  }

  lemma {:induction false} NamesAtEmpty(t: seq<Category>, d: real)
    requires forall i :: 0 <= i < |t| ==> t[i].distance != d
    ensures NamesAt(t, d) == []
    decreases |t|
  {
    if t != [] {
      NamesAtEmpty(t[..|t| - 1], d);
    }
  }

  /** A category is listed under a distance exactly when it has that
      distance; with distinct names each is listed once. */
  lemma {:induction false} NamesAtSpec(t: seq<Category>, d: real)
    ensures forall n :: n in NamesAt(t, d) <==> exists i :: 0 <= i < |t| && t[i].name == n && t[i].distance == d
    ensures Distinct(Names(t)) ==> Distinct(NamesAt(t, d))
    decreases |t|
  {
    if t != [] {
      var init := t[..|t| - 1];
      NamesAtSpec(init, d);
      assert forall i :: 0 <= i < |init| ==> init[i] == t[i];
      if Distinct(Names(t)) {
        assert Names(init) == Names(t)[..|t| - 1];
        var last := t[|t| - 1];
        assert Distinct(Names(init));
        if last.distance == d {
          var ns := NamesAt(init, d);
          forall n | n in ns ensures n != last.name {
            var i :| 0 <= i < |init| && init[i].name == n && init[i].distance == d;
            assert Names(t)[i] == n && Names(t)[|t| - 1] == last.name;
          }
          var ns' := ns + [last.name];
          assert NamesAt(t, d) == ns';
          forall i, j | 0 <= i < j < |ns'| ensures ns'[i] != ns'[j] {
            if j == |ns| {
              assert ns'[i] == ns[i] && ns[i] in ns;
            } else {
              assert ns'[i] == ns[i] && ns'[j] == ns[j];
            }
          }
        }
      }
    }
  }

  // ---------------------------------------------------------------------
  // analyze_substance_list
  // ---------------------------------------------------------------------

  /** The summary dictionary, without `total_substances`. */
  datatype Tally = Tally(categorized: nat, uncategorized: nat, uncategorizedList: seq<string>,
                         categoryCounts: map<string, nat>, distanceCounts: map<Option<real>, nat>)

  /** The summary after the first `|xs|` substances: NaN entries are
      skipped, uncategorised ones are listed, and categorised ones bump
      their category's and their distance's counters. */
  function TallyOf(t: seq<Category>, xs: seq<Option<string>>): Tally
    decreases |xs|
  {
    if xs == [] then Tally(0, 0, [], map[], map[])
    else
      var a := TallyOf(t, xs[..|xs| - 1]);
      var x := xs[|xs| - 1];
      var v := VerdictOf(t, x);
      if x.None? then a
      else
        if v.category == Categorisers.Uncategorized then
          a.(uncategorized := a.uncategorized + 1, uncategorizedList := a.uncategorizedList + [x.value])
        else
          a.(categorized := a.categorized + 1,
             categoryCounts := Bump(a.categoryCounts, v.category),
             distanceCounts := Bump(a.distanceCounts, v.distance))
  }

  function VerdictOf(t: seq<Category>, x: Option<string>): Verdict {
    if x.Some? then Categorisers.FirstMatchCategorize(t, x) else Verdict(Categorisers.Uncategorized, None)
  }

  /** The verdicts of the categorised substances, in list order. */
  function Categorized(t: seq<Category>, xs: seq<Option<string>>): seq<Verdict>
    decreases |xs|
  {
    if xs == [] then []
    else
      var x := xs[|xs| - 1];
      var v := VerdictOf(t, x);
      Categorized(t, xs[..|xs| - 1]) + (if x.Some? && v.category != Categorisers.Uncategorized then [v] else [])
  }

  /** The number of non-NaN entries. */
  function Present(xs: seq<Option<string>>): nat
    decreases |xs|
  {
    if xs == [] then 0 else Present(xs[..|xs| - 1]) + (if xs[|xs| - 1].Some? then 1 else 0)
  }

  method AnalyzeSubstanceList(t: seq<Category>, xs: seq<Option<string>>) returns (total: nat, a: Tally)
    ensures total == |xs| && a == TallyOf(t, xs)
  {
    total := |xs|;
    a := Tally(0, 0, [], map[], map[]);
    var i := 0;
    while i < |xs|
      invariant 0 <= i <= |xs|
      invariant a == TallyOf(t, xs[..i])
    {
      assert xs[..i + 1][..i] == xs[..i];
      var x := xs[i];
      if x.Some? {
        var v := Categorisers.CategorizeFirstMatch(t, x);
        if v.category == Categorisers.Uncategorized {
          a := a.(uncategorized := a.uncategorized + 1, uncategorizedList := a.uncategorizedList + [x.value]);
        } else {
          a := a.(categorized := a.categorized + 1);
          a := a.(categoryCounts := Bump(a.categoryCounts, v.category));
          a := a.(distanceCounts := Bump(a.distanceCounts, v.distance));
        }
      }
      i := i + 1;
    }
    assert xs[..|xs|] == xs;
  }

  /** Categorised plus uncategorised is the number of non-NaN entries; the
      uncategorised list has one entry per uncategorised substance; the
      categorised count is the number of categorised verdicts. */
  lemma {:induction false} TallyTotals(t: seq<Category>, xs: seq<Option<string>>)
    ensures TallyOf(t, xs).categorized + TallyOf(t, xs).uncategorized == Present(xs)
    ensures |TallyOf(t, xs).uncategorizedList| == TallyOf(t, xs).uncategorized
    ensures TallyOf(t, xs).categorized == |Categorized(t, xs)|
    decreases |xs|
  {
    if xs != [] {
      TallyTotals(t, xs[..|xs| - 1]);
    }
  }

  /** Each category counter counts the categorised substances of that
      category, and has a key exactly for the categories that occur. */
  lemma {:induction false} CategoryCountsSpec(t: seq<Category>, xs: seq<Option<string>>, k: string)
    ensures CountOf(TallyOf(t, xs).categoryCounts, k) == |Members(Categorized(t, xs), (v: Verdict) => v.category, k)|
    ensures k in TallyOf(t, xs).categoryCounts <==> CountOf(TallyOf(t, xs).categoryCounts, k) > 0
    decreases |xs|
  {
    if xs != [] {
      var init := xs[..|xs| - 1];
      CategoryCountsSpec(t, init, k);
      var x := xs[|xs| - 1];
      var v := VerdictOf(t, x);
      if x.Some? && v.category != Categorisers.Uncategorized {
        assert Categorized(t, xs) == Categorized(t, init) + [v];
        MembersSnoc(Categorized(t, init), v, (v: Verdict) => v.category, k);
      } else {
        assert Categorized(t, xs) == Categorized(t, init) + [];
        assert Categorized(t, init) + [] == Categorized(t, init);
        assert TallyOf(t, xs).categoryCounts == TallyOf(t, init).categoryCounts;
      }
    }
  }

  /** Each distance counter counts the categorised substances with that
      distance, and has a key exactly for the distances that occur. */
  lemma {:induction false} DistanceCountsSpec(t: seq<Category>, xs: seq<Option<string>>, d: Option<real>)
    ensures CountOf(TallyOf(t, xs).distanceCounts, d) == |Members(Categorized(t, xs), (v: Verdict) => v.distance, d)|
    ensures d in TallyOf(t, xs).distanceCounts <==> CountOf(TallyOf(t, xs).distanceCounts, d) > 0
    decreases |xs|
  {
    if xs != [] {
      var init := xs[..|xs| - 1];
      DistanceCountsSpec(t, init, d);
      var x := xs[|xs| - 1];
      var v := VerdictOf(t, x);
      if x.Some? && v.category != Categorisers.Uncategorized {
        assert Categorized(t, xs) == Categorized(t, init) + [v];
        MembersSnoc(Categorized(t, init), v, (v: Verdict) => v.distance, d);
      } else {
        assert Categorized(t, xs) == Categorized(t, init) + [];
        assert Categorized(t, init) + [] == Categorized(t, init);
        assert TallyOf(t, xs).distanceCounts == TallyOf(t, init).distanceCounts;
      }
    }
  }

  /** The category counters, summed over the categories in first-seen
      order, give the categorised count; so do the distance counters. */
  lemma CountsSumToCategorized(t: seq<Category>, xs: seq<Option<string>>)
    ensures var a := TallyOf(t, xs); var c := Categorized(t, xs);
      SumOver(GroupKeys(c, (v: Verdict) => v.category), k => CountOf(a.categoryCounts, k) as real) == a.categorized as real
    ensures var a := TallyOf(t, xs); var c := Categorized(t, xs);
      SumOver(GroupKeys(c, (v: Verdict) => v.distance), d => CountOf(a.distanceCounts, d) as real) == a.categorized as real
  {
    var a := TallyOf(t, xs);
    var c := Categorized(t, xs);
    var one := (v: Verdict) => 1.0;
    TallyTotals(t, xs);
    SumOfOnes(c, one);
    forall k: string ensures CountOf(a.categoryCounts, k) as real == SumBy(Members(c, (v: Verdict) => v.category, k), one) {
      CategoryCountsSpec(t, xs, k);
      SumOfOnes(Members(c, (v: Verdict) => v.category, k), one);
    }
    GroupSumsTotalOwnKeys(c, (v: Verdict) => v.category, one, k => CountOf(a.categoryCounts, k) as real);
    forall d: Option<real> ensures CountOf(a.distanceCounts, d) as real == SumBy(Members(c, (v: Verdict) => v.distance, d), one) {
      DistanceCountsSpec(t, xs, d);
      SumOfOnes(Members(c, (v: Verdict) => v.distance, d), one);
    }
    GroupSumsTotalOwnKeys(c, (v: Verdict) => v.distance, one, d => CountOf(a.distanceCounts, d) as real);
  }
}
