/** The Step 5 utilities (risikovurdering/step5_utils.py): the substance
    categoriser Step 5 calls, landfill detection from branch and activity
    text with its module-global keyword statistics, the GVFK name
    extraction, and the split of sites into those with and without data
    that qualifies them for the assessment. */
module LandfillScreen {
  import opened Wrappers
  import opened Text
  import opened Grouping
  import opened Keywords
  import opened Categorisers
  import KeywordTables

  const Losseplads: string := "LOSSEPLADS"

  // ---------------------------------------------------------------------
  // categorize_contamination_substance
  // ---------------------------------------------------------------------

  /** ('ANDRE', 500) for a non-string; otherwise the compound categoriser's
      verdict, its distance completed from the category table if missing. */
  function SubstanceVerdict(t: seq<Category>, text: Option<string>): (string, real) {
    if text.None? then (Andre, DefaultDistance)
    else
      var v := Categorize(t, text);
      (v.category, if v.distance.Some? then v.distance.value else CategoryDistance(t, v.category))
  }

  method CategorizeContaminationSubstance(t: seq<Category>, text: Option<string>) returns (category: string, distance: real)
    ensures (category, distance) == SubstanceVerdict(t, text)
  {
    if text.None? {
      return Andre, DefaultDistance;
    }
    var v := CategorizeSubstance(t, text);
    category := v.category;
    if v.distance.Some? {
      distance := v.distance.value;
    } else {
      distance := CategoryDistance(t, v.category);
    }
  }

  /** The compound categoriser always yields a distance, so the completion
      from the table never applies: the verdict is the categoriser's own,
      a table category or ANDRE. */
  lemma SubstanceVerdictSpec(t: seq<Category>, text: Option<string>)
    ensures text.None? ==> SubstanceVerdict(t, text) == (Andre, DefaultDistance)
    ensures text.Some? ==> (Categorize(t, text).distance.Some? &&
      SubstanceVerdict(t, text) == (Categorize(t, text).category, Categorize(t, text).distance.value))
    ensures SubstanceVerdict(t, text).0 == Andre || SubstanceVerdict(t, text).0 in Names(t)
  {
    CategorizeSpec(t, text);
  }

  // ---------------------------------------------------------------------
  // Landfill terms
  // ---------------------------------------------------------------------

  /** The terms `categorize_by_branch_activity` looks for, in its order. */
  const LandfillTerms: seq<string> := ["losseplads", "affald", "depon", "fyldplads", "skraldeplads"]

  /** The terms `separate_sites_by_substance_data` looks for. */
  const QualifyingTerms: seq<string> := ["losseplads", "affald", "deponi", "fyld", "skraldeplads"]

  /** The index of the first term inside the text. */
  function FirstTerm(terms: seq<string>, s: string): (r: Option<nat>)
    ensures r.Some? ==> r.value < |terms| && Contains(s, terms[r.value])
    ensures r.Some? ==> forall j :: 0 <= j < r.value ==> !Contains(s, terms[j])
    ensures r.None? <==> forall j :: 0 <= j < |terms| ==> !Contains(s, terms[j])
  {
    if terms == [] then None
    else if Contains(s, terms[0]) then Some(0)
    else match FirstTerm(terms[1..], s)
      case None => None
      case Some(k) => Some(k + 1)
  }

  /** `contains_landfill_terms` of the categoriser: the first landfill term
      in the lower-cased text, nothing for NaN. */
  function LandfillHit(text: Option<string>): (r: Option<string>)
    ensures r.Some? ==> r.value in LandfillTerms
  {
    if text.None? then None
    else match FirstTerm(LandfillTerms, Lower(text.value))
      case Some(i) => Some(LandfillTerms[i])
      case None => None
  }

  /** The landfill term found is the first of the list in the text, and
      none is found exactly when no term occurs. */
  lemma LandfillHitSpec(text: Option<string>)
    ensures LandfillHit(text).None? <==>
      text.None? || forall j :: 0 <= j < |LandfillTerms| ==> !Contains(Lower(text.value), LandfillTerms[j])
    ensures LandfillHit(text).Some? ==>
      exists i :: 0 <= i < |LandfillTerms| && LandfillHit(text).value == LandfillTerms[i] &&
        Contains(Lower(text.value), LandfillTerms[i]) &&
        forall j :: 0 <= j < i ==> !Contains(Lower(text.value), LandfillTerms[j])
  {
  }

  /** The category of a site known only by its branch and activity. */
  function BranchActivityVerdict(t: seq<Category>, branch: Option<string>, activity: Option<string>): (string, real) {
    if LandfillHit(branch).Some? || LandfillHit(activity).Some? then (Losseplads, CategoryDistance(t, Losseplads))
    else (Andre, DefaultDistance)
  }

  /** LOSSEPLADS, at the table's LOSSEPLADS distance, exactly when the
      branch or the activity text holds a landfill term; otherwise
      ('ANDRE', 500). */
  lemma BranchActivityVerdictSpec(t: seq<Category>, branch: Option<string>, activity: Option<string>)
    ensures var landfill :=
      (branch.Some? && exists j :: 0 <= j < |LandfillTerms| && Contains(Lower(branch.value), LandfillTerms[j])) ||
      (activity.Some? && exists j :: 0 <= j < |LandfillTerms| && Contains(Lower(activity.value), LandfillTerms[j]));
      BranchActivityVerdict(t, branch, activity) ==
        if landfill then (Losseplads, CategoryDistance(t, Losseplads)) else (Andre, DefaultDistance)
  {
    LandfillHitSpec(branch);
    LandfillHitSpec(activity);
  }

  /** In the compound category table LOSSEPLADS lies 100 m out. */
  lemma LossepladsDistance()
    ensures CategoryDistance(KeywordTables.CompoundCategories, Losseplads) == 100.0
  {
    var t := KeywordTables.CompoundCategories;
    assert t[|t| - 1].name == Losseplads;
    assert forall i :: 0 <= i < |t| - 1 ==> t[i].name != Losseplads;
  }

  // ---------------------------------------------------------------------
  // The keyword statistics
  // ---------------------------------------------------------------------

  /** The counters after a sequence of hits: one per term, bumped once for
      every hit of that term. */
  function Counts(hits: seq<Option<string>>): map<string, nat> {
    if hits == [] then map[]
    else
      var m := Counts(hits[..|hits| - 1]);
      match hits[|hits| - 1]
      case None => m
      case Some(k) => Bump(m, k)
  }

  /** How many of the hits are `x`. */
  function Occurrences(hits: seq<Option<string>>, x: Option<string>): nat {
    if hits == [] then 0
    else Occurrences(hits[..|hits| - 1], x) + (if hits[|hits| - 1] == x then 1 else 0)
  }

  /** A counter holds the number of hits of its term, is present exactly
      for the terms hit at least once, and never exceeds the number of
      checks. */
  lemma {:induction false} CountsSpec(hits: seq<Option<string>>, k: string)
    ensures CountOf(Counts(hits), k) == Occurrences(hits, Some(k))
    ensures k in Counts(hits) <==> Occurrences(hits, Some(k)) > 0
    ensures Occurrences(hits, Some(k)) <= |hits|
  {
    if hits != [] {
      CountsSpec(hits[..|hits| - 1], k);
    }
  }

  function BranchHits(checks: seq<(Option<string>, Option<string>)>): seq<Option<string>> {
    if checks == [] then []
    else BranchHits(checks[..|checks| - 1]) + [LandfillHit(checks[|checks| - 1].0)]
  }

  function ActivityHits(checks: seq<(Option<string>, Option<string>)>): seq<Option<string>> {
    if checks == [] then []
    else ActivityHits(checks[..|checks| - 1]) + [LandfillHit(checks[|checks| - 1].1)]
  }

  lemma {:induction false} HitsLength(checks: seq<(Option<string>, Option<string>)>)
    ensures |BranchHits(checks)| == |checks| && |ActivityHits(checks)| == |checks|
  {
    if checks != [] {
      HitsLength(checks[..|checks| - 1]);
    }
  }

  /** A counter never exceeds the number of checks, and only landfill
      terms are ever counted. */
  lemma CountsBounded(checks: seq<(Option<string>, Option<string>)>, k: string)
    ensures CountOf(Counts(BranchHits(checks)), k) <= |checks|
    ensures CountOf(Counts(ActivityHits(checks)), k) <= |checks|
    ensures k in Counts(BranchHits(checks)) ==> k in LandfillTerms
    ensures k in Counts(ActivityHits(checks)) ==> k in LandfillTerms
  {
    HitsLength(checks);
    CountsSpec(BranchHits(checks), k);
    CountsSpec(ActivityHits(checks), k);
    if k in Counts(BranchHits(checks)) {
      OccursAsHitOfTerm(BranchHits(checks), k, checks, true);
    }
    if k in Counts(ActivityHits(checks)) {
      OccursAsHitOfTerm(ActivityHits(checks), k, checks, false);
    }
  }

  lemma {:induction false} OccursAsHitOfTerm(hits: seq<Option<string>>, k: string,
                                             checks: seq<(Option<string>, Option<string>)>, branchSide: bool)
    requires hits == (if branchSide then BranchHits(checks) else ActivityHits(checks))
    requires Occurrences(hits, Some(k)) > 0
    ensures k in LandfillTerms
  {
    var init := checks[..|checks| - 1];
    var last := checks[|checks| - 1];
    var h := if branchSide then LandfillHit(last.0) else LandfillHit(last.1);
    if h != Some(k) {
      OccursAsHitOfTerm(if branchSide then BranchHits(init) else ActivityHits(init), k, init, branchSide);
    }
  }

  /** `_KEYWORD_STATS`: the counters of landfill terms found in branch and
      in activity texts, and the number of checks made. `checks` records
      the arguments of every check so far. */
  class KeywordStats {
    var branch: map<string, nat>
    var activity: map<string, nat>
    var totalChecks: nat
    ghost var checks: seq<(Option<string>, Option<string>)>

    ghost predicate Valid()
      reads this
    {
      totalChecks == |checks| &&
      branch == Counts(BranchHits(checks)) &&
      activity == Counts(ActivityHits(checks))
    }

    constructor ()
      ensures Valid() && checks == []
      ensures branch == map[] && activity == map[] && totalChecks == 0
    {
      branch := map[];
      activity := map[];
      totalChecks := 0;
      checks := [];
    }

    /** `categorize_by_branch_activity`: counts the check, bumps the counter
        of the first landfill term in each text, and returns the verdict. */
    method CategorizeByBranchActivity(t: seq<Category>, branchText: Option<string>, activityText: Option<string>)
      returns (category: string, distance: real)
      requires Valid()
      modifies this
      ensures Valid() && checks == old(checks) + [(branchText, activityText)]
      ensures totalChecks == old(totalChecks) + 1
      ensures branch == (if LandfillHit(branchText).Some? then Bump(old(branch), LandfillHit(branchText).value) else old(branch))
      ensures activity == (if LandfillHit(activityText).Some? then Bump(old(activity), LandfillHit(activityText).value) else old(activity))
      ensures (category, distance) == BranchActivityVerdict(t, branchText, activityText)
    {
      totalChecks := totalChecks + 1;
      var branchHit := ContainsLandfillTerms(branchText);
      var activityHit := ContainsLandfillTerms(activityText);
      if branchHit.Some? {
        branch := Bump(branch, branchHit.value);
      }
      if activityHit.Some? {
        activity := Bump(activity, activityHit.value);
      }
      checks := checks + [(branchText, activityText)];
      assert checks[..|checks| - 1] == old(checks);
      if branchHit.Some? || activityHit.Some? {
        return Losseplads, CategoryDistance(t, Losseplads);
      }
      return Andre, DefaultDistance;
    }

    /** `get_keyword_stats`: a snapshot of the counters. */
    method GetKeywordStats() returns (s: StatsSnapshot)
      requires Valid()
      ensures s == StatsSnapshot(branch, activity, totalChecks)
      ensures forall k :: CountOf(s.branch, k) <= s.totalChecks && CountOf(s.activity, k) <= s.totalChecks
    {
      forall k ensures CountOf(branch, k) <= totalChecks && CountOf(activity, k) <= totalChecks {
        CountsBounded(checks, k);
      }
      s := StatsSnapshot(branch, activity, totalChecks);
    }
  }

  /** The dictionary `get_keyword_stats` returns. */
  datatype StatsSnapshot = StatsSnapshot(branch: map<string, nat>, activity: map<string, nat>, totalChecks: nat)

  /** The keyword loop of `contains_landfill_terms`. */
  method ContainsLandfillTerms(text: Option<string>) returns (hit: Option<string>)
    ensures hit == LandfillHit(text)
  {
    if text.None? {
      return None;
    }
    var lower := Lower(text.value);
    var i := 0;
    while i < |LandfillTerms|
      invariant 0 <= i <= |LandfillTerms|
      invariant forall j :: 0 <= j < i ==> !Contains(lower, LandfillTerms[j])
    {
      if Contains(lower, LandfillTerms[i]) {
        return Some(LandfillTerms[i]);
      }
      i := i + 1;
    }
    return None;
  }

  // ---------------------------------------------------------------------
  // _extract_unique_gvfk_names
  // ---------------------------------------------------------------------

  /** A raw GVFK value the extraction accepts: not NaN, not the text 'nan'
      and not empty, all judged before stripping. */
  predicate AcceptedGvfk(v: Option<string>) {
    v.Some? && v.value != "nan" && v.value != ""
  }

  /** The stripped accepted values of a column. */
  function AcceptedNames(column: seq<Option<string>>): set<string> {
    if column == [] then {}
    else
      var v := column[|column| - 1];
      AcceptedNames(column[..|column| - 1]) + (if AcceptedGvfk(v) then {Strip(v.value)} else {})
  }

  /** The names of the 'GVFK' column, none if the column is missing. */
  function GvfkNames(hasColumn: bool, column: seq<Option<string>>): set<string> {
    if hasColumn then AcceptedNames(column) else {}
  }

  method ExtractUniqueGvfkNames(hasColumn: bool, column: seq<Option<string>>) returns (names: set<string>)
    ensures names == GvfkNames(hasColumn, column)
  {
    names := {};
    if !hasColumn {
      return;
    }
    var i := 0;
    while i < |column|
      invariant 0 <= i <= |column|
      invariant names == AcceptedNames(column[..i])
    {
      assert column[..i + 1][..i] == column[..i];
      if AcceptedGvfk(column[i]) {
        names := names + {Strip(column[i].value)};
      }
      i := i + 1;
    }
    assert column[..|column|] == column;
  }

  /** Every accepted value is extracted in stripped form. */
  lemma {:induction false} AcceptedNamesHas(column: seq<Option<string>>, i: nat)
    requires i < |column| && AcceptedGvfk(column[i])
    ensures Strip(column[i].value) in AcceptedNames(column)
  {
    var init := column[..|column| - 1];
    if i < |init| {
      assert init[i] == column[i];
      AcceptedNamesHas(init, i);
    }
  }

  /** Every extracted name is a stripped accepted value. */
  lemma {:induction false} AcceptedNamesFrom(column: seq<Option<string>>, x: string)
    requires x in AcceptedNames(column)
    ensures exists i :: 0 <= i < |column| && AcceptedGvfk(column[i]) && Strip(column[i].value) == x
  {
    var init := column[..|column| - 1];
    var v := column[|column| - 1];
    if AcceptedGvfk(v) && x == Strip(v.value) {
      assert column[|column| - 1] == v;
    } else {
      AcceptedNamesFrom(init, x);
      var i :| 0 <= i < |init| && AcceptedGvfk(init[i]) && Strip(init[i].value) == x;
      assert column[i] == init[i];
    }
  }

  /** The tests come before stripping: a value of blanks yields the empty
      name. */
  lemma BlankGvfkKept()
    ensures GvfkNames(true, [Some(" ")]) == {""}
  {
    var b := " ";
    assert b != "nan" && b != "";
    assert StripLeft(b) == StripLeft(b[1..]);
    assert b[1..] == "";
    assert Strip(b) == "";
    assert [Some(b)][..0] == [];
  }

  /** The names as the docstring means them: stripped first, then the
      empty name and 'nan' excluded. */
  function CleanNames(column: seq<Option<string>>): set<string> {
    if column == [] then {}
    else
      var v := column[|column| - 1];
      var n := if v.Some? then Strip(v.value) else "";
      CleanNames(column[..|column| - 1]) + (if n != "" && n != "nan" then {n} else {})
  }

  /** No clean name is empty or 'nan' or has surrounding blanks, and each
      is also extracted as written. */
  lemma {:induction false} CleanNamesSpec(column: seq<Option<string>>)
    ensures "" !in CleanNames(column) && "nan" !in CleanNames(column)
    ensures forall x :: x in CleanNames(column) ==> Strip(x) == x && x in AcceptedNames(column)
  {
    if column != [] {
      var init := column[..|column| - 1];
      CleanNamesSpec(init);
      var v := column[|column| - 1];
      if v.Some? {
        StripIdempotent(v.value);
        if Strip(v.value) != "" && Strip(v.value) != "nan" {
          StripKeepsNan(v.value);
        }
      }
    }
  }

  lemma StripKeepsNan(s: string)
    requires Strip(s) != "nan"
    ensures s != "nan"
  {
    if s == "nan" {
      StripKeeps(s);
    }
  }

  // ---------------------------------------------------------------------
  // separate_sites_by_substance_data
  // ---------------------------------------------------------------------

  /** The columns of a Step 4 row the split reads. */
  datatype ScreenRow = ScreenRow(site: string, substances: Option<string>, branch: Option<string>, activity: Option<string>)

  /** Substance data: not NaN, not blank, and not the text 'nan'. */
  predicate HasSubstances(v: Option<string>) {
    v.Some? && Strip(v.value) != "" && v.value != "nan"
  }

  /** Landfill data for the split: a qualifying term in the lower-cased text. */
  predicate QualifyingText(v: Option<string>) {
    v.Some? && exists j :: 0 <= j < |QualifyingTerms| && Contains(Lower(v.value), QualifyingTerms[j])
  }

  predicate Qualifies(r: ScreenRow) {
    HasSubstances(r.substances) || QualifyingText(r.branch) || QualifyingText(r.activity)
  }

  function Keep(rows: seq<ScreenRow>, want: bool): (r: seq<ScreenRow>)
    ensures forall x :: x in r <==> x in rows && Qualifies(x) == want
  {
    if rows == [] then []
    else (if Qualifies(rows[0]) == want then [rows[0]] else []) + Keep(rows[1..], want)
  }

  /** The rows with and the rows without qualifying data, each in table order. */
  function Separate(rows: seq<ScreenRow>): (seq<ScreenRow>, seq<ScreenRow>) {
    (Keep(rows, true), Keep(rows, false))
  }

  /** The two parts split the table: every row is in exactly one of them,
      as often as in the table. */
  lemma {:induction false} SeparateSpec(rows: seq<ScreenRow>)
    ensures multiset(Separate(rows).0) + multiset(Separate(rows).1) == multiset(rows)
    ensures forall r :: r in Separate(rows).0 <==> r in rows && Qualifies(r)
    ensures forall r :: r in Separate(rows).1 <==> r in rows && !Qualifies(r)
  {
    if rows != [] {
      SeparateSpec(rows[1..]);
      assert rows == [rows[0]] + rows[1..];
    }
  }

  /** A text holding a term holds every prefix of it. */
  lemma ContainsPrefixOf(s: string, sub: string, n: nat)
    requires Contains(s, sub) && n <= |sub|
    ensures Contains(s, sub[..n])
  {
    IndexOfContains(s, sub);
    var i := IndexOf(s, sub).value;
    assert s[i..i + n] == sub[..n];
    ContainsAt(s, sub[..n], i);
  }

  /** A landfill term for the categoriser is a qualifying term for the
      split, except 'depon' without 'deponi' after it. */
  lemma LandfillUsuallyQualifies(text: Option<string>)
    requires LandfillHit(text).Some?
    ensures QualifyingText(text) ||
      (Contains(Lower(text.value), "depon") && !Contains(Lower(text.value), "deponi"))
  {
    LandfillHitSpec(text);
    var s := Lower(text.value);
    var i :| 0 <= i < |LandfillTerms| && LandfillHit(text).value == LandfillTerms[i] && Contains(s, LandfillTerms[i]);
    if i == 0 {
      assert QualifyingTerms[0] == LandfillTerms[0];
    } else if i == 1 {
      assert QualifyingTerms[1] == LandfillTerms[1];
    } else if i == 2 {
      if Contains(s, "deponi") {
        assert Contains(s, QualifyingTerms[2]);
      }
    } else if i == 3 {
      ContainsPrefixOf(s, "fyldplads", 4);
      assert "fyldplads"[..4] == "fyld";
      assert Contains(s, QualifyingTerms[3]);
    } else {
      assert QualifyingTerms[4] == LandfillTerms[4];
    }
  }

  /** A text shorter than a term does not hold it. */
  lemma ShorterLacks(s: string, sub: string)
    requires |s| < |sub|
    ensures !Contains(s, sub)
    decreases |s|
  {
    if s != [] {
      ShorterLacks(s[1..], sub);
    }
  }

  /** The two term lists disagree both ways: 'depon' makes a LOSSEPLADS
      site for the categoriser but no qualifying site for the split, and
      'fyld' the other way round. */
  lemma DeponOnlyLandfill()
    ensures LandfillHit(Some("depon")) == Some("depon") && !QualifyingText(Some("depon"))
  {
    var d := "depon";
    assert Lower(d) == d;
    ContainsAt(d, d, 0);
    ShorterLacks(d, "losseplads");
    ShorterLacks(d, "affald");
    ShorterLacks(d, "deponi");
    ShorterLacks(d, "skraldeplads");
    NoFyld();
    assert FirstTerm(LandfillTerms, d) == Some(2);
  }

  lemma FyldOnlyQualifying()
    ensures QualifyingText(Some("fyld")) && LandfillHit(Some("fyld")) == None
  {
    var f := "fyld";
    assert Lower(f) == f;
    ContainsAt(f, f, 0);
    assert Contains(f, QualifyingTerms[3]);
    ShorterLacks(f, "losseplads");
    ShorterLacks(f, "affald");
    ShorterLacks(f, "depon");
    ShorterLacks(f, "fyldplads");
    ShorterLacks(f, "skraldeplads");
  }

  lemma NoFyld()
    ensures !Contains("depon", "fyld")
  {
    var d := "depon";
    assert d[..4][0] == 'd';
    assert d[1..] == "epon";
    var e := "epon";
    assert e[..4][0] == 'e';
    assert e[1..] == "pon";
    ShorterLacks("pon", "fyld");
  }
}
